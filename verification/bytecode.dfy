/** The emptiness verifier of `_is_empty_function`, taken over a body that has
    already been decoded into instructions, together with the constant and
    global-name tables of its code object. */
module Bytecode {
  import opened Wrappers
  import opened Errors

  /** An entry of `co_consts`: only whether it is `None` matters here. */
  datatype Const = NoneConst | OtherConst

  /** A decoded instruction (`dis.Instruction`): its name and raw argument. */
  datatype Instr = Instr(opname: string, arg: nat)

  datatype RawCode = RawCode(instrs: seq<Instr>, consts: seq<Const>, names: seq<string>)

  /** What the CPython 3 compilers before 3.11 guarantee of every compiled
      body: a body of two or more instructions ends in RETURN_VALUE (line 226
      asserts it), and the arguments of LOAD_CONST and LOAD_GLOBAL index
      their tables. */
  predicate WellFormed(c: RawCode) {
    && (|c.instrs| >= 2 ==> c.instrs[|c.instrs| - 1].opname == "RETURN_VALUE")
    && (forall i :: 0 <= i < |c.instrs| && c.instrs[i].opname == "LOAD_CONST" ==> c.instrs[i].arg < |c.consts|)
    && (forall i :: 0 <= i < |c.instrs| && c.instrs[i].opname == "LOAD_GLOBAL" ==> c.instrs[i].arg < |c.names|)
  }

  type Code = c: RawCode | WellFormed(c) witness RawCode([], [], [])

  /** Instruction `i` pushes the constant `None`. */
  predicate LoadsNone(c: Code, i: nat)
    requires i < |c.instrs|
  {
    c.instrs[i].opname == "LOAD_CONST" && c.consts[c.instrs[i].arg] == NoneConst
  }

  /** Instruction `i` pushes the global `NotImplementedError`. */
  predicate LoadsNotImplemented(c: Code, i: nat)
    requires i < |c.instrs|
  {
    c.instrs[i].opname == "LOAD_GLOBAL" && c.names[c.instrs[i].arg] == "NotImplementedError"
  }

  /** Lines 237-239: some instruction before position `end` loads
      `NotImplementedError`. */
  predicate LoadsNotImplementedBefore(c: Code, end: nat)
    requires end <= |c.instrs|
  {
    exists i :: 0 <= i < end && LoadsNotImplemented(c, i)
  }

  /** Lines 224-241 as written. After the implicit `return None` is stripped
      and the remaining last instruction is RAISE_VARARGS, the code reads
      `instructions[-2]`; when that RAISE_VARARGS is the only instruction left
      (the body `raise`), Python raises IndexError. */
  function IsEmptyAsWritten(c: Code): (r: Result<bool, Error>)
    ensures r.Failure? <==>
              |c.instrs| == 3 && LoadsNone(c, 1) && c.instrs[0].opname == "RAISE_VARARGS"
    ensures r.Failure? ==> r.error == InstructionIndex
  {
    var n := |c.instrs|;
    if n < 2 then Success(true)
    else if !LoadsNone(c, n - 2) then Success(false)
    else if n - 2 == 0 then Success(true)
    else if c.instrs[n - 3].opname == "RAISE_VARARGS" then
      if n - 2 < 2 then Failure(InstructionIndex)
      else Success(c.instrs[n - 4].opname == "CALL_FUNCTION" && LoadsNotImplementedBefore(c, n - 4))
    else Success(false)
  }

  /** The verifier with the evidently intended reading of a lone RAISE_VARARGS:
      a body that is not a raise of a constructed exception is not empty. */
  function IsEmptyBody(c: Code): (r: bool)
    ensures |c.instrs| >= 2 && !LoadsNone(c, |c.instrs| - 2) ==> !r
    ensures |c.instrs| == 2 && LoadsNone(c, 0) ==> r
  {
    var n := |c.instrs|;
    if n < 2 then true
    else if !LoadsNone(c, n - 2) then false
    else if n - 2 == 0 then true
    else if c.instrs[n - 3].opname == "RAISE_VARARGS" then
      n - 2 >= 2 && c.instrs[n - 4].opname == "CALL_FUNCTION" && LoadsNotImplementedBefore(c, n - 4)
    else false
  }

  /** The corrected verifier agrees with the source on every body the source
      classifies without raising. */
  lemma AsWrittenAgrees(c: Code)
    requires IsEmptyAsWritten(c).Success?
    ensures IsEmptyAsWritten(c).value == IsEmptyBody(c)
  {
  }

  /** The body `raise` compiles to RAISE_VARARGS 0; LOAD_CONST None;
      RETURN_VALUE. The source raises IndexError on it instead of reporting a
      non-empty function; the corrected verifier reports it non-empty. */
  lemma BareRaiseCounterexample()
    ensures var c: Code := RawCode([Instr("RAISE_VARARGS", 0), Instr("LOAD_CONST", 0), Instr("RETURN_VALUE", 0)], [NoneConst], []);
            IsEmptyAsWritten(c) == Failure(InstructionIndex) && !IsEmptyBody(c)
  {
  }

  /** A placeholder body, described by its shape rather than by the steps of
      the verifier: nothing but the implicit `return None`, or a call whose
      result is raised just before it, with `NotImplementedError` loaded
      somewhere earlier. */
  ghost predicate ImplicitReturnOnly(c: Code) {
    exists ld: Instr, rv: Instr :: c.instrs == [ld, rv] && LoadsNone(c, 0)
  }

  ghost predicate RaisesNotImplemented(c: Code) {
    exists pre: seq<Instr>, call: Instr, raise: Instr, ld: Instr, rv: Instr ::
      && c.instrs == pre + [call, raise, ld, rv]
      && call.opname == "CALL_FUNCTION"
      && raise.opname == "RAISE_VARARGS"
      && LoadsNone(c, |pre| + 2)
      && LoadsNotImplementedBefore(c, |pre|)
  }

  /** The verifier accepts exactly the placeholder bodies (lines 226-241). */
  lemma EmptyIffPlaceholder(c: Code)
    requires |c.instrs| >= 2
    ensures IsEmptyBody(c) <==> ImplicitReturnOnly(c) || RaisesNotImplemented(c)
  {
    if IsEmptyBody(c) {
      EmptyIsPlaceholder(c);
    }
    if ImplicitReturnOnly(c) {
      assert |c.instrs| == 2;
    }
    if RaisesNotImplemented(c) {
      var pre: seq<Instr>, call: Instr, raise: Instr, ld: Instr, rv: Instr :|
        && c.instrs == pre + [call, raise, ld, rv]
        && call.opname == "CALL_FUNCTION"
        && raise.opname == "RAISE_VARARGS"
        && LoadsNone(c, |pre| + 2)
        && LoadsNotImplementedBefore(c, |pre|);
      PlaceholderIsEmpty(c, pre, call, raise, ld, rv);
    }
  }

  lemma EmptyIsPlaceholder(c: Code)
    requires |c.instrs| >= 2 && IsEmptyBody(c)
    ensures ImplicitReturnOnly(c) || RaisesNotImplemented(c)
  {
    var n := |c.instrs|;
    if n == 2 {
      assert c.instrs == [c.instrs[0], c.instrs[1]];
    } else {
      var pre := c.instrs[..n - 4];
      assert c.instrs == pre + [c.instrs[n - 4], c.instrs[n - 3], c.instrs[n - 2], c.instrs[n - 1]];
    }
  }

  lemma PlaceholderIsEmpty(c: Code, pre: seq<Instr>, call: Instr, raise: Instr, ld: Instr, rv: Instr)
    requires c.instrs == pre + [call, raise, ld, rv]
    requires call.opname == "CALL_FUNCTION" && raise.opname == "RAISE_VARARGS"
    requires LoadsNone(c, |pre| + 2) && LoadsNotImplementedBefore(c, |pre|)
    ensures IsEmptyBody(c)
  {
    var n := |c.instrs|;
    assert c.instrs[n - 4] == call && c.instrs[n - 3] == raise;
  }
}
