/** The signature model: a callable's parameter list as reported by
    `getargspec`, its split into required and defaulted names, and the rule
    deciding whether an overriding method may stand in for the base method. */
module Signatures {

  /** `getargspec(func)`: the positional parameter names, the number of
      default values (`len(defaults)`, 0 for `None`), and whether the
      parameter list ends in `*args` and/or `**kwargs`. */
  datatype ArgSpec = ArgSpec(args: seq<string>, nDefaults: nat, hasVarargs: bool, hasKeywords: bool)

  /** `_signature_info`: (required names, defaulted names, *args?, **kwargs?). */
  datatype SignatureInfo = SignatureInfo(required: seq<string>, defaulted: seq<string>, hasVarargs: bool, hasKeywords: bool)

  function Min(a: nat, b: nat): nat {
    if a <= b then a else b
  }

  /** Python's `s[:n]` for a non-negative `n`: slicing clamps at the end. */
  function Take<T>(s: seq<T>, n: nat): (r: seq<T>)
    ensures |r| == Min(n, |s|)
    ensures r <= s
  {
    if n <= |s| then s[..n] else s
  }

  /** Python's `s.index(x)`: the position of the first occurrence. */
  function IndexOf<T(==)>(s: seq<T>, x: T): (i: nat)
    requires x in s
    ensures i < |s| && s[i] == x
    ensures forall j :: 0 <= j < i ==> s[j] != x
  {
    if s[0] == x then 0 else 1 + IndexOf(s[1..], x)
  }

  predicate Distinct<T(==)>(s: seq<T>) {
    forall i, j :: 0 <= i < j < |s| ==> s[i] != s[j]
  }

  /** `_signature_info`: the last `len(defaults)` names are defaulted, the rest
      required; `args[-n:]` and `args[:-n]` clamp when `n` exceeds the number
      of names, exactly as Python's negative slicing does. */
  function Info(spec: ArgSpec): (info: SignatureInfo)
    ensures info.required + info.defaulted == spec.args
    ensures |info.defaulted| == Min(spec.nDefaults, |spec.args|)
    ensures info.hasVarargs == spec.hasVarargs && info.hasKeywords == spec.hasKeywords
  {
    var n := spec.nDefaults;
    var args := spec.args;
    if n > 0 then
      if n <= |args| then
        SignatureInfo(args[..|args| - n], args[|args| - n..], spec.hasVarargs, spec.hasKeywords)
      else
        SignatureInfo([], args, spec.hasVarargs, spec.hasKeywords)
    else
      SignatureInfo(args, [], spec.hasVarargs, spec.hasKeywords)
  }

  lemma DefaultedAreInArgs(spec: ArgSpec, x: string)
    requires x in Info(spec).defaulted
    ensures x in spec.args
  {
    var info := Info(spec);
    assert spec.args == info.required + info.defaulted;
  }

  /** Lines 308-318: some defaulted name of the override also names a base
      parameter at a different position, so a call that is fine for the base
      could bind that name twice on the override. */
  predicate DefaultIndexClash(func: ArgSpec, base: ArgSpec) {
    exists i :: 0 <= i < |Info(func).defaulted| && DefaultMoved(func, base, Info(func).defaulted[i])
  }

  predicate DefaultMoved(func: ArgSpec, base: ArgSpec, arg: string)
    requires arg in Info(func).defaulted
  {
    DefaultedAreInArgs(func, arg);
    arg in base.args && IndexOf(base.args, arg) != IndexOf(func.args, arg)
  }

  /** `_signatures_are_consistent(func_sig, base_sig)`. */
  function Consistent(func: ArgSpec, base: ArgSpec): (r: bool)
    ensures r ==> (base.hasVarargs ==> func.hasVarargs) && (base.hasKeywords ==> func.hasKeywords)
    ensures r ==> |Info(func).required| <= |Info(base).required|
    ensures r && !func.hasVarargs ==> Info(base).required <= func.args
  {
    var b := Info(base);
    var f := Info(func);
    var reqNamesMatch :=
      if f.hasVarargs then
        var k := Min(|b.required|, |f.required|);
        Take(f.required, k) == Take(b.required, k)
      else
        Take(func.args, |b.required|) == b.required;
    var noNewRequired := |f.required| <= |b.required|;
    var defNamesMatch :=
      (f.hasKeywords || Take(f.defaulted, |b.defaulted|) == b.defaulted)
      && !(|b.defaulted| > 0 && f.hasVarargs && DefaultIndexClash(func, base));
    var varargsOk := (!b.hasVarargs || f.hasVarargs) && (!b.hasKeywords || f.hasKeywords);
    reqNamesMatch && defNamesMatch && noNewRequired && varargsOk
  }

  /** Python's binding rule for a call that passes `n` arguments by
      position: every required parameter gets a value, and extra values need
      `*args`. */
  predicate AcceptsPositional(spec: ArgSpec, n: nat) {
    |Info(spec).required| <= n && (spec.hasVarargs || n <= |spec.args|)
  }

  /** Soundness of the rule for positional calls: when the override does not
      take `**kwargs` and the base's parameter names are distinct (as Python
      requires), every positional call the base accepts the override accepts.
      With `**kwargs` on the override the defaulted-name check is skipped on
      purpose (lines 304-305), and this no longer holds: `f(a, **kw)` is
      consistent with `f(a, b=1)` yet rejects two positional values. */
  lemma PositionalCallsPreserved(func: ArgSpec, base: ArgSpec)
    requires Distinct(base.args)
    requires !func.hasKeywords
    requires Consistent(func, base)
    ensures forall n: nat :: AcceptsPositional(base, n) ==> AcceptsPositional(func, n)
  {
    var b := Info(base);
    var f := Info(func);
    if !func.hasVarargs {
      assert func.args[..|b.required|] == b.required;
      assert f.defaulted[..|b.defaulted|] == b.defaulted;
      // A shorter required list would put the first base default at a
      // position the base's required names already use.
      var k := |f.required|;
      assert forall j :: 0 <= j < |b.required| ==> func.args[j] == base.args[j];
      assert |b.defaulted| > 0 ==> f.defaulted[0] == base.args[|b.required|];
      assert |f.defaulted| > 0 ==> func.args[k] == f.defaulted[0];
      assert |b.defaulted| == 0 || k >= |b.required|;
      assert |base.args| <= |func.args|;
    }
  }

  /** The `**kwargs` leniency: the override below is judged consistent but
      cannot take the base's two positional values. */
  lemma KeywordsLeniency()
    ensures Consistent(ArgSpec(["a"], 0, false, true), ArgSpec(["a", "b"], 1, false, false))
    ensures AcceptsPositional(ArgSpec(["a", "b"], 1, false, false), 2)
    ensures !AcceptsPositional(ArgSpec(["a"], 0, false, true), 2)
  {
  }

  /** Every signature is consistent with itself; in particular two
      parameterless signatures are. */
  lemma ConsistentReflexive(spec: ArgSpec)
    ensures Consistent(spec, spec)
  {
  }

  /** Lines 297-302 and 303: without `*args` on the override, its leading
      parameter names are exactly the base's required names, and it has no
      more required parameters than the base. */
  lemma RequiredNamesKept(func: ArgSpec, base: ArgSpec)
    requires !func.hasVarargs
    ensures Consistent(func, base) ==>
              Info(base).required <= func.args && |Info(func).required| <= |Info(base).required|
  {
  }

  /** Lines 303 and 319-324: the three ways an override is always rejected. */
  lemma AlwaysRejected(func: ArgSpec, base: ArgSpec)
    ensures |Info(func).required| > |Info(base).required| ==> !Consistent(func, base)
    ensures base.hasVarargs && !func.hasVarargs ==> !Consistent(func, base)
    ensures base.hasKeywords && !func.hasKeywords ==> !Consistent(func, base)
  {
  }

  /** Lines 304-307: without `**kwargs` on the override, the base's defaulted
      names are a prefix of the override's defaulted names. */
  lemma DefaultedNamesKept(func: ArgSpec, base: ArgSpec)
    requires !func.hasKeywords
    ensures Consistent(func, base) ==> Info(base).defaulted <= Info(func).defaulted
  {
  }

  /** Lines 304-305: with `**kwargs` and without `*args` on the override the
      defaulted names are not compared at all. */
  lemma KeywordsSkipDefaultedNames(func: ArgSpec, base: ArgSpec)
    requires func.hasKeywords && !func.hasVarargs
    ensures Consistent(func, base) <==>
              && Info(base).required <= func.args
              && |Info(func).required| <= |Info(base).required|
              && !base.hasVarargs
  {
  }

  /** Lines 308-318: with base defaults and `*args` on the override, a
      defaulted name of the override found at another position of the base
      rejects the override, whether or not it takes `**kwargs`. */
  lemma MovedDefaultRejected(func: ArgSpec, base: ArgSpec, i: nat)
    requires |Info(base).defaulted| > 0 && func.hasVarargs
    requires i < |Info(func).defaulted|
    requires Info(func).defaulted[i] in base.args
    requires IndexOf(base.args, Info(func).defaulted[i]) != IndexOf(func.args, Info(func).defaulted[i])
    ensures !Consistent(func, base)
  {
    assert DefaultMoved(func, base, Info(func).defaulted[i]);
  }

  /** Line 301: appending defaulted parameters to a signature without `*args`,
      e.g. `(a, b, c=0)` for `(a, b, c)`, keeps it consistent. */
  lemma {:induction false} AppendedDefaultsAccepted(base: ArgSpec, extra: seq<string>)
    requires !base.hasVarargs && base.nDefaults <= |base.args|
    ensures Consistent(ArgSpec(base.args + extra, base.nDefaults + |extra|, false, base.hasKeywords), base)
  {
    var func := ArgSpec(base.args + extra, base.nDefaults + |extra|, false, base.hasKeywords);
    var b := Info(base);
    var f := Info(func);
    assert |f.defaulted| == base.nDefaults + |extra|;
    assert |f.required| == |b.required|;
    assert f.required == func.args[..|f.required|];
    assert b.required == base.args[..|b.required|];
    assert func.args[..|b.required|] == base.args[..|b.required|];
    assert f.defaulted == func.args[|f.required|..];
    assert b.defaulted == base.args[|b.required|..];
    assert f.defaulted[..|b.defaulted|] == b.defaulted;
  }

  /** The examples for an interface method `f(self, a, b)`: `(self, a, b, c=1)`
      is accepted, `(self, a)` and `(self, b, a)` are rejected. */
  lemma OverrideExamples()
    ensures Consistent(ArgSpec(["self", "a", "b", "c"], 1, false, false), ArgSpec(["self", "a", "b"], 0, false, false))
    ensures !Consistent(ArgSpec(["self", "a"], 0, false, false), ArgSpec(["self", "a", "b"], 0, false, false))
    ensures !Consistent(ArgSpec(["self", "b", "a"], 0, false, false), ArgSpec(["self", "a", "b"], 0, false, false))
  {
    AppendedDefaultsAccepted(ArgSpec(["self", "a", "b"], 0, false, false), ["c"]);
    assert ["self", "a", "b"] + ["c"] == ["self", "a", "b", "c"];
  }
}
