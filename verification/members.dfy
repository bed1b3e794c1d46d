/** The member classifier of an interface body (`_ensure_everything_is_abstract`),
    the emptiness requirement on the functions it collects, and the override
    check `_check_method_signatures`. */
module Members {
  import opened Wrappers
  import opened Errors
  import opened Signatures
  import opened Values

  const Annotations := "__annotations__"

  /** What the classifier does with one namespace entry. */
  datatype EntryOutcome = EntryOutcome(
    keep: Option<Value>,                // the value stored in the new namespace, if any
    functions: seq<Option<Callable>>,   // functions whose emptiness must be checked
    signature: Option<ArgSpec>,         // a method signature recorded under the entry's name
    isProperty: bool,                   // the name is recorded as an interface property
    attributes: set<string>)            // names recorded as interface attributes

  datatype Classified = Classified(
    namespace: Namespace,
    functions: seq<Option<Callable>>,
    signatures: map<string, ArgSpec>,
    propertyNames: set<string>,
    attributeNames: set<string>)

  /** An interface body may hold, besides the pass-through names: a mapping
      under `__annotations__`, `None`, something already abstract, a
      function, a static or class method, or a property. */
  predicate Allowed(e: Entry) {
    || BuiltinAttr(e.name)
    || (e.name == Annotations && e.value.Mapping?)
    || (e.name != Annotations &&
          (e.value.NoneValue? || e.value.IsAbstract() || e.value.IsMethod() || e.value.PropertyValue?))
  }

  /** The entry declares a plain interface attribute by the value `None`. */
  predicate DeclaresAttribute(e: Entry) {
    !BuiltinAttr(e.name) && e.name != Annotations && e.value.NoneValue?
  }

  /** The entry declares an interface method. */
  predicate DeclaresMethod(e: Entry) {
    !BuiltinAttr(e.name) && e.name != Annotations && e.value.IsMethod()
  }

  /** The entry declares an interface property. */
  predicate DeclaresProperty(e: Entry) {
    !BuiltinAttr(e.name) && e.name != Annotations && e.value.PropertyValue?
  }

  /** The entry queues `x` for the emptiness check: `x` is a declared
      method's function, or an accessor slot of a property that is not
      already abstract (line 368 queues all three slots, `None`s included). */
  predicate Queues(e: Entry, x: Option<Callable>) {
    || (DeclaresMethod(e) && x == Some(e.value.f))
    || (DeclaresProperty(e) && !e.value.IsAbstract() && (x == e.value.fget || x == e.value.fset || x == e.value.fdel))
  }

  /** An accessor slot that is empty or holds a placeholder. */
  predicate EmptyOrAbsent(x: Option<Callable>, unwrap: bool) {
    x.None? || IsEmptyFunction(x.value, unwrap)
  }

  /** Every function the entry queues is a placeholder. */
  predicate PlaceholderEntry(e: Entry, unwrap: bool) {
    && (DeclaresMethod(e) ==> IsEmptyFunction(e.value.f, unwrap))
    && (DeclaresProperty(e) && !e.value.IsAbstract() ==>
          EmptyOrAbsent(e.value.fget, unwrap) && EmptyOrAbsent(e.value.fset, unwrap) && EmptyOrAbsent(e.value.fdel, unwrap))
  }

  /** Lines 335-372 for one entry. */
  function ClassifyEntry(e: Entry): (r: Result<EntryOutcome, Error>)
    ensures r.Success? <==> Allowed(e)
    ensures r.Failure? ==> r.error == (if e.name == Annotations then AnnotationsNotMapping else DisallowedAttributeValue(e.name))
    ensures r.Success? ==> (r.value.keep.None? <==> DeclaresAttribute(e))
    ensures r.Success? && r.value.keep.Some? && !BuiltinAttr(e.name) && e.name != Annotations ==>
              r.value.keep.value.IsAbstract()
    ensures r.Success? ==> r.value.attributes == AttributesOf(e)
    ensures r.Success? ==> (r.value.isProperty <==> DeclaresProperty(e))
    ensures r.Success? ==> (r.value.signature.Some? <==> DeclaresMethod(e))
    ensures r.Success? && DeclaresMethod(e) ==>
              r.value.signature == Some(e.value.f.spec) && r.value.functions == [Some(e.value.f)]
    ensures r.Success? && DeclaresProperty(e) && !e.value.IsAbstract() ==>
              r.value.functions == [e.value.fget, e.value.fset, e.value.fdel]
    ensures r.Success? && !DeclaresMethod(e) && !(DeclaresProperty(e) && !e.value.IsAbstract()) ==>
              r.value.functions == []
    ensures r.Success? ==> forall x :: x in r.value.functions ==> Queues(e, x)
    ensures r.Success? && (BuiltinAttr(e.name) || e.name == Annotations || (!e.value.NoneValue? && e.value.IsAbstract())) ==>
              r.value.keep == Some(e.value)
    ensures r.Success? && DeclaresMethod(e) && !e.value.IsAbstract() ==>
              r.value.keep == Some(e.value.(isAbstract := true))
    ensures r.Success? && DeclaresProperty(e) && !e.value.IsAbstract() ==>
              r.value.keep == Some(PropertyValue(e.value.fget, e.value.fset, e.value.fdel, AbstractPropertyObject))
  {
    var v := e.value;
    if BuiltinAttr(e.name) then
      Success(EntryOutcome(Some(v), [], None, false, {}))
    else if e.name == Annotations then
      if v.Mapping? then Success(EntryOutcome(Some(v), [], None, false, v.keys))
      else Failure(AnnotationsNotMapping)
    else if v.NoneValue? then
      Success(EntryOutcome(None, [], None, false, {e.name}))
    else if v.IsAbstract() then
      if v.IsMethod() then Success(EntryOutcome(Some(v), [Some(v.f)], Some(v.f.spec), false, {}))
      else Success(EntryOutcome(Some(v), [], None, v.PropertyValue?, {}))
    else
      match v
      case StaticMethodValue(f, _) => Success(EntryOutcome(Some(StaticMethodValue(f, true)), [Some(f)], Some(f.spec), false, {}))
      case ClassMethodValue(f, _) => Success(EntryOutcome(Some(ClassMethodValue(f, true)), [Some(f)], Some(f.spec), false, {}))
      case FunctionValue(f, _) => Success(EntryOutcome(Some(FunctionValue(f, true)), [Some(f)], Some(f.spec), false, {}))
      case PropertyValue(g, s, d, _) => Success(EntryOutcome(Some(PropertyValue(g, s, d, AbstractPropertyObject)), [g, s, d], None, true, {}))
      case _ => Failure(DisallowedAttributeValue(e.name))
  }

  /** The names an entry contributes to the interface attribute set. */
  function AttributesOf(e: Entry): set<string> {
    if DeclaresAttribute(e) then {e.name}
    else if !BuiltinAttr(e.name) && e.name == Annotations && e.value.Mapping? then e.value.keys
    else {}
  }

  /** `_ensure_everything_is_abstract` (lines 327-373): entries are handled
      in order and the first disallowed one raises. */
  function EnsureEverythingIsAbstract(ns: Namespace): (r: Result<Classified, Error>)
    ensures r.Success? <==> forall i :: 0 <= i < |ns| ==> Allowed(ns[i])
    ensures r.Failure? ==>
              exists i :: 0 <= i < |ns| && !Allowed(ns[i]) && ClassifyEntry(ns[i]).error == r.error &&
                forall j :: 0 <= j < i ==> Allowed(ns[j])
  {
    if |ns| == 0 then Success(Classified([], [], map[], {}, {}))
    else
      var e := ns[0];
      var h :- ClassifyEntry(e);
      var t :- EnsureEverythingIsAbstract(ns[1..]);
      Success(Classified(
        (if h.keep.Some? then [Entry(e.name, h.keep.value)] else []) + t.namespace,
        h.functions + t.functions,
        (if h.signature.Some? then map[e.name := h.signature.value] else map[]) + t.signatures,
        (if h.isProperty then {e.name} else {}) + t.propertyNames,
        h.attributes + t.attributeNames))
  }

  /** The interface body minus the names declared by `None` (line 341). */
  function KeptNames(ns: Namespace): set<string> {
    set i | 0 <= i < |ns| && !DeclaresAttribute(ns[i]) :: ns[i].name
  }

  lemma KeptNamesCons(ns: Namespace)
    requires |ns| > 0
    ensures KeptNames(ns) == (if DeclaresAttribute(ns[0]) then {} else {ns[0].name}) + KeptNames(ns[1..])
  {
    var tail := ns[1..];
    forall n | n in KeptNames(ns)
      ensures n in (if DeclaresAttribute(ns[0]) then {} else {ns[0].name}) + KeptNames(tail)
    {
      var i :| 0 <= i < |ns| && !DeclaresAttribute(ns[i]) && ns[i].name == n;
      if i > 0 {
        assert tail[i - 1] == ns[i];
      }
    }
    forall n | n in KeptNames(tail) ensures n in KeptNames(ns) {
      var i :| 0 <= i < |tail| && !DeclaresAttribute(tail[i]) && tail[i].name == n;
      assert ns[i + 1] == tail[i];
    }
  }

  /** Lines 339-341 and 372: the rewritten namespace keeps every name but the
      `None`-declared attributes, and every member it keeps is abstract. */
  lemma {:induction false} ClassifiedNamespace(ns: Namespace)
    requires EnsureEverythingIsAbstract(ns).Success?
    ensures Names(EnsureEverythingIsAbstract(ns).value.namespace) == KeptNames(ns)
    ensures forall e :: e in EnsureEverythingIsAbstract(ns).value.namespace && !BuiltinAttr(e.name) && e.name != Annotations ==>
              e.value.IsAbstract()
  {
    if |ns| > 0 {
      ClassifiedNamespace(ns[1..]);
      KeptNamesCons(ns);
      var h := ClassifyEntry(ns[0]).value;
      var t := EnsureEverythingIsAbstract(ns[1..]).value;
      var head: Namespace := if h.keep.Some? then [Entry(ns[0].name, h.keep.value)] else [];
      var out := EnsureEverythingIsAbstract(ns).value.namespace;
      assert out == head + t.namespace;
      NamesConcat(head, t.namespace);
      if h.keep.Some? {
        assert head[0].name == ns[0].name;
        assert Names(head) == {ns[0].name};
      } else {
        assert Names(head) == {};
      }
      forall e | e in out ensures e in head || e in t.namespace {
      }
    }
  }

  /** Lines 337-341: the interface attributes are the names declared `None`
      and the keys of `__annotations__`. */
  lemma {:induction false} ClassifiedAttributes(ns: Namespace)
    requires EnsureEverythingIsAbstract(ns).Success?
    ensures forall i :: 0 <= i < |ns| ==> AttributesOf(ns[i]) <= EnsureEverythingIsAbstract(ns).value.attributeNames
    ensures forall n :: n in EnsureEverythingIsAbstract(ns).value.attributeNames ==>
              exists i :: 0 <= i < |ns| && n in AttributesOf(ns[i])
  {
    if |ns| > 0 {
      var tail := ns[1..];
      ClassifiedAttributes(tail);
      var c := EnsureEverythingIsAbstract(ns).value;
      var t := EnsureEverythingIsAbstract(tail).value;
      assert c.attributeNames == AttributesOf(ns[0]) + t.attributeNames;
      forall i | 1 <= i < |ns| ensures AttributesOf(ns[i]) <= c.attributeNames {
        assert ns[i] == tail[i - 1];
      }
      forall n | n in t.attributeNames ensures exists i :: 0 <= i < |ns| && n in AttributesOf(ns[i]) {
        var j :| 0 <= j < |tail| && n in AttributesOf(tail[j]);
        assert ns[j + 1] == tail[j];
      }
    }
  }

  /** Lines 350-351 and 366-367: the interface properties are exactly the
      names bound to properties. */
  lemma {:induction false} ClassifiedProperties(ns: Namespace)
    requires EnsureEverythingIsAbstract(ns).Success?
    ensures forall i :: 0 <= i < |ns| && DeclaresProperty(ns[i]) ==>
              ns[i].name in EnsureEverythingIsAbstract(ns).value.propertyNames
    ensures forall n :: n in EnsureEverythingIsAbstract(ns).value.propertyNames ==>
              exists i :: 0 <= i < |ns| && DeclaresProperty(ns[i]) && ns[i].name == n
  {
    if |ns| > 0 {
      var tail := ns[1..];
      ClassifiedProperties(tail);
      var c := EnsureEverythingIsAbstract(ns).value;
      var t := EnsureEverythingIsAbstract(tail).value;
      assert c.propertyNames == (if DeclaresProperty(ns[0]) then {ns[0].name} else {}) + t.propertyNames;
      forall i | 1 <= i < |ns| && DeclaresProperty(ns[i]) ensures ns[i].name in c.propertyNames {
        assert ns[i] == tail[i - 1];
      }
      forall n | n in t.propertyNames ensures exists i :: 0 <= i < |ns| && DeclaresProperty(ns[i]) && ns[i].name == n {
        var j :| 0 <= j < |tail| && DeclaresProperty(tail[j]) && tail[j].name == n;
        assert ns[j + 1] == tail[j];
      }
    }
  }

  /** Lines 342-365: every function, static method and class method is
      recorded under its name and queued for the emptiness check. */
  lemma {:induction false} MethodsRecorded(ns: Namespace)
    requires EnsureEverythingIsAbstract(ns).Success?
    ensures forall i :: 0 <= i < |ns| && DeclaresMethod(ns[i]) ==>
              && ns[i].name in EnsureEverythingIsAbstract(ns).value.signatures
              && Some(ns[i].value.f) in EnsureEverythingIsAbstract(ns).value.functions
  {
    if |ns| > 0 {
      var tail := ns[1..];
      MethodsRecorded(tail);
      var h := ClassifyEntry(ns[0]).value;
      var c := EnsureEverythingIsAbstract(ns).value;
      var t := EnsureEverythingIsAbstract(tail).value;
      assert c.functions == h.functions + t.functions;
      assert t.signatures.Keys <= c.signatures.Keys;
      forall i | 1 <= i < |ns| && DeclaresMethod(ns[i])
        ensures ns[i].name in c.signatures && Some(ns[i].value.f) in c.functions
      {
        assert ns[i] == tail[i - 1];
      }
    }
  }

  /** Lines 366-369: the accessors of every property that is not already
      abstract are queued for the emptiness check. */
  lemma {:induction false} AccessorsRecorded(ns: Namespace)
    requires EnsureEverythingIsAbstract(ns).Success?
    ensures forall i :: 0 <= i < |ns| && DeclaresProperty(ns[i]) && !ns[i].value.IsAbstract() ==>
              && ns[i].value.fget in EnsureEverythingIsAbstract(ns).value.functions
              && ns[i].value.fset in EnsureEverythingIsAbstract(ns).value.functions
              && ns[i].value.fdel in EnsureEverythingIsAbstract(ns).value.functions
  {
    if |ns| > 0 {
      var tail := ns[1..];
      AccessorsRecorded(tail);
      var h := ClassifyEntry(ns[0]).value;
      var c := EnsureEverythingIsAbstract(ns).value;
      var t := EnsureEverythingIsAbstract(tail).value;
      assert c.functions == h.functions + t.functions;
      forall i | 1 <= i < |ns| && DeclaresProperty(ns[i]) && !ns[i].value.IsAbstract()
        ensures ns[i].value.fget in c.functions && ns[i].value.fset in c.functions && ns[i].value.fdel in c.functions
      {
        assert ns[i] == tail[i - 1];
      }
    }
  }

  /** Lines 342-369: the queued functions are exactly what the declared
      methods and the non-abstract properties contribute; nothing else is
      queued. */
  lemma {:induction false} QueuedFunctionsDeclared(ns: Namespace)
    requires EnsureEverythingIsAbstract(ns).Success?
    ensures forall x :: x in EnsureEverythingIsAbstract(ns).value.functions ==>
              exists i :: 0 <= i < |ns| && Queues(ns[i], x)
  {
    if |ns| > 0 {
      var tail := ns[1..];
      QueuedFunctionsDeclared(tail);
      var h := ClassifyEntry(ns[0]).value;
      var c := EnsureEverythingIsAbstract(ns).value;
      var t := EnsureEverythingIsAbstract(tail).value;
      assert c.functions == h.functions + t.functions;
      forall x | x in c.functions ensures exists i :: 0 <= i < |ns| && Queues(ns[i], x) {
        if x in h.functions {
          assert Queues(ns[0], x);
        } else {
          var j :| 0 <= j < |tail| && Queues(tail[j], x);
          assert ns[j + 1] == tail[j];
        }
      }
    }
  }

  /** Lines 490-495 over a classified namespace: the emptiness check passes
      exactly when every entry's queued functions are placeholders. */
  lemma CheckEmptyIffPlaceholders(ns: Namespace, unwrap: bool)
    requires EnsureEverythingIsAbstract(ns).Success?
    ensures CheckEmpty(EnsureEverythingIsAbstract(ns).value.functions, unwrap).Success? <==>
              forall i :: 0 <= i < |ns| ==> PlaceholderEntry(ns[i], unwrap)
  {
    if forall i :: 0 <= i < |ns| ==> PlaceholderEntry(ns[i], unwrap) {
      PlaceholdersPass(ns, unwrap);
    }
    if CheckEmpty(EnsureEverythingIsAbstract(ns).value.functions, unwrap).Success? {
      PassingArePlaceholders(ns, unwrap);
    }
  }

  lemma PlaceholdersPass(ns: Namespace, unwrap: bool)
    requires EnsureEverythingIsAbstract(ns).Success?
    requires forall i :: 0 <= i < |ns| ==> PlaceholderEntry(ns[i], unwrap)
    ensures CheckEmpty(EnsureEverythingIsAbstract(ns).value.functions, unwrap).Success?
  {
    var fs := EnsureEverythingIsAbstract(ns).value.functions;
    QueuedFunctionsDeclared(ns);
    forall k | 0 <= k < |fs| && fs[k].Some? ensures IsEmptyFunction(fs[k].value, unwrap) {
      assert fs[k] in fs;
      var i :| 0 <= i < |ns| && Queues(ns[i], fs[k]);
      assert PlaceholderEntry(ns[i], unwrap);
    }
  }

  lemma PassingArePlaceholders(ns: Namespace, unwrap: bool)
    requires EnsureEverythingIsAbstract(ns).Success?
    requires CheckEmpty(EnsureEverythingIsAbstract(ns).value.functions, unwrap).Success?
    ensures forall i :: 0 <= i < |ns| ==> PlaceholderEntry(ns[i], unwrap)
  {
    var fs := EnsureEverythingIsAbstract(ns).value.functions;
    MethodsRecorded(ns);
    AccessorsRecorded(ns);
    forall i | 0 <= i < |ns| ensures PlaceholderEntry(ns[i], unwrap) {
      var e := ns[i];
      if DeclaresMethod(e) {
        SomeInPasses(fs, unwrap, Some(e.value.f));
      }
      if DeclaresProperty(e) && !e.value.IsAbstract() {
        SomeInPasses(fs, unwrap, e.value.fget);
        SomeInPasses(fs, unwrap, e.value.fset);
        SomeInPasses(fs, unwrap, e.value.fdel);
      }
    }
  }

  /** A function in a list that passes the check is a placeholder. */
  lemma SomeInPasses(fs: seq<Option<Callable>>, unwrap: bool, x: Option<Callable>)
    requires CheckEmpty(fs, unwrap).Success? && x in fs
    ensures EmptyOrAbsent(x, unwrap)
  {
    var k :| 0 <= k < |fs| && fs[k] == x;
  }

  /** Line 349, 355, 359, 364: each recorded signature is the argspec of a
      method declared under that name. */
  lemma {:induction false} SignaturesFromMethods(ns: Namespace)
    requires EnsureEverythingIsAbstract(ns).Success?
    ensures forall n :: n in EnsureEverythingIsAbstract(ns).value.signatures ==>
              exists i :: 0 <= i < |ns| && DeclaresMethod(ns[i]) && ns[i].name == n &&
                EnsureEverythingIsAbstract(ns).value.signatures[n] == ns[i].value.f.spec
  {
    if |ns| > 0 {
      var tail := ns[1..];
      SignaturesFromMethods(tail);
      var h := ClassifyEntry(ns[0]).value;
      var c := EnsureEverythingIsAbstract(ns).value;
      var t := EnsureEverythingIsAbstract(tail).value;
      assert c.signatures == (if h.signature.Some? then map[ns[0].name := h.signature.value] else map[]) + t.signatures;
      forall n | n in c.signatures
        ensures exists i :: 0 <= i < |ns| && DeclaresMethod(ns[i]) && ns[i].name == n && c.signatures[n] == ns[i].value.f.spec
      {
        if n in t.signatures {
          var j :| 0 <= j < |tail| && DeclaresMethod(tail[j]) && tail[j].name == n && t.signatures[n] == tail[j].value.f.spec;
          assert ns[j + 1] == tail[j];
        } else {
          assert n == ns[0].name && DeclaresMethod(ns[0]);
        }
      }
    }
  }

  /** Lines 490-495: every collected function must be empty (absent property
      accessors are skipped); the first one that is not is named. */
  function CheckEmpty(functions: seq<Option<Callable>>, unwrap: bool): (r: Result<(), Error>)
    ensures r.Success? <==>
              forall i :: 0 <= i < |functions| && functions[i].Some? ==> IsEmptyFunction(functions[i].value, unwrap)
    ensures r.Failure? ==>
              exists i :: 0 <= i < |functions| && functions[i].Some? && !IsEmptyFunction(functions[i].value, unwrap) &&
                r.error == NotEmpty(functions[i].value.name) &&
                forall j :: 0 <= j < i && functions[j].Some? ==> IsEmptyFunction(functions[j].value, unwrap)
  {
    if |functions| == 0 then Success(())
    else if functions[0].Some? && !IsEmptyFunction(functions[0].value, unwrap) then
      Failure(NotEmpty(functions[0].value.name))
    else
      var r := CheckEmpty(functions[1..], unwrap);
      assert forall i :: 1 <= i < |functions| ==> functions[i] == functions[1..][i - 1];
      r
  }

  /** Lines 382-392: how an override of an interface method is judged. */
  predicate OverrideOk(v: Value, base: ArgSpec) {
    if v.IsMethod() then Consistent(v.f.spec, base) else v.IsDescriptor()
  }

  /** `_check_method_signatures` (lines 376-395) over the namespace as a
      dictionary: every interface method the namespace overrides must be
      overridden by a method with a consistent signature, or by some other
      descriptor. The error carries every offending name of each kind. */
  function CheckMethodSignatures(attributes: map<string, Value>, signatures: map<string, ArgSpec>): (r: Result<(), Error>)
    ensures r.Success? <==>
              forall n :: n in signatures && n in attributes ==> OverrideOk(attributes[n], signatures[n])
    ensures r.Failure? ==>
              && r.error.BadOverrides?
              && (forall n :: n in r.error.nonMethods ==>
                    n in signatures && n in attributes && !attributes[n].IsDescriptor())
              && (forall n :: n in r.error.inconsistent ==>
                    && n in signatures && n in attributes && attributes[n].IsMethod()
                    && !Consistent(attributes[n].f.spec, signatures[n]))
  {
    var nonMethods := set n | n in signatures && n in attributes && !attributes[n].IsMethod() && !attributes[n].IsDescriptor();
    var inconsistent := set n | n in signatures && n in attributes && attributes[n].IsMethod()
                                && !Consistent(attributes[n].f.spec, signatures[n]);
    assert forall n :: n in signatures && n in attributes && !OverrideOk(attributes[n], signatures[n]) ==>
             n in nonMethods || n in inconsistent;
    if nonMethods == {} && inconsistent == {} then Success(())
    else Failure(BadOverrides(nonMethods, inconsistent))
  }

  /** Overriding with the interface's own signatures always passes. */
  lemma UnchangedOverridesPass(attributes: map<string, Value>, signatures: map<string, ArgSpec>)
    requires forall n :: n in signatures && n in attributes ==>
               attributes[n].IsMethod() && attributes[n].f.spec == signatures[n]
    ensures CheckMethodSignatures(attributes, signatures).Success?
  {
    forall n | n in signatures && n in attributes
      ensures OverrideOk(attributes[n], signatures[n])
    {
      ConsistentReflexive(signatures[n]);
    }
  }

  /** A namespace that passes the check against some interface methods passes
      it against any subset of them. */
  lemma CheckAntitone(attributes: map<string, Value>, signatures: map<string, ArgSpec>, fewer: map<string, ArgSpec>)
    requires forall n :: n in fewer ==> n in signatures && fewer[n] == signatures[n]
    requires CheckMethodSignatures(attributes, signatures).Success?
    ensures CheckMethodSignatures(attributes, fewer).Success?
  {
  }

  /** Line 386: an interface method overridden by a value without `__get__`,
      such as `None` or a plain number, is rejected. */
  lemma NonMethodOverrideRejected(attributes: map<string, Value>, signatures: map<string, ArgSpec>, n: string)
    requires n in signatures && n in attributes
    requires !attributes[n].IsDescriptor()
    ensures CheckMethodSignatures(attributes, signatures).Failure?
    ensures n in CheckMethodSignatures(attributes, signatures).error.nonMethods
  {
  }
}
