/** The class-construction hook `PureInterfaceType.__new__`: deciding whether
    a new class is an interface, merging what its interface bases declare,
    checking overrides, classifying and checking an interface body, and
    patching a concrete class's unprovided abstract properties into stored
    attributes. */
module Classes {
  import opened Wrappers
  import opened Errors
  import opened Signatures
  import opened Values
  import opened Members

  /** `_PIAttributes` (lines 75-95): the metadata attached to every class the
      hook builds. The adapter table and the structural-subclass cache live
      in the adaptation model. */
  datatype PIAttributes = PIAttributes(
    isInterface: bool,
    abstractProperties: set<string>,
    methodSignatures: map<string, ArgSpec>,
    propertyNames: set<string>,
    attributeNames: set<string>)
  {
    /** `interface_method_names` (line 81). */
    function MethodNames(): set<string> {
      methodSignatures.Keys
    }

    /** `interface_names` (lines 89-91). */
    function InterfaceNames(): (r: set<string>)
      ensures forall n :: n in r <==> n in methodSignatures || n in propertyNames || n in attributeNames
    {
      MethodNames() + attributeNames + propertyNames
    }

    /** `props_and_attrs` (lines 93-95). */
    function PropsAndAttrs(): (r: set<string>)
      ensures r <= InterfaceNames()
      ensures forall n :: n in r <==> n in propertyNames || n in attributeNames
    {
      attributeNames + propertyNames
    }
  }

  /** `_PIAttributes.__init__`: no abstract properties until patching sets them. */
  function NewAttributes(isInterface: bool, signatures: map<string, ArgSpec>, properties: set<string>, attributes: set<string>): PIAttributes {
    PIAttributes(isInterface, {}, signatures, properties, attributes)
  }

  /** A base class as the hook sees it: whether it is `object`, whether
      `PureInterface` is in its MRO, its `_pi` record when it has one, its
      own `__dict__` and its `__abstractmethods__`. */
  datatype BaseClass = BaseClass(
    name: string,
    isObject: bool,
    derivesFromRoot: bool,
    pi: Option<PIAttributes>,
    dict: Namespace,
    abstractMethods: set<string>)

  /** `_type_is_pure_interface` (lines 151-156) for a base. */
  function BaseIsInterface(b: BaseClass): (r: bool)
    ensures b.isObject ==> !r
    ensures b.pi.None? ==> !r
    ensures !b.isObject && b.pi.Some? ==> (r <==> b.pi.value.isInterface)
  {
    !b.isObject && b.pi.Some? && b.pi.value.isInterface
  }

  /** `_get_pi_attribute(base, 'abstractproperties', set())`. */
  function BaseAbstractProperties(b: BaseClass): set<string> {
    if b.pi.Some? then b.pi.value.abstractProperties else {}
  }

  /** What the loop at lines 448-470 accumulates. */
  datatype Aggregate = Aggregate(
    signatures: map<string, ArgSpec>,
    propertyNames: set<string>,
    attributeNames: set<string>,
    baseAbstractProperties: set<string>)

  /** One iteration of the loop at lines 453-470. A concrete base that does
      not derive from `PureInterface` has its own namespace checked against
      the interface methods collected so far, in development mode. */
  function AggregateStep(acc: Aggregate, b: BaseClass, development: bool): (r: Result<Aggregate, Error>)
    ensures r.Success? && !b.isObject ==>
              r.value.baseAbstractProperties == acc.baseAbstractProperties + BaseAbstractProperties(b)
    ensures r.Success? && BaseIsInterface(b) ==>
              && r.value.signatures == acc.signatures + b.pi.value.methodSignatures
              && r.value.propertyNames == acc.propertyNames + b.pi.value.propertyNames
              && r.value.attributeNames == acc.attributeNames + b.pi.value.attributeNames
    ensures r.Success? && !BaseIsInterface(b) ==>
              r.value.(baseAbstractProperties := acc.baseAbstractProperties) == acc
    ensures r.Failure? <==>
              && !b.isObject && !BaseIsInterface(b) && !b.derivesFromRoot && development
              && CheckMethodSignatures(ToMap(b.dict), acc.signatures).Failure?
    ensures r.Success? ==>
              && acc.signatures.Keys <= r.value.signatures.Keys
              && acc.propertyNames <= r.value.propertyNames
              && acc.attributeNames <= r.value.attributeNames
              && acc.baseAbstractProperties <= r.value.baseAbstractProperties
    ensures r.Success? ==>
              forall n :: n in acc.signatures && !BaseDeclaresMethod(b, n) ==> r.value.signatures[n] == acc.signatures[n]
  {
    if b.isObject then Success(acc)
    else
      var acc' := acc.(baseAbstractProperties := acc.baseAbstractProperties + BaseAbstractProperties(b));
      if BaseIsInterface(b) then
        var pi := b.pi.value;
        Success(acc'.(signatures := acc.signatures + pi.methodSignatures,
                      propertyNames := acc.propertyNames + pi.propertyNames,
                      attributeNames := acc.attributeNames + pi.attributeNames))
      else if !b.derivesFromRoot && development then
        var _ :- CheckMethodSignatures(ToMap(b.dict), acc.signatures);
        Success(acc')
      else
        Success(acc')
  }

  /** The loop state after the bases at positions `|bases| - 1` down to `i`
      have been visited. */
  function AggregateFrom(bases: seq<BaseClass>, i: nat, development: bool): (r: Result<Aggregate, Error>)
    requires i <= |bases|
    ensures !development ==> r.Success?
    ensures r.Failure? ==>
              exists j :: i <= j < |bases| && !bases[j].isObject && !BaseIsInterface(bases[j]) && !bases[j].derivesFromRoot
    decreases |bases| - i
  {
    if i == |bases| then Success(Aggregate(map[], {}, {}, {}))
    else
      var acc :- AggregateFrom(bases, i + 1, development);
      AggregateStep(acc, bases[i], development)
  }

  /** An interface base that declares method `n`. */
  predicate BaseDeclaresMethod(b: BaseClass, n: string) {
    BaseIsInterface(b) && n in b.pi.value.methodSignatures
  }

  /** Lines 452 and 466: the bases are visited back to front and a later
      update wins, so a method's signature comes from the FIRST interface
      base (in declaration order) that declares it. */
  lemma {:induction false} SignaturePrecedence(bases: seq<BaseClass>, i: nat, development: bool, n: string)
    requires i <= |bases|
    requires AggregateFrom(bases, i, development).Success?
    ensures n in AggregateFrom(bases, i, development).value.signatures <==>
              exists j :: i <= j < |bases| && BaseDeclaresMethod(bases[j], n)
    ensures forall j :: i <= j < |bases| && BaseDeclaresMethod(bases[j], n) &&
                        (forall k :: i <= k < j ==> !BaseDeclaresMethod(bases[k], n)) ==>
              AggregateFrom(bases, i, development).value.signatures[n] == bases[j].pi.value.methodSignatures[n]
    decreases |bases| - i
  {
    if i < |bases| {
      SignaturePrecedence(bases, i + 1, development, n);
      var r := AggregateFrom(bases, i, development).value;
      var t := AggregateFrom(bases, i + 1, development).value;
      if BaseDeclaresMethod(bases[i], n) {
        assert r.signatures[n] == bases[i].pi.value.methodSignatures[n];
      } else {
        assert n in r.signatures <==> n in t.signatures;
        assert n in r.signatures ==> r.signatures[n] == t.signatures[n];
      }
    }
  }

  /** Lines 456-468: the merged property and attribute names are those of the
      interface bases, and the inherited abstract properties are those of all
      bases other than `object`. */
  lemma {:induction false} AggregatedNames(bases: seq<BaseClass>, i: nat, development: bool, n: string)
    requires i <= |bases|
    requires AggregateFrom(bases, i, development).Success?
    ensures n in AggregateFrom(bases, i, development).value.propertyNames <==>
              exists j :: i <= j < |bases| && BaseIsInterface(bases[j]) && n in bases[j].pi.value.propertyNames
    ensures n in AggregateFrom(bases, i, development).value.attributeNames <==>
              exists j :: i <= j < |bases| && BaseIsInterface(bases[j]) && n in bases[j].pi.value.attributeNames
    ensures n in AggregateFrom(bases, i, development).value.baseAbstractProperties <==>
              exists j :: i <= j < |bases| && !bases[j].isObject && n in BaseAbstractProperties(bases[j])
  {
    AggregatedPropertyNames(bases, i, development, n);
    AggregatedAttributeNames(bases, i, development, n);
    AggregatedAbstractProperties(bases, i, development, n);
  }

  lemma {:induction false} AggregatedPropertyNames(bases: seq<BaseClass>, i: nat, development: bool, n: string)
    requires i <= |bases|
    requires AggregateFrom(bases, i, development).Success?
    ensures n in AggregateFrom(bases, i, development).value.propertyNames <==>
              exists j :: i <= j < |bases| && BaseIsInterface(bases[j]) && n in bases[j].pi.value.propertyNames
    decreases |bases| - i
  {
    if i < |bases| {
      AggregatedPropertyNames(bases, i + 1, development, n);
    }
  }

  lemma {:induction false} AggregatedAttributeNames(bases: seq<BaseClass>, i: nat, development: bool, n: string)
    requires i <= |bases|
    requires AggregateFrom(bases, i, development).Success?
    ensures n in AggregateFrom(bases, i, development).value.attributeNames <==>
              exists j :: i <= j < |bases| && BaseIsInterface(bases[j]) && n in bases[j].pi.value.attributeNames
    decreases |bases| - i
  {
    if i < |bases| {
      AggregatedAttributeNames(bases, i + 1, development, n);
    }
  }

  lemma {:induction false} AggregatedAbstractProperties(bases: seq<BaseClass>, i: nat, development: bool, n: string)
    requires i <= |bases|
    requires AggregateFrom(bases, i, development).Success?
    ensures n in AggregateFrom(bases, i, development).value.baseAbstractProperties <==>
              exists j :: i <= j < |bases| && !bases[j].isObject && n in BaseAbstractProperties(bases[j])
    decreases |bases| - i
  {
    if i < |bases| {
      AggregatedAbstractProperties(bases, i + 1, development, n);
    }
  }

  /** `getattr(cls, name)` on the new class: its own dictionary first, then
      what the bases provide along the MRO (`inherited`, supplied by the
      host's method-resolution order). */
  function Resolve(dict: map<string, Value>, inherited: map<string, Value>, n: string): Option<Value> {
    if n in dict then Some(dict[n]) else if n in inherited then Some(inherited[n]) else None
  }

  predicate ResolvesAbstract(dict: map<string, Value>, inherited: map<string, Value>, n: string) {
    var v := Resolve(dict, inherited, n);
    v.Some? && v.value.IsAbstract()
  }

  /** `__abstractmethods__` as `abc.ABCMeta` computes it when the class is
      created (line 505): the class's own abstract members, and every name
      abstract in a base that still resolves to something abstract. */
  function AbcAbstractMethods(dict: map<string, Value>, inherited: map<string, Value>, bases: seq<BaseClass>): (r: set<string>)
    ensures forall n :: n in dict && dict[n].IsAbstract() ==> n in r
    ensures forall n :: n in r ==> ResolvesAbstract(dict, inherited, n)
    ensures forall b, n :: b in bases && n in b.abstractMethods && ResolvesAbstract(dict, inherited, n) ==> n in r
  {
    (set n | n in dict && dict[n].IsAbstract())
    + (set b, n | b in bases && n in b.abstractMethods && ResolvesAbstract(dict, inherited, n) :: n)
  }

  /** The value `getattr(cls, n)` is an `abc.abstractproperty`. */
  predicate IsAbstractPropertyAt(dict: map<string, Value>, inherited: map<string, Value>, n: string) {
    var v := Resolve(dict, inherited, n);
    v.Some? && v.value.IsAbstractProperty()
  }

  /** The `__name__`s of a property's accessors that are present. */
  function AccessorNames(v: Value): set<string>
    requires v.PropertyValue?
  {
    (if v.fget.Some? then {v.fget.value.name} else {})
    + (if v.fset.Some? then {v.fset.value.name} else {})
    + (if v.fdel.Some? then {v.fdel.value.name} else {})
  }

  datatype Patched = Patched(dict: map<string, Value>, abstractProperties: set<string>, abstractMethods: set<string>)

  /** `_patch_properties` (lines 398-414): every abstract name that resolves to
      an abstract property becomes an `AttributeProperty`; those names, and
      any abstract method named like one of their accessors, leave
      `__abstractmethods__`; the instance-required properties are the patched
      names plus the inherited ones. */
  function PatchProperties(dict: map<string, Value>, inherited: map<string, Value>, abstractMethods: set<string>,
                           baseAbstractProperties: set<string>): (r: Patched)
    ensures r.abstractMethods <= abstractMethods
    ensures forall n :: n in abstractMethods && IsAbstractPropertyAt(dict, inherited, n) ==>
              n !in r.abstractMethods && n in r.abstractProperties && n in r.dict && r.dict[n] == AttributePropertyValue
    ensures forall n :: n in r.abstractMethods ==> !IsAbstractPropertyAt(dict, inherited, n)
    ensures forall n :: n in abstractMethods && !IsAbstractPropertyAt(dict, inherited, n) ==>
              (n in r.abstractMethods <==>
                 forall p :: p in abstractMethods && IsAbstractPropertyAt(dict, inherited, p) ==>
                   n !in AccessorNames(Resolve(dict, inherited, p).value))
    ensures r.abstractProperties == baseAbstractProperties +
              (set n | n in abstractMethods && IsAbstractPropertyAt(dict, inherited, n))
    ensures r.dict.Keys >= dict.Keys
    ensures forall n :: n in r.dict && r.dict[n] != AttributePropertyValue ==> n in dict && r.dict[n] == dict[n]
    ensures r.dict.Keys == dict.Keys + (set n | n in abstractMethods && IsAbstractPropertyAt(dict, inherited, n))
    ensures forall n :: n in dict && !(n in abstractMethods && IsAbstractPropertyAt(dict, inherited, n)) ==>
              r.dict[n] == dict[n]
  {
    var patched := set n | n in abstractMethods && IsAbstractPropertyAt(dict, inherited, n);
    var accessors := set n, a | n in patched && a in AccessorNames(Resolve(dict, inherited, n).value) :: a;
    var dict' := map n | n in dict.Keys + patched :: if n in patched then AttributePropertyValue else dict[n];
    Patched(dict', patched + baseAbstractProperties, abstractMethods - patched - accessors)
  }

  /** A class statement as the hook receives it: the name, the bases, the
      body's namespace, whether this is the definition of `PureInterface`
      itself (lines 431 and 442), and the attributes the bases provide along
      the MRO. */
  datatype ClassDefinition = ClassDefinition(
    name: string,
    bases: seq<BaseClass>,
    attributes: Namespace,
    definesRoot: bool,
    inherited: map<string, Value>)

  /** The class the hook returns: its `_pi` record, its `__dict__`, its
      `__abstractmethods__`, and the members reported as not implemented
      (`missing_method_warnings`, lines 513-529). */
  datatype NewClassResult = NewClassResult(
    pi: PIAttributes,
    dict: map<string, Value>,
    abstractMethods: set<string>,
    incomplete: set<string>)

  const PartialMarker := "pi_partial_implementation"

  /** Line 431: some base has `PureInterface` in its MRO. */
  predicate HasInterface(d: ClassDefinition) {
    d.definesRoot || exists i :: 0 <= i < |d.bases| && d.bases[i].derivesFromRoot
  }

  /** Lines 439-443: the class is an interface when every base is one. */
  predicate VotesInterface(d: ClassDefinition) {
    d.definesRoot || forall i :: 0 <= i < |d.bases| ==> BaseIsInterface(d.bases[i])
  }

  /** Lines 444-446: a leading `object` among several bases is dropped. */
  function EffectiveBases(bases: seq<BaseClass>): (r: seq<BaseClass>)
    ensures |r| <= |bases| && r == bases[|bases| - |r|..]
    ensures |r| == 0 <==> |bases| == 0
    ensures |r| < |bases| ==> |r| == |bases| - 1 && bases[0].isObject
    ensures |bases| > 1 && bases[0].isObject ==> |r| < |bases|
  {
    if |bases| > 1 && bases[0].isObject then bases[1..] else bases
  }

  /** Line 510: the names the class body binds to descriptors. */
  function ClassDescriptors(dict: map<string, Value>): set<string> {
    set n | n in dict && dict[n].IsDescriptor()
  }

  /** `PureInterfaceType.__new__` (lines 429-533). */
  function NewClass(d: ClassDefinition, development: bool, unwrap: bool): (r: Result<NewClassResult, Error>)
    ensures r.Success? && HasInterface(d) ==> (r.value.pi.isInterface <==> VotesInterface(d))
    ensures r.Success? && r.value.pi.isInterface ==> r.value.abstractMethods != {}
    ensures !HasInterface(d) ==>
              r.Success? && !r.value.pi.isInterface && r.value.pi.InterfaceNames() == {} &&
              r.value.pi.abstractProperties == {}
    ensures r.Success? && r.value.pi.isInterface ==> r.value.incomplete == {}
    ensures development && HasInterface(d) && AggregateFrom(EffectiveBases(d.bases), 0, true).Success? &&
            CheckMethodSignatures(ToMap(d.attributes), AggregateFrom(EffectiveBases(d.bases), 0, true).value.signatures).Failure?
            ==> r.Failure?
  {
    if !HasInterface(d) then
      var dict := ToMap(d.attributes);
      Success(NewClassResult(NewAttributes(false, map[], {}, {}), dict, AbcAbstractMethods(dict, d.inherited, d.bases), {}))
    else
      var isInterface := VotesInterface(d);
      var bases := EffectiveBases(d.bases);
      var agg :- AggregateFrom(bases, 0, development);
      var _ :- if development then CheckMethodSignatures(ToMap(d.attributes), agg.signatures) else Success(());
      if isInterface then
        var c :- if d.definesRoot then Success(Classified(d.attributes, [], map[], {}, {}))
                 else EnsureEverythingIsAbstract(d.attributes);
        var _ :- CheckEmpty(c.functions, unwrap);
        var dict := ToMap(c.namespace);
        var abstractMethods := AbcAbstractMethods(dict, d.inherited, bases);
        var pi := NewAttributes(true, agg.signatures + c.signatures, agg.propertyNames + c.propertyNames,
                                agg.attributeNames + c.attributeNames);
        // Line 531-532: an empty interface must still refuse instantiation.
        Success(NewClassResult(pi, dict, if abstractMethods == {} then {""} else abstractMethods, {}))
      else
        var partial := PartialMarker in Names(d.attributes);
        var dict := ToMap(d.attributes) - {PartialMarker};
        var abstractMethods := AbcAbstractMethods(dict, d.inherited, bases);
        var p := PatchProperties(dict, d.inherited, abstractMethods, agg.baseAbstractProperties - ClassDescriptors(dict));
        var pi := NewAttributes(false, agg.signatures, agg.propertyNames, agg.attributeNames)
                    .(abstractProperties := p.abstractProperties);
        Success(NewClassResult(pi, p.dict, p.abstractMethods, if development && !partial then p.abstractMethods else {}))
  }

  /** Lines 448-495: a class with an interface base is created exactly when
      its bases aggregate, development mode finds no bad override in its
      body, and, for an interface other than `PureInterface` itself, every
      member is allowed and every collected function is a placeholder. */
  lemma NewClassSucceeds(d: ClassDefinition, development: bool, unwrap: bool)
    requires HasInterface(d)
    ensures var agg := AggregateFrom(EffectiveBases(d.bases), 0, development);
            var own := EnsureEverythingIsAbstract(d.attributes);
            NewClass(d, development, unwrap).Success? <==>
              && agg.Success?
              && (development ==> CheckMethodSignatures(ToMap(d.attributes), agg.value.signatures).Success?)
              && (VotesInterface(d) && !d.definesRoot ==>
                    own.Success? && CheckEmpty(own.value.functions, unwrap).Success?)
  {
  }

  /** Lines 448-495: an interface whose members are all allowed and whose
      methods and property accessors are placeholders is created exactly when
      its bases aggregate and, in development mode, its body's overrides
      pass; outside development mode it is always created. */
  lemma PlaceholderInterfaceAccepted(d: ClassDefinition, development: bool, unwrap: bool)
    requires HasInterface(d) && VotesInterface(d) && !d.definesRoot
    requires forall i :: 0 <= i < |d.attributes| ==>
               Allowed(d.attributes[i]) && PlaceholderEntry(d.attributes[i], unwrap)
    ensures var agg := AggregateFrom(EffectiveBases(d.bases), 0, development);
            NewClass(d, development, unwrap).Success? <==>
              agg.Success? && (development ==> CheckMethodSignatures(ToMap(d.attributes), agg.value.signatures).Success?)
    ensures !development ==> NewClass(d, development, unwrap).Success?
  {
    NewClassSucceeds(d, development, unwrap);
    assert EnsureEverythingIsAbstract(d.attributes).Success?;
    CheckEmptyIffPlaceholders(d.attributes, unwrap);
  }

  /** Lines 490-495: an interface whose body declares a method with a body
      that is not a placeholder is refused. */
  lemma NonEmptyInterfaceRejected(d: ClassDefinition, development: bool, unwrap: bool, i: nat)
    requires HasInterface(d) && VotesInterface(d) && !d.definesRoot
    requires i < |d.attributes| && Members.DeclaresMethod(d.attributes[i])
    requires !IsEmptyFunction(d.attributes[i].value.f, unwrap)
    ensures NewClass(d, development, unwrap).Failure?
  {
    var c := EnsureEverythingIsAbstract(d.attributes);
    if c.Success? {
      MethodsRecorded(d.attributes);
      assert Some(d.attributes[i].value.f) in c.value.functions;
      assert CheckEmpty(c.value.functions, unwrap).Failure?;
    }
  }

  /** Lines 366-369 and 490-495: an interface whose body declares a property
      with an accessor that is not a placeholder is refused as well. */
  lemma NonEmptyAccessorRejected(d: ClassDefinition, development: bool, unwrap: bool, i: nat, g: Callable)
    requires HasInterface(d) && VotesInterface(d) && !d.definesRoot
    requires i < |d.attributes| && Members.DeclaresProperty(d.attributes[i]) && !d.attributes[i].value.IsAbstract()
    requires Some(g) in [d.attributes[i].value.fget, d.attributes[i].value.fset, d.attributes[i].value.fdel]
    requires !IsEmptyFunction(g, unwrap)
    ensures NewClass(d, development, unwrap).Failure?
  {
    var c := EnsureEverythingIsAbstract(d.attributes);
    if c.Success? {
      AccessorsRecorded(d.attributes);
      assert Some(g) in c.value.functions;
      assert CheckEmpty(c.value.functions, unwrap).Failure?;
    }
  }

  /** Lines 475-488: an interface's metadata merges the bases' declarations
      with its own, its own signatures taking precedence. */
  lemma InterfaceMetadata(d: ClassDefinition, development: bool, unwrap: bool)
    requires HasInterface(d) && VotesInterface(d) && !d.definesRoot
    requires NewClass(d, development, unwrap).Success?
    ensures AggregateFrom(EffectiveBases(d.bases), 0, development).Success?
    ensures EnsureEverythingIsAbstract(d.attributes).Success?
    ensures var agg := AggregateFrom(EffectiveBases(d.bases), 0, development).value;
            var c := EnsureEverythingIsAbstract(d.attributes).value;
            var pi := NewClass(d, development, unwrap).value.pi;
            && pi.methodSignatures.Keys == agg.signatures.Keys + c.signatures.Keys
            && (forall n :: n in c.signatures ==> pi.methodSignatures[n] == c.signatures[n])
            && pi.propertyNames == agg.propertyNames + c.propertyNames
            && pi.attributeNames == agg.attributeNames + c.attributeNames
            && pi.abstractProperties == {}
    ensures var c := EnsureEverythingIsAbstract(d.attributes).value;
            var a := AbcAbstractMethods(ToMap(c.namespace), d.inherited, EffectiveBases(d.bases));
            NewClass(d, development, unwrap).value.abstractMethods == (if a == {} then {""} else a)
  {
  }

  /** Lines 509-512 with 398-414: in a concrete class no name left in
      `__abstractmethods__` is an abstract property, every abstract property
      became a stored attribute, and the properties instances must provide
      are the patched ones plus the inherited ones the class does not define
      itself. */
  lemma ConcretePatching(d: ClassDefinition, development: bool, unwrap: bool)
    requires HasInterface(d) && !VotesInterface(d)
    requires NewClass(d, development, unwrap).Success?
    ensures AggregateFrom(EffectiveBases(d.bases), 0, development).Success?
    ensures var r := NewClass(d, development, unwrap).value;
            var agg := AggregateFrom(EffectiveBases(d.bases), 0, development).value;
            var dict := ToMap(d.attributes) - {PartialMarker};
            var abstractMethods := AbcAbstractMethods(dict, d.inherited, EffectiveBases(d.bases));
            var patched := set n | n in abstractMethods && IsAbstractPropertyAt(dict, d.inherited, n);
            && (forall n :: n in r.abstractMethods ==> n !in patched)
            && (forall n :: n in patched ==> n in r.dict && r.dict[n] == AttributePropertyValue)
            && r.pi.abstractProperties == patched + (agg.baseAbstractProperties - ClassDescriptors(dict))
            && (forall n :: n in r.pi.abstractProperties && n in ClassDescriptors(dict) ==> n in patched)
  ensures var r := NewClass(d, development, unwrap).value;
            var agg := AggregateFrom(EffectiveBases(d.bases), 0, development).value;
            && !r.pi.isInterface
            && r.pi.methodSignatures == agg.signatures
            && r.pi.propertyNames == agg.propertyNames
            && r.pi.attributeNames == agg.attributeNames
  ensures var r := NewClass(d, development, unwrap).value;
            var dict := ToMap(d.attributes) - {PartialMarker};
            var abstractMethods := AbcAbstractMethods(dict, d.inherited, EffectiveBases(d.bases));
            var patched := set n | n in abstractMethods && IsAbstractPropertyAt(dict, d.inherited, n);
            var accessors := set n, a | n in abstractMethods && IsAbstractPropertyAt(dict, d.inherited, n) &&
                                        a in AccessorNames(Resolve(dict, d.inherited, n).value) :: a;
            && r.abstractMethods == abstractMethods - patched - accessors
            && r.incomplete == (if development && PartialMarker !in Names(d.attributes) then r.abstractMethods else {})
            && r.dict.Keys == dict.Keys + patched
            && (forall n :: n in dict && n !in patched ==> r.dict[n] == dict[n])
  {
  }
}
