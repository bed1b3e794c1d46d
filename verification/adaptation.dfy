/** Structural conformance, adaptation and the query helpers: `provided_by`
    and the structural checks, the interface-only view, adapter lookup and
    registration, `adapt` and its variants, and the name-set accessors. */
module Adaptation {
  import opened Wrappers
  import opened Errors
  import opened Classes
  import Queries

  type TypeId = nat
  type AdapterId = nat

  /** A runtime type as the structural checks see it: its identity, its
      `__mro__` (itself first), the names `getattr(type, n)` resolves to
      something callable, and the names `hasattr(type, n)` finds. */
  datatype TypeView = TypeView(id: TypeId, mro: seq<TypeId>, callableNames: set<string>, attributeNames: set<string>)

  /** An object: its type and the names `hasattr(obj, n)` finds. */
  datatype Obj = Obj(typ: TypeView, present: set<string>)

  /** An interface class at run time: identity, `__name__`, whether it
      derives from `PureInterface`, its `_pi` record and its adapter table
      (from-type to adapter). */
  datatype InterfaceClass = InterfaceClass(
    id: TypeId,
    name: string,
    derivesFromRoot: bool,
    pi: PIAttributes,
    adapters: map<TypeId, AdapterId>)

  /** `_structural_type_check` (lines 564-573): every interface method is
      callable on the object's type and every property and attribute is
      present on the object. */
  function InstanceConforms(pi: PIAttributes, obj: Obj): (r: bool)
    ensures r <==> forall n :: n in pi.InterfaceNames() ==>
                     && (n in pi.methodSignatures ==> n in obj.typ.callableNames)
                     && (n in pi.propertyNames || n in pi.attributeNames ==> n in obj.present)
  {
    pi.MethodNames() <= obj.typ.callableNames && pi.PropsAndAttrs() <= obj.present
  }

  /** The test of `_class_structural_type_check` (lines 580-586), on the type
      itself. */
  function TypeConforms(pi: PIAttributes, t: TypeView): (r: bool)
    ensures r <==> forall n :: n in pi.InterfaceNames() ==>
                     && (n in pi.methodSignatures ==> n in t.callableNames)
                     && (n in pi.propertyNames || n in pi.attributeNames ==> n in t.attributeNames)
  {
    pi.MethodNames() <= t.callableNames && pi.PropsAndAttrs() <= t.attributeNames
  }

  /** `_class_structural_type_check` (lines 576-598): a cached type passes at
      once; a type that passes the test is added to the cache. */
  function ClassStructuralCheck(pi: PIAttributes, cache: set<TypeId>, t: TypeView): (r: (bool, set<TypeId>))
    ensures r.0 <==> t.id in cache || TypeConforms(pi, t)
    ensures r.1 == if r.0 then cache + {t.id} else cache
  {
    if t.id in cache then (true, cache)
    else if TypeConforms(pi, t) then (true, cache + {t.id})
    else (false, cache)
  }

  /** A universe of types: every object's type view is the one recorded for
      its identity. */
  predicate Known(types: map<TypeId, TypeView>, o: Obj) {
    o.typ.id in types && types[o.typ.id] == o.typ
  }

  /** The cache holds only types that pass the test. */
  predicate CacheSound(pi: PIAttributes, cache: set<TypeId>, types: map<TypeId, TypeView>) {
    forall id :: id in cache ==> id in types && TypeConforms(pi, types[id])
  }

  /** The cache never changes an answer: with a sound cache the cached check
      agrees with the plain test, and the cache stays sound. */
  lemma CachedCheckAgrees(pi: PIAttributes, cache: set<TypeId>, types: map<TypeId, TypeView>, t: TypeView)
    requires CacheSound(pi, cache, types)
    requires t.id in types && types[t.id] == t
    ensures ClassStructuralCheck(pi, cache, t).0 == TypeConforms(pi, t)
    ensures CacheSound(pi, ClassStructuralCheck(pi, cache, t).1, types)
  {
  }

  /** `provided_by` (lines 600-616): an instance of the interface; otherwise,
      when implicit conformance is allowed, the type or the object passes the
      structural test. The result carries the updated cache. */
  function ProvidedBy(cls: InterfaceClass, cache: set<TypeId>, obj: Obj, allowImplicit: bool): (r: Result<(bool, set<TypeId>), Error>)
    ensures r.Failure? <==> !cls.pi.isInterface
    ensures r.Failure? ==> r.error == NotAnInterface
    ensures r.Success? && cls.id in obj.typ.mro ==> r.value.0
    ensures r.Success? && !allowImplicit ==> (r.value.0 <==> cls.id in obj.typ.mro)
    ensures r.Success? ==> cache <= r.value.1 <= cache + {obj.typ.id}
    ensures r.Success? && !r.value.0 ==> r.value.1 == cache
  {
    if !cls.pi.isInterface then Failure(NotAnInterface)
    else if cls.id in obj.typ.mro then Success((true, cache))
    else if !allowImplicit then Success((false, cache))
    else
      var (passes, cache') := ClassStructuralCheck(cls.pi, cache, obj.typ);
      if passes then Success((true, cache')) else Success((InstanceConforms(cls.pi, obj), cache'))
  }

  /** `provided_by` without the cache: the reference the cached version is
      measured against. */
  predicate Provided(cls: InterfaceClass, obj: Obj, allowImplicit: bool) {
    cls.id in obj.typ.mro || (allowImplicit && (TypeConforms(cls.pi, obj.typ) || InstanceConforms(cls.pi, obj)))
  }

  lemma ProvidedByAgrees(cls: InterfaceClass, cache: set<TypeId>, types: map<TypeId, TypeView>, obj: Obj, allowImplicit: bool)
    requires cls.pi.isInterface
    requires CacheSound(cls.pi, cache, types) && Known(types, obj)
    ensures ProvidedBy(cls, cache, obj, allowImplicit).Success?
    ensures ProvidedBy(cls, cache, obj, allowImplicit).value.0 == Provided(cls, obj, allowImplicit)
    ensures CacheSound(cls.pi, ProvidedBy(cls, cache, obj, allowImplicit).value.1, types)
  {
    if cls.id !in obj.typ.mro && allowImplicit {
      CachedCheckAgrees(cls.pi, cache, types, obj.typ);
    }
  }

  /** What `adapt` hands back: the object itself, or an interface-only view
      of it (`interface_only`, lines 618-627) exposing the interface's
      declared names. */
  datatype View = Plain(obj: Obj) | InterfaceOnly(obj: Obj, interfaceName: string, names: set<string>)

  function InterfaceOnlyView(cls: InterfaceClass, obj: Obj): (r: View)
    ensures r.InterfaceOnly? && r.obj == obj && r.interfaceName == cls.name
    ensures forall n :: n in r.names <==> n in cls.pi.methodSignatures || n in cls.pi.propertyNames || n in cls.pi.attributeNames
  {
    InterfaceOnly(obj, cls.name, cls.pi.InterfaceNames())
  }

  /** `_ImplementationWrapper.__getattr__` (lines 127-132): a declared name is
      read from the wrapped object (`getattr`, failing when the object lacks
      it); any other name fails with an error naming the interface. */
  function WrapperGetAttr<V>(interfaceName: string, names: set<string>, implementation: map<string, V>, attr: string): (r: Result<V, Error>)
    ensures attr !in names ==> r == Failure(NotInInterface(interfaceName, attr))
    ensures r.Success? <==> attr in names && attr in implementation
    ensures r.Success? ==> r.value == implementation[attr]
  {
    if attr in names then
      if attr in implementation then Success(implementation[attr]) else Failure(NoSuchAttribute(attr))
    else
      Failure(NotInInterface(interfaceName, attr))
  }

  /** `type_is_pure_interface(subcls)`: the query helper applied to what the
      helpers observe of an interface class. */
  predicate IsPureInterface(c: InterfaceClass) {
    Queries.TypeIsPureInterface(Some(Queries.ClassObject(false, c.derivesFromRoot, Some(c.pi))))
  }

  /** The adapter table an interface contributes to the merge. */
  function TableOf(c: InterfaceClass): map<TypeId, AdapterId> {
    if IsPureInterface(c) then c.adapters else map[]
  }

  /** The merge of lines 634-639 over `cls.__subclasses__()`: the list is
      visited reversed and later updates win, so an earlier subclass's entry
      beats a later one's. */
  function SubclassTables(subclasses: seq<InterfaceClass>): (m: map<TypeId, AdapterId>)
    ensures forall k :: k in m <==> exists i :: 0 <= i < |subclasses| && k in TableOf(subclasses[i])
  {
    if |subclasses| == 0 then map[]
    else
      var rest := SubclassTables(subclasses[1..]);
      assert forall i :: 1 <= i < |subclasses| ==> subclasses[i] == subclasses[1..][i - 1];
      rest + TableOf(subclasses[0])
  }

  /** Lines 634-639: the merged table, `cls`'s own entries applied last. */
  function MergedAdapters(cls: InterfaceClass, subclasses: seq<InterfaceClass>): (m: map<TypeId, AdapterId>)
    ensures forall k :: k in TableOf(cls) ==> k in m && m[k] == TableOf(cls)[k]
    ensures forall k :: k in m ==> k in TableOf(cls) || k in SubclassTables(subclasses)
    ensures forall k :: k in SubclassTables(subclasses) && k !in TableOf(cls) ==>
              k in m && m[k] == SubclassTables(subclasses)[k]
  {
    SubclassTables(subclasses) + TableOf(cls)
  }

  /** For a from-type `cls` has no adapter for, the first subclass (in
      `__subclasses__()` order) that has one supplies it. */
  lemma {:induction false} SubclassPrecedence(subclasses: seq<InterfaceClass>, k: TypeId, i: nat)
    requires i < |subclasses| && k in TableOf(subclasses[i])
    requires forall j :: 0 <= j < i ==> k !in TableOf(subclasses[j])
    ensures k in SubclassTables(subclasses) && SubclassTables(subclasses)[k] == TableOf(subclasses[i])[k]
  {
    if i > 0 {
      var tail := subclasses[1..];
      forall j | 0 <= j < i - 1 ensures k !in TableOf(tail[j]) {
        assert tail[j] == subclasses[j + 1];
      }
      SubclassPrecedence(tail, k, i - 1);
    }
  }

  /** Lines 643-648: the entry for the first class of the MRO the table has. */
  function FirstInMro(mro: seq<TypeId>, table: map<TypeId, AdapterId>): (r: Option<AdapterId>)
    ensures r.None? <==> forall i :: 0 <= i < |mro| ==> mro[i] !in table
    ensures r.Some? ==> exists i :: 0 <= i < |mro| && mro[i] in table && r.value == table[mro[i]] &&
                           forall j :: 0 <= j < i ==> mro[j] !in table
  {
    if |mro| == 0 then None
    else if mro[0] in table then Some(table[mro[0]])
    else
      var r := FirstInMro(mro[1..], table);
      assert forall i :: 1 <= i < |mro| ==> mro[i] == mro[1..][i - 1];
      if r.Some? then
        var i :| 0 <= i < |mro[1..]| && mro[1..][i] in table && r.value == table[mro[1..][i]] &&
                 forall j :: 0 <= j < i ==> mro[1..][j] !in table;
        assert mro[i + 1] == mro[1..][i];
        r
      else r
  }

  /** `_get_adapter` (lines 630-648). */
  function GetAdapter(cls: InterfaceClass, subclasses: seq<InterfaceClass>, objType: TypeView): (r: Option<AdapterId>)
    ensures r == FirstInMro(objType.mro, MergedAdapters(cls, subclasses))
  {
    var table := MergedAdapters(cls, subclasses);
    if table == map[] then None else FirstInMro(objType.mro, table)
  }

  /** `cls`'s own adapter for the object's most specific registered class
      wins over any subclass's adapter for the same class. */
  lemma OwnAdapterWins(cls: InterfaceClass, subclasses: seq<InterfaceClass>, objType: TypeView, i: nat)
    requires IsPureInterface(cls)
    requires i < |objType.mro| && objType.mro[i] in cls.adapters
    requires forall j :: 0 <= j < i ==> objType.mro[j] !in MergedAdapters(cls, subclasses)
    ensures GetAdapter(cls, subclasses, objType) == Some(cls.adapters[objType.mro[i]])
  {
    var table := MergedAdapters(cls, subclasses);
    var r := FirstInMro(objType.mro, table);
    var k :| 0 <= k < |objType.mro| && objType.mro[k] in table && r.value == table[objType.mro[k]] &&
             forall j :: 0 <= j < k ==> objType.mro[j] !in table;
    assert k == i;
  }

  /** What `register_adapter` is given as `to_interface`. */
  datatype Target = NotAType | ClassWithoutPi | ClassWithPi(cls: InterfaceClass)

  /** `register_adapter` (lines 754-772): the adapter must be callable, the
      from-type a type, the target an interface without an adapter for that
      from-type yet; the table then gains exactly that entry. */
  function RegisterAdapter(adapterCallable: bool, fromIsType: bool, fromType: TypeId, adapter: AdapterId, target: Target): (r: Result<InterfaceClass, Error>)
    ensures r.Success? <==>
              adapterCallable && fromIsType && target.ClassWithPi? && target.cls.pi.isInterface &&
              fromType !in target.cls.adapters
    ensures r.Success? ==>
              && r.value == target.cls.(adapters := r.value.adapters)
              && r.value.adapters.Keys == target.cls.adapters.Keys + {fromType}
              && |r.value.adapters| == |target.cls.adapters| + 1
              && r.value.adapters[fromType] == adapter
              && forall k :: k in target.cls.adapters ==> r.value.adapters[k] == target.cls.adapters[k]
    ensures (adapterCallable && fromIsType && target.ClassWithPi? && target.cls.pi.isInterface &&
             fromType in target.cls.adapters) ==> r == Failure(DuplicateAdapter)
  {
    if !adapterCallable then Failure(AdapterNotCallable)
    else if !fromIsType then Failure(FromTypeNotAType)
    else if !(target.ClassWithPi? && target.cls.pi.isInterface) then Failure(TargetNotAnInterface)
    else if fromType in target.cls.adapters then Failure(DuplicateAdapter)
    else Success(target.cls.(adapters := target.cls.adapters[fromType := adapter]))
  }

  /** A second registration for the same from-type is refused. */
  lemma SecondRegistrationRefused(fromType: TypeId, first: AdapterId, second: AdapterId, cls: InterfaceClass)
    requires RegisterAdapter(true, true, fromType, first, ClassWithPi(cls)).Success?
    ensures RegisterAdapter(true, true, fromType, second,
              ClassWithPi(RegisterAdapter(true, true, fromType, first, ClassWithPi(cls)).value)) == Failure(DuplicateAdapter)
  {
  }

  /** The view `adapt` returns: wrapped when interface-only access is on. */
  function ViewOf(cls: InterfaceClass, obj: Obj, wrap: bool): View {
    if wrap then InterfaceOnlyView(cls, obj) else Plain(obj)
  }

  /** `adapt` (lines 650-672). `interfaceOnly` defaults to the development
      flag; `apply` is the host calling an adapter on an object. The cache of
      structurally matched types is threaded through and returned. */
  function Adapt(cls: InterfaceClass, subclasses: seq<InterfaceClass>, cache: set<TypeId>, obj: Obj,
                 allowImplicit: bool, interfaceOnly: Option<bool>, development: bool,
                 apply: (AdapterId, Obj) -> Obj): (r: Result<(View, set<TypeId>), Error>)
    ensures r.Failure? ==> r.error in {NotAnInterface, CannotAdapt, AdapterDoesNotImplement}
    ensures r.Success? ==> r.value.0 == ViewOf(cls, r.value.0.obj, interfaceOnly.GetOr(development))
    ensures r.Success? ==> ProvidedBy(cls, cache, obj, allowImplicit).Success?
    ensures r.Success? && ProvidedBy(cls, cache, obj, allowImplicit).value.0 ==> r.value.0.obj == obj
    ensures cls.pi.isInterface && ProvidedBy(cls, cache, obj, allowImplicit).value.0 ==> r.Success?
    ensures r.Success? && !ProvidedBy(cls, cache, obj, allowImplicit).value.0 ==>
              GetAdapter(cls, subclasses, obj.typ).Some? &&
              r.value.0.obj == apply(GetAdapter(cls, subclasses, obj.typ).value, obj)
  {
    var wrap := interfaceOnly.GetOr(development);
    var first :- ProvidedBy(cls, cache, obj, allowImplicit);
    var adapter := if first.0 then None else GetAdapter(cls, subclasses, obj.typ);
    if !first.0 && adapter.None? then Failure(CannotAdapt)
    else
      var adapted := if first.0 then obj else apply(adapter.value, obj);
      var second := ProvidedBy(cls, first.1, adapted, allowImplicit).value;
      if !second.0 then Failure(AdapterDoesNotImplement)
      else Success((ViewOf(cls, adapted, wrap), second.1))
  }

  /** `adapt` without the cache. */
  function AdaptReference(cls: InterfaceClass, subclasses: seq<InterfaceClass>, obj: Obj, allowImplicit: bool,
                          wrap: bool, apply: (AdapterId, Obj) -> Obj): Option<View> {
    if !cls.pi.isInterface then None
    else if Provided(cls, obj, allowImplicit) then Some(ViewOf(cls, obj, wrap))
    else
      match GetAdapter(cls, subclasses, obj.typ)
      case None => None
      case Some(a) =>
        var adapted := apply(a, obj);
        if Provided(cls, adapted, allowImplicit) then Some(ViewOf(cls, adapted, wrap)) else None
  }

  /** Every adapter result for `obj` has a known type. */
  ghost predicate AdaptedKnown(types: map<TypeId, TypeView>, obj: Obj, apply: (AdapterId, Obj) -> Obj) {
    forall a: AdapterId :: Known(types, apply(a, obj))
  }

  /** With a sound cache, `adapt` succeeds exactly when the cache-free
      reference does, with the same result, and the cache stays sound. */
  lemma AdaptAgrees(cls: InterfaceClass, subclasses: seq<InterfaceClass>, cache: set<TypeId>, types: map<TypeId, TypeView>,
                    obj: Obj, allowImplicit: bool, interfaceOnly: Option<bool>, development: bool,
                    apply: (AdapterId, Obj) -> Obj)
    requires CacheSound(cls.pi, cache, types) && Known(types, obj) && AdaptedKnown(types, obj, apply)
    ensures var r := Adapt(cls, subclasses, cache, obj, allowImplicit, interfaceOnly, development, apply);
            var ref := AdaptReference(cls, subclasses, obj, allowImplicit, interfaceOnly.GetOr(development), apply);
            (r.Success? <==> ref.Some?) && (r.Success? ==> r.value.0 == ref.value && CacheSound(cls.pi, r.value.1, types))
  {
    if cls.pi.isInterface {
      ProvidedByAgrees(cls, cache, types, obj, allowImplicit);
      var first := ProvidedBy(cls, cache, obj, allowImplicit).value;
      var adapter := GetAdapter(cls, subclasses, obj.typ);
      if first.0 {
        ProvidedByAgrees(cls, first.1, types, obj, allowImplicit);
      } else if adapter.Some? {
        ProvidedByAgrees(cls, first.1, types, apply(adapter.value, obj), allowImplicit);
      }
    }
  }

  /** `adapt_or_none` (lines 674-681): a failure becomes `None`; a failed
      adaptation leaves the cache as it was. */
  function AdaptOrNone(cls: InterfaceClass, subclasses: seq<InterfaceClass>, cache: set<TypeId>, obj: Obj,
                       allowImplicit: bool, interfaceOnly: Option<bool>, development: bool,
                       apply: (AdapterId, Obj) -> Obj): (r: (Option<View>, set<TypeId>))
    ensures r.0.Some? <==> Adapt(cls, subclasses, cache, obj, allowImplicit, interfaceOnly, development, apply).Success?
    ensures r.0.None? ==> r.1 == cache
    ensures r.0.Some? ==>
              var a := Adapt(cls, subclasses, cache, obj, allowImplicit, interfaceOnly, development, apply);
              a.Success? && r == (Some(a.value.0), a.value.1)
  {
    match Adapt(cls, subclasses, cache, obj, allowImplicit, interfaceOnly, development, apply)
    case Success((v, c)) => (Some(v), c)
    case Failure(_) => (None, cache)
  }

  /** `can_adapt` (lines 683-691). */
  function CanAdapt(cls: InterfaceClass, subclasses: seq<InterfaceClass>, cache: set<TypeId>, obj: Obj,
                    allowImplicit: bool, development: bool, apply: (AdapterId, Obj) -> Obj): (r: (bool, set<TypeId>))
    ensures r.0 <==> AdaptOrNone(cls, subclasses, cache, obj, allowImplicit, None, development, apply).0.Some?
    ensures !r.0 ==> r.1 == cache
  {
    var (v, c) := AdaptOrNone(cls, subclasses, cache, obj, allowImplicit, None, development, apply);
    (v.Some?, c)
  }

  /** `filter_adapt` (lines 693-704): adapt each object in order, silently
      skipping those that cannot be adapted. */
  function FilterAdapt(cls: InterfaceClass, subclasses: seq<InterfaceClass>, cache: set<TypeId>, objects: seq<Obj>,
                       allowImplicit: bool, interfaceOnly: Option<bool>, development: bool,
                       apply: (AdapterId, Obj) -> Obj): (r: (seq<View>, set<TypeId>))
    ensures |r.0| <= |objects|
    decreases |objects|
  {
    if |objects| == 0 then ([], cache)
    else
      var (v, c) := AdaptOrNone(cls, subclasses, cache, objects[0], allowImplicit, interfaceOnly, development, apply);
      var rest := FilterAdapt(cls, subclasses, c, objects[1..], allowImplicit, interfaceOnly, development, apply);
      if v.Some? then ([v.value] + rest.0, rest.1) else rest
  }

  /** The objects that adapt, adapted, in input order, by the reference. */
  function FilterReference(cls: InterfaceClass, subclasses: seq<InterfaceClass>, objects: seq<Obj>, allowImplicit: bool,
                           wrap: bool, apply: (AdapterId, Obj) -> Obj): seq<View>
  {
    if |objects| == 0 then []
    else
      var rest := FilterReference(cls, subclasses, objects[1..], allowImplicit, wrap, apply);
      match AdaptReference(cls, subclasses, objects[0], allowImplicit, wrap, apply)
      case Some(v) => [v] + rest
      case None => rest
  }

  /** With a sound cache and known types, `filter_adapt` yields exactly the
      successful adaptations in input order. */
  lemma {:induction false} FilterAdaptAgrees(cls: InterfaceClass, subclasses: seq<InterfaceClass>, cache: set<TypeId>,
                                             types: map<TypeId, TypeView>, objects: seq<Obj>, allowImplicit: bool,
                                             interfaceOnly: Option<bool>, development: bool, apply: (AdapterId, Obj) -> Obj)
    requires CacheSound(cls.pi, cache, types)
    requires forall i :: 0 <= i < |objects| ==> Known(types, objects[i]) && AdaptedKnown(types, objects[i], apply)
    ensures FilterAdapt(cls, subclasses, cache, objects, allowImplicit, interfaceOnly, development, apply).0 ==
            FilterReference(cls, subclasses, objects, allowImplicit, interfaceOnly.GetOr(development), apply)
    decreases |objects|
  {
    if |objects| > 0 {
      AdaptAgrees(cls, subclasses, cache, types, objects[0], allowImplicit, interfaceOnly, development, apply);
      var (v, c) := AdaptOrNone(cls, subclasses, cache, objects[0], allowImplicit, interfaceOnly, development, apply);
      assert forall i :: 1 <= i < |objects| ==> objects[i] == objects[1..][i - 1];
      FilterAdaptAgrees(cls, subclasses, c, types, objects[1..], allowImplicit, interfaceOnly, development, apply);
    }
  }
}
