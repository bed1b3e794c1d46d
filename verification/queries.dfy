/** The public query helpers (lines 775-837): whether a type is a pure
    interface, the interfaces in a class's MRO, and the declared name sets. */
module Queries {
  import opened Wrappers
  import opened Classes

  /** What the helpers can observe of a class: whether it is
      `PureInterface` itself, whether it derives from `PureInterface`, and
      its `_pi` record if it has one. */
  datatype ClassObject = ClassObject(isRoot: bool, derivesFromRoot: bool, pi: Option<PIAttributes>)

  /** `type_is_pure_interface` (lines 775-783); `None` stands for an argument
      that is not a class, for which `issubclass` raises `TypeError`. */
  function TypeIsPureInterface(c: Option<ClassObject>): (r: bool)
    ensures c.None? ==> !r
    ensures r ==> c.value.derivesFromRoot && c.value.pi.Some?
    ensures c.Some? && c.value.derivesFromRoot && c.value.pi.Some? ==> (r <==> c.value.pi.value.isInterface)
  {
    c.Some? && c.value.derivesFromRoot && c.value.pi.Some? && c.value.pi.value.isInterface
  }

  /** The test applied to each MRO entry in `get_type_interfaces`. */
  predicate ListedInterface(c: ClassObject) {
    TypeIsPureInterface(Some(c)) && !c.isRoot
  }

  /** The filter of line 793 over an MRO. */
  function InterfacesIn(mro: seq<ClassObject>): (r: seq<ClassObject>)
    ensures |r| <= |mro|
    ensures forall c :: c in r <==> c in mro && ListedInterface(c)
  {
    if |mro| == 0 then []
    else
      var rest := InterfacesIn(mro[1..]);
      assert forall c :: c in mro <==> c == mro[0] || c in mro[1..];
      if ListedInterface(mro[0]) then [mro[0]] + rest else rest
  }

  /** `get_type_interfaces` (lines 786-793); `None` stands for an argument
      without `mro()`, for which the result is empty. */
  function GetTypeInterfaces(mro: Option<seq<ClassObject>>): (r: seq<ClassObject>)
    ensures mro.None? ==> r == []
    ensures mro.Some? ==> forall c :: c in r <==> c in mro.value && ListedInterface(c)
  {
    if mro.None? then [] else InterfacesIn(mro.value)
  }

  /** The filter keeps MRO order: filtering a concatenation is the
      concatenation of the filtered parts. */
  lemma {:induction false} InterfacesInConcat(a: seq<ClassObject>, b: seq<ClassObject>)
    ensures InterfacesIn(a + b) == InterfacesIn(a) + InterfacesIn(b)
  {
    if |a| > 0 {
      assert (a + b)[1..] == a[1..] + b;
      InterfacesInConcat(a[1..], b);
    } else {
      assert a + b == b;
    }
  }

  /** Filtering is idempotent: the listed interfaces list themselves. */
  lemma {:induction false} InterfacesInIdempotent(mro: seq<ClassObject>)
    ensures InterfacesIn(InterfacesIn(mro)) == InterfacesIn(mro)
  {
    if |mro| > 0 {
      InterfacesInIdempotent(mro[1..]);
      if ListedInterface(mro[0]) {
        var rest := InterfacesIn(mro[1..]);
        assert ([mro[0]] + rest)[1..] == rest;
      }
    }
  }

  /** `get_interface_method_names` (lines 796-804). */
  function GetInterfaceMethodNames(c: Option<ClassObject>): (r: set<string>)
    ensures !TypeIsPureInterface(c) ==> r == {}
    ensures TypeIsPureInterface(c) ==> forall n :: n in r <==> n in c.value.pi.value.methodSignatures
  {
    if TypeIsPureInterface(c) then c.value.pi.value.MethodNames() else {}
  }

  /** `get_interface_property_names` (lines 807-815). */
  function GetInterfacePropertyNames(c: Option<ClassObject>): (r: set<string>)
    ensures !TypeIsPureInterface(c) ==> r == {}
    ensures TypeIsPureInterface(c) ==> r == c.value.pi.value.propertyNames
  {
    if TypeIsPureInterface(c) then c.value.pi.value.propertyNames else {}
  }

  /** `get_interface_attribute_names` (lines 818-826). */
  function GetInterfaceAttributeNames(c: Option<ClassObject>): (r: set<string>)
    ensures !TypeIsPureInterface(c) ==> r == {}
    ensures TypeIsPureInterface(c) ==> r == c.value.pi.value.attributeNames
  {
    if TypeIsPureInterface(c) then c.value.pi.value.attributeNames else {}
  }

  /** `get_interface_properties_and_attribute_names` (lines 829-837). */
  function GetInterfacePropertiesAndAttributeNames(c: Option<ClassObject>): (r: set<string>)
    ensures !TypeIsPureInterface(c) ==> r == {}
    ensures r == GetInterfacePropertyNames(c) + GetInterfaceAttributeNames(c)
  {
    if TypeIsPureInterface(c) then c.value.pi.value.PropsAndAttrs() else {}
  }

  /** The three name queries together give the interface's full name set,
      and an interface's method names are exactly its signatures' keys. */
  lemma QueriesCoverInterfaceNames(c: Option<ClassObject>)
    requires TypeIsPureInterface(c)
    ensures GetInterfaceMethodNames(c) + GetInterfacePropertiesAndAttributeNames(c) == c.value.pi.value.InterfaceNames()
  {
  }
}
