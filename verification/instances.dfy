/** The instance guard `PureInterfaceType.__call__` and the stored-attribute
    property `AttributeProperty` that patched classes use. */
module Instances {
  import opened Wrappers
  import opened Errors
  import opened Values
  import opened Classes

  /** `PureInterfaceType.__call__` (lines 535-546). Building the instance and
      running its initialiser belong to the host: `present` is the set of
      names `hasattr` finds on the initialised instance. Before the
      initialiser runs, the ABC machinery refuses a class whose
      `__abstractmethods__` is not empty. The abstract properties are checked
      before the interface attributes. */
  function Instantiate(pi: PIAttributes, abstractMethods: set<string>, present: set<string>): (r: Result<(), Error>)
    ensures pi.isInterface ==> r == Failure(InterfaceInstantiation)
    ensures !pi.isInterface && abstractMethods != {} ==> r == Failure(AbstractInstantiation(abstractMethods))
    ensures !pi.isInterface && abstractMethods == {} ==>
              (r.Success? <==> pi.abstractProperties + pi.attributeNames <= present)
    ensures r.Failure? && r.error.MissingAttributes? ==>
              && r.error.names != {}
              && r.error.names !! present
              && (r.error.names <= pi.abstractProperties || pi.abstractProperties <= present)
              && r.error.names <= pi.abstractProperties + pi.attributeNames
  {
    if pi.isInterface then Failure(InterfaceInstantiation)
    else if abstractMethods != {} then Failure(AbstractInstantiation(abstractMethods))
    else
      var missingProperties := pi.abstractProperties - present;
      var missingAttributes := pi.attributeNames - present;
      if missingProperties != {} then Failure(MissingAttributes(missingProperties))
      else
        assert forall n :: n in pi.abstractProperties ==> n in present by {
          forall n | n in pi.abstractProperties ensures n in present {
            assert n !in missingProperties;
          }
        }
        if missingAttributes != {} then Failure(MissingAttributes(missingAttributes))
      else
        assert forall n :: n in pi.attributeNames ==> n in present by {
          forall n | n in pi.attributeNames ensures n in present {
            assert n !in missingAttributes;
          }
        }
        Success(())
  }

  /** An interface built by the hook can never be instantiated, not even when
      it declares no members (lines 531-532 and 537-538). */
  lemma InterfacesNeverInstantiate(d: ClassDefinition, development: bool, unwrap: bool, present: set<string>)
    requires NewClass(d, development, unwrap).Success?
    requires NewClass(d, development, unwrap).value.pi.isInterface
    ensures var c := NewClass(d, development, unwrap).value;
            Instantiate(c.pi, c.abstractMethods, present).Failure?
    ensures var c := NewClass(d, development, unwrap).value;
            Instantiate(c.pi.(isInterface := false), c.abstractMethods, present).Failure?
  {
  }

  /** Lines 508-512 with 540-545: a concrete class built on an interface that
      declares attribute `n` refuses an instance whose initialiser leaves `n`
      unset, and reports it among the missing attributes. */
  lemma UnsetInterfaceAttributeRefused(d: ClassDefinition, development: bool, unwrap: bool,
                                       present: set<string>, j: nat, n: string)
    requires HasInterface(d) && !VotesInterface(d)
    requires NewClass(d, development, unwrap).Success?
    requires NewClass(d, development, unwrap).value.abstractMethods == {}
    requires j < |EffectiveBases(d.bases)| && BaseIsInterface(EffectiveBases(d.bases)[j])
    requires n in EffectiveBases(d.bases)[j].pi.value.attributeNames && n !in present
    ensures var c := NewClass(d, development, unwrap).value;
            var r := Instantiate(c.pi, c.abstractMethods, present);
            r.Failure? && r.error.MissingAttributes?
  {
    ConcretePatching(d, development, unwrap);
    AggregatedNames(EffectiveBases(d.bases), 0, development, n);
  }

  /** Lines 398-414 with 540-542: an abstract property an interface base
      declares and the concrete class does not define becomes a property
      instances must provide; an instance whose initialiser leaves it unset
      is refused, and once no abstract method is left the refusal reports
      missing attributes. */
  lemma UnsetInterfacePropertyRefused(d: ClassDefinition, development: bool, unwrap: bool,
                                      present: set<string>, j: nat, n: string)
    requires HasInterface(d) && !VotesInterface(d)
    requires NewClass(d, development, unwrap).Success?
    requires j < |EffectiveBases(d.bases)| && n in EffectiveBases(d.bases)[j].abstractMethods
    requires n !in ToMap(d.attributes) && n in d.inherited && d.inherited[n].IsAbstractProperty()
    requires n !in present
    ensures var c := NewClass(d, development, unwrap).value;
            && n in c.pi.abstractProperties
            && n !in c.abstractMethods
            && Instantiate(c.pi, c.abstractMethods, present).Failure?
    ensures var c := NewClass(d, development, unwrap).value;
            var r := Instantiate(c.pi, c.abstractMethods, present);
            c.abstractMethods == {} ==> r.Failure? && r.error.MissingAttributes?
  {
    ConcretePatching(d, development, unwrap);
    var dict := ToMap(d.attributes) - {PartialMarker};
    var bases := EffectiveBases(d.bases);
    assert bases[j] in bases;
    assert Resolve(dict, d.inherited, n) == Some(d.inherited[n]);
    assert n in AbcAbstractMethods(dict, d.inherited, bases);
  }

  /** Lines 505 and 509-529: an abstract method an interface base declares,
      which the concrete class neither defines nor shadows with a property
      accessor of the same name, stays in `__abstractmethods__`, is reported
      as not implemented in development mode unless the class is marked
      partial, and makes instantiation fail. */
  lemma UnimplementedMethodReported(d: ClassDefinition, development: bool, unwrap: bool,
                                    present: set<string>, j: nat, n: string)
    requires HasInterface(d) && !VotesInterface(d)
    requires NewClass(d, development, unwrap).Success?
    requires j < |EffectiveBases(d.bases)| && n in EffectiveBases(d.bases)[j].abstractMethods
    requires n !in ToMap(d.attributes) && n in d.inherited
    requires d.inherited[n].IsAbstract() && !d.inherited[n].IsAbstractProperty()
    requires forall p :: p in ToMap(d.attributes) && ToMap(d.attributes)[p].PropertyValue? ==>
               n !in AccessorNames(ToMap(d.attributes)[p])
    requires forall p :: p in d.inherited && d.inherited[p].PropertyValue? ==> n !in AccessorNames(d.inherited[p])
    ensures var c := NewClass(d, development, unwrap).value;
            && n in c.abstractMethods
            && (development && PartialMarker !in Names(d.attributes) ==> n in c.incomplete)
            && Instantiate(c.pi, c.abstractMethods, present) == Failure(AbstractInstantiation(c.abstractMethods))
  {
    ConcretePatching(d, development, unwrap);
    var dict := ToMap(d.attributes) - {PartialMarker};
    var bases := EffectiveBases(d.bases);
    var abstractMethods := AbcAbstractMethods(dict, d.inherited, bases);
    assert bases[j] in bases;
    assert Resolve(dict, d.inherited, n) == Some(d.inherited[n]);
    assert n in abstractMethods;
    forall p | p in abstractMethods && IsAbstractPropertyAt(dict, d.inherited, p)
      ensures n !in AccessorNames(Resolve(dict, d.inherited, p).value)
    {
      if p in dict {
        assert p in ToMap(d.attributes) && dict[p] == ToMap(d.attributes)[p];
      }
    }
  }

  /** What reading an `AttributeProperty` yields: the descriptor itself when
      read from the class, the stored value when read from an instance. */
  datatype Access<V> = DescriptorItself | Stored(value: V)

  /** `AttributeProperty.__get__` (lines 108-114) over the instance
      dictionary; `None` stands for access through the class. */
  function AttributeGet<V>(name: string, instance: Option<map<string, V>>): (r: Result<Access<V>, Error>)
    ensures instance.None? ==> r == Success(DescriptorItself)
    ensures instance.Some? ==> (r.Success? <==> name in instance.value)
    ensures instance.Some? && r.Failure? ==> r.error == AttributeNotSet(name)
    ensures instance.Some? && name in instance.value ==> r == Success(Stored(instance.value[name]))
  {
    match instance
    case None => Success(DescriptorItself)
    case Some(d) => if name in d then Success(Stored(d[name])) else Failure(AttributeNotSet(name))
  }

  /** `AttributeProperty.__set__` (lines 116-117). */
  function AttributeSet<V>(name: string, instance: map<string, V>, value: V): (r: map<string, V>)
    ensures name in r
    ensures forall n :: n != name ==> (n in r <==> n in instance)
    ensures r[name] == value
    ensures forall n :: n != name && n in instance ==> r[n] == instance[n]
  {
    instance[name := value]
  }

  /** A stored attribute reads back the last value set, setting it leaves
      every other name alone, and reading one never set fails. */
  lemma AttributeRoundTrip<V>(name: string, other: string, instance: map<string, V>, first: V, last: V)
    requires other != name
    ensures AttributeGet(name, Some(AttributeSet(name, AttributeSet(name, instance, first), last))) == Success(Stored(last))
    ensures AttributeGet(other, Some(AttributeSet(name, instance, last))) == AttributeGet(other, Some(instance))
    ensures name !in instance ==> AttributeGet(name, Some(instance)) == Failure(AttributeNotSet(name))
  {
  }
}
