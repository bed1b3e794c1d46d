/** Python objects as the class machinery sees them: callables with their
    argspec, code and `__wrapped__` link, the tagged kinds of value a class
    namespace can hold, and namespaces themselves. */
module Values {
  import opened Wrappers
  import opened Signatures
  import opened Bytecode

  /** A Python function: its `__name__`, its argspec, its code object (absent
      for callables that have no `__code__`), and the function it wraps when
      a decorator set `__wrapped__`. */
  datatype Callable = Callable(name: string, spec: ArgSpec, code: Option<Code>, wrapped: Option<Callable>)

  /** `_unwrap_function` (lines 193-198): follow `__wrapped__` to the end of
      the chain. A datatype value is finite, so the chain always ends. */
  function Unwrap(f: Callable): (r: Callable)
    ensures r.wrapped.None?
    ensures f.wrapped.None? ==> r == f
    ensures r == f || r < f
  {
    match f.wrapped
    case None => f
    case Some(g) => Unwrap(g)
  }

  /** Following the chain from its end goes nowhere. */
  lemma UnwrapIdempotent(f: Callable)
    ensures Unwrap(Unwrap(f)) == Unwrap(f)
  {
  }

  /** `_is_empty_function(func, unwrap)` on a plain function (lines 209-241):
      optionally unwrap decorators, accept anything without a code object,
      otherwise classify the decoded body. */
  function IsEmptyFunction(f: Callable, unwrap: bool): (r: bool)
    ensures (if unwrap then Unwrap(f) else f).code.None? ==> r
    ensures (if unwrap then Unwrap(f) else f).code.Some? ==>
              r == IsEmptyBody((if unwrap then Unwrap(f) else f).code.value)
    ensures (if unwrap then Unwrap(f) else f).code.Some? && |(if unwrap then Unwrap(f) else f).code.value.instrs| >= 2 ==>
              (r <==> ImplicitReturnOnly((if unwrap then Unwrap(f) else f).code.value) ||
                      RaisesNotImplemented((if unwrap then Unwrap(f) else f).code.value))
    ensures unwrap ==> r == IsEmptyFunction(Unwrap(f), false)
  {
    var g := if unwrap then Unwrap(f) else f;
    match g.code
    case None => true
    case Some(c) =>
      if |c.instrs| >= 2 then EmptyIffPlaceholder(c); IsEmptyBody(c) else IsEmptyBody(c)
  }

  /** What kind of `property` object a namespace holds. The source tells
      them apart by two different tests: `__isabstractmethod__` (lines 342,
      505), which a plain `property` reports when one of its accessors is
      abstract, and `isinstance(value, abstractproperty)` (line 405), which
      only an `abc.abstractproperty` passes. */
  datatype PropertyKind =
    | PlainProperty             // no abstract accessor
    | AbstractAccessorProperty  // a plain `property` over an abstract accessor
    | AbstractPropertyObject    // an `abc.abstractproperty`

  /** The kinds of value a class namespace entry can hold. The `isAbstract`
      flags are `__isabstractmethod__`. */
  datatype Value =
    | NoneValue
    | Mapping(keys: set<string>)
    | FunctionValue(f: Callable, isAbstract: bool)
    | StaticMethodValue(f: Callable, isAbstract: bool)
    | ClassMethodValue(f: Callable, isAbstract: bool)
    | PropertyValue(fget: Option<Callable>, fset: Option<Callable>, fdel: Option<Callable>, kind: PropertyKind)
      // AttributeProperty(name), installed by _patch_properties
    | AttributePropertyValue
      // any other object that has `__get__`
    | DescriptorValue(isAbstract: bool)
      // any other object
    | PlainValue(isAbstract: bool)
  {
    /** `getattr(value, '__isabstractmethod__', False)`. */
    predicate IsAbstract() {
      match this
      case FunctionValue(_, a) => a
      case StaticMethodValue(_, a) => a
      case ClassMethodValue(_, a) => a
      case PropertyValue(_, _, _, k) => k != PlainProperty
      case DescriptorValue(a) => a
      case PlainValue(a) => a
      case _ => false
    }

    /** `isinstance(value, abstractproperty)`. */
    predicate IsAbstractProperty() {
      PropertyValue? && kind == AbstractPropertyObject
    }

    /** `isinstance(value, (staticmethod, classmethod, types.FunctionType))`. */
    predicate IsMethod() {
      FunctionValue? || StaticMethodValue? || ClassMethodValue?
    }

    /** `_is_descriptor` (lines 271-272): the value has `__get__`. */
    predicate IsDescriptor() {
      !(NoneValue? || Mapping? || PlainValue?)
    }
  }

  datatype Entry = Entry(name: string, value: Value)

  /** A class namespace (`attributes`, `cls.__dict__`) in insertion order. */
  type Namespace = seq<Entry>

  function Names(ns: Namespace): (r: set<string>)
    ensures forall i :: 0 <= i < |ns| ==> ns[i].name in r
    ensures forall n :: n in r ==> exists i :: 0 <= i < |ns| && ns[i].name == n
  {
    set i | 0 <= i < |ns| :: ns[i].name
  }

  lemma NamesConcat(a: Namespace, b: Namespace)
    ensures Names(a + b) == Names(a) + Names(b)
  {
    forall n | n in Names(a + b) ensures n in Names(a) + Names(b) {
      var i :| 0 <= i < |a + b| && (a + b)[i].name == n;
      if i >= |a| {
        assert b[i - |a|] == (a + b)[i];
      } else {
        assert a[i] == (a + b)[i];
      }
    }
    forall n | n in Names(a) ensures n in Names(a + b) {
      var i :| 0 <= i < |a| && a[i].name == n;
      assert (a + b)[i] == a[i];
    }
    forall n | n in Names(b) ensures n in Names(a + b) {
      var i :| 0 <= i < |b| && b[i].name == n;
      assert (a + b)[|a| + i] == b[i];
    }
  }

  /** The namespace as a dictionary: a later entry for a name replaces an
      earlier one. */
  function ToMap(ns: Namespace): (m: map<string, Value>)
    ensures m.Keys == Names(ns)
    ensures |ns| > 0 ==> m[ns[|ns| - 1].name] == ns[|ns| - 1].value
  {
    if |ns| == 0 then map[]
    else
      var init, last := ns[..|ns| - 1], ns[|ns| - 1];
      assert ns == init + [last];
      NamesConcat(init, [last]);
      ToMap(init)[last.name := last.value]
  }

  /** `_builtin_attrs` (lines 135-141): names the classifier passes through
      untouched. */
  function BuiltinAttr(name: string): (r: bool)
    ensures r ==> |name| > 2 && name[0] == '_'
    ensures r && name[1] != '_' ==> name[..3] == "_pi" || (|name| > 3 && name[..4] == "_abc")
  {
    name in {"__doc__", "__module__", "__qualname__", "__abstractmethods__", "__dict__",
             "__metaclass__", "__weakref__",
             "_abc_cache", "_abc_impl", "_abc_registry", "_abc_negative_cache_version", "_abc_negative_cache",
             "_pi", "_pi_unwrap_decorators"}
  }
}
