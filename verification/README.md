# pure_interface in Dafny

This project models the decision logic of `pure_interface.py`. That library
adds Java-style interfaces to Python through the metaclass
`PureInterfaceType`. In an interface class every method and property is made
abstract, and every body must be a placeholder (`pass`, a docstring or
`raise NotImplementedError()`). A concrete class deriving from an interface
can have its method overrides checked against the interface's signatures.
Its un-implemented abstract properties are replaced by plain stored
attributes, and on instantiation every such property and every declared
interface attribute must be present. At run time an interface can:

- test whether an object provides it, by inheritance or structurally;
- adapt an object through registered adapters;
- wrap an object so that only the interface's names are reachable.

Python reflection is taken as data throughout:

- an argspec is a record of parameter names, a defaults count and two flags;
- a function body is its decoded instruction list with its constant and
  name tables;
- a class namespace is a sequence of name/value entries in insertion order,
  and the values are tagged by kind;
- an MRO or a subclass list is a given sequence;
- `hasattr` and `callable` answers are given name sets;
- an adapter table maps type ids to adapter ids.

The `is_development` switch is an ordinary boolean parameter. So is the
metaclass's `_pi_unwrap_decorators` flag. Python exceptions are the
`Failure` case of `Result`, with one `Errors.Error` constructor per kind
of error.

The modules follow the source:

- `Wrappers`: `Option` and `Result`.
- `Errors`: the exceptions.
- `Signatures`: `_signature_info` and `_signatures_are_consistent`.
- `Bytecode`: the emptiness verifier of `_is_empty_function`.
- `Values`: callables, namespace values, `_unwrap_function`, `_builtin_attrs`.
- `Members`: `_ensure_everything_is_abstract` and `_check_method_signatures`.
- `Classes`: `_PIAttributes`, `PureInterfaceType.__new__` and `_patch_properties`.
- `Instances`: `PureInterfaceType.__call__` and `AttributeProperty`.
- `Adaptation`: structural checks, `provided_by`, the interface-only wrapper,
  adapter lookup and registration, and `adapt` with its variants.
- `Queries`: `type_is_pure_interface`, `get_type_interfaces` and the name-set
  getters.

## Model

| member | source | states |
|---|---|---|
| `Signatures.Info` | pure_interface.py:275-285 | The required names followed by the defaulted names give back the whole argument list. The defaulted part has as many names as there are defaults, capped by the argument count as Python's negative slice caps it. Both flags are kept. |
| `Signatures.DefaultedAreInArgs` | pure_interface.py:278-281 | Every defaulted name is one of the argument names, so the later `args.index` lookup is defined. |
| `Signatures.Consistent` | pure_interface.py:288-324 | An accepted override keeps the base's `*args` and `**kwargs` and has no more required parameters than the base. Without `*args` of its own it starts with the base's required names, in the base's order. |
| `Signatures.PositionalCallsPreserved` | pure_interface.py:288-324 | Soundness of the consistency rule: if the base's names are distinct and the override has no `**kwargs`, every number of positional arguments the base accepts is accepted by a consistent override. |
| `Signatures.KeywordsLeniency` | pure_interface.py:304-305 | The rule is not sound once the override has `**kwargs`. `(a, **kw)` is judged consistent with `(a, b=1)`, yet it rejects the two-argument call the base accepts. |
| `Signatures.ConsistentReflexive` | pure_interface.py:288-324 | Every signature is consistent with itself. |
| `Signatures.RequiredNamesKept` | pure_interface.py:297-303 | Without `*args` on the override, a consistent override starts with exactly the base's required names and has no more required parameters than the base. |
| `Signatures.AlwaysRejected` | pure_interface.py:303-324 | An override is rejected when it has more required parameters, when it lacks `*args` that the base has, or when it lacks `**kwargs` that the base has. |
| `Signatures.DefaultedNamesKept` | pure_interface.py:304-307 | Without `**kwargs` on the override, the base's defaulted names are a prefix of the override's defaulted names. |
| `Signatures.KeywordsSkipDefaultedNames` | pure_interface.py:304-307 | With `**kwargs` and without `*args` on the override, consistency is exactly the required-name prefix, the required-count bound and the absence of base `*args`. The defaulted names are never compared. |
| `Signatures.MovedDefaultRejected` | pure_interface.py:308-318 | With base defaults and override `*args`, an override-defaulted name found at another index of the base's arguments makes the pair inconsistent, even when the override has `**kwargs`. |
| `Signatures.AppendedDefaultsAccepted` | pure_interface.py:299-302 | Appending any defaulted parameters to a signature without `*args` gives a consistent override. |
| `Signatures.OverrideExamples` | pure_interface.py:297-303 | `(self, a, b, c=1)` overrides `(self, a, b)`. Dropping or reordering a required name is rejected. |
| `Bytecode.IsEmptyAsWritten` | pure_interface.py:224-241 | The verifier as written. It raises an index error exactly on a three-instruction body of RAISE_VARARGS followed by the implicit `return None`. |
| `Bytecode.IsEmptyBody` | pure_interface.py:224-241 | The corrected verifier. A body whose penultimate instruction does not load `None` is not empty. A body that is only the implicit `return None` is empty. |
| `Bytecode.AsWrittenAgrees` | pure_interface.py:224-241 | On every body the source classifies without raising, the corrected verifier gives the same answer. |
| `Bytecode.BareRaiseCounterexample` | pure_interface.py:234-236 | The body of a bare `raise` makes the source raise an index error. The corrected verifier reports it not empty. |
| `Bytecode.EmptyIffPlaceholder` | pure_interface.py:226-241 | A body is judged empty exactly when it is the implicit `return None` alone, or a raised call result before it with `NotImplementedError` loaded earlier. |
| `Bytecode.EmptyIsPlaceholder` | pure_interface.py:226-241 | The first direction: an empty verdict means the body has one of the two placeholder shapes. |
| `Bytecode.PlaceholderIsEmpty` | pure_interface.py:233-239 | The second direction: a `raise NotImplementedError(...)` body is judged empty. |
| `Values.Unwrap` | pure_interface.py:193-198 | Following `__wrapped__` ends at a function that wraps nothing. It is the function itself when that wraps nothing, and otherwise part of the original. |
| `Values.UnwrapIdempotent` | pure_interface.py:193-198 | Unwrapping twice is unwrapping once. |
| `Values.IsEmptyFunction` | pure_interface.py:209-241 | A callable without a code object counts as empty. A callable with code gets the bytecode verifier's verdict on it. For a body of two or more instructions, it is empty exactly when it has one of the two placeholder shapes. With `unwrap`, the verdict is the verdict on the end of the `__wrapped__` chain. |
| `Values.BuiltinAttr` | pure_interface.py:135-141 | The pass-through names are exactly the fourteen of lines 138-141. The contract states only that each begins with an underscore. |
| `Members.ClassifyEntry` | pure_interface.py:335-371 | One entry is accepted exactly when it is a builtin name, an annotations mapping, `None`, an abstract value, a method or a property. Otherwise it fails naming the entry. Accepted entries state whether they are kept, which names they declare as attributes, whether they are properties, and which signature is recorded for a method. The kept value is exact. Builtin names, annotations and abstract values are kept unchanged. A method is kept as the same kind of method over the same function, made abstract. A plain property becomes an `abc.abstractproperty` over the same accessors (line 369). Only a method's function and a non-abstract property's three accessor slots are queued for the emptiness check. |
| `Members.EnsureEverythingIsAbstract` | pure_interface.py:327-373 | The classifier succeeds exactly when every entry is allowed. A failure carries the error of the first disallowed entry. |
| `Members.ClassifiedNamespace` | pure_interface.py:339-372 | The rewritten namespace holds every name except those declared by `None`. Every value kept outside the builtin names is abstract. |
| `Members.ClassifiedAttributes` | pure_interface.py:337-341 | The interface attributes are exactly the names declared `None` plus the annotation keys. |
| `Members.ClassifiedProperties` | pure_interface.py:350-367 | The interface properties are exactly the names bound to properties. |
| `Members.MethodsRecorded` | pure_interface.py:342-365 | Every declared function, static method and class method gets a signature, and its function is queued for the emptiness check. |
| `Members.AccessorsRecorded` | pure_interface.py:366-369 | The getter, setter and deleter of every property that is not already abstract are queued for the emptiness check. |
| `Members.QueuedFunctionsDeclared` | pure_interface.py:342-369 | Nothing else is queued. Every queued function is a declared method's function, or an accessor slot of a declared property that is not already abstract. |
| `Members.CheckEmptyIffPlaceholders` | pure_interface.py:490-495 | On a classified namespace, the emptiness check passes exactly when every declared method and every accessor of a non-abstract property is a placeholder. |
| `Members.SignaturesFromMethods` | pure_interface.py:342-365 | Every recorded signature is the argspec of a method declared under that name. |
| `Members.CheckEmpty` | pure_interface.py:490-495 | The check passes exactly when every present function is empty. A failure names the first non-empty one. |
| `Members.CheckMethodSignatures` | pure_interface.py:376-395 | The check passes exactly when every overridden interface method is either a method with a consistent signature or a non-method descriptor. A failure reports the non-method overrides and the inconsistent ones. |
| `Members.UnchangedOverridesPass` | pure_interface.py:376-395 | Overrides that keep the interface's own signatures always pass. |
| `Members.CheckAntitone` | pure_interface.py:378-395 | A namespace that passes against some interface methods also passes against any subset of them. |
| `Members.NonMethodOverrideRejected` | pure_interface.py:382-386 | Overriding an interface method with a value that has no `__get__` is rejected and named. |
| `Classes.BaseIsInterface` | pure_interface.py:151-156 | `object` and a class without `_pi` are never interfaces. For any other class its stored `type_is_pure_interface` flag decides. |
| `Classes.EffectiveBases` | pure_interface.py:444-446 | The bases used are a suffix of the declared ones, empty only when none are declared. At most one base is dropped, and it is dropped exactly when it is a leading `object` among several bases. |
| `Classes.AggregateStep` | pure_interface.py:453-470 | A step never loses what earlier bases contributed: every accumulated method name, property, attribute and inherited abstract property survives. An accumulated signature survives unchanged unless this base is an interface that declares the method again. |
| `Classes.AggregateFrom` | pure_interface.py:452-470 | Outside development mode aggregation always succeeds. A failure is traced to a base that is neither `object`, nor an interface, nor derived from `PureInterface`: the only kind whose overrides are checked. |
| `Classes.SignaturePrecedence` | pure_interface.py:452-468 | The merged signatures are those of the interface bases. For each name, the leftmost interface base declaring it wins. |
| `Classes.AggregatedNames` | pure_interface.py:452-468 | The merged property, attribute and inherited-abstract-property names are exactly the union over the bases. |
| `Classes.AbcAbstractMethods` | pure_interface.py:505 | Every abstract value the class body binds is in `__abstractmethods__`. So is every name a base lists as abstract that still resolves to something abstract on the new class. Every name there still resolves to something abstract. |
| `Classes.PatchProperties` | pure_interface.py:398-414 | Every abstract name that resolves to an `abc.abstractproperty` becomes a stored attribute and leaves `__abstractmethods__`. A plain `property` over an abstract accessor is not patched. The accessor names of patched properties are removed too. `abstractproperties` is the patched names plus the given inherited ones. The dictionary's keys are the old keys plus the patched names, and every entry that is not patched keeps its value. |
| `Classes.NewClass` | pure_interface.py:429-533 | The class is an interface exactly when every base is one. An interface always has a non-empty `__abstractmethods__` (the exact set, with the `''` sentinel, is stated by `Classes.InterfaceMetadata`). A class with no interface base gets empty metadata. In development mode a class whose body overrides an interface method inconsistently, or with a non-descriptor, is refused (lines 472-473). |
| `Classes.NewClassSucceeds` | pure_interface.py:448-495 | For a class with an interface base, creation succeeds exactly when the bases aggregate, the development-mode override check passes, and, for an interface other than `PureInterface` itself, every member is allowed and every collected function is a placeholder. |
| `Classes.PlaceholderInterfaceAccepted` | pure_interface.py:448-495 | An interface whose members are all allowed, and whose methods and accessors are placeholders, is created exactly when its bases aggregate and, in development mode, its body's overrides pass. Outside development mode it is always created. |
| `Classes.NonEmptyInterfaceRejected` | pure_interface.py:490-495 | An interface declaring a method whose body is not a placeholder is refused. |
| `Classes.NonEmptyAccessorRejected` | pure_interface.py:490-495 | An interface declaring a plain property with an accessor that is not a placeholder is refused as well (the accessors are queued at lines 366-369). |
| `Classes.InterfaceMetadata` | pure_interface.py:475-532 | An interface's metadata is the merge of its bases' metadata with its own declarations, its own signatures winning. Its `__abstractmethods__` is the set `abc.ABCMeta` computes from its classified body, or `{''}` when that set is empty. |
| `Classes.ConcretePatching` | pure_interface.py:496-512 | In a concrete class no name left in `__abstractmethods__` is an abstract property. Every patched property is a stored attribute. `abstractproperties` is the patched names plus the inherited ones the class body does not define as descriptors. The class is concrete, and its method signatures, property names and attribute names are exactly the aggregate of its bases (lines 506-507). `__abstractmethods__` is ABCMeta's set minus the patched names and their accessors' names. The reported incomplete set is that set in development mode without the partial-implementation marker, and empty otherwise. The dictionary is the body without the marker plus the patched names, and every other entry keeps its value. |
| `Instances.Instantiate` | pure_interface.py:535-546 | An interface is never instantiated. For a concrete class with no abstract methods left, instantiation succeeds exactly when every abstract property and every interface attribute is present. Missing properties are reported before missing attributes. |
| `Instances.InterfacesNeverInstantiate` | pure_interface.py:531-538 | An interface built by the metaclass cannot be instantiated. This holds even for one with no members, because of the sentinel. |
| `Instances.UnsetInterfaceAttributeRefused` | pure_interface.py:540-545 | A concrete class built on an interface base that declares an attribute refuses an instance whose initialiser leaves that attribute unset, reporting missing attributes. |
| `Instances.UnsetInterfacePropertyRefused` | pure_interface.py:398-414 | An abstract property declared by an interface base and not defined by the concrete class is required of instances and is not left in `__abstractmethods__`. An instance that leaves it unset is refused, and once no abstract method is left the refusal reports missing attributes. |
| `Instances.UnimplementedMethodReported` | pure_interface.py:505-529 | An abstract interface method the concrete class neither defines nor shadows with a property accessor stays in `__abstractmethods__`. In development mode it is reported as not implemented unless the class is marked partial. Instantiation then fails naming the abstract methods. |
| `Instances.AttributeGet` | pure_interface.py:108-114 | Read through the class, the result is the descriptor itself. Read through an instance, it is the stored value, or an error naming the attribute when none is stored. |
| `Instances.AttributeSet` | pure_interface.py:116-117 | Setting stores the value under the name. Every other name keeps its presence and its value. |
| `Instances.AttributeRoundTrip` | pure_interface.py:108-117 | A get after two sets returns the last value. Setting one name does not change reads of another. A name never set fails to read. |
| `Adaptation.InstanceConforms` | pure_interface.py:564-573 | An object conforms exactly when, for every declared name, a method is callable on its type and a property or attribute is present on the object. |
| `Adaptation.TypeConforms` | pure_interface.py:580-586 | A type conforms exactly when, for every declared name, a method is callable on it and a property or attribute is present on it. |
| `Adaptation.ClassStructuralCheck` | pure_interface.py:576-598 | A type passes exactly when it is cached or has every interface method callable and every property and attribute present. A passing type is added to the cache. |
| `Adaptation.CachedCheckAgrees` | pure_interface.py:576-598 | With a cache holding only conforming types, the cached check gives the uncached answer and keeps the cache sound. |
| `Adaptation.ProvidedBy` | pure_interface.py:601-616 | The check fails exactly on non-interfaces. Inheritance always provides. Without implicit conformance, inheritance is the only way. The cache only grows, by the object's type at most, and a negative answer leaves it unchanged. |
| `Adaptation.ProvidedByAgrees` | pure_interface.py:564-616 | With a sound cache, `provided_by` equals the cache-free rule: inheritance, or implicit conformance of the type or of the instance. |
| `Adaptation.InterfaceOnlyView` | pure_interface.py:618-627 | The wrapper holds the object itself and the interface's name, and it exposes exactly the interface's method, property and attribute names. |
| `Adaptation.WrapperGetAttr` | pure_interface.py:127-132 | A lookup that ordinary attribute lookup on the wrapper has missed yields exactly the wrapped object's value for a declared name the object has. Any other undeclared name fails naming the interface. |
| `Adaptation.SubclassTables` | pure_interface.py:634-639 | The subclasses' merged table has exactly the keys of the interface subclasses' tables. |
| `Adaptation.MergedAdapters` | pure_interface.py:634-639 | In the merged table `cls`'s own entries win. The subclasses' entry is used for every type `cls` has no adapter for. Every key comes from `cls` or a subclass. |
| `Adaptation.SubclassPrecedence` | pure_interface.py:634-639 | Among subclasses, the earliest one with an entry for a type supplies it. |
| `Adaptation.FirstInMro` | pure_interface.py:643-648 | The result is the entry of the first MRO class in the table, or nothing when no MRO class is in it. |
| `Adaptation.GetAdapter` | pure_interface.py:630-648 | Lookup searches the object's MRO in the merged table, the empty-table shortcut included. |
| `Adaptation.OwnAdapterWins` | pure_interface.py:630-648 | `cls`'s own adapter for the first registered class in the MRO is the one returned. |
| `Adaptation.RegisterAdapter` | pure_interface.py:754-772 | Registration succeeds exactly for a callable adapter, a type and an interface that has no adapter for that type yet. It then adds exactly that one entry and changes nothing else. A duplicate is refused. |
| `Adaptation.SecondRegistrationRefused` | pure_interface.py:767-770 | Registering a second adapter for the same type and interface fails. |
| `Adaptation.Adapt` | pure_interface.py:651-672 | Failures are only the three `ValueError`s. An object that already provides the interface is returned itself, without any adapter being called. Otherwise the result is the looked-up adapter's output. The view is wrapped exactly when interface-only access is on. |
| `Adaptation.AdaptAgrees` | pure_interface.py:651-672 | With a sound cache, `adapt` succeeds exactly when the cache-free reference does, with the same result, and the cache stays sound. |
| `Adaptation.AdaptOrNone` | pure_interface.py:675-681 | When `adapt` succeeds, the result is its view and its cache. Otherwise the result is nothing and the cache is unchanged. |
| `Adaptation.CanAdapt` | pure_interface.py:684-691 | The answer is true exactly when `adapt` with the default interface-only setting succeeds. |
| `Adaptation.FilterAdapt` | pure_interface.py:694-704 | The output is never longer than the input. |
| `Adaptation.FilterAdaptAgrees` | pure_interface.py:694-704 | With a sound cache, `filter_adapt` yields, in input order, exactly the successful adaptations of the reference, skipping the rest. |
| `Queries.TypeIsPureInterface` | pure_interface.py:775-783 | A non-class is never a pure interface, and neither is a class that does not derive from `PureInterface` or has no `_pi`. For any other class its stored flag decides. |
| `Queries.InterfacesIn` | pure_interface.py:793 | The filtered MRO holds exactly the interfaces other than `PureInterface` itself. |
| `Queries.GetTypeInterfaces` | pure_interface.py:786-793 | A non-class gives the empty list. A class gives exactly its MRO's interfaces other than `PureInterface`. |
| `Queries.InterfacesInConcat` | pure_interface.py:793 | The filter keeps MRO order: filtering a concatenation concatenates the filtered parts. |
| `Queries.InterfacesInIdempotent` | pure_interface.py:793 | Filtering the filtered list changes nothing. |
| `Queries.GetInterfaceMethodNames` | pure_interface.py:796-804 | A non-interface gives the empty set. An interface gives exactly its signatures' names. |
| `Queries.GetInterfacePropertyNames` | pure_interface.py:807-815 | A non-interface gives the empty set. An interface gives its property names. |
| `Queries.GetInterfaceAttributeNames` | pure_interface.py:818-826 | A non-interface gives the empty set. An interface gives its attribute names. |
| `Queries.GetInterfacePropertiesAndAttributeNames` | pure_interface.py:829-837 | The result is the union of the property and attribute queries, and empty for a non-interface. |
| `Queries.QueriesCoverInterfaceNames` | pure_interface.py:89-95 | For an interface, the method names together with the property and attribute names are its full `interface_names`. |

## Left out

- The Python 2 and `six` compatibility shims (lines 19-38, 47-64) are left out. They are version plumbing.
- The raw-bytecode quick checks (lines 217-221) are left out. They are a shortcut for two bodies the instruction-level verifier also accepts.
- Bytecode.WellFormed: assumes the bytecode of CPython 3.x before 3.11 (`CALL_FUNCTION`, `RAISE_VARARGS`, a body ending in `RETURN_VALUE`). The type admits only bodies that end in `RETURN_VALUE`, so the `AssertionError` of line 226 cannot occur in the model.
- The legacy bytecode decoder in `_get_instructions` (lines 247-268) is left out. The model takes the decoded instruction list as input.
- Reflection is supplied as data: `getargspec`, `dis`, `getattr`/`hasattr`/`callable`, `mro()`, `__subclasses__()` and `isinstance` against an ABC. An object provides an interface by inheritance when the interface's id is in its type's MRO. Registration through `ABCMeta.register` is not modelled.
- `abc.ABCMeta`'s own computation of `__abstractmethods__` is not part of this model. `Classes.AbcAbstractMethods` restates its rule: the class's own abstract values, plus the bases' abstract names that still resolve to something abstract.
- `warnings.warn` and the `inspect.stack` walking (lines 513-529, 589-597) are left out. The incomplete-implementation warning is represented only by the set of names it would report (`NewClassResult.incomplete`).
- The warning for a falsy `pi_partial_implementation` value (lines 501-503) is left out. It is a diagnostic only.
- The `weakref` lifetime of adapter tables (lines 85, 772) is left out. The table is an ordinary map.
- The dynamic creation of the wrapper type with `type()` and its `register` call in `interface_only` (lines 622-626) are left out. The wrapper is modelled only as its name filter.
- The ABC-based `_type_is_pure_interface` fallback for foreign ABCs (lines 157-168, 173-190) is left out. A base that is not a `PureInterface` class is treated as concrete.
- `PureInterfaceType.__dir__` (lines 548-553) is left out. It is a listing for introspection only.
- The `isinstance(func, property)` branch of `_is_empty_function` (lines 207-208) is left out. The metaclass only ever passes it functions (property accessors are queued individually at line 368 and patched at line 406).
- Calling the adapter is a function parameter. An exception raised inside an adapter is not modelled.
- The name `__module__` is used to build error text at line 393. Error messages are not modelled, only which error is raised.
- Members.CheckMethodSignatures: reports the sets of all non-method and all inconsistent overrides, not the single first one. The source's choice depends on dictionary iteration order.
- Instances.Instantiate: reports the set of all missing property (or attribute) names, not the single first one. The source's choice depends on frozenset iteration order.
- Members.EnsureEverythingIsAbstract: a disallowed `__annotations__` value (one without `keys()`) is reported as its own error kind. In the source it surfaces as an `AttributeError` from the failed call.
- Adaptation.FilterAdapt: its own contract only bounds the output length. The content is stated by `Adaptation.FilterAdaptAgrees` against the reference.
- Adaptation.ProvidedBy: interface inheritance is MRO membership, because ABC virtual subclasses are not modelled.
- Values.IsEmptyFunction: uses the corrected verifier `Bytecode.IsEmptyBody`. For a bare `raise` body the class is therefore refused with `NotEmpty`, where the source raises `IndexError` at line 236 (see Findings).
- Adaptation.WrapperGetAttr: models `__getattr__` alone. Names that ordinary lookup finds on the wrapper never reach it: `__class__`, `__repr__` and the other `object` attributes, and the name-mangled private fields set at lines 121-125.
- The `adapts` decorator (lines 719-751) is left out. It picks the first entry of `get_type_interfaces` (modelled as `Queries.GetTypeInterfaces`) and calls `register_adapter` (modelled as `Adaptation.RegisterAdapter`). Relating a decorated class to its interface class objects is reflection this model does not represent.
- A namespace is a sequence of entries, so it can bind a name twice. A class body's dictionary cannot. The classifier processes each entry, and the dictionary built from a namespace keeps the last binding of each name.
- A `__wrapped__` chain is a finite datatype, so a cyclic chain cannot be represented. On a cyclic chain the source's loop at lines 196-197 never terminates.

## Findings

| source | as written | input that shows it | evidently intended | confidence | as-written member | corrected member |
|---|---|---|---|---|---|---|
| pure_interface.py:230-236 | After the implicit `return None` is stripped, a body whose last remaining instruction is RAISE_VARARGS reads `instructions[-2]` without checking there are two instructions left. | An interface method whose body is a bare `raise`. It compiles to RAISE_VARARGS 0; LOAD_CONST None; RETURN_VALUE, and the verifier raises `IndexError` instead of rejecting the body. | Such a body is not a placeholder, so it should be reported as not empty and the class refused with `InterfaceError`. | not executed; medium, because the exact instruction sequence depends on the CPython version | `Bytecode.IsEmptyAsWritten` (shown by `Bytecode.BareRaiseCounterexample`) | `Bytecode.IsEmptyBody` (proved in `Bytecode.EmptyIffPlaceholder`, related by `Bytecode.AsWrittenAgrees`) |
