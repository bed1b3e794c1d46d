/** The errors the model reports, one constructor per kind of error (the
    Python exception class is named in each comment). Sites that raise the
    same kind share a constructor, and `NoSuchAttribute` is the error of
    `getattr` on the wrapped object. */
module Errors {

  datatype Error =
      // ValueError: an interface class attribute with a value other than None,
      // a function, a static/class method or a property.
    | DisallowedAttributeValue(name: string)
      // AttributeError: the `__annotations__` entry is not a mapping.
    | AnnotationsNotMapping
      // InterfaceError: interface methods overridden with a non-method, and
      // overrides whose signature is inconsistent with the interface's.
    | BadOverrides(nonMethods: set<string>, inconsistent: set<string>)
      // InterfaceError: an interface function body that is not empty.
    | NotEmpty(functionName: string)
      // IndexError: the bytecode verifier indexed before the start of the list.
    | InstructionIndex
      // TypeError: interfaces cannot be instantiated.
    | InterfaceInstantiation
      // TypeError raised by the ABC machinery: abstract methods remain.
    | AbstractInstantiation(abstractMethods: set<string>)
      // TypeError: the initialiser did not create these required attributes.
    | MissingAttributes(names: set<string>)
      // AttributeError raised by a stored-attribute property never set.
    | AttributeNotSet(name: string)
      // AttributeError raised by an interface-only view for a name the
      // interface does not declare.
    | NotInInterface(interfaceName: string, name: string)
      // AttributeError raised by `getattr` on an object without the name.
    | NoSuchAttribute(name: string)
      // ValueError: provided_by() called on a class that is not an interface.
    | NotAnInterface
      // ValueError: no adapter found.
    | CannotAdapt
      // ValueError: the adapter's result does not provide the interface.
    | AdapterDoesNotImplement
      // ValueError raised by register_adapter.
    | AdapterNotCallable
    | FromTypeNotAType
    | TargetNotAnInterface
    | DuplicateAdapter
}
