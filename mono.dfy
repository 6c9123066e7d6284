/** The managed runtime as seen from native code: type metadata, managed objects
    and the calls native code makes into them. Nothing here is computed by the
    runtime in the model; these values are the inputs and results of its calls. */
module Mono {
  import opened Common

  /** A namespace-qualified managed type name. */
  datatype TypeName = TypeName(namespace: string, name: string)

  /** The engine's scripting base class, ArcEngine.Entity. */
  const EntityBase := TypeName("ArcEngine", "Entity")

  /** The key under which a class is registered: namespace, a dot, the short name. */
  function QualifiedName(namespace: string, name: string): string
  {
    namespace + "." + name
  }

  /** The tag Field::GetFieldType assigns to a field's managed type. */
  datatype TypeTag = TypeTag(code: nat)

  /** One field of a managed class: its name, its FieldAttributes flags
      (section II.23.1.5 of ECMA-335) and its type tag. */
  datatype FieldInfo = FieldInfo(name: string, flags: bv32, tag: TypeTag)

  /** One row of an assembly's type-definition table, with what reflection
      reports about the class it defines: its immediate parent, its own fields in
      declaration order, the signatures of its own methods and its properties. */
  datatype TypeDef = TypeDef(
    namespace: string,
    name: string,
    parent: Option<TypeName>,
    fields: seq<FieldInfo>,
    methods: set<string>,
    properties: set<string>)

  /** A method handle: the class it was found in and its signature. */
  datatype MethodRef = MethodRef(owner: string, signature: string)

  /** A property handle: the class it was found in and the property name. */
  datatype PropertyRef = PropertyRef(owner: string, name: string)

  /** The setter a property handle leads to (`set_<name>` in the CLI). */
  function SetterOf(p: PropertyRef): MethodRef
  {
    MethodRef(p.owner, "set_" + p.name)
  }

  /** What the model observes of a managed object: its class and the entity
      identifier its ArcEngine.Entity base holds. */
  datatype MonoObject = MonoObject(className: string, entityId: UUID)

  /** An argument passed into a managed call. */
  datatype Argument = TimestepArg(seconds: real) | ValueArg(bytes: seq<bv8>)

  /** A call into managed code: the handle of the receiver, the method, the arguments. */
  datatype Call = Call(target: Handle, callee: MethodRef, args: seq<Argument>)
}
