/**
 * The shapes the annotation processor sees through the compiler's element model,
 * reduced to what the diff algorithm inspects, and the run-time objects that the
 * generated diff method reads.
 */
module JavaModel {

  datatype Option<T> = None | Some(value: T)

  datatype Result<T, E> = Success(value: T) | Failure(error: E)

  /** The kind of a field's declared type, as far as the processor tells kinds apart:
      primitive `boolean`, the other (integral) primitives, and everything else. */
  datatype TypeKind = Boolean | NumericPrimitive | Reference

  predicate IsPrimitive(k: TypeKind) {
    k != Reference
  }

  /** A field declared by the diffed type. */
  datatype Field = Field(name: string, kind: TypeKind, isPublic: bool)

  /** One enclosed element of the diffed type: a field, a method (only its name and
      whether it is public matter), or anything else (constructors, nested types, ...). */
  datatype Element =
    | FieldElem(field: Field)
    | MethodElem(name: string, isPublic: bool)
    | OtherElem

  /** A value read from an object: a primitive, null, or a reference to some object. */
  datatype Value = Null | Bool(b: bool) | Num(n: int) | Ref(id: nat)

  /** A run-time object: what each parameterless method call and each public field
      read yields on it. */
  datatype Instance = Instance(invoke: string -> Value, fieldValue: string -> Value)

  /** Kinds of the element that carries the annotation. */
  datatype DeclKind = ClassDecl | EnumDecl | RecordDecl | InterfaceDecl | AnnotationTypeDecl | OtherDecl

  datatype Decl = Decl(kind: DeclKind, isAbstract: bool)
}
