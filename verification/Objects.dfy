/**
 * Python dataclass instances as trees: what `state.py` walks by attribute path and what the
 * write-once validator compares field by field.
 */
module Objects {
  import opened Wrappers

  /** `Atom` is any value that is not a dataclass instance, tagged with its Python type. */
  datatype Value<+A> = Null | Atom(ty: string, atom: A) | Object(cls: Class, fields: seq<Value<A>>)

  datatype Class = Class(name: string, fields: seq<Field>)

  datatype Field = Field(name: string, ty: Type, optional: bool, immutable: bool, writeOnce: bool)

  datatype Type = AtomType(name: string) | ObjectType(cls: Class)

  predicate HasType<A>(v: Value<A>, ty: Type)
    decreases v, 1
  {
    match ty
    case AtomType(name) => v.Atom? && v.ty == name
    case ObjectType(cls) => v.Object? && v.cls == cls && FieldsTyped(v.fields, cls.fields)
  }

  predicate FieldTyped<A>(v: Value<A>, f: Field)
    decreases v, 2
  {
    if v.Null? then f.optional else HasType(v, f.ty)
  }

  predicate FieldsTyped<A>(vs: seq<Value<A>>, fs: seq<Field>)
    decreases vs, 0
  {
    |vs| == |fs| && forall i :: 0 <= i < |vs| ==> FieldTyped(vs[i], fs[i])
  }

  function FieldIndex(fields: seq<Field>, name: string): (r: Option<nat>)
    ensures r.Some? ==> r.value < |fields| && fields[r.value].name == name
    ensures r.None? ==> forall i :: 0 <= i < |fields| ==> fields[i].name != name
  {
    if |fields| == 0 then None
    else if fields[0].name == name then Some(0)
    else
      match FieldIndex(fields[1..], name)
      case Some(i) => Some(i + 1)
      case None => None
  }

  /** `getattr`, None when the value has no such attribute. */
  function GetAttr<A>(v: Value<A>, name: string): Option<Value<A>>
  {
    if !v.Object? then None
    else
      match FieldIndex(v.cls.fields, name)
      case Some(i) => if i < |v.fields| then Some(v.fields[i]) else None
      case None => None
  }

  /** Follows an attribute path; None when the path breaks off at a null or a missing attribute. */
  function Walk<A>(v: Value<A>, path: seq<string>): Option<Value<A>>
    decreases |path|
  {
    if |path| == 0 then Some(v)
    else
      match GetAttr(v, path[0])
      case Some(next) => Walk(next, path[1..])
      case None => None
  }
}
