/**
 * The schema-driven decoder of JSON dictionaries into dataclass instances, and its inverse, the
 * dictionary form of an instance.
 */
module SchemaCodec {
  import opened Wrappers

  /** A parsed JSON value; the entries of an object have distinct keys. */
  datatype Json = Null | Bool(b: bool) | Int(i: int) | Str(s: string) | Arr(items: seq<Json>) | Obj(entries: seq<(string, Json)>)

  /** A decoded value; the fields of an instance are in the order its class declares them. */
  datatype Value = NoneV | BoolV(b: bool) | IntV(i: int) | StrV(s: string) | ListV(items: seq<Value>) | Instance(cls: string, fields: seq<Value>)

  datatype Type = BoolT | IntT | StrT | ListT(item: Type) | ClassT(name: string) | UnionT(alternatives: seq<Type>)

  datatype Valid = AnyValue | OneOf(values: seq<Json>) | Pattern(matches: string -> bool)

  datatype Field = Field(name: string, ty: Type, optional: bool, valid: Valid)

  /** Classes by name, the classes registered for a tag, and those a result may have. */
  datatype Schema = Schema(classes: map<string, seq<Field>>, objectTypes: map<string, string>, resultTypes: map<string, string>)

  /** Uncaught stands for a TypeError or AttributeError, which is not reported as a field error. */
  datatype DecodeError =
    | InvalidObject | InvalidFieldValue(field: string) | MissingField(field: string)
    | UnknownFields(path: string, names: set<string>) | Uncaught

  const TAG := "_ObjectType"
  const RESULT := "result"

  function Join(path: string, name: string): string
  {
    if path == "" then name else path + "." + name
  }

  function Find(entries: seq<(string, Json)>, name: string): (found: Option<nat>)
    ensures found.Some? ==> found.value < |entries| && entries[found.value].0 == name
    ensures found.None? ==> forall i :: 0 <= i < |entries| ==> entries[i].0 != name
  {
    if entries == [] then None
    else if entries[0].0 == name then Some(0)
    else
      match Find(entries[1..], name)
      case Some(i) => Some(i + 1)
      case None =>
        assert forall i :: 1 <= i < |entries| ==> entries[i] == entries[1..][i - 1];
        None
  }

  /** A missing entry reads as null. */
  function Get(entries: seq<(string, Json)>, name: string): Json
  {
    match Find(entries, name)
    case Some(i) => entries[i].1
    case None => Null
  }

  /** Python equality: true equals one and false equals zero. */
  predicate PyEqual(a: Json, b: Json)
  {
    match (a, b)
    case (Int(i), Bool(t)) => i == if t then 1 else 0
    case (Bool(t), Int(i)) => i == if t then 1 else 0
    case _ => a == b
  }

  function CheckValid(valid: Valid, val: Json, full: string): Option<DecodeError>
  {
    match valid
    case AnyValue => None
    case OneOf(values) =>
      if values == [] || exists i :: 0 <= i < |values| && PyEqual(values[i], val) then None else Some(InvalidFieldValue(full))
    case Pattern(matches) =>
      if !val.Str? then Some(Uncaught) else if matches(val.s) then None else Some(InvalidFieldValue(full))
  }

  function BadType(path: string): DecodeError
  {
    if path == "" then InvalidObject else InvalidFieldValue(path)
  }

  /** The type an optional annotation is decoded as: of an optional union, only its first alternative. */
  function Effective(f: Field): Type
  {
    if f.optional && f.ty.UnionT? && |f.ty.alternatives| > 0 then f.ty.alternatives[0] else f.ty
  }

  function FindObjectType(schema: Schema, entries: seq<(string, Json)>, path: string): Result<string, DecodeError>
  {
    match Get(entries, TAG)
    case Null => Err(MissingField(Join(path, TAG)))
    case Str(tag) =>
      if tag == "" then Err(MissingField(Join(path, TAG)))
      else if tag in schema.objectTypes then Ok(schema.objectTypes[tag])
      else Err(InvalidFieldValue(Join(path, TAG)))
    case Bool(b) => if b then Err(InvalidFieldValue(Join(path, TAG))) else Err(MissingField(Join(path, TAG)))
    case Int(i) => if i == 0 then Err(MissingField(Join(path, TAG))) else Err(InvalidFieldValue(Join(path, TAG)))
    case Arr(items) => if items == [] then Err(MissingField(Join(path, TAG))) else Err(Uncaught)
    case Obj(fields) => if fields == [] then Err(MissingField(Join(path, TAG))) else Err(Uncaught)
  }

  // ---- Decoding ----

  /** No type, or a union, means that the object itself says what it is. */
  function FromDict(schema: Schema, j: Json, t: Option<Type>, path: string): Result<Value, DecodeError>
    decreases j, 3
  {
    if t.None? || t.value.UnionT? then
      if !j.Obj? then Err(BadType(path))
      else
        match FindObjectType(schema, j.entries, path)
        case Err(e) => Err(e)
        case Ok(cls) => FromObject(schema, j, cls, path)
    else Plain(schema, j, t.value, path)
  }

  function Plain(schema: Schema, j: Json, t: Type, path: string): Result<Value, DecodeError>
    decreases j, 2
  {
    match t
    case ClassT(cls) => FromObject(schema, j, cls, path)
    case ListT(item) => if j.Arr? then Listed(FromItems(schema, j.items, item, path)) else Err(BadType(path))
    case BoolT => if j.Bool? then Ok(BoolV(j.b)) else Err(BadType(path))
    case IntT => if j.Int? then Ok(IntV(j.i)) else if j.Bool? then Ok(BoolV(j.b)) else Err(BadType(path))
    case StrT => if j.Str? then Ok(StrV(j.s)) else Err(BadType(path))
    case UnionT(_) => Err(BadType(path))
  }

  function Listed(items: Result<seq<Value>, DecodeError>): Result<Value, DecodeError>
  {
    match items
    case Ok(vs) => Ok(ListV(vs))
    case Err(e) => Err(e)
  }

  function FromItems(schema: Schema, items: seq<Json>, t: Type, path: string): Result<seq<Value>, DecodeError>
    decreases items
  {
    if items == [] then Ok([])
    else
      match FromDict(schema, items[0], Some(t), path)
      case Err(e) => Err(e)
      case Ok(v) =>
        match FromItems(schema, items[1..], t, path)
        case Err(e) => Err(e)
        case Ok(vs) => Ok([v] + vs)
  }

  function Names(fields: seq<Field>): set<string>
  {
    set i | 0 <= i < |fields| :: fields[i].name
  }

  function Unknown(entries: seq<(string, Json)>, fields: seq<Field>): set<string>
  {
    set i | 0 <= i < |entries| && entries[i].0 !in Names(fields) :: entries[i].0
  }

  /** Unknown fields are reported only when every known one is in order. */
  function FromObject(schema: Schema, j: Json, cls: string, path: string): Result<Value, DecodeError>
    decreases j, 1
  {
    if !j.Obj? || cls !in schema.classes then Err(BadType(path))
    else
      match FromFields(schema, j, schema.classes[cls], 0, path)
      case Err(e) => Err(e)
      case Ok(vs) =>
        var unknown := Unknown(j.entries, schema.classes[cls]);
        if unknown != {} then Err(UnknownFields(path, unknown)) else Ok(Instance(cls, vs))
  }

  function FromFields(schema: Schema, j: Json, fields: seq<Field>, k: nat, path: string): Result<seq<Value>, DecodeError>
    requires j.Obj? && k <= |fields|
    decreases j, 0, |fields| - k, 1
  {
    if k == |fields| then Ok([])
    else
      match FromField(schema, j, fields[k], path)
      case Err(e) => Err(e)
      case Ok(v) =>
        match FromFields(schema, j, fields, k + 1, path)
        case Err(e) => Err(e)
        case Ok(vs) => Ok([v] + vs)
  }

  function FromField(schema: Schema, j: Json, f: Field, path: string): Result<Value, DecodeError>
    requires j.Obj?
    decreases j, 0, 0, 0
  {
    var full := Join(path, f.name);
    match Find(j.entries, f.name)
    case None => if f.optional then Ok(NoneV) else Err(MissingField(full))
    case Some(i) =>
      var val := j.entries[i].1;
      if val.Null? then (if f.optional then Ok(NoneV) else Err(MissingField(full)))
      else if CheckValid(f.valid, val, full).Some? then Err(CheckValid(f.valid, val, full).value)
      else if full == RESULT then
        if !val.Obj? then Err(Uncaught)
        else
          match Get(val.entries, TAG)
          case Arr(_) => Err(Uncaught)
          case Obj(_) => Err(Uncaught)
          case Str(tag) =>
            if tag in schema.resultTypes then FromDict(schema, val, Some(ClassT(schema.resultTypes[tag])), full)
            else FromDict(schema, val, Some(Effective(f)), full)
          case _ => FromDict(schema, val, Some(Effective(f)), full)
      else FromDict(schema, val, Some(Effective(f)), full)
  }

  function Prefixed(vs: seq<Value>, rest: Result<seq<Value>, DecodeError>): Result<seq<Value>, DecodeError>
  {
    match rest
    case Ok(more) => Ok(vs + more)
    case Err(e) => Err(e)
  }

  /** The loop over the declared fields, crossing each off the list of unknown ones. */
  method DecodeObject(schema: Schema, j: Json, cls: string, path: string) returns (result: Result<Value, DecodeError>)
    ensures result == FromObject(schema, j, cls, path)
  {
    if !j.Obj? || cls !in schema.classes {
      return Err(BadType(path));
    }
    var fields := schema.classes[cls];
    var unknownFields := set i | 0 <= i < |j.entries| :: j.entries[i].0;
    var values: seq<Value> := [];
    ghost var all := FromFields(schema, j, fields, 0, path);
    assert all.Ok? ==> [] + all.value == all.value;
    for k := 0 to |fields|
      invariant unknownFields == set i | 0 <= i < |j.entries| && j.entries[i].0 !in Names(fields[..k]) :: j.entries[i].0
      invariant FromFields(schema, j, fields, 0, path) == Prefixed(values, FromFields(schema, j, fields, k, path))
    {
      var value := FromField(schema, j, fields[k], path);
      unknownFields := unknownFields - {fields[k].name};
      assert Names(fields[..k + 1]) == Names(fields[..k]) + {fields[k].name};
      if value.Err? {
        return Err(value.error);
      }
      ghost var rest := FromFields(schema, j, fields, k + 1, path);
      if rest.Ok? {
        assert values + ([value.value] + rest.value) == (values + [value.value]) + rest.value;
      }
      values := values + [value.value];
    }
    assert fields[..|fields|] == fields;
    assert unknownFields == Unknown(j.entries, fields);
    assert values + [] == values;
    if unknownFields != {} {
      return Err(UnknownFields(path, unknownFields));
    }
    return Ok(Instance(cls, values));
  }

  // ---- Encoding ----

  function Encode(schema: Schema, v: Value): Json
    decreases v, 1
  {
    match v
    case NoneV => Null
    case BoolV(b) => Bool(b)
    case IntV(i) => Int(i)
    case StrV(t) => Str(t)
    case ListV(items) => Arr(EncodeItems(schema, items))
    case Instance(cls, fields) => Obj(if cls in schema.classes then EncodeFields(schema, schema.classes[cls], fields) else [])
  }

  function EncodeItems(schema: Schema, items: seq<Value>): (js: seq<Json>)
    ensures |js| == |items|
    decreases items, 0
  {
    if items == [] then [] else [Encode(schema, items[0])] + EncodeItems(schema, items[1..])
  }

  function EncodeFields(schema: Schema, fields: seq<Field>, vs: seq<Value>): seq<(string, Json)>
    decreases vs, 0
  {
    if fields == [] || vs == [] then []
    else [(fields[0].name, Encode(schema, vs[0]))] + EncodeFields(schema, fields[1..], vs[1..])
  }

  // ---- Which values belong to a type ----

  /** The class a tagged object announces, if it is registered. */
  predicate Announces(schema: Schema, j: Json, cls: string)
  {
    j.Obj? && Get(j.entries, TAG).Str? && Get(j.entries, TAG).s != ""
    && Get(j.entries, TAG).s in schema.objectTypes && schema.objectTypes[Get(j.entries, TAG).s] == cls
  }

  /** What a field is read as: the top-level result goes by its tag, anything else by its annotation. */
  function Target(schema: Schema, j: Json, f: Field, full: string): Type
  {
    if full == RESULT && j.Obj? && Get(j.entries, TAG).Str? && Get(j.entries, TAG).s in schema.resultTypes then
      ClassT(schema.resultTypes[Get(j.entries, TAG).s])
    else Effective(f)
  }

  predicate ResultReadable(j: Json, full: string)
  {
    full == RESULT ==> j.Obj? && !Get(j.entries, TAG).Arr? && !Get(j.entries, TAG).Obj?
  }

  predicate Fits(schema: Schema, v: Value, t: Type, path: string)
    decreases v, 3
  {
    match t
    case ClassT(cls) => FitsClass(schema, v, cls, path)
    case ListT(item) => v.ListV? && forall i :: 0 <= i < |v.items| ==> Fits(schema, v.items[i], item, path)
    case BoolT => v.BoolV?
    case IntT => v.IntV? || v.BoolV?
    case StrT => v.StrV?
    case UnionT(_) => v.Instance? && Announces(schema, Encode(schema, v), v.cls) && FitsClass(schema, v, v.cls, path)
  }

  predicate FitsClass(schema: Schema, v: Value, cls: string, path: string)
    decreases v, 2
  {
    && v.Instance? && v.cls == cls && cls in schema.classes && |v.fields| == |schema.classes[cls]|
    && forall i :: 0 <= i < |v.fields| ==> FitsField(schema, v.fields[i], schema.classes[cls][i], path)
  }

  predicate FitsField(schema: Schema, v: Value, f: Field, path: string)
    decreases v, 4
  {
    if v.NoneV? then f.optional
    else
      var j, full := Encode(schema, v), Join(path, f.name);
      && CheckValid(f.valid, j, full).None? && ResultReadable(j, full)
      && Fits(schema, v, Target(schema, j, f, full), full)
  }

  predicate UniqueNames(fields: seq<Field>)
  {
    forall i, j :: 0 <= i < j < |fields| ==> fields[i].name != fields[j].name
  }

  /** Dataclasses do not declare a field twice, and valid values are plain atoms. */
  predicate SchemaOk(schema: Schema)
  {
    forall cls :: cls in schema.classes ==>
      UniqueNames(schema.classes[cls]) && forall i :: 0 <= i < |schema.classes[cls]| ==> AtomsOnly(schema.classes[cls][i].valid)
  }

  predicate AtomsOnly(valid: Valid)
  {
    valid.OneOf? ==> forall i :: 0 <= i < |valid.values| ==> valid.values[i].Str? || valid.values[i].Int?
  }

  // ---- Encoded dictionaries ----

  lemma {:induction false} EncodedFields(schema: Schema, fields: seq<Field>, vs: seq<Value>)
    requires |fields| == |vs|
    ensures |EncodeFields(schema, fields, vs)| == |vs|
    ensures forall i :: 0 <= i < |vs| ==> EncodeFields(schema, fields, vs)[i] == (fields[i].name, Encode(schema, vs[i]))
  {
    if vs != [] {
      EncodedFields(schema, fields[1..], vs[1..]);
    }
  }

  lemma {:induction false} FoundFirst(entries: seq<(string, Json)>, fields: seq<Field>, i: nat)
    requires |entries| == |fields| && i < |fields| && UniqueNames(fields)
    requires forall k :: 0 <= k < |fields| ==> entries[k].0 == fields[k].name
    ensures Find(entries, fields[i].name) == Some(i)
  {
  }

  lemma {:induction false} EncodedFound(schema: Schema, fields: seq<Field>, vs: seq<Value>, i: nat)
    requires |fields| == |vs| && i < |vs| && UniqueNames(fields)
    ensures Find(EncodeFields(schema, fields, vs), fields[i].name) == Some(i)
    ensures |EncodeFields(schema, fields, vs)| == |vs|
    ensures EncodeFields(schema, fields, vs)[i] == (fields[i].name, Encode(schema, vs[i]))
  {
    EncodedFields(schema, fields, vs);
    FoundFirst(EncodeFields(schema, fields, vs), fields, i);
  }

  lemma {:induction false} NothingUnknown(schema: Schema, fields: seq<Field>, vs: seq<Value>)
    requires |fields| == |vs|
    ensures Unknown(EncodeFields(schema, fields, vs), fields) == {}
  {
    EncodedFields(schema, fields, vs);
    forall i | 0 <= i < |vs| ensures EncodeFields(schema, fields, vs)[i].0 in Names(fields) {
      assert fields[i].name in Names(fields);
    }
  }

  // ---- What an accepted dictionary looks like ----

  /**
   * The dictionary says exactly what the value says, at every depth: no entry is unknown, and a
   * field that is not there or null is None.
   */
  predicate Represents(schema: Schema, v: Value, j: Json)
    decreases v
  {
    match v
    case NoneV => j.Null?
    case BoolV(b) => j == Bool(b)
    case IntV(i) => j == Int(i)
    case StrV(t) => j == Str(t)
    case ListV(items) => j.Arr? && |j.items| == |items| && forall i :: 0 <= i < |items| ==> Represents(schema, items[i], j.items[i])
    case Instance(cls, fields) =>
      && j.Obj? && cls in schema.classes && |fields| == |schema.classes[cls]|
      && Unknown(j.entries, schema.classes[cls]) == {}
      && forall i :: 0 <= i < |fields| ==> Represents(schema, fields[i], Get(j.entries, schema.classes[cls][i].name))
  }

  /** The dictionary form says what the value says. */
  lemma {:induction false} EncodedRepresents(schema: Schema, v: Value, t: Type, path: string)
    requires SchemaOk(schema) && Fits(schema, v, t, path)
    ensures Represents(schema, v, Encode(schema, v))
    decreases v, 3
  {
    match t
    case ClassT(cls) => EncodedClassRepresents(schema, v, cls, path);
    case ListT(item) =>
      EncodedItems(schema, v.items);
      forall i | 0 <= i < |v.items| ensures Represents(schema, v.items[i], EncodeItems(schema, v.items)[i]) {
        EncodedRepresents(schema, v.items[i], item, path);
      }
    case UnionT(_) => EncodedClassRepresents(schema, v, v.cls, path);
    case _ =>
  }

  lemma {:induction false} EncodedItems(schema: Schema, items: seq<Value>)
    ensures forall i :: 0 <= i < |items| ==> EncodeItems(schema, items)[i] == Encode(schema, items[i])
  {
    if items != [] {
      EncodedItems(schema, items[1..]);
    }
  }

  lemma {:induction false} EncodedClassRepresents(schema: Schema, v: Value, cls: string, path: string)
    requires SchemaOk(schema) && FitsClass(schema, v, cls, path)
    ensures Represents(schema, v, Encode(schema, v))
    decreases v, 2
  {
    var fields := schema.classes[cls];
    NothingUnknown(schema, fields, v.fields);
    forall i | 0 <= i < |v.fields| ensures Represents(schema, v.fields[i], Get(Encode(schema, v).entries, fields[i].name)) {
      EncodedFound(schema, fields, v.fields, i);
      var f, w := fields[i], v.fields[i];
      assert FitsField(schema, w, f, path);
      if !w.NoneV? {
        EncodedRepresents(schema, w, Target(schema, Encode(schema, w), f, Join(path, f.name)), Join(path, f.name));
      }
    }
  }

  /** Decoding a field, in one place: absent or null, or a valid value read as its target type. */
  lemma {:induction false} FieldRead(schema: Schema, j: Json, f: Field, path: string) returns (val: Json)
    requires j.Obj? && FromField(schema, j, f, path).Ok?
    ensures val == Get(j.entries, f.name)
    ensures val.Null? ==> f.optional && FromField(schema, j, f, path) == Ok(NoneV)
    ensures !val.Null? ==>
              var full := Join(path, f.name);
              && CheckValid(f.valid, val, full).None? && ResultReadable(val, full)
              && FromField(schema, j, f, path) == FromDict(schema, val, Some(Target(schema, val, f, full)), full)
    ensures !val.Null? ==> exists i :: 0 <= i < |j.entries| && j.entries[i].1 == val
  {
    val := Get(j.entries, f.name);
    if !val.Null? {
      var i := Find(j.entries, f.name).value;
      assert j.entries[i].1 == val;
    }
  }

  lemma {:induction false} DecodedRepresents(schema: Schema, j: Json, t: Option<Type>, path: string)
    requires FromDict(schema, j, t, path).Ok?
    ensures Represents(schema, FromDict(schema, j, t, path).value, j)
    decreases j, 3
  {
    if t.None? || t.value.UnionT? {
      ObjectRepresents(schema, j, FindObjectType(schema, j.entries, path).value, path);
    } else {
      match t.value
      case ClassT(cls) => ObjectRepresents(schema, j, cls, path);
      case ListT(item) => ItemsRepresent(schema, j.items, item, path);
      case _ =>
    }
  }

  lemma {:induction false} ItemsRepresent(schema: Schema, items: seq<Json>, t: Type, path: string)
    requires FromItems(schema, items, t, path).Ok?
    ensures |FromItems(schema, items, t, path).value| == |items|
    ensures forall i :: 0 <= i < |items| ==> Represents(schema, FromItems(schema, items, t, path).value[i], items[i])
    decreases items
  {
    if items != [] {
      DecodedRepresents(schema, items[0], Some(t), path);
      ItemsRepresent(schema, items[1..], t, path);
    }
  }

  lemma {:induction false} ObjectRepresents(schema: Schema, j: Json, cls: string, path: string)
    requires FromObject(schema, j, cls, path).Ok?
    ensures Represents(schema, FromObject(schema, j, cls, path).value, j)
    ensures FromObject(schema, j, cls, path).value.Instance? && FromObject(schema, j, cls, path).value.cls == cls
    decreases j, 2
  {
    FieldsRepresent(schema, j, schema.classes[cls], 0, path);
  }

  lemma {:induction false} FieldsRepresent(schema: Schema, j: Json, fields: seq<Field>, k: nat, path: string)
    requires j.Obj? && k <= |fields| && FromFields(schema, j, fields, k, path).Ok?
    ensures var vs := FromFields(schema, j, fields, k, path).value;
            && |vs| == |fields| - k
            && forall i :: 0 <= i < |vs| ==> Represents(schema, vs[i], Get(j.entries, fields[k + i].name))
    decreases j, 1, |fields| - k
  {
    if k < |fields| {
      FieldRepresents(schema, j, fields[k], path);
      FieldsRepresent(schema, j, fields, k + 1, path);
      var vs, rest := FromFields(schema, j, fields, k, path).value, FromFields(schema, j, fields, k + 1, path).value;
      forall i | 1 <= i < |vs| ensures Represents(schema, vs[i], Get(j.entries, fields[k + i].name)) {
        assert vs[i] == rest[i - 1] && fields[k + i] == fields[k + 1 + (i - 1)];
      }
    }
  }

  lemma {:induction false} FieldRepresents(schema: Schema, j: Json, f: Field, path: string)
    requires j.Obj? && FromField(schema, j, f, path).Ok?
    ensures Represents(schema, FromField(schema, j, f, path).value, Get(j.entries, f.name))
    decreases j, 0
  {
    var val := FieldRead(schema, j, f, path);
    if !val.Null? {
      DecodedRepresents(schema, val, Some(Target(schema, val, f, Join(path, f.name))), Join(path, f.name));
    }
  }

  // ---- Decoded values fit ----

  /** Equal, or both lists, or both objects: all that tags and valid values can tell. */
  predicate SameShape(a: Json, b: Json)
  {
    a == b || (a.Arr? && b.Arr?) || (a.Obj? && b.Obj?)
  }

  lemma {:induction false} ShapeKept(schema: Schema, v: Value, j: Json)
    requires Represents(schema, v, j)
    ensures SameShape(Encode(schema, v), j)
  {
  }

  lemma {:induction false} CheckSame(valid: Valid, a: Json, b: Json, full: string)
    requires SameShape(a, b) && AtomsOnly(valid)
    ensures CheckValid(valid, a, full).None? <==> CheckValid(valid, b, full).None?
  {
  }

  /** The tag an instance encodes to is the one its dictionary had. */
  lemma {:induction false} TagKept(schema: Schema, v: Value, j: Json)
    requires SchemaOk(schema) && v.Instance? && Represents(schema, v, j)
    ensures SameShape(Get(Encode(schema, v).entries, TAG), Get(j.entries, TAG))
  {
    var fields := schema.classes[v.cls];
    if TAG in Names(fields) {
      var i :| 0 <= i < |fields| && fields[i].name == TAG;
      EncodedFound(schema, fields, v.fields, i);
      ShapeKept(schema, v.fields[i], Get(j.entries, TAG));
    } else {
      EncodedFields(schema, fields, v.fields);
      forall i | 0 <= i < |fields| ensures fields[i].name != TAG {
        assert fields[i].name in Names(fields);
      }
      assert forall i :: 0 <= i < |j.entries| && j.entries[i].0 !in Names(fields) ==>
               j.entries[i].0 in Unknown(j.entries, fields);
    }
  }

  lemma {:induction false} DecodedFits(schema: Schema, j: Json, t: Type, path: string)
    requires SchemaOk(schema) && FromDict(schema, j, Some(t), path).Ok?
    ensures Fits(schema, FromDict(schema, j, Some(t), path).value, t, path)
    decreases j, 3
  {
    match t
    case ClassT(cls) => ObjectFits(schema, j, cls, path);
    case ListT(item) => ItemsFit(schema, j.items, item, path);
    case UnionT(_) =>
      var cls := FindObjectType(schema, j.entries, path).value;
      ObjectFits(schema, j, cls, path);
      ObjectRepresents(schema, j, cls, path);
      TagKept(schema, FromObject(schema, j, cls, path).value, j);
    case _ =>
  }

  lemma {:induction false} ItemsFit(schema: Schema, items: seq<Json>, t: Type, path: string)
    requires SchemaOk(schema) && FromItems(schema, items, t, path).Ok?
    ensures forall i :: 0 <= i < |FromItems(schema, items, t, path).value| ==>
              Fits(schema, FromItems(schema, items, t, path).value[i], t, path)
    decreases items
  {
    if items != [] {
      DecodedFits(schema, items[0], t, path);
      ItemsFit(schema, items[1..], t, path);
    }
  }

  lemma {:induction false} ObjectFits(schema: Schema, j: Json, cls: string, path: string)
    requires SchemaOk(schema) && FromObject(schema, j, cls, path).Ok?
    ensures FitsClass(schema, FromObject(schema, j, cls, path).value, cls, path)
    decreases j, 2
  {
    FieldsFit(schema, j, cls, 0, path);
  }

  lemma {:induction false} FieldsFit(schema: Schema, j: Json, cls: string, k: nat, path: string)
    requires SchemaOk(schema) && j.Obj? && cls in schema.classes && k <= |schema.classes[cls]|
    requires FromFields(schema, j, schema.classes[cls], k, path).Ok?
    ensures var vs := FromFields(schema, j, schema.classes[cls], k, path).value;
            && |vs| == |schema.classes[cls]| - k
            && forall i :: 0 <= i < |vs| ==> FitsField(schema, vs[i], schema.classes[cls][k + i], path)
    decreases j, 1, |schema.classes[cls]| - k
  {
    var fields := schema.classes[cls];
    if k < |fields| {
      FieldFits(schema, j, fields[k], path);
      FieldsFit(schema, j, cls, k + 1, path);
      var vs, rest := FromFields(schema, j, fields, k, path).value, FromFields(schema, j, fields, k + 1, path).value;
      forall i | 1 <= i < |vs| ensures FitsField(schema, vs[i], fields[k + i], path) {
        assert vs[i] == rest[i - 1] && fields[k + i] == fields[k + 1 + (i - 1)];
      }
    }
  }

  lemma {:induction false} FieldFits(schema: Schema, j: Json, f: Field, path: string)
    requires SchemaOk(schema) && j.Obj? && AtomsOnly(f.valid) && FromField(schema, j, f, path).Ok?
    ensures FitsField(schema, FromField(schema, j, f, path).value, f, path)
    decreases j, 0
  {
    var val := FieldRead(schema, j, f, path);
    if !val.Null? {
      var full := Join(path, f.name);
      var target := Target(schema, val, f, full);
      var v := FromDict(schema, val, Some(target), full).value;
      DecodedFits(schema, val, target, full);
      DecodedRepresents(schema, val, Some(target), full);
      ShapeKept(schema, v, val);
      CheckSame(f.valid, Encode(schema, v), val, full);
      if full == RESULT {
        InstanceOfObject(schema, v, val);
        TagKept(schema, v, val);
      }
    }
  }

  lemma {:induction false} InstanceOfObject(schema: Schema, v: Value, j: Json)
    requires Represents(schema, v, j) && j.Obj?
    ensures v.Instance?
  {
  }

  // ---- Every dictionary that says a fitting value is accepted ----

  lemma {:induction false} RepresentedDecodes(schema: Schema, v: Value, j: Json, t: Type, path: string)
    requires SchemaOk(schema) && Fits(schema, v, t, path) && Represents(schema, v, j)
    ensures FromDict(schema, j, Some(t), path) == Ok(v)
    decreases v, 3
  {
    match t
    case ClassT(cls) => RepresentedClassDecodes(schema, v, j, cls, path);
    case ListT(item) => RepresentedItemsDecode(schema, v.items, j.items, item, path);
    case UnionT(_) =>
      TagKept(schema, v, j);
      RepresentedClassDecodes(schema, v, j, v.cls, path);
    case _ =>
  }

  lemma {:induction false} RepresentedItemsDecode(schema: Schema, items: seq<Value>, js: seq<Json>, t: Type, path: string)
    requires SchemaOk(schema) && |js| == |items|
    requires forall i :: 0 <= i < |items| ==> Fits(schema, items[i], t, path) && Represents(schema, items[i], js[i])
    ensures FromItems(schema, js, t, path) == Ok(items)
    decreases items, 0
  {
    if items != [] {
      RepresentedDecodes(schema, items[0], js[0], t, path);
      RepresentedItemsDecode(schema, items[1..], js[1..], t, path);
      assert items == [items[0]] + items[1..];
    }
  }

  lemma {:induction false} RepresentedClassDecodes(schema: Schema, v: Value, j: Json, cls: string, path: string)
    requires SchemaOk(schema) && FitsClass(schema, v, cls, path) && Represents(schema, v, j)
    ensures FromObject(schema, j, cls, path) == Ok(v)
    decreases v, 2
  {
    RepresentedFieldsDecode(schema, v, j, cls, 0, path);
    assert v.fields[0..] == v.fields;
  }

  lemma {:induction false} RepresentedFieldsDecode(schema: Schema, v: Value, j: Json, cls: string, k: nat, path: string)
    requires SchemaOk(schema) && FitsClass(schema, v, cls, path) && Represents(schema, v, j) && k <= |v.fields|
    ensures FromFields(schema, j, schema.classes[cls], k, path) == Ok(v.fields[k..])
    decreases v, 1, |v.fields| - k
  {
    if k < |v.fields| {
      assert FitsField(schema, v.fields[k], schema.classes[cls][k], path);
      RepresentedFieldDecodes(schema, v.fields[k], j, schema.classes[cls][k], path);
      RepresentedFieldsDecode(schema, v, j, cls, k + 1, path);
      assert v.fields[k..] == [v.fields[k]] + v.fields[k + 1..];
    } else {
      assert v.fields[k..] == [];
    }
  }

  lemma {:induction false} RepresentedFieldDecodes(schema: Schema, w: Value, j: Json, f: Field, path: string)
    requires SchemaOk(schema) && AtomsOnly(f.valid) && j.Obj?
    requires FitsField(schema, w, f, path) && Represents(schema, w, Get(j.entries, f.name))
    ensures FromField(schema, j, f, path) == Ok(w)
    decreases w, 4
  {
    if !w.NoneV? {
      var val, full := Get(j.entries, f.name), Join(path, f.name);
      ShapeKept(schema, w, val);
      CheckSame(f.valid, Encode(schema, w), val, full);
      if full == RESULT {
        TagKept(schema, w, val);
      }
      RepresentedDecodes(schema, w, val, Target(schema, val, f, full), full);
    }
  }

  /**
   * A dictionary is decoded to a value exactly when the value fits the type and the dictionary says
   * what the value says; in particular a field that is not there is read like one that is null.
   */
  lemma {:induction false} DecodedIff(schema: Schema, v: Value, j: Json, t: Type, path: string)
    requires SchemaOk(schema)
    ensures FromDict(schema, j, Some(t), path) == Ok(v) <==> Fits(schema, v, t, path) && Represents(schema, v, j)
  {
    if FromDict(schema, j, Some(t), path) == Ok(v) {
      DecodedFits(schema, j, t, path);
      DecodedRepresents(schema, j, Some(t), path);
    }
    if Fits(schema, v, t, path) && Represents(schema, v, j) {
      RepresentedDecodes(schema, v, j, t, path);
    }
  }

  /** Decoding the dictionary form of a value that fits gives the value back. */
  lemma {:induction false} RoundTrip(schema: Schema, v: Value, t: Type, path: string)
    requires SchemaOk(schema) && Fits(schema, v, t, path)
    ensures FromDict(schema, Encode(schema, v), Some(t), path) == Ok(v)
  {
    EncodedRepresents(schema, v, t, path);
    RepresentedDecodes(schema, v, Encode(schema, v), t, path);
  }

  // ---- Which error is reported ----

  /** Listed as it is, or the number one for true and zero for false, or the other way round. */
  predicate IsListed(values: seq<Json>, val: Json)
  {
    exists i :: 0 <= i < |values| &&
      (values[i] == val || (values[i], val) in {(Int(1), Bool(true)), (Int(0), Bool(false)), (Bool(true), Int(1)), (Bool(false), Int(0))})
  }

  /**
   * A value is checked against the list or the pattern of its field: no list and the empty one admit
   * anything, a pattern only strings, and what is refused is reported under the field's full name.
   */
  lemma {:induction false} ValidityIff(valid: Valid, val: Json, full: string)
    ensures CheckValid(valid, val, full).None? <==>
              match valid
              case AnyValue => true
              case OneOf(values) => values == [] || IsListed(values, val)
              case Pattern(matches) => val.Str? && matches(val.s)
    ensures CheckValid(valid, val, full).Some? ==>
              CheckValid(valid, val, full).value == if valid.Pattern? && !val.Str? then Uncaught else InvalidFieldValue(full)
  {
    if valid.OneOf? {
      if IsListed(valid.values, val) {
        var i :| 0 <= i < |valid.values| &&
          (valid.values[i] == val || (valid.values[i], val) in {(Int(1), Bool(true)), (Int(0), Bool(false)), (Bool(true), Int(1)), (Bool(false), Int(0))});
        assert PyEqual(valid.values[i], val);
      }
      if exists i :: 0 <= i < |valid.values| && PyEqual(valid.values[i], val) {
        var i :| 0 <= i < |valid.values| && PyEqual(valid.values[i], val);
        assert valid.values[i] == val || (valid.values[i], val) in {(Int(1), Bool(true)), (Int(0), Bool(false)), (Bool(true), Int(1)), (Bool(false), Int(0))};
      }
    }
  }

  predicate Falsy(j: Json)
  {
    j in {Null, Bool(false), Int(0), Str(""), Arr([]), Obj([])}
  }

  /** The path under which a field is reported: its name, after that of the object it is in. */
  predicate IsPath(full: string, path: string, name: string)
  {
    (path == "" && full == name) || (path != "" && full == path + "." + name)
  }

  /**
   * What a tag leads to: a falsy one counts as missing, a registered string names the class, other
   * atoms are invalid, and looking up a list or an object raises.
   */
  lemma {:induction false} TagOutcome(schema: Schema, entries: seq<(string, Json)>, path: string, full: string)
    requires IsPath(full, path, TAG)
    ensures var tag, outcome := Get(entries, TAG), FindObjectType(schema, entries, path);
      if Falsy(tag) then outcome == Err(MissingField(full))
      else if tag.Arr? || tag.Obj? then outcome == Err(Uncaught)
      else if tag.Str? && tag.s in schema.objectTypes then outcome == Ok(schema.objectTypes[tag.s])
      else outcome == Err(InvalidFieldValue(full))
  {
  }

  /** A required field that is absent or null is missing, under its path. */
  lemma {:induction false} RequiredIsMissing(schema: Schema, j: Json, f: Field, path: string, full: string)
    requires j.Obj? && Get(j.entries, f.name).Null? && IsPath(full, path, f.name)
    ensures FromField(schema, j, f, path) == if f.optional then Ok(NoneV) else Err(MissingField(full))
  {
  }

  /** A value of the wrong kind is an invalid object at the top, and an invalid value of its field below. */
  lemma {:induction false} WrongKindReported(schema: Schema, j: Json, t: Type, path: string)
    requires match t
             case BoolT => !j.Bool?
             case IntT => !j.Int? && !j.Bool?
             case StrT => !j.Str?
             case ListT(_) => !j.Arr?
             case ClassT(_) => !j.Obj?
             case UnionT(_) => !j.Obj?
    ensures FromDict(schema, j, Some(t), path) == Err(if path == "" then InvalidObject else InvalidFieldValue(path))
  {
    match t
    case ClassT(cls) => assert FromObject(schema, j, cls, path) == Err(BadType(path));
    case ListT(_) =>
    case UnionT(_) =>
    case _ =>
  }

  /** Where every known field is in order, unknown ones are reported, all of them. */
  lemma {:induction false} UnknownReported(schema: Schema, j: Json, cls: string, path: string, name: string)
    requires j.Obj? && cls in schema.classes && FromFields(schema, j, schema.classes[cls], 0, path).Ok?
    requires exists i :: 0 <= i < |j.entries| && j.entries[i].0 == name
    requires forall i :: 0 <= i < |schema.classes[cls]| ==> schema.classes[cls][i].name != name
    ensures var result := FromObject(schema, j, cls, path);
      result.Err? && result.error.UnknownFields? && result.error.path == path && name in result.error.names
  {
    var i :| 0 <= i < |j.entries| && j.entries[i].0 == name;
    assert j.entries[i].0 in Unknown(j.entries, schema.classes[cls]);
  }

  // ---- Null and absent entries ----

  predicate DistinctNames(entries: seq<(string, Json)>)
  {
    forall i, j :: 0 <= i < j < |entries| ==> entries[i].0 != entries[j].0
  }

  function Dropped<E>(entries: seq<E>, i: nat): seq<E>
    requires i < |entries|
  {
    entries[..i] + entries[i + 1..]
  }

  lemma {:induction false} GetIs(entries: seq<(string, Json)>, i: nat)
    requires DistinctNames(entries) && i < |entries|
    ensures Get(entries, entries[i].0) == entries[i].1
  {
  }

  lemma {:induction false} DroppedReadsSame(entries: seq<(string, Json)>, i: nat, name: string)
    requires DistinctNames(entries) && i < |entries| && entries[i].1.Null?
    ensures Get(Dropped(entries, i), name) == Get(entries, name)
  {
    var dropped := Dropped(entries, i);
    assert forall k :: 0 <= k < |dropped| ==> dropped[k] == if k < i then entries[k] else entries[k + 1];
    match Find(dropped, name)
    case Some(k) => GetIs(entries, if k < i then k else k + 1);
    case None =>
      forall k | 0 <= k < |entries| && k != i ensures entries[k].0 != name {
        assert entries[k] == dropped[if k < i then k else k - 1];
      }
  }

  lemma {:induction false} FieldsReadSame(schema: Schema, a: Json, b: Json, fields: seq<Field>, k: nat, path: string)
    requires a.Obj? && b.Obj? && k <= |fields| && forall name :: Get(a.entries, name) == Get(b.entries, name)
    ensures FromFields(schema, a, fields, k, path) == FromFields(schema, b, fields, k, path)
    decreases |fields| - k
  {
    if k < |fields| {
      assert Get(a.entries, fields[k].name) == Get(b.entries, fields[k].name);
      FieldsReadSame(schema, a, b, fields, k + 1, path);
    }
  }

  lemma {:induction false} DroppedUnknown(entries: seq<(string, Json)>, i: nat, fields: seq<Field>)
    requires i < |entries| && entries[i].0 in Names(fields)
    ensures Unknown(Dropped(entries, i), fields) == Unknown(entries, fields)
  {
    var dropped := Dropped(entries, i);
    assert forall k :: 0 <= k < |dropped| ==> dropped[k] == if k < i then entries[k] else entries[k + 1];
    forall k | 0 <= k < |entries| && entries[k].0 !in Names(fields) ensures entries[k].0 in Unknown(dropped, fields) {
      assert entries[k] == dropped[if k < i then k else k - 1];
    }
  }

  /** Dropping a null entry of a declared field changes nothing, neither the value nor the error. */
  lemma {:induction false} NullReadsAsAbsent(schema: Schema, entries: seq<(string, Json)>, i: nat, cls: string, path: string)
    requires DistinctNames(entries) && i < |entries| && entries[i].1.Null?
    requires cls in schema.classes && entries[i].0 in Names(schema.classes[cls])
    ensures FromObject(schema, Obj(Dropped(entries, i)), cls, path) == FromObject(schema, Obj(entries), cls, path)
    ensures FindObjectType(schema, Dropped(entries, i), path) == FindObjectType(schema, entries, path)
  {
    forall name ensures Get(Dropped(entries, i), name) == Get(entries, name) {
      DroppedReadsSame(entries, i, name);
    }
    FieldsReadSame(schema, Obj(entries), Obj(Dropped(entries, i)), schema.classes[cls], 0, path);
    DroppedUnknown(entries, i, schema.classes[cls]);
    assert Get(Dropped(entries, i), TAG) == Get(entries, TAG);
  }

  /**
   * Decoding undoes encoding for exactly the values that fit: well-typed at every depth, with valid
   * values, each tagged union holding the class its tag announces, and an optional union other than
   * the top-level result holding its first alternative.
   */
  lemma {:induction false} RoundTripIff(schema: Schema, v: Value, t: Type, path: string)
    requires SchemaOk(schema)
    ensures FromDict(schema, Encode(schema, v), Some(t), path) == Ok(v) <==> Fits(schema, v, t, path)
  {
    if Fits(schema, v, t, path) {
      RoundTrip(schema, v, t, path);
    }
    if FromDict(schema, Encode(schema, v), Some(t), path) == Ok(v) {
      DecodedFits(schema, Encode(schema, v), t, path);
    }
  }

  /** An optional union below the top level never gives back its second alternative. */
  lemma {:induction false} SecondAlternativeLost(schema: Schema, f: Field, v: Value, path: string)
    requires f.optional && f.ty.UnionT? && |f.ty.alternatives| > 1 && f.ty.alternatives[0].ClassT?
    requires v.Instance? && f.ty.alternatives[1] == ClassT(v.cls) && f.ty.alternatives[0] != ClassT(v.cls)
    requires Join(path, f.name) != RESULT
    ensures FromField(schema, Obj([(f.name, Encode(schema, v))]), f, path) != Ok(v)
  {
    var j := Encode(schema, v);
    var first := f.ty.alternatives[0].name;
    assert Find([(f.name, j)], f.name) == Some(0);
    assert FromDict(schema, j, Some(Effective(f)), Join(path, f.name)) == FromObject(schema, j, first, Join(path, f.name));
    if FromObject(schema, j, first, Join(path, f.name)).Ok? {
      ObjectRepresents(schema, j, first, Join(path, f.name));
    }
  }
}
