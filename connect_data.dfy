/**
 * The parts of Kafka Connect's data API the connector relies on, as values:
 * schemas built field by field (`SchemaBuilder.field` refuses an empty or
 * repeated field name), structs whose `put` and `get` refuse a name the
 * schema does not have, and the source records a poll returns.
 */
module ConnectData {
  import opened Wrappers
  import opened JavaStrings
  import FileOffsets

  /** The field schemas the connector uses. */
  datatype FieldType = RequiredString | OptionalString | RequiredInt64

  datatype Field = Field(name: string, kind: FieldType)

  datatype Schema =
    | StringSchema
    | OptionalStringSchema
    | StructSchema(optional: bool, fields: seq<Field>)

  /** A field value: null, a string or a 64-bit integer. */
  datatype Datum = Null | Text(text: string) | Int64(number: int)

  /** A struct: the fields of its schema and one value per field, in the same order. */
  datatype Struct = Struct(fields: seq<Field>, values: seq<Datum>)

  /** The value of a record: a raw line or a struct. */
  datatype Payload = Line(text: string) | Record(data: Struct)

  /** What `buildRecordModel` returns: a value and its schema. */
  datatype RecordModel = RecordModel(value: Payload, schema: Schema)

  /**
   * A source record. The partition is the singleton map from "file" to
   * `partition`; the enhanced task's offset is a checkpoint map, the
   * original task's a clock reading.
   */
  datatype SourceOffset = Position(millis: int) | Checkpoint(entries: FileOffsets.OffsetMap)

  datatype SourceRecord = SourceRecord(
    partition: string,
    offset: SourceOffset,
    topic: string,
    keySchema: Schema,
    key: Option<string>,
    valueSchema: Schema,
    value: Payload)

  // ---------------------------------------------------------------------
  // field lookup

  /** The position of the first field called `name`, or -1. */
  function FieldIndex(fields: seq<Field>, name: string): (i: int)
    ensures -1 <= i < |fields|
    ensures i >= 0 ==> fields[i].name == name && forall k :: 0 <= k < i ==> fields[k].name != name
    ensures i == -1 ==> forall k :: 0 <= k < |fields| ==> fields[k].name != name
  {
    if |fields| == 0 then -1
    else
      var j := FieldIndex(fields[..|fields| - 1], name);
      if j >= 0 then j
      else if fields[|fields| - 1].name == name then |fields| - 1
      else -1
  }

  /** Every name is non-empty and no two fields share one. */
  predicate DistinctNames(fields: seq<Field>)
  {
    (forall k :: 0 <= k < |fields| ==> fields[k].name != "") &&
    (forall i, j :: 0 <= i < j < |fields| ==> fields[i].name != fields[j].name)
  }

  /** In a schema with distinct names, each field is found at its own position. */
  lemma IndexOfDistinct(fields: seq<Field>, k: nat)
    requires DistinctNames(fields) && k < |fields|
    ensures FieldIndex(fields, fields[k].name) == k
  {
  }

  // ---------------------------------------------------------------------
  // SchemaBuilder

  /**
   * Adding `fields` one by one to `SchemaBuilder.struct()`: the first empty
   * or repeated name throws SchemaBuilderException.
   */
  function BuildFields(fields: seq<Field>): (r: Result<seq<Field>>)
    ensures r.Ok? <==> DistinctNames(fields)
    ensures r.Ok? ==> r.value == fields
  {
    if |fields| == 0 then Ok([])
    else
      var init := fields[..|fields| - 1];
      var last := fields[|fields| - 1];
      match BuildFields(init)
      case Err(m) => Err(m)
      case Ok(_) =>
        if last.name == "" then Err("fieldName cannot be null.")
        else if FieldIndex(init, last.name) >= 0 then
          Err("Cannot create field because of field name duplication " + last.name)
        else Ok(fields)
  }

  // ---------------------------------------------------------------------
  // Struct

  /** `new Struct(schema)`: every field unset, which reads as null. */
  function NewStruct(fields: seq<Field>): (s: Struct)
    ensures s.fields == fields && |s.values| == |fields|
    ensures forall k :: 0 <= k < |fields| ==> s.values[k] == Null
  {
    Struct(fields, seq(|fields|, _ => Null))
  }

  /** The message of the DataException for a name the schema lacks. */
  function NotAField(name: string): string
  {
    name + " is not a valid field name"
  }

  /** Whether a value fits a field schema: null only in an optional field, and the right type. */
  predicate Fits(kind: FieldType, d: Datum)
  {
    match kind
    case RequiredString => d.Text?
    case OptionalString => d.Null? || d.Text?
    case RequiredInt64 => d.Int64?
  }

  /** `struct.get(name)`. */
  function Get(s: Struct, name: string): (r: Result<Datum>)
    ensures r.Err? <==> FieldIndex(s.fields, name) == -1 || FieldIndex(s.fields, name) >= |s.values|
    ensures r.Ok? ==> r.value == s.values[FieldIndex(s.fields, name)]
  {
    var i := FieldIndex(s.fields, name);
    if i == -1 || i >= |s.values| then Err(NotAField(name)) else Ok(s.values[i])
  }

  /** `struct.put(name, value)`: the named field now holds the value and no other field changes. */
  function Put(s: Struct, name: string, d: Datum): (r: Result<Struct>)
    ensures r.Err? <==> FieldIndex(s.fields, name) == -1 || FieldIndex(s.fields, name) >= |s.values|
                        || !Fits(s.fields[FieldIndex(s.fields, name)].kind, d)
    ensures r.Ok? ==> r.value.fields == s.fields && |r.value.values| == |s.values|
    ensures r.Ok? ==> forall k :: 0 <= k < |s.values| ==>
                        r.value.values[k] == if k == FieldIndex(s.fields, name) then d else s.values[k]
  {
    var i := FieldIndex(s.fields, name);
    if i == -1 || i >= |s.values| then Err(NotAField(name))
    else if !Fits(s.fields[i].kind, d) then Err("Invalid Java object for schema type")
    else Ok(s.(values := s.values[i := d]))
  }

  /** Putting a value and reading it back gives that value. */
  lemma GetAfterPut(s: Struct, name: string, d: Datum)
    requires Put(s, name, d).Ok?
    ensures Get(Put(s, name, d).value, name) == Ok(d)
  {
  }

  /** `toString` of a value. */
  function DatumText(d: Datum): (t: string)
    ensures d.Text? ==> t == d.text
  {
    match d
    case Null => "null"
    case Text(t) => t
    case Int64(n) => IntToString(n)
  }
}
