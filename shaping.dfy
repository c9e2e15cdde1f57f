/**
 * How both tasks shape a line: in "json" mode the line is cut at every
 * occurrence of the tokenizer, field i is named after header i (or
 * "field" + (i + 1) past the headers) and holds the trimmed text; in any
 * other mode the line itself is the value. The record key is built from
 * the struct's fields named in a '+'-separated specification.
 */
module RecordShaping {
  import opened Wrappers
  import opened JavaStrings
  import opened ConnectData

  // ---------------------------------------------------------------------
  // field names and schemas

  /** The name given to field i when no header covers it. */
  function Generated(i: nat): string
  {
    "field" + NatToString(i + 1)
  }

  /** `getFieldName(i)`. */
  function FieldName(headers: Option<seq<string>>, i: nat): string
  {
    if headers.Some? && i < |headers.value| then headers.value[i] else Generated(i)
  }

  /** The optional-string fields of a line with `n` parts. */
  function FieldsFor(headers: Option<seq<string>>, n: nat): (fs: seq<Field>)
    ensures |fs| == n
    ensures forall i :: 0 <= i < n ==> fs[i] == Field(FieldName(headers, i), OptionalString)
  {
    seq(n, i requires 0 <= i < n => Field(FieldName(headers, i), OptionalString))
  }

  /** Different positions get different generated names. */
  lemma GeneratedInjective(i: nat, j: nat)
    requires Generated(i) == Generated(j)
    ensures i == j
  {
    assert Generated(i)[5..] == NatToString(i + 1);
    assert Generated(j)[5..] == NatToString(j + 1);
    NatToStringValue(i + 1);
    NatToStringValue(j + 1);
  }

  /** Without headers the schema of any line builds. */
  lemma GeneratedFieldsBuild(n: nat)
    ensures BuildFields(FieldsFor(None, n)) == Ok(FieldsFor(None, n))
  {
    var fs := FieldsFor(None, n);
    forall i, j | 0 <= i < j < n ensures fs[i].name != fs[j].name {
      if fs[i].name == fs[j].name { GeneratedInjective(i, j); }
    }
  }

  /**
   * With headers `h`, the names of a line of `n` parts are the first
   * min(n, |h|) headers and then generated names; the schema builds when
   * those headers are non-empty and distinct and no generated name repeats
   * one of them.
   */
  predicate HeadersUsable(h: seq<string>, n: nat)
  {
    var m := if n < |h| then n else |h|;
    (forall i :: 0 <= i < m ==> h[i] != "")
    && (forall i, j :: 0 <= i < j < m ==> h[i] != h[j])
    && (forall i, k :: 0 <= i < m && |h| <= k < n ==> h[i] != Generated(k))
  }

  lemma HeaderFieldsBuild(h: seq<string>, n: nat)
    ensures BuildFields(FieldsFor(Some(h), n)).Ok? <==> HeadersUsable(h, n)
  {
    var fs := FieldsFor(Some(h), n);
    var m := if n < |h| then n else |h|;
    if HeadersUsable(h, n) {
      forall i, j | 0 <= i < j < n ensures fs[i].name != fs[j].name {
        if j >= m && i >= m && fs[i].name == fs[j].name { GeneratedInjective(i, j); }
      }
      forall i | 0 <= i < n ensures fs[i].name != "" {
        if i >= m { assert |Generated(i)| >= 5; }
      }
    } else {
      if exists i :: 0 <= i < m && h[i] == "" {
        var i :| 0 <= i < m && h[i] == "";
        assert fs[i].name == "";
      } else if exists i, j :: 0 <= i < j < m && h[i] == h[j] {
        var i, j :| 0 <= i < j < m && h[i] == h[j];
        assert fs[i].name == fs[j].name;
      } else {
        var i, k :| 0 <= i < m && |h| <= k < n && h[i] == Generated(k);
        assert fs[i].name == fs[k].name;
      }
    }
  }

  /** A header named like a generated field breaks the schema of longer lines: "field2" as the only header. */
  lemma HeaderCollision()
    ensures BuildFields(FieldsFor(Some(["field2"]), 2)).Err?
  {
    assert Generated(1) == "field2";
    HeaderFieldsBuild(["field2"], 2);
  }

  // ---------------------------------------------------------------------
  // the schema signature

  /** `calculateSchemaSignature(n)`. */
  function Signature(headers: Option<seq<string>>, n: nat): string
  {
    if headers.Some? && |headers.value| == n then Join(headers.value, ",") else "fields:" + NatToString(n)
  }

  /**
   * Equal signatures mean equal field counts, unless the joined headers
   * read "fields:" followed by the other count.
   */
  lemma SignatureDistinguishes(headers: Option<seq<string>>, n1: nat, n2: nat)
    requires Signature(headers, n1) == Signature(headers, n2)
    ensures n1 == n2 || (headers.Some? && (|headers.value| == n1 || |headers.value| == n2)
                         && Join(headers.value, ",") == "fields:" + NatToString(if |headers.value| == n1 then n2 else n1))
  {
    var h1 := headers.Some? && |headers.value| == n1;
    var h2 := headers.Some? && |headers.value| == n2;
    if !h1 && !h2 {
      assert Signature(headers, n1)[7..] == NatToString(n1);
      assert Signature(headers, n2)[7..] == NatToString(n2);
      NatToStringValue(n1);
      NatToStringValue(n2);
    }
  }

  /** The collision exists: with the single header "fields:3", one part and three parts share a signature. */
  lemma SignatureCollision()
    ensures Signature(Some(["fields:3"]), 1) == Signature(Some(["fields:3"]), 3)
  {
    assert NatToString(3) == "3";
  }

  // ---------------------------------------------------------------------
  // filling a struct

  /** The trimmed parts, as values. */
  function TrimmedTexts(parts: seq<string>): (ds: seq<Datum>)
    ensures |ds| == |parts|
    ensures forall k :: 0 <= k < |parts| ==> ds[k] == Text(Trim(parts[k]))
  {
    seq(|parts|, k requires 0 <= k < |parts| => Text(Trim(parts[k])))
  }

  /** The puts of `buildRecordModel`, in order: field i gets the trimmed part i; the first failing put throws. */
  function PutAll(s: Struct, headers: Option<seq<string>>, parts: seq<string>): Result<Struct>
  {
    if |parts| == 0 then Ok(s)
    else
      match PutAll(s, headers, parts[..|parts| - 1])
      case Err(m) => Err(m)
      case Ok(t) => Put(t, FieldName(headers, |parts| - 1), Text(Trim(parts[|parts| - 1])))
  }

  lemma PutAllStep(s: Struct, headers: Option<seq<string>>, parts: seq<string>, i: nat)
    requires i < |parts|
    ensures PutAll(s, headers, parts[..i + 1]) ==
            match PutAll(s, headers, parts[..i])
            case Err(m) => Err(m)
            case Ok(t) => Put(t, FieldName(headers, i), Text(Trim(parts[i])))
  {
    assert parts[..i + 1][..i] == parts[..i];
  }

  lemma PutAllNext(s: Struct, headers: Option<seq<string>>, parts: seq<string>, i: nat, t: Struct)
    requires i < |parts| && PutAll(s, headers, parts[..i]) == Ok(t)
    ensures PutAll(s, headers, parts[..i + 1]) == Put(t, FieldName(headers, i), Text(Trim(parts[i])))
  {
    PutAllStep(s, headers, parts, i);
  }

  lemma PutAllFailedStep(s: Struct, headers: Option<seq<string>>, parts: seq<string>, i: nat)
    requires i < |parts| && PutAll(s, headers, parts[..i]).Err?
    ensures PutAll(s, headers, parts[..i + 1]) == PutAll(s, headers, parts[..i])
  {
    assert parts[..i + 1][..i] == parts[..i];
  }

  /** Once a put fails, the remaining puts are not made and the exception propagates. */
  lemma {:induction false} PutAllFailure(s: Struct, headers: Option<seq<string>>, parts: seq<string>, i: nat)
    requires i <= |parts| && PutAll(s, headers, parts[..i]).Err?
    ensures PutAll(s, headers, parts) == PutAll(s, headers, parts[..i])
    decreases |parts| - i
  {
    if i < |parts| {
      PutAllFailedStep(s, headers, parts, i);
      PutAllFailure(s, headers, parts, i + 1);
    } else {
      assert parts[..i] == parts;
    }
  }

  /** The values after the first `i` puts into a fresh struct of `n` fields. */
  function PartlyFilled(parts: seq<string>, i: nat): seq<Datum>
    requires i <= |parts|
  {
    seq(|parts|, k requires 0 <= k < |parts| => if k < i then Text(Trim(parts[k])) else Null)
  }

  /**
   * Into a fresh struct of the line's own fields, with distinct names, every
   * put succeeds and field i ends up holding the trimmed part i.
   */
  lemma {:induction false} FreshFill(headers: Option<seq<string>>, parts: seq<string>, i: nat)
    requires i <= |parts| && DistinctNames(FieldsFor(headers, |parts|))
    ensures PutAll(NewStruct(FieldsFor(headers, |parts|)), headers, parts[..i])
            == Ok(Struct(FieldsFor(headers, |parts|), PartlyFilled(parts, i)))
  {
    var fs := FieldsFor(headers, |parts|);
    if i == 0 {
      assert NewStruct(fs).values == PartlyFilled(parts, 0);
    } else {
      FreshFill(headers, parts, i - 1);
      PutAllStep(NewStruct(fs), headers, parts, i - 1);
      FreshPut(fs, parts, i - 1);
    }
  }

  lemma FreshPut(fs: seq<Field>, parts: seq<string>, i: nat)
    requires i < |parts| == |fs| && DistinctNames(fs) && fs[i].kind == OptionalString
    ensures Put(Struct(fs, PartlyFilled(parts, i)), fs[i].name, Text(Trim(parts[i])))
            == Ok(Struct(fs, PartlyFilled(parts, i + 1)))
  {
    IndexOfDistinct(fs, i);
    assert PartlyFilled(parts, i)[i := Text(Trim(parts[i]))] == PartlyFilled(parts, i + 1);
  }

  lemma FreshFillAll(headers: Option<seq<string>>, parts: seq<string>)
    requires DistinctNames(FieldsFor(headers, |parts|))
    ensures PutAll(NewStruct(FieldsFor(headers, |parts|)), headers, parts)
            == Ok(Struct(FieldsFor(headers, |parts|), TrimmedTexts(parts)))
  {
    FreshFill(headers, parts, |parts|);
    assert parts[..|parts|] == parts;
    assert PartlyFilled(parts, |parts|) == TrimmedTexts(parts);
  }

  /** `builder.field(..)` for each field in turn, then `build()`. */
  method BuildSchema(fields: seq<Field>) returns (r: Result<seq<Field>>)
    ensures r == BuildFields(fields)
  {
    var built: seq<Field> := [];
    var i := 0;
    while i < |fields|
      invariant 0 <= i <= |fields|
      invariant built == fields[..i] && BuildFields(fields[..i]) == Ok(built)
    {
      var f := fields[i];
      assert fields[..i + 1][..i] == fields[..i];
      if f.name == "" || FieldIndex(built, f.name) >= 0 {
        r := if f.name == "" then Err("fieldName cannot be null.")
             else Err("Cannot create field because of field name duplication " + f.name);
        assert BuildFields(fields[..i + 1]) == r;
        BuildFieldsFailure(fields, i + 1);
        return;
      }
      built := built + [f];
      i := i + 1;
    }
    assert fields[..i] == fields;
    r := Ok(built);
  }

  /** Once a prefix of the fields fails to build, so do all of them, with the same exception. */
  lemma {:induction false} BuildFieldsFailure(fields: seq<Field>, i: nat)
    requires i <= |fields| && BuildFields(fields[..i]).Err?
    ensures BuildFields(fields) == BuildFields(fields[..i])
    decreases |fields| - i
  {
    if i < |fields| {
      assert fields[..i + 1][..i] == fields[..i];
      BuildFieldsFailure(fields, i + 1);
    } else {
      assert fields[..i] == fields;
    }
  }

  /** `new Struct(schema)` and the loop of `struct.put(getFieldName(i), parts[i].trim())`. */
  method FillStruct(schema: seq<Field>, headers: Option<seq<string>>, parts: seq<string>) returns (r: Result<Struct>)
    ensures r == PutAll(NewStruct(schema), headers, parts)
  {
    var s := NewStruct(schema);
    var i := 0;
    while i < |parts|
      invariant 0 <= i <= |parts|
      invariant PutAll(NewStruct(schema), headers, parts[..i]) == Ok(s)
    {
      var p := Put(s, FieldName(headers, i), Text(Trim(parts[i])));
      PutAllNext(NewStruct(schema), headers, parts, i, s);
      if p.Err? {
        PutAllFailure(NewStruct(schema), headers, parts, i + 1);
        return p;
      }
      s := p.value;
      i := i + 1;
    }
    assert parts[..i] == parts;
    r := Ok(s);
  }

  // ---------------------------------------------------------------------
  // the record key

  /** The values of the named fields, `struct.get(name.trim())` each; an unknown name throws. */
  function KeyValues(s: Struct, names: seq<string>): Result<seq<Datum>>
  {
    if |names| == 0 then Ok([])
    else
      match KeyValues(s, names[..|names| - 1])
      case Err(m) => Err(m)
      case Ok(ds) =>
        match Get(s, Trim(names[|names| - 1]))
        case Err(m) => Err(m)
        case Ok(d) => Ok(ds + [d])
  }

  /**
   * The text of the key builder after the names: a non-null value is
   * appended, preceded by "_" when the text so far is not empty.
   */
  function KeyText(s: Struct, names: seq<string>): Result<string>
  {
    if |names| == 0 then Ok("")
    else
      match KeyText(s, names[..|names| - 1])
      case Err(m) => Err(m)
      case Ok(acc) =>
        match Get(s, Trim(names[|names| - 1]))
        case Err(m) => Err(m)
        case Ok(d) => Ok(Appended(acc, d))
  }

  /** One step of the key builder. */
  function Appended(acc: string, d: Datum): string
  {
    if d.Null? then acc else if |acc| > 0 then acc + "_" + DatumText(d) else acc + DatumText(d)
  }

  /** `buildKafkaKey`: none for an empty specification, and none when the built text is empty. */
  function KeyOf(s: Struct, spec: string): Result<Option<string>>
  {
    if spec == "" then Ok(None)
    else
      match KeyText(s, SplitDropping(spec, '+'))
      case Err(m) => Err(m)
      case Ok(t) => Ok(if t == "" then None else Some(t))
  }

  lemma KeyTextFailedStep(s: Struct, names: seq<string>, i: nat)
    requires i < |names| && KeyText(s, names[..i]).Err?
    ensures KeyText(s, names[..i + 1]) == KeyText(s, names[..i])
  {
    assert names[..i + 1][..i] == names[..i];
  }

  lemma {:induction false} KeyTextFailure(s: Struct, names: seq<string>, i: nat)
    requires i <= |names| && KeyText(s, names[..i]).Err?
    ensures KeyText(s, names) == KeyText(s, names[..i])
    decreases |names| - i
  {
    if i < |names| {
      KeyTextFailedStep(s, names, i);
      KeyTextFailure(s, names, i + 1);
    } else {
      assert names[..i] == names;
    }
  }

  /** The key text over one more name whose field is present. */
  lemma KeyTextNext(s: Struct, names: seq<string>, i: nat, acc: string, d: Datum)
    requires i < |names| && KeyText(s, names[..i]) == Ok(acc) && Get(s, Trim(names[i])) == Ok(d)
    ensures KeyText(s, names[..i + 1]) == Ok(Appended(acc, d))
  {
    assert names[..i + 1][..i] == names[..i];
    KeyTextSnoc(s, names[..i + 1], acc, d);
  }

  /** The key text over one more name whose field is missing fails with the lookup's message. */
  lemma KeyTextNextErr(s: Struct, names: seq<string>, i: nat, acc: string, m: string)
    requires i < |names| && KeyText(s, names[..i]) == Ok(acc) && Get(s, Trim(names[i])) == Err(m)
    ensures KeyText(s, names[..i + 1]) == Err(m)
  {
    assert names[..i + 1][..i] == names[..i];
  }

  method BuildKafkaKey(s: Struct, spec: string) returns (r: Result<Option<string>>)
    ensures r == KeyOf(s, spec)
  {
    if spec == "" {
      return Ok(None);
    }
    var names := SplitDropping(spec, '+');
    var key := "";
    var i := 0;
    while i < |names|
      invariant 0 <= i <= |names|
      invariant KeyText(s, names[..i]) == Ok(key)
    {
      var part := Get(s, Trim(names[i]));
      if part.Err? {
        KeyTextNextErr(s, names, i, key, part.message);
        KeyTextFailure(s, names, i + 1);
        KeyOfErr(s, spec, part.message);
        return Err(part.message);
      }
      KeyTextNext(s, names, i, key, part.value);
      if !part.value.Null? {
        if |key| > 0 {
          key := key + "_";
        }
        key := key + DatumText(part.value);
      }
      i := i + 1;
    }
    assert names[..i] == names;
    KeyOfText(s, spec, key);
    r := Ok(if key == "" then None else Some(key));
  }

  // ---------------------------------------------------------------------
  // the key as a join

  /** The texts of the non-null values, in order. */
  function PresentTexts(ds: seq<Datum>): seq<string>
  {
    if |ds| == 0 then []
    else PresentTexts(ds[..|ds| - 1]) + if ds[|ds| - 1].Null? then [] else [DatumText(ds[|ds| - 1])]
  }

  /** The strings after the leading empty ones. */
  function DropLeadingEmpty(xs: seq<string>): (ys: seq<string>)
    ensures |ys| > 0 ==> ys[0] != ""
  {
    if |xs| > 0 && xs[0] == "" then DropLeadingEmpty(xs[1..]) else xs
  }

  lemma {:induction false} DropLeadingEmptySnoc(xs: seq<string>, x: string)
    ensures DropLeadingEmpty(xs + [x]) ==
            if DropLeadingEmpty(xs) == [] then (if x == "" then [] else [x]) else DropLeadingEmpty(xs) + [x]
  {
    if |xs| > 0 {
      assert (xs + [x])[1..] == xs[1..] + [x];
      if xs[0] == "" {
        DropLeadingEmptySnoc(xs[1..], x);
      }
    } else {
      assert xs + [x] == [x];
      assert [x][1..] == [];
    }
  }

  lemma {:induction false} JoinSnoc(xs: seq<string>, x: string, sep: string)
    requires |xs| > 0
    ensures Join(xs + [x], sep) == Join(xs, sep) + sep + x
  {
    if |xs| == 1 {
      assert xs + [x] == [xs[0]] + [x];
      JoinCons(xs[0], [x], sep);
    } else {
      assert xs + [x] == [xs[0]] + (xs[1..] + [x]);
      JoinCons(xs[0], xs[1..] + [x], sep);
      JoinSnoc(xs[1..], x, sep);
      JoinCons(xs[0], xs[1..], sep);
      assert xs == [xs[0]] + xs[1..];
    }
  }

  /** A join whose first string is non-empty is non-empty. */
  lemma JoinStartsWith(xs: seq<string>, sep: string)
    requires |xs| > 0
    ensures |Join(xs, sep)| >= |xs[0]|
  {
  }

  /**
   * The key text is the texts of the non-null values after the leading
   * empty ones, joined with "_": an empty text adds no separator before
   * the key's first character.
   */
  lemma {:induction false} KeyTextJoins(s: Struct, names: seq<string>)
    ensures KeyText(s, names) ==
            match KeyValues(s, names)
            case Err(m) => Err(m)
            case Ok(ds) => Ok(Join(DropLeadingEmpty(PresentTexts(ds)), "_"))
  {
    if |names| > 0 {
      var init := names[..|names| - 1];
      KeyTextJoins(s, init);
      var g := Get(s, Trim(names[|names| - 1]));
      if KeyValues(s, init).Ok? && g.Ok? {
        var ds := KeyValues(s, init).value;
        assert (ds + [g.value])[..|ds|] == ds;
        AppendedJoins(PresentTexts(ds), g.value);
      }
    }
  }

  /** One step of the key builder on a join is the join with one more value. */
  lemma AppendedJoins(before: seq<string>, d: Datum)
    ensures Appended(Join(DropLeadingEmpty(before), "_"), d) ==
            Join(DropLeadingEmpty(before + if d.Null? then [] else [DatumText(d)]), "_")
  {
    var drop := DropLeadingEmpty(before);
    if d.Null? {
      assert before + [] == before;
    } else {
      var x := DatumText(d);
      DropLeadingEmptySnoc(before, x);
      if drop != [] {
        JoinSnoc(drop, x, "_");
        JoinStartsWith(drop, "_");
      }
    }
  }

  /** With a non-empty specification whose fields all exist, there is no key exactly when every non-null value is empty. */
  lemma KeyAbsent(s: Struct, spec: string)
    requires spec != "" && KeyValues(s, SplitDropping(spec, '+')).Ok?
    ensures var texts := PresentTexts(KeyValues(s, SplitDropping(spec, '+')).value);
            KeyOf(s, spec) == Ok(None) <==> forall k :: 0 <= k < |texts| ==> texts[k] == ""
  {
    var names := SplitDropping(spec, '+');
    KeyTextJoins(s, names);
    var texts := PresentTexts(KeyValues(s, names).value);
    EmptyWhenAllDropped(texts);
    var drop := DropLeadingEmpty(texts);
    if drop != [] {
      JoinStartsWith(drop, "_");
    }
  }

  lemma {:induction false} EmptyWhenAllDropped(xs: seq<string>)
    ensures DropLeadingEmpty(xs) == [] <==> forall k :: 0 <= k < |xs| ==> xs[k] == ""
  {
    if |xs| > 0 && xs[0] == "" {
      EmptyWhenAllDropped(xs[1..]);
      assert forall k :: 1 <= k < |xs| ==> xs[k] == xs[1..][k - 1];
    }
  }

  // ---------------------------------------------------------------------
  // a line as a record model

  /**
   * `buildRecordModel` of the original task, which builds a fresh schema for
   * every line: in "json" mode the struct of the line's parts, otherwise
   * the line itself.
   */
  function ShapeLine(json: bool, tokenizer: string, headers: Option<seq<string>>, line: string): Result<RecordModel>
  {
    if !json then Ok(RecordModel(Line(line), StringSchema))
    else
      var parts := SplitLiteral(line, tokenizer);
      var fields := FieldsFor(headers, |parts|);
      match BuildFields(fields)
      case Err(m) => Err(m)
      case Ok(_) =>
        match PutAll(NewStruct(fields), headers, parts)
        case Err(m) => Err(m)
        case Ok(s) => Ok(RecordModel(Record(s), StructSchema(true, fields)))
  }

  /** The struct a json line is shaped into: its fields in order, each holding the trimmed part. */
  function LineStruct(headers: Option<seq<string>>, parts: seq<string>): Struct
  {
    Struct(FieldsFor(headers, |parts|), TrimmedTexts(parts))
  }

  /**
   * A line in string mode is passed through; in json mode it is shaped
   * exactly when its field names are non-empty and distinct, and then field
   * i holds the trimmed part i.
   */
  lemma ShapeLineMeaning(json: bool, tokenizer: string, headers: Option<seq<string>>, line: string)
    ensures !json ==> ShapeLine(json, tokenizer, headers, line) == Ok(RecordModel(Line(line), StringSchema))
    ensures json ==>
              var parts := SplitLiteral(line, tokenizer);
              var fields := FieldsFor(headers, |parts|);
              ShapeLine(json, tokenizer, headers, line) ==
                if DistinctNames(fields) then Ok(RecordModel(Record(LineStruct(headers, parts)), StructSchema(true, fields)))
                else Err(BuildFields(fields).message)
  {
    if json {
      var parts := SplitLiteral(line, tokenizer);
      if DistinctNames(FieldsFor(headers, |parts|)) {
        FreshFillAll(headers, parts);
      }
    }
  }

  /** Every field of a shaped line reads back as its trimmed part. */
  lemma ShapedFieldsReadBack(headers: Option<seq<string>>, parts: seq<string>, i: nat)
    requires i < |parts| && DistinctNames(FieldsFor(headers, |parts|))
    ensures Get(LineStruct(headers, parts), FieldName(headers, i)) == Ok(Text(Trim(parts[i])))
  {
    IndexOfDistinct(FieldsFor(headers, |parts|), i);
  }

  /** A line joined from parts free of a one-character tokenizer is shaped into exactly those parts. */
  lemma ShapeJoinedLine(headers: Option<seq<string>>, values: seq<string>, c: char)
    requires |values| >= 1 && forall k :: 0 <= k < |values| ==> c !in values[k]
    requires DistinctNames(FieldsFor(headers, |values|))
    ensures ShapeLine(true, [c], headers, Join(values, [c])) ==
            Ok(RecordModel(Record(LineStruct(headers, values)), StructSchema(true, FieldsFor(headers, |values|))))
  {
    SplitJoin(values, c);
    ShapeLineMeaning(true, [c], headers, Join(values, [c]));
  }

  /** Two names free of '+', the second non-empty, joined by '+' split back into the two. */
  lemma TwoNamesSplit(a: string, b: string)
    requires '+' !in a && '+' !in b && b != ""
    ensures SplitDropping(a + "+" + b, '+') == [a, b]
  {
    var names := [a, b];
    assert Join(names, "+") == a + "+" + b by {
      assert names[1..] == [b];
    }
    SplitJoin(names, '+');
    assert (a + "+" + b)[|a|] == '+';
  }

  /** One more name whose field is present appends its value to the key text. */
  lemma KeyTextSnoc(s: Struct, names: seq<string>, acc: string, d: Datum)
    requires |names| > 0
    requires KeyText(s, names[..|names| - 1]) == Ok(acc)
    requires Get(s, Trim(names[|names| - 1])) == Ok(d)
    ensures KeyText(s, names) == Ok(Appended(acc, d))
  {
  }

  /** A field present and holding a non-null text extends a key text by that text. */
  lemma AppendedText(acc: string, x: string)
    ensures Appended(acc, Text(x)) == if |acc| > 0 then acc + "_" + x else x
  {
  }

  lemma OneNameKeyText(s: Struct, a: string, x: string)
    requires Trim(a) == a && Get(s, a) == Ok(Text(x))
    ensures KeyText(s, [a]) == Ok(x)
  {
    assert [a][..0] == [];
    KeyTextSnoc(s, [a], "", Text(x));
    AppendedText("", x);
  }

  lemma TwoNamesKeyText(s: Struct, a: string, b: string, x: string, y: string)
    requires Trim(a) == a && Trim(b) == b
    requires Get(s, a) == Ok(Text(x)) && Get(s, b) == Ok(Text(y)) && x != ""
    ensures KeyText(s, [a, b]) == Ok(x + "_" + y)
  {
    OneNameKeyText(s, a, x);
    PairLast(s, a, b, x, Text(y));
    AppendedText(x, y);
  }

  lemma PairLast(s: Struct, a: string, b: string, acc: string, d: Datum)
    requires KeyText(s, [a]) == Ok(acc) && Get(s, Trim(b)) == Ok(d)
    ensures KeyText(s, [a, b]) == Ok(Appended(acc, d))
  {
    assert [a, b][..1] == [a];
  }

  /** A non-empty specification is keyed by the text its names build, none when that is empty. */
  lemma KeyOfText(s: Struct, spec: string, t: string)
    requires spec != "" && KeyText(s, SplitDropping(spec, '+')) == Ok(t)
    ensures KeyOf(s, spec) == Ok(if t == "" then None else Some(t))
  {
  }

  /** A non-empty specification whose names fail to build a text fails with the same message. */
  lemma KeyOfErr(s: Struct, spec: string, m: string)
    requires spec != "" && KeyText(s, SplitDropping(spec, '+')) == Err(m)
    ensures KeyOf(s, spec) == Err(m)
  {
  }

  /**
   * A key specified as "a+b" over two fields holding the texts x and y, x
   * non-empty, is "x_y".
   */
  lemma TwoFieldKey(s: Struct, a: string, b: string, x: string, y: string)
    requires '+' !in a && '+' !in b && b != ""
    requires Trim(a) == a && Trim(b) == b
    requires Get(s, a) == Ok(Text(x)) && Get(s, b) == Ok(Text(y)) && x != ""
    ensures KeyOf(s, a + "+" + b) == Ok(Some(x + "_" + y))
  {
    TwoNamesSplit(a, b);
    TwoNamesKeyText(s, a, b, x, y);
    assert |a + "+" + b| > 0 && |x + "_" + y| > 0;
    KeyOfText(s, a + "+" + b, x + "_" + y);
  }

  // ---------------------------------------------------------------------
  // the sample line of the tests

  const SampleHeaders: seq<string> := ["type", "date", "time", "code", "value"]
  const SampleValues: seq<string> := ["WB", "20250217", "1754", "284", "255"]

  lemma SampleLineJoined()
    ensures Join(SampleValues, ";") == "WB;20250217;1754;284;255"
  {
    JoinFive("WB", "20250217", "1754", "284", "255", ";");
    SampleLineTail();
    SampleLineHead();
  }

  lemma SampleLineTail()
    ensures "284" + ";" + "255" == "284;255" && "1754" + ";" + "284;255" == "1754;284;255"
  {
  }

  lemma SampleLineHead()
    ensures "WB" + ";" + ("20250217" + ";" + "1754;284;255") == "WB;20250217;1754;284;255"
  {
  }

  /** Five strings joined: each of them, with the separator in between. */
  lemma JoinFive(p: string, q: string, t: string, u: string, v: string, sep: string)
    ensures Join([p, q, t, u, v], sep) == p + sep + (q + sep + (t + sep + (u + sep + v)))
  {
    assert [u, v][1..] == [v];
    assert Join([u, v], sep) == u + sep + v;
    assert [t, u, v][1..] == [u, v];
    assert Join([t, u, v], sep) == t + sep + (u + sep + v);
    assert [q, t, u, v][1..] == [t, u, v];
    assert Join([q, t, u, v], sep) == q + sep + (t + sep + (u + sep + v));
    assert [p, q, t, u, v][1..] == [q, t, u, v];
  }

  lemma SampleValuesPlain()
    ensures forall k :: 0 <= k < 5 ==> ';' !in SampleValues[k] && Trim(SampleValues[k]) == SampleValues[k]
  {
    forall k | 0 <= k < 5 ensures ';' !in SampleValues[k] && Trim(SampleValues[k]) == SampleValues[k] {
      TrimOfTrimmed(SampleValues[k]);
    }
  }

  lemma SampleHeadersDistinct()
    ensures DistinctNames(FieldsFor(Some(SampleHeaders), 5))
  {
    var fs := FieldsFor(Some(SampleHeaders), 5);
    forall i, j | 0 <= i < j < 5 ensures fs[i].name != fs[j].name {
      assert fs[i].name[0] != fs[j].name[0] || fs[i].name[1] != fs[j].name[1];
    }
  }

  /** "WB;20250217;1754;284;255" under the headers type, date, time, code, value holds each value under its header. */
  lemma SampleLineShaped()
    ensures ShapeLine(true, ";", Some(SampleHeaders), "WB;20250217;1754;284;255") ==
            Ok(RecordModel(Record(LineStruct(Some(SampleHeaders), SampleValues)),
                           StructSchema(true, FieldsFor(Some(SampleHeaders), 5))))
  {
    SampleLineJoined();
    SampleValuesPlain();
    SampleHeadersDistinct();
    ShapeJoinedLine(Some(SampleHeaders), SampleValues, ';');
  }

  lemma SampleKeySpec()
    ensures "type" + "+" + "code" == "type+code"
    ensures "WB" + "_" + "284" == "WB_284"
  {
  }

  lemma SampleTypeField()
    ensures Get(LineStruct(Some(SampleHeaders), SampleValues), "type") == Ok(Text("WB"))
  {
    SampleHeadersDistinct();
    ShapedFieldsReadBack(Some(SampleHeaders), SampleValues, 0);
    TrimOfTrimmed("WB");
  }

  lemma SampleCodeField()
    ensures Get(LineStruct(Some(SampleHeaders), SampleValues), "code") == Ok(Text("284"))
  {
    SampleHeadersDistinct();
    ShapedFieldsReadBack(Some(SampleHeaders), SampleValues, 3);
    TrimOfTrimmed("284");
  }

  lemma SampleKeyNames()
    ensures '+' !in "type" && '+' !in "code" && Trim("type") == "type" && Trim("code") == "code"
  {
    TrimOfTrimmed("type");
    TrimOfTrimmed("code");
  }

  /** The composite key "type+code" of the sample line is "WB_284". */
  lemma SampleKey()
    ensures KeyOf(LineStruct(Some(SampleHeaders), SampleValues), "type+code") == Ok(Some("WB_284"))
  {
    SampleTypeField();
    SampleCodeField();
    SampleKeyNames();
    SampleKeySpec();
    TwoFieldKey(LineStruct(Some(SampleHeaders), SampleValues), "type", "code", "WB", "284");
  }
}
