/**
 * `ConfigurableValidator`: a rule configuration such as
 * "amount:numeric,name:not_empty,code:length_max(5)" is parsed into a list
 * of rules per field, and a struct is validated by running every rule of
 * every configured field and collecting one message per failure.
 *
 * The configuration is cut at every ',' before parentheses are looked at,
 * so a rule text never holds a ',' and never has two parameters: `range`
 * cannot be configured (see `RangeUnreachable`).
 */
module ConfigurableValidators {
  import opened Wrappers
  import opened JavaStrings
  import opened ValidationRules
  import opened ValidationResults
  import opened ConnectData

  /** The pattern of a `date` rule given without a parameter. */
  const DefaultDatePattern := "yyyyMMdd"

  // ---------------------------------------------------------------------
  // parseRule

  /** Each parameter trimmed. */
  function TrimAll(xs: seq<string>): (ys: seq<string>)
    ensures |ys| == |xs| && forall k :: 0 <= k < |xs| ==> ys[k] == Trim(xs[k])
  {
    seq(|xs|, k requires 0 <= k < |xs| => Trim(xs[k]))
  }

  /**
   * The rule a lower-cased rule name selects with the given parameters.
   * None stands for the `null` of an unknown name, of a missing parameter,
   * of a parameter that does not parse and of a date pattern the formatter
   * refuses (its exception is caught).
   */
  function Select(name: string, params: seq<string>, lib: JavaLibrary): Option<Rule>
  {
    if name == "not_empty" then Some(NotEmpty)
    else if name == "numeric" then Some(Numeric)
    else if name == "integer" then Some(Integer)
    else if name == "email" then Some(Email)
    else if name == "date" then
      var p := if |params| > 0 then params[0] else DefaultDatePattern;
      if lib.datePatternValid(p) then Some(Date(p)) else None
    else if name == "length_min" then
      if |params| > 0 && ParseInt(params[0]).Some? then Some(LengthMin(ParseInt(params[0]).value)) else None
    else if name == "length_max" then
      if |params| > 0 && ParseInt(params[0]).Some? then Some(LengthMax(ParseInt(params[0]).value)) else None
    else if name == "range" then
      if |params| >= 2 && ParseDecimal(params[0]).Some? && ParseDecimal(params[1]).Some? then
        Some(Range(ParseDecimal(params[0]).value, ParseDecimal(params[1]).value))
      else None
    else if name == "pattern" then
      if |params| > 0 then Some(Pattern(params[0])) else None
    else None
  }

  /** The message of the StringIndexOutOfBoundsException of `substring(begin, end)`. */
  function SubstringMessage(begin: int, end: int, length: int): string
  {
    "begin " + IntToString(begin) + ", end " + IntToString(end) + ", length " + IntToString(length)
  }

  /** `paramsStr.split(",")`, each part trimmed. */
  function Params(text: string): (ps: seq<string>)
    ensures ',' !in text ==> ps == [Trim(text)]
  {
    TrimAll(SplitDropping(text, ','))
  }

  /**
   * The name and the parameter text of a rule text: the name is the text
   * before the first '(' when that is not the first character, and the
   * parameter text lies between it and the last character. A '(' as the
   * last character makes `substring` throw, before the exception handler
   * of `parseRule`: `Err`.
   */
  function RuleParts(spec: string): (r: Result<(string, Option<string>)>)
    ensures r.Err? <==> 0 < IndexOf(spec, '(') == |spec| - 1
  {
    var p := IndexOf(spec, '(');
    if p > 0 then
      if p == |spec| - 1 then Err(SubstringMessage(p + 1, |spec| - 1, |spec|))
      else Ok((spec[..p], Some(spec[p + 1..|spec| - 1])))
    else Ok((spec, None))
  }

  /** `parseRule`: the rule the lower-cased name selects with the parameters. */
  function ParseRule(spec: string, lib: JavaLibrary): (r: Result<Option<Rule>>)
    ensures r.Err? <==> 0 < IndexOf(spec, '(') == |spec| - 1
  {
    match RuleParts(spec)
    case Err(m) => Err(m)
    case Ok((name, text)) => Ok(Select(ToLower(name), if text.Some? then Params(text.value) else [], lib))
  }

  // ---------------------------------------------------------------------
  // the rule table

  /** The field-to-rules map, with its fields in the order they were first configured. */
  datatype RuleTable = RuleTable(fields: seq<string>, rules: map<string, seq<Rule>>)

  function EmptyTable(): RuleTable
  {
    RuleTable([], map[])
  }

  /** The fields are distinct and are exactly the keys of the map. */
  ghost predicate WellFormed(t: RuleTable)
  {
    (forall i, j :: 0 <= i < j < |t.fields| ==> t.fields[i] != t.fields[j]) &&
    (forall f :: f in t.rules <==> f in t.fields)
  }

  /** `rules.computeIfAbsent(field, k -> new ArrayList<>()).add(rule)`. */
  function AddRule(t: RuleTable, field: string, rule: Rule): RuleTable
  {
    if field in t.rules then t.(rules := t.rules[field := t.rules[field] + [rule]])
    else RuleTable(t.fields + [field], t.rules[field := [rule]])
  }

  /** The table the (field, rule) entries build, added in order. */
  function TableOf(entries: seq<(string, Rule)>): RuleTable
  {
    if |entries| == 0 then EmptyTable()
    else
      var last := entries[|entries| - 1];
      AddRule(TableOf(entries[..|entries| - 1]), last.0, last.1)
  }

  /** The rules configured for `field`, in configuration order. */
  function RulesFor(entries: seq<(string, Rule)>, field: string): seq<Rule>
  {
    if |entries| == 0 then []
    else
      var last := entries[|entries| - 1];
      RulesFor(entries[..|entries| - 1], field) + if last.0 == field then [last.1] else []
  }

  /**
   * The table holds a field exactly when some entry names it, and then its
   * rules are that field's entries in configuration order.
   */
  lemma {:induction false} TableOfRules(entries: seq<(string, Rule)>)
    ensures WellFormed(TableOf(entries))
    ensures forall f :: f in TableOf(entries).rules <==> RulesFor(entries, f) != []
    ensures forall f :: f in TableOf(entries).rules ==> TableOf(entries).rules[f] == RulesFor(entries, f)
  {
    if |entries| > 0 {
      var init, e := entries[..|entries| - 1], entries[|entries| - 1];
      var t := TableOf(init);
      TableOfRules(init);
      AddRuleKeeps(t, e.0, e.1);
      var u := AddRule(t, e.0, e.1);
      assert TableOf(entries) == u;
      forall f
        ensures (f in u.rules <==> RulesFor(entries, f) != [])
        ensures f in u.rules ==> u.rules[f] == RulesFor(entries, f)
      {
        assert RulesFor(entries, f) == RulesFor(init, f) + if e.0 == f then [e.1] else [];
      }
    }
  }

  lemma AddRuleKeeps(t: RuleTable, field: string, rule: Rule)
    requires WellFormed(t)
    ensures WellFormed(AddRule(t, field, rule))
  {
    if field !in t.rules {
      var fs := t.fields + [field];
      assert forall i :: 0 <= i < |t.fields| ==> fs[i] == t.fields[i];
    }
  }

  // ---------------------------------------------------------------------
  // parseRules

  /** A null configuration, or one of trimmable characters only. */
  predicate Blank(config: Option<string>)
  {
    config.None? || Trim(config.value) == ""
  }

  /** `rulesConfig.split(",")`. */
  function Fragments(config: string): seq<string>
  {
    SplitDropping(config, ',')
  }

  /**
   * What one fragment contributes: nothing without a ':', otherwise the
   * trimmed field name and the rule parsed from the trimmed text after the
   * first ':' (nothing when that yields no rule).
   */
  function FragmentEntry(fragment: string, lib: JavaLibrary): Result<Option<(string, Rule)>>
  {
    match SplitFirst(Trim(fragment), ':')
    case None => Ok(None)
    case Some((field, spec)) =>
      match ParseRule(Trim(spec), lib)
      case Err(m) => Err(m)
      case Ok(None) => Ok(None)
      case Ok(Some(rule)) => Ok(Some((Trim(field), rule)))
  }

  /** The entries of the fragments in order; the first exception aborts. */
  function Entries(fragments: seq<string>, lib: JavaLibrary): Result<seq<(string, Rule)>>
  {
    if |fragments| == 0 then Ok([])
    else
      match Entries(fragments[..|fragments| - 1], lib)
      case Err(m) => Err(m)
      case Ok(es) =>
        match FragmentEntry(fragments[|fragments| - 1], lib)
        case Err(m) => Err(m)
        case Ok(None) => Ok(es)
        case Ok(Some(e)) => Ok(es + [e])
  }

  /** The rule table `parseRules` builds from a configuration. */
  function RulesOf(config: Option<string>, lib: JavaLibrary): Result<RuleTable>
  {
    if Blank(config) then Ok(EmptyTable())
    else
      match Entries(Fragments(config.value), lib)
      case Err(m) => Err(m)
      case Ok(es) => Ok(TableOf(es))
  }

  /** Once a prefix of the fragments fails, so do all of them, with the same exception. */
  lemma {:induction false} EntriesFailure(fragments: seq<string>, i: nat, lib: JavaLibrary)
    requires i <= |fragments|
    requires Entries(fragments[..i], lib).Err?
    ensures Entries(fragments, lib) == Entries(fragments[..i], lib)
    decreases |fragments| - i
  {
    if i < |fragments| {
      EntriesFailedStep(fragments, i, lib);
      EntriesFailure(fragments, i + 1, lib);
    } else {
      assert fragments[..i] == fragments;
    }
  }

  lemma EntriesFailedStep(fragments: seq<string>, i: nat, lib: JavaLibrary)
    requires i < |fragments| && Entries(fragments[..i], lib).Err?
    ensures Entries(fragments[..i + 1], lib) == Entries(fragments[..i], lib)
  {
    assert fragments[..i + 1][..i] == fragments[..i];
  }

  /** One more fragment adds its entry, if any, to the entries before it. */
  lemma EntriesStep(fragments: seq<string>, i: nat, lib: JavaLibrary)
    requires i < |fragments|
    ensures Entries(fragments[..i + 1], lib) ==
            match Entries(fragments[..i], lib)
            case Err(m) => Err(m)
            case Ok(es) =>
              match FragmentEntry(fragments[i], lib)
              case Err(m) => Err(m)
              case Ok(None) => Ok(es)
              case Ok(Some(e)) => Ok(es + [e])
  {
    assert fragments[..i + 1][..i] == fragments[..i];
  }

  lemma TableOfSnoc(entries: seq<(string, Rule)>, e: (string, Rule))
    ensures TableOf(entries + [e]) == AddRule(TableOf(entries), e.0, e.1)
  {
    assert (entries + [e])[..|entries|] == entries;
  }

  /**
   * `parseRules`: the loop over the fragments that adds each fragment's
   * rule to its field's list (`computeIfAbsent(..).add`).
   */
  method ParseRules(config: Option<string>, lib: JavaLibrary) returns (r: Result<RuleTable>)
    ensures r == RulesOf(config, lib)
  {
    if config.None? || Trim(config.value) == "" {
      return Ok(EmptyTable());
    }
    var fragments := SplitDropping(config.value, ',');
    var table := EmptyTable();
    ghost var entries: seq<(string, Rule)> := [];
    var i := 0;
    while i < |fragments|
      invariant 0 <= i <= |fragments|
      invariant Entries(fragments[..i], lib) == Ok(entries)
      invariant table == TableOf(entries)
    {
      EntriesStep(fragments, i, lib);
      var entry := FragmentEntry(fragments[i], lib);
      if entry.Err? {
        EntriesFailure(fragments, i + 1, lib);
        return Err(entry.message);
      }
      if entry.value.Some? {
        var (fieldName, rule) := entry.value.value;
        TableOfSnoc(entries, (fieldName, rule));
        table := AddRule(table, fieldName, rule);
        entries := entries + [(fieldName, rule)];
      }
      i := i + 1;
    }
    assert fragments[..i] == fragments;
    return Ok(table);
  }

  // ---------------------------------------------------------------------
  // validate

  /** The rules of a configured field. */
  function FieldRules(t: RuleTable, field: string): seq<Rule>
  {
    if field in t.rules then t.rules[field] else []
  }

  /** A rule sees a null value as null and any other value as its `toString`. */
  function RuleInput(d: Datum): Option<string>
  {
    if d.Null? then None else Some(DatumText(d))
  }

  function MissingMessage(field: string): string
  {
    "Field '" + field + "' does not exist in record"
  }

  function FailureMessage(field: string, rule: Rule, value: Datum, lib: JavaLibrary): string
  {
    "Field '" + field + "' validation '" + Name(rule) + "' failed: " + Message(rule, lib)
      + " (value='" + DatumText(value) + "')"
  }

  /** The messages of the failing rules of a present field, in rule order; a rule that throws aborts. */
  function RuleErrors(field: string, rules: seq<Rule>, value: Datum, lib: JavaLibrary): Result<seq<string>>
  {
    if |rules| == 0 then Ok([])
    else
      var last := rules[|rules| - 1];
      match RuleErrors(field, rules[..|rules| - 1], value, lib)
      case Err(m) => Err(m)
      case Ok(es) =>
        match IsValid(last, RuleInput(value), lib)
        case Err(m) => Err(m)
        case Ok(ok) => Ok(if ok then es else es + [FailureMessage(field, last, value, lib)])
  }

  /** The messages one configured field adds: one when the record lacks it, else its failing rules'. */
  function FieldErrors(field: string, rules: seq<Rule>, record: Struct, lib: JavaLibrary): Result<seq<string>>
  {
    match Get(record, field)
    case Err(_) => Ok([MissingMessage(field)])
    case Ok(v) => RuleErrors(field, rules, v, lib)
  }

  /** The messages of the given fields, in order. */
  function ErrorsOf(t: RuleTable, fields: seq<string>, record: Struct, lib: JavaLibrary): Result<seq<string>>
  {
    if |fields| == 0 then Ok([])
    else
      var last := fields[|fields| - 1];
      match ErrorsOf(t, fields[..|fields| - 1], record, lib)
      case Err(m) => Err(m)
      case Ok(es) =>
        match FieldErrors(last, FieldRules(t, last), record, lib)
        case Err(m) => Err(m)
        case Ok(more) => Ok(es + more)
  }

  /** `validate`: valid when there is no message, otherwise invalid with all of them. */
  function ValidationOf(t: RuleTable, record: Struct, lib: JavaLibrary): Result<ValidationResult>
  {
    match ErrorsOf(t, t.fields, record, lib)
    case Err(m) => Err(m)
    case Ok(es) => Ok(if es == [] then Valid() else InvalidAll(Some(es)))
  }

  lemma {:induction false} RuleErrorsFailure(field: string, rules: seq<Rule>, j: nat, value: Datum, lib: JavaLibrary)
    requires j <= |rules|
    requires RuleErrors(field, rules[..j], value, lib).Err?
    ensures RuleErrors(field, rules, value, lib) == RuleErrors(field, rules[..j], value, lib)
    decreases |rules| - j
  {
    if j < |rules| {
      assert rules[..j + 1][..j] == rules[..j];
      RuleErrorsFailure(field, rules, j + 1, value, lib);
    } else {
      assert rules[..j] == rules;
    }
  }

  lemma {:induction false} ErrorsFailure(t: RuleTable, fields: seq<string>, i: nat, record: Struct, lib: JavaLibrary)
    requires i <= |fields|
    requires ErrorsOf(t, fields[..i], record, lib).Err?
    ensures ErrorsOf(t, fields, record, lib) == ErrorsOf(t, fields[..i], record, lib)
    decreases |fields| - i
  {
    if i < |fields| {
      assert fields[..i + 1][..i] == fields[..i];
      ErrorsFailure(t, fields, i + 1, record, lib);
    } else {
      assert fields[..i] == fields;
    }
  }

  /** The messages of the failing rules of one present field, as the inner loop collects them. */
  method CheckField(field: string, rules: seq<Rule>, value: Datum, lib: JavaLibrary) returns (r: Result<seq<string>>)
    ensures r == RuleErrors(field, rules, value, lib)
  {
    var errors: seq<string> := [];
    var j := 0;
    while j < |rules|
      invariant 0 <= j <= |rules|
      invariant RuleErrors(field, rules[..j], value, lib) == Ok(errors)
    {
      assert rules[..j + 1][..j] == rules[..j];
      var ok := IsValid(rules[j], RuleInput(value), lib);
      if ok.Err? {
        RuleErrorsFailure(field, rules, j + 1, value, lib);
        return Err(ok.message);
      }
      if !ok.value {
        errors := errors + [FailureMessage(field, rules[j], value, lib)];
      }
      j := j + 1;
    }
    assert rules[..j] == rules;
    return Ok(errors);
  }

  /** A well-formed table with fields has rules for its first field. */
  lemma FirstFieldHasRules(t: RuleTable)
    requires WellFormed(t)
    ensures |t.fields| > 0 ==> t.fields[0] in t.rules
  {
    assert |t.fields| > 0 ==> t.fields[0] in t.fields;
  }

  /** One more field adds its messages to those of the fields before it. */
  lemma ErrorsStep(t: RuleTable, fields: seq<string>, i: nat, record: Struct, lib: JavaLibrary)
    requires i < |fields|
    ensures ErrorsOf(t, fields[..i + 1], record, lib) ==
            match ErrorsOf(t, fields[..i], record, lib)
            case Err(m) => Err(m)
            case Ok(es) =>
              match FieldErrors(fields[i], FieldRules(t, fields[i]), record, lib)
              case Err(m) => Err(m)
              case Ok(more) => Ok(es + more)
  {
    assert fields[..i + 1][..i] == fields[..i];
  }

  /** `validate`, as its loop over the configured fields. */
  method Validate(t: RuleTable, record: Struct, lib: JavaLibrary) returns (r: Result<ValidationResult>)
    requires WellFormed(t)
    ensures r == ValidationOf(t, record, lib)
  {
    if t.rules == map[] {
      FirstFieldHasRules(t);
      return Ok(Valid());
    }
    var errors: seq<string> := [];
    var i := 0;
    while i < |t.fields|
      invariant 0 <= i <= |t.fields|
      invariant ErrorsOf(t, t.fields[..i], record, lib) == Ok(errors)
    {
      ErrorsStep(t, t.fields, i, record, lib);
      var field := t.fields[i];
      var value := Get(record, field);
      if value.Err? {
        errors := errors + [MissingMessage(field)];
      } else {
        var more := CheckField(field, FieldRules(t, field), value.value, lib);
        if more.Err? {
          ErrorsFailure(t, t.fields, i + 1, record, lib);
          return Err(more.message);
        }
        errors := errors + more.value;
      }
      i := i + 1;
    }
    assert t.fields[..i] == t.fields;
    return if errors == [] then Ok(Valid()) else Ok(InvalidAll(Some(errors)));
  }

  // ---------------------------------------------------------------------
  // properties

  /** A null or blank configuration has no rules, and then every record is valid. */
  lemma BlankConfigurationAcceptsAll(config: Option<string>, record: Struct, lib: JavaLibrary)
    requires Blank(config)
    ensures RulesOf(config, lib) == Ok(EmptyTable())
    ensures ValidationOf(EmptyTable(), record, lib) == Ok(Valid())
  {
  }

  /** A field passes when the record has it and every one of its rules holds. */
  predicate FieldPasses(field: string, rules: seq<Rule>, record: Struct, lib: JavaLibrary)
  {
    Get(record, field).Ok? &&
    forall k :: 0 <= k < |rules| ==> IsValid(rules[k], RuleInput(Get(record, field).value), lib) == Ok(true)
  }

  lemma {:induction false} RuleErrorsEmpty(field: string, rules: seq<Rule>, value: Datum, lib: JavaLibrary)
    requires RuleErrors(field, rules, value, lib).Ok?
    ensures RuleErrors(field, rules, value, lib).value == [] <==>
            forall k :: 0 <= k < |rules| ==> IsValid(rules[k], RuleInput(value), lib) == Ok(true)
  {
    if |rules| > 0 {
      var init := rules[..|rules| - 1];
      RuleErrorsEmpty(field, init, value, lib);
      assert forall k :: 0 <= k < |init| ==> init[k] == rules[k];
    }
  }

  lemma {:induction false} ErrorsEmpty(t: RuleTable, fields: seq<string>, record: Struct, lib: JavaLibrary)
    requires ErrorsOf(t, fields, record, lib).Ok?
    ensures ErrorsOf(t, fields, record, lib).value == [] <==>
            forall k :: 0 <= k < |fields| ==> FieldPasses(fields[k], FieldRules(t, fields[k]), record, lib)
  {
    if |fields| > 0 {
      var init := fields[..|fields| - 1];
      var last := fields[|fields| - 1];
      ErrorsEmpty(t, init, record, lib);
      assert forall k :: 0 <= k < |init| ==> init[k] == fields[k];
      if Get(record, last).Ok? {
        RuleErrorsEmpty(last, FieldRules(t, last), Get(record, last).value, lib);
      }
    }
  }

  /**
   * A record is valid exactly when it has every configured field and every
   * rule of every field holds; otherwise the result lists the messages.
   */
  lemma ValidExactlyWhenAllPass(t: RuleTable, record: Struct, lib: JavaLibrary)
    requires ValidationOf(t, record, lib).Ok?
    ensures ValidationOf(t, record, lib).value.valid <==>
            forall k :: 0 <= k < |t.fields| ==> FieldPasses(t.fields[k], FieldRules(t, t.fields[k]), record, lib)
    ensures !ValidationOf(t, record, lib).value.valid ==>
            ValidationOf(t, record, lib).value.errors == ErrorsOf(t, t.fields, record, lib).value != []
  {
    ErrorsEmpty(t, t.fields, record, lib);
  }

  /**
   * A configured field the record lacks adds exactly the one message that
   * names it, whatever its rules; a present field adds no more messages
   * than it has rules.
   */
  lemma {:induction false} FieldMessages(field: string, rules: seq<Rule>, record: Struct, lib: JavaLibrary)
    requires FieldErrors(field, rules, record, lib).Ok?
    ensures Get(record, field).Err? ==> FieldErrors(field, rules, record, lib).value == [MissingMessage(field)]
    ensures Get(record, field).Ok? ==> |FieldErrors(field, rules, record, lib).value| <= |rules|
  {
    if Get(record, field).Ok? {
      RuleErrorsBound(field, rules, Get(record, field).value, lib);
    }
  }

  lemma {:induction false} RuleErrorsBound(field: string, rules: seq<Rule>, value: Datum, lib: JavaLibrary)
    requires RuleErrors(field, rules, value, lib).Ok?
    ensures |RuleErrors(field, rules, value, lib).value| <= |rules|
  {
    if |rules| > 0 {
      RuleErrorsBound(field, rules[..|rules| - 1], value, lib);
    }
  }

  /** The rules of every field come from the configuration's entries, in configuration order. */
  lemma ConfiguredRulesInOrder(config: string, lib: JavaLibrary)
    requires !Blank(Some(config)) && RulesOf(Some(config), lib).Ok?
    ensures Entries(Fragments(config), lib).Ok?
    ensures var t := RulesOf(Some(config), lib).value;
            var es := Entries(Fragments(config), lib).value;
            WellFormed(t) &&
            (forall f :: f in t.rules <==> RulesFor(es, f) != []) &&
            (forall f :: f in t.rules ==> t.rules[f] == RulesFor(es, f))
  {
    TableOfRules(Entries(Fragments(config), lib).value);
  }

  // ---------------------------------------------------------------------
  // the rule grammar

  /** The names the switch of `parseRule` knows. */
  predicate KnownName(name: string)
  {
    name in {"not_empty", "numeric", "integer", "email", "date", "length_min", "length_max", "range", "pattern"}
  }

  /** An unknown name yields no rule, whatever its parameters. */
  lemma UnknownNameNoRule(name: string, params: seq<string>, lib: JavaLibrary)
    requires !KnownName(name)
    ensures Select(name, params, lib) == None
  {
  }

  /**
   * A spec without parentheses has no parameters: `date` falls back to
   * "yyyyMMdd", and the rules that need a parameter yield nothing.
   */
  lemma WithoutParameters(spec: string, lib: JavaLibrary)
    requires '(' !in spec
    ensures RuleParts(spec) == Ok((spec, None))
    ensures ToLower(spec) == "date" ==>
              ParseRule(spec, lib) == Ok(if lib.datePatternValid(DefaultDatePattern) then Some(Date(DefaultDatePattern)) else None)
    ensures ToLower(spec) in {"length_min", "length_max", "pattern", "range"} ==> ParseRule(spec, lib) == Ok(None)
  {
  }

  /**
   * `name(arg)` with a non-empty name and an argument without ',' has the
   * name `name` and the single parameter `arg`, trimmed.
   */
  lemma OneParameter(name: string, arg: string)
    requires |name| > 0 && '(' !in name && ',' !in arg
    ensures RuleParts(name + "(" + arg + ")") == Ok((name, Some(arg)))
    ensures Params(arg) == [Trim(arg)]
  {
    var spec := name + "(" + arg + ")";
    assert spec == name + ['('] + (arg + ")");
    IndexOfJoined(name, '(', arg + ")");
    assert spec[|name| + 1..|spec| - 1] == arg;
  }

  /** With one parameter, `length_min` needs it to parse as an int, and `range` yields nothing. */
  lemma OneParameterRules(name: string, arg: string, lib: JavaLibrary)
    requires |name| > 0 && '(' !in name && ',' !in arg
    ensures ToLower(name) == "length_min" ==>
              ParseRule(name + "(" + arg + ")", lib) ==
              Ok(if ParseInt(Trim(arg)).Some? then Some(LengthMin(ParseInt(Trim(arg)).value)) else None)
    ensures ToLower(name) == "range" ==> ParseRule(name + "(" + arg + ")", lib) == Ok(None)
  {
    OneParameter(name, arg);
  }

  /** The parts of a rule text whose first '(' is inside it. */
  lemma RulePartsAt(spec: string, p: int)
    requires IndexOf(spec, '(') == p && 0 < p < |spec| - 1
    ensures RuleParts(spec) == Ok((spec[..p], Some(spec[p + 1..|spec| - 1])))
  {
  }

  /** Two rule texts whose parts agree up to the case of the name parse to the same outcome. */
  lemma ParseRuleOfParts(s1: string, s2: string, lib: JavaLibrary)
    requires RuleParts(s1).Err? ==> RuleParts(s2) == RuleParts(s1)
    requires RuleParts(s1).Ok? ==> RuleParts(s2).Ok? && RuleParts(s2).value.1 == RuleParts(s1).value.1
                                   && ToLower(RuleParts(s2).value.0) == ToLower(RuleParts(s1).value.0)
    ensures ParseRule(s1, lib) == ParseRule(s2, lib)
  {
  }

  /** Where the name of a rule text ends: at its first '(', or at its end. */
  function NameEnd(spec: string): (n: nat)
    ensures n <= |spec|
    ensures '(' in spec ==> n < |spec| && spec[n] == '('
  {
    var p := IndexOf(spec, '(');
    if p == -1 then |spec| else p
  }

  /** Two rule texts that differ at most in the case of the letters of their names. */
  predicate SameButNameCase(s1: string, s2: string)
  {
    |s1| == |s2| && NameEnd(s1) == NameEnd(s2)
    && ToLower(s1[..NameEnd(s1)]) == ToLower(s2[..NameEnd(s2)])
    && s1[NameEnd(s1)..] == s2[NameEnd(s2)..]
  }

  /** Such texts have the same parameter text and names equal up to case. */
  lemma PartsAgree(s1: string, s2: string)
    requires SameButNameCase(s1, s2)
    ensures RuleParts(s1).Err? ==> RuleParts(s2) == RuleParts(s1)
    ensures RuleParts(s1).Ok? ==>
              RuleParts(s2).Ok? && RuleParts(s2).value.1 == RuleParts(s1).value.1
              && ToLower(RuleParts(s2).value.0) == ToLower(RuleParts(s1).value.0)
  {
    var p := IndexOf(s1, '(');
    if p == -1 {
      assert s1[..|s1|] == s1 && s2[..|s2|] == s2;
    } else if p == 0 {
      assert s1 == s1[0..] && s2 == s2[0..];
    } else if p < |s1| - 1 {
      var n := |s1| - 1;
      forall k | p + 1 <= k < n ensures s1[k] == s2[k] {
        assert s1[k] == s1[p..][k - p] && s2[k] == s2[p..][k - p];
      }
      assert s1[p + 1..n] == s2[p + 1..n];
    }
  }

  /** Rule names are matched whatever the case of their letters. */
  lemma RuleNamesIgnoreCase(s1: string, s2: string, lib: JavaLibrary)
    requires SameButNameCase(s1, s2)
    ensures ParseRule(s1, lib) == ParseRule(s2, lib)
  {
    PartsAgree(s1, s2);
    ParseRuleOfParts(s1, s2, lib);
  }

  // ---------------------------------------------------------------------
  // `range` cannot be configured

  predicate NoRangeEntry(entries: seq<(string, Rule)>)
  {
    forall k :: 0 <= k < |entries| ==> !entries[k].1.Range?
  }

  predicate NoRangeRule(t: RuleTable)
  {
    forall f :: f in t.rules ==> forall k :: 0 <= k < |t.rules[f]| ==> !t.rules[f][k].Range?
  }

  /** No fragment of the configuration holds a ','. */
  lemma FragmentsHaveNoComma(config: string, k: nat)
    requires k < |Fragments(config)|
    ensures ',' !in Fragments(config)[k]
  {
    if ',' in config {
      NoCharInSplitOn(config, ',', k);
    }
  }

  /** A rule text without ',' has at most one parameter, so it is never a `range`. */
  lemma CommaFreeSpecNoRange(spec: string, lib: JavaLibrary)
    requires ',' !in spec
    ensures ParseRule(spec, lib).Ok? && ParseRule(spec, lib).value.Some? ==> !ParseRule(spec, lib).value.value.Range?
  {
    var p := IndexOf(spec, '(');
    if 0 < p < |spec| - 1 {
      NotInSlice(spec, ',', p + 1, |spec| - 1);
      assert RuleParts(spec) == Ok((spec[..p], Some(spec[p + 1..|spec| - 1])));
      assert |Params(spec[p + 1..|spec| - 1])| == 1;
    }
    match RuleParts(spec)
    case Err(_) =>
    case Ok((name, text)) =>
      FewParametersNoRange(ToLower(name), if text.Some? then Params(text.value) else [], lib);
  }

  /** `range` needs two parameters. */
  lemma FewParametersNoRange(name: string, params: seq<string>, lib: JavaLibrary)
    requires |params| < 2
    ensures Select(name, params, lib).Some? ==> !Select(name, params, lib).value.Range?
  {
  }

  lemma CommaFreeFragmentNoRange(fragment: string, lib: JavaLibrary)
    requires ',' !in fragment
    ensures FragmentEntry(fragment, lib).Ok? && FragmentEntry(fragment, lib).value.Some? ==>
            !FragmentEntry(fragment, lib).value.value.1.Range?
  {
    NotInTrim(fragment, ',');
    var parts := SplitFirst(Trim(fragment), ':');
    if parts.Some? {
      assert Trim(fragment) == parts.value.0 + [':'] + parts.value.1;
      assert ',' !in parts.value.1;
      NotInTrim(parts.value.1, ',');
      CommaFreeSpecNoRange(Trim(parts.value.1), lib);
    }
  }

  lemma {:induction false} EntriesNoRange(fragments: seq<string>, lib: JavaLibrary)
    requires forall k :: 0 <= k < |fragments| ==> ',' !in fragments[k]
    requires Entries(fragments, lib).Ok?
    ensures NoRangeEntry(Entries(fragments, lib).value)
  {
    if |fragments| > 0 {
      var init, last := fragments[..|fragments| - 1], fragments[|fragments| - 1];
      assert forall k :: 0 <= k < |init| ==> init[k] == fragments[k];
      EntriesOkStep(fragments, lib);
      EntriesNoRange(init, lib);
      CommaFreeFragmentNoRange(last, lib);
      NoRangeSnoc(Entries(init, lib).value, FragmentEntry(last, lib).value);
    }
  }

  lemma NoRangeSnoc(es: seq<(string, Rule)>, e: Option<(string, Rule)>)
    requires NoRangeEntry(es) && (e.Some? ==> !e.value.1.Range?)
    ensures NoRangeEntry(es + if e.Some? then [e.value] else [])
  {
    if e.Some? {
      assert forall k :: 0 <= k < |es| ==> (es + [e.value])[k] == es[k];
    }
  }

  /** A successful parse of the fragments is that of all but the last, plus the last one's entry. */
  lemma EntriesOkStep(fragments: seq<string>, lib: JavaLibrary)
    requires |fragments| > 0 && Entries(fragments, lib).Ok?
    ensures Entries(fragments[..|fragments| - 1], lib).Ok?
    ensures FragmentEntry(fragments[|fragments| - 1], lib).Ok?
    ensures var e := FragmentEntry(fragments[|fragments| - 1], lib).value;
            Entries(fragments, lib).value ==
              Entries(fragments[..|fragments| - 1], lib).value + if e.Some? then [e.value] else []
  {
  }

  lemma {:induction false} RulesForNoRange(entries: seq<(string, Rule)>, field: string)
    requires NoRangeEntry(entries)
    ensures forall k :: 0 <= k < |RulesFor(entries, field)| ==> !RulesFor(entries, field)[k].Range?
  {
    if |entries| > 0 {
      var init := entries[..|entries| - 1];
      assert forall k :: 0 <= k < |init| ==> init[k] == entries[k];
      RulesForNoRange(init, field);
    }
  }

  /**
   * Whatever the configuration, no field gets a `range` rule: the split on
   * every ',' leaves each rule text with at most one parameter.
   */
  lemma RangeUnreachable(config: Option<string>, lib: JavaLibrary)
    requires RulesOf(config, lib).Ok?
    ensures NoRangeRule(RulesOf(config, lib).value)
  {
    if !Blank(config) {
      var fragments := Fragments(config.value);
      forall k | 0 <= k < |fragments| ensures ',' !in fragments[k] {
        FragmentsHaveNoComma(config.value, k);
      }
      var es := Entries(fragments, lib).value;
      EntriesNoRange(fragments, lib);
      TableOfRules(es);
      forall f | f in TableOf(es).rules
        ensures forall k :: 0 <= k < |TableOf(es).rules[f]| ==> !TableOf(es).rules[f][k].Range?
      {
        RulesForNoRange(es, f);
      }
    }
  }
}
