/**
 * The built-in validation rules: a closed set of rule kinds, each with a
 * name, a failure message and a predicate over a field value that may be
 * null. Date parsing, arbitrary regular expressions and the printing of
 * doubles are library behaviour and come in as a `JavaLibrary` parameter.
 */
module ValidationRules {
  import opened Wrappers
  import opened JavaStrings

  datatype Rule =
    | NotEmpty
    | Numeric
    | Integer
    | Date(pattern: string)
    | LengthMin(minLength: int)
    | LengthMax(maxLength: int)
    | Range(min: real, max: real)
    | Pattern(regex: string)
    | Email

  /**
   * The library behaviour the rules depend on: whether
   * `DateTimeFormatter.ofPattern` accepts a pattern, whether `LocalDate.parse`
   * accepts a text under a pattern, `String.matches` (`Err` carrying the
   * `PatternSyntaxException`'s `getMessage()` when the regular expression
   * does not compile) and `Double.toString`.
   */
  datatype JavaLibrary = JavaLibrary(
    datePatternValid: string -> bool,
    dateParses: (string, string) -> bool,
    regexMatches: (string, string) -> Result<bool>,
    doubleToString: real -> string)

  /** `getName` of each rule. */
  function Name(r: Rule): string
  {
    match r
    case NotEmpty => "not_empty"
    case Numeric => "numeric"
    case Integer => "integer"
    case Date(_) => "date"
    case LengthMin(_) => "length_min"
    case LengthMax(_) => "length_max"
    case Range(_, _) => "range"
    case Pattern(_) => "pattern"
    case Email => "email"
  }

  /** `getMessage` of each rule. */
  function Message(r: Rule, lib: JavaLibrary): string
  {
    match r
    case NotEmpty => "Field must not be empty"
    case Numeric => "Field must be numeric"
    case Integer => "Field must be an integer"
    case Date(p) => "Field must be a valid date with format: " + p
    case LengthMin(n) => "Field must have minimum length of " + IntToString(n)
    case LengthMax(n) => "Field must have maximum length of " + IntToString(n)
    case Range(lo, hi) => "Field must be between " + lib.doubleToString(lo) + " and " + lib.doubleToString(hi)
    case Pattern(re) => "Field must match pattern: " + re
    case Email => "Field must be a valid email address"
  }

  // ---------------------------------------------------------------------
  // the three fixed regular expressions, as matchers and as languages

  /** The text after an optional leading '-'. */
  function Unsigned(s: string): (u: string)
    ensures |s| > 0 && s[0] == '-' ==> s == "-" + u
    ensures !(|s| > 0 && s[0] == '-') ==> s == u
  {
    if |s| > 0 && s[0] == '-' then s[1..] else s
  }

  /** A matcher for `-?\d+`. */
  predicate MatchesInteger(s: string)
  {
    var u := Unsigned(s);
    |u| > 0 && AllDigits(u)
  }

  /** A matcher for `-?\d+(\.\d+)?`. */
  predicate MatchesNumeric(s: string)
  {
    var u := Unsigned(s);
    var i := IndexOf(u, '.');
    |u| > 0 && if i < 0 then AllDigits(u) else 0 < i < |u| - 1 && AllDigits(u[..i]) && AllDigits(u[i + 1..])
  }

  /** `s` is a sign, then digits in the shape `-?\d+`. */
  ghost predicate IntegerSplit(s: string, sign: string, digits: string)
  {
    s == sign + digits && (sign == "" || sign == "-") && |digits| >= 1 && AllDigits(digits)
  }

  /** The strings the regular expression `-?\d+` matches in full. */
  ghost predicate IntegerLanguage(s: string)
  {
    exists sign, digits :: IntegerSplit(s, sign, digits)
  }

  /** `s` is a sign, whole digits and an optional fraction in the shape `-?\d+(\.\d+)?`. */
  ghost predicate NumericSplit(s: string, sign: string, whole: string, fraction: string)
  {
    s == sign + whole + fraction
    && (sign == "" || sign == "-") && |whole| >= 1 && AllDigits(whole)
    && (fraction == "" || (|fraction| >= 2 && fraction[0] == '.' && AllDigits(fraction[1..])))
  }

  /** The strings the regular expression `-?\d+(\.\d+)?` matches in full. */
  ghost predicate NumericLanguage(s: string)
  {
    exists sign, whole, fraction :: NumericSplit(s, sign, whole, fraction)
  }

  /** The unsigned part of a string beginning with a sign and a digit is what follows the sign. */
  lemma UnsignedAfterSign(s: string, sign: string, rest: string)
    requires s == sign + rest && (sign == "" || sign == "-") && |rest| >= 1 && IsDigit(rest[0])
    ensures Unsigned(s) == rest
  {
    assert s[|sign|] == rest[0];
  }

  lemma IntegerMatcherCorrect(s: string)
    ensures MatchesInteger(s) <==> IntegerLanguage(s)
  {
    var u := Unsigned(s);
    if MatchesInteger(s) {
      assert IntegerSplit(s, s[..|s| - |u|], u);
    }
    if IntegerLanguage(s) {
      var sign, digits :| IntegerSplit(s, sign, digits);
      UnsignedAfterSign(s, sign, digits);
    }
  }

  lemma NumericMatcherSound(s: string)
    requires MatchesNumeric(s)
    ensures NumericLanguage(s)
  {
    var u := Unsigned(s);
    var sign := if |s| > 0 && s[0] == '-' then "-" else "";
    assert s == sign + u;
    var i := IndexOf(u, '.');
    if i < 0 {
      assert NumericSplit(s, sign, u, "") by { assert s == sign + u + ""; }
    } else {
      FractionSplit(s, sign, u, i);
    }
  }

  /** A sign, digits, '.' and digits is a numeric text. */
  lemma FractionSplit(s: string, sign: string, u: string, i: int)
    requires s == sign + u && (sign == "" || sign == "-")
    requires 0 < i < |u| - 1 && u[i] == '.' && AllDigits(u[..i]) && AllDigits(u[i + 1..])
    ensures NumericSplit(s, sign, u[..i], [u[i]] + u[i + 1..])
  {
    var fraction := [u[i]] + u[i + 1..];
    assert fraction[1..] == u[i + 1..];
    assert s == sign + u[..i] + fraction by { CutAt(u, i); }
  }

  lemma NumericMatcherComplete(s: string, sign: string, whole: string, fraction: string)
    requires NumericSplit(s, sign, whole, fraction)
    ensures MatchesNumeric(s)
  {
    assert s == sign + (whole + fraction);
    UnsignedAfterSign(s, sign, whole + fraction);
    assert '.' !in whole by {
      forall k | 0 <= k < |whole| ensures whole[k] != '.' { assert IsDigit(whole[k]); }
    }
    if fraction == "" {
      assert whole + fraction == whole;
    } else {
      var rest := fraction[1..];
      assert fraction == ['.'] + rest;
      assert whole + fraction == whole + ['.'] + rest;
      IndexOfJoined(whole, '.', rest);
    }
  }

  lemma NumericMatcherCorrect(s: string)
    ensures MatchesNumeric(s) <==> NumericLanguage(s)
  {
    if MatchesNumeric(s) { NumericMatcherSound(s); }
    if NumericLanguage(s) {
      var sign, whole, fraction :| NumericSplit(s, sign, whole, fraction);
      NumericMatcherComplete(s, sign, whole, fraction);
    }
  }

  /** Every value `integer` accepts is accepted by `numeric`. */
  lemma IntegerIsNumeric(s: string)
    requires MatchesInteger(s)
    ensures MatchesNumeric(s)
  {
    IntegerMatcherCorrect(s);
    var sign, digits :| IntegerSplit(s, sign, digits);
    assert s == sign + digits + "";
    NumericMatcherComplete(s, sign, digits, "");
  }

  predicate IsAsciiLetter(c: char) { 'A' <= c <= 'Z' || 'a' <= c <= 'z' }

  /** `[A-Za-z0-9+_.-]` */
  predicate IsLocalChar(c: char) { IsAsciiLetter(c) || IsDigit(c) || c == '+' || c == '_' || c == '.' || c == '-' }

  /** `[A-Za-z0-9.-]` */
  predicate IsDomainChar(c: char) { IsAsciiLetter(c) || IsDigit(c) || c == '.' || c == '-' }

  predicate AllLocal(s: string) { forall k :: 0 <= k < |s| ==> IsLocalChar(s[k]) }
  predicate AllDomain(s: string) { forall k :: 0 <= k < |s| ==> IsDomainChar(s[k]) }
  predicate AllLetters(s: string) { forall k :: 0 <= k < |s| ==> IsAsciiLetter(s[k]) }

  /** A matcher for `[A-Za-z0-9.-]+\.[A-Za-z]{2,}`: split at the last '.'. */
  predicate MatchesHost(host: string)
  {
    var dot := LastIndexOf(host, '.');
    0 < dot && AllDomain(host[..dot]) && |host| - dot - 1 >= 2 && AllLetters(host[dot + 1..])
  }

  /** A matcher for `^[A-Za-z0-9+_.-]+@[A-Za-z0-9.-]+\.[A-Za-z]{2,}$`: split at the only '@', then the host. */
  predicate MatchesEmail(s: string)
  {
    var at := IndexOf(s, '@');
    0 < at && AllLocal(s[..at]) && MatchesHost(s[at + 1..])
  }

  /** `host` is a domain, '.' and a top-level name of two or more letters. */
  ghost predicate HostSplit(host: string, domain: string, tld: string)
  {
    host == domain + "." + tld && |domain| >= 1 && AllDomain(domain) && |tld| >= 2 && AllLetters(tld)
  }

  /** `s` is a local part, '@', a domain, '.' and a top-level name of two or more letters. */
  ghost predicate EmailSplit(s: string, local: string, domain: string, tld: string)
  {
    s == local + "@" + (domain + "." + tld) && |local| >= 1 && AllLocal(local) && HostSplit(domain + "." + tld, domain, tld)
  }

  /** The strings the e-mail regular expression matches in full. */
  ghost predicate EmailLanguage(s: string)
  {
    exists local, domain, tld :: EmailSplit(s, local, domain, tld)
  }

  lemma HostMatcherSound(host: string)
    requires MatchesHost(host)
    ensures HostSplit(host, host[..LastIndexOf(host, '.')], host[LastIndexOf(host, '.') + 1..])
  {
    CutAt(host, LastIndexOf(host, '.'));
  }

  lemma HostMatcherComplete(host: string, domain: string, tld: string)
    requires HostSplit(host, domain, tld)
    ensures MatchesHost(host)
  {
    assert '.' !in tld by {
      forall k | 0 <= k < |tld| ensures tld[k] != '.' { assert IsAsciiLetter(tld[k]); }
    }
    LastIndexOfJoined(domain, '.', tld);
  }

  lemma EmailMatcherSound(s: string)
    requires MatchesEmail(s)
    ensures EmailLanguage(s)
  {
    var at := IndexOf(s, '@');
    var host := s[at + 1..];
    CutAt(s, at);
    HostMatcherSound(host);
    var dot := LastIndexOf(host, '.');
    assert EmailSplit(s, s[..at], host[..dot], host[dot + 1..]);
  }

  lemma EmailMatcherComplete(s: string, local: string, domain: string, tld: string)
    requires EmailSplit(s, local, domain, tld)
    ensures MatchesEmail(s)
  {
    var host := domain + "." + tld;
    assert '@' !in local by {
      forall k | 0 <= k < |local| ensures local[k] != '@' { assert IsLocalChar(local[k]); }
    }
    IndexOfJoined(local, '@', host);
    HostMatcherComplete(host, domain, tld);
  }

  lemma EmailMatcherCorrect(s: string)
    ensures MatchesEmail(s) <==> EmailLanguage(s)
  {
    if MatchesEmail(s) { EmailMatcherSound(s); }
    if EmailLanguage(s) {
      var local, domain, tld :| EmailSplit(s, local, domain, tld);
      EmailMatcherComplete(s, local, domain, tld);
    }
  }

  // ---------------------------------------------------------------------
  // Double.parseDouble, on plain decimal notation

  /** The value of the digits after a decimal point: `0.d1d2...` read from the right. */
  function FractionValue(fraction: string): real
    requires AllDigits(fraction)
  {
    if |fraction| == 0 then 0.0
    else (DigitValue(fraction[0]) as real + FractionValue(fraction[1..])) / 10.0
  }

  /** The value of an unsigned decimal text: digits with at most one '.' and at least one digit. */
  function UnsignedDecimal(body: string): Option<real>
  {
    var i := IndexOf(body, '.');
    if i < 0 then
      if |body| > 0 && AllDigits(body) then Some(DigitsValue(body) as real) else None
    else
      var whole := body[..i];
      var fraction := body[i + 1..];
      if |whole| + |fraction| >= 1 && AllDigits(whole) && AllDigits(fraction) then
        Some(DigitsValue(whole) as real + FractionValue(fraction))
      else None
  }

  /**
   * `Double.parseDouble` on the decimal forms: surrounding characters up to
   * U+0020 are ignored, then an optional sign, then digits with at most one
   * '.' and at least one digit. `None` stands for NumberFormatException.
   */
  function ParseDecimal(s: string): Option<real>
  {
    var t := Trim(s);
    var negative := |t| > 0 && t[0] == '-';
    var body := if |t| > 0 && (t[0] == '-' || t[0] == '+') then t[1..] else t;
    var x := UnsignedDecimal(body);
    if x.Some? && negative then Some(-x.value) else x
  }

  /** `lo <= x && x <= hi` on a value that was read. */
  predicate InRange(x: Option<real>, lo: real, hi: real)
  {
    x.Some? && lo <= x.value && x.value <= hi
  }

  /** Every value `numeric` accepts can be read as a number by `range`. */
  lemma NumericParses(s: string)
    requires MatchesNumeric(s)
    ensures ParseDecimal(s).Some?
  {
    var u := Unsigned(s);
    assert s[|s| - 1] == u[|u| - 1];
    assert !IsTrimmable(s[0]) by {
      if s[0] != '-' { assert s[0] == u[0]; }
    }
    TrimOfTrimmed(s);
    assert s[0] != '+' by {
      if s[0] != '-' { assert s[0] == u[0]; }
    }
    assert UnsignedDecimal(u).Some?;
  }

  // ---------------------------------------------------------------------
  // evaluation

  /**
   * `isValid` of each rule. A null value fails every rule. An invalid
   * regular expression in a `pattern` rule throws, here `Err` with the
   * exception's message as the library gives it.
   */
  function IsValid(r: Rule, value: Option<string>, lib: JavaLibrary): (res: Result<bool>)
    ensures res.Err? ==> r.Pattern? && value.Some? && res == lib.regexMatches(r.regex, value.value)
    ensures value.None? ==> res == Ok(false)
  {
    if value.None? then Ok(false)
    else
      var v := value.value;
      match r
      case NotEmpty => Ok(Trim(v) != "")
      case Numeric => Ok(MatchesNumeric(v))
      case Integer => Ok(MatchesInteger(v))
      case Date(p) => Ok(lib.dateParses(p, v))
      case LengthMin(n) => Ok(|v| >= n)
      case LengthMax(n) => Ok(|v| <= n)
      case Range(lo, hi) =>
        Ok(InRange(ParseDecimal(v), lo, hi))
      case Pattern(re) =>
        lib.regexMatches(re, v)
      case Email => Ok(MatchesEmail(v))
  }

  /** `not_empty` holds exactly for a present value that is not all trimmable characters. */
  lemma NotEmptyMeaning(value: Option<string>, lib: JavaLibrary)
    ensures IsValid(NotEmpty, value, lib) == Ok(value.Some? && !AllTrimmable(value.value))
  {
    if value.Some? { TrimEmptyIff(value.value); }
  }

  /** The length bounds are inclusive, and together they pin a length range. */
  lemma LengthBounds(v: string, lo: int, hi: int, lib: JavaLibrary)
    ensures IsValid(LengthMin(lo), Some(v), lib) == Ok(lo <= |v|)
    ensures IsValid(LengthMax(hi), Some(v), lib) == Ok(|v| <= hi)
    ensures IsValid(LengthMin(|v|), Some(v), lib) == Ok(true) && IsValid(LengthMax(|v|), Some(v), lib) == Ok(true)
  {
  }

  /** A plain run of digits is read as the number it denotes. */
  lemma ParseDigits(s: string)
    requires |s| > 0 && AllDigits(s)
    ensures ParseDecimal(s) == Some(DigitsValue(s) as real)
  {
    DigitsNotTrimmed(s);
    DigitsHaveNoDot(s);
  }

  /** Digits, '.' and digits are read as the whole part plus the fraction. */
  lemma ParseWithFraction(whole: string, fraction: string)
    requires |whole| > 0 && AllDigits(whole) && |fraction| > 0 && AllDigits(fraction)
    ensures ParseDecimal(whole + "." + fraction) == Some(DigitsValue(whole) as real + FractionValue(fraction))
  {
    var t := whole + "." + fraction;
    assert t[0] == whole[0] && t[|t| - 1] == fraction[|fraction| - 1];
    DigitsNotTrimmed(t);
    DigitsHaveNoDot(whole);
    IndexOfJoined(whole, '.', fraction);
  }

  /** A word of letters is not a number. */
  lemma LettersNotParsed(s: string)
    requires |s| > 0 && AllLetters(s)
    ensures ParseDecimal(s) == None
  {
    assert IsAsciiLetter(s[0]) && IsAsciiLetter(s[|s| - 1]);
    TrimOfTrimmed(s);
    assert '.' !in s by {
      forall k | 0 <= k < |s| ensures s[k] != '.' { assert IsAsciiLetter(s[k]); }
    }
    assert !IsDigit(s[0]);
  }

  lemma DigitsNotTrimmed(t: string)
    requires |t| > 0 && IsDigit(t[0]) && IsDigit(t[|t| - 1])
    ensures Trim(t) == t && t[0] != '-' && t[0] != '+'
  {
    TrimOfTrimmed(t);
  }

  lemma DigitsHaveNoDot(s: string)
    requires AllDigits(s)
    ensures '.' !in s
  {
    forall k | 0 <= k < |s| ensures s[k] != '.' { assert IsDigit(s[k]); }
  }

  /** The bounds of a range are inside it: `range(lo, hi)` accepts any text that reads as `lo` or `hi`. */
  lemma RangeAcceptsBounds(lo: real, hi: real, v: string, lib: JavaLibrary)
    requires lo <= hi
    requires ParseDecimal(v) == Some(lo) || ParseDecimal(v) == Some(hi)
    ensures IsValid(Range(lo, hi), Some(v), lib) == Ok(true)
  {
    RangeMeaning(lo, hi, v, lib);
  }

  lemma RangeMeaning(lo: real, hi: real, v: string, lib: JavaLibrary)
    ensures IsValid(Range(lo, hi), Some(v), lib) == Ok(InRange(ParseDecimal(v), lo, hi))
  {
  }

  /** A text that is not a number, or a number outside the bounds, is rejected. */
  lemma RangeRejects(lo: real, hi: real, v: string, lib: JavaLibrary)
    requires ParseDecimal(v).None? || ParseDecimal(v).value < lo || hi < ParseDecimal(v).value
    ensures IsValid(Range(lo, hi), Some(v), lib) == Ok(false)
  {
    RangeMeaning(lo, hi, v, lib);
  }

  /** Sample values for the integer and numeric patterns. */
  lemma NumberPatternExamples()
    ensures MatchesInteger("-42") && !MatchesInteger("4.2") && MatchesNumeric("4.2")
    ensures !MatchesNumeric("4.") && !MatchesNumeric(".5") && !MatchesNumeric("")
  {
    assert Unsigned("-42") == "42";
    assert !IsDigit("4.2"[1]);
    IndexOfFirst("4.2", '.', 1);
    assert "4.2"[..1] == "4" && "4.2"[2..] == "2";
    IndexOfFirst("4.", '.', 1);
    IndexOfFirst(".5", '.', 0);
  }

  /** A sample address is an e-mail address. */
  lemma EmailAccepted()
    ensures MatchesEmail("user@example.com")
  {
    assert AllLocal("user") by {
      forall k | 0 <= k < 4 ensures IsLocalChar("user"[k]) { }
    }
    assert AllDomain("example") by {
      forall k | 0 <= k < 7 ensures IsDomainChar("example"[k]) { }
    }
    assert AllLetters("com") by {
      forall k | 0 <= k < 3 ensures IsAsciiLetter("com"[k]) { }
    }
    assert "user@example.com" == "user" + "@" + ("example" + "." + "com");
    EmailMatcherComplete("user@example.com", "user", "example", "com");
  }

  /** A text without '@' is not an e-mail address. */
  lemma EmailRejected()
    ensures !MatchesEmail("invalid-email")
  {
    var s := "invalid-email";
    forall k | 0 <= k < |s| ensures s[k] != '@' { }
    assert '@' !in s;
  }
}
