/**
 * The few `java.lang.String` operations the connector relies on, with the
 * JDK's edge cases written out: `trim` strips every character up to U+0020,
 * `split` with a negative limit keeps trailing empty fields while the
 * one-argument `split` drops them, and `Integer.parseInt` accepts a sign.
 */
module JavaStrings {
  import opened Wrappers

  // ---------------------------------------------------------------------
  // trim()

  /** `String.trim` removes every leading and trailing character whose code is at most U+0020. */
  predicate IsTrimmable(c: char) { c <= ' ' }

  predicate AllTrimmable(s: string) { forall k :: 0 <= k < |s| ==> IsTrimmable(s[k]) }

  function LeadingTrimmable(s: string): (n: nat)
    ensures n <= |s|
    ensures forall k :: 0 <= k < n ==> IsTrimmable(s[k])
    ensures n < |s| ==> !IsTrimmable(s[n])
  {
    if |s| > 0 && IsTrimmable(s[0]) then 1 + LeadingTrimmable(s[1..]) else 0
  }

  function TrailingTrimmable(s: string): (n: nat)
    ensures n <= |s|
    ensures forall k :: |s| - n <= k < |s| ==> IsTrimmable(s[k])
    ensures n < |s| ==> !IsTrimmable(s[|s| - n - 1])
  {
    if |s| > 0 && IsTrimmable(s[|s| - 1]) then 1 + TrailingTrimmable(s[..|s| - 1]) else 0
  }

  /** `r` sits in `s` at position `a`, with only trimmable characters before and after it. */
  predicate WithinMargins(s: string, a: nat, r: string)
  {
    a + |r| <= |s| && s[a..a + |r|] == r && AllTrimmable(s[..a]) && AllTrimmable(s[a + |r|..])
  }

  /** `String.trim`: the result is `s` without its trimmable margins. */
  function Trim(s: string): (r: string)
    ensures |r| <= |s|
    ensures r == [] || (!IsTrimmable(r[0]) && !IsTrimmable(r[|r| - 1]))
    ensures WithinMargins(s, LeadingTrimmable(s), r)
  {
    var a := LeadingTrimmable(s);
    var b := TrailingTrimmable(s[a..]);
    assert a < |s| - b ==> s[|s| - b - 1] == s[a..][|s| - a - b - 1];
    TrailingOfSuffix(s, a);
    TrimMargins(s, a, b);
    s[a..|s| - b]
  }

  lemma TrimMargins(s: string, a: nat, b: nat)
    requires a + b <= |s|
    requires forall k :: 0 <= k < a ==> IsTrimmable(s[k])
    requires forall k :: |s| - b <= k < |s| ==> IsTrimmable(s[k])
    ensures WithinMargins(s, a, s[a..|s| - b])
  {
    var u := s[..a];
    forall k | 0 <= k < |u| ensures IsTrimmable(u[k]) { assert u[k] == s[k]; }
    var v := s[|s| - b..];
    forall k | 0 <= k < |v| ensures IsTrimmable(v[k]) { assert v[k] == s[|s| - b + k]; }
    assert a + |s[a..|s| - b]| == |s| - b;
  }

  /** The trailing margin of a suffix of `s` is a trailing margin of `s`. */
  lemma TrailingOfSuffix(s: string, a: nat)
    requires a <= |s|
    ensures a + TrailingTrimmable(s[a..]) <= |s|
    ensures forall k :: |s| - TrailingTrimmable(s[a..]) <= k < |s| ==> IsTrimmable(s[k])
  {
    var t := s[a..];
    var b := TrailingTrimmable(t);
    forall k | |s| - b <= k < |s| ensures IsTrimmable(s[k]) { assert s[k] == t[k - a]; }
  }

  /** A string that `trim` reduces to "" consists of trimmable characters only, and conversely. */
  lemma TrimEmptyIff(s: string)
    ensures Trim(s) == [] <==> AllTrimmable(s)
  {
    var r := Trim(s);
    var a := LeadingTrimmable(s);
    if r == [] {
      forall k | 0 <= k < |s| ensures IsTrimmable(s[k]) {
        assert s[k] == s[..a][k];
      }
    } else {
      assert s[a] == r[0];
    }
  }

  /** A string without trimmable margins is its own trim. */
  lemma TrimOfTrimmed(s: string)
    requires s == [] || (!IsTrimmable(s[0]) && !IsTrimmable(s[|s| - 1]))
    ensures Trim(s) == s
  {
    assert LeadingTrimmable(s) == 0;
    assert s[0..] == s;
    assert TrailingTrimmable(s) == 0;
  }

  /** Trimming twice is trimming once. */
  lemma TrimIdempotent(s: string)
    ensures Trim(Trim(s)) == Trim(s)
  {
    TrimOfTrimmed(Trim(s));
  }

  // ---------------------------------------------------------------------
  // prefixes, suffixes, characters

  predicate StartsWith(s: string, prefix: string) { |prefix| <= |s| && s[..|prefix|] == prefix }

  predicate EndsWith(s: string, suffix: string) { |suffix| <= |s| && s[|s| - |suffix|..] == suffix }

  /** `String.indexOf(char)`: the first position of `c`, or -1. */
  function IndexOf(s: string, c: char): (i: int)
    ensures -1 <= i < |s|
    ensures i == -1 <==> c !in s
    ensures 0 <= i ==> s[i] == c && forall k :: 0 <= k < i ==> s[k] != c
  {
    if |s| == 0 then -1
    else if s[0] == c then 0
    else
      var j := IndexOf(s[1..], c);
      assert c in s ==> c in s[1..] by {
        if c in s { var k :| 0 <= k < |s| && s[k] == c; assert s[1..][k - 1] == c; }
      }
      if j == -1 then -1 else j + 1
  }

  /** A position holding `c` with no `c` before it is what `indexOf` returns. */
  lemma IndexOfFirst(s: string, c: char, i: int)
    requires 0 <= i < |s| && s[i] == c
    requires forall k :: 0 <= k < i ==> s[k] != c
    ensures IndexOf(s, c) == i
  {
    var j := IndexOf(s, c);
    assert j >= 0 by { assert c in s by { assert s[i] == c; } }
  }

  /** `String.lastIndexOf(char)`: the last position of `c`, or -1. */
  function LastIndexOf(s: string, c: char): (i: int)
    ensures -1 <= i < |s|
    ensures i == -1 <==> c !in s
    ensures 0 <= i ==> s[i] == c && forall k :: i < k < |s| ==> s[k] != c
  {
    if |s| == 0 then -1
    else if s[|s| - 1] == c then |s| - 1
    else
      var j := LastIndexOf(s[..|s| - 1], c);
      assert c in s ==> c in s[..|s| - 1] by {
        if c in s { var k :| 0 <= k < |s| && s[k] == c; assert s[..|s| - 1][k] == c; }
      }
      j
  }

  /** A position holding `c` with no `c` after it is what `lastIndexOf` returns. */
  lemma LastIndexOfLast(s: string, c: char, i: int)
    requires 0 <= i < |s| && s[i] == c
    requires forall k :: i < k < |s| ==> s[k] != c
    ensures LastIndexOf(s, c) == i
  {
    var j := LastIndexOf(s, c);
    assert j >= 0 by { assert c in s by { assert s[i] == c; } }
  }

  /** A string cut around a position is its three parts. */
  lemma CutAt(s: string, i: int)
    requires 0 <= i < |s|
    ensures s == s[..i] + [s[i]] + s[i + 1..]
  {
  }

  /** The two sides of `p + [c] + rest` are `p` and `rest`. */
  lemma JoinedParts(p: string, c: char, rest: string)
    ensures (p + [c] + rest)[|p|] == c
    ensures (p + [c] + rest)[..|p|] == p && (p + [c] + rest)[|p| + 1..] == rest
  {
  }

  /** The first `c` of `p + [c] + rest`, when `p` has none, is the one after `p`. */
  lemma IndexOfJoined(p: string, c: char, rest: string)
    requires c !in p
    ensures IndexOf(p + [c] + rest, c) == |p|
    ensures (p + [c] + rest)[..|p|] == p && (p + [c] + rest)[|p| + 1..] == rest
  {
    var s := p + [c] + rest;
    JoinedParts(p, c, rest);
    assert forall k :: 0 <= k < |p| ==> s[k] != c by {
      forall k | 0 <= k < |p| ensures s[k] != c { assert s[k] == p[k]; }
    }
    IndexOfFirst(s, c, |p|);
  }

  /** The last `c` of `p + [c] + rest`, when `rest` has none, is the one before `rest`. */
  lemma LastIndexOfJoined(p: string, c: char, rest: string)
    requires c !in rest
    ensures LastIndexOf(p + [c] + rest, c) == |p|
    ensures (p + [c] + rest)[..|p|] == p && (p + [c] + rest)[|p| + 1..] == rest
  {
    var s := p + [c] + rest;
    JoinedParts(p, c, rest);
    assert forall k :: |p| < k < |s| ==> s[k] != c by {
      forall k | |p| < k < |s| ensures s[k] != c { assert s[k] == rest[k - |p| - 1]; }
    }
    LastIndexOfLast(s, c, |p|);
  }

  /** A slice inside the second part of a concatenation is a slice of that part. */
  lemma SliceOfAppend(a: string, b: string, i: int, j: int)
    requires |a| <= i <= j <= |a| + |b|
    ensures (a + b)[i..j] == b[i - |a|..j - |a|]
  {
    var l, r := (a + b)[i..j], b[i - |a|..j - |a|];
    forall k | 0 <= k < |l| ensures l[k] == r[k] { assert l[k] == (a + b)[i + k]; }
  }

  /** A prefix reaching into the second part of a concatenation. */
  lemma PrefixOfAppend(a: string, b: string, p: int)
    requires |a| <= p <= |a| + |b|
    ensures (a + b)[..p] == a + b[..p - |a|]
  {
    var l, r := (a + b)[..p], a + b[..p - |a|];
    forall k | 0 <= k < |l| ensures l[k] == r[k] {
      if k < |a| { assert r[k] == a[k]; } else { assert r[k] == b[k - |a|]; }
    }
  }

  /** A character absent from a string is absent from each of its slices. */
  lemma NotInSlice(s: string, c: char, i: int, j: int)
    requires 0 <= i <= j <= |s| && c !in s
    ensures c !in s[i..j]
  {
    forall k | 0 <= k < j - i ensures s[i..j][k] != c { assert s[i..j][k] == s[i + k]; }
  }

  /** Trimming adds no character. */
  lemma NotInTrim(s: string, c: char)
    requires c !in s
    ensures c !in Trim(s)
  {
    var a := LeadingTrimmable(s);
    NotInSlice(s, c, a, a + |Trim(s)|);
  }

  /** After a prefix without `c`, the first `c` is the first `c` of the rest, moved by the prefix. */
  lemma IndexOfAppend(p: string, rest: string, c: char)
    requires c !in p
    ensures IndexOf(p + rest, c) == if IndexOf(rest, c) == -1 then -1 else |p| + IndexOf(rest, c)
  {
    var s := p + rest;
    var q := IndexOf(rest, c);
    if q == -1 {
      assert c !in s by {
        forall k | 0 <= k < |s| ensures s[k] != c {
          if k < |p| { assert s[k] == p[k]; } else { assert s[k] == rest[k - |p|]; }
        }
      }
    } else {
      assert s[|p| + q] == rest[q];
      forall k | 0 <= k < |p| + q ensures s[k] != c {
        if k < |p| { assert s[k] == p[k]; } else { assert s[k] == rest[k - |p|]; }
      }
      IndexOfFirst(s, c, |p| + q);
    }
  }

  /** `path.substring(path.lastIndexOf('/') + 1)`: the part after the last '/'. */
  function BaseName(path: string): (name: string)
    ensures '/' !in name
    ensures '/' !in path ==> name == path
    ensures '/' in path ==> exists dir :: path == dir + "/" + name
  {
    var i := LastIndexOf(path, '/');
    if i >= 0 then
      assert path == path[..i] + "/" + path[i + 1..];
      path[i + 1..]
    else path
  }

  // ---------------------------------------------------------------------
  // split

  /** Whether `d` occurs in `s` starting at position `k`. */
  predicate OccursAt(s: string, d: string, k: int) { 0 <= k && k + |d| <= |s| && s[k..k + |d|] == d }

  /** The first position at which the non-empty `d` occurs in `s`, or -1. */
  function Find(s: string, d: string): (i: int)
    requires |d| > 0
    ensures -1 <= i <= |s| - |d| || i == -1
    ensures i >= 0 ==> OccursAt(s, d, i)
    ensures forall k :: 0 <= k && (i == -1 || k < i) ==> !OccursAt(s, d, k)
    decreases |s|
  {
    if |s| < |d| then -1
    else if s[..|d|] == d then 0
    else
      var j := Find(s[1..], d);
      assert forall k :: 0 <= k ==> (OccursAt(s[1..], d, k) <==> OccursAt(s, d, k + 1));
      assert forall k :: 1 <= k ==> (OccursAt(s, d, k) ==> OccursAt(s[1..], d, k - 1));
      if j == -1 then -1 else j + 1
  }

  /** `s.split(Pattern.quote(d), -1)` for a non-empty `d`: every field, trailing empty ones included. */
  function SplitOn(s: string, d: string): (parts: seq<string>)
    requires |d| > 0
    ensures |parts| >= 1
    ensures forall k :: 0 <= k < |parts| ==> Find(parts[k], d) == -1
    decreases |s|
  {
    var i := Find(s, d);
    if i < 0 then [s]
    else
      var head := s[..i];
      assert Find(head, d) == -1 by {
        forall k | 0 <= k ensures !OccursAt(head, d, k) {
          if OccursAt(head, d, k) { assert s[k..k + |d|] == head[k..k + |d|]; assert OccursAt(s, d, k); }
        }
      }
      [head] + SplitOn(s[i + |d|..], d)
  }

  /** `s.split(Pattern.quote(d), -1)`: with an empty `d` every character is a field and a trailing "" follows. */
  function SplitLiteral(s: string, d: string): (parts: seq<string>)
    ensures |parts| >= 1
  {
    if |d| > 0 then SplitOn(s, d)
    else if |s| == 0 then [""]
    else seq(|s|, k requires 0 <= k < |s| => [s[k]]) + [""]
  }

  /** `String.join(sep, xs)`. */
  function Join(xs: seq<string>, sep: string): string
  {
    if |xs| == 0 then ""
    else if |xs| == 1 then xs[0]
    else xs[0] + sep + Join(xs[1..], sep)
  }

  /** Joining the fields of a split with the same delimiter gives back the line. */
  lemma {:induction false} JoinSplitOn(s: string, d: string)
    requires |d| > 0
    ensures Join(SplitOn(s, d), d) == s
    decreases |s|
  {
    var i := Find(s, d);
    if i >= 0 {
      var rest := s[i + |d|..];
      var tail := SplitOn(rest, d);
      assert Join(tail, d) == rest by { JoinSplitOn(rest, d); }
      assert SplitOn(s, d) == [s[..i]] + tail;
      assert Join(SplitOn(s, d), d) == s[..i] + d + Join(tail, d) by { JoinCons(s[..i], tail, d); }
      assert s == s[..i] + d + rest by { assert s[i..i + |d|] == d; }
    }
  }

  /** The first occurrence of a single character, as `Find` reports it. */
  lemma FindChar(s: string, c: char, i: int)
    requires 0 <= i < |s| && s[i] == c && forall k :: 0 <= k < i ==> s[k] != c
    ensures Find(s, [c]) == i
  {
    var j := Find(s, [c]);
    assert s[i..i + 1] == [c];
    assert OccursAt(s, [c], i);
  }

  lemma {:induction false} NoFindChar(s: string, c: char)
    requires c !in s
    ensures Find(s, [c]) == -1
    decreases |s|
  {
    if |s| >= 1 {
      assert s[..1] != [c] by { assert s[..1][0] == s[0]; }
      NotInSlice(s, c, 1, |s|);
      NoFindChar(s[1..], c);
    }
  }

  /** In `p + [c] + rest` with no `c` in `p`, `Find` stops at the `c` after `p`. */
  lemma FindJoined(p: string, c: char, rest: string)
    requires c !in p
    ensures Find(p + [c] + rest, [c]) == |p|
    ensures (p + [c] + rest)[..|p|] == p && (p + [c] + rest)[|p| + 1..] == rest
  {
    var s := p + [c] + rest;
    JoinedParts(p, c, rest);
    forall k | 0 <= k < |p| ensures s[k] != c { assert s[k] == p[k]; }
    FindChar(s, c, |p|);
  }

  /** Splitting on a character the fields do not contain undoes joining with it. */
  lemma {:induction false} SplitJoin(parts: seq<string>, c: char)
    requires |parts| >= 1 && forall k :: 0 <= k < |parts| ==> c !in parts[k]
    ensures SplitOn(Join(parts, [c]), [c]) == parts
  {
    if |parts| == 1 {
      NoFindChar(parts[0], c);
    } else {
      var head, rest := parts[0], parts[1..];
      assert forall k :: 0 <= k < |rest| ==> c !in rest[k] by {
        forall k | 0 <= k < |rest| ensures c !in rest[k] { assert rest[k] == parts[k + 1]; }
      }
      SplitJoin(rest, c);
      SplitJoinStep(head, rest, c);
      assert parts == [head] + rest;
    }
  }

  lemma SplitJoinStep(head: string, rest: seq<string>, c: char)
    requires c !in head && |rest| >= 1
    ensures SplitOn(Join([head] + rest, [c]), [c]) == [head] + SplitOn(Join(rest, [c]), [c])
  {
    JoinCons(head, rest, [c]);
    FindJoined(head, c, Join(rest, [c]));
  }

  lemma JoinCons(head: string, tail: seq<string>, sep: string)
    requires |tail| > 0
    ensures Join([head] + tail, sep) == head + sep + Join(tail, sep)
  {
    assert ([head] + tail)[1..] == tail;
  }

  /** Each of the joined strings is a factor of the joined text, in order. */
  lemma {:induction false} JoinHasElement(xs: seq<string>, sep: string, k: nat)
    requires k < |xs|
    ensures exists pre, post :: Join(xs, sep) == pre + xs[k] + post
  {
    if |xs| == 1 {
      assert Join(xs, sep) == [] + xs[0] + [];
    } else if k == 0 {
      assert Join(xs, sep) == [] + xs[0] + (sep + Join(xs[1..], sep));
    } else {
      JoinHasElement(xs[1..], sep, k - 1);
      var pre, post :| Join(xs[1..], sep) == pre + xs[1..][k - 1] + post;
      assert Join(xs, sep) == (xs[0] + sep + pre) + xs[k] + post;
    }
  }

  /** Drops the empty strings at the end, as the one- and zero-limit `split` do. */
  function DropTrailingEmpty(xs: seq<string>): (ys: seq<string>)
    ensures |ys| <= |xs| && ys == xs[..|ys|]
    ensures |ys| > 0 ==> ys[|ys| - 1] != ""
    ensures forall k :: |ys| <= k < |xs| ==> xs[k] == ""
  {
    if |xs| > 0 && xs[|xs| - 1] == "" then DropTrailingEmpty(xs[..|xs| - 1]) else xs
  }

  /**
   * `s.split(c)` for a character `c` that is not a regular-expression
   * metacharacter (or is escaped), limit 0: when `c` does not occur the
   * result is `[s]`, otherwise the fields with the trailing empty ones removed.
   */
  function SplitDropping(s: string, c: char): (parts: seq<string>)
    ensures c !in s ==> parts == [s]
    ensures c in s ==> parts == DropTrailingEmpty(SplitOn(s, [c]))
  {
    if c !in s then [s] else DropTrailingEmpty(SplitOn(s, [c]))
  }

  /** `s.split(c, 2)` has two parts exactly when `c` occurs; they are split at its first occurrence. */
  function SplitFirst(s: string, c: char): (r: Option<(string, string)>)
    ensures r.None? <==> c !in s
    ensures r.Some? ==> s == r.value.0 + [c] + r.value.1 && c !in r.value.0
  {
    var i := IndexOf(s, c);
    if i < 0 then None
    else
      assert s == s[..i] + [c] + s[i + 1..];
      Some((s[..i], s[i + 1..]))
  }

  /** A single character never occurs in the fields of a split on it. */
  lemma NoCharInSplitOn(s: string, c: char, k: nat)
    requires k < |SplitOn(s, [c])|
    ensures c !in SplitOn(s, [c])[k]
  {
    var p := SplitOn(s, [c])[k];
    assert Find(p, [c]) == -1;
    if c in p {
      var j :| 0 <= j < |p| && p[j] == c;
      assert p[j..j + 1] == [c];
      assert OccursAt(p, [c], j);
    }
  }

  // ---------------------------------------------------------------------
  // case folding

  /** `Character.toLowerCase` on the ASCII letters; other characters are left alone. */
  function LowerChar(c: char): char
  {
    if 'A' <= c <= 'Z' then (c as int + 32) as char else c
  }

  function ToLower(s: string): (r: string)
    ensures |r| == |s|
    ensures forall k :: 0 <= k < |s| ==> r[k] == LowerChar(s[k])
  {
    seq(|s|, k requires 0 <= k < |s| => LowerChar(s[k]))
  }

  /** Lower-casing works character by character, so it distributes over concatenation. */
  lemma ToLowerAppend(a: string, b: string)
    ensures ToLower(a + b) == ToLower(a) + ToLower(b)
  {
    var l, r := ToLower(a + b), ToLower(a) + ToLower(b);
    forall k | 0 <= k < |l| ensures l[k] == r[k] {
      if k < |a| { assert (a + b)[k] == a[k]; } else { assert (a + b)[k] == b[k - |a|]; }
    }
  }

  // ---------------------------------------------------------------------
  // decimal digits

  predicate IsDigit(c: char) { '0' <= c <= '9' }

  predicate AllDigits(s: string) { forall k :: 0 <= k < |s| ==> IsDigit(s[k]) }

  function DigitValue(c: char): nat requires IsDigit(c) { c as int - '0' as int }

  function DigitChar(d: nat): (c: char) requires d < 10 ensures IsDigit(c) && DigitValue(c) == d
  {
    ('0' as int + d) as char
  }

  /** The number a string of decimal digits denotes. */
  function DigitsValue(s: string): nat
    requires AllDigits(s)
  {
    if |s| == 0 then 0 else 10 * DigitsValue(s[..|s| - 1]) + DigitValue(s[|s| - 1])
  }

  /** `Long.toString` of a non-negative number. */
  function NatToString(n: nat): (s: string)
    ensures |s| >= 1 && AllDigits(s)
    decreases n
  {
    if n < 10 then [DigitChar(n)] else NatToString(n / 10) + [DigitChar(n % 10)]
  }

  /** `Long.toString`, with a leading '-' for negative numbers. */
  function IntToString(i: int): string
  {
    if i < 0 then "-" + NatToString(-i) else NatToString(i)
  }

  lemma {:induction false} NatToStringValue(n: nat)
    ensures DigitsValue(NatToString(n)) == n
    decreases n
  {
    if n >= 10 {
      NatToStringValue(n / 10);
      var s := NatToString(n);
      assert s[..|s| - 1] == NatToString(n / 10);
    }
  }

  ghost const MinInt: int := -0x8000_0000
  ghost const MaxInt: int := 0x7fff_ffff

  /**
   * `Integer.parseInt`: an optional '+' or '-', then one or more digits,
   * whose value must fit in 32 bits; anything else raises
   * NumberFormatException, here `None`.
   */
  function ParseInt(s: string): (r: Option<int>)
    ensures r.Some? ==> -0x8000_0000 <= r.value <= 0x7fff_ffff
  {
    if |s| == 0 then None
    else
      var digits := if s[0] == '-' || s[0] == '+' then s[1..] else s;
      if |digits| == 0 || !AllDigits(digits) then None
      else
        var v: int := if s[0] == '-' then -(DigitsValue(digits) as int) else DigitsValue(digits);
        if -0x8000_0000 <= v <= 0x7fff_ffff then Some(v) else None
  }

  /** Printing an `int` and parsing it back gives the same number. */
  lemma ParseIntToString(i: int)
    requires -0x8000_0000 <= i <= 0x7fff_ffff
    ensures ParseInt(IntToString(i)) == Some(i)
  {
    if i < 0 {
      var d := NatToString(-i);
      NatToStringValue(-i);
      var s := IntToString(i);
      assert s == "-" + d && s[0] == '-' && s[1..] == d;
      assert -(DigitsValue(d) as int) == i;
    } else {
      var d := NatToString(i);
      NatToStringValue(i);
      assert IntToString(i) == d && IsDigit(d[0]);
    }
  }
}
