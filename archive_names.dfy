/**
 * The names the tasks derive from a file name when they are done with it:
 * the archive name of the original task, the summary-file name of the
 * enhanced task, and whether a file is read through a GZIP stream.
 *
 * Both names come from `String.replaceAll` with a pattern anchored at the
 * end of the name. Java's `\w` is `[a-zA-Z_0-9]`, so the only place where
 * `\.\w+` can match up to the end is a '.' right before the run of word
 * characters that ends the name, and only when that run is not empty.
 */
module ArchiveNames {
  import opened JavaStrings

  predicate IsWordChar(c: char)
  {
    ('a' <= c <= 'z') || ('A' <= c <= 'Z') || ('0' <= c <= '9') || c == '_'
  }

  predicate AllWordChars(s: string)
  {
    forall k :: 0 <= k < |s| ==> IsWordChar(s[k])
  }

  /** Whether `\.\w+` matches `name` from position `k` up to its end. */
  predicate ExtensionAt(name: string, k: int)
  {
    0 <= k < |name| - 1 && name[k] == '.' && AllWordChars(name[k + 1..])
  }

  /** The length of the run of word characters at the end of `s`. */
  function TrailingWordRun(s: string): (n: nat)
    ensures n <= |s|
  {
    if |s| == 0 || !IsWordChar(s[|s| - 1]) then 0 else 1 + TrailingWordRun(s[..|s| - 1])
  }

  /** The run is made of word characters, and the character before it is not one. */
  lemma {:induction false} TrailingWordRunMeaning(s: string)
    ensures forall j :: |s| - TrailingWordRun(s) <= j < |s| ==> IsWordChar(s[j])
    ensures TrailingWordRun(s) < |s| ==> !IsWordChar(s[|s| - TrailingWordRun(s) - 1])
  {
    if |s| > 0 && IsWordChar(s[|s| - 1]) {
      var init := s[..|s| - 1];
      TrailingWordRunMeaning(init);
      assert forall j :: 0 <= j < |init| ==> init[j] == s[j];
    }
  }

  /**
   * Where the extension matched by `(\.\w+)$` starts, or -1 when there is
   * none: the '.' right before the run of word characters that ends the name.
   */
  function ExtensionStart(name: string): (p: int)
    ensures -1 <= p < |name|
  {
    var run := TrailingWordRun(name);
    var p := |name| - run - 1;
    if run > 0 && p >= 0 && name[p] == '.' then p else -1
  }

  /** The extension found is a match, and -1 means that there is no match anywhere. */
  lemma ExtensionStartMeaning(name: string)
    ensures ExtensionStart(name) >= 0 ==> ExtensionAt(name, ExtensionStart(name))
    ensures ExtensionStart(name) == -1 <==> forall k :: 0 <= k < |name| ==> !ExtensionAt(name, k)
  {
    var run := TrailingWordRun(name);
    TrailingWordRunMeaning(name);
    var p := ExtensionStart(name);
    if p >= 0 {
      var tail := name[p + 1..];
      forall j | 0 <= j < |tail| ensures IsWordChar(tail[j]) {
        assert tail[j] == name[p + 1 + j];
      }
    }
    forall k | 0 <= k < |name| && ExtensionAt(name, k) ensures k == p {
      ExtensionIsBeforeRun(name, k);
    }
  }

  /** A match starts right before the trailing run of word characters. */
  lemma ExtensionIsBeforeRun(name: string, k: int)
    requires ExtensionAt(name, k)
    ensures k == |name| - TrailingWordRun(name) - 1 && TrailingWordRun(name) > 0
  {
    var run := TrailingWordRun(name);
    TrailingWordRunMeaning(name);
    assert !IsWordChar(name[k]);
    assert name[k + 1..][|name| - k - 2] == name[|name| - 1];
  }

  /** The extension matched, including its '.', or "" when there is none. */
  function Extension(name: string): string
  {
    var p := ExtensionStart(name);
    if p >= 0 then name[p..] else ""
  }

  /** The name without the extension. */
  function Stem(name: string): string
  {
    var p := ExtensionStart(name);
    if p >= 0 then name[..p] else name
  }

  lemma StemExtension(name: string)
    ensures Stem(name) + Extension(name) == name
  {
  }

  // ---------------------------------------------------------------------
  // the original task: replaceAll("(\\.\\w+)$", "_" + timestamp + "$1")

  /**
   * The archive name: the timestamp goes in front of the extension, and a
   * name without one is left as it is. The timestamp is formatted from the
   * pattern "yyyyMMdd_HHmmssSSS", so it holds no '$' or '\' that the
   * replacement would interpret.
   */
  function ArchiveName(name: string, timestamp: string): (r: string)
  {
    if ExtensionStart(name) >= 0 then Stem(name) + "_" + timestamp + Extension(name) else name
  }

  /**
   * The archive name keeps the name's stem and its extension, with "_" and
   * the timestamp in between; removing those gives the name back.
   */
  lemma ArchiveNameParts(name: string, timestamp: string)
    ensures ExtensionStart(name) == -1 ==> ArchiveName(name, timestamp) == name
    ensures ExtensionStart(name) >= 0 ==>
              var r := ArchiveName(name, timestamp);
              var p := ExtensionStart(name);
              |r| == |name| + 1 + |timestamp| &&
              r[..p] == name[..p] && r[p] == '_' && r[p + 1..p + 1 + |timestamp|] == timestamp &&
              r[p + 1 + |timestamp|..] == name[p..] &&
              r[..p] + r[p + 1 + |timestamp|..] == name
  {
    var p := ExtensionStart(name);
    if p >= 0 {
      var r := ArchiveName(name, timestamp);
      assert r == name[..p] + "_" + timestamp + name[p..];
      assert name[..p] + name[p..] == name;
    }
  }

  /** A name without '.' is archived under its own name. */
  lemma ArchiveNameWithoutDot(name: string, timestamp: string)
    requires '.' !in name
    ensures ArchiveName(name, timestamp) == name
  {
  }

  // ---------------------------------------------------------------------
  // the enhanced task: replaceAll("(\\.\\w+)?$", "_" + timestamp + ".txt")

  function SummarySuffix(timestamp: string): string
  {
    "_" + timestamp + ".txt"
  }

  /**
   * The summary name as the pattern computes it. Every match of `(\.\w+)?$`
   * ends at the end of the name. `replaceAll` replaces the extension when
   * there is one, and then, searching on from the end of that match, also
   * the empty match at the end of the input, so the suffix is written twice.
   * Without an extension the only match is the empty one at the end.
   */
  function SummaryNameAsWritten(name: string, timestamp: string): string
  {
    var suffix := SummarySuffix(timestamp);
    if ExtensionStart(name) >= 0 then Stem(name) + suffix + suffix else name + suffix
  }

  lemma DataCsvExtension()
    ensures ExtensionStart("data.csv") == 4 && Stem("data.csv") == "data"
  {
    assert ExtensionAt("data.csv", 4) by {
      assert "data.csv"[5..] == "csv";
    }
    ExtensionIsBeforeRun("data.csv", 4);
  }

  lemma DataCsvSuffixes()
    ensures "data" + SummarySuffix("T") + SummarySuffix("T") == "data_T.txt_T.txt"
  {
    assert SummarySuffix("T") == "_T.txt";
  }

  /** "data.csv" at timestamp "T" gets the summary name "data_T.txt_T.txt". */
  lemma SummaryNameDoubled()
    ensures SummaryNameAsWritten("data.csv", "T") == "data_T.txt_T.txt"
  {
    DataCsvExtension();
    DataCsvSuffixes();
  }

  /** Whenever the name has an extension, the suffix appears twice. */
  lemma SummaryNameAsWrittenDoubles(name: string, timestamp: string)
    requires ExtensionStart(name) >= 0
    ensures SummaryNameAsWritten(name, timestamp) == SummaryName(name, timestamp) + SummarySuffix(timestamp)
    ensures SummaryNameAsWritten(name, timestamp) != SummaryName(name, timestamp)
  {
  }

  /** The summary name meant: the extension, if any, replaced by "_" + timestamp + ".txt". */
  function SummaryName(name: string, timestamp: string): string
  {
    Stem(name) + SummarySuffix(timestamp)
  }

  /**
   * The summary name is the stem followed by the suffix once: it ends with
   * ".txt", and a name without an extension keeps all of its characters.
   */
  lemma SummaryNameParts(name: string, timestamp: string)
    ensures var r := SummaryName(name, timestamp);
            EndsWith(r, ".txt") && r[..|Stem(name)|] == Stem(name) &&
            r[|Stem(name)|..] == SummarySuffix(timestamp)
    ensures ExtensionStart(name) == -1 ==> SummaryName(name, timestamp) == name + SummarySuffix(timestamp)
  {
    ConcatEndsWith("_" + timestamp, ".txt");
    EndsWithExtend(Stem(name), SummarySuffix(timestamp), ".txt");
  }

  lemma ConcatEndsWith(front: string, suffix: string)
    ensures EndsWith(front + suffix, suffix)
  {
    assert (front + suffix)[|front|..] == suffix;
  }

  lemma EndsWithExtend(front: string, s: string, suffix: string)
    requires EndsWith(s, suffix)
    ensures EndsWith(front + s, suffix)
  {
    var t := front + s;
    forall k | 0 <= k < |suffix| ensures t[|t| - |suffix|..][k] == suffix[k] {
      assert t[|t| - |suffix| + k] == s[|s| - |suffix| + k];
      assert s[|s| - |suffix|..][k] == suffix[k];
    }
  }

  // ---------------------------------------------------------------------
  // handleCompression

  /** A file whose name ends in ".gz" or ".gzip" is read through a GZIP stream. */
  predicate IsCompressedName(name: string)
  {
    EndsWith(name, ".gz") || EndsWith(name, ".gzip")
  }

  /** ".gz" and ".gzip" names are compressed; a name without '.' is not. */
  lemma CompressedNames(stem: string)
    ensures IsCompressedName(stem + ".gz") && IsCompressedName(stem + ".gzip")
    ensures '.' !in stem ==> !IsCompressedName(stem)
  {
    ConcatEndsWith(stem, ".gz");
    ConcatEndsWith(stem, ".gzip");
    if EndsWith(stem, ".gz") {
      assert stem[|stem| - 3..][0] == stem[|stem| - 3];
    }
    if EndsWith(stem, ".gzip") {
      assert stem[|stem| - 5..][0] == stem[|stem| - 5];
    }
  }
}
