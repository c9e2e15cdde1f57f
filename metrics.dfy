/**
 * The processing counters of the enhanced task: five totals over the
 * task's life, and the name, start time and line count of the file in
 * progress. The counters are plain unbounded integers read and written
 * by one thread.
 */
module Metrics {
  import opened Wrappers

  /** A snapshot of every counter. */
  datatype Counters = Counters(
    totalFilesProcessed: int,
    totalLinesProcessed: int,
    totalBytesProcessed: int,
    totalErrors: int,
    totalValidationErrors: int,
    currentFileStartTime: int,
    currentFileLinesProcessed: int,
    currentFileName: Option<string>)

  /** The five totals. */
  datatype Totals = Totals(files: int, lines: int, bytes: int, errors: int, validationErrors: int)

  function TotalsOf(c: Counters): Totals
  {
    Totals(c.totalFilesProcessed, c.totalLinesProcessed, c.totalBytesProcessed, c.totalErrors, c.totalValidationErrors)
  }

  function Plus(a: Totals, b: Totals): Totals
  {
    Totals(a.files + b.files, a.lines + b.lines, a.bytes + b.bytes, a.errors + b.errors, a.validationErrors + b.validationErrors)
  }

  /** The counters of a fresh object, and after `reset`. */
  function Zero(): Counters
  {
    Counters(0, 0, 0, 0, 0, 0, 0, None)
  }

  /** `startFile(name)` at clock reading `now`. */
  function Started(c: Counters, name: string, now: int): Counters
  {
    c.(currentFileName := Some(name), currentFileStartTime := now, currentFileLinesProcessed := 0)
  }

  /** `endFile()`. */
  function Ended(c: Counters): Counters
  {
    c.(totalFilesProcessed := c.totalFilesProcessed + 1, currentFileName := None,
       currentFileStartTime := 0, currentFileLinesProcessed := 0)
  }

  /** `incrementLines(count)`. */
  function LinesAdded(c: Counters, count: int): Counters
  {
    c.(totalLinesProcessed := c.totalLinesProcessed + count,
       currentFileLinesProcessed := c.currentFileLinesProcessed + count)
  }

  /** `incrementBytes(bytes)`. */
  function BytesAdded(c: Counters, bytes: int): Counters
  {
    c.(totalBytesProcessed := c.totalBytesProcessed + bytes)
  }

  /** `incrementErrors()`. */
  function ErrorAdded(c: Counters): Counters
  {
    c.(totalErrors := c.totalErrors + 1)
  }

  /** `incrementValidationErrors()`. */
  function ValidationErrorAdded(c: Counters): Counters
  {
    c.(totalValidationErrors := c.totalValidationErrors + 1)
  }

  // ---------------------------------------------------------------------
  // the counters as tallies of events

  /** One call on the metrics object. */
  datatype Event =
    | FileStarted(name: string, now: int)
    | FileEnded
    | Lines(count: int)
    | Bytes(count: int)
    | Error
    | ValidationError
    | ResetAll

  function Apply(c: Counters, e: Event): Counters
  {
    match e
    case FileStarted(name, now) => Started(c, name, now)
    case FileEnded => Ended(c)
    case Lines(n) => LinesAdded(c, n)
    case Bytes(n) => BytesAdded(c, n)
    case Error => ErrorAdded(c)
    case ValidationError => ValidationErrorAdded(c)
    case ResetAll => Zero()
  }

  /** The counters after a sequence of calls, oldest first. */
  function Replay(c: Counters, es: seq<Event>): Counters
  {
    if |es| == 0 then c else Apply(Replay(c, es[..|es| - 1]), es[|es| - 1])
  }

  /** What each event adds to the totals. */
  function Contribution(e: Event): Totals
  {
    match e
    case FileEnded => Totals(1, 0, 0, 0, 0)
    case Lines(n) => Totals(0, n, 0, 0, 0)
    case Bytes(n) => Totals(0, 0, n, 0, 0)
    case Error => Totals(0, 0, 0, 1, 0)
    case ValidationError => Totals(0, 0, 0, 0, 1)
    case _ => Totals(0, 0, 0, 0, 0)
  }

  /** The totals a sequence of events adds: files ended, lines and bytes counted, errors of each kind. */
  function Tally(es: seq<Event>): Totals
  {
    if |es| == 0 then Totals(0, 0, 0, 0, 0) else Plus(Tally(es[..|es| - 1]), Contribution(es[|es| - 1]))
  }

  /** Without a reset, each total grows by exactly the events of its own kind, and by nothing else. */
  lemma {:induction false} ReplayTallies(c: Counters, es: seq<Event>)
    requires forall k :: 0 <= k < |es| ==> !es[k].ResetAll?
    ensures TotalsOf(Replay(c, es)) == Plus(TotalsOf(c), Tally(es))
  {
    if |es| > 0 {
      var init := es[..|es| - 1];
      assert forall k :: 0 <= k < |init| ==> !init[k].ResetAll? by {
        forall k | 0 <= k < |init| ensures !init[k].ResetAll? { assert init[k] == es[k]; }
      }
      ReplayTallies(c, init);
      ApplyContributes(Replay(c, init), es[|es| - 1]);
      PlusAssociates(TotalsOf(c), Tally(init), Contribution(es[|es| - 1]));
    }
  }

  /** One call other than `reset` adds its contribution to the totals. */
  lemma ApplyContributes(c: Counters, e: Event)
    requires !e.ResetAll?
    ensures TotalsOf(Apply(c, e)) == Plus(TotalsOf(c), Contribution(e))
  {
  }

  lemma PlusAssociates(a: Totals, b: Totals, d: Totals)
    ensures Plus(Plus(a, b), d) == Plus(a, Plus(b, d))
  {
  }

  /** After a reset the totals are the tallies of the later events alone, whatever came before. */
  lemma {:induction false} ReplayAfterReset(c: Counters, before: seq<Event>, after: seq<Event>)
    requires forall k :: 0 <= k < |after| ==> !after[k].ResetAll?
    ensures TotalsOf(Replay(c, before + [ResetAll] + after)) == Tally(after)
  {
    var es := before + [ResetAll] + after;
    ReplayPrefix(c, before + [ResetAll], after);
    assert (before + [ResetAll])[..|before|] == before;
    assert Replay(c, before + [ResetAll]) == Zero();
    ReplayTallies(Zero(), after);
  }

  /** Replaying two sequences one after the other is replaying their concatenation. */
  lemma {:induction false} ReplayPrefix(c: Counters, first: seq<Event>, second: seq<Event>)
    ensures Replay(c, first + second) == Replay(Replay(c, first), second)
    decreases |second|
  {
    if |second| > 0 {
      var init := second[..|second| - 1];
      assert (first + second)[..|first + second| - 1] == first + init;
      ReplayPrefix(c, first, init);
    } else {
      assert first + second == first;
    }
  }

  /** `startFile` touches only the current-file fields. */
  lemma StartFileKeepsTotals(c: Counters, name: string, now: int)
    ensures TotalsOf(Started(c, name, now)) == TotalsOf(c)
    ensures Started(c, name, now).currentFileName == Some(name)
    ensures Started(c, name, now).currentFileLinesProcessed == 0
  {
  }

  /** `endFile` adds one processed file and clears the current file. */
  lemma EndFileCounts(c: Counters)
    ensures TotalsOf(Ended(c)) == Plus(TotalsOf(c), Totals(1, 0, 0, 0, 0))
    ensures Ended(c).currentFileName == None && Ended(c).currentFileLinesProcessed == 0
  {
  }

  /** `incrementLines` adds to the total and to the current file alike. */
  lemma IncrementLinesBoth(c: Counters, count: int)
    ensures LinesAdded(c, count).totalLinesProcessed - c.totalLinesProcessed == count
    ensures LinesAdded(c, count).currentFileLinesProcessed - c.currentFileLinesProcessed == count
  {
  }

  // ---------------------------------------------------------------------
  // the metrics object

  class ProcessingMetrics {
    var totalFilesProcessed: int
    var totalLinesProcessed: int
    var totalBytesProcessed: int
    var totalErrors: int
    var totalValidationErrors: int
    var currentFileStartTime: int
    var currentFileLinesProcessed: int
    var currentFileName: Option<string>

    function Snapshot(): Counters
      reads this
    {
      Counters(totalFilesProcessed, totalLinesProcessed, totalBytesProcessed, totalErrors,
               totalValidationErrors, currentFileStartTime, currentFileLinesProcessed, currentFileName)
    }

    constructor ()
      ensures Snapshot() == Zero()
    {
      totalFilesProcessed, totalLinesProcessed, totalBytesProcessed := 0, 0, 0;
      totalErrors, totalValidationErrors := 0, 0;
      currentFileStartTime, currentFileLinesProcessed, currentFileName := 0, 0, None;
    }

    method StartFile(filename: string, now: int)
      modifies this
      ensures Snapshot() == Started(old(Snapshot()), filename, now)
    {
      currentFileName := Some(filename);
      currentFileStartTime := now;
      currentFileLinesProcessed := 0;
    }

    method EndFile()
      modifies this
      ensures Snapshot() == Ended(old(Snapshot()))
    {
      totalFilesProcessed := totalFilesProcessed + 1;
      currentFileName := None;
      currentFileStartTime := 0;
      currentFileLinesProcessed := 0;
    }

    method IncrementLines(count: int)
      modifies this
      ensures Snapshot() == LinesAdded(old(Snapshot()), count)
    {
      totalLinesProcessed := totalLinesProcessed + count;
      currentFileLinesProcessed := currentFileLinesProcessed + count;
    }

    method IncrementBytes(bytes: int)
      modifies this
      ensures Snapshot() == BytesAdded(old(Snapshot()), bytes)
    {
      totalBytesProcessed := totalBytesProcessed + bytes;
    }

    method IncrementErrors()
      modifies this
      ensures Snapshot() == ErrorAdded(old(Snapshot()))
    {
      totalErrors := totalErrors + 1;
    }

    method IncrementValidationErrors()
      modifies this
      ensures Snapshot() == ValidationErrorAdded(old(Snapshot()))
    {
      totalValidationErrors := totalValidationErrors + 1;
    }

    method Reset()
      modifies this
      ensures Snapshot() == Zero()
    {
      totalFilesProcessed, totalLinesProcessed, totalBytesProcessed := 0, 0, 0;
      totalErrors, totalValidationErrors := 0, 0;
      currentFileStartTime, currentFileLinesProcessed, currentFileName := 0, 0, None;
    }
  }
}
