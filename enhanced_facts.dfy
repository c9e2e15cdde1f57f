/**
 * What one poll of the enhanced task promises, proved about the functions
 * of `EnhancedPolls`: where a file resumes, which lines are skipped and
 * counted, how many records one poll can add, how invalid lines are routed,
 * when a file ends and what its end resets.
 */
module EnhancedFacts {
  import opened Wrappers
  import opened JavaStrings
  import opened ConnectData
  import opened RecordShaping
  import opened RemotePorts
  import opened EnhancedPolls
  import FileOffsets
  import ValidationResults
  import ArchiveNames

  // ---------------------------------------------------------------------
  // the resume line

  /**
   * A file whose stored checkpoint is the offset of one of its records at
   * line k, and whose content still has that fingerprint and size, resumes
   * at line k.
   */
  lemma ResumeAtCheckpoint(env: Environment, t: Task, name: string, off: FileOffsets.FileOffset, k: int,
                           bytes: Bytes, moment: Moment)
    requires StoredOffset(env, name) == Some(LineOffset(off, k))
    requires off.fileHash == Some(env.fingerprint(bytes)) && off.fileSize == |bytes|
    ensures var previous := FileOffsets.FromMap(StoredOffset(env, name));
            previous.Ok? && Begun(env, t, name, previous.value, bytes, moment).resumeFromLine == k
  {
    FileOffsets.FromMapToMap(off.(lineNumber := k));
  }

  /** Without a checkpoint, or when the content's fingerprint or size changed, the file is read from line 0. */
  lemma RestartOnChangedContent(env: Environment, t: Task, name: string, previous: Option<FileOffsets.FileOffset>,
                                bytes: Bytes, moment: Moment)
    requires previous.None? || previous.value.fileHash != Some(env.fingerprint(bytes)) ||
             previous.value.fileSize != |bytes|
    ensures Begun(env, t, name, previous, bytes, moment).resumeFromLine == 0
  {
  }

  // ---------------------------------------------------------------------
  // the skip loops

  /** Every header line and every resumed line is counted as skipped. */
  lemma OpenedSkipsCounted(c: Config, env: Environment, t: Task, name: string, previous: Option<FileOffsets.FileOffset>,
                           bytes: Bytes, moment: Moment)
    ensures Opened(c, env, t, name, previous, bytes, moment).linesSkipped ==
            Max0(c.skipHeaderLines) + Max0(Begun(env, t, name, previous, bytes, moment).resumeFromLine)
  {
  }

  /** Dropping a lines and then b lines drops a + b lines, as far as there are any. */
  lemma DropTwice(lines: seq<string>, a: nat, b: nat)
    ensures var rest := lines[Min(a, |lines|)..];
            rest[Min(b, |rest|)..] == lines[Min(a + b, |lines|)..]
  {
  }

  /** After the skip loops, the reader is past the header lines and the resumed lines of the file. */
  lemma OpenedReaderPastSkips(c: Config, env: Environment, t: Task, name: string, previous: Option<FileOffsets.FileOffset>,
                              bytes: Bytes, moment: Moment)
    ensures var lines := env.decode(bytes);
            var skips := Max0(c.skipHeaderLines) + Max0(Begun(env, t, name, previous, bytes, moment).resumeFromLine);
            Opened(c, env, t, name, previous, bytes, moment).reader == Reading(lines[Min(skips, |lines|)..])
  {
    var t1 := Begun(env, t, name, previous, bytes, moment);
    DropTwice(env.decode(bytes), Max0(c.skipHeaderLines), Max0(t1.resumeFromLine));
  }

  // ---------------------------------------------------------------------
  // the read loop

  /**
   * The window is never negative; with a footer count of 0 or more it is
   * the buffered lines less the footer, none when fewer are buffered. A
   * negative footer count makes it longer than the buffered lines.
   */
  lemma WindowBounds(c: Config, buffered: nat)
    ensures c.skipFooterLines >= 0 ==> Window(c, buffered) == Max0(buffered - c.skipFooterLines) <= buffered
    ensures c.skipFooterLines < 0 ==> Window(c, buffered) > buffered
  {
  }

  /** A line that is blank (when configured) or a comment adds no record and one skipped line. */
  lemma SkippableLineSkipped(c: Config, env: Environment, src: Source, st: Scan, line: string, instant: string)
    requires Skippable(c, line)
    ensures Step(c, env, src, st, line, instant) == st.(linesSkipped := st.linesSkipped + 1)
  {
  }

  /** The records after a step are the records before it, with at most one more at the end. */
  predicate AppendsAtMostOne(before: seq<SourceRecord>, after: seq<SourceRecord>)
  {
    |before| <= |after| <= |before| + 1 && after[..|before|] == before
  }

  lemma KeyedAppendsAtMostOne(c: Config, env: Environment, src: Source, st: Scan, line: string, rm: RecordModel, instant: string)
    ensures AppendsAtMostOne(st.records, Keyed(c, env, src, st, line, rm, instant).scan.records)
  {
  }

  lemma AttemptAppendsAtMostOne(c: Config, env: Environment, src: Source, st: Scan, line: string,
                                model: Result<RecordModel>, instant: string)
    ensures AppendsAtMostOne(st.records, Attempt(c, env, src, st, line, model, instant).scan.records)
  {
    if model.Ok? && ValidationOf(c, env, model.value.value).Ok? {
      var v := ValidationOf(c, env, model.value.value).value;
      var st1 := if v.valid then st else Rejected(c, src, st, line, v, instant);
      KeyedAppendsAtMostOne(c, env, src, st1, line, model.value, instant);
    }
  }

  /** One line adds at most one record, after the ones already there. */
  lemma StepAppendsAtMostOne(c: Config, env: Environment, src: Source, st: Scan, line: string, instant: string)
    ensures AppendsAtMostOne(st.records, Step(c, env, src, st, line, instant).records)
  {
    if !Skippable(c, line) {
      var shaped := ShapeCached(c, st.cache, line);
      AttemptAppendsAtMostOne(c, env, src, st.(cache := shaped.cache), line, shaped.model, instant);
    }
  }

  /** The loop adds no more than `maxRecordsPerPoll` records in all. */
  lemma {:induction false} ScanWithinCap(c: Config, env: Environment, src: Source, lines: seq<string>, window: int,
                                         i: nat, st: Scan, instant: string)
    requires |st.records| <= Max0(c.maxRecordsPerPoll)
    ensures |ScanFrom(c, env, src, lines, window, i, st, instant).records| <= Max0(c.maxRecordsPerPoll)
    decreases window - i
  {
    if !(st.aborted || i >= window || |st.records| >= c.maxRecordsPerPoll || i >= |lines|) {
      StepAppendsAtMostOne(c, env, src, st, lines[i], instant);
      ScanWithinCap(c, env, src, lines, window, i + 1, Step(c, env, src, st, lines[i], instant), instant);
    }
  }

  /** The loop keeps the records it started with and adds at most one per line of the window it reads. */
  lemma {:induction false} ScanWithinWindow(c: Config, env: Environment, src: Source, lines: seq<string>, window: int,
                                            i: nat, st: Scan, instant: string)
    ensures var r := ScanFrom(c, env, src, lines, window, i, st, instant).records;
            |st.records| <= |r| <= |st.records| + Max0(window - i) && r[..|st.records|] == st.records
    decreases window - i
  {
    if !(st.aborted || i >= window || |st.records| >= c.maxRecordsPerPoll || i >= |lines|) {
      var st1 := Step(c, env, src, st, lines[i], instant);
      StepAppendsAtMostOne(c, env, src, st, lines[i], instant);
      ScanWithinWindow(c, env, src, lines, window, i + 1, st1, instant);
      var r := ScanFrom(c, env, src, lines, window, i + 1, st1, instant).records;
      assert r[..|st.records|] == r[..|st1.records|][..|st.records|];
    }
  }

  /** The footer lines are never looked at: the loop reads the same over the window alone. */
  lemma {:induction false} ScanOnlyWindow(c: Config, env: Environment, src: Source, lines: seq<string>, window: int,
                                          i: nat, st: Scan, instant: string)
    requires 0 <= window <= |lines|
    ensures ScanFrom(c, env, src, lines, window, i, st, instant) ==
            ScanFrom(c, env, src, lines[..window], window, i, st, instant)
    decreases window - i
  {
    if !(st.aborted || i >= window || |st.records| >= c.maxRecordsPerPoll) {
      assert lines[..window][i] == lines[i];
      ScanOnlyWindow(c, env, src, lines, window, i + 1, Step(c, env, src, st, lines[i], instant), instant);
    }
  }

  /** One poll's loop over a file adds at most `maxRecordsPerPoll` records, and none past the window. */
  lemma PollWithinCap(c: Config, env: Environment, t: Task, lines: seq<string>, instant: string)
    requires Attached(t) && !t.reader.Idle?
    ensures |ScanOf(c, env, t, lines, instant).records| <= Min(Max0(c.maxRecordsPerPoll), Window(c, |lines|))
  {
    var src := Source(t.filename.value, t.offset.value);
    var st := Scan(t.linesProcessed, t.linesSkipped, t.cache, t.metrics, [], [], false);
    ScanWithinCap(c, env, src, lines, Window(c, |lines|), 0, st, instant);
    ScanWithinWindow(c, env, src, lines, Window(c, |lines|), 0, st, instant);
  }

  // ---------------------------------------------------------------------
  // invalid lines

  /** Under strict validation an invalid line adds no record and counts as processed. */
  lemma StrictDropsInvalid(c: Config, env: Environment, src: Source, st: Scan, line: string, rm: RecordModel,
                           v: ValidationResults.ValidationResult, instant: string)
    requires !v.valid && c.strict
    ensures var h := Judged(c, env, src, st, line, rm, v, instant);
            h.scan.records == st.records && h.scan.linesProcessed == st.linesProcessed + 1
  {
  }

  /** Otherwise an invalid line whose key can be built is still emitted, as the next record. */
  lemma LenientEmitsInvalid(c: Config, env: Environment, src: Source, st: Scan, line: string, rm: RecordModel,
                            v: ValidationResults.ValidationResult, instant: string)
    requires !v.valid && !c.strict
    requires c.json && rm.value.Record? ==> KeyOf(rm.value.data, c.keyField).Ok?
    ensures var r := Judged(c, env, src, st, line, rm, v, instant).scan.records;
            |r| == |st.records| + 1 && r[..|st.records|] == st.records && r[|st.records|].value == rm.value
  {
  }

  /** A rejected line adds a dead-letter record exactly when the dead-letter queue is on. */
  lemma RejectedRoutedIff(c: Config, src: Source, st: Scan, line: string, v: ValidationResults.ValidationResult,
                          instant: string)
    ensures |Rejected(c, src, st, line, v, instant).dlq| == |st.dlq| + (if c.dlqEnabled then 1 else 0)
  {
  }

  /** The six dead-letter field names are distinct, so each is found at its own position. */
  lemma DlqFieldIndex()
    ensures FieldIndex(DlqFields, "original_line") == 0 && FieldIndex(DlqFields, "error_type") == 1
    ensures FieldIndex(DlqFields, "error_message") == 2 && FieldIndex(DlqFields, "source_file") == 3
    ensures FieldIndex(DlqFields, "line_number") == 4 && FieldIndex(DlqFields, "timestamp") == 5
  {
    assert DistinctNames(DlqFields) by {
      assert BuildFields(DlqFields).Ok?;
    }
    IndexOfDistinct(DlqFields, 0);
    IndexOfDistinct(DlqFields, 1);
    IndexOfDistinct(DlqFields, 2);
    IndexOfDistinct(DlqFields, 3);
    IndexOfDistinct(DlqFields, 4);
    IndexOfDistinct(DlqFields, 5);
  }

  /**
   * The dead-letter record of a line: it goes to the dead-letter topic,
   * keyed by file name and line number, and its six fields read back as
   * the line, the error type, the message, the file name, the line number
   * and the instant.
   */
  lemma DlqRecordFields(c: Config, filename: string, offset: FileOffsets.FileOffset, line: string,
                        errorType: string, message: string, number: nat, instant: string)
    ensures var d := DlqRecord(c, filename, offset, line, errorType, message, number, instant);
            d.partition == filename && d.topic == c.dlqTopic && d.key == Some(filename + ":" + NatToString(number))
            && d.offset == Checkpoint(LineOffset(offset, number)) && d.value.Record?
            && Get(d.value.data, "original_line") == Ok(Text(line))
            && Get(d.value.data, "error_type") == Ok(Text(errorType))
            && Get(d.value.data, "error_message") == Ok(Text(message))
            && Get(d.value.data, "source_file") == Ok(Text(filename))
            && Get(d.value.data, "line_number") == Ok(Int64(number))
            && Get(d.value.data, "timestamp") == Ok(Text(instant))
  {
    DlqFieldIndex();
  }

  /**
   * With the dead-letter queue on, a rejected line appends exactly the
   * dead-letter record of that line with error type VALIDATION_ERROR, the
   * joined validation message and the current line number.
   */
  lemma RejectedRecordTyped(c: Config, src: Source, st: Scan, line: string, v: ValidationResults.ValidationResult,
                            instant: string)
    requires c.dlqEnabled
    ensures Rejected(c, src, st, line, v, instant).dlq ==
            st.dlq + [DlqRecord(c, src.filename, src.offset, line, ValidationErrorType,
                                ValidationResults.ErrorMessage(v), st.linesProcessed + st.linesSkipped, instant)]
  {
  }

  /**
   * With the dead-letter queue on, a line whose processing threw appends
   * exactly the dead-letter record of that line with error type
   * PROCESSING_ERROR, the exception's message and the current line number.
   */
  lemma FailedRecordTyped(c: Config, src: Source, st: Scan, line: string, message: string, instant: string)
    requires c.dlqEnabled
    ensures Failed(c, src, st, line, message, instant).dlq ==
            st.dlq + [DlqRecord(c, src.filename, src.offset, line, ProcessingErrorType,
                                message, st.linesProcessed + st.linesSkipped, instant)]
  {
  }

  /** A line whose processing failed moves neither counter, so the next line gets the same line number. */
  lemma FailedKeepsLineNumber(c: Config, src: Source, st: Scan, line: string, message: string, instant: string)
    ensures var st1 := Failed(c, src, st, line, message, instant);
            st1.linesProcessed + st1.linesSkipped == st.linesProcessed + st.linesSkipped
  {
  }

  /**
   * With a metrics interval of 0 the check after a line that is not
   * skipped throws, unless strict validation dropped the line.
   */
  lemma ZeroIntervalAborts(c: Config, env: Environment, src: Source, st: Scan, line: string, instant: string)
    requires c.metricsIntervalLines == 0 && !c.strict && !Skippable(c, line)
    ensures Step(c, env, src, st, line, instant).aborted
  {
  }

  // ---------------------------------------------------------------------
  // the end of a file

  /** A closed reader makes every poll throw, and nothing is called or reset. */
  lemma ClosedReaderIsStuck(c: Config, env: Environment, t: Task, server: Server, n: nat, moment: Moment)
    requires Attached(t) && t.reader.Closed?
    ensures PollOutcome(c, env, t, server, n, moment) == Thrown(t, [])
  {
  }

  /**
   * When the loop did not throw and the window is all of the buffered
   * lines or none of them, the file ends: the staged file is deleted first.
   */
  lemma EndOfFileDeletes(c: Config, env: Environment, t: Task, lines: seq<string>, server: Server, n: nat, moment: Moment)
    requires Attached(t) && t.reader == Reading(lines)
    requires !ScanOf(c, env, t, lines, moment.instant).aborted
    requires Window(c, |lines|) == |lines| || Window(c, |lines|) == 0
    ensures var o := Process(c, env, t, server, n, moment);
            |o.calls| > 0 && o.calls[0] == Call.DeleteFile(t.staged.value)
  {
  }

  /** Otherwise the file stays in flight with its reader drained, no call is made and the records are returned. */
  lemma WithinFileContinues(c: Config, env: Environment, t: Task, lines: seq<string>, server: Server, n: nat, moment: Moment)
    requires Attached(t) && t.reader == Reading(lines)
    requires !ScanOf(c, env, t, lines, moment.instant).aborted
    requires 0 < Window(c, |lines|) < |lines|
    ensures var o := Process(c, env, t, server, n, moment);
            o.calls == [] && o.task.reader == Reading([]) && o.result.Ok?
  {
  }

  /**
   * Without footer lines a poll that does not throw never leaves the file
   * open: the lines beyond `maxRecordsPerPoll` are drained and lost.
   */
  lemma NoFooterEndsFile(c: Config, env: Environment, t: Task, lines: seq<string>, server: Server, n: nat, moment: Moment)
    requires Attached(t) && t.reader == Reading(lines) && c.skipFooterLines == 0
    requires !ScanOf(c, env, t, lines, moment.instant).aborted
    ensures !Process(c, env, t, server, n, moment).task.reader.Reading?
  {
  }

  /** A drained reader left in flight ends the file on the next poll. */
  lemma DrainedReaderEnds(c: Config, env: Environment, t: Task, server: Server, n: nat, moment: Moment)
    requires Attached(t) && t.reader == Reading([]) && c.skipFooterLines >= 0
    ensures var o := Process(c, env, t, server, n, moment);
            |o.calls| > 0 && o.calls[0] == Call.DeleteFile(t.staged.value)
  {
    assert Window(c, 0) == 0;
  }

  /**
   * Once the staged file is deleted and the summary written, the task is
   * idle again: no reader, file name, staged path or offset, and resume line 0.
   */
  lemma FinishResets(c: Config, t: Task, emitted: seq<SourceRecord>, server: Server, n: nat, moment: Moment)
    requires Attached(t) && t.reader.Closed?
    requires DoneOf(Respond(server, Call.DeleteFile(t.staged.value), n)).Ok?
    requires DoneOf(Respond(server, Call.WriteTextFile(c.archiveDir + "/" +
               ArchiveNames.SummaryNameAsWritten(t.filename.value, moment.timestamp), moment.summary), n + 1)).Ok?
    ensures var o := Finish(c, t, emitted, server, n, moment);
            o.task.reader.Idle? && o.task.filename.None? && o.task.staged.None? && o.task.offset.None? &&
            o.task.resumeFromLine == 0 && o.result == Ok(emitted)
  {
  }

  /** A poll on a file in flight that throws keeps the file's names and offset. */
  lemma ProcessErrorKeepsFile(c: Config, env: Environment, t: Task, server: Server, n: nat, moment: Moment)
    requires Attached(t) && !t.reader.Idle?
    ensures var o := Process(c, env, t, server, n, moment);
            o.result.Err? ==> o.task.filename == t.filename && o.task.staged == t.staged && o.task.offset == t.offset
  {
  }

  // ---------------------------------------------------------------------
  // opening a file

  /** With no file in flight, an empty listing returns an empty batch and stages nothing. */
  lemma EmptyListing(c: Config, env: Environment, t: Task, server: Server, n: nat, moment: Moment)
    requires Attached(t) && t.reader.Idle?
    requires PathsOf(Respond(server, Call.ListFiles(c.directory, c.filePattern), n)) == Ok([])
    ensures PollOutcome(c, env, t, server, n, moment) == Outcome(t, [Call.ListFiles(c.directory, c.filePattern)], Ok([]))
  {
  }

  /** A listing that throws fails the poll with no other call. */
  lemma FailedListing(c: Config, env: Environment, t: Task, server: Server, n: nat, moment: Moment)
    requires Attached(t) && t.reader.Idle?
    requires PathsOf(Respond(server, Call.ListFiles(c.directory, c.filePattern), n)).Err?
    ensures PollOutcome(c, env, t, server, n, moment) == Thrown(t, [Call.ListFiles(c.directory, c.filePattern)])
  {
  }

  /** The first listed file is moved to the stage directory under its base name, right after the listing. */
  lemma StagingMovesFirst(c: Config, env: Environment, t: Task, server: Server, n: nat, moment: Moment, files: seq<string>)
    requires PathsOf(Respond(server, Call.ListFiles(c.directory, c.filePattern), n)) == Ok(files) && |files| > 0
    requires FileOffsets.FromMap(StoredOffset(env, BaseName(files[0]))).Ok?
    ensures var o := Open(c, env, t, server, n, moment);
            |o.calls| >= 2 && o.calls[1] == Call.MoveFile(files[0], c.stageDir + "/" + BaseName(files[0]))
  {
  }

  // ---------------------------------------------------------------------
  // the schema cache

  /** A schema cached for the signature of `n` fields is reused, and the cache is left as it is. */
  lemma SchemaReused(headers: Option<seq<string>>, cache: SchemaCache, n: nat)
    requires cache.signature == Signature(headers, n)
    ensures SchemaFor(headers, Some(cache), n) == Lookup(Ok(cache.fields), Some(cache))
  {
  }

  /**
   * Without a cached schema for the signature of `n` fields, the schema is
   * built afresh from the field names; a failed build leaves the cache as it is.
   */
  lemma SchemaRebuilt(headers: Option<seq<string>>, cache: Option<SchemaCache>, n: nat)
    requires cache.None? || cache.value.signature != Signature(headers, n)
    ensures var l := SchemaFor(headers, cache, n);
            l.schema == BuildFields(FieldsFor(headers, n)) && (l.schema.Err? ==> l.cache == cache)
  {
  }

  /** After a lookup that gives a schema, the cache holds that schema under the signature of `n` fields. */
  lemma SchemaCacheKeyed(headers: Option<seq<string>>, cache: Option<SchemaCache>, n: nat)
    ensures var l := SchemaFor(headers, cache, n);
            l.schema.Ok? ==> l.cache == Some(SchemaCache(Signature(headers, n), l.schema.value))
  {
  }
}
