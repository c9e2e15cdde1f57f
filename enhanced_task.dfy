/**
 * The enhanced source task object: its in-flight fields, its schema cache
 * and its metrics object, updated by `poll` as the functions of
 * `EnhancedPolls` say.
 */
module EnhancedTasks {
  import opened Wrappers
  import opened JavaStrings
  import opened ConnectData
  import opened RecordShaping
  import opened RemotePorts
  import opened EnhancedPolls
  import FileOffsets
  import Metrics
  import ConfigurableValidators
  import ValidationResults
  import ArchiveNames

  class FtpSourceTaskEnhanced {
    const config: Config
    const env: Environment
    const port: RemotePort
    const metrics: Metrics.ProcessingMetrics

    var reader: Reader
    var filename: Option<string>
    var staged: Option<string>
    var offset: Option<FileOffsets.FileOffset>
    var resumeFromLine: int
    var linesProcessed: nat
    var linesSkipped: nat
    var cache: Option<SchemaCache>

    function State(): Task
      reads this, metrics
    {
      Task(reader, filename, staged, offset, resumeFromLine, linesProcessed, linesSkipped, cache, metrics.Snapshot())
    }

    /** The state of the read loop, with the records gathered so far. */
    function ScanState(records: seq<SourceRecord>, dlq: seq<SourceRecord>, aborted: bool): Scan
      reads this, metrics
    {
      Scan(linesProcessed, linesSkipped, cache, metrics.Snapshot(), records, dlq, aborted)
    }

    static ghost predicate ValidatorReady(c: Config)
    {
      c.validator.Some? ==> ConfigurableValidators.WellFormed(c.validator.value)
    }

    ghost predicate Valid()
      reads this, metrics
    {
      Attached(State()) && ValidatorReady(config)
    }

    /** The task as `start` leaves it after connecting: idle, fresh metrics, and the pre-built schema if any. */
    constructor (config: Config, env: Environment, port: RemotePort)
      requires config.validator.Some? ==> ConfigurableValidators.WellFormed(config.validator.value)
      ensures this.config == config && this.env == env && this.port == port && fresh(metrics)
      ensures State() == Task(Idle, None, None, None, 0, 0, 0, Prebuilt(config), Metrics.Zero()) && Valid()
    {
      this.config := config;
      this.env := env;
      this.port := port;
      metrics := new Metrics.ProcessingMetrics();
      reader, filename, staged, offset := Idle, None, None, None;
      resumeFromLine, linesProcessed, linesSkipped := 0, 0, 0;
      cache := None;
      if config.json && config.headers.Some? && |config.headers.value| > 0 {
        var built := BuildSchema(FieldsFor(config.headers, |config.headers.value|));
        if built.Ok? {
          cache := Some(SchemaCache(Join(config.headers.value, ","), built.value));
        }
      }
    }

    // -------------------------------------------------------------------
    // shaping

    /** `getOrBuildSchema`. */
    method GetOrBuildSchema(n: nat) returns (r: Result<seq<Field>>)
      modifies this
      ensures var l := SchemaFor(config.headers, old(cache), n);
              r == l.schema && State() == old(State()).(cache := l.cache)
    {
      var signature := Signature(config.headers, n);
      if cache.Some? && cache.value.signature == signature {
        return Ok(cache.value.fields);
      }
      r := BuildSchema(FieldsFor(config.headers, n));
      if r.Ok? {
        cache := Some(SchemaCache(signature, r.value));
      }
    }

    /** `buildRecordModel`. */
    method BuildRecordModel(line: string) returns (r: Result<RecordModel>)
      modifies this
      ensures var s := ShapeCached(config, old(cache), line);
              r == s.model && State() == old(State()).(cache := s.cache)
    {
      if !config.json {
        return Ok(RecordModel(Line(line), StringSchema));
      }
      var parts := SplitLiteral(line, config.tokenizer);
      var schema := GetOrBuildSchema(|parts|);
      if schema.Err? {
        return Err(schema.message);
      }
      var s := FillStruct(schema.value, config.headers, parts);
      if s.Err? {
        return Err(s.message);
      }
      r := Ok(RecordModel(Record(s.value), StructSchema(true, schema.value)));
    }

    // -------------------------------------------------------------------
    // the read loop

    /** The processing error of a line: counted, and routed to the DLQ. */
    method ProcessingError(src: Source, line: string, message: string, records: seq<SourceRecord>,
                           dlq: seq<SourceRecord>, instant: string) returns (dlq': seq<SourceRecord>)
      modifies metrics
      ensures ScanState(records, dlq', false) == Failed(config, src, old(ScanState(records, dlq, false)), line, message, instant)
    {
      metrics.IncrementErrors();
      var rec := DlqRecord(config, src.filename, src.offset, line, ProcessingErrorType, message,
                           linesProcessed + linesSkipped, instant);
      dlq' := Routed(config, dlq, rec);
    }

    /** The `try` block on a shaped line: shaping errors, then validation. */
    method TryLine(src: Source, line: string, model: Result<RecordModel>, records: seq<SourceRecord>,
                   dlq: seq<SourceRecord>, instant: string)
      returns (records': seq<SourceRecord>, dlq': seq<SourceRecord>, checked: bool)
      requires config.validator.Some? ==> ConfigurableValidators.WellFormed(config.validator.value)
      modifies this, metrics
      ensures Handled(ScanState(records', dlq', false), checked) ==
              Attempt(config, env, src, old(ScanState(records, dlq, false)), line, model, instant)
      ensures reader == old(reader) && filename == old(filename) && staged == old(staged)
      ensures offset == old(offset) && resumeFromLine == old(resumeFromLine)
    {
      if model.Err? {
        dlq' := ProcessingError(src, line, model.message, records, dlq, instant);
        return records, dlq', true;
      }
      var value := model.value.value;
      var v: Result<ValidationResults.ValidationResult> := Ok(ValidationResults.Valid());
      if config.validator.Some? && value.Record? {
        v := ConfigurableValidators.Validate(config.validator.value, value.data, env.library);
      }
      if v.Err? {
        dlq' := ProcessingError(src, line, v.message, records, dlq, instant);
        return records, dlq', true;
      }
      records', dlq', checked := JudgeLine(src, line, model.value, v.value, records, dlq, instant);
    }

    /** A validated line: rejected when invalid, and dropped when also strict. */
    method JudgeLine(src: Source, line: string, rm: RecordModel, v: ValidationResults.ValidationResult,
                     records: seq<SourceRecord>, dlq: seq<SourceRecord>, instant: string)
      returns (records': seq<SourceRecord>, dlq': seq<SourceRecord>, checked: bool)
      modifies this, metrics
      ensures Handled(ScanState(records', dlq', false), checked) ==
              Judged(config, env, src, old(ScanState(records, dlq, false)), line, rm, v, instant)
      ensures reader == old(reader) && filename == old(filename) && staged == old(staged)
      ensures offset == old(offset) && resumeFromLine == old(resumeFromLine)
    {
      dlq' := dlq;
      if !v.valid {
        metrics.IncrementValidationErrors();
        var rec := DlqRecord(config, src.filename, src.offset, line, ValidationErrorType,
                             ValidationResults.ErrorMessage(v), linesProcessed + linesSkipped, instant);
        dlq' := Routed(config, dlq, rec);
        if config.strict {
          linesProcessed := linesProcessed + 1;
          return records, dlq', false;
        }
      }
      records', dlq', checked := EmitLine(src, line, rm, records, dlq', instant);
    }

    /** The key, and then the record with the line's checkpoint. */
    method EmitLine(src: Source, line: string, rm: RecordModel, records: seq<SourceRecord>,
                    dlq: seq<SourceRecord>, instant: string)
      returns (records': seq<SourceRecord>, dlq': seq<SourceRecord>, checked: bool)
      modifies this, metrics
      ensures Handled(ScanState(records', dlq', false), checked) ==
              Keyed(config, env, src, old(ScanState(records, dlq, false)), line, rm, instant)
      ensures reader == old(reader) && filename == old(filename) && staged == old(staged)
      ensures offset == old(offset) && resumeFromLine == old(resumeFromLine)
    {
      var key: Result<Option<string>> := Ok(None);
      if config.json && rm.value.Record? {
        key := BuildKafkaKey(rm.value.data, config.keyField);
      }
      if key.Err? {
        dlq' := ProcessingError(src, line, key.message, records, dlq, instant);
        return records, dlq', true;
      }
      var number := linesProcessed + linesSkipped;
      records' := records + [SourceRecord(src.filename, Checkpoint(LineOffset(src.offset, number)), config.topic,
                                          OptionalStringSchema, key.value, rm.schema, rm.value)];
      dlq', checked := dlq, true;
      linesProcessed := linesProcessed + 1;
      metrics.IncrementLines(1);
      metrics.IncrementBytes(env.encodedLength(line));
    }

    /** One line of the loop: the skips, the `try` block, and the metrics check. */
    method ProcessLine(src: Source, line: string, records: seq<SourceRecord>, dlq: seq<SourceRecord>, instant: string)
      returns (records': seq<SourceRecord>, dlq': seq<SourceRecord>, aborted: bool)
      requires config.validator.Some? ==> ConfigurableValidators.WellFormed(config.validator.value)
      modifies this, metrics
      ensures ScanState(records', dlq', aborted) == Step(config, env, src, old(ScanState(records, dlq, false)), line, instant)
      ensures reader == old(reader) && filename == old(filename) && staged == old(staged)
      ensures offset == old(offset) && resumeFromLine == old(resumeFromLine)
    {
      if config.skipEmptyLines && Trim(line) == "" {
        linesSkipped := linesSkipped + 1;
        return records, dlq, false;
      }
      if config.commentPrefix != "" && StartsWith(Trim(line), config.commentPrefix) {
        linesSkipped := linesSkipped + 1;
        return records, dlq, false;
      }
      var model := BuildRecordModel(line);
      var checked;
      records', dlq', checked := TryLine(src, line, model, records, dlq, instant);
      aborted := checked && config.metricsIntervalLines == 0;
    }

    /** The filtering loop over the window of the buffered lines. */
    method ProcessLines(src: Source, lines: seq<string>, window: int, instant: string)
      returns (records: seq<SourceRecord>, dlq: seq<SourceRecord>, aborted: bool)
      requires config.validator.Some? ==> ConfigurableValidators.WellFormed(config.validator.value)
      modifies this, metrics
      ensures ScanState(records, dlq, aborted) == ScanFrom(config, env, src, lines, window, 0, old(ScanState([], [], false)), instant)
      ensures reader == old(reader) && filename == old(filename) && staged == old(staged)
      ensures offset == old(offset) && resumeFromLine == old(resumeFromLine)
    {
      ghost var whole := ScanFrom(config, env, src, lines, window, 0, ScanState([], [], false), instant);
      records, dlq, aborted := [], [], false;
      var i: nat := 0;
      while !aborted && i < window && |records| < config.maxRecordsPerPoll
        invariant ScanFrom(config, env, src, lines, window, i, ScanState(records, dlq, aborted), instant) == whole
        invariant reader == old(reader) && filename == old(filename) && staged == old(staged)
        invariant offset == old(offset) && resumeFromLine == old(resumeFromLine)
        decreases window - i
      {
        if i >= |lines| {
          aborted := true;
          return;
        }
        records, dlq, aborted := ProcessLine(src, lines[i], records, dlq, instant);
        i := i + 1;
      }
    }

    /** The buffering loop: every remaining line is read into a list. */
    method BufferLines() returns (all: seq<string>)
      requires reader.Reading?
      modifies this
      ensures all == old(reader.rest) && State() == old(State()).(reader := Reading([]))
    {
      all := [];
      while |reader.rest| > 0
        invariant reader.Reading? && all + reader.rest == old(reader.rest)
        invariant State() == old(State()).(reader := reader)
        decreases |reader.rest|
      {
        all := all + [reader.rest[0]];
        reader := Reading(reader.rest[1..]);
      }
    }

    /** A skip loop: `count` calls of `readLine`, each counted as skipped. */
    method SkipLines(count: int)
      requires reader.Reading?
      modifies this
      ensures State() == Skipped(old(State()), count)
    {
      ghost var rest := reader.rest;
      var i := 0;
      while i < count
        invariant 0 <= i <= Max0(count)
        invariant State() == old(State()).(reader := Reading(rest[Min(i, |rest|)..]), linesSkipped := old(linesSkipped) + i)
      {
        if |reader.rest| > 0 {
          reader := Reading(reader.rest[1..]);
        }
        linesSkipped := linesSkipped + 1;
        i := i + 1;
      }
    }

    // -------------------------------------------------------------------
    // opening a file

    /** Listing, and staging the first file found. */
    method OpenNext(moment: Moment) returns (r: Result<seq<SourceRecord>>)
      requires reader.Idle?
      modifies this, metrics, port
      ensures Attached(State())
      ensures var o := Open(config, env, old(State()), port.server, old(|port.history|), moment);
              State() == o.task && port.history == old(port.history) + o.calls && r == o.result
    {
      ghost var h0 := port.history;
      var list := Call.ListFiles(config.directory, config.filePattern);
      var files := port.ListFiles(config.directory, config.filePattern);
      AnswerLast(port.server, h0, list);
      assert files == PathsOf(Respond(port.server, list, |h0|));
      if files.Err? {
        metrics.IncrementErrors();
        return Err(PollFailure);
      }
      if |files.value| == 0 {
        return Ok([]);
      }
      ghost var staging := Stage(config, env, State(), files.value[0], port.server, |port.history|, moment);
      r := StageFile(files.value[0], moment);
      HistoryAppend(h0, [list], staging.calls);
    }

    /** Staging a listed file, fingerprinting it and skipping to the first line to read. */
    method StageFile(file: string, moment: Moment) returns (r: Result<seq<SourceRecord>>)
      requires reader.Idle?
      modifies this, metrics, port
      ensures var o := Stage(config, env, old(State()), file, port.server, old(|port.history|), moment);
              State() == o.task && port.history == old(port.history) + o.calls && r == o.result
    {
      ghost var h0 := port.history;
      var name := BaseName(file);
      var path := config.stageDir + "/" + name;
      filename, staged := Some(name), Some(path);
      var previous := FileOffsets.FromMap(StoredOffset(env, name));
      if previous.Err? {
        metrics.IncrementErrors();
        return Err(PollFailure);
      }
      var move := Call.MoveFile(file, path);
      var moved := port.MoveFile(file, path);
      AnswerLast(port.server, h0, move);
      assert moved == DoneOf(Respond(port.server, move, |h0|));
      if moved.Err? {
        metrics.IncrementErrors();
        return Err(PollFailure);
      }
      ghost var h1 := port.history;
      var get := Call.RetrieveFileStream(path);
      var raw := port.RetrieveFileStream(path);
      AnswerLast(port.server, h1, get);
      HistoryTwoCalls(h0, move, get);
      assert raw == BytesOf(Respond(port.server, get, |h0| + 1));
      if raw.Err? {
        metrics.IncrementErrors();
        return Err(PollFailure);
      }
      var bytes := Unpacked(config, env, name, raw.value);
      if bytes.Err? {
        metrics.IncrementErrors();
        return Err(PollFailure);
      }
      OpenStream(name, previous.value, bytes.value, moment);
      r := Ok([]);
    }

    /** The file's bytes are in: fingerprint, resume line, reader, counters, metrics and the skip loops. */
    method OpenStream(name: string, previous: Option<FileOffsets.FileOffset>, bytes: Bytes, moment: Moment)
      modifies this, metrics
      ensures State() == Opened(config, env, old(State()), name, previous, bytes, moment)
    {
      BeginFile(name, previous, bytes, moment);
      SkipLines(config.skipHeaderLines);
      SkipLines(resumeFromLine);
    }

    method BeginFile(name: string, previous: Option<FileOffsets.FileOffset>, bytes: Bytes, moment: Moment)
      modifies this, metrics
      ensures State() == Begun(env, old(State()), name, previous, bytes, moment)
    {
      var current := FileOffsets.FileOffset(Some(name), Some(env.fingerprint(bytes)), 0, moment.now, |bytes|);
      offset := Some(current);
      resumeFromLine := ResumeLine(previous, current);
      reader := Reading(env.decode(bytes));
      linesProcessed, linesSkipped := 0, 0;
      metrics.StartFile(name, moment.now);
    }

    // -------------------------------------------------------------------
    // reading and finishing a file

    /** Deleting the staged file, writing the summary, ending the file in the metrics and clearing the fields. */
    method FinishFile(emitted: seq<SourceRecord>, moment: Moment) returns (r: Result<seq<SourceRecord>>)
      requires Valid() && reader.Closed?
      modifies this, metrics, port
      ensures var o := Finish(config, old(State()), emitted, port.server, old(|port.history|), moment);
              State() == o.task && port.history == old(port.history) + o.calls && r == o.result
    {
      ghost var h0 := port.history;
      var delete := Call.DeleteFile(staged.value);
      var deleted := port.DeleteFile(staged.value);
      AnswerLast(port.server, h0, delete);
      assert deleted == DoneOf(Respond(port.server, delete, |h0|));
      if deleted.Err? {
        metrics.IncrementErrors();
        return Err(PollFailure);
      }
      ghost var h1 := port.history;
      var path := config.archiveDir + "/" + ArchiveNames.SummaryNameAsWritten(filename.value, moment.timestamp);
      var write := Call.WriteTextFile(path, moment.summary);
      var written := port.WriteTextFile(path, moment.summary);
      AnswerLast(port.server, h1, write);
      HistoryTwoCalls(h0, delete, write);
      assert written == DoneOf(Respond(port.server, write, |h0| + 1));
      if written.Err? {
        metrics.IncrementErrors();
        return Err(PollFailure);
      }
      metrics.EndFile();
      reader, filename, staged, offset := Idle, None, None, None;
      resumeFromLine := 0;
      r := Ok(emitted);
    }

    /** A poll on the file in flight. */
    method ProcessFile(moment: Moment) returns (r: Result<seq<SourceRecord>>)
      requires Valid() && !reader.Idle?
      modifies this, metrics, port
      ensures var o := Process(config, env, old(State()), port.server, old(|port.history|), moment);
              State() == o.task && port.history == old(port.history) + o.calls && r == o.result
    {
      if reader.Closed? {
        metrics.IncrementErrors();
        return Err(PollFailure);
      }
      var lines := BufferLines();
      var window := Window(config, |lines|);
      var src := Source(filename.value, offset.value);
      var records, dlq, aborted := ProcessLines(src, lines, window, moment.instant);
      if aborted {
        metrics.IncrementErrors();
        return Err(PollFailure);
      }
      if window == |lines| || window == 0 {
        reader := Closed;
        r := FinishFile(records + dlq, moment);
        return;
      }
      r := Ok(records + dlq);
    }

    /** `poll` with no file in flight: list and stage, then read the file staged. */
    method PollNext(moment: Moment) returns (r: Result<seq<SourceRecord>>)
      requires Valid() && reader.Idle?
      modifies this, metrics, port
      ensures var o := PollOutcome(config, env, old(State()), port.server, old(|port.history|), moment);
              State() == o.task && port.history == old(port.history) + o.calls && r == o.result
    {
      ghost var h0 := port.history;
      ghost var o := Open(config, env, State(), port.server, |h0|, moment);
      r := OpenNext(moment);
      r := ReadStaged(r, moment, o, h0);
    }

    /** After the opening: nothing more when it threw or staged no file, else the file is read. */
    method ReadStaged(staged: Result<seq<SourceRecord>>, moment: Moment, ghost o: Outcome, ghost h0: seq<Call>)
      returns (r: Result<seq<SourceRecord>>)
      requires Valid() && State() == o.task && port.history == h0 + o.calls && staged == o.result
      modifies this, metrics, port
      ensures var p := AfterOpen(config, env, o, port.server, |h0|, moment);
              State() == p.task && port.history == h0 + p.calls && r == p.result
    {
      if staged.Err? || reader.Idle? {
        return staged;
      }
      ghost var o2 := Process(config, env, o.task, port.server, |h0| + |o.calls|, moment);
      r := ProcessFile(moment);
      HistoryAppend(h0, o.calls, o2.calls);
    }

    /** `poll`: the records and then the dead-letter records of this poll, or the ConnectException it throws. */
    method Poll(moment: Moment) returns (r: Result<seq<SourceRecord>>)
      requires Valid()
      modifies this, metrics, port
      ensures Valid()
      ensures var o := PollOutcome(config, env, old(State()), port.server, old(|port.history|), moment);
              State() == o.task && port.history == old(port.history) + o.calls && r == o.result
    {
      if reader.Idle? {
        r := PollNext(moment);
      } else {
        r := ProcessFile(moment);
      }
    }
  }
}
