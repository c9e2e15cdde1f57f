/**
 * The enhanced source task (`FtpSourceTaskEnhanced`) as functions of its
 * fields: what one poll returns or throws, which remote calls it makes and
 * what it leaves in the fields.
 *
 * A poll with no file in flight lists the directory, stages the first
 * file, fingerprints its bytes, decides from the stored checkpoint where
 * to resume, and skips the header and resumed lines. Every poll then reads
 * all remaining lines, keeps all but the footer, and shapes, validates and
 * emits them until `maxRecordsPerPoll` records were added; lines that fail
 * go to the dead-letter list. At the end of the file the staged file is
 * deleted, a summary is written and the task becomes idle.
 */
module EnhancedPolls {
  import opened Wrappers
  import opened JavaStrings
  import opened ConnectData
  import opened RecordShaping
  import opened RemotePorts
  import opened ValidationRules
  import FileOffsets
  import Metrics
  import ConfigurableValidators
  import ValidationResults
  import ArchiveNames

  /** The message of the ConnectException every failure inside `poll` becomes. */
  const PollFailure := "Error during polling from remote server"

  const ValidationErrorType := "VALIDATION_ERROR"
  const ProcessingErrorType := "PROCESSING_ERROR"

  /** The task's configuration, as `start` leaves it. */
  datatype Config = Config(
    topic: string,
    directory: string,
    stageDir: string,
    archiveDir: string,
    filePattern: string,
    json: bool,                      // the lower-cased output format is "json"
    tokenizer: string,
    keyField: string,                // already trimmed
    maxRecordsPerPoll: int,
    autoDetectCompression: bool,
    skipHeaderLines: int,
    skipFooterLines: int,
    skipEmptyLines: bool,
    commentPrefix: string,
    validator: Option<ConfigurableValidators.RuleTable>,  // present when validation is on and rules are given
    strict: bool,                    // the validation mode is exactly "strict"
    dlqEnabled: bool,
    dlqTopic: string,
    metricsIntervalLines: int,
    headers: Option<seq<string>>)

  /**
   * What the task uses but this model does not contain: the charset
   * decoder and line reader, GZIP decompression, the MD5 fingerprint, the
   * encoded length of a line, the validation rules' libraries, and the
   * offsets stored under each "file" partition.
   */
  datatype Environment = Environment(
    decode: Bytes -> seq<string>,
    gunzip: Bytes -> Result<Bytes>,
    fingerprint: Bytes -> string,
    encodedLength: string -> int,
    library: JavaLibrary,
    storage: map<string, FileOffsets.OffsetMap>)

  /**
   * The readings of one poll: the clock in milliseconds, `Instant.now()`
   * as text for dead-letter records, the "yyyyMMdd_HHmmssSSS" timestamp and
   * the text of the summary file.
   */
  datatype Moment = Moment(now: int, instant: string, timestamp: string, summary: string)

  /** The single-slot schema cache: a signature and the schema built for it. */
  datatype SchemaCache = SchemaCache(signature: string, fields: seq<Field>)

  /** The reader of the file in flight: none, open at some remaining lines, or closed but not cleared. */
  datatype Reader = Idle | Reading(rest: seq<string>) | Closed

  /** The fields `poll` updates, with the counters of the metrics object. */
  datatype Task = Task(
    reader: Reader,
    filename: Option<string>,
    staged: Option<string>,
    offset: Option<FileOffsets.FileOffset>,
    resumeFromLine: int,
    linesProcessed: nat,
    linesSkipped: nat,
    cache: Option<SchemaCache>,
    metrics: Metrics.Counters)

  /** An open or closed reader belongs to a staged file with its fingerprint. */
  predicate Attached(t: Task)
  {
    !t.reader.Idle? ==>
      t.filename.Some? && t.staged.Some? && t.offset.Some? && t.offset.value.filename == t.filename
  }

  function Max0(n: int): nat
  {
    if n < 0 then 0 else n
  }

  function Min(a: int, b: int): int
  {
    if a < b then a else b
  }

  // ---------------------------------------------------------------------
  // shaping with the schema cache

  /** The schema cache `start` pre-builds when fixed headers are configured in json mode. */
  function Prebuilt(c: Config): Option<SchemaCache>
  {
    if c.json && c.headers.Some? && |c.headers.value| > 0 then
      match BuildFields(FieldsFor(c.headers, |c.headers.value|))
      case Ok(fs) => Some(SchemaCache(Join(c.headers.value, ","), fs))
      case Err(_) => None
    else None
  }

  datatype Lookup = Lookup(schema: Result<seq<Field>>, cache: Option<SchemaCache>)

  /**
   * `getOrBuildSchema(n)`: the cached schema when its signature is the one
   * of `n` fields; otherwise a schema built afresh, which replaces the
   * cache unless building it throws.
   */
  function SchemaFor(headers: Option<seq<string>>, cache: Option<SchemaCache>, n: nat): Lookup
  {
    var signature := Signature(headers, n);
    if cache.Some? && cache.value.signature == signature then Lookup(Ok(cache.value.fields), cache)
    else
      match BuildFields(FieldsFor(headers, n))
      case Err(m) => Lookup(Err(m), cache)
      case Ok(fs) => Lookup(Ok(fs), Some(SchemaCache(signature, fs)))
  }

  datatype Shaped = Shaped(model: Result<RecordModel>, cache: Option<SchemaCache>)

  /** `buildRecordModel` of the enhanced task: the struct goes into the schema the cache gives. */
  function ShapeCached(c: Config, cache: Option<SchemaCache>, line: string): Shaped
  {
    if !c.json then Shaped(Ok(RecordModel(Line(line), StringSchema)), cache)
    else
      var parts := SplitLiteral(line, c.tokenizer);
      var lookup := SchemaFor(c.headers, cache, |parts|);
      match lookup.schema
      case Err(m) => Shaped(Err(m), lookup.cache)
      case Ok(fs) =>
        match PutAll(NewStruct(fs), c.headers, parts)
        case Err(m) => Shaped(Err(m), lookup.cache)
        case Ok(s) => Shaped(Ok(RecordModel(Record(s), StructSchema(true, fs))), lookup.cache)
  }

  // ---------------------------------------------------------------------
  // records

  /** The offset a record of line `number` carries: the file's fingerprint with that line number. */
  function LineOffset(offset: FileOffsets.FileOffset, number: int): FileOffsets.OffsetMap
  {
    FileOffsets.ToMap(offset.(lineNumber := number))
  }

  const DlqFields: seq<Field> := [
    Field("original_line", RequiredString),
    Field("error_type", RequiredString),
    Field("error_message", RequiredString),
    Field("source_file", RequiredString),
    Field("line_number", RequiredInt64),
    Field("timestamp", RequiredString)]

  /** `sendToDLQ`: the dead-letter record of a line, keyed by file name and line number. */
  function DlqRecord(c: Config, filename: string, offset: FileOffsets.FileOffset, line: string,
                     errorType: string, message: string, number: nat, instant: string): SourceRecord
  {
    SourceRecord(filename, Checkpoint(LineOffset(offset, number)), c.dlqTopic, StringSchema,
                 Some(filename + ":" + NatToString(number)), StructSchema(false, DlqFields),
                 Record(Struct(DlqFields, [Text(line), Text(errorType), Text(message), Text(filename),
                                           Int64(number), Text(instant)])))
  }

  /** `handleValidationError` and `handleProcessingError`: a dead-letter record only when the DLQ is on. */
  function Routed(c: Config, dlq: seq<SourceRecord>, rec: SourceRecord): seq<SourceRecord>
  {
    if c.dlqEnabled then dlq + [rec] else dlq
  }

  // ---------------------------------------------------------------------
  // the read loop

  /**
   * The state of the read loop: the counters, the cache, the metrics, the
   * records and dead-letter records so far, and whether an exception
   * escaped the line's own handler.
   */
  datatype Scan = Scan(
    linesProcessed: nat,
    linesSkipped: nat,
    cache: Option<SchemaCache>,
    metrics: Metrics.Counters,
    records: seq<SourceRecord>,
    dlq: seq<SourceRecord>,
    aborted: bool)

  /** The file a loop reads: its name and fingerprint. */
  datatype Source = Source(filename: string, offset: FileOffsets.FileOffset)

  /** Whether a line is skipped without a record: blank (when configured), or a comment. */
  predicate Skippable(c: Config, line: string)
  {
    (c.skipEmptyLines && Trim(line) == "") ||
    (c.commentPrefix != "" && StartsWith(Trim(line), c.commentPrefix))
  }

  /** Whether a shaped value is validated: a validator exists and the value is a struct. */
  function ValidationOf(c: Config, env: Environment, value: Payload): Result<ValidationResults.ValidationResult>
  {
    if c.validator.Some? && value.Record? then ConfigurableValidators.ValidationOf(c.validator.value, value.data, env.library)
    else Ok(ValidationResults.Valid())
  }

  /** A line whose processing threw: an error counted and, with the DLQ on, a dead-letter record. */
  function Failed(c: Config, src: Source, st: Scan, line: string, message: string, instant: string): Scan
  {
    var number := st.linesProcessed + st.linesSkipped;
    st.(metrics := Metrics.ErrorAdded(st.metrics),
        dlq := Routed(c, st.dlq, DlqRecord(c, src.filename, src.offset, line, ProcessingErrorType, message, number, instant)))
  }

  /** A line that failed validation: counted, and routed to the DLQ when it is on. */
  function Rejected(c: Config, src: Source, st: Scan, line: string, v: ValidationResults.ValidationResult, instant: string): Scan
  {
    var number := st.linesProcessed + st.linesSkipped;
    st.(metrics := Metrics.ValidationErrorAdded(st.metrics),
        dlq := Routed(c, st.dlq, DlqRecord(c, src.filename, src.offset, line, ValidationErrorType,
                                           ValidationResults.ErrorMessage(v), number, instant)))
  }

  /** A record emitted: one more record, line processed and line/byte counts. */
  function Emitted(c: Config, env: Environment, src: Source, st: Scan, line: string, key: Option<string>, model: RecordModel): Scan
  {
    var number := st.linesProcessed + st.linesSkipped;
    var rec := SourceRecord(src.filename, Checkpoint(LineOffset(src.offset, number)), c.topic,
                            OptionalStringSchema, key, model.schema, model.value);
    st.(records := st.records + [rec], linesProcessed := st.linesProcessed + 1,
        metrics := Metrics.BytesAdded(Metrics.LinesAdded(st.metrics, 1), env.encodedLength(line)))
  }

  /** What happens to a line past the skips: the state, and whether the metrics check runs after it. */
  datatype Handled = Handled(scan: Scan, checked: bool)

  /** The `try` block of the loop on a line that was shaped as `model`. */
  function Attempt(c: Config, env: Environment, src: Source, st: Scan, line: string, model: Result<RecordModel>, instant: string): Handled
  {
    match model
    case Err(m) => Handled(Failed(c, src, st, line, m, instant), true)
    case Ok(rm) =>
      match ValidationOf(c, env, rm.value)
      case Err(m) => Handled(Failed(c, src, st, line, m, instant), true)
      case Ok(v) => Judged(c, env, src, st, line, rm, v, instant)
  }

  /**
   * A shaped line with its validation result: an invalid one is rejected,
   * and then, under strict validation, counted as processed and dropped.
   */
  function Judged(c: Config, env: Environment, src: Source, st: Scan, line: string, rm: RecordModel,
                  v: ValidationResults.ValidationResult, instant: string): Handled
  {
    var st1 := if v.valid then st else Rejected(c, src, st, line, v, instant);
    if !v.valid && c.strict then Handled(st1.(linesProcessed := st1.linesProcessed + 1), false)
    else Keyed(c, env, src, st1, line, rm, instant)
  }

  /** A line to emit: its key is built from the value, and a key that fails is a processing error. */
  function Keyed(c: Config, env: Environment, src: Source, st: Scan, line: string, rm: RecordModel, instant: string): Handled
  {
    var key := if c.json && rm.value.Record? then KeyOf(rm.value.data, c.keyField) else Ok(None);
    match key
    case Err(m) => Handled(Failed(c, src, st, line, m, instant), true)
    case Ok(k) => Handled(Emitted(c, env, src, st, line, k, rm), true)
  }

  /**
   * One line of the loop. After a line that reaches the metrics check,
   * `(linesProcessed + linesSkipped) % metricsIntervalLines` throws when the
   * interval is 0, and the exception leaves the loop.
   */
  function Step(c: Config, env: Environment, src: Source, st: Scan, line: string, instant: string): Scan
  {
    if Skippable(c, line) then st.(linesSkipped := st.linesSkipped + 1)
    else
      var shaped := ShapeCached(c, st.cache, line);
      var h := Attempt(c, env, src, st.(cache := shaped.cache), line, shaped.model, instant);
      if h.checked && c.metricsIntervalLines == 0 then h.scan.(aborted := true) else h.scan
  }

  /**
   * The loop over the buffered lines from index `i`: it runs while `i` is
   * below the window and fewer than `maxRecordsPerPoll` records were added;
   * an index past the buffered lines throws.
   */
  function ScanFrom(c: Config, env: Environment, src: Source, lines: seq<string>, window: int, i: nat, st: Scan, instant: string): Scan
    decreases window - i
  {
    if st.aborted || i >= window || |st.records| >= c.maxRecordsPerPoll then st
    else if i >= |lines| then st.(aborted := true)
    else ScanFrom(c, env, src, lines, window, i + 1, Step(c, env, src, st, lines[i], instant), instant)
  }

  /** The lines the loop may use: all but `skipFooterLines` of the buffered ones, and none when fewer are buffered. */
  function Window(c: Config, buffered: nat): int
  {
    if buffered - c.skipFooterLines < 0 then 0 else buffered - c.skipFooterLines
  }

  // ---------------------------------------------------------------------
  // a poll

  /** The outcome of a poll: the new fields, the remote calls made and what `poll` returns or throws. */
  datatype Outcome = Outcome(task: Task, calls: seq<Call>, result: Result<seq<SourceRecord>>)

  /** An exception caught by `poll`: one more error counted, and a ConnectException. */
  function Thrown(t: Task, calls: seq<Call>): Outcome
  {
    Outcome(t.(metrics := Metrics.ErrorAdded(t.metrics)), calls, Err(PollFailure))
  }

  /** The reading position: the line checkpointed for the same content, else the start. */
  function ResumeLine(previous: Option<FileOffsets.FileOffset>, current: FileOffsets.FileOffset): int
  {
    if previous.Some? && FileOffsets.IsSameFile(previous.value, Some(current)) then previous.value.lineNumber else 0
  }

  /** The stored offset of a file, as `offsetStorageReader().offset` returns it. */
  function StoredOffset(env: Environment, filename: string): Option<FileOffsets.OffsetMap>
  {
    if filename in env.storage then Some(env.storage[filename]) else None
  }

  /** `handleCompression`: a ".gz" or ".gzip" file is read through GZIP when detection is on. */
  function Unpacked(c: Config, env: Environment, filename: string, raw: Bytes): Result<Bytes>
  {
    if c.autoDetectCompression && ArchiveNames.IsCompressedName(filename) then env.gunzip(raw) else Ok(raw)
  }

  /**
   * The fields once a file's bytes are in: its fingerprint, the resume
   * line, a reader past the header lines and then past the resumed lines,
   * each of them counted as skipped, and the metrics started on the file.
   */
  function Opened(c: Config, env: Environment, t: Task, name: string, previous: Option<FileOffsets.FileOffset>,
                  bytes: Bytes, moment: Moment): Task
  {
    var t1 := Begun(env, t, name, previous, bytes, moment);
    Skipped(Skipped(t1, c.skipHeaderLines), t1.resumeFromLine)
  }

  /** The fields set before the skip loops: fingerprint, resume line, reader on all lines, zero counters. */
  function Begun(env: Environment, t: Task, name: string, previous: Option<FileOffsets.FileOffset>,
                 bytes: Bytes, moment: Moment): Task
  {
    var offset := FileOffsets.FileOffset(Some(name), Some(env.fingerprint(bytes)), 0, moment.now, |bytes|);
    t.(reader := Reading(env.decode(bytes)), offset := Some(offset), resumeFromLine := ResumeLine(previous, offset),
       linesProcessed := 0, linesSkipped := 0, metrics := Metrics.Started(t.metrics, name, moment.now))
  }

  /** A skip loop of `count` reads, each counted as skipped; a read past the end returns null. */
  function Skipped(t: Task, count: int): Task
    requires t.reader.Reading?
  {
    var rest := t.reader.rest;
    t.(reader := Reading(rest[Min(Max0(count), |rest|)..]), linesSkipped := t.linesSkipped + Max0(count))
  }

  /**
   * Staging the first listed file: the names are set, the stored offset is
   * read, the file is moved to the stage directory, retrieved, and
   * decompressed when its name says so.
   */
  function Stage(c: Config, env: Environment, t: Task, file: string, server: Server, n: nat, moment: Moment): (o: Outcome)
    ensures t.reader.Idle? ==> Attached(o.task)
  {
    var name := BaseName(file);
    var path := c.stageDir + "/" + name;
    var t1 := t.(filename := Some(name), staged := Some(path));
    match FileOffsets.FromMap(StoredOffset(env, name))
    case Err(_) => Thrown(t1, [])
    case Ok(previous) =>
      var move := Call.MoveFile(file, path);
      match DoneOf(Respond(server, move, n))
      case Err(_) => Thrown(t1, [move])
      case Ok(_) =>
        var get := Call.RetrieveFileStream(path);
        match BytesOf(Respond(server, get, n + 1))
        case Err(_) => Thrown(t1, [move, get])
        case Ok(raw) =>
          match Unpacked(c, env, name, raw)
          case Err(_) => Thrown(t1, [move, get])
          case Ok(bytes) => Outcome(Opened(c, env, t1, name, previous, bytes, moment), [move, get], Ok([]))
  }

  /** With no file in flight: list the directory and stage the first file found. */
  function Open(c: Config, env: Environment, t: Task, server: Server, n: nat, moment: Moment): (o: Outcome)
    ensures t.reader.Idle? ==> Attached(o.task)
  {
    var list := Call.ListFiles(c.directory, c.filePattern);
    match PathsOf(Respond(server, list, n))
    case Err(_) => Thrown(t, [list])
    case Ok(files) =>
      if |files| == 0 then Outcome(t, [list], Ok([]))
      else
        var o := Stage(c, env, t, files[0], server, n + 1, moment);
        Outcome(o.task, [list] + o.calls, o.result)
  }

  /**
   * The end of a file: the staged file is deleted and the summary written
   * to the archive directory; then the metrics end the file and the
   * in-flight fields are cleared.
   */
  function Finish(c: Config, t: Task, emitted: seq<SourceRecord>, server: Server, n: nat, moment: Moment): (o: Outcome)
    requires Attached(t) && t.reader.Closed?
    ensures Attached(o.task)
  {
    var delete := Call.DeleteFile(t.staged.value);
    match DoneOf(Respond(server, delete, n))
    case Err(_) => Thrown(t, [delete])
    case Ok(_) =>
      var path := c.archiveDir + "/" + ArchiveNames.SummaryNameAsWritten(t.filename.value, moment.timestamp);
      var write := Call.WriteTextFile(path, moment.summary);
      match DoneOf(Respond(server, write, n + 1))
      case Err(_) => Thrown(t, [delete, write])
      case Ok(_) =>
        Outcome(t.(reader := Idle, filename := None, staged := None, offset := None, resumeFromLine := 0,
                   metrics := Metrics.Ended(t.metrics)),
                [delete, write], Ok(emitted))
  }

  /** The loop that starts a poll on the file in flight, from the task's counters. */
  function ScanOf(c: Config, env: Environment, t: Task, lines: seq<string>, instant: string): Scan
    requires Attached(t) && !t.reader.Idle?
  {
    var src := Source(t.filename.value, t.offset.value);
    ScanFrom(c, env, src, lines, Window(c, |lines|), 0,
             Scan(t.linesProcessed, t.linesSkipped, t.cache, t.metrics, [], [], false), instant)
  }

  /**
   * A poll on the file in flight: all remaining lines are buffered, the
   * loop runs over the window, and the end of the file is declared when the
   * window is all of the buffered lines or none of them. The records come
   * first and the dead-letter records after them.
   */
  function Process(c: Config, env: Environment, t: Task, server: Server, n: nat, moment: Moment): (o: Outcome)
    requires Attached(t) && !t.reader.Idle?
    ensures Attached(o.task)
  {
    match t.reader
    case Closed => Thrown(t, [])      // `readLine` on a closed reader throws
    case Reading(lines) =>
      var s := ScanOf(c, env, t, lines, moment.instant);
      var t1 := t.(reader := Reading([]), linesProcessed := s.linesProcessed, linesSkipped := s.linesSkipped,
                   cache := s.cache, metrics := s.metrics);
      var window := Window(c, |lines|);
      if s.aborted then Thrown(t1, [])
      else if window == |lines| || window == 0 then Finish(c, t1.(reader := Closed), s.records + s.dlq, server, n, moment)
      else Outcome(t1, [], Ok(s.records + s.dlq))
  }

  /**
   * The rest of a poll that found no file in flight, once the opening has
   * produced `o`: nothing more when it threw or staged no file, else the
   * staged file is read in the same poll.
   */
  function AfterOpen(c: Config, env: Environment, o: Outcome, server: Server, n: nat, moment: Moment): (r: Outcome)
    requires Attached(o.task)
    ensures Attached(r.task)
  {
    if o.result.Err? || o.task.reader.Idle? then o
    else
      var o2 := Process(c, env, o.task, server, n + |o.calls|, moment);
      Outcome(o2.task, o.calls + o2.calls, o2.result)
  }

  /** `poll`. */
  function PollOutcome(c: Config, env: Environment, t: Task, server: Server, n: nat, moment: Moment): (o: Outcome)
    requires Attached(t)
    ensures Attached(o.task)
  {
    if t.reader.Idle? then AfterOpen(c, env, Open(c, env, t, server, n, moment), server, n, moment)
    else Process(c, env, t, server, n, moment)
  }
}
