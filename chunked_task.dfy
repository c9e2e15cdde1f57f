/**
 * The original source task (`FtpSourceTask`): a poll either stages the
 * first listed file and opens it, or continues the file already open; it
 * then emits at most `maxRecordsPerPoll` records, one per line, and archives
 * the file once `readLine` has returned null.
 *
 * The file's lines are what the charset decoder and `BufferedReader` make
 * of the retrieved bytes, a parameter of the task. The clock readings used
 * as record offsets and the archive timestamp are parameters of a poll.
 */
module ChunkedTasks {
  import opened Wrappers
  import opened JavaStrings
  import opened ConnectData
  import opened RecordShaping
  import opened RemotePorts
  import ArchiveNames

  /** The message of the ConnectException every failure inside `poll` becomes. */
  const PollFailure := "Error during polling from remote server"

  /** The task's configuration, as `start` leaves it. */
  datatype Config = Config(
    topic: string,
    directory: string,
    stageDir: string,
    archiveDir: string,
    filePattern: string,
    json: bool,                      // the lower-cased output format is "json"
    tokenizer: string,
    keyField: string,                // already trimmed
    maxRecordsPerPoll: int,
    headers: Option<seq<string>>)

  /** The reader of the file in flight: none, open at some remaining lines, or closed but not cleared. */
  datatype Reader = Idle | Reading(rest: seq<string>) | Closed

  /** The fields `poll` updates. */
  datatype Task = Task(reader: Reader, filename: Option<string>, staged: Option<string>, linesProcessed: int)

  /** An open or closed reader always belongs to a staged file. */
  predicate Attached(t: Task)
  {
    !t.reader.Idle? ==> t.filename.Some? && t.staged.Some?
  }

  /** The record of one line: its shape, and in json mode its key. */
  function RecordFor(c: Config, filename: string, line: string, millis: int): Result<SourceRecord>
  {
    match ShapeLine(c.json, c.tokenizer, c.headers, line)
    case Err(m) => Err(m)
    case Ok(model) =>
      var key := if c.json && model.value.Record? then KeyOf(model.value.data, c.keyField) else Ok(None);
      match key
      case Err(m) => Err(m)
      case Ok(k) => Ok(SourceRecord(filename, Position(millis), c.topic, OptionalStringSchema, k, model.schema, model.value))
  }

  /**
   * What one run of the read loop makes of the remaining lines: the records
   * added, how many lines were read, whether `readLine` returned null and
   * whether a line failed to become a record.
   */
  datatype Chunk = Chunk(records: seq<SourceRecord>, consumed: nat, eof: bool, failed: bool)

  /** The record of each line, the k-th line taking clock reading `clock(k)`. */
  function Results(c: Config, filename: string, lines: seq<string>, clock: nat -> int): (rs: seq<Result<SourceRecord>>)
    ensures |rs| == |lines|
    ensures forall k :: 0 <= k < |lines| ==> rs[k] == RecordFor(c, filename, lines[k], clock(k))
  {
    seq(|lines|, k requires 0 <= k < |lines| => RecordFor(c, filename, lines[k], clock(k)))
  }

  /** The read loop over the records of the remaining lines, with room for `room` more records. */
  function Batch(results: seq<Result<SourceRecord>>, room: int): (ch: Chunk)
    ensures ch.consumed <= |results|
  {
    if room <= 0 then Chunk([], 0, false, false)
    else if |results| == 0 then Chunk([], 0, true, false)
    else
      match results[0]
      case Err(_) => Chunk([], 1, false, true)
      case Ok(rec) =>
        var ch := Batch(results[1..], room - 1);
        Chunk([rec] + ch.records, ch.consumed + 1, ch.eof, ch.failed)
  }

  /** The read loop on the remaining lines of `filename`. */
  function ReadChunk(c: Config, filename: string, lines: seq<string>, clock: nat -> int): (ch: Chunk)
    ensures ch.consumed <= |lines|
  {
    Batch(Results(c, filename, lines, clock), c.maxRecordsPerPoll)
  }

  /** The records `done`, read from `n` lines, followed by the chunk of the lines after them. */
  function After(done: seq<SourceRecord>, n: nat, ch: Chunk): Chunk
  {
    Chunk(done + ch.records, n + ch.consumed, ch.eof, ch.failed)
  }

  /** The outcome of a poll: the new task fields, the remote calls made and what `poll` returns or throws. */
  datatype Outcome = Outcome(task: Task, calls: seq<Call>, result: Result<seq<SourceRecord>>)

  /**
   * With no file in flight: list the directory, and, when the listing is
   * not empty, stage and open its first path. `n` counts the calls made on
   * the connection before.
   */
  function Open(c: Config, decode: Bytes -> seq<string>, t: Task, server: Server, n: nat): (o: Outcome)
    ensures Attached(t) ==> Attached(o.task)
  {
    var list := Call.ListFiles(c.directory, c.filePattern);
    match PathsOf(Respond(server, list, n))
    case Err(_) => Outcome(t, [list], Err(PollFailure))
    case Ok(files) =>
      if |files| == 0 then Outcome(t, [list], Ok([]))
      else
        var o := Stage(c, decode, t, files[0], server, n + 1);
        Outcome(o.task, [list] + o.calls, o.result)
  }

  /** Staging: move the file to the stage directory under its base name, then open it there. */
  function Stage(c: Config, decode: Bytes -> seq<string>, t: Task, file: string, server: Server, n: nat): (o: Outcome)
    ensures Attached(o.task) && o.task.filename == Some(BaseName(file))
  {
    var name := BaseName(file);
    var staged := c.stageDir + "/" + name;
    var t1 := t.(filename := Some(name), staged := Some(staged));
    var move := Call.MoveFile(file, staged);
    match DoneOf(Respond(server, move, n))
    case Err(_) => Outcome(t1, [move], Err(PollFailure))
    case Ok(_) =>
      var get := Call.RetrieveFileStream(staged);
      match BytesOf(Respond(server, get, n + 1))
      case Err(_) => Outcome(t1, [move, get], Err(PollFailure))
      case Ok(bytes) => Outcome(t1.(reader := Reading(decode(bytes)), linesProcessed := 0), [move, get], Ok([]))
  }

  /** Archiving a file: move the staged file to the archive directory, then clear the fields. */
  function Archive(c: Config, t: Task, records: seq<SourceRecord>, server: Server, n: nat, timestamp: string): (o: Outcome)
    requires Attached(t) && t.reader.Closed?
    ensures Attached(o.task)
  {
    var move := Call.MoveFile(t.staged.value, c.archiveDir + "/" + ArchiveNames.ArchiveName(t.filename.value, timestamp));
    match DoneOf(Respond(server, move, n))
    case Err(_) => Outcome(t, [move], Err(PollFailure))
    case Ok(_) => Outcome(Task(Idle, None, None, t.linesProcessed), [move], Ok(records))
  }

  /** The read loop on the file in flight, and the archiving at its end. */
  function Continue(c: Config, t: Task, server: Server, n: nat, clock: nat -> int, timestamp: string): (o: Outcome)
    requires Attached(t) && !t.reader.Idle?
    ensures Attached(o.task)
  {
    match t.reader
    case Closed =>
      // `readLine` on a closed reader throws
      if c.maxRecordsPerPoll > 0 then Outcome(t, [], Err(PollFailure)) else Outcome(t, [], Ok([]))
    case Reading(rest) =>
      var ch := ReadChunk(c, t.filename.value, rest, clock);
      var t1 := t.(reader := Reading(rest[ch.consumed..]), linesProcessed := t.linesProcessed + |ch.records|);
      if ch.failed then Outcome(t1, [], Err(PollFailure))
      else if !ch.eof then Outcome(t1, [], Ok(ch.records))
      else Archive(c, t1.(reader := Closed), ch.records, server, n, timestamp)
  }

  /** `poll`. */
  function PollOutcome(c: Config, decode: Bytes -> seq<string>, t: Task, server: Server, n: nat,
                clock: nat -> int, timestamp: string): (o: Outcome)
    requires Attached(t)
    ensures Attached(o.task)
  {
    if t.reader.Idle? then
      var o := Open(c, decode, t, server, n);
      if o.task.reader.Idle? || o.result.Err? then o
      else
        var o2 := Continue(c, o.task, server, n + |o.calls|, clock, timestamp);
        Outcome(o2.task, o.calls + o2.calls, o2.result)
    else Continue(c, t, server, n, clock, timestamp)
  }

  // ---------------------------------------------------------------------
  // the task object

  class FtpSourceTask {
    const config: Config
    const decode: Bytes -> seq<string>
    const port: RemotePort

    var reader: Reader
    var filename: Option<string>
    var staged: Option<string>
    var linesProcessed: int

    function State(): Task
      reads this
    {
      Task(reader, filename, staged, linesProcessed)
    }

    predicate Valid()
      reads this
    {
      Attached(State())
    }

    /** The task as `start` leaves it after connecting. */
    constructor (config: Config, decode: Bytes -> seq<string>, port: RemotePort)
      ensures this.config == config && this.decode == decode && this.port == port
      ensures State() == Task(Idle, None, None, 0) && Valid()
    {
      this.config := config;
      this.decode := decode;
      this.port := port;
      reader := Idle;
      filename := None;
      staged := None;
      linesProcessed := 0;
    }

    /** `buildRecordModel`: a fresh schema for every line. */
    method BuildRecordModel(line: string) returns (r: Result<RecordModel>)
      ensures r == ShapeLine(config.json, config.tokenizer, config.headers, line)
    {
      if !config.json {
        return Ok(RecordModel(Line(line), StringSchema));
      }
      var parts := SplitLiteral(line, config.tokenizer);
      var fields := FieldsFor(config.headers, |parts|);
      var schema := BuildSchema(fields);
      if schema.Err? {
        return Err(schema.message);
      }
      var s := FillStruct(fields, config.headers, parts);
      if s.Err? {
        return Err(s.message);
      }
      r := Ok(RecordModel(Record(s.value), StructSchema(true, fields)));
    }

    /** The record of one line of the file in flight. */
    method MakeRecord(name: string, line: string, millis: int) returns (r: Result<SourceRecord>)
      ensures r == RecordFor(config, name, line, millis)
    {
      var model := BuildRecordModel(line);
      if model.Err? {
        return Err(model.message);
      }
      var key: Result<Option<string>> := Ok(None);
      if config.json && model.value.value.Record? {
        key := BuildKafkaKey(model.value.value.data, config.keyField);
      }
      if key.Err? {
        return Err(key.message);
      }
      r := Ok(SourceRecord(name, Position(millis), config.topic, OptionalStringSchema, key.value,
                           model.value.schema, model.value.value));
    }

    /** Reads the next line and makes its record. */
    method ReadRecord(ghost lines: seq<string>, ghost results: seq<Result<SourceRecord>>, i: nat, clock: nat -> int)
      returns (rec: Result<SourceRecord>)
      requires filename.Some? && reader.Reading? && i < |lines| && reader.rest == lines[i..]
      requires results == Results(config, filename.value, lines, clock)
      modifies this
      ensures rec == results[i]
      ensures State() == old(State()).(reader := Reading(lines[i + 1..]))
    {
      var line := reader.rest[0];
      reader := Reading(reader.rest[1..]);
      rec := MakeRecord(filename.value, line, clock(i));
    }

    /** The read loop: at most `maxRecordsPerPoll` records, until `readLine` returns null or a line fails. */
    method ReadLines(clock: nat -> int) returns (records: seq<SourceRecord>, eof: bool, failed: bool)
      requires Valid() && reader.Reading?
      modifies this
      ensures var ch := ReadChunk(config, old(filename).value, old(reader).rest, clock);
              records == ch.records && eof == ch.eof && failed == ch.failed &&
              State() == old(State()).(reader := Reading(old(reader).rest[ch.consumed..]),
                                       linesProcessed := old(linesProcessed) + |ch.records|)
    {
      ghost var lines := reader.rest;
      ghost var results := Results(config, filename.value, lines, clock);
      ghost var whole := Batch(results, config.maxRecordsPerPoll);
      records, eof, failed := [], false, false;
      var i := 0;
      while |records| < config.maxRecordsPerPoll
        invariant 0 <= i <= |lines| && |records| == i
        invariant reader.Reading? && reader.rest == lines[i..]
        invariant filename == old(filename) && staged == old(staged)
        invariant results == Results(config, filename.value, lines, clock)
        invariant linesProcessed == old(linesProcessed) + i
        invariant After(records, i, Batch(results[i..], config.maxRecordsPerPoll - i)) == whole
        decreases |lines| - i
      {
        if |reader.rest| == 0 {
          BatchEnd(records, results, i, config.maxRecordsPerPoll);
          eof := true;
          return;
        }
        var rec := ReadRecord(lines, results, i, clock);
        if rec.Err? {
          BatchFailed(records, results, i, config.maxRecordsPerPoll);
          failed := true;
          return;
        }
        BatchNext(records, results, i, config.maxRecordsPerPoll);
        records := records + [rec.value];
        linesProcessed := linesProcessed + 1;
        i := i + 1;
      }
      BatchFull(records, results, i, config.maxRecordsPerPoll);
    }

    /** Listing, staging and opening the first file found. */
    method OpenNext() returns (r: Result<seq<SourceRecord>>)
      requires reader.Idle?
      modifies this, port
      ensures var o := Open(config, decode, old(State()), port.server, old(|port.history|));
              State() == o.task && port.history == old(port.history) + o.calls && r == o.result
    {
      ghost var h0 := port.history;
      var list := Call.ListFiles(config.directory, config.filePattern);
      var files := port.ListFiles(config.directory, config.filePattern);
      AnswerLast(port.server, h0, list);
      assert files == PathsOf(Respond(port.server, list, |h0|));
      if files.Err? || |files.value| == 0 {
        r := if files.Err? then Err(PollFailure) else Ok([]);
        return;
      }
      r := StageFile(files.value[0]);
    }

    /** Moving a listed file to the stage directory and opening it. */
    method StageFile(file: string) returns (r: Result<seq<SourceRecord>>)
      modifies this, port
      ensures var o := Stage(config, decode, old(State()), file, port.server, old(|port.history|));
              State() == o.task && port.history == old(port.history) + o.calls && r == o.result
    {
      ghost var h0 := port.history;
      ghost var o := Stage(config, decode, State(), file, port.server, |h0|);
      var name := BaseName(file);
      var path := config.stageDir + "/" + name;
      filename, staged := Some(name), Some(path);
      var move := Call.MoveFile(file, path);
      var moved := port.MoveFile(file, path);
      AnswerLast(port.server, h0, move);
      assert moved == DoneOf(Respond(port.server, move, |h0|));
      if moved.Err? {
        return Err(PollFailure);
      }
      ghost var h1 := port.history;
      var get := Call.RetrieveFileStream(path);
      var bytes := port.RetrieveFileStream(path);
      AnswerLast(port.server, h1, get);
      assert bytes == BytesOf(Respond(port.server, get, |h0| + 1));
      if bytes.Err? {
        return Err(PollFailure);
      }
      reader := Reading(decode(bytes.value));
      linesProcessed := 0;
      r := Ok([]);
    }

    /** Moving the finished file to the archive directory and clearing the fields. */
    method ArchiveFile(records: seq<SourceRecord>, timestamp: string) returns (r: Result<seq<SourceRecord>>)
      requires Valid() && reader.Closed?
      modifies this, port
      ensures var o := Archive(config, old(State()), records, port.server, old(|port.history|), timestamp);
              State() == o.task && port.history == old(port.history) + o.calls && r == o.result
    {
      ghost var h0 := port.history;
      ghost var t0 := State();
      var target := config.archiveDir + "/" + ArchiveNames.ArchiveName(filename.value, timestamp);
      var move := Call.MoveFile(staged.value, target);
      ghost var o := Archive(config, t0, records, port.server, |h0|, timestamp);
      assert o.calls == [move];
      var moved := port.MoveFile(staged.value, target);
      AnswerLast(port.server, h0, move);
      assert moved == DoneOf(Respond(port.server, move, |h0|));
      var lines := linesProcessed;
      assert lines == t0.linesProcessed;
      if moved.Err? {
        assert o.task == t0;
        assert State() == t0;
        return Err(PollFailure);
      }
      assert o.task == Task(Idle, None, None, t0.linesProcessed);
      reader := Idle;
      filename := None;
      staged := None;
      assert reader == Idle && filename == None && staged == None && linesProcessed == lines;
      assert State() == Task(Idle, None, None, lines);
      r := Ok(records);
    }

    /** The read loop on the file in flight, and archiving it once it is read to its end. */
    method ContinueFile(clock: nat -> int, timestamp: string) returns (r: Result<seq<SourceRecord>>)
      requires Valid() && !reader.Idle?
      modifies this, port
      ensures var o := Continue(config, old(State()), port.server, old(|port.history|), clock, timestamp);
              State() == o.task && port.history == old(port.history) + o.calls && r == o.result
    {
      if reader.Closed? {
        r := if config.maxRecordsPerPoll > 0 then Err(PollFailure) else Ok([]);
        return;
      }
      var records, eof, failed := ReadLines(clock);
      if failed {
        return Err(PollFailure);
      }
      if !eof {
        return Ok(records);
      }
      reader := Closed;
      r := ArchiveFile(records, timestamp);
    }

    /** `poll`: the records of this poll, or the ConnectException it throws. */
    method Poll(clock: nat -> int, timestamp: string) returns (r: Result<seq<SourceRecord>>)
      requires Valid()
      modifies this, port
      ensures Valid()
      ensures var o := PollOutcome(config, decode, old(State()), port.server, old(|port.history|), clock, timestamp);
              State() == o.task && port.history == old(port.history) + o.calls && r == o.result
    {
      ghost var t0 := State();
      ghost var h0 := port.history;
      if reader.Idle? {
        r := OpenNext();
        ghost var o := Open(config, decode, t0, port.server, |h0|);
        if r.Err? || reader.Idle? {
          return;
        }
        ghost var h1 := port.history;
        r := ContinueFile(clock, timestamp);
        return;
      }
      r := ContinueFile(clock, timestamp);
    }
  }

  lemma BatchEnd(done: seq<SourceRecord>, results: seq<Result<SourceRecord>>, i: nat, cap: int)
    requires i == |results| && i < cap
    ensures After(done, i, Batch(results[i..], cap - i)) == Chunk(done, i, true, false)
  {
    assert done + [] == done;
  }

  lemma BatchFull(done: seq<SourceRecord>, results: seq<Result<SourceRecord>>, i: nat, cap: int)
    requires i <= |results| && cap <= i
    ensures After(done, i, Batch(results[i..], cap - i)) == Chunk(done, i, false, false)
  {
    assert done + [] == done;
  }

  lemma BatchFailed(done: seq<SourceRecord>, results: seq<Result<SourceRecord>>, i: nat, cap: int)
    requires i < |results| && i < cap && results[i].Err?
    ensures After(done, i, Batch(results[i..], cap - i)) == Chunk(done, i + 1, false, true)
  {
    assert done + [] == done;
  }

  lemma BatchNext(done: seq<SourceRecord>, results: seq<Result<SourceRecord>>, i: nat, cap: int)
    requires i < |results| && i < cap && results[i].Ok?
    ensures After(done, i, Batch(results[i..], cap - i)) ==
            After(done + [results[i].value], i + 1, Batch(results[i + 1..], cap - (i + 1)))
  {
    assert results[i..][1..] == results[i + 1..];
    var rest := Batch(results[i + 1..], cap - (i + 1));
    assert done + ([results[i].value] + rest.records) == done + [results[i].value] + rest.records;
  }
}
