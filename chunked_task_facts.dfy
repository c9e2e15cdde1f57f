/**
 * What a poll of the original source task promises: the records of one
 * poll, the remote calls it makes when it opens a file, the archiving at
 * the end of a file and what an exception leaves behind.
 */
module ChunkedTaskFacts {
  import opened Wrappers
  import opened JavaStrings
  import opened ConnectData
  import opened RemotePorts
  import opened ChunkedTasks
  import ArchiveNames

  // ---------------------------------------------------------------------
  // one run of the read loop

  /**
   * The read loop takes the records of the leading lines in order; it stops
   * at the first line that fails, after `room` records, or at the end of the
   * lines, and reports the end only when it was reached within the room.
   */
  lemma {:induction false} BatchMeaning(results: seq<Result<SourceRecord>>, room: int)
    ensures var ch := Batch(results, room);
            |ch.records| <= |results| &&
            (forall k :: 0 <= k < |ch.records| ==> results[k] == Ok(ch.records[k])) &&
            ch.consumed == |ch.records| + (if ch.failed then 1 else 0) &&
            (ch.failed ==> |ch.records| < room && |ch.records| < |results| && results[|ch.records|].Err?) &&
            (!ch.failed ==> |ch.records| == (if room <= 0 then 0 else if |results| < room then |results| else room)) &&
            (ch.eof <==> !ch.failed && |results| < room)
  {
    if room > 0 && |results| > 0 && results[0].Ok? {
      var tail := results[1..];
      BatchMeaning(tail, room - 1);
      var ch := Batch(results, room);
      var rest := Batch(tail, room - 1);
      assert ch.records == [results[0].value] + rest.records;
      forall k | 0 <= k < |ch.records| ensures results[k] == Ok(ch.records[k]) {
        if k > 0 {
          assert ch.records[k] == rest.records[k - 1];
          assert tail[k - 1] == results[k];
        }
      }
      if ch.failed {
        assert tail[|rest.records|] == results[|ch.records|];
      }
    }
  }

  /**
   * One poll's read loop in terms of the lines: the k-th record is the
   * record of the k-th remaining line, there are at most `maxRecordsPerPoll`
   * of them, a failure is the record of the line right after them, without
   * a failure the loop reads up to the cap or to the end, and the end is
   * reported exactly when fewer lines than the cap remained and all of them
   * became records.
   */
  lemma ReadChunkMeaning(c: Config, filename: string, lines: seq<string>, clock: nat -> int)
    ensures var ch := ReadChunk(c, filename, lines, clock);
            |ch.records| <= |lines| &&
            (forall k :: 0 <= k < |ch.records| ==> RecordFor(c, filename, lines[k], clock(k)) == Ok(ch.records[k])) &&
            ch.consumed == |ch.records| + (if ch.failed then 1 else 0) &&
            (ch.failed ==> |ch.records| < |lines|) &&
            (c.maxRecordsPerPoll <= 0 ==> ch.records == [] && !ch.eof && !ch.failed) &&
            (c.maxRecordsPerPoll > 0 ==> |ch.records| <= c.maxRecordsPerPoll) &&
            (ch.failed ==> RecordFor(c, filename, lines[|ch.records|], clock(|ch.records|)).Err?) &&
            (!ch.failed ==> |ch.records| == (if c.maxRecordsPerPoll <= 0 then 0
                                             else if |lines| < c.maxRecordsPerPoll then |lines|
                                             else c.maxRecordsPerPoll)) &&
            (ch.eof <==> !ch.failed && |lines| < c.maxRecordsPerPoll)
  {
    var results := Results(c, filename, lines, clock);
    BatchMeaning(results, c.maxRecordsPerPoll);
  }

  /** No record of the first `n` lines fails, whatever clock reading it takes. */
  ghost predicate Clean(c: Config, filename: string, lines: seq<string>, n: nat)
  {
    n <= |lines| && forall k, millis :: 0 <= k < n ==> RecordFor(c, filename, lines[k], millis).Ok?
  }

  /** On clean lines the loop reads `room` records, or all of them when fewer are left. */
  lemma {:induction false} BatchClean(results: seq<Result<SourceRecord>>, room: int)
    requires room > 0
    requires forall k :: 0 <= k < |results| && k < room ==> results[k].Ok?
    ensures !Batch(results, room).failed
  {
    if |results| > 0 && room > 1 {
      BatchClean(results[1..], room - 1);
    }
  }

  lemma ReadChunkClean(c: Config, filename: string, lines: seq<string>, clock: nat -> int)
    requires c.maxRecordsPerPoll > 0
    requires Clean(c, filename, lines, if |lines| < c.maxRecordsPerPoll then |lines| else c.maxRecordsPerPoll)
    ensures !ReadChunk(c, filename, lines, clock).failed
  {
    var results := Results(c, filename, lines, clock);
    forall k | 0 <= k < |results| && k < c.maxRecordsPerPoll ensures results[k].Ok? {
      assert RecordFor(c, filename, lines[k], clock(k)).Ok?;
    }
    BatchClean(results, c.maxRecordsPerPoll);
  }

  // ---------------------------------------------------------------------
  // a poll on the file in flight

  /**
   * A poll on an open reader emits at most `maxRecordsPerPoll` records, the
   * records of the next lines in file order, and `linesProcessed` grows by
   * one per record. When the loop stopped at the cap, the same reader goes
   * on with the lines after them on the next poll, and nothing is archived.
   */
  lemma PollOnOpenFile(c: Config, decode: Bytes -> seq<string>, t: Task, server: Server, n: nat,
                       clock: nat -> int, timestamp: string)
    requires Attached(t) && t.reader.Reading?
    ensures var o := PollOutcome(c, decode, t, server, n, clock, timestamp);
            var rest := t.reader.rest;
            o.task.linesProcessed >= t.linesProcessed &&
            (o.result.Ok? ==>
               |o.result.value| <= (if c.maxRecordsPerPoll <= 0 then 0 else c.maxRecordsPerPoll) &&
               |o.result.value| <= |rest| &&
               o.task.linesProcessed == t.linesProcessed + |o.result.value| &&
               forall k :: 0 <= k < |o.result.value| ==>
                 RecordFor(c, t.filename.value, rest[k], clock(k)) == Ok(o.result.value[k])) &&
            (o.result.Ok? && |rest| >= c.maxRecordsPerPoll ==>
               o.calls == [] && o.task == t.(reader := Reading(rest[|o.result.value|..]), linesProcessed := o.task.linesProcessed))
  {
    ReadChunkMeaning(c, t.filename.value, t.reader.rest, clock);
  }

  /**
   * End of file is only reached when `readLine` returned null: with at
   * least `maxRecordsPerPoll` lines left and none failing, a poll emits
   * exactly the cap, makes no remote call and keeps the reader open on the
   * remaining lines.
   */
  lemma PollWithinFile(c: Config, decode: Bytes -> seq<string>, t: Task, server: Server, n: nat,
                       clock: nat -> int, timestamp: string)
    requires Attached(t) && t.reader.Reading? && 0 < c.maxRecordsPerPoll <= |t.reader.rest|
    requires Clean(c, t.filename.value, t.reader.rest, c.maxRecordsPerPoll)
    ensures var o := PollOutcome(c, decode, t, server, n, clock, timestamp);
            var cap := c.maxRecordsPerPoll;
            o.calls == [] && o.result.Ok? && |o.result.value| == cap &&
            o.task == t.(reader := Reading(t.reader.rest[cap..]), linesProcessed := t.linesProcessed + cap)
  {
    ReadChunkMeaning(c, t.filename.value, t.reader.rest, clock);
    ReadChunkClean(c, t.filename.value, t.reader.rest, clock);
  }

  /** The archive path: `archiveDir`, '/', and the file name with the timestamp before its extension. */
  function ArchivePath(c: Config, filename: string, timestamp: string): string
  {
    c.archiveDir + "/" + ArchiveNames.ArchiveName(filename, timestamp)
  }

  /**
   * The poll that reaches the end of the file emits the rest of its lines,
   * moves the staged file to its archive path and, when the move succeeds,
   * resets the in-flight state; a failed move leaves the closed reader and
   * the names in place and the poll throws.
   */
  lemma PollAtEndOfFile(c: Config, decode: Bytes -> seq<string>, t: Task, server: Server, n: nat,
                        clock: nat -> int, timestamp: string)
    requires Attached(t) && t.reader.Reading? && |t.reader.rest| < c.maxRecordsPerPoll
    requires Clean(c, t.filename.value, t.reader.rest, |t.reader.rest|)
    ensures var o := PollOutcome(c, decode, t, server, n, clock, timestamp);
            var move := Call.MoveFile(t.staged.value, ArchivePath(c, t.filename.value, timestamp));
            var lines := t.linesProcessed + |t.reader.rest|;
            o.calls == [move] &&
            (DoneOf(Respond(server, move, n)).Ok? ==>
               o.task == Task(Idle, None, None, lines) && o.result.Ok? && |o.result.value| == |t.reader.rest|) &&
            (DoneOf(Respond(server, move, n)).Err? ==>
               o.task == t.(reader := Closed, linesProcessed := lines) && o.result == Err(PollFailure))
  {
    var ch := ReadChunk(c, t.filename.value, t.reader.rest, clock);
    ReadChunkMeaning(c, t.filename.value, t.reader.rest, clock);
    ReadChunkClean(c, t.filename.value, t.reader.rest, clock);
    assert !ch.failed && ch.eof && |ch.records| == |t.reader.rest|;
    var t1 := t.(reader := Closed, linesProcessed := t.linesProcessed + |t.reader.rest|);
    assert PollOutcome(c, decode, t, server, n, clock, timestamp) == Archive(c, t1, ch.records, server, n, timestamp);
  }

  /**
   * Once the archive move has failed, the reader is closed but not
   * cleared: every later poll with a positive cap throws, makes no call
   * and changes nothing.
   */
  lemma ClosedReaderIsStuck(c: Config, decode: Bytes -> seq<string>, t: Task, server: Server, n: nat,
                            clock: nat -> int, timestamp: string)
    requires Attached(t) && t.reader.Closed? && c.maxRecordsPerPoll > 0
    ensures PollOutcome(c, decode, t, server, n, clock, timestamp) == Outcome(t, [], Err(PollFailure))
  {
  }

  /**
   * An exception while a file is in flight leaves it in flight: the file
   * name and the staged path stay, the reader is not cleared, and
   * `linesProcessed` never goes back.
   */
  lemma PollErrorKeepsFile(c: Config, decode: Bytes -> seq<string>, t: Task, server: Server, n: nat,
                           clock: nat -> int, timestamp: string)
    requires Attached(t) && !t.reader.Idle?
    ensures var o := PollOutcome(c, decode, t, server, n, clock, timestamp);
            o.result.Err? ==>
              o.task.filename == t.filename && o.task.staged == t.staged &&
              !o.task.reader.Idle? && o.task.linesProcessed >= t.linesProcessed
  {
  }

  // ---------------------------------------------------------------------
  // a poll with no file in flight

  /** An empty listing returns an empty batch after one call, and stages nothing. */
  lemma EmptyListing(c: Config, decode: Bytes -> seq<string>, t: Task, server: Server, n: nat,
                     clock: nat -> int, timestamp: string)
    requires Attached(t) && t.reader.Idle?
    requires PathsOf(Respond(server, Call.ListFiles(c.directory, c.filePattern), n)) == Ok([])
    ensures PollOutcome(c, decode, t, server, n, clock, timestamp) ==
            Outcome(t, [Call.ListFiles(c.directory, c.filePattern)], Ok([]))
  {
  }

  /** A failed listing throws after one call and changes nothing. */
  lemma FailedListing(c: Config, decode: Bytes -> seq<string>, t: Task, server: Server, n: nat,
                      clock: nat -> int, timestamp: string)
    requires Attached(t) && t.reader.Idle?
    requires PathsOf(Respond(server, Call.ListFiles(c.directory, c.filePattern), n)).Err?
    ensures PollOutcome(c, decode, t, server, n, clock, timestamp) ==
            Outcome(t, [Call.ListFiles(c.directory, c.filePattern)], Err(PollFailure))
  {
  }

  /**
   * Opening a file: the first listed path is moved to `stageDir` + "/" +
   * its base name, and only once that move succeeds is the staged path
   * retrieved and its lines read from the start. The names are set before
   * the move, so they stay when the move or the retrieval throws.
   */
  lemma Staging(c: Config, decode: Bytes -> seq<string>, t: Task, server: Server, n: nat, files: seq<string>)
    requires PathsOf(Respond(server, Call.ListFiles(c.directory, c.filePattern), n)) == Ok(files) && |files| > 0
    ensures var o := Open(c, decode, t, server, n);
            var name := BaseName(files[0]);
            var path := c.stageDir + "/" + name;
            var move := Call.MoveFile(files[0], path);
            var get := Call.RetrieveFileStream(path);
            o.task.filename == Some(name) && o.task.staged == Some(path) &&
            o.task.linesProcessed == (if o.result.Ok? then 0 else t.linesProcessed) &&
            (DoneOf(Respond(server, move, n + 1)).Err? ==>
               o.calls == [Call.ListFiles(c.directory, c.filePattern), move] &&
               o.result == Err(PollFailure) && o.task.reader == t.reader) &&
            (DoneOf(Respond(server, move, n + 1)).Ok? ==>
               o.calls == [Call.ListFiles(c.directory, c.filePattern), move, get] &&
               match BytesOf(Respond(server, get, n + 2))
               case Err(_) => o.result == Err(PollFailure) && o.task.reader == t.reader
               case Ok(bytes) => o.result == Ok([]) && o.task.reader == Reading(decode(bytes)))
  {
  }

  // ---------------------------------------------------------------------
  // a file read over several polls

  /** The records of one poll, or none when it threw. */
  function Emitted(o: Outcome): seq<SourceRecord>
  {
    if o.result.Ok? then o.result.value else []
  }

  /**
   * A 32-line file whose lines all become records, read at a cap of 10:
   * three polls emit 10 records each and leave the reader open, and the
   * fourth emits the last 2 and archives the file, so the file gives 32
   * records in total and the task is idle again.
   */
  lemma ThirtyTwoLinesAtCapTen(c: Config, decode: Bytes -> seq<string>, t: Task, server: Server, n: nat,
                               clocks: seq<nat -> int>, timestamp: string)
    requires Attached(t) && t.reader.Reading? && |t.reader.rest| == 32 && c.maxRecordsPerPoll == 10
    requires Clean(c, t.filename.value, t.reader.rest, 32) && |clocks| == 4
    requires DoneOf(Respond(server, Call.MoveFile(t.staged.value, ArchivePath(c, t.filename.value, timestamp)), n)).Ok?
    ensures var o1 := PollOutcome(c, decode, t, server, n, clocks[0], timestamp);
            var o2 := PollOutcome(c, decode, o1.task, server, n, clocks[1], timestamp);
            var o3 := PollOutcome(c, decode, o2.task, server, n, clocks[2], timestamp);
            var o4 := PollOutcome(c, decode, o3.task, server, n, clocks[3], timestamp);
            |Emitted(o1)| == 10 && |Emitted(o2)| == 10 && |Emitted(o3)| == 10 && |Emitted(o4)| == 2 &&
            |Emitted(o1) + Emitted(o2) + Emitted(o3) + Emitted(o4)| == 32 &&
            o1.calls + o2.calls + o3.calls == [] && o4.task == Task(Idle, None, None, t.linesProcessed + 32)
  {
    var lines := t.reader.rest;
    var name := t.filename.value;
    PollWithinFile(c, decode, t, server, n, clocks[0], timestamp);
    var o1 := PollOutcome(c, decode, t, server, n, clocks[0], timestamp);
    CleanSuffix(c, name, lines, 32, 10);
    PollWithinFile(c, decode, o1.task, server, n, clocks[1], timestamp);
    var o2 := PollOutcome(c, decode, o1.task, server, n, clocks[1], timestamp);
    CleanSuffix(c, name, lines[10..], 22, 10);
    assert lines[10..][10..] == lines[20..];
    PollWithinFile(c, decode, o2.task, server, n, clocks[2], timestamp);
    var o3 := PollOutcome(c, decode, o2.task, server, n, clocks[2], timestamp);
    CleanSuffix(c, name, lines[20..], 12, 10);
    assert lines[20..][10..] == lines[30..];
    PollAtEndOfFile(c, decode, o3.task, server, n, clocks[3], timestamp);
  }

  /** Clean lines stay clean after the first `k` are read. */
  lemma CleanSuffix(c: Config, filename: string, lines: seq<string>, m: nat, k: nat)
    requires Clean(c, filename, lines, m) && k <= m
    ensures Clean(c, filename, lines[k..], m - k)
  {
    forall j, millis | 0 <= j < m - k ensures RecordFor(c, filename, lines[k..][j], millis).Ok? {
      assert lines[k..][j] == lines[k + j];
    }
  }
}
