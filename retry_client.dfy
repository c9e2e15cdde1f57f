/**
 * `RetryableRemoteClient`: every remote operation but `disconnect` is run
 * up to `maxAttempts` times; after the n-th failure that is not the last
 * the client sleeps for `calculateBackoff(n)` milliseconds. Sleeping is
 * recorded, not performed; which sleeps are interrupted is a parameter,
 * the set of their positions among all sleeps (counting from 0).
 */
module RetryClients {
  import opened Wrappers
  import opened JavaStrings
  import opened RetryConfigs
  import opened RemotePorts

  /** The exception that ends a run of failed attempts. */
  function ExhaustedMessage(operationName: string, maxAttempts: int): string
  {
    "Operation '" + operationName + "' failed after " + IntToString(maxAttempts) + " attempts"
  }

  const InterruptedMessage := "Retry interrupted"

  /** `Thread.sleep` refuses a negative duration. */
  const NegativeSleepMessage := "timeout value is negative"

  /** How `executeWithRetry` ends: with the operation's value, or with one of its own exceptions. */
  datatype Ending = Returned(reply: Reply) | Exhausted | Interrupted | NegativeSleep

  /** The value returned or the exception thrown for an ending. */
  function ResultOf(e: Ending, operationName: string, maxAttempts: int): Result<Reply>
  {
    match e
    case Returned(reply) => Ok(reply)
    case Exhausted => Err(ExhaustedMessage(operationName, maxAttempts))
    case Interrupted => Err(InterruptedMessage)
    case NegativeSleep => Err(NegativeSleepMessage)
  }

  /**
   * What `executeWithRetry` ends with: how it ends, the cause attached to
   * the exhaustion exception (the last failure's message), the calls made
   * and the sleeps begun.
   */
  datatype Outcome = Outcome(ending: Ending, cause: Option<string>, history: seq<Call>, sleeps: seq<int>)

  /** The backoffs after failures 1, 2, ..., maxAttempts - 1. */
  function Schedule(config: RetryConfig): (r: seq<int>)
    ensures |r| == if config.maxAttempts > 1 then config.maxAttempts - 1 else 0
    ensures forall i :: 0 <= i < |r| ==> r[i] == CalculateBackoff(config, i + 1)
  {
    seq(if config.maxAttempts > 1 then config.maxAttempts - 1 else 0, i => CalculateBackoff(config, i + 1))
  }

  /** The backoff after failure `i + 1`. */
  function Pause(schedule: seq<int>, i: int): int
  {
    if 0 <= i < |schedule| then schedule[i] else 0
  }

  /**
   * The rest of `executeWithRetry` once `attempt` attempts have failed,
   * the last of them with `last`; `schedule` holds the backoffs.
   */
  function Run(server: Server, maxAttempts: int, schedule: seq<int>, interrupts: set<nat>, call: Call,
               history: seq<Call>, sleeps: seq<int>, attempt: int, last: Option<string>): Outcome
    decreases maxAttempts - attempt
  {
    if attempt >= maxAttempts then Outcome(Exhausted, last, history, sleeps)
    else
      var h := history + [call];
      var a := Respond(server, call, |history|);
      if a.Ok? then Outcome(Returned(a.value), None, h, sleeps)
      else if attempt + 1 < maxAttempts then
        var backoff := Pause(schedule, attempt);
        if backoff < 0 then Outcome(NegativeSleep, None, h, sleeps)
        else if |sleeps| in interrupts then Outcome(Interrupted, None, h, sleeps + [backoff])
        else Run(server, maxAttempts, schedule, interrupts, call, h, sleeps + [backoff], attempt + 1, Some(a.message))
      else Run(server, maxAttempts, schedule, interrupts, call, h, sleeps, attempt + 1, Some(a.message))
  }

  /** `n` copies of `x`. */
  function Repeat(x: Call, n: nat): (r: seq<Call>)
    ensures |r| == n
  {
    if n == 0 then [] else [x] + Repeat(x, n - 1)
  }

  /** Every operation of a sane configuration sleeps for a duration `Thread.sleep` accepts. */
  predicate SaneConfig(config: RetryConfig)
  {
    0 <= config.initialBackoffMs && 0 <= config.maxBackoffMs && 0.0 <= config.multiplier
  }

  /** A backoff for every failure but the last, none of them negative. */
  predicate SaneSchedule(schedule: seq<int>, maxAttempts: int)
  {
    maxAttempts - 1 <= |schedule| && forall i :: 0 <= i < |schedule| ==> 0 <= schedule[i]
  }

  lemma ScheduleSane(config: RetryConfig)
    requires SaneConfig(config)
    ensures SaneSchedule(Schedule(config), config.maxAttempts)
  {
    var s := Schedule(config);
    forall i | 0 <= i < |s| ensures 0 <= s[i] { BackoffNonNegative(config, i + 1); }
  }

  /** The `n`-th call on the connection (counting from 0) throws if it is `call`. */
  predicate Fails(server: Server, call: Call, n: nat)
  {
    Respond(server, call, n).Err?
  }

  lemma RepeatStep(history: seq<Call>, call: Call, j: nat)
    ensures history + Repeat(call, j + 1) == (history + [call]) + Repeat(call, j)
  {
    assert Repeat(call, j + 1) == [call] + Repeat(call, j);
  }

  lemma {:induction false} RepeatSnoc(call: Call, k: nat)
    ensures Repeat(call, k + 1) == Repeat(call, k) + [call]
    decreases k
  {
    if k > 0 {
      RepeatSnoc(call, k - 1);
    }
  }

  lemma AppendRepeat(history: seq<Call>, call: Call, k: nat)
    ensures history + Repeat(call, k) + [call] == history + Repeat(call, k + 1)
  {
    RepeatSnoc(call, k);
  }

  /**
   * Each attempt calls the operation once and nothing else: at most the
   * remaining attempts are made.
   */
  lemma {:induction false} RunCallsOnlyTheOperation(server: Server, maxAttempts: int, schedule: seq<int>,
      interrupts: set<nat>, call: Call, history: seq<Call>, sleeps: seq<int>, attempt: int, last: Option<string>)
    ensures var o := Run(server, maxAttempts, schedule, interrupts, call, history, sleeps, attempt, last);
            |history| <= |o.history| <= |history| + (if attempt < maxAttempts then maxAttempts - attempt else 0)
            && o.history == history + Repeat(call, |o.history| - |history|)
    decreases maxAttempts - attempt
  {
    var a := Respond(server, call, |history|);
    var h := history + [call];
    if attempt >= maxAttempts {
      assert history + Repeat(call, 0) == history;
    } else if a.Ok? || (attempt + 1 < maxAttempts && (Pause(schedule, attempt) < 0 || |sleeps| in interrupts)) {
      assert Repeat(call, 1) == [call];
    } else {
      var s' := if attempt + 1 < maxAttempts then sleeps + [Pause(schedule, attempt)] else sleeps;
      var o := Run(server, maxAttempts, schedule, interrupts, call, h, s', attempt + 1, Some(a.message));
      assert Run(server, maxAttempts, schedule, interrupts, call, history, sleeps, attempt, last) == o;
      RunCallsOnlyTheOperation(server, maxAttempts, schedule, interrupts, call, h, s', attempt + 1, Some(a.message));
      RepeatStep(history, call, |o.history| - |h|);
    }
  }

  /** Once the attempts are used up nothing is called and the exhaustion exception carries the last failure. */
  lemma NoAttemptsLeft(server: Server, maxAttempts: int, schedule: seq<int>,
      interrupts: set<nat>, call: Call, history: seq<Call>, sleeps: seq<int>, attempt: int, last: Option<string>)
    requires attempt >= maxAttempts
    ensures Run(server, maxAttempts, schedule, interrupts, call, history, sleeps, attempt, last)
         == Outcome(Exhausted, last, history, sleeps)
  {
  }

  /** The message of the last of `k` failures from call `n` on, or `last` when `k` is 0. */
  function LastFailure(server: Server, n: nat, k: nat, last: Option<string>): Option<string>
  {
    if k == 0 then last
    else if n + k - 1 in server.failures then Some(server.failures[n + k - 1])
    else None
  }

  /** A failed attempt that is not the last is followed by a sleep of its backoff and the next attempt. */
  lemma RetryStep(server: Server, maxAttempts: int, schedule: seq<int>, interrupts: set<nat>,
      call: Call, history: seq<Call>, sleeps: seq<int>, attempt: int, last: Option<string>)
    requires SaneSchedule(schedule, maxAttempts) && 0 <= attempt && attempt + 1 < maxAttempts
    requires |sleeps| !in interrupts
    requires Fails(server, call, |history|)
    ensures Run(server, maxAttempts, schedule, interrupts, call, history, sleeps, attempt, last)
         == Run(server, maxAttempts, schedule, interrupts, call, history + [call],
                sleeps + [schedule[attempt]], attempt + 1, LastFailure(server, |history|, 1, last))
  {
  }

  /**
   * `k` failed attempts that leave attempts to spare: the run continues as
   * if they had been made and the client had slept after each of them.
   */
  lemma {:induction false} SkipFailures(server: Server, maxAttempts: int, schedule: seq<int>, interrupts: set<nat>,
      call: Call, history: seq<Call>, sleeps: seq<int>, attempt: int, last: Option<string>, k: nat)
    requires SaneSchedule(schedule, maxAttempts) && 0 <= attempt && attempt + k < maxAttempts
    requires forall i :: i in interrupts ==> i < |sleeps|
    requires forall n :: |history| <= n < |history| + k ==> Fails(server, call, n)
    ensures Run(server, maxAttempts, schedule, interrupts, call, history, sleeps, attempt, last)
         == Run(server, maxAttempts, schedule, interrupts, call, history + Repeat(call, k),
                sleeps + schedule[attempt..attempt + k], attempt + k, LastFailure(server, |history|, k, last))
    decreases k
  {
    if k == 0 {
      assert history + Repeat(call, 0) == history;
      assert sleeps + schedule[attempt..attempt] == sleeps;
    } else {
      var h := history + [call];
      assert Fails(server, call, |history|);
      RetryStep(server, maxAttempts, schedule, interrupts, call, history, sleeps, attempt, last);
      SkipFailures(server, maxAttempts, schedule, interrupts, call, h, sleeps + [schedule[attempt]],
                   attempt + 1, LastFailure(server, |history|, 1, last), k - 1);
      SkipArguments(schedule, call, history, sleeps, attempt, k);
    }
  }

  /** The arguments of the run after one failure and `k - 1` more are those after `k` failures. */
  lemma SkipArguments(schedule: seq<int>, call: Call, history: seq<Call>, sleeps: seq<int>, attempt: int, k: nat)
    requires 0 <= attempt && 0 < k && attempt + k <= |schedule|
    ensures history + [call] + Repeat(call, k - 1) == history + Repeat(call, k)
    ensures (sleeps + [schedule[attempt]]) + schedule[attempt + 1..attempt + k] == sleeps + schedule[attempt..attempt + k]
  {
    RepeatStep(history, call, k - 1);
    assert schedule[attempt..attempt + k] == [schedule[attempt]] + schedule[attempt + 1..attempt + k];
  }

  /** The last attempt fails: the run ends with the exhaustion exception caused by that failure. */
  lemma LastAttempt(server: Server, maxAttempts: int, schedule: seq<int>, interrupts: set<nat>,
      call: Call, history: seq<Call>, sleeps: seq<int>, last: Option<string>)
    requires 0 < maxAttempts
    requires Fails(server, call, |history|)
    ensures Run(server, maxAttempts, schedule, interrupts, call, history, sleeps, maxAttempts - 1, last)
         == Outcome(Exhausted, Some(server.failures[|history|]), history + [call], sleeps)
  {
  }

  /** An attempt that succeeds ends the run with its value. */
  lemma SucceedingAttempt(server: Server, maxAttempts: int, schedule: seq<int>, interrupts: set<nat>,
      call: Call, history: seq<Call>, sleeps: seq<int>, attempt: int, last: Option<string>)
    requires attempt < maxAttempts
    requires !Fails(server, call, |history|)
    ensures Run(server, maxAttempts, schedule, interrupts, call, history, sleeps, attempt, last)
         == Outcome(Returned(Respond(server, call, |history|).value), None, history + [call], sleeps)
  {
  }

  /**
   * When every remaining attempt fails, all of them are made, the client
   * sleeps after each but the last for its backoff, and the exhaustion
   * exception carries the last failure as its cause.
   */
  lemma RunExhausts(server: Server, maxAttempts: int, schedule: seq<int>, interrupts: set<nat>,
      call: Call, history: seq<Call>, sleeps: seq<int>, attempt: int, last: Option<string>)
    requires SaneSchedule(schedule, maxAttempts) && 0 <= attempt < maxAttempts
    requires forall i :: i in interrupts ==> i < |sleeps|
    requires forall n :: |history| <= n < |history| + maxAttempts - attempt ==> Fails(server, call, n)
    ensures Fails(server, call, |history| + maxAttempts - attempt - 1)
    ensures Run(server, maxAttempts, schedule, interrupts, call, history, sleeps, attempt, last)
         == Outcome(Exhausted, Some(server.failures[|history| + maxAttempts - attempt - 1]),
                    history + Repeat(call, maxAttempts - attempt), sleeps + schedule[attempt..maxAttempts - 1])
  {
    var k := maxAttempts - attempt - 1;
    var h := history + Repeat(call, k);
    var s := sleeps + schedule[attempt..attempt + k];
    var l := LastFailure(server, |history|, k, last);
    SkipFailures(server, maxAttempts, schedule, interrupts, call, history, sleeps, attempt, last, k);
    AppendRepeat(history, call, k);
    assert Fails(server, call, |history| + k);
    LastAttempt(server, maxAttempts, schedule, interrupts, call, h, s, l);
  }

  /**
   * When the attempts after `k` failures succeed, exactly `k + 1` calls are
   * made, the client slept after each failure, and the call's value is
   * returned.
   */
  lemma RunSucceedsAfter(server: Server, maxAttempts: int, schedule: seq<int>, interrupts: set<nat>,
      call: Call, history: seq<Call>, sleeps: seq<int>, attempt: int, last: Option<string>, k: nat)
    requires SaneSchedule(schedule, maxAttempts) && 0 <= attempt && attempt + k < maxAttempts
    requires forall i :: i in interrupts ==> i < |sleeps|
    requires forall n :: |history| <= n < |history| + k ==> Fails(server, call, n)
    requires !Fails(server, call, |history| + k)
    ensures Run(server, maxAttempts, schedule, interrupts, call, history, sleeps, attempt, last)
         == Outcome(Returned(Respond(server, call, |history| + k).value), None,
                    history + Repeat(call, k + 1), sleeps + schedule[attempt..attempt + k])
  {
    var h := history + Repeat(call, k);
    SkipFailures(server, maxAttempts, schedule, interrupts, call, history, sleeps, attempt, last, k);
    AppendRepeat(history, call, k);
    SucceedingAttempt(server, maxAttempts, schedule, interrupts, call, h,
                      sleeps + schedule[attempt..attempt + k], attempt + k, LastFailure(server, |history|, k, last));
  }

  /** An interrupted sleep ends the retries at once, without a further attempt. */
  lemma InterruptEndsRetries(server: Server, maxAttempts: int, schedule: seq<int>, interrupts: set<nat>,
      call: Call, history: seq<Call>, sleeps: seq<int>, attempt: int, last: Option<string>)
    requires SaneSchedule(schedule, maxAttempts) && 0 <= attempt && attempt + 1 < maxAttempts
    requires Fails(server, call, |history|) && |sleeps| in interrupts
    ensures Run(server, maxAttempts, schedule, interrupts, call, history, sleeps, attempt, last)
         == Outcome(Interrupted, None, history + [call], sleeps + [schedule[attempt]])
  {
  }

  /**
   * With a sane configuration and no interrupt, an operation the server
   * fails every time is attempted `maxAttempts` times, the client sleeps
   * the whole backoff schedule, and the exhaustion exception carries the
   * last failure.
   */
  lemma AllAttemptsFail(server: Server, config: RetryConfig, interrupts: set<nat>,
      call: Call, history: seq<Call>, sleeps: seq<int>)
    requires SaneConfig(config) && 0 < config.maxAttempts
    requires forall i :: i in interrupts ==> i < |sleeps|
    requires forall n :: |history| <= n < |history| + config.maxAttempts ==> Fails(server, call, n)
    ensures var o := Run(server, config.maxAttempts, Schedule(config), interrupts, call, history, sleeps, 0, None);
            && o.ending == Exhausted
            && o.history == history + Repeat(call, config.maxAttempts)
            && o.sleeps == sleeps + Schedule(config)
            && Fails(server, call, |history| + config.maxAttempts - 1)
            && o.cause == Some(server.failures[|history| + config.maxAttempts - 1])
  {
    ScheduleSane(config);
    RunExhausts(server, config.maxAttempts, Schedule(config), interrupts, call, history, sleeps, 0, None);
    assert Schedule(config)[0..config.maxAttempts - 1] == Schedule(config);
  }

  /**
   * With a sane configuration and no interrupt, an operation that
   * succeeds after `k` failures, `k` below `maxAttempts`, returns its value
   * after exactly `k + 1` calls and the first `k` backoffs.
   */
  lemma SucceedsAfterFailures(server: Server, config: RetryConfig, interrupts: set<nat>,
      call: Call, history: seq<Call>, sleeps: seq<int>, k: nat)
    requires SaneConfig(config) && k < config.maxAttempts
    requires forall i :: i in interrupts ==> i < |sleeps|
    requires forall n :: |history| <= n < |history| + k ==> Fails(server, call, n)
    requires !Fails(server, call, |history| + k)
    ensures var o := Run(server, config.maxAttempts, Schedule(config), interrupts, call, history, sleeps, 0, None);
            && o.ending == Returned(Respond(server, call, |history| + k).value)
            && o.history == history + Repeat(call, k + 1)
            && o.sleeps == sleeps + Schedule(config)[..k]
            && o.cause == None
  {
    ScheduleSane(config);
    RunSucceedsAfter(server, config.maxAttempts, Schedule(config), interrupts, call, history, sleeps, 0, None, k);
    assert Schedule(config)[0..k] == Schedule(config)[..k];
  }

  /** The client over one connection; `sleeps` records every `Thread.sleep` begun. */
  class RetryableRemoteClient {
    const delegate: RemotePort
    const retryConfig: RetryConfig
    const interrupts: set<nat>
    var sleeps: seq<int>

    constructor (delegate: RemotePort, retryConfig: RetryConfig, interrupts: set<nat>)
      ensures this.delegate == delegate && this.retryConfig == retryConfig && this.interrupts == interrupts
      ensures sleeps == []
    {
      this.delegate := delegate;
      this.retryConfig := retryConfig;
      this.interrupts := interrupts;
      sleeps := [];
    }

    /** What `executeWithRetry` of `call` will do from the current state. */
    function Planned(call: Call, operationName: string): Outcome
      reads this, delegate
    {
      Run(delegate.server, retryConfig.maxAttempts, Schedule(retryConfig), interrupts, call, delegate.history, sleeps, 0, None)
    }

    /** `Thread.sleep(ms)`: a negative duration is refused, an interrupt ends the sleep. */
    method Sleep(ms: int) returns (r: Result<()>)
      modifies this
      ensures ms < 0 ==> sleeps == old(sleeps) && r == Err(NegativeSleepMessage)
      ensures ms >= 0 ==> sleeps == old(sleeps) + [ms]
      ensures ms >= 0 ==> r == if |old(sleeps)| in interrupts then Err(InterruptedMessage) else Ok(())
    {
      if ms < 0 {
        return Err(NegativeSleepMessage);
      }
      var k := |sleeps|;
      sleeps := sleeps + [ms];
      r := if k in interrupts then Err(InterruptedMessage) else Ok(());
    }

    method ExecuteWithRetry(call: Call, operationName: string) returns (r: Result<Reply>, cause: Option<string>)
      modifies this, delegate
      ensures var o := old(Planned(call, operationName));
              r == ResultOf(o.ending, operationName, retryConfig.maxAttempts)
              && cause == o.cause && delegate.history == o.history && sleeps == o.sleeps
    {
      ghost var plan := Planned(call, operationName);
      var attempt := 0;
      var lastException: Option<string> := None;
      while attempt < retryConfig.maxAttempts
        invariant plan == Run(delegate.server, retryConfig.maxAttempts, Schedule(retryConfig), interrupts, call,
                              delegate.history, sleeps, attempt, lastException)
        decreases retryConfig.maxAttempts - attempt
      {
        AnswerLast(delegate.server, delegate.history, call);
        var a := delegate.Invoke(call);
        if a.Ok? {
          return a, None;
        }
        lastException := Some(a.message);
        attempt := attempt + 1;
        if attempt < retryConfig.maxAttempts {
          var backoff := CalculateBackoff(retryConfig, attempt);
          var slept := Sleep(backoff);
          if slept.Err? {
            return Err(slept.message), None;
          }
        }
      }
      return Err(ExhaustedMessage(operationName, retryConfig.maxAttempts)), lastException;
    }

    method Connect() returns (r: Result<()>, cause: Option<string>)
      modifies this, delegate
      ensures var o := old(Planned(Call.Connect, "connect"));
              r == DoneOf(ResultOf(o.ending, "connect", retryConfig.maxAttempts))
              && cause == o.cause && delegate.history == o.history && sleeps == o.sleeps
    {
      var a;
      a, cause := ExecuteWithRetry(Call.Connect, "connect");
      r := DoneOf(a);
    }

    method ListFiles(directory: string, pattern: string) returns (r: Result<seq<string>>, cause: Option<string>)
      modifies this, delegate
      ensures var o := old(Planned(Call.ListFiles(directory, pattern), "listFiles"));
              r == PathsOf(ResultOf(o.ending, "listFiles", retryConfig.maxAttempts))
              && cause == o.cause && delegate.history == o.history && sleeps == o.sleeps
    {
      var a;
      a, cause := ExecuteWithRetry(Call.ListFiles(directory, pattern), "listFiles");
      r := PathsOf(a);
    }

    method RetrieveFileStream(path: string) returns (r: Result<Bytes>, cause: Option<string>)
      modifies this, delegate
      ensures var o := old(Planned(Call.RetrieveFileStream(path), "retrieveFileStream"));
              r == BytesOf(ResultOf(o.ending, "retrieveFileStream", retryConfig.maxAttempts))
              && cause == o.cause && delegate.history == o.history && sleeps == o.sleeps
    {
      var a;
      a, cause := ExecuteWithRetry(Call.RetrieveFileStream(path), "retrieveFileStream");
      r := BytesOf(a);
    }

    method MoveFile(source: string, destination: string) returns (r: Result<()>, cause: Option<string>)
      modifies this, delegate
      ensures var o := old(Planned(Call.MoveFile(source, destination), "moveFile"));
              r == DoneOf(ResultOf(o.ending, "moveFile", retryConfig.maxAttempts))
              && cause == o.cause && delegate.history == o.history && sleeps == o.sleeps
    {
      var a;
      a, cause := ExecuteWithRetry(Call.MoveFile(source, destination), "moveFile");
      r := DoneOf(a);
    }

    method DeleteFile(path: string) returns (r: Result<()>, cause: Option<string>)
      modifies this, delegate
      ensures var o := old(Planned(Call.DeleteFile(path), "deleteFile"));
              r == DoneOf(ResultOf(o.ending, "deleteFile", retryConfig.maxAttempts))
              && cause == o.cause && delegate.history == o.history && sleeps == o.sleeps
    {
      var a;
      a, cause := ExecuteWithRetry(Call.DeleteFile(path), "deleteFile");
      r := DoneOf(a);
    }

    method WriteTextFile(path: string, contents: string) returns (r: Result<()>, cause: Option<string>)
      modifies this, delegate
      ensures var o := old(Planned(Call.WriteTextFile(path, contents), "writeTextFile"));
              r == DoneOf(ResultOf(o.ending, "writeTextFile", retryConfig.maxAttempts))
              && cause == o.cause && delegate.history == o.history && sleeps == o.sleeps
    {
      var a;
      a, cause := ExecuteWithRetry(Call.WriteTextFile(path, contents), "writeTextFile");
      r := DoneOf(a);
    }

    /** `disconnect` is passed straight through, once, without retrying. */
    method Disconnect()
      modifies delegate
      ensures delegate.history == old(delegate.history) + [Call.Disconnect]
    {
      var _ := delegate.Invoke(Call.Disconnect);
    }
  }
}
