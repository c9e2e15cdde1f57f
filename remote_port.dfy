/**
 * The remote file server behind the `RemoteClient` interface. The server
 * is not part of this model: its behaviour is a parameter that says, for
 * the n-th call made on the connection (counting from 0), whether it throws
 * and with which message, which paths a listing returns (none when not
 * given) and which bytes a retrieval streams (none when not given).
 * `disconnect` declares no exception and never fails.
 */
module RemotePorts {
  import opened Wrappers

  newtype byte = b: int | 0 <= b < 256

  type Bytes = seq<byte>

  /** One call on the remote client. The charset argument of `writeTextFile` is not modelled. */
  datatype Call =
    | Connect
    | ListFiles(directory: string, pattern: string)
    | RetrieveFileStream(path: string)
    | MoveFile(source: string, destination: string)
    | DeleteFile(path: string)
    | WriteTextFile(path: string, contents: string)
    | Disconnect

  /** What a call returns when it does not throw. */
  datatype Reply = Done | Files(paths: seq<string>) | Stream(bytes: Bytes)

  datatype Server = Server(
    failures: map<nat, string>,
    listings: map<nat, seq<string>>,
    contents: map<nat, Bytes>)

  function Listing(server: Server, n: nat): seq<string>
  {
    if n in server.listings then server.listings[n] else []
  }

  function Content(server: Server, n: nat): Bytes
  {
    if n in server.contents then server.contents[n] else []
  }

  /** The outcome of `call` made as the `n`-th call on the connection (counting from 0). */
  function Respond(server: Server, call: Call, n: nat): (r: Result<Reply>)
    ensures r.Err? <==> !call.Disconnect? && n in server.failures
    ensures r.Err? ==> r.message == server.failures[n]
    ensures r.Ok? && call.ListFiles? ==> r.value == Files(Listing(server, n))
    ensures r.Ok? && call.RetrieveFileStream? ==> r.value == Stream(Content(server, n))
  {
    if call.Disconnect? then Ok(Done)
    else if n in server.failures then Err(server.failures[n])
    else match call
      case ListFiles(_, _) => Ok(Files(Listing(server, n)))
      case RetrieveFileStream(_) => Ok(Stream(Content(server, n)))
      case _ => Ok(Done)
  }

  /** The outcome of the last call of `history`. */
  function Answer(server: Server, history: seq<Call>): Result<Reply>
    requires |history| > 0
  {
    Respond(server, history[|history| - 1], |history| - 1)
  }

  /** The answer to a call appended to the history. */
  lemma AnswerLast(server: Server, history: seq<Call>, call: Call)
    ensures Answer(server, history + [call]) == Respond(server, call, |history|)
  {
    assert (history + [call])[|history|] == call;
  }

  /** Calls made after other calls: the history followed by all of them, in order. */
  lemma HistoryAppend(history: seq<Call>, first: seq<Call>, next: seq<Call>)
    ensures (history + first) + next == history + (first + next)
  {
  }

  /** Two calls made one after the other. */
  lemma HistoryTwoCalls(history: seq<Call>, first: Call, next: Call)
    ensures (history + [first]) + [next] == history + [first, next]
  {
    assert [first] + [next] == [first, next];
  }

  /** The paths of a listing reply. */
  function PathsOf(r: Result<Reply>): Result<seq<string>>
  {
    match r
    case Err(m) => Err(m)
    case Ok(Files(paths)) => Ok(paths)
    case Ok(_) => Ok([])
  }

  /** The bytes of a retrieval reply. */
  function BytesOf(r: Result<Reply>): Result<Bytes>
  {
    match r
    case Err(m) => Err(m)
    case Ok(Stream(bytes)) => Ok(bytes)
    case Ok(_) => Ok([])
  }

  /** The outcome of a call that returns nothing. */
  function DoneOf(r: Result<Reply>): Result<()>
  {
    match r
    case Err(m) => Err(m)
    case Ok(_) => Ok(())
  }

  /** A connection to the server that records every call made on it. */
  class RemotePort {
    var history: seq<Call>
    const server: Server

    constructor (server: Server)
      ensures this.server == server && history == []
    {
      this.server := server;
      history := [];
    }

    method Invoke(call: Call) returns (r: Result<Reply>)
      modifies this
      ensures history == old(history) + [call]
      ensures r == Answer(server, history)
    {
      history := history + [call];
      r := Answer(server, history);
    }

    method ListFiles(directory: string, pattern: string) returns (r: Result<seq<string>>)
      modifies this
      ensures history == old(history) + [Call.ListFiles(directory, pattern)]
      ensures r == PathsOf(Answer(server, history))
    {
      var a := Invoke(Call.ListFiles(directory, pattern));
      r := PathsOf(a);
    }

    method RetrieveFileStream(path: string) returns (r: Result<Bytes>)
      modifies this
      ensures history == old(history) + [Call.RetrieveFileStream(path)]
      ensures r == BytesOf(Answer(server, history))
    {
      var a := Invoke(Call.RetrieveFileStream(path));
      r := BytesOf(a);
    }

    method MoveFile(source: string, destination: string) returns (r: Result<()>)
      modifies this
      ensures history == old(history) + [Call.MoveFile(source, destination)]
      ensures r == DoneOf(Answer(server, history))
    {
      var a := Invoke(Call.MoveFile(source, destination));
      r := DoneOf(a);
    }

    method DeleteFile(path: string) returns (r: Result<()>)
      modifies this
      ensures history == old(history) + [Call.DeleteFile(path)]
      ensures r == DoneOf(Answer(server, history))
    {
      var a := Invoke(Call.DeleteFile(path));
      r := DoneOf(a);
    }

    method WriteTextFile(path: string, contents: string) returns (r: Result<()>)
      modifies this
      ensures history == old(history) + [Call.WriteTextFile(path, contents)]
      ensures r == DoneOf(Answer(server, history))
    {
      var a := Invoke(Call.WriteTextFile(path, contents));
      r := DoneOf(a);
    }
  }
}
