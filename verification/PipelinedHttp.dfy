/**
  The pipelined HTTP session of networking/.boostbeast.cpp: a read loop and a
  write loop around one bounded response queue.  The front response stays queued
  while it is written, so the queue is also the token that says a write is under
  way.  This module has the session's handlers, as functions on its state and as
  an object whose methods compute them; PipelinedHttpRuns has the theorems.
 */
module PipelinedHttp {

  const QUEUE_LIMIT: nat := 8

  datatype Request = Request(target: string, keepAlive: bool)

  datatype Response = Response(body: string, keepAlive: bool)

  /** How async_read completes.  A message comes with the response its handler built. */
  datatype ReadOutcome =
    | EndOfStream
    | ReadError
    | Upgrade
    | Message(request: Request, response: Response)

  datatype Reader = Reading | SawEndOfStream | ReadFailed | HandedOver

  datatype Writer = Writing | WriteFailed | Closed

  datatype State = State(
    queue: seq<Response>,
    readOps: nat,                 // async_read operations outstanding
    writeOps: seq<bool>,          // async_write operations outstanding, each with the keep_alive it captured
    reader: Reader,
    writer: Writer,
    requests: seq<Request>,     // requests answered, in order read
    answers: seq<Response>,     // their responses
    started: seq<Response>,     // writes started
    written: seq<Response>,     // writes completed without error
    shutdowns: seq<int>)        // calls to do_close, each with the number of answers not yet written

  const FRESH := State([], 0, [], Reading, Writing, [], [], [], [], [])

  function DoRead(s: State): State {
    s.(readOps := s.readOps + 1)
  }

  /** Shuts down the sending side, whatever is still queued. */
  function DoClose(s: State): State {
    s.(shutdowns := s.shutdowns + [|s.answers| - |s.written|])
  }

  function DoWrite(s: State): State {
    if s.queue == [] then s
    else s.(writeOps := s.writeOps + [s.queue[0].keepAlive], started := s.started + [s.queue[0]])
  }

  function QueueWrite(s: State, response: Response): State {
    var s1 := s.(queue := s.queue + [response]);
    if |s1.queue| == 1 then DoWrite(s1) else s1
  }

  function OnRead(s: State, outcome: ReadOutcome): State
    requires s.readOps > 0
  {
    var s1 := s.(readOps := s.readOps - 1);
    match outcome
    case EndOfStream => DoClose(s1.(reader := SawEndOfStream))
    case ReadError => s1.(reader := ReadFailed)
    case Upgrade => s1.(reader := HandedOver)
    case Message(request, response) =>
      var s2 := QueueWrite(s1.(requests := s.requests + [request], answers := s.answers + [response]), response);
      if |s2.queue| < QUEUE_LIMIT then DoRead(s2) else s2
  }

  function OnWrite(s: State, ok: bool): State
    requires s.writeOps != [] && s.queue != []
  {
    var keepAlive := s.writeOps[0];
    var s1 := s.(writeOps := s.writeOps[1..]);
    if !ok then s1.(writer := WriteFailed)
    else
      var s2 := s1.(written := s.written + [s.queue[0]]);
      if !keepAlive then DoClose(s2.(writer := Closed))
      else
        var s3 := if |s2.queue| == QUEUE_LIMIT then DoRead(s2) else s2;
        DoWrite(s3.(queue := s3.queue[1..]))
  }

  class HttpSession {
    var responseQueue: seq<Response>
    var readOps: nat
    var writeOps: seq<bool>
    var reader: Reader
    var writer: Writer
    var requests: seq<Request>
    var answers: seq<Response>
    var started: seq<Response>
    var written: seq<Response>
    var shutdowns: seq<int>

    function View(): State
      reads this
    {
      State(responseQueue, readOps, writeOps, reader, writer, requests, answers, started, written,
            shutdowns)
    }

    constructor ()
      ensures View() == FRESH
    {
      responseQueue, readOps, writeOps := [], 0, [];
      reader, writer := Reading, Writing;
      requests, answers, started, written, shutdowns := [], [], [], [], [];
    }

    method Run()
      modifies this
      ensures View() == DoRead(old(View()))
    {
      StartRead();
    }

    method StartRead()
      modifies this`readOps
      ensures readOps == old(readOps) + 1
    {
      readOps := readOps + 1;
    }

    /** A read has completed.  The response is what handle_request builds for the message. */
    method HandleRead(outcome: ReadOutcome)
      requires readOps > 0
      modifies this
      ensures View() == OnRead(old(View()), outcome)
    {
      readOps := readOps - 1;
      match outcome {
        case EndOfStream =>
          reader := SawEndOfStream;
          Shutdown();
          return;
        case ReadError =>
          reader := ReadFailed;
          return;
        case Upgrade =>
          reader := HandedOver;
          return;
        case Message(request, response) =>
          requests := requests + [request];
          answers := answers + [response];
          Enqueue(response);
          if |responseQueue| < QUEUE_LIMIT {
            StartRead();
          }
      }
    }

    method Shutdown()
      modifies this`shutdowns
      ensures View() == DoClose(old(View()))
    {
      shutdowns := shutdowns + [|answers| - |written|];
    }

    method Enqueue(response: Response)
      modifies this`responseQueue, this`writeOps, this`started
      ensures View() == QueueWrite(old(View()), response)
    {
      responseQueue := responseQueue + [response];
      if |responseQueue| == 1 {
        StartWrite();
      }
    }

    method StartWrite()
      modifies this`writeOps, this`started
      ensures View() == DoWrite(old(View()))
    {
      if responseQueue != [] {
        writeOps := writeOps + [responseQueue[0].keepAlive];
        started := started + [responseQueue[0]];
      }
    }

    /** A write has completed. */
    method HandleWrite(ok: bool)
      requires writeOps != [] && responseQueue != []
      modifies this
      ensures View() == OnWrite(old(View()), ok)
    {
      var keepAlive := writeOps[0];
      writeOps := writeOps[1..];
      if !ok {
        writer := WriteFailed;
        return;
      }
      written := written + [responseQueue[0]];
      if !keepAlive {
        writer := Closed;
        Shutdown();
        return;
      }
      if |responseQueue| == QUEUE_LIMIT {
        StartRead();
      }
      responseQueue := responseQueue[1..];
      StartWrite();
    }
  }
}
