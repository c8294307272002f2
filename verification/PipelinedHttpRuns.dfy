/** What every run of a pipelined HTTP session keeps: order, backpressure and wind-down. */
module PipelinedHttpRuns {
  import opened PipelinedHttp

  /** A completion the operating system may deliver. */
  datatype Event = Read(outcome: ReadOutcome) | Write(ok: bool)

  predicate Enabled(s: State, e: Event) {
    match e
    case Read(outcome) =>
      && s.readOps > 0
      // every response handle_request builds copies keep_alive from its request
      && (outcome.Message? ==> outcome.response.keepAlive == outcome.request.keepAlive)
    case Write(_) => s.writeOps != [] && s.queue != []
  }

  function Step(s: State, e: Event): State
    requires Enabled(s, e)
  {
    match e
    case Read(outcome) => OnRead(s, outcome)
    case Write(ok) => OnWrite(s, ok)
  }

  predicate IsRun(s: State, events: seq<Event>)
    decreases |events|, 0
  {
    events == [] ||
    (IsRun(s, events[..|events| - 1]) && Enabled(After(s, events[..|events| - 1]), events[|events| - 1]))
  }

  function After(s: State, events: seq<Event>): State
    requires IsRun(s, events)
    decreases |events|, 1
  {
    if events == [] then s else Step(After(s, events[..|events| - 1]), events[|events| - 1])
  }

  lemma OneMore(s: State, events: seq<Event>, e: Event)
    requires IsRun(s, events) && Enabled(After(s, events), e)
    ensures IsRun(s, events + [e]) && After(s, events + [e]) == Step(After(s, events), e)
  {
    assert (events + [e])[..|events|] == events;
  }

  /** A session that has just been started. */
  const START := DoRead(FRESH)

  ghost predicate Reaches(events: seq<Event>, s: State) {
    IsRun(START, events) && After(START, events) == s
  }

  // ---- the pipelining invariant ------------------------------------------

  /** A read is outstanding iff reading goes on and the queue has room. */
  predicate ReadDue(s: State) { s.reader.Reading? && |s.queue| < QUEUE_LIMIT }

  /** A write is outstanding iff writing goes on and there is something to write. */
  predicate WriteDue(s: State) { s.writer.Writing? && s.queue != [] }

  predicate Pipelined(s: State) {
    && |s.queue| <= QUEUE_LIMIT
    && s.readOps == (if ReadDue(s) then 1 else 0)
    && s.writeOps == (if WriteDue(s) then [s.queue[0].keepAlive] else [])
    && (!s.writer.Writing? ==> s.queue != [])
    // so a write that finds the queue full always resumes a paused reader, never a stopped one
    && (!s.reader.Reading? ==> |s.queue| < QUEUE_LIMIT)
  }

  /** The responses that have left the queue: a closing response is written but never popped. */
  function Popped(s: State): seq<Response> {
    if s.writer.Closed? && s.written != [] then s.written[..|s.written| - 1] else s.written
  }

  ghost predicate Ordered(s: State) {
    && Popped(s) + s.queue == s.answers
    && (s.writer.Closed? ==> s.queue != [] && s.written == Popped(s) + [s.queue[0]] && !s.queue[0].keepAlive)
    && (forall r <- Popped(s) :: r.keepAlive)
    && s.started == Popped(s) + (if s.queue == [] then [] else [s.queue[0]])
    && |s.requests| == |s.answers|
    && (forall i :: 0 <= i < |s.requests| ==> s.requests[i].keepAlive == s.answers[i].keepAlive)
  }

  lemma StepKeepsPipelined(s: State, e: Event)
    requires Pipelined(s) && Enabled(s, e)
    ensures Pipelined(Step(s, e))
  {
  }

  lemma MessageKeepsOrdered(s: State, request: Request, response: Response)
    requires Ordered(s) && s.readOps > 0 && response.keepAlive == request.keepAlive
    ensures Ordered(OnRead(s, Message(request, response)))
  {
    var s' := OnRead(s, Message(request, response));
    assert s'.queue == s.queue + [response] && Popped(s') == Popped(s) && s'.written == s.written;
    assert Popped(s) + (s.queue + [response]) == Popped(s) + s.queue + [response];
  }

  lemma EndKeepsOrdered(s: State, outcome: ReadOutcome)
    requires Ordered(s) && s.readOps > 0 && !outcome.Message?
    ensures Ordered(OnRead(s, outcome))
  {
    assert Popped(OnRead(s, outcome)) == Popped(s);
  }

  lemma ReadKeepsOrdered(s: State, outcome: ReadOutcome)
    requires Pipelined(s) && Ordered(s) && Enabled(s, Read(outcome))
    ensures Ordered(OnRead(s, outcome))
  {
    match outcome
    case Message(request, response) => MessageKeepsOrdered(s, request, response);
    case _ => EndKeepsOrdered(s, outcome);
  }

  lemma WriteKeepsOrdered(s: State, ok: bool)
    requires Pipelined(s) && Ordered(s) && Enabled(s, Write(ok))
    ensures Ordered(OnWrite(s, ok))
  {
    if ok && s.queue[0].keepAlive {
      assert s.written + s.queue == s.written + [s.queue[0]] + s.queue[1..];
    }
  }

  /** Backpressure and order, in every state of every run. */
  lemma {:induction false} EveryState(events: seq<Event>)
    requires IsRun(START, events)
    ensures Pipelined(After(START, events)) && Ordered(After(START, events))
    // so a write that completes always finds its own response at the front of the queue
    ensures After(START, events).writeOps != [] ==> Enabled(After(START, events), Write(true))
  {
    if events == [] {
    } else {
      var s := After(START, events[..|events| - 1]);
      EveryState(events[..|events| - 1]);
      StepKeepsPipelined(s, events[|events| - 1]);
      match events[|events| - 1]
      case Read(outcome) => ReadKeepsOrdered(s, outcome);
      case Write(ok) => WriteKeepsOrdered(s, ok);
    }
  }

  // ---- what the events say -----------------------------------------------

  /** The requests the events deliver, in order. */
  function RequestsOf(events: seq<Event>): seq<Request> {
    if events == [] then []
    else
      var before := RequestsOf(events[..|events| - 1]);
      match events[|events| - 1]
      case Read(Message(request, _)) => before + [request]
      case _ => before
  }

  /** The responses their handlers build, in order. */
  function ResponsesOf(events: seq<Event>): seq<Response> {
    if events == [] then []
    else
      var before := ResponsesOf(events[..|events| - 1]);
      match events[|events| - 1]
      case Read(Message(_, response)) => before + [response]
      case _ => before
  }

  /** How many writes have completed without error. */
  function WrittenCount(events: seq<Event>): nat {
    if events == [] then 0
    else WrittenCount(events[..|events| - 1]) + if events[|events| - 1] == Write(true) then 1 else 0
  }

  /** How reading ended, if it has. */
  function ReaderOf(events: seq<Event>): Reader {
    if events == [] then Reading
    else
      match events[|events| - 1]
      case Read(EndOfStream) => SawEndOfStream
      case Read(ReadError) => ReadFailed
      case Read(Upgrade) => HandedOver
      case _ => ReaderOf(events[..|events| - 1])
  }

  predicate WriteHasFailed(events: seq<Event>) {
    events != [] && (events[|events| - 1] == Write(false) || WriteHasFailed(events[..|events| - 1]))
  }

  /** What one read adds to the record. */
  lemma ReadRecords(s: State, outcome: ReadOutcome)
    requires Enabled(s, Read(outcome))
    ensures var s' := OnRead(s, outcome);
            && s'.requests == (if outcome.Message? then s.requests + [outcome.request] else s.requests)
            && s'.answers == (if outcome.Message? then s.answers + [outcome.response] else s.answers)
            && s'.written == s.written && s'.writer == s.writer
            && s'.reader == match outcome
                            case EndOfStream => SawEndOfStream
                            case ReadError => ReadFailed
                            case Upgrade => HandedOver
                            case Message(_, _) => s.reader
  {
  }

  /** What one write adds to it. */
  lemma WriteRecords(s: State, ok: bool)
    requires Pipelined(s) && Enabled(s, Write(ok))
    ensures var s' := OnWrite(s, ok);
            && s'.requests == s.requests && s'.answers == s.answers && s'.reader == s.reader
            && |s'.written| == |s.written| + (if ok then 1 else 0)
            && !s.writer.WriteFailed? && (s'.writer.WriteFailed? <==> !ok)
  {
  }

  ghost predicate Recorded(events: seq<Event>, s: State) {
    && s.requests == RequestsOf(events) && s.answers == ResponsesOf(events)
    && |s.written| == WrittenCount(events)
    && s.reader == ReaderOf(events) && (s.writer.WriteFailed? <==> WriteHasFailed(events))
  }

  lemma RecordGoesOn(events: seq<Event>, s: State, e: Event)
    requires Recorded(events, s) && Pipelined(s) && Enabled(s, e)
    ensures Recorded(events + [e], Step(s, e))
  {
    assert (events + [e])[..|events|] == events;
    match e
    case Read(outcome) => ReadRecords(s, outcome);
    case Write(ok) => WriteRecords(s, ok);
  }

  /** Requests, the answers queued for them, completions and endings are exactly those the events bring. */
  lemma {:induction false} EveryRecord(events: seq<Event>)
    requires IsRun(START, events)
    ensures Recorded(events, After(START, events))
  {
    if events == [] {
    } else {
      var front, e := events[..|events| - 1], events[|events| - 1];
      EveryRecord(front);
      EveryState(front);
      RecordGoesOn(front, After(START, front), e);
      assert events == front + [e];
    }
  }

  // ---- order -------------------------------------------------------------

  /** Responses go out in the order of their requests, and one that closes goes out last. */
  ghost predicate InOrder(s: State, responses: seq<Response>) {
    && s.written <= s.started <= responses
    && |s.started| <= |s.written| + 1
    && (forall i :: 0 <= i < |s.written| - 1 ==> s.written[i].keepAlive)
    && (s.writer.Closed? <==> s.written != [] && !s.written[|s.written| - 1].keepAlive)
    && (s.writer.Closed? ==> s.writeOps == [] && s.started == s.written)
  }

  lemma OrderedIsInOrder(s: State)
    requires Pipelined(s) && Ordered(s)
    ensures InOrder(s, s.answers)
  {
    assert s.queue != [] ==> s.answers == Popped(s) + [s.queue[0]] + s.queue[1..];
    assert forall i :: 0 <= i < |Popped(s)| ==> Popped(s)[i] in Popped(s);
  }

  /**
    Response order (section 9.3.2 of RFC 9112): the responses written are, in
    order, the first of those the handlers built for the messages read, as many as
    writes have succeeded; only the last of them can be one that closes, and the
    writer has closed exactly when it is.
   */
  lemma ResponseOrder(events: seq<Event>, s: State)
    requires Reaches(events, s)
    ensures InOrder(s, ResponsesOf(events))
    ensures |s.written| == WrittenCount(events) <= |ResponsesOf(events)|
    ensures s.written == ResponsesOf(events)[..WrittenCount(events)]
  {
    EveryState(events);
    EveryRecord(events);
    OrderedIsInOrder(s);
  }

  /** After a closing response no write is ever started again, whatever the reader still accepts. */
  lemma NothingAfterClose(events: seq<Event>, more: seq<Event>)
    requires IsRun(START, events) && After(START, events).writer.Closed?
    requires IsRun(After(START, events), more)
    ensures var s, s' := After(START, events), After(After(START, events), more);
            && s'.started == s.started && s'.written == s.written && s'.writeOps == []
            && |s'.requests| - |s.requests| <= QUEUE_LIMIT - |s.queue|
  {
    EveryState(events);
    WriterStopped(After(START, events), more);
  }

  /** A session in which neither side has stopped always has an operation outstanding. */
  lemma NeverDeadlocks(events: seq<Event>)
    requires IsRun(START, events)
    ensures var s := After(START, events);
            && (s.reader.Reading? && s.writer.Writing? ==> s.readOps + |s.writeOps| >= 1)
            && (s.reader.Reading? && s.readOps == 0 ==> |s.queue| == QUEUE_LIMIT)
            && (s.readOps == 0 && s.writeOps == [] <==>
                (s.queue == [] || !s.writer.Writing?) && (!s.reader.Reading? || |s.queue| == QUEUE_LIMIT))
  {
    EveryState(events);
  }

  /** A paused reader resumes with the very next successful write. */
  lemma PausedReaderResumes(events: seq<Event>)
    requires IsRun(START, events)
    requires After(START, events).reader.Reading? && After(START, events).readOps == 0
    requires Enabled(After(START, events), Write(true)) && After(START, events).queue[0].keepAlive
    ensures var s := Step(After(START, events), Write(true));
            s.readOps == 1 && |s.writeOps| == 1 && |s.queue| == QUEUE_LIMIT - 1
  {
    EveryState(events);
  }

  // ---- after a closing request -------------------------------------------

  /**
    A request that asks to close should be the last one answered, but the reader
    does not know that: it goes on reading.  The bounded queue is what stops it.
    After the first closing request at most seven more are accepted.
   */
  lemma FewRequestsAfterClose(events: seq<Event>, i: nat)
    requires IsRun(START, events)
    requires i < |After(START, events).requests| && !After(START, events).requests[i].keepAlive
    ensures |After(START, events).requests| - (i + 1) <= 7
    ensures |After(START, events).written| <= i + 1
  {
    EveryState(events);
    var s := After(START, events);
    assert forall k :: 0 <= k < |Popped(s)| ==> Popped(s)[k].keepAlive && s.answers[k] == Popped(s)[k];
  }

  const CLOSING: Event := Read(Message(Request("/", false), Response("", false)))

  /** n closing requests have been read and nothing written. */
  predicate Bursting(s: State, n: nat) {
    && Pipelined(s)
    && |s.queue| == n && |s.requests| == n
    && s.reader.Reading? && s.writer.Writing?
    && s.written == [] && |s.answers| == n
    && (n > 0 ==> !s.requests[0].keepAlive)
  }

  lemma BurstGrows(s: State, n: nat)
    requires Bursting(s, n) && n < QUEUE_LIMIT
    ensures Enabled(s, CLOSING) && Bursting(Step(s, CLOSING), n + 1)
  {
    StepKeepsPipelined(s, CLOSING);
  }

  /** The run leads to such a state. */
  ghost predicate Bursts(events: seq<Event>, n: nat) {
    IsRun(START, events) && Bursting(After(START, events), n)
  }

  lemma BurstGoesOn(events: seq<Event>, n: nat)
    requires Bursts(events, n) && n < QUEUE_LIMIT
    ensures Bursts(events + [CLOSING], n + 1)
  {
    BurstGrows(After(START, events), n);
    OneMore(START, events, CLOSING);
  }

  lemma {:induction false} Burst(n: nat) returns (events: seq<Event>)
    requires n <= QUEUE_LIMIT
    ensures Bursts(events, n)
  {
    if n == 0 {
      events := [];
    } else {
      events := Burst(n - 1);
      BurstGoesOn(events, n - 1);
      events := events + [CLOSING];
    }
  }

  /** The bound is met: seven requests can follow a request that asked to close. */
  lemma CloseBoundIsTight() returns (events: seq<Event>)
    ensures IsRun(START, events)
    ensures var s := After(START, events);
            && |s.requests| == 8 && !s.requests[0].keepAlive
  {
    events := Burst(QUEUE_LIMIT);
  }

  // ---- shutting down the sending side ------------------------------------

  /** At most one shutdown per side that stopped, each with fewer answers pending than the queue can hold. */
  predicate Shut(s: State) {
    && |s.shutdowns| == (if s.reader.SawEndOfStream? then 1 else 0) + (if s.writer.Closed? then 1 else 0)
    && forall i :: 0 <= i < |s.shutdowns| ==> 0 <= s.shutdowns[i] < QUEUE_LIMIT
  }

  /** The answers not yet written are the queue, less a closing response that is written but not popped. */
  lemma PendingIsQueue(s: State)
    requires Ordered(s)
    ensures |s.answers| - |s.written| == |s.queue| - if s.writer.Closed? then 1 else 0
  {
    assert |Popped(s) + s.queue| == |s.answers|;
  }

  lemma ReadKeepsShut(s: State, outcome: ReadOutcome)
    requires Pipelined(s) && Ordered(s) && Shut(s) && Enabled(s, Read(outcome))
    ensures Shut(OnRead(s, outcome))
  {
    match outcome
    case EndOfStream => PendingIsQueue(s);
    case Message(request, response) => assert OnRead(s, outcome).shutdowns == s.shutdowns;
    case _ =>
  }

  lemma WriteKeepsShut(s: State, ok: bool)
    requires Pipelined(s) && Ordered(s) && Shut(s) && Enabled(s, Write(ok))
    ensures Shut(OnWrite(s, ok))
  {
    PendingIsQueue(s);
  }

  lemma StepKeepsShut(s: State, e: Event)
    requires Pipelined(s) && Ordered(s) && Shut(s) && Enabled(s, e)
    ensures Shut(Step(s, e))
  {
    match e
    case Read(outcome) => ReadKeepsShut(s, outcome);
    case Write(ok) => WriteKeepsShut(s, ok);
  }

  lemma {:induction false} EveryShutdown(events: seq<Event>)
    requires IsRun(START, events)
    ensures Shut(After(START, events))
  {
    if events == [] {
    } else {
      EveryState(events[..|events| - 1]);
      EveryShutdown(events[..|events| - 1]);
      StepKeepsShut(After(START, events[..|events| - 1]), events[|events| - 1]);
    }
  }

  /** The event shuts down the sending side while answers are still to be written. */
  predicate CutsOff(s: State, e: Event)
    requires Enabled(s, e)
  {
    var s' := Step(s, e);
    |s'.shutdowns| > |s.shutdowns| && s'.shutdowns[|s'.shutdowns| - 1] > 0
  }

  lemma ReadCutsOff(s: State, outcome: ReadOutcome)
    requires Pipelined(s) && Ordered(s) && Enabled(s, Read(outcome))
    ensures CutsOff(s, Read(outcome)) <==> outcome.EndOfStream? && |s.queue| > (if s.writer.Closed? then 1 else 0)
    ensures outcome.EndOfStream? && s.writer.Writing? ==>
              OnRead(s, outcome).shutdowns == s.shutdowns + [|s.queue|] && |s.queue| < QUEUE_LIMIT
  {
    PendingIsQueue(s);
  }

  lemma WriteCutsOff(s: State, ok: bool)
    requires Pipelined(s) && Ordered(s) && Enabled(s, Write(ok))
    ensures CutsOff(s, Write(ok)) <==> ok && !s.queue[0].keepAlive && |s.queue| > 1
  {
    PendingIsQueue(s);
  }

  /**
    Answers are cut off exactly when the stream ends while the queue holds one that
    has not been written, or a closing response is written with others behind it.
   */
  lemma CutsOffExactly(events: seq<Event>, s: State, e: Event)
    requires Reaches(events, s) && Enabled(s, e)
    ensures CutsOff(s, e) <==>
              || (e == Read(EndOfStream) && |s.queue| > (if s.writer.Closed? then 1 else 0))
              || (e == Write(true) && !s.queue[0].keepAlive && |s.queue| > 1)
    ensures e == Read(EndOfStream) && s.writer.Writing? ==>
              Step(s, e).shutdowns == s.shutdowns + [|s.queue|] && |s.queue| < QUEUE_LIMIT
  {
    EveryState(events);
    match e
    case Read(outcome) => ReadCutsOff(s, outcome);
    case Write(ok) => WriteCutsOff(s, ok);
  }

  /** As many as seven answers can be cut off by the end of the stream. */
  lemma SevenCutOff() returns (events: seq<Event>)
    ensures IsRun(START, events) && After(START, events).shutdowns == [7]
    ensures |After(START, events).answers| == 7 && After(START, events).written == []
  {
    var burst := Burst(QUEUE_LIMIT - 1);
    EveryState(burst);
    EveryShutdown(burst);
    PendingIsQueue(After(START, burst));
    OneMore(START, burst, Read(EndOfStream));
    events := burst + [Read(EndOfStream)];
  }

  // ---- winding down ------------------------------------------------------

  /** Once writing has stopped only reads are left, and each takes a slot that is never freed. */
  lemma {:induction false} WriterStopped(s: State, events: seq<Event>)
    requires Pipelined(s) && !s.writer.Writing? && IsRun(s, events)
    ensures var s' := After(s, events);
            && Pipelined(s')
            && s'.writer == s.writer && s'.started == s.started && s'.written == s.written
            && |s'.requests| - |s.requests| == |s'.queue| - |s.queue|
            && |s'.requests| - |s.requests| <= QUEUE_LIMIT - |s.queue|
  {
    if events == [] {
    } else {
      WriterStopped(s, events[..|events| - 1]);
      StepKeepsPipelined(After(s, events[..|events| - 1]), events[|events| - 1]);
    }
  }

  /** Once reading has stopped it is never restarted and no further request is answered. */
  lemma {:induction false} ReaderStopped(s: State, events: seq<Event>)
    requires Pipelined(s) && Ordered(s) && !s.reader.Reading? && IsRun(s, events)
    ensures var s' := After(s, events);
            && Pipelined(s') && Ordered(s')
            && s'.reader == s.reader && s'.readOps == 0
            && s'.requests == s.requests && s'.answers == s.answers
  {
    if events == [] {
    } else {
      var before := After(s, events[..|events| - 1]);
      ReaderStopped(s, events[..|events| - 1]);
      StepKeepsPipelined(before, events[|events| - 1]);
      assert events[|events| - 1].Write?;
      WriteKeepsOrdered(before, events[|events| - 1].ok);
    }
  }

  predicate Quiet(s: State) { s.readOps == 0 && s.writeOps == [] }

  /** Reading has ended: when nothing is outstanding and writing did not fail or close, every request is answered. */
  lemma DrainsCompletely(events: seq<Event>, s: State)
    requires Reaches(events, s) && !s.reader.Reading? && Quiet(s) && s.writer.Writing?
    ensures s.queue == [] && s.written == ResponsesOf(events) && |s.written| == |RequestsOf(events)|
  {
    EveryState(events);
    EveryRecord(events);
  }

  /** Completions that can still arrive once one side has stopped. */
  function WindDown(s: State): nat
    requires Pipelined(s)
  {
    if s.writer.Writing? then |s.queue|
    else if s.reader.Reading? then QUEUE_LIMIT - |s.queue|
    else 0
  }

  predicate Stopping(s: State) { !s.reader.Reading? || !s.writer.Writing? }

  lemma WindDownFalls(s: State, e: Event)
    requires Pipelined(s) && Stopping(s) && Enabled(s, e)
    ensures Pipelined(Step(s, e)) && Stopping(Step(s, e))
    ensures WindDown(Step(s, e)) < WindDown(s)
  {
  }

  /**
    A session one side of which has stopped winds down: however completions
    arrive, there are at most WindDown of them, and a state that has used them all
    up has nothing outstanding.
   */
  lemma {:induction false} WindsDown(s: State, events: seq<Event>)
    requires Pipelined(s) && Stopping(s) && IsRun(s, events)
    ensures Pipelined(After(s, events)) && Stopping(After(s, events))
    ensures |events| + WindDown(After(s, events)) <= WindDown(s)
    ensures |events| <= WindDown(s) <= QUEUE_LIMIT
    ensures WindDown(After(s, events)) == 0 <==> Quiet(After(s, events))
  {
    if events == [] {
    } else {
      WindsDown(s, events[..|events| - 1]);
      WindDownFalls(After(s, events[..|events| - 1]), events[|events| - 1]);
    }
  }
}
