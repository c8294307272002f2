/**
  The HTTP session the server actually uses: one response slot, one keep_alive
  flag, and a read that is restarted as soon as a request has been answered.
 */
module HttpSessions {
  import opened Wrappers
  import opened Routes

  /** A request; path is the part of its target that routes are looked up by. */
  datatype Request = Request(method': Method, target: string, path: string, keepAlive: bool, upgrade: bool)

  datatype Response = Response(body: string, keepAlive: bool)

  /** What the routes make of a request: a handler's response, or the WebSocket handler it is passed to. */
  type Callback = Request -> Response

  /** The registrations a session works with. */
  datatype Table = Table(added: seq<Entry<(Method, string), Callback>>, addedWs: seq<Entry<string, Callback>>)

  datatype ReadOutcome = EndOfStream | ReadError | Got(request: Request)

  datatype State = State(
    readOps: nat,                // async_read operations outstanding
    writing: seq<Response>,      // async_write operations outstanding, in the order started
    keepAlive: bool,             // the session's one flag
    closes: nat,                 // calls to Close
    upgraded: bool,
    destroyed: bool,             // the last shared pointer to the session is gone
    requests: seq<Request>,      // requests read and not handed to a WebSocket session
    started: seq<Response>,
    written: seq<Response>,      // writes completed without error, in the order they completed
    failed: seq<Response>)       // writes completed with one

  const FRESH := State(0, [], false, 0, false, false, [], [], [], [])

  function Upgrades(table: Table, request: Request): bool {
    request.upgrade && request.method' == GET && First(table.addedWs, request.path).Some?
  }

  /** The response to a request that is not handed over: the route's, or not found. */
  function Answer(table: Table, request: Request): Response {
    match if request.upgrade then None else First(table.added, (request.method', request.path))
    case Some(callback) => callback(request)
    case None => Response("Unknown HTTP-target: " + request.target, request.keepAlive)
  }

  function StartRead(s: State): State { s.(readOps := s.readOps + 1) }

  function StartWrite(s: State, response: Response): State {
    s.(keepAlive := response.keepAlive, writing := s.writing + [response], started := s.started + [response])
  }

  function OnRead(table: Table, s: State, outcome: ReadOutcome): State
    requires s.readOps > 0
  {
    var s1 := s.(readOps := s.readOps - 1);
    match outcome
    case EndOfStream => s1.(closes := s.closes + 1)
    case ReadError => s1
    case Got(request) =>
      if Upgrades(table, request) then s1.(upgraded := true)
      else StartRead(StartWrite(s1.(requests := s.requests + [request]), Answer(table, request)))
  }

  /** Write k of those outstanding has completed; nothing orders the completions of writes that overlap. */
  function OnWrite(s: State, k: nat, ok: bool): State
    requires k < |s.writing|
  {
    var s1 := s.(writing := RemoveAt(s.writing, k));
    if !ok then s1.(failed := s.failed + [s.writing[k]])
    else
      var s2 := s1.(written := s.written + [s.writing[k]]);
      if s.keepAlive then s2 else s2.(closes := s.closes + 1)
  }

  /** Only pending operations hold the session; when none is left it is destroyed, which closes it once more. */
  function Released(s: State): State {
    if s.readOps == 0 && s.writing == [] then s.(closes := s.closes + 1, destroyed := true) else s
  }

  class HttpSession {
    const routes: RouteManager<Callback>
    var readOps: nat
    var writing: seq<Response>
    var keepAlive: bool
    var closes: nat
    var upgraded: bool
    var destroyed: bool
    var requests: seq<Request>
    var started: seq<Response>
    var written: seq<Response>
    var failed: seq<Response>

    function View(): State
      reads this
    {
      State(readOps, writing, keepAlive, closes, upgraded, destroyed, requests, started, written,
            failed)
    }

    constructor (routes: RouteManager<Callback>)
      ensures View() == FRESH && this.routes == routes
    {
      this.routes := routes;
      readOps, writing, keepAlive, closes, upgraded, destroyed := 0, [], false, 0, false, false;
      requests, started, written, failed := [], [], [], [];
    }

    method Run()
      modifies this
      ensures View() == StartRead(old(View()))
    {
      readOps := readOps + 1;
    }

    method HandleRead(outcome: ReadOutcome)
      requires readOps > 0 && routes.Valid()
      modifies this
      ensures View() == OnRead(Table(routes.added, routes.addedWs), old(View()), outcome)
    {
      readOps := readOps - 1;
      if outcome.EndOfStream? {
        Close();
        return;
      }
      if outcome.ReadError? {
        return;
      }
      var request := outcome.request;
      var response := Response("", request.keepAlive);
      var found := false;
      if request.upgrade {
        var handler := routes.GetWSHandler(request.method', request.path);
        found := handler.Some?;
        if found {
          upgraded := true;
          return;
        }
      } else {
        var callback := routes.GetCallback(request.method', request.path);
        found := callback.Some?;
        if found {
          response := callback.value(request);
        }
      }
      if !found {
        response := response.(body := "Unknown HTTP-target: " + request.target);
      }
      requests := requests + [request];
      Write(response);
      readOps := readOps + 1;
    }

    method Write(response: Response)
      modifies this`keepAlive, this`writing, this`started
      ensures View() == StartWrite(old(View()), response)
    {
      keepAlive := response.keepAlive;
      writing := writing + [response];
      started := started + [response];
    }

    method HandleWrite(k: nat, ok: bool)
      requires k < |writing|
      modifies this
      ensures View() == OnWrite(old(View()), k, ok)
    {
      var response := writing[k];
      writing := RemoveAt(writing, k);
      if !ok {
        failed := failed + [response];
        return;
      }
      written := written + [response];
      if !keepAlive {
        Close();
      }
    }

    method Close()
      modifies this`closes
      ensures closes == old(closes) + 1
    {
      closes := closes + 1;
    }

    /** The completed operation lets go of the session; the destructor runs if it was the last one. */
    method Release()
      modifies this
      ensures View() == Released(old(View()))
    {
      if readOps == 0 && writing == [] {
        Close();
        destroyed := true;
      }
    }
  }

  // ---- runs --------------------------------------------------------------

  datatype Event = Read(outcome: ReadOutcome) | Wrote(k: nat, ok: bool)

  predicate Enabled(s: State, e: Event) {
    match e
    case Read(_) => s.readOps > 0
    case Wrote(k, _) => k < |s.writing|
  }

  function Step(table: Table, s: State, e: Event): State
    requires Enabled(s, e)
  {
    match e
    case Read(outcome) => Released(OnRead(table, s, outcome))
    case Wrote(k, ok) => Released(OnWrite(s, k, ok))
  }

  predicate IsRun(table: Table, events: seq<Event>)
    decreases |events|, 0
  {
    events == [] ||
    (IsRun(table, events[..|events| - 1]) && Enabled(After(table, events[..|events| - 1]), events[|events| - 1]))
  }

  function After(table: Table, events: seq<Event>): State
    requires IsRun(table, events)
    decreases |events|, 1
  {
    if events == [] then StartRead(FRESH)
    else Step(table, After(table, events[..|events| - 1]), events[|events| - 1])
  }

  ghost predicate Reaches(table: Table, events: seq<Event>, s: State) {
    IsRun(table, events) && After(table, events) == s
  }

  /** The event makes the session answer a request. */
  predicate Asks(table: Table, e: Event) {
    e.Read? && e.outcome.Got? && !Upgrades(table, e.outcome.request)
  }

  predicate Stops(table: Table, e: Event) {
    e.Read? && !Asks(table, e)
  }

  /** A serial client: a request to answer arrives only when the previous response has been written, or has failed. */
  predicate Serial(table: Table, events: seq<Event>)
    requires IsRun(table, events)
  {
    events == [] ||
    (var front := events[..|events| - 1];
     Serial(table, front) && (Asks(table, events[|events| - 1]) ==> After(table, front).writing == []))
  }

  /** No state of the run has two writes in flight, which Beast forbids. */
  predicate NeverOverlaps(table: Table, events: seq<Event>)
    requires IsRun(table, events)
  {
    |After(table, events).writing| <= 1 && (events == [] || NeverOverlaps(table, events[..|events| - 1]))
  }

  lemma WritesLeft(table: Table, s: State, e: Event)
    requires Enabled(s, e)
    ensures |Step(table, s, e).writing| ==
            if Asks(table, e) then |s.writing| + 1 else if e.Wrote? then |s.writing| - 1 else |s.writing|
  {
  }

  /** Writes never overlap exactly when the client is serial: nothing in the session itself prevents it. */
  lemma {:induction false} OverlapExactly(table: Table, events: seq<Event>)
    requires IsRun(table, events)
    ensures NeverOverlaps(table, events) <==> Serial(table, events)
  {
    if events == [] {
    } else {
      var s := After(table, events[..|events| - 1]);
      OverlapExactly(table, events[..|events| - 1]);
      WritesLeft(table, s, events[|events| - 1]);
    }
  }

  function Answers(table: Table, requests: seq<Request>): seq<Response> {
    seq(|requests|, i requires 0 <= i < |requests| => Answer(table, requests[i]))
  }

  lemma AnswersStep(table: Table, requests: seq<Request>, request: Request)
    ensures Answers(table, requests + [request]) == Answers(table, requests) + [Answer(table, request)]
  {
  }

  /** Responses that ask the session to close. */
  function Closing(responses: seq<Response>): nat {
    if responses == [] then 0
    else Closing(responses[..|responses| - 1]) + if responses[|responses| - 1].keepAlive then 0 else 1
  }

  lemma ClosingStep(responses: seq<Response>, r: Response)
    ensures Closing(responses + [r]) == Closing(responses) + if r.keepAlive then 0 else 1
  {
    assert (responses + [r])[..|responses|] == responses;
  }

  /** A request to answer starts one write and the next read. */
  lemma AfterAsking(table: Table, s: State, e: Event)
    requires Enabled(s, e) && Asks(table, e)
    ensures var r := Answer(table, e.outcome.request);
            Step(table, s, e) == s.(writing := s.writing + [r], started := s.started + [r], keepAlive := r.keepAlive,
                                    requests := s.requests + [e.outcome.request])
  {
  }

  /** The end of reading leaves the writes as they are. */
  lemma AfterStopping(table: Table, s: State, e: Event)
    requires Enabled(s, e) && Stops(table, e)
    ensures var s' := Step(table, s, e);
            && s'.writing == s.writing && s'.started == s.started && s'.written == s.written
            && s'.failed == s.failed && s'.requests == s.requests && s'.keepAlive == s.keepAlive
  {
  }

  /** The completion of a write takes it out of flight. */
  lemma AfterWriting(table: Table, s: State, k: nat, ok: bool)
    requires Enabled(s, Wrote(k, ok))
    ensures var s' := Step(table, s, Wrote(k, ok));
            && s'.writing == RemoveAt(s.writing, k)
            && s'.written == (if ok then s.written + [s.writing[k]] else s.written)
            && s'.failed == (if ok then s.failed else s.failed + [s.writing[k]])
            && s'.started == s.started && s'.requests == s.requests && s'.keepAlive == s.keepAlive
  {
  }

  /** Every response started is in flight, written or failed, and the flag is the last one's. */
  ghost predicate Accounted(table: Table, s: State) {
    && s.started == Answers(table, s.requests)
    && multiset(s.started) == multiset(s.writing) + multiset(s.written) + multiset(s.failed)
    && (s.started != [] ==> s.keepAlive == s.started[|s.started| - 1].keepAlive)
  }

  /** Taking one out of flight and adding it to those written or failed keeps the total. */
  lemma DoneMovesOne(writing: seq<Response>, written: seq<Response>, failed: seq<Response>, k: nat, ok: bool)
    requires k < |writing|
    ensures multiset(RemoveAt(writing, k)) + multiset(if ok then written + [writing[k]] else written)
            + multiset(if ok then failed else failed + [writing[k]]) ==
            multiset(writing) + multiset(written) + multiset(failed)
  {
    assert writing == writing[..k] + [writing[k]] + writing[k + 1..];
  }

  lemma AskKeepsAccounted(table: Table, s: State, e: Event)
    requires Accounted(table, s) && Enabled(s, e) && Asks(table, e)
    ensures Accounted(table, Step(table, s, e))
  {
    AfterAsking(table, s, e);
    AnswersStep(table, s.requests, e.outcome.request);
  }

  lemma WriteKeepsAccounted(table: Table, s: State, k: nat, ok: bool)
    requires Accounted(table, s) && Enabled(s, Wrote(k, ok))
    ensures Accounted(table, Step(table, s, Wrote(k, ok)))
  {
    AfterWriting(table, s, k, ok);
    DoneMovesOne(s.writing, s.written, s.failed, k, ok);
  }

  lemma StepKeepsAccounted(table: Table, s: State, e: Event)
    requires Accounted(table, s) && Enabled(s, e)
    ensures Accounted(table, Step(table, s, e))
  {
    if e.Wrote? {
      WriteKeepsAccounted(table, s, e.k, e.ok);
    } else if Asks(table, e) {
      AskKeepsAccounted(table, s, e);
    } else {
      AfterStopping(table, s, e);
    }
  }

  lemma {:induction false} EveryStateAccounted(table: Table, events: seq<Event>)
    requires IsRun(table, events)
    ensures Accounted(table, After(table, events))
  {
    if events == [] {
    } else {
      EveryStateAccounted(table, events[..|events| - 1]);
      StepKeepsAccounted(table, After(table, events[..|events| - 1]), events[|events| - 1]);
    }
  }

  /** For any client, each response started is in flight, written or failed, and once. */
  lemma EveryResponseOnce(table: Table, events: seq<Event>, s: State)
    requires Reaches(table, events, s)
    ensures multiset(s.started) == multiset(s.writing) + multiset(s.written) + multiset(s.failed)
  {
    EveryStateAccounted(table, events);
  }

  // ---- what a client is owed ---------------------------------------------

  /** A WebSocket handler is registered for the path that a GET asks to upgrade on. */
  ghost predicate HandsOver(table: Table, request: Request) {
    request.upgrade && request.method' == GET && exists e <- table.addedWs :: e.key == request.path
  }

  /** The callback registered first for the method and path makes the response; without one the target is not found. */
  ghost predicate Owed(table: Table, request: Request, r: Response) {
    var key := (request.method', request.path);
    if !request.upgrade && exists e <- table.added :: e.key == key
    then forall i :: Earliest(table.added, key, i) ==> r == table.added[i].value(request)
    else r == Response("Unknown HTTP-target: " + request.target, request.keepAlive)
  }

  lemma AnswerIsOwed(table: Table, request: Request)
    ensures Owed(table, request, Answer(table, request))
  {
    var key := (request.method', request.path);
    FirstIsEarliest(table.added, key);
    forall i | Earliest(table.added, key, i)
      ensures First(table.added, key) == Some(table.added[i].value)
    {
      FirstIsTheEarliest(table.added, key, i);
    }
  }

  lemma UpgradesWhenHanded(table: Table, request: Request)
    ensures Upgrades(table, request) <==> HandsOver(table, request)
  {
    FirstIsEarliest(table.addedWs, request.path);
  }

  /** The requests that are to be answered, as the events give them. */
  ghost function RequestsOf(table: Table, events: seq<Event>): seq<Request> {
    if events == [] then []
    else
      var before, e := RequestsOf(table, events[..|events| - 1]), events[|events| - 1];
      if e.Read? && e.outcome.Got? && !HandsOver(table, e.outcome.request) then before + [e.outcome.request] else before
  }

  lemma {:induction false} RequestsAreRead(table: Table, events: seq<Event>)
    requires IsRun(table, events)
    ensures After(table, events).requests == RequestsOf(table, events)
  {
    if events == [] {
    } else {
      var front, e := events[..|events| - 1], events[|events| - 1];
      RequestsAreRead(table, front);
      if e.Wrote? {
        AfterWriting(table, After(table, front), e.k, e.ok);
      } else {
        if e.outcome.Got? {
          UpgradesWhenHanded(table, e.outcome.request);
        }
        if Asks(table, e) {
          AfterAsking(table, After(table, front), e);
        } else {
          AfterStopping(table, After(table, front), e);
        }
      }
    }
  }

  /**
    For any client and in whatever order overlapping writes complete: one response is
    started for each request read and not handed over, in order, and it is the one
    owed; and the flag is that of the response started last.
   */
  lemma EveryRequestIsAnswered(table: Table, events: seq<Event>, s: State)
    requires Reaches(table, events, s)
    ensures |s.started| == |RequestsOf(table, events)|
    ensures forall i :: 0 <= i < |s.started| ==> Owed(table, RequestsOf(table, events)[i], s.started[i])
    ensures s.started != [] ==> s.keepAlive == s.started[|s.started| - 1].keepAlive
  {
    EveryStateAccounted(table, events);
    RequestsAreRead(table, events);
    forall i | 0 <= i < |s.started|
      ensures Owed(table, RequestsOf(table, events)[i], s.started[i])
    {
      AnswerIsOwed(table, s.requests[i]);
    }
  }

  /** One more request: it is handed over and reading stops, or the response owed is started and reading goes on. */
  lemma OneMoreRequest(table: Table, s: State, request: Request)
    requires Enabled(s, Read(Got(request)))
    ensures var s' := Step(table, s, Read(Got(request)));
            if HandsOver(table, request) then
              s'.started == s.started && s'.readOps == s.readOps - 1 && s'.upgraded
            else
              && |s'.started| == |s.started| + 1 && s.started <= s'.started && s'.readOps == s.readOps
              && Owed(table, request, s'.started[|s.started|])
  {
    UpgradesWhenHanded(table, request);
    AnswerIsOwed(table, request);
    if HandsOver(table, request) {
      AfterStopping(table, s, Read(Got(request)));
    } else {
      AfterAsking(table, s, Read(Got(request)));
    }
  }

  // ---- reading and closing, for any client -------------------------------

  /** The event ends reading. */
  ghost predicate EndsReading(table: Table, e: Event) {
    e.Read? && (!e.outcome.Got? || HandsOver(table, e.outcome.request))
  }

  ghost predicate Ended(table: Table, events: seq<Event>) {
    events != [] && (Ended(table, events[..|events| - 1]) || EndsReading(table, events[|events| - 1]))
  }

  ghost predicate Handed(table: Table, e: Event) {
    e.Read? && e.outcome.Got? && HandsOver(table, e.outcome.request)
  }

  ghost predicate WasHanded(table: Table, events: seq<Event>) {
    events != [] && (WasHanded(table, events[..|events| - 1]) || Handed(table, events[|events| - 1]))
  }

  /** Close is called for the end of the stream and for a written response when the last started one is closing. */
  predicate AsksToClose(s: State, e: Event) {
    match e
    case Read(outcome) => outcome.EndOfStream?
    case Wrote(_, ok) => ok && s.started != [] && !s.started[|s.started| - 1].keepAlive
  }

  function CloseCount(table: Table, events: seq<Event>): nat
    requires IsRun(table, events)
  {
    if events == [] then 0
    else
      var front := events[..|events| - 1];
      CloseCount(table, front) + if AsksToClose(After(table, front), events[|events| - 1]) then 1 else 0
  }

  lemma InFlightWasStarted(table: Table, s: State, k: nat)
    requires Accounted(table, s) && k < |s.writing|
    ensures s.writing[k] in s.started
  {
    assert s.writing[k] in multiset(s.writing);
    assert s.writing[k] in multiset(s.started);
  }

  /** What reading and closing have come to. */
  ghost predicate Kept(s: State, stopped: bool, handed: bool, closings: nat) {
    && s.readOps == (if stopped then 0 else 1)
    && (s.upgraded <==> handed)
    && (s.destroyed <==> s.readOps == 0 && s.writing == [])
    && s.closes == closings + if s.destroyed then 1 else 0
  }

  lemma ReadKeepsKept(table: Table, s: State, outcome: ReadOutcome, stopped: bool, handed: bool, closings: nat)
    requires Kept(s, stopped, handed, closings) && Enabled(s, Read(outcome))
    ensures Kept(Step(table, s, Read(outcome)), stopped || EndsReading(table, Read(outcome)),
                 handed || Handed(table, Read(outcome)),
                 closings + if AsksToClose(s, Read(outcome)) then 1 else 0)
  {
    if outcome.Got? {
      UpgradesWhenHanded(table, outcome.request);
    }
  }

  lemma WriteKeepsKept(table: Table, s: State, k: nat, ok: bool, stopped: bool, handed: bool, closings: nat)
    requires Kept(s, stopped, handed, closings) && Accounted(table, s) && Enabled(s, Wrote(k, ok))
    ensures Kept(Step(table, s, Wrote(k, ok)), stopped, handed,
                 closings + if AsksToClose(s, Wrote(k, ok)) then 1 else 0)
  {
    InFlightWasStarted(table, s, k);
  }

  /**
    For any client: a read is outstanding until one ends reading; the connection has
    been handed over iff a request asked for it; the session is destroyed exactly
    when nothing is outstanding; and Close has been called once for each event that
    asks for it and once by the destructor.
   */
  lemma {:induction false} EveryReadAndClose(table: Table, events: seq<Event>)
    requires IsRun(table, events)
    ensures Kept(After(table, events), Ended(table, events), WasHanded(table, events), CloseCount(table, events))
  {
    if events == [] {
    } else {
      var front := events[..|events| - 1];
      var s, ended, handed := After(table, front), Ended(table, front), WasHanded(table, front);
      EveryReadAndClose(table, front);
      EveryStateAccounted(table, front);
      match events[|events| - 1]
      case Read(outcome) => ReadKeepsKept(table, s, outcome, ended, handed, CloseCount(table, front));
      case Wrote(k, ok) => WriteKeepsKept(table, s, k, ok, ended, handed, CloseCount(table, front));
    }
  }

  // ---- order, and serial clients -----------------------------------------

  /** What a list of events says by itself: whether reading has ended, by how many ends of stream, how writes ended. */
  datatype Story = Story(stopped: bool, ends: nat, oks: seq<bool>)

  function Told(table: Table, story: Story, e: Event): Story {
    match e
    case Wrote(_, ok) => story.(oks := story.oks + [ok])
    case Read(outcome) =>
      Story(story.stopped || Stops(table, e), story.ends + (if outcome.EndOfStream? then 1 else 0), story.oks)
  }

  function StoryOf(table: Table, events: seq<Event>): Story {
    if events == [] then Story(false, 0, [])
    else Told(table, StoryOf(table, events[..|events| - 1]), events[|events| - 1])
  }

  /** The responses whose writes succeeded, in order. */
  function Successes(responses: seq<Response>, oks: seq<bool>): seq<Response>
    requires |responses| == |oks|
  {
    if oks == [] then []
    else
      Successes(responses[..|oks| - 1], oks[..|oks| - 1]) + if oks[|oks| - 1] then [responses[|oks| - 1]] else []
  }

  /** The writes started are those completed, in the order they completed, and then those in flight. */
  ghost predicate InOrder(s: State, oks: seq<bool>) {
    && |oks| <= |s.started|
    && s.writing == s.started[|oks|..]
    && s.written == Successes(s.started[..|oks|], oks)
  }

  lemma AskKeepsInOrder(table: Table, s: State, e: Event, oks: seq<bool>)
    requires InOrder(s, oks) && Enabled(s, e) && Asks(table, e)
    ensures InOrder(Step(table, s, e), oks)
  {
    var r := Answer(table, e.outcome.request);
    AfterAsking(table, s, e);
    assert (s.started + [r])[|oks|..] == s.started[|oks|..] + [r];
    assert (s.started + [r])[..|oks|] == s.started[..|oks|];
  }

  lemma WriteKeepsInOrder(table: Table, s: State, ok: bool, oks: seq<bool>)
    requires InOrder(s, oks) && s.writing != []
    ensures InOrder(Step(table, s, Wrote(0, ok)), oks + [ok])
  {
    var n := |oks|;
    AfterWriting(table, s, 0, ok);
    assert s.started[n] == s.writing[0] && s.started[n + 1..] == s.started[n..][1..];
    assert s.started[..n + 1][..n] == s.started[..n] && (oks + [ok])[..n] == oks;
    assert Successes(s.started[..n], oks) + [] == Successes(s.started[..n], oks);
  }

  /**
    For any client, as long as every completed write is the oldest in flight: the
    responses written are those started, in order, without the failed ones and those
    in flight.
   */
  lemma {:induction false} ResponsesInOrder(table: Table, events: seq<Event>)
    requires IsRun(table, events)
    requires forall e <- events :: e.Wrote? ==> e.k == 0
    ensures InOrder(After(table, events), StoryOf(table, events).oks)
  {
    if events == [] {
    } else {
      var front, e := events[..|events| - 1], events[|events| - 1];
      ResponsesInOrder(table, front);
      if e.Wrote? {
        WriteKeepsInOrder(table, After(table, front), e.ok, StoryOf(table, front).oks);
      } else if Asks(table, e) {
        AskKeepsInOrder(table, After(table, front), e, StoryOf(table, front).oks);
      } else {
        AfterStopping(table, After(table, front), e);
      }
    }
  }

  /** The session of a serial client. */
  ghost predicate OneSlot(s: State, story: Story) {
    && s.readOps == (if story.stopped then 0 else 1)
    && |s.writing| <= 1
    && (s.destroyed <==> s.readOps == 0 && s.writing == [])
    && s.closes == story.ends + Closing(s.written) + (if s.destroyed then 1 else 0)
    && InOrder(s, story.oks)
  }

  /** With one write in flight the flag is that of its response. */
  lemma FlagOfOne(table: Table, s: State, oks: seq<bool>)
    requires Accounted(table, s) && InOrder(s, oks) && |s.writing| == 1
    ensures s.keepAlive == s.writing[0].keepAlive
  {
    assert s.started[|oks|] == s.writing[0];
  }

  lemma WriteKeepsOneSlot(table: Table, s: State, k: nat, ok: bool, story: Story)
    requires OneSlot(s, story) && Accounted(table, s) && Enabled(s, Wrote(k, ok))
    ensures OneSlot(Step(table, s, Wrote(k, ok)), Told(table, story, Wrote(k, ok)))
  {
    FlagOfOne(table, s, story.oks);
    WriteKeepsInOrder(table, s, ok, story.oks);
    AfterWriting(table, s, k, ok);
    ClosingStep(s.written, s.writing[0]);
  }

  lemma ReadKeepsOneSlot(table: Table, s: State, outcome: ReadOutcome, story: Story)
    requires OneSlot(s, story) && Enabled(s, Read(outcome))
    requires Asks(table, Read(outcome)) ==> s.writing == []
    ensures OneSlot(Step(table, s, Read(outcome)), Told(table, story, Read(outcome)))
  {
    if Asks(table, Read(outcome)) {
      AfterAsking(table, s, Read(outcome));
      AskKeepsInOrder(table, s, Read(outcome), story.oks);
    } else {
      AfterStopping(table, s, Read(outcome));
    }
  }

  lemma StepKeepsOneSlot(table: Table, s: State, e: Event, story: Story)
    requires OneSlot(s, story) && Accounted(table, s) && Enabled(s, e)
    requires Asks(table, e) ==> s.writing == []
    ensures OneSlot(Step(table, s, e), Told(table, story, e))
  {
    match e
    case Read(outcome) => ReadKeepsOneSlot(table, s, outcome, story);
    case Wrote(k, ok) => WriteKeepsOneSlot(table, s, k, ok, story);
  }

  /**
    With a serial client the session reads until reading ends, has at most one write
    in flight, is destroyed exactly when nothing is outstanding, and has called
    Close once for the end of the stream, once for each written response that was
    not keep-alive, and once when it was destroyed; and the responses written are
    those started, in order, without the failed ones and the one in flight.
   */
  lemma {:induction false} SerialClient(table: Table, events: seq<Event>)
    requires IsRun(table, events) && Serial(table, events)
    ensures OneSlot(After(table, events), StoryOf(table, events))
  {
    if events == [] {
    } else {
      var front := events[..|events| - 1];
      SerialClient(table, front);
      EveryStateAccounted(table, front);
      StepKeepsOneSlot(table, After(table, front), events[|events| - 1], StoryOf(table, front));
    }
  }

  /** A successful write closes the session exactly when the response just written was not keep-alive. */
  lemma ClosesForTheRightResponse(table: Table, events: seq<Event>, s: State)
    requires Reaches(table, events, s) && Serial(table, events) && s.writing != []
    ensures OnWrite(s, 0, true).closes == s.closes + 1 <==> !s.writing[0].keepAlive
  {
    SerialClient(table, events);
    EveryStateAccounted(table, events);
    FlagOfOne(table, s, StoryOf(table, events).oks);
  }

  /** The write that ends is decided on by the flag, and the flag is the last response's. */
  lemma FlagDecides(table: Table, s: State, k: nat)
    requires Accounted(table, s) && k < |s.writing|
    ensures s.started != []
    ensures (OnWrite(s, k, true).closes == s.closes + 1 <==> !s.writing[k].keepAlive)
            <==> s.writing[k].keepAlive == s.started[|s.started| - 1].keepAlive
  {
    InFlightWasStarted(table, s, k);
  }

  /**
    For any client the flag belongs to the response started last: whichever of the
    writes in flight succeeds next, it closes the session exactly when its own
    response asks for it iff that response and the last one started agree about
    keep-alive.
   */
  lemma FlagIsTheLastStarted(table: Table, events: seq<Event>, s: State, k: nat)
    requires Reaches(table, events, s) && k < |s.writing|
    ensures s.started != []
    ensures (OnWrite(s, k, true).closes == s.closes + 1 <==> !s.writing[k].keepAlive)
            <==> s.writing[k].keepAlive == s.started[|s.started| - 1].keepAlive
  {
    EveryStateAccounted(table, events);
    FlagDecides(table, s, k);
  }

  lemma Do(table: Table, events: seq<Event>, s: State, e: Event) returns (longer: seq<Event>, s': State)
    requires Reaches(table, events, s) && Enabled(s, e)
    ensures s' == Step(table, s, e) && Reaches(table, longer, s')
  {
    assert (events + [e])[..|events|] == events;
    longer, s' := events + [e], Step(table, s, e);
  }

  const NO_ROUTES := Table([], [])
  const CLOSING := Request(GET, "/", "/", false, false)
  const STAYING := Request(GET, "/", "/", true, false)

  lemma Unrouted(s: State, request: Request)
    requires s.readOps > 0 && !request.upgrade
    ensures Answer(NO_ROUTES, request).keepAlive == request.keepAlive
    ensures Step(NO_ROUTES, s, Read(Got(request))) ==
            StartRead(StartWrite(s.(readOps := s.readOps - 1, requests := s.requests + [request]),
                                 Answer(NO_ROUTES, request)))
  {
  }

  lemma BothAsked() returns (events: seq<Event>, s: State)
    ensures Reaches(NO_ROUTES, events, s)
    ensures s.requests == [CLOSING, STAYING] && s.keepAlive && s.closes == 0 && s.written == [] && s.readOps == 1
    ensures s.writing == s.started && |s.started| == 2 && !s.writing[0].keepAlive && s.writing[1].keepAlive
  {
    var e1, s1 := Do(NO_ROUTES, [], StartRead(FRESH), Read(Got(CLOSING)));
    Unrouted(StartRead(FRESH), CLOSING);
    events, s := Do(NO_ROUTES, e1, s1, Read(Got(STAYING)));
    Unrouted(s1, STAYING);
  }

  /** A pipelining client can lose a close: the first response asks for it, the second request overwrites the flag. */
  lemma PipeliningLosesAClose() returns (events: seq<Event>, s: State)
    ensures Reaches(NO_ROUTES, events, s)
    ensures s.requests == [CLOSING, STAYING]
    ensures |s.written| == 1 && !s.written[0].keepAlive && s.closes == 0
  {
    var e2, s2 := BothAsked();
    events, s := Do(NO_ROUTES, e2, s2, Wrote(0, true));
  }

  /** Nor does the session keep a pipelining client's responses in order: the second can be written first. */
  lemma PipeliningReorders() returns (events: seq<Event>, s: State)
    ensures Reaches(NO_ROUTES, events, s)
    ensures s.requests == [CLOSING, STAYING] && |s.started| == 2
    ensures s.written == [s.started[1]] && s.writing == [s.started[0]] && s.started[0] != s.started[1]
  {
    var e2, s2 := BothAsked();
    events, s := Do(NO_ROUTES, e2, s2, Wrote(1, true));
  }
}
