/**
  All the WebSocket sessions of a server together with the listener's registry
  of connected sessions.  Handlers run one at a time, in any order; sessions come
  and go; keys are chosen by clients.
 */
module ConnectionRegistry {
  import opened Wrappers
  import opened WebSockets
  import W = WebSocketRuns

  /** An on_connect or on_disconnect call. */
  datatype Notice = Connect(key: string, id: nat) | Disconnect(key: string, id: nat)

  datatype Server = Server(
    sessions: seq<Session>,
    keys: seq<string>,             // the key of each session
    ctxs: map<string, nat>,        // the registry: which session a key points to
    state: string,                 // what a broadcast stores
    notices: seq<Notice>)

  const EMPTY := Server([], [], map[], "", [])

  datatype Event =
    | Open(key: string)
    | AcceptAt(id: nat, ok: bool)
    | ReadAt(id: nat, outcome: ReadOutcome)
    | WriteAt(id: nat, k: nat, ok: bool)           // write k of those the session has outstanding ends
    | TimerAt(id: nat, j: nat)                     // delayed send j of those the session has waiting goes out
    | Broadcast(body: string, delay: bool)

  predicate Registered(s: Server, i: nat) {
    i < |s.keys| && s.keys[i] in s.ctxs && s.ctxs[s.keys[i]] == i
  }

  ghost predicate Sound(s: Server) {
    && |s.keys| == |s.sessions|
    && forall k <- s.ctxs :: s.ctxs[k] < |s.sessions| && s.keys[s.ctxs[k]] == k
  }

  /** on_receive echoes every message. */
  function Answer(s: Session, outcome: ReadOutcome): Option<string> {
    Listener.Answer(s.buffer, outcome)
  }

  /** What the event does to the session it is about. */
  function Local(state: string, s: Session, e: Event): W.Event
    requires !e.Open? && !e.Broadcast?
  {
    match e
    case TimerAt(_, j) => W.Fire(j, state)
    case AcceptAt(_, ok) => W.Accept(ok)
    case ReadAt(_, outcome) => W.Read(outcome, Answer(s, outcome))
    case WriteAt(_, k, ok) => W.WriteEnd(k, ok)
  }

  ghost predicate Enabled(s: Server, e: Event) {
    match e
    case Open(_) => true
    // every entry is dereferenced, so it must be live
    case Broadcast(_, _) => forall i | 0 <= i < |s.sessions| && Registered(s, i) :: Alive(s.sessions[i])
    case _ => e.id < |s.sessions| && W.Enabled(s.sessions[e.id], Local(s.state, s.sessions[e.id], e))
  }

  /** The registry after the event's handler. */
  function Registry(s: Server, e: Event): map<string, nat>
    requires Sound(s) && Enabled(s, e) && !e.Open? && !e.Broadcast?
  {
    var key := s.keys[e.id];
    match e
    case AcceptAt(i, true) => s.ctxs[key := i]
    case ReadAt(_, PeerClosed) => s.ctxs - {key}
    case ReadAt(i, Message(data)) => if CanLock(Receiving(s.sessions[i], data)) then s.ctxs else s.ctxs - {key}
    case _ => s.ctxs
  }

  function NoticeOf(s: Server, e: Event): seq<Notice>
    requires Sound(s) && Enabled(s, e) && !e.Open? && !e.Broadcast?
  {
    match e
    case AcceptAt(i, true) => [Connect(s.keys[i], i)]
    case ReadAt(i, PeerClosed) => [Disconnect(s.keys[i], i)]
    case _ => []
  }

  function BroadcastTo(s: Server, body: string, delay: bool, i: nat): Session
    requires Sound(s) && Enabled(s, Broadcast(body, delay)) && i < |s.sessions|
  {
    if Registered(s, i) && CanLock(s.sessions[i]) then Told(s.sessions[i], body, delay) else s.sessions[i]
  }

  function Step(s: Server, e: Event): (s': Server)
    requires Sound(s) && Enabled(s, e)
    ensures Sound(s')
  {
    match e
    case Open(key) => s.(sessions := s.sessions + [NEW], keys := s.keys + [key])
    case Broadcast(body, delay) =>
      s.(state := body,
         sessions := seq(|s.sessions|, i requires 0 <= i < |s.sessions| => BroadcastTo(s, body, delay, i)))
    case _ =>
      s.(sessions := s.sessions[e.id := W.Step(s.sessions[e.id], Local(s.state, s.sessions[e.id], e))],
         ctxs := Registry(s, e),
         notices := s.notices + NoticeOf(s, e))
  }

  ghost predicate IsRun(events: seq<Event>)
    decreases |events|, 0
  {
    events == [] ||
    (IsRun(events[..|events| - 1]) && Enabled(After(events[..|events| - 1]), events[|events| - 1]))
  }

  ghost function After(events: seq<Event>): (s: Server)
    requires IsRun(events)
    ensures Sound(s)
    decreases |events|, 1
  {
    if events == [] then EMPTY else Step(After(events[..|events| - 1]), events[|events| - 1])
  }

  ghost predicate Reaches(events: seq<Event>, s: Server) {
    IsRun(events) && After(events) == s
  }

  // ---- who should be registered ------------------------------------------

  /** The session ran on_connect and has not run on_disconnect. */
  predicate Member(s: Server, i: nat) {
    i < |s.sessions| && Connected in s.sessions[i].callbacks && Disconnected !in s.sessions[i].callbacks
  }

  /** Since session i connected, another notice has carried its key. */
  predicate Shadowed(notices: seq<Notice>, key: string, i: nat) {
    notices != [] && notices[|notices| - 1] != Connect(key, i) &&
    (notices[|notices| - 1].key == key || Shadowed(notices[..|notices| - 1], key, i))
  }

  lemma ShadowStep(notices: seq<Notice>, n: Notice, key: string, i: nat)
    ensures Shadowed(notices + [n], key, i) <==> n != Connect(key, i) && (n.key == key || Shadowed(notices, key, i))
  {
    assert (notices + [n])[..|notices|] == notices;
  }

  ghost predicate Exact(s: Server) {
    && Sound(s)
    && (forall i :: 0 <= i < |s.sessions| ==> W.PhaseMatches(true, s.sessions[i]))
    && (forall i :: 0 <= i < |s.sessions| ==>
          (Registered(s, i) <==> Member(s, i) && !Shadowed(s.notices, s.keys[i], i)))
  }

  /** Which of the callbacks a phase rules in or out. */
  lemma {:induction false} PhaseContents(callbacks: seq<Callback>)
    requires !W.PhaseOf(true, callbacks).Wrong?
    ensures Connected in callbacks <==> W.PhaseOf(true, callbacks) in {W.Live, W.Over, W.Spent}
    ensures Disconnected in callbacks || ReadError in callbacks <==> W.PhaseOf(true, callbacks) in {W.Over, W.Spent}
    ensures !(Disconnected in callbacks && ReadError in callbacks)
  {
    if callbacks == [] {
    } else {
      PhaseContents(callbacks[..|callbacks| - 1]);
      assert callbacks == callbacks[..|callbacks| - 1] + [callbacks[|callbacks| - 1]];
    }
  }

  /** A running receive handler holds its session, so the lock succeeds and nothing is erased. */
  lemma LockSucceeds(s: Session, data: string)
    requires W.PhaseMatches(true, s) && s.readOps > 0
    ensures CanLock(Receiving(s, data))
    ensures Receiving(s, data).callbacks == s.callbacks + [Received(s.buffer + data)]
  {
  }

  /** What one session event does to membership. */
  lemma LocalCallbacks(s: Session, e: W.Event)
    requires W.PhaseMatches(true, s) && W.Enabled(s, e)
    ensures var s' := W.Step(s, e);
            && (Connected in s'.callbacks <==> Connected in s.callbacks || e == W.Accept(true))
            && (Disconnected in s'.callbacks <==> Disconnected in s.callbacks || (e.Read? && e.outcome.PeerClosed?))
            && (ReadError in s'.callbacks <==> ReadError in s.callbacks || (e.Read? && e.outcome.Failed?))
    ensures e == W.Accept(true) ==> Connected !in s.callbacks && Disconnected !in s.callbacks
    ensures e.Read? ==> Connected in s.callbacks && Disconnected !in s.callbacks && ReadError !in s.callbacks
  {
    W.AddsCallback(s, e);
    PhaseContents(s.callbacks);
  }

  /** Only an accepted handshake makes a member, and only a close by the peer unmakes one. */
  lemma MemberAfter(s: Server, e: Event)
    requires Exact(s) && Enabled(s, e) && !e.Open? && !e.Broadcast?
    ensures e.AcceptAt? && e.ok ==> !Member(s, e.id)
    ensures e.ReadAt? ==> Member(s, e.id)
    ensures Member(Step(s, e), e.id) <==>
            (e.AcceptAt? && e.ok) || (Member(s, e.id) && !(e.ReadAt? && e.outcome.PeerClosed?))
  {
    LocalCallbacks(s.sessions[e.id], Local(s.state, s.sessions[e.id], e));
  }

  /** How one session event changes the server: only its session, and at most one notice. */
  lemma SessionEvent(s: Server, e: Event)
    requires Exact(s) && Enabled(s, e) && !e.Open? && !e.Broadcast?
    ensures W.PhaseMatches(true, Step(s, e).sessions[e.id])
    ensures match e
            case AcceptAt(i, true) => !Member(s, i) && Member(Step(s, e), i)
            case ReadAt(i, PeerClosed) => Member(s, i) && !Member(Step(s, e), i)
            case _ => Step(s, e).ctxs == s.ctxs && Step(s, e).notices == s.notices
                      && (Member(Step(s, e), e.id) <==> Member(s, e.id))
  {
    MemberAfter(s, e);
    W.StepKeepsPhase(true, s.sessions[e.id], Local(s.state, s.sessions[e.id], e));
    if e.ReadAt? && e.outcome.Message? {
      LockSucceeds(s.sessions[e.id], e.outcome.data);
    }
    assert s.notices + [] == s.notices;
  }

  lemma ConnectKeepsExact(s: Server, id: nat)
    requires Exact(s) && Enabled(s, AcceptAt(id, true))
    ensures Exact(Step(s, AcceptAt(id, true)))
  {
    var s' := Step(s, AcceptAt(id, true));
    SessionEvent(s, AcceptAt(id, true));
    forall i | 0 <= i < |s'.sessions|
      ensures Registered(s', i) <==> Member(s', i) && !Shadowed(s'.notices, s'.keys[i], i)
    {
      ShadowStep(s.notices, Connect(s.keys[id], id), s.keys[i], i);
      assert i != id ==> (Member(s', i) <==> Member(s, i));
    }
  }

  lemma DisconnectKeepsExact(s: Server, id: nat)
    requires Exact(s) && Enabled(s, ReadAt(id, PeerClosed))
    ensures Exact(Step(s, ReadAt(id, PeerClosed)))
  {
    var s' := Step(s, ReadAt(id, PeerClosed));
    SessionEvent(s, ReadAt(id, PeerClosed));
    forall i | 0 <= i < |s'.sessions|
      ensures Registered(s', i) <==> Member(s', i) && !Shadowed(s'.notices, s'.keys[i], i)
    {
      ShadowStep(s.notices, Disconnect(s.keys[id], id), s.keys[i], i);
      assert i != id ==> (Member(s', i) <==> Member(s, i));
    }
  }

  lemma QuietKeepsExact(s: Server, e: Event)
    requires Exact(s) && Enabled(s, e) && !e.Open? && !e.Broadcast?
    requires !(e.AcceptAt? && e.ok) && !(e.ReadAt? && e.outcome.PeerClosed?)
    ensures Exact(Step(s, e))
  {
    SessionEvent(s, e);
    assert forall i :: 0 <= i < |s.sessions| ==> (Member(Step(s, e), i) <==> Member(s, i));
    assert forall i :: 0 <= i < |s.sessions| ==> (Registered(Step(s, e), i) <==> Registered(s, i));
  }

  lemma SessionEventKeepsExact(s: Server, e: Event)
    requires Exact(s) && Enabled(s, e) && !e.Open? && !e.Broadcast?
    ensures Exact(Step(s, e))
  {
    if e.AcceptAt? && e.ok {
      ConnectKeepsExact(s, e.id);
    } else if e.ReadAt? && e.outcome.PeerClosed? {
      DisconnectKeepsExact(s, e.id);
    } else {
      QuietKeepsExact(s, e);
    }
  }

  lemma OpenKeepsExact(s: Server, key: string)
    requires Exact(s) && forall n <- s.notices :: n.id < |s.sessions|
    ensures Exact(Step(s, Open(key)))
  {
    var s' := Step(s, Open(key));
    forall i | 0 <= i < |s'.sessions|
      ensures W.PhaseMatches(true, s'.sessions[i])
      ensures Registered(s', i) <==> Member(s', i) && !Shadowed(s'.notices, s'.keys[i], i)
    {
      if i < |s.sessions| {
        assert s'.sessions[i] == s.sessions[i] && s'.keys[i] == s.keys[i];
      }
    }
  }

  /** What a broadcast is to a session it reaches. */
  function TellEvent(body: string, delay: bool): W.Event {
    if delay then W.Delay(body) else W.SendCall(body)
  }

  lemma BroadcastKeepsExact(s: Server, body: string, delay: bool)
    requires Exact(s) && Enabled(s, Broadcast(body, delay))
    ensures Exact(Step(s, Broadcast(body, delay)))
  {
    var s' := Step(s, Broadcast(body, delay));
    forall i | 0 <= i < |s'.sessions|
      ensures W.PhaseMatches(true, s'.sessions[i])
      ensures Registered(s', i) <==> Member(s', i) && !Shadowed(s'.notices, s'.keys[i], i)
    {
      assert Registered(s, i) <==> Member(s, i) && !Shadowed(s.notices, s.keys[i], i);
      assert s'.sessions[i] == BroadcastTo(s, body, delay, i);
      if Registered(s, i) && CanLock(s.sessions[i]) {
        W.StepKeepsPhase(true, s.sessions[i], TellEvent(body, delay));
      }
    }
  }

  ghost predicate NoticesKnown(s: Server) {
    forall j :: 0 <= j < |s.notices| ==>
      s.notices[j].id < |s.sessions| && s.notices[j].id < |s.keys| && s.notices[j].key == s.keys[s.notices[j].id]
  }

  lemma NoticesStayKnown(s: Server, e: Event)
    requires Sound(s) && NoticesKnown(s) && Enabled(s, e)
    ensures NoticesKnown(Step(s, e))
  {
  }

  lemma StepKeepsExact(s: Server, e: Event)
    requires Exact(s) && NoticesKnown(s) && Enabled(s, e)
    ensures Exact(Step(s, e)) && NoticesKnown(Step(s, e))
  {
    NoticesStayKnown(s, e);
    match e
    case Open(key) => OpenKeepsExact(s, key);
    case Broadcast(body, delay) => BroadcastKeepsExact(s, body, delay);
    case _ => SessionEventKeepsExact(s, e);
  }

  /**
    Registry exactness, for any interleaving and any keys: a session is in the
    registry iff it has connected, has not disconnected, and no other notice for
    its key has come since it connected.
   */
  lemma {:induction false} EveryRegistry(events: seq<Event>)
    requires IsRun(events)
    ensures Exact(After(events)) && NoticesKnown(After(events))
  {
    if events == [] {
    } else {
      EveryRegistry(events[..|events| - 1]);
      StepKeepsExact(After(events[..|events| - 1]), events[|events| - 1]);
    }
  }

  ghost predicate DistinctKeys(s: Server) {
    forall i, j :: 0 <= i < j < |s.keys| ==> s.keys[i] != s.keys[j]
  }

  lemma {:induction false} OwnNoticesDoNotShadow(notices: seq<Notice>, key: string, i: nat)
    requires forall n <- notices :: n.key == key ==> n == Connect(key, i)
    ensures !Shadowed(notices, key, i)
  {
    if notices == [] {
    } else {
      OwnNoticesDoNotShadow(notices[..|notices| - 1], key, i);
    }
  }

  predicate Left(s: Server, i: nat) {
    i < |s.sessions| && Disconnected in s.sessions[i].callbacks
  }

  lemma StepKeepsLeft(s: Server, e: Event)
    requires Exact(s) && NoticesKnown(s) && Enabled(s, e)
    requires forall n <- s.notices :: n.Disconnect? ==> Left(s, n.id)
    ensures forall n <- Step(s, e).notices :: n.Disconnect? ==> Left(Step(s, e), n.id)
  {
    var s' := Step(s, e);
    forall n | n in s'.notices && n.Disconnect?
      ensures Left(s', n.id)
    {
      if e.Open? {
      } else if e.Broadcast? {
        assert s'.sessions[n.id] == BroadcastTo(s, e.body, e.delay, n.id);
      } else {
        LocalCallbacks(s.sessions[e.id], Local(s.state, s.sessions[e.id], e));
      }
    }
  }

  /** Every disconnect notice is by a session that has disconnected. */
  lemma {:induction false} DisconnectsAreReal(events: seq<Event>)
    requires IsRun(events)
    ensures forall n <- After(events).notices :: n.Disconnect? ==> Left(After(events), n.id)
  {
    if events == [] {
    } else {
      var s, e := After(events[..|events| - 1]), events[|events| - 1];
      DisconnectsAreReal(events[..|events| - 1]);
      EveryRegistry(events[..|events| - 1]);
      StepKeepsLeft(s, e);
    }
  }

  /** With distinct keys the registered sessions are exactly those that connected and have not disconnected. */
  lemma DistinctKeysExact(events: seq<Event>, i: nat)
    requires IsRun(events) && DistinctKeys(After(events)) && i < |After(events).sessions|
    ensures Registered(After(events), i) <==> Member(After(events), i)
    ensures After(events).ctxs.Keys ==
            set j: nat | j < |After(events).sessions| && Member(After(events), j) :: After(events).keys[j]
  {
    var s := After(events);
    EveryRegistry(events);
    DisconnectsAreReal(events);
    forall j: nat | j < |s.sessions|
      ensures Registered(s, j) <==> Member(s, j)
    {
      if Member(s, j) {
        assert forall n <- s.notices :: n.key == s.keys[j] ==> n.id == j;
        OwnNoticesDoNotShadow(s.notices, s.keys[j], j);
      }
    }
    forall k | k in s.ctxs
      ensures exists j: nat :: j < |s.sessions| && Member(s, j) && s.keys[j] == k
    {
      assert Registered(s, s.ctxs[k]);
    }
  }

  /** What an event is to session i, if it concerns it. */
  ghost function Seen(s: Server, e: Event, i: nat): Option<W.Event>
    requires Sound(s) && Enabled(s, e) && i < |s.sessions|
  {
    match e
    case Open(_) => None
    case Broadcast(body, delay) =>
      if Registered(s, i) && CanLock(s.sessions[i]) then Some(TellEvent(body, delay)) else None
    case _ => if e.id == i then Some(Local(s.state, s.sessions[i], e)) else None
  }

  lemma SeenSteps(s: Server, e: Event, i: nat)
    requires Sound(s) && Enabled(s, e) && i < |s.sessions|
    ensures var seen := Seen(s, e, i);
            match seen
            case None => Step(s, e).sessions[i] == s.sessions[i]
            case Some(w) => W.Enabled(s.sessions[i], w) && Step(s, e).sessions[i] == W.Step(s.sessions[i], w)
  {
    if e.Broadcast? {
      assert Step(s, e).sessions[i] == BroadcastTo(s, e.body, e.delay, i);
    }
  }

  // ---- the registry read off the events ------------------------------------

  /** The keys of the sessions, in the order they were opened. */
  function KeysOf(events: seq<Event>): seq<string> {
    if events == [] then []
    else
      var before := KeysOf(events[..|events| - 1]);
      match events[|events| - 1]
      case Open(key) => before + [key]
      case _ => before
  }

  /** Who connected and who disconnected, in order. */
  function NoticesOf(events: seq<Event>): seq<Notice> {
    if events == [] then []
    else
      var before, keys := NoticesOf(events[..|events| - 1]), KeysOf(events[..|events| - 1]);
      match events[|events| - 1]
      case AcceptAt(i, true) => if i < |keys| then before + [Connect(keys[i], i)] else before
      case ReadAt(i, PeerClosed) => if i < |keys| then before + [Disconnect(keys[i], i)] else before
      case _ => before
  }

  /** The server knows just these, and a session is a member when it was accepted and not closed. */
  ghost predicate Recorded(events: seq<Event>, s: Server) {
    && s.keys == KeysOf(events) && s.notices == NoticesOf(events)
    && forall i: nat | i < |s.sessions| ::
         && (Connected in s.sessions[i].callbacks <==> AcceptAt(i, true) in events)
         && (Disconnected in s.sessions[i].callbacks <==> ReadAt(i, PeerClosed) in events)
  }

  ghost predicate KnownIds(events: seq<Event>, n: nat) {
    forall e <- events :: e.AcceptAt? || e.ReadAt? ==> e.id < n
  }

  lemma {:induction false} IdsAreKnown(events: seq<Event>)
    requires IsRun(events)
    ensures KnownIds(events, |After(events).sessions|)
  {
    if events == [] {
    } else {
      IdsAreKnown(events[..|events| - 1]);
      assert events == events[..|events| - 1] + [events[|events| - 1]];
    }
  }

  lemma ListsGoOn(events: seq<Event>, s: Server, e: Event)
    requires Sound(s) && Enabled(s, e) && s.keys == KeysOf(events) && s.notices == NoticesOf(events)
    ensures Step(s, e).keys == KeysOf(events + [e]) && Step(s, e).notices == NoticesOf(events + [e])
  {
    assert (events + [e])[..|events|] == events;
    assert s.notices + [] == s.notices;
  }

  lemma MembersGoOn(events: seq<Event>, s: Server, e: Event)
    requires Exact(s) && Recorded(events, s) && KnownIds(events, |s.sessions|) && Enabled(s, e)
    ensures forall i: nat | i < |Step(s, e).sessions| ::
              && (Connected in Step(s, e).sessions[i].callbacks <==> AcceptAt(i, true) in events + [e])
              && (Disconnected in Step(s, e).sessions[i].callbacks <==> ReadAt(i, PeerClosed) in events + [e])
  {
    forall i: nat | i < |Step(s, e).sessions|
      ensures Connected in Step(s, e).sessions[i].callbacks <==> AcceptAt(i, true) in events + [e]
      ensures Disconnected in Step(s, e).sessions[i].callbacks <==> ReadAt(i, PeerClosed) in events + [e]
    {
      if i < |s.sessions| {
        SeenSteps(s, e, i);
        var seen := Seen(s, e, i);
        if seen.Some? {
          LocalCallbacks(s.sessions[i], seen.value);
        }
      }
    }
  }

  lemma {:induction false} EveryRecord(events: seq<Event>)
    requires IsRun(events)
    ensures Recorded(events, After(events))
  {
    if events == [] {
    } else {
      var front, e := events[..|events| - 1], events[|events| - 1];
      EveryRecord(front);
      EveryRegistry(front);
      IdsAreKnown(front);
      ListsGoOn(front, After(front), e);
      MembersGoOn(front, After(front), e);
      assert events == front + [e];
    }
  }

  /**
    Registry exactness, read off the events alone: a session is in the registry iff
    its handshake was accepted, its peer has not closed it, and no other session with
    its key has connected or disconnected since.
   */
  lemma RegistryOfEvents(events: seq<Event>, s: Server, i: nat)
    requires Reaches(events, s) && i < |s.sessions|
    ensures |KeysOf(events)| == |s.sessions|
    ensures KeysOf(events)[i] in s.ctxs && s.ctxs[KeysOf(events)[i]] == i <==>
              && AcceptAt(i, true) in events && ReadAt(i, PeerClosed) !in events
              && !Shadowed(NoticesOf(events), KeysOf(events)[i], i)
  {
    EveryRegistry(events);
    EveryRecord(events);
    assert Registered(s, i) <==> Member(s, i) && !Shadowed(s.notices, s.keys[i], i);
  }

  // ---- each session on its own -------------------------------------------

  predicate NoDelayedBroadcast(events: seq<Event>) {
    forall i :: 0 <= i < |events| ==> !(events[i].Broadcast? && events[i].delay)
  }

  /** In no state of the run session i has two writes outstanding. */
  ghost predicate NeverOverlapsAt(events: seq<Event>, i: nat)
    requires IsRun(events)
  {
    && (i < |After(events).sessions| ==> |After(events).sessions[i].writing| <= 1)
    && (events == [] || NeverOverlapsAt(events[..|events| - 1], i))
  }

  /**
    Seen from one session, a run of the server is a run of that session, so all
    that WebSocketRuns proves holds of every session of every server; it has no
    delayed sends if the server's run has no delayed broadcast, and its writes
    overlap only if they do in the server's run.
   */
  lemma {:induction false} EachSessionIsARun(events: seq<Event>, i: nat) returns (local: seq<W.Event>)
    requires IsRun(events) && i < |After(events).sessions|
    ensures W.Reaches(local, After(events).sessions[i])
    ensures NoDelayedBroadcast(events) ==> W.NoDelays(local)
    ensures NeverOverlapsAt(events, i) ==> W.NeverOverlaps(local)
  {
    var s, e := After(events[..|events| - 1]), events[|events| - 1];
    if i == |s.sessions| {
      return [];
    }
    local := EachSessionIsARun(events[..|events| - 1], i);
    SeenSteps(s, e, i);
    match Seen(s, e, i) {
      case None =>
      case Some(w) =>
        var after: Session;
        local, after := W.Do(local, s.sessions[i], w);
    }
  }

  // ---- the pace of an echo -----------------------------------------------

  predicate IsMessage(e: Event, i: nat) { e.ReadAt? && e.id == i && e.outcome.Message? }

  function Messages(events: seq<Event>, i: nat): nat {
    if events == [] then 0
    else Messages(events[..|events| - 1], i) + if IsMessage(events[|events| - 1], i) then 1 else 0
  }

  function WritesEnded(events: seq<Event>, i: nat): nat {
    if events == [] then 0
    else
      var before, e := WritesEnded(events[..|events| - 1], i), events[|events| - 1];
      if e.WriteAt? && e.id == i then before + 1 else before
  }

  /** Each message of session i arrives when the answers to all before it have been written, or have failed. */
  predicate PacedAt(events: seq<Event>, i: nat) {
    events == [] ||
    (PacedAt(events[..|events| - 1], i) &&
     (IsMessage(events[|events| - 1], i) ==>
        Messages(events[..|events| - 1], i) == WritesEnded(events[..|events| - 1], i)))
  }

  ghost function Writing(s: Server, i: nat): nat {
    if i < |s.sessions| then |s.sessions[i].writing| else 0
  }

  /** Without broadcasts and delayed sends only messages start writes. */
  lemma WritesLeftAt(s: Server, e: Event, i: nat)
    requires Exact(s) && Enabled(s, e) && !e.Broadcast? && !e.TimerAt?
    ensures Writing(Step(s, e), i) ==
            if IsMessage(e, i) then Writing(s, i) + 1
            else if e.WriteAt? && e.id == i then Writing(s, i) - 1 else Writing(s, i)
  {
    if !e.Open? {
      W.WritesLeft(s.sessions[e.id], Local(s.state, s.sessions[e.id], e));
    }
  }

  /** What an event does to the delayed sends of a session. */
  lemma TimersAfter(s: Session, e: W.Event)
    requires W.Enabled(s, e)
    ensures W.Step(s, e).timers ==
            match e
            case Delay(body) => s.timers + [body]
            case Fire(j, _) => RemoveAt(s.timers, j)
            case _ => s.timers
  {
  }

  lemma {:induction false} NoTimers(events: seq<Event>)
    requires IsRun(events) && forall e <- events :: !e.Broadcast?
    ensures forall session <- After(events).sessions :: session.timers == []
  {
    if events == [] {
    } else {
      var s, e := After(events[..|events| - 1]), events[|events| - 1];
      NoTimers(events[..|events| - 1]);
      if !e.Open? {
        TimersAfter(s.sessions[e.id], Local(s.state, s.sessions[e.id], e));
      }
    }
  }

  lemma {:induction false} EveryMessageWrites(events: seq<Event>, i: nat)
    requires IsRun(events) && forall e <- events :: !e.Broadcast?
    ensures Messages(events, i) == WritesEnded(events, i) + Writing(After(events), i)
  {
    if events == [] {
    } else {
      var front := events[..|events| - 1];
      EveryMessageWrites(front, i);
      EveryRegistry(front);
      NoTimers(front);
      WritesLeftAt(After(front), events[|events| - 1], i);
    }
  }

  /**
    A server that only echoes overlaps the writes of a session exactly when its
    client sends a message before the answers to all its earlier ones are written.
   */
  lemma {:induction false} EchoOverlapsExactly(events: seq<Event>, i: nat)
    requires IsRun(events) && forall e <- events :: !e.Broadcast?
    ensures NeverOverlapsAt(events, i) <==> PacedAt(events, i)
  {
    if events == [] {
    } else {
      var front := events[..|events| - 1];
      EchoOverlapsExactly(front, i);
      EveryMessageWrites(front, i);
      EveryRegistry(front);
      NoTimers(front);
      WritesLeftAt(After(front), events[|events| - 1], i);
    }
  }

  /** Every message is answered with its text and the suffix, and no entry is ever erased on receive. */
  lemma ReceiveAnswers(events: seq<Event>, i: nat, data: string)
    requires IsRun(events) && Enabled(After(events), ReadAt(i, Message(data)))
    ensures var s, s' := After(events), Step(After(events), ReadAt(i, Message(data)));
            && s'.ctxs == s.ctxs
            && s'.sessions[i].callbacks == s.sessions[i].callbacks + [Received(data)]
            && s'.sessions[i].sends == s.sessions[i].sends + [data + " UwU Kawaiiiiiiii!"]
  {
    var s := After(events).sessions[i];
    EveryRegistry(events);
    LockSucceeds(s, data);
    var local := EachSessionIsARun(events, i);
    W.OneMessageEach(local, After(events).sessions[i]);
    assert "" + data == data;
  }

  // ---- live entries ------------------------------------------------------

  /** An entry whose session has been destroyed. */
  predicate Dangling(s: Server, i: nat) {
    i < |s.sessions| && Registered(s, i) && !Alive(s.sessions[i])
  }

  /**
    A read error ends a session without on_disconnect.  So an entry dangles exactly
    when its session has had a read error and neither a write nor a delayed send is
    outstanding.
   */
  lemma DanglingExactly(events: seq<Event>, i: nat)
    requires IsRun(events) && i < |After(events).sessions| && Registered(After(events), i)
    ensures var s := After(events).sessions[i];
            Dangling(After(events), i) <==> ReadError in s.callbacks && s.writing == [] && s.timers == []
  {
    EveryRegistry(events);
    PhaseContents(After(events).sessions[i].callbacks);
  }

  lemma {:induction false} NoReadErrors(events: seq<Event>, i: nat)
    requires IsRun(events) && i < |After(events).sessions|
    requires forall j :: 0 <= j < |events| ==> !(events[j].ReadAt? && events[j].outcome.Failed?)
    ensures ReadError !in After(events).sessions[i].callbacks
  {
    if events == [] {
    } else {
      var s, e := After(events[..|events| - 1]), events[|events| - 1];
      EveryRegistry(events[..|events| - 1]);
      if i < |s.sessions| {
        NoReadErrors(events[..|events| - 1], i);
        if e.Broadcast? {
          assert After(events).sessions[i] == BroadcastTo(s, e.body, e.delay, i);
        } else if !e.Open? {
          LocalCallbacks(s.sessions[e.id], Local(s.state, s.sessions[e.id], e));
        }
      }
    }
  }

  ghost predicate AllLive(s: Server) {
    Sound(s) && forall k <- s.ctxs :: Alive(s.sessions[s.ctxs[k]])
  }

  /** In runs with no read errors every entry refers to a live session, so a broadcast may dereference them all. */
  lemma EntriesAreLive(events: seq<Event>, s: Server)
    requires Reaches(events, s)
    requires forall j :: 0 <= j < |events| ==> !(events[j].ReadAt? && events[j].outcome.Failed?)
    ensures AllLive(s)
  {
    forall i: nat | i < |s.sessions| && Registered(s, i)
      ensures Alive(s.sessions[i])
    {
      NoReadErrors(events, i);
      DanglingExactly(events, i);
    }
  }

  /**
    A broadcast reaches every member once, keys being distinct, and touches nobody
    else: it sends its body, or sets up one delayed send.
   */
  lemma BroadcastReachesMembers(events: seq<Event>, body: string, delay: bool, i: nat)
    requires IsRun(events) && DistinctKeys(After(events)) && i < |After(events).sessions|
    requires Enabled(After(events), Broadcast(body, delay))
    ensures var old', new' := After(events).sessions[i], Step(After(events), Broadcast(body, delay)).sessions[i];
            new' == if !Member(After(events), i) then old'
                    else if delay then old'.(timers := old'.timers + [body])
                    else old'.(sends := old'.sends + [body], writeBuf := old'.writeBuf + body,
                               writing := old'.writing + [old'.writeBuf + body],
                               frames := old'.frames + [old'.writeBuf + body])
  {
    var s := After(events);
    EveryRegistry(events);
    DistinctKeysExact(events, i);
    PhaseContents(s.sessions[i].callbacks);
    assert Step(s, Broadcast(body, delay)).sessions[i] == BroadcastTo(s, body, delay, i);
  }

  /** The body of the last broadcast. */
  function LastBody(events: seq<Event>): string {
    if events == [] then ""
    else if events[|events| - 1].Broadcast? then events[|events| - 1].body
    else LastBody(events[..|events| - 1])
  }

  lemma {:induction false} StateIsLastBody(events: seq<Event>)
    requires IsRun(events)
    ensures After(events).state == LastBody(events)
  {
    if events == [] {
    } else {
      StateIsLastBody(events[..|events| - 1]);
    }
  }

  /** Only a delayed broadcast makes a delayed send wait, with its body. */
  lemma WaitingAfter(s: Server, e: Event, i: nat, body: string)
    requires Sound(s) && Enabled(s, e) && i < |Step(s, e).sessions| && body in Step(s, e).sessions[i].timers
    ensures e == Broadcast(body, true) || (i < |s.sessions| && body in s.sessions[i].timers)
  {
    if i < |s.sessions| {
      SeenSteps(s, e, i);
      var seen := Seen(s, e, i);
      if seen.Some? {
        TimersAfter(s.sessions[i], seen.value);
      }
    }
  }

  /** Every delayed send that waits was set up by a delayed broadcast of its body. */
  lemma {:induction false} WaitingBodies(events: seq<Event>, i: nat)
    requires IsRun(events) && i < |After(events).sessions|
    ensures forall body <- After(events).sessions[i].timers :: Broadcast(body, true) in events
  {
    if events == [] {
    } else {
      var front, e := events[..|events| - 1], events[|events| - 1];
      forall body | body in After(events).sessions[i].timers
        ensures Broadcast(body, true) in events
      {
        WaitingAfter(After(front), e, i, body);
        if e != Broadcast(body, true) {
          WaitingBodies(front, i);
        }
      }
    }
  }

  /**
    A delayed send was set up by a broadcast and sends the body of the last
    broadcast before it goes out: its own body exactly when the two are the same.
   */
  lemma DelayedSendIsLatest(events: seq<Event>, i: nat, j: nat)
    requires IsRun(events) && Enabled(After(events), TimerAt(i, j))
    ensures var before, after := After(events).sessions[i], Step(After(events), TimerAt(i, j)).sessions[i];
            && Broadcast(before.timers[j], true) in events
            && after.timers == before.timers[..j] + before.timers[j + 1..]
            && after.sends == before.sends + [LastBody(events)]
            && (after.sends == before.sends + [before.timers[j]] <==> LastBody(events) == before.timers[j])
  {
    StateIsLastBody(events);
    WaitingBodies(events, i);
    var sends := After(events).sessions[i].sends;
    assert (sends + [LastBody(events)])[|sends|] == LastBody(events);
  }

  // ---- witnesses ---------------------------------------------------------

  lemma Do(events: seq<Event>, s: Server, e: Event) returns (longer: seq<Event>, s': Server)
    requires Reaches(events, s) && Sound(s) && Enabled(s, e)
    ensures s' == Step(s, e) && Reaches(longer, s') && Sound(s') && longer == events + [e]
  {
    assert (events + [e])[..|events|] == events;
    longer, s' := events + [e], Step(s, e);
  }

  /** One client, connected. */
  lemma OneConnected(key: string) returns (events: seq<Event>, s: Server)
    ensures Reaches(events, s) && Sound(s) && events == [Open(key), AcceptAt(0, true)]
    ensures s == Server([Accepted(NEW, true)], [key], map[key := 0], "", [Connect(key, 0)])
  {
    events, s := Do([], EMPTY, Open(key));
    events, s := Do(events, s, AcceptAt(0, true));
  }

  /** One client, connected and then cut off by a read error, leaves a dangling entry. */
  lemma ReadErrorDangles(key: string) returns (events: seq<Event>, s: Server)
    ensures Reaches(events, s) && Dangling(s, 0)
  {
    events, s := OneConnected(key);
    events, s := Do(events, s, ReadAt(0, Failed));
  }

  /** A delayed broadcast to the one client. */
  lemma DelayedOnce(events: seq<Event>, s: Server, body: string) returns (longer: seq<Event>, s': Server)
    requires Reaches(events, s) && Sound(s) && |s.sessions| == 1 && Registered(s, 0) && CanLock(s.sessions[0])
    ensures Reaches(longer, s') && Sound(s') && longer == events + [Broadcast(body, true)]
    ensures s' == s.(state := body, sessions := [Delayed(s.sessions[0], body)])
  {
    longer, s' := Do(events, s, Broadcast(body, true));
    assert s'.sessions[0] == BroadcastTo(s, body, true, 0);
  }

  /** Of two delayed broadcasts, the first one's send goes out with the second one's body. */
  lemma DelayedSendIsReplaced(key: string, a: string, b: string) returns (events: seq<Event>, s: Server)
    requires a != b
    ensures Reaches(events, s)
    ensures events == [Open(key), AcceptAt(0, true), Broadcast(a, true), Broadcast(b, true), TimerAt(0, 0)]
    ensures s.sessions[0].sends == [b] && s.sessions[0].timers == [b]
  {
    events, s := OneConnected(key);
    events, s := DelayedOnce(events, s, a);
    events, s := DelayedOnce(events, s, b);
    events, s := Do(events, s, TimerAt(0, 0));
  }

  lemma TwoWithOneKey(key: string) returns (events: seq<Event>, s: Server)
    ensures Reaches(events, s) && Sound(s) && s.keys == [key, key] && |s.sessions| == 2
    ensures s.sessions[0] == s.sessions[1] == Accepted(NEW, true)
  {
    var e1, s1 := Do([], EMPTY, Open(key));
    var e2, s2 := Do(e1, s1, Open(key));
    var e3, s3 := Do(e2, s2, AcceptAt(0, true));
    events, s := Do(e3, s3, AcceptAt(1, true));
  }

  /** Two clients with one key: when the first disconnects, the second is no longer registered. */
  lemma SharedKeyUnregisters(key: string) returns (events: seq<Event>, s: Server)
    ensures Reaches(events, s) && Member(s, 1) && !Registered(s, 1) && key !in s.ctxs
  {
    var both, s' := TwoWithOneKey(key);
    events, s := Do(both, s', ReadAt(0, PeerClosed));
    assert s.sessions[1] == Accepted(NEW, true);
  }
}
