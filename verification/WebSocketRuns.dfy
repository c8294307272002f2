/** What every run of one WebSocket session keeps: its callbacks, its message boundaries, its frames. */
module WebSocketRuns {
  import opened Wrappers
  import opened WebSockets

  datatype Event =
    | Accept(ok: bool)
    | Read(outcome: ReadOutcome, reply: Option<string>)     // reply: what on_receive sends, if it sends
    | SendCall(data: string)                                // Send from elsewhere, through a locked pointer
    | Delay(body: string)                                   // a delayed send is set up, through a locked pointer
    | Fire(j: nat, data: string)                            // delayed send j of those waiting goes out
    | WriteEnd(k: nat, ok: bool)                            // write k of those outstanding ends

  predicate Enabled(s: Session, e: Event) {
    match e
    case Accept(_) => s.accepting
    case Read(outcome, reply) => s.readOps > 0 && (reply.Some? ==> outcome.Message?)
    case SendCall(_) => CanLock(s)
    case Delay(_) => CanLock(s)
    case Fire(j, _) => j < |s.timers|
    case WriteEnd(k, _) => k < |s.writing|
  }

  function Step(s: Session, e: Event): Session
    requires Enabled(s, e)
  {
    match e
    case Accept(ok) => Accepted(s, ok)
    case Read(outcome, reply) => ReadDone(s, outcome, reply)
    case SendCall(data) => Sent(s, data)
    case Delay(body) => Delayed(s, body)
    case Fire(j, data) => Fired(s, j, data)
    case WriteEnd(k, ok) => WriteDone(s, k, ok)
  }

  predicate IsRun(events: seq<Event>)
    decreases |events|, 0
  {
    events == [] ||
    (IsRun(events[..|events| - 1]) && Enabled(After(events[..|events| - 1]), events[|events| - 1]))
  }

  function After(events: seq<Event>): Session
    requires IsRun(events)
    decreases |events|, 1
  {
    if events == [] then NEW else Step(After(events[..|events| - 1]), events[|events| - 1])
  }

  lemma OneMore(events: seq<Event>, e: Event)
    requires IsRun(events) && Enabled(After(events), e)
    ensures IsRun(events + [e]) && After(events + [e]) == Step(After(events), e)
  {
    assert (events + [e])[..|events|] == events;
  }

  predicate NoDelays(events: seq<Event>) {
    forall i :: 0 <= i < |events| ==> !events[i].Delay?
  }

  /** No state of the run has two writes outstanding, which Beast forbids. */
  predicate NeverOverlaps(events: seq<Event>)
    requires IsRun(events)
  {
    |After(events).writing| <= 1 && (events == [] || NeverOverlaps(events[..|events| - 1]))
  }

  /** A run that ends in the given state. */
  ghost predicate Reaches(events: seq<Event>, s: Session) {
    IsRun(events) && After(events) == s
  }

  lemma Do(events: seq<Event>, s: Session, e: Event) returns (longer: seq<Event>, s': Session)
    requires Reaches(events, s) && Enabled(s, e)
    ensures s' == Step(s, e) && Reaches(longer, s')
    ensures NoDelays(events) && !e.Delay? ==> NoDelays(longer)
    ensures NeverOverlaps(longer) <==> NeverOverlaps(events) && |s'.writing| <= 1
  {
    OneMore(events, e);
    longer, s' := events + [e], Step(s, e);
    assert longer[..|events|] == events;
  }

  // ---- the callback language ---------------------------------------------

  /** Fresh, refused, live, over with or without room for another write error. */
  datatype Phase = Fresh | Refused | Live | Over | Spent | Wrong

  /**
    The next phase.  Where sends can be delayed or can overlap any number of write
    errors can follow the end of a session; otherwise only the one of a write that
    was under way.
   */
  function Next(late: bool, phase: Phase, c: Callback): Phase {
    match (phase, c)
    case (Fresh, AcceptError) => Refused
    case (Fresh, Connected) => Live
    case (Live, Received(_)) => Live
    case (Live, WriteError) => Live
    case (Live, Disconnected) => Over
    case (Live, ReadError) => Over
    case (Over, WriteError) => if late then Over else Spent
    case _ => Wrong
  }

  function PhaseOf(late: bool, callbacks: seq<Callback>): Phase {
    if callbacks == [] then Fresh
    else Next(late, PhaseOf(late, callbacks[..|callbacks| - 1]), callbacks[|callbacks| - 1])
  }

  lemma PhaseStep(late: bool, callbacks: seq<Callback>, c: Callback)
    ensures PhaseOf(late, callbacks + [c]) == Next(late, PhaseOf(late, callbacks), c)
  {
    assert (callbacks + [c])[..|callbacks|] == callbacks;
  }

  /** What is outstanding in a phase. */
  ghost predicate PhaseIs(late: bool, phase: Phase, s: Session) {
    && !s.running
    && (phase.Fresh? <==> s.accepting)
    && (s.linked <==> phase.Live? || phase.Over? || phase.Spent?)
    && s.readOps == (if phase.Live? then 1 else 0)
    && (s.writing != [] || s.timers != [] ==> phase.Live? || phase.Over?)
    && (!late ==> |s.writing| <= 1 && s.timers == [])
    && !phase.Wrong?
  }

  /** The phase the callbacks are in is visible in what is outstanding. */
  ghost predicate PhaseMatches(late: bool, s: Session) {
    PhaseIs(late, PhaseOf(late, s.callbacks), s)
  }

  /** The callback an event makes, if it makes one. */
  function CallbackOf(s: Session, e: Event): Option<Callback> {
    match e
    case Accept(ok) => Some(if ok then Connected else AcceptError)
    case Read(PeerClosed, _) => Some(Disconnected)
    case Read(Failed, _) => Some(ReadError)
    case Read(Message(data), _) => Some(Received(s.buffer + data))
    case WriteEnd(_, ok) => if ok then None else Some(WriteError)
    case _ => None
  }

  lemma AddsCallback(s: Session, e: Event)
    requires Enabled(s, e)
    ensures var c := CallbackOf(s, e);
            Step(s, e).callbacks == if c.Some? then s.callbacks + [c.value] else s.callbacks
  {
  }

  lemma ReadKeepsPhase(late: bool, phase: Phase, s: Session, outcome: ReadOutcome, reply: Option<string>)
    requires PhaseIs(late, phase, s) && Enabled(s, Read(outcome, reply))
    requires late || |Step(s, Read(outcome, reply)).writing| <= 1
    ensures PhaseIs(late, Next(late, phase, CallbackOf(s, Read(outcome, reply)).value), ReadDone(s, outcome, reply))
  {
  }

  lemma StepKeepsPhaseIs(late: bool, phase: Phase, s: Session, e: Event)
    requires PhaseIs(late, phase, s) && Enabled(s, e)
    requires late || (!e.Delay? && |Step(s, e).writing| <= 1)
    ensures var c := CallbackOf(s, e);
            PhaseIs(late, if c.Some? then Next(late, phase, c.value) else phase, Step(s, e))
  {
    match e
    case Read(outcome, reply) => ReadKeepsPhase(late, phase, s, outcome, reply);
    case _ =>
  }

  lemma StepKeepsPhase(late: bool, s: Session, e: Event)
    requires PhaseMatches(late, s) && Enabled(s, e)
    requires late || (!e.Delay? && |Step(s, e).writing| <= 1)
    ensures PhaseMatches(late, Step(s, e))
  {
    var c := CallbackOf(s, e);
    StepKeepsPhaseIs(late, PhaseOf(late, s.callbacks), s, e);
    AddsCallback(s, e);
    if c.Some? {
      PhaseStep(late, s.callbacks, c.value);
    }
  }

  lemma {:induction false} EveryPhase(late: bool, events: seq<Event>)
    requires IsRun(events) && (late || (NoDelays(events) && NeverOverlaps(events)))
    ensures PhaseMatches(late, After(events))
  {
    if events == [] {
    } else {
      EveryPhase(late, events[..|events| - 1]);
      StepKeepsPhase(late, After(events[..|events| - 1]), events[|events| - 1]);
    }
  }

  /** An event consumes what it has put in the read buffer. */
  lemma BufferAfter(s: Session, e: Event)
    requires s.buffer == "" && Enabled(s, e)
    ensures Step(s, e).buffer == ""
    ensures Step(s, e).inbound ==
            if e.Read? && e.outcome.Message? then s.inbound + [e.outcome.data] else s.inbound
  {
  }

  // ---- making callbacks happen -------------------------------------------

  /** A run to a state in which delays and overlaps occur only where allowed. */
  ghost predicate Runs(delays: bool, overlaps: bool, events: seq<Event>, s: Session) {
    && Reaches(events, s)
    && (delays || NoDelays(events)) && (overlaps || NeverOverlaps(events))
    && PhaseMatches(delays || overlaps, s) && s.buffer == ""
  }

  /** One more event of such a run, and the callback it makes. */
  lemma Go(delays: bool, overlaps: bool, events: seq<Event>, s: Session, e: Event)
    returns (longer: seq<Event>, s': Session)
    requires Runs(delays, overlaps, events, s) && Enabled(s, e)
    requires (delays || !e.Delay?) && (overlaps || |Step(s, e).writing| <= 1)
    requires e.Read? ==> e.reply.None?
    ensures s' == Step(s, e) && Runs(delays, overlaps, longer, s')
    ensures var c := CallbackOf(s, e);
            s'.callbacks == if c.Some? then s.callbacks + [c.value] else s.callbacks
  {
    StepKeepsPhase(delays || overlaps, s, e);
    AddsCallback(s, e);
    BufferAfter(s, e);
    longer, s' := Do(events, s, e);
  }

  /** n sends are left over: waiting for their timers, or outstanding where writes can overlap. */
  predicate Waiting(overlaps: bool, s: Session, n: nat) {
    if overlaps then |s.writing| == n && s.timers == [] else s.writing == [] && |s.timers| == n
  }

  ghost predicate Calm(delays: bool, overlaps: bool, events: seq<Event>, s: Session, n: nat) {
    Runs(delays, overlaps, events, s) && Waiting(overlaps, s, n)
  }

  lemma StartsCalm(delays: bool, overlaps: bool)
    ensures Calm(delays, overlaps, [], NEW, 0)
  {
  }

  /** From a calm state any callback but a write error that the language allows next can be made to happen. */
  lemma ReadOrAcceptHappens(delays: bool, overlaps: bool, events: seq<Event>, s: Session, n: nat, c: Callback)
    returns (longer: seq<Event>, s': Session)
    requires Calm(delays, overlaps, events, s, n) && c != WriteError
    requires !Next(delays || overlaps, PhaseOf(delays || overlaps, s.callbacks), c).Wrong?
    ensures Calm(delays, overlaps, longer, s', n) && s'.callbacks == s.callbacks + [c]
  {
    var e := match c
      case AcceptError => Accept(false)
      case Connected => Accept(true)
      case Received(data) => Read(Message(data), None)
      case Disconnected => Read(PeerClosed, None)
      case ReadError => Read(Failed, None);
    assert c.Received? ==> "" + c.data == c.data;
    longer, s' := Go(delays, overlaps, events, s, e);
  }

  /** On a live session a write can be made to fail. */
  lemma WriteErrorHappens(delays: bool, overlaps: bool, events: seq<Event>, s: Session, n: nat)
    returns (longer: seq<Event>, s': Session)
    requires Calm(delays, overlaps, events, s, n) && PhaseOf(delays || overlaps, s.callbacks).Live?
    ensures Calm(delays, overlaps, longer, s', n) && s'.callbacks == s.callbacks + [WriteError]
  {
    var e1, s1 := Go(delays, overlaps, events, s, SendCall("x"));
    longer, s' := Go(delays, overlaps, e1, s1, WriteEnd(|s.writing|, false));
  }

  lemma CallbackHappens(delays: bool, overlaps: bool, events: seq<Event>, s: Session, n: nat, c: Callback)
    returns (longer: seq<Event>, s': Session)
    requires Calm(delays, overlaps, events, s, n) && !PhaseOf(delays || overlaps, s.callbacks).Over?
    requires !Next(delays || overlaps, PhaseOf(delays || overlaps, s.callbacks), c).Wrong?
    ensures Calm(delays, overlaps, longer, s', n) && s'.callbacks == s.callbacks + [c]
  {
    if c == WriteError {
      longer, s' := WriteErrorHappens(delays, overlaps, events, s, n);
    } else {
      longer, s' := ReadOrAcceptHappens(delays, overlaps, events, s, n, c);
    }
  }

  /** A write error after the end is the end of a write started before it. */
  lemma WriteErrorAfterEnd(events: seq<Event>, s: Session, end: Callback)
    returns (longer: seq<Event>, s': Session)
    requires Calm(false, false, events, s, 0) && PhaseOf(false, s.callbacks).Live?
    requires end == Disconnected || end == ReadError
    ensures Calm(false, false, longer, s', 0) && s'.callbacks == s.callbacks + [end] + [WriteError]
  {
    var e1, s1 := Go(false, false, events, s, SendCall("x"));
    var e2, s2 := Go(false, false, e1, s1, Read(if end == Disconnected then PeerClosed else Failed, None));
    longer, s' := Go(false, false, e2, s2, WriteEnd(0, false));
  }

  /** Or the end of a send left over. */
  lemma LateWriteError(delays: bool, overlaps: bool, events: seq<Event>, s: Session, n: nat)
    returns (longer: seq<Event>, s': Session)
    requires Calm(delays, overlaps, events, s, n + 1) && (delays || overlaps)
    requires PhaseOf(true, s.callbacks).Over?
    ensures Calm(delays, overlaps, longer, s', n) && s'.callbacks == s.callbacks + [WriteError]
  {
    longer, s' := events, s;
    if !overlaps {
      longer, s' := Go(delays, overlaps, longer, s', Fire(0, "x"));
    }
    longer, s' := Go(delays, overlaps, longer, s', WriteEnd(0, false));
  }

  /** As many sends as one likes can be left over while a session is live. */
  lemma {:induction false} LeaveOver(delays: bool, overlaps: bool, events: seq<Event>, s: Session, m: nat, n: nat)
    returns (longer: seq<Event>, s': Session)
    requires Calm(delays, overlaps, events, s, m) && (delays || overlaps) && m <= n
    requires PhaseOf(true, s.callbacks).Live?
    ensures Calm(delays, overlaps, longer, s', n) && s'.callbacks == s.callbacks
    decreases n - m
  {
    longer, s' := events, s;
    if m == n {
    } else {
      longer, s' := Go(delays, overlaps, events, s, if overlaps then SendCall("x") else Delay("x"));
      longer, s' := LeaveOver(delays, overlaps, longer, s', m + 1, n);
    }
  }

  /** What a list of callbacks looks like when something follows its end. */
  lemma AfterTheEnd(late: bool, front: seq<Callback>, c: Callback)
    requires PhaseOf(late, front).Over? && !Next(late, PhaseOf(late, front), c).Wrong?
    ensures front != [] && c == WriteError
    ensures !late ==>
              && PhaseOf(late, front[..|front| - 1]).Live?
              && (front[|front| - 1] == Disconnected || front[|front| - 1] == ReadError)
              && front == front[..|front| - 1] + [front[|front| - 1]]
  {
  }

  /** Without delayed or overlapping sends, every allowed list of callbacks is made by some run. */
  lemma {:induction false} EveryWordHappens(callbacks: seq<Callback>) returns (events: seq<Event>, s: Session)
    requires !PhaseOf(false, callbacks).Wrong?
    ensures Calm(false, false, events, s, 0) && s.callbacks == callbacks
    decreases |callbacks|
  {
    if callbacks == [] {
      events, s := [], NEW;
      StartsCalm(false, false);
    } else {
      var front, c := callbacks[..|callbacks| - 1], callbacks[|callbacks| - 1];
      assert callbacks == front + [c];
      if PhaseOf(false, front).Over? {
        AfterTheEnd(false, front, c);
        events, s := EveryWordHappens(front[..|front| - 1]);
        events, s := WriteErrorAfterEnd(events, s, front[|front| - 1]);
      } else {
        events, s := EveryWordHappens(front);
        events, s := CallbackHappens(false, false, events, s, 0, c);
      }
    }
  }

  /** How many sends must be left over for one more callback and then n left over. */
  function NeedBefore(phase: Phase, n: nat): nat {
    if phase.Over? then n + 1 else if phase.Live? then n else 0
  }

  /** From a calm state with enough sends left over one more callback happens, and n are left over. */
  lemma OneMoreCallback(delays: bool, overlaps: bool, events: seq<Event>, s: Session, c: Callback, n: nat)
    returns (longer: seq<Event>, s': Session)
    requires delays || overlaps
    requires Calm(delays, overlaps, events, s, NeedBefore(PhaseOf(true, s.callbacks), n))
    requires !Next(true, PhaseOf(true, s.callbacks), c).Wrong?
    requires n > 0 ==> Next(true, PhaseOf(true, s.callbacks), c) in {Live, Over}
    ensures Calm(delays, overlaps, longer, s', n) && s'.callbacks == s.callbacks + [c]
  {
    var phase := PhaseOf(true, s.callbacks);
    if phase.Over? {
      AfterTheEnd(true, s.callbacks, c);
      longer, s' := LateWriteError(delays, overlaps, events, s, n);
    } else {
      longer, s' := CallbackHappens(delays, overlaps, events, s, NeedBefore(phase, n), c);
      if !phase.Live? && n > 0 {
        PhaseStep(true, s.callbacks, c);
        longer, s' := LeaveOver(delays, overlaps, longer, s', 0, n);
      }
    }
  }

  lemma LastOf(callbacks: seq<Callback>)
    requires callbacks != []
    ensures callbacks == callbacks[..|callbacks| - 1] + [callbacks[|callbacks| - 1]]
  {
  }

  /** With delayed or overlapping sends too, and then with any number of them left over while that is possible. */
  lemma {:induction false} EveryLateWordHappens(delays: bool, overlaps: bool, callbacks: seq<Callback>, n: nat)
    returns (events: seq<Event>, s: Session)
    requires (delays || overlaps) && !PhaseOf(true, callbacks).Wrong?
    requires n > 0 ==> PhaseOf(true, callbacks) in {Live, Over}
    ensures Calm(delays, overlaps, events, s, n) && s.callbacks == callbacks
    decreases |callbacks|
  {
    if callbacks == [] {
      events, s := [], NEW;
      StartsCalm(delays, overlaps);
    } else {
      var front, c := callbacks[..|callbacks| - 1], callbacks[|callbacks| - 1];
      events, s := EveryLateWordHappens(delays, overlaps, front, NeedBefore(PhaseOf(true, front), n));
      events, s := OneMoreCallback(delays, overlaps, events, s, c, n);
      LastOf(callbacks);
    }
  }

  /** Some run makes exactly these callbacks, with delayed and overlapping sends only where allowed. */
  ghost predicate Happens(delays: bool, overlaps: bool, callbacks: seq<Callback>) {
    exists events, s ::
      && Reaches(events, s) && s.callbacks == callbacks
      && (delays || NoDelays(events)) && (overlaps || NeverOverlaps(events))
  }

  /**
    The callback language, exactly: a list of callbacks is made by some run iff it
    is one accept error, or a connect, then receives and write errors, then at most
    one disconnect or read error, then write errors: any number where sends can be
    delayed or writes can overlap, at most one where neither can happen.
   */
  lemma CallbackLanguage(delays: bool, overlaps: bool, callbacks: seq<Callback>)
    ensures Happens(delays, overlaps, callbacks) <==> !PhaseOf(delays || overlaps, callbacks).Wrong?
  {
    if Happens(delays, overlaps, callbacks) {
      var events, s :|
        && Reaches(events, s) && s.callbacks == callbacks
        && (delays || NoDelays(events)) && (overlaps || NeverOverlaps(events));
      EveryPhase(delays || overlaps, events);
    }
    if !PhaseOf(delays || overlaps, callbacks).Wrong? {
      if delays || overlaps {
        var events, s := EveryLateWordHappens(delays, overlaps, callbacks, 0);
      } else {
        var events, s := EveryWordHappens(callbacks);
      }
    }
  }

  /** After a disconnect or read error come only write errors; one at most where no send is delayed or overlaps. */
  lemma {:induction false} NoReceiveAfterEnd(late: bool, callbacks: seq<Callback>, i: nat)
    requires !PhaseOf(late, callbacks).Wrong? && i < |callbacks|
    requires callbacks[i].Disconnected? || callbacks[i].ReadError?
    ensures forall j :: i < j < |callbacks| ==> callbacks[j].WriteError?
    ensures !late ==> |callbacks| <= i + 2
    ensures PhaseOf(late, callbacks).Over? || PhaseOf(late, callbacks).Spent?
    ensures PhaseOf(late, callbacks).Over? && !late ==> i == |callbacks| - 1
  {
    if i == |callbacks| - 1 {
    } else {
      var front := callbacks[..|callbacks| - 1];
      NoReceiveAfterEnd(late, front, i);
      assert forall j :: i < j < |front| ==> callbacks[j] == front[j];
    }
  }

  // ---- message boundaries ------------------------------------------------

  function Receives(callbacks: seq<Callback>): seq<string> {
    if callbacks == [] then []
    else
      var before, last := Receives(callbacks[..|callbacks| - 1]), callbacks[|callbacks| - 1];
      if last.Received? then before + [last.data] else before
  }

  lemma ReceivesStep(callbacks: seq<Callback>, c: Callback)
    ensures Receives(callbacks + [c]) == if c.Received? then Receives(callbacks) + [c.data] else Receives(callbacks)
  {
    assert (callbacks + [c])[..|callbacks|] == callbacks;
  }

  ghost predicate Bounded(s: Session) {
    s.buffer == "" && Receives(s.callbacks) == s.inbound
  }

  /** Only a message makes a receive, and it shows just that message. */
  lemma ReceivedIsMessage(s: Session, e: Event)
    requires s.buffer == ""
    ensures var c := CallbackOf(s, e);
            if e.Read? && e.outcome.Message? then c == Some(Received(e.outcome.data))
            else c.Some? ==> !c.value.Received?
  {
    assert e.Read? && e.outcome.Message? ==> "" + e.outcome.data == e.outcome.data;
  }

  lemma ReceivesAfter(callbacks: seq<Callback>, c: Option<Callback>)
    ensures Receives(if c.Some? then callbacks + [c.value] else callbacks) ==
            if c.Some? && c.value.Received? then Receives(callbacks) + [c.value.data] else Receives(callbacks)
  {
    if c.Some? {
      ReceivesStep(callbacks, c.value);
    }
  }

  lemma StepKeepsBounded(s: Session, e: Event)
    requires Bounded(s) && Enabled(s, e)
    ensures Bounded(Step(s, e))
  {
    BufferAfter(s, e);
    AddsCallback(s, e);
    ReceivedIsMessage(s, e);
    ReceivesAfter(s.callbacks, CallbackOf(s, e));
  }

  lemma {:induction false} EveryBuffer(events: seq<Event>)
    requires IsRun(events)
    ensures Bounded(After(events))
  {
    if events == [] {
    } else {
      EveryBuffer(events[..|events| - 1]);
      StepKeepsBounded(After(events[..|events| - 1]), events[|events| - 1]);
    }
  }

  /** The read buffer is empty whenever no handler runs, so each receive shows exactly one message, in order. */
  lemma OneMessageEach(events: seq<Event>, s: Session)
    requires Reaches(events, s)
    ensures s.buffer == "" && Receives(s.callbacks) == s.inbound
  {
    EveryBuffer(events);
  }

  // ---- overlapping writes ------------------------------------------------

  predicate Sends(e: Event) { e.SendCall? || e.Fire? || (e.Read? && e.reply.Some?) }

  function SendCount(events: seq<Event>): nat {
    if events == [] then 0
    else SendCount(events[..|events| - 1]) + if Sends(events[|events| - 1]) then 1 else 0
  }

  function EndCount(events: seq<Event>): nat {
    if events == [] then 0
    else EndCount(events[..|events| - 1]) + if events[|events| - 1].WriteEnd? then 1 else 0
  }

  /** Each Send comes when the writes of all Sends before it have ended. */
  predicate Paced(events: seq<Event>) {
    events == [] ||
    (Paced(events[..|events| - 1]) &&
     (Sends(events[|events| - 1]) ==> SendCount(events[..|events| - 1]) == EndCount(events[..|events| - 1])))
  }

  /** What an event does to the number of writes outstanding; on_receive can always lock its session. */
  lemma WritesLeft(s: Session, e: Event)
    requires PhaseMatches(true, s) && Enabled(s, e)
    ensures |Step(s, e).writing| ==
            if Sends(e) then |s.writing| + 1 else if e.WriteEnd? then |s.writing| - 1 else |s.writing|
  {
  }

  /** Every Send starts a write: those not yet ended are outstanding. */
  lemma {:induction false} EverySendWrites(events: seq<Event>)
    requires IsRun(events)
    ensures SendCount(events) == EndCount(events) + |After(events).writing|
  {
    if events == [] {
    } else {
      var front := events[..|events| - 1];
      EverySendWrites(front);
      EveryPhase(true, front);
      WritesLeft(After(front), events[|events| - 1]);
    }
  }

  /** Writes never overlap exactly when each Send waits for the last write to end: the session does not see to it. */
  lemma {:induction false} OverlapExactly(events: seq<Event>)
    requires IsRun(events)
    ensures NeverOverlaps(events) <==> Paced(events)
  {
    if events == [] {
    } else {
      var front := events[..|events| - 1];
      OverlapExactly(front);
      EverySendWrites(front);
      EveryPhase(true, front);
      WritesLeft(After(front), events[|events| - 1]);
    }
  }

  // ---- what the events say -----------------------------------------------

  /** What an event sends, if it sends. */
  function ArgumentOf(e: Event): Option<string> {
    match e
    case SendCall(data) => Some(data)
    case Fire(_, data) => Some(data)
    case Read(_, reply) => reply
    case _ => None
  }

  function ArgumentsOf(events: seq<Event>): seq<string> {
    if events == [] then []
    else
      var before, a := ArgumentsOf(events[..|events| - 1]), ArgumentOf(events[|events| - 1]);
      if a.Some? then before + [a.value] else before
  }

  /** The messages that arrive, in order. */
  function MessagesOf(events: seq<Event>): seq<string> {
    if events == [] then []
    else
      var before := MessagesOf(events[..|events| - 1]);
      match events[|events| - 1]
      case Read(Message(data), _) => before + [data]
      case _ => before
  }

  /** The callback each event calls for: every accept, read and failed write makes one, and nothing else does. */
  function CallbacksOf(events: seq<Event>): seq<Callback> {
    if events == [] then []
    else
      var before := CallbacksOf(events[..|events| - 1]);
      match events[|events| - 1]
      case Accept(ok) => before + [if ok then Connected else AcceptError]
      case Read(PeerClosed, _) => before + [Disconnected]
      case Read(Failed, _) => before + [ReadError]
      case Read(Message(data), _) => before + [Received(data)]
      case WriteEnd(_, ok) => if ok then before else before + [WriteError]
      case _ => before
  }

  ghost predicate Recorded(events: seq<Event>, s: Session) {
    s.callbacks == CallbacksOf(events) && s.inbound == MessagesOf(events) && s.sends == ArgumentsOf(events)
  }

  /** What one event adds to the record. */
  lemma StepRecords(s: Session, e: Event)
    requires PhaseMatches(true, s) && s.buffer == "" && Enabled(s, e)
    ensures Step(s, e).sends == if ArgumentOf(e).Some? then s.sends + [ArgumentOf(e).value] else s.sends
    ensures CallbackOf(s, e) == match e
                                case Accept(ok) => Some(if ok then Connected else AcceptError)
                                case Read(PeerClosed, _) => Some(Disconnected)
                                case Read(Failed, _) => Some(ReadError)
                                case Read(Message(data), _) => Some(Received(data))
                                case WriteEnd(_, ok) => if ok then None else Some(WriteError)
                                case _ => None
  {
    assert e.Read? && e.outcome.Message? ==> "" + e.outcome.data == e.outcome.data;
  }

  lemma RecordGoesOn(events: seq<Event>, s: Session, e: Event)
    requires Recorded(events, s) && PhaseMatches(true, s) && s.buffer == "" && Enabled(s, e)
    ensures Recorded(events + [e], Step(s, e))
  {
    assert (events + [e])[..|events|] == events;
    StepRecords(s, e);
    AddsCallback(s, e);
    BufferAfter(s, e);
  }

  lemma {:induction false} EveryRecord(events: seq<Event>)
    requires IsRun(events)
    ensures Recorded(events, After(events))
  {
    if events == [] {
    } else {
      var front, e := events[..|events| - 1], events[|events| - 1];
      EveryRecord(front);
      EveryPhase(true, front);
      EveryBuffer(front);
      RecordGoesOn(front, After(front), e);
      assert events == front + [e];
    }
  }

  /** Callbacks, messages received and arguments of Send are exactly those the events of a run call for. */
  lemma EventsTell(events: seq<Event>, s: Session)
    requires Reaches(events, s)
    ensures s.callbacks == CallbacksOf(events)
    ensures s.inbound == MessagesOf(events)
    ensures s.sends == ArgumentsOf(events)
  {
    EveryRecord(events);
  }

  // ---- frames ------------------------------------------------------------

  function FramesOf(completed: seq<Write>): seq<string> {
    seq(|completed|, i requires 0 <= i < |completed| => completed[i].frame)
  }

  /** What a failed write has left in the write buffer. */
  function Leftover(completed: seq<Write>): string {
    if completed != [] && !completed[|completed| - 1].ok then completed[|completed| - 1].frame else ""
  }

  ghost predicate FramesMatch(s: Session) {
    && |s.writing| <= 1
    && s.frames == FramesOf(s.completed) + s.writing
    && s.writeBuf == (if s.writing != [] then s.writing[0] else Leftover(s.completed))
  }

  lemma WriteEndKeepsFrames(s: Session, k: nat, ok: bool)
    requires FramesMatch(s) && Enabled(s, WriteEnd(k, ok))
    ensures FramesMatch(WriteDone(s, k, ok))
  {
    var done := s.completed + [Write(s.writing[k], ok)];
    assert FramesOf(done) == FramesOf(s.completed) + [s.writing[k]];
    assert Consume(s.writeBuf, |s.writing[k]|) == "";
  }

  /** A Send on a session that can be locked makes one frame, of what is in the write buffer and its data. */
  lemma SendMakesFrame(s: Session, e: Event)
    requires PhaseMatches(true, s) && Enabled(s, e) && Sends(e)
    ensures var s' := Step(s, e);
            && |s'.sends| == |s.sends| + 1
            && s'.sends == s.sends + [s'.sends[|s.sends|]]
            && s'.writeBuf == s.writeBuf + s'.sends[|s.sends|]
            && s'.frames == s.frames + [s'.writeBuf] && s'.writing == s.writing + [s'.writeBuf]
            && s'.completed == s.completed
  {
  }

  lemma SendTakesArgument(s: Session, e: Event)
    requires PhaseMatches(true, s) && Enabled(s, e) && Sends(e)
    ensures ArgumentOf(e).Some? && Step(s, e).sends == s.sends + [ArgumentOf(e).value]
  {
  }

  /** Nothing else but the end of a write touches the frames. */
  lemma OthersKeepFrames(s: Session, e: Event)
    requires Enabled(s, e) && !Sends(e) && !e.WriteEnd?
    ensures var s' := Step(s, e);
            && s'.writing == s.writing && s'.writeBuf == s.writeBuf
            && s'.frames == s.frames && s'.sends == s.sends && s'.completed == s.completed
  {
  }

  lemma StepKeepsFrames(s: Session, e: Event)
    requires PhaseMatches(true, s) && FramesMatch(s) && Enabled(s, e) && |Step(s, e).writing| <= 1
    ensures FramesMatch(Step(s, e))
  {
    if e.WriteEnd? {
      WriteEndKeepsFrames(s, e.k, e.ok);
    } else if Sends(e) {
      SendMakesFrame(s, e);
      assert s.writing == [];
    } else {
      OthersKeepFrames(s, e);
    }
  }

  /** Where writes never overlap they complete in order, and between writes only a failed frame is left over. */
  lemma {:induction false} EveryFrame(events: seq<Event>)
    requires IsRun(events) && NeverOverlaps(events)
    ensures FramesMatch(After(events))
  {
    if events == [] {
    } else {
      EveryFrame(events[..|events| - 1]);
      EveryPhase(true, events[..|events| - 1]);
      StepKeepsFrames(After(events[..|events| - 1]), events[|events| - 1]);
    }
  }

  // ---- the wire ----------------------------------------------------------

  /**
    The writing side told another way: all that was ever sent as one stream, how much
    of it successful writes have taken off its front, and the frames cut from it.
   */
  datatype Wire = Wire(stream: string, taken: nat, going: seq<string>, frames: seq<string>, ended: seq<Write>)

  predicate Fits(w: Wire) { w.taken <= |w.stream| }

  /** A frame is all of the stream that has not been taken. */
  function Put(w: Wire, data: string): (w': Wire)
    requires Fits(w)
    ensures Fits(w')
  {
    var frame := (w.stream + data)[w.taken..];
    w.(stream := w.stream + data, going := w.going + [frame], frames := w.frames + [frame])
  }

  /** A successful write takes as many bytes as its frame has, or all there are. */
  function End(w: Wire, k: nat, ok: bool): (w': Wire)
    requires Fits(w)
    ensures Fits(w')
  {
    if k >= |w.going| then w
    else
      var most := w.taken + |w.going[k]|;
      w.(taken := if !ok then w.taken else if most <= |w.stream| then most else |w.stream|,
         going := w.going[..k] + w.going[k + 1..], ended := w.ended + [Write(w.going[k], ok)])
  }

  function WireOf(events: seq<Event>): (w: Wire)
    ensures Fits(w)
  {
    if events == [] then Wire("", 0, [], [], [])
    else
      var w, e := WireOf(events[..|events| - 1]), events[|events| - 1];
      if e.WriteEnd? then End(w, e.k, e.ok)
      else if ArgumentOf(e).Some? then Put(w, ArgumentOf(e).value) else w
  }

  ghost predicate OnWire(s: Session, w: Wire) {
    && Fits(w) && s.writeBuf == w.stream[w.taken..]
    && s.writing == w.going && s.frames == w.frames && s.completed == w.ended
  }

  lemma PutMatches(s: Session, w: Wire, e: Event)
    requires PhaseMatches(true, s) && Enabled(s, e) && Sends(e) && OnWire(s, w)
    ensures ArgumentOf(e).Some? && OnWire(Step(s, e), Put(w, ArgumentOf(e).value))
  {
    SendMakesFrame(s, e);
    SendTakesArgument(s, e);
    var data := ArgumentOf(e).value;
    assert (w.stream + data)[w.taken..] == w.stream[w.taken..] + data;
  }

  lemma EndMatches(s: Session, w: Wire, k: nat, ok: bool)
    requires Enabled(s, WriteEnd(k, ok)) && OnWire(s, w)
    ensures OnWire(WriteDone(s, k, ok), End(w, k, ok))
  {
    if ok {
      var n, rest := |w.going[k]|, w.stream[w.taken..];
      assert n < |rest| ==> rest[n..] == w.stream[w.taken + n..];
      assert w.stream[|w.stream|..] == "";
    }
  }

  lemma StepMatches(s: Session, w: Wire, e: Event)
    requires PhaseMatches(true, s) && Enabled(s, e) && OnWire(s, w)
    ensures OnWire(Step(s, e), if e.WriteEnd? then End(w, e.k, e.ok)
                               else if ArgumentOf(e).Some? then Put(w, ArgumentOf(e).value) else w)
  {
    if e.WriteEnd? {
      EndMatches(s, w, e.k, e.ok);
    } else if Sends(e) {
      PutMatches(s, w, e);
    } else {
      OthersKeepFrames(s, e);
    }
  }

  lemma {:induction false} EveryWire(events: seq<Event>)
    requires IsRun(events)
    ensures OnWire(After(events), WireOf(events))
  {
    if events == [] {
    } else {
      var front := events[..|events| - 1];
      EveryWire(front);
      EveryPhase(true, front);
      StepMatches(After(front), WireOf(front), events[|events| - 1]);
    }
  }

  /**
    In every run, overlapping or not, each frame is all that was sent up to then less
    what successful writes had taken off the front, and the write buffer is what is left.
   */
  lemma FramesAreCutFromTheStream(events: seq<Event>, s: Session)
    requires Reaches(events, s)
    ensures s.frames == WireOf(events).frames && s.writing == WireOf(events).going
    ensures s.completed == WireOf(events).ended
    ensures s.writeBuf == WireOf(events).stream[WireOf(events).taken..]
  {
    EveryWire(events);
  }

  // ---- what a Send finds in the write buffer -----------------------------

  /** The frames that carry something. */
  function Carrying(frames: seq<string>): seq<string> {
    if frames == [] then []
    else
      var before, last := Carrying(frames[..|frames| - 1]), frames[|frames| - 1];
      if last == "" then before else before + [last]
  }

  lemma {:induction false} CarryingAppend(a: seq<string>, b: seq<string>)
    ensures Carrying(a + b) == Carrying(a) + Carrying(b)
  {
    if b == [] {
      assert a + b == a;
    } else {
      assert (a + b)[..|a + b| - 1] == a + b[..|b| - 1];
      CarryingAppend(a, b[..|b| - 1]);
    }
  }

  lemma CarryingOne(frame: string)
    ensures Carrying([frame]) == if frame == "" then [] else [frame]
  {
    assert [frame][..0] == [];
  }

  lemma CarryingFirst(frames: seq<string>)
    requires frames != []
    ensures Carrying(frames) == (if frames[0] == "" then [] else [frames[0]]) + Carrying(frames[1..])
  {
    assert frames == [frames[0]] + frames[1..];
    CarryingAppend([frames[0]], frames[1..]);
    CarryingOne(frames[0]);
  }

  lemma CarryingFrom(frames: seq<string>, k: nat)
    requires k <= |frames|
    ensures Carrying(frames) == Carrying(frames[..k]) + Carrying(frames[k..])
  {
    assert frames == frames[..k] + frames[k..];
    CarryingAppend(frames[..k], frames[k..]);
  }

  lemma CarryingAround(frames: seq<string>, k: nat)
    requires k < |frames|
    ensures Carrying(frames) ==
            Carrying(frames[..k]) + ((if frames[k] == "" then [] else [frames[k]]) + Carrying(frames[k + 1..]))
    ensures Carrying(RemoveAt(frames, k)) == Carrying(frames[..k]) + Carrying(frames[k + 1..])
  {
    CarryingFrom(frames, k);
    CarryingFirst(frames[k..]);
    assert frames[k..][1..] == frames[k + 1..];
    CarryingAppend(frames[..k], frames[k + 1..]);
  }

  /** Without a frame that carries nothing, the same ones carry something. */
  lemma WithoutEmpty(frames: seq<string>, k: nat)
    requires k < |frames| && frames[k] == ""
    ensures Carrying(RemoveAt(frames, k)) == Carrying(frames)
  {
    CarryingAround(frames, k);
    assert [] + Carrying(frames[k + 1..]) == Carrying(frames[k + 1..]);
  }

  /** Without the only one that carries something, none does. */
  lemma WithoutOnly(frames: seq<string>, k: nat)
    requires k < |frames| && frames[k] != "" && |Carrying(frames)| <= 1
    ensures Carrying(frames) == [frames[k]] && Carrying(RemoveAt(frames, k)) == []
  {
    CarryingAround(frames, k);
    var before, after := Carrying(frames[..k]), Carrying(frames[k + 1..]);
    assert |Carrying(frames)| == |before| + 1 + |after|;
    assert before == [] && after == [];
  }

  /** The event is the failure of a write that carried something. */
  predicate Loses(s: Session, e: Event) {
    e.WriteEnd? && !e.ok && e.k < |s.writing| && s.writing[e.k] != ""
  }

  /** Some write of the run carried something and failed. */
  predicate Lost(events: seq<Event>)
    requires IsRun(events)
  {
    events != [] &&
    (Lost(events[..|events| - 1]) || Loses(After(events[..|events| - 1]), events[|events| - 1]))
  }

  /** Every Send of the run comes while no write that carries something is outstanding, and before one has failed. */
  predicate NoSendOnTop(events: seq<Event>)
    requires IsRun(events)
  {
    events == [] ||
    (var front := events[..|events| - 1];
     NoSendOnTop(front) &&
     (Sends(events[|events| - 1]) ==> !Lost(front) && Carrying(After(front).writing) == []))
  }

  /** Until a Send comes too early or too late: one write at most carries something, and the buffer holds just that. */
  ghost predicate Tidy(s: Session, lost: bool) {
    && s.frames == s.sends
    && Carrying(s.writing) == (if lost || s.writeBuf == "" then [] else [s.writeBuf])
    && (lost ==> s.writeBuf != "")
  }

  /** Afterwards the frames differ for good. */
  ghost predicate FramesTell(s: Session, clean: bool, lost: bool) {
    |s.frames| == |s.sends| && (s.frames == s.sends <==> clean) && (clean ==> Tidy(s, lost))
  }

  lemma AppendEqual(a: seq<string>, b: seq<string>, x: string, y: string)
    requires |a| == |b|
    ensures a + [x] == b + [y] <==> a == b && x == y
  {
    assert (a + [x])[..|a|] == a && (b + [y])[..|b|] == b;
    assert (a + [x])[|a|] == x && (b + [y])[|b|] == y;
  }

  lemma SendTells(s: Session, e: Event, clean: bool, lost: bool)
    requires PhaseMatches(true, s) && Enabled(s, e) && Sends(e) && FramesTell(s, clean, lost)
    ensures FramesTell(Step(s, e), clean && !lost && Carrying(s.writing) == [], lost)
  {
    var s' := Step(s, e);
    SendMakesFrame(s, e);
    var data := s'.sends[|s.sends|];
    AppendEqual(s.frames, s.sends, s'.writeBuf, data);
    assert |s'.writeBuf| == |s.writeBuf| + |data|;
    assert s.writeBuf == "" ==> s'.writeBuf == data;
    if clean && !lost && Carrying(s.writing) == [] {
      CarryingAppend(s.writing, [s'.writeBuf]);
      CarryingOne(s'.writeBuf);
    }
  }

  lemma WriteEndTells(s: Session, e: Event, clean: bool, lost: bool)
    requires Enabled(s, e) && e.WriteEnd? && FramesTell(s, clean, lost)
    ensures FramesTell(Step(s, e), clean, lost || Loses(s, e))
  {
    if clean {
      if s.writing[e.k] == "" {
        WithoutEmpty(s.writing, e.k);
        assert Consume(s.writeBuf, 0) == s.writeBuf;
      } else {
        WithoutOnly(s.writing, e.k);
        assert s.writing[e.k] == s.writeBuf && Consume(s.writeBuf, |s.writeBuf|) == "";
      }
    }
  }

  lemma StepTells(s: Session, e: Event, clean: bool, lost: bool)
    requires PhaseMatches(true, s) && Enabled(s, e) && FramesTell(s, clean, lost)
    ensures FramesTell(Step(s, e), clean && (Sends(e) ==> !lost && Carrying(s.writing) == []), lost || Loses(s, e))
  {
    if Sends(e) {
      SendTells(s, e, clean, lost);
    } else if e.WriteEnd? {
      WriteEndTells(s, e, clean, lost);
    } else {
      OthersKeepFrames(s, e);
    }
  }

  lemma {:induction false} EveryFrameTells(events: seq<Event>)
    requires IsRun(events)
    ensures FramesTell(After(events), NoSendOnTop(events), Lost(events))
  {
    if events == [] {
    } else {
      var front := events[..|events| - 1];
      EveryFrameTells(front);
      EveryPhase(true, front);
      StepTells(After(front), events[|events| - 1], NoSendOnTop(front), Lost(front));
    }
  }

  /**
    In any run, frames are the arguments of Send, in order, exactly when no Send
    comes while a write that carries something is outstanding or after one failed.
   */
  lemma FramesAreSends(events: seq<Event>)
    requires IsRun(events)
    ensures After(events).frames == After(events).sends <==> NoSendOnTop(events)
  {
    EveryFrameTells(events);
  }

  lemma {:induction false} NothingLost(events: seq<Event>)
    requires IsRun(events) && NeverOverlaps(events)
    requires forall e <- events :: e.WriteEnd? ==> e.ok
    ensures NoSendOnTop(events) && !Lost(events)
  {
    if events == [] {
    } else {
      var front := events[..|events| - 1];
      NothingLost(front);
      EveryPhase(true, front);
      WritesLeft(After(front), events[|events| - 1]);
    }
  }

  /** In a run where no write fails or overlaps another, the frames are the arguments of Send, in order. */
  lemma FramesWithoutFailures(events: seq<Event>)
    requires IsRun(events) && NeverOverlaps(events)
    requires forall e <- events :: e.WriteEnd? ==> e.ok
    ensures After(events).frames == After(events).sends
  {
    NothingLost(events);
    FramesAreSends(events);
  }

  /** A session that can be locked, with these sends, frames, writes outstanding and bytes to write. */
  predicate Has(s: Session, sends: seq<string>, frames: seq<string>, writing: seq<string>, writeBuf: string) {
    && CanLock(s) && s.sends == sends && s.frames == frames && s.writing == writing && s.writeBuf == writeBuf
  }

  lemma SendOnce(s: Session, data: string)
    requires Has(s, [], [], [], "")
    ensures Has(Sent(s, data), [data], [data], [data], data)
  {
    assert "" + data == data;
  }

  lemma FailOnce(s: Session, data: string)
    requires Has(s, [data], [data], [data], data) && s.readOps > 0
    ensures Has(WriteDone(s, 0, false), [data], [data], [], data)
  {
  }

  /** One Send on a new session, whose write fails. */
  lemma OneLost(data: string) returns (events: seq<Event>, s: Session)
    ensures Reaches(events, s) && NeverOverlaps(events) && Has(s, [data], [data], [], data)
  {
    events, s := Do([], NEW, Accept(true));
    SendOnce(s, data);
    events, s := Do(events, s, SendCall(data));
    FailOnce(s, data);
    events, s := Do(events, s, WriteEnd(0, false));
  }

  /** A failed write makes the next frame carry its data again. */
  lemma StaleData(first: string, second: string) returns (events: seq<Event>, s: Session)
    requires first != ""
    ensures Reaches(events, s) && NeverOverlaps(events)
    ensures s.sends == [first, second] && s.frames == [first, first + second] && s.frames != s.sends
  {
    var lost, s1 := OneLost(first);
    events, s := Do(lost, s1, SendCall(second));
    assert |first + second| > |second|;
    assert s.frames[1] != s.sends[1];
  }
}
