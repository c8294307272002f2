/**
  A game session as the scheduler sees it: two FIFO strands whose handlers may
  interleave.  The player strand's handlers are split at every point where the
  command strand can run in between: an add pushes and then posts its notice, a
  remove posts its notice and then erases, a broadcast sends one message at a
  time.  All statements are about every schedule.
 */
module GameStrands {
  import opened Wrappers
  import opened GameCalls

  /** Where the running player handler stands, if one is running. */
  datatype Window =
    | Idle
    | Pushed(player: Player)                                           // pushed, notice not yet posted
    | Leaving(at: nat)                                                 // notice posted, not yet erased
    | Sending(message: string, except: Option<Player>, next: nat)      // inside the broadcast loop

  datatype State = State(
    players: seq<Player>,
    playerStrand: seq<Call>,
    commandStrand: seq<Task>,
    window: Window,
    log: seq<Task>,          // command-strand handlers that have run
    sent: seq<Delivery>)     // SendMessage calls made

  datatype Action =
    | Post(call: Call)                             // AddPlayer, RemovePlayer or BroadcastMessage is called
    | Issue(command: string, sender: Player)       // OnCommand is called
    | PlayerStep                                   // the player strand makes one move
    | CommandStep                                  // the command strand runs one handler

  /** Moves the scheduler makes on its own, as opposed to calls from outside. */
  predicate Internal(a: Action) { a.PlayerStep? || a.CommandStep? }

  const START := State([], [], [], Idle, [], [])

  ghost predicate Sound(s: State) {
    match s.window
    case Leaving(at) => at < |s.players|
    case Sending(_, _, next) => next <= |s.players|
    case _ => true
  }

  predicate Enabled(s: State, a: Action) {
    match a
    case Post(_) => true
    case Issue(_, _) => true
    case PlayerStep => !s.window.Idle? || s.playerStrand != []
    case CommandStep => s.commandStrand != []
  }

  /** The player strand takes the next handler and makes its first move. */
  function Begin(s: State): (s': State)
    requires s.window.Idle? && s.playerStrand != []
    ensures Sound(s')
  {
    var s1 := s.(playerStrand := s.playerStrand[1..]);
    match s.playerStrand[0]
    case Add(p) => s1.(players := s.players + [p], window := Pushed(p))
    case Remove(p) =>
      if p in s.players
      then s1.(commandStrand := s.commandStrand + [Left(p)], window := Leaving(IndexOf(s.players, p)))
      else s1
    case Broadcast(m, e) => s1.(window := Sending(m, e, 0))
  }

  /** The running player handler makes its next move. */
  function Continue(s: State): (s': State)
    requires Sound(s) && !s.window.Idle?
    ensures Sound(s')
  {
    match s.window
    case Idle => s
    case Pushed(p) => s.(commandStrand := s.commandStrand + [Joined(p)], window := Idle)
    case Leaving(at) => s.(players := RemoveAt(s.players, at), window := Idle)
    case Sending(m, e, next) =>
      if next == |s.players| then s.(window := Idle)
      else
        s.(window := Sending(m, e, next + 1),
           sent := s.sent + if e == Some(s.players[next]) then [] else [Delivery(s.players[next], m)])
  }

  function Step(s: State, a: Action): (s': State)
    requires Sound(s) && Enabled(s, a)
    ensures Sound(s')
  {
    match a
    case Post(call) => s.(playerStrand := s.playerStrand + [call])
    case Issue(c, p) => s.(commandStrand := s.commandStrand + [Process(c, p)])
    case PlayerStep => if s.window.Idle? then Begin(s) else Continue(s)
    case CommandStep => s.(log := s.log + [s.commandStrand[0]], commandStrand := s.commandStrand[1..])
  }

  // ---- schedules ---------------------------------------------------------

  predicate IsRun(s: State, acts: seq<Action>)
    requires Sound(s)
    decreases |acts|, 0
  {
    acts == [] ||
    (IsRun(s, acts[..|acts| - 1]) && Enabled(After(s, acts[..|acts| - 1]), acts[|acts| - 1]))
  }

  function After(s: State, acts: seq<Action>): (s': State)
    requires Sound(s) && IsRun(s, acts)
    ensures Sound(s')
    decreases |acts|, 1
  {
    if acts == [] then s else Step(After(s, acts[..|acts| - 1]), acts[|acts| - 1])
  }

  function CallOf(a: Action): seq<Call> {
    if a.Post? then [a.call] else []
  }

  function CommandOf(a: Action): seq<Task> {
    if a.Issue? then [Process(a.command, a.sender)] else []
  }

  /** The player calls a schedule makes, in order. */
  function CallsOf(acts: seq<Action>): seq<Call> {
    if acts == [] then [] else CallsOf(acts[..|acts| - 1]) + CallOf(acts[|acts| - 1])
  }

  /** The game commands a schedule makes, in order. */
  function CommandsOf(acts: seq<Action>): seq<Task> {
    if acts == [] then [] else CommandsOf(acts[..|acts| - 1]) + CommandOf(acts[|acts| - 1])
  }

  /** One more action at the end of a schedule. */
  lemma OneMore(s: State, acts: seq<Action>, a: Action)
    requires Sound(s) && IsRun(s, acts) && Enabled(After(s, acts), a)
    ensures IsRun(s, acts + [a]) && After(s, acts + [a]) == Step(After(s, acts), a)
  {
    assert (acts + [a])[..|acts|] == acts;
  }

  /** Both strands are empty and no handler is part way through. */
  predicate Drained(s: State) {
    s.window.Idle? && s.playerStrand == [] && s.commandStrand == []
  }

  // ---- splitting the command strand --------------------------------------

  function Notices(tasks: seq<Task>): seq<Task> {
    if tasks == [] then []
    else Notices(tasks[..|tasks| - 1]) + if tasks[|tasks| - 1].Process? then [] else [tasks[|tasks| - 1]]
  }

  function Commands(tasks: seq<Task>): seq<Task> {
    if tasks == [] then []
    else Commands(tasks[..|tasks| - 1]) + if tasks[|tasks| - 1].Process? then [tasks[|tasks| - 1]] else []
  }

  lemma {:induction false} SplitAppend(a: seq<Task>, b: seq<Task>)
    ensures Notices(a + b) == Notices(a) + Notices(b)
    ensures Commands(a + b) == Commands(a) + Commands(b)
  {
    if b == [] {
      assert a + b == a;
    } else {
      assert (a + b)[..|a + b| - 1] == a + b[..|b| - 1];
      SplitAppend(a, b[..|b| - 1]);
    }
  }

  lemma SplitOne(a: seq<Task>, t: Task)
    ensures Notices(a + [t]) == Notices(a) + if t.Process? then [] else [t]
    ensures Commands(a + [t]) == Commands(a) + if t.Process? then [t] else []
  {
    assert (a + [t])[..|a|] == a;
  }

  /** Everything the command strand has run or still holds, in order. */
  function Posted(s: State): seq<Task> {
    s.log + s.commandStrand
  }

  // ---- the invariant -----------------------------------------------------

  /** The outcome once the running player handler has finished. */
  function Settled(s: State): Outcome
    requires Sound(s)
  {
    var notices := Notices(Posted(s));
    match s.window
    case Idle => Outcome(s.players, notices, s.sent)
    case Pushed(p) => Outcome(s.players, notices + [Joined(p)], s.sent)
    case Leaving(at) => Outcome(RemoveAt(s.players, at), notices, s.sent)
    case Sending(m, e, next) => Outcome(s.players, notices, s.sent + DeliveriesFrom(s.players, next, m, e))
  }

  /** The part of a broadcast that starts at index next. */
  function DeliveriesFrom(roster: seq<Player>, next: nat, m: string, e: Option<Player>): seq<Delivery>
    requires next <= |roster|
  {
    Deliveries(roster[next..], m, e)
  }

  lemma {:induction false} DeliveriesAppend(a: seq<Player>, b: seq<Player>, m: string, e: Option<Player>)
    ensures Deliveries(a + b, m, e) == Deliveries(a, m, e) + Deliveries(b, m, e)
  {
    if b == [] {
      assert a + b == a;
    } else {
      var front: seq<Player> := b[..|b| - 1];
      assert (a + b)[..|a + b| - 1] == a + front;
      DeliveriesAppend(a, front, m, e);
    }
  }

  lemma DeliveriesSplit(roster: seq<Player>, next: nat, m: string, e: Option<Player>)
    requires next < |roster|
    ensures DeliveriesFrom(roster, next, m, e) ==
            (if e == Some(roster[next]) then [] else [Delivery(roster[next], m)]) +
            DeliveriesFrom(roster, next + 1, m, e)
  {
    assert roster[next..] == roster[next..next + 1] + roster[next + 1..];
    DeliveriesAppend(roster[next..next + 1], roster[next + 1..], m, e);
    assert roster[next..next + 1][..0] == [];
  }

  lemma CancelRight<T>(a: seq<T>, b: seq<T>, c: seq<T>)
    requires a + c == b + c
    ensures a == b
  {
    assert |a| + |c| == |a + c| == |b + c| == |b| + |c|;
    assert a == (a + c)[..|a|] && b == (b + c)[..|b|];
  }

  /** Finishing a handler that is under way changes nothing that is not already decided. */
  lemma ContinueSettles(s: State)
    requires Sound(s) && !s.window.Idle?
    ensures Settled(Continue(s)) == Settled(s)
    ensures Commands(Posted(Continue(s))) == Commands(Posted(s))
  {
    match s.window
    case Pushed(p) =>
      assert Posted(Continue(s)) == Posted(s) + [Joined(p)];
      SplitOne(Posted(s), Joined(p));
    case Sending(m, e, next) =>
      if next < |s.players| {
        DeliveriesSplit(s.players, next, m, e);
      }
    case _ =>
  }

  /** Starting a handler decides exactly what the call does when it runs alone. */
  lemma BeginSettles(s: State)
    requires s.window.Idle? && s.playerStrand != []
    ensures Settled(Begin(s)) == Perform(Settled(s), s.playerStrand[0])
    ensures Commands(Posted(Begin(s))) == Commands(Posted(s))
  {
    match s.playerStrand[0]
    case Remove(p) =>
      if p in s.players {
        assert Posted(Begin(s)) == Posted(s) + [Left(p)];
        SplitOne(Posted(s), Left(p));
      }
    case Broadcast(m, e) =>
      assert s.players[0..] == s.players;
    case _ =>
  }

  /** The calls whose handlers have started. */
  function Begun(s: State, calls: seq<Call>): seq<Call>
    requires |s.playerStrand| <= |calls|
  {
    calls[..|calls| - |s.playerStrand|]
  }

  ghost predicate Consistent(s: State, calls: seq<Call>, commands: seq<Task>) {
    && Sound(s)
    && |s.playerStrand| <= |calls|
    && s.playerStrand == calls[|calls| - |s.playerStrand|..]
    && Settled(s) == Serial(Begun(s, calls))
    && Commands(Posted(s)) == commands
  }

  lemma BeginKeepsConsistent(s: State, calls: seq<Call>, commands: seq<Task>)
    requires Consistent(s, calls, commands) && s.window.Idle? && s.playerStrand != []
    ensures Consistent(Begin(s), calls, commands)
  {
    BeginSettles(s);
    var s' := Begin(s);
    var k := |calls| - |s.playerStrand|;
    assert calls[k..][1..] == calls[k + 1..];
    assert Begun(s', calls)[..k] == Begun(s, calls);
    assert s.playerStrand[0] == calls[k];
  }

  lemma PostKeepsConsistent(s: State, a: Action, calls: seq<Call>, commands: seq<Task>)
    requires Consistent(s, calls, commands) && a.Post?
    ensures Consistent(Step(s, a), calls + CallOf(a), commands + CommandOf(a))
  {
    assert commands + CommandOf(a) == commands;
    assert Begun(Step(s, a), calls + [a.call]) == Begun(s, calls);
  }

  lemma IssueKeepsConsistent(s: State, a: Action, calls: seq<Call>, commands: seq<Task>)
    requires Consistent(s, calls, commands) && a.Issue?
    ensures Consistent(Step(s, a), calls + CallOf(a), commands + CommandOf(a))
  {
    assert calls + CallOf(a) == calls;
    var s', t := Step(s, a), Process(a.command, a.sender);
    assert Posted(s') == Posted(s) + [t];
    SplitOne(Posted(s), t);
    assert Notices(Posted(s')) == Notices(Posted(s));
    assert Settled(s') == Settled(s);
  }

  lemma ContinueKeepsConsistent(s: State, calls: seq<Call>, commands: seq<Task>)
    requires Consistent(s, calls, commands) && !s.window.Idle?
    ensures Consistent(Continue(s), calls, commands)
  {
    ContinueSettles(s);
  }

  lemma RunKeepsConsistent(s: State, calls: seq<Call>, commands: seq<Task>)
    requires Consistent(s, calls, commands) && Enabled(s, CommandStep)
    ensures Consistent(Step(s, CommandStep), calls, commands)
  {
    assert Posted(Step(s, CommandStep)) == Posted(s);
  }

  lemma InternalKeepsConsistent(s: State, a: Action, calls: seq<Call>, commands: seq<Task>)
    requires Consistent(s, calls, commands) && Enabled(s, a) && Internal(a)
    ensures Consistent(Step(s, a), calls + CallOf(a), commands + CommandOf(a))
  {
    assert calls + CallOf(a) == calls && commands + CommandOf(a) == commands;
    if a.CommandStep? {
      RunKeepsConsistent(s, calls, commands);
    } else if s.window.Idle? {
      BeginKeepsConsistent(s, calls, commands);
    } else {
      ContinueKeepsConsistent(s, calls, commands);
    }
  }

  lemma StepKeepsConsistent(s: State, a: Action, calls: seq<Call>, commands: seq<Task>)
    requires Consistent(s, calls, commands) && Enabled(s, a)
    ensures Consistent(Step(s, a), calls + CallOf(a), commands + CommandOf(a))
  {
    if a.Post? {
      PostKeepsConsistent(s, a, calls, commands);
    } else if a.Issue? {
      IssueKeepsConsistent(s, a, calls, commands);
    } else {
      InternalKeepsConsistent(s, a, calls, commands);
    }
  }

  /**
    Serializability, state by state.  In every state of every schedule: what is
    settled is what the calls begun so far do one after another, the waiting
    calls are exactly the rest, and the commands run or waiting are exactly the
    commands issued, in order.
   */
  lemma {:induction false} EveryStateIsSerial(acts: seq<Action>)
    requires IsRun(START, acts)
    ensures Consistent(After(START, acts), CallsOf(acts), CommandsOf(acts))
  {
    if acts == [] {
    } else {
      var front := acts[..|acts| - 1];
      EveryStateIsSerial(front);
      StepKeepsConsistent(After(START, front), acts[|acts| - 1], CallsOf(front), CommandsOf(front));
    }
  }

  /** A schedule that drains both strands ends where running its calls one by one ends. */
  lemma DrainedIsSerial(acts: seq<Action>)
    requires IsRun(START, acts) && Drained(After(START, acts))
    ensures var s := After(START, acts);
            && Outcome(s.players, Notices(s.log), s.sent) == Serial(CallsOf(acts))
            && Commands(s.log) == CommandsOf(acts)
  {
    EveryStateIsSerial(acts);
    var s := After(START, acts);
    assert Posted(s) == s.log;
    assert Begun(s, CallsOf(acts)) == CallsOf(acts);
  }

  /**
    Confluence: two draining schedules that make the same player calls in the
    same order and the same commands in the same order end with the same roster,
    the same notices, the same messages sent and the same commands run.  Only
    the interleaving of commands among notices may differ.
   */
  lemma Confluence(acts1: seq<Action>, acts2: seq<Action>)
    requires IsRun(START, acts1) && Drained(After(START, acts1))
    requires IsRun(START, acts2) && Drained(After(START, acts2))
    requires CallsOf(acts1) == CallsOf(acts2)
    ensures var s1, s2 := After(START, acts1), After(START, acts2);
            && s1.players == s2.players
            && Notices(s1.log) == Notices(s2.log)
            && s1.sent == s2.sent
            && (CommandsOf(acts1) == CommandsOf(acts2) <==> Commands(s1.log) == Commands(s2.log))
            && forall p :: Inbox(s1.sent, p) == Inbox(s2.sent, p)
  {
    DrainedIsSerial(acts1);
    DrainedIsSerial(acts2);
  }

  // ---- the order of the command strand ------------------------------------

  /** What an action posts to the command strand: a command, a join once pushed, a leave once found. */
  function TaskOf(s: State, a: Action): seq<Task> {
    match a
    case Issue(c, p) => [Process(c, p)]
    case PlayerStep =>
      (match s.window
       case Pushed(p) => [Joined(p)]
       case Idle =>
         if s.playerStrand != [] && s.playerStrand[0].Remove? && s.playerStrand[0].player in s.players
         then [Left(s.playerStrand[0].player)] else []
       case _ => [])
    case _ => []
  }

  /** Everything posted to the command strand during a schedule, in the order of posting. */
  function TasksOf(acts: seq<Action>): seq<Task>
    requires IsRun(START, acts)
  {
    if acts == [] then []
    else TasksOf(acts[..|acts| - 1]) + TaskOf(After(START, acts[..|acts| - 1]), acts[|acts| - 1])
  }

  lemma StepPosts(s: State, a: Action)
    requires Sound(s) && Enabled(s, a)
    ensures Posted(Step(s, a)) == Posted(s) + TaskOf(s, a)
  {
    if a.CommandStep? {
      assert s.commandStrand == [s.commandStrand[0]] + s.commandStrand[1..];
    }
  }

  /** The command strand is first in, first out: what has run and what waits is all that was posted, in order. */
  lemma {:induction false} PostedIsTasks(acts: seq<Action>)
    requires IsRun(START, acts)
    ensures Posted(After(START, acts)) == TasksOf(acts)
  {
    if acts == [] {
    } else {
      PostedIsTasks(acts[..|acts| - 1]);
      StepPosts(After(START, acts[..|acts| - 1]), acts[|acts| - 1]);
    }
  }

  /** What was posted first stays first, and what has run stays run. */
  ghost predicate Extends(earlier: seq<Action>, later: seq<Action>) {
    && IsRun(START, earlier) && IsRun(START, later)
    && TasksOf(earlier) <= TasksOf(later)
    && Posted(After(START, earlier)) <= Posted(After(START, later))
    && After(START, earlier).log <= After(START, later).log
  }

  lemma LogGrows(s: State, a: Action)
    requires Sound(s) && Enabled(s, a)
    ensures s.log <= Step(s, a).log
  {
  }

  lemma OneActionOn(acts: seq<Action>)
    requires acts != [] && IsRun(START, acts)
    ensures Extends(acts[..|acts| - 1], acts)
  {
    StepPosts(After(START, acts[..|acts| - 1]), acts[|acts| - 1]);
    LogGrows(After(START, acts[..|acts| - 1]), acts[|acts| - 1]);
  }

  /** Tasks run in the order posted, commands and notices alike: a log is a beginning of every later one. */
  lemma {:induction false} PostingOrder(acts: seq<Action>, k: nat)
    requires IsRun(START, acts) && k <= |acts|
    ensures Extends(acts[..k], acts)
  {
    if k == |acts| {
      assert acts[..k] == acts;
    } else {
      var front := acts[..|acts| - 1];
      PostingOrder(front, k);
      OneActionOn(acts);
      assert front[..k] == acts[..k];
    }
  }

  // ---- agreement between roster and notices ------------------------------

  /** players_ compared with what all posted notices say. */
  ghost predicate Agrees(s: State)
    requires Sound(s)
  {
    var seen := Replay(Notices(Posted(s)));
    match s.window
    case Pushed(p) => s.players == seen + [p]
    case Leaving(at) => seen == RemoveAt(s.players, at)
    case _ => s.players == seen
  }

  /**
    Roster agreement: replaying the executed then the pending notices gives
    players_ in order, except inside an add or a remove, where the two differ by
    exactly the player being added or removed.
   */
  lemma RosterAgreement(acts: seq<Action>)
    requires IsRun(START, acts)
    ensures Agrees(After(START, acts))
  {
    EveryStateIsSerial(acts);
    var s := After(START, acts);
    NoticesDetermineRoster(Begun(s, CallsOf(acts)));
    match s.window
    case Pushed(p) => ReplayStep(Notices(Posted(s)), Joined(p));
    case _ =>
  }

  /** The roster the game logic has been told about. */
  function View(s: State): seq<Player> {
    Replay(Notices(s.log))
  }

  /** The view is what the first j calls announce and leave. */
  ghost predicate ViewAt(s: State, calls: seq<Call>, j: nat)
    requires j <= |calls|
  {
    && Serial(calls[..j]).notices == Notices(s.log)
    && Serial(calls[..j]).roster == View(s)
  }

  /** The notices run are the first of those that the begun calls make. */
  lemma RunNoticesCameFirst(s: State, calls: seq<Call>, commands: seq<Task>)
    requires Consistent(s, calls, commands)
    ensures Notices(s.log) <= Serial(Begun(s, calls)).notices
  {
    SplitAppend(s.log, s.commandStrand);
  }

  lemma PrefixIsAMoment(calls: seq<Call>, notices: seq<Task>) returns (j: nat)
    requires notices <= Serial(calls).notices
    ensures j <= |calls|
    ensures Serial(calls[..j]).notices == notices && Serial(calls[..j]).roster == Replay(notices)
  {
    j := NoticePrefixIsAMoment(calls, |notices|);
    NoticesDetermineRoster(calls[..j]);
  }

  lemma LogIsAMoment(s: State, calls: seq<Call>, commands: seq<Task>) returns (j: nat)
    requires Consistent(s, calls, commands)
    ensures j <= |calls| - |s.playerStrand| && ViewAt(s, calls, j)
  {
    RunNoticesCameFirst(s, calls, commands);
    j := PrefixIsAMoment(Begun(s, calls), Notices(s.log));
    assert Begun(s, calls)[..j] == calls[..j];
  }

  /** The game logic's view is always the roster that some prefix of the begun calls leaves. */
  lemma ViewIsAMoment(acts: seq<Action>)
    requires IsRun(START, acts)
    ensures |After(START, acts).playerStrand| <= |CallsOf(acts)|
    ensures exists j :: 0 <= j <= |CallsOf(acts)| - |After(START, acts).playerStrand|
                        && ViewAt(After(START, acts), CallsOf(acts), j)
  {
    EveryStateIsSerial(acts);
    var j := LogIsAMoment(After(START, acts), CallsOf(acts), CommandsOf(acts));
  }

  /** Whether a player handler is part way through. */
  function Running(s: State): nat { if s.window.Idle? then 0 else 1 }

  /** The calls whose handlers have finished. */
  function Finished(s: State, calls: seq<Call>): seq<Call>
    requires |s.playerStrand| + Running(s) <= |calls|
  {
    calls[..|calls| - |s.playerStrand| - Running(s)]
  }

  /** The window always belongs to the first unfinished call. */
  ghost predicate WindowMatches(s: State, calls: seq<Call>) {
    && Sound(s)
    && |s.playerStrand| + Running(s) <= |calls|
    && match s.window
       case Idle => true
       case Pushed(p) => calls[|Finished(s, calls)|] == Add(p)
       case Leaving(at) =>
         && calls[|Finished(s, calls)|] == Remove(s.players[at])
         && s.players[at] in Serial(Finished(s, calls)).roster
       case Sending(m, e, _) => calls[|Finished(s, calls)|] == Broadcast(m, e)
  }

  lemma BeginMatches(s: State, calls: seq<Call>, commands: seq<Task>)
    requires Consistent(s, calls, commands) && s.window.Idle? && s.playerStrand != []
    ensures WindowMatches(Begin(s), calls)
  {
    var s', k := Begin(s), |calls| - |s.playerStrand|;
    assert s.playerStrand[0] == calls[k] && |s'.playerStrand| == |s.playerStrand| - 1;
    if !s'.window.Idle? {
      assert Finished(s', calls) == Begun(s, calls) && |Finished(s', calls)| == k;
      assert Settled(s).roster == s.players == Serial(Begun(s, calls)).roster;
    }
  }

  lemma StepMatches(s: State, a: Action, calls: seq<Call>)
    requires WindowMatches(s, calls) && Enabled(s, a)
    requires a.PlayerStep? ==> !s.window.Idle?
    ensures WindowMatches(Step(s, a), calls + CallOf(a))
  {
    if a.Post? {
      assert Finished(Step(s, a), calls + [a.call]) == Finished(s, calls);
    } else {
      assert calls + [] == calls;
    }
  }

  lemma {:induction false} WindowAlwaysMatches(acts: seq<Action>)
    requires IsRun(START, acts)
    ensures WindowMatches(After(START, acts), CallsOf(acts))
  {
    if acts == [] {
    } else {
      var front, a := acts[..|acts| - 1], acts[|acts| - 1];
      WindowAlwaysMatches(front);
      if a.PlayerStep? && After(START, front).window.Idle? {
        EveryStateIsSerial(front);
        BeginMatches(After(START, front), CallsOf(front), CommandsOf(front));
        assert CallsOf(front) + [] == CallsOf(front);
      } else {
        StepMatches(After(START, front), a, CallsOf(front));
      }
    }
  }

  /** The game logic has executed more notices than the finished calls announce. */
  ghost predicate ViewIsAhead(s: State, calls: seq<Call>)
    requires |s.playerStrand| + Running(s) <= |calls|
  {
    |Notices(s.log)| > |Serial(Finished(s, calls)).notices|
  }

  /** While a handler is part way, the begun calls are the finished ones and its own. */
  lemma BegunIsOneMore(s: State, calls: seq<Call>)
    requires |s.playerStrand| + Running(s) <= |calls| && !s.window.Idle?
    ensures Begun(s, calls) == Finished(s, calls) + [calls[|Finished(s, calls)|]]
    ensures Serial(Begun(s, calls)) == Perform(Serial(Finished(s, calls)), calls[|Finished(s, calls)|])
  {
    assert Begun(s, calls)[..|Begun(s, calls)| - 1] == Finished(s, calls);
  }

  lemma NoticesOfWindow(s: State, calls: seq<Call>, commands: seq<Task>)
    requires Consistent(s, calls, commands) && WindowMatches(s, calls)
    ensures |Notices(Posted(s))| == |Serial(Finished(s, calls)).notices| + if s.window.Leaving? then 1 else 0
  {
    if s.window.Idle? {
      assert Finished(s, calls) == Begun(s, calls);
    } else {
      var before, call := Serial(Finished(s, calls)), calls[|Finished(s, calls)|];
      BegunIsOneMore(s, calls);
      assert Settled(s) == Perform(before, call);
      match s.window
      case Pushed(p) =>
        assert Notices(Posted(s)) + [Joined(p)] == before.notices + [Joined(p)];
        assert |Notices(Posted(s))| + 1 == |before.notices| + 1;
      case Leaving(at) =>
        assert call == Remove(s.players[at]) && s.players[at] in before.roster;
        assert Notices(Posted(s)) == before.notices + [Left(s.players[at])];
      case Sending(_, _, _) =>
        assert Notices(Posted(s)) == before.notices;
    }
  }

  /** The player strand has had this roster after some of the calls it has finished. */
  ghost predicate PastRoster(s: State, calls: seq<Call>, roster: seq<Player>)
    requires |s.playerStrand| + Running(s) <= |calls|
  {
    exists j :: 0 <= j <= |Finished(s, calls)| && Serial(Finished(s, calls)[..j]).roster == roster
  }

  lemma NotAheadIsPast(s: State, calls: seq<Call>, commands: seq<Task>)
    requires Consistent(s, calls, commands) && WindowMatches(s, calls) && !ViewIsAhead(s, calls)
    ensures PastRoster(s, calls, View(s))
  {
    var finished, begun := Finished(s, calls), Begun(s, calls);
    RunNoticesCameFirst(s, calls, commands);
    assert Serial(finished).notices <= Serial(begun).notices by {
      assert if s.window.Idle? then finished == begun else begun[..|begun| - 1] == finished;
    }
    var j := PrefixIsAMoment(finished, Notices(s.log));
  }

  ghost predicate Reaches(acts: seq<Action>, s: State) {
    IsRun(START, acts) && After(START, acts) == s
  }

  /** Unless it is ahead, the view is a roster that some of the finished calls have left. */
  lemma PastUnlessAhead(acts: seq<Action>, s: State)
    requires Reaches(acts, s)
    ensures |s.playerStrand| + Running(s) <= |CallsOf(acts)|
    ensures !ViewIsAhead(s, CallsOf(acts)) ==> PastRoster(s, CallsOf(acts), View(s))
  {
    EveryStateIsSerial(acts);
    WindowAlwaysMatches(acts);
    if !ViewIsAhead(s, CallsOf(acts)) {
      NotAheadIsPast(s, CallsOf(acts), CommandsOf(acts));
    }
  }

  /**
    A removal posts its notice before it erases, so the view can get ahead of the
    finished calls: exactly when a removal is between its two moves and the command
    strand has already run every notice.  Then it lacks that one entry.
   */
  lemma ViewAheadExactly(acts: seq<Action>)
    requires IsRun(START, acts)
    ensures var s := After(START, acts);
            && |s.playerStrand| + Running(s) <= |CallsOf(acts)|
            && (ViewIsAhead(s, CallsOf(acts)) <==> s.window.Leaving? && Notices(s.commandStrand) == [])
            && (ViewIsAhead(s, CallsOf(acts)) ==> View(s) == RemoveAt(s.players, s.window.at))
  {
    var s := After(START, acts);
    EveryStateIsSerial(acts);
    WindowAlwaysMatches(acts);
    NoticesOfWindow(s, CallsOf(acts), CommandsOf(acts));
    RosterAgreement(acts);
    SplitAppend(s.log, s.commandStrand);
    if Notices(s.commandStrand) == [] {
      assert Notices(Posted(s)) == Notices(s.log);
    }
  }

  lemma Then(acts: seq<Action>, s: State, a: Action, s': State) returns (longer: seq<Action>)
    requires Reaches(acts, s) && Sound(s) && Enabled(s, a) && Step(s, a) == s'
    ensures Reaches(longer, s')
    ensures CallsOf(longer) == CallsOf(acts) + CallOf(a)
  {
    OneMore(START, acts, a);
    longer := acts + [a];
    assert longer[..|acts|] == acts;
  }

  /** A call is made while the player strand is idle, and its handler starts. */
  lemma Started(acts: seq<Action>, s: State, call: Call) returns (longer: seq<Action>, s': State)
    requires Reaches(acts, s) && Sound(s) && s.playerStrand == [] && s.window.Idle?
    ensures s' == Begin(s.(playerStrand := [call]))
    ensures Reaches(longer, s')
    ensures CallsOf(longer) == CallsOf(acts) + [call]
  {
    var posted := s.(playerStrand := [call]);
    longer := Then(acts, s, Post(call), posted);
    s' := Begin(posted);
    longer := Then(longer, posted, PlayerStep, s');
  }

  /** The handler that is under way makes its next move. */
  lemma Continued(acts: seq<Action>, s: State) returns (longer: seq<Action>, s': State)
    requires Reaches(acts, s) && Sound(s) && !s.window.Idle?
    ensures s' == Continue(s)
    ensures Reaches(longer, s')
    ensures CallsOf(longer) == CallsOf(acts)
  {
    s' := Continue(s);
    longer := Then(acts, s, PlayerStep, s');
  }

  /** The command strand runs the only entry it has. */
  lemma RunOnly(acts: seq<Action>, s: State, t: Task) returns (longer: seq<Action>, s': State)
    requires Reaches(acts, s) && Sound(s) && s.commandStrand == [t]
    ensures s' == s.(commandStrand := [], log := s.log + [t])
    ensures Reaches(longer, s')
    ensures CallsOf(longer) == CallsOf(acts)
  {
    s' := s.(commandStrand := [], log := s.log + [t]);
    longer := Then(acts, s, CommandStep, s');
  }

  /** From a settled state, one more player is added and the game logic told. */
  lemma AddAndTell(acts: seq<Action>, players: seq<Player>, log: seq<Task>, p: Player) returns (longer: seq<Action>)
    requires Reaches(acts, State(players, [], [], Idle, log, []))
    ensures Reaches(longer, State(players + [p], [], [], Idle, log + [Joined(p)], []))
    ensures CallsOf(longer) == CallsOf(acts) + [Add(p)]
  {
    var s: State;
    longer, s := Started(acts, State(players, [], [], Idle, log, []), Add(p));
    longer, s := Continued(longer, s);
    longer, s := RunOnly(longer, s, Joined(p));
  }

  lemma BothTold(a: Player, b: Player) returns (acts: seq<Action>)
    ensures Reaches(acts, State([a, b], [], [], Idle, [Joined(a), Joined(b)], []))
    ensures CallsOf(acts) == [Add(a), Add(b)]
  {
    var one := AddAndTell([], [], [], a);
    assert [] + [a] == [a] && [] + [Joined(a)] == [Joined(a)];
    acts := AddAndTell(one, [a], [Joined(a)], b);
    assert [a] + [b] == [a, b] && [Joined(a)] + [Joined(b)] == [Joined(a), Joined(b)];
    assert [Add(a)] + [Add(b)] == [Add(a), Add(b)];
  }

  /** From a settled state the removal of the first player begins and its notice is run. */
  lemma RemoveAndTell(acts: seq<Action>, players: seq<Player>, log: seq<Task>) returns (longer: seq<Action>)
    requires players != [] && Reaches(acts, State(players, [], [], Idle, log, []))
    ensures Reaches(longer, State(players, [], [], Leaving(0), log + [Left(players[0])], []))
    ensures CallsOf(longer) == CallsOf(acts) + [Remove(players[0])]
  {
    var s: State;
    longer, s := Started(acts, State(players, [], [], Idle, log, []), Remove(players[0]));
    longer, s := RunOnly(longer, s, Left(players[0]));
  }

  /** Two players are settled, the first one's removal has begun and its notice has been run. */
  lemma RemovalTold(a: Player, b: Player) returns (acts: seq<Action>)
    ensures Reaches(acts, State([a, b], [], [], Leaving(0), [Joined(a), Joined(b), Left(a)], []))
    ensures CallsOf(acts) == [Add(a), Add(b), Remove(a)]
  {
    acts := BothTold(a, b);
    acts := RemoveAndTell(acts, [a, b], [Joined(a), Joined(b)]);
    assert [Joined(a), Joined(b)] + [Left(a)] == [Joined(a), Joined(b), Left(a)];
    assert [Add(a), Add(b)] + [Remove(a)] == [Add(a), Add(b), Remove(a)];
  }

  lemma SerialStep(calls: seq<Call>, call: Call)
    ensures Serial(calls + [call]) == Perform(Serial(calls), call)
  {
    assert (calls + [call])[..|calls|] == calls;
  }

  /** The rosters that two adds leave on the way. */
  lemma RostersOfTwoAdds(a: Player, b: Player)
    ensures Serial([]).roster == [] && Serial([Add(a)]).roster == [a] && Serial([Add(a), Add(b)]).roster == [a, b]
  {
    SerialStep([], Add(a));
    SerialStep([Add(a)], Add(b));
    assert [] + [Add(a)] == [Add(a)] && [Add(a)] + [Add(b)] == [Add(a), Add(b)];
  }

  lemma ReplayJoinJoinLeave(a: Player, b: Player)
    requires a != b
    ensures Replay(Notices([Joined(a), Joined(b), Left(a)])) == [b]
  {
    var one, two := [Joined(a)], [Joined(a), Joined(b)];
    assert one == [] + [Joined(a)] && two == one + [Joined(b)] && [Joined(a), Joined(b), Left(a)] == two + [Left(a)];
    SplitOne([], Joined(a));
    SplitOne(one, Joined(b));
    SplitOne(two, Left(a));
    ReplayStep([], Joined(a));
    ReplayStep(one, Joined(b));
    ReplayStep(two, Left(a));
  }

  lemma OnlyBNeverWas(s: State, a: Player, b: Player)
    requires a != b && s.playerStrand == [] && !s.window.Idle?
    ensures !PastRoster(s, [Add(a), Add(b), Remove(a)], [b])
  {
    var calls := [Add(a), Add(b), Remove(a)];
    var finished := Finished(s, calls);
    RostersOfTwoAdds(a, b);
    assert finished == [Add(a), Add(b)];
    assert finished[..0] == [] && finished[..1] == [Add(a)] && finished[..2] == finished;
  }

  /**
    The view can be a roster players_ has never been: of two players the first is
    being removed and the game logic has already seen it leave.
   */
  lemma ViewCanBeAhead(a: Player, b: Player) returns (acts: seq<Action>)
    requires a != b
    ensures IsRun(START, acts) && CallsOf(acts) == [Add(a), Add(b), Remove(a)]
    ensures var s := After(START, acts);
            && s.players == [a, b] && View(s) == [b]
            && |s.playerStrand| + Running(s) <= |CallsOf(acts)|
            && !PastRoster(s, CallsOf(acts), View(s))
  {
    acts := RemovalTold(a, b);
    ReplayJoinJoinLeave(a, b);
    OnlyBNeverWas(After(START, acts), a, b);
  }

  // ---- consequences for every schedule -----------------------------------

  /** In every state, every prefix of the executed notices has at most as many leaves as joins. */
  lemma LogLeavesNeverLead(acts: seq<Action>, n: nat, p: Player)
    requires IsRun(START, acts)
    requires n <= |Notices(After(START, acts).log)|
    ensures var executed := Notices(After(START, acts).log);
            Leaves(executed[..n], p) <= Joins(executed[..n], p)
  {
    EveryStateIsSerial(acts);
    var s := After(START, acts);
    var begun := Begun(s, CallsOf(acts));
    SplitAppend(s.log, s.commandStrand);
    assert Notices(s.log) <= Notices(Posted(s)) <= Serial(begun).notices;
    assert Notices(s.log)[..n] == Serial(begun).notices[..n];
    LeavesNeverLead(begun, n, p);
  }

  /** With no handler part way, joins, leaves, roster entries and inboxes are what the begun calls dictate. */
  lemma IdleCounts(acts: seq<Action>, p: Player)
    requires IsRun(START, acts) && After(START, acts).window.Idle?
    ensures |After(START, acts).playerStrand| <= |CallsOf(acts)|
    ensures var s := After(START, acts);
            var begun := Begun(s, CallsOf(acts));
            && Leaves(Notices(Posted(s)), p) == Departures(begun, p)
            && Joins(Notices(Posted(s)), p) == Departures(begun, p) + Level(begun, p)
            && multiset(s.players)[p] == Level(begun, p)
            && Inbox(s.sent, p) == Expected(begun, p)
  {
    EveryStateIsSerial(acts);
    var begun := Begun(After(START, acts), CallsOf(acts));
    LeavesAreDepartures(begun, p);
    RosterCount(begun, p);
    InboxIsExpected(begun, p);
  }

  lemma SplitSent(sent: seq<Delivery>, before: seq<Delivery>, roster: seq<Player>, next: nat,
                  m: string, e: Option<Player>)
    requires next <= |roster| && sent + DeliveriesFrom(roster, next, m, e) == before + Deliveries(roster, m, e)
    ensures sent == before + Deliveries(roster[..next], m, e)
  {
    var passed := Deliveries(roster[..next], m, e);
    assert roster[..next] + roster[next..] == roster;
    DeliveriesAppend(roster[..next], roster[next..], m, e);
    var rest := DeliveriesFrom(roster, next, m, e);
    assert before + (passed + rest) == before + passed + rest;
    CancelRight(sent, before + passed, rest);
  }

  lemma BroadcastSends(before: Outcome, after: Outcome, m: string, e: Option<Player>)
    requires after == Perform(before, Broadcast(m, e))
    ensures after.roster == before.roster && after.sent == before.sent + Deliveries(after.roster, m, e)
  {
  }

  /** Inside a broadcast, what has been sent is what the finished calls send and the part for the entries passed. */
  lemma SentInsideBroadcast(s: State, calls: seq<Call>, commands: seq<Task>)
    requires Consistent(s, calls, commands) && WindowMatches(s, calls) && s.window.Sending?
    ensures s.sent ==
            Serial(Finished(s, calls)).sent + Deliveries(s.players[..s.window.next], s.window.message, s.window.except)
  {
    var m, e, next := s.window.message, s.window.except, s.window.next;
    BegunIsOneMore(s, calls);
    BroadcastSends(Serial(Finished(s, calls)), Serial(Begun(s, calls)), m, e);
    SplitSent(s.sent, Serial(Finished(s, calls)).sent, s.players, next, m, e);
  }

  lemma InboxInsideBroadcast(s: State, calls: seq<Call>, commands: seq<Task>, p: Player)
    requires Consistent(s, calls, commands) && WindowMatches(s, calls) && s.window.Sending?
    ensures Inbox(s.sent, p) ==
            Expected(Finished(s, calls), p)
            + if s.window.except == Some(p) then []
              else Copies(s.window.message, multiset(s.players[..s.window.next])[p])
  {
    var passed := s.players[..s.window.next];
    SentInsideBroadcast(s, calls, commands);
    InboxIsExpected(Finished(s, calls), p);
    InboxAppend(Serial(Finished(s, calls)).sent, Deliveries(passed, s.window.message, s.window.except), p);
    InboxOfOneBroadcast(passed, s.window.message, s.window.except, p);
  }

  /**
    A player's inbox in every state: what the begun calls owe it, and inside a
    broadcast what the finished calls owe it and one copy for each of its entries
    already passed.
   */
  lemma InboxInEveryState(acts: seq<Action>, p: Player)
    requires IsRun(START, acts)
    ensures var s, calls := After(START, acts), CallsOf(acts);
            && |s.playerStrand| + Running(s) <= |calls|
            && Inbox(s.sent, p) ==
               match s.window
               case Sending(m, e, next) =>
                 Expected(Finished(s, calls), p)
                 + (if e == Some(p) then [] else Copies(m, multiset(s.players[..next])[p]))
               case _ => Expected(Begun(s, calls), p)
  {
    var s, calls := After(START, acts), CallsOf(acts);
    EveryStateIsSerial(acts);
    WindowAlwaysMatches(acts);
    if s.window.Sending? {
      InboxInsideBroadcast(s, calls, CommandsOf(acts), p);
    } else {
      assert s.sent == Settled(s).sent;
      InboxIsExpected(Begun(s, calls), p);
    }
  }

  /** In every state, even inside a broadcast, what a player has received is the beginning of what it should get. */
  lemma InboxNeverStrays(acts: seq<Action>, p: Player)
    requires IsRun(START, acts)
    ensures |After(START, acts).playerStrand| <= |CallsOf(acts)|
    ensures var s := After(START, acts);
            Inbox(s.sent, p) <= Expected(Begun(s, CallsOf(acts)), p)
  {
    EveryStateIsSerial(acts);
    var s := After(START, acts);
    InboxIsExpected(Begun(s, CallsOf(acts)), p);
    match s.window
    case Sending(m, e, next) => InboxAppend(s.sent, DeliveriesFrom(s.players, next, m, e), p);
    case _ =>
  }

  // ---- draining ----------------------------------------------------------

  predicate AllInternal(acts: seq<Action>) {
    forall a <- acts :: Internal(a)
  }

  /** Moves a call costs, its notice included, when it starts on this roster. */
  function CallCost(roster: seq<Player>, call: Call): nat {
    match call
    case Add(_) => 3
    case Remove(p) => if p in roster then 3 else 1
    case Broadcast(_, _) => |roster| + 2
  }

  function RosterAfter(roster: seq<Player>, call: Call): seq<Player> {
    match call
    case Add(p) => roster + [p]
    case Remove(p) => RemoveFirst(roster, p)
    case Broadcast(_, _) => roster
  }

  function QueueCost(roster: seq<Player>, calls: seq<Call>): nat
    decreases |calls|
  {
    if calls == [] then 0 else CallCost(roster, calls[0]) + QueueCost(RosterAfter(roster, calls[0]), calls[1..])
  }

  function WindowCost(s: State): nat
    requires Sound(s)
  {
    match s.window
    case Idle => 0
    case Pushed(_) => 2
    case Leaving(_) => 1
    case Sending(_, _, next) => |s.players| - next + 1
  }

  /** The moves left until both strands are empty. */
  function Remaining(s: State): nat
    requires Sound(s)
  {
    WindowCost(s) + QueueCost(Settled(s).roster, s.playerStrand) + |s.commandStrand|
  }

  lemma BeginCosts(s: State)
    requires Sound(s) && s.window.Idle? && s.playerStrand != []
    ensures WindowCost(Begin(s)) + |Begin(s).commandStrand| ==
            CallCost(s.players, s.playerStrand[0]) - 1 + |s.commandStrand|
  {
  }

  lemma BeginCostsOne(s: State)
    requires Sound(s) && s.window.Idle? && s.playerStrand != []
    ensures Remaining(Begin(s)) == Remaining(s) - 1
  {
    var s', call := Begin(s), s.playerStrand[0];
    BeginSettles(s);
    assert Settled(s).roster == s.players && Settled(s').roster == RosterAfter(s.players, call);
    BeginCosts(s);
  }

  lemma ContinueCostsOne(s: State)
    requires Sound(s) && !s.window.Idle?
    ensures Remaining(Continue(s)) == Remaining(s) - 1
  {
    ContinueSettles(s);
  }

  /** Every internal move brings the session exactly one move closer to drained. */
  lemma MoveCostsOne(s: State, a: Action)
    requires Sound(s) && Enabled(s, a) && Internal(a)
    ensures Remaining(Step(s, a)) == Remaining(s) - 1
  {
    if a.PlayerStep? {
      if s.window.Idle? {
        BeginCostsOne(s);
      } else {
        ContinueCostsOne(s);
      }
    }
  }

  /** Nothing remains exactly when the session is drained, and then nothing can move. */
  lemma NothingRemains(s: State)
    requires Sound(s)
    ensures Drained(s) <==> Remaining(s) == 0
    ensures Remaining(s) > 0 <==> Enabled(s, PlayerStep) || Enabled(s, CommandStep)
  {
  }

  lemma {:induction false} MovesCount(s: State, acts: seq<Action>)
    requires Sound(s) && IsRun(s, acts) && AllInternal(acts)
    ensures |acts| + Remaining(After(s, acts)) == Remaining(s)
  {
    if acts == [] {
    } else {
      var front := acts[..|acts| - 1];
      MovesCount(s, front);
      MoveCostsOne(After(s, front), acts[|acts| - 1]);
    }
  }

  /** A schedule with no new calls or commands, from one state to another. */
  ghost predicate LeadsTo(s: State, acts: seq<Action>, s': State)
    requires Sound(s)
  {
    IsRun(s, acts) && AllInternal(acts) && After(s, acts) == s'
  }

  /**
    Exact draining: however the two strands are scheduled, a session with no new
    calls makes exactly Remaining moves; it can always move before that and is
    drained then and only then.
   */
  lemma DrainsExactly(s: State, acts: seq<Action>, s': State)
    requires Sound(s) && LeadsTo(s, acts, s')
    ensures |acts| + Remaining(s') == Remaining(s)
    ensures Drained(s') <==> |acts| == Remaining(s)
    ensures |acts| < Remaining(s) <==> Enabled(s', PlayerStep) || Enabled(s', CommandStep)
  {
    MovesCount(s, acts);
    NothingRemains(s');
  }

  /** Player handlers weigh two, because each may post one notice; command handlers weigh one. */
  function HandlerWeight(s: State): nat {
    2 * |s.playerStrand| + |s.commandStrand| + if s.window.Pushed? then 1 else 0
  }

  /** How many handlers the schedule starts. */
  function HandlersStarted(s: State, acts: seq<Action>): nat
    requires Sound(s) && IsRun(s, acts)
  {
    if acts == [] then 0
    else
      var before := After(s, acts[..|acts| - 1]);
      HandlersStarted(s, acts[..|acts| - 1])
      + if acts[|acts| - 1].CommandStep? || (acts[|acts| - 1].PlayerStep? && before.window.Idle?) then 1 else 0
  }

  lemma MoveWeighs(s: State, a: Action)
    requires Sound(s) && Enabled(s, a) && Internal(a)
    ensures HandlerWeight(Step(s, a)) + (if a.CommandStep? || s.window.Idle? then 1 else 0) <= HandlerWeight(s)
  {
  }

  /** With no new calls, at most twice the player queue plus the command queue handlers are still to run. */
  lemma {:induction false} HandlerBound(s: State, acts: seq<Action>)
    requires Sound(s) && IsRun(s, acts) && AllInternal(acts)
    ensures HandlersStarted(s, acts) + HandlerWeight(After(s, acts)) <= HandlerWeight(s)
    ensures s.window.Idle? ==> HandlersStarted(s, acts) <= 2 * |s.playerStrand| + |s.commandStrand|
  {
    if acts == [] {
    } else {
      HandlerBound(s, acts[..|acts| - 1]);
      MoveWeighs(After(s, acts[..|acts| - 1]), acts[|acts| - 1]);
    }
  }
}
