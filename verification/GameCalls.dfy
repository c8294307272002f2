/**
  What a game session means when its player calls are carried out one after
  another.  This is the reference the two-strand machine in GameStrands is
  measured against; nothing here knows about strands.
 */
module GameCalls {
  import opened Wrappers

  /** A player is a shared pointer in the source; only its identity matters. */
  type Player = nat

  /** The three operations that run on the player strand. */
  datatype Call =
    | Add(player: Player)
    | Remove(player: Player)
    | Broadcast(message: string, except: Option<Player>)

  /** What is posted on the command strand: game commands and roster notices. */
  datatype Task =
    | Process(command: string, sender: Player)
    | Joined(player: Player)
    | Left(player: Player)

  /** One call of SendMessage on a player. */
  datatype Delivery = Delivery(to: Player, message: string)

  /** The observable outcome of a sequence of calls. */
  datatype Outcome = Outcome(roster: seq<Player>, notices: seq<Task>, sent: seq<Delivery>)

  const NOBODY := Outcome([], [], [])

  function IndexOf(roster: seq<Player>, p: Player): (i: nat)
    requires p in roster
    ensures i < |roster| && roster[i] == p && p !in roster[..i]
  {
    if roster[0] == p then 0 else 1 + IndexOf(roster[1..], p)
  }

  function RemoveFirst(roster: seq<Player>, p: Player): seq<Player> {
    if p in roster then RemoveAt(roster, IndexOf(roster, p)) else roster
  }

  /** The messages one broadcast hands out, in roster order. */
  function Deliveries(roster: seq<Player>, message: string, except: Option<Player>): seq<Delivery> {
    if roster == [] then []
    else
      Deliveries(roster[..|roster| - 1], message, except)
      + if except == Some(roster[|roster| - 1]) then [] else [Delivery(roster[|roster| - 1], message)]
  }

  function Perform(o: Outcome, call: Call): Outcome {
    match call
    case Add(p) => o.(roster := o.roster + [p], notices := o.notices + [Joined(p)])
    case Remove(p) =>
      if p in o.roster then o.(roster := RemoveFirst(o.roster, p), notices := o.notices + [Left(p)]) else o
    case Broadcast(m, e) => o.(sent := o.sent + Deliveries(o.roster, m, e))
  }

  /** The calls carried out one after another, starting from an empty session. */
  function Serial(calls: seq<Call>): Outcome {
    if calls == [] then NOBODY else Perform(Serial(calls[..|calls| - 1]), calls[|calls| - 1])
  }

  /** The roster without the first entry of p. */
  predicate FirstRemoved(before: seq<Player>, p: Player, after: seq<Player>) {
    exists i :: 0 <= i < |before| && before[i] == p && p !in before[..i] && after == before[..i] + before[i + 1..]
  }

  lemma RemovesTheFirst(roster: seq<Player>, p: Player)
    requires p in roster
    ensures FirstRemoved(roster, p, RemoveFirst(roster, p))
  {
    var i := IndexOf(roster, p);
    assert roster[i] == p && p !in roster[..i] && RemoveFirst(roster, p) == roster[..i] + roster[i + 1..];
  }

  // ---- what the game logic sees ------------------------------------------

  /** How a listener that only sees notices updates its own list. */
  function Observe(roster: seq<Player>, notice: Task): seq<Player> {
    match notice
    case Joined(p) => roster + [p]
    case Left(p) => RemoveFirst(roster, p)
    case Process(_, _) => roster
  }

  /** The roster such a listener reconstructs. */
  function Replay(notices: seq<Task>): seq<Player> {
    if notices == [] then [] else Observe(Replay(notices[..|notices| - 1]), notices[|notices| - 1])
  }

  lemma ReplayStep(notices: seq<Task>, t: Task)
    ensures Replay(notices + [t]) == Observe(Replay(notices), t)
  {
    assert (notices + [t])[..|notices|] == notices;
  }

  /** The notices are a complete account of the roster, order included. */
  lemma {:induction false} NoticesDetermineRoster(calls: seq<Call>)
    ensures Replay(Serial(calls).notices) == Serial(calls).roster
  {
    if calls == [] {
    } else {
      var before := Serial(calls[..|calls| - 1]);
      NoticesDetermineRoster(calls[..|calls| - 1]);
      match calls[|calls| - 1]
      case Add(p) => ReplayStep(before.notices, Joined(p));
      case Remove(p) => ReplayStep(before.notices, Left(p));
      case Broadcast(_, _) =>
    }
  }

  /** Every prefix of the notices is the whole account of some earlier moment. */
  lemma {:induction false} NoticePrefixIsAMoment(calls: seq<Call>, n: nat) returns (j: nat)
    requires n <= |Serial(calls).notices|
    ensures j <= |calls|
    ensures Serial(calls[..j]).notices == Serial(calls).notices[..n]
    ensures n < |Serial(calls).notices| ==> j < |calls|
  {
    if n == |Serial(calls).notices| {
      j := |calls|;
      assert calls[..j] == calls;
    } else {
      var front := calls[..|calls| - 1];
      j := NoticePrefixIsAMoment(front, n);
      assert front[..j] == calls[..j];
    }
  }

  // ---- matched departures ------------------------------------------------

  function Joins(notices: seq<Task>, p: Player): nat {
    if notices == [] then 0
    else Joins(notices[..|notices| - 1], p) + if notices[|notices| - 1] == Joined(p) then 1 else 0
  }

  function Leaves(notices: seq<Task>, p: Player): nat {
    if notices == [] then 0
    else Leaves(notices[..|notices| - 1], p) + if notices[|notices| - 1] == Left(p) then 1 else 0
  }

  /** A walk of p's adds and removes that never goes below zero. */
  function Level(calls: seq<Call>, p: Player): nat {
    if calls == [] then 0
    else
      var before := Level(calls[..|calls| - 1], p);
      match calls[|calls| - 1]
      case Add(q) => if q == p then before + 1 else before
      case Remove(q) => if q == p && before > 0 then before - 1 else before
      case Broadcast(_, _) => before
  }

  /** How many removals of p found it above zero. */
  function Departures(calls: seq<Call>, p: Player): nat {
    if calls == [] then 0
    else
      Departures(calls[..|calls| - 1], p)
      + if calls[|calls| - 1] == Remove(p) && Level(calls[..|calls| - 1], p) > 0 then 1 else 0
  }

  lemma RemoveFirstCount(roster: seq<Player>, q: Player, p: Player)
    ensures multiset(RemoveFirst(roster, q))[p] ==
            if p == q && q in roster then multiset(roster)[p] - 1 else multiset(roster)[p]
  {
    if q in roster {
      var i := IndexOf(roster, q);
      assert roster == roster[..i] + [q] + roster[i + 1..];
      assert multiset(roster) == multiset(roster[..i]) + multiset{q} + multiset(roster[i + 1..]);
    }
  }

  /** The roster holds p exactly as often as the reflected walk says. */
  lemma {:induction false} RosterCount(calls: seq<Call>, p: Player)
    ensures multiset(Serial(calls).roster)[p] == Level(calls, p)
  {
    if calls == [] {
    } else {
      var before := Serial(calls[..|calls| - 1]);
      RosterCount(calls[..|calls| - 1], p);
      match calls[|calls| - 1]
      case Add(_) =>
      case Remove(q) => RemoveFirstCount(before.roster, q, p);
      case Broadcast(_, _) =>
    }
  }

  lemma CountStep(notices: seq<Task>, t: Task, p: Player)
    ensures Joins(notices + [t], p) == Joins(notices, p) + if t == Joined(p) then 1 else 0
    ensures Leaves(notices + [t], p) == Leaves(notices, p) + if t == Left(p) then 1 else 0
  {
    assert (notices + [t])[..|notices|] == notices;
  }

  /** What one call adds to the joins and leaves of p. */
  lemma CountsAfter(o: Outcome, call: Call, p: Player)
    ensures Joins(Perform(o, call).notices, p) == Joins(o.notices, p) + if call == Add(p) then 1 else 0
    ensures Leaves(Perform(o, call).notices, p) ==
            Leaves(o.notices, p) + if call == Remove(p) && p in o.roster then 1 else 0
  {
    match call
    case Add(q) => CountStep(o.notices, Joined(q), p);
    case Remove(q) => CountStep(o.notices, Left(q), p);
    case Broadcast(_, _) =>
  }

  /** Unknown or repeated removals emit nothing: a leave per removal that finds p, no more. */
  lemma {:induction false} LeavesAreDepartures(calls: seq<Call>, p: Player)
    ensures Leaves(Serial(calls).notices, p) == Departures(calls, p)
    ensures Joins(Serial(calls).notices, p) == Departures(calls, p) + Level(calls, p)
  {
    if calls == [] {
    } else {
      var front := calls[..|calls| - 1];
      LeavesAreDepartures(front, p);
      RosterCount(front, p);
      CountsAfter(Serial(front), calls[|calls| - 1], p);
    }
  }

  /** In every prefix of the notices each player has at most as many leaves as joins. */
  lemma LeavesNeverLead(calls: seq<Call>, n: nat, p: Player)
    requires n <= |Serial(calls).notices|
    ensures Leaves(Serial(calls).notices[..n], p) <= Joins(Serial(calls).notices[..n], p)
  {
    var j := NoticePrefixIsAMoment(calls, n);
    LeavesAreDepartures(calls[..j], p);
  }

  // ---- broadcast exactness -----------------------------------------------

  /** The messages p was sent, in order. */
  function Inbox(sent: seq<Delivery>, p: Player): seq<string> {
    if sent == [] then []
    else
      Inbox(sent[..|sent| - 1], p)
      + if sent[|sent| - 1].to == p then [sent[|sent| - 1].message] else []
  }

  function Copies(message: string, n: nat): seq<string> {
    seq(n, _ => message)
  }

  /** What one call owes p when the roster holds p that often: a broadcast that does not exclude p, once per entry. */
  function Owed(call: Call, p: Player, entries: nat): seq<string> {
    match call
    case Broadcast(m, e) => if e == Some(p) then [] else Copies(m, entries)
    case _ => []
  }

  /** What p should get: what each call owes it at its moment. */
  function Expected(calls: seq<Call>, p: Player): seq<string> {
    if calls == [] then []
    else
      Expected(calls[..|calls| - 1], p) + Owed(calls[|calls| - 1], p, Level(calls[..|calls| - 1], p))
  }

  lemma {:induction false} InboxAppend(a: seq<Delivery>, b: seq<Delivery>, p: Player)
    ensures Inbox(a + b, p) == Inbox(a, p) + Inbox(b, p)
  {
    if b == [] {
      assert a + b == a;
    } else {
      assert (a + b)[..|a + b| - 1] == a + b[..|b| - 1];
      InboxAppend(a, b[..|b| - 1], p);
    }
  }

  lemma CopiesAppend(m: string, n: nat)
    ensures Copies(m, n) + [m] == Copies(m, n + 1) && Copies(m, 0) == []
  {
  }

  /** What the last roster entry adds to what p gets from a broadcast. */
  lemma InboxOfLastEntry(front: seq<Player>, last: Player, m: string, e: Option<Player>, p: Player)
    ensures Inbox(Deliveries(front + [last], m, e), p) ==
            Inbox(Deliveries(front, m, e), p) + if e != Some(last) && last == p then [m] else []
  {
    var before := Deliveries(front, m, e);
    assert (front + [last])[..|front|] == front;
    if e == Some(last) {
      assert before + [] == before && Inbox(before, p) + [] == Inbox(before, p);
    } else {
      assert (before + [Delivery(last, m)])[..|before|] == before;
      assert Deliveries(front + [last], m, e) == before + [Delivery(last, m)];
      assert Inbox(before, p) + [] == Inbox(before, p);
    }
  }

  lemma {:induction false} InboxOfOneBroadcast(roster: seq<Player>, m: string, e: Option<Player>, p: Player)
    ensures Inbox(Deliveries(roster, m, e), p) ==
            if e == Some(p) then [] else Copies(m, multiset(roster)[p])
  {
    if roster == [] {
      CopiesAppend(m, 0);
    } else {
      var front: seq<Player> := roster[..|roster| - 1];
      var last: Player := roster[|roster| - 1];
      assert roster == front + [last];
      InboxOfOneBroadcast(front, m, e, p);
      InboxOfLastEntry(front, last, m, e, p);
      CopiesAppend(m, multiset(front)[p]);
      assert multiset(roster)[p] == multiset(front)[p] + (if last == p then 1 else 0);
    }
  }

  /** What one call adds to the inbox of p. */
  lemma InboxAfter(o: Outcome, call: Call, p: Player)
    ensures Inbox(Perform(o, call).sent, p) == Inbox(o.sent, p) + Owed(call, p, multiset(o.roster)[p])
  {
    match call
    case Broadcast(m, e) =>
      InboxAppend(o.sent, Deliveries(o.roster, m, e), p);
      InboxOfOneBroadcast(o.roster, m, e, p);
    case _ =>
      assert Inbox(o.sent, p) + [] == Inbox(o.sent, p);
  }

  /** Every inbox is the in-order list of the broadcasts made while its player was a member. */
  lemma {:induction false} InboxIsExpected(calls: seq<Call>, p: Player)
    ensures Inbox(Serial(calls).sent, p) == Expected(calls, p)
  {
    if calls == [] {
    } else {
      var front := calls[..|calls| - 1];
      InboxIsExpected(front, p);
      RosterCount(front, p);
      InboxAfter(Serial(front), calls[|calls| - 1], p);
    }
  }

  /** The roster with every entry of p struck out. */
  function Without(roster: seq<Player>, p: Player): seq<Player> {
    if roster == [] then []
    else Without(roster[..|roster| - 1], p) + if roster[|roster| - 1] == p then [] else [roster[|roster| - 1]]
  }

  /** The message once to each of these, in order. */
  function OneEach(to: seq<Player>, m: string): seq<Delivery> {
    seq(|to|, i requires 0 <= i < |to| => Delivery(to[i], m))
  }

  /** A broadcast reaches every roster entry but the excepted player's, each once, in roster order. */
  lemma {:induction false} BroadcastReachesRoster(roster: seq<Player>, m: string, e: Option<Player>)
    ensures Deliveries(roster, m, e) == OneEach(if e.Some? then Without(roster, e.value) else roster, m)
  {
    if roster == [] {
    } else {
      BroadcastReachesRoster(roster[..|roster| - 1], m, e);
    }
  }

  /**
    What a call does, outright: an add appends the player and a join; a removal takes
    the first entry out and appends a leave, or does nothing; a broadcast sends one
    message to each entry that is not excepted, in order.
   */
  predicate Does(o: Outcome, call: Call, o': Outcome) {
    match call
    case Add(p) => o' == Outcome(o.roster + [p], o.notices + [Joined(p)], o.sent)
    case Remove(p) =>
      if p !in o.roster then o' == o
      else FirstRemoved(o.roster, p, o'.roster) && o'.notices == o.notices + [Left(p)] && o'.sent == o.sent
    case Broadcast(m, e) =>
      && o'.roster == o.roster && o'.notices == o.notices
      && o'.sent == o.sent + OneEach(if e.Some? then Without(o.roster, e.value) else o.roster, m)
  }

  /** One more call in a serial run does just that. */
  lemma OneMoreCall(calls: seq<Call>, call: Call)
    ensures Does(Serial(calls), call, Serial(calls + [call]))
  {
    var roster := Serial(calls).roster;
    assert (calls + [call])[..|calls|] == calls;
    match call
    case Add(_) =>
    case Remove(p) =>
      if p in roster {
        RemovesTheFirst(roster, p);
      }
    case Broadcast(m, e) => BroadcastReachesRoster(roster, m, e);
  }
}
