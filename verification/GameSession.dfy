/**
  The session object itself.  Its public methods post handlers; RunPlayerHandler
  and RunCommandHandler are what the two strands execute.  Each handler is proved
  to do what GameCalls says its call does, and UninterruptedHandler shows that
  this is the machine of GameStrands run without interleaving.
 */
module GameSessions {
  import opened Wrappers
  import opened GameCalls
  import opened GameStrands

  class GameSession {
    var players: seq<Player>
    var playerStrand: seq<Call>
    var commandStrand: seq<Task>
    var log: seq<Task>
    var sent: seq<Delivery>

    function View(): State
      reads this
    {
      State(players, playerStrand, commandStrand, Idle, log, sent)
    }

    constructor ()
      ensures View() == START
    {
      players, playerStrand, commandStrand, log, sent := [], [], [], [], [];
    }

    method OnCommand(command: string, sender: Player)
      modifies this
      ensures View() == Step(old(View()), Issue(command, sender))
    {
      commandStrand := commandStrand + [Process(command, sender)];
    }

    method AddPlayer(player: Player)
      modifies this
      ensures View() == Step(old(View()), Post(Add(player)))
    {
      playerStrand := playerStrand + [Add(player)];
    }

    method RemovePlayer(player: Player)
      modifies this
      ensures View() == Step(old(View()), Post(Remove(player)))
    {
      playerStrand := playerStrand + [Remove(player)];
    }

    method BroadcastMessage(message: string, except: Option<Player>)
      modifies this
      ensures View() == Step(old(View()), Post(Broadcast(message, except)))
    {
      playerStrand := playerStrand + [Broadcast(message, except)];
    }

    /** The player strand runs its next handler from start to end. */
    method RunPlayerHandler()
      requires playerStrand != []
      modifies this
      ensures View() == Handled(old(View()))
      ensures Settled(View()) == Perform(Settled(old(View())), old(playerStrand)[0])
    {
      ghost var s := View();
      var call := playerStrand[0];
      playerStrand := playerStrand[1..];
      match call {
        case Add(player) => HandleAdd(player);
        case Remove(player) => HandleRemove(player);
        case Broadcast(message, except) => HandleBroadcast(message, except);
      }
      assert View() == Handled(s);
      HandledPerforms(s);
    }

    method HandleAdd(player: Player)
      modifies this`players, this`commandStrand
      ensures players == old(players) + [player]
      ensures commandStrand == old(commandStrand) + [Joined(player)]
    {
      players := players + [player];
      commandStrand := commandStrand + [Joined(player)];
    }

    method HandleRemove(player: Player)
      modifies this`players, this`commandStrand
      ensures players == RemoveFirst(old(players), player)
      ensures if player in old(players) then FirstRemoved(old(players), player, players) else players == old(players)
      ensures commandStrand == old(commandStrand) + if player in old(players) then [Left(player)] else []
    {
      var it := 0;
      while it < |players| && players[it] != player
        invariant it <= |players|
        invariant player !in players[..it]
        invariant players == old(players) && commandStrand == old(commandStrand)
      {
        it := it + 1;
      }
      if it != |players| {
        FirstIndexIsUnique(players, player, it);
        commandStrand := commandStrand + [Left(player)];
        players := players[..it] + players[it + 1..];
      } else {
        assert players[..it] == players;
      }
    }

    method HandleBroadcast(message: string, except: Option<Player>)
      modifies this`sent
      ensures sent == old(sent) + Deliveries(players, message, except)
    {
      var i := 0;
      while i < |players|
        invariant i <= |players|
        invariant sent == old(sent) + Deliveries(players[..i], message, except)
      {
        assert players[..i + 1][..i] == players[..i];
        if Some(players[i]) != except {
          sent := sent + [Delivery(players[i], message)];
        }
        i := i + 1;
      }
      assert players[..i] == players;
    }

    /** The command strand runs its next handler: the game logic sees one command or notice. */
    method RunCommandHandler()
      requires commandStrand != []
      modifies this
      ensures View() == Step(old(View()), CommandStep)
      ensures log == old(log) + [old(commandStrand)[0]] && commandStrand == old(commandStrand)[1..]
    {
      log := log + [commandStrand[0]];
      commandStrand := commandStrand[1..];
    }
  }

  lemma FirstIndexIsUnique(roster: seq<Player>, p: Player, i: nat)
    requires i < |roster| && roster[i] == p && p !in roster[..i]
    ensures i == IndexOf(roster, p)
  {
    var j := IndexOf(roster, p);
    assert roster[..j][..if i < j then i else j] == roster[..i][..if i < j then i else j];
  }

  /** The state after the first waiting player handler has run as a whole. */
  function Handled(s: State): State
    requires s.playerStrand != []
  {
    var s1 := s.(playerStrand := s.playerStrand[1..]);
    match s.playerStrand[0]
    case Add(p) => s1.(players := s.players + [p], commandStrand := s.commandStrand + [Joined(p)])
    case Remove(p) =>
      if p in s.players
      then s1.(players := RemoveFirst(s.players, p), commandStrand := s.commandStrand + [Left(p)])
      else s1
    case Broadcast(m, e) => s1.(sent := s.sent + Deliveries(s.players, m, e))
  }

  /** The moves of one handler when nothing runs in between. */
  function HandlerMoves(s: State): nat
    requires s.playerStrand != []
  {
    match s.playerStrand[0]
    case Add(_) => 2
    case Remove(p) => if p in s.players then 2 else 1
    case Broadcast(_, _) => |s.players| + 2
  }

  function PlayerMoves(n: nat): seq<Action> {
    seq(n, _ => PlayerStep)
  }

  lemma OneMoreMove(s: State, n: nat)
    requires Sound(s) && IsRun(s, PlayerMoves(n)) && Enabled(After(s, PlayerMoves(n)), PlayerStep)
    ensures IsRun(s, PlayerMoves(n + 1))
    ensures After(s, PlayerMoves(n + 1)) == Step(After(s, PlayerMoves(n)), PlayerStep)
  {
    assert PlayerMoves(n + 1) == PlayerMoves(n) + [PlayerStep];
    OneMore(s, PlayerMoves(n), PlayerStep);
  }

  lemma FirstMove(s: State)
    requires s.window.Idle? && s.playerStrand != []
    ensures IsRun(s, PlayerMoves(1)) && After(s, PlayerMoves(1)) == Begin(s)
  {
    OneMoreMove(s, 0);
  }

  /** A broadcast that has passed its first n roster entries. */
  function PartlySent(s: State, n: nat): State
    requires s.playerStrand != [] && s.playerStrand[0].Broadcast? && n <= |s.players|
  {
    var Broadcast(m, e) := s.playerStrand[0];
    s.(playerStrand := s.playerStrand[1..], window := Sending(m, e, n),
       sent := s.sent + Deliveries(s.players[..n], m, e))
  }

  lemma SendOneMore(s: State, n: nat)
    requires s.playerStrand != [] && s.playerStrand[0].Broadcast? && n < |s.players|
    ensures Step(PartlySent(s, n), PlayerStep) == PartlySent(s, n + 1)
  {
    assert s.players[..n + 1][..n] == s.players[..n];
    assert s.players[..n + 1][n] == s.players[n];
  }

  lemma {:induction false} SendingMoves(s: State, n: nat)
    requires s.window.Idle? && s.playerStrand != [] && s.playerStrand[0].Broadcast?
    requires n <= |s.players|
    ensures IsRun(s, PlayerMoves(n + 1)) && After(s, PlayerMoves(n + 1)) == PartlySent(s, n)
  {
    if n == 0 {
      FirstMove(s);
    } else {
      SendingMoves(s, n - 1);
      OneMoreMove(s, n);
      SendOneMore(s, n - 1);
    }
  }

  lemma AddMoves(s: State)
    requires s.window.Idle? && s.playerStrand != [] && s.playerStrand[0].Add?
    ensures IsRun(s, PlayerMoves(2)) && After(s, PlayerMoves(2)) == Handled(s)
  {
    FirstMove(s);
    OneMoreMove(s, 1);
  }

  lemma RemoveMoves(s: State)
    requires s.window.Idle? && s.playerStrand != [] && s.playerStrand[0].Remove?
    ensures IsRun(s, PlayerMoves(HandlerMoves(s))) && After(s, PlayerMoves(HandlerMoves(s))) == Handled(s)
  {
    FirstMove(s);
    if s.playerStrand[0].player in s.players {
      OneMoreMove(s, 1);
    }
  }

  lemma BroadcastEnds(s: State)
    requires s.window.Idle? && s.playerStrand != [] && s.playerStrand[0].Broadcast?
    ensures Step(PartlySent(s, |s.players|), PlayerStep) == Handled(s)
  {
    assert s.players[..|s.players|] == s.players;
  }

  lemma BroadcastMoves(s: State)
    requires s.window.Idle? && s.playerStrand != [] && s.playerStrand[0].Broadcast?
    ensures IsRun(s, PlayerMoves(HandlerMoves(s))) && After(s, PlayerMoves(HandlerMoves(s))) == Handled(s)
  {
    SendingMoves(s, |s.players|);
    BroadcastEnds(s);
    OneMoreMove(s, |s.players| + 1);
  }

  /**
    What the object does in one handler is what the machine does when the player
    strand runs that handler without the command strand in between.
   */
  lemma UninterruptedHandler(s: State)
    requires s.window.Idle? && s.playerStrand != []
    ensures IsRun(s, PlayerMoves(HandlerMoves(s))) && After(s, PlayerMoves(HandlerMoves(s))) == Handled(s)
  {
    match s.playerStrand[0]
    case Add(_) => AddMoves(s);
    case Remove(_) => RemoveMoves(s);
    case Broadcast(_, _) => BroadcastMoves(s);
  }

  lemma HandledPerforms(s: State)
    requires s.window.Idle? && s.playerStrand != []
    ensures Settled(Handled(s)) == Perform(Settled(s), s.playerStrand[0])
  {
    match s.playerStrand[0]
    case Add(p) =>
      assert Posted(Handled(s)) == Posted(s) + [Joined(p)];
      SplitOne(Posted(s), Joined(p));
    case Remove(p) =>
      if p in s.players {
        assert Posted(Handled(s)) == Posted(s) + [Left(p)];
        SplitOne(Posted(s), Left(p));
      }
    case Broadcast(_, _) =>
  }
}
