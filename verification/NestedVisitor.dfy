/**
  The nested test visitor: it logs the names it enters and leaves, keeps a flag
  meant to say whether it is inside a nested object, and remembers the last leaf
  of each type it saw while the flag was set.
 */
module NestedVisitors {
  import opened Wrappers
  import opened Visitable

  datatype Notes = Notes(
    enterNames: seq<string>,
    exitNames: seq<string>,
    inNested: bool,
    cResult: (string, int),
    dResult: (string, real),
    sResult: (string, string))

  /** A visitor that has seen nothing. */
  const BLANK := Notes([], [], false, ("", 0), ("", 0.0), ("", ""))

  /** The leaves among the events that arrive while the flag is set. */
  function Recorded(flag: bool, events: seq<Event>): seq<Event>
    decreases |events|
  {
    if events == [] then []
    else
      (if flag && events[0].Visit? then [events[0]] else []) + Recorded(FlagAfter(flag, events[0]), events[1..])
  }

  function Entered(events: seq<Event>): seq<string> {
    if events == [] then []
    else (if events[0].Enter? then [events[0].name] else []) + Entered(events[1..])
  }

  function Exited(events: seq<Event>): seq<string> {
    if events == [] then []
    else (if events[0].Exit? then [events[0].name] else []) + Exited(events[1..])
  }

  /** The flag after the events: whether the last bracket opened. */
  function Flag(flag: bool, events: seq<Event>): bool
    decreases |events|
  {
    if events == [] then flag else Flag(FlagAfter(flag, events[0]), events[1..])
  }

  function FlagAfter(flag: bool, e: Event): bool {
    match e case Visit(_, _) => flag case Enter(_) => true case Exit(_) => false
  }

  function LastInt(before: (string, int), leaves: seq<Event>): (string, int) {
    if leaves == [] then before
    else
      match leaves[|leaves| - 1]
      case Visit(name, IntValue(i)) => (name, i)
      case _ => LastInt(before, leaves[..|leaves| - 1])
  }

  function LastDouble(before: (string, real), leaves: seq<Event>): (string, real) {
    if leaves == [] then before
    else
      match leaves[|leaves| - 1]
      case Visit(name, DoubleValue(d)) => (name, d)
      case _ => LastDouble(before, leaves[..|leaves| - 1])
  }

  function LastString(before: (string, string), leaves: seq<Event>): (string, string) {
    if leaves == [] then before
    else
      match leaves[|leaves| - 1]
      case Visit(name, StringValue(s)) => (name, s)
      case _ => LastString(before, leaves[..|leaves| - 1])
  }

  /** The notes after a list of events, field by field. */
  function Noted(n: Notes, events: seq<Event>): Notes {
    var recorded := Recorded(n.inNested, events);
    Notes(n.enterNames + Entered(events), n.exitNames + Exited(events), Flag(n.inNested, events),
          LastInt(n.cResult, recorded), LastDouble(n.dResult, recorded), LastString(n.sResult, recorded))
  }

  class NestedVisitor {
    var enterNames: seq<string>
    var exitNames: seq<string>
    var inNested: bool
    var cResult: (string, int)
    var dResult: (string, real)
    var sResult: (string, string)

    function View(): Notes
      reads this
    {
      Notes(enterNames, exitNames, inNested, cResult, dResult, sResult)
    }

    constructor ()
      ensures View() == BLANK
    {
      enterNames, exitNames, inNested := [], [], false;
      cResult, dResult, sResult := ("", 0), ("", 0.0), ("", "");
    }

    method VisitNested(name: string)
      modifies this
      ensures View() == Noted(old(View()), [Enter(name)])
    {
      enterNames := enterNames + [name];
      inNested := true;
      OneEvent(old(inNested), Enter(name));
    }

    method ExitNested(name: string)
      modifies this
      ensures View() == Noted(old(View()), [Exit(name)])
    {
      exitNames := exitNames + [name];
      inNested := false;
      OneEvent(old(inNested), Exit(name));
    }

    method Visit(name: string, value: Value)
      modifies this
      ensures View() == Noted(old(View()), [Event.Visit(name, value)])
    {
      OneEvent(inNested, Event.Visit(name, value));
      LastOfOne(cResult, dResult, sResult, name, value);
      if !inNested {
        return;
      }
      match value {
        case IntValue(i) => cResult := (name, i);
        case DoubleValue(d) => dResult := (name, d);
        case StringValue(s) => sResult := (name, s);
      }
    }

    /** The traversal of a whole instance, driving this visitor. */
    method Accept(properties: Properties)
      modifies this
      ensures View() == Noted(old(View()), Events(properties))
      ensures old(View()) == BLANK ==> Holds(View(), properties)
      decreases properties
    {
      BlankHolds(properties);
      ghost var before := View();
      match properties {
        case End =>
        case Field(Leaf(name, value), tail) =>
          Visit(name, value);
          Accept(tail);
          NotedAppend(before, EventsOf(Leaf(name, value)), Events(tail));
        case Field(Nested(name, inner), tail) =>
          VisitNested(name);
          Accept(inner);
          ExitNested(name);
          NotedAppend(before, [Enter(name)], Events(inner));
          NotedAppend(before, [Enter(name)] + Events(inner), [Exit(name)]);
          Accept(tail);
          NotedAppend(before, EventsOf(Nested(name, inner)), Events(tail));
      }
    }
  }

  // ---- splitting a list of events ----------------------------------------

  lemma {:induction false} EnteredAppend(a: seq<Event>, b: seq<Event>)
    ensures Entered(a + b) == Entered(a) + Entered(b)
  {
    if a == [] {
      assert a + b == b;
    } else {
      var head := if a[0].Enter? then [a[0].name] else [];
      EnteredAppend(a[1..], b);
      assert (a + b)[0] == a[0] && (a + b)[1..] == a[1..] + b;
      assert Entered(a + b) == head + Entered(a[1..] + b) && Entered(a) == head + Entered(a[1..]);
    }
  }

  lemma {:induction false} ExitedAppend(a: seq<Event>, b: seq<Event>)
    ensures Exited(a + b) == Exited(a) + Exited(b)
  {
    if a == [] {
      assert a + b == b;
    } else {
      var head := if a[0].Exit? then [a[0].name] else [];
      ExitedAppend(a[1..], b);
      assert (a + b)[0] == a[0] && (a + b)[1..] == a[1..] + b;
      assert Exited(a + b) == head + Exited(a[1..] + b) && Exited(a) == head + Exited(a[1..]);
    }
  }

  lemma {:induction false} FlagAppend(flag: bool, a: seq<Event>, b: seq<Event>)
    ensures Flag(flag, a + b) == Flag(Flag(flag, a), b)
    decreases |a|
  {
    if a == [] {
      assert a + b == b;
    } else {
      assert (a + b)[1..] == a[1..] + b;
      FlagAppend(FlagAfter(flag, a[0]), a[1..], b);
    }
  }

  lemma {:induction false} RecordedAppend(flag: bool, a: seq<Event>, b: seq<Event>)
    ensures Recorded(flag, a + b) == Recorded(flag, a) + Recorded(Flag(flag, a), b)
    decreases |a|
  {
    if a == [] {
      assert a + b == b;
    } else {
      var now := if flag && a[0].Visit? then [a[0]] else [];
      var next := FlagAfter(flag, a[0]);
      RecordedAppend(next, a[1..], b);
      assert (a + b)[0] == a[0] && (a + b)[1..] == a[1..] + b;
      assert Recorded(flag, a + b) == now + Recorded(next, a[1..] + b);
      assert Recorded(flag, a) == now + Recorded(next, a[1..]);
    }
  }

  lemma ListsAppend(flag: bool, a: seq<Event>, b: seq<Event>)
    ensures Recorded(flag, a + b) == Recorded(flag, a) + Recorded(Flag(flag, a), b)
    ensures Flag(flag, a + b) == Flag(Flag(flag, a), b)
    ensures Entered(a + b) == Entered(a) + Entered(b)
    ensures Exited(a + b) == Exited(a) + Exited(b)
  {
    EnteredAppend(a, b);
    ExitedAppend(a, b);
    RecordedAppend(flag, a, b);
    FlagAppend(flag, a, b);
  }

  lemma OneEvent(flag: bool, e: Event)
    ensures Recorded(flag, [e]) == (if flag && e.Visit? then [e] else [])
    ensures Flag(flag, [e]) == FlagAfter(flag, e)
    ensures Entered([e]) == (if e.Enter? then [e.name] else [])
    ensures Exited([e]) == (if e.Exit? then [e.name] else [])
  {
    assert [e][1..] == [];
  }

  lemma LastOfOne(ci: (string, int), di: (string, real), si: (string, string), name: string, value: Value)
    ensures var one := [Visit(name, value)];
            && LastInt(ci, one) == (if value.IntValue? then (name, value.i) else ci)
            && LastDouble(di, one) == (if value.DoubleValue? then (name, value.d) else di)
            && LastString(si, one) == (if value.StringValue? then (name, value.s) else si)
  {
    assert [Visit(name, value)][..0] == [];
  }

  lemma {:induction false} LastAppend(ci: (string, int), di: (string, real), si: (string, string),
                                      a: seq<Event>, b: seq<Event>)
    ensures LastInt(ci, a + b) == LastInt(LastInt(ci, a), b)
    ensures LastDouble(di, a + b) == LastDouble(LastDouble(di, a), b)
    ensures LastString(si, a + b) == LastString(LastString(si, a), b)
  {
    if b == [] {
      assert a + b == a;
    } else {
      assert (a + b)[..|a + b| - 1] == a + b[..|b| - 1];
      LastAppend(ci, di, si, a, b[..|b| - 1]);
    }
  }

  lemma NotedAppend(n: Notes, a: seq<Event>, b: seq<Event>)
    ensures Noted(n, a + b) == Noted(Noted(n, a), b)
  {
    ListsAppend(n.inNested, a, b);
    LastAppend(n.cResult, n.dResult, n.sResult, Recorded(n.inNested, a), Recorded(Flag(n.inNested, a), b));
  }

  // ---- the visitor as the generic traversal sees it ------------------------

  /** This visitor in the form the traversal of Visitable takes: it has both hooks and changes no leaf. */
  function AsVisitor(): Visitor<Notes> {
    Visitor((n, name, value) => (Noted(n, [Visit(name, value)]), value),
            Some((n, name) => Noted(n, [Enter(name)])),
            Some((n, name) => Noted(n, [Exit(name)])))
  }

  lemma {:induction false} TellIsNoted(n: Notes, events: seq<Event>)
    ensures Tell(AsVisitor(), n, events) == Noted(n, events)
    ensures Delivered(AsVisitor(), events) == events
    decreases |events|
  {
    if events == [] {
    } else {
      assert events == [events[0]] + events[1..];
      NotedAppend(n, [events[0]], events[1..]);
      TellIsNoted(Noted(n, [events[0]]), events[1..]);
    }
  }

  /** The generic walk leaves this visitor with the notes of the whole event stream, and never throws. */
  lemma WalkTakesNotes(n: Notes, ps: Properties)
    ensures Accept(AsVisitor(), n, ps).state == Noted(n, Events(ps))
    ensures !Accept(AsVisitor(), n, ps).threw
  {
    WalkIsPrefix(AsVisitor(), n, ps);
    TellIsNoted(n, Events(ps));
  }

  // ---- the name logs -----------------------------------------------------

  /** Names of nested properties, each before what it contains. */
  function PreOrder(ps: Properties): seq<string> {
    match ps
    case End => []
    case Field(Leaf(_, _), tail) => PreOrder(tail)
    case Field(Nested(name, inner), tail) => [name] + PreOrder(inner) + PreOrder(tail)
  }

  /** Names of nested properties, each after what it contains. */
  function PostOrder(ps: Properties): seq<string> {
    match ps
    case End => []
    case Field(Leaf(_, _), tail) => PostOrder(tail)
    case Field(Nested(name, inner), tail) => PostOrder(inner) + [name] + PostOrder(tail)
  }

  function Max(a: nat, b: nat): nat { if a < b then b else a }

  /** How deeply nested properties nest. */
  function Depth(ps: Properties): nat {
    match ps
    case End => 0
    case Field(Leaf(_, _), tail) => Depth(tail)
    case Field(Nested(_, inner), tail) => Max(1 + Depth(inner), Depth(tail))
  }

  lemma FieldEvents(flag: bool, p: Property, tail: Properties)
    ensures var all := Events(Field(p, tail));
            && Entered(all) == Entered(EventsOf(p)) + Entered(Events(tail))
            && Exited(all) == Exited(EventsOf(p)) + Exited(Events(tail))
            && Flag(flag, all) == Flag(Flag(flag, EventsOf(p)), Events(tail))
            && Recorded(flag, all) == Recorded(flag, EventsOf(p)) + Recorded(Flag(flag, EventsOf(p)), Events(tail))
  {
    ListsAppend(flag, EventsOf(p), Events(tail));
  }

  lemma LeafEvent(flag: bool, name: string, value: Value)
    ensures var one := EventsOf(Leaf(name, value));
            && Entered(one) == [] && Exited(one) == [] && Flag(flag, one) == flag
            && Recorded(flag, one) == if flag then [Visit(name, value)] else []
  {
    OneEvent(flag, Visit(name, value));
  }

  lemma NestedEvents(flag: bool, name: string, inner: Properties)
    ensures var all := EventsOf(Nested(name, inner));
            && Entered(all) == [name] + Entered(Events(inner))
            && Exited(all) == Exited(Events(inner)) + [name]
            && !Flag(flag, all)
            && Recorded(flag, all) == Recorded(true, Events(inner))
  {
    OneEvent(flag, Enter(name));
    OneEvent(Flag(true, Events(inner)), Exit(name));
    ListsAppend(flag, [Enter(name)], Events(inner));
    ListsAppend(flag, [Enter(name)] + Events(inner), [Exit(name)]);
  }

  /** Entering is logged in pre-order, leaving in post-order, and the flag ends cleared unless nothing was nested. */
  lemma {:induction false} NameLogs(flag: bool, ps: Properties)
    ensures Entered(Events(ps)) == PreOrder(ps)
    ensures Exited(Events(ps)) == PostOrder(ps)
    ensures Flag(flag, Events(ps)) == (flag && !HasNested(ps))
    decreases ps
  {
    match ps
    case End =>
    case Field(p, tail) =>
      FieldEvents(flag, p, tail);
      match p {
        case Leaf(name, value) =>
          LeafEvent(flag, name, value);
          NameLogs(flag, tail);
        case Nested(name, inner) =>
          NestedEvents(flag, name, inner);
          NameLogs(true, inner);
          NameLogs(false, tail);
      }
  }

  lemma {:induction false} NoNesting(ps: Properties)
    requires Depth(ps) == 0
    ensures PreOrder(ps) == [] && PostOrder(ps) == []
    decreases ps
  {
    if ps.End? {
    } else {
      NoNesting(ps.tail);
    }
  }

  lemma SameNames(name: string, pre: seq<string>, post: seq<string>, pre': seq<string>, post': seq<string>)
    requires multiset(pre) == multiset(post) && multiset(pre') == multiset(post')
    ensures multiset([name] + pre + pre') == multiset(post + [name] + post')
  {
    assert multiset([name] + pre + pre') == multiset{name} + multiset(pre) + multiset(pre');
    assert multiset(post + [name] + post') == multiset(post) + multiset{name} + multiset(post');
  }

  /** The two logs hold the same names equally often, and are equal when nothing nests inside a nested property. */
  lemma {:induction false} LogsArePermutations(ps: Properties)
    ensures multiset(PreOrder(ps)) == multiset(PostOrder(ps))
    ensures Depth(ps) <= 1 ==> PreOrder(ps) == PostOrder(ps)
    decreases ps
  {
    match ps
    case End =>
    case Field(Leaf(_, _), tail) => LogsArePermutations(tail);
    case Field(Nested(name, inner), tail) =>
      LogsArePermutations(inner);
      LogsArePermutations(tail);
      SameNames(name, PreOrder(inner), PostOrder(inner), PreOrder(tail), PostOrder(tail));
      if Depth(ps) <= 1 {
        NoNesting(inner);
        assert [name] + [] == [] + [name];
      }
  }

  predicate Distinct(names: seq<string>) {
    forall i, j :: 0 <= i < j < |names| ==> names[i] != names[j]
  }

  lemma {:induction false} DepthIsNested(ps: Properties)
    ensures Depth(ps) == 0 <==> !HasNested(ps)
    ensures HasNested(ps) <==> PostOrder(ps) != []
    decreases ps
  {
    if ps.End? {
    } else {
      DepthIsNested(ps.tail);
      if ps.head.Nested? {
        DepthIsNested(ps.head.inner);
      }
    }
  }

  /** Names that open with name, and with something that name's distinct successors contain, differ. */
  lemma OpeningsDiffer(name: string, pre: seq<string>, post: seq<string>, a: seq<string>, b: seq<string>)
    requires Distinct([name] + pre + a) && post != [] && multiset(pre) == multiset(post)
    ensures [name] + pre + a != post + [name] + b
  {
    assert post[0] in multiset(pre);
    var k :| 0 <= k < |pre| && pre[k] == post[0];
    assert ([name] + pre + a)[0] == name && ([name] + pre + a)[k + 1] == pre[k];
    assert (post + [name] + b)[0] == post[0];
  }

  lemma SameOpening(name: string, a: seq<string>, b: seq<string>)
    ensures [name] + a == [name] + b <==> a == b
    ensures Distinct([name] + a) ==> Distinct(a)
  {
    assert ([name] + a)[1..] == a && ([name] + b)[1..] == b;
  }

  /** When all nested properties have different names, the logs are equal exactly when nothing nests twice. */
  lemma {:induction false} LogsEqualExactly(ps: Properties)
    requires Distinct(PreOrder(ps))
    ensures PreOrder(ps) == PostOrder(ps) <==> Depth(ps) <= 1
    decreases ps
  {
    match ps
    case End =>
    case Field(Leaf(_, _), tail) => LogsEqualExactly(tail);
    case Field(Nested(name, inner), tail) =>
      DepthIsNested(inner);
      if HasNested(inner) {
        LogsArePermutations(inner);
        OpeningsDiffer(name, PreOrder(inner), PostOrder(inner), PreOrder(tail), PostOrder(tail));
      } else {
        NoNesting(inner);
        assert PreOrder(ps) == [name] + PreOrder(tail) && PostOrder(ps) == [name] + PostOrder(tail);
        SameOpening(name, PreOrder(tail), PostOrder(tail));
        LogsEqualExactly(tail);
      }
  }

  // ---- what the flag records ---------------------------------------------

  /** All leaves, at any depth, as events. */
  function AllLeaves(ps: Properties): seq<Event> {
    match ps
    case End => []
    case Field(Leaf(name, value), tail) => [Visit(name, value)] + AllLeaves(tail)
    case Field(Nested(_, inner), tail) => AllLeaves(inner) + AllLeaves(tail)
  }

  /** The leaves that are inside some nested property. */
  function Inside(ps: Properties): seq<Event> {
    match ps
    case End => []
    case Field(Leaf(_, _), tail) => Inside(tail)
    case Field(Nested(_, inner), tail) => AllLeaves(inner) + Inside(tail)
  }

  predicate NoDirectLeaf(ps: Properties) {
    ps.End? || (ps.head.Nested? && NoDirectLeaf(ps.tail))
  }

  /** At every level, leaves are declared before nested properties. */
  predicate LeavesFirst(ps: Properties) {
    match ps
    case End => true
    case Field(Leaf(_, _), tail) => LeavesFirst(tail)
    case Field(Nested(_, inner), tail) => LeavesFirst(inner) && NoDirectLeaf(tail) && LeavesFirst(tail)
  }

  /** Every nested property at the top has its leaves first, inside and below. */
  predicate NestedLeavesFirst(ps: Properties) {
    match ps
    case End => true
    case Field(Leaf(_, _), tail) => NestedLeavesFirst(tail)
    case Field(Nested(_, inner), tail) => LeavesFirst(inner) && NestedLeavesFirst(tail)
  }

  lemma {:induction false} RecordsAllLeaves(flag: bool, ps: Properties)
    ensures var recorded := Recorded(flag, Events(ps));
            && |recorded| <= |AllLeaves(ps)|
            && (recorded == AllLeaves(ps) <==> LeavesFirst(ps) && (flag || NoDirectLeaf(ps)))
            && (recorded != AllLeaves(ps) ==> |recorded| < |AllLeaves(ps)|)
    decreases ps
  {
    match ps
    case End =>
    case Field(p, tail) =>
      FieldEvents(flag, p, tail);
      match p {
        case Leaf(name, value) =>
          LeafEvent(flag, name, value);
          RecordsAllLeaves(flag, tail);
          assert [Visit(name, value)] + Recorded(flag, Events(tail)) == [Visit(name, value)] + AllLeaves(tail)
              ==> ([Visit(name, value)] + Recorded(flag, Events(tail)))[1..] ==
                  ([Visit(name, value)] + AllLeaves(tail))[1..];
        case Nested(name, inner) =>
          NestedEvents(flag, name, inner);
          RecordsAllLeaves(true, inner);
          RecordsAllLeaves(false, tail);
      }
  }

  /**
    A leaf is meant to be remembered when it is inside a nested object.  The flag
    is cleared on every exit, so a leaf declared after a nested sibling is missed:
    the visitor records exactly the leaves inside nested objects iff, within every
    nested object, leaves are declared before nested ones.
   */
  lemma {:induction false} RecordsInsideExactly(ps: Properties)
    ensures Recorded(false, Events(ps)) == Inside(ps) <==> NestedLeavesFirst(ps)
    ensures |Recorded(false, Events(ps))| <= |Inside(ps)|
    ensures Recorded(false, Events(ps)) != Inside(ps) ==> |Recorded(false, Events(ps))| < |Inside(ps)|
    decreases ps
  {
    match ps
    case End =>
    case Field(p, tail) =>
      FieldEvents(false, p, tail);
      RecordsInsideExactly(tail);
      match p {
        case Leaf(name, value) =>
          LeafEvent(false, name, value);
        case Nested(name, inner) =>
          NestedEvents(false, name, inner);
          RecordsAllLeaves(true, inner);
      }
  }

  /** The smallest miss: a leaf x after an empty nested n, both inside m. */
  lemma LeafAfterNestedIsMissed(x: int)
    ensures var ps := Field(Nested("m", Field(Nested("n", End), Field(Leaf("x", IntValue(x)), End))), End);
            Inside(ps) == [Visit("x", IntValue(x))] && Recorded(false, Events(ps)) == []
  {
    var inner := Field(Nested("n", End), Field(Leaf("x", IntValue(x)), End));
    assert !LeavesFirst(inner);
    RecordsInsideExactly(Field(Nested("m", inner), End));
    assert AllLeaves(inner) == [Visit("x", IntValue(x))];
  }

  // ---- what the visitor holds in the end ---------------------------------

  /** The leaves that count: those inside a nested object, up to its first nested one. */
  function Shown(inside: bool, ps: Properties): seq<Event>
    decreases ps
  {
    match ps
    case End => []
    case Field(Leaf(name, value), tail) => (if inside then [Visit(name, value)] else []) + Shown(inside, tail)
    case Field(Nested(_, inner), tail) => Shown(true, inner) + Shown(false, tail)
  }

  lemma {:induction false} RecordedIsShown(flag: bool, ps: Properties)
    ensures Recorded(flag, Events(ps)) == Shown(flag, ps)
    decreases ps
  {
    match ps
    case End =>
    case Field(p, tail) =>
      FieldEvents(flag, p, tail);
      match p {
        case Leaf(name, value) =>
          LeafEvent(flag, name, value);
          RecordedIsShown(flag, tail);
        case Nested(name, inner) =>
          NestedEvents(flag, name, inner);
          RecordedIsShown(true, inner);
          RecordedIsShown(false, tail);
      }
  }

  datatype Kind = Ints | Doubles | Strings

  /** The leaf is of the kind. */
  predicate Is(e: Event, kind: Kind) {
    e.Visit? &&
    match kind
    case Ints => e.value.IntValue?
    case Doubles => e.value.DoubleValue?
    case Strings => e.value.StringValue?
  }

  predicate LastOfKind(leaves: seq<Event>, kind: Kind, i: int) {
    0 <= i < |leaves| && Is(leaves[i], kind) && forall j :: i < j < |leaves| ==> !Is(leaves[j], kind)
  }

  /** The three results are the last leaves of their kinds, or untouched where there is none. */
  ghost predicate HoldsLast(n: Notes, leaves: seq<Event>) {
    && (forall i :: LastOfKind(leaves, Ints, i) ==> n.cResult == (leaves[i].name, leaves[i].value.i))
    && (forall i :: LastOfKind(leaves, Doubles, i) ==> n.dResult == (leaves[i].name, leaves[i].value.d))
    && (forall i :: LastOfKind(leaves, Strings, i) ==> n.sResult == (leaves[i].name, leaves[i].value.s))
    && ((forall e <- leaves :: !Is(e, Ints)) ==> n.cResult == ("", 0))
    && ((forall e <- leaves :: !Is(e, Doubles)) ==> n.dResult == ("", 0.0))
    && ((forall e <- leaves :: !Is(e, Strings)) ==> n.sResult == ("", ""))
  }

  /** What a blank visitor holds after a walk, read off the instance. */
  ghost predicate Holds(n: Notes, ps: Properties) {
    && n.enterNames == PreOrder(ps) && n.exitNames == PostOrder(ps) && !n.inNested
    && HoldsLast(n, Shown(false, ps))
  }

  /** A last leaf of the kind is the one that counts. */
  lemma OnlyTheLast(leaves: seq<Event>, kind: Kind)
    requires leaves != [] && Is(leaves[|leaves| - 1], kind)
    ensures forall i :: LastOfKind(leaves, kind, i) ==> i == |leaves| - 1
  {
  }

  /** A last leaf of another kind changes nothing. */
  lemma SameLast(leaves: seq<Event>, kind: Kind)
    requires leaves != [] && !Is(leaves[|leaves| - 1], kind)
    ensures forall i :: LastOfKind(leaves, kind, i) ==>
              LastOfKind(leaves[..|leaves| - 1], kind, i) && leaves[..|leaves| - 1][i] == leaves[i]
    ensures (forall e <- leaves :: !Is(e, kind)) ==> forall e <- leaves[..|leaves| - 1] :: !Is(e, kind)
  {
    var front := leaves[..|leaves| - 1];
    assert forall j :: 0 <= j < |front| ==> front[j] == leaves[j];
  }

  lemma {:induction false} LastIntIsLast(before: (string, int), leaves: seq<Event>)
    ensures forall i :: LastOfKind(leaves, Ints, i) ==>
              LastInt(before, leaves) == (leaves[i].name, leaves[i].value.i)
    ensures (forall e <- leaves :: !Is(e, Ints)) ==> LastInt(before, leaves) == before
  {
    if leaves == [] {
    } else if Is(leaves[|leaves| - 1], Ints) {
      assert leaves[|leaves| - 1] in leaves;
      OnlyTheLast(leaves, Ints);
    } else {
      LastIntIsLast(before, leaves[..|leaves| - 1]);
      SameLast(leaves, Ints);
    }
  }

  lemma {:induction false} LastDoubleIsLast(before: (string, real), leaves: seq<Event>)
    ensures forall i :: LastOfKind(leaves, Doubles, i) ==>
              LastDouble(before, leaves) == (leaves[i].name, leaves[i].value.d)
    ensures (forall e <- leaves :: !Is(e, Doubles)) ==> LastDouble(before, leaves) == before
  {
    if leaves == [] {
    } else if Is(leaves[|leaves| - 1], Doubles) {
      assert leaves[|leaves| - 1] in leaves;
      OnlyTheLast(leaves, Doubles);
    } else {
      LastDoubleIsLast(before, leaves[..|leaves| - 1]);
      SameLast(leaves, Doubles);
    }
  }

  lemma {:induction false} LastStringIsLast(before: (string, string), leaves: seq<Event>)
    ensures forall i :: LastOfKind(leaves, Strings, i) ==>
              LastString(before, leaves) == (leaves[i].name, leaves[i].value.s)
    ensures (forall e <- leaves :: !Is(e, Strings)) ==> LastString(before, leaves) == before
  {
    if leaves == [] {
    } else if Is(leaves[|leaves| - 1], Strings) {
      assert leaves[|leaves| - 1] in leaves;
      OnlyTheLast(leaves, Strings);
    } else {
      LastStringIsLast(before, leaves[..|leaves| - 1]);
      SameLast(leaves, Strings);
    }
  }

  lemma BlankHolds(ps: Properties)
    ensures Holds(Noted(BLANK, Events(ps)), ps)
  {
    NameLogs(false, ps);
    RecordedIsShown(false, ps);
    assert [] + PreOrder(ps) == PreOrder(ps) && [] + PostOrder(ps) == PostOrder(ps);
    LastIntIsLast(BLANK.cResult, Shown(false, ps));
    LastDoubleIsLast(BLANK.dResult, Shown(false, ps));
    LastStringIsLast(BLANK.sResult, Shown(false, ps));
  }

  /**
    A blank visitor ends with the names in pre-order and in post-order, the flag
    cleared, and the last leaf of each kind among those that count; and these are all
    the leaves inside nested objects exactly when leaves come first in each of them.
   */
  lemma VisitorHolds(ps: Properties)
    ensures Holds(Accept(AsVisitor(), BLANK, ps).state, ps)
    ensures Shown(false, ps) == Inside(ps) <==> NestedLeavesFirst(ps)
    ensures NestedLeavesFirst(ps) ==> HoldsLast(Accept(AsVisitor(), BLANK, ps).state, Inside(ps))
  {
    WalkTakesNotes(BLANK, ps);
    BlankHolds(ps);
    RecordsInsideExactly(ps);
    RecordedIsShown(false, ps);
  }
}
