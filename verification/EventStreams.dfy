/** The event stream as a faithful encoding of an instance, and the write-back round trip. */
module EventStreams {
  import opened Wrappers
  import opened Visitable

  // ---- decoding ----------------------------------------------------------

  /** A property list read from the front of a stream, and what follows it. */
  datatype Parsed = Parsed(properties: Properties, rest: seq<Event>)

  /** Reads properties up to the end of the stream or to an exit that closes the enclosing one. */
  function Parse(events: seq<Event>): (r: Option<Parsed>)
    ensures r.Some? ==> |r.value.rest| <= |events| && (r.value.rest == [] || r.value.rest[0].Exit?)
    decreases |events|
  {
    if events == [] || events[0].Exit? then Some(Parsed(End, events))
    else
      match events[0]
      case Visit(name, value) =>
        (match Parse(events[1..])
         case None => None
         case Some(after) => Some(Parsed(Field(Leaf(name, value), after.properties), after.rest)))
      case Enter(name) =>
        (match Parse(events[1..])
         case None => None
         case Some(inside) =>
           if inside.rest == [] || inside.rest[0] != Exit(name) then None
           else
             match Parse(inside.rest[1..])
             case None => None
             case Some(after) =>
               Some(Parsed(Field(Nested(name, inside.properties), after.properties), after.rest)))
      case Exit(_) => None
  }

  /** The instance a whole stream describes, if it describes one. */
  function Decode(events: seq<Event>): Option<Properties> {
    match Parse(events)
    case Some(parsed) => if parsed.rest == [] then Some(parsed.properties) else None
    case None => None
  }

  lemma UnfoldLeaf(name: string, value: Value, tail: Properties, rest: seq<Event>)
    ensures var all := Events(Field(Leaf(name, value), tail)) + rest;
            all == [Visit(name, value)] + (Events(tail) + rest) && all[1..] == Events(tail) + rest
  {
    assert Events(Field(Leaf(name, value), tail)) == [Visit(name, value)] + Events(tail);
  }

  lemma UnfoldNested(name: string, inner: Properties, tail: Properties, rest: seq<Event>)
    ensures var all := Events(Field(Nested(name, inner), tail)) + rest;
            var closing := [Exit(name)] + (Events(tail) + rest);
            all == [Enter(name)] + (Events(inner) + closing) && all[1..] == Events(inner) + closing
  {
    assert Events(Field(Nested(name, inner), tail)) == [Enter(name)] + Events(inner) + [Exit(name)] + Events(tail);
  }

  lemma {:induction false} ParseEvents(ps: Properties, rest: seq<Event>)
    requires rest == [] || rest[0].Exit?
    ensures Parse(Events(ps) + rest) == Some(Parsed(ps, rest))
    decreases ps
  {
    match ps
    case End =>
      assert Events(ps) + rest == rest;
    case Field(Leaf(name, value), tail) =>
      UnfoldLeaf(name, value, tail, rest);
      ParseEvents(tail, rest);
    case Field(Nested(name, inner), tail) =>
      var closing := [Exit(name)] + (Events(tail) + rest);
      UnfoldNested(name, inner, tail, rest);
      ParseEvents(inner, closing);
      assert closing[1..] == Events(tail) + rest;
      ParseEvents(tail, rest);
  }

  /** A parse accounts for every event it has consumed. */
  ghost predicate Accounts(parsed: Parsed, events: seq<Event>) {
    Events(parsed.properties) + parsed.rest == events
  }

  lemma AccountsLeaf(name: string, value: Value, after: Parsed, events: seq<Event>)
    requires events != [] && events[0] == Visit(name, value) && Accounts(after, events[1..])
    ensures Accounts(Parsed(Field(Leaf(name, value), after.properties), after.rest), events)
  {
    UnfoldLeaf(name, value, after.properties, after.rest);
    assert events == [events[0]] + events[1..];
  }

  lemma AccountsNested(name: string, inside: Parsed, after: Parsed, events: seq<Event>)
    requires events != [] && events[0] == Enter(name) && Accounts(inside, events[1..])
    requires inside.rest != [] && inside.rest[0] == Exit(name) && Accounts(after, inside.rest[1..])
    ensures Accounts(Parsed(Field(Nested(name, inside.properties), after.properties), after.rest), events)
  {
    UnfoldNested(name, inside.properties, after.properties, after.rest);
    assert inside.rest == [inside.rest[0]] + inside.rest[1..];
    assert events == [events[0]] + events[1..];
  }

  lemma {:induction false} ParseIsSound(events: seq<Event>)
    requires Parse(events).Some?
    ensures Accounts(Parse(events).value, events)
    decreases |events|
  {
    if events == [] || events[0].Exit? {
      assert Events(End) + events == events;
    } else {
      ParseIsSound(events[1..]);
      var first := Parse(events[1..]).value;
      match events[0]
      case Visit(name, value) => AccountsLeaf(name, value, first, events);
      case Enter(name) =>
        ParseIsSound(first.rest[1..]);
        AccountsNested(name, first, Parse(first.rest[1..]).value, events);
    }
  }

  /** The stream of an instance decodes to that instance. */
  lemma DecodeInvertsEvents(ps: Properties)
    ensures Decode(Events(ps)) == Some(ps)
  {
    ParseEvents(ps, []);
    assert Events(ps) + [] == Events(ps);
  }

  /** A stream that decodes is the stream of what it decodes to. */
  lemma EventsInvertsDecode(events: seq<Event>)
    requires Decode(events).Some?
    ensures Events(Decode(events).value) == events
  {
    ParseIsSound(events);
    var parsed := Parse(events).value;
    assert Events(parsed.properties) + [] == Events(parsed.properties);
  }

  /** So no two instances have the same stream. */
  lemma EventsIsInjective(ps: Properties, qs: Properties)
    requires Events(ps) == Events(qs)
    ensures ps == qs
  {
    DecodeInvertsEvents(ps);
    DecodeInvertsEvents(qs);
  }

  // ---- bracketing --------------------------------------------------------

  /** A left-to-right check with a stack of open names; it knows nothing of instances. */
  predicate Balanced(events: seq<Event>, open: seq<string>) {
    if events == [] then open == []
    else
      match events[0]
      case Visit(_, _) => Balanced(events[1..], open)
      case Enter(name) => Balanced(events[1..], [name] + open)
      case Exit(name) => open != [] && open[0] == name && Balanced(events[1..], open[1..])
  }

  lemma {:induction false} BalancedAcross(ps: Properties, rest: seq<Event>, open: seq<string>)
    ensures Balanced(Events(ps) + rest, open) == Balanced(rest, open)
    decreases ps
  {
    match ps
    case End =>
      assert Events(ps) + rest == rest;
    case Field(Leaf(name, value), tail) =>
      UnfoldLeaf(name, value, tail, rest);
      BalancedAcross(tail, rest, open);
    case Field(Nested(name, inner), tail) =>
      var closing := [Exit(name)] + (Events(tail) + rest);
      UnfoldNested(name, inner, tail, rest);
      BalancedAcross(inner, closing, [name] + open);
      assert closing[1..] == Events(tail) + rest;
      assert ([name] + open)[1..] == open;
      BalancedAcross(tail, rest, open);
  }

  /** A balanced stream always parses, and what remains is balanced against what is open. */
  lemma {:induction false} BalancedParses(events: seq<Event>, open: seq<string>)
    requires Balanced(events, open)
    ensures Parse(events).Some?
    ensures Balanced(Parse(events).value.rest, open)
    ensures Parse(events).value.rest == [] <==> open == []
    decreases |events|
  {
    if events == [] || events[0].Exit? {
    } else {
      match events[0]
      case Visit(_, _) => BalancedParses(events[1..], open);
      case Enter(name) =>
        BalancedParses(events[1..], [name] + open);
        var rest := Parse(events[1..]).value.rest;
        assert ([name] + open)[1..] == open;
        BalancedParses(rest[1..], open);
    }
  }

  /** Exactly the well-bracketed streams come from instances, each from one. */
  lemma DecodesExactlyBalanced(events: seq<Event>)
    ensures Decode(events).Some? <==> Balanced(events, [])
  {
    if Balanced(events, []) {
      BalancedParses(events, []);
    }
    if Decode(events).Some? {
      EventsInvertsDecode(events);
      BalancedAcross(Decode(events).value, [], []);
      assert events + [] == events;
    }
  }

  /** The leaves in a stream. */
  function Visited(events: seq<Event>): seq<Value> {
    if events == [] then []
    else (if events[0].Visit? then [events[0].value] else []) + Visited(events[1..])
  }

  lemma {:induction false} VisitedAppend(a: seq<Event>, b: seq<Event>)
    ensures Visited(a + b) == Visited(a) + Visited(b)
  {
    if a == [] {
      assert a + b == b;
    } else {
      var head := if a[0].Visit? then [a[0].value] else [];
      VisitedAppend(a[1..], b);
      assert (a + b)[0] == a[0] && (a + b)[1..] == a[1..] + b;
      assert Visited(a + b) == head + Visited(a[1..] + b) && Visited(a) == head + Visited(a[1..]);
    }
  }

  /** Each leaf is visited once, in declaration order. */
  lemma {:induction false} VisitsEachLeafOnce(ps: Properties)
    ensures Visited(Events(ps)) == Leaves(ps)
    decreases ps
  {
    match ps
    case End =>
    case Field(p, tail) =>
      VisitsEachLeafOnce(tail);
      VisitedAppend(EventsOf(p), Events(tail));
      match p {
        case Leaf(name, value) =>
          assert [Visit(name, value)][1..] == [];
        case Nested(name, inner) =>
          VisitsEachLeafOnce(inner);
          VisitedAppend([Enter(name)] + Events(inner), [Exit(name)]);
          VisitedAppend([Enter(name)], Events(inner));
          assert [Enter(name)][1..] == [] && [Exit(name)][1..] == [];
          assert Visited([Exit(name)]) == [] && Visited([Enter(name)]) == [];
      }
  }

  // ---- writing back ------------------------------------------------------

  /** Remembers every leaf it is shown and changes none. */
  function Recorder(): Visitor<seq<Value>> {
    Visitor((s: seq<Value>, _, value) => (s + [value], value),
            Some((s: seq<Value>, _) => s),
            Some((s: seq<Value>, _) => s))
  }

  /** Writes remembered values into the leaves it is shown, and leaves them alone when it has run out. */
  function Replayer(): Visitor<seq<Value>> {
    Visitor((s: seq<Value>, _, value) => if s == [] then (s, value) else (s[1..], s[0]),
            Some((s: seq<Value>, _) => s),
            Some((s: seq<Value>, _) => s))
  }

  lemma RecorderTold(s: seq<Value>, e: Event)
    ensures Told(Recorder(), s, e) == s + if e.Visit? then [e.value] else []
  {
    assert s + [] == s;
  }

  lemma {:induction false} Recording(s: seq<Value>, events: seq<Event>)
    ensures Tell(Recorder(), s, events) == s + Visited(events)
    ensures Writes(Recorder(), s, events) == Visited(events)
    decreases |events|
  {
    if events == [] {
      assert Visited(events) == [] && s + [] == s;
    } else {
      var seen := if events[0].Visit? then [events[0].value] else [];
      RecorderTold(s, events[0]);
      Recording(s + seen, events[1..]);
      assert Visited(events) == seen + Visited(events[1..]);
      assert s + (seen + Visited(events[1..])) == s + seen + Visited(events[1..]);
    }
  }

  lemma {:induction false} Replaying(s: seq<Value>, events: seq<Event>)
    requires |Visited(events)| <= |s|
    ensures Tell(Replayer(), s, events) == s[|Visited(events)|..]
    ensures Writes(Replayer(), s, events) == s[..|Visited(events)|]
    decreases |events|
  {
    if events == [] {
    } else {
      Replaying(Told(Replayer(), s, events[0]), events[1..]);
    }
  }

  lemma {:induction false} AllDelivered<S>(v: Visitor<S>, events: seq<Event>)
    requires v.enter.Some? && v.exit.Some?
    ensures Delivered(v, events) == events
  {
    if events == [] {
    } else {
      AllDelivered(v, events[1..]);
    }
  }

  /** Recording reads every leaf and changes nothing. */
  lemma RecordWalk(ps: Properties)
    ensures Accept(Recorder(), [], ps) == Walk(Leaves(ps), ps, false)
  {
    var w := Accept(Recorder(), [], ps);
    WalkIsPrefix(Recorder(), [], ps);
    AllDelivered(Recorder(), Events(ps));
    Recording([], Events(ps));
    VisitsEachLeafOnce(ps);
    WalkKeepsShape(Recorder(), [], ps);
    assert Overwritten(Leaves(ps), Leaves(ps)) == Leaves(ps) == [] + Leaves(ps);
    ShapeAndLeavesDetermine(ps, w.properties);
  }

  lemma {:induction false} SameShapeTransitive(ps: Properties, qs: Properties, rs: Properties)
    requires SameShape(ps, qs) && SameShape(qs, rs)
    ensures SameShape(ps, rs)
    decreases ps
  {
    if ps.End? {
    } else {
      SameShapeTransitive(ps.tail, qs.tail, rs.tail);
      if ps.head.Nested? {
        SameShapeTransitive(ps.head.inner, qs.head.inner, rs.head.inner);
      }
    }
  }

  /**
    Write-back round trip: the leaves recorded from one instance, replayed into
    any instance of the same shape, make the second equal to the first, and the
    replay uses up exactly the recorded values, whatever follows them.
   */
  lemma WriteBackRoundTrip(from: Properties, into: Properties, extra: seq<Value>)
    requires SameShape(from, into)
    ensures Accept(Replayer(), Accept(Recorder(), [], from).state + extra, into) == Walk(extra, from, false)
  {
    RecordWalk(from);
    var recorded := Leaves(from) + extra;
    var w := Accept(Replayer(), recorded, into);
    WalkIsPrefix(Replayer(), recorded, into);
    AllDelivered(Replayer(), Events(into));
    ShapeAndLeavesDetermine(from, into);
    VisitsEachLeafOnce(into);
    Replaying(recorded, Events(into));
    WalkKeepsShape(Replayer(), recorded, into);
    SameShapeTransitive(from, into, w.properties);
    ShapeAndLeavesDetermine(from, w.properties);
  }
}
