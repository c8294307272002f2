/**
  The visitable traversal: an instance is a finite list of named properties, each
  a leaf value or a nested instance.  Accept walks it with a visitor, which has
  state, may write to every leaf it is shown, and may lack the hooks for entering
  or leaving nested instances; reaching a missing hook throws.
 */
module Visitable {
  import opened Wrappers

  datatype Value = IntValue(i: int) | DoubleValue(d: real) | StringValue(s: string)

  datatype Property = Leaf(name: string, value: Value) | Nested(name: string, inner: Properties)

  /** The property list of one instance, in declaration order. */
  datatype Properties = End | Field(head: Property, tail: Properties)

  /** The calls a visitor receives. */
  datatype Event = Visit(name: string, value: Value) | Enter(name: string) | Exit(name: string)

  /** A visitor.  A leaf is passed by reference: visit returns the new state and what it leaves in the leaf. */
  datatype Visitor<!S> = Visitor(
    visit: (S, string, Value) -> (S, Value),
    enter: Option<(S, string) -> S>,
    exit: Option<(S, string) -> S>)

  /** How a walk ends: the visitor's state, the instance as the walk left it, and whether it threw. */
  datatype Walk<S> = Walk(state: S, properties: Properties, threw: bool)

  datatype Hook<S> = Ran(state: S) | Missing

  function VisitNestedBase<S>(v: Visitor<S>, s: S, name: string): Hook<S> {
    match v.enter case Some(enter) => Ran(enter(s, name)) case None => Missing
  }

  function ExitNestedBase<S>(v: Visitor<S>, s: S, name: string): Hook<S> {
    match v.exit case Some(exit) => Ran(exit(s, name)) case None => Missing
  }

  function VisitProperty<S>(v: Visitor<S>, s: S, p: Property): (S, Property, bool)
    decreases p, 0
  {
    match p
    case Leaf(name, value) =>
      var (s1, written) := v.visit(s, name, value);
      (s1, Leaf(name, written), false)
    case Nested(name, inner) =>
      match VisitNestedBase(v, s, name)
      case Missing => (s, p, true)
      case Ran(s1) =>
        var walk := Accept(v, s1, inner);
        if walk.threw then (walk.state, Nested(name, walk.properties), true)
        else
          match ExitNestedBase(v, walk.state, name)
          case Missing => (walk.state, Nested(name, walk.properties), true)
          case Ran(s2) => (s2, Nested(name, walk.properties), false)
  }

  function Accept<S>(v: Visitor<S>, s: S, ps: Properties): Walk<S>
    decreases ps, 1
  {
    match ps
    case End => Walk(s, End, false)
    case Field(p, tail) =>
      var (s1, p1, threw) := VisitProperty(v, s, p);
      if threw then Walk(s1, Field(p1, tail), true)
      else
        var walk := Accept(v, s1, tail);
        Walk(walk.state, Field(p1, walk.properties), walk.threw)
  }

  // ---- the event stream --------------------------------------------------

  function EventsOf(p: Property): seq<Event>
    decreases p, 0
  {
    match p
    case Leaf(name, value) => [Visit(name, value)]
    case Nested(name, inner) => [Enter(name)] + Events(inner) + [Exit(name)]
  }

  /** Everything a visitor with both hooks is told about an instance. */
  function Events(ps: Properties): seq<Event>
    decreases ps, 1
  {
    match ps
    case End => []
    case Field(p, tail) => EventsOf(p) + Events(tail)
  }

  function Handles<S>(v: Visitor<S>, e: Event): bool {
    match e
    case Visit(_, _) => true
    case Enter(_) => v.enter.Some?
    case Exit(_) => v.exit.Some?
  }

  /** The events before the first one whose hook is missing. */
  function Delivered<S>(v: Visitor<S>, events: seq<Event>): (r: seq<Event>)
    ensures r <= events
    ensures forall e <- r :: Handles(v, e)
    ensures |r| < |events| ==> !Handles(v, events[|r|])
  {
    if events == [] || !Handles(v, events[0]) then [] else [events[0]] + Delivered(v, events[1..])
  }

  /** One event's effect on the visitor's state. */
  function Told<S>(v: Visitor<S>, s: S, e: Event): S {
    match e
    case Visit(name, value) => v.visit(s, name, value).0
    case Enter(name) => if v.enter.Some? then v.enter.value(s, name) else s
    case Exit(name) => if v.exit.Some? then v.exit.value(s, name) else s
  }

  /** A visitor that is simply told a list of events, in order. */
  function Tell<S>(v: Visitor<S>, s: S, events: seq<Event>): S {
    if events == [] then s else Tell(v, Told(v, s, events[0]), events[1..])
  }

  /** What the visitor leaves in the leaves it is told about. */
  function Writes<S>(v: Visitor<S>, s: S, events: seq<Event>): seq<Value> {
    if events == [] then []
    else
      (if events[0].Visit? then [v.visit(s, events[0].name, events[0].value).1] else [])
      + Writes(v, Told(v, s, events[0]), events[1..])
  }

  // ---- leaves and shape --------------------------------------------------

  function LeavesOf(p: Property): seq<Value>
    decreases p, 0
  {
    match p
    case Leaf(_, value) => [value]
    case Nested(_, inner) => Leaves(inner)
  }

  /** The leaf values, in declaration order. */
  function Leaves(ps: Properties): seq<Value>
    decreases ps, 1
  {
    match ps
    case End => []
    case Field(p, tail) => LeavesOf(p) + Leaves(tail)
  }

  predicate SameShapeOf(p: Property, q: Property)
    decreases p, 0
  {
    match (p, q)
    case (Leaf(n, _), Leaf(m, _)) => n == m
    case (Nested(n, inner), Nested(m, inner')) => n == m && SameShape(inner, inner')
    case _ => false
  }

  /** The two instances differ at most in the values of their leaves. */
  predicate SameShape(ps: Properties, qs: Properties)
    decreases ps, 1
  {
    match (ps, qs)
    case (End, End) => true
    case (Field(p, tail), Field(q, tail')) => SameShapeOf(p, q) && SameShape(tail, tail')
    case _ => false
  }

  lemma {:induction false} ShapeIsReflexive(ps: Properties)
    ensures SameShape(ps, ps)
    decreases ps
  {
    match ps
    case End =>
    case Field(p, tail) =>
      ShapeIsReflexive(tail);
      if p.Nested? {
        ShapeIsReflexive(p.inner);
      }
  }

  /** Shape and leaves together determine an instance. */
  lemma {:induction false} ShapeAndLeavesDetermine(ps: Properties, qs: Properties)
    requires SameShape(ps, qs)
    ensures |Leaves(ps)| == |Leaves(qs)|
    ensures Leaves(ps) == Leaves(qs) ==> ps == qs
    decreases ps
  {
    match (ps, qs)
    case (End, End) =>
    case (Field(p, tail), Field(q, tail')) =>
      ShapeAndLeavesDetermine(tail, tail');
      if p.Nested? {
        ShapeAndLeavesDetermine(p.inner, q.inner);
      }
      if Leaves(ps) == Leaves(qs) {
        var n := |LeavesOf(p)|;
        assert Leaves(ps)[..n] == LeavesOf(p) && Leaves(qs)[..n] == LeavesOf(q);
        assert Leaves(ps)[n..] == Leaves(tail) && Leaves(qs)[n..] == Leaves(tail');
      }
  }

  // ---- lists of events ---------------------------------------------------

  lemma {:induction false} TellAppend<S>(v: Visitor<S>, s: S, a: seq<Event>, b: seq<Event>)
    ensures Tell(v, s, a + b) == Tell(v, Tell(v, s, a), b)
    ensures Writes(v, s, a + b) == Writes(v, s, a) + Writes(v, Tell(v, s, a), b)
  {
    if a == [] {
      assert a + b == b;
    } else {
      assert (a + b)[1..] == a[1..] + b;
      TellAppend(v, Told(v, s, a[0]), a[1..], b);
    }
  }

  lemma {:induction false} DeliveredAppend<S>(v: Visitor<S>, a: seq<Event>, b: seq<Event>)
    ensures Delivered(v, a + b) == if Delivered(v, a) == a then a + Delivered(v, b) else Delivered(v, a)
  {
    if a == [] {
      assert a + b == b;
    } else {
      assert (a + b)[1..] == a[1..] + b;
      DeliveredAppend(v, a[1..], b);
      assert a == [a[0]] + a[1..];
    }
  }

  /** The first leaves replaced by what was written, the others untouched. */
  function Overwritten(old': seq<Value>, written: seq<Value>): seq<Value>
    requires |written| <= |old'|
  {
    written + old'[|written|..]
  }

  // ---- the walk is the event stream --------------------------------------

  /** What a walk over a part of an instance is expected to have done. */
  ghost predicate WalkIs<S>(v: Visitor<S>, s: S, events: seq<Event>, leaves: seq<Value>,
                            state: S, leaves': seq<Value>, threw: bool)
  {
    var told := Delivered(v, events);
    var written := Writes(v, s, told);
    && state == Tell(v, s, told)
    && (threw <==> told != events)
    && |written| <= |leaves|
    && (!threw ==> |written| == |leaves|)
    && leaves' == Overwritten(leaves, written)
  }

  /** A walk that did not throw was told everything and wrote every leaf. */
  lemma WalkWhole<S>(v: Visitor<S>, s: S, events: seq<Event>, leaves: seq<Value>, state: S, leaves': seq<Value>)
    requires WalkIs(v, s, events, leaves, state, leaves', false)
    ensures Delivered(v, events) == events && state == Tell(v, s, events)
    ensures leaves' == Writes(v, s, events) && |leaves'| == |leaves|
  {
  }

  lemma PrefixAppend(a: seq<Event>, b: seq<Event>, c: seq<Event>)
    ensures a + b == a + c <==> b == c
  {
    assert (a + b)[|a|..] == b && (a + c)[|a|..] == c;
  }

  lemma OverwriteCompose(la: seq<Value>, la': seq<Value>, lb: seq<Value>, written: seq<Value>)
    requires |la'| == |la| && |written| <= |lb|
    ensures Overwritten(la, la') == la'
    ensures Overwritten(la + lb, la' + written) == la' + Overwritten(lb, written)
  {
  }

  lemma WalkCompose<S>(v: Visitor<S>, s: S, ea: seq<Event>, la: seq<Value>, sa: S, la': seq<Value>,
                       eb: seq<Event>, lb: seq<Value>, sb: S, lb': seq<Value>, threw: bool)
    requires WalkIs(v, s, ea, la, sa, la', false)
    requires WalkIs(v, sa, eb, lb, sb, lb', threw)
    ensures WalkIs(v, s, ea + eb, la + lb, sb, la' + lb', threw)
  {
    WalkWhole(v, s, ea, la, sa, la');
    var told := Delivered(v, eb);
    DeliveredAppend(v, ea, eb);
    TellAppend(v, s, ea, told);
    assert Delivered(v, ea + eb) == ea + told;
    assert Writes(v, s, ea + told) == la' + Writes(v, sa, told);
    PrefixAppend(ea, told, eb);
    OverwriteCompose(la, la', lb, Writes(v, sa, told));
  }

  lemma OverwriteRest(la: seq<Value>, lb: seq<Value>, written: seq<Value>)
    requires |written| <= |la|
    ensures Overwritten(la + lb, written) == Overwritten(la, written) + lb
  {
    assert (la + lb)[|written|..] == la[|written|..] + lb;
  }

  lemma WalkStops<S>(v: Visitor<S>, s: S, ea: seq<Event>, la: seq<Value>, sa: S, la': seq<Value>,
                     eb: seq<Event>, lb: seq<Value>)
    requires WalkIs(v, s, ea, la, sa, la', true)
    ensures WalkIs(v, s, ea + eb, la + lb, sa, la' + lb, true)
  {
    DeliveredAppend(v, ea, eb);
    assert |Delivered(v, ea)| < |ea|;
    OverwriteRest(la, lb, Writes(v, s, Delivered(v, ea)));
  }

  lemma HookStep<S>(v: Visitor<S>, s: S, e: Event)
    requires !e.Visit?
    ensures WalkIs(v, s, [e], [], if Handles(v, e) then Told(v, s, e) else s, [], !Handles(v, e))
  {
    assert [e][1..] == [];
  }

  /** The part of a nested property that comes after its enter event. */
  lemma InnerThenExit<S>(v: Visitor<S>, s: S, name: string, inner: Properties)
    requires var w := Accept(v, s, inner);
             WalkIs(v, s, Events(inner), Leaves(inner), w.state, Leaves(w.properties), w.threw)
    ensures var w := Accept(v, s, inner);
            var hook := ExitNestedBase(v, w.state, name);
            WalkIs(v, s, Events(inner) + [Exit(name)], Leaves(inner),
                   if !w.threw && hook.Ran? then hook.state else w.state,
                   Leaves(w.properties), w.threw || hook.Missing?)
  {
    var exit, w := Exit(name), Accept(v, s, inner);
    assert Leaves(inner) + [] == Leaves(inner) && Leaves(w.properties) + [] == Leaves(w.properties);
    if w.threw {
      WalkStops(v, s, Events(inner), Leaves(inner), w.state, Leaves(w.properties), [exit], []);
    } else {
      HookStep(v, w.state, exit);
      var s2 := if Handles(v, exit) then Told(v, w.state, exit) else w.state;
      WalkCompose(v, s, Events(inner), Leaves(inner), w.state, Leaves(w.properties),
                  [exit], [], s2, [], !Handles(v, exit));
    }
  }

  /** A nested property, given that its inner walk is as expected. */
  lemma NestedWalk<S>(v: Visitor<S>, s: S, name: string, inner: Properties)
    requires v.enter.Some? ==>
               var s1 := v.enter.value(s, name);
               var w := Accept(v, s1, inner);
               WalkIs(v, s1, Events(inner), Leaves(inner), w.state, Leaves(w.properties), w.threw)
    ensures var (s', p', threw) := VisitProperty(v, s, Nested(name, inner));
            WalkIs(v, s, EventsOf(Nested(name, inner)), Leaves(inner), s', LeavesOf(p'), threw)
  {
    var enter, rest := Enter(name), Events(inner) + [Exit(name)];
    var (s', p', threw) := VisitProperty(v, s, Nested(name, inner));
    HookStep(v, s, enter);
    assert EventsOf(Nested(name, inner)) == [enter] + rest;
    assert [] + Leaves(inner) == Leaves(inner) && [] + LeavesOf(p') == LeavesOf(p');
    if v.enter.None? {
      WalkStops(v, s, [enter], [], s, [], rest, Leaves(inner));
    } else {
      var s1 := v.enter.value(s, name);
      InnerThenExit(v, s1, name, inner);
      WalkCompose(v, s, [enter], [], s1, [], rest, Leaves(inner), s', LeavesOf(p'), threw);
    }
  }

  lemma LeafWalk<S>(v: Visitor<S>, s: S, name: string, value: Value)
    ensures var (s', p', threw) := VisitProperty(v, s, Leaf(name, value));
            WalkIs(v, s, EventsOf(Leaf(name, value)), [value], s', LeavesOf(p'), threw)
  {
    assert [Visit(name, value)][1..] == [];
  }

  /**
    Missing-hook prefix, for every visitor and instance.  The visitor is told
    exactly the events before the first one whose hook it lacks; the walk throws
    iff there is one; and what it wrote to the leaves it was shown stays written,
    the remaining leaves being untouched.
   */
  lemma {:induction false} WalkIsPrefix<S>(v: Visitor<S>, s: S, ps: Properties)
    ensures var w := Accept(v, s, ps);
            WalkIs(v, s, Events(ps), Leaves(ps), w.state, Leaves(w.properties), w.threw)
    decreases ps
  {
    match ps
    case End =>
    case Field(p, tail) =>
      match p {
        case Leaf(name, value) => LeafWalk(v, s, name, value);
        case Nested(name, inner) =>
          if v.enter.Some? {
            WalkIsPrefix(v, v.enter.value(s, name), inner);
          }
          NestedWalk(v, s, name, inner);
      }
      var (s1, p1, threw) := VisitProperty(v, s, p);
      if threw {
        WalkStops(v, s, EventsOf(p), LeavesOf(p), s1, LeavesOf(p1), Events(tail), Leaves(tail));
      } else {
        WalkIsPrefix(v, s1, tail);
        var w := Accept(v, s1, tail);
        WalkCompose(v, s, EventsOf(p), LeavesOf(p), s1, LeavesOf(p1),
                    Events(tail), Leaves(tail), w.state, Leaves(w.properties), w.threw);
      }
  }

  /** No walk changes anything but leaf values, whether or not it throws. */
  lemma {:induction false} WalkKeepsShape<S>(v: Visitor<S>, s: S, ps: Properties)
    ensures SameShape(ps, Accept(v, s, ps).properties)
    decreases ps
  {
    match ps
    case End =>
    case Field(p, tail) =>
      var (s1, p1, threw) := VisitProperty(v, s, p);
      ShapeIsReflexive(tail);
      WalkKeepsShape(v, s1, tail);
      match p {
        case Leaf(_, _) =>
        case Nested(name, inner) =>
          ShapeIsReflexive(inner);
          if v.enter.Some? {
            WalkKeepsShape(v, v.enter.value(s, name), inner);
          }
      }
  }

  predicate HasNested(ps: Properties) {
    ps.Field? && (ps.head.Nested? || HasNested(ps.tail))
  }

  /** A walk throws iff the instance has a nested property and the visitor lacks a hook. */
  lemma {:induction false} ThrowsExactly<S>(v: Visitor<S>, s: S, ps: Properties)
    ensures Accept(v, s, ps).threw <==> HasNested(ps) && (v.enter.None? || v.exit.None?)
    decreases ps
  {
    match ps
    case End =>
    case Field(p, tail) =>
      var (s1, _, threw) := VisitProperty(v, s, p);
      ThrowsExactly(v, s1, tail);
      if p.Nested? && v.enter.Some? {
        ThrowsExactly(v, v.enter.value(s, p.name), p.inner);
      }
  }
}
