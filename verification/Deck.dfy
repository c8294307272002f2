/** The deck of cards.  The last card is the top. */
module Decks {

  type Card = nat

  predicate Ascending(cards: seq<Card>) {
    forall i, j :: 0 <= i < j < |cards| ==> cards[i] <= cards[j]
  }

  /** The deck without its top card, and the top card. */
  lemma TopSplit(cards: seq<Card>)
    requires cards != []
    ensures multiset(cards) == multiset(cards[..|cards| - 1]) + multiset{cards[|cards| - 1]}
  {
    assert cards == cards[..|cards| - 1] + [cards[|cards| - 1]];
  }

  lemma TopIsLargest(cards: seq<Card>, x: Card)
    requires Ascending(cards) && x in cards
    ensures cards != [] && x <= cards[|cards| - 1]
  {
  }

  function Insert(c: Card, cards: seq<Card>): seq<Card> {
    if cards == [] || cards[|cards| - 1] <= c then cards + [c]
    else Insert(c, cards[..|cards| - 1]) + [cards[|cards| - 1]]
  }

  lemma {:induction false} InsertKeeps(c: Card, cards: seq<Card>)
    ensures multiset(Insert(c, cards)) == multiset(cards) + multiset{c}
  {
    if cards == [] || cards[|cards| - 1] <= c {
    } else {
      InsertKeeps(c, cards[..|cards| - 1]);
      TopSplit(cards);
    }
  }

  lemma {:induction false} InsertAscends(c: Card, cards: seq<Card>)
    requires Ascending(cards)
    ensures Ascending(Insert(c, cards))
  {
    if cards == [] {
    } else if cards[|cards| - 1] <= c {
      assert forall i :: 0 <= i < |cards| ==> cards[i] <= cards[|cards| - 1];
    } else {
      var front, top := cards[..|cards| - 1], cards[|cards| - 1];
      var inserted := Insert(c, front);
      InsertAscends(c, front);
      forall i | 0 <= i < |inserted|
        ensures inserted[i] <= top
      {
        InsertKeeps(c, front);
        assert inserted[i] in multiset(inserted);
        if inserted[i] != c {
          assert inserted[i] in front;
          TopIsLargest(cards, inserted[i]);
        }
      }
    }
  }

  /** What std::sort leaves behind. */
  function Sorted(cards: seq<Card>): (r: seq<Card>)
    ensures Ascending(r) && multiset(r) == multiset(cards)
  {
    if cards == [] then []
    else
      TopSplit(cards);
      var rest := Sorted(cards[..|cards| - 1]);
      InsertAscends(cards[|cards| - 1], rest);
      InsertKeeps(cards[|cards| - 1], rest);
      Insert(cards[|cards| - 1], rest)
  }

  /** The cards 1 to n. */
  function UpTo(n: nat): seq<Card> {
    seq(n, i => i + 1)
  }

  /** The cards n down to 1. */
  function DownFrom(n: nat): seq<Card> {
    seq(n, i requires 0 <= i < n => n - i)
  }

  class Deck {
    var cards: seq<Card>

    constructor (cards: seq<Card>)
      ensures this.cards == cards
    {
      this.cards := cards;
    }

    /** A shuffled deck of the cards 1 to n; order is what the shuffle makes of them. */
    static method Build(n: nat, order: seq<Card>) returns (deck: Deck)
      requires multiset(order) == multiset(UpTo(n))
      ensures fresh(deck) && deck.cards == order
    {
      deck := new Deck([]);
      var i := 1;
      while i <= n
        invariant 1 <= i <= n + 1
        invariant fresh(deck) && deck.cards == UpTo(i - 1)
      {
        deck.AddCard(i);
        i := i + 1;
      }
      deck.Shuffle(order);
    }

    method AddCard(card: Card)
      modifies this
      ensures cards == old(cards) + [card]
    {
      cards := cards + [card];
    }

    method PickCard() returns (card: Card)
      requires cards != []
      modifies this
      ensures old(cards) == cards + [card]
    {
      card := cards[|cards| - 1];
      cards := cards[..|cards| - 1];
    }

    /** The random engine may produce any rearrangement. */
    method Shuffle(order: seq<Card>)
      requires multiset(order) == multiset(cards)
      modifies this
      ensures cards == order
    {
      cards := order;
    }

    method Sort()
      modifies this
      ensures cards == Sorted(old(cards))
    {
      cards := Sorted(cards);
    }
  }

  // ---- sequences of operations -------------------------------------------

  datatype Op = Add(card: Card) | Shuffle(order: seq<Card>) | Sort | Pick

  /** A deck and the cards drawn from it, in order. */
  datatype Game = Game(cards: seq<Card>, drawn: seq<Card>)

  predicate Allowed(g: Game, op: Op) {
    match op
    case Shuffle(order) => multiset(order) == multiset(g.cards)
    case Pick => g.cards != []
    case _ => true
  }

  function Play(g: Game, op: Op): Game
    requires Allowed(g, op)
  {
    match op
    case Add(card) => g.(cards := g.cards + [card])
    case Shuffle(order) => g.(cards := order)
    case Sort => g.(cards := Sorted(g.cards))
    case Pick => Game(g.cards[..|g.cards| - 1], g.drawn + [g.cards[|g.cards| - 1]])
  }

  predicate IsGame(g: Game, ops: seq<Op>)
    decreases |ops|, 0
  {
    ops == [] || (IsGame(g, ops[..|ops| - 1]) && Allowed(After(g, ops[..|ops| - 1]), ops[|ops| - 1]))
  }

  function After(g: Game, ops: seq<Op>): Game
    requires IsGame(g, ops)
    decreases |ops|, 1
  {
    if ops == [] then g else Play(After(g, ops[..|ops| - 1]), ops[|ops| - 1])
  }

  function Added(ops: seq<Op>): multiset<Card> {
    if ops == [] then multiset{}
    else Added(ops[..|ops| - 1]) + if ops[|ops| - 1].Add? then multiset{ops[|ops| - 1].card} else multiset{}
  }

  lemma PlayConserves(g: Game, op: Op)
    requires Allowed(g, op)
    ensures multiset(Play(g, op).drawn) + multiset(Play(g, op).cards) ==
            multiset(g.drawn) + multiset(g.cards) + if op.Add? then multiset{op.card} else multiset{}
  {
    if op.Pick? {
      TopSplit(g.cards);
    }
  }

  /** No operation makes or loses a card. */
  lemma {:induction false} Conservation(n: nat, order: seq<Card>, ops: seq<Op>)
    requires multiset(order) == multiset(UpTo(n)) && IsGame(Game(order, []), ops)
    ensures var g := After(Game(order, []), ops);
            multiset(g.drawn) + multiset(g.cards) == multiset(UpTo(n)) + Added(ops)
  {
    if ops == [] {
    } else {
      Conservation(n, order, ops[..|ops| - 1]);
      PlayConserves(After(Game(order, []), ops[..|ops| - 1]), ops[|ops| - 1]);
    }
  }

  /** What an operation does to the deck and the cards drawn, outright. */
  predicate Does(before: Game, op: Op, after: Game) {
    match op
    case Add(card) => after == Game(before.cards + [card], before.drawn)
    case Shuffle(order) => after == Game(order, before.drawn)
    case Sort =>
      Ascending(after.cards) && multiset(after.cards) == multiset(before.cards) && after.drawn == before.drawn
    case Pick =>
      && |after.drawn| == |before.drawn| + 1
      && before.cards == after.cards + [after.drawn[|before.drawn|]]
      && after.drawn == before.drawn + [after.drawn[|before.drawn|]]
  }

  lemma PlayDoes(g: Game, op: Op)
    requires Allowed(g, op)
    ensures Does(g, op, Play(g, op))
  {
    match op
    case Pick => assert g.cards == Play(g, op).cards + [g.cards[|g.cards| - 1]];
    case _ =>
  }

  /** The operations lead from one game to another. */
  ghost predicate Leads(g: Game, ops: seq<Op>, g': Game) {
    IsGame(g, ops) && After(g, ops) == g'
  }

  lemma OneMoreOp(g: Game, ops: seq<Op>, g': Game, op: Op)
    requires Leads(g, ops, g') && Allowed(g', op)
    ensures Leads(g, ops + [op], Play(g', op))
  {
    assert (ops + [op])[..|ops|] == ops;
  }

  /** Between two lists of operations the game goes on by just this one. */
  ghost predicate GoesOn(g: Game, earlier: seq<Op>, op: Op, later: seq<Op>) {
    IsGame(g, earlier) && IsGame(g, later) && Does(After(g, earlier), op, After(g, later))
  }

  lemma LastOp(g: Game, ops: seq<Op>)
    requires ops != [] && IsGame(g, ops)
    ensures GoesOn(g, ops[..|ops| - 1], ops[|ops| - 1], ops)
  {
    PlayDoes(After(g, ops[..|ops| - 1]), ops[|ops| - 1]);
  }

  /** Every operation of a run does what it should. */
  lemma {:induction false} EveryOp(g: Game, ops: seq<Op>, k: nat)
    requires IsGame(g, ops) && k < |ops|
    ensures GoesOn(g, ops[..k], ops[k], ops[..k + 1])
  {
    if k == |ops| - 1 {
      assert ops[..k + 1] == ops;
      LastOp(g, ops);
    } else {
      var front := ops[..|ops| - 1];
      EveryOp(g, front, k);
      assert front[..k] == ops[..k] && front[..k + 1] == ops[..k + 1];
    }
  }

  lemma BeforeLast(g: Game, ops: seq<Op>, g': Game) returns (before: Game)
    requires ops != [] && Leads(g, ops, g')
    ensures Leads(g, ops[..|ops| - 1], before)
    ensures Allowed(before, ops[|ops| - 1]) && g' == Play(before, ops[|ops| - 1])
  {
    before := After(g, ops[..|ops| - 1]);
  }

  lemma {:induction false} OneAfterAnother(g: Game, a: seq<Op>, g1: Game, b: seq<Op>, g2: Game)
    requires Leads(g, a, g1) && Leads(g1, b, g2)
    ensures Leads(g, a + b, g2)
    decreases |b|
  {
    if b == [] {
      assert a + b == a;
    } else {
      var front, op := b[..|b| - 1], b[|b| - 1];
      var before := BeforeLast(g1, b, g2);
      OneAfterAnother(g, a, g1, front, before);
      OneMoreOp(g, a + front, before, op);
      assert a + front + [op] == a + b;
    }
  }

  function Adds(cards: seq<Card>): seq<Op> {
    seq(|cards|, i requires 0 <= i < |cards| => Add(cards[i]))
  }

  function Picks(n: nat): seq<Op> {
    seq(n, _ => Pick)
  }

  function Reversed(cards: seq<Card>): seq<Card> {
    if cards == [] then [] else Reversed(cards[1..]) + [cards[0]]
  }

  lemma AddsAndPicks(cards: seq<Card>)
    requires cards != []
    ensures Adds(cards) + Picks(|cards|) == [Add(cards[0])] + (Adds(cards[1..]) + Picks(|cards| - 1)) + [Pick]
  {
    assert Adds(cards) == [Add(cards[0])] + Adds(cards[1..]);
    assert Picks(|cards|) == Picks(|cards| - 1) + [Pick];
  }

  lemma AddOne(g: Game, card: Card)
    ensures Leads(g, [Add(card)], g.(cards := g.cards + [card]))
  {
    OneMoreOp(g, [], g, Add(card));
    assert [] + [Add(card)] == [Add(card)];
  }

  /** Last in, first out: cards put on the deck are drawn in the opposite order, and leave the deck as it was. */
  lemma {:induction false} LastInFirstOut(g: Game, cards: seq<Card>)
    ensures Leads(g, Adds(cards) + Picks(|cards|), Game(g.cards, g.drawn + Reversed(cards)))
    decreases |cards|
  {
    if cards == [] {
      assert Adds(cards) + Picks(0) == [] && g.drawn + [] == g.drawn;
    } else {
      var c, rest := cards[0], cards[1..];
      var added := g.(cards := g.cards + [c]);
      var drawn := Game(added.cards, g.drawn + Reversed(rest));
      AddOne(g, c);
      LastInFirstOut(added, rest);
      OneAfterAnother(g, [Add(c)], added, Adds(rest) + Picks(|rest|), drawn);
      OneMoreOp(g, [Add(c)] + (Adds(rest) + Picks(|rest|)), drawn, Pick);
      AddsAndPicks(cards);
      assert Play(drawn, Pick) == Game(g.cards, g.drawn + Reversed(cards)) by {
        assert g.drawn + Reversed(rest) + [c] == g.drawn + (Reversed(rest) + [c]);
      }
    }
  }

  /** Cards ascend after a sort, so the card drawn next is one that no remaining card exceeds. */
  lemma SortThenPick(g: Game)
    requires g.cards != []
    ensures Ascending(Play(g, Sort).cards) && Allowed(Play(g, Sort), Pick)
    ensures var g' := Play(Play(g, Sort), Pick);
            && |g'.drawn| == |g.drawn| + 1
            && multiset(g'.cards + [g'.drawn[|g.drawn|]]) == multiset(g.cards)
            && forall c <- g'.cards :: c <= g'.drawn[|g.drawn|]
  {
    var sorted := Play(g, Sort).cards;
    assert |multiset(sorted)| == |multiset(g.cards)|;
    PlayDoes(Play(g, Sort), Pick);
  }

  lemma SameTop(a: seq<Card>, b: seq<Card>)
    requires Ascending(a) && Ascending(b) && multiset(a) == multiset(b) && a != []
    ensures b != [] && a[|a| - 1] == b[|b| - 1]
  {
    assert a[|a| - 1] in multiset(b);
    TopIsLargest(b, a[|a| - 1]);
    assert b[|b| - 1] in multiset(a);
    TopIsLargest(a, b[|b| - 1]);
  }

  lemma SameRest(a: multiset<Card>, b: multiset<Card>, top: Card)
    requires a + multiset{top} == b + multiset{top}
    ensures a == b
  {
    assert a == a + multiset{top} - multiset{top};
    assert b == b + multiset{top} - multiset{top};
  }

  /** Two ascending decks with the same cards are the same deck. */
  lemma {:induction false} AscendingIsUnique(a: seq<Card>, b: seq<Card>)
    requires Ascending(a) && Ascending(b) && multiset(a) == multiset(b)
    ensures a == b
  {
    if a == [] {
      assert |multiset(b)| == 0;
    } else {
      SameTop(a, b);
      var top := a[|a| - 1];
      var a', b' := a[..|a| - 1], b[..|b| - 1];
      TopSplit(a);
      TopSplit(b);
      SameRest(multiset(a'), multiset(b'), top);
      AscendingIsUnique(a', b');
      assert a == a' + [top] && b == b' + [top];
    }
  }

  /** Drawing k cards takes them from the top. */
  lemma {:induction false} DrawFromTop(cards: seq<Card>, k: nat)
    requires k <= |cards|
    ensures IsGame(Game(cards, []), Picks(k))
    ensures After(Game(cards, []), Picks(k)) ==
            Game(cards[..|cards| - k], seq(k, i requires 0 <= i < k => cards[|cards| - 1 - i]))
  {
    if k == 0 {
    } else {
      DrawFromTop(cards, k - 1);
      assert Picks(k)[..k - 1] == Picks(k - 1);
      var m := |cards| - (k - 1);
      assert cards[..m][..m - 1] == cards[..m - 1];
    }
  }

  /** However a deck of 1 to n was shuffled, sorting gives 1 to n. */
  lemma SortGivesUpTo(n: nat, order: seq<Card>)
    requires multiset(order) == multiset(UpTo(n))
    ensures Sorted(order) == UpTo(n)
  {
    AscendingIsUnique(Sorted(order), UpTo(n));
  }

  lemma DrawUpTo(n: nat)
    ensures IsGame(Game(UpTo(n), []), Picks(n))
    ensures After(Game(UpTo(n), []), Picks(n)) == Game([], DownFrom(n))
  {
    DrawFromTop(UpTo(n), n);
    assert seq(n, i requires 0 <= i < n => UpTo(n)[n - 1 - i]) == DownFrom(n);
  }

  /** Drawing a sorted deck of 1 to n empty gives n down to 1. */
  lemma SortThenDraw(n: nat, order: seq<Card>)
    requires multiset(order) == multiset(UpTo(n))
    ensures IsGame(Game(Sorted(order), []), Picks(n))
    ensures After(Game(Sorted(order), []), Picks(n)) == Game([], DownFrom(n))
  {
    SortGivesUpTo(n, order);
    DrawUpTo(n);
  }

  lemma {:induction false} PicksAddNothing(n: nat)
    ensures Added(Picks(n)) == multiset{}
  {
    if n == 0 {
    } else {
      assert Picks(n)[..n - 1] == Picks(n - 1);
      PicksAddNothing(n - 1);
    }
  }

  lemma {:induction false} CountUpTo(n: nat, c: Card)
    ensures multiset(UpTo(n))[c] == if 1 <= c <= n then 1 else 0
  {
    if n == 0 {
    } else {
      CountUpTo(n - 1, c);
      assert UpTo(n) == UpTo(n - 1) + [n];
    }
  }

  /** Drawing a fresh deck empty yields every card from 1 to n exactly once. */
  lemma EachCardOnce(n: nat, order: seq<Card>, c: Card)
    requires multiset(order) == multiset(UpTo(n))
    ensures IsGame(Game(order, []), Picks(n))
    ensures multiset(After(Game(order, []), Picks(n)).drawn)[c] == if 1 <= c <= n then 1 else 0
  {
    assert |multiset(order)| == |order| && |multiset(UpTo(n))| == n;
    DrawFromTop(order, n);
    Conservation(n, order, Picks(n));
    PicksAddNothing(n);
    CountUpTo(n, c);
    var g := After(Game(order, []), Picks(n));
    assert multiset(g.drawn) == multiset(g.drawn) + multiset(g.cards) - multiset(g.cards);
    assert g.cards == [];
  }
}
