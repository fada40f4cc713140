/** The two incremental level-2 books: `OrderBook` (redis_client.cpp) and
    `OrderBookCache` (backpack_data_service.cpp), the top-of-book scan and the
    sorted snapshot. */
module OrderBooks {

  import opened Wrappers

  /** Prices are counted in units of the quote precision, so equal decimal
      strings are equal keys. */
  type Price = nat

  datatype Level = Level(price: Price, qty: real)

  /** One depth message; a missing side is an empty one. */
  datatype Depth = Depth(asks: seq<Level>, bids: seq<Level>, updateId: Option<int>)

  type Side = map<Price, real>

  /** When a level removes its price: on quantity 0, or on any quantity up to 0. */
  datatype Rule = OnZero | OnNonPositive

  predicate Erases(rule: Rule, qty: real) {
    if rule.OnZero? then qty == 0.0 else qty <= 0.0
  }

  function ApplyLevel(rule: Rule, side: Side, l: Level): Side {
    if Erases(rule, l.qty) then side - {l.price} else side[l.price := l.qty]
  }

  function ApplyLevels(rule: Rule, side: Side, ls: seq<Level>): Side {
    if ls == [] then side
    else ApplyLevel(rule, ApplyLevels(rule, side, ls[..|ls| - 1]), ls[|ls| - 1])
  }

  // ---- Only the last mention counts ----

  function LastMention(ls: seq<Level>, price: Price): Option<real> {
    if ls == [] then None
    else if ls[|ls| - 1].price == price then Some(ls[|ls| - 1].qty)
    else LastMention(ls[..|ls| - 1], price)
  }

  function Lookup(side: Side, price: Price): Option<real> {
    if price in side then Some(side[price]) else None
  }

  /** What a side must show at a price: the last quantity mentioned unless it erases. */
  function Expected(rule: Rule, side: Side, ls: seq<Level>, price: Price): Option<real> {
    match LastMention(ls, price)
    case None => Lookup(side, price)
    case Some(qty) => if Erases(rule, qty) then None else Some(qty)
  }

  lemma {:induction false} LastMentionWins(rule: Rule, side: Side, ls: seq<Level>, price: Price)
    ensures Lookup(ApplyLevels(rule, side, ls), price) == Expected(rule, side, ls, price)
    decreases |ls|
  {
    if ls != [] {
      LastMentionWins(rule, side, ls[..|ls| - 1], price);
    }
  }

  // ---- Messages can be cut differently ----

  lemma {:induction false} ApplyConcat(rule: Rule, side: Side, a: seq<Level>, b: seq<Level>)
    ensures ApplyLevels(rule, side, a + b) == ApplyLevels(rule, ApplyLevels(rule, side, a), b)
    decreases |b|
  {
    if b == [] {
      assert a + b == a;
    } else {
      assert (a + b)[..|a + b| - 1] == a + b[..|b| - 1];
      ApplyConcat(rule, side, a, b[..|b| - 1]);
    }
  }

  datatype Book = Book(asks: Side, bids: Side)

  function ApplyDepth(rule: Rule, book: Book, d: Depth): Book {
    Book(ApplyLevels(rule, book.asks, d.asks), ApplyLevels(rule, book.bids, d.bids))
  }

  function ApplyStream(rule: Rule, book: Book, ds: seq<Depth>): Book {
    if ds == [] then book
    else ApplyDepth(rule, ApplyStream(rule, book, ds[..|ds| - 1]), ds[|ds| - 1])
  }

  function AllAsks(ds: seq<Depth>): seq<Level> {
    if ds == [] then [] else AllAsks(ds[..|ds| - 1]) + ds[|ds| - 1].asks
  }

  function AllBids(ds: seq<Depth>): seq<Level> {
    if ds == [] then [] else AllBids(ds[..|ds| - 1]) + ds[|ds| - 1].bids
  }

  lemma {:induction false} StreamIsFlat(rule: Rule, book: Book, ds: seq<Depth>)
    ensures ApplyStream(rule, book, ds)
         == Book(ApplyLevels(rule, book.asks, AllAsks(ds)), ApplyLevels(rule, book.bids, AllBids(ds)))
    decreases |ds|
  {
    if ds != [] {
      var front, d := ds[..|ds| - 1], ds[|ds| - 1];
      StreamIsFlat(rule, book, front);
      ApplyConcat(rule, book.asks, AllAsks(front), d.asks);
      ApplyConcat(rule, book.bids, AllBids(front), d.bids);
    }
  }

  /** Regrouping the same levels into other messages changes nothing. */
  lemma RegroupingIrrelevant(rule: Rule, book: Book, ds: seq<Depth>, es: seq<Depth>)
    requires AllAsks(ds) == AllAsks(es) && AllBids(ds) == AllBids(es)
    ensures ApplyStream(rule, book, ds) == ApplyStream(rule, book, es)
  {
    StreamIsFlat(rule, book, ds);
    StreamIsFlat(rule, book, es);
  }

  // ---- When the two books agree ----

  ghost predicate EndsNonNegative(ls: seq<Level>) {
    forall price: Price :: LastMention(ls, price).Some? ==> LastMention(ls, price).value >= 0.0
  }

  lemma SidesAgree(side: Side, ls: seq<Level>)
    ensures ApplyLevels(OnZero, side, ls) == ApplyLevels(OnNonPositive, side, ls) <==> EndsNonNegative(ls)
  {
    var a, b := ApplyLevels(OnZero, side, ls), ApplyLevels(OnNonPositive, side, ls);
    forall price: Price ensures Lookup(a, price) == Expected(OnZero, side, ls, price)
                            && Lookup(b, price) == Expected(OnNonPositive, side, ls, price) {
      LastMentionWins(OnZero, side, ls, price);
      LastMentionWins(OnNonPositive, side, ls, price);
    }
    if EndsNonNegative(ls) {
      forall price: Price ensures Lookup(a, price) == Lookup(b, price) {
        assert Expected(OnZero, side, ls, price) == Expected(OnNonPositive, side, ls, price);
      }
      SameLookups(a, b);
    } else {
      var price: Price :| LastMention(ls, price).Some? && LastMention(ls, price).value < 0.0;
      assert Lookup(a, price) != Lookup(b, price);
    }
  }

  lemma SameLookups(a: Side, b: Side)
    requires forall price: Price :: Lookup(a, price) == Lookup(b, price)
    ensures a == b
  {
    forall price: Price ensures price in a <==> price in b {
      assert Lookup(a, price) == Lookup(b, price);
    }
    forall price: Price | price in a ensures a[price] == b[price] {
      assert Lookup(a, price) == Lookup(b, price);
    }
  }

  /** Fed the same stream from the same state, the two books stay equal exactly
      when no price's last mention carries a negative quantity. */
  lemma BooksAgree(book: Book, ds: seq<Depth>)
    ensures ApplyStream(OnZero, book, ds) == ApplyStream(OnNonPositive, book, ds)
       <==> EndsNonNegative(AllAsks(ds)) && EndsNonNegative(AllBids(ds))
  {
    StreamIsFlat(OnZero, book, ds);
    StreamIsFlat(OnNonPositive, book, ds);
    SidesAgree(book.asks, AllAsks(ds));
    SidesAgree(book.bids, AllBids(ds));
  }

  /** A single bid of quantity -1 stays in one book and never enters the other. */
  lemma NegativeQuantity(price: Price)
    ensures var ds := [Depth([], [Level(price, -1.0)], None)];
      && ApplyStream(OnZero, Book(map[], map[]), ds) == Book(map[], map[price := -1.0])
      && ApplyStream(OnNonPositive, Book(map[], map[]), ds) == Book(map[], map[])
  {
    var ls := [Level(price, -1.0)];
    var ds := [Depth([], ls, None)];
    assert ls[..0] == [] && ds[..0] == [];
    assert ApplyLevels(OnZero, map[], ls) == ApplyLevel(OnZero, ApplyLevels(OnZero, map[], []), ls[0]);
    assert ApplyLevels(OnNonPositive, map[], ls)
        == ApplyLevel(OnNonPositive, ApplyLevels(OnNonPositive, map[], []), ls[0]);
  }

  // ---- Snapshot ----

  /** Bids: higher is better.  Asks: lower is better. */
  predicate Better(bid: bool, a: Price, b: Price) {
    if bid then a > b else a < b
  }

  ghost predicate Ordered(bid: bool, v: seq<Level>) {
    forall i, j | 0 <= i < j < |v| :: Better(bid, v[i].price, v[j].price)
  }

  ghost predicate FromSide(side: Side, v: seq<Level>) {
    forall i | 0 <= i < |v| :: v[i].price in side && side[v[i].price] == v[i].qty
  }

  ghost predicate Shows(v: seq<Level>, price: Price) {
    exists i | 0 <= i < |v| :: v[i].price == price
  }

  /** The best `n` levels of a side, best first: every level left out is worse
      than every level shown. */
  ghost predicate IsTop(bid: bool, side: Side, n: nat, v: seq<Level>) {
    && |v| == (if n < |side| then n else |side|)
    && Ordered(bid, v)
    && FromSide(side, v)
    && (forall price, i | price in side && !Shows(v, price) && 0 <= i < |v| :: Better(bid, v[i].price, price))
  }

  /** There is only one such list, so the predicate says what a snapshot is. */
  lemma TopUnique(bid: bool, side: Side, n: nat, v: seq<Level>, w: seq<Level>)
    requires IsTop(bid, side, n, v) && IsTop(bid, side, n, w)
    ensures v == w
  {
    SameUpTo(bid, side, n, v, w, |v|);
  }

  lemma {:induction false} SameUpTo(bid: bool, side: Side, n: nat, v: seq<Level>, w: seq<Level>, k: nat)
    requires IsTop(bid, side, n, v) && IsTop(bid, side, n, w) && k <= |v|
    ensures forall i | 0 <= i < k :: v[i] == w[i]
  {
    hide Ordered, Shows;
    if k > 0 {
      SameUpTo(bid, side, n, v, w, k - 1);
      NotBetter(bid, side, n, v, w, k - 1);
      NotBetter(bid, side, n, w, v, k - 1);
    }
  }

  lemma NotBetter(bid: bool, side: Side, n: nat, v: seq<Level>, w: seq<Level>, k: nat)
    requires IsTop(bid, side, n, v) && IsTop(bid, side, n, w) && k < |v|
    requires forall i | 0 <= i < k :: v[i] == w[i]
    ensures !Better(bid, v[k].price, w[k].price)
  {
    if Better(bid, v[k].price, w[k].price) {
      forall i | 0 <= i < |w| ensures w[i].price != v[k].price {
        if i < k { assert Better(bid, v[i].price, v[k].price); }
      }
    }
  }

  /** In plain prices: bids fall and asks rise, and what is left out lies below every
      bid shown and above every ask shown. */
  lemma TopInPrices(side: Side, n: nat, v: seq<Level>)
    ensures IsTop(true, side, n, v) ==>
      && (forall i, j | 0 <= i < j < |v| :: v[i].price > v[j].price)
      && (forall p, i | p in side && !Shows(v, p) && 0 <= i < |v| :: p < v[i].price)
    ensures IsTop(false, side, n, v) ==>
      && (forall i, j | 0 <= i < j < |v| :: v[i].price < v[j].price)
      && (forall p, i | p in side && !Shows(v, p) && 0 <= i < |v| :: p > v[i].price)
  {}

  /** Insertion into an ordered list; stands, with SortLevels, for `std::sort`,
      whose result on distinct prices is determined. */
  function Insert(bid: bool, v: seq<Level>, l: Level): seq<Level> {
    if v == [] || Better(bid, v[|v| - 1].price, l.price) then v + [l]
    else Insert(bid, v[..|v| - 1], l) + [v[|v| - 1]]
  }

  function SortLevels(bid: bool, v: seq<Level>): seq<Level> {
    if v == [] then [] else Insert(bid, SortLevels(bid, v[..|v| - 1]), v[|v| - 1])
  }

  ghost predicate DistinctPrices(v: seq<Level>) {
    forall i, j | 0 <= i < j < |v| :: v[i].price != v[j].price
  }

  lemma {:induction false} InsertMembers(bid: bool, v: seq<Level>, l: Level)
    ensures |Insert(bid, v, l)| == |v| + 1
    ensures forall x :: x in Insert(bid, v, l) <==> x in v || x == l
    decreases |v|
  {
    if v != [] && !Better(bid, v[|v| - 1].price, l.price) {
      InsertMembers(bid, v[..|v| - 1], l);
      assert v == v[..|v| - 1] + [v[|v| - 1]];
    }
  }

  lemma {:induction false} InsertOrdered(bid: bool, v: seq<Level>, l: Level)
    requires Ordered(bid, v) && forall x | x in v :: x.price != l.price
    ensures Ordered(bid, Insert(bid, v, l))
    decreases |v|
  {
    if v != [] && !Better(bid, v[|v| - 1].price, l.price) {
      var front, last := v[..|v| - 1], v[|v| - 1];
      InsertOrdered(bid, front, l);
      InsertMembers(bid, front, l);
      var w := Insert(bid, front, l);
      forall i | 0 <= i < |w| ensures Better(bid, w[i].price, last.price) {
        assert w[i] in w;
        assert last in v;
      }
    }
  }

  lemma {:induction false} SortMembers(bid: bool, v: seq<Level>)
    ensures |SortLevels(bid, v)| == |v|
    ensures forall x :: x in SortLevels(bid, v) <==> x in v
    decreases |v|
  {
    if v != [] {
      SortMembers(bid, v[..|v| - 1]);
      InsertMembers(bid, SortLevels(bid, v[..|v| - 1]), v[|v| - 1]);
      assert v == v[..|v| - 1] + [v[|v| - 1]];
    }
  }

  lemma {:induction false} SortOrdered(bid: bool, v: seq<Level>)
    requires DistinctPrices(v)
    ensures Ordered(bid, SortLevels(bid, v))
    decreases |v|
  {
    if v != [] {
      var front, last := v[..|v| - 1], v[|v| - 1];
      SortOrdered(bid, front);
      SortMembers(bid, front);
      InsertOrdered(bid, SortLevels(bid, front), last);
    }
  }

  /** `v` lists the side, each price once. */
  ghost predicate Lists(side: Side, v: seq<Level>) {
    && |v| == |side| && DistinctPrices(v) && FromSide(side, v)
    && forall price | price in side :: Shows(v, price)
  }

  method CopyLevels(side: Side) returns (v: seq<Level>)
    ensures Lists(side, v)
  {
    v := [];
    var rest := side.Keys;
    while rest != {}
      invariant rest <= side.Keys && |v| + |rest| == |side.Keys|
      invariant DistinctPrices(v) && FromSide(side, v)
      invariant forall i | 0 <= i < |v| :: v[i].price !in rest
      invariant forall price | price in side :: price in rest || Shows(v, price)
      decreases rest
    {
      var price :| price in rest;
      ghost var was := v;
      rest := rest - {price};
      v := v + [Level(price, side[price])];
      assert v[|was|].price == price;
      forall q | q in side ensures q in rest || Shows(v, q) {
        if q != price && q !in rest {
          var i :| 0 <= i < |was| && was[i].price == q;
          assert v[i].price == q;
        }
      }
    }
  }

  lemma SortedListIsTop(bid: bool, side: Side, v: seq<Level>, n: nat)
    requires Lists(side, v)
    ensures |SortLevels(bid, v)| == |side|
    ensures IsTop(bid, side, n, SortLevels(bid, v)[..if n < |side| then n else |side|])
  {
    SortOrdered(bid, v);
    SortMembers(bid, v);
    var w := SortLevels(bid, v);
    hide Insert, SortLevels;
    forall i | 0 <= i < |w| ensures w[i].price in side && side[w[i].price] == w[i].qty {
      assert w[i] in w;
      assert w[i] in v;
    }
    forall price | price in side ensures Shows(w, price) {
      var i :| 0 <= i < |v| && v[i].price == price;
      assert v[i] in v;
      assert v[i] in w;
    }
    PrefixIsTop(bid, side, w, if n < |side| then n else |side|);
  }

  lemma PrefixIsTop(bid: bool, side: Side, w: seq<Level>, k: nat)
    requires Ordered(bid, w) && FromSide(side, w) && |w| == |side| && k <= |w|
    requires forall price | price in side :: Shows(w, price)
    ensures forall n: nat | k == if n < |side| then n else |side| :: IsTop(bid, side, n, w[..k])
  {
    forall price, i | price in side && !Shows(w[..k], price) && 0 <= i < k ensures Better(bid, w[..k][i].price, price) {
      var j :| 0 <= j < |w| && w[j].price == price;
      assert forall m | 0 <= m < k :: w[..k][m].price == w[m].price;
      assert Better(bid, w[i].price, w[j].price);
    }
  }

  /** One side of `snapshot(depth)`. */
  method TopLevels(bid: bool, side: Side, depth: int) returns (top: seq<Level>)
    ensures IsTop(bid, side, if depth < 0 then 0 else depth, top)
  {
    hide IsTop, SortLevels, Lists;
    var v := CopyLevels(side);
    var sorted := SortLevels(bid, v);
    ghost var n := if depth < 0 then 0 else depth;
    SortedListIsTop(bid, side, v, n);
    top := [];
    var i := 0;
    while i < depth && i < |sorted|
      invariant 0 <= i <= |sorted| && (i <= depth || i == 0) && top == sorted[..i]
    {
      top := top + [sorted[i]];
      i := i + 1;
    }
    assert top == sorted[..if n < |side| then n else |side|];
  }

  /** The scan of `publish_l1_data`, in whatever order the hash map iterates. */
  method BestPrice(bid: bool, side: Side) returns (best: Price)
    requires side != map[]
    ensures best in side && forall price | price in side :: price == best || Better(bid, best, price)
  {
    assert side.Keys != {};
    best :| best in side;
    var rest := side.Keys - {best};
    while rest != {}
      invariant rest <= side.Keys && best in side
      invariant forall price | price in side && price !in rest :: price == best || Better(bid, best, price)
      decreases rest
    {
      var price :| price in rest;
      rest := rest - {price};
      if Better(bid, price, best) {
        best := price;
      }
    }
  }

  /** For depth >= 1 the snapshot's head is the price the scan selects. */
  lemma HeadIsBest(bid: bool, side: Side, depth: nat, top: seq<Level>, best: Price)
    requires side != map[] && depth >= 1 && IsTop(bid, side, depth, top)
    requires best in side && forall price | price in side :: price == best || Better(bid, best, price)
    ensures top != [] && top[0] == Level(best, side[best])
  {
    assert |side| > 0 by {
      assert best in side.Keys;
      assert |side.Keys| > 0;
    }
    forall i | 0 < i < |top| ensures Better(bid, top[0].price, top[i].price) {}
    assert Shows(top, best) || Better(bid, top[0].price, best);
  }

  // ---- The objects ----

  datatype Quote = Quote(bidPrice: Price, askPrice: Price, bidQty: real, askQty: real)

  class OrderBook {
    var bids: Side
    var asks: Side

    constructor ()
      ensures bids == map[] && asks == map[]
    {
      bids, asks := map[], map[];
    }

    method ApplyUpdate(msg: Depth) returns (l1: Option<Quote>)
      modifies this
      ensures Book(asks, bids) == ApplyDepth(OnZero, old(Book(asks, bids)), msg)
      ensures l1.None? <==> bids == map[] || asks == map[]
      ensures l1.Some? ==>
        && l1.value.bidPrice in bids && l1.value.bidQty == bids[l1.value.bidPrice]
        && l1.value.askPrice in asks && l1.value.askQty == asks[l1.value.askPrice]
        && (forall price | price in bids :: price <= l1.value.bidPrice)
        && (forall price | price in asks :: price >= l1.value.askPrice)
    {
      for i := 0 to |msg.asks|
        invariant asks == ApplyLevels(OnZero, old(asks), msg.asks[..i]) && bids == old(bids)
      {
        assert msg.asks[..i + 1][..i] == msg.asks[..i];
        var l := msg.asks[i];
        if l.qty == 0.0 { asks := asks - {l.price}; } else { asks := asks[l.price := l.qty]; }
      }
      assert msg.asks[..|msg.asks|] == msg.asks;
      for i := 0 to |msg.bids|
        invariant bids == ApplyLevels(OnZero, old(bids), msg.bids[..i])
        invariant asks == ApplyLevels(OnZero, old(asks), msg.asks)
      {
        assert msg.bids[..i + 1][..i] == msg.bids[..i];
        var l := msg.bids[i];
        if l.qty == 0.0 { bids := bids - {l.price}; } else { bids := bids[l.price := l.qty]; }
      }
      assert msg.bids[..|msg.bids|] == msg.bids;
      l1 := PublishL1();
    }

    method PublishL1() returns (l1: Option<Quote>)
      ensures l1.None? <==> bids == map[] || asks == map[]
      ensures l1.Some? ==>
        && l1.value.bidPrice in bids && l1.value.bidQty == bids[l1.value.bidPrice]
        && l1.value.askPrice in asks && l1.value.askQty == asks[l1.value.askPrice]
        && (forall price | price in bids :: price <= l1.value.bidPrice)
        && (forall price | price in asks :: price >= l1.value.askPrice)
    {
      if bids == map[] || asks == map[] {
        return None;
      }
      var bestBid := BestPrice(true, bids);
      var bestAsk := BestPrice(false, asks);
      return Some(Quote(bestBid, bestAsk, bids[bestBid], asks[bestAsk]));
    }

    method Snapshot(depth: int) returns (b: seq<Level>, a: seq<Level>)
      ensures IsTop(true, bids, if depth < 0 then 0 else depth, b)
      ensures IsTop(false, asks, if depth < 0 then 0 else depth, a)
    {
      b := TopLevels(true, bids, depth);
      a := TopLevels(false, asks, depth);
    }
  }

  class OrderBookCache {
    var lastUpdateId: int
    var bids: Side
    var asks: Side

    constructor ()
      ensures bids == map[] && asks == map[] && lastUpdateId == 0
    {
      bids, asks, lastUpdateId := map[], map[], 0;
    }

    method Update(data: Depth)
      modifies this
      ensures Book(asks, bids) == ApplyDepth(OnNonPositive, old(Book(asks, bids)), data)
      ensures lastUpdateId == if data.updateId.Some? then data.updateId.value else old(lastUpdateId)
    {
      for i := 0 to |data.bids|
        invariant bids == ApplyLevels(OnNonPositive, old(bids), data.bids[..i])
        invariant asks == old(asks) && lastUpdateId == old(lastUpdateId)
      {
        assert data.bids[..i + 1][..i] == data.bids[..i];
        var l := data.bids[i];
        if l.qty <= 0.0 { bids := bids - {l.price}; } else { bids := bids[l.price := l.qty]; }
      }
      assert data.bids[..|data.bids|] == data.bids;
      for i := 0 to |data.asks|
        invariant asks == ApplyLevels(OnNonPositive, old(asks), data.asks[..i])
        invariant bids == ApplyLevels(OnNonPositive, old(bids), data.bids) && lastUpdateId == old(lastUpdateId)
      {
        assert data.asks[..i + 1][..i] == data.asks[..i];
        var l := data.asks[i];
        if l.qty <= 0.0 { asks := asks - {l.price}; } else { asks := asks[l.price := l.qty]; }
      }
      assert data.asks[..|data.asks|] == data.asks;
      if data.updateId.Some? {
        lastUpdateId := data.updateId.value;
      }
    }
  }
}
