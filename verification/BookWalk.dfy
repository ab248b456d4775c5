/** What anyone outside sees of a book: its levels, best first, symbol by symbol. */
module BookWalk {
  import opened Common
  import opened BookModel
  import opened BookTheorems
  import opened BookSide
  import opened Totals

  /** One side of one symbol as anyone outside sees it. */
  ghost function SideOf(b: Book, symbol: nat, isBuy: bool): map<Price, (int, int)> {
    map k | k in b.levels && k.symbol == symbol && k.isBuy == isBuy :: k.price := (b.levels[k].total, b.levels[k].count)
  }

  /** The canonical walk the digest is computed over: symbol by symbol, the bids
      and then the asks, each from the best price on, with price, quantity and count. */
  ghost function DigestWalk(b: Book): seq<(seq<Entry<(int, int)>>, seq<Entry<(int, int)>>)> {
    seq(LOCATES, l requires 0 <= l < LOCATES =>
      (Walk(true, SideOf(b, l, true)), Walk(false, SideOf(b, l, false))))
  }

  /** Two builders with the same live orders, whatever their histories, give the same walk. */
  lemma SameOrdersSameDigest(b: Book, c: Book)
    requires Inv(b) && Inv(c)
    requires NoneLost(b.refs, b.pool) && NoneLost(c.refs, c.pool)
    requires Live(b.refs, b.pool) == Live(c.refs, c.pool)
    ensures DigestWalk(b) == DigestWalk(c)
  {
    HistoryDoesNotShow(b, c);
    forall l: nat, isBuy: bool ensures SideOf(b, l, isBuy) == SideOf(c, l, isBuy) {
      SideFromVisible(b, c, l, isBuy);
    }
  }

  lemma SideFromVisible(b: Book, c: Book, l: nat, isBuy: bool)
    requires Visible(b.levels) == Visible(c.levels)
    ensures SideOf(b, l, isBuy) == SideOf(c, l, isBuy)
  {
    var v := Visible(b.levels);
    forall k | k in b.levels ensures k in c.levels && (b.levels[k].total, b.levels[k].count) == (c.levels[k].total, c.levels[k].count) {
      assert k in v && v[k] == Visible(c.levels)[k];
    }
    forall k | k in c.levels ensures k in b.levels {
      assert k in Visible(c.levels);
    }
  }

  /** A price is a level of the side exactly when a live order rests there. */
  lemma LevelMeansOrders(b: Book, symbol: nat, isBuy: bool, price: nat)
    requires Inv(b) && NoneLost(b.refs, b.pool)
    ensures price in SideOf(b, symbol, isBuy) <==> Key(symbol, isBuy, price) in Visible(b.levels)
    ensures price in SideOf(b, symbol, isBuy) ==>
      SideOf(b, symbol, isBuy)[price] == (Total(Live(b.refs, b.pool), QtyAt(Key(symbol, isBuy, price))),
                                          Total(Live(b.refs, b.pool), OneAt(Key(symbol, isBuy, price))))
  {
    VisibleIsTheSum(b, Key(symbol, isBuy, price));
  }

  lemma LevelsArePrices(b: Book, symbol: nat, isBuy: bool, price: int)
    requires price in SideOf(b, symbol, isBuy)
    ensures price >= 0
  {
  }

  lemma OrderMakesLevel(b: Book, ref: Ref)
    requires Inv(b) && NoneLost(b.refs, b.pool) && ref in Live(b.refs, b.pool)
    ensures var o := Live(b.refs, b.pool)[ref]; o.price in SideOf(b, o.symbol, o.isBuy)
  {
    var h := b.refs[ref];
    var key := KeyOf(b.pool[h]);
    assert LevelOk(b.levels, b.pool, key);
    assert key !in b.levels ==> h !in b.pool;
    LevelMeansOrders(b, key.symbol, key.isBuy, key.price);
  }

  /** No live order has a better price than the top of its side, in plain numbers. */
  lemma TopIsTheBest(b: Book, ref: Ref)
    requires Inv(b) && NoneLost(b.refs, b.pool) && ref in Live(b.refs, b.pool)
    ensures var o := Live(b.refs, b.pool)[ref]; var w := Walk(o.isBuy, SideOf(b, o.symbol, o.isBuy));
      w != [] && if o.isBuy then o.price <= w[0].price else o.price >= w[0].price
  {
    var o := Live(b.refs, b.pool)[ref];
    OrderMakesLevel(b, ref);
    FrontInNumbers(o.isBuy, SideOf(b, o.symbol, o.isBuy), o.price);
  }

  lemma FrontInNumbers<L>(isBid: bool, m: map<Price, L>, p: Price)
    requires p in m
    ensures var w := Walk(isBid, m); w != [] && if isBid then p <= w[0].price else p >= w[0].price
  {
    var w := Walk(isBid, m);
    WalkShows(isBid, m);
    assert Lists(w, p);
    var i :| 0 <= i < |w| && w[i].price == p;
    WalkInNumbers(isBid, m, 0, i);
  }

  /** The quantity and count at the top are the sums over the live orders there, and some are. */
  lemma TopIsTheSum(b: Book, symbol: nat, isBuy: bool)
    requires Inv(b) && NoneLost(b.refs, b.pool) && Walk(isBuy, SideOf(b, symbol, isBuy)) != []
    ensures var live, top := Live(b.refs, b.pool), Walk(isBuy, SideOf(b, symbol, isBuy))[0];
      && top.price >= 0 && Total(live, OneAt(Key(symbol, isBuy, top.price))) > 0
      && top.level == (Total(live, QtyAt(Key(symbol, isBuy, top.price))), Total(live, OneAt(Key(symbol, isBuy, top.price))))
  {
    var side := SideOf(b, symbol, isBuy);
    var top := Walk(isBuy, side)[0];
    WalkInNumbers(isBuy, side, 0, 0);
    LevelsArePrices(b, symbol, isBuy, top.price);
    LevelMeansOrders(b, symbol, isBuy, top.price);
    VisibleIsTheSum(b, Key(symbol, isBuy, top.price));
  }
}
