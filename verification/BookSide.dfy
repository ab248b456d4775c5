/**
  One side of a book, two ways: an ordered map keyed by price, and a sorted vector with the
  best price at the front.  The vector is proved to give the same lookups, the same best and
  the same walk under every sequence of operations.
 */
module BookSide {
  import opened Common

  type Price = int

  datatype Entry<L> = Entry(price: Price, level: L)

  predicate Before(isBid: bool, a: Price, b: Price) {
    if isBid then a > b else a < b
  }

  // ----- the ordered map ------------------------------------------------------------------

  /** A price that comes before every other one. */
  ghost predicate First<L>(isBid: bool, m: map<Price, L>, p: Price) {
    p in m && forall q {:trigger q in m} :: q in m && q != p ==> Before(isBid, p, q)
  }

  lemma SomeKey<K, L>(m: map<K, L>) returns (k: K)
    requires m.Keys != {}
    ensures k in m
  {
    k :| k in m.Keys;
  }

  lemma {:induction false} FirstExists<L>(isBid: bool, m: map<Price, L>)
    requires m.Keys != {}
    ensures exists p :: First(isBid, m, p)
    decreases |m.Keys|
  {
    var a := SomeKey(m);
    var rest := m - {a};
    assert rest.Keys == m.Keys - {a};
    if rest.Keys == {} {
      assert forall q :: q in m ==> q == a || q in rest;
      assert First(isBid, m, a);
    } else {
      FirstExists(isBid, rest);
      var b :| First(isBid, rest, b);
      assert forall q :: q in m && q != a ==> q in rest;
      assert First(isBid, m, if Before(isBid, a, b) then a else b);
    }
  }

  /** The order in which an ordered map visits its levels: best price first. */
  ghost function Walk<L>(isBid: bool, m: map<Price, L>): seq<Entry<L>>
    decreases |m.Keys|
  {
    if m.Keys == {} then []
    else
      FirstExists(isBid, m);
      var p :| First(isBid, m, p);
      assert (m - {p}).Keys == m.Keys - {p};
      [Entry(p, m[p])] + Walk(isBid, m - {p})
  }

  lemma WalkFrom<L>(isBid: bool, m: map<Price, L>, p: Price)
    requires First(isBid, m, p)
    ensures Walk(isBid, m) == [Entry(p, m[p])] + Walk(isBid, m - {p})
  {
    forall q | First(isBid, m, q) ensures q == p {
    }
    assert p in m.Keys;
  }

  // ----- sorted sequences --------------------------------------------------------------------

  ghost predicate Sorted<L>(isBid: bool, w: seq<Entry<L>>) {
    forall i, j :: 0 <= i < j < |w| ==> Before(isBid, w[i].price, w[j].price)
  }

  ghost predicate Lists<L>(w: seq<Entry<L>>, p: Price) {
    exists i :: 0 <= i < |w| && w[i].price == p
  }

  /** The sequence holds exactly the map's levels, sorted best first, each price once. */
  ghost predicate Shows<L>(isBid: bool, w: seq<Entry<L>>, m: map<Price, L>) {
    && Sorted(isBid, w)
    && (forall i {:trigger w[i]} :: 0 <= i < |w| ==> w[i].price in m && m[w[i].price] == w[i].level)
    && (forall p {:trigger Lists(w, p)} :: p in m ==> Lists(w, p))
  }

  /** There is only one such sequence: the walk. */
  lemma {:induction false} ShowsTheWalk<L>(isBid: bool, w: seq<Entry<L>>, m: map<Price, L>)
    requires Shows(isBid, w, m)
    ensures w == Walk(isBid, m)
    decreases |w|
  {
    if w == [] {
      assert forall p :: p in m ==> Lists(w, p);
    } else {
      assert w[0].price in m;
      FrontIsFirst(isBid, w, m);
      WalkFrom(isBid, m, w[0].price);
      RestShows(isBid, w, m);
      ShowsTheWalk(isBid, w[1..], m - {w[0].price});
    }
  }

  lemma RestShows<L>(isBid: bool, w: seq<Entry<L>>, m: map<Price, L>)
    requires Shows(isBid, w, m) && w != []
    ensures Shows(isBid, w[1..], m - {w[0].price})
  {
    var rest, m' := w[1..], m - {w[0].price};
    forall p | p in m' ensures Lists(rest, p) {
      assert Lists(w, p);
      var i :| 0 <= i < |w| && w[i].price == p;
      assert rest[i - 1].price == p;
    }
    forall i | 0 <= i < |rest| ensures rest[i].price in m' && m'[rest[i].price] == rest[i].level {
      assert rest[i] == w[i + 1];
    }
  }

  /** The place of a price: everything before it is better, nothing after it is. */
  ghost predicate Place<L>(isBid: bool, w: seq<Entry<L>>, p: Price, i: nat) {
    && i <= |w|
    && (forall j {:trigger w[j]} :: 0 <= j < i ==> Before(isBid, w[j].price, p))
    && (forall j {:trigger w[j]} :: i <= j < |w| ==> !Before(isBid, w[j].price, p))
  }

  /** A price is there exactly when it is at its place. */
  lemma PlaceTells<L>(isBid: bool, w: seq<Entry<L>>, m: map<Price, L>, p: Price, i: nat)
    requires Shows(isBid, w, m) && Place(isBid, w, p, i)
    ensures p in m <==> i < |w| && w[i].price == p
  {
    if p in m {
      assert Lists(w, p);
      var j :| 0 <= j < |w| && w[j].price == p;
      assert i <= j;
    }
  }

  function InsertedAt<L>(w: seq<Entry<L>>, i: nat, e: Entry<L>): seq<Entry<L>>
    requires i <= |w|
  {
    w[..i] + [e] + w[i..]
  }

  lemma InsertShows<L>(isBid: bool, w: seq<Entry<L>>, m: map<Price, L>, p: Price, l: L, i: nat)
    requires Shows(isBid, w, m) && Place(isBid, w, p, i) && p !in m
    ensures Shows(isBid, InsertedAt(w, i, Entry(p, l)), m[p := l])
  {
    var w', m' := InsertedAt(w, i, Entry(p, l)), m[p := l];
    forall j | 0 <= j < |w'| ensures w'[j] == if j < i then w[j] else if j == i then Entry(p, l) else w[j - 1] {
    }
    forall q | q in m' ensures Lists(w', q) {
      if q == p {
        assert w'[i].price == p;
      } else {
        assert Lists(w, q);
        var j :| 0 <= j < |w| && w[j].price == q;
        assert w'[if j < i then j else j + 1].price == q;
      }
    }
    PlaceTells(isBid, w, m, p, i);
    forall j, k | 0 <= j < k < |w'| ensures Before(isBid, w'[j].price, w'[k].price) {
      assert j < i <= k ==> Before(isBid, w[j].price, p);
      assert k > i ==> !Before(isBid, w[k - 1].price, p) && w[k - 1].price != p;
    }
  }

  lemma RemoveShows<L>(isBid: bool, w: seq<Entry<L>>, m: map<Price, L>, i: nat)
    requires Shows(isBid, w, m) && i < |w|
    ensures Shows(isBid, w[..i] + w[i + 1..], m - {w[i].price})
  {
    var w', m' := w[..i] + w[i + 1..], m - {w[i].price};
    forall j | 0 <= j < |w'| ensures w'[j] == w[if j < i then j else j + 1] {
    }
    forall q | q in m' ensures Lists(w', q) {
      assert Lists(w, q);
      var j :| 0 <= j < |w| && w[j].price == q;
      assert w'[if j < i then j else j - 1].price == q;
    }
  }

  lemma ReplaceShows<L>(isBid: bool, w: seq<Entry<L>>, m: map<Price, L>, i: nat, l: L)
    requires Shows(isBid, w, m) && i < |w|
    ensures Shows(isBid, w[i := Entry(w[i].price, l)], m[w[i].price := l])
  {
    var w', m' := w[i := Entry(w[i].price, l)], m[w[i].price := l];
    forall q | q in m' ensures Lists(w', q) {
      assert q in m;
      assert Lists(w, q);
      var j :| 0 <= j < |w| && w[j].price == q;
      assert w'[j].price == q;
    }
  }

  // ----- what the vector does, on values -----------------------------------------------------------

  /** lower_bound: how many entries come before p. */
  function Lower<L>(isBid: bool, w: seq<Entry<L>>, p: Price): (i: nat)
    ensures i <= |w|
  {
    if w == [] || !Before(isBid, w[0].price, p) then 0 else 1 + Lower(isBid, w[1..], p)
  }

  lemma {:induction false} LowerIsThePlace<L>(isBid: bool, w: seq<Entry<L>>, p: Price)
    requires Sorted(isBid, w)
    ensures Place(isBid, w, p, Lower(isBid, w, p))
    decreases |w|
  {
    if w != [] && Before(isBid, w[0].price, p) {
      LowerIsThePlace(isBid, w[1..], p);
      assert forall j :: 1 <= j < |w| ==> w[j] == w[1..][j - 1];
    }
  }

  lemma PlaceIsLower<L>(isBid: bool, w: seq<Entry<L>>, p: Price, i: nat)
    requires Sorted(isBid, w) && Place(isBid, w, p, i)
    ensures i == Lower(isBid, w, p)
  {
    LowerIsThePlace(isBid, w, p);
    var k := Lower(isBid, w, p);
    assert i < |w| ==> (Before(isBid, w[i].price, p) <==> i < k);
    assert k < |w| ==> (Before(isBid, w[k].price, p) <==> k < i);
  }

  function Get<L>(isBid: bool, w: seq<Entry<L>>, p: Price): Option<L> {
    var i := Lower(isBid, w, p);
    if i < |w| && w[i].price == p then Some(w[i].level) else None
  }

  /** Overwrite the level at p, or insert one at its place. */
  function Put<L>(isBid: bool, w: seq<Entry<L>>, p: Price, l: L): seq<Entry<L>> {
    var i := Lower(isBid, w, p);
    if i < |w| && w[i].price == p then w[i := Entry(p, l)] else InsertedAt(w, i, Entry(p, l))
  }

  function Drop<L>(isBid: bool, w: seq<Entry<L>>, p: Price): seq<Entry<L>> {
    var i := Lower(isBid, w, p);
    if i < |w| && w[i].price == p then w[..i] + w[i + 1..] else w
  }

  lemma GetIsLookup<L>(isBid: bool, w: seq<Entry<L>>, m: map<Price, L>, p: Price)
    requires Shows(isBid, w, m)
    ensures Get(isBid, w, p) == if p in m then Some(m[p]) else None
  {
    LowerIsThePlace(isBid, w, p);
    PlaceTells(isBid, w, m, p, Lower(isBid, w, p));
  }

  lemma PutShows<L>(isBid: bool, w: seq<Entry<L>>, m: map<Price, L>, p: Price, l: L)
    requires Shows(isBid, w, m)
    ensures Shows(isBid, Put(isBid, w, p, l), m[p := l])
  {
    var i := Lower(isBid, w, p);
    LowerIsThePlace(isBid, w, p);
    PlaceTells(isBid, w, m, p, i);
    if p in m {
      ReplaceShows(isBid, w, m, i, l);
    } else {
      InsertShows(isBid, w, m, p, l, i);
    }
  }

  lemma DropShows<L>(isBid: bool, w: seq<Entry<L>>, m: map<Price, L>, p: Price)
    requires Shows(isBid, w, m)
    ensures Shows(isBid, Drop(isBid, w, p), m - {p})
  {
    var i := Lower(isBid, w, p);
    LowerIsThePlace(isBid, w, p);
    PlaceTells(isBid, w, m, p, i);
    if p in m {
      RemoveShows(isBid, w, m, i);
    } else {
      assert m - {p} == m;
    }
  }

  /** Every map has its sorted sequence. */
  lemma {:induction false} WalkShows<L>(isBid: bool, m: map<Price, L>)
    ensures Shows(isBid, Walk(isBid, m), m)
    decreases |m.Keys|
  {
    if m.Keys != {} {
      var p := SomeKey(m);
      assert (m - {p}).Keys == m.Keys - {p};
      WalkShows(isBid, m - {p});
      PutShows(isBid, Walk(isBid, m - {p}), m - {p}, p, m[p]);
      assert (m - {p})[p := m[p]] == m;
      ShowsTheWalk(isBid, Put(isBid, Walk(isBid, m - {p}), p, m[p]), m);
    }
  }

  /** A walk shows every level once: bids from the highest price down, asks from the lowest up. */
  lemma WalkInNumbers<L>(isBid: bool, m: map<Price, L>, i: nat, j: nat)
    ensures var w := Walk(isBid, m);
      && (i < j < |w| ==> if isBid then w[i].price > w[j].price else w[i].price < w[j].price)
      && (i < |w| ==> w[i].price in m && m[w[i].price] == w[i].level)
      && forall p {:trigger p in m} :: p in m ==> Lists(w, p)
  {
    WalkShows(isBid, m);
  }

  // ----- the vector ------------------------------------------------------------------------------

  class VectorSide<L> {
    const isBid: bool
    const blank: Price -> L
    var levels: seq<Entry<L>>

    /** The ordered map this vector stands for. */
    ghost var contents: map<Price, L>

    ghost predicate Valid()
      reads this
    {
      Shows(isBid, levels, contents)
    }

    constructor (isBid: bool, blank: Price -> L)
      ensures Valid() && contents == map[] && this.isBid == isBid && this.blank == blank
    {
      this.isBid := isBid;
      this.blank := blank;
      levels, contents := [], map[];
    }

    /** The binary search for the first entry that does not come before p. */
    method Locate(p: Price) returns (i: nat)
      requires Valid()
      ensures Place(isBid, levels, p, i) && i == Lower(isBid, levels, p)
      ensures p in contents <==> i < |levels| && levels[i].price == p
    {
      i := 0;
      var count := |levels|;
      while count > 0
        invariant 0 <= count && i + count <= |levels|
        invariant forall j {:trigger levels[j]} :: 0 <= j < i ==> Before(isBid, levels[j].price, p)
        invariant forall j {:trigger levels[j]} :: i + count <= j < |levels| ==> !Before(isBid, levels[j].price, p)
      {
        var half := count / 2;
        var mid := levels[i + half];
        if Before(isBid, mid.price, p) {
          i, count := i + half + 1, count - half - 1;
        } else {
          count := half;
        }
      }
      PlaceIsLower(isBid, levels, p, i);
      PlaceTells(isBid, levels, contents, p, i);
    }

    /** The level at this price; a blank one is put there first when there is none. */
    method LevelAt(p: Price) returns (l: L)
      requires Valid()
      modifies this
      ensures Valid() && contents == (if p in old(contents) then old(contents) else old(contents)[p := blank(p)])
      ensures levels == if p in old(contents) then old(levels) else Put(isBid, old(levels), p, blank(p))
      ensures l == contents[p]
    {
      var i := Locate(p);
      if i < |levels| && levels[i].price == p {
        return levels[i].level;
      }
      l := blank(p);
      InsertShows(isBid, levels, contents, p, l, i);
      levels := InsertedAt(levels, i, Entry(p, l));
      contents := contents[p := l];
    }

    method Find(p: Price) returns (r: Option<L>)
      requires Valid()
      ensures r == Get(isBid, levels, p) == if p in contents then Some(contents[p]) else None
    {
      var i := Locate(p);
      r := if i < |levels| && levels[i].price == p then Some(levels[i].level) else None;
    }

    /** What writing through the reference or pointer of a found level does. */
    method Set(p: Price, l: L)
      requires Valid() && p in contents
      modifies this
      ensures Valid() && contents == old(contents)[p := l] && levels == Put(isBid, old(levels), p, l)
    {
      var i := Locate(p);
      ReplaceShows(isBid, levels, contents, i, l);
      levels := levels[i := Entry(p, l)];
      contents := contents[p := l];
    }

    method Erase(p: Price)
      requires Valid()
      modifies this
      ensures Valid() && contents == old(contents) - {p} && levels == Drop(isBid, old(levels), p)
    {
      var i := Locate(p);
      if i < |levels| && levels[i].price == p {
        RemoveShows(isBid, levels, contents, i);
        levels := levels[..i] + levels[i + 1..];
      }
      contents := contents - {p};
    }

    method Best() returns (r: Option<Entry<L>>)
      requires Valid()
      ensures r == if contents.Keys == {} then None else Some(Walk(isBid, contents)[0])
      ensures r.Some? ==> First(isBid, contents, r.value.price) && r.value.level == contents[r.value.price]
      ensures r.Some? ==> forall p {:trigger p in contents} :: p in contents ==> if isBid then p <= r.value.price else r.value.price <= p
    {
      ShowsTheWalk(isBid, levels, contents);
      assert levels == [] ==> forall p :: p in contents ==> Lists(levels, p);
      if levels == [] {
        assert contents.Keys == {};
        return None;
      }
      assert levels[0].price in contents;
      FrontIsFirst(isBid, levels, contents);
      r := Some(levels[0]);
    }

    /** Visit levels best first, up to a depth; the whole walk when the depth allows. */
    method Depth(depth: nat) returns (out: seq<Entry<L>>)
      requires Valid()
      ensures var w := Walk(isBid, contents); out == if depth < |w| then w[..depth] else w
    {
      ShowsTheWalk(isBid, levels, contents);
      out := [];
      var n := 0;
      while n < |levels| && n < depth
        invariant n <= |levels| && n <= depth && out == levels[..n]
      {
        out := out + [levels[n]];
        n := n + 1;
      }
    }

    method Clear()
      modifies this
      ensures Valid() && contents == map[]
    {
      levels, contents := [], map[];
    }
  }

  lemma FrontIsFirst<L>(isBid: bool, w: seq<Entry<L>>, m: map<Price, L>)
    requires Shows(isBid, w, m) && w != []
    ensures First(isBid, m, w[0].price)
  {
    assert w[0].price in m;
    forall q | q in m && q != w[0].price ensures Before(isBid, w[0].price, q) {
      assert Lists(w, q);
    }
  }
}
