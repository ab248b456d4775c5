/**
  Open addressing with linear probing and backward-shift deletion (Algorithm R in
  section 6.4 of Knuth, The Art of Computer Programming, volume 3), on values.

  The invariant is "first come": every slot a key was probed past holds a key that
  came before it.  It says that no probe chain is broken, and it leaves only one
  possible layout: the one that inserting the live keys in arrival order builds.
 */
module Probing {
  import opened Common

  // ----- the circle ---------------------------------------------------------------

  /** Steps forward from a to b on a ring of n slots. */
  function Dist(a: nat, b: nat, n: nat): (d: nat)
    requires a < n && b < n
    ensures d < n
  {
    if a <= b then b - a else b + n - a
  }

  /** `(i + 1) & mask`. */
  function Next(i: nat, n: nat): (j: nat)
    requires i < n
    ensures j < n
  {
    if i + 1 == n then 0 else i + 1
  }

  /** The slot d steps after a. */
  function At(a: nat, d: nat, n: nat): (r: nat)
    requires a < n && d < n
    ensures r < n && Dist(a, r, n) == d
  {
    if a + d < n then a + d else a + d - n
  }

  // ----- arrival order --------------------------------------------------------------

  ghost predicate Distinct<K>(order: seq<K>) {
    forall i, j :: 0 <= i < j < |order| ==> order[i] != order[j]
  }

  ghost predicate Listed<K>(order: seq<K>, k: K) {
    exists i :: 0 <= i < |order| && order[i] == k
  }

  /** a arrived before b. */
  ghost predicate Before<K>(order: seq<K>, a: K, b: K) {
    exists i, j :: 0 <= i < j < |order| && order[i] == a && order[j] == b
  }

  lemma BeforeAppend<K>(order: seq<K>, k: K, a: K, b: K)
    ensures Before(order, a, b) ==> Before(order + [k], a, b)
    ensures Listed(order, a) ==> Before(order + [k], a, k)
    ensures Listed(order + [k], a) <==> Listed(order, a) || a == k
  {
    var order' := order + [k];
    assert order'[|order|] == k;
    if Before(order, a, b) {
      var i, j :| 0 <= i < j < |order| && order[i] == a && order[j] == b;
      assert order'[i] == a && order'[j] == b;
    }
    if Listed(order, a) {
      var i :| 0 <= i < |order| && order[i] == a;
      assert order'[i] == a;
    }
  }

  /** The sequence without its first k. */
  function Without<K(==)>(order: seq<K>, k: K): seq<K> {
    if order == [] then []
    else if order[0] == k then order[1..]
    else [order[0]] + Without(order[1..], k)
  }

  lemma {:induction false} WithoutCuts<K>(order: seq<K>, i: nat)
    requires i < |order| && forall j :: 0 <= j < i ==> order[j] != order[i]
    ensures Without(order, order[i]) == order[..i] + order[i + 1..]
  {
    if i > 0 {
      WithoutCuts(order[1..], i - 1);
    }
  }

  /** What is left, place by place, when position c is cut out. */
  lemma WithoutAt<K>(order: seq<K>, k: K) returns (c: nat)
    requires Distinct(order) && Listed(order, k)
    ensures c < |order| && order[c] == k && |Without(order, k)| == |order| - 1
    ensures forall i {:trigger Without(order, k)[i]} :: 0 <= i < |order| - 1 ==>
      Without(order, k)[i] == order[if i < c then i else i + 1]
    ensures forall i {:trigger order[i]} :: 0 <= i < |order| && i != c ==>
      Without(order, k)[if i < c then i else i - 1] == order[i]
  {
    c :| 0 <= c < |order| && order[c] == k;
    WithoutCuts(order, c);
  }

  lemma WithoutDistinct<K>(order: seq<K>, k: K)
    requires Distinct(order) && Listed(order, k)
    ensures |Without(order, k)| == |order| - 1 && Distinct(Without(order, k))
  {
    var c := WithoutAt(order, k);
  }

  lemma WithoutListed<K>(order: seq<K>, k: K, a: K)
    requires Distinct(order) && Listed(order, k)
    ensures Listed(Without(order, k), a) <==> Listed(order, a) && a != k
  {
    var c := WithoutAt(order, k);
  }

  lemma BeforeAt<K>(order: seq<K>, i: nat, j: nat)
    requires i < j < |order|
    ensures Before(order, order[i], order[j])
  {
  }

  /** Cutting a place out leaves the others in order. */
  lemma CutBefore<K>(order: seq<K>, c: nat, i: nat, j: nat)
    requires c < |order| && i < j < |order| && i != c && j != c
    ensures Before(order[..c] + order[c + 1..], order[i], order[j])
  {
    BeforeAt(order[..c] + order[c + 1..], if i < c then i else i - 1, if j < c then j else j - 1);
  }

  lemma WithoutBefore<K>(order: seq<K>, k: K, a: K, b: K)
    requires Distinct(order) && Listed(order, k) && Before(order, a, b) && a != k && b != k
    ensures Before(Without(order, k), a, b)
  {
    var c: nat :| c < |order| && order[c] == k;
    var i: nat, j: nat :| i < j < |order| && order[i] == a && order[j] == b;
    CutBefore(order, c, i, j);
    WithoutCuts(order, c);
  }

  // ----- tables ---------------------------------------------------------------------

  type Cells<K> = seq<Option<K>>

  function Home<K>(hash: K -> nat, k: K, n: nat): nat
    requires n > 0
  {
    Residue(hash(k), n)
  }

  ghost predicate Stored<K>(cells: Cells<K>, k: K) {
    exists i :: 0 <= i < |cells| && cells[i] == Some(k)
  }

  ghost predicate Twins<K>(cells: Cells<K>, i: nat, j: nat)
    requires i < |cells| && j < |cells|
  {
    cells[i].Some? && cells[i] == cells[j]
  }

  /** The cells hold exactly the listed keys, each once. */
  ghost predicate Consistent<K(!new)>(cells: Cells<K>, order: seq<K>) {
    && Distinct(order)
    && (forall i {:trigger Listed(order, cells[i].value)} :: 0 <= i < |cells| && cells[i].Some? ==> Listed(order, cells[i].value))
    && (forall i: nat, j: nat {:trigger Twins(cells, i, j)} :: i < |cells| && j < |cells| && Twins(cells, i, j) ==> i == j)
    && (forall k {:trigger Stored(cells, k)} :: Listed(order, k) ==> Stored(cells, k))
  }

  /** Slot r was passed by the probe that put the key of slot i where it is. */
  ghost predicate Passed<K>(hash: K -> nat, cells: Cells<K>, i: nat, r: nat)
    requires i < |cells| && r < |cells|
  {
    cells[i].Some? &&
    var home := Home(hash, cells[i].value, |cells|);
    Dist(home, r, |cells|) < Dist(home, i, |cells|)
  }

  ghost predicate Earlier<K>(cells: Cells<K>, order: seq<K>, r: nat, i: nat)
    requires r < |cells| && i < |cells|
  {
    cells[r].Some? && cells[i].Some? && Before(order, cells[r].value, cells[i].value)
  }

  /** Every passed slot, but possibly the hole, holds an earlier key. */
  ghost predicate FirstCome<K>(hash: K -> nat, cells: Cells<K>, order: seq<K>, hole: int) {
    forall i: nat, r: nat {:trigger Passed(hash, cells, i, r)} ::
      i < |cells| && r < |cells| && r != hole && Passed(hash, cells, i, r) ==> Earlier(cells, order, r, i)
  }

  const NO_HOLE: int := -1

  ghost predicate Good<K(!new)>(hash: K -> nat, cells: Cells<K>, order: seq<K>) {
    |cells| > 0 && Consistent(cells, order) && FirstCome(hash, cells, order, NO_HOLE)
  }

  // ----- there is always an empty slot --------------------------------------------------

  lemma SubsetNoLarger<T>(a: set<T>, b: set<T>)
    requires a <= b
    ensures |a| <= |b|
  {
    assert a + (b - a) == b;
  }

  ghost function Elements<K(!new)>(s: seq<K>): (e: set<K>)
    ensures |e| <= |s|
    ensures Distinct(s) ==> |e| == |s|
    ensures forall k {:trigger k in e} {:trigger Listed(s, k)} :: k in e <==> Listed(s, k)
  {
    if s == [] then {}
    else
      var rest, k := s[..|s| - 1], s[|s| - 1];
      assert s == rest + [k];
      ListedAppend(rest, k);
      assert Distinct(s) ==> Distinct(rest) && !Listed(rest, k);
      Elements(rest) + {k}
  }

  lemma ListedAppend<K(!new)>(order: seq<K>, k: K)
    ensures forall a {:trigger Listed(order + [k], a)} :: Listed(order + [k], a) <==> Listed(order, a) || a == k
  {
    forall a ensures Listed(order + [k], a) <==> Listed(order, a) || a == k {
      BeforeAppend(order, k, a, k);
    }
  }

  /** The keys a table holds, as cells: one for each key. */
  ghost function Named<K(!new)>(s: set<K>): (t: set<Option<K>>)
    ensures |t| == |s| && None !in t
    ensures forall k {:trigger Some(k) in t} {:trigger k in s} :: Some(k) in t <==> k in s
  {
    NamesAsMany(s);
    set k | k in s :: Some(k)
  }

  lemma {:induction false} NamesAsMany<K>(s: set<K>)
    ensures |set k | k in s :: Some(k)| == |s|
  {
    if s != {} {
      var a :| a in s;
      NamesAsMany(s - {a});
      assert (set k | k in s :: Some(k)) == (set k | k in s - {a} :: Some(k)) + {Some(a)};
    }
  }

  /** A table with fewer keys than slots has an empty slot, so every probe ends. */
  lemma EmptySlot<K(!new)>(cells: Cells<K>, order: seq<K>) returns (e: nat)
    requires Consistent(cells, order) && |order| < |cells|
    ensures e < |cells| && cells[e].None?
  {
    if forall i {:trigger cells[i]} :: 0 <= i < |cells| ==> cells[i].Some? {
      assert Distinct(cells) by {
        forall i, j | 0 <= i < j < |cells| ensures cells[i] != cells[j] {
          assert !Twins(cells, i, j);
        }
      }
      forall c | c in Elements(cells) ensures c in Named(Elements(order)) {
        assert Listed(cells, c);
        var i :| 0 <= i < |cells| && cells[i] == c;
        assert Listed(order, cells[i].value);
      }
      SubsetNoLarger(Elements(cells), Named(Elements(order)));
      assert false;
    }
    e :| e < |cells| && cells[e].None?;
  }

  /** An empty slot means fewer keys than slots. */
  lemma EmptyMeansRoom<K(!new)>(cells: Cells<K>, order: seq<K>, e: nat)
    requires Consistent(cells, order) && e < |cells| && cells[e].None?
    ensures |order| < |cells|
  {
    var named := Named(Elements(order)) + {None};
    forall c | c in named ensures c in Elements(cells) {
      if c == None {
        assert cells[e] == c;
      } else {
        assert Listed(order, c.value);
        assert Stored(cells, c.value);
      }
      assert Listed(cells, c);
    }
    SubsetNoLarger(named, Elements(cells));
  }

  // ----- lookup -----------------------------------------------------------------------

  /** Every slot before e on the probe path of k is taken by another key. */
  ghost predicate TakenBefore<K>(hash: K -> nat, cells: Cells<K>, k: K, e: nat)
    requires e < |cells|
  {
    var n := |cells|;
    forall r: nat {:trigger cells[r]} :: r < n && Dist(Home(hash, k, n), r, n) < Dist(Home(hash, k, n), e, n) ==>
      cells[r].Some? && cells[r] != Some(k)
  }

  /** An empty slot on the probe path of k, with k not seen before it, means k is absent. */
  lemma MissMeansAbsent<K(!new)>(hash: K -> nat, cells: Cells<K>, order: seq<K>, k: K, e: nat)
    requires Good(hash, cells, order) && e < |cells| && cells[e].None? && TakenBefore(hash, cells, k, e)
    ensures !Listed(order, k)
  {
    if Listed(order, k) {
      assert Stored(cells, k);
      var i: nat :| i < |cells| && cells[i] == Some(k);
      assert Passed(hash, cells, i, e);
    }
  }

  // ----- insertion ----------------------------------------------------------------------

  /** Taking the first empty slot of the probe path keeps the invariant. */
  lemma AddKeeps<K(!new)>(hash: K -> nat, cells: Cells<K>, order: seq<K>, k: K, e: nat)
    requires Good(hash, cells, order) && !Listed(order, k)
    requires e < |cells| && cells[e].None? && TakenBefore(hash, cells, k, e)
    ensures Good(hash, cells[e := Some(k)], order + [k])
  {
    var cells' := cells[e := Some(k)];
    ConsistentAdd(cells, order, k, e);
    forall i: nat, r: nat | i < |cells'| && r < |cells'| && Passed(hash, cells', i, r)
      ensures Earlier(cells', order + [k], r, i)
    {
      assert i != e ==> Passed(hash, cells, i, r) && Earlier(cells, order, r, i);
      assert i == e ==> cells[r].Some? && Listed(order, cells[r].value);
      BeforeAppend(order, k, cells[r].value, cells'[i].value);
    }
  }

  lemma ConsistentAdd<K(!new)>(cells: Cells<K>, order: seq<K>, k: K, e: nat)
    requires Consistent(cells, order) && !Listed(order, k) && e < |cells| && cells[e].None?
    ensures Consistent(cells[e := Some(k)], order + [k])
  {
    var cells' := cells[e := Some(k)];
    ListedAppend(order, k);
    assert Distinct(order + [k]);
    forall i: nat, j: nat | i < |cells| && j < |cells| && Twins(cells', i, j) ensures i == j {
      assert i != e && j != e ==> Twins(cells, i, j);
      assert i != e ==> cells[i].Some? ==> Listed(order, cells[i].value);
      assert j != e ==> cells[j].Some? ==> Listed(order, cells[j].value);
    }
    forall a | Listed(order + [k], a) ensures Stored(cells', a) {
      assert cells'[e] == Some(k);
      if a != k {
        assert Stored(cells, a);
        var i :| 0 <= i < |cells| && cells[i] == Some(a);
        assert cells'[i] == Some(a);
      }
    }
  }

  // ----- backward-shift deletion --------------------------------------------------------

  lemma ConsistentEmpty<K(!new)>(cells: Cells<K>, order: seq<K>, i: nat)
    requires Consistent(cells, order) && i < |cells| && cells[i].Some?
    ensures var order' := Without(order, cells[i].value);
      Consistent(cells[i := None], order') && |order'| == |order| - 1
  {
    var k := cells[i].value;
    var cells', order' := cells[i := None], Without(order, k);
    assert Listed(order, k);
    WithoutDistinct(order, k);
    forall j | 0 <= j < |cells| && cells'[j].Some? ensures Listed(order', cells'[j].value) {
      assert Listed(order, cells[j].value) && !Twins(cells, j, i);
      WithoutListed(order, k, cells[j].value);
    }
    forall a: nat, b: nat | a < |cells| && b < |cells| && Twins(cells', a, b) ensures a == b {
      assert Twins(cells, a, b);
    }
    forall a | Listed(order', a) ensures Stored(cells', a) {
      WithoutListed(order, k, a);
      assert Stored(cells, a);
      var j :| 0 <= j < |cells| && cells[j] == Some(a);
      assert cells'[j] == Some(a);
    }
  }

  /** Taking a key out leaves a hole and breaks nothing else. */
  lemma EmptyKeeps<K(!new)>(hash: K -> nat, cells: Cells<K>, order: seq<K>, i: nat)
    requires Good(hash, cells, order) && i < |cells| && cells[i].Some?
    ensures var order' := Without(order, cells[i].value);
      && Consistent(cells[i := None], order') && |order'| == |order| - 1
      && FirstCome(hash, cells[i := None], order', i)
  {
    var k := cells[i].value;
    var cells', order' := cells[i := None], Without(order, k);
    ConsistentEmpty(cells, order, i);
    assert Listed(order, k);
    forall j: nat, r: nat | j < |cells| && r < |cells| && r != i && Passed(hash, cells', j, r)
      ensures Earlier(cells', order', r, j)
    {
      assert Passed(hash, cells, j, r) && Earlier(cells, order, r, j);
      assert !Twins(cells, r, i) && !Twins(cells, j, i);
      WithoutBefore(order, k, cells[r].value, cells[j].value);
    }
  }

  /** Whether the entry at j may move back into the hole: its probe passed the hole. */
  ghost predicate Movable<K>(hash: K -> nat, k: K, hole: nat, j: nat, n: nat)
    requires hole < n && j < n
  {
    Dist(Home(hash, k, n), hole, n) < Dist(Home(hash, k, n), j, n)
  }

  /** How far a scan that left the hole has come at slot j: once around when it is back. */
  function Lap(hole: nat, j: nat, n: nat): (t: nat)
    requires hole < n && j < n
    ensures 0 < t <= n
  {
    if j == hole then n else Dist(hole, j, n)
  }

  /** The slots scanned since the hole hold entries that must stay where they are. */
  ghost predicate Scanned<K>(hash: K -> nat, cells: Cells<K>, hole: nat, t: nat)
    requires hole < |cells|
  {
    var n := |cells|;
    forall r: nat {:trigger cells[r]} :: r < n && 0 < Dist(hole, r, n) < t ==>
      cells[r].Some? && !Movable(hash, cells[r].value, hole, r, n)
  }

  /** A table in the middle of an erase. */
  ghost predicate Shifting<K(!new)>(hash: K -> nat, cells: Cells<K>, order: seq<K>, hole: nat, t: nat) {
    && hole < |cells|
    && Consistent(cells, order) && FirstCome(hash, cells, order, hole) && cells[hole].None?
    && Scanned(hash, cells, hole, t)
  }

  function Shifted<K>(cells: Cells<K>, hole: nat, j: nat): Cells<K>
    requires hole < |cells| && j < |cells|
  {
    cells[hole := cells[j]][j := None]
  }

  lemma ConsistentShift<K(!new)>(cells: Cells<K>, order: seq<K>, hole: nat, j: nat)
    requires Consistent(cells, order) && hole < |cells| && j < |cells| && cells[hole].None? && cells[j].Some?
    ensures Consistent(Shifted(cells, hole, j), order)
  {
    var cells' := Shifted(cells, hole, j);
    forall i | 0 <= i < |cells| && cells'[i].Some? ensures Listed(order, cells'[i].value) {
      assert Listed(order, cells[j].value);
      assert i != hole ==> Listed(order, cells[i].value);
    }
    forall a: nat, b: nat | a < |cells| && b < |cells| && Twins(cells', a, b) ensures a == b {
      assert Twins(cells, if a == hole then j else a, if b == hole then j else b);
    }
    forall a | Listed(order, a) ensures Stored(cells', a) {
      assert Stored(cells, a);
      var i :| 0 <= i < |cells| && cells[i] == Some(a);
      assert cells'[if i == j then hole else i] == Some(a);
    }
  }

  /** Moving the first movable entry into the hole; the hole follows it and the scan starts
      again behind it. */
  lemma ShiftKeeps<K(!new)>(hash: K -> nat, cells: Cells<K>, order: seq<K>, hole: nat, j: nat)
    requires hole < |cells| && j < |cells| && Shifting(hash, cells, order, hole, Lap(hole, j, |cells|))
    requires cells[j].Some? && Movable(hash, cells[j].value, hole, j, |cells|)
    ensures Shifting(hash, Shifted(cells, hole, j), order, j, 1)
  {
    var cells' := Shifted(cells, hole, j);
    ConsistentShift(cells, order, hole, j);
    forall i: nat, r: nat | i < |cells| && r < |cells| && r != j && Passed(hash, cells', i, r)
      ensures Earlier(cells', order, r, i)
    {
      if i == hole {
        assert r != hole && Passed(hash, cells, j, r) && Earlier(cells, order, r, j);
      } else if r != hole {
        assert Passed(hash, cells, i, r) && Earlier(cells, order, r, i);
      } else {
        PassedHoleBeyond(hash, cells, order, hole, j, i);
      }
    }
  }

  /** A key whose probe passed the hole sits beyond the first movable entry. */
  lemma PassedHoleBeyond<K(!new)>(hash: K -> nat, cells: Cells<K>, order: seq<K>, hole: nat, j: nat, i: nat)
    requires hole < |cells| && j < |cells| && i < |cells| && i != j
    requires Shifting(hash, cells, order, hole, Lap(hole, j, |cells|))
    requires cells[j].Some? && Movable(hash, cells[j].value, hole, j, |cells|)
    requires Passed(hash, cells, i, hole)
    ensures Earlier(cells, order, j, i)
  {
    var n := |cells|;
    assert Movable(hash, cells[i].value, hole, i, n);
    assert !(0 < Dist(hole, i, n) < Dist(hole, j, n));
    assert Passed(hash, cells, i, j);
  }

  lemma StayKeeps<K(!new)>(hash: K -> nat, cells: Cells<K>, order: seq<K>, hole: nat, j: nat)
    requires hole < |cells| && j < |cells| && Shifting(hash, cells, order, hole, Lap(hole, j, |cells|))
    requires cells[j].Some? && !Movable(hash, cells[j].value, hole, j, |cells|)
    ensures Shifting(hash, cells, order, hole, Lap(hole, j, |cells|) + 1)
    ensures Lap(hole, Next(j, |cells|), |cells|) == Lap(hole, j, |cells|) + 1
  {
  }

  lemma NobodyPassesTheHole<K(!new)>(hash: K -> nat, cells: Cells<K>, order: seq<K>, hole: nat, j: nat, i: nat)
    requires hole < |cells| && j < |cells| && i < |cells| && Shifting(hash, cells, order, hole, Lap(hole, j, |cells|))
    requires cells[j].None?
    ensures !Passed(hash, cells, i, hole)
  {
    assert j != hole ==> !Passed(hash, cells, i, j);
    assert cells[i].Some? ==> (Passed(hash, cells, i, hole) <==> Movable(hash, cells[i].value, hole, i, |cells|));
  }

  /** The scan stopped at an empty slot, if only at the hole itself: no probe passes the hole
      any more. */
  lemma ShiftEnds<K(!new)>(hash: K -> nat, cells: Cells<K>, order: seq<K>, hole: nat, j: nat)
    requires hole < |cells| && j < |cells| && Shifting(hash, cells, order, hole, Lap(hole, j, |cells|))
    requires cells[j].None?
    ensures Good(hash, cells, order)
  {
    forall i: nat, r: nat | i < |cells| && r < |cells| && Passed(hash, cells, i, r) ensures Earlier(cells, order, r, i) {
      NobodyPassesTheHole(hash, cells, order, hole, j, i);
    }
  }

  // Every move brings a key nearer to its home, so an erase ends even in a full table.

  function Astray<K>(hash: K -> nat, c: Option<K>, i: nat, n: nat): nat
    requires i < n
  {
    if c.None? then 0 else Dist(Home(hash, c.value, n), i, n)
  }

  /** How far the entries of the first k slots are from their homes, in all. */
  function Strayed<K>(hash: K -> nat, cells: Cells<K>, k: nat): nat
    requires k <= |cells|
  {
    if k == 0 then 0 else Strayed(hash, cells, k - 1) + Astray(hash, cells[k - 1], k - 1, |cells|)
  }

  lemma {:induction false} StrayedUpdate<K>(hash: K -> nat, cells: Cells<K>, i: nat, c: Option<K>, k: nat)
    requires i < |cells| && k <= |cells|
    ensures Strayed(hash, cells[i := c], k)
         == Strayed(hash, cells, k) + (if i < k then Astray(hash, c, i, |cells|) - Astray(hash, cells[i], i, |cells|) else 0)
  {
    if k > 0 {
      StrayedUpdate(hash, cells, i, c, k - 1);
    }
  }

  lemma ShiftComesNearer<K>(hash: K -> nat, cells: Cells<K>, hole: nat, j: nat)
    requires hole < |cells| && j < |cells| && hole != j && cells[hole].None? && cells[j].Some?
    requires Movable(hash, cells[j].value, hole, j, |cells|)
    ensures Strayed(hash, Shifted(cells, hole, j), |cells|) < Strayed(hash, cells, |cells|)
  {
    StrayedUpdate(hash, cells, hole, cells[j], |cells|);
    StrayedUpdate(hash, cells[hole := cells[j]], j, None, |cells|);
  }

  // ----- one layout only ------------------------------------------------------------------

  /** The first empty slot at least d steps after home; home itself when there is none. */
  function FirstFree<K>(cells: Cells<K>, home: nat, d: nat): (e: nat)
    requires home < |cells| && d <= |cells|
    ensures e < |cells|
    decreases |cells| - d
  {
    if d == |cells| then home
    else if cells[At(home, d, |cells|)].None? then At(home, d, |cells|)
    else FirstFree(cells, home, d + 1)
  }

  /** Inserting the keys one after another into an empty table of n slots. */
  function Build<K>(hash: K -> nat, order: seq<K>, n: nat): (cells: Cells<K>)
    requires n > 0
    ensures |cells| == n
    decreases |order|
  {
    if order == [] then seq(n, _ => None)
    else
      var k := order[|order| - 1];
      var cells := Build(hash, order[..|order| - 1], n);
      cells[FirstFree(cells, Home(hash, k, n), 0) := Some(k)]
  }

  lemma {:induction false} FirstFreeIs<K>(cells: Cells<K>, home: nat, d: nat, e: nat)
    requires home < |cells| && e < |cells| && d <= Dist(home, e, |cells|) && cells[e].None?
    requires forall r: nat {:trigger cells[r]} :: r < |cells| && d <= Dist(home, r, |cells|) < Dist(home, e, |cells|) ==> cells[r].Some?
    ensures FirstFree(cells, home, d) == e
    decreases |cells| - d
  {
    if d < Dist(home, e, |cells|) {
      FirstFreeIs(cells, home, d + 1, e);
    }
  }

  lemma WithoutLast<K>(order: seq<K>)
    requires Distinct(order) && order != []
    ensures Without(order, order[|order| - 1]) == order[..|order| - 1]
  {
    WithoutCuts(order, |order| - 1);
  }

  /** A good layout is the one that inserting its keys in arrival order builds. */
  lemma {:induction false} OnlyLayout<K(!new)>(hash: K -> nat, cells: Cells<K>, order: seq<K>)
    requires Good(hash, cells, order)
    ensures cells == Build(hash, order, |cells|)
    decreases |order|
  {
    if order == [] {
      assert forall i :: 0 <= i < |cells| && cells[i].Some? ==> Listed(order, cells[i].value);
    } else {
      var k := order[|order| - 1];
      assert Listed(order, k);
      assert Stored(cells, k);
      var i: nat :| i < |cells| && cells[i] == Some(k);
      LastOut(hash, cells, order, i);
      WithoutLast(order);
      OnlyLayout(hash, cells[i := None], order[..|order| - 1]);
      LastIn(hash, cells, order, i);
    }
  }

  /** Probing for a key finds the slot it was taken out of. */
  lemma LastIn<K(!new)>(hash: K -> nat, cells: Cells<K>, order: seq<K>, i: nat)
    requires Good(hash, cells, order) && i < |cells| && cells[i].Some?
    ensures var rest := cells[i := None];
      cells == rest[FirstFree(rest, Home(hash, cells[i].value, |cells|), 0) := cells[i]]
  {
    var n := |cells|;
    var rest := cells[i := None];
    var home := Home(hash, cells[i].value, n);
    forall r: nat | r < n && Dist(home, r, n) < Dist(home, i, n) ensures rest[r].Some? {
      assert Passed(hash, cells, i, r);
    }
    FirstFreeIs(rest, home, 0, i);
  }

  /** The latest arrival was passed by nobody, so it can simply be taken out. */
  lemma LastOut<K(!new)>(hash: K -> nat, cells: Cells<K>, order: seq<K>, i: nat)
    requires Good(hash, cells, order) && i < |cells| && order != [] && cells[i] == Some(order[|order| - 1])
    ensures Good(hash, cells[i := None], Without(order, cells[i].value))
  {
    var cells' := cells[i := None];
    EmptyKeeps(hash, cells, order, i);
    forall j: nat, r: nat | j < |cells| && r < |cells| && Passed(hash, cells', j, r)
      ensures Earlier(cells', Without(order, cells[i].value), r, j)
    {
      assert Passed(hash, cells, j, r) && Earlier(cells, order, r, j);
    }
  }
}
