/** A probed table with a value beside each key, and the finite map it stands for. */
module ProbeTable {
  import opened Common
  import opened Probing

  /** The cells and values, the map they stand for, and the live keys in the order in
      which they were inserted since the table was last empty or last grew. */
  datatype Model<!K, !V> = Model(cells: Cells<K>, vals: seq<V>, contents: map<K, V>, order: seq<K>)

  /** Each key's value sits beside it. */
  ghost predicate Beside<K(!new), V>(m: Model<K, V>) {
    && |m.cells| == |m.vals|
    && (forall i {:trigger m.vals[i]} :: 0 <= i < |m.cells| && m.cells[i].Some? ==>
          m.cells[i].value in m.contents && m.vals[i] == m.contents[m.cells[i].value])
    && (forall k {:trigger k in m.contents} {:trigger Listed(m.order, k)} :: k in m.contents <==> Listed(m.order, k))
  }

  ghost predicate Represents<K(!new), V>(hash: K -> nat, m: Model<K, V>) {
    Beside(m) && Good(hash, m.cells, m.order)
  }

  lemma SizeIs<K(!new), V>(hash: K -> nat, m: Model<K, V>)
    requires Represents(hash, m)
    ensures |m.contents.Keys| == |m.order|
  {
    assert m.contents.Keys == Elements(m.order);
  }

  function Blank<K, V>(vals: seq<V>): Model<K, V> {
    Model(seq(|vals|, _ => None), vals, map[], [])
  }

  lemma BlankRepresents<K(!new), V>(hash: K -> nat, vals: seq<V>)
    requires |vals| > 0
    ensures Represents(hash, Blank(vals))
  {
  }

  /** Where a probe for the key ends: at the key, or at the first empty slot. */
  ghost predicate ProbeEnd<K, V>(hash: K -> nat, m: Model<K, V>, key: K, i: nat) {
    && i < |m.cells|
    && m.cells[i] == (if key in m.contents then Some(key) else None)
    && TakenBefore(hash, m.cells, key, i)
  }

  /** Every probe for this key ends: at the key, or at an empty slot. */
  ghost predicate Ends<K, V>(m: Model<K, V>, key: K) {
    key in m.contents || |m.order| < |m.cells|
  }

  lemma ProbeTarget<K(!new), V>(hash: K -> nat, m: Model<K, V>, key: K) returns (e: nat)
    requires Represents(hash, m) && Ends(m, key)
    ensures e < |m.cells| && (m.cells[e].None? || m.cells[e] == Some(key))
  {
    if key in m.contents {
      assert Stored(m.cells, key);
      e :| e < |m.cells| && m.cells[e] == Some(key);
    } else {
      e := EmptySlot(m.cells, m.order);
    }
  }

  /** A probe that comes back to where it started saw every slot taken by other keys. */
  lemma ProbeExhausted<K(!new), V>(hash: K -> nat, m: Model<K, V>, key: K)
    requires Represents(hash, m) && forall r {:trigger m.cells[r]} :: 0 <= r < |m.cells| ==> m.cells[r].Some? && m.cells[r] != Some(key)
    ensures !Ends(m, key)
  {
    if Ends(m, key) {
      var e := ProbeTarget(hash, m, key);
    }
  }

  lemma ProbeMisses<K(!new), V>(hash: K -> nat, m: Model<K, V>, key: K, i: nat)
    requires Represents(hash, m) && i < |m.cells| && m.cells[i].None? && TakenBefore(hash, m.cells, key, i)
    ensures ProbeEnd(hash, m, key, i)
  {
    MissMeansAbsent(hash, m.cells, m.order, key, i);
  }

  lemma ProbeHits<K(!new), V>(hash: K -> nat, m: Model<K, V>, key: K, i: nat)
    requires Represents(hash, m) && i < |m.cells| && m.cells[i] == Some(key) && TakenBefore(hash, m.cells, key, i)
    ensures ProbeEnd(hash, m, key, i) && m.vals[i] == m.contents[key]
  {
    assert m.vals[i] == m.contents[key];
  }

  // ----- insertion --------------------------------------------------------------------------

  function Inserted<K, V>(m: Model<K, V>, key: K, value: V, i: nat): Model<K, V>
    requires i < |m.cells| && i < |m.vals|
  {
    Model(m.cells[i := Some(key)], m.vals[i := value], m.contents[key := value], m.order + [key])
  }

  lemma InsertKeeps<K(!new), V>(hash: K -> nat, m: Model<K, V>, key: K, value: V, i: nat)
    requires Represents(hash, m) && key !in m.contents && ProbeEnd(hash, m, key, i)
    ensures Represents(hash, Inserted(m, key, value, i))
  {
    AddKeeps(hash, m.cells, m.order, key, i);
    InsertBeside(m, key, value, i);
  }

  lemma InsertBeside<K(!new), V>(m: Model<K, V>, key: K, value: V, i: nat)
    requires Beside(m) && key !in m.contents && i < |m.cells|
    ensures Beside(Inserted(m, key, value, i))
  {
    var m' := Inserted(m, key, value, i);
    ListedAppend(m.order, key);
    forall j | 0 <= j < |m.cells| && m'.cells[j].Some?
      ensures m'.cells[j].value in m'.contents && m'.vals[j] == m'.contents[m'.cells[j].value]
    {
      assert j != i ==> m.vals[j] == m'.vals[j];
    }
  }

  function Overwritten<K, V>(m: Model<K, V>, key: K, value: V, i: nat): Model<K, V>
    requires i < |m.vals|
  {
    m.(vals := m.vals[i := value], contents := m.contents[key := value])
  }

  lemma OverwriteKeeps<K(!new), V>(hash: K -> nat, m: Model<K, V>, key: K, value: V, i: nat)
    requires Represents(hash, m) && key in m.contents && i < |m.cells| && m.cells[i] == Some(key)
    ensures Represents(hash, Overwritten(m, key, value, i))
  {
    var m' := Overwritten(m, key, value, i);
    forall j | 0 <= j < |m.cells| && m'.cells[j].Some?
      ensures m'.cells[j].value in m'.contents && m'.vals[j] == m'.contents[m'.cells[j].value]
    {
      assert j != i ==> m.vals[j] == m.contents[m.cells[j].value] && !Twins(m.cells, j, i);
    }
  }

  // ----- erasing ----------------------------------------------------------------------------

  /** A table in the middle of an erase: a hole, and a stretch scanned behind it. */
  ghost predicate Holey<K(!new), V>(hash: K -> nat, m: Model<K, V>, hole: nat, t: nat) {
    Beside(m) && Shifting(hash, m.cells, m.order, hole, t)
  }

  function Opened<K(==), V>(m: Model<K, V>, key: K, i: nat): Model<K, V>
    requires i < |m.cells|
  {
    Model(m.cells[i := None], m.vals, m.contents - {key}, Without(m.order, key))
  }

  lemma OpenedBeside<K(!new), V>(hash: K -> nat, m: Model<K, V>, key: K, i: nat)
    requires Represents(hash, m) && i < |m.cells| && m.cells[i] == Some(key)
    ensures Beside(Opened(m, key, i))
  {
    var m' := Opened(m, key, i);
    assert Listed(m.order, key);
    forall j | 0 <= j < |m.cells| && m'.cells[j].Some?
      ensures m'.cells[j].value in m'.contents && m'.vals[j] == m'.contents[m'.cells[j].value]
    {
      assert m.vals[j] == m.contents[m.cells[j].value] && !Twins(m.cells, j, i);
    }
    forall k ensures k in m'.contents <==> Listed(m'.order, k) {
      WithoutListed(m.order, key, k);
    }
  }

  lemma HoleyStarts<K(!new), V>(hash: K -> nat, m: Model<K, V>, key: K, i: nat)
    requires Represents(hash, m) && i < |m.cells| && m.cells[i] == Some(key)
    ensures Holey(hash, Opened(m, key, i), i, 1)
    ensures |Without(m.order, key)| == |m.order| - 1
  {
    EmptyKeeps(hash, m.cells, m.order, i);
    OpenedBeside(hash, m, key, i);
  }

  function Moved<K, V>(m: Model<K, V>, hole: nat, j: nat): Model<K, V>
    requires hole < |m.cells| && j < |m.cells| && |m.cells| == |m.vals|
  {
    m.(cells := Shifted(m.cells, hole, j), vals := m.vals[hole := m.vals[j]])
  }

  lemma HoleyMoves<K(!new), V>(hash: K -> nat, m: Model<K, V>, hole: nat, j: nat)
    requires hole < |m.cells| && j < |m.cells| && Holey(hash, m, hole, Lap(hole, j, |m.cells|))
    requires m.cells[j].Some? && Movable(hash, m.cells[j].value, hole, j, |m.cells|)
    ensures Holey(hash, Moved(m, hole, j), j, 1)
    ensures Strayed(hash, Moved(m, hole, j).cells, |m.cells|) < Strayed(hash, m.cells, |m.cells|)
  {
    ShiftKeeps(hash, m.cells, m.order, hole, j);
    ShiftComesNearer(hash, m.cells, hole, j);
    var m' := Moved(m, hole, j);
    forall i | 0 <= i < |m.cells| && m'.cells[i].Some?
      ensures m'.cells[i].value in m'.contents && m'.vals[i] == m'.contents[m'.cells[i].value]
    {
      assert m.vals[if i == hole then j else i] == m'.vals[i];
    }
  }

  lemma HoleyStays<K(!new), V>(hash: K -> nat, m: Model<K, V>, hole: nat, j: nat)
    requires hole < |m.cells| && j < |m.cells| && Holey(hash, m, hole, Lap(hole, j, |m.cells|))
    requires m.cells[j].Some? && !Movable(hash, m.cells[j].value, hole, j, |m.cells|)
    ensures Lap(hole, Next(j, |m.cells|), |m.cells|) == Lap(hole, j, |m.cells|) + 1
    ensures Holey(hash, m, hole, Lap(hole, Next(j, |m.cells|), |m.cells|))
  {
    StayKeeps(hash, m.cells, m.order, hole, j);
  }

  /** The scan went one slot on: either the hole stayed, or it moved and the keys are, in all,
      nearer to their homes. */
  ghost predicate Onward<K(!new), V>(hash: K -> nat, m: Model<K, V>, hole: nat, m': Model<K, V>, hole': nat, j: nat) {
    var n := |m.cells|;
    && |m'.cells| == n && hole < n && hole' < n && j < n
    && Holey(hash, m', hole', Lap(hole', Next(j, n), n))
    && ((Strayed(hash, m'.cells, n) < Strayed(hash, m.cells, n))
        || (m' == m && hole' == hole && Lap(hole, Next(j, n), n) == Lap(hole, j, n) + 1))
  }

  lemma HoleyEnds<K(!new), V>(hash: K -> nat, m: Model<K, V>, hole: nat, j: nat)
    requires hole < |m.cells| && j < |m.cells| && Holey(hash, m, hole, Lap(hole, j, |m.cells|))
    requires m.cells[j].None?
    ensures Represents(hash, m)
  {
    ShiftEnds(hash, m.cells, m.order, hole, j);
  }

  // ----- the theorem --------------------------------------------------------------------------

  /** A table's cells are those that inserting its live keys, in arrival order and none
      but them, builds in an empty table; the values sit beside their keys. */
  lemma AsIfNeverInserted<K(!new), V>(hash: K -> nat, m: Model<K, V>)
    requires Represents(hash, m)
    ensures m.cells == Build(hash, m.order, |m.cells|)
    ensures forall i :: 0 <= i < |m.cells| && m.cells[i].Some? ==>
      m.cells[i].value in m.contents && m.vals[i] == m.contents[m.cells[i].value]
  {
    OnlyLayout(hash, m.cells, m.order);
    forall i | 0 <= i < |m.cells| && m.cells[i].Some?
      ensures m.cells[i].value in m.contents && m.vals[i] == m.contents[m.cells[i].value]
    {
      assert m.vals[i] == m.contents[m.cells[i].value];
    }
  }

  // ----- copying a table slot by slot -------------------------------------------------------------

  /** The keys of a table in slot order, which is the order a growth reinserts them in. */
  function SlotOrder<K>(cells: Cells<K>): seq<K> {
    if cells == [] then []
    else
      var c := cells[|cells| - 1];
      SlotOrder(cells[..|cells| - 1]) + if c.None? then [] else [c.value]
  }

  lemma {:induction false} SlotOrderLists<K>(cells: Cells<K>, k: K)
    ensures Listed(SlotOrder(cells), k) <==> Stored(cells, k)
    decreases |cells|
  {
    if cells != [] {
      var rest, c := cells[..|cells| - 1], cells[|cells| - 1];
      SlotOrderLists(rest, k);
      assert cells == rest + [c];
      assert Stored(cells, k) <==> Stored(rest, k) || c == Some(k) by {
        if Stored(rest, k) {
          var i :| 0 <= i < |rest| && rest[i] == Some(k);
          assert cells[i] == Some(k);
        }
      }
      assert c.None? ==> SlotOrder(cells) == SlotOrder(rest);
      if c.Some? {
        BeforeAppend(SlotOrder(rest), c.value, k, k);
      }
    }
  }

  lemma SlotOrderNext<K>(cells: Cells<K>, i: nat)
    requires i < |cells|
    ensures SlotOrder(cells[..i + 1]) == SlotOrder(cells[..i]) + if cells[i].None? then [] else [cells[i].value]
  {
    assert cells[..i + 1][..i] == cells[..i];
  }

  /** A table that holds what the first i slots of the old one hold. */
  ghost predicate Copied<K(!new), V>(hash: K -> nat, was: Model<K, V>, m: Model<K, V>, i: nat) {
    && Represents(hash, m) && i <= |was.cells|
    && m.order == SlotOrder(was.cells[..i])
    && forall k {:trigger m.contents[k]} :: k in m.contents ==> k in was.contents && m.contents[k] == was.contents[k]
  }

  /** The next key is not yet there, and what is there is no more than the old table held. */
  lemma CopiedNext<K(!new), V>(hash: K -> nat, was: Model<K, V>, m: Model<K, V>, i: nat)
    requires Represents(hash, was) && Copied(hash, was, m, i) && i < |was.cells|
    ensures |m.order| <= |was.order|
    ensures was.cells[i].Some? ==> was.cells[i].value !in m.contents
  {
    assert Elements(m.order) <= Elements(was.order) by {
      forall k | k in Elements(m.order) ensures k in Elements(was.order) {
        assert Listed(m.order, k);
        assert k in m.contents;
        assert m.contents[k] == was.contents[k];
      }
    }
    SubsetNoLarger(Elements(m.order), Elements(was.order));
    if was.cells[i].Some? && was.cells[i].value in m.contents {
      SlotOrderLists(was.cells[..i], was.cells[i].value);
      assert Stored(was.cells[..i], was.cells[i].value);
      var j: nat :| j < i && was.cells[..i][j] == was.cells[i];
      assert Twins(was.cells, j, i);
    }
  }

  lemma CopiedStep<K(!new), V>(hash: K -> nat, was: Model<K, V>, m: Model<K, V>, m': Model<K, V>, i: nat)
    requires Represents(hash, was) && Copied(hash, was, m, i) && i < |was.cells| && Represents(hash, m')
    requires was.cells[i].None? ==> m' == m
    requires was.cells[i].Some? ==> m'.contents == m.contents[was.cells[i].value := was.vals[i]]
    requires was.cells[i].Some? ==> m'.order == m.order + [was.cells[i].value]
    ensures Copied(hash, was, m', i + 1)
  {
    SlotOrderNext(was.cells, i);
    assert m.order + [] == m.order;
    assert was.cells[i].Some? ==> was.vals[i] == was.contents[was.cells[i].value];
    forall k | k in m'.contents ensures k in was.contents && m'.contents[k] == was.contents[k] {
      assert was.cells[i] != Some(k) ==> m'.contents[k] == m.contents[k];
    }
  }

  lemma CopiedAll<K(!new), V>(hash: K -> nat, was: Model<K, V>, m: Model<K, V>)
    requires Represents(hash, was) && Copied(hash, was, m, |was.cells|)
    ensures m.contents == was.contents && m.order == SlotOrder(was.cells)
  {
    assert was.cells[..|was.cells|] == was.cells;
    forall k | k in was.contents ensures k in m.contents {
      assert Listed(was.order, k) && Stored(was.cells, k);
      SlotOrderLists(was.cells, k);
    }
    forall k | k in m.contents ensures k in was.contents && m.contents[k] == was.contents[k] {
    }
    assert m.contents.Keys == was.contents.Keys;
  }
}
