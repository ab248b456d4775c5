/** The order reference table: two flat arrays, key zero marks an empty slot. */
module FlatOrderMap {
  import opened Common
  import opened Probing
  import opened ProbeTable

  /** Three fifths of the capacity, rounded down: what the double product 0.6 * capacity
      truncates to for every power of two below 2^53. */
  function MaxFill(capacity: nat): nat {
    capacity * 3 / 5
  }

  /** Is x in the cyclic interval that is open at lo and closed at hi. */
  predicate CyclicallyBetween(lo: nat, x: nat, hi: nat) {
    if lo <= hi then lo < x && x <= hi else lo < x || x <= hi
  }

  /** The interval test picks exactly the entries whose probe never passed the hole. */
  lemma BetweenMeansStay(hash: nat -> nat, k: nat, hole: nat, j: nat, n: nat)
    requires hole < n && j < n && hole != j
    ensures CyclicallyBetween(hole, Home(hash, k, n), j) <==> !Movable(hash, k, hole, j, n)
  {
  }

  function CellOf(key: nat): Option<nat> {
    if key == 0 then None else Some(key)
  }

  /** The key array read as optional keys. */
  function CellsOf(keys: seq<nat>): (cells: Cells<nat>)
    ensures |cells| == |keys|
    ensures forall i {:trigger cells[i]} {:trigger keys[i]} :: 0 <= i < |keys| ==> cells[i] == CellOf(keys[i])
  {
    Mapped(k => CellOf(k), keys)
  }

  lemma CellsOfUpdate(keys: seq<nat>, i: nat, key: nat)
    requires i < |keys|
    ensures CellsOf(keys[i := key]) == CellsOf(keys)[i := CellOf(key)]
  {
  }

  ghost predicate Fits<V>(m: Model<nat, V>) {
    0 !in m.contents && |m.order| <= MaxFill(|m.cells|)
  }

  class FlatOrderMap<V(0)> {
    const hash: nat -> nat
    var keys: array<nat>
    var vals: array<V>
    var size: nat
    var growths: nat

    /** The map this table stands for, and its live keys in the order in which they
        were inserted since the table last grew. */
    ghost var contents: map<nat, V>
    ghost var order: seq<nat>

    ghost predicate Valid()
      reads this, keys, vals
    {
      && keys as object != vals as object && size == |order|
      && Represents(hash, Model(CellsOf(keys[..]), vals[..], contents, order))
      && Fits(Model(CellsOf(keys[..]), vals[..], contents, order))
    }

    ghost predicate Tied(m: Model<nat, V>)
      reads this, keys, vals
    {
      keys as object != vals as object && m.cells == CellsOf(keys[..]) && m.vals == vals[..]
    }

    constructor (hash: nat -> nat, capacityHint: nat)
      ensures Valid() && fresh(keys) && fresh(vals)
      ensures contents == map[] && order == [] && growths == 0
      ensures RoundedUp(keys.Length, capacityHint) && this.hash == hash
    {
      var capacity := RoundUpPow2(capacityHint);
      this.hash := hash;
      keys := new nat[capacity](_ => 0);
      vals := new V[capacity];
      size, growths, contents, order := 0, 0, map[], [];
      new;
      BlankRepresents<nat, V>(hash, vals[..]);
      assert CellsOf(keys[..]) == Blank<nat, V>(vals[..]).cells;
    }

    /** Walk forward from the home slot to the key or to the first empty slot. */
    method Probe(key: nat, ghost m: Model<nat, V>) returns (i: nat)
      requires Tied(m) && Represents(hash, m) && key != 0 && |m.order| < keys.Length
      ensures i < keys.Length && ProbeEnd(hash, m, key, i)
      ensures keys[i] == if key in m.contents then key else 0
      ensures key in m.contents ==> vals[i] == m.contents[key]
    {
      var n := keys.Length;
      var home := Home(hash, key, n);
      ghost var e := EmptySlot(m.cells, m.order);
      i := home;
      while keys[i] != 0
        invariant i < n && Dist(home, i, n) <= Dist(home, e, n)
        invariant TakenBefore(hash, m.cells, key, i)
        decreases Dist(home, e, n) - Dist(home, i, n)
      {
        if keys[i] == key {
          ProbeHits(hash, m, key, i);
          return;
        }
        assert m.cells[i] == Some(keys[i]);
        i := Next(i, n);
      }
      ProbeMisses(hash, m, key, i);
    }

    method Find(key: nat) returns (r: Option<V>)
      requires Valid()
      ensures r == if key in contents then Some(contents[key]) else None
    {
      if key == 0 {
        return None;
      }
      var i := Probe(key, Model(CellsOf(keys[..]), vals[..], contents, order));
      r := if keys[i] == key then Some(vals[i]) else None;
    }

    method Write(i: nat, key: nat, value: V)
      requires i < keys.Length == vals.Length && keys as object != vals as object
      modifies keys, vals
      ensures vals[..] == old(vals[..])[i := value]
      ensures CellsOf(keys[..]) == old(CellsOf(keys[..]))[i := CellOf(key)]
    {
      CellsOfUpdate(keys[..], i, key);
      keys[i] := key;
      vals[i] := value;
      assert keys[..] == old(keys[..])[i := key];
    }

    /** Insert when there is room, so that a growth test would be false. */
    method Put(key: nat, value: V, ghost m: Model<nat, V>) returns (added: bool, ghost m': Model<nat, V>)
      requires Tied(m) && Represents(hash, m) && Fits(m) && key != 0 && |m.order| + 1 <= MaxFill(keys.Length)
      modifies keys, vals
      ensures Tied(m') && Represents(hash, m') && Fits(m')
      ensures added <==> key !in m.contents
      ensures m'.contents == m.contents[key := value]
      ensures m'.order == if added then m.order + [key] else m.order
    {
      var i := Probe(key, m);
      added := keys[i] == 0;
      if added {
        InsertKeeps(hash, m, key, value, i);
        m' := Inserted(m, key, value, i);
        Write(i, key, value);
      } else {
        OverwriteKeeps(hash, m, key, value, i);
        m' := Overwritten(m, key, value, i);
        vals[i] := value;
        assert vals[..] == m'.vals;
      }
    }

    /** Put back every entry of the old arrays, in slot order.  No entry grows the table again. */
    method Reinsert(oldKeys: array<nat>, oldVals: array<V>, ghost was: Model<nat, V>, ghost before: Model<nat, V>)
      returns (ghost m: Model<nat, V>)
      requires Tied(before) && Represents(hash, before) && before.contents == map[] && before.order == []
      requires CellsOf(oldKeys[..]) == was.cells && oldVals[..] == was.vals && Represents(hash, was) && Fits(was)
      requires keys.Length == 2 * oldKeys.Length
      requires oldKeys as object !in {keys as object, vals as object} && oldVals as object !in {keys as object, vals as object}
      modifies keys, vals
      ensures Tied(m) && Represents(hash, m) && Fits(m) && m.contents == was.contents && m.order == SlotOrder(was.cells)
    {
      m := before;
      var i := 0;
      while i < oldKeys.Length
        invariant i <= oldKeys.Length == |was.cells|
        invariant Tied(m) && Fits(m) && Copied(hash, was, m, i)
        invariant CellsOf(oldKeys[..]) == was.cells && oldVals[..] == was.vals
      {
        CopiedNext(hash, was, m, i);
        var key, value := oldKeys[i], oldVals[i];
        assert was.cells[i] == CellOf(key) && was.vals[i] == value;
        ghost var m' := m;
        if key != 0 {
          var _, m1 := Put(key, value, m);
          m' := m1;
        }
        CopiedStep(hash, was, m, m', i);
        m := m';
        i := i + 1;
      }
      CopiedAll(hash, was, m);
    }

    /** Two new empty arrays. */
    method Renew(capacity: nat) returns (ghost m: Model<nat, V>)
      requires capacity > 0
      modifies this`keys, this`vals
      ensures fresh(keys) && fresh(vals) && keys.Length == capacity
      ensures Tied(m) && Represents(hash, m) && m.contents == map[] && m.order == []
    {
      keys := new nat[capacity](_ => 0);
      vals := new V[capacity];
      m := Blank(vals[..]);
      BlankRepresents(hash, vals[..]);
      assert CellsOf(keys[..]) == m.cells;
    }

    method Grow(ghost was: Model<nat, V>) returns (ghost m: Model<nat, V>)
      requires Tied(was) && Represents(hash, was) && Fits(was)
      modifies this`keys, this`vals, this`growths
      ensures fresh(keys) && fresh(vals) && keys.Length == 2 * |was.cells| && growths == old(growths) + 1
      ensures Tied(m) && Represents(hash, m) && Fits(m)
      ensures m.contents == was.contents && m.order == SlotOrder(was.cells) && |m.order| == |was.order|
    {
      var oldKeys, oldVals := keys, vals;
      m := Renew(oldKeys.Length * 2);
      m := Reinsert(oldKeys, oldVals, was, m);
      growths := growths + 1;
      SizeIs(hash, m);
      SizeIs(hash, was);
    }

    /** Grow if one key more would overfill the table, then insert or overwrite. */
    method Add(key: nat, value: V, ghost was: Model<nat, V>) returns (added: bool, ghost m: Model<nat, V>)
      requires Tied(was) && Represents(hash, was) && Fits(was) && size == |was.order| && key != 0
      modifies this`keys, this`vals, this`growths, keys, vals
      ensures (keys == old(keys) || fresh(keys)) && (vals == old(vals) || fresh(vals))
      ensures Tied(m) && Represents(hash, m) && Fits(m) && (added <==> key !in was.contents)
      ensures m.contents == was.contents[key := value] && |m.order| == size + (if added then 1 else 0)
      ensures var grew := size + 1 > MaxFill(|was.cells|);
        && growths == old(growths) + (if grew then 1 else 0)
        && keys.Length == (if grew then 2 else 1) * |was.cells|
        && m.order == (if grew then SlotOrder(was.cells) else was.order) + (if added then [key] else [])
    {
      m := was;
      if size + 1 > MaxFill(keys.Length) {
        m := Grow(m);
      }
      added, m := Put(key, value, m);
    }

    method Insert(key: nat, value: V) returns (added: bool)
      requires Valid()
      modifies this, keys, vals
      ensures Valid() && (keys == old(keys) || fresh(keys)) && (vals == old(vals) || fresh(vals))
      ensures key == 0 ==> !added && contents == old(contents)
      ensures key != 0 ==> (added <==> key !in old(contents)) && contents == old(contents)[key := value]
      ensures var grew := key != 0 && old(size) + 1 > MaxFill(old(keys.Length));
        && growths == old(growths) + (if grew then 1 else 0)
        && keys.Length == (if grew then 2 else 1) * old(keys.Length)
        && order == (if grew then SlotOrder(old(CellsOf(keys[..]))) else old(order)) + (if added then [key] else [])
      ensures growths > old(growths) <==> key != 0 && 5 * (old(size) + 1) > 3 * old(keys.Length)
    {
      if key == 0 {
        return false;
      }
      ghost var m := Model(CellsOf(keys[..]), vals[..], contents, order);
      added, m := Add(key, value, m);
      size := if added then size + 1 else size;
      contents, order := m.contents, m.order;
    }

    /** The table afterwards is the one that inserting the other live keys builds. */
    method Erase(key: nat) returns (removed: bool)
      requires Valid()
      modifies this, keys, vals
      ensures Valid() && keys == old(keys) && vals == old(vals) && growths == old(growths)
      ensures removed <==> key in old(contents)
      ensures contents == old(contents) - {key}
      ensures order == if removed then Without(old(order), key) else old(order)
      ensures CellsOf(keys[..]) == Build(hash, order, keys.Length)
    {
      ghost var m := Model(CellsOf(keys[..]), vals[..], contents, order);
      removed, m := Remove(key, m);
      size := if removed then size - 1 else size;
      contents, order := m.contents, m.order;
      AsIfNeverInserted(hash, m);
    }

    method Remove(key: nat, ghost was: Model<nat, V>) returns (removed: bool, ghost m: Model<nat, V>)
      requires Tied(was) && Represents(hash, was) && Fits(was)
      modifies keys, vals
      ensures Tied(m) && Represents(hash, m) && Fits(m) && (removed <==> key in was.contents)
      ensures m.contents == was.contents - {key}
      ensures |m.order| == |was.order| - (if removed then 1 else 0)
      ensures m.order == if removed then Without(was.order, key) else was.order
    {
      m := was;
      removed := false;
      if key != 0 {
        var i := Probe(key, m);
        if keys[i] != 0 {
          HoleyStarts(hash, m, key, i);
          CellsOfUpdate(keys[..], i, 0);
          keys[i] := 0;
          assert keys[..] == old(keys[..])[i := 0];
          m := CloseHole(i, Opened(m, key, i));
          removed := true;
        }
      }
    }

    /** The scan of Algorithm R: from the hole forward, entries that may move close it. */
    method CloseHole(start: nat, ghost before: Model<nat, V>) returns (ghost m: Model<nat, V>)
      requires Tied(before) && Holey(hash, before, start, 1)
      modifies keys, vals
      ensures Tied(m) && Represents(hash, m) && m.contents == before.contents && m.order == before.order
    {
      var n := keys.Length;
      var hole: nat, j: nat := start, Next(start, n);
      m := before;
      var done := false;
      while !done
        invariant hole < n && j < n && Tied(m) && m.contents == before.contents && m.order == before.order
        invariant if done then Represents(hash, m) else Holey(hash, m, hole, Lap(hole, j, n))
        decreases !done, Strayed(hash, m.cells, n), n - Lap(hole, j, n)
      {
        done, hole, m := Scan(hole, j, m);
        j := Next(j, n);
      }
    }

    /** One slot of the walk: stop at an empty one, leave what must stay, pull back the rest. */
    method Scan(hole: nat, j: nat, ghost m: Model<nat, V>) returns (done: bool, hole': nat, ghost m': Model<nat, V>)
      requires j < keys.Length && hole < keys.Length && Tied(m) && Holey(hash, m, hole, Lap(hole, j, keys.Length))
      modifies keys, vals
      ensures hole' < keys.Length && Tied(m') && m'.contents == m.contents && m'.order == m.order
      ensures done ==> Represents(hash, m')
      ensures !done ==> Onward(hash, m, hole, m', hole', j)
    {
      done, hole', m' := false, hole, m;
      assert m.cells[j] == CellOf(keys[j]);
      if keys[j] == 0 {
        HoleyEnds(hash, m, hole, j);
        done := true;
      } else {
        BetweenMeansStay(hash, keys[j], hole, j, keys.Length);
        if CyclicallyBetween(hole, Home(hash, keys[j], keys.Length), j) {
          HoleyStays(hash, m, hole, j);
        } else {
          HoleyMoves(hash, m, hole, j);
          m' := Moved(m, hole, j);
          PullBack(hole, j);
          hole' := j;
        }
      }
    }

    method PullBack(hole: nat, j: nat)
      requires hole < keys.Length && j < keys.Length == vals.Length && keys as object != vals as object
      modifies keys, vals
      ensures CellsOf(keys[..]) == Shifted(old(CellsOf(keys[..])), hole, j)
      ensures vals[..] == old(vals[..])[hole := old(vals[j])]
    {
      Write(hole, keys[j], vals[j]);
      CellsOfUpdate(keys[..], j, 0);
      ghost var moved := keys[..];
      keys[j] := 0;
      assert keys[..] == moved[j := 0];
    }

    method Clear()
      requires Valid()
      modifies this`size, this`contents, this`order, keys
      ensures Valid() && contents == map[] && order == []
    {
      var i := 0;
      while i < keys.Length
        invariant i <= keys.Length
        invariant forall j :: 0 <= j < i ==> keys[j] == 0
        modifies keys
      {
        keys[i] := 0;
        i := i + 1;
      }
      size, contents, order := 0, map[], [];
      BlankRepresents<nat, V>(hash, vals[..]);
      assert CellsOf(keys[..]) == Blank<nat, V>(vals[..]).cells;
    }
  }
}
