/**
  What every event stream keeps: each price level is exactly the sum, the count and the
  arrival-ordered queue of the orders resting at it, so the visible book is a function of
  the resting orders alone; and exactly which events leave an order behind that no
  reference names.
 */
module BookTheorems {
  import opened Common
  import opened Totals
  import opened BookModel
  import opened Probing

  // ----- levels ---------------------------------------------------------------------------

  function QtyAt(key: Key): Order -> int {
    (o: Order) => if KeyOf(o) == key then o.qty else 0
  }

  function OneAt(key: Key): Order -> int {
    (o: Order) => if KeyOf(o) == key then 1 else 0
  }

  ghost predicate Ascending(queue: seq<Slot>) {
    forall i, j :: 0 <= i < j < |queue| ==> queue[i] < queue[j]
  }

  ghost predicate Queues(queue: seq<Slot>, pool: map<Slot, Order>, key: Key) {
    && Ascending(queue)
    && forall h: Slot {:trigger h in queue} {:trigger h in pool} :: h in queue <==> h in pool && KeyOf(pool[h]) == key
  }

  /** A level exists exactly when some order rests at its price, and then its total, count
      and queue are those of the orders there, oldest first. */
  ghost predicate LevelOk(levels: map<Key, Level>, pool: map<Slot, Order>, key: Key) {
    if key in levels then
      var l := levels[key];
      && l.total == Total(pool, QtyAt(key)) && l.count == Total(pool, OneAt(key)) && l.count == |l.queue|
      && l.queue != [] && Queues(l.queue, pool, key)
    else Queues([], pool, key)
  }

  ghost predicate LevelsOk(levels: map<Key, Level>, pool: map<Slot, Order>) {
    forall key {:trigger LevelOk(levels, pool, key)} :: LevelOk(levels, pool, key)
  }

  lemma NobodyThere(pool: map<Slot, Order>, key: Key)
    requires Queues([], pool, key)
    ensures Total(pool, QtyAt(key)) == 0 && Total(pool, OneAt(key)) == 0
  {
    TotalZero(pool, QtyAt(key));
    TotalZero(pool, OneAt(key));
  }

  lemma JoinKeeps(levels: map<Key, Level>, pool: map<Slot, Order>, h: Slot, o: Order, key: Key)
    requires LevelOk(levels, pool, key) && forall k {:trigger k in pool} :: k in pool ==> k < h
    ensures LevelOk(Join(levels, KeyOf(o), h, o.qty), pool[h := o], key)
  {
    assert h !in pool;
    TotalInsert(pool, QtyAt(key), h, o);
    TotalInsert(pool, OneAt(key), h, o);
    if key !in levels {
      NobodyThere(pool, key);
    }
    var queue := if key in levels then levels[key].queue else [];
    if key == KeyOf(o) {
      JoinQueue(queue, pool, h, o);
    } else {
      assert Queues(queue, pool[h := o], key);
    }
  }

  lemma JoinQueue(queue: seq<Slot>, pool: map<Slot, Order>, h: Slot, o: Order)
    requires Queues(queue, pool, KeyOf(o)) && forall k {:trigger k in pool} :: k in pool ==> k < h
    ensures Queues(queue + [h], pool[h := o], KeyOf(o))
  {
    assert forall i :: 0 <= i < |queue| ==> queue[i] in queue;
  }

  lemma LeaveQueue(queue: seq<Slot>, pool: map<Slot, Order>, h: Slot)
    requires h in pool && Queues(queue, pool, KeyOf(pool[h]))
    ensures Queues(Without(queue, h), pool - {h}, KeyOf(pool[h])) && |Without(queue, h)| == |queue| - 1
  {
    assert h in queue;
    CutAscending(queue, h);
    forall k: Slot ensures k in Without(queue, h) <==> k in queue && k != h {
      CutMember(queue, h, k);
    }
  }

  lemma CutAscending(queue: seq<Slot>, h: Slot)
    requires Ascending(queue) && h in queue
    ensures Ascending(Without(queue, h)) && |Without(queue, h)| == |queue| - 1
  {
    assert Listed(queue, h);
    var c := WithoutAt(queue, h);
  }

  lemma CutMember(queue: seq<Slot>, h: Slot, k: Slot)
    requires Ascending(queue) && h in queue
    ensures k in Without(queue, h) <==> k in queue && k != h
  {
    assert Listed(queue, h);
    WithoutListed(queue, h, k);
    assert forall q: seq<Slot> {:trigger Listed(q, k)} :: Listed(q, k) <==> k in q;
  }

  lemma LeaveKeeps(levels: map<Key, Level>, pool: map<Slot, Order>, h: Slot, key: Key)
    requires LevelOk(levels, pool, key) && h in pool
    ensures LevelOk(Leave(levels, KeyOf(pool[h]), h, pool[h].qty), pool - {h}, key)
  {
    TotalRemove(pool, QtyAt(key), h);
    TotalRemove(pool, OneAt(key), h);
    if key == KeyOf(pool[h]) {
      assert key in levels;
      LeaveQueue(levels[key].queue, pool, h);
    } else {
      var queue := if key in levels then levels[key].queue else [];
      assert Queues(queue, pool - {h}, key);
    }
  }

  lemma ShrinkKeeps(levels: map<Key, Level>, pool: map<Slot, Order>, h: Slot, shares: nat, key: Key)
    requires LevelOk(levels, pool, key) && h in pool && shares <= pool[h].qty
    ensures LevelOk(Shrink(levels, KeyOf(pool[h]), shares), pool[h := pool[h].(qty := pool[h].qty - shares)], key)
  {
    var o := pool[h].(qty := pool[h].qty - shares);
    TotalUpdate(pool, QtyAt(key), h, o);
    TotalUpdate(pool, OneAt(key), h, o);
    var queue := if key in levels then levels[key].queue else [];
    assert Queues(queue, pool[h := o], key);
  }

  // ----- the invariant ---------------------------------------------------------------------

  /** References name pool records, and each record knows the reference it was filed under. */
  ghost predicate RefsOk(refs: map<Ref, Slot>, pool: map<Slot, Order>) {
    && (forall r {:trigger refs[r]} :: r in refs ==> r != 0 && refs[r] in pool && pool[refs[r]].ref == r)
  }

  ghost predicate PoolOk(b: Book) {
    forall h {:trigger h in b.pool} :: h in b.pool ==> h < b.next && b.pool[h].symbol < LOCATES
  }

  ghost predicate Inv(b: Book) {
    && |b.totals| == LOCATES && PoolOk(b) && RefsOk(b.refs, b.pool) && LevelsOk(b.levels, b.pool)
    && b.stats.liveOrders == |b.pool.Keys| <= b.capacity
  }

  /** The order in this record can still be reached through its reference. */
  ghost predicate Reachable(refs: map<Ref, Slot>, pool: map<Slot, Order>, h: Slot) {
    h in pool && pool[h].ref in refs && refs[pool[h].ref] == h
  }

  ghost predicate NoneLost(refs: map<Ref, Slot>, pool: map<Slot, Order>) {
    forall h {:trigger h in pool} :: h in pool ==> Reachable(refs, pool, h)
  }

  ghost function Lost(b: Book): int {
    |b.pool.Keys| - |b.refs.Keys|
  }

  lemma RemoveKeeps(b: Book, ref: Ref)
    requires Inv(b) && b.Ok() && ref in b.refs
    ensures Inv(RemoveOrder(b, ref)) && Lost(RemoveOrder(b, ref)) == Lost(b)
    ensures |RemoveOrder(b, ref).pool.Keys| == |b.pool.Keys| - 1 && ref !in RemoveOrder(b, ref).refs
  {
    var b' := RemoveOrder(b, ref);
    var h := b.refs[ref];
    forall key ensures LevelOk(b'.levels, b'.pool, key) {
      assert LevelOk(b.levels, b.pool, key);
      LeaveKeeps(b.levels, b.pool, h, key);
    }
    assert b'.pool.Keys == b.pool.Keys - {h};
    assert b'.refs.Keys == b.refs.Keys - {ref};
    RemoveRefs(b.refs, b.pool, ref);
  }

  lemma RemoveRefs(refs: map<Ref, Slot>, pool: map<Slot, Order>, ref: Ref)
    requires RefsOk(refs, pool) && ref in refs
    ensures RefsOk(refs - {ref}, pool - {refs[ref]})
  {
    var refs' := refs - {ref};
    forall r | r in refs' ensures refs'[r] == refs[r] && refs[r] != refs[ref] {
    }
  }

  lemma ShrinkLevels(levels: map<Key, Level>, pool: map<Slot, Order>, h: Slot, shares: nat)
    requires LevelsOk(levels, pool) && h in pool && shares <= pool[h].qty
    ensures LevelsOk(Shrink(levels, KeyOf(pool[h]), shares), pool[h := pool[h].(qty := pool[h].qty - shares)])
  {
    var levels' := Shrink(levels, KeyOf(pool[h]), shares);
    var pool' := pool[h := pool[h].(qty := pool[h].qty - shares)];
    forall key ensures LevelOk(levels', pool', key) {
      assert LevelOk(levels, pool, key);
      ShrinkKeeps(levels, pool, h, shares, key);
    }
  }

  lemma ShrinkRefs(refs: map<Ref, Slot>, pool: map<Slot, Order>, h: Slot, o: Order)
    requires RefsOk(refs, pool) && h in pool && o.ref == pool[h].ref
    ensures RefsOk(refs, pool[h := o])
  {
  }

  lemma ReduceKeeps(b: Book, ref: Ref, shares: nat)
    requires Inv(b) && b.Ok() && ref in b.refs
    ensures Inv(ReduceOrder(b, ref, shares)) && Lost(ReduceOrder(b, ref, shares)) == Lost(b)
  {
    var h := b.refs[ref];
    if shares >= b.pool[h].qty {
      RemoveKeeps(if shares > b.pool[h].qty then b.(stats := b.stats.(overfills := b.stats.overfills + 1)) else b, ref);
    } else {
      ShrinkLevels(b.levels, b.pool, h, shares);
      ShrinkRefs(b.refs, b.pool, h, b.pool[h].(qty := b.pool[h].qty - shares));
      assert ReduceOrder(b, ref, shares).pool.Keys == b.pool.Keys;
    }
  }

  lemma JoinLevels(levels: map<Key, Level>, pool: map<Slot, Order>, h: Slot, o: Order)
    requires LevelsOk(levels, pool) && forall k {:trigger k in pool} :: k in pool ==> k < h
    ensures LevelsOk(Join(levels, KeyOf(o), h, o.qty), pool[h := o])
  {
    var levels', pool' := Join(levels, KeyOf(o), h, o.qty), pool[h := o];
    forall key ensures LevelOk(levels', pool', key) {
      assert LevelOk(levels, pool, key);
      JoinKeeps(levels, pool, h, o, key);
    }
  }

  lemma JoinRefs(refs: map<Ref, Slot>, pool: map<Slot, Order>, h: Slot, o: Order)
    requires RefsOk(refs, pool) && h !in pool
    ensures RefsOk(if o.ref == 0 then refs else refs[o.ref := h], pool[h := o])
  {
  }

  lemma KeysGrow<K, V>(m: map<K, V>, k: K, v: V)
    ensures |m[k := v].Keys| == |m.Keys| + if k in m then 0 else 1
  {
    assert m[k := v].Keys == m.Keys + {k};
  }

  lemma PlacePool(b: Book, o: Order)
    requires PoolOk(b) && o.symbol < LOCATES && |b.pool.Keys| < b.capacity
    ensures PoolOk(PlaceOrder(b, o)) && |PlaceOrder(b, o).pool.Keys| == |b.pool.Keys| + 1
  {
    KeysGrow(b.pool, b.next, o);
  }

  /** Placing an order loses one exactly when no reference names the new order, or the one
      it used named another. */
  lemma PlaceKeeps(b: Book, o: Order)
    requires Inv(b) && o.symbol < LOCATES
    ensures Inv(PlaceOrder(b, o))
    ensures Lost(PlaceOrder(b, o)) == Lost(b) + if |b.pool.Keys| < b.capacity && (o.ref == 0 || o.ref in b.refs) then 1 else 0
  {
    if |b.pool.Keys| < b.capacity {
      JoinLevels(b.levels, b.pool, b.next, o);
      JoinRefs(b.refs, b.pool, b.next, o);
      PlacePool(b, o);
      KeysGrow(b.refs, o.ref, b.next);
    }
  }

  // ----- one event -------------------------------------------------------------------------

  lemma InvOk(b: Book)
    requires Inv(b)
    ensures b.Ok()
  {
  }

  /** The books differ in counters and totals only. */
  ghost predicate SameOrders(b: Book, c: Book) {
    && c.capacity == b.capacity && c.next == b.next && c.pool == b.pool && c.refs == b.refs && c.levels == b.levels
    && c.stats.liveOrders == b.stats.liveOrders && |c.totals| == |b.totals|
  }

  lemma SameOrdersInv(b: Book, c: Book)
    requires Inv(b) && SameOrders(b, c)
    ensures Inv(c) && c.Ok() && Lost(c) == Lost(b)
  {
  }

  /** Still sound, with this many more orders lost. */
  ghost predicate Kept(b: Book, c: Book, more: nat) {
    Inv(c) && Lost(c) == Lost(b) + more
  }

  function Count(p: bool): nat {
    if p then 1 else 0
  }

  lemma AddKeeps(b: Book, ref: Ref, side: char, shares: nat, price: nat, locate: nat)
    requires Inv(b) && b.Ok() && locate < LOCATES
    ensures Kept(b, OnAdd(b, ref, side, shares, price, locate),
                 Count((side == 'B' || side == 'S') && ref == 0 && |b.pool.Keys| < b.capacity))
  {
    if side == 'B' || side == 'S' {
      var o := Order(ref, side == 'B', price, shares, locate);
      if ref in b.refs {
        var b1 := b.(stats := b.stats.(duplicateRefs := b.stats.duplicateRefs + 1));
        SameOrdersInv(b, b1);
        RemoveKeeps(b1, ref);
        PlaceKeeps(RemoveOrder(b1, ref), o);
      } else {
        PlaceKeeps(b, o);
      }
    }
  }

  lemma ReplaceKeeps(b: Book, ref: Ref, newRef: Ref, shares: nat, price: nat)
    requires Inv(b) && b.Ok()
    ensures Kept(b, OnReplace(b, ref, newRef, shares, price),
                 Count(ref in b.refs && (newRef == 0 || (newRef in b.refs && newRef != ref))))
  {
    if ref in b.refs {
      var o := b.pool[b.refs[ref]];
      RemoveKeeps(b, ref);
      PlaceKeeps(RemoveOrder(b, ref), Order(newRef, o.isBuy, price, shares, o.symbol));
    }
  }

  lemma ExecuteKeeps(b: Book, ref: Ref, shares: nat, printed: Option<nat>, printable: bool)
    requires Inv(b) && b.Ok()
    ensures Kept(b, OnExecute(b, ref, shares, printed, printable), 0)
  {
    if ref in b.refs {
      var o := b.pool[b.refs[ref]];
      var price := if printed.Some? then printed.value else o.price;
      var b1 := if printable then RecordVolume(b, o.symbol, shares, price) else b;
      SameOrdersInv(b, b1);
      ReduceKeeps(b1, ref, shares);
    }
  }

  lemma CancelKeeps(b: Book, ref: Ref, shares: nat)
    requires Inv(b) && b.Ok()
    ensures Kept(b, OnCancel(b, ref, shares), 0)
  {
    if ref in b.refs {
      ReduceKeeps(b, ref, shares);
    }
  }

  lemma DeleteKeeps(b: Book, ref: Ref)
    requires Inv(b) && b.Ok()
    ensures Kept(b, OnDelete(b, ref), 0)
  {
    if ref in b.refs {
      RemoveKeeps(b, ref);
    }
  }

  /** The events that leave behind an order no reference names: an accepted add under
      reference zero, and a replace onto zero or onto another resting reference. */
  predicate Leaky(b: Book, e: Event) {
    match e
    case Add(_, _, ref, side, _, _, _) => (side == 'B' || side == 'S') && ref == 0 && |b.pool.Keys| < b.capacity
    case Replace(_, _, ref, newRef, _, _) => ref in b.refs && (newRef == 0 || (newRef in b.refs && newRef != ref))
    case _ => false
  }

  lemma HandleKeeps(b: Book, e: Event)
    requires Inv(b) && b.Ok() && e.locate < LOCATES
    ensures Kept(b, Handle(b, e), Count(Leaky(b, e)))
  {
    match e
    case Add(locate, _, ref, side, shares, price, _) => AddKeeps(b, ref, side, shares, price, locate);
    case Execute(_, _, ref, shares) => ExecuteKeeps(b, ref, shares, None, true);
    case ExecutePrice(_, _, ref, shares, printable, price) => ExecuteKeeps(b, ref, shares, Some(price), printable);
    case Cancel(_, _, ref, shares) => CancelKeeps(b, ref, shares);
    case Delete(_, _, ref) => DeleteKeeps(b, ref);
    case Replace(_, _, ref, newRef, shares, price) => ReplaceKeeps(b, ref, newRef, shares, price);
    case Trade(locate, _, shares, price) => SameOrdersInv(b, Handle(b, e));
    case CrossTrade(locate, _, shares, price) => SameOrdersInv(b, Handle(b, e));
    case Other(_, _) =>
  }

  lemma ApplyKeeps(b: Book, e: Event)
    requires Inv(b) && b.Ok() && e.locate < LOCATES
    ensures Kept(b, Apply(b, e), Count(Leaky(b, e)))
  {
    PreludeSame(b, e);
    SameOrdersInv(b, Prelude(b, e));
    HandleKeeps(Prelude(b, e), e);
  }

  lemma PreludeSame(b: Book, e: Event)
    requires e.locate < |b.totals|
    ensures SameOrders(b, Prelude(b, e)) && Leaky(Prelude(b, e), e) == Leaky(b, e)
  {
  }

  // ----- whole streams ---------------------------------------------------------------------

  ghost predicate Placed(events: seq<Event>) {
    forall i :: 0 <= i < |events| ==> events[i].locate < LOCATES
  }

  ghost function Replay(b: Book, events: seq<Event>): (b': Book)
    requires Inv(b) && Placed(events)
    ensures Inv(b')
    decreases |events|
  {
    if events == [] then b
    else
      InvOk(b);
      ApplyKeeps(b, events[0]);
      Replay(Apply(b, events[0]), events[1..])
  }

  /** How many events of the stream leave an order behind. */
  ghost function Leaks(b: Book, events: seq<Event>): nat
    requires Inv(b) && Placed(events)
    decreases |events|
  {
    if events == [] then 0
    else
      InvOk(b);
      ApplyKeeps(b, events[0]);
      Count(Leaky(b, events[0])) + Leaks(Apply(b, events[0]), events[1..])
  }

  lemma {:induction false} LostAreTheLeaks(b: Book, events: seq<Event>)
    requires Inv(b) && Placed(events)
    ensures Lost(Replay(b, events)) == Lost(b) + Leaks(b, events)
    decreases |events|
  {
    if events != [] {
      InvOk(b);
      ApplyKeeps(b, events[0]);
      LostAreTheLeaks(Apply(b, events[0]), events[1..]);
    }
  }

  lemma EmptyInv(capacity: nat)
    ensures Inv(EmptyBook(capacity)) && Lost(EmptyBook(capacity)) == 0
  {
    var b := EmptyBook(capacity);
    forall key ensures LevelOk(b.levels, b.pool, key) {
    }
  }

  // ----- what is lost -------------------------------------------------------------------------

  ghost function Named(refs: map<Ref, Slot>): set<Slot> {
    set r | r in refs :: refs[r]
  }

  lemma {:induction false} NamedCount(refs: map<Ref, Slot>, pool: map<Slot, Order>)
    requires RefsOk(refs, pool)
    ensures |Named(refs)| == |refs.Keys|
    decreases |refs.Keys|
  {
    if refs.Keys != {} {
      var r :| r in refs.Keys;
      var rest := refs - {r};
      assert rest.Keys == refs.Keys - {r};
      assert RefsOk(rest, pool) by {
        forall k | k in rest ensures rest[k] == refs[k] {
        }
      }
      NamedCount(rest, pool);
      assert refs[r] !in Named(rest);
      forall h ensures h in Named(refs) <==> h in Named(rest) + {refs[r]} {
        if h in Named(refs) && h != refs[r] {
          var k :| k in refs && refs[k] == h;
          assert k in rest && rest[k] == h;
        }
      }
      assert Named(refs) == Named(rest) + {refs[r]};
    }
  }

  /** The number lost is the number of pool records no reference leads to. */
  lemma LostCounts(b: Book)
    requires Inv(b)
    ensures Lost(b) == |b.pool.Keys - Named(b.refs)|
    ensures Lost(b) == 0 <==> NoneLost(b.refs, b.pool)
  {
    NamedCount(b.refs, b.pool);
    assert Named(b.refs) <= b.pool.Keys;
    assert forall h :: h in b.pool ==> (h in Named(b.refs) <==> Reachable(b.refs, b.pool, h));
  }

  /** From an empty book, every resting order can be reached, and the live-order counter is
      the size of the reference map, exactly when no event of the stream was leaky. */
  lemma ReachableExactly(capacity: nat, events: seq<Event>)
    requires Placed(events)
    ensures Inv(EmptyBook(capacity))
    ensures var b := Replay(EmptyBook(capacity), events);
      && (NoneLost(b.refs, b.pool) <==> Leaks(EmptyBook(capacity), events) == 0)
      && b.stats.liveOrders == |b.refs.Keys| + Leaks(EmptyBook(capacity), events)
  {
    EmptyInv(capacity);
    LostAreTheLeaks(EmptyBook(capacity), events);
    LostCounts(Replay(EmptyBook(capacity), events));
  }

  /** A level that shows shares no reference leads to. */
  ghost predicate Stranded(b: Book, key: Key) {
    && key in b.levels && b.levels[key].queue != []
    && forall h: Slot {:trigger h in b.levels[key].queue} :: h in b.levels[key].queue ==> !Reachable(b.refs, b.pool, h)
  }

  lemma StrandedBy(b: Book, h: Slot)
    requires Inv(b) && h in b.pool && !Reachable(b.refs, b.pool, h)
    requires forall k {:trigger k in b.pool} :: k in b.pool && k != h ==> KeyOf(b.pool[k]) != KeyOf(b.pool[h])
    ensures Stranded(b, KeyOf(b.pool[h]))
  {
    assert LevelOk(b.levels, b.pool, KeyOf(b.pool[h]));
  }

  /** A buy of one share of symbol zero. */
  function Bid(ref: Ref, price: nat): Event {
    Add(0, 0, ref, 'B', 1, price, false)
  }

  /** A first event that is a bid: the book after it, and the rest of the stream from there. */
  lemma AfterBid(b: Book, ref: Ref, price: nat, rest: seq<Event>) returns (c: Book)
    requires Inv(b) && ref !in b.refs && |b.pool.Keys| < b.capacity && Placed(rest)
    ensures Inv(c) && c.capacity == b.capacity && c.next == b.next + 1 && |c.pool.Keys| == |b.pool.Keys| + 1
    ensures c.pool == b.pool[b.next := Order(ref, true, price, 1, 0)]
    ensures c.refs == if ref == 0 then b.refs else b.refs[ref := b.next]
    ensures Placed([Bid(ref, price)] + rest) && Replay(b, [Bid(ref, price)] + rest) == Replay(c, rest)
    ensures Leaks(b, [Bid(ref, price)] + rest) == Count(ref == 0) + Leaks(c, rest)
  {
    InvOk(b);
    ApplyKeeps(b, Bid(ref, price));
    c := Apply(b, Bid(ref, price));
    KeysGrow(b.pool, b.next, Order(ref, true, price, 1, 0));
    assert ([Bid(ref, price)] + rest)[1..] == rest;
  }

  /** A last event that moves a resting order onto another reference. */
  lemma AfterSwap(b: Book, ref: Ref, newRef: Ref, price: nat) returns (c: Book)
    requires Inv(b) && ref in b.refs && newRef in b.refs && ref != newRef
    ensures Inv(c)
    ensures c.pool == (b.pool - {b.refs[ref]})[b.next := Order(newRef, b.pool[b.refs[ref]].isBuy, price, 1, b.pool[b.refs[ref]].symbol)]
    ensures c.refs == (b.refs - {ref})[newRef := b.next]
    ensures var e := Replace(0, 0, ref, newRef, 1, price); Placed([e]) && Replay(b, [e]) == c && Leaks(b, [e]) == 1
  {
    var e := Replace(0, 0, ref, newRef, 1, price);
    InvOk(b);
    ApplyKeeps(b, e);
    PreludeSame(b, e);
    SameOrdersInv(b, Prelude(b, e));
    RemoveKeeps(Prelude(b, e), ref);
    c := Apply(b, e);
    assert [e][1..] == [];
  }

  /** Witness: an add under reference zero is accepted, rests, and can never be reached. */
  lemma AddUnderZeroStrands(capacity: nat, price: nat)
    requires capacity > 0
    ensures var events := [Bid(0, price)];
      && Placed(events) && Inv(EmptyBook(capacity)) && Leaks(EmptyBook(capacity), events) == 1
      && Stranded(Replay(EmptyBook(capacity), events), Key(0, true, price))
  {
    EmptyInv(capacity);
    var c := AfterBid(EmptyBook(capacity), 0, price, []);
    assert [Bid(0, price)] + [] == [Bid(0, price)];
    StrandedBy(c, 0);
  }

  /** Witness: a replace onto another resting reference strands the order that held it. */
  lemma ReplaceOntoRestingStrands(capacity: nat, first: Ref, second: Ref, p: nat, q: nat, r: nat)
    requires capacity > 1 && first != 0 && second != 0 && first != second && p != q && q != r
    ensures var events := [Bid(first, p)] + ([Bid(second, q)] + [Replace(0, 0, first, second, 1, r)]);
      && Placed(events) && Inv(EmptyBook(capacity)) && Leaks(EmptyBook(capacity), events) == 1
      && Stranded(Replay(EmptyBook(capacity), events), Key(0, true, q))
  {
    EmptyInv(capacity);
    var rest := [Bid(second, q)] + [Replace(0, 0, first, second, 1, r)];
    var b1 := AfterBid(EmptyBook(capacity), first, p, rest);
    ReplaceStrands(b1, first, second, p, q, r);
  }

  lemma ReplaceStrands(b1: Book, first: Ref, second: Ref, p: nat, q: nat, r: nat)
    requires Inv(b1) && |b1.pool.Keys| < b1.capacity && first != 0 && second != 0 && first != second && p != q && q != r
    requires b1.next == 1 && b1.refs == map[first := 0] && b1.pool == map[0 := Order(first, true, p, 1, 0)]
    ensures var events := [Bid(second, q)] + [Replace(0, 0, first, second, 1, r)];
      Placed(events) && Leaks(b1, events) == 1 && Stranded(Replay(b1, events), Key(0, true, q))
  {
    var b2 := AfterBid(b1, second, q, [Replace(0, 0, first, second, 1, r)]);
    SwapStrands(b2, first, second, p, q, r);
  }

  lemma SwapStrands(b2: Book, first: Ref, second: Ref, p: nat, q: nat, r: nat)
    requires Inv(b2) && first != second && p != q && q != r && b2.next == 2
    requires b2.refs == map[first := 0][second := 1]
    requires b2.pool == map[0 := Order(first, true, p, 1, 0)][1 := Order(second, true, q, 1, 0)]
    ensures var e := Replace(0, 0, first, second, 1, r);
      Placed([e]) && Leaks(b2, [e]) == 1 && Stranded(Replay(b2, [e]), Key(0, true, q))
  {
    var b3 := AfterSwap(b2, first, second, r);
    SwapUnnames(first, second, p, q, r, b3);
  }

  lemma SwapUnnames(first: Ref, second: Ref, p: nat, q: nat, r: nat, b3: Book)
    requires Inv(b3) && first != second && p != q && q != r
    requires b3.refs == (map[first := 0][second := 1] - {first})[second := 2]
    requires b3.pool == (map[0 := Order(first, true, p, 1, 0)][1 := Order(second, true, q, 1, 0)] - {0})[2 := Order(second, true, r, 1, 0)]
    ensures Stranded(b3, Key(0, true, q))
  {
    StrandedBy(b3, 1);
  }

  // ----- the visible book ------------------------------------------------------------------------

  /** The live orders by reference. */
  ghost function Live(refs: map<Ref, Slot>, pool: map<Slot, Order>): map<Ref, Order>
    requires RefsOk(refs, pool)
  {
    map r | r in refs :: pool[refs[r]]
  }

  lemma {:induction false} LiveTotal(refs: map<Ref, Slot>, pool: map<Slot, Order>, f: Order -> int)
    requires RefsOk(refs, pool) && NoneLost(refs, pool)
    ensures Total(pool, f) == Total(Live(refs, pool), f)
    decreases |refs.Keys|
  {
    if refs.Keys == {} {
      assert forall h :: h in pool ==> Reachable(refs, pool, h);
      assert pool.Keys == {};
    } else {
      var r :| r in refs.Keys;
      LiveWithout(refs, pool, r);
      LiveTotal(refs - {r}, pool - {refs[r]}, f);
      TotalRemove(pool, f, refs[r]);
      TotalRemove(Live(refs, pool), f, r);
    }
  }

  lemma LiveWithout(refs: map<Ref, Slot>, pool: map<Slot, Order>, r: Ref)
    requires RefsOk(refs, pool) && NoneLost(refs, pool) && r in refs
    ensures var refs', pool' := refs - {r}, pool - {refs[r]};
      && |refs'.Keys| < |refs.Keys| && RefsOk(refs', pool') && NoneLost(refs', pool')
      && Live(refs', pool') == Live(refs, pool) - {r}
  {
    RemoveRefs(refs, pool, r);
    var refs', pool' := refs - {r}, pool - {refs[r]};
    assert refs'.Keys == refs.Keys - {r};
    forall k | k in pool' ensures Reachable(refs', pool', k) {
      assert Reachable(refs, pool, k);
    }
  }

  /** Price levels as anyone outside sees them: total quantity and order count. */
  ghost function Visible(levels: map<Key, Level>): map<Key, (int, int)> {
    map key | key in levels :: (levels[key].total, levels[key].count)
  }

  /** Each visible level is the sum and the count over the live orders at that symbol, side
      and price, and there is no empty level. */
  lemma VisibleIsTheSum(b: Book, key: Key)
    requires Inv(b) && NoneLost(b.refs, b.pool)
    ensures var live := Live(b.refs, b.pool);
      && (key in Visible(b.levels) <==> Total(live, OneAt(key)) > 0)
      && (key in Visible(b.levels) ==> Visible(b.levels)[key] == (Total(live, QtyAt(key)), Total(live, OneAt(key))))
  {
    assert LevelOk(b.levels, b.pool, key);
    LiveTotal(b.refs, b.pool, QtyAt(key));
    LiveTotal(b.refs, b.pool, OneAt(key));
    if key !in b.levels {
      NobodyThere(b.pool, key);
    }
  }

  /** The visible book depends on the live orders only, not on how they came about. */
  lemma HistoryDoesNotShow(b: Book, c: Book)
    requires Inv(b) && Inv(c) && NoneLost(b.refs, b.pool) && NoneLost(c.refs, c.pool)
    requires Live(b.refs, b.pool) == Live(c.refs, c.pool)
    ensures Visible(b.levels) == Visible(c.levels)
  {
    forall key
      ensures key in Visible(b.levels) <==> key in Visible(c.levels)
      ensures key in Visible(b.levels) ==> Visible(b.levels)[key] == Visible(c.levels)[key]
    {
      VisibleIsTheSum(b, key);
      VisibleIsTheSum(c, key);
    }
  }
}
