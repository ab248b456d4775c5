/**
  The book builder over sorted vectors instead of ordered maps.  A handler touches its side
  containers through three operations only; run over vectors they keep every side showing
  the levels the maps hold, so both builders have the same depth and the same digest walk.
 */
module VectorBook {
  import opened Common
  import opened BookModel
  import opened BookTheorems
  import opened BookSide
  import opened BookWalk
  import Probing

  type Side = seq<Entry<Level>>

  datatype SideKey = SideKey(symbol: nat, isBuy: bool)

  type Sides = map<SideKey, Side>

  function SideAt(v: Sides, symbol: nat, isBuy: bool): Side {
    var k := SideKey(symbol, isBuy);
    if k in v then v[k] else []
  }

  // ----- what a handler does to its side containers ------------------------------------------

  datatype LevelOp =
    | Joining(key: Key, h: Slot, qty: nat)
    | Leaving(key: Key, h: Slot, qty: nat)
    | Shrinking(key: Key, shares: nat)

  function OnMap(levels: map<Key, Level>, op: LevelOp): map<Key, Level> {
    match op
    case Joining(key, h, qty) => Join(levels, key, h, qty)
    case Leaving(key, h, qty) => Leave(levels, key, h, qty)
    case Shrinking(key, shares) => Shrink(levels, key, shares)
  }

  function AllOnMap(levels: map<Key, Level>, ops: seq<LevelOp>): map<Key, Level>
    decreases |ops|
  {
    if ops == [] then levels else AllOnMap(OnMap(levels, ops[0]), ops[1..])
  }

  /** The level at a price, if any, after the operation: append, remove and drop the level
      when it empties, or reduce. */
  function OnLevel(l: Option<Level>, op: LevelOp): Option<Level> {
    match op
    case Joining(_, h, qty) =>
      var l := if l.Some? then l.value else Level([], 0, 0);
      Some(Level(l.queue + [h], l.total + qty, l.count + 1))
    case Leaving(_, h, qty) =>
      if l.None? then None
      else
        var rest := Level(Probing.Without(l.value.queue, h), l.value.total - qty, l.value.count - 1);
        if rest.queue == [] then None else Some(rest)
    case Shrinking(_, shares) =>
      if l.None? then None else Some(l.value.(total := l.value.total - shares))
  }

  function OnSide(isBuy: bool, w: Side, op: LevelOp): Side {
    match OnLevel(Get(isBuy, w, op.key.price), op)
    case None => Drop(isBuy, w, op.key.price)
    case Some(l) => Put(isBuy, w, op.key.price, l)
  }

  function OnVectors(v: Sides, op: LevelOp): Sides {
    var (symbol, isBuy) := (op.key.symbol, op.key.isBuy);
    v[SideKey(symbol, isBuy) := OnSide(isBuy, SideAt(v, symbol, isBuy), op)]
  }

  function AllOnVectors(v: Sides, ops: seq<LevelOp>): Sides
    decreases |ops|
  {
    if ops == [] then v else AllOnVectors(OnVectors(v, ops[0]), ops[1..])
  }

  function RemoveOps(b: Book, ref: Ref): seq<LevelOp>
    requires b.Ok()
  {
    if ref !in b.refs then []
    else
      var o := b.pool[b.refs[ref]];
      [Leaving(KeyOf(o), b.refs[ref], o.qty)]
  }

  function ReduceOps(b: Book, ref: Ref, shares: nat): seq<LevelOp>
    requires b.Ok()
  {
    if ref !in b.refs then []
    else
      var o := b.pool[b.refs[ref]];
      if shares >= o.qty then RemoveOps(b, ref) else [Shrinking(KeyOf(o), shares)]
  }

  function PlaceOps(b: Book, o: Order): seq<LevelOp> {
    if |b.pool.Keys| >= b.capacity then [] else [Joining(KeyOf(o), b.next, o.qty)]
  }

  function AddOps(b: Book, o: Order): seq<LevelOp>
    requires b.Ok()
  {
    RemoveOps(b, o.ref) + PlaceOps(MakeWay(b, o.ref), o)
  }

  function ReplaceOps(b: Book, ref: Ref, newRef: Ref, shares: nat, price: nat): seq<LevelOp>
    requires b.Ok()
  {
    if ref !in b.refs then []
    else
      var o := b.pool[b.refs[ref]];
      RemoveOps(b, ref) + PlaceOps(RemoveOrder(b, ref), Order(newRef, o.isBuy, price, shares, o.symbol))
  }

  /** The operations a message makes its handler issue; none of them reads a level. */
  function Ops(b: Book, e: Event): seq<LevelOp>
    requires b.Ok()
  {
    match e
    case Add(locate, _, ref, side, shares, price, _) =>
      if side != 'B' && side != 'S' then [] else AddOps(b, Order(ref, side == 'B', price, shares, locate))
    case Execute(_, _, ref, shares) => ReduceOps(b, ref, shares)
    case ExecutePrice(_, _, ref, shares, _, _) => ReduceOps(b, ref, shares)
    case Cancel(_, _, ref, shares) => ReduceOps(b, ref, shares)
    case Delete(_, _, ref) => RemoveOps(b, ref)
    case Replace(_, _, ref, newRef, shares, price) => ReplaceOps(b, ref, newRef, shares, price)
    case _ => []
  }

  /** The map-based builder's levels after an event are those the operations leave. */
  lemma OpsAreTheHandlers(b: Book, e: Event)
    requires b.Ok() && e.locate < LOCATES
    ensures Apply(b, e).levels == AllOnMap(b.levels, Ops(b, e))
  {
    PreludeIgnores(b, e);
    PreludeOps(b, e);
    HandlerOps(Prelude(b, e), e);
  }

  lemma PreludeOps(b: Book, e: Event)
    requires b.Ok() && e.locate < LOCATES
    ensures Prelude(b, e).Ok() && Ops(Prelude(b, e), e) == Ops(b, e)
  {
    PreludeSame(b, e);
    OpsDependOnOrders(b, Prelude(b, e), e);
  }

  lemma {:induction false} AllOnMapConcat(levels: map<Key, Level>, xs: seq<LevelOp>, ys: seq<LevelOp>)
    ensures AllOnMap(levels, xs + ys) == AllOnMap(AllOnMap(levels, xs), ys)
    decreases |xs|
  {
    if xs == [] {
      assert xs + ys == ys;
    } else {
      assert (xs + ys)[1..] == xs[1..] + ys;
      AllOnMapConcat(OnMap(levels, xs[0]), xs[1..], ys);
    }
  }

  lemma OneOnMap(levels: map<Key, Level>, op: LevelOp)
    ensures AllOnMap(levels, [op]) == OnMap(levels, op)
  {
    assert [op][1..] == [];
  }

  lemma RemoveOpsAre(b: Book, ref: Ref)
    requires b.Ok()
    ensures RemoveOrder(b, ref).levels == AllOnMap(b.levels, RemoveOps(b, ref))
  {
    if ref in b.refs {
      OneOnMap(b.levels, RemoveOps(b, ref)[0]);
    }
  }

  lemma ReduceOpsAre(b: Book, ref: Ref, shares: nat)
    requires b.Ok() && ref in b.refs
    ensures ReduceOrder(b, ref, shares).levels == AllOnMap(b.levels, ReduceOps(b, ref, shares))
  {
    OneOnMap(b.levels, ReduceOps(b, ref, shares)[0]);
  }

  lemma PlaceOpsAre(b: Book, o: Order)
    ensures PlaceOrder(b, o).levels == AllOnMap(b.levels, PlaceOps(b, o))
  {
    if |b.pool.Keys| < b.capacity {
      OneOnMap(b.levels, PlaceOps(b, o)[0]);
    }
  }

  lemma HandlerOps(b: Book, e: Event)
    requires b.Ok() && e.locate < LOCATES
    ensures Handle(b, e).levels == AllOnMap(b.levels, Ops(b, e))
  {
    match e
    case Add(locate, _, ref, side, shares, price, _) =>
      if side == 'B' || side == 'S' {
        var o := Order(ref, side == 'B', price, shares, locate);
        RemoveOpsAre(b, ref);
        PlaceOpsAre(MakeWay(b, ref), o);
        AllOnMapConcat(b.levels, RemoveOps(b, ref), PlaceOps(MakeWay(b, ref), o));
      }
    case Replace(_, _, ref, newRef, shares, price) =>
      if ref in b.refs {
        var o := Order(newRef, b.pool[b.refs[ref]].isBuy, price, shares, b.pool[b.refs[ref]].symbol);
        RemoveOpsAre(b, ref);
        PlaceOpsAre(RemoveOrder(b, ref), o);
        AllOnMapConcat(b.levels, RemoveOps(b, ref), PlaceOps(RemoveOrder(b, ref), o));
      }
    case Delete(_, _, ref) => RemoveOpsAre(b, ref);
    case Execute(_, _, ref, shares) => ExecuteOps(b, ref, shares, None, true);
    case ExecutePrice(_, _, ref, shares, printable, price) => ExecuteOps(b, ref, shares, Some(price), printable);
    case Cancel(_, _, ref, shares) => if ref in b.refs { ReduceOpsAre(b, ref, shares); }
    case _ =>
  }

  lemma ExecuteOps(b: Book, ref: Ref, shares: nat, printed: Option<nat>, printable: bool)
    requires b.Ok()
    ensures OnExecute(b, ref, shares, printed, printable).levels == AllOnMap(b.levels, ReduceOps(b, ref, shares))
  {
    if ref in b.refs {
      var o := b.pool[b.refs[ref]];
      var price := if printed.Some? then printed.value else o.price;
      ReduceOpsAre(if printable then RecordVolume(b, o.symbol, shares, price) else b, ref, shares);
    }
  }

  // ----- a side shows its levels ---------------------------------------------------------------

  /** The levels of one side of one symbol, by price. */
  ghost function SideMap(levels: map<Key, Level>, symbol: nat, isBuy: bool): map<Price, Level> {
    map k | k in levels && k.symbol == symbol && k.isBuy == isBuy :: k.price := levels[k]
  }

  ghost predicate SideShows(v: Sides, levels: map<Key, Level>, symbol: nat, isBuy: bool) {
    Shows(isBuy, SideAt(v, symbol, isBuy), SideMap(levels, symbol, isBuy))
  }

  ghost predicate AllShow(v: Sides, levels: map<Key, Level>) {
    forall symbol: nat, isBuy: bool {:trigger SideShows(v, levels, symbol, isBuy)} :: SideShows(v, levels, symbol, isBuy)
  }

  lemma SideMapPut(levels: map<Key, Level>, key: Key, l: Level, symbol: nat, isBuy: bool)
    ensures SideMap(levels[key := l], symbol, isBuy)
         == if symbol == key.symbol && isBuy == key.isBuy then SideMap(levels, symbol, isBuy)[key.price := l]
            else SideMap(levels, symbol, isBuy)
  {
    assert key == Key(key.symbol, key.isBuy, key.price);
  }

  lemma SideMapDrop(levels: map<Key, Level>, key: Key, symbol: nat, isBuy: bool)
    ensures SideMap(levels - {key}, symbol, isBuy)
         == if symbol == key.symbol && isBuy == key.isBuy then SideMap(levels, symbol, isBuy) - {key.price}
            else SideMap(levels, symbol, isBuy)
  {
  }

  lemma SideMapHas(levels: map<Key, Level>, key: Key)
    ensures key in levels <==> key.price in SideMap(levels, key.symbol, key.isBuy)
    ensures key in levels ==> SideMap(levels, key.symbol, key.isBuy)[key.price] == levels[key]
  {
  }

  function LevelAt(levels: map<Key, Level>, key: Key): Option<Level> {
    if key in levels then Some(levels[key]) else None
  }

  lemma OnMapIsOnLevel(levels: map<Key, Level>, op: LevelOp)
    ensures OnMap(levels, op) ==
      match OnLevel(LevelAt(levels, op.key), op)
      case None => levels - {op.key}
      case Some(l) => levels[op.key := l]
  {
    assert op.key !in levels ==> levels - {op.key} == levels;
  }

  /** One operation on its side does to the vector what it does to the map. */
  lemma SideKeeps(w: Side, levels: map<Key, Level>, op: LevelOp)
    requires Shows(op.key.isBuy, w, SideMap(levels, op.key.symbol, op.key.isBuy))
    ensures Shows(op.key.isBuy, OnSide(op.key.isBuy, w, op), SideMap(OnMap(levels, op), op.key.symbol, op.key.isBuy))
  {
    var key, m := op.key, SideMap(levels, op.key.symbol, op.key.isBuy);
    SideMapHas(levels, key);
    GetIsLookup(key.isBuy, w, m, key.price);
    OnMapIsOnLevel(levels, op);
    match OnLevel(LevelAt(levels, key), op)
    case Some(l) => PutSide(w, levels, key, l);
    case None =>
      SideMapDrop(levels, key, key.symbol, key.isBuy);
      DropShows(key.isBuy, w, m, key.price);
  }

  lemma PutSide(w: Side, levels: map<Key, Level>, key: Key, l: Level)
    requires Shows(key.isBuy, w, SideMap(levels, key.symbol, key.isBuy))
    ensures Shows(key.isBuy, Put(key.isBuy, w, key.price, l), SideMap(levels[key := l], key.symbol, key.isBuy))
  {
    SideMapPut(levels, key, l, key.symbol, key.isBuy);
    PutShows(key.isBuy, w, SideMap(levels, key.symbol, key.isBuy), key.price, l);
  }

  lemma OwnSide(v: Sides, levels: map<Key, Level>, op: LevelOp)
    requires SideShows(v, levels, op.key.symbol, op.key.isBuy)
    ensures SideShows(OnVectors(v, op), OnMap(levels, op), op.key.symbol, op.key.isBuy)
  {
    SideKeeps(SideAt(v, op.key.symbol, op.key.isBuy), levels, op);
  }

  lemma OtherSide(v: Sides, levels: map<Key, Level>, op: LevelOp, symbol: nat, isBuy: bool)
    requires SideShows(v, levels, symbol, isBuy) && (symbol != op.key.symbol || isBuy != op.key.isBuy)
    ensures SideShows(OnVectors(v, op), OnMap(levels, op), symbol, isBuy)
  {
    OtherSides(levels, op, symbol, isBuy);
    assert SideKey(symbol, isBuy) != SideKey(op.key.symbol, op.key.isBuy);
  }

  lemma OpKeeps(v: Sides, levels: map<Key, Level>, op: LevelOp)
    requires AllShow(v, levels)
    ensures AllShow(OnVectors(v, op), OnMap(levels, op))
  {
    var v', levels' := OnVectors(v, op), OnMap(levels, op);
    forall symbol: nat, isBuy: bool ensures SideShows(v', levels', symbol, isBuy) {
      assert SideShows(v, levels, symbol, isBuy);
      if symbol == op.key.symbol && isBuy == op.key.isBuy {
        OwnSide(v, levels, op);
      } else {
        OtherSide(v, levels, op, symbol, isBuy);
      }
    }
  }

  lemma OtherSides(levels: map<Key, Level>, op: LevelOp, symbol: nat, isBuy: bool)
    requires symbol != op.key.symbol || isBuy != op.key.isBuy
    ensures SideMap(OnMap(levels, op), symbol, isBuy) == SideMap(levels, symbol, isBuy)
  {
  }

  lemma {:induction false} OpsKeep(v: Sides, levels: map<Key, Level>, ops: seq<LevelOp>)
    requires AllShow(v, levels)
    ensures AllShow(AllOnVectors(v, ops), AllOnMap(levels, ops))
    decreases |ops|
  {
    if ops != [] {
      OpKeeps(v, levels, ops[0]);
      OpsKeep(OnVectors(v, ops[0]), OnMap(levels, ops[0]), ops[1..]);
    }
  }

  // ----- the builder over vectors -----------------------------------------------------------------

  /** Everything but the levels, and the levels as vectors. */
  datatype Builder = Builder(core: Book, sides: Sides)

  function Bare(b: Book): Book {
    b.(levels := map[])
  }

  function EmptyBuilder(capacity: nat): Builder {
    Builder(EmptyBook(capacity), map[])
  }

  /** A core that names a missing record has no next step; no run reaches one. */
  ghost function Applied(vb: Builder, e: Event): Builder
    requires e.locate < LOCATES
  {
    if vb.core.Ok() then Builder(Bare(Apply(vb.core, e)), AllOnVectors(vb.sides, Ops(vb.core, e))) else vb
  }

  ghost function Replayed(vb: Builder, events: seq<Event>): Builder
    requires Placed(events)
    decreases |events|
  {
    if events == [] then vb else Replayed(Applied(vb, events[0]), events[1..])
  }

  ghost predicate Agree(vb: Builder, b: Book) {
    vb.core == Bare(b) && AllShow(vb.sides, b.levels)
  }

  lemma RemoveIgnores(b: Book, ref: Ref)
    requires b.Ok()
    ensures Bare(b).Ok() && RemoveOps(Bare(b), ref) == RemoveOps(b, ref)
    ensures Bare(RemoveOrder(Bare(b), ref)) == Bare(RemoveOrder(b, ref))
  {
  }

  lemma ReduceIgnores(b: Book, ref: Ref, shares: nat)
    requires b.Ok() && ref in b.refs
    ensures Bare(b).Ok() && ReduceOps(Bare(b), ref, shares) == ReduceOps(b, ref, shares)
    ensures Bare(ReduceOrder(Bare(b), ref, shares)) == Bare(ReduceOrder(b, ref, shares))
  {
  }

  /** Two books that differ in their levels only. */
  lemma PlaceIgnores(b: Book, c: Book, o: Order)
    requires Bare(b) == Bare(c)
    ensures PlaceOps(b, o) == PlaceOps(c, o) && Bare(PlaceOrder(b, o)) == Bare(PlaceOrder(c, o))
  {
  }

  lemma ExecuteIgnores(b: Book, ref: Ref, shares: nat, printed: Option<nat>, printable: bool)
    requires b.Ok()
    ensures Bare(b).Ok()
    ensures Bare(OnExecute(Bare(b), ref, shares, printed, printable)) == Bare(OnExecute(b, ref, shares, printed, printable))
  {
    if ref in b.refs {
      var o := b.pool[b.refs[ref]];
      var price := if printed.Some? then printed.value else o.price;
      ReduceIgnores(if printable then RecordVolume(b, o.symbol, shares, price) else b, ref, shares);
    }
  }

  lemma AddIgnores(b: Book, ref: Ref, side: char, shares: nat, price: nat, locate: nat)
    requires b.Ok()
    ensures Bare(b).Ok() && Bare(OnAdd(Bare(b), ref, side, shares, price, locate)) == Bare(OnAdd(b, ref, side, shares, price, locate))
  {
    RemoveIgnores(b.(stats := b.stats.(duplicateRefs := b.stats.duplicateRefs + 1)), ref);
    PlaceIgnores(MakeWay(Bare(b), ref), MakeWay(b, ref), Order(ref, side == 'B', price, shares, locate));
  }

  lemma ReplaceIgnores(b: Book, ref: Ref, newRef: Ref, shares: nat, price: nat)
    requires b.Ok()
    ensures Bare(b).Ok() && Bare(OnReplace(Bare(b), ref, newRef, shares, price)) == Bare(OnReplace(b, ref, newRef, shares, price))
  {
    RemoveIgnores(b, ref);
    if ref in b.refs {
      var o := b.pool[b.refs[ref]];
      PlaceIgnores(RemoveOrder(Bare(b), ref), RemoveOrder(b, ref), Order(newRef, o.isBuy, price, shares, o.symbol));
    }
  }

  lemma HandleIgnores(b: Book, e: Event)
    requires b.Ok() && e.locate < LOCATES
    ensures Bare(b).Ok() && Bare(Handle(Bare(b), e)) == Bare(Handle(b, e))
  {
    match e
    case Add(locate, _, ref, side, shares, price, _) => AddIgnores(b, ref, side, shares, price, locate);
    case Replace(_, _, ref, newRef, shares, price) => ReplaceIgnores(b, ref, newRef, shares, price);
    case Delete(_, _, ref) => RemoveIgnores(b, ref);
    case Execute(_, _, ref, shares) => ExecuteIgnores(b, ref, shares, None, true);
    case ExecutePrice(_, _, ref, shares, printable, price) => ExecuteIgnores(b, ref, shares, Some(price), printable);
    case Cancel(_, _, ref, shares) => if ref in b.refs { ReduceIgnores(b, ref, shares); }
    case _ =>
  }

  ghost predicate SameResting(b: Book, c: Book) {
    c.capacity == b.capacity && c.next == b.next && c.pool == b.pool && c.refs == b.refs
  }

  lemma RemoveSame(b: Book, c: Book, ref: Ref)
    requires b.Ok() && c.Ok() && SameResting(b, c)
    ensures RemoveOps(c, ref) == RemoveOps(b, ref) && SameResting(RemoveOrder(b, ref), RemoveOrder(c, ref))
    ensures SameResting(MakeWay(b, ref), MakeWay(c, ref))
  {
  }

  lemma AddSame(b: Book, c: Book, o: Order)
    requires b.Ok() && c.Ok() && SameResting(b, c)
    ensures AddOps(c, o) == AddOps(b, o)
  {
    RemoveSame(b, c, o.ref);
  }

  lemma ReplaceSame(b: Book, c: Book, ref: Ref, newRef: Ref, shares: nat, price: nat)
    requires b.Ok() && c.Ok() && SameResting(b, c)
    ensures ReplaceOps(c, ref, newRef, shares, price) == ReplaceOps(b, ref, newRef, shares, price)
  {
    RemoveSame(b, c, ref);
  }

  /** The operations depend on the orders alone. */
  lemma OpsDependOnOrders(b: Book, c: Book, e: Event)
    requires b.Ok() && SameResting(b, c) && |c.totals| == |b.totals|
    ensures c.Ok() && Ops(c, e) == Ops(b, e)
  {
    match e
    case Add(locate, _, ref, side, shares, price, _) => AddSame(b, c, Order(ref, side == 'B', price, shares, locate));
    case Replace(_, _, ref, newRef, shares, price) => ReplaceSame(b, c, ref, newRef, shares, price);
    case _ =>
  }

  /** No handler looks at a level to decide what to do. */
  lemma HandlersIgnoreLevels(b: Book, e: Event)
    requires b.Ok() && e.locate < LOCATES
    ensures Bare(b).Ok() && Ops(Bare(b), e) == Ops(b, e) && Bare(Apply(Bare(b), e)) == Bare(Apply(b, e))
  {
    OpsDependOnOrders(b, Bare(b), e);
    PreludeIgnores(b, e);
    HandleIgnores(Prelude(b, e), e);
  }

  lemma PreludeIgnores(b: Book, e: Event)
    requires b.Ok() && e.locate < LOCATES
    ensures Prelude(b, e).Ok() && Bare(b).Ok() && Prelude(Bare(b), e) == Bare(Prelude(b, e))
    ensures Prelude(b, e).levels == b.levels
  {
    PreludeSame(b, e);
  }

  lemma AppliedAgrees(vb: Builder, b: Book, e: Event)
    requires b.Ok() && Agree(vb, b) && e.locate < LOCATES
    ensures Agree(Applied(vb, e), Apply(b, e))
  {
    HandlersIgnoreLevels(b, e);
    OpsAreTheHandlers(b, e);
    OpsKeep(vb.sides, b.levels, Ops(b, e));
  }

  lemma {:induction false} ReplayedAgrees(vb: Builder, b: Book, events: seq<Event>)
    requires Inv(b) && Agree(vb, b) && Placed(events)
    ensures Agree(Replayed(vb, events), Replay(b, events))
    decreases |events|
  {
    if events != [] {
      InvOk(b);
      ApplyKeeps(b, events[0]);
      AppliedAgrees(vb, b, events[0]);
      ReplayedAgrees(Applied(vb, events[0]), Apply(b, events[0]), events[1..]);
    }
  }

  // ----- what shows -----------------------------------------------------------------------------------

  /** A side as anyone outside sees it. */
  function Seen(w: Side): seq<Entry<(int, int)>> {
    seq(|w|, i requires 0 <= i < |w| => Entry(w[i].price, (w[i].level.total, w[i].level.count)))
  }

  ghost function WalkOfVectors(v: Sides): seq<(seq<Entry<(int, int)>>, seq<Entry<(int, int)>>)> {
    seq(LOCATES, l requires 0 <= l < LOCATES => (Seen(SideAt(v, l, true)), Seen(SideAt(v, l, false))))
  }

  lemma SeenIsTheWalk(w: Side, b: Book, symbol: nat, isBuy: bool)
    requires Shows(isBuy, w, SideMap(b.levels, symbol, isBuy))
    ensures Seen(w) == Walk(isBuy, SideOf(b, symbol, isBuy))
  {
    var seen := SideOf(b, symbol, isBuy);
    SideOfIsSeen(b, symbol, isBuy);
    SeenShows(w, SideMap(b.levels, symbol, isBuy), seen, isBuy);
    ShowsTheWalk(isBuy, Seen(w), seen);
  }

  lemma SideOfIsSeen(b: Book, symbol: nat, isBuy: bool)
    ensures var m, seen := SideMap(b.levels, symbol, isBuy), SideOf(b, symbol, isBuy);
      m.Keys == seen.Keys && forall p :: p in m ==> seen[p] == (m[p].total, m[p].count)
  {
  }

  lemma SeenShows(w: Side, m: map<Price, Level>, seen: map<Price, (int, int)>, isBuy: bool)
    requires Shows(isBuy, w, m) && m.Keys == seen.Keys && forall p :: p in m ==> seen[p] == (m[p].total, m[p].count)
    ensures Shows(isBuy, Seen(w), seen)
  {
    forall p | p in seen ensures Lists(Seen(w), p) {
      assert p in m;
      assert Lists(w, p);
      var i :| 0 <= i < |w| && w[i].price == p;
      assert Seen(w)[i].price == p;
    }
  }

  /**
    Two builders fed the same events, one over ordered maps and one over sorted vectors, have
    the same levels side by side, hence the same depth at every symbol and the same digest walk.
   */
  lemma SameDepthAndDigest(capacity: nat, events: seq<Event>)
    requires Placed(events)
    ensures Inv(EmptyBook(capacity))
    ensures var b := Replay(EmptyBook(capacity), events); var vb := Replayed(EmptyBuilder(capacity), events);
      && vb.core == Bare(b)
      && (forall symbol: nat, isBuy: bool :: Seen(SideAt(vb.sides, symbol, isBuy)) == Walk(isBuy, SideOf(b, symbol, isBuy)))
      && WalkOfVectors(vb.sides) == DigestWalk(b)
  {
    EmptyInv(capacity);
    var b0, vb0 := EmptyBook(capacity), EmptyBuilder(capacity);
    forall symbol: nat, isBuy: bool ensures SideShows(vb0.sides, b0.levels, symbol, isBuy) {
    }
    ReplayedAgrees(vb0, b0, events);
    var b, vb := Replay(b0, events), Replayed(vb0, events);
    forall symbol: nat, isBuy: bool ensures Seen(SideAt(vb.sides, symbol, isBuy)) == Walk(isBuy, SideOf(b, symbol, isBuy)) {
      assert SideShows(vb.sides, b.levels, symbol, isBuy);
      SeenIsTheWalk(SideAt(vb.sides, symbol, isBuy), b, symbol, isBuy);
    }
  }
}
