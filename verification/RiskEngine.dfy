/**
  The risk engine as it is built: a flat array of symbols, a ring of rate buckets, and
  the open orders in a fixed, probed table.  Every method is proved to take the step that
  RiskModel takes on a map.
 */
module RiskEngine {
  import opened Common
  import opened Probing
  import opened ProbeTable
  import opened RiskModel
  import RateLimiter

  datatype OpenSlot = OpenSlot(token: Token, order: OpenOrder, occupied: bool)

  function CellOf(s: OpenSlot): Option<Token> {
    if s.occupied then Some(s.token) else None
  }

  function CellsOf(slots: seq<OpenSlot>): (cells: Cells<Token>)
    ensures |cells| == |slots|
    ensures forall i {:trigger cells[i]} {:trigger slots[i]} :: 0 <= i < |slots| ==> cells[i] == CellOf(slots[i])
  {
    Mapped(s => CellOf(s), slots)
  }

  function OrdersOf(slots: seq<OpenSlot>): (orders: seq<OpenOrder>)
    ensures |orders| == |slots|
    ensures forall i {:trigger orders[i]} {:trigger slots[i]} :: 0 <= i < |slots| ==> orders[i] == slots[i].order
  {
    Mapped((s: OpenSlot) => s.order, slots)
  }

  lemma SlotUpdate(slots: seq<OpenSlot>, i: nat, s: OpenSlot)
    requires i < |slots|
    ensures CellsOf(slots[i := s]) == CellsOf(slots)[i := CellOf(s)]
    ensures OrdersOf(slots[i := s]) == OrdersOf(slots)[i := s.order]
  {
  }

  lemma SameVals<T>(vals: seq<T>, i: nat)
    requires i < |vals|
    ensures vals[i := vals[i]] == vals
  {
  }

  /** The two-case test: the home k of the entry at j does not lie between the hole i and j. */
  predicate MovableTest(i: nat, j: nat, k: nat) {
    if j >= i then k <= i || k > j else k <= i && k > j
  }

  lemma TestMeansMovable(hash: Token -> nat, t: Token, i: nat, j: nat, n: nat)
    requires i < n && j < n && i != j
    ensures MovableTest(i, j, Home(hash, t, n)) <==> Movable(hash, t, i, j, n)
  {
  }

  /** The smallest power of two that is at least 64 and at least what is wanted. */
  method TableCapacity(want: nat) returns (capacity: nat)
    ensures RoundedUp(capacity, if want < 64 then 64 else want)
  {
    capacity := 64;
    ghost var k: nat := 6;
    assert Pow2(5) == 32 && Pow2(6) == 64;
    while capacity < want
      invariant capacity >= 64 && k >= 6 && capacity == Pow2(k)
      invariant Pow2(k - 1) < (if want < 64 then 64 else want)
      decreases want - capacity
    {
      capacity, k := 2 * capacity, k + 1;
    }
    FirstIsSmallest(k, if want < 64 then 64 else want);
  }

  class RiskEngine {
    const hash: Token -> nat
    const limits: Limits
    const symbols: array<Symbol>
    const slots: array<OpenSlot>
    const rate: RateLimiter.RateLimiter
    var openCount: nat
    var tripped: bool
    var stats: Stats

    /** The model state this object stands for, and the open tokens in arrival order. */
    ghost var model: Engine
    ghost var order: seq<Token>

    ghost predicate Tied(m: Model<Token, OpenOrder>)
      reads slots
    {
      m.cells == CellsOf(slots[..]) && m.vals == OrdersOf(slots[..])
    }

    ghost predicate Fields()
      reads this, symbols
    {
      && model.limits == limits && model.symbols == symbols[..] && model.openCount == openCount
      && model.tripped == tripped && model.stats == stats && model.Ok() && Indexed(model)
    }

    ghost predicate TableOk()
      reads this, slots
    {
      && openCount == |order| && 64 <= slots.Length && 4 * limits.maxOpenOrders <= slots.Length
      && Represents(hash, Model(CellsOf(slots[..]), OrdersOf(slots[..]), model.open, order))
    }

    ghost predicate RateOk()
      reads this, rate, rate.index, rate.count
    {
      rate.Valid() && model.rate == rate.View()
    }

    ghost predicate Valid()
      reads this, symbols, slots, rate, rate.index, rate.count
    {
      Fields() && TableOk() && RateOk()
    }

    constructor (hash: Token -> nat, limits: Limits)
      ensures Valid() && model == FreshEngine(limits) && order == []
      ensures fresh(symbols) && fresh(slots) && fresh(rate) && fresh(rate.index) && fresh(rate.count)
      ensures this.hash == hash && this.limits == limits
      ensures RoundedUp(slots.Length, if 4 * limits.maxOpenOrders < 64 then 64 else 4 * limits.maxOpenOrders)
    {
      var capacity := TableCapacity(4 * limits.maxOpenOrders);
      var blank := OpenSlot([], OpenOrder(0, 0, false, 0), false);
      this.hash := hash;
      this.limits := limits;
      symbols := new Symbol[LOCATES](_ => BLANK_SYMBOL);
      slots := new OpenSlot[capacity](_ => blank);
      rate := new RateLimiter.RateLimiter();
      openCount, tripped, stats := 0, false, ZERO_STATS;
      model, order := FreshEngine(limits), [];
      new;
      assert symbols[..] == model.symbols;
      BlankRepresents<Token, OpenOrder>(hash, OrdersOf(slots[..]));
      assert CellsOf(slots[..]) == Blank<Token, OpenOrder>(OrdersOf(slots[..])).cells;
    }

    // ----- the open order table ---------------------------------------------------------

    /** The slot of a working order.  In a full table a search for a token that is not there
        would never end. */
    method FindOpen(t: Token, ghost m: Model<Token, OpenOrder>) returns (r: Option<nat>)
      requires Tied(m) && Represents(hash, m) && Ends(m, t)
      ensures r.Some? <==> t in m.contents
      ensures r.Some? ==> r.value < slots.Length && slots[r.value].occupied && slots[r.value].token == t
      ensures r.Some? ==> slots[r.value].order == m.contents[t]
    {
      var i := Probe(t, m);
      r := if slots[i].occupied then Some(i) else None;
    }

    /** Walk forward from the home slot to the token or to the first empty slot. */
    method Probe(t: Token, ghost m: Model<Token, OpenOrder>) returns (i: nat)
      requires Tied(m) && Represents(hash, m) && Ends(m, t)
      ensures i < slots.Length && ProbeEnd(hash, m, t, i)
      ensures slots[i].occupied <==> t in m.contents
      ensures t in m.contents ==> slots[i].token == t && slots[i].order == m.contents[t]
    {
      var n := slots.Length;
      var home := Home(hash, t, n);
      ghost var e := ProbeTarget(hash, m, t);
      i := home;
      while slots[i].occupied
        invariant i < n && Dist(home, i, n) <= Dist(home, e, n)
        invariant TakenBefore(hash, m.cells, t, i)
        decreases Dist(home, e, n) - Dist(home, i, n)
      {
        if slots[i].token == t {
          ProbeHits(hash, m, t, i);
          return;
        }
        assert m.cells[i] == Some(slots[i].token);
        i := Next(i, n);
      }
      ProbeMisses(hash, m, t, i);
    }

    method Write(i: nat, s: OpenSlot)
      requires i < slots.Length
      modifies slots
      ensures slots[..] == old(slots[..])[i := s]
      ensures CellsOf(slots[..]) == old(CellsOf(slots[..]))[i := CellOf(s)]
      ensures OrdersOf(slots[..]) == old(OrdersOf(slots[..]))[i := s.order]
    {
      SlotUpdate(slots[..], i, s);
      slots[i] := s;
      assert slots[..] == old(slots[..])[i := s];
    }

    /** Store a new token in the first empty slot; refuse one that is already working, and
        give up when a whole turn finds no empty slot. */
    method InsertOpen(t: Token, o: OpenOrder, ghost m: Model<Token, OpenOrder>) returns (ok: bool, ghost m': Model<Token, OpenOrder>)
      requires Tied(m) && Represents(hash, m)
      modifies slots
      ensures Tied(m') && Represents(hash, m') && (ok <==> t !in m.contents && |m.order| < slots.Length)
      ensures m'.contents == if ok then m.contents[t := o] else m.contents
      ensures m'.order == if ok then m.order + [t] else m.order
    {
      m' := m;
      var free := FirstEmpty(t, m);
      ok := free.Some?;
      if ok {
        InsertKeeps(hash, m, t, o, free.value);
        m' := Inserted(m, t, o, free.value);
        Write(free.value, OpenSlot(t, o, true));
      }
    }

    method FirstEmpty(t: Token, ghost m: Model<Token, OpenOrder>) returns (r: Option<nat>)
      requires Tied(m) && Represents(hash, m)
      ensures r.Some? <==> t !in m.contents && |m.order| < slots.Length
      ensures r.Some? ==> r.value < slots.Length && ProbeEnd(hash, m, t, r.value)
    {
      var n := slots.Length;
      var home := Home(hash, t, n);
      var i: nat, probes: nat := home, 0;
      while slots[i].occupied
        invariant i < n && probes == Dist(home, i, n)
        invariant TakenBefore(hash, m.cells, t, i)
        decreases n - probes
      {
        assert m.cells[i] == Some(slots[i].token);
        if slots[i].token == t {
          ProbeHits(hash, m, t, i);
          return None;
        }
        i := Next(i, n);
        probes := probes + 1;
        if probes > n - 1 {
          ProbeExhausted(hash, m, t);
          return None;
        }
      }
      ProbeMisses(hash, m, t, i);
      EmptyMeansRoom(m.cells, m.order, i);
      r := Some(i);
    }

    /** The scan of Algorithm R: from the hole forward, entries that may move close it. */
    method EraseAt(i: nat, ghost t: Token, ghost before: Model<Token, OpenOrder>) returns (ghost m: Model<Token, OpenOrder>)
      requires Tied(before) && Represents(hash, before) && i < slots.Length && before.cells[i] == Some(t)
      modifies slots
      ensures Tied(m) && Represents(hash, m) && m.contents == before.contents - {t}
      ensures m.order == Without(before.order, t) && |m.order| == |before.order| - 1
      ensures m.cells == Build(hash, m.order, slots.Length)
    {
      HoleyStarts(hash, before, t, i);
      SameVals(before.vals, i);
      Write(i, slots[i].(occupied := false));
      m := CloseHole(i, Opened(before, t, i));
      AsIfNeverInserted(hash, m);
    }

    method CloseHole(start: nat, ghost before: Model<Token, OpenOrder>) returns (ghost m: Model<Token, OpenOrder>)
      requires Tied(before) && Holey(hash, before, start, 1)
      modifies slots
      ensures Tied(m) && Represents(hash, m) && m.contents == before.contents && m.order == before.order
    {
      var n := slots.Length;
      var hole: nat, j: nat := start, Next(start, n);
      m := before;
      var done := false;
      while !done
        invariant hole < n && j < n && Tied(m) && m.contents == before.contents && m.order == before.order
        invariant if done then Represents(hash, m) else Holey(hash, m, hole, Lap(hole, j, n))
        decreases !done, Strayed(hash, m.cells, n), n - Lap(hole, j, n)
      {
        done, hole, m := Scan(hole, j, m);
        j := Next(j, n);
      }
    }

    /** One slot of the walk: stop at an empty one, leave what must stay, pull back the rest. */
    method Scan(hole: nat, j: nat, ghost m: Model<Token, OpenOrder>)
      returns (done: bool, hole': nat, ghost m': Model<Token, OpenOrder>)
      requires j < slots.Length && hole < slots.Length && Tied(m) && Holey(hash, m, hole, Lap(hole, j, slots.Length))
      modifies slots
      ensures hole' < slots.Length && Tied(m') && m'.contents == m.contents && m'.order == m.order
      ensures done ==> Represents(hash, m')
      ensures !done ==> Onward(hash, m, hole, m', hole', j)
    {
      done, hole', m' := false, hole, m;
      assert m.cells[j] == CellOf(slots[j]);
      if !slots[j].occupied {
        HoleyEnds(hash, m, hole, j);
        done := true;
      } else {
        var k := Home(hash, slots[j].token, slots.Length);
        TestMeansMovable(hash, slots[j].token, hole, j, slots.Length);
        if MovableTest(hole, j, k) {
          HoleyMoves(hash, m, hole, j);
          m' := Moved(m, hole, j);
          PullBack(hole, j);
          hole' := j;
        } else {
          HoleyStays(hash, m, hole, j);
        }
      }
    }

    method PullBack(hole: nat, j: nat)
      requires hole < slots.Length && j < slots.Length && hole != j
      requires slots[j].occupied
      modifies slots
      ensures CellsOf(slots[..]) == Shifted(old(CellsOf(slots[..])), hole, j)
      ensures OrdersOf(slots[..]) == old(OrdersOf(slots[..]))[hole := old(slots[j].order)]
    {
      Write(hole, slots[j]);
      SameVals(OrdersOf(slots[..]), j);
      Write(j, slots[j].(occupied := false));
    }

    // ----- the check ------------------------------------------------------------------------

    /** Reads the request and the engine and changes nothing.  An order that passes has room. */
    method Check(r: Request) returns (reason: Reject)
      requires Valid() && r.locate < LOCATES
      ensures reason == RiskModel.Check(model, r)
      ensures reason == Pass ==> openCount < slots.Length
    {
      var s := symbols[r.locate];
      if tripped {
        return KillSwitch;
      }
      if !s.enabled {
        return SymbolNotEnabled;
      }
      if s.halted {
        return SymbolHalted;
      }
      reason := CheckOrder(limits, r);
      if reason == Pass {
        reason := CheckMarket(limits, r);
      }
      if reason == Pass {
        reason := CheckExposure(limits, s, r);
      }
      if reason == Pass {
        reason := CheckTable(r);
      }
    }

    method CheckTable(r: Request) returns (reason: Reject)
      requires Valid()
      ensures reason == CheckEngine(model, r)
      ensures reason == Pass ==> openCount < slots.Length
    {
      if openCount >= limits.maxOpenOrders {
        return MaxOpenOrders;
      }
      var n := rate.Count(r.now);
      if n >= limits.maxMessages {
        return MessageRate;
      }
      var slot := FindOpen(r.token, Model(CellsOf(slots[..]), OrdersOf(slots[..]), model.open, order));
      reason := if slot.Some? then DuplicateToken else Pass;
    }

    // ----- the updates --------------------------------------------------------------------------

    method SetSymbol(l: nat, s: Symbol)
      requires Valid() && l < LOCATES
      modifies symbols, this`model
      ensures Valid() && model == old(model).(symbols := old(model.symbols)[l := s])
    {
      ghost var m := model.(symbols := model.symbols[l := s]);
      symbols[l] := s;
      model := m;
      assert symbols[..] == model.symbols;
    }

    method SetStats(s: Stats)
      requires Valid()
      modifies this`stats, this`model
      ensures Valid() && model == old(model).(stats := s)
    {
      stats := s;
      model := model.(stats := s);
    }

    /** Called once the order was written to the wire.  A token that is working already or
        finds no slot trips the switch. */
    method OnOrderSent(r: Request)
      requires Valid() && r.locate < LOCATES
      modifies this, symbols, slots, rate.index, rate.count
      ensures Valid()
      ensures model == if old(openCount) < slots.Length then RiskModel.OnOrderSent(old(model), r) else Refuse(old(model))
    {
      ghost var m := Model(CellsOf(slots[..]), OrdersOf(slots[..]), model.open, order);
      var o := OpenOrder(r.shares, r.locate, r.isBuy, r.price);
      var ok;
      ok, m := InsertOpen(r.token, o, m);
      if !ok {
        SetStats(stats.(insertFailed := stats.insertFailed + 1));
        TripKillSwitch();
      } else {
        CountSent(r, m);
      }
    }

    method CountSent(r: Request, ghost m: Model<Token, OpenOrder>)
      requires Fields() && RateOk() && r.locate < LOCATES && r.token !in model.open
      requires 64 <= slots.Length && 4 * limits.maxOpenOrders <= slots.Length
      requires Tied(m) && Represents(hash, m) && openCount == |order| && m.order == order + [r.token]
      requires m.contents == model.open[r.token := OpenOrder(r.shares, r.locate, r.isBuy, r.price)]
      modifies this, symbols, rate.index, rate.count
      ensures Valid() && model == RiskModel.OnOrderSent(old(model), r)
    {
      ghost var after := RiskModel.OnOrderSent(model, r);
      rate.Record(r.now);
      symbols[r.locate] := AddWorking(symbols[r.locate], r.isBuy, r.shares, r.price);
      openCount := openCount + 1;
      stats := stats.(sent := stats.sent + 1, peak := if openCount > stats.peak then openCount else stats.peak);
      model, order := after, m.order;
      assert symbols[..] == model.symbols;
    }

    /** Take n shares off the order in slot i and off its symbol. */
    method ReduceAt(i: nat, n: nat, filled: bool)
      requires Valid() && i < slots.Length && slots[i].occupied
      requires slots[i].token in model.open && slots[i].order == model.open[slots[i].token] && n <= slots[i].order.leaves
      modifies this`model, symbols, slots
      ensures Valid() && model == Reduce(old(model), old(slots[i].token), n, filled)
      ensures slots[i] == old(slots[i]).(order := old(slots[i].order).(leaves := old(slots[i].order.leaves) - n))
    {
      var t, o := slots[i].token, slots[i].order;
      ghost var after := Reduce(model, t, n, filled);
      var o' := o.(leaves := o.leaves - n);
      ghost var m := Model(CellsOf(slots[..]), OrdersOf(slots[..]), model.open, order);
      OverwriteKeeps(hash, m, t, o', i);
      SameVals(m.cells, i);
      Write(i, slots[i].(order := o'));
      var s := CutWorking(symbols[o.locate], o.isBuy, n);
      symbols[o.locate] := if filled then MovePosition(s, o.isBuy, n) else s;
      model := after;
      assert symbols[..] == model.symbols;
    }

    method RetireAt(i: nat)
      requires Valid() && i < slots.Length && slots[i].occupied
      requires slots[i].token in model.open && slots[i].order == model.open[slots[i].token]
      modifies this, symbols, slots
      ensures Valid() && model == Retire(old(model), old(slots[i].token))
    {
      var o := slots[i].order;
      ghost var t := slots[i].token;
      ghost var after := Retire(model, t);
      ghost var m := EraseAt(i, t, Model(CellsOf(slots[..]), OrdersOf(slots[..]), model.open, order));
      openCount := openCount - 1;
      var s := symbols[o.locate];
      stats := stats.(drift := stats.drift + Drift(s, o.isBuy));
      symbols[o.locate] := DropWorking(s, o.isBuy);
      model, order := after, m.order;
      assert symbols[..] == model.symbols;
    }

    method ReduceAndRetireAt(i: nat, n: nat, filled: bool)
      requires Valid() && i < slots.Length && slots[i].occupied
      requires slots[i].token in model.open && slots[i].order == model.open[slots[i].token] && n <= slots[i].order.leaves
      modifies this, symbols, slots
      ensures Valid() && model == ReduceAndRetire(old(model), old(slots[i].token), n, filled)
    {
      ReduceAt(i, n, filled);
      if slots[i].order.leaves == 0 {
        RetireAt(i);
      }
    }

    method OnFill(t: Token, shares: nat, price: int)
      requires Valid() && (t in model.open || openCount < slots.Length)
      modifies this, symbols, slots
      ensures Valid() && model == RiskModel.OnFill(old(model), t, shares, price)
    {
      var slot := FindOpen(t, Model(CellsOf(slots[..]), OrdersOf(slots[..]), model.open, order));
      if slot.None? {
        SetStats(stats.(unknownToken := stats.unknownToken + 1));
      } else {
        var leaves := slots[slot.value].order.leaves;
        SetStats(FillStats(stats, shares, leaves, price));
        ReduceAndRetireAt(slot.value, Clip(shares, leaves), true);
      }
    }

    method OnCancelAcked(t: Token, decrement: nat)
      requires Valid() && (t in model.open || openCount < slots.Length)
      modifies this, symbols, slots
      ensures Valid() && model == RiskModel.OnCancelAcked(old(model), t, decrement)
    {
      var slot := FindOpen(t, Model(CellsOf(slots[..]), OrdersOf(slots[..]), model.open, order));
      if slot.None? {
        SetStats(stats.(unknownToken := stats.unknownToken + 1));
      } else {
        var leaves := slots[slot.value].order.leaves;
        var asked := if decrement == 0 then leaves else decrement;
        SetStats(CancelStats(stats, asked, leaves));
        ReduceAndRetireAt(slot.value, Clip(asked, leaves), false);
      }
    }

    method OnReject(t: Token)
      requires Valid() && (t in model.open || openCount < slots.Length)
      modifies this, symbols, slots
      ensures Valid() && model == RiskModel.OnReject(old(model), t)
    {
      var slot := FindOpen(t, Model(CellsOf(slots[..]), OrdersOf(slots[..]), model.open, order));
      if slot.None? {
        SetStats(stats.(unknownToken := stats.unknownToken + 1));
      } else {
        SetStats(stats.(rejects := stats.rejects + 1));
        ReduceAndRetireAt(slot.value, slots[slot.value].order.leaves, false);
      }
    }

    method TripKillSwitch()
      requires Valid()
      modifies this`stats, this`tripped, this`model
      ensures Valid() && model == Trip(old(model))
    {
      tripped := true;
      stats := stats.(killTrips := stats.killTrips + 1);
      model := Trip(model);
    }

    method ResetKillSwitch()
      requires Valid()
      modifies this`tripped, this`model
      ensures Valid() && model == old(model).(tripped := false)
    {
      tripped := false;
      model := model.(tripped := false);
    }
  }
}
