/**
  The book builder as it is built: the order pool, the levels, the totals and the counters
  change in place, and references are looked up in the flat order table.  Every handler is
  proved to take the step that BookModel takes on values.
 */
module BookBuilder {
  import opened Common
  import opened BookModel
  import opened BookTheorems
  import FlatOrderMap

  class BookBuilder {
    const capacity: nat
    const orders: FlatOrderMap.FlatOrderMap<Slot>
    var next: Slot
    var pool: map<Slot, Order>
    var levels: map<Key, Level>
    var totals: seq<SymbolTotals>
    var stats: Stats

    /** The model state this object stands for. */
    ghost function View(): Book
      reads this, orders
    {
      Book(capacity, next, pool, orders.contents, levels, totals, stats)
    }

    ghost predicate Valid()
      reads this, orders, orders.keys, orders.vals
    {
      orders.Valid() && Inv(View())
    }

    constructor (capacity: nat, hash: nat -> nat, mapHint: nat)
      ensures Valid() && View() == EmptyBook(capacity)
      ensures fresh(orders) && fresh(orders.keys) && fresh(orders.vals)
    {
      this.capacity := capacity;
      orders := new FlatOrderMap.FlatOrderMap(hash, mapHint);
      next, pool, levels, totals, stats := 0, map[], map[], seq(LOCATES, _ => ZERO_TOTALS), ZERO_STATS;
      new;
      EmptyInv(capacity);
    }

    /** The order leaves its queue, its level when it was the last there, the references and
        the pool. */
    method RemoveOrder(ref: Ref)
      requires Valid()
      modifies this, orders, orders.keys, orders.vals
      ensures Valid() && orders.keys == old(orders.keys) && orders.vals == old(orders.vals)
      ensures View().Ok() && old(View()).Ok() && View() == BookModel.RemoveOrder(old(View()), ref)
    {
      InvOk(View());
      var slot := orders.Find(ref);
      if slot.None? {
        return;
      }
      RemoveKeeps(View(), ref);
      Forget(ref, slot.value);
    }

    method Forget(ref: Ref, h: Slot)
      requires orders.Valid() && View().Ok() && ref in orders.contents && orders.contents[ref] == h
      modifies this, orders, orders.keys, orders.vals
      ensures orders.Valid() && orders.keys == old(orders.keys) && orders.vals == old(orders.vals)
      ensures View() == BookModel.RemoveOrder(old(View()), ref)
    {
      var o := pool[h];
      levels := Leave(levels, KeyOf(o), h, o.qty);
      var _ := orders.Erase(ref);
      pool := pool - {h};
      if stats.liveOrders > 0 {
        stats := stats.(liveOrders := stats.liveOrders - 1);
      }
    }

    /** A resting order gives up shares, and goes when it has none. */
    method ReduceOrder(ref: Ref, h: Slot, shares: nat)
      requires Valid() && ref in orders.contents && orders.contents[ref] == h
      modifies this, orders, orders.keys, orders.vals
      ensures Valid() && orders.keys == old(orders.keys) && orders.vals == old(orders.vals)
      ensures old(View()).Ok() && View() == BookModel.ReduceOrder(old(View()), ref, shares)
    {
      InvOk(View());
      if shares >= pool[h].qty {
        TakeAll(ref, h, shares);
      } else {
        TakeSome(ref, h, shares);
      }
    }

    method TakeAll(ref: Ref, h: Slot, shares: nat)
      requires Valid() && View().Ok() && ref in orders.contents && orders.contents[ref] == h && shares >= pool[h].qty
      modifies this, orders, orders.keys, orders.vals
      ensures Valid() && orders.keys == old(orders.keys) && orders.vals == old(orders.vals)
      ensures View() == BookModel.ReduceOrder(old(View()), ref, shares)
    {
      if shares > pool[h].qty {
        SetStats(stats.(overfills := stats.overfills + 1));
      }
      RemoveOrder(ref);
    }

    method TakeSome(ref: Ref, h: Slot, shares: nat)
      requires Valid() && View().Ok() && ref in orders.contents && orders.contents[ref] == h && shares < pool[h].qty
      modifies this`pool, this`levels
      ensures Valid() && View() == BookModel.ReduceOrder(old(View()), ref, shares)
    {
      ReduceKeeps(View(), ref, shares);
      var o := pool[h];
      pool := pool[h := o.(qty := o.qty - shares)];
      levels := Shrink(levels, KeyOf(o), shares);
    }

    /** Allocate, append to the level, store the reference, count. */
    method PlaceOrder(o: Order)
      requires Valid() && o.symbol < LOCATES
      modifies this, orders, orders.keys, orders.vals
      ensures Valid() && View() == BookModel.PlaceOrder(old(View()), o)
      ensures (orders.keys == old(orders.keys) || fresh(orders.keys)) && (orders.vals == old(orders.vals) || fresh(orders.vals))
    {
      PlaceKeeps(View(), o);
      if |pool.Keys| >= capacity {
        stats := stats.(poolExhausted := stats.poolExhausted + 1);
      } else {
        Enrol(o);
      }
    }

    method Enrol(o: Order)
      requires orders.Valid() && |pool.Keys| < capacity
      modifies this, orders, orders.keys, orders.vals
      ensures orders.Valid() && View() == BookModel.PlaceOrder(old(View()), o)
      ensures (orders.keys == old(orders.keys) || fresh(orders.keys)) && (orders.vals == old(orders.vals) || fresh(orders.vals))
    {
      var h := next;
      levels := Join(levels, KeyOf(o), h, o.qty);
      File(o.ref, h);
      next := next + 1;
      pool := pool[h := o];
      var live := stats.liveOrders + 1;
      stats := stats.(liveOrders := live, peakLive := if live > stats.peakLive then live else stats.peakLive);
    }

    method File(ref: Ref, h: Slot)
      requires orders.Valid()
      modifies orders, orders.keys, orders.vals
      ensures orders.Valid() && orders.contents == if ref == 0 then old(orders.contents) else old(orders.contents)[ref := h]
      ensures (orders.keys == old(orders.keys) || fresh(orders.keys)) && (orders.vals == old(orders.vals) || fresh(orders.vals))
    {
      var _ := orders.Insert(ref, h);
    }
  
    // ----- handlers -----------------------------------------------------------------------

    /** The timestamp and the counters every handler touches first. */
    method Begin(e: Event)
      requires Valid() && e.locate < LOCATES
      modifies this`stats, this`totals
      ensures Valid() && |old(totals)| == LOCATES && View() == Prelude(old(View()), e)
    {
      SetStats(Counted(stats.(lastTimestamp := e.ts, messages := stats.messages + 1), e));
      if !e.Other? {
        SetTotals(e.locate, totals[e.locate].(messages := totals[e.locate].messages + 1));
      }
    }

    method SetTotals(locate: nat, t: SymbolTotals)
      requires Valid() && locate < |totals|
      modifies this`totals
      ensures Valid() && View() == old(View()).(totals := old(totals)[locate := t])
    {
      totals := totals[locate := t];
      SameOrdersInv(old(View()), View());
    }

    method SetStats(s: Stats)
      requires Valid() && s.liveOrders == stats.liveOrders
      modifies this`stats
      ensures Valid() && View() == old(View()).(stats := s)
    {
      stats := s;
      SameOrdersInv(old(View()), View());
    }

    method Record(locate: nat, shares: nat, price: nat)
      requires Valid() && locate < LOCATES
      modifies this`totals
      ensures Valid() && |old(totals)| == LOCATES && View() == RecordVolume(old(View()), locate, shares, price)
    {
      var t := totals[locate];
      SetTotals(locate, t.(executedShares := t.executedShares + shares, executedNotional := t.executedNotional + shares * price));
    }

    method OnAdd(ref: Ref, side: char, shares: nat, price: nat, locate: nat)
      requires Valid() && View().Ok() && locate < LOCATES
      modifies this, orders, orders.keys, orders.vals
      ensures Valid() && View() == BookModel.OnAdd(old(View()), ref, side, shares, price, locate)
      ensures (orders.keys == old(orders.keys) || fresh(orders.keys)) && (orders.vals == old(orders.vals) || fresh(orders.vals))
    {
      if side != 'B' && side != 'S' {
        SetStats(stats.(unknownSide := stats.unknownSide + 1));
      } else {
        MakeWay(ref);
        PlaceOrder(Order(ref, side == 'B', price, shares, locate));
      }
    }

    /** A live reference is being reused: count it and drop the old order. */
    method MakeWay(ref: Ref)
      requires Valid() && View().Ok()
      modifies this, orders, orders.keys, orders.vals
      ensures Valid() && orders.keys == old(orders.keys) && orders.vals == old(orders.vals)
      ensures View() == BookModel.MakeWay(old(View()), ref)
    {
      var found := orders.Find(ref);
      if found.Some? {
        SetStats(stats.(duplicateRefs := stats.duplicateRefs + 1));
        RemoveOrder(ref);
      }
    }

    method OnExecute(ref: Ref, shares: nat, printed: Option<nat>, printable: bool)
      requires Valid()
      modifies this, orders, orders.keys, orders.vals
      ensures Valid() && orders.keys == old(orders.keys) && orders.vals == old(orders.vals)
      ensures old(View()).Ok() && View() == BookModel.OnExecute(old(View()), ref, shares, printed, printable)
    {
      InvOk(View());
      var found := orders.Find(ref);
      if found.None? {
        SetStats(stats.(orphanExecutes := stats.orphanExecutes + 1));
        return;
      }
      var o := pool[found.value];
      if printable {
        Record(o.symbol, shares, if printed.Some? then printed.value else o.price);
      }
      ReduceOrder(ref, found.value, shares);
    }

    method OnCancel(ref: Ref, shares: nat)
      requires Valid()
      modifies this, orders, orders.keys, orders.vals
      ensures Valid() && orders.keys == old(orders.keys) && orders.vals == old(orders.vals)
      ensures old(View()).Ok() && View() == BookModel.OnCancel(old(View()), ref, shares)
    {
      InvOk(View());
      var found := orders.Find(ref);
      if found.None? {
        SetStats(stats.(orphanCancels := stats.orphanCancels + 1));
      } else {
        ReduceOrder(ref, found.value, shares);
      }
    }

    method OnDelete(ref: Ref)
      requires Valid()
      modifies this, orders, orders.keys, orders.vals
      ensures Valid() && orders.keys == old(orders.keys) && orders.vals == old(orders.vals)
      ensures old(View()).Ok() && View() == BookModel.OnDelete(old(View()), ref)
    {
      InvOk(View());
      var found := orders.Find(ref);
      if found.None? {
        SetStats(stats.(orphanDeletes := stats.orphanDeletes + 1));
      } else {
        RemoveOrder(ref);
      }
    }

    method OnReplace(ref: Ref, newRef: Ref, shares: nat, price: nat)
      requires Valid()
      modifies this, orders, orders.keys, orders.vals
      ensures Valid() && old(View()).Ok() && View() == BookModel.OnReplace(old(View()), ref, newRef, shares, price)
      ensures (orders.keys == old(orders.keys) || fresh(orders.keys)) && (orders.vals == old(orders.vals) || fresh(orders.vals))
    {
      InvOk(View());
      var found := orders.Find(ref);
      if found.None? {
        SetStats(stats.(orphanReplaces := stats.orphanReplaces + 1));
        return;
      }
      var o := pool[found.value];
      RemoveOrder(ref);
      PlaceOrder(Order(newRef, o.isBuy, price, shares, o.symbol));
    }

    method OnTrade(locate: nat, shares: nat, price: nat, hidden: bool)
      requires Valid() && locate < LOCATES
      modifies this`totals
      ensures Valid() && |old(totals)| == LOCATES
      ensures View() == RecordVolume(if hidden then Hidden(old(View()), locate, shares) else Crossed(old(View()), locate, shares),
                                     locate, shares, price)
    {
      var t := totals[locate];
      if hidden {
        SetTotals(locate, t.(hiddenShares := t.hiddenShares + shares));
      } else {
        SetTotals(locate, t.(crossShares := t.crossShares + shares));
      }
      Record(locate, shares, price);
    }

    /** Dispatch one decoded message. */
    method Handle(e: Event)
      requires Valid() && e.locate < LOCATES
      modifies this, orders, orders.keys, orders.vals
      ensures Valid() && old(View()).Ok() && View() == BookModel.Apply(old(View()), e)
      ensures (orders.keys == old(orders.keys) || fresh(orders.keys)) && (orders.vals == old(orders.vals) || fresh(orders.vals))
    {
      Begin(e);
      InvOk(old(View()));
      InvOk(View());
      match e
      case Add(locate, _, ref, side, shares, price, _) => OnAdd(ref, side, shares, price, locate);
      case Execute(_, _, ref, shares) => OnExecute(ref, shares, None, true);
      case ExecutePrice(_, _, ref, shares, printable, price) => OnExecute(ref, shares, Some(price), printable);
      case Cancel(_, _, ref, shares) => OnCancel(ref, shares);
      case Delete(_, _, ref) => OnDelete(ref);
      case Replace(_, _, ref, newRef, shares, price) => OnReplace(ref, newRef, shares, price);
      case Trade(locate, _, shares, price) => OnTrade(locate, shares, price, true);
      case CrossTrade(locate, _, shares, price) => OnTrade(locate, shares, price, false);
      case Other(_, _) =>
    }
  }
}
