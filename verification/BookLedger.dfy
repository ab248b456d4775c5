/**
  The day's tape, kept without a book: live orders by reference, what printed at which price,
  and what went wrong.  The builder, with its pool, its levels and its reference table, agrees
  with it after every event stream, orderly or not.
 */
module BookLedger {
  import opened Common
  import opened BookModel
  import opened BookTheorems

  /** `used` counts the records in use, those that no reference names included. */
  datatype Tape = Tape(capacity: nat, live: map<Ref, Order>, used: nat, volumes: map<nat, SymbolTotals>, stats: Stats)

  function NewTape(capacity: nat): Tape {
    Tape(capacity, map[], 0, map[], ZERO_STATS)
  }

  function One(p: bool): nat {
    if p then 1 else 0
  }

  function VolumeOf(t: Tape, l: nat): SymbolTotals {
    if l in t.volumes then t.volumes[l] else ZERO_TOTALS
  }

  // ----- what an event means ------------------------------------------------------------------

  /** Every event is counted by its kind, and under its symbol if it is about one. */
  function Noted(t: Tape, e: Event): Tape {
    var c, v := t.stats, VolumeOf(t, e.locate);
    t.(stats := c.(messages := c.messages + 1, lastTimestamp := e.ts,
                   adds := c.adds + One(e.Add?), addsMpid := c.addsMpid + One(e.Add? && e.hasMpid),
                   executes := c.executes + One(e.Execute? || e.ExecutePrice?),
                   executesWithPrice := c.executesWithPrice + One(e.ExecutePrice?),
                   cancels := c.cancels + One(e.Cancel?), deletes := c.deletes + One(e.Delete?),
                   replacements := c.replacements + One(e.Replace?), trades := c.trades + One(e.Trade?),
                   crossTrades := c.crossTrades + One(e.CrossTrade?), others := c.others + One(e.Other?)),
       volumes := t.volumes[e.locate := v.(messages := v.messages + One(!e.Other?))])
  }

  /** So many shares traded at so much each. */
  function Printed(t: Tape, l: nat, shares: nat, price: nat): Tape {
    var v := VolumeOf(t, l);
    t.(volumes := t.volumes[l := v.(executedShares := v.executedShares + shares,
                                    executedNotional := v.executedNotional + shares * price)])
  }

  function Gone(t: Tape, ref: Ref): Tape {
    t.(live := t.live - {ref}, used := if t.used > 0 then t.used - 1 else 0)
  }

  /** An order gives up shares; what gives up all it has, or is asked for more, is gone. */
  function Less(t: Tape, ref: Ref, shares: nat): Tape
    requires ref in t.live
  {
    var o := t.live[ref];
    if shares < o.qty then t.(live := t.live[ref := o.(qty := o.qty - shares)])
    else Gone(t, ref).(stats := t.stats.(overfills := t.stats.overfills + One(shares > o.qty)))
  }

  /** A reference that is still live is given up before it is used again. */
  function Freed(t: Tape, ref: Ref): Tape {
    if ref in t.live then Gone(t, ref).(stats := t.stats.(duplicateRefs := t.stats.duplicateRefs + 1)) else t
  }

  /** A new order takes a record if there is one; reference zero names nothing. */
  function Stands(t: Tape, o: Order): Tape {
    if t.used >= t.capacity then t.(stats := t.stats.(poolExhausted := t.stats.poolExhausted + 1))
    else
      t.(live := if o.ref == 0 then t.live else t.live[o.ref := o], used := t.used + 1,
         stats := t.stats.(peakLive := if t.used + 1 > t.stats.peakLive then t.used + 1 else t.stats.peakLive))
  }

  function Happened(t: Tape, e: Event): Tape {
    var c := t.stats;
    match e
    case Add(l, _, ref, side, shares, price, _) =>
      if side != 'B' && side != 'S' then t.(stats := c.(unknownSide := c.unknownSide + 1))
      else
        Stands(Freed(t, ref), Order(ref, side == 'B', price, shares, l))
    case Execute(_, _, ref, shares) =>
      if ref !in t.live then t.(stats := c.(orphanExecutes := c.orphanExecutes + 1))
      else Less(Printed(t, t.live[ref].symbol, shares, t.live[ref].price), ref, shares)
    case ExecutePrice(_, _, ref, shares, printable, price) =>
      if ref !in t.live then t.(stats := c.(orphanExecutes := c.orphanExecutes + 1))
      else Less(if printable then Printed(t, t.live[ref].symbol, shares, price) else t, ref, shares)
    case Cancel(_, _, ref, shares) =>
      if ref !in t.live then t.(stats := c.(orphanCancels := c.orphanCancels + 1)) else Less(t, ref, shares)
    case Delete(_, _, ref) =>
      if ref !in t.live then t.(stats := c.(orphanDeletes := c.orphanDeletes + 1)) else Gone(t, ref)
    case Replace(_, _, ref, newRef, shares, price) =>
      if ref !in t.live then t.(stats := c.(orphanReplaces := c.orphanReplaces + 1))
      else Stands(Gone(t, ref), Order(newRef, t.live[ref].isBuy, price, shares, t.live[ref].symbol))
    case Trade(l, _, shares, price) =>
      var v := VolumeOf(t, l);
      Printed(t.(volumes := t.volumes[l := v.(hiddenShares := v.hiddenShares + shares)]), l, shares, price)
    case CrossTrade(l, _, shares, price) =>
      var v := VolumeOf(t, l);
      Printed(t.(volumes := t.volumes[l := v.(crossShares := v.crossShares + shares)]), l, shares, price)
    case Other(_, _) => t
  }

  function Taped(t: Tape, events: seq<Event>): Tape
    decreases |events|
  {
    if events == [] then t else Taped(Happened(Noted(t, events[0]), events[0]), events[1..])
  }

  // ----- agreement ------------------------------------------------------------------------------

  ghost predicate SameVolumes(b: Book, t: Tape) {
    |b.totals| == LOCATES && forall l {:trigger b.totals[l]} :: 0 <= l < LOCATES ==> b.totals[l] == VolumeOf(t, l)
  }

  ghost predicate Agrees(b: Book, t: Tape) {
    && b.capacity == t.capacity && RefsOk(b.refs, b.pool) && Live(b.refs, b.pool) == t.live
    && |b.pool.Keys| == t.used && b.stats == t.stats.(liveOrders := t.used) && SameVolumes(b, t)
  }

  lemma RemoveAgrees(b: Book, t: Tape, ref: Ref)
    requires Inv(b) && b.Ok() && Agrees(b, t) && ref in b.refs
    ensures Agrees(RemoveOrder(b, ref), Gone(t, ref))
  {
    var h := b.refs[ref];
    RemoveRefs(b.refs, b.pool, ref);
    assert (b.pool - {h}).Keys == b.pool.Keys - {h};
    var refs' := b.refs - {ref};
    forall r | r in refs' ensures b.refs[r] != h {
      assert b.pool[b.refs[r]].ref == r;
    }
    assert Live(refs', b.pool - {h}) == t.live - {ref};
  }

  lemma PlaceAgrees(b: Book, t: Tape, o: Order)
    requires Inv(b) && Agrees(b, t)
    ensures Agrees(PlaceOrder(b, o), Stands(t, o))
  {
    if |b.pool.Keys| < b.capacity {
      JoinRefs(b.refs, b.pool, b.next, o);
      KeysGrow(b.pool, b.next, o);
      var b' := PlaceOrder(b, o);
      assert Live(b'.refs, b'.pool) == Stands(t, o).live;
    }
  }

  lemma ShrinkAgrees(refs: map<Ref, Slot>, pool: map<Slot, Order>, ref: Ref, o: Order)
    requires RefsOk(refs, pool) && ref in refs && o.ref == ref
    ensures var pool' := pool[refs[ref] := o];
      RefsOk(refs, pool') && Live(refs, pool') == Live(refs, pool)[ref := o] && |pool'.Keys| == |pool.Keys|
  {
    var h := refs[ref];
    ShrinkRefs(refs, pool, h, o);
    KeysGrow(pool, h, o);
    forall r | r in refs && r != ref ensures refs[r] != h {
      assert pool[refs[r]].ref == r;
    }
  }

  lemma ReduceAgrees(b: Book, t: Tape, ref: Ref, shares: nat)
    requires Inv(b) && b.Ok() && Agrees(b, t) && ref in b.refs
    ensures Agrees(ReduceOrder(b, ref, shares), Less(t, ref, shares))
  {
    var o := b.pool[b.refs[ref]];
    assert t.live[ref] == o;
    if shares < o.qty {
      ShrinkAgrees(b.refs, b.pool, ref, o.(qty := o.qty - shares));
    } else {
      var b1 := if shares > o.qty then b.(stats := b.stats.(overfills := b.stats.overfills + 1)) else b;
      var t1 := t.(stats := t.stats.(overfills := t.stats.overfills + One(shares > o.qty)));
      SameOrdersInv(b, b1);
      RemoveAgrees(b1, t1, ref);
    }
  }

  lemma PrintAgrees(b: Book, t: Tape, l: nat, shares: nat, price: nat)
    requires Inv(b) && Agrees(b, t) && l < LOCATES
    ensures Agrees(RecordVolume(b, l, shares, price), Printed(t, l, shares, price)) && Inv(RecordVolume(b, l, shares, price))
  {
    SameOrdersInv(b, RecordVolume(b, l, shares, price));
  }

  lemma NoteAgrees(b: Book, t: Tape, e: Event)
    requires Inv(b) && Agrees(b, t) && e.locate < LOCATES
    ensures Agrees(Prelude(b, e), Noted(t, e)) && Inv(Prelude(b, e))
  {
    PreludeSame(b, e);
    SameOrdersInv(b, Prelude(b, e));
  }

  lemma FreeAgrees(b: Book, t: Tape, ref: Ref)
    requires Inv(b) && b.Ok() && Agrees(b, t)
    ensures Agrees(MakeWay(b, ref), Freed(t, ref)) && Inv(MakeWay(b, ref))
  {
    if ref in b.refs {
      var b1 := b.(stats := b.stats.(duplicateRefs := b.stats.duplicateRefs + 1));
      SameOrdersInv(b, b1);
      RemoveAgrees(b1, t.(stats := t.stats.(duplicateRefs := t.stats.duplicateRefs + 1)), ref);
      RemoveKeeps(b1, ref);
    }
  }

  lemma AddAgrees(b: Book, t: Tape, e: Event)
    requires Inv(b) && b.Ok() && Agrees(b, t) && e.locate < LOCATES && e.Add?
    ensures Agrees(Handle(b, e), Happened(t, e))
  {
    if e.side == 'B' || e.side == 'S' {
      FreeAgrees(b, t, e.ref);
      PlaceAgrees(MakeWay(b, e.ref), Freed(t, e.ref), Order(e.ref, e.side == 'B', e.price, e.shares, e.locate));
    }
  }

  lemma ExecuteAgrees(b: Book, t: Tape, e: Event)
    requires Inv(b) && b.Ok() && Agrees(b, t) && e.locate < LOCATES && (e.Execute? || e.ExecutePrice?)
    ensures Agrees(Handle(b, e), Happened(t, e))
  {
    assert e.ref in b.refs <==> e.ref in t.live;
    if e.ref in b.refs {
      var o := b.pool[b.refs[e.ref]];
      assert t.live[e.ref] == o;
      if e.Execute? || e.printable {
        var price := if e.Execute? then o.price else e.price;
        PrintAgrees(b, t, o.symbol, e.shares, price);
        InvOk(RecordVolume(b, o.symbol, e.shares, price));
        ReduceAgrees(RecordVolume(b, o.symbol, e.shares, price), Printed(t, o.symbol, e.shares, price), e.ref, e.shares);
      } else {
        ReduceAgrees(b, t, e.ref, e.shares);
      }
    }
  }

  lemma ReplaceAgrees(b: Book, t: Tape, e: Event)
    requires Inv(b) && b.Ok() && Agrees(b, t) && e.locate < LOCATES && e.Replace?
    ensures Agrees(Handle(b, e), Happened(t, e))
  {
    assert e.ref in b.refs <==> e.ref in t.live;
    if e.ref in b.refs {
      var o := b.pool[b.refs[e.ref]];
      assert t.live[e.ref] == o;
      RemoveAgrees(b, t, e.ref);
      RemoveKeeps(b, e.ref);
      PlaceAgrees(RemoveOrder(b, e.ref), Gone(t, e.ref), Order(e.newRef, o.isBuy, e.price, e.shares, o.symbol));
    }
  }

  lemma TakeAgrees(b: Book, t: Tape, e: Event)
    requires Inv(b) && b.Ok() && Agrees(b, t) && e.locate < LOCATES && (e.Cancel? || e.Delete?)
    ensures Agrees(Handle(b, e), Happened(t, e))
  {
    assert e.ref in b.refs <==> e.ref in t.live;
    if e.ref in b.refs {
      if e.Cancel? {
        ReduceAgrees(b, t, e.ref, e.shares);
      } else {
        RemoveAgrees(b, t, e.ref);
      }
    }
  }

  lemma HandleAgrees(b: Book, t: Tape, e: Event)
    requires Inv(b) && b.Ok() && Agrees(b, t) && e.locate < LOCATES
    ensures Agrees(Handle(b, e), Happened(t, e))
  {
    match e
    case Add(_, _, _, _, _, _, _) => AddAgrees(b, t, e);
    case Execute(_, _, _, _) => ExecuteAgrees(b, t, e);
    case ExecutePrice(_, _, _, _, _, _) => ExecuteAgrees(b, t, e);
    case Cancel(_, _, _, _) => TakeAgrees(b, t, e);
    case Delete(_, _, _) => TakeAgrees(b, t, e);
    case Replace(_, _, _, _, _, _) => ReplaceAgrees(b, t, e);
    case _ =>
  }

  ghost predicate InStep(b: Book, t: Tape) {
    forall k: nat {:trigger Look(k)} :: Look(k) ==> Agrees(b, t)
  }

  lemma ApplyInStep(b: Book, t: Tape, e: Event)
    requires Inv(b) && b.Ok() && InStep(b, t) && e.locate < LOCATES
    ensures InStep(Apply(b, e), Happened(Noted(t, e), e))
  {
    assert Look(0);
    NoteAgrees(b, t, e);
    InvOk(Prelude(b, e));
    HandleAgrees(Prelude(b, e), Noted(t, e), e);
  }

  lemma {:induction false} ReplayInStep(b: Book, t: Tape, events: seq<Event>)
    requires Inv(b) && InStep(b, t) && Placed(events)
    ensures InStep(Replay(b, events), Taped(t, events))
    decreases |events|
  {
    if events != [] {
      InvOk(b);
      ApplyKeeps(b, events[0]);
      ApplyInStep(b, t, events[0]);
      ReplayInStep(Apply(b, events[0]), Happened(Noted(t, events[0]), events[0]), events[1..]);
    }
  }

  /**
    For every event stream, orderly or not, the builder ends with the live orders, the totals of
    every symbol and all the counters that the tape alone says it must.
   */
  lemma BookIsTheTape(capacity: nat, events: seq<Event>, l: nat)
    requires Placed(events) && l < LOCATES
    ensures Inv(EmptyBook(capacity))
    ensures var b, t := Replay(EmptyBook(capacity), events), Taped(NewTape(capacity), events);
      && Live(b.refs, b.pool) == t.live && b.totals[l] == VolumeOf(t, l)
      && b.stats == t.stats.(liveOrders := t.used) && |b.pool.Keys| == t.used
  {
    EmptyInv(capacity);
    ReplayInStep(EmptyBook(capacity), NewTape(capacity), events);
    assert Look(0);
  }

  // ----- the sums -----------------------------------------------------------------------------------

  /** The shares an event prints for a symbol, and at which price: the resting order's for an
      execution, the message's for all others. */
  function PrintOf(t: Tape, e: Event, l: nat): (nat, nat) {
    match e
    case Execute(_, _, ref, shares) =>
      if ref in t.live && t.live[ref].symbol == l then (shares, t.live[ref].price) else (0, 0)
    case ExecutePrice(_, _, ref, shares, printable, price) =>
      if printable && ref in t.live && t.live[ref].symbol == l then (shares, price) else (0, 0)
    case Trade(at, _, shares, price) => if at == l then (shares, price) else (0, 0)
    case CrossTrade(at, _, shares, price) => if at == l then (shares, price) else (0, 0)
    case _ => (0, 0)
  }

  function SumShares(t: Tape, events: seq<Event>, l: nat): nat
    decreases |events|
  {
    if events == [] then 0
    else PrintOf(t, events[0], l).0 + SumShares(Happened(Noted(t, events[0]), events[0]), events[1..], l)
  }

  function SumWorth(t: Tape, events: seq<Event>, l: nat): nat
    decreases |events|
  {
    if events == [] then 0
    else
      var (shares, price) := PrintOf(t, events[0], l);
      shares * price + SumWorth(Happened(Noted(t, events[0]), events[0]), events[1..], l)
  }

  /** Hidden volume comes from trades of the symbol, auction volume from its crosses. */
  function SumHidden(events: seq<Event>, l: nat): nat {
    if events == [] then 0
    else (if events[0].Trade? && events[0].locate == l then events[0].shares else 0) + SumHidden(events[1..], l)
  }

  function SumCross(events: seq<Event>, l: nat): nat {
    if events == [] then 0
    else (if events[0].CrossTrade? && events[0].locate == l then events[0].shares else 0) + SumCross(events[1..], l)
  }

  lemma LessPrintsNothing(t: Tape, ref: Ref, shares: nat)
    requires ref in t.live
    ensures Less(t, ref, shares).volumes == t.volumes
  {
  }

  /** What an event adds to the figures of a symbol. */
  ghost predicate Adds(v: SymbolTotals, p: (nat, nat), hidden: nat, cross: nat, v': SymbolTotals) {
    && v'.executedShares == v.executedShares + p.0 && v'.executedNotional == v.executedNotional + p.0 * p.1
    && v'.hiddenShares == v.hiddenShares + hidden && v'.crossShares == v.crossShares + cross
  }

  lemma ExecutionPrints(t: Tape, e: Event, l: nat)
    requires e.Execute? || e.ExecutePrice?
    ensures Adds(VolumeOf(t, l), PrintOf(t, e, l), 0, 0, VolumeOf(Happened(t, e), l))
  {
    if e.ref in t.live {
      var o := t.live[e.ref];
      if e.Execute? || e.printable {
        LessPrintsNothing(Printed(t, o.symbol, e.shares, if e.Execute? then o.price else e.price), e.ref, e.shares);
      } else {
        LessPrintsNothing(t, e.ref, e.shares);
      }
    }
  }

  lemma OtherwisePrints(t: Tape, e: Event, l: nat)
    requires !e.Execute? && !e.ExecutePrice?
    ensures Adds(VolumeOf(t, l), PrintOf(t, e, l), if e.Trade? && e.locate == l then e.shares else 0,
                 if e.CrossTrade? && e.locate == l then e.shares else 0, VolumeOf(Happened(t, e), l))
  {
  }

  lemma NotePrints(t: Tape, e: Event, l: nat)
    ensures VolumeOf(Noted(t, e), l) == VolumeOf(t, l).(messages := VolumeOf(t, l).messages + One(e.locate == l && !e.Other?))
    ensures PrintOf(Noted(t, e), e, l) == PrintOf(t, e, l)
  {
  }

  lemma EventPrints(t: Tape, e: Event, l: nat)
    ensures Adds(VolumeOf(t, l), PrintOf(t, e, l), if e.Trade? && e.locate == l then e.shares else 0,
                 if e.CrossTrade? && e.locate == l then e.shares else 0, VolumeOf(Happened(Noted(t, e), e), l))
  {
    NotePrints(t, e, l);
    if e.Execute? || e.ExecutePrice? {
      ExecutionPrints(Noted(t, e), e, l);
    } else {
      OtherwisePrints(Noted(t, e), e, l);
    }
  }

  lemma {:induction false} TapeAddsUp(t: Tape, events: seq<Event>, l: nat)
    ensures var v, v' := VolumeOf(t, l), VolumeOf(Taped(t, events), l);
      && v'.executedShares == v.executedShares + SumShares(t, events, l)
      && v'.executedNotional == v.executedNotional + SumWorth(t, events, l)
      && v'.hiddenShares == v.hiddenShares + SumHidden(events, l) && v'.crossShares == v.crossShares + SumCross(events, l)
    decreases |events|
  {
    if events != [] {
      EventPrints(t, events[0], l);
      TapeAddsUp(Happened(Noted(t, events[0]), events[0]), events[1..], l);
    }
  }

  /**
    For every event stream and symbol: the executed notional is the sum over the printed events of
    shares times price, the resting order's for an execution without a price, the message's for
    all others; the executed shares are the sum of their shares; and hidden and auction shares are
    those of the symbol's trades and crosses.
   */
  lemma TotalsAreTheSums(capacity: nat, events: seq<Event>, l: nat)
    requires Placed(events) && l < LOCATES
    ensures Inv(EmptyBook(capacity))
    ensures var v := Replay(EmptyBook(capacity), events).totals[l];
      && v.executedShares == SumShares(NewTape(capacity), events, l)
      && v.executedNotional == SumWorth(NewTape(capacity), events, l)
      && v.hiddenShares == SumHidden(events, l) && v.crossShares == SumCross(events, l)
  {
    BookIsTheTape(capacity, events, l);
    TapeAddsUp(NewTape(capacity), events, l);
  }
}
