/**
  The book as its users think of it: a plain map from reference to resting order.  For
  every event that names resting orders as the feed promises to, the builder does to that
  map what the message says, and nothing else.
 */
module LiveBook {
  import opened Common
  import opened BookModel
  import opened BookTheorems

  ghost predicate Sound(b: Book) {
    Inv(b) && b.Ok() && NoneLost(b.refs, b.pool)
  }

  ghost function LiveOf(b: Book): map<Ref, Order>
    requires Sound(b)
  {
    Live(b.refs, b.pool)
  }

  /** No counter of the ones that mean trouble has moved. */
  predicate FaultFree(s: Stats) {
    && s.duplicateRefs == s.orphanExecutes == s.orphanCancels == s.orphanDeletes == s.orphanReplaces == 0
    && s.overfills == s.poolExhausted == s.unknownSide == 0
  }

  /** The counters and totals of c are those of b, as far as faults and volume go. */
  ghost predicate Quiet(b: Book, c: Book) {
    && c.capacity == b.capacity && c.totals == b.totals && (FaultFree(b.stats) ==> FaultFree(c.stats))
  }

  lemma StillSound(b: Book, c: Book)
    requires Sound(b) && Inv(c) && Lost(c) == Lost(b)
    ensures Sound(c)
  {
    LostCounts(b);
    LostCounts(c);
    InvOk(c);
  }

  lemma SizeOf(b: Book)
    requires Sound(b)
    ensures |LiveOf(b).Keys| == |b.pool.Keys| == b.stats.liveOrders
  {
    LostCounts(b);
    assert LiveOf(b).Keys == b.refs.Keys;
  }

  /** Only counters and totals differ. */
  lemma SameLive(b: Book, c: Book)
    requires Sound(b) && SameOrders(b, c)
    ensures Sound(c) && LiveOf(c) == LiveOf(b)
  {
    SameOrdersInv(b, c);
  }

  lemma RemoveLive(b: Book, ref: Ref)
    requires Sound(b) && ref in b.refs
    ensures var c := RemoveOrder(b, ref);
      Sound(c) && LiveOf(c) == LiveOf(b) - {ref} && Quiet(b, c) && |c.pool.Keys| < c.capacity
  {
    RemoveKeeps(b, ref);
    StillSound(b, RemoveOrder(b, ref));
    LiveWithout(b.refs, b.pool, ref);
  }

  lemma PlaceLive(b: Book, o: Order)
    requires Sound(b) && o.symbol < LOCATES && |b.pool.Keys| < b.capacity && o.ref != 0 && o.ref !in b.refs
    ensures var c := PlaceOrder(b, o);
      Sound(c) && LiveOf(c) == LiveOf(b)[o.ref := o] && Quiet(b, c)
  {
    PlaceKeeps(b, o);
    var c := PlaceOrder(b, o);
    StillSound(b, c);
    PlacedLive(b.refs, b.pool, b.next, o);
  }

  lemma PlacedLive(refs: map<Ref, Slot>, pool: map<Slot, Order>, h: Slot, o: Order)
    requires RefsOk(refs, pool) && h !in pool && o.ref != 0 && o.ref !in refs
    ensures RefsOk(refs[o.ref := h], pool[h := o])
    ensures Live(refs[o.ref := h], pool[h := o]) == Live(refs, pool)[o.ref := o]
  {
    JoinRefs(refs, pool, h, o);
  }

  lemma ReduceLive(b: Book, ref: Ref, shares: nat)
    requires Sound(b) && ref in b.refs && shares <= LiveOf(b)[ref].qty
    ensures var c := ReduceOrder(b, ref, shares); var o := LiveOf(b)[ref];
      && Sound(c) && Quiet(b, c)
      && LiveOf(c) == if shares == o.qty then LiveOf(b) - {ref} else LiveOf(b)[ref := o.(qty := o.qty - shares)]
  {
    if shares == b.pool[b.refs[ref]].qty {
      RemoveLive(b, ref);
    } else {
      ReduceKeeps(b, ref, shares);
      StillSound(b, ReduceOrder(b, ref, shares));
      ShrunkLive(b.refs, b.pool, ref, b.pool[b.refs[ref]].(qty := b.pool[b.refs[ref]].qty - shares));
    }
  }

  lemma ShrunkLive(refs: map<Ref, Slot>, pool: map<Slot, Order>, ref: Ref, o: Order)
    requires RefsOk(refs, pool) && ref in refs && o.ref == ref
    ensures RefsOk(refs, pool[refs[ref] := o]) && Live(refs, pool[refs[ref] := o]) == Live(refs, pool)[ref := o]
  {
    ShrinkRefs(refs, pool, refs[ref], o);
    var pool' := pool[refs[ref] := o];
    forall r | r in refs && r != ref ensures refs[r] != refs[ref] {
    }
  }

  // ----- the messages -------------------------------------------------------------------------

  /** After the event every symbol printed what it had, plus `shares` for symbol `at`. */
  ghost predicate Prints(b: Book, c: Book, at: nat, shares: nat) {
    && |b.totals| == |c.totals|
    && forall l {:trigger c.totals[l]} {:trigger b.totals[l]} :: 0 <= l < |b.totals| ==>
         c.totals[l].executedShares == b.totals[l].executedShares + if l == at then shares else 0
  }

  /** What a well-behaved message does: the live map, the faults and the printed volume. */
  ghost predicate Effect(b: Book, c: Book, live: map<Ref, Order>, at: nat, shares: nat) {
    && Sound(b) && Sound(c) && c.capacity == b.capacity && LiveOf(c) == live
    && (FaultFree(b.stats) ==> FaultFree(c.stats)) && Prints(b, c, at, shares)
  }

  lemma PreludeEffect(b: Book, e: Event)
    requires Sound(b) && e.locate < LOCATES
    ensures Effect(b, Prelude(b, e), LiveOf(b), 0, 0)
  {
    PreludeSame(b, e);
    SameLive(b, Prelude(b, e));
  }

  lemma AddEffect(b: Book, e: Event)
    requires Sound(b) && e.Add? && e.locate < LOCATES && (e.side == 'B' || e.side == 'S')
    requires e.ref != 0 && e.ref !in b.refs && |b.pool.Keys| < b.capacity
    ensures Effect(b, Apply(b, e), LiveOf(b)[e.ref := Order(e.ref, e.side == 'B', e.price, e.shares, e.locate)], 0, 0)
  {
    PreludeEffect(b, e);
    PreludeSame(b, e);
    PlaceLive(Prelude(b, e), Order(e.ref, e.side == 'B', e.price, e.shares, e.locate));
  }

  function Less(live: map<Ref, Order>, ref: Ref, shares: nat): map<Ref, Order>
    requires ref in live && shares <= live[ref].qty
  {
    if shares == live[ref].qty then live - {ref} else live[ref := live[ref].(qty := live[ref].qty - shares)]
  }

  lemma EffectThen(b: Book, c: Book, d: Book, live: map<Ref, Order>, at: nat, shares: nat)
    requires Sound(b) && Effect(b, c, LiveOf(b), 0, 0) && Effect(c, d, live, at, shares)
    ensures Effect(b, d, live, at, shares)
  {
  }

  lemma RecordEffect(b: Book, at: nat, shares: nat, price: nat)
    requires Sound(b) && at < LOCATES
    ensures Effect(b, RecordVolume(b, at, shares, price), LiveOf(b), at, shares)
  {
    SameLive(b, RecordVolume(b, at, shares, price));
  }

  lemma ReduceEffect(b: Book, ref: Ref, shares: nat)
    requires Sound(b) && ref in b.refs && shares <= LiveOf(b)[ref].qty
    ensures Effect(b, ReduceOrder(b, ref, shares), Less(LiveOf(b), ref, shares), 0, 0)
  {
    ReduceLive(b, ref, shares);
  }

  lemma ThenQuiet(b: Book, c: Book, d: Book, live: map<Ref, Order>, at: nat, shares: nat)
    requires Sound(b) && Effect(b, c, LiveOf(b), at, shares) && Effect(c, d, live, 0, 0)
    ensures Effect(b, d, live, at, shares)
  {
  }

  lemma OnExecuteEffect(b: Book, ref: Ref, shares: nat, printed: Option<nat>, printable: bool)
    requires Sound(b) && ref in b.refs && shares <= LiveOf(b)[ref].qty
    ensures Effect(b, OnExecute(b, ref, shares, printed, printable), Less(LiveOf(b), ref, shares), LiveOf(b)[ref].symbol,
                   if printable then shares else 0)
  {
    if printable {
      var o := b.pool[b.refs[ref]];
      var price := if printed.Some? then printed.value else o.price;
      var c := RecordVolume(b, o.symbol, shares, price);
      RecordEffect(b, o.symbol, shares, price);
      ReduceEffect(c, ref, shares);
      ThenQuiet(b, c, ReduceOrder(c, ref, shares), Less(LiveOf(b), ref, shares), o.symbol, shares);
    } else {
      ReduceEffect(b, ref, shares);
    }
  }

  lemma ExecuteEffect(b: Book, e: Event)
    requires Sound(b) && (e.Execute? || e.ExecutePrice?) && e.locate < LOCATES
    requires e.ref in b.refs && e.shares <= LiveOf(b)[e.ref].qty
    ensures Effect(b, Apply(b, e), Less(LiveOf(b), e.ref, e.shares), LiveOf(b)[e.ref].symbol,
                   if e.Execute? || e.printable then e.shares else 0)
  {
    PreludeEffect(b, e);
    PreludeSame(b, e);
    var printable := e.Execute? || e.printable;
    OnExecuteEffect(Prelude(b, e), e.ref, e.shares, if e.Execute? then None else Some(e.price), printable);
    EffectThen(b, Prelude(b, e), Apply(b, e), Less(LiveOf(b), e.ref, e.shares), LiveOf(b)[e.ref].symbol, if printable then e.shares else 0);
  }

  lemma CancelEffect(b: Book, e: Event)
    requires Sound(b) && e.Cancel? && e.locate < LOCATES && e.ref in b.refs && e.shares <= LiveOf(b)[e.ref].qty
    ensures Effect(b, Apply(b, e), Less(LiveOf(b), e.ref, e.shares), 0, 0)
  {
    PreludeEffect(b, e);
    PreludeSame(b, e);
    ReduceEffect(Prelude(b, e), e.ref, e.shares);
  }

  lemma DeleteEffect(b: Book, e: Event)
    requires Sound(b) && e.Delete? && e.locate < LOCATES && e.ref in b.refs
    ensures Effect(b, Apply(b, e), LiveOf(b) - {e.ref}, 0, 0)
  {
    PreludeEffect(b, e);
    PreludeSame(b, e);
    RemoveLive(Prelude(b, e), e.ref);
  }

  lemma ReplaceEffect(b: Book, e: Event)
    requires Sound(b) && e.Replace? && e.locate < LOCATES && e.ref in b.refs && e.newRef != 0
    requires e.newRef == e.ref || e.newRef !in b.refs
    ensures var o := LiveOf(b)[e.ref];
      Effect(b, Apply(b, e), (LiveOf(b) - {e.ref})[e.newRef := Order(e.newRef, o.isBuy, e.price, e.shares, o.symbol)], 0, 0)
  {
    PreludeEffect(b, e);
    PreludeSame(b, e);
    var b1 := Prelude(b, e);
    var o := b1.pool[b1.refs[e.ref]];
    RemoveLive(b1, e.ref);
    PlaceLive(RemoveOrder(b1, e.ref), Order(e.newRef, o.isBuy, e.price, e.shares, o.symbol));
  }

  lemma TradeEffect(b: Book, e: Event)
    requires Sound(b) && (e.Trade? || e.CrossTrade?) && e.locate < LOCATES
    ensures Effect(b, Apply(b, e), LiveOf(b), e.locate, e.shares)
  {
    PreludeEffect(b, e);
    PreludeSame(b, e);
    SameLive(Prelude(b, e), Apply(b, e));
  }

  lemma OtherEffect(b: Book, e: Event)
    requires Sound(b) && e.Other? && e.locate < LOCATES
    ensures Effect(b, Apply(b, e), LiveOf(b), 0, 0)
  {
    PreludeEffect(b, e);
  }
}
