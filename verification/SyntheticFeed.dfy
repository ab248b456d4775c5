/**
  The synthetic session generator, and why its expectation can be trusted: for every
  sequence of random draws, replaying what it emitted gives exactly the resting orders and
  the printed volume it published, and no orphan, duplicate or overfill.
 */
module SyntheticFeed {
  import opened Common
  import opened Totals
  import opened BookModel
  import opened BookTheorems
  import opened LiveBook

  datatype Mix = Mix(add: nat, addMpid: nat, execute: nat, executePrice: nat, cancel: nat, del: nat, swap: nat, trade: nat) {
    function Total(): nat {
      add + addMpid + execute + executePrice + cancel + del + swap + trade
    }
  }

  datatype Config = Config(symbols: nat, messages: nat, mix: Mix)

  /** Shares are what remains, always a multiple of one hundred. */
  datatype LiveOrder = LiveOrder(ref: Ref, shares: nat, price: nat, locate: nat, side: char)

  function OrderOf(o: LiveOrder): Order {
    Order(o.ref, o.side == 'B', o.price, o.shares, o.locate)
  }

  /** Overwrite entry i with the last one and shorten. */
  function Dropped(live: seq<LiveOrder>, i: nat): seq<LiveOrder>
    requires i < |live|
  {
    live[i := live[|live| - 1]][..|live| - 1]
  }

  // ----- totals over what was emitted -------------------------------------------------------

  function SumOf(executed: seq<nat>): nat {
    if executed == [] then 0 else SumOf(executed[..|executed| - 1]) + executed[|executed| - 1]
  }

  lemma {:induction false} SumOfUpdate(executed: seq<nat>, i: nat, shares: nat)
    requires i < |executed|
    ensures SumOf(executed[i := executed[i] + shares]) == SumOf(executed) + shares
    decreases |executed|
  {
    var n := |executed| - 1;
    var executed' := executed[i := executed[i] + shares];
    if i < n {
      SumOfUpdate(executed[..n], i, shares);
      assert executed'[..n] == executed[..n][i := executed[i] + shares];
    } else {
      assert executed'[..n] == executed[..n];
    }
  }

  lemma {:induction false} SumOfZeros(n: nat)
    ensures SumOf(seq(n, _ => 0)) == 0
  {
    if n > 0 {
      SumOfZeros(n - 1);
      var zeros: seq<nat> := seq(n, _ => 0);
      assert zeros[..n - 1] == seq(n - 1, _ => 0);
    }
  }

  /** Shares of an execution that is not printed. */
  function UnprintedIn(e: Event): nat {
    if e.ExecutePrice? && !e.printable then e.shares else 0
  }

  function Unprinted(events: seq<Event>): nat {
    if events == [] then 0 else Unprinted(events[..|events| - 1]) + UnprintedIn(events[|events| - 1])
  }

  ghost predicate InOrder(events: seq<Event>, i: nat, j: nat)
    requires i < |events| && j < |events|
  {
    events[i].ts <= events[j].ts
  }

  ghost predicate Ordered(events: seq<Event>) {
    forall i: nat, j: nat {:trigger InOrder(events, i, j)} :: i < j < |events| ==> InOrder(events, i, j)
  }

  /** Timestamps never go back, and none lies ahead of the clock. */
  ghost predicate Timely(events: seq<Event>, ts: nat) {
    Ordered(events) && (events != [] ==> events[|events| - 1].ts <= ts)
  }

  lemma AppendTotals(events: seq<Event>, e: Event, ts: nat)
    requires Timely(events, ts) && e.ts == ts
    ensures Timely(events + [e], ts) && Unprinted(events + [e]) == Unprinted(events) + UnprintedIn(e)
  {
    var events' := events + [e];
    assert events'[..|events|] == events;
    forall i: nat, j: nat | i < j < |events'| ensures InOrder(events', i, j) {
      assert j < |events| ==> InOrder(events, i, j);
      assert i < |events| - 1 ==> InOrder(events, i, |events| - 1);
    }
  }

  // ----- the live set against the book's live map ------------------------------------------

  ghost predicate Has(live: seq<LiveOrder>, r: Ref) {
    exists i :: 0 <= i < |live| && live[i].ref == r
  }

  ghost predicate DistinctRefs(live: seq<LiveOrder>) {
    forall i, j :: 0 <= i < j < |live| ==> live[i].ref != live[j].ref
  }

  ghost predicate Matches(live: seq<LiveOrder>, orders: map<Ref, Order>) {
    && DistinctRefs(live)
    && (forall i {:trigger live[i]} :: 0 <= i < |live| ==> live[i].ref in orders && orders[live[i].ref] == OrderOf(live[i]))
    && (forall r {:trigger Has(live, r)} :: r in orders ==> Has(live, r))
  }

  lemma MatchesPush(live: seq<LiveOrder>, orders: map<Ref, Order>, o: LiveOrder)
    requires Matches(live, orders) && o.ref !in orders
    ensures Matches(live + [o], orders[o.ref := OrderOf(o)])
  {
    var live', orders' := live + [o], orders[o.ref := OrderOf(o)];
    forall r | r in orders' ensures Has(live', r) {
      assert live'[|live|].ref == o.ref;
      if r != o.ref {
        assert Has(live, r);
        var i :| 0 <= i < |live| && live[i].ref == r;
        assert live'[i].ref == r;
      }
    }
  }

  lemma MatchesDrop(live: seq<LiveOrder>, orders: map<Ref, Order>, i: nat)
    requires Matches(live, orders) && i < |live|
    ensures Matches(Dropped(live, i), orders - {live[i].ref})
  {
    var n := |live| - 1;
    var live', orders' := Dropped(live, i), orders - {live[i].ref};
    forall j | 0 <= j < n ensures live'[j] == if j == i then live[n] else live[j] {
    }
    forall r | r in orders' ensures Has(live', r) {
      assert Has(live, r);
      var j :| 0 <= j < |live| && live[j].ref == r;
      assert live'[if j == n then i else j].ref == r;
    }
  }

  lemma MatchesSet(live: seq<LiveOrder>, orders: map<Ref, Order>, i: nat, o: LiveOrder)
    requires Matches(live, orders) && i < |live| && o.ref == live[i].ref
    ensures Matches(live[i := o], orders[o.ref := OrderOf(o)])
  {
    var live', orders' := live[i := o], orders[o.ref := OrderOf(o)];
    forall r | r in orders' ensures Has(live', r) {
      assert live'[i].ref == o.ref;
      assert r != o.ref ==> Has(live, r);
      if r != o.ref {
        var j :| 0 <= j < |live| && live[j].ref == r;
        assert live'[j].ref == r;
      }
    }
  }

  function OnSymbol(l: nat): Order -> int {
    (o: Order) => if o.symbol == l then 1 else 0
  }

  /** How many live orders a symbol has, counted over the pool to draw from. */
  function Resting(live: seq<LiveOrder>, l: nat): nat {
    if live == [] then 0
    else Resting(live[..|live| - 1], l) + if live[|live| - 1].locate == l then 1 else 0
  }

  lemma {:induction false} RestingNext(live: seq<LiveOrder>, i: nat)
    requires i < |live|
    ensures forall l :: Resting(live[..i + 1], l) == Resting(live[..i], l) + if live[i].locate == l then 1 else 0
  {
    assert live[..i + 1][..i] == live[..i];
  }

  lemma MatchesInit(live: seq<LiveOrder>, orders: map<Ref, Order>)
    requires Matches(live, orders) && live != []
    ensures Matches(live[..|live| - 1], orders - {live[|live| - 1].ref})
  {
    MatchesDrop(live, orders, |live| - 1);
    assert Dropped(live, |live| - 1) == live[..|live| - 1];
  }

  /** Both sides hold the same number of orders, in all and per symbol. */
  lemma {:induction false} MatchesCounts(live: seq<LiveOrder>, orders: map<Ref, Order>, l: nat)
    requires Matches(live, orders)
    ensures |orders.Keys| == |live| && Total(orders, OnSymbol(l)) == Resting(live, l)
    decreases |live|
  {
    if live == [] {
      assert forall r :: r in orders ==> Has(live, r);
      assert orders.Keys == {};
    } else {
      var o := live[|live| - 1];
      MatchesInit(live, orders);
      MatchesCounts(live[..|live| - 1], orders - {o.ref}, l);
      assert (orders - {o.ref}).Keys == orders.Keys - {o.ref};
      TotalRemove(orders, OnSymbol(l), o.ref);
    }
  }

  // ----- the generator against the book -------------------------------------------------------

  /** What a consumer has been handed and every book it went through, the empty one first. */
  datatype Trace = Trace(events: seq<Event>, books: seq<Book>)

  ghost predicate Link(t: Trace, i: nat)
    requires i < |t.events| && i + 1 < |t.books|
  {
    t.books[i].Ok() && t.events[i].locate < LOCATES && t.books[i + 1] == Apply(t.books[i], t.events[i])
  }

  ghost predicate Traced(t: Trace, capacity: nat) {
    && |t.books| == |t.events| + 1 && t.books[0] == EmptyBook(capacity)
    && forall i: nat {:trigger Link(t, i)} :: i < |t.events| ==> Link(t, i)
  }

  function Extended(t: Trace, e: Event, b: Book): Trace {
    Trace(t.events + [e], t.books + [b])
  }

  lemma TracedNext(t: Trace, capacity: nat, e: Event)
    requires Traced(t, capacity) && t.books[|t.events|].Ok() && e.locate < LOCATES
    ensures Traced(Extended(t, e, Apply(t.books[|t.events|], e)), capacity)
  {
    var t' := Extended(t, e, Apply(t.books[|t.events|], e));
    forall i: nat | i < |t'.events| ensures Link(t', i) {
      assert i < |t.events| ==> Link(t, i);
    }
  }

  /** The consumer's book agrees with what the generator keeps. */
  ghost predicate InStep(t: Trace, capacity: nat, live: seq<LiveOrder>, executed: seq<nat>) {
    forall k: nat {:trigger Look(k)} :: Look(k) ==>
      Traced(t, capacity) && t.books[|t.events|].capacity == capacity && Agrees(live, executed, t.books[|t.events|])
  }

  /** Volume printed so far, symbol by symbol; locates start at one. */
  ghost predicate PrintsMatch(executed: seq<nat>, b: Book) {
    && |executed| < |b.totals|
    && forall i {:trigger executed[i]} :: 0 <= i < |executed| ==> executed[i] == b.totals[i + 1].executedShares
  }

  ghost predicate Agrees(live: seq<LiveOrder>, executed: seq<nat>, b: Book) {
    Sound(b) && FaultFree(b.stats) && Matches(live, LiveOf(b)) && PrintsMatch(executed, b)
  }

  /** Credit a symbol with printed shares. */
  function Plus(executed: seq<nat>, at: nat, shares: nat): seq<nat>
    requires at <= |executed|
  {
    if at == 0 || shares == 0 then executed else executed[at - 1 := executed[at - 1] + shares]
  }

  lemma EffectAgrees(live: seq<LiveOrder>, executed: seq<nat>, b: Book, c: Book,
                     live': seq<LiveOrder>, orders': map<Ref, Order>, at: nat, shares: nat)
    requires Agrees(live, executed, b) && Effect(b, c, orders', at, shares) && Matches(live', orders') && at <= |executed|
    requires at == 0 ==> shares == 0
    ensures Agrees(live', Plus(executed, at, shares), c)
  {
  }

  lemma PushAgrees(live: seq<LiveOrder>, executed: seq<nat>, b: Book, e: Event)
    requires Agrees(live, executed, b) && e.Add? && e.locate < LOCATES && (e.side == 'B' || e.side == 'S')
    requires e.ref != 0 && !Has(live, e.ref) && |live| < b.capacity
    ensures Agrees(live + [LiveOrder(e.ref, e.shares, e.price, e.locate, e.side)], executed, Apply(b, e))
    ensures Apply(b, e).capacity == b.capacity
  {
    SizeOf(b);
    MatchesCounts(live, LiveOf(b), 0);
    AddEffect(b, e);
    var o := LiveOrder(e.ref, e.shares, e.price, e.locate, e.side);
    MatchesPush(live, LiveOf(b), o);
    EffectAgrees(live, executed, b, Apply(b, e), live + [o], LiveOf(b)[e.ref := OrderOf(o)], 0, 0);
  }

  /** The live set after an execution or cancel of some of entry i's shares. */
  function Taken(live: seq<LiveOrder>, i: nat, shares: nat): seq<LiveOrder>
    requires i < |live| && shares <= live[i].shares
  {
    if shares == live[i].shares then Dropped(live, i) else live[i := live[i].(shares := live[i].shares - shares)]
  }

  lemma TakenMatches(live: seq<LiveOrder>, orders: map<Ref, Order>, i: nat, shares: nat)
    requires Matches(live, orders) && i < |live| && shares <= live[i].shares
    ensures Matches(Taken(live, i, shares), Less(orders, live[i].ref, shares))
  {
    assert orders[live[i].ref] == OrderOf(live[i]);
    MatchesDrop(live, orders, i);
    MatchesSet(live, orders, i, live[i].(shares := live[i].shares - shares));
  }

  lemma ExecuteAgrees(live: seq<LiveOrder>, executed: seq<nat>, b: Book, e: Event, i: nat)
    requires Agrees(live, executed, b) && (e.Execute? || e.ExecutePrice?) && i < |live|
    requires e.ref == live[i].ref && e.shares <= live[i].shares && 1 <= live[i].locate <= |executed| && e.locate < LOCATES
    ensures Agrees(Taken(live, i, e.shares),
                   Plus(executed, live[i].locate, if e.Execute? || e.printable then e.shares else 0), Apply(b, e))
    ensures Apply(b, e).capacity == b.capacity
  {
    assert LiveOf(b)[live[i].ref] == OrderOf(live[i]);
    ExecuteEffect(b, e);
    TakenMatches(live, LiveOf(b), i, e.shares);
    var printed := if e.Execute? || e.printable then e.shares else 0;
    EffectAgrees(live, executed, b, Apply(b, e), Taken(live, i, e.shares), Less(LiveOf(b), e.ref, e.shares), live[i].locate, printed);
  }

  lemma CancelAgrees(live: seq<LiveOrder>, executed: seq<nat>, b: Book, e: Event, i: nat)
    requires Agrees(live, executed, b) && e.Cancel? && i < |live|
    requires e.ref == live[i].ref && e.shares <= live[i].shares && e.locate < LOCATES
    ensures Agrees(Taken(live, i, e.shares), executed, Apply(b, e))
    ensures Apply(b, e).capacity == b.capacity
  {
    assert LiveOf(b)[live[i].ref] == OrderOf(live[i]);
    CancelEffect(b, e);
    TakenMatches(live, LiveOf(b), i, e.shares);
    EffectAgrees(live, executed, b, Apply(b, e), Taken(live, i, e.shares), Less(LiveOf(b), e.ref, e.shares), 0, 0);
  }

  lemma DeleteAgrees(live: seq<LiveOrder>, executed: seq<nat>, b: Book, e: Event, i: nat)
    requires Agrees(live, executed, b) && e.Delete? && i < |live| && e.ref == live[i].ref && e.locate < LOCATES
    ensures Agrees(Dropped(live, i), executed, Apply(b, e))
    ensures Apply(b, e).capacity == b.capacity
  {
    assert live[i].ref in LiveOf(b);
    DeleteEffect(b, e);
    MatchesDrop(live, LiveOf(b), i);
    EffectAgrees(live, executed, b, Apply(b, e), Dropped(live, i), LiveOf(b) - {e.ref}, 0, 0);
  }

  lemma ReplaceAgrees(live: seq<LiveOrder>, executed: seq<nat>, b: Book, e: Event, i: nat)
    requires Agrees(live, executed, b) && e.Replace? && i < |live| && e.ref == live[i].ref && e.locate < LOCATES
    requires e.newRef != 0 && !Has(live, e.newRef)
    ensures Agrees(Dropped(live, i) + [LiveOrder(e.newRef, e.shares, e.price, live[i].locate, live[i].side)], executed, Apply(b, e))
    ensures Apply(b, e).capacity == b.capacity
  {
    assert LiveOf(b)[live[i].ref] == OrderOf(live[i]);
    ReplaceEffect(b, e);
    var o := LiveOrder(e.newRef, e.shares, e.price, live[i].locate, live[i].side);
    MatchesDrop(live, LiveOf(b), i);
    MatchesPush(Dropped(live, i), LiveOf(b) - {e.ref}, o);
    EffectAgrees(live, executed, b, Apply(b, e), Dropped(live, i) + [o], (LiveOf(b) - {e.ref})[e.newRef := OrderOf(o)], 0, 0);
  }

  lemma TradeAgrees(live: seq<LiveOrder>, executed: seq<nat>, b: Book, e: Event)
    requires Agrees(live, executed, b) && (e.Trade? || e.CrossTrade?) && 1 <= e.locate <= |executed| && e.locate < LOCATES
    ensures Agrees(live, Plus(executed, e.locate, e.shares), Apply(b, e))
    ensures Apply(b, e).capacity == b.capacity
  {
    TradeEffect(b, e);
    EffectAgrees(live, executed, b, Apply(b, e), live, LiveOf(b), e.locate, e.shares);
  }

  lemma OtherAgrees(live: seq<LiveOrder>, executed: seq<nat>, b: Book, e: Event)
    requires Agrees(live, executed, b) && e.Other? && e.locate < LOCATES
    ensures Agrees(live, executed, Apply(b, e))
    ensures Apply(b, e).capacity == b.capacity
  {
    OtherEffect(b, e);
    EffectAgrees(live, executed, b, Apply(b, e), live, LiveOf(b), 0, 0);
  }

  // Each message keeps the two in step.

  lemma InStepNext(t: Trace, capacity: nat, live: seq<LiveOrder>, executed: seq<nat>, e: Event,
                   live': seq<LiveOrder>, executed': seq<nat>) returns (t': Trace)
    requires Traced(t, capacity) && e.locate < LOCATES && t.books[|t.events|].Ok()
    requires var c := Apply(t.books[|t.events|], e); c.capacity == capacity && Agrees(live', executed', c)
    ensures InStep(t', capacity, live', executed') && t'.events == t.events + [e]
  {
    assert Look(0);
    TracedNext(t, capacity, e);
    t' := Extended(t, e, Apply(t.books[|t.events|], e));
  }

  lemma PushInStep(t: Trace, capacity: nat, live: seq<LiveOrder>, executed: seq<nat>, e: Event) returns (t': Trace)
    requires InStep(t, capacity, live, executed)
    requires e.Add? && e.locate < LOCATES && (e.side == 'B' || e.side == 'S') && |live| < capacity
    requires e.ref != 0 && !Has(live, e.ref)
    ensures InStep(t', capacity, live + [LiveOrder(e.ref, e.shares, e.price, e.locate, e.side)], executed) && t'.events == t.events + [e]
  {
    assert Look(0);
    PushAgrees(live, executed, t.books[|t.events|], e);
    t' := InStepNext(t, capacity, live, executed, e, live + [LiveOrder(e.ref, e.shares, e.price, e.locate, e.side)], executed);
  }

  lemma ExecuteInStep(t: Trace, capacity: nat, live: seq<LiveOrder>, executed: seq<nat>, e: Event, i: nat) returns (t': Trace)
    requires InStep(t, capacity, live, executed)
    requires (e.Execute? || e.ExecutePrice?) && i < |live| && e.locate < LOCATES
    requires e.ref == live[i].ref && e.shares <= live[i].shares && 1 <= live[i].locate <= |executed|
    ensures t'.events == t.events + [e]
    ensures var printed := if e.Execute? || e.printable then e.shares else 0;
      InStep(t', capacity, Taken(live, i, e.shares), Plus(executed, live[i].locate, printed))
  {
    assert Look(0);
    ExecuteAgrees(live, executed, t.books[|t.events|], e, i);
    var printed := if e.Execute? || e.printable then e.shares else 0;
    t' := InStepNext(t, capacity, live, executed, e, Taken(live, i, e.shares), Plus(executed, live[i].locate, printed));
  }

  lemma CancelInStep(t: Trace, capacity: nat, live: seq<LiveOrder>, executed: seq<nat>, e: Event, i: nat) returns (t': Trace)
    requires InStep(t, capacity, live, executed)
    requires e.Cancel? && i < |live| && e.ref == live[i].ref && e.shares <= live[i].shares && e.locate < LOCATES
    ensures InStep(t', capacity, Taken(live, i, e.shares), executed) && t'.events == t.events + [e]
  {
    assert Look(0);
    CancelAgrees(live, executed, t.books[|t.events|], e, i);
    t' := InStepNext(t, capacity, live, executed, e, Taken(live, i, e.shares), executed);
  }

  lemma DeleteInStep(t: Trace, capacity: nat, live: seq<LiveOrder>, executed: seq<nat>, e: Event, i: nat) returns (t': Trace)
    requires InStep(t, capacity, live, executed)
    requires e.Delete? && i < |live| && e.ref == live[i].ref && e.locate < LOCATES
    ensures InStep(t', capacity, Dropped(live, i), executed) && t'.events == t.events + [e]
  {
    assert Look(0);
    DeleteAgrees(live, executed, t.books[|t.events|], e, i);
    t' := InStepNext(t, capacity, live, executed, e, Dropped(live, i), executed);
  }

  lemma ReplaceInStep(t: Trace, capacity: nat, live: seq<LiveOrder>, executed: seq<nat>, e: Event, i: nat) returns (t': Trace)
    requires InStep(t, capacity, live, executed)
    requires e.Replace? && i < |live| && e.ref == live[i].ref && e.locate < LOCATES && e.newRef != 0 && !Has(live, e.newRef)
    ensures t'.events == t.events + [e]
    ensures var o := LiveOrder(e.newRef, e.shares, e.price, live[i].locate, live[i].side);
      InStep(t', capacity, Dropped(live, i) + [o], executed)
  {
    assert Look(0);
    ReplaceAgrees(live, executed, t.books[|t.events|], e, i);
    var o := LiveOrder(e.newRef, e.shares, e.price, live[i].locate, live[i].side);
    t' := InStepNext(t, capacity, live, executed, e, Dropped(live, i) + [o], executed);
  }

  lemma TradeInStep(t: Trace, capacity: nat, live: seq<LiveOrder>, executed: seq<nat>, e: Event) returns (t': Trace)
    requires InStep(t, capacity, live, executed)
    requires (e.Trade? || e.CrossTrade?) && 1 <= e.locate <= |executed| && e.locate < LOCATES
    ensures InStep(t', capacity, live, Plus(executed, e.locate, e.shares)) && t'.events == t.events + [e]
  {
    assert Look(0);
    TradeAgrees(live, executed, t.books[|t.events|], e);
    t' := InStepNext(t, capacity, live, executed, e, live, Plus(executed, e.locate, e.shares));
  }

  lemma OtherInStep(t: Trace, capacity: nat, live: seq<LiveOrder>, executed: seq<nat>, e: Event) returns (t': Trace)
    requires InStep(t, capacity, live, executed)
    requires e.Other? && e.locate < LOCATES
    ensures InStep(t', capacity, live, executed) && t'.events == t.events + [e]
  {
    assert Look(0);
    OtherAgrees(live, executed, t.books[|t.events|], e);
    t' := InStepNext(t, capacity, live, executed, e, live, executed);
  }

  // ----- the generator ----------------------------------------------------------------------

  datatype Choice =
    | ChooseAdd | ChooseAddMpid | ChooseExecute | ChooseExecutePrice
    | ChooseCancel | ChooseDelete | ChooseReplace | ChooseTrade

  const PRE_MARKET_NS: nat := 14_400_000_000_000
  const MARKET_OPEN_NS: nat := 34_200_000_000_000
  const MARKET_CLOSE_NS: nat := 57_600_000_000_000

  /** An entry of the pool to draw from. */
  ghost predicate Plausible(o: LiveOrder, symbols: nat, nextRef: Ref) {
    && 1 <= o.ref < nextRef && 1 <= o.locate <= symbols && (o.side == 'B' || o.side == 'S')
    && RoundLots(o.shares)
  }

  /** One hundred shares or a multiple of it. */
  predicate RoundLots(shares: nat) {
    shares >= 100 && shares % 100 == 0
  }

  /** Taking this many leaves nothing or whole lots. */
  predicate Leaves(shares: nat, gone: nat) {
    gone == shares || (gone < shares && RoundLots(shares - gone))
  }

  lemma LotsTaken(shares: nat, r: nat)
    requires RoundLots(shares) && r < shares / 100
    ensures Leaves(shares, 100 * (1 + r)) && (r + 1 < shares / 100 ==> 100 * (1 + r) < shares)
  {
  }

  lemma LotsOf(r: nat)
    ensures RoundLots(100 * (1 + r))
  {
  }

  // ----- what a draw means ------------------------------------------------------------------------

  function WeightOf(m: Mix, c: Choice): nat {
    match c
    case ChooseAdd => m.add
    case ChooseAddMpid => m.addMpid
    case ChooseExecute => m.execute
    case ChooseExecutePrice => m.executePrice
    case ChooseCancel => m.cancel
    case ChooseDelete => m.del
    case ChooseReplace => m.swap
    case ChooseTrade => m.trade
  }

  /** The kind a draw chooses: the weights are laid end to end. */
  function ChoiceAt(m: Mix, x: nat): Choice {
    var r := if m.Total() == 0 then 0 else x % m.Total();
    if r < m.add then ChooseAdd
    else if r < m.add + m.addMpid then ChooseAddMpid
    else if r < m.add + m.addMpid + m.execute then ChooseExecute
    else if r < m.add + m.addMpid + m.execute + m.executePrice then ChooseExecutePrice
    else if r < m.add + m.addMpid + m.execute + m.executePrice + m.cancel then ChooseCancel
    else if r < m.add + m.addMpid + m.execute + m.executePrice + m.cancel + m.del then ChooseDelete
    else if r < m.add + m.addMpid + m.execute + m.executePrice + m.cancel + m.del + m.swap then ChooseReplace
    else ChooseTrade
  }

  ghost function Interval(lo: nat, n: nat): (s: set<nat>)
    ensures |s| == n && forall r {:trigger r in s} :: r in s <==> lo <= r < lo + n
  {
    if n == 0 then {} else Interval(lo, n - 1) + {lo + n - 1}
  }

  /** Of all draws below the total weight, each kind gets exactly as many as it weighs. */
  lemma WeightsAreHonoured(m: Mix, c: Choice, draws: set<nat>)
    requires forall r: nat {:trigger r in draws} :: r in draws <==> r < m.Total() && ChoiceAt(m, r) == c
    ensures |draws| == WeightOf(m, c)
  {
    var lo := match c
      case ChooseAdd => 0
      case ChooseAddMpid => m.add
      case ChooseExecute => m.add + m.addMpid
      case ChooseExecutePrice => m.add + m.addMpid + m.execute
      case ChooseCancel => m.add + m.addMpid + m.execute + m.executePrice
      case ChooseDelete => m.add + m.addMpid + m.execute + m.executePrice + m.cancel
      case ChooseReplace => m.add + m.addMpid + m.execute + m.executePrice + m.cancel + m.del
      case ChooseTrade => m.add + m.addMpid + m.execute + m.executePrice + m.cancel + m.del + m.swap;
    forall r: nat ensures r in draws <==> r in Interval(lo, WeightOf(m, c)) {
      if r < m.Total() {
        SmallRemainder(r, m.Total());
      }
    }
    assert draws == Interval(lo, WeightOf(m, c));
  }

  lemma SmallRemainder(r: nat, n: nat)
    requires r < n
    ensures r % n == r
  {
  }

  /** With nothing live only an add or a trade is possible. */
  function Possible(c: Choice, live: seq<LiveOrder>): Choice {
    if live == [] && !c.ChooseAddMpid? && !c.ChooseTrade? then ChooseAdd else c
  }

  /** The message is about this live order. */
  ghost predicate About(e: Event, live: seq<LiveOrder>, i: nat) {
    i < |live| && e.locate == live[i].locate && (e.Execute? || e.ExecutePrice? || e.Cancel? || e.Delete? || e.Replace?)
    && e.ref == live[i].ref
  }

  /** The message is of the kind that was chosen, about a live order where it must be, in round lots,
      and a cancel leaves something: what it could only take whole is deleted instead. */
  ghost predicate Made(c: Choice, live: seq<LiveOrder>, e: Event) {
    match c
    case ChooseAdd => e.Add? && !e.hasMpid && RoundLots(e.shares)
    case ChooseAddMpid => e.Add? && e.hasMpid && RoundLots(e.shares)
    case ChooseExecute => e.Execute? && exists i: nat :: About(e, live, i) && Leaves(live[i].shares, e.shares)
    case ChooseExecutePrice =>
      e.ExecutePrice? && exists i: nat :: About(e, live, i) && Leaves(live[i].shares, e.shares) && e.price == live[i].price
    case ChooseCancel =>
      exists i: nat :: About(e, live, i) && if live[i].shares < 200 then e.Delete? else e.Cancel? && 0 < e.shares < live[i].shares
    case ChooseDelete => e.Delete? && exists i: nat :: About(e, live, i)
    case ChooseReplace => e.Replace? && RoundLots(e.shares) && exists i: nat :: About(e, live, i)
    case ChooseTrade => e.Trade? && RoundLots(e.shares)
  }

  ghost predicate AllPlausible(live: seq<LiveOrder>, symbols: nat, nextRef: Ref) {
    forall i {:trigger live[i]} :: 0 <= i < |live| ==> Plausible(live[i], symbols, nextRef)
  }

  ghost predicate Priced(mid: seq<nat>) {
    forall i {:trigger mid[i]} :: 0 <= i < |mid| ==> mid[i] >= 19900
  }

  /** A penny down, a penny up, or nothing, inside the band. */
  function Walked(m: nat, r: nat): nat {
    if r % 4 == 0 && m > 20000 then m - 100 else if r % 4 == 1 && m < 5000000 then m + 100 else m
  }

  function SideOf(r: nat): char {
    if r % 2 != 0 then 'B' else 'S'
  }

  /** One to ten steps of a hundred away from the middle, on the passive side. */
  function Quoted(m: nat, side: char, r: nat): int {
    if side == 'B' then m - 100 * (1 + r % 10) else m + 100 * (1 + r % 10)
  }

  /** One execution with a price in ten does not print. */
  predicate ReachesTheTape(r: nat) {
    r % 10 != 0
  }

  /** How many shares a draw takes off an order. */
  function CutOf(shares: nat, r: nat): (cut: nat)
    ensures cut <= shares
  {
    if shares < 100 then 0 else Lots(r, shares / 100)
  }

  /** The draw says how many shares an order lost. */
  ghost predicate TookCut(live: seq<LiveOrder>, i: nat, shares: nat, live': seq<LiveOrder>, r: nat)
    requires i < |live|
  {
    shares == CutOf(live[i].shares, r) && live' == Taken(live, i, shares)
  }

  /** Which live order a draw picks. */
  function PickOf(live: seq<LiveOrder>, r: nat): (i: nat)
    requires live != []
    ensures i < |live|
  {
    r % |live|
  }

  function Lots(r: nat, most: nat): nat
    requires most > 0
  {
    100 * (1 + r % most)
  }

  /** A reference not handed out yet is not live. */
  lemma FreshRef(live: seq<LiveOrder>, symbols: nat, nextRef: Ref)
    requires AllPlausible(live, symbols, nextRef)
    ensures !Has(live, nextRef)
  {
  }

  lemma {:induction false} TraceIsReplay(t: Trace, capacity: nat, i: nat)
    requires Traced(t, capacity) && i <= |t.events|
    ensures Placed(t.events[..i]) && Inv(EmptyBook(capacity)) && t.books[i] == Replay(EmptyBook(capacity), t.events[..i])
  {
    EmptyInv(capacity);
    if i > 0 {
      var before, last := t.events[..i - 1], t.events[i - 1];
      TraceIsReplay(t, capacity, i - 1);
      assert Link(t, i - 1);
      LinkAppends(capacity, before, last, t.books[i - 1], t.books[i]);
      assert t.events[..i] == before + [last];
    }
  }

  lemma LinkAppends(capacity: nat, before: seq<Event>, last: Event, b: Book, c: Book)
    requires Placed(before) && last.locate < LOCATES && Inv(EmptyBook(capacity)) && b == Replay(EmptyBook(capacity), before)
    requires b.Ok() && c == Apply(b, last)
    ensures Placed(before + [last]) && c == Replay(EmptyBook(capacity), before + [last])
  {
    ReplayAppend(EmptyBook(capacity), before, last);
  }

  lemma {:induction false} ReplayAppend(b: Book, events: seq<Event>, e: Event)
    requires Inv(b) && Placed(events) && e.locate < LOCATES
    ensures Placed(events + [e])
    ensures var c := Replay(b, events); c.Ok() && Replay(b, events + [e]) == Apply(c, e)
    decreases |events|
  {
    InvOk(b);
    InvOk(Replay(b, events));
    if events == [] {
      assert [] + [e] == [e];
    } else {
      ApplyKeeps(b, events[0]);
      assert (events + [e])[1..] == events[1..] + [e];
      ReplayAppend(Apply(b, events[0]), events[1..], e);
    }
  }

  lemma EmptyInStep(symbols: nat, capacity: nat)
    requires symbols < LOCATES
    ensures InStep(Trace([], [EmptyBook(capacity)]), capacity, [], seq(symbols, _ => 0))
  {
    EmptyInv(capacity);
    InvOk(EmptyBook(capacity));
    LostCounts(EmptyBook(capacity));
  }

  /** One opening price a symbol, on a penny grid. */
  method OpeningPrices(draw: nat -> nat, symbols: nat) returns (mid: seq<nat>)
    ensures |mid| == symbols && Priced(mid)
  {
    mid := [];
    while |mid| < symbols
      invariant |mid| <= symbols && Priced(mid)
    {
      mid := mid + [100000 + draw(|mid|) % 1900 * 1000];
    }
  }

  class SyntheticFeed {
    const config: Config
    /** The random source: draw number k of a session. */
    const draw: nat -> nat
    /** How many orders a consumer of the session can hold. */
    ghost const capacity: nat

    var draws: nat
    var ts: nat
    var nextRef: Ref
    var mid: seq<nat>
    var live: seq<LiveOrder>
    var executed: seq<nat>
    var executedTotal: nat
    var nonprintable: nat
    var resting: seq<nat>
    var restingOrders: nat
    var lastTimestamp: nat
    /** What the sink was handed. */
    var emitted: seq<Event>

    /** The books a consumer has built so far. */
    ghost var trace: Trace

    ghost predicate Shaped()
      reads this`mid, this`executed, this`resting, this`nextRef, this`live, this`emitted
    {
      && 1 <= config.symbols < LOCATES && |mid| == |executed| == |resting| == config.symbols && Priced(mid)
      && config.mix.Total() > 0 && nextRef >= 1 && AllPlausible(live, config.symbols, nextRef) && |live| <= |emitted|
    }

    /** The running totals are sums over what was emitted, and the clock has not gone back. */
    ghost predicate Totalled()
      reads this`executed, this`executedTotal, this`nonprintable, this`emitted, this`ts
    {
      executedTotal == SumOf(executed) && nonprintable == Unprinted(emitted) && Timely(emitted, ts)
    }

    ghost predicate Valid()
      reads this`mid, this`executed, this`resting, this`nextRef, this`live, this`emitted
      reads this`executedTotal, this`nonprintable, this`ts, this`trace
    {
      Shaped() && Totalled() && trace.events == emitted && InStep(trace, capacity, live, executed)
    }

    constructor (config: Config, draw: nat -> nat, ghost capacity: nat)
      requires 1 <= config.symbols < LOCATES && config.mix.Total() > 0
      ensures Valid() && emitted == [] && live == [] && this.config == config && this.capacity == capacity
      ensures resting == seq(config.symbols, _ => 0)
    {
      var mids := OpeningPrices(draw, config.symbols);
      this.config := config;
      this.draw := draw;
      this.capacity := capacity;
      ts, nextRef, live, executedTotal, nonprintable, restingOrders, lastTimestamp, emitted := 0, 1, [], 0, 0, 0, 0, [];
      executed := seq(config.symbols, _ => 0);
      resting := seq(config.symbols, _ => 0);
      trace := Trace([], [EmptyBook(capacity)]);
      mid := mids;
      draws := config.symbols;
      EmptyInStep(config.symbols, capacity);
      SumOfZeros(config.symbols);
    }

    method Next() returns (r: nat)
      modifies this`draws
      ensures r == draw(old(draws)) && draws == old(draws) + 1
    {
      r := draw(draws);
      draws := draws + 1;
    }

    method Below(n: nat) returns (r: nat)
      modifies this`draws
      ensures n > 0 ==> r < n && r == draw(old(draws)) % n && draws == old(draws) + 1
      ensures n == 0 ==> r == 0 && draws == old(draws)
    {
      r := 0;
      if n > 0 {
        var x := Next();
        r := x % n;
      }
    }

    /** Timestamps only ever move forward. */
    method TickClock() returns (t: nat)
      modifies this`draws, this`ts
      ensures t == ts == old(ts) + draw(old(draws)) % 2000 && draws == old(draws) + 1
    {
      var d := Below(2000);
      ts := ts + d;
      t := ts;
    }

    method AtLeast(t: nat)
      modifies this`ts
      ensures ts >= old(ts) && ts >= t
    {
      if ts < t {
        ts := t;
      }
    }

    /** Hand one message to the sink; the consumer applies it. */
    method Emit(e: Event, ghost t: Trace)
      requires Timely(emitted, ts) && e.ts == ts
      modifies this`emitted, this`trace
      ensures emitted == old(emitted) + [e] && trace == t
      ensures Timely(emitted, ts) && Unprinted(emitted) == old(Unprinted(emitted)) + UnprintedIn(e)
    {
      AppendTotals(emitted, e, ts);
      emitted := emitted + [e];
      trace := t;
    }

    method PickLocate() returns (l: nat)
      requires config.symbols > 0
      modifies this`draws
      ensures 1 <= l <= config.symbols && l == draw(old(draws)) % config.symbols + 1 && draws == old(draws) + 1
    {
      var r := Below(config.symbols);
      l := r + 1;
    }

    /** A penny walk, clamped to a sane band. */
    method Walk(l: nat) returns (m: nat)
      requires 1 <= l <= |mid| && Priced(mid)
      modifies this`draws, this`mid
      ensures m >= 19900 && mid == old(mid)[l - 1 := m] && Priced(mid)
      ensures m == Walked(old(mid)[l - 1], draw(old(draws))) && draws == old(draws) + 1
    {
      var r := Below(4);
      m := mid[l - 1];
      assert m >= 19900;
      if r == 0 && m > 20000 {
        m := m - 100;
      }
      if r == 1 && m < 5000000 {
        m := m + 100;
      }
      mid := mid[l - 1 := m];
    }

    method Cross(l: nat)
      requires Valid() && 1 <= l <= config.symbols
      modifies this
      ensures Valid() && resting == old(resting) && |emitted| == |old(emitted)| + 1
    {
      var r := Below(500);
      var t := TickClock();
      var shares, price := 100 * (1 + r), mid[l - 1];
      Print(CrossTrade(l, t, shares, price));
    }

    /** Volume that never touches the book. */
    method Print(e: Event)
      requires (e.Trade? || e.CrossTrade?) && 1 <= e.locate <= config.symbols && e.shares > 0 && e.ts == ts && Valid()
      modifies this`executed, this`executedTotal, this`emitted, this`trace
      ensures Valid() && emitted == old(emitted) + [e]
    {
      ghost var t1 := TradeInStep(trace, capacity, live, executed, e);
      CreditSymbol(e.locate, e.shares);
      Emit(e, t1);
    }

    /** Add printed shares to a symbol's expectation and to the total. */
    method CreditSymbol(l: nat, shares: nat)
      requires 1 <= l <= |executed| && executedTotal == SumOf(executed)
      modifies this`executed, this`executedTotal
      ensures executed == old(executed)[l - 1 := old(executed)[l - 1] + shares] && executedTotal == SumOf(executed)
    {
      SumOfUpdate(executed, l - 1, shares);
      executed := executed[l - 1 := executed[l - 1] + shares];
      executedTotal := executedTotal + shares;
    }

    /** A system event, a directory entry or a trading action. */
    method Announce(l: nat)
      requires Valid() && l <= config.symbols
      modifies this
      ensures Valid() && resting == old(resting) && |emitted| == |old(emitted)| + 1 && emitted[|emitted| - 1].ts == ts
    {
      var t := TickClock();
      ghost var t1 := OtherInStep(trace, capacity, live, executed, Other(l, t));
      Emit(Other(l, t), t1);
    }

    method SessionOpen()
      requires Valid()
      modifies this
      ensures Valid() && resting == old(resting) && |emitted| == |old(emitted)| + 2 + 3 * config.symbols
    {
      AtLeast(PRE_MARKET_NS);
      Announce(0);
      var i := 0;
      while i < config.symbols
        invariant Valid() && resting == old(resting) && i <= config.symbols && |emitted| == |old(emitted)| + 1 + i
      {
        Announce(i + 1);
        i := i + 1;
      }
      AtLeast(MARKET_OPEN_NS);
      Announce(0);
      i := 0;
      while i < config.symbols
        invariant Valid() && resting == old(resting) && i <= config.symbols && |emitted| == |old(emitted)| + 2 + config.symbols + i
      {
        Announce(i + 1);
        i := i + 1;
      }
      i := 0;
      while i < config.symbols
        invariant Valid() && resting == old(resting) && i <= config.symbols && |emitted| == |old(emitted)| + 2 + 2 * config.symbols + i
      {
        Cross(i + 1);
        i := i + 1;
      }
    }

    method SessionClose()
      requires Valid()
      modifies this
      ensures Valid() && resting == old(resting) && |emitted| == |old(emitted)| + 2 + config.symbols
      ensures emitted[|emitted| - 1].ts == ts
    {
      var i := 0;
      while i < config.symbols
        invariant Valid() && resting == old(resting) && i <= config.symbols && |emitted| == |old(emitted)| + i
      {
        Cross(i + 1);
        i := i + 1;
      }
      AtLeast(MARKET_CLOSE_NS);
      Announce(0);
      Announce(0);
    }

    method PickChoice() returns (c: Choice)
      requires Valid()
      modifies this`draws
      ensures c == ChoiceAt(config.mix, draw(old(draws))) && draws == old(draws) + 1
    {
      var m := config.mix;
      var r: int := Below(m.Total());
      if r < m.add {
        return ChooseAdd;
      }
      r := r - m.add;
      if r < m.addMpid {
        return ChooseAddMpid;
      }
      r := r - m.addMpid;
      if r < m.execute {
        return ChooseExecute;
      }
      r := r - m.execute;
      if r < m.executePrice {
        return ChooseExecutePrice;
      }
      r := r - m.executePrice;
      if r < m.cancel {
        return ChooseCancel;
      }
      r := r - m.cancel;
      if r < m.del {
        return ChooseDelete;
      }
      r := r - m.del;
      c := if r < m.swap then ChooseReplace else ChooseTrade;
    }

    /** One message of the kind drawn, or of the only kind possible. */
    method Step() returns (ghost e: Event)
      requires Valid() && |emitted| < capacity
      modifies this
      ensures Valid() && resting == old(resting) && emitted == old(emitted) + [e]
      ensures Made(Possible(ChoiceAt(config.mix, draw(old(draws))), old(live)), old(live), e)
    {
      var c := PickChoice();
      if live == [] && !c.ChooseAddMpid? && !c.ChooseTrade? {
        c := ChooseAdd;
      }
      e := Act(c);
    }

    method Act(c: Choice) returns (ghost e: Event)
      requires Valid() && |emitted| < capacity && (live == [] ==> c.ChooseAdd? || c.ChooseAddMpid? || c.ChooseTrade?)
      modifies this
      ensures Valid() && resting == old(resting) && emitted == old(emitted) + [e] && Made(c, old(live), e)
    {
      match c
      case ChooseAdd => e := DoAdd(false);
      case ChooseAddMpid => e := DoAdd(true);
      case ChooseExecute => e := DoExecute(false);
      case ChooseExecutePrice => e := DoExecute(true);
      case ChooseCancel => e := DoCancel();
      case ChooseDelete =>
        var i := Below(|live|);
        e := DoDeleteAt(i);
      case ChooseReplace => e := DoReplace();
      case ChooseTrade => e := DoTrade();
    }

    method DoAdd(mpid: bool) returns (ghost e: Event)
      requires Valid() && |emitted| < capacity
      modifies this
      ensures Valid() && resting == old(resting) && emitted == old(emitted) + [e]
      ensures Made(if mpid then ChooseAddMpid else ChooseAdd, old(live), e)
      ensures e.locate == draw(old(draws)) % config.symbols + 1 && e.side == SideOf(draw(old(draws) + 2))
      ensures e.shares == Lots(draw(old(draws) + 3), 20)
      ensures e.ref == old(nextRef) && nextRef == old(nextRef) + 1
      ensures mid == old(mid)[e.locate - 1 := Walked(old(mid)[e.locate - 1], draw(old(draws) + 1))]
      ensures e.price == Quoted(mid[e.locate - 1], e.side, draw(old(draws) + 4))
      ensures live == old(live) + [LiveOrder(e.ref, e.shares, e.price, e.locate, e.side)]
    {
      var added := DrawAdd(mpid);
      e := added;
      Enter(added);
    }

    method DrawAdd(mpid: bool) returns (e: Event)
      requires |mid| == config.symbols > 0 && Priced(mid)
      modifies this`draws, this`mid, this`ts
      ensures e.Add? && e.hasMpid == mpid && e.ts == ts >= old(ts) && e.ref == nextRef && 1 <= e.locate <= config.symbols
      ensures RoundLots(e.shares) && |mid| == config.symbols && Priced(mid)
      ensures e.locate == draw(old(draws)) % config.symbols + 1 && e.side == SideOf(draw(old(draws) + 2))
      ensures e.shares == Lots(draw(old(draws) + 3), 20) && e.price == Quoted(mid[e.locate - 1], e.side, draw(old(draws) + 4))
      ensures mid == old(mid)[e.locate - 1 := Walked(old(mid)[e.locate - 1], draw(old(draws) + 1))]
    {
      var l := PickLocate();
      var m := Walk(l);
      var side := PickSide();
      var r := Below(20);
      var price := Quote(m, side);
      var t := TickClock();
      LotsOf(r);
      e := Add(l, t, nextRef, side, 100 * (1 + r), price, mpid);
    }

    method PickSide() returns (side: char)
      modifies this`draws
      ensures side == SideOf(draw(old(draws))) && draws == old(draws) + 1
    {
      var coin := Next();
      side := if coin % 2 != 0 then 'B' else 'S';
    }

    /** A price on the passive side of the middle. */
    method Quote(m: nat, side: char) returns (price: nat)
      requires m >= 19900
      modifies this`draws
      ensures price == Quoted(m, side, draw(old(draws))) && draws == old(draws) + 1
    {
      var d := Below(10);
      var depth := 100 * (1 + d);
      price := if side == 'B' then m - depth else m + depth;
    }

    method Enter(e: Event)
      requires e.ts == ts && e.Add? && e.ref == nextRef && 1 <= e.locate <= config.symbols
      requires (e.side == 'B' || e.side == 'S') && RoundLots(e.shares)
      requires Valid() && |emitted| < capacity
      modifies this
      ensures Valid() && resting == old(resting) && emitted == old(emitted) + [e]
      ensures live == old(live) + [LiveOrder(e.ref, e.shares, e.price, e.locate, e.side)] && nextRef == old(nextRef) + 1 && mid == old(mid)
    {
      FreshRef(live, config.symbols, nextRef);
      ghost var t1 := PushInStep(trace, capacity, live, executed, e);
      PushLive(LiveOrder(e.ref, e.shares, e.price, e.locate, e.side));
      Emit(e, t1);
    }

    /** Put an order under the next reference into the pool to draw from. */
    method PushLive(o: LiveOrder)
      requires AllPlausible(live, config.symbols, nextRef) && Plausible(o, config.symbols, nextRef + 1)
      modifies this`live, this`nextRef
      ensures live == old(live) + [o] && nextRef == old(nextRef) + 1 && AllPlausible(live, config.symbols, nextRef)
    {
      nextRef := nextRef + 1;
      live := live + [o];
    }

    /** Use up a reference that never rests. */
    method SpendRef()
      requires Valid()
      modifies this`nextRef
      ensures Valid()
    {
      nextRef := nextRef + 1;
    }

    method DropLive(i: nat)
      requires i < |live|
      modifies this`live
      ensures live == Dropped(old(live), i)
    {
      live := live[i := live[|live| - 1]];
      live := live[..|live| - 1];
    }

    method DoExecute(withPrice: bool) returns (ghost e: Event)
      requires Valid() && live != []
      modifies this
      ensures if withPrice then e.ExecutePrice? && e.printable == ReachesTheTape(draw(old(draws) + 2)) else e.Execute?
      ensures About(e, old(live), PickOf(old(live), draw(old(draws))))
      ensures TookCut(old(live), PickOf(old(live), draw(old(draws))), e.shares, live, draw(old(draws) + 1))
      ensures Valid() && resting == old(resting) && emitted == old(emitted) + [e]
      ensures Made(if withPrice then ChooseExecutePrice else ChooseExecute, old(live), e)
    {
      var i := Below(|live|);
      var o := live[i];
      assert Plausible(o, config.symbols, nextRef);
      var r := Below(o.shares / 100);
      LotsTaken(o.shares, r);
      var done := 100 * (1 + r);
      var coin := 1;
      if withPrice {
        coin := Below(10);
      }
      var t := TickClock();
      var executed := if withPrice then ExecutePrice(o.locate, t, o.ref, done, coin != 0, o.price) else Execute(o.locate, t, o.ref, done);
      e := executed;
      assert About(e, old(live), i);
      Trim(i, done, executed);
    }

    method Trim(i: nat, done: nat, e: Event)
      requires i < |live| && done > 0 && Leaves(live[i].shares, done)
      requires (e.Execute? || e.ExecutePrice?) && e.ref == live[i].ref && e.shares == done && e.locate == live[i].locate
      requires e.ts == ts && Valid()
      modifies this
      ensures Valid() && resting == old(resting) && emitted == old(emitted) + [e]
      ensures live == Taken(old(live), i, done) && mid == old(mid)
    {
      ghost var t1 := ExecuteInStep(trace, capacity, live, executed, e, i);
      assert Plausible(live[i], config.symbols, nextRef);
      Tally(e);
      TakeShares(i, done);
      Emit(e, t1);
    }

    /** Only what prints counts as volume; the rest is counted apart. */
    method Tally(e: Event)
      requires (e.Execute? || e.ExecutePrice?) && 1 <= e.locate <= |executed| && e.shares > 0 && executedTotal == SumOf(executed)
      modifies this`executed, this`executedTotal, this`nonprintable
      ensures executed == Plus(old(executed), e.locate, if e.Execute? || e.printable then e.shares else 0)
      ensures executedTotal == SumOf(executed) && nonprintable == old(nonprintable) + UnprintedIn(e)
    {
      if e.Execute? || e.printable {
        CreditSymbol(e.locate, e.shares);
      } else {
        nonprintable := nonprintable + e.shares;
      }
    }

    /** Take shares off a live order and drop it when none remain. */
    method TakeShares(i: nat, gone: nat)
      requires Shaped() && i < |live| && Leaves(live[i].shares, gone)
      modifies this`live
      ensures Shaped() && live == Taken(old(live), i, gone)
    {
      var o := live[i];
      assert Plausible(o, config.symbols, nextRef);
      if gone == o.shares {
        DropLive(i);
      } else {
        live := live[i := o.(shares := o.shares - gone)];
      }
    }

    method DoCancel() returns (ghost e: Event)
      requires Valid() && live != []
      modifies this
      ensures Valid() && resting == old(resting) && emitted == old(emitted) + [e]
      ensures Made(ChooseCancel, old(live), e)
    {
      var i := Below(|live|);
      var o := live[i];
      assert Plausible(o, config.symbols, nextRef);
      var lots := o.shares / 100;
      if lots < 2 {
        e := DoDeleteAt(i);
        return;
      }
      var r := Below(lots - 1);
      var t := TickClock();
      LotsTaken(o.shares, r);
      var gone := 100 * (1 + r);
      e := Cancel(o.locate, t, o.ref, gone);
      assert About(e, old(live), i);
      Shrink(i, gone, Cancel(o.locate, t, o.ref, gone));
    }

    method Shrink(i: nat, gone: nat, e: Event)
      requires i < |live| && 0 < gone < live[i].shares && Leaves(live[i].shares, gone) && e == Cancel(live[i].locate, ts, live[i].ref, gone)
      requires Valid()
      modifies this
      ensures Valid() && resting == old(resting) && emitted == old(emitted) + [e]
      ensures live == Taken(old(live), i, gone) && mid == old(mid)
    {
      assert Plausible(live[i], config.symbols, nextRef);
      ghost var t1 := CancelInStep(trace, capacity, live, executed, e, i);
      TakeShares(i, gone);
      Emit(e, t1);
    }

    method DoDeleteAt(i: nat) returns (ghost e: Event)
      requires Valid() && i < |live|
      modifies this
      ensures Valid() && resting == old(resting) && emitted == old(emitted) + [e]
      ensures e.Delete? && About(e, old(live), i) && Made(ChooseDelete, old(live), e)
      ensures live == Dropped(old(live), i) && mid == old(mid)
    {
      var o := live[i];
      assert Plausible(o, config.symbols, nextRef);
      var t := TickClock();
      e := Delete(o.locate, t, o.ref);
      assert About(e, old(live), i);
      ghost var t1 := DeleteInStep(trace, capacity, live, executed, e, i);
      DropLive(i);
      Emit(Delete(o.locate, t, o.ref), t1);
    }

    method DoReplace() returns (ghost e: Event)
      requires Valid() && live != []
      modifies this
      ensures Valid() && resting == old(resting) && emitted == old(emitted) + [e]
      ensures Made(ChooseReplace, old(live), e)
      ensures About(e, old(live), PickOf(old(live), draw(old(draws)))) && e.shares == Lots(draw(old(draws) + 2), 20)
      ensures var i := PickOf(old(live), draw(old(draws)));
        live == Dropped(old(live), i) + [LiveOrder(e.newRef, e.shares, e.price, old(live)[i].locate, old(live)[i].side)]
      ensures var o := old(live)[PickOf(old(live), draw(old(draws)))];
        1 <= o.locate <= |mid| && e.price == Quoted(mid[o.locate - 1], o.side, draw(old(draws) + 3))
    {
      var i := Below(|live|);
      assert Plausible(live[i], config.symbols, nextRef);
      var swapped := DrawReplace(live[i]);
      e := swapped;
      assert About(e, old(live), i);
      Swap(i, swapped);
    }

    method DrawReplace(o: LiveOrder) returns (e: Event)
      requires 1 <= o.locate <= |mid| && Priced(mid)
      modifies this`draws, this`mid, this`ts
      ensures e.Replace? && e.ref == o.ref && e.locate == o.locate && e.newRef == nextRef && e.ts == ts >= old(ts)
      ensures RoundLots(e.shares) && |mid| == |old(mid)| && Priced(mid)
      ensures mid == old(mid)[o.locate - 1 := Walked(old(mid)[o.locate - 1], draw(old(draws)))]
      ensures e.shares == Lots(draw(old(draws) + 1), 20) && e.price == Quoted(mid[o.locate - 1], o.side, draw(old(draws) + 2))
    {
      var m := Walk(o.locate);
      var r := Below(20);
      var price := Quote(m, o.side);
      var t := TickClock();
      LotsOf(r);
      e := Replace(o.locate, t, o.ref, nextRef, 100 * (1 + r), price);
    }

    method Swap(i: nat, e: Event)
      requires e.ts == ts && i < |live| && e.Replace? && e.ref == live[i].ref && e.newRef == nextRef && e.locate == live[i].locate
      requires RoundLots(e.shares) && Valid()
      modifies this
      ensures Valid() && resting == old(resting) && emitted == old(emitted) + [e]
      ensures mid == old(mid)
      ensures live == Dropped(old(live), i) + [LiveOrder(e.newRef, e.shares, e.price, old(live)[i].locate, old(live)[i].side)]
    {
      var o := live[i];
      assert Plausible(o, config.symbols, nextRef);
      FreshRef(live, config.symbols, nextRef);
      ghost var t1 := ReplaceInStep(trace, capacity, live, executed, e, i);
      DropLive(i);
      PushLive(LiveOrder(e.newRef, e.shares, e.price, o.locate, o.side));
      Emit(e, t1);
    }

    method DoTrade() returns (ghost e: Event)
      requires Valid()
      modifies this
      ensures Valid() && resting == old(resting) && emitted == old(emitted) + [e]
      ensures Made(ChooseTrade, old(live), e)
      ensures e.locate == draw(old(draws)) % config.symbols + 1 && e.shares == Lots(draw(old(draws) + 2), 10)
      ensures mid == old(mid)[e.locate - 1 := e.price] && live == old(live)
      ensures e.price == Walked(old(mid)[e.locate - 1], draw(old(draws) + 1))
    {
      var l := PickLocate();
      var price := Walk(l);
      e := PrintTrade(l, price);
    }

    method PrintTrade(l: nat, price: nat) returns (ghost e: Event)
      requires Valid() && 1 <= l <= config.symbols
      modifies this
      ensures Valid() && resting == old(resting) && emitted == old(emitted) + [e] && e.Trade? && RoundLots(e.shares)
      ensures e.locate == l && e.price == price && e.shares == Lots(draw(old(draws)), 10) && mid == old(mid) && live == old(live)
    {
      var r := Below(10);
      var shares := 100 * (1 + r);
      LotsOf(r);
      SpendRef();
      var t := TickClock();
      e := Trade(l, t, shares, price);
      Print(Trade(l, t, shares, price));
    }

    method Activity(count: nat)
      requires Valid() && |emitted| + count <= capacity
      modifies this
      ensures Valid() && resting == old(resting) && |emitted| == |old(emitted)| + count
    {
      var i := 0;
      while i < count
        invariant i <= count && Valid() && resting == old(resting) && |emitted| == |old(emitted)| + i
      {
        ghost var e := Step();
        i := i + 1;
      }
    }

    /** Count the orders still live, symbol by symbol. */
    method CountResting()
      requires Valid() && resting == seq(config.symbols, _ => 0)
      modifies this`resting, this`restingOrders
      ensures Valid() && restingOrders == |live|
      ensures forall l {:trigger resting[l]} :: 0 <= l < config.symbols ==> resting[l] == Resting(live, l + 1)
    {
      var i := 0;
      while i < |live|
        invariant i <= |live| && |resting| == config.symbols
        invariant forall l {:trigger resting[l]} :: 0 <= l < config.symbols ==> resting[l] == Resting(live[..i], l + 1)
      {
        var l := live[i].locate;
        assert Plausible(live[i], config.symbols, nextRef);
        RestingNext(live, i);
        resting := resting[l - 1 := resting[l - 1] + 1];
        i := i + 1;
      }
      assert live[..|live|] == live;
      restingOrders := |live|;
    }

    /**
      The whole session.  Whatever the draws, a consumer that replays it from an empty book
      meets no fault, and ends with exactly the resting orders and printed volume published.
     */
    method Generate()
      requires Valid() && emitted == [] && resting == seq(config.symbols, _ => 0)
      requires capacity >= SessionLength(config)
      modifies this
      ensures |emitted| == SessionLength(config)
      ensures Placed(emitted) && Inv(EmptyBook(capacity))
      ensures Honoured(Replay(EmptyBook(capacity), emitted), executed, resting, restingOrders)
      ensures |executed| == |resting| == config.symbols
      ensures executedTotal == SumOf(executed) && nonprintable == Unprinted(emitted)
      ensures Ordered(emitted) && lastTimestamp == emitted[|emitted| - 1].ts
    {
      Session();
      KeptPromise(trace, capacity, live, executed, resting, config.symbols);
    }

    /** Open, act, close and count. */
    method Session()
      requires Valid() && emitted == [] && resting == seq(config.symbols, _ => 0)
      requires capacity >= SessionLength(config)
      modifies this
      ensures Valid() && |emitted| == SessionLength(config) && lastTimestamp == emitted[|emitted| - 1].ts
      ensures restingOrders == |live|
      ensures forall l {:trigger resting[l]} :: 0 <= l < config.symbols ==> resting[l] == Resting(live, l + 1)
    {
      SessionOpen();
      var overhead := 4 + 4 * config.symbols;
      var activity := if config.messages > overhead then config.messages - overhead else 0;
      Activity(activity);
      SessionClose();
      CountResting();
      lastTimestamp := ts;
    }
  }

  function SessionLength(c: Config): nat {
    if c.messages > 4 + 4 * c.symbols then c.messages else 4 + 4 * c.symbols
  }

  /** The published expectation is what the replayed book holds. */
  ghost predicate Honoured(b: Book, executed: seq<nat>, resting: seq<nat>, restingOrders: nat) {
    && Sound(b) && FaultFree(b.stats) && b.stats.liveOrders == |LiveOf(b).Keys| == restingOrders
    && PrintsMatch(executed, b)
    && forall l {:trigger resting[l]} :: 0 <= l < |resting| ==> resting[l] == Total(LiveOf(b), OnSymbol(l + 1))
  }

  lemma {:induction false} KeptPromise(t: Trace, capacity: nat, live: seq<LiveOrder>, executed: seq<nat>, resting: seq<nat>, symbols: nat)
    requires InStep(t, capacity, live, executed) && |resting| == symbols
    requires forall l {:trigger resting[l]} :: 0 <= l < symbols ==> resting[l] == Resting(live, l + 1)
    ensures Placed(t.events) && Inv(EmptyBook(capacity))
    ensures Honoured(Replay(EmptyBook(capacity), t.events), executed, resting, |live|)
  {
    assert Look(0);
    TraceIsReplay(t, capacity, |t.events|);
    assert t.events[..|t.events|] == t.events;
    var b := t.books[|t.events|];
    SizeOf(b);
    forall l | 0 <= l < |resting| ensures resting[l] == Total(LiveOf(b), OnSymbol(l + 1)) {
      MatchesCounts(live, LiveOf(b), l + 1);
    }
    MatchesCounts(live, LiveOf(b), 0);
  }
}
