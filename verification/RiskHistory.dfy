/**
  What the engine remembers of the past besides orders and positions: the switches as last
  told, and on each side the most aggressive price sent since the side was last empty.
 */
module RiskHistory {
  import opened Common
  import opened RiskModel
  import opened RiskLedger

  // ----- switches ---------------------------------------------------------------------------------

  /** What the last word on a symbol was. */
  function LastEnabled(events: seq<Event>, l: nat, was: bool): bool {
    if events == [] then was
    else LastEnabled(events[1..], l, if events[0].Enable? && events[0].locate == l then events[0].on else was)
  }

  function LastHalted(events: seq<Event>, l: nat, was: bool): bool {
    if events == [] then was
    else LastHalted(events[1..], l, if events[0].Halt? && events[0].locate == l then events[0].on else was)
  }

  function LastTripped(events: seq<Event>, was: bool): bool {
    if events == [] then was
    else LastTripped(events[1..], if events[0].TripSwitch? then true else if events[0].ResetSwitch? then false else was)
  }

  /** What a report can do to a symbol: nothing to its switches, and to the extreme of a side
      only when the side empties. */
  ghost predicate Reported(s: Symbol, s': Symbol) {
    && s'.enabled == s.enabled && s'.halted == s.halted
    && ((s'.buyOrders == 0 && s'.bestBuy == 0) || (s'.buyOrders <= s.buyOrders && s'.bestBuy == s.bestBuy))
    && ((s'.sellOrders == 0 && s'.bestSell == 0) || (s'.sellOrders <= s.sellOrders && s'.bestSell == s.bestSell))
    && (s'.buyOrders == 0 < s.buyOrders ==> s'.bestBuy == 0) && (s'.sellOrders == 0 < s.sellOrders ==> s'.bestSell == 0)
  }

  lemma CutReports(s: Symbol, isBuy: bool, n: nat, filled: bool)
    ensures var c := CutWorking(s, isBuy, n); Reported(s, if filled then MovePosition(c, isBuy, n) else c)
    ensures var c := CutWorking(s, isBuy, n); Reported(s, DropWorking(if filled then MovePosition(c, isBuy, n) else c, isBuy))
  {
  }

  lemma ReduceReports(e: Engine, t: Token, n: nat, filled: bool, l: nat)
    requires e.Ok() && t in e.open && e.open[t].locate < LOCATES && n <= e.open[t].leaves && l < LOCATES
    ensures var e' := ReduceAndRetire(e, t, n, filled); Reported(e.symbols[l], e'.symbols[l]) && e'.tripped == e.tripped
  {
    CutReports(e.symbols[l], e.open[t].isBuy, n, filled);
  }

  predicate Report(ev: Event) {
    ev.Fill? || ev.CancelAck? || ev.RejectAck?
  }

  lemma StepReports(e: Engine, ev: Event, l: nat)
    requires e.Ok() && Indexed(e) && Report(ev) && l < LOCATES
    ensures Step(e, ev).Ok() && Reported(e.symbols[l], Step(e, ev).symbols[l]) && Step(e, ev).tripped == e.tripped
  {
    var t := ev.token;
    if t in e.open {
      var leaves := e.open[t].leaves;
      match ev
      case Fill(_, shares, price) =>
        ReduceReports(e.(stats := FillStats(e.stats, shares, leaves, price)), t, Clip(shares, leaves), true, l);
      case CancelAck(_, d) =>
        var asked := if d == 0 then leaves else d;
        ReduceReports(e.(stats := CancelStats(e.stats, asked, leaves)), t, Clip(asked, leaves), false, l);
      case RejectAck(_) =>
        ReduceReports(e.(stats := e.stats.(rejects := e.stats.rejects + 1)), t, leaves, false, l);
    }
  }

  lemma StepSwitches(e: Engine, ev: Event, l: nat)
    requires e.Ok() && Indexed(e) && Wellformed(ev) && l < LOCATES
    ensures var s, s' := e.symbols[l], Step(e, ev).symbols[l];
      && s'.enabled == (if ev.Enable? && ev.locate == l then ev.on else s.enabled)
      && s'.halted == (if ev.Halt? && ev.locate == l then ev.on else s.halted)
    ensures Step(e, ev).tripped == if ev.TripSwitch? then true else if ev.ResetSwitch? then false else e.tripped
  {
    if Report(ev) {
      StepReports(e, ev, l);
    } else if Passed(e, ev) {
      SendTripsNothing(e, ev.request);
    }
  }

  lemma SendTripsNothing(e: Engine, r: Request)
    requires e.Ok() && r.locate < LOCATES && Check(e, r) == Pass
    ensures r.token !in e.open && OnOrderSent(e, r).tripped == e.tripped
  {
  }

  /** In every run a symbol is enabled or halted as last told, and the kill switch is tripped as
      last told. */
  lemma {:induction false} SwitchesAsTold(e: Engine, events: seq<Event>, l: nat)
    requires e.Ok() && Indexed(e) && AllWellformed(events) && l < LOCATES
    ensures var e' := Run(e, events);
      && e'.symbols[l].enabled == LastEnabled(events, l, e.symbols[l].enabled)
      && e'.symbols[l].halted == LastHalted(events, l, e.symbols[l].halted)
      && e'.tripped == LastTripped(events, e.tripped)
    decreases |events|
  {
    if events != [] {
      StepSwitches(e, events[0], l);
      StepIndexed(e, events[0]);
      SwitchesAsTold(Step(e, events[0]), events[1..], l);
    }
  }

  // ----- extremes ---------------------------------------------------------------------------------

  function OrdersOn(s: Symbol, isBuy: bool): nat {
    if isBuy then s.buyOrders else s.sellOrders
  }

  /** The prices sent on one side of a symbol since nothing was working there. */
  function PricesSince(e: Engine, events: seq<Event>, l: nat, isBuy: bool, seen: set<int>): set<int>
    requires e.Ok() && Indexed(e) && AllWellformed(events) && l < LOCATES
    decreases |events|
  {
    if events == [] then seen
    else
      StepIndexed(e, events[0]);
      PricesSince(Step(e, events[0]), events[1..], l, isBuy, PricesNow(e, events[0], l, isBuy, seen))
  }

  function PricesNow(e: Engine, ev: Event, l: nat, isBuy: bool, seen: set<int>): set<int>
    requires e.Ok() && Indexed(e) && Wellformed(ev) && l < LOCATES
  {
    StepIndexed(e, ev);
    if OrdersOn(Step(e, ev).symbols[l], isBuy) == 0 then {}
    else if Passed(e, ev) && ev.request.locate == l && ev.request.isBuy == isBuy then seen + {ev.request.price}
    else seen
  }

  /** The stored extreme is the highest of those prices on the buy side and the lowest on the
      sell side, and zero while nothing works there. */
  ghost predicate Extreme(s: Symbol, isBuy: bool, seen: set<int>) {
    if OrdersOn(s, isBuy) == 0 then seen == {} && (if isBuy then s.bestBuy else s.bestSell) == 0
    else if isBuy then s.bestBuy in seen && forall p :: p in seen ==> p <= s.bestBuy
    else s.bestSell in seen && forall p :: p in seen ==> p >= s.bestSell
  }

  lemma SendExtreme(e: Engine, r: Request, l: nat, isBuy: bool, seen: set<int>)
    requires e.Ok() && Indexed(e) && r.locate < LOCATES && l < LOCATES && Check(e, r) == Pass && Extreme(e.symbols[l], isBuy, seen)
    ensures Extreme(OnOrderSent(e, r).symbols[l], isBuy, PricesNow(e, Send(r), l, isBuy, seen))
  {
    SendTripsNothing(e, r);
    if r.locate == l {
      AddExtreme(e.symbols[l], r.isBuy, r.shares, r.price, isBuy, seen);
    }
  }

  lemma AddExtreme(s: Symbol, side: bool, shares: nat, price: int, isBuy: bool, seen: set<int>)
    requires Extreme(s, isBuy, seen)
    ensures var s' := AddWorking(s, side, shares, price);
      && Extreme(s', isBuy, if side == isBuy then seen + {price} else seen)
      && OrdersOn(s', isBuy) == OrdersOn(s, isBuy) + (if side == isBuy then 1 else 0)
  {
  }

  lemma StepExtreme(e: Engine, ev: Event, l: nat, isBuy: bool, seen: set<int>)
    requires e.Ok() && Indexed(e) && Wellformed(ev) && l < LOCATES && Extreme(e.symbols[l], isBuy, seen)
    ensures Step(e, ev).Ok() && Extreme(Step(e, ev).symbols[l], isBuy, PricesNow(e, ev, l, isBuy, seen))
  {
    StepIndexed(e, ev);
    if Report(ev) {
      StepReports(e, ev, l);
    } else if Passed(e, ev) {
      SendExtreme(e, ev.request, l, isBuy, seen);
    } else {
      OthersExtreme(e, ev, l);
    }
  }

  lemma OthersExtreme(e: Engine, ev: Event, l: nat)
    requires e.Ok() && Indexed(e) && Wellformed(ev) && l < LOCATES && !Report(ev) && !Passed(e, ev)
    ensures var s, s' := e.symbols[l], Step(e, ev).symbols[l]; s' == s.(enabled := s'.enabled, halted := s'.halted)
  {
  }

  /** In every run the stored extreme of a side with working orders is the most aggressive price
      sent there since the side was last empty. */
  lemma {:induction false} ExtremeIsExact(e: Engine, events: seq<Event>, l: nat, isBuy: bool, seen: set<int>)
    requires e.Ok() && Indexed(e) && AllWellformed(events) && l < LOCATES && Extreme(e.symbols[l], isBuy, seen)
    ensures Extreme(Run(e, events).symbols[l], isBuy, PricesSince(e, events, l, isBuy, seen))
    decreases |events|
  {
    if events != [] {
      StepExtreme(e, events[0], l, isBuy, seen);
      StepIndexed(e, events[0]);
      ExtremeIsExact(Step(e, events[0]), events[1..], l, isBuy, PricesNow(e, events[0], l, isBuy, seen));
    }
  }

  // ----- high water -------------------------------------------------------------------------------

  /** The most orders open at once after any event of a run. */
  function MostOpen(e: Engine, events: seq<Event>, most: nat): nat
    requires e.Ok() && Indexed(e) && AllWellformed(events)
    decreases |events|
  {
    if events == [] then most
    else
      StepIndexed(e, events[0]);
      var n := Step(e, events[0]).openCount;
      MostOpen(Step(e, events[0]), events[1..], if n > most then n else most)
  }

  /** How often the switch was told to trip. */
  function TimesTripped(events: seq<Event>): nat {
    if events == [] then 0 else (if events[0].TripSwitch? then 1 else 0) + TimesTripped(events[1..])
  }

  lemma ReducePeaks(e: Engine, t: Token, n: nat, filled: bool)
    requires e.Ok() && t in e.open && e.open[t].locate < LOCATES && n <= e.open[t].leaves
    ensures var e' := ReduceAndRetire(e, t, n, filled);
      e'.openCount <= e.openCount && e'.stats.peak == e.stats.peak && e'.stats.killTrips == e.stats.killTrips
  {
  }

  lemma StepPeaks(e: Engine, ev: Event)
    requires e.Ok() && Indexed(e) && Wellformed(ev) && e.openCount <= e.stats.peak
    ensures var e' := Step(e, ev);
      && e'.stats.peak == (if e'.openCount > e.stats.peak then e'.openCount else e.stats.peak)
      && e'.stats.killTrips == e.stats.killTrips + (if ev.TripSwitch? then 1 else 0)
  {
    if Report(ev) && ev.token in e.open {
      var t, leaves := ev.token, e.open[ev.token].leaves;
      match ev
      case Fill(_, shares, price) => ReducePeaks(e.(stats := FillStats(e.stats, shares, leaves, price)), t, Clip(shares, leaves), true);
      case CancelAck(_, d) =>
        var asked := if d == 0 then leaves else d;
        ReducePeaks(e.(stats := CancelStats(e.stats, asked, leaves)), t, Clip(asked, leaves), false);
      case RejectAck(_) => ReducePeaks(e.(stats := e.stats.(rejects := e.stats.rejects + 1)), t, leaves, false);
    } else if Passed(e, ev) {
      SendTripsNothing(e, ev.request);
    }
  }

  /** In every run the peak is the most orders ever open at once. */
  lemma {:induction false} PeakIsTheMost(e: Engine, events: seq<Event>)
    requires e.Ok() && Indexed(e) && AllWellformed(events) && e.openCount <= e.stats.peak
    ensures var e' := Run(e, events);
      && e'.stats.peak == MostOpen(e, events, e.stats.peak) && e'.stats.killTrips == e.stats.killTrips + TimesTripped(events)
    decreases |events|
  {
    if events != [] {
      StepPeaks(e, events[0]);
      StepIndexed(e, events[0]);
      PeakIsTheMost(Step(e, events[0]), events[1..]);
    }
  }

  // ----- losing track -----------------------------------------------------------------------------

  /** An order that was sent under a token that is still working, which no checked order is, cannot
      be tracked: nothing else changes, the fault is counted and the switch trips. */
  lemma LostTrack(e: Engine, r: Request)
    requires e.Ok() && r.locate < LOCATES && r.token in e.open
    ensures var e' := OnOrderSent(e, r);
      && e'.tripped && e' == e.(tripped := true, stats := e'.stats)
      && e'.stats.insertFailed == e.stats.insertFailed + 1 && e'.stats.killTrips == e.stats.killTrips + 1
      && forall q: Request {:trigger Check(e', q)} :: q.locate < LOCATES ==> Check(e', q) == KillSwitch
  {
  }
}
