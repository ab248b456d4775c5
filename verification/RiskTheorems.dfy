/**
  What every run of the risk engine keeps, whatever the order of sends, fills, partial
  cancels and rejects: exact bookkeeping, the position limit, and no self-cross.
 */
module RiskTheorems {
  import opened Common
  import opened Totals
  import opened RiskModel
  import RateLimiter

  // ----- the invariant -----------------------------------------------------------------

  predicate On(o: OpenOrder, l: nat, isBuy: bool) {
    o.locate == l && o.isBuy == isBuy
  }

  /** An order's part in the working shares of one side of one symbol. */
  function SharesOn(l: nat, isBuy: bool): OpenOrder -> int {
    (o: OpenOrder) => if On(o, l, isBuy) then o.leaves else 0
  }

  function OrdersOn(l: nat, isBuy: bool): OpenOrder -> int {
    (o: OpenOrder) => if On(o, l, isBuy) then 1 else 0
  }

  function SideShares(s: Symbol, isBuy: bool): int {
    if isBuy then s.buyShares else s.sellShares
  }

  function SideOrders(s: Symbol, isBuy: bool): nat {
    if isBuy then s.buyOrders else s.sellOrders
  }

  /** One side of one symbol counts exactly the open orders on it. */
  ghost predicate Tallied(s: Symbol, open: map<Token, OpenOrder>, l: nat, isBuy: bool) {
    && SideShares(s, isBuy) == Total(open, SharesOn(l, isBuy))
    && SideOrders(s, isBuy) == Total(open, OrdersOn(l, isBuy))
  }

  ghost predicate AllTallied(symbols: seq<Symbol>, open: map<Token, OpenOrder>) {
    forall l: nat, isBuy: bool {:trigger Tallied(symbols[l], open, l, isBuy)} ::
      l < |symbols| ==> Tallied(symbols[l], open, l, isBuy)
  }

  /** The stored extremes are at least as aggressive as every working order. */
  ghost predicate Bounded(symbols: seq<Symbol>, open: map<Token, OpenOrder>) {
    forall k {:trigger open[k]} :: k in open ==>
      && open[k].locate < |symbols|
      && (open[k].isBuy ==> open[k].price <= symbols[open[k].locate].bestBuy)
      && (!open[k].isBuy ==> symbols[open[k].locate].bestSell <= open[k].price)
  }

  /** No working buy is priced at or above a working sell of the same symbol. */
  ghost predicate NoCross(open: map<Token, OpenOrder>) {
    forall j, k {:trigger open[j], open[k]} ::
      j in open && k in open && open[j].isBuy && !open[k].isBuy && open[j].locate == open[k].locate ==>
      open[j].price < open[k].price
  }

  ghost predicate LiveBut(open: map<Token, OpenOrder>, token: Option<Token>) {
    forall k {:trigger open[k]} :: k in open && token != Some(k) ==> open[k].leaves > 0
  }

  /** If everything working filled, the position would still be within the limit. */
  ghost predicate WithinLimit(s: Symbol, limit: int) {
    s.position + s.buyShares <= limit && s.position - s.sellShares >= -limit
  }

  ghost predicate AllWithin(symbols: seq<Symbol>, limit: int) {
    forall l {:trigger symbols[l]} :: 0 <= l < |symbols| ==> WithinLimit(symbols[l], limit)
  }

  ghost predicate Clean(e: Engine) {
    && e.openCount == |e.open.Keys| <= e.limits.maxOpenOrders
    && e.stats.drift == 0 && e.stats.insertFailed == 0
  }

  /** Everything an update keeps; in the middle of one, `token` may have run out. */
  ghost predicate InvBut(e: Engine, token: Option<Token>) {
    && e.Ok() && AllTallied(e.symbols, e.open) && Bounded(e.symbols, e.open) && NoCross(e.open)
    && LiveBut(e.open, token) && AllWithin(e.symbols, e.limits.maxPosition) && Clean(e)
  }

  ghost predicate Inv(e: Engine) {
    InvBut(e, None)
  }

  // ----- sums ---------------------------------------------------------------------------

  /** The tallies after one order changes its leaves. */
  lemma TallyUpdate(s: Symbol, s': Symbol, open: map<Token, OpenOrder>, k: Token, n: nat, l: nat, isBuy: bool)
    requires k in open && n <= open[k].leaves && Tallied(s, open, l, isBuy)
    requires SideShares(s', isBuy) == SideShares(s, isBuy) - (if On(open[k], l, isBuy) then n else 0)
    requires SideOrders(s', isBuy) == SideOrders(s, isBuy)
    ensures Tallied(s', open[k := open[k].(leaves := open[k].leaves - n)], l, isBuy)
  {
    TotalUpdate(open, SharesOn(l, isBuy), k, open[k].(leaves := open[k].leaves - n));
    TotalUpdate(open, OrdersOn(l, isBuy), k, open[k].(leaves := open[k].leaves - n));
  }

  lemma TallyInsert(s: Symbol, s': Symbol, open: map<Token, OpenOrder>, k: Token, o: OpenOrder, l: nat, isBuy: bool)
    requires k !in open && Tallied(s, open, l, isBuy)
    requires SideShares(s', isBuy) == SideShares(s, isBuy) + (if On(o, l, isBuy) then o.leaves else 0)
    requires SideOrders(s', isBuy) == SideOrders(s, isBuy) + (if On(o, l, isBuy) then 1 else 0)
    ensures Tallied(s', open[k := o], l, isBuy)
  {
    TotalInsert(open, SharesOn(l, isBuy), k, o);
    TotalInsert(open, OrdersOn(l, isBuy), k, o);
  }

  /** A side with no orders has no shares. */
  lemma EmptySide(open: map<Token, OpenOrder>, l: nat, isBuy: bool)
    requires Total(open, OrdersOn(l, isBuy)) == 0
    ensures Total(open, SharesOn(l, isBuy)) == 0
    ensures forall k {:trigger open[k]} :: k in open ==> !On(open[k], l, isBuy)
  {
    TotalAtLeast(open, OrdersOn(l, isBuy));
    forall k | k in open ensures !On(open[k], l, isBuy) {
      assert OrdersOn(l, isBuy)(open[k]) <= 0;
    }
    TotalZero(open, SharesOn(l, isBuy));
  }

  /** A side with an order on it counts at least one. */
  lemma BusySide(s: Symbol, open: map<Token, OpenOrder>, k: Token, l: nat, isBuy: bool)
    requires Tallied(s, open, l, isBuy) && k in open && On(open[k], l, isBuy)
    ensures SideOrders(s, isBuy) >= 1
  {
    TotalAtLeast(open, OrdersOn(l, isBuy));
    assert OrdersOn(l, isBuy)(open[k]) == 1;
  }

  /** The tallies after an exhausted order leaves the table. */
  lemma TallyRetire(s: Symbol, s': Symbol, open: map<Token, OpenOrder>, k: Token, l: nat, isBuy: bool)
    requires k in open && open[k].leaves == 0 && Tallied(s, open, l, isBuy)
    requires s' == if open[k].locate == l then DropWorking(s, open[k].isBuy) else s
    ensures Tallied(s', open - {k}, l, isBuy)
    ensures On(open[k], l, isBuy) ==> Drift(s, isBuy) == 0
    ensures On(open[k], l, isBuy) && SideOrders(s, isBuy) == 1 ==>
      forall j {:trigger open[j]} :: j in open && j != k ==> !On(open[j], l, isBuy)
  {
    TotalRemove(open, SharesOn(l, isBuy), k);
    TotalRemove(open, OrdersOn(l, isBuy), k);
    if On(open[k], l, isBuy) {
      BusySide(s, open, k, l, isBuy);
      if SideOrders(s, isBuy) == 1 {
        var rest := open - {k};
        EmptySide(rest, l, isBuy);
        forall j | j in open && j != k ensures !On(open[j], l, isBuy) {
          assert rest[j] == open[j];
        }
      }
    }
  }

  // ----- each update keeps it -----------------------------------------------------------

  lemma ReduceTallied(e: Engine, token: Token, n: nat, filled: bool)
    requires e.Ok() && token in e.open && e.open[token].locate < LOCATES && n <= e.open[token].leaves
    requires AllTallied(e.symbols, e.open)
    ensures var e' := Reduce(e, token, n, filled); AllTallied(e'.symbols, e'.open)
  {
    var e' := Reduce(e, token, n, filled);
    forall l: nat, isBuy: bool | l < |e.symbols| ensures Tallied(e'.symbols[l], e'.open, l, isBuy) {
      assert Tallied(e.symbols[l], e.open, l, isBuy);
      TallyUpdate(e.symbols[l], e'.symbols[l], e.open, token, n, l, isBuy);
    }
  }

  /** Taking shares off a working order keeps everything but that order being live. */
  lemma ReduceKeeps(e: Engine, token: Token, n: nat, filled: bool)
    requires Inv(e) && token in e.open && e.open[token].locate < LOCATES && n <= e.open[token].leaves
    ensures InvBut(Reduce(e, token, n, filled), Some(token))
  {
    var e' := Reduce(e, token, n, filled);
    ReduceTallied(e, token, n, filled);
    assert e'.open.Keys == e.open.Keys;
    forall k | k in e'.open
      ensures e.open[k].(leaves := e'.open[k].leaves) == e'.open[k]
    {
    }
  }

  /** What a symbol could be long and short if everything working filled. */
  function WorstCase(s: Symbol): (int, int) {
    (s.position + s.buyShares, s.position - s.sellShares)
  }

  /** A fill is risk becoming certain: the worst case on the order's own side does not move,
      the one on the other side recedes by what filled, and no other symbol is touched. */
  lemma FillKeepsWorstCase(e: Engine, token: Token, n: nat, l: nat)
    requires e.Ok() && l < LOCATES && token in e.open && e.open[token].locate < LOCATES && n <= e.open[token].leaves
    ensures var o, w, w' := e.open[token], WorstCase(e.symbols[l]), WorstCase(Reduce(e, token, n, true).symbols[l]);
      if l != o.locate then w' == w
      else if o.isBuy then w'.0 == w.0 && w'.1 == w.1 + n
      else w'.0 == w.0 - n && w'.1 == w.1
  {
  }

  lemma RetireTallied(e: Engine, token: Token)
    requires e.Ok() && token in e.open && e.open[token].locate < LOCATES && e.open[token].leaves == 0
    requires AllTallied(e.symbols, e.open)
    ensures var e' := Retire(e, token); AllTallied(e'.symbols, e'.open)
  {
    var e' := Retire(e, token);
    forall l: nat, isBuy: bool | l < |e.symbols| ensures Tallied(e'.symbols[l], e'.open, l, isBuy) {
      assert Tallied(e.symbols[l], e.open, l, isBuy);
      TallyRetire(e.symbols[l], e'.symbols[l], e.open, token, l, isBuy);
    }
  }

  lemma RetireBounded(e: Engine, token: Token)
    requires InvBut(e, Some(token)) && token in e.open && e.open[token].leaves == 0
    ensures var e' := Retire(e, token); Bounded(e'.symbols, e'.open) && e'.stats.drift == 0
  {
    var e' := Retire(e, token);
    var o := e.open[token];
    var s := e.symbols[o.locate];
    assert Tallied(s, e.open, o.locate, o.isBuy);
    TallyRetire(s, DropWorking(s, o.isBuy), e.open, token, o.locate, o.isBuy);
    BusySide(s, e.open, token, o.locate, o.isBuy);
    forall k | k in e'.open
      ensures e'.open[k].locate < |e'.symbols|
      ensures e'.open[k].isBuy ==> e'.open[k].price <= e'.symbols[e'.open[k].locate].bestBuy
      ensures !e'.open[k].isBuy ==> e'.symbols[e'.open[k].locate].bestSell <= e'.open[k].price
    {
      assert e'.open[k] == e.open[k];
      assert SideOrders(s, o.isBuy) == 1 ==> !On(e.open[k], o.locate, o.isBuy);
    }
  }

  lemma RetireRest(open: map<Token, OpenOrder>, token: Token)
    requires NoCross(open) && LiveBut(open, Some(token)) && token in open
    ensures NoCross(open - {token}) && LiveBut(open - {token}, None)
  {
    var rest := open - {token};
    forall k | k in rest ensures rest[k] == open[k] {
    }
  }

  lemma RetireKeeps(e: Engine, token: Token)
    requires InvBut(e, Some(token)) && token in e.open && e.open[token].leaves == 0
    ensures Inv(Retire(e, token))
  {
    var e' := Retire(e, token);
    RetireTallied(e, token);
    RetireBounded(e, token);
    assert e'.open.Keys == e.open.Keys - {token};
    RetireWithin(e, token);
    RetireRest(e.open, token);
  }

  lemma RetireWithin(e: Engine, token: Token)
    requires InvBut(e, Some(token)) && token in e.open && e.open[token].leaves == 0
    ensures AllWithin(Retire(e, token).symbols, e.limits.maxPosition)
  {
    var o := e.open[token];
    var s := e.symbols[o.locate];
    assert Tallied(s, e.open, o.locate, o.isBuy);
    TallyRetire(s, DropWorking(s, o.isBuy), e.open, token, o.locate, o.isBuy);
    BusySide(s, e.open, token, o.locate, o.isBuy);
  }

  lemma ReduceAndRetireKeeps(e: Engine, stats: Stats, token: Token, n: nat, filled: bool)
    requires Inv(e) && stats.drift == 0 && stats.insertFailed == 0 && token in e.open && n <= e.open[token].leaves
    ensures Inv(ReduceAndRetire(e.(stats := stats), token, n, filled))
  {
    StatsAside(e, stats);
    ReduceKeeps(e.(stats := stats), token, n, filled);
    var e' := Reduce(e.(stats := stats), token, n, filled);
    if e'.open[token].leaves == 0 {
      RetireKeeps(e', token);
    }
  }

  lemma SentTallied(e: Engine, r: Request)
    requires e.Ok() && r.locate < LOCATES && r.token !in e.open && AllTallied(e.symbols, e.open)
    ensures var e' := OnOrderSent(e, r); AllTallied(e'.symbols, e'.open)
  {
    var e' := OnOrderSent(e, r);
    forall l: nat, isBuy: bool | l < |e.symbols| ensures Tallied(e'.symbols[l], e'.open, l, isBuy) {
      assert Tallied(e.symbols[l], e.open, l, isBuy);
      TallyInsert(e.symbols[l], e'.symbols[l], e.open, r.token, e'.open[r.token], l, isBuy);
    }
  }

  /** What a passed check tells about the order. */
  ghost predicate MaySend(e: Engine, r: Request)
    requires e.Ok() && r.locate < LOCATES
  {
    var s := e.symbols[r.locate];
    && r.token !in e.open && e.openCount < e.limits.maxOpenOrders && r.shares > 0
    && WorstLong(s, r) <= e.limits.maxPosition && WorstShort(s, r) >= -e.limits.maxPosition
    && (r.isBuy && s.sellOrders > 0 ==> r.price < s.bestSell)
    && (!r.isBuy && s.buyOrders > 0 ==> r.price > s.bestBuy)
  }

  lemma PassMeansMaySend(e: Engine, r: Request)
    requires e.Ok() && r.locate < LOCATES && Check(e, r) == Pass
    ensures MaySend(e, r)
  {
  }

  /** Whoever is working on the other side is priced beyond an order that passed. */
  lemma PassedDoesNotCross(e: Engine, r: Request, k: Token)
    requires Inv(e) && r.locate < LOCATES && MaySend(e, r)
    requires k in e.open && On(e.open[k], r.locate, !r.isBuy)
    ensures if r.isBuy then r.price < e.open[k].price else e.open[k].price < r.price
  {
    assert Tallied(e.symbols[r.locate], e.open, r.locate, !r.isBuy);
    BusySide(e.symbols[r.locate], e.open, k, r.locate, !r.isBuy);
  }

  lemma SentNoCross(e: Engine, r: Request)
    requires Inv(e) && r.locate < LOCATES && MaySend(e, r)
    ensures var e' := OnOrderSent(e, r); NoCross(e'.open)
  {
    var open' := OnOrderSent(e, r).open;
    forall j, k | j in open' && k in open' && open'[j].isBuy && !open'[k].isBuy && open'[j].locate == open'[k].locate
      ensures open'[j].price < open'[k].price
    {
      if j == r.token {
        PassedDoesNotCross(e, r, k);
      } else if k == r.token {
        PassedDoesNotCross(e, r, j);
      } else {
        assert open'[j] == e.open[j] && open'[k] == e.open[k];
      }
    }
  }

  lemma SentBounded(e: Engine, r: Request)
    requires Inv(e) && r.locate < LOCATES && r.token !in e.open
    ensures var e' := OnOrderSent(e, r); Bounded(e'.symbols, e'.open)
  {
    var e' := OnOrderSent(e, r);
    forall k | k in e'.open
      ensures e'.open[k].locate < |e'.symbols|
      ensures e'.open[k].isBuy ==> e'.open[k].price <= e'.symbols[e'.open[k].locate].bestBuy
      ensures !e'.open[k].isBuy ==> e'.symbols[e'.open[k].locate].bestSell <= e'.open[k].price
    {
      if k != r.token {
        var o := e.open[k];
        assert e'.open[k] == o && Tallied(e.symbols[o.locate], e.open, o.locate, o.isBuy);
        BusySide(e.symbols[o.locate], e.open, k, o.locate, o.isBuy);
      }
    }
  }

  lemma SentKeeps(e: Engine, r: Request)
    requires Inv(e) && r.locate < LOCATES && MaySend(e, r)
    ensures Inv(OnOrderSent(e, r))
  {
    var e' := OnOrderSent(e, r);
    SentTallied(e, r);
    SentNoCross(e, r);
    SentBounded(e, r);
    SentWithin(e, r);
    assert e'.open.Keys == e.open.Keys + {r.token};
  }

  /** A passed order leaves room for everything working to fill. */
  lemma SentWithin(e: Engine, r: Request)
    requires Inv(e) && r.locate < LOCATES && MaySend(e, r)
    ensures var e' := OnOrderSent(e, r); AllWithin(e'.symbols, e.limits.maxPosition) && LiveBut(e'.open, None)
  {
    assert WithinLimit(e.symbols[r.locate], e.limits.maxPosition);
    var open' := OnOrderSent(e, r).open;
    forall k | k in open' && k != r.token ensures open'[k] == e.open[k] {
    }
  }

  lemma SwitchKeeps(e: Engine, l: nat, s: Symbol)
    requires Inv(e) && l < LOCATES && s == e.symbols[l].(enabled := s.enabled, halted := s.halted)
    ensures Inv(e.(symbols := e.symbols[l := s]))
  {
    var symbols' := e.symbols[l := s];
    forall i: nat, isBuy: bool | i < |e.symbols| ensures Tallied(symbols'[i], e.open, i, isBuy) {
      assert Tallied(e.symbols[i], e.open, i, isBuy);
    }
  }

  lemma StatsAside(e: Engine, stats: Stats)
    requires Inv(e) && stats.drift == 0 && stats.insertFailed == 0
    ensures Inv(e.(stats := stats))
  {
  }

  lemma FillKeeps(e: Engine, token: Token, shares: nat, price: int)
    requires Inv(e) && Indexed(e)
    ensures Inv(OnFill(e, token, shares, price))
  {
    if token in e.open {
      var leaves := e.open[token].leaves;
      ReduceAndRetireKeeps(e, FillStats(e.stats, shares, leaves, price), token, Clip(shares, leaves), true);
    }
  }

  lemma CancelKeeps(e: Engine, token: Token, decrement: nat)
    requires Inv(e) && Indexed(e)
    ensures Inv(OnCancelAcked(e, token, decrement))
  {
    if token in e.open {
      var leaves := e.open[token].leaves;
      var asked := if decrement == 0 then leaves else decrement;
      ReduceAndRetireKeeps(e, CancelStats(e.stats, asked, leaves), token, Clip(asked, leaves), false);
    }
  }

  lemma RejectKeeps(e: Engine, token: Token)
    requires Inv(e) && Indexed(e)
    ensures Inv(OnReject(e, token))
  {
    if token in e.open {
      ReduceAndRetireKeeps(e, e.stats.(rejects := e.stats.rejects + 1), token, e.open[token].leaves, false);
    }
  }

  lemma StepKeeps(e: Engine, ev: Event)
    requires Inv(e) && Indexed(e) && Wellformed(ev)
    ensures Inv(Step(e, ev))
  {
    match ev
    case Send(r) => if Check(e, r) == Pass { PassMeansMaySend(e, r); SentKeeps(e, r); }
    case Fill(token, shares, price) => FillKeeps(e, token, shares, price);
    case CancelAck(token, decrement) => CancelKeeps(e, token, decrement);
    case RejectAck(token) => RejectKeeps(e, token);
    case Enable(l, on) => SwitchKeeps(e, l, e.symbols[l].(enabled := on));
    case Halt(l, on) => SwitchKeeps(e, l, e.symbols[l].(halted := on));
    case _ =>
  }

  // ----- whole runs ---------------------------------------------------------------------------

  /** An engine whose positions start within the limit, with nothing working. */
  ghost predicate Starts(e: Engine) {
    && e.Ok() && e.open == map[] && e.openCount == 0 && e.stats.drift == 0 && e.stats.insertFailed == 0
    && forall l {:trigger e.symbols[l]} :: 0 <= l < |e.symbols| ==>
         var s := e.symbols[l];
         s.buyShares == s.sellShares == s.buyOrders == s.sellOrders == 0 && WithinLimit(s, e.limits.maxPosition)
  }

  lemma StartInv(e: Engine)
    requires Starts(e)
    ensures Inv(e)
  {
    forall l: nat, isBuy: bool | l < |e.symbols| ensures Tallied(e.symbols[l], e.open, l, isBuy) {
      assert e.symbols[l].buyShares == 0;
    }
  }

  lemma {:induction false} RunKeeps(e: Engine, events: seq<Event>)
    requires Inv(e) && Indexed(e) && AllWellformed(events)
    ensures Inv(Run(e, events)) && Run(e, events).limits == e.limits
    decreases |events|
  {
    if events != [] {
      StepIndexed(e, events[0]);
      StepKeeps(e, events[0]);
      RunKeeps(Step(e, events[0]), events[1..]);
    }
  }

  /** No order of sends, fills, partial cancels and rejects breaches the position limit,
      not even if everything still working were to fill. */
  lemma PositionLimitHolds(e: Engine, events: seq<Event>, l: nat)
    requires Starts(e) && AllWellformed(events) && l < LOCATES
    ensures var s := Run(e, events).symbols[l];
      && s.position + s.buyShares <= e.limits.maxPosition && s.position - s.sellShares >= -e.limits.maxPosition
      && -e.limits.maxPosition <= s.position <= e.limits.maxPosition
  {
    StartInv(e);
    RunKeeps(e, events);
    var e' := Run(e, events);
    assert WithinLimit(e'.symbols[l], e'.limits.maxPosition);
    assert Tallied(e'.symbols[l], e'.open, l, true) && Tallied(e'.symbols[l], e'.open, l, false);
    TotalAtLeast(e'.open, SharesOn(l, true));
    TotalAtLeast(e'.open, SharesOn(l, false));
  }

  /** The tallies are exactly the sums over the open orders, and no fault counter moves. */
  lemma BookkeepingExact(e: Engine, events: seq<Event>, l: nat, isBuy: bool)
    requires Starts(e) && AllWellformed(events) && l < LOCATES
    ensures var e' := Run(e, events);
      && SideShares(e'.symbols[l], isBuy) == Total(e'.open, SharesOn(l, isBuy))
      && SideOrders(e'.symbols[l], isBuy) == Total(e'.open, OrdersOn(l, isBuy))
      && e'.openCount == |e'.open.Keys| <= e.limits.maxOpenOrders
      && e'.stats.drift == 0 && e'.stats.insertFailed == 0
  {
    StartInv(e);
    RunKeeps(e, events);
    var e' := Run(e, events);
    assert Tallied(e'.symbols[l], e'.open, l, isBuy);
  }

  lemma NoSelfCross(e: Engine, events: seq<Event>, buy: Token, sell: Token)
    requires Starts(e) && AllWellformed(events)
    requires var open := Run(e, events).open;
      buy in open && sell in open && open[buy].isBuy && !open[sell].isBuy && open[buy].locate == open[sell].locate
    ensures Run(e, events).open[buy].price < Run(e, events).open[sell].price
  {
    StartInv(e);
    RunKeeps(e, events);
  }

  // ----- the message rate -----------------------------------------------------------------------

  /** The clock the requests carry does not go back. */
  ghost predicate Clocked(events: seq<Event>, from: nat)
    decreases |events|
  {
    events == [] ||
    if events[0].Send? then from <= events[0].request.now && Clocked(events[1..], events[0].request.now)
    else Clocked(events[1..], from)
  }

  ghost predicate Metered(e: Engine, log: seq<nat>, from: nat) {
    && e.Ok() && RateLimiter.Holds(e.rate, log) && RateLimiter.Gated(log, e.limits.maxMessages)
    && RateLimiter.Ordered(log) && forall i {:trigger log[i]} :: 0 <= i < |log| ==> log[i] <= from
  }

  lemma PassIsUnderTheRate(e: Engine, r: Request)
    requires e.Ok() && r.locate < LOCATES && Check(e, r) == Pass
    ensures r.token !in e.open && RateLimiter.CountAt(e.rate, r.now) < e.limits.maxMessages
  {
  }

  lemma SentRecords(e: Engine, r: Request)
    requires e.Ok() && r.locate < LOCATES && r.token !in e.open
    ensures var e' := OnOrderSent(e, r);
      e'.Ok() && e'.rate == RateLimiter.Recorded(e.rate, r.now) && e'.limits == e.limits
  {
  }

  lemma SendMetered(e: Engine, r: Request, log: seq<nat>, from: nat)
    requires Metered(e, log, from) && r.locate < LOCATES && from <= r.now && Check(e, r) == Pass
    ensures OnOrderSent(e, r).Ok() && Metered(OnOrderSent(e, r), log + [r.now], r.now)
  {
    PassIsUnderTheRate(e, r);
    SentRecords(e, r);
    RateLimiter.OrderedAppend(log, r.now);
    RateLimiter.GatedSend(e.rate, log, r.now, e.limits.maxMessages);
  }

  lemma StepRate(e: Engine, ev: Event)
    requires e.Ok() && Indexed(e) && Wellformed(ev) && SendTime(e, ev) == []
    ensures Step(e, ev).Ok() && Step(e, ev).rate == e.rate && Step(e, ev).limits == e.limits
  {
  }

  /** The clock after an event. */
  function Later(ev: Event, from: nat): nat {
    if ev.Send? then ev.request.now else from
  }

  lemma StepMetered(e: Engine, ev: Event, log: seq<nat>, from: nat)
    requires Metered(e, log, from) && Indexed(e) && Wellformed(ev) && from <= Later(ev, from)
    ensures Metered(Step(e, ev), log + SendTime(e, ev), Later(ev, from))
  {
    if SendTime(e, ev) == [] {
      StepRate(e, ev);
      assert log + SendTime(e, ev) == log;
    } else {
      SendMetered(e, ev.request, log, from);
    }
  }

  /** Whatever else happens, the times at which a run sends are let through by the limiter:
      each found fewer than the limit in the ten buckets that end with its own. */
  lemma {:induction false} SendsAreGated(e: Engine, events: seq<Event>, log: seq<nat>, from: nat)
    requires Metered(e, log, from) && Indexed(e) && AllWellformed(events) && Clocked(events, from)
    ensures RateLimiter.Gated(log + SendTimes(e, events), e.limits.maxMessages)
    decreases |events|
  {
    if events == [] {
      assert log + [] == log;
    } else {
      StepIndexed(e, events[0]);
      StepMetered(e, events[0], log, from);
      var log' := log + SendTime(e, events[0]);
      SendsAreGated(Step(e, events[0]), events[1..], log', Later(events[0], from));
      SendTimesSplit(e, events, log);
    }
  }

  lemma SendTimesSplit(e: Engine, events: seq<Event>, log: seq<nat>)
    requires e.Ok() && Indexed(e) && AllWellformed(events) && events != []
    ensures Step(e, events[0]).Ok() && Indexed(Step(e, events[0])) && AllWellformed(events[1..])
    ensures log + SendTimes(e, events) == log + SendTime(e, events[0]) + SendTimes(Step(e, events[0]), events[1..])
  {
    StepIndexed(e, events[0]);
    var tail := SendTimes(Step(e, events[0]), events[1..]);
    assert log + (SendTime(e, events[0]) + tail) == log + SendTime(e, events[0]) + tail;
  }

  lemma FreshRing()
    ensures RateLimiter.Holds(RateLimiter.EMPTY_RING, [])
  {
    forall i: nat | i < RateLimiter.BUCKETS ensures RateLimiter.SlotOk(RateLimiter.EMPTY_RING, [], i) {
    }
  }

  /** In any run from a fresh limiter no ten consecutive buckets, hence no interval of
      900 ms, hold more sends than the limit. */
  lemma RateHolds(e: Engine, events: seq<Event>, lo: int, from: nat, span: nat)
    requires e.Ok() && Indexed(e) && e.rate == RateLimiter.EMPTY_RING
    requires AllWellformed(events) && Clocked(events, 0) && span <= 900_000_000
    ensures RateLimiter.Sent(SendTimes(e, events), lo, lo + 9) <= e.limits.maxMessages
    ensures RateLimiter.SentWithin(SendTimes(e, events), from, span) <= e.limits.maxMessages
  {
    FreshRing();
    SendsAreGated(e, events, [], 0);
    var log := SendTimes(e, events);
    assert [] + log == log;
    RateLimiter.TenBuckets(log, e.limits.maxMessages, lo);
    RateLimiter.ShortInterval(log, e.limits.maxMessages, from, span);
  }

  // ----- the kill switch --------------------------------------------------------------------------

  /** Until a human resets it, a tripped switch stays tripped and nothing is sent. */
  lemma {:induction false} TrippedSendsNothing(e: Engine, events: seq<Event>)
    requires e.Ok() && Indexed(e) && AllWellformed(events) && e.tripped
    requires forall i :: 0 <= i < |events| ==> !events[i].ResetSwitch?
    ensures Run(e, events).tripped && SendTimes(e, events) == []
    decreases |events|
  {
    if events != [] {
      StepIndexed(e, events[0]);
      TrippedStays(e, events[0]);
      TrippedSendsNothing(Step(e, events[0]), events[1..]);
    }
  }

  lemma TrippedStays(e: Engine, ev: Event)
    requires e.Ok() && Indexed(e) && Wellformed(ev) && e.tripped && !ev.ResetSwitch?
    ensures Step(e, ev).tripped && (ev.Send? ==> Check(e, ev.request) == KillSwitch)
  {
  }
}
