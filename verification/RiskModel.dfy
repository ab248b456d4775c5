/**
  The pre-trade risk engine on values: a pure check, and the updates that a send, a fill,
  a cancel or a reject makes.  The open orders are a plain map; class RiskEngine keeps
  them in a probed table and is proved to take the same steps.
 */
module RiskModel {
  import opened Common
  import RateLimiter

  type Token = seq<byte>

  const LOCATES: nat := 65536

  /** The signed reading of a 64-bit word. */
  function Signed(x: nat): int {
    if x < 0x8000_0000_0000_0000 then x else x - 0x1_0000_0000_0000_0000
  }

  datatype Reject =
    | Pass | MaxOrderSize | MaxOrderNotional | FatFingerPrice | PositionLimit | NotionalLimit | MaxOpenOrders
    | MessageRate | SymbolNotEnabled | SymbolHalted | KillSwitch | SelfCross | DuplicateToken | StaleMarketData

  datatype Limits = Limits(
    maxOrderShares: nat, maxOrderNotional: nat, fatFingerBps: nat, maxPosition: int, maxSymbolNotional: nat,
    maxOpenOrders: nat, maxMessages: nat, maxAgeNs: nat)

  /** Division by two that truncates toward zero. */
  function Half(x: int): int {
    if x < 0 then -(-x / 2) else x / 2
  }

  datatype TopOfBook = TopOfBook(bidPrice: int, bidQty: nat, askPrice: int, askQty: nat) {
    predicate TwoSided() {
      bidQty > 0 && askQty > 0
    }

    /** The size weighted midpoint. */
    function MicroPrice(): int {
      if !TwoSided() then 0
      else
        var total := U64(bidQty + askQty);
        if total == 0 then Half(bidPrice + askPrice)
        else Signed(U64(U64(bidPrice) * askQty + U64(askPrice) * bidQty) / total)
    }
  }

  datatype Request = Request(
    locate: nat, token: Token, isBuy: bool, shares: nat, price: int, book: TopOfBook, bookTs: nat, now: nat)

  datatype Symbol = Symbol(
    position: int, buyShares: int, sellShares: int, buyOrders: nat, sellOrders: nat,
    bestBuy: int, bestSell: int, enabled: bool, halted: bool)

  /** The price is what only the specification remembers; no branch reads it. */
  datatype OpenOrder = OpenOrder(leaves: nat, locate: nat, isBuy: bool, price: int)

  datatype Stats = Stats(
    sent: nat, fills: nat, cancels: nat, rejects: nat, peak: nat, unknownToken: nat, overfills: nat,
    insertFailed: nat, drift: nat, filledNotional: nat, killTrips: nat)

  datatype Engine = Engine(
    limits: Limits, symbols: seq<Symbol>, open: map<Token, OpenOrder>, openCount: nat, tripped: bool,
    rate: RateLimiter.Ring, stats: Stats)
  {
    predicate Ok() {
      |symbols| == LOCATES && rate.Ok()
    }
  }

  const BLANK_SYMBOL := Symbol(0, 0, 0, 0, 0, 0, 0, false, false)
  const ZERO_STATS := Stats(0, 0, 0, 0, 0, 0, 0, 0, 0, 0, 0)

  function FreshEngine(limits: Limits): Engine {
    Engine(limits, seq(LOCATES, _ => BLANK_SYMBOL), map[], 0, false, RateLimiter.EMPTY_RING, ZERO_STATS)
  }

  function Larger(a: int, b: int): int {
    if a > b then a else b
  }

  function Abs(a: int): int {
    if a < 0 then -a else a
  }

  // ----- the check -----------------------------------------------------------------------

  /** The shape of this one order. */
  function CheckOrder(l: Limits, r: Request): Reject {
    if r.shares == 0 || r.shares > l.maxOrderShares then MaxOrderSize
    else if r.price <= 0 then FatFingerPrice
    else if U64(r.shares * r.price) > l.maxOrderNotional then MaxOrderNotional
    else Pass
  }

  function CheckMarket(l: Limits, r: Request): Reject {
    if r.bookTs == 0 || r.now < r.bookTs || r.now - r.bookTs > l.maxAgeNs then StaleMarketData
    else if !r.book.TwoSided() then FatFingerPrice
    else
      var ref := r.book.MicroPrice();
      if ref <= 0 || U64(Abs(r.price - ref) * 10000) > U64(ref * l.fatFingerBps) then FatFingerPrice else Pass
  }

  function WorstLong(s: Symbol, r: Request): int {
    s.position + s.buyShares + if r.isBuy then r.shares else 0
  }

  function WorstShort(s: Symbol, r: Request): int {
    s.position - s.sellShares - if r.isBuy then 0 else r.shares
  }

  function CheckExposure(l: Limits, s: Symbol, r: Request): Reject {
    if WorstLong(s, r) > l.maxPosition || WorstShort(s, r) < -l.maxPosition then PositionLimit
    else if U64(Larger(Abs(WorstLong(s, r)), Abs(WorstShort(s, r))) * r.price) > l.maxSymbolNotional then NotionalLimit
    else if r.isBuy && s.sellOrders > 0 && r.price >= s.bestSell then SelfCross
    else if !r.isBuy && s.buyOrders > 0 && r.price <= s.bestBuy then SelfCross
    else Pass
  }

  function CheckEngine(e: Engine, r: Request): Reject
    requires e.Ok()
  {
    if e.openCount >= e.limits.maxOpenOrders then MaxOpenOrders
    else if RateLimiter.CountAt(e.rate, r.now) >= e.limits.maxMessages then MessageRate
    else if r.token in e.open then DuplicateToken
    else Pass
  }

  /** The first reason the order fails, or Pass. */
  function Check(e: Engine, r: Request): Reject
    requires e.Ok() && r.locate < LOCATES
  {
    var s := e.symbols[r.locate];
    if e.tripped then KillSwitch
    else if !s.enabled then SymbolNotEnabled
    else if s.halted then SymbolHalted
    else if CheckOrder(e.limits, r) != Pass then CheckOrder(e.limits, r)
    else if CheckMarket(e.limits, r) != Pass then CheckMarket(e.limits, r)
    else if CheckExposure(e.limits, s, r) != Pass then CheckExposure(e.limits, s, r)
    else CheckEngine(e, r)
  }

  // ----- the updates ------------------------------------------------------------------------

  function AddWorking(s: Symbol, isBuy: bool, shares: nat, price: int): Symbol {
    if isBuy then
      s.(buyShares := s.buyShares + shares, buyOrders := s.buyOrders + 1,
         bestBuy := if s.buyOrders == 0 || price > s.bestBuy then price else s.bestBuy)
    else
      s.(sellShares := s.sellShares + shares, sellOrders := s.sellOrders + 1,
         bestSell := if s.sellOrders == 0 || price < s.bestSell then price else s.bestSell)
  }

  function CutWorking(s: Symbol, isBuy: bool, n: nat): Symbol {
    if isBuy then s.(buyShares := s.buyShares - n) else s.(sellShares := s.sellShares - n)
  }

  function MovePosition(s: Symbol, isBuy: bool, n: nat): Symbol {
    s.(position := if isBuy then s.position + n else s.position - n)
  }

  /** One order fewer on a side; a side that empties is reset. */
  function DropWorking(s: Symbol, isBuy: bool): Symbol {
    if isBuy then
      var n := if s.buyOrders > 0 then s.buyOrders - 1 else 0;
      if n == 0 then s.(buyOrders := 0, bestBuy := 0, buyShares := 0) else s.(buyOrders := n)
    else
      var n := if s.sellOrders > 0 then s.sellOrders - 1 else 0;
      if n == 0 then s.(sellOrders := 0, bestSell := 0, sellShares := 0) else s.(sellOrders := n)
  }

  /** Whether the share count disagrees when a side empties. */
  function Drift(s: Symbol, isBuy: bool): nat {
    if isBuy then if s.buyOrders <= 1 && s.buyShares != 0 then 1 else 0
    else if s.sellOrders <= 1 && s.sellShares != 0 then 1 else 0
  }

  function Trip(e: Engine): Engine {
    e.(tripped := true, stats := e.stats.(killTrips := e.stats.killTrips + 1))
  }

  /** An order that was sent and cannot be tracked stops everything. */
  function Refuse(e: Engine): Engine {
    Trip(e.(stats := e.stats.(insertFailed := e.stats.insertFailed + 1)))
  }

  /** The table refuses a token that is already working. */
  function OnOrderSent(e: Engine, r: Request): Engine
    requires e.Ok() && r.locate < LOCATES
  {
    if r.token in e.open then Refuse(e)
    else
      e.(symbols := e.symbols[r.locate := AddWorking(e.symbols[r.locate], r.isBuy, r.shares, r.price)],
         open := e.open[r.token := OpenOrder(r.shares, r.locate, r.isBuy, r.price)],
         openCount := e.openCount + 1,
         rate := RateLimiter.Recorded(e.rate, r.now),
         stats := e.stats.(sent := e.stats.sent + 1,
                           peak := if e.openCount + 1 > e.stats.peak then e.openCount + 1 else e.stats.peak))
  }

  function Retire(e: Engine, token: Token): Engine
    requires e.Ok() && token in e.open && e.open[token].locate < LOCATES
  {
    var o := e.open[token];
    var s := e.symbols[o.locate];
    e.(symbols := e.symbols[o.locate := DropWorking(s, o.isBuy)],
       open := e.open - {token},
       openCount := if e.openCount > 0 then e.openCount - 1 else 0,
       stats := e.stats.(drift := e.stats.drift + Drift(s, o.isBuy)))
  }

  /** Take n shares off a working order and off its symbol; a fill also moves the position. */
  function Reduce(e: Engine, token: Token, n: nat, filled: bool): Engine
    requires e.Ok() && token in e.open && e.open[token].locate < LOCATES && n <= e.open[token].leaves
  {
    var o := e.open[token];
    var s := CutWorking(e.symbols[o.locate], o.isBuy, n);
    e.(symbols := e.symbols[o.locate := if filled then MovePosition(s, o.isBuy, n) else s],
       open := e.open[token := o.(leaves := o.leaves - n)])
  }

  function ReduceAndRetire(e: Engine, token: Token, n: nat, filled: bool): Engine
    requires e.Ok() && token in e.open && e.open[token].locate < LOCATES && n <= e.open[token].leaves
  {
    var e' := Reduce(e, token, n, filled);
    if e'.open[token].leaves == 0 then Retire(e', token) else e'
  }

  function UnknownToken(e: Engine): Engine {
    e.(stats := e.stats.(unknownToken := e.stats.unknownToken + 1))
  }

  function Clip(shares: nat, leaves: nat): nat {
    if shares > leaves then leaves else shares
  }

  predicate Indexed(e: Engine) {
    forall k {:trigger e.open[k]} :: k in e.open ==> e.open[k].locate < LOCATES
  }

  function FillStats(stats: Stats, shares: nat, leaves: nat, price: int): Stats {
    stats.(overfills := stats.overfills + (if shares > leaves then 1 else 0),
           filledNotional := U64(stats.filledNotional + Clip(shares, leaves) * (if price > 0 then price else 0)),
           fills := stats.fills + 1)
  }

  function OnFill(e: Engine, token: Token, shares: nat, price: int): Engine
    requires e.Ok() && Indexed(e)
  {
    if token !in e.open then UnknownToken(e)
    else
      var leaves := e.open[token].leaves;
      ReduceAndRetire(e.(stats := FillStats(e.stats, shares, leaves, price)), token, Clip(shares, leaves), true)
  }

  function CancelStats(stats: Stats, asked: nat, leaves: nat): Stats {
    stats.(overfills := stats.overfills + (if asked > leaves then 1 else 0), cancels := stats.cancels + 1)
  }

  /** Zero means the whole balance went. */
  function OnCancelAcked(e: Engine, token: Token, decrement: nat): Engine
    requires e.Ok() && Indexed(e)
  {
    if token !in e.open then UnknownToken(e)
    else
      var leaves := e.open[token].leaves;
      var asked := if decrement == 0 then leaves else decrement;
      ReduceAndRetire(e.(stats := CancelStats(e.stats, asked, leaves)), token, Clip(asked, leaves), false)
  }

  function OnReject(e: Engine, token: Token): Engine
    requires e.Ok() && Indexed(e)
  {
    if token !in e.open then UnknownToken(e)
    else ReduceAndRetire(e.(stats := e.stats.(rejects := e.stats.rejects + 1)), token, e.open[token].leaves, false)
  }

  // ----- runs ---------------------------------------------------------------------------------

  datatype Event =
    | Send(request: Request)  // check, and if it passes write the order to the wire
    | Fill(token: Token, shares: nat, price: int)
    | CancelAck(token: Token, decrement: nat)
    | RejectAck(token: Token)
    | Enable(locate: nat, on: bool)
    | Halt(locate: nat, on: bool)
    | TripSwitch
    | ResetSwitch

  predicate Wellformed(ev: Event) {
    (ev.Send? ==> ev.request.locate < LOCATES) && (ev.Enable? || ev.Halt? ==> ev.locate < LOCATES)
  }

  function Step(e: Engine, ev: Event): Engine
    requires e.Ok() && Indexed(e) && Wellformed(ev)
  {
    match ev
    case Send(r) => if Check(e, r) == Pass then OnOrderSent(e, r) else e
    case Fill(token, shares, price) => OnFill(e, token, shares, price)
    case CancelAck(token, decrement) => OnCancelAcked(e, token, decrement)
    case RejectAck(token) => OnReject(e, token)
    case Enable(l, on) => e.(symbols := e.symbols[l := e.symbols[l].(enabled := on)])
    case Halt(l, on) => e.(symbols := e.symbols[l := e.symbols[l].(halted := on)])
    case TripSwitch => Trip(e)
    case ResetSwitch => e.(tripped := false)
  }

  predicate AllWellformed(events: seq<Event>) {
    forall i :: 0 <= i < |events| ==> Wellformed(events[i])
  }

  lemma StepIndexed(e: Engine, ev: Event)
    requires e.Ok() && Indexed(e) && Wellformed(ev)
    ensures Step(e, ev).Ok() && Indexed(Step(e, ev)) && Step(e, ev).limits == e.limits
  {
  }

  function Run(e: Engine, events: seq<Event>): (e': Engine)
    requires e.Ok() && Indexed(e) && AllWellformed(events)
    ensures e'.Ok() && Indexed(e')
    decreases |events|
  {
    if events == [] then e
    else
      StepIndexed(e, events[0]);
      Run(Step(e, events[0]), events[1..])
  }

  function SendTime(e: Engine, ev: Event): seq<nat>
    requires e.Ok() && Indexed(e) && Wellformed(ev)
  {
    if ev.Send? && Check(e, ev.request) == Pass then [ev.request.now] else []
  }

  /** When each order of a run went out. */
  function SendTimes(e: Engine, events: seq<Event>): seq<nat>
    requires e.Ok() && Indexed(e) && AllWellformed(events)
    decreases |events|
  {
    if events == [] then []
    else
      StepIndexed(e, events[0]);
      SendTime(e, events[0]) + SendTimes(Step(e, events[0]), events[1..])
  }
}
