/**
  The book builder on values: a bounded pool of order records, the reference map, and the
  price levels, driven by decoded feed events.  Class BookBuilder keeps the reference map
  in the flat table and is proved to take the same steps.
 */
module BookModel {
  import opened Common
  import Probing

  type Slot = nat
  type Ref = nat

  const LOCATES: nat := 65536

  /** A resting order; its handle is the pool slot the raw pointer names. */
  datatype Order = Order(ref: Ref, isBuy: bool, price: nat, qty: nat, symbol: nat)

  datatype Key = Key(symbol: nat, isBuy: bool, price: nat)

  /** A FIFO of orders with a running total and count. */
  datatype Level = Level(queue: seq<Slot>, total: int, count: int)

  datatype Stats = Stats(
    messages: nat, adds: nat, addsMpid: nat, executes: nat, executesWithPrice: nat, cancels: nat, deletes: nat,
    replacements: nat, trades: nat, crossTrades: nat, others: nat,
    duplicateRefs: nat, orphanExecutes: nat, orphanCancels: nat, orphanDeletes: nat, orphanReplaces: nat,
    overfills: nat, poolExhausted: nat, unknownSide: nat, liveOrders: nat, peakLive: nat, lastTimestamp: nat)

  datatype SymbolTotals = SymbolTotals(executedShares: nat, executedNotional: nat, hiddenShares: nat, crossShares: nat, messages: nat)

  /** `next` is the handle the pool gives out next. */
  datatype Book = Book(
    capacity: nat, next: Slot, pool: map<Slot, Order>, refs: map<Ref, Slot>, levels: map<Key, Level>,
    totals: seq<SymbolTotals>, stats: Stats)
  {
    predicate Ok() {
      |totals| == LOCATES && forall r {:trigger refs[r]} :: r in refs ==> refs[r] in pool && pool[refs[r]].symbol < LOCATES
    }
  }

  const ZERO_STATS := Stats(0, 0, 0, 0, 0, 0, 0, 0, 0, 0, 0, 0, 0, 0, 0, 0, 0, 0, 0, 0, 0, 0)
  const ZERO_TOTALS := SymbolTotals(0, 0, 0, 0, 0)

  function EmptyBook(capacity: nat): Book {
    Book(capacity, 0, map[], map[], map[], seq(LOCATES, _ => ZERO_TOTALS), ZERO_STATS)
  }

  function KeyOf(o: Order): Key {
    Key(o.symbol, o.isBuy, o.price)
  }

  datatype Event =
    | Add(locate: nat, ts: nat, ref: Ref, side: char, shares: nat, price: nat, hasMpid: bool)
    | Execute(locate: nat, ts: nat, ref: Ref, shares: nat)
    | ExecutePrice(locate: nat, ts: nat, ref: Ref, shares: nat, printable: bool, price: nat)
    | Cancel(locate: nat, ts: nat, ref: Ref, shares: nat)
    | Delete(locate: nat, ts: nat, ref: Ref)
    | Replace(locate: nat, ts: nat, ref: Ref, newRef: Ref, shares: nat, price: nat)
    | Trade(locate: nat, ts: nat, shares: nat, price: nat)
    | CrossTrade(locate: nat, ts: nat, shares: nat, price: nat)
    | Other(locate: nat, ts: nat)

  // ----- levels ---------------------------------------------------------------------------

  function Join(levels: map<Key, Level>, key: Key, h: Slot, qty: nat): map<Key, Level> {
    var l := if key in levels then levels[key] else Level([], 0, 0);
    levels[key := Level(l.queue + [h], l.total + qty, l.count + 1)]
  }

  /** Unlink an order and drop the level when it empties. */
  function Leave(levels: map<Key, Level>, key: Key, h: Slot, qty: nat): map<Key, Level> {
    if key !in levels then levels
    else
      var l := levels[key];
      var rest := Level(Probing.Without(l.queue, h), l.total - qty, l.count - 1);
      if rest.queue == [] then levels - {key} else levels[key := rest]
  }

  function Shrink(levels: map<Key, Level>, key: Key, shares: nat): map<Key, Level> {
    if key !in levels then levels else levels[key := levels[key].(total := levels[key].total - shares)]
  }

  // ----- orders ------------------------------------------------------------------------------

  /** Everything a removed order leaves behind: its place in the queue, its level if it was the
      last there, its reference and its record. */
  function RemoveOrder(b: Book, ref: Ref): Book
    requires b.Ok()
  {
    if ref !in b.refs then b
    else
      var h := b.refs[ref];
      var o := b.pool[h];
      b.(levels := Leave(b.levels, KeyOf(o), h, o.qty), refs := b.refs - {ref}, pool := b.pool - {h},
         stats := b.stats.(liveOrders := if b.stats.liveOrders > 0 then b.stats.liveOrders - 1 else 0))
  }

  /** A resting order gives up shares, and goes when it has none. */
  function ReduceOrder(b: Book, ref: Ref, shares: nat): Book
    requires b.Ok() && ref in b.refs
  {
    var h := b.refs[ref];
    var o := b.pool[h];
    if shares >= o.qty then
      RemoveOrder(if shares > o.qty then b.(stats := b.stats.(overfills := b.stats.overfills + 1)) else b, ref)
    else
      b.(levels := Shrink(b.levels, KeyOf(o), shares), pool := b.pool[h := o.(qty := o.qty - shares)])
  }

  /** Allocate, append to the level, store the reference (zero is refused), count. */
  function PlaceOrder(b: Book, o: Order): Book {
    if |b.pool.Keys| >= b.capacity then b.(stats := b.stats.(poolExhausted := b.stats.poolExhausted + 1))
    else
      var live := b.stats.liveOrders + 1;
      b.(next := b.next + 1, pool := b.pool[b.next := o], levels := Join(b.levels, KeyOf(o), b.next, o.qty),
         refs := if o.ref == 0 then b.refs else b.refs[o.ref := b.next],
         stats := b.stats.(liveOrders := live, peakLive := if live > b.stats.peakLive then live else b.stats.peakLive))
  }

  // ----- handlers -----------------------------------------------------------------------------

  function Touch(b: Book, ts: nat): Book {
    b.(stats := b.stats.(lastTimestamp := ts, messages := b.stats.messages + 1))
  }

  function CountMessage(b: Book, locate: nat): Book
    requires locate < |b.totals|
  {
    b.(totals := b.totals[locate := b.totals[locate].(messages := b.totals[locate].messages + 1)])
  }

  function RecordVolume(b: Book, locate: nat, shares: nat, price: nat): Book
    requires locate < |b.totals|
  {
    var t := b.totals[locate];
    b.(totals := b.totals[locate := t.(executedShares := t.executedShares + shares,
                                       executedNotional := t.executedNotional + shares * price)])
  }

  /** A live reference is being reused: count it and drop the old order. */
  function MakeWay(b: Book, ref: Ref): Book
    requires b.Ok()
  {
    if ref in b.refs then RemoveOrder(b.(stats := b.stats.(duplicateRefs := b.stats.duplicateRefs + 1)), ref) else b
  }

  function OnAdd(b: Book, ref: Ref, side: char, shares: nat, price: nat, locate: nat): Book
    requires b.Ok()
  {
    if side != 'B' && side != 'S' then b.(stats := b.stats.(unknownSide := b.stats.unknownSide + 1))
    else
      PlaceOrder(MakeWay(b, ref), Order(ref, side == 'B', price, shares, locate))
  }

  function OnExecute(b: Book, ref: Ref, shares: nat, printed: Option<nat>, printable: bool): Book
    requires b.Ok()
  {
    if ref !in b.refs then b.(stats := b.stats.(orphanExecutes := b.stats.orphanExecutes + 1))
    else
      var o := b.pool[b.refs[ref]];
      var price := if printed.Some? then printed.value else o.price;
      ReduceOrder(if printable then RecordVolume(b, o.symbol, shares, price) else b, ref, shares)
  }

  function OnCancel(b: Book, ref: Ref, shares: nat): Book
    requires b.Ok()
  {
    if ref !in b.refs then b.(stats := b.stats.(orphanCancels := b.stats.orphanCancels + 1))
    else ReduceOrder(b, ref, shares)
  }

  function OnDelete(b: Book, ref: Ref): Book
    requires b.Ok()
  {
    if ref !in b.refs then b.(stats := b.stats.(orphanDeletes := b.stats.orphanDeletes + 1)) else RemoveOrder(b, ref)
  }

  /** Side and symbol come from the order being replaced. */
  function OnReplace(b: Book, ref: Ref, newRef: Ref, shares: nat, price: nat): Book
    requires b.Ok()
  {
    if ref !in b.refs then b.(stats := b.stats.(orphanReplaces := b.stats.orphanReplaces + 1))
    else
      var o := b.pool[b.refs[ref]];
      PlaceOrder(RemoveOrder(b, ref), Order(newRef, o.isBuy, price, shares, o.symbol))
  }

  function Counted(s: Stats, e: Event): Stats {
    match e
    case Add(_, _, _, _, _, _, mpid) => s.(adds := s.adds + 1, addsMpid := s.addsMpid + if mpid then 1 else 0)
    case Execute(_, _, _, _) => s.(executes := s.executes + 1)
    case ExecutePrice(_, _, _, _, _, _) => s.(executes := s.executes + 1, executesWithPrice := s.executesWithPrice + 1)
    case Cancel(_, _, _, _) => s.(cancels := s.cancels + 1)
    case Delete(_, _, _) => s.(deletes := s.deletes + 1)
    case Replace(_, _, _, _, _, _) => s.(replacements := s.replacements + 1)
    case Trade(_, _, _, _) => s.(trades := s.trades + 1)
    case CrossTrade(_, _, _, _) => s.(crossTrades := s.crossTrades + 1)
    case Other(_, _) => s.(others := s.others + 1)
  }

  /** What every handler does first: the timestamp and the counters. */
  function Prelude(b: Book, e: Event): Book
    requires e.locate < |b.totals|
  {
    var b1 := Touch(b, e.ts);
    var b2 := b1.(stats := Counted(b1.stats, e));
    if e.Other? then b2 else CountMessage(b2, e.locate)
  }

  function Hidden(b: Book, locate: nat, shares: nat): Book
    requires locate < |b.totals|
  {
    b.(totals := b.totals[locate := b.totals[locate].(hiddenShares := b.totals[locate].hiddenShares + shares)])
  }

  function Crossed(b: Book, locate: nat, shares: nat): Book
    requires locate < |b.totals|
  {
    b.(totals := b.totals[locate := b.totals[locate].(crossShares := b.totals[locate].crossShares + shares)])
  }

  function Apply(b: Book, e: Event): Book
    requires b.Ok() && e.locate < LOCATES
  {
    Handle(Prelude(b, e), e)
  }

  function Handle(b: Book, e: Event): Book
    requires b.Ok() && e.locate < LOCATES
  {
    match e
    case Add(locate, _, ref, side, shares, price, _) => OnAdd(b, ref, side, shares, price, locate)
    case Execute(_, _, ref, shares) => OnExecute(b, ref, shares, None, true)
    case ExecutePrice(_, _, ref, shares, printable, price) => OnExecute(b, ref, shares, Some(price), printable)
    case Cancel(_, _, ref, shares) => OnCancel(b, ref, shares)
    case Delete(_, _, ref) => OnDelete(b, ref)
    case Replace(_, _, ref, newRef, shares, price) => OnReplace(b, ref, newRef, shares, price)
    case Trade(locate, _, shares, price) => RecordVolume(Hidden(b, locate, shares), locate, shares, price)
    case CrossTrade(locate, _, shares, price) => RecordVolume(Crossed(b, locate, shares), locate, shares, price)
    case Other(_, _) => b
  }
}
