/**
  What a passed check says in plain arithmetic, where none of its 64-bit products wraps, and
  exactly how large a position limit and a book may be before one does.
 */
module RiskGate {
  import opened Common
  import opened RiskModel
  import RateLimiter

  const WIDE: nat := 0x1_0000_0000_0000_0000

  predicate Narrow(x: int) {
    0 <= x < 0x1_0000_0000
  }

  // ----- products and quotients ---------------------------------------------------------

  lemma ProductGrows(a: int, c: int, b: int, d: int)
    requires 0 <= a <= c && 0 <= b <= d
    ensures 0 <= a * b <= c * d
  {
    assert (c - a) * d >= 0 && a * (d - b) >= 0;
  }

  lemma NoWrap(x: int)
    requires 0 <= x < WIDE
    ensures U64(x) == x
  {
  }

  lemma NarrowProduct(a: int, b: int)
    requires Narrow(a) && Narrow(b)
    ensures 0 <= a * b < WIDE && U64(a * b) == a * b
  {
    ProductGrows(a, 0xFFFF_FFFF, b, 0xFFFF_FFFF);
    NoWrap(a * b);
  }

  lemma ProductMonotone(a: int, b: int, t: int)
    requires a <= b && t > 0
    ensures a * t <= b * t
  {
    assert (b - a) * t >= 0;
  }

  lemma QuotientBetween(lo: int, hi: int, sum: int, total: int)
    requires total > 0 && lo * total <= sum <= hi * total
    ensures lo <= sum / total <= hi
  {
    var q := sum / total;
    if q < lo {
      ProductMonotone(q + 1, lo, total);
    }
    if q > hi {
      ProductMonotone(hi + 1, q, total);
    }
  }

  /** Taking a whole divisor off the dividend takes at least one off the quotient. */
  lemma QuotientDrops(small: nat, sum: nat, total: nat)
    requires total > 0 && small + total <= sum
    ensures small / total < sum / total
  {
    var q := small / total;
    if sum / total <= q {
      ProductMonotone(sum / total + 1, q + 1, total);
    }
  }

  // ----- the reference price ----------------------------------------------------------------

  function WeightedSum(b: TopOfBook): int {
    b.bidPrice * b.askQty + b.askPrice * b.bidQty
  }

  /** The size weighted midpoint in unbounded arithmetic. */
  function Midpoint(b: TopOfBook): int
    requires b.TwoSided()
  {
    WeightedSum(b) / (b.bidQty + b.askQty)
  }

  /** A two-sided market, crossed or not, whose prices fit 32 bits and whose sizes add up. */
  predicate Quoted(b: TopOfBook) {
    b.TwoSided() && Narrow(b.bidPrice) && Narrow(b.askPrice) && b.bidQty + b.askQty < WIDE
  }

  lemma WeightedBetween(bid: int, ask: int, bq: nat, aq: nat)
    requires 0 <= bid && 0 <= ask
    ensures Smaller(bid, ask) * (bq + aq) <= bid * aq + ask * bq <= Larger(bid, ask) * (bq + aq)
  {
    var lo, hi := Smaller(bid, ask), Larger(bid, ask);
    ProductGrows(lo, bid, aq, aq);
    ProductGrows(lo, ask, bq, bq);
    ProductGrows(bid, hi, aq, aq);
    ProductGrows(ask, hi, bq, bq);
    assert lo * (bq + aq) == lo * bq + lo * aq && hi * (bq + aq) == hi * bq + hi * aq;
  }

  function Smaller(a: int, b: int): int {
    if a < b then a else b
  }

  /** The midpoint lies between bid and ask, whichever is the higher. */
  lemma MidpointBetween(b: TopOfBook)
    requires b.TwoSided() && 0 <= b.bidPrice && 0 <= b.askPrice
    ensures Smaller(b.bidPrice, b.askPrice) <= Midpoint(b) <= Larger(b.bidPrice, b.askPrice)
    ensures WeightedSum(b) >= 0
  {
    WeightedBetween(b.bidPrice, b.askPrice, b.bidQty, b.askQty);
    QuotientBetween(Smaller(b.bidPrice, b.askPrice), Larger(b.bidPrice, b.askPrice), WeightedSum(b), b.bidQty + b.askQty);
    ProductGrows(0, b.bidPrice, 0, b.askQty);
    ProductGrows(0, b.askPrice, 0, b.bidQty);
  }

  lemma MicroPriceIs(b: TopOfBook)
    requires Quoted(b)
    ensures b.MicroPrice() == U64(WeightedSum(b)) / (b.bidQty + b.askQty)
  {
    var total := b.bidQty + b.askQty;
    NoWrap(b.bidPrice);
    NoWrap(b.askPrice);
    NoWrap(total);
    assert b.MicroPrice() == Signed(U64(WeightedSum(b)) / total);
    HalfAtMost(U64(WeightedSum(b)), total);
  }

  lemma HalfAtMost(x: nat, total: nat)
    requires x < WIDE && total >= 2
    ensures x / total < 0x8000_0000_0000_0000
  {
    ProductMonotone(2, total, x / total + 1);
    if x / total >= 0x8000_0000_0000_0000 {
      ProductMonotone(0x8000_0000_0000_0000, x / total, total);
      ProductMonotone(2, total, 0x8000_0000_0000_0000);
    }
  }

  /** The code computes the midpoint if and only if the weighted sum stays below 2^64. */
  lemma MicroPriceExactly(b: TopOfBook)
    requires Quoted(b)
    ensures b.MicroPrice() == Midpoint(b) <==> WeightedSum(b) < WIDE
  {
    MidpointBetween(b);
    MicroPriceIs(b);
    var sum, total := WeightedSum(b), b.bidQty + b.askQty;
    if sum < WIDE {
      NoWrap(sum);
    } else {
      MicroPriceFallsShort(b);
    }
  }

  /** Where the weighted sum wraps, the code's price is too low. */
  lemma MicroPriceFallsShort(b: TopOfBook)
    requires Quoted(b) && WeightedSum(b) >= WIDE
    ensures 0 <= b.MicroPrice() < Midpoint(b) < 0x1_0000_0000
  {
    MidpointBetween(b);
    MicroPriceIs(b);
    WrapLoses(WeightedSum(b));
    QuotientDrops(U64(WeightedSum(b)), WeightedSum(b), b.bidQty + b.askQty);
    QuotientNonNegative(U64(WeightedSum(b)), b.bidQty + b.askQty);
  }

  lemma QuotientNonNegative(x: nat, total: nat)
    requires total > 0
    ensures x / total >= 0
  {
  }

  lemma WrapLoses(x: nat)
    requires x >= WIDE
    ensures U64(x) + WIDE <= x
  {
  }

  /** Sizes that add up to 2^64 exactly leave the plain midpoint, cut off toward zero. */
  lemma PlainMidpoint(b: TopOfBook)
    requires b.TwoSided() && b.bidQty + b.askQty == WIDE
    ensures var twice := 2 * b.MicroPrice(); var sum := b.bidPrice + b.askPrice;
      Abs(twice - sum) <= 1 && Abs(twice) <= Abs(sum)
  {
    var x := b.bidPrice + b.askPrice;
    HalfTruncates(x);
  }

  lemma HalfTruncates(x: int)
    ensures Abs(2 * Half(x) - x) <= 1 && Abs(2 * Half(x)) <= Abs(x)
  {
  }

  // ----- the gate -----------------------------------------------------------------------------

  /** Values in the ranges that the wire and the limits carry. */
  predicate InType(e: Engine, r: Request)
    requires e.Ok() && r.locate < LOCATES
  {
    && Narrow(r.shares) && (r.price > 0 ==> Narrow(r.price)) && Narrow(e.limits.fatFingerBps)
    && e.limits.maxOrderNotional < WIDE && e.limits.maxSymbolNotional < WIDE
    && e.symbols[r.locate].buyShares >= 0 && e.symbols[r.locate].sellShares >= 0
    && (r.book.TwoSided() ==> Quoted(r.book))
  }

  /** In addition, the weighted sum of the book fits 64 bits. */
  predicate InRange(e: Engine, r: Request)
    requires e.Ok() && r.locate < LOCATES
  {
    InType(e, r) && (r.book.TwoSided() ==> WeightedSum(r.book) < WIDE)
  }

  /** The most shares this symbol can be long or short if everything working fills. */
  function WorstShares(s: Symbol, r: Request): nat {
    Larger(Abs(WorstLong(s, r)), Abs(WorstShort(s, r)))
  }

  /** Every limit, as it is documented, in unbounded arithmetic. */
  ghost predicate Allowed(e: Engine, r: Request)
    requires e.Ok() && r.locate < LOCATES
  {
    var l := e.limits;
    var s := e.symbols[r.locate];
    && !e.tripped && s.enabled && !s.halted
    && OrderAllowed(l, r) && MarketAllowed(l, r) && ExposureAllowed(l, s, r)
    && e.openCount < l.maxOpenOrders
    && RateLimiter.CountAt(e.rate, r.now) < l.maxMessages
    && r.token !in e.open
  }

  predicate OrderAllowed(l: Limits, r: Request) {
    0 < r.shares <= l.maxOrderShares && 0 < r.price && r.shares * r.price <= l.maxOrderNotional
  }

  predicate MarketAllowed(l: Limits, r: Request) {
    && 0 < r.bookTs <= r.now <= r.bookTs + l.maxAgeNs
    && r.book.TwoSided() && Abs(r.price - Midpoint(r.book)) * 10000 <= Midpoint(r.book) * l.fatFingerBps
  }

  predicate ExposureAllowed(l: Limits, s: Symbol, r: Request) {
    && -l.maxPosition <= WorstShort(s, r) && WorstLong(s, r) <= l.maxPosition
    && WorstShares(s, r) * r.price <= l.maxSymbolNotional
    && (r.isBuy && s.sellOrders > 0 ==> r.price < s.bestSell)
    && (!r.isBuy && s.buyOrders > 0 ==> r.price > s.bestBuy)
  }

  lemma OrderExactly(l: Limits, r: Request)
    requires Narrow(r.shares) && (r.price > 0 ==> Narrow(r.price))
    ensures CheckOrder(l, r) == Pass <==> OrderAllowed(l, r)
  {
    if r.price > 0 {
      NarrowProduct(r.shares, r.price);
    }
  }

  lemma FatFingerSays(l: Limits, r: Request)
    requires Narrow(r.price) && r.price > 0 && Narrow(l.fatFingerBps) && Quoted(r.book) && WeightedSum(r.book) < WIDE
    ensures var ref := r.book.MicroPrice();
      ref <= 0 || U64(Abs(r.price - ref) * 10000) > U64(ref * l.fatFingerBps)
      <==> !(Abs(r.price - Midpoint(r.book)) * 10000 <= Midpoint(r.book) * l.fatFingerBps)
  {
    FatFingerExact(l, r);
  }

  lemma MarketExactly(l: Limits, r: Request)
    requires 0 < r.price && Narrow(r.price) && Narrow(l.fatFingerBps)
    requires r.book.TwoSided() ==> Quoted(r.book) && WeightedSum(r.book) < WIDE
    ensures CheckMarket(l, r) == Pass <==> MarketAllowed(l, r)
  {
    if r.book.TwoSided() {
      FatFingerSays(l, r);
    }
  }

  /** Neither product of the basis-point comparison wraps. */
  lemma FatFingerExact(l: Limits, r: Request)
    requires Narrow(r.price) && Narrow(l.fatFingerBps) && Quoted(r.book) && WeightedSum(r.book) < WIDE
    ensures var ref := r.book.MicroPrice();
      && ref == Midpoint(r.book) >= 0
      && U64(Abs(r.price - ref) * 10000) == Abs(r.price - ref) * 10000 && U64(ref * l.fatFingerBps) == ref * l.fatFingerBps
  {
    MicroPriceExactly(r.book);
    MidpointBetween(r.book);
    var ref := r.book.MicroPrice();
    NarrowProduct(ref, l.fatFingerBps);
    assert 0 <= Abs(r.price - ref) < 0x1_0000_0000;
    NoWrap(Abs(r.price - ref) * 10000);
  }

  /** The largest position limit whose notional never wraps: (2^32 + 1)(2^32 - 1) = 2^64 - 1. */
  const EXACT_LIMIT: int := 0x1_0000_0001

  predicate Exposed(limit: int, s: Symbol, r: Request) {
    && Narrow(r.price) && s.buyShares >= 0 && s.sellShares >= 0
    && WorstLong(s, r) <= limit && WorstShort(s, r) >= -limit
  }

  lemma ExposureExact(limit: int, s: Symbol, r: Request)
    requires limit <= EXACT_LIMIT && Exposed(limit, s, r)
    ensures U64(WorstShares(s, r) * r.price) == WorstShares(s, r) * r.price
  {
    ProductGrows(WorstShares(s, r), EXACT_LIMIT, r.price, 0xFFFF_FFFF);
    NoWrap(WorstShares(s, r) * r.price);
  }

  /** The notional product is exact for every symbol and request within a position limit. */
  ghost predicate NotionalExact(limit: int) {
    forall s: Symbol, r: Request {:trigger WorstShares(s, r)} ::
      Exposed(limit, s, r) ==> U64(WorstShares(s, r) * r.price) == WorstShares(s, r) * r.price
  }

  /** A buy of one share that makes the worst case 2^32 + 2 shares at 2^32 - 1. */
  function WrappingRequest(): Request {
    Request(0, [], true, 1, 0xFFFF_FFFF, TopOfBook(0xFFFF_FFFF, 1, 0xFFFF_FFFF, 1), 1, 1)
  }

  function WrappingSymbol(): Symbol {
    Symbol(0x1_0000_0001, 0, 0, 0, 0, 0, 0, true, false)
  }

  /** The notional product never wraps if and only if the position limit is at most 2^32 + 1. */
  lemma NotionalExactly(limit: int)
    ensures NotionalExact(limit) <==> limit <= EXACT_LIMIT
  {
    if limit <= EXACT_LIMIT {
      forall s: Symbol, r: Request | Exposed(limit, s, r)
        ensures U64(WorstShares(s, r) * r.price) == WorstShares(s, r) * r.price
      {
        ExposureExact(limit, s, r);
      }
    } else {
      var s, r := WrappingSymbol(), WrappingRequest();
      assert Exposed(limit, s, r) && WorstShares(s, r) == 0x1_0000_0002;
    }
  }

  /** The largest price, in 32 bits, that the widest tolerance lets this far from the midpoint. */
  function TopPrice(b: TopOfBook): int
    requires b.TwoSided()
  {
    Smaller(0xFFFF_FFFF, Midpoint(b) + Midpoint(b) * 0xFFFF_FFFF / 10000)
  }

  lemma TopPriceBounds(b: TopOfBook, price: int, bps: int)
    requires Quoted(b) && Narrow(price) && Narrow(bps) && (price - Midpoint(b)) * 10000 <= Midpoint(b) * bps
    ensures price <= TopPrice(b)
  {
    MidpointBetween(b);
    ProductGrows(Midpoint(b), Midpoint(b), bps, 0xFFFF_FFFF);
  }

  lemma TopPriceIsTolerated(b: TopOfBook)
    requires Quoted(b)
    ensures 0 <= Midpoint(b) <= TopPrice(b) && Narrow(TopPrice(b))
    ensures (TopPrice(b) - Midpoint(b)) * 10000 <= Midpoint(b) * 0xFFFF_FFFF
  {
    MidpointBetween(b);
    ProductGrows(0, Midpoint(b), 0, 0xFFFF_FFFF);
  }

  /** No notional product wraps for orders on this book under this position limit. */
  predicate Holds(limit: int, b: TopOfBook)
    requires b.TwoSided()
  {
    limit * TopPrice(b) < WIDE
  }

  lemma ExactLimitHolds(limit: int, b: TopOfBook)
    requires Quoted(b) && limit <= EXACT_LIMIT
    ensures Holds(limit, b)
  {
    TopPriceIsTolerated(b);
    if limit > 0 {
      ProductGrows(limit, EXACT_LIMIT, TopPrice(b), 0xFFFF_FFFF);
    } else {
      ProductGrows(0, -limit, 0, TopPrice(b));
    }
  }

  lemma NotionalHolds(e: Engine, r: Request)
    requires e.Ok() && r.locate < LOCATES && InRange(e, r) && r.book.TwoSided() && Holds(e.limits.maxPosition, r.book)
    requires r.price > 0 && Exposed(e.limits.maxPosition, e.symbols[r.locate], r) && MarketAllowed(e.limits, r)
    ensures var w := WorstShares(e.symbols[r.locate], r); U64(w * r.price) == w * r.price
  {
    TopPriceBounds(r.book, r.price, e.limits.fatFingerBps);
    ProductGrows(WorstShares(e.symbols[r.locate], r), e.limits.maxPosition, r.price, TopPrice(r.book));
    NoWrap(WorstShares(e.symbols[r.locate], r) * r.price);
  }

  lemma ExposureExactly(e: Engine, r: Request)
    requires e.Ok() && r.locate < LOCATES && InRange(e, r) && r.price > 0 && MarketAllowed(e.limits, r)
    requires Holds(e.limits.maxPosition, r.book)
    ensures var s := e.symbols[r.locate]; CheckExposure(e.limits, s, r) == Pass <==> ExposureAllowed(e.limits, s, r)
  {
    if Exposed(e.limits.maxPosition, e.symbols[r.locate], r) {
      NotionalHolds(e, r);
    }
  }

  lemma PassIsAllowed(e: Engine, r: Request)
    requires e.Ok() && r.locate < LOCATES && InRange(e, r)
    requires r.book.TwoSided() ==> Holds(e.limits.maxPosition, r.book)
    ensures Check(e, r) == Pass <==> Allowed(e, r)
  {
    OrderExactly(e.limits, r);
    if r.price > 0 {
      MarketExactly(e.limits, r);
      if MarketAllowed(e.limits, r) {
        ExposureExactly(e, r);
      }
    }
  }

  /** An engine that lets the wrapping order through, whatever its larger position limit. */
  function WrappingEngine(limit: int): Engine {
    Engine(Limits(1, 0xFFFF_FFFF, 0, limit, 0xFFFF_FFFE, 1, 1, 0), seq(LOCATES, _ => WrappingSymbol()), map[], 0, false,
           RateLimiter.EMPTY_RING, ZERO_STATS)
  }

  lemma {:induction false} EmptyRingCounts(n: nat, b: nat)
    requires n <= RateLimiter.BUCKETS
    ensures RateLimiter.LiveCount(RateLimiter.EMPTY_RING, n, b) == 0
  {
    if n > 0 {
      EmptyRingCounts(n - 1, b);
    }
  }

  /** Beyond the exact limit an order passes whose worst-case notional is 2^64 over its limit. */
  lemma WideNotionalPasses(limit: int)
    requires limit > EXACT_LIMIT
    ensures var e := WrappingEngine(limit); var r := WrappingRequest();
      e.Ok() && InRange(e, r) && Check(e, r) == Pass && !Allowed(e, r)
  {
    var e, r := WrappingEngine(limit), WrappingRequest();
    EmptyRingCounts(RateLimiter.BUCKETS, RateLimiter.Bucket(1));
    assert e.symbols[0] == WrappingSymbol();
    MicroPriceExactly(r.book);
    assert r.book.MicroPrice() == 0xFFFF_FFFF;
    assert WorstShares(e.symbols[0], r) == 0x1_0000_0002;
  }

  /** For books in range, the gate lets an order through exactly when every limit holds. */
  ghost predicate GateExact(limit: int) {
    forall e: Engine, r: Request {:trigger Check(e, r)} ::
      e.Ok() && r.locate < LOCATES && InRange(e, r) && e.limits.maxPosition == limit ==>
      (Check(e, r) == Pass <==> Allowed(e, r))
  }

  /** The gate is exact if and only if the position limit is at most 2^32 + 1. */
  lemma GateIsExact(limit: int)
    ensures GateExact(limit) <==> limit <= EXACT_LIMIT
  {
    if limit <= EXACT_LIMIT {
      forall e: Engine, r: Request | e.Ok() && r.locate < LOCATES && InRange(e, r) && e.limits.maxPosition == limit
        ensures Check(e, r) == Pass <==> Allowed(e, r)
      {
        if r.book.TwoSided() {
          ExactLimitHolds(limit, r.book);
        }
        PassIsAllowed(e, r);
      }
    } else {
      WideNotionalPasses(limit);
    }
  }

  // ----- the gate, book by book -----------------------------------------------------------------

  /** On this book, the gate lets an order through exactly when every limit holds. */
  ghost predicate ExactOn(limit: int, b: TopOfBook) {
    forall e: Engine, r: Request {:trigger Check(e, r)} ::
      e.Ok() && r.locate < LOCATES && InType(e, r) && e.limits.maxPosition == limit && r.book == b ==>
      (Check(e, r) == Pass <==> Allowed(e, r))
  }

  /** An engine with nothing working, no tolerance and room for one share. */
  function StrictEngine(limit: int): Engine {
    Engine(Limits(1, 0xFFFF_FFFF, 0, limit, 0xFFFF_FFFF, 1, 1, 0),
           seq(LOCATES, _ => Symbol(0, 0, 0, 0, 0, 0, 0, true, false)), map[], 0, false, RateLimiter.EMPTY_RING, ZERO_STATS)
  }

  /** A buy of one share at the price the code takes for the midpoint or, where that is zero
      and nothing passes, at the midpoint. */
  function MisledRequest(b: TopOfBook): Request
    requires b.TwoSided()
  {
    Request(0, [], true, 1, if b.MicroPrice() > 0 then b.MicroPrice() else Midpoint(b), b, 1, 1)
  }

  /** With no tolerance an order of one share passes exactly at the price taken for the
      midpoint, and is allowed exactly at the midpoint. */
  lemma StrictCheck(limit: int, r: Request)
    requires limit >= 1 && Quoted(r.book) && r == Request(0, [], true, 1, r.price, r.book, 1, 1)
    requires 0 < r.price && Narrow(r.price)
    requires 0 <= r.book.MicroPrice() < 0x1_0000_0000
    ensures var e := StrictEngine(limit);
      && e.Ok() && InType(e, r)
      && (Check(e, r) == Pass <==> r.price == r.book.MicroPrice())
      && (Allowed(e, r) <==> r.price == Midpoint(r.book))
  {
    var e := StrictEngine(limit);
    EmptyRingCounts(RateLimiter.BUCKETS, RateLimiter.Bucket(1));
    assert e.symbols[0] == Symbol(0, 0, 0, 0, 0, 0, 0, true, false);
    assert WorstShares(e.symbols[0], r) == 1;
    NoWrap(r.price);
    NoWrap(Abs(r.price - r.book.MicroPrice()) * 10000);
  }

  /** Where the weighted sum wraps, one share goes through that must not, or the reverse. */
  lemma WideBookMisleads(limit: int, b: TopOfBook)
    requires limit >= 1 && Quoted(b) && WeightedSum(b) >= WIDE
    ensures var e := StrictEngine(limit); var r := MisledRequest(b);
      && e.Ok() && InType(e, r) && r.book == b && (Check(e, r) == Pass <==> !Allowed(e, r))
      && (b.MicroPrice() > 0 ==> Check(e, r) == Pass)
  {
    MicroPriceFallsShort(b);
    StrictCheck(limit, MisledRequest(b));
  }

  /** Witness: with 2^32 - 1 shares a side at 2^32 - 1, a buy at half that price passes a check
      that tolerates no distance from the midpoint. */
  lemma WideBookPasses(limit: int, b: TopOfBook)
    requires limit >= 1 && b == TopOfBook(0xFFFF_FFFF, 0xFFFF_FFFF, 0xFFFF_FFFF, 0xFFFF_FFFF)
    ensures var e := StrictEngine(limit); var r := MisledRequest(b);
      && e.Ok() && InType(e, r) && Midpoint(b) == 0xFFFF_FFFF && r.price == 0x7FFF_FFFE
      && Check(e, r) == Pass && !Allowed(e, r)
  {
    MicroPriceIs(b);
    WideBookMisleads(limit, b);
  }

  /** An engine one share short of its position limit, with the widest tolerance and notional. */
  function LooseEngine(limit: int): Engine {
    Engine(Limits(1, 0xFFFF_FFFF, 0xFFFF_FFFF, limit, WIDE - 1, 1, 1, 0),
           seq(LOCATES, _ => Symbol(limit - 1, 0, 0, 0, 0, 0, 0, true, false)), map[], 0, false, RateLimiter.EMPTY_RING, ZERO_STATS)
  }

  function TopRequest(b: TopOfBook): Request
    requires b.TwoSided()
  {
    Request(0, [], true, 1, TopPrice(b), b, 1, 1)
  }

  /** Where the notional product can wrap, an order at the top price passes and must not. */
  lemma TopPricePasses(limit: int, b: TopOfBook)
    requires limit >= 1 && Quoted(b) && WeightedSum(b) < WIDE && !Holds(limit, b)
    ensures var e := LooseEngine(limit); var r := TopRequest(b);
      e.Ok() && InType(e, r) && r.book == b && Check(e, r) == Pass && !Allowed(e, r)
  {
    var e, r := LooseEngine(limit), TopRequest(b);
    TopPriceIsTolerated(b);
    FatFingerExact(e.limits, r);
    EmptyRingCounts(RateLimiter.BUCKETS, RateLimiter.Bucket(1));
    assert e.symbols[0] == Symbol(limit - 1, 0, 0, 0, 0, 0, 0, true, false);
    assert WorstShares(e.symbols[0], r) == limit;
    NoWrap(r.price);
  }

  /** No order keeps a position limit below one. */
  lemma NoRoomAtAll(e: Engine, r: Request)
    requires e.Ok() && r.locate < LOCATES && InType(e, r) && e.limits.maxPosition <= 0
    ensures Check(e, r) != Pass && !Allowed(e, r)
  {
  }

  /** For every position limit and book: the gate is exact if and only if the weighted sum of
      the book and the product of the limit and the top price both stay below 2^64, or the
      limit lets nothing through at all. */
  lemma BookIsExact(limit: int, b: TopOfBook)
    requires Quoted(b)
    ensures ExactOn(limit, b) <==> limit <= 0 || (WeightedSum(b) < WIDE && limit * TopPrice(b) < WIDE)
  {
    if limit <= 0 || (WeightedSum(b) < WIDE && Holds(limit, b)) {
      forall e: Engine, r: Request |
        e.Ok() && r.locate < LOCATES && InType(e, r) && e.limits.maxPosition == limit && r.book == b
        ensures Check(e, r) == Pass <==> Allowed(e, r)
      {
        if limit <= 0 {
          NoRoomAtAll(e, r);
        } else {
          PassIsAllowed(e, r);
        }
      }
    } else if WeightedSum(b) >= WIDE {
      WideBookMisleads(limit, b);
    } else {
      TopPricePasses(limit, b);
    }
  }

  // ----- which reason -----------------------------------------------------------------------------

  datatype Rule = Rule(reason: Reject, broken: bool)

  /** The documented rules in their order, in unbounded arithmetic. */
  ghost function Rules(e: Engine, r: Request): seq<Rule>
    requires e.Ok() && r.locate < LOCATES
  {
    var l, s := e.limits, e.symbols[r.locate];
    [Rule(KillSwitch, e.tripped),
     Rule(SymbolNotEnabled, !s.enabled),
     Rule(SymbolHalted, s.halted),
     Rule(MaxOrderSize, r.shares == 0 || r.shares > l.maxOrderShares),
     Rule(FatFingerPrice, r.price <= 0),
     Rule(MaxOrderNotional, r.shares * r.price > l.maxOrderNotional),
     Rule(StaleMarketData, r.bookTs == 0 || r.bookTs > r.now || r.now > r.bookTs + l.maxAgeNs),
     Rule(FatFingerPrice, !r.book.TwoSided() || Abs(r.price - Midpoint(r.book)) * 10000 > Midpoint(r.book) * l.fatFingerBps),
     Rule(PositionLimit, WorstLong(s, r) > l.maxPosition || WorstShort(s, r) < -l.maxPosition),
     Rule(NotionalLimit, WorstShares(s, r) * r.price > l.maxSymbolNotional),
     Rule(SelfCross, if r.isBuy then s.sellOrders > 0 && r.price >= s.bestSell else s.buyOrders > 0 && r.price <= s.bestBuy),
     Rule(MaxOpenOrders, e.openCount >= l.maxOpenOrders),
     Rule(MessageRate, RateLimiter.CountAt(e.rate, r.now) >= l.maxMessages),
     Rule(DuplicateToken, r.token in e.open)]
  }

  /** The reason of the first broken rule from the k-th on, or Pass. */
  function FirstBroken(rules: seq<Rule>, k: nat): Reject
    requires k <= |rules|
    decreases |rules| - k
  {
    if k == |rules| then Pass else if rules[k].broken then rules[k].reason else FirstBroken(rules, k + 1)
  }

  lemma {:induction false} BrokenAt(rules: seq<Rule>, k: nat, i: nat)
    requires i <= k < |rules| && rules[k].broken && forall j :: i <= j < k ==> !rules[j].broken
    ensures FirstBroken(rules, i) == rules[k].reason
    decreases k - i
  {
    if i < k {
      BrokenAt(rules, k, i + 1);
    }
  }

  lemma {:induction false} NoneBroken(rules: seq<Rule>, i: nat)
    requires i <= |rules| && forall j :: i <= j < |rules| ==> !rules[j].broken
    ensures FirstBroken(rules, i) == Pass
    decreases |rules| - i
  {
    if i < |rules| {
      NoneBroken(rules, i + 1);
    }
  }

  lemma OrderReason(e: Engine, r: Request)
    requires e.Ok() && r.locate < LOCATES && InType(e, r)
    ensures CheckOrder(e.limits, r) == (var q := Rules(e, r);
      if q[3].broken then MaxOrderSize else if q[4].broken then FatFingerPrice else if q[5].broken then MaxOrderNotional else Pass)
  {
    if r.price > 0 {
      NarrowProduct(r.shares, r.price);
    }
  }

  lemma MarketReason(e: Engine, r: Request)
    requires e.Ok() && r.locate < LOCATES && InRange(e, r) && r.price > 0
    ensures CheckMarket(e.limits, r) == (var q := Rules(e, r);
      if q[6].broken then StaleMarketData else if q[7].broken then FatFingerPrice else Pass)
  {
    MarketExactly(e.limits, r);
  }

  lemma ExposureReason(e: Engine, r: Request)
    requires e.Ok() && r.locate < LOCATES && InRange(e, r) && r.price > 0 && MarketAllowed(e.limits, r)
    requires Holds(e.limits.maxPosition, r.book)
    ensures CheckExposure(e.limits, e.symbols[r.locate], r) == (var q := Rules(e, r);
      if q[8].broken then PositionLimit else if q[9].broken then NotionalLimit else if q[10].broken then SelfCross else Pass)
  {
    if Exposed(e.limits.maxPosition, e.symbols[r.locate], r) {
      NotionalHolds(e, r);
    }
  }

  lemma EngineReason(e: Engine, r: Request)
    requires e.Ok() && r.locate < LOCATES
    ensures CheckEngine(e, r) == (var q := Rules(e, r);
      if q[11].broken then MaxOpenOrders else if q[12].broken then MessageRate else if q[13].broken then DuplicateToken else Pass)
  {
  }

  /** In range the check returns the reason of the first rule, in the documented order, that the
      order breaks, and passes an order that breaks none. */
  lemma ReasonIsTheFirst(e: Engine, r: Request)
    requires e.Ok() && r.locate < LOCATES && InRange(e, r) && (r.book.TwoSided() ==> Holds(e.limits.maxPosition, r.book))
    ensures Check(e, r) == FirstBroken(Rules(e, r), 0)
  {
    var q := Rules(e, r);
    OrderReason(e, r);
    EngineReason(e, r);
    if r.price > 0 {
      MarketReason(e, r);
      MarketExactly(e.limits, r);
      if MarketAllowed(e.limits, r) {
        ExposureReason(e, r);
      }
    }
    InOrder(q);
  }

  /** Fourteen rules, one after the other. */
  lemma InOrder(q: seq<Rule>)
    requires |q| == 14
    ensures FirstBroken(q, 0) ==
      if q[0].broken then q[0].reason else if q[1].broken then q[1].reason else if q[2].broken then q[2].reason
      else if q[3].broken then q[3].reason else if q[4].broken then q[4].reason else if q[5].broken then q[5].reason
      else if q[6].broken then q[6].reason else if q[7].broken then q[7].reason else if q[8].broken then q[8].reason
      else if q[9].broken then q[9].reason else if q[10].broken then q[10].reason else if q[11].broken then q[11].reason
      else if q[12].broken then q[12].reason else if q[13].broken then q[13].reason else Pass
  {
    if k: nat :| k < 14 && q[k].broken && forall j :: 0 <= j < k ==> !q[j].broken {
      BrokenAt(q, k, 0);
    } else {
      NoneBroken(q, 0);
    }
  }
}
