/**
  The day's ledger, kept from what was sent and what was reported alone, and the engine
  balanced against it: every share sent is filled, gone or still working, and every position
  is where it started plus what was bought less what was sold.
 */
module RiskLedger {
  import opened Common
  import opened RiskModel

  /** For each token the latest order sent under it, and all shares ever sent, filled and
      cancelled or rejected under it; for each symbol all shares bought and sold. */
  datatype Ledger = Ledger(
    orders: map<Token, Request>, sent: map<Token, nat>, filled: map<Token, nat>, gone: map<Token, nat>,
    bought: map<nat, nat>, sold: map<nat, nat>, tally: Tally)

  /** How many reports of each kind, for working orders and for unknown tokens, and what the
      fills were worth. */
  datatype Tally = Tally(sends: nat, fills: nat, cancels: nat, rejects: nat, unknown: nat, excess: nat, worth: nat)

  const NOTHING := Ledger(map[], map[], map[], map[], map[], map[], Tally(0, 0, 0, 0, 0, 0, 0))

  function At<K>(m: map<K, nat>, k: K): nat {
    if k in m then m[k] else 0
  }

  function Plus<K>(m: map<K, nat>, k: K, n: nat): map<K, nat> {
    m[k := At(m, k) + n]
  }

  /** What the ledger says is still working under a token. */
  function Left(g: Ledger, t: Token): int {
    At(g.sent, t) - At(g.filled, t) - At(g.gone, t)
  }

  function Lesser(a: int, b: int): nat {
    if a <= 0 || b <= 0 then 0 else if a < b then a else b
  }

  function Sold(g: Ledger, t: Token, n: nat): Ledger {
    var g1 := g.(filled := Plus(g.filled, t, n));
    if t !in g.orders then g1
    else if g.orders[t].isBuy then g1.(bought := Plus(g.bought, g.orders[t].locate, n))
    else g1.(sold := Plus(g.sold, g.orders[t].locate, n))
  }

  function Unknown(g: Ledger): Ledger {
    g.(tally := g.tally.(unknown := g.tally.unknown + 1))
  }

  function One(b: bool): nat {
    if b then 1 else 0
  }

  /** One event in the ledger; `passed` says whether the gate let a send through. */
  function Entered(g: Ledger, ev: Event, passed: bool): Ledger {
    var c := g.tally;
    match ev
    case Send(r) =>
      if passed then g.(orders := g.orders[r.token := r], sent := Plus(g.sent, r.token, r.shares), tally := c.(sends := c.sends + 1))
      else g
    case Fill(t, shares, price) =>
      if Left(g, t) <= 0 then Unknown(g)
      else
        var n := Lesser(shares, Left(g, t));
        Sold(g, t, n).(tally := c.(fills := c.fills + 1, excess := c.excess + One(shares > Left(g, t)),
                                   worth := c.worth + n * (if price > 0 then price else 0)))
    case CancelAck(t, decrement) =>
      if Left(g, t) <= 0 then Unknown(g)
      else
        var n := if decrement == 0 then Lesser(Left(g, t), Left(g, t)) else Lesser(decrement, Left(g, t));
        g.(gone := Plus(g.gone, t, n), tally := c.(cancels := c.cancels + 1, excess := c.excess + One(decrement > Left(g, t))))
    case RejectAck(t) =>
      if Left(g, t) <= 0 then Unknown(g)
      else g.(gone := Plus(g.gone, t, Lesser(Left(g, t), Left(g, t))), tally := c.(rejects := c.rejects + 1))
    case _ => g
  }

  function Passed(e: Engine, ev: Event): bool
    requires e.Ok() && Wellformed(ev)
  {
    ev.Send? && Check(e, ev.request) == Pass
  }

  function EnteredAll(g: Ledger, e: Engine, events: seq<Event>): Ledger
    requires e.Ok() && Indexed(e) && AllWellformed(events)
    decreases |events|
  {
    if events == [] then g
    else
      StepIndexed(e, events[0]);
      EnteredAll(Entered(g, events[0], Passed(e, events[0])), Step(e, events[0]), events[1..])
  }

  // ----- balance ----------------------------------------------------------------------------

  /** What is working in the engine is what is left in the ledger. */
  ghost predicate Working(e: Engine, g: Ledger, t: Token) {
    && Left(g, t) >= 0 && (t in e.open <==> Left(g, t) > 0)
    && (t in e.open ==> t in g.orders && g.orders[t].locate < LOCATES)
    && (t in e.open ==> e.open[t] == OpenOrder(Left(g, t), g.orders[t].locate, g.orders[t].isBuy, g.orders[t].price))
  }

  ghost predicate AllWorking(e: Engine, g: Ledger) {
    forall t {:trigger Working(e, g, t)} :: Working(e, g, t)
  }

  ghost predicate Placed(e: Engine, g: Ledger, start: seq<Symbol>, l: nat)
    requires l < |e.symbols| && l < |start|
  {
    e.symbols[l].position == start[l].position + At(g.bought, l) - At(g.sold, l)
  }

  ghost predicate AllPlaced(e: Engine, g: Ledger, start: seq<Symbol>) {
    |e.symbols| == |start| && forall l: nat {:trigger Placed(e, g, start, l)} :: l < |start| ==> Placed(e, g, start, l)
  }

  ghost predicate Tallied(stats: Stats, c: Tally, start: Stats) {
    && stats.sent == start.sent + c.sends && stats.fills == start.fills + c.fills
    && stats.cancels == start.cancels + c.cancels && stats.rejects == start.rejects + c.rejects
    && stats.unknownToken == start.unknownToken + c.unknown && stats.overfills == start.overfills + c.excess
    && U64(stats.filledNotional) == U64(start.filledNotional + c.worth)
  }

  ghost predicate Balanced(e: Engine, g: Ledger, start: Engine) {
    && e.Ok() && Indexed(e) && AllWorking(e, g) && AllPlaced(e, g, start.symbols) && Tallied(e.stats, g.tally, start.stats)
  }

  // ----- one report ----------------------------------------------------------------------------

  function Shift(moved: bool, isBuy: bool, n: int): int {
    if !moved then 0 else if isBuy then n else -n
  }

  /** What taking n shares off a working order does to the open orders and the positions. */
  ghost predicate Took(e: Engine, t: Token, n: nat, moved: bool, e': Engine)
    requires t in e.open && n <= e.open[t].leaves
  {
    var o := e.open[t];
    && e'.open == (if n == o.leaves then e.open - {t} else e.open[t := o.(leaves := o.leaves - n)])
    && |e'.symbols| == |e.symbols|
    && forall l {:trigger e'.symbols[l]} :: 0 <= l < |e.symbols| ==>
         e'.symbols[l].position
         == e.symbols[l].position + Shift(moved && l == o.locate, o.isBuy, n)
  }

  lemma ReduceTakes(e: Engine, t: Token, n: nat, filled: bool)
    requires e.Ok() && t in e.open && e.open[t].locate < LOCATES && n <= e.open[t].leaves
    ensures Took(e, t, n, filled, ReduceAndRetire(e, t, n, filled))
    ensures var s := ReduceAndRetire(e, t, n, filled).stats; s == e.stats.(drift := s.drift)
  {
    var m := Reduce(e, t, n, filled);
    assert m.open - {t} == e.open - {t};
  }

  lemma TookWorking(e: Engine, g: Ledger, t: Token, n: nat, moved: bool, e': Engine, g': Ledger)
    requires AllWorking(e, g) && t in e.open && n <= e.open[t].leaves && Took(e, t, n, moved, e')
    requires g'.orders == g.orders && forall k {:trigger Left(g', k)} :: Left(g', k) == Left(g, k) - (if k == t then n else 0)
    ensures AllWorking(e', g')
  {
    forall k ensures Working(e', g', k) {
      assert Working(e, g, k);
    }
  }

  /** What a ledger entry of n shares under a token does to the positions it expects. */
  ghost predicate Moves(g: Ledger, t: Token, n: nat, moved: bool, g': Ledger)
    requires t in g.orders
  {
    var r := g.orders[t];
    forall l: nat {:trigger Net(g', l)} ::
      Net(g', l) == Net(g, l) + Shift(moved && l == r.locate, r.isBuy, n)
  }

  function Net(g: Ledger, l: nat): int {
    At(g.bought, l) - At(g.sold, l)
  }

  lemma TookPlaced(e: Engine, g: Ledger, start: seq<Symbol>, t: Token, n: nat, moved: bool, e': Engine, g': Ledger)
    requires AllPlaced(e, g, start) && t in e.open && n <= e.open[t].leaves && Took(e, t, n, moved, e')
    requires t in g.orders && g.orders[t].locate == e.open[t].locate && g.orders[t].isBuy == e.open[t].isBuy
    requires Moves(g, t, n, moved, g')
    ensures AllPlaced(e', g', start)
  {
    forall l: nat | l < |start| ensures Placed(e', g', start, l) {
      assert Placed(e, g, start, l);
      assert e'.symbols[l].position - e.symbols[l].position == Net(g', l) - Net(g, l);
    }
  }

  lemma SoldMoves(g: Ledger, t: Token, n: nat)
    requires t in g.orders
    ensures var g' := Sold(g, t, n);
      && g'.orders == g.orders && Moves(g, t, n, true, g')
      && forall k {:trigger Left(g', k)} :: Left(g', k) == Left(g, k) - (if k == t then n else 0)
  {
    var r := g.orders[t];
    PlusIs(g.filled, t, n);
    PlusIs(if r.isBuy then g.bought else g.sold, r.locate, n);
  }

  lemma PlusIs<K(!new)>(m: map<K, nat>, k: K, n: nat)
    ensures forall j {:trigger At(Plus(m, k, n), j)} :: At(Plus(m, k, n), j) == At(m, j) + (if j == k then n else 0)
  {
  }

  lemma GoneMoves(g: Ledger, t: Token, n: nat)
    requires t in g.orders
    ensures var g' := g.(gone := Plus(g.gone, t, n));
      && Moves(g, t, n, false, g')
      && forall k {:trigger Left(g', k)} :: Left(g', k) == Left(g, k) - (if k == t then n else 0)
  {
  }

  lemma SameButTally(g: Ledger, c: Tally)
    ensures var g' := g.(tally := c);
      && (forall k {:trigger Left(g', k)} :: Left(g', k) == Left(g, k)) && forall l {:trigger Net(g', l)} :: Net(g', l) == Net(g, l)
  {
  }

  /** A report of n shares, entered the same way on both sides, keeps the balance. */
  lemma ReportBalances(e: Engine, g: Ledger, start: Engine, t: Token, n: nat, filled: bool, stats: Stats, g': Ledger)
    requires Balanced(e, g, start) && t in e.open && n <= e.open[t].leaves
    requires t in g.orders && Moves(g, t, n, filled, g') && g'.orders == g.orders
    requires forall k {:trigger Left(g', k)} :: Left(g', k) == Left(g, k) - (if k == t then n else 0)
    requires forall drift :: Tallied(stats.(drift := drift), g'.tally, start.stats)
    ensures Balanced(ReduceAndRetire(e.(stats := stats), t, n, filled), g', start)
  {
    var e1 := e.(stats := stats);
    var e' := ReduceAndRetire(e1, t, n, filled);
    assert Working(e, g, t);
    ReduceTakes(e1, t, n, filled);
    assert Took(e, t, n, filled, e');
    TookWorking(e, g, t, n, filled, e', g');
    TookPlaced(e, g, start.symbols, t, n, filled, e', g');
    IndexedStill(e, g', e');
  }

  lemma IndexedStill(e: Engine, g: Ledger, e': Engine)
    requires AllWorking(e', g)
    ensures Indexed(e')
  {
    forall k | k in e'.open ensures e'.open[k].locate < LOCATES {
      assert Working(e', g, k);
    }
  }

  lemma AddedUp(a: int, b: int, x: int)
    requires U64(a) == U64(b)
    ensures U64(U64(a + x)) == U64(b + x)
  {
  }

  lemma UnknownBalances(e: Engine, g: Ledger, start: Engine, t: Token)
    requires Balanced(e, g, start) && t !in e.open
    ensures Left(g, t) <= 0 && Balanced(UnknownToken(e), Unknown(g), start)
  {
    assert Working(e, g, t);
    SameBalances(e, g, start, UnknownToken(e), Unknown(g));
  }

  /** Where neither orders nor positions change, only the counts must agree. */
  lemma SameBalances(e: Engine, g: Ledger, start: Engine, e': Engine, g': Ledger)
    requires Balanced(e, g, start) && e'.Ok() && e'.open == e.open && |e'.symbols| == |e.symbols|
    requires forall l {:trigger e'.symbols[l]} :: 0 <= l < |e.symbols| ==> e'.symbols[l].position == e.symbols[l].position
    requires g' == g.(tally := g'.tally) && Tallied(e'.stats, g'.tally, start.stats)
    ensures Balanced(e', g', start)
  {
    SameButTally(g, g'.tally);
    forall k ensures Working(e', g', k) {
      assert Working(e, g, k);
    }
    forall l: nat | l < |start.symbols| ensures Placed(e', g', start.symbols, l) {
      assert Placed(e, g, start.symbols, l);
    }
  }

  lemma FillEntry(g: Ledger, t: Token, shares: nat, price: int)
    requires Left(g, t) > 0 && t in g.orders
    ensures var g', n := Entered(g, Fill(t, shares, price), false), Clip(shares, Left(g, t));
      && g'.orders == g.orders && Moves(g, t, n, true, g')
      && forall k {:trigger Left(g', k)} :: Left(g', k) == Left(g, k) - (if k == t then n else 0)
  {
    var n := Clip(shares, Left(g, t));
    var g' := Entered(g, Fill(t, shares, price), false);
    assert Lesser(shares, Left(g, t)) == n;
    SoldMoves(g, t, n);
    SameButTally(Sold(g, t, n), g'.tally);
  }

  lemma FillTallied(stats: Stats, g: Ledger, start: Stats, t: Token, shares: nat, price: int)
    requires Tallied(stats, g.tally, start) && Left(g, t) > 0
    ensures forall drift :: Tallied(FillStats(stats, shares, Left(g, t), price).(drift := drift),
                                    Entered(g, Fill(t, shares, price), false).tally, start)
  {
    var n := Clip(shares, Left(g, t));
    assert Lesser(shares, Left(g, t)) == n;
    AddedUp(stats.filledNotional, start.filledNotional + g.tally.worth, n * (if price > 0 then price else 0));
  }

  lemma FillBalances(e: Engine, g: Ledger, start: Engine, t: Token, shares: nat, price: int)
    requires Balanced(e, g, start)
    ensures Balanced(OnFill(e, t, shares, price), Entered(g, Fill(t, shares, price), false), start)
  {
    if t !in e.open {
      UnknownBalances(e, g, start, t);
    } else {
      assert Working(e, g, t);
      var leaves := e.open[t].leaves;
      FillEntry(g, t, shares, price);
      FillTallied(e.stats, g, start.stats, t, shares, price);
      ReportBalances(e, g, start, t, Clip(shares, leaves), true, FillStats(e.stats, shares, leaves, price),
                     Entered(g, Fill(t, shares, price), false));
    }
  }

  lemma CancelBalances(e: Engine, g: Ledger, start: Engine, t: Token, decrement: nat)
    requires Balanced(e, g, start)
    ensures Balanced(OnCancelAcked(e, t, decrement), Entered(g, CancelAck(t, decrement), false), start)
  {
    if t !in e.open {
      UnknownBalances(e, g, start, t);
    } else {
      assert Working(e, g, t);
      var leaves := e.open[t].leaves;
      var asked := if decrement == 0 then leaves else decrement;
      var g' := Entered(g, CancelAck(t, decrement), false);
      GoneMoves(g, t, Clip(asked, leaves));
      SameButTally(g.(gone := Plus(g.gone, t, Clip(asked, leaves))), g'.tally);
      ReportBalances(e, g, start, t, Clip(asked, leaves), false, CancelStats(e.stats, asked, leaves), g');
    }
  }

  lemma RejectBalances(e: Engine, g: Ledger, start: Engine, t: Token)
    requires Balanced(e, g, start)
    ensures Balanced(OnReject(e, t), Entered(g, RejectAck(t), false), start)
  {
    if t !in e.open {
      UnknownBalances(e, g, start, t);
    } else {
      assert Working(e, g, t);
      var leaves := e.open[t].leaves;
      var g' := Entered(g, RejectAck(t), false);
      GoneMoves(g, t, leaves);
      SameButTally(g.(gone := Plus(g.gone, t, leaves)), g'.tally);
      ReportBalances(e, g, start, t, leaves, false, e.stats.(rejects := e.stats.rejects + 1), g');
    }
  }

  lemma SendBalances(e: Engine, g: Ledger, start: Engine, r: Request)
    requires Balanced(e, g, start) && r.locate < LOCATES && Check(e, r) == Pass
    ensures Balanced(OnOrderSent(e, r), Entered(g, Send(r), true), start)
  {
    var e', g' := OnOrderSent(e, r), Entered(g, Send(r), true);
    assert Working(e, g, r.token) && r.token !in e.open && r.shares > 0;
    forall k ensures Working(e', g', k) {
      assert Working(e, g, k);
    }
    forall l: nat | l < |start.symbols| ensures Placed(e', g', start.symbols, l) {
      assert Placed(e, g, start.symbols, l);
    }
  }

  lemma StepBalances(e: Engine, g: Ledger, start: Engine, ev: Event)
    requires Balanced(e, g, start) && Wellformed(ev)
    ensures Balanced(Step(e, ev), Entered(g, ev, Passed(e, ev)), start)
  {
    match ev
    case Send(r) => if Check(e, r) == Pass { SendBalances(e, g, start, r); }
    case Fill(t, shares, price) => FillBalances(e, g, start, t, shares, price);
    case CancelAck(t, decrement) => CancelBalances(e, g, start, t, decrement);
    case RejectAck(t) => RejectBalances(e, g, start, t);
    case _ => SameBalances(e, g, start, Step(e, ev), g);
  }

  lemma {:induction false} RunBalances(e: Engine, g: Ledger, start: Engine, events: seq<Event>)
    requires Kept(e, g, start) && e.Ok() && Indexed(e) && AllWellformed(events)
    ensures Kept(Run(e, events), EnteredAll(g, e, events), start)
    decreases |events|
  {
    if events != [] {
      StepKept(e, g, start, events[0]);
      StepIndexed(e, events[0]);
      RunBalances(Step(e, events[0]), Entered(g, events[0], Passed(e, events[0])), start, events[1..]);
    }
  }

  ghost predicate Kept(e: Engine, g: Ledger, start: Engine) {
    forall k: nat {:trigger Look(k)} :: Look(k) ==> Balanced(e, g, start)
  }

  lemma StepKept(e: Engine, g: Ledger, start: Engine, ev: Event)
    requires Kept(e, g, start) && e.Ok() && Indexed(e) && Wellformed(ev)
    ensures Kept(Step(e, ev), Entered(g, ev, Passed(e, ev)), start)
  {
    assert Look(0);
    StepBalances(e, g, start, ev);
  }

  // ----- the theorem ------------------------------------------------------------------------------

  lemma StartBalances(e: Engine)
    requires e.Ok() && e.open == map[]
    ensures Kept(e, NOTHING, e) && Indexed(e)
  {
    forall k ensures Working(e, NOTHING, k) {
    }
    forall l: nat | l < |e.symbols| ensures Placed(e, NOTHING, e.symbols, l) {
    }
  }

  /**
    In every run from an engine with nothing working: for each token, what was sent is what was
    filled, what was cancelled or rejected, and what is still working, under the symbol, side
    and price of the latest order sent; and each position is where it started, plus the shares
    filled on buys, less those filled on sells.
   */
  lemma BooksBalance(e: Engine, events: seq<Event>, t: Token, l: nat)
    requires e.Ok() && Indexed(e) && e.open == map[] && AllWellformed(events) && l < LOCATES
    ensures var e', g := Run(e, events), EnteredAll(NOTHING, e, events);
      && At(g.sent, t) == At(g.filled, t) + At(g.gone, t) + (if t in e'.open then e'.open[t].leaves else 0)
      && (t in e'.open ==> t in g.orders && e'.open[t].leaves > 0 && e'.open[t].locate == g.orders[t].locate)
      && (t in e'.open ==> e'.open[t].isBuy == g.orders[t].isBuy && e'.open[t].price == g.orders[t].price)
      && e'.symbols[l].position == e.symbols[l].position + At(g.bought, l) - At(g.sold, l)
      && Tallied(e'.stats, g.tally, e.stats)
  {
    StartBalances(e);
    RunBalances(e, NOTHING, e, events);
    assert Look(0);
    assert Working(Run(e, events), EnteredAll(NOTHING, e, events), t);
    assert Placed(Run(e, events), EnteredAll(NOTHING, e, events), e.symbols, l);
  }
}
