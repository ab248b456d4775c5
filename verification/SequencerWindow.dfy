/**
  Where the front of the stream goes and what a message leaves behind: the front moves by the
  least that makes room, everything it passes that was there is delivered, everything it
  passes that was not is counted, and nothing else is lost.
 */
module SequencerWindow {
  import opened Common
  import opened SequencerModel
  import opened SequencerTheorems

  // ----- windows as maps --------------------------------------------------------------------

  /** f is the first sequence from `from` on that is not there. */
  ghost predicate FirstUnheld(there: map<nat, Payload>, from: nat, f: nat) {
    from <= f && f !in there && forall x {:trigger x in there} :: from <= x < f ==> x in there
  }

  function Above(there: map<nat, Payload>, f: nat): map<nat, Payload> {
    map x | x in there && x >= f :: there[x]
  }

  /** What is there from lo up to hi, in order. */
  function Listing(there: map<nat, Payload>, lo: nat, hi: nat): seq<Message>
    decreases hi
  {
    if hi <= lo then []
    else Listing(there, lo, hi - 1) + if hi - 1 in there then [Message(hi - 1, there[hi - 1])] else []
  }

  /** How many sequences from lo up to hi are not there. */
  function Missing(there: map<nat, Payload>, lo: nat, hi: nat): nat
    decreases hi
  {
    if hi <= lo then 0 else Missing(there, lo, hi - 1) + if hi - 1 in there then 0 else 1
  }

  lemma {:induction false} Split(there: map<nat, Payload>, lo: nat, mid: nat, hi: nat)
    requires lo <= mid <= hi
    ensures Listing(there, lo, hi) == Listing(there, lo, mid) + Listing(there, mid, hi)
    ensures Missing(there, lo, hi) == Missing(there, lo, mid) + Missing(there, mid, hi)
    decreases hi
  {
    if mid < hi {
      Split(there, lo, mid, hi - 1);
    }
  }

  lemma {:induction false} Agreeing(a: map<nat, Payload>, b: map<nat, Payload>, lo: nat, hi: nat)
    requires forall x :: lo <= x < hi ==> (x in a <==> x in b) && (x in a ==> a[x] == b[x])
    ensures Listing(a, lo, hi) == Listing(b, lo, hi) && Missing(a, lo, hi) == Missing(b, lo, hi)
    decreases hi
  {
    if lo < hi {
      Agreeing(a, b, lo, hi - 1);
    }
  }

  // ----- the front ----------------------------------------------------------------------------

  /** From s to t the front went to `from` and on to the first sequence that is not there. */
  ghost predicate Advanced(s: Feed, there: map<nat, Payload>, from: nat, t: Feed) {
    && FirstUnheld(there, from, t.expected) && t.held == Above(there, t.expected)
    && t.history.output == s.history.output + Listing(there, s.expected, t.expected)
    && t.stats.dropped == s.stats.dropped + Missing(there, s.expected, from)
  }

  lemma TakeFrontOf(s: Feed, there: map<nat, Payload>)
    requires s.held == Above(there, s.expected) && s.expected in s.held
    ensures TakeFront(s).held == Above(there, s.expected + 1)
    ensures TakeFront(s).history.output == s.history.output + Listing(there, s.expected, s.expected + 1)
    ensures Missing(there, s.expected, s.expected + 1) == 0
  {
    assert Listing(there, s.expected, s.expected) == [];
  }

  lemma AdvancedBy(s: Feed, there: map<nat, Payload>, m: Feed, from: nat, t: Feed)
    requires s.expected + 1 == m.expected <= from && Advanced(m, there, from, t)
    requires m.history.output == s.history.output + Listing(there, s.expected, m.expected)
    requires m.stats.dropped == s.stats.dropped + Missing(there, s.expected, m.expected)
    ensures Advanced(s, there, from, t)
  {
    Split(there, s.expected, m.expected, t.expected);
    Split(there, s.expected, m.expected, from);
  }

  lemma {:induction false} DrainAdvances(s: Feed, there: map<nat, Payload>)
    requires s.held == Above(there, s.expected)
    ensures Advanced(s, there, s.expected, Drain(s))
    decreases |s.held|
  {
    if s.expected in s.held {
      RemoveShrinks(s.held, s.expected);
      var m, t := TakeFront(s), Drain(s);
      TakeFrontOf(s, there);
      DrainAdvances(m, there);
      Split(there, s.expected, m.expected, t.expected);
      FirstFurther(there, s.expected, t.expected);
    }
  }

  lemma FirstFurther(there: map<nat, Payload>, from: nat, f: nat)
    requires from in there && FirstUnheld(there, from + 1, f)
    ensures FirstUnheld(there, from, f)
  {
  }

  lemma {:induction false} WalkAdvances(s: Feed, there: map<nat, Payload>, target: nat)
    requires s.held == Above(there, s.expected) && s.expected <= target
    ensures Advanced(s, there, target, Walk(s, target))
    decreases target - s.expected
  {
    if s.expected == target {
      DrainAdvances(s, there);
    } else if s.expected in s.held {
      TakeFrontOf(s, there);
      WalkAdvances(TakeFront(s), there, target);
      AdvancedBy(s, there, TakeFront(s), target, Walk(s, target));
    } else {
      var m := DropFront(s);
      assert m.held == Above(there, m.expected);
      assert Listing(there, s.expected, m.expected) == [] && Missing(there, s.expected, m.expected) == 1;
      WalkAdvances(m, there, target);
      AdvancedBy(s, there, m, target, Walk(s, target));
    }
  }

  // ----- one message --------------------------------------------------------------------------

  /** The least front whose window reaches the message. */
  function Floor(p: Params, s: Feed, q: nat): nat
    requires p.Ok()
  {
    if q - (p.capacity - 1) > s.expected then q - (p.capacity - 1) else s.expected
  }

  /** A message is refused only if it must be stored and is too wide for a slot. */
  ghost predicate Taken(p: Params, s: Feed, q: nat, payload: Payload)
    requires p.Ok()
  {
    |payload| <= p.maxPayload || FirstUnheld(s.held, Floor(p, s, q), q)
  }

  /** What the window and the message make up together. */
  ghost function There(p: Params, s: Feed, q: nat, payload: Payload): map<nat, Payload>
    requires p.Ok()
  {
    if Taken(p, s, q, payload) then s.held[q := payload] else s.held
  }

  /** From s to t a message arrived that the window reaches after a step of the least size:
      all that was there below the new front went downstream, all that is there above it is
      held, and only what is missing below the least front is given up. */
  ghost predicate Arrived(p: Params, s: Feed, q: nat, payload: Payload, t: Feed)
    requires p.Ok()
  {
    var there, floor := There(p, s, q, payload), Floor(p, s, q);
    && FirstUnheld(there, floor, t.expected) && t.held == Above(there, t.expected)
    && t.history.output == s.history.output + Listing(there, s.expected, t.expected)
    && t.stats.dropped == s.stats.dropped + Missing(there, s.expected, floor) + if Taken(p, s, q, payload) then 0 else 1
  }

  ghost predicate Ready(p: Params, s: Feed) {
    p.Ok() && s.expected !in s.held && Window(p.capacity, s.expected, s.held)
  }

  /** The window as it stands once there is room for the message. */
  function Roomy(p: Params, s: Feed, q: nat): Feed
    requires p.Ok() && q >= s.expected
  {
    if q - s.expected >= p.capacity then MakeRoom(p, s, q) else s
  }

  lemma RoomAdvances(p: Params, s: Feed, q: nat)
    requires Ready(p, s) && s.expected <= q < s.expected + 2 * p.capacity - 1 && q !in s.held
    ensures Advanced(s, s.held, Floor(p, s, q), Roomy(p, s, q)) && Roomy(p, s, q).expected <= q
  {
    assert s.held == Above(s.held, s.expected);
    assert Listing(s.held, s.expected, s.expected) == [];
    if q - s.expected >= p.capacity {
      WalkAdvances(s, s.held, Floor(p, s, q));
    }
  }

  lemma EmitAdvances(s: Feed, m: Feed, q: nat, payload: Payload, from: nat, line: Option<Line>)
    requires Advanced(s, s.held, from, m) && m.expected == q && q !in s.held && s.expected <= from <= q
    ensures var there, e := s.held[q := payload], Emit(Credit(m, line), payload);
      && e.expected == q + 1 && e.held == Above(there, q + 1)
      && e.history.output == s.history.output + Listing(there, s.expected, q + 1)
      && e.stats.dropped == s.stats.dropped + Missing(there, s.expected, from)
      && Filled(there, from, q + 1)
  {
    var there := s.held[q := payload];
    Agreeing(there, s.held, s.expected, q);
    Agreeing(there, s.held, s.expected, from);
  }

  lemma DeliverAdvances(s: Feed, m: Feed, q: nat, payload: Payload, from: nat, line: Option<Line>, now: nat)
    requires Advanced(s, s.held, from, m) && m.expected == q && q !in s.held && s.expected <= from <= q
    ensures Advanced(s, s.held[q := payload], from, DeliverNow(m, payload, line, now))
  {
    var there := s.held[q := payload];
    EmitAdvances(s, m, q, payload, from, line);
    DrainFrom(Emit(Credit(m, line), payload), s, there, from);
    SettleMovesNothing(Drain(Emit(Credit(m, line), payload)), now);
  }

  lemma DrainFrom(e: Feed, s: Feed, there: map<nat, Payload>, from: nat)
    requires e.held == Above(there, e.expected) && s.expected <= from <= e.expected
    requires Filled(there, from, e.expected)
    requires e.history.output == s.history.output + Listing(there, s.expected, e.expected)
    requires e.stats.dropped == s.stats.dropped + Missing(there, s.expected, from)
    ensures Advanced(s, there, from, Drain(e))
  {
    var t := Drained(e, there);
    Split(there, s.expected, e.expected, t.expected);
    FirstJoined(there, from, e.expected, t.expected);
    Appended(s.history.output, Listing(there, s.expected, e.expected), Listing(there, e.expected, t.expected));
  }

  lemma Drained(e: Feed, there: map<nat, Payload>) returns (t: Feed)
    requires e.held == Above(there, e.expected)
    ensures t == Drain(e) && FirstUnheld(there, e.expected, t.expected) && t.held == Above(there, t.expected)
    ensures t.history.output == e.history.output + Listing(there, e.expected, t.expected)
    ensures t.stats.dropped == e.stats.dropped
  {
    DrainAdvances(e, there);
    t := Drain(e);
  }

  lemma Appended<T>(a: seq<T>, b: seq<T>, c: seq<T>)
    ensures a + b + c == a + (b + c)
  {
  }

  ghost predicate Filled(there: map<nat, Payload>, lo: nat, hi: nat) {
    forall x {:trigger x in there} :: lo <= x < hi ==> x in there
  }

  lemma FirstJoined(there: map<nat, Payload>, from: nat, mid: nat, f: nat)
    requires Filled(there, from, mid) && from <= mid && FirstUnheld(there, mid, f)
    ensures FirstUnheld(there, from, f)
  {
  }

  lemma HoldAdvances(s: Feed, m: Feed, q: nat, payload: Payload, from: nat, line: Option<Line>, now: nat)
    requires Advanced(s, s.held, from, m) && m.expected < q && q !in s.held && s.expected <= from
    ensures Advanced(s, s.held[q := payload], from, Hold(m, q, payload, line, now))
  {
    var there := s.held[q := payload];
    assert m.held[q := payload] == Above(there, m.expected);
    Agreeing(there, s.held, s.expected, m.expected);
    Agreeing(there, s.held, s.expected, from);
    HoldIs(m, q, payload, line, now);
  }

  lemma HoldIs(m: Feed, q: nat, payload: Payload, line: Option<Line>, now: nat)
    ensures var t := Hold(m, q, payload, line, now);
      && t.expected == m.expected && t.held == m.held[q := payload] && t.history == m.history
      && t.stats.dropped == m.stats.dropped
  {
  }

  lemma PlaceArrives(p: Params, s: Feed, q: nat, payload: Payload, line: Option<Line>, now: nat)
    requires Ready(p, s) && s.expected <= q < s.expected + 2 * p.capacity - 1 && q !in s.held
    ensures var (t, taken) := Place(p, Roomy(p, s, q), q, payload, line, now);
      Arrived(p, s, q, payload, t) && (taken <==> Taken(p, s, q, payload))
  {
    var m, floor := Roomy(p, s, q), Floor(p, s, q);
    RoomAdvances(p, s, q);
    assert m.expected == q <==> FirstUnheld(s.held, floor, q);
    if m.expected == q {
      DeliverAdvances(s, m, q, payload, floor, line, now);
    } else if |payload| <= p.maxPayload {
      HoldAdvances(s, m, q, payload, floor, line, now);
    }
  }

  lemma IngestArrives(p: Params, s: Feed, q: nat, payload: Payload, line: Option<Line>, now: nat)
    requires Ready(p, s) && s.started && s.expected <= q < s.expected + 2 * p.capacity - 1 && q !in s.held
    ensures var (t, taken) := Ingest(p, s, q, payload, line, now);
      Arrived(p, s, q, payload, t) && (taken <==> Taken(p, s, q, payload))
  {
    PlaceArrives(p, s, q, payload, line, now);
    if q == s.expected {
      assert Roomy(p, s, q) == s;
    }
  }

  /** The sequence and payload an arrival carries. */
  predicate Carried(e: Event, q: nat, payload: Payload) {
    (e.OnMessage? || e.OnRetransmit?) && e.sequence == q && e.payload == payload
  }

  /** A first copy, from a line or from the server, that lies less than two windows ahead. */
  lemma FirstCopy(p: Params, s: Feed, e: Event, q: nat, payload: Payload)
    requires Ready(p, s) && s.started && Carried(e, q, payload)
    requires s.expected <= q < s.expected + 2 * p.capacity - 1 && q !in s.held
    ensures Arrived(p, s, q, payload, Step(p, s, e))
  {
    if e.OnMessage? {
      IngestArrives(p, s, q, payload, Some(e.line), e.now);
    } else {
      IngestArrives(p, s, q, payload, None, e.now);
    }
  }

  /** A message further ahead abandons the window and everything before it, and is delivered. */
  lemma FarAhead(p: Params, s: Feed, e: Event, q: nat, payload: Payload)
    requires Ready(p, s) && s.started && Carried(e, q, payload) && q >= s.expected + 2 * p.capacity - 1
    ensures var t := Step(p, s, e);
      && t.expected == q + 1 && t.held == map[]
      && t.history.output == s.history.output + [Message(q, payload)]
      && t.stats.dropped == s.stats.dropped + (q - s.expected)
  {
    WideRoomIs(p, s, q);
    var m, line := EnterStale(Wipe(s, q)), if e.OnMessage? then Some(e.line) else None;
    var d := Emit(Credit(m, line), payload);
    assert Drain(d) == d;
    SettleMovesNothing(d, e.now);
    assert Ingest(p, s, q, payload, line, e.now) == (DeliverNow(m, payload, line, e.now), true);
  }

  /** A second copy, of a sequence already passed or already held, changes one counter. */
  lemma SecondCopy(p: Params, s: Feed, e: Event, q: nat, payload: Payload)
    requires p.Ok() && s.started && Carried(e, q, payload) && (q < s.expected || (q in s.held && q != s.expected))
    ensures Step(p, s, e) == s.(stats := s.stats.(duplicates := s.stats.duplicates + 1))
  {
  }

  /** The first message of all starts the stream at its own sequence. */
  lemma FirstOfAll(p: Params, s: Feed, e: Event, q: nat, payload: Payload)
    requires p.Ok() && !s.started && Carried(e, q, payload)
    ensures Step(p, s, e) == Step(p, Reset(s, q), e)
    ensures Ready(p, Reset(s, q)) && Reset(s, q).started && Reset(s, q).expected == q
  {
  }

  // ----- giving up a hole ---------------------------------------------------------------------

  /** The first sequence that is held. */
  ghost predicate FirstHeld(s: Feed, h: nat) {
    h in s.held && forall x {:trigger x in s.held} :: x in s.held ==> h <= x
  }

  /** Stepping over a hole gives up the sequences before the first held one, and no other. */
  lemma StepsOver(p: Params, s: Feed) returns (h: nat)
    requires Ready(p, s) && |s.held| > 0
    ensures FirstHeld(s, h) && s.expected < h && Advanced(s, s.held, h, SkipHole(p, s))
  {
    MissingRunExact(p, s);
    h := s.expected + MissingRun(p, s);
    assert s.held == Above(s.held, s.expected);
    WalkAdvances(s, s.held, h);
  }
}
