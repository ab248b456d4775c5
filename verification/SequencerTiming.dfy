/**
  The clock of the gap machine.  An observer that sees only the events, their times, the
  requests and what is held works out in which state the feed must be and when it may ask,
  ask again, give up or step over a hole; every run does exactly that.
 */
module SequencerTiming {
  import opened Common
  import opened SequencerModel
  import opened SequencerTheorems
  import opened SequencerWindow

  /** What the observer remembers: whether something was given up, whether a request is out,
      when the current hole opened, when it was last asked about or answered in part, where the
      request ends, and how often it was made. */
  datatype Watch = Watch(stale: bool, asking: bool, since: nat, asked: nat, end: nat, requests: nat)

  const IDLE := Watch(false, false, 0, 0, 0, 0)

  /** A first copy that was delivered or is held afterwards. */
  predicate TakenIn(s: Feed, q: nat, t: Feed) {
    q >= s.expected && q !in s.held && (q < t.expected || q in t.held)
  }

  /** The request that is out is answered in full, by whoever sent the messages. */
  predicate Answered(w: Watch, t: Feed) {
    w.asking && !w.stale && t.expected >= w.end
  }

  /** A hole opens when a message is the only one held, or when an answer uncovers the next. */
  predicate HoleOpens(w: Watch, s: Feed, q: nat, t: Feed) {
    (q !in s.held && t.held.Keys == {q}) || (Answered(w, t) && t.held != map[])
  }

  function SawMessage(p: Params, w: Watch, s: Feed, q: nat, now: nat, reply: bool, t: Feed): Watch {
    var w1 := w.(stale := w.stale || q >= s.expected + p.capacity);
    var asking := w1.asking && !w1.stale && !Answered(w1, t) && t.held != map[];
    w1.(asking := asking,
        since := if HoleOpens(w1, s, q, t) then now else w.since,
        asked := if reply && asking && TakenIn(s, q, t) then now else w.asked)
  }

  function SawPoll(w: Watch, s: Feed, now: nat, request: Option<Request>, t: Feed): Watch {
    if request.Some? then
      w.(asking := true, asked := now, end := request.value.first + request.value.count,
         requests := if w.asking then w.requests + 1 else 1)
    else if t.expected == s.expected then w
    else if w.stale then w.(since := now)
    else w.(stale := true, asking := false)
  }

  function Saw(p: Params, w: Watch, s: Feed, e: Event): Watch
    requires p.Ok()
  {
    match e
    case OnReset(_) => IDLE
    case OnPoll(now) => SawPoll(w, s, now, Poll(p, s, now).1, Step(p, s, e))
    case OnMessage(_, q, _, now) => if s.started then SawMessage(p, w, s, q, now, false, Step(p, s, e)) else IDLE
    case OnRetransmit(q, _, now) => if s.started then SawMessage(p, w, s, q, now, true, Step(p, s, e)) else IDLE
  }

  function SawAll(p: Params, w: Watch, s: Feed, es: seq<Event>): Watch
    requires p.Ok()
    decreases |es|
  {
    if es == [] then w else SawAll(p, Saw(p, w, s, es[0]), Step(p, s, es[0]), es[1..])
  }

  // ----- what the observer knows ----------------------------------------------------------------

  function StateOf(w: Watch, s: Feed): FeedState {
    if w.stale then Stale else if s.held == map[] then Synced else if w.asking then Recovering else Gap
  }

  ghost predicate Timed(p: Params, s: Feed, w: Watch) {
    && s.state == StateOf(w, s)
    && (w.asking ==> !w.stale && s.held != map[])
    && (s.held != map[] ==> s.gapSince == w.since)
    && (w.asking ==> s.deadline == w.asked + p.timeoutNs && s.recoveryEnd == w.end > s.expected && s.attempts == w.requests)
  }

  /** Everything but the front, the window and the statistics. */
  predicate SameTimers(s: Feed, t: Feed) {
    && t.gapSince == s.gapSince && t.deadline == s.deadline && t.recoveryEnd == s.recoveryEnd
    && t.attempts == s.attempts
  }

  /** How the timers stand after delivery from m. */
  ghost predicate Delivered(m: Feed, now: nat, t: Feed) {
    if t.held == map[] then
      t.state == (if m.state == Gap || m.state == Recovering then Synced else m.state)
    else if m.state == Recovering && t.expected >= m.recoveryEnd then t.state == Gap && t.gapSince == now
    else t.state == m.state && SameTimers(m, t)
  }

  lemma DeliveredIn(p: Params, m: Feed, payload: Payload, line: Option<Line>, now: nat, stream: Stream)
    requires p.Ok() && Sound(p, m, stream) && m.expected !in m.held && payload == stream(m.expected)
    ensures var t := DeliverNow(m, payload, line, now);
      Delivered(m, now, t) && t.expected > m.expected && t.started == m.started && t.held.Keys <= m.held.Keys
  {
    CreditSound(p, m, line, stream);
    EmitSound(p, Credit(m, line), payload, stream);
    var d := Emit(Credit(m, line), payload);
    DrainSound(p, d, stream, m.expected + p.capacity);
    SettledIn(d, Drain(d), m, now);
  }

  lemma SettledIn(d: Feed, f: Feed, m: Feed, now: nat)
    requires OnlyMoved(d, f) && d.state == m.state && SameTimers(m, d)
    ensures var t := Settle(f, now); Delivered(m, now, t) && t.expected == f.expected && t.held == f.held
  {
  }

  lemma HeldIn(m: Feed, q: nat, payload: Payload, line: Option<Line>, now: nat)
    ensures var t := Hold(m, q, payload, line, now);
      && t.expected == m.expected && t.held == m.held[q := payload] && t.started == m.started
      && t.state == (if m.state == Synced then Gap else m.state)
      && SameTimers(m.(gapSince := if m.held == map[] then now else m.gapSince), t)
  {
  }

  // ----- one message --------------------------------------------------------------------------

  /** The feed once there is room for the message: itself, or Stale with no more held. */
  ghost predicate MadeRoom(p: Params, s: Feed, q: nat, m: Feed) {
    && m.held.Keys <= s.held.Keys && s.expected <= m.expected <= q && q !in m.held && m.gapSince == s.gapSince
    && (if q >= s.expected + p.capacity then m.state == Stale else m == s)
  }

  /** Making room moves the front and shrinks the window before it turns Stale. */
  lemma RoomIs(p: Params, s: Feed, q: nat, stream: Stream) returns (f: Feed)
    requires p.Ok() && Inv(p, s, stream) && q >= s.expected + p.capacity
    ensures MakeRoom(p, s, q) == EnterStale(f) && f.gapSince == s.gapSince
    ensures f.held.Keys <= s.held.Keys && f.expected >= s.expected
  {
    var target := q - (p.capacity - 1);
    if target - s.expected >= p.capacity {
      WideRoomIs(p, s, q);
      f := Wipe(s, q);
    } else {
      WalkSound(p, s, target, stream, q);
      f := Walk(s, target);
    }
  }

  lemma RoomMade(p: Params, s: Feed, q: nat, stream: Stream)
    requires p.Ok() && Inv(p, s, stream) && s.started && q >= s.expected && q !in s.held
    ensures var m := Roomy(p, s, q);
      MadeRoom(p, s, q, m) && Sound(p, m, stream) && m.expected !in m.held && m.started
  {
    if q - s.expected >= p.capacity {
      var m := MakeRoom(p, s, q);
      MakeRoomSound(p, s, q, stream);
      var f := RoomIs(p, s, q, stream);
      assert m.held == f.held && m.expected == f.expected && m.gapSince == f.gapSince;
    }
  }

  lemma DeliveredTimed(p: Params, s: Feed, w: Watch, q: nat, m: Feed, now: nat, t: Feed)
    requires Timed(p, s, w) && MadeRoom(p, s, q, m) && Delivered(m, now, t) && t.expected > q == m.expected
    requires t.held.Keys <= m.held.Keys
    ensures Timed(p, t, SawMessage(p, w, s, q, now, false, t))
  {
    assert q !in t.held;
    assert t.held != map[] ==> t.held.Keys != {} && m.held != map[] && s.held != map[];
  }

  lemma RefusedTimed(p: Params, s: Feed, w: Watch, q: nat, m: Feed, now: nat, t: Feed)
    requires Timed(p, s, w) && MadeRoom(p, s, q, m)
    requires t.held == m.held && t.expected == m.expected && t.state == m.state && SameTimers(m, t)
    ensures Timed(p, t, SawMessage(p, w, s, q, now, false, t))
  {
    assert q !in t.held;
    assert t.held != map[] ==> t.held.Keys != {} && s.held != map[];
  }

  lemma HeldTimed(p: Params, s: Feed, w: Watch, q: nat, payload: Payload, m: Feed, now: nat, t: Feed)
    requires Timed(p, s, w) && MadeRoom(p, s, q, m) && q !in s.held && m.expected < q
    requires t.held == m.held[q := payload] && t.expected == m.expected && t.state == (if m.state == Synced then Gap else m.state)
    requires SameTimers(m.(gapSince := if m.held == map[] then now else m.gapSince), t)
    ensures Timed(p, t, SawMessage(p, w, s, q, now, false, t))
  {
    assert t.held.Keys == m.held.Keys + {q};
    assert m.held == map[] <==> t.held.Keys == {q} by {
      if m.held != map[] {
        var x :| x in m.held;
        assert x in t.held.Keys && x != q;
      }
    }
    assert t.held != map[];
  }

  lemma PlaceTimed(p: Params, s: Feed, w: Watch, q: nat, payload: Payload, line: Option<Line>, now: nat, stream: Stream)
    requires p.Ok() && Inv(p, s, stream) && s.started && payload == stream(q) && Timed(p, s, w)
    requires q >= s.expected && q !in s.held
    ensures var (t, taken) := Place(p, Roomy(p, s, q), q, payload, line, now);
      Timed(p, t, SawMessage(p, w, s, q, now, false, t)) && t.started && (taken <==> q < t.expected || q in t.held)
  {
    var m := Roomy(p, s, q);
    RoomMade(p, s, q, stream);
    if q == m.expected {
      DeliveredIn(p, m, payload, line, now, stream);
      DeliveredTimed(p, s, w, q, m, now, DeliverNow(m, payload, line, now));
    } else if |payload| > p.maxPayload {
      RefusedTimed(p, s, w, q, m, now, RefuseWide(m));
    } else {
      HeldIn(m, q, payload, line, now);
      HeldTimed(p, s, w, q, payload, m, now, Hold(m, q, payload, line, now));
    }
  }

  lemma CopyTimed(p: Params, s: Feed, w: Watch, q: nat, now: nat, t: Feed)
    requires Timed(p, s, w) && q < s.expected + p.capacity
    requires t.held == s.held && t.expected == s.expected && t.state == s.state && SameTimers(s, t)
    ensures Timed(p, t, SawMessage(p, w, s, q, now, false, t))
  {
    assert q !in s.held ==> t.held.Keys != {q} by {
      assert t.held.Keys == {q} ==> q in t.held.Keys;
    }
  }

  lemma IngestTimed(p: Params, s: Feed, w: Watch, q: nat, payload: Payload, line: Option<Line>, now: nat, stream: Stream)
    requires p.Ok() && Inv(p, s, stream) && s.started && payload == stream(q) && Timed(p, s, w)
    ensures var (t, taken) := Ingest(p, s, q, payload, line, now);
      Timed(p, t, SawMessage(p, w, s, q, now, false, t)) && (taken <==> TakenIn(s, q, t))
  {
    if q < s.expected || q in s.held {
      CopyTimed(p, s, w, q, now, CountDuplicate(s));
    } else {
      PlaceTimed(p, s, w, q, payload, line, now, stream);
      assert q == s.expected ==> Roomy(p, s, q) == s;
    }
  }

  // ----- every event --------------------------------------------------------------------------

  lemma RetransmitTimed(p: Params, s: Feed, w: Watch, q: nat, payload: Payload, now: nat, stream: Stream)
    requires p.Ok() && Inv(p, s, stream) && s.started && payload == stream(q) && Timed(p, s, w)
    ensures var t := Retransmit(p, s, q, payload, now); Timed(p, t, SawMessage(p, w, s, q, now, true, t))
  {
    IngestTimed(p, s, w, q, payload, None, now, stream);
    var (m, taken) := Ingest(p, s, q, payload, None, now);
    RetransmitIs(m, taken, p, now);
    ReplyTimed(p, s, w, q, now, m, taken, Retransmit(p, s, q, payload, now));
  }

  /** What a reply adds to the message in it. */
  ghost predicate Replied(p: Params, m: Feed, taken: bool, now: nat, t: Feed) {
    && t.expected == m.expected && t.held == m.held && t.state == m.state && t.started == m.started
    && SameTimers(if taken && m.state == Recovering then m.(deadline := now + p.timeoutNs) else m, t)
  }

  lemma RetransmitIs(m: Feed, taken: bool, p: Params, now: nat)
    ensures Replied(p, m, taken, now,
      if !taken then m
      else
        var s2 := m.(stats := m.stats.(fromRecovery := m.stats.fromRecovery + 1));
        if s2.state == Recovering then s2.(deadline := now + p.timeoutNs) else s2)
  {
  }

  lemma ReplyTimed(p: Params, s: Feed, w: Watch, q: nat, now: nat, m: Feed, taken: bool, t: Feed)
    requires Timed(p, m, SawMessage(p, w, s, q, now, false, m)) && (taken <==> TakenIn(s, q, m)) && Replied(p, m, taken, now, t)
    ensures Timed(p, t, SawMessage(p, w, s, q, now, true, t))
  {
  }

  /** What asking changes. */
  ghost predicate Asked(p: Params, s: Feed, now: nat, r: Request, t: Feed) {
    && t.held == s.held && t.expected == s.expected && t.history == s.history && t.stats.dropped == s.stats.dropped
    && t.state == Recovering && t.gapSince == s.gapSince && t.deadline == now + p.timeoutNs
    && t.recoveryEnd == r.first + r.count > s.expected
    && t.attempts == if s.state == Recovering then s.attempts + 1 else 1
  }

  lemma AskIs(p: Params, s: Feed, now: nat, stream: Stream)
    requires p.Ok() && Inv(p, s, stream) && Poll(p, s, now).1.Some?
    ensures Asked(p, s, now, Poll(p, s, now).1.value, Poll(p, s, now).0) && (s.state == Gap || s.state == Recovering)
  {
    RequestNamesTheHole(p, s, now, stream);
  }

  lemma AskTimed(p: Params, s: Feed, w: Watch, now: nat, r: Request, t: Feed)
    requires Timed(p, s, w) && Asked(p, s, now, r, t) && (s.state == Gap || s.state == Recovering)
    ensures Timed(p, t, SawPoll(w, s, now, Some(r), t))
  {
  }

  /** What stepping over the hole changes. */
  ghost predicate SteppedOver(s: Feed, now: nat, t: Feed) {
    && t.held.Keys <= s.held.Keys && t.expected > s.expected && t.state == Stale
    && t.gapSince == if s.state == Stale then now else s.gapSince
  }

  lemma StepOverIs(p: Params, s: Feed, now: nat, stream: Stream)
    requires p.Ok() && Inv(p, s, stream) && |s.held| > 0 && Poll(p, s, now).1.None? && Poll(p, s, now).0 != s
    ensures SteppedOver(s, now, Poll(p, s, now).0)
  {
    SkipHoleSound(p, s, stream);
    var h := StepsOver(p, s);
    assert SkipHole(p, s).expected >= h;
  }

  lemma StepOverTimed(p: Params, s: Feed, w: Watch, now: nat, t: Feed)
    requires Timed(p, s, w) && SteppedOver(s, now, t)
    ensures Timed(p, t, SawPoll(w, s, now, None, t))
  {
    assert t.held != map[] ==> t.held.Keys != {} && s.held != map[];
  }

  lemma PollTimed(p: Params, s: Feed, w: Watch, now: nat, stream: Stream)
    requires p.Ok() && Inv(p, s, stream) && Timed(p, s, w)
    ensures Timed(p, Poll(p, s, now).0, SawPoll(w, s, now, Poll(p, s, now).1, Poll(p, s, now).0))
  {
    var (t, r) := Poll(p, s, now);
    if r.Some? {
      AskIs(p, s, now, stream);
      AskTimed(p, s, w, now, r.value, t);
    } else if t != s {
      StepOverIs(p, s, now, stream);
      StepOverTimed(p, s, w, now, t);
    }
  }

  /** The first message starts a session in step. */
  lemma StartTimed(p: Params, s: Feed, e: Event, stream: Stream)
    requires p.Ok() && Inv(p, s, stream) && Genuine(e, stream) && !s.started && !e.OnPoll?
    ensures Timed(p, Step(p, s, e), IDLE)
  {
    if !e.OnReset? {
      var r := Reset(s, e.sequence);
      var line := if e.OnMessage? then Some(e.line) else None;
      FirstOfAll(p, s, e, e.sequence, e.payload);
      ResetInv(p, s, e.sequence, stream);
      DeliveredIn(p, r, e.payload, line, e.now, stream);
      assert DeliverNow(r, e.payload, line, e.now).held.Keys == {};
    }
  }

  lemma StepTimed(p: Params, s: Feed, w: Watch, e: Event, stream: Stream)
    requires p.Ok() && Inv(p, s, stream) && Genuine(e, stream) && Timed(p, s, w)
    ensures Timed(p, Step(p, s, e), Saw(p, w, s, e))
  {
    match e
    case OnReset(_) =>
    case OnPoll(now) => PollTimed(p, s, w, now, stream);
    case OnMessage(line, q, payload, now) =>
      if s.started {
        IngestTimed(p, s, w, q, payload, Some(line), now, stream);
      } else {
        StartTimed(p, s, e, stream);
      }
    case OnRetransmit(q, payload, now) =>
      if s.started {
        RetransmitTimed(p, s, w, q, payload, now, stream);
      } else {
        StartTimed(p, s, e, stream);
      }
  }

  ghost predicate Kept(p: Params, s: Feed, w: Watch, stream: Stream) {
    forall k: nat {:trigger Look(k)} :: Look(k) ==> Inv(p, s, stream) && Timed(p, s, w)
  }

  lemma {:induction false} RunTimed(p: Params, s: Feed, w: Watch, es: seq<Event>, stream: Stream)
    requires p.Ok() && Kept(p, s, w, stream) && AllGenuine(es, stream)
    ensures Kept(p, Run(p, s, es), SawAll(p, w, s, es), stream)
    decreases |es|
  {
    if es != [] {
      StepKept(p, s, w, es[0], stream);
      RunTimed(p, Step(p, s, es[0]), Saw(p, w, s, es[0]), es[1..], stream);
    }
  }

  lemma StepKept(p: Params, s: Feed, w: Watch, e: Event, stream: Stream)
    requires p.Ok() && Kept(p, s, w, stream) && Genuine(e, stream)
    ensures Kept(p, Step(p, s, e), Saw(p, w, s, e), stream)
  {
    assert Look(0);
    StepInv(p, s, e, stream);
    StepTimed(p, s, w, e, stream);
  }

  // ----- the theorems ---------------------------------------------------------------------------

  /** In every run the feed is in the state the observer works out. */
  lemma StateIsKnown(p: Params, es: seq<Event>, stream: Stream)
    requires p.Ok() && AllGenuine(es, stream)
    ensures var s, w := Run(p, FRESH, es), SawAll(p, IDLE, FRESH, es);
      s.state == if w.stale then Stale else if s.held == map[] then Synced else if w.asking then Recovering else Gap
  {
    FreshInv(p, stream);
    RunTimed(p, FRESH, IDLE, es, stream);
    assert Look(0);
  }

  /** Is the window three quarters full. */
  predicate Pressed(p: Params, s: Feed) {
    4 * |s.held| >= 3 * p.capacity
  }

  /** The hole has been open for the grace period. */
  predicate GraceOver(p: Params, w: Watch, now: nat) {
    now >= w.since + p.graceNs
  }

  /** The request has been out for the timeout, counted from when it was made or last answered
      in part. */
  predicate TimedOut(p: Params, w: Watch, now: nat) {
    now >= w.asked + p.timeoutNs
  }

  /** What a poll must do: ask, give the hole up, or nothing at all. */
  datatype Due = Ask | GiveUp | Wait

  function DueAt(p: Params, w: Watch, s: Feed, now: nat): Due {
    if s.held == map[] then Wait
    else if w.stale then if GraceOver(p, w, now) then GiveUp else Wait
    else if !w.asking then if Pressed(p, s) || GraceOver(p, w, now) then Ask else Wait
    else if !TimedOut(p, w, now) then Wait
    else if w.requests < p.maxAttempts then Ask else GiveUp
  }

  /** Only the request changed the feed. */
  predicate OnlyAsked(s: Feed, t: Feed) {
    t.held == s.held && t.expected == s.expected && t.history == s.history && t.stats.dropped == s.stats.dropped
  }

  lemma PollDoes(p: Params, s: Feed, w: Watch, now: nat, stream: Stream)
    requires p.Ok() && Inv(p, s, stream) && Timed(p, s, w)
    ensures var (t, r) := Poll(p, s, now);
      match DueAt(p, w, s, now)
      case Wait => t == s && r.None?
      case Ask => r.Some? && OnlyAsked(s, t)
      case GiveUp => r.None? && t.state == Stale && exists h :: FirstHeld(s, h) && Advanced(s, s.held, h, t)
  {
    var due := DueAt(p, w, s, now);
    if due != Wait {
      if due == GiveUp {
        SkipHoleSound(p, s, stream);
        var h := StepsOver(p, s);
        assert FirstHeld(s, h) && Advanced(s, s.held, h, Poll(p, s, now).0);
      } else {
        AskIs(p, s, now, stream);
      }
    }
  }

  /**
    After any run, a poll asks if and only if the hole has been open for the grace period or
    the window is three quarters full, or the last request timed out and the budget is not spent;
    it gives the hole up if and only if the budget is spent, or the feed is Stale and the hole
    has been open for the grace period; and otherwise it leaves the feed exactly as it was.
   */
  lemma PollIsTimely(p: Params, es: seq<Event>, now: nat, stream: Stream)
    requires p.Ok() && AllGenuine(es, stream)
    ensures var s, w := Run(p, FRESH, es), SawAll(p, IDLE, FRESH, es); var (t, r) := Poll(p, s, now);
      match DueAt(p, w, s, now)
      case Wait => t == s && r.None?
      case Ask => r.Some? && OnlyAsked(s, t)
      case GiveUp => r.None? && t.state == Stale && exists h :: FirstHeld(s, h) && Advanced(s, s.held, h, t)
  {
    FreshInv(p, stream);
    RunTimed(p, FRESH, IDLE, es, stream);
    assert Look(0);
    PollDoes(p, Run(p, FRESH, es), SawAll(p, IDLE, FRESH, es), now, stream);
  }
}
