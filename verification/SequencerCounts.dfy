/**
  The counters of the sequencer over whole runs, from what an observer sees: which arrivals
  were copies, which were taken in and from where, which had to wait, and what was asked.
 */
module SequencerCounts {
  import opened Common
  import opened SequencerModel
  import opened SequencerTheorems
  import opened SequencerWindow
  import opened SequencerTiming

  datatype Tally = Tally(
    copies: nat, early: nat, fromA: nat, fromB: nat, replies: nat, requests: nat, retries: nat, most: nat)

  function TallyOf(c: Stats): Tally {
    Tally(c.duplicates, c.outOfOrder, c.winsA, c.winsB, c.fromRecovery, c.requests, c.retries, c.highWater)
  }

  function One(b: bool): nat {
    if b then 1 else 0
  }

  /** A message that came in one way: over line A, over line B, or as a reply. */
  function Arrival(c: Tally, s: Feed, q: nat, line: Option<Line>, t: Feed): Tally {
    var taken := TakenIn(s, q, t);
    c.(copies := c.copies + One(q < s.expected || q in s.held),
       early := c.early + One(q !in s.held && q in t.held),
       fromA := c.fromA + One(taken && line == Some(A)),
       fromB := c.fromB + One(taken && line == Some(B)),
       replies := c.replies + One(taken && line == None))
  }

  /** A stream that starts with a message has nothing held and owes that message. */
  function Begun(s: Feed, q: nat): Feed {
    if s.started then s else Reset(s, q)
  }

  function Note(p: Params, c: Tally, s: Feed, e: Event): Tally
    requires p.Ok()
  {
    var t := Step(p, s, e);
    var c1 :=
      match e
      case OnMessage(line, q, _, _) => Arrival(c, Begun(s, q), q, Some(line), t)
      case OnRetransmit(q, _, _) => Arrival(c, Begun(s, q), q, None, t)
      case OnPoll(now) =>
        var asks := Poll(p, s, now).1.Some?;
        c.(requests := c.requests + One(asks), retries := c.retries + One(asks && s.state == Recovering))
      case OnReset(_) => c;
    c1.(most := if |t.held| > c.most then |t.held| else c.most)
  }

  function NoteAll(p: Params, c: Tally, s: Feed, es: seq<Event>): Tally
    requires p.Ok()
    decreases |es|
  {
    if es == [] then c else NoteAll(p, Note(p, c, s, es[0]), Step(p, s, es[0]), es[1..])
  }

  /** Nothing but the credit, the waiting messages and the most held ever changes with a message. */
  function Placed(c: Tally, line: Option<Line>, waits: bool, held: nat): Tally {
    c.(early := c.early + One(waits), fromA := c.fromA + One(line == Some(A)), fromB := c.fromB + One(line == Some(B)),
       most := if waits && held > c.most then held else c.most)
  }

  lemma DeliveredCounts(p: Params, m: Feed, payload: Payload, line: Option<Line>, now: nat, stream: Stream)
    requires p.Ok() && Sound(p, m, stream) && m.expected !in m.held && payload == stream(m.expected)
    ensures TallyOf(DeliverNow(m, payload, line, now).stats) == Placed(TallyOf(m.stats), line, false, 0)
  {
    CreditSound(p, m, line, stream);
    EmitSound(p, Credit(m, line), payload, stream);
    var d := Emit(Credit(m, line), payload);
    DrainSound(p, d, stream, m.expected + p.capacity);
    SettleCounts(Drain(d), now);
  }

  lemma SettleCounts(d: Feed, now: nat)
    ensures TallyOf(Settle(d, now).stats) == TallyOf(d.stats)
  {
  }

  lemma HoldCounts(m: Feed, q: nat, payload: Payload, line: Option<Line>, now: nat)
    ensures TallyOf(Hold(m, q, payload, line, now).stats) == Placed(TallyOf(m.stats), line, true, |m.held[q := payload]|)
  {
  }

  lemma RoomCounts(p: Params, s: Feed, q: nat, stream: Stream)
    requires p.Ok() && Inv(p, s, stream) && q >= s.expected
    ensures TallyOf(Roomy(p, s, q).stats) == TallyOf(s.stats)
  {
    if q - s.expected >= p.capacity {
      var target := q - (p.capacity - 1);
      if target - s.expected >= p.capacity {
        WideRoomIs(p, s, q);
      } else {
        WalkSound(p, s, target, stream, q);
      }
    }
  }

  /** One message, as far as the line or the reply is not yet told apart. */
  ghost predicate Counts(c: Tally, s: Feed, q: nat, line: Option<Line>, t: Feed, d: Tally) {
    var taken := TakenIn(s, q, t);
    && d.copies == c.copies + One(q < s.expected || q in s.held)
    && d.early == c.early + One(q !in s.held && q in t.held)
    && d.fromA == c.fromA + One(taken && line == Some(A)) && d.fromB == c.fromB + One(taken && line == Some(B))
    && d.replies == c.replies && d.requests == c.requests && d.retries == c.retries
    && d.most == if |t.held| > c.most then |t.held| else c.most
  }

  lemma SubsetSize<T>(a: set<T>, b: set<T>)
    requires a <= b
    ensures |a| <= |b|
  {
    assert a + (b - a) == b;
  }

  lemma PlaceCounts(p: Params, s: Feed, q: nat, payload: Payload, line: Option<Line>, now: nat, stream: Stream)
    requires p.Ok() && Inv(p, s, stream) && s.started && payload == stream(q)
    requires q >= s.expected && q !in s.held && s.stats.highWater >= |s.held|
    ensures var t := Place(p, Roomy(p, s, q), q, payload, line, now).0;
      Counts(TallyOf(s.stats), s, q, line, t, TallyOf(t.stats))
  {
    var m := Roomy(p, s, q);
    RoomMade(p, s, q, stream);
    RoomCounts(p, s, q, stream);
    SubsetSize(m.held.Keys, s.held.Keys);
    if q == m.expected {
      var t := DeliverNow(m, payload, line, now);
      DeliveredIn(p, m, payload, line, now, stream);
      DeliveredCounts(p, m, payload, line, now, stream);
      SubsetSize(t.held.Keys, m.held.Keys);
    } else if |payload| > p.maxPayload {
      assert TallyOf(RefuseWide(m).stats) == TallyOf(m.stats);
    } else {
      HeldIn(m, q, payload, line, now);
      HoldCounts(m, q, payload, line, now);
    }
  }

  lemma IngestCounts(p: Params, s: Feed, q: nat, payload: Payload, line: Option<Line>, now: nat, stream: Stream)
    requires p.Ok() && Inv(p, s, stream) && s.started && payload == stream(q) && s.stats.highWater >= |s.held|
    ensures var t := Ingest(p, s, q, payload, line, now).0; Counts(TallyOf(s.stats), s, q, line, t, TallyOf(t.stats))
  {
    if q >= s.expected && q !in s.held {
      PlaceCounts(p, s, q, payload, line, now, stream);
      assert q == s.expected ==> Roomy(p, s, q) == s;
    }
  }

  lemma MessageCounts(p: Params, s: Feed, e: Event, stream: Stream)
    requires p.Ok() && Inv(p, s, stream) && s.started && Genuine(e, stream) && s.stats.highWater >= |s.held|
    requires e.OnMessage? || e.OnRetransmit?
    ensures TallyOf(Step(p, s, e).stats) == Note(p, TallyOf(s.stats), s, e)
  {
    if e.OnMessage? {
      IngestCounts(p, s, e.sequence, e.payload, Some(e.line), e.now, stream);
    } else {
      IngestCounts(p, s, e.sequence, e.payload, None, e.now, stream);
      IngestTaken(p, s, e.sequence, e.payload, e.now, stream);
      var (m, taken) := Ingest(p, s, e.sequence, e.payload, None, e.now);
      ReplyCounts(p, m, taken, e.now);
    }
  }

  lemma ReplyCounts(p: Params, m: Feed, taken: bool, now: nat)
    ensures var t :=
        if !taken then m
        else
          var s2 := m.(stats := m.stats.(fromRecovery := m.stats.fromRecovery + 1));
          if s2.state == Recovering then s2.(deadline := now + p.timeoutNs) else s2;
      && TallyOf(t.stats) == TallyOf(m.stats).(replies := m.stats.fromRecovery + One(taken))
      && t.expected == m.expected && t.held == m.held
  {
  }

  /** A message is taken in if and only if it is passed or held afterwards. */
  lemma IngestTaken(p: Params, s: Feed, q: nat, payload: Payload, now: nat, stream: Stream)
    requires p.Ok() && Inv(p, s, stream) && s.started && payload == stream(q)
    ensures var (t, taken) := Ingest(p, s, q, payload, None, now); taken <==> TakenIn(s, q, t)
  {
    if q >= s.expected && q !in s.held {
      var m := Roomy(p, s, q);
      assert q == s.expected ==> m == s;
      RoomMade(p, s, q, stream);
      if q == m.expected {
        DeliveredIn(p, m, payload, None, now, stream);
      } else {
        HeldIn(m, q, payload, None, now);
      }
    }
  }

  lemma StepCounts(p: Params, s: Feed, e: Event, stream: Stream)
    requires p.Ok() && Inv(p, s, stream) && Genuine(e, stream) && s.stats.highWater >= |s.held|
    ensures TallyOf(Step(p, s, e).stats) == Note(p, TallyOf(s.stats), s, e)
    ensures Step(p, s, e).stats.highWater >= |Step(p, s, e).held|
  {
    if e.OnMessage? || e.OnRetransmit? {
      if s.started {
        MessageCounts(p, s, e, stream);
      } else {
        ResetInv(p, s, e.sequence, stream);
        FirstOfAll(p, s, e, e.sequence, e.payload);
        MessageCounts(p, Reset(s, e.sequence), e, stream);
      }
    } else if e.OnPoll? {
      PollCounts(p, s, e.now, stream);
    }
  }

  lemma PollCounts(p: Params, s: Feed, now: nat, stream: Stream)
    requires p.Ok() && Inv(p, s, stream) && s.stats.highWater >= |s.held|
    ensures TallyOf(Step(p, s, OnPoll(now)).stats) == Note(p, TallyOf(s.stats), s, OnPoll(now))
    ensures Step(p, s, OnPoll(now)).stats.highWater >= |Step(p, s, OnPoll(now)).held|
  {
    if |s.held| > 0 {
      SkipHoleSound(p, s, stream);
      SubsetSize(SkipHole(p, s).held.Keys, s.held.Keys);
    }
  }

  ghost predicate Kept(p: Params, s: Feed, stream: Stream) {
    forall k: nat {:trigger Look(k)} :: Look(k) ==> Inv(p, s, stream) && s.stats.highWater >= |s.held|
  }

  lemma StepKept(p: Params, s: Feed, e: Event, stream: Stream)
    requires p.Ok() && Kept(p, s, stream) && Genuine(e, stream)
    ensures Kept(p, Step(p, s, e), stream) && TallyOf(Step(p, s, e).stats) == Note(p, TallyOf(s.stats), s, e)
  {
    assert Look(0);
    StepInv(p, s, e, stream);
    StepCounts(p, s, e, stream);
  }

  lemma {:induction false} RunCounts(p: Params, s: Feed, es: seq<Event>, stream: Stream)
    requires p.Ok() && Kept(p, s, stream) && AllGenuine(es, stream)
    ensures TallyOf(Run(p, s, es).stats) == NoteAll(p, TallyOf(s.stats), s, es)
    decreases |es|
  {
    if es != [] {
      StepKept(p, s, es[0], stream);
      RunCounts(p, Step(p, s, es[0]), es[1..], stream);
    }
  }

  /** In every run the counters are the tally of what an observer saw. */
  lemma CountersAreTheTally(p: Params, es: seq<Event>, stream: Stream)
    requires p.Ok() && AllGenuine(es, stream)
    ensures TallyOf(Run(p, FRESH, es).stats) == NoteAll(p, Tally(0, 0, 0, 0, 0, 0, 0, 0), FRESH, es)
  {
    FreshInv(p, stream);
    RunCounts(p, FRESH, es, stream);
  }
}
