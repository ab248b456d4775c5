/**
  What every run of the sequencer keeps: the stream that goes downstream is the
  stream that was published, in order and once; Stale is a one-way door; every
  sequence and every copy is accounted for; and the gap machine makes progress.
 */
module SequencerTheorems {
  import opened Common
  import opened SequencerModel

  type Stream = nat -> Payload

  // ----- the invariant ------------------------------------------------------------

  /** Held messages lie within one window of the front. */
  ghost predicate Window(capacity: nat, expected: nat, held: map<nat, Payload>) {
    forall q :: q in held ==> expected <= q < expected + capacity
  }

  ghost predicate Carries(held: map<nat, Payload>, stream: Stream) {
    forall q :: q in held ==> held[q] == stream(q)
  }

  /** Downstream saw true payloads, strictly increasing, from this session only. */
  ghost predicate Ascending(first: nat, out: seq<Message>, expected: nat, stream: Stream) {
    && (forall i :: 0 <= i < |out| ==>
          first <= out[i].sequence < expected && out[i].payload == stream(out[i].sequence))
    && (forall i, j :: 0 <= i < j < |out| ==> out[i].sequence < out[j].sequence)
  }

  /** Every sequence the front passed was either delivered or counted as dropped. */
  ghost predicate Accounted(s: Feed) {
    var base := s.history.base;
    && s.history.first <= s.expected
    && s.stats.accepted == base.accepted + |s.history.output|
    && s.stats.accepted + s.stats.dropped
       == base.accepted + base.dropped + (s.expected - s.history.first) + s.history.overwide
  }

  ghost predicate Sound(p: Params, s: Feed, stream: Stream) {
    && Window(p.capacity, s.expected, s.held)
    && Carries(s.held, stream)
    && Ascending(s.history.first, s.history.output, s.expected, stream)
    && Accounted(s)
  }

  /** Nothing between the first sequence of the session and the front is missing. */
  ghost predicate Complete(first: nat, out: seq<Message>, expected: nat) {
    && |out| == expected - first
    && forall i :: 0 <= i < |out| ==> out[i].sequence == first + i
  }

  ghost predicate Gapless(s: Feed) {
    Complete(s.history.first, s.history.output, s.expected)
  }

  /** First copies taken in, less those delivered, held or thrown away unread. */
  ghost function Balance(s: Feed): int {
    s.stats.winsA + s.stats.winsB + s.stats.fromRecovery - s.stats.accepted - |s.held| - s.history.wiped
  }

  ghost function Holes(s: Feed): nat {
    if |s.held| == 0 then 0 else 1
  }

  /** Since the last reset every gap but the open one was recovered, or the feed is Stale. */
  ghost predicate GapLaw(s: Feed) {
    s.state != Stale ==>
      s.stats.gapsDetected + s.history.base.gapsRecovered
      == s.stats.gapsRecovered + s.history.base.gapsDetected + Holes(s)
  }

  ghost predicate Shape(p: Params, s: Feed) {
    && (s.state == Synced ==> |s.held| == 0)
    && (s.state == Gap || s.state == Recovering ==> |s.held| > 0)
    && (s.state == Recovering ==> 1 <= s.attempts <= p.maxAttempts)
    && (!s.started ==> s.state == Synced)
  }

  ghost predicate Inv(p: Params, s: Feed, stream: Stream) {
    && Sound(p, s, stream)
    && s.expected !in s.held
    && Shape(p, s)
    && GapLaw(s)
    && (s.state != Stale ==> Gapless(s))
  }

  /** What drains and walks leave alone. */
  ghost predicate OnlyMoved(s: Feed, t: Feed) {
    && s.expected <= t.expected
    && t == s.(expected := t.expected, held := t.held,
               stats := s.stats.(accepted := t.stats.accepted, dropped := t.stats.dropped),
               history := s.history.(output := t.history.output))
    && t.held.Keys <= s.held.Keys
    && Balance(t) == Balance(s)
  }

  // ----- moving the front --------------------------------------------------------

  lemma TakeFrontSound(p: Params, s: Feed, stream: Stream)
    requires p.Ok() && Sound(p, s, stream) && s.expected in s.held
    ensures Sound(p, TakeFront(s), stream) && OnlyMoved(s, TakeFront(s))
    ensures TakeFront(s).stats.dropped == s.stats.dropped
    ensures Gapless(s) ==> Gapless(TakeFront(s))
  {
    RemoveShrinks(s.held, s.expected);
  }

  lemma DropFrontSound(p: Params, s: Feed, stream: Stream)
    requires p.Ok() && Sound(p, s, stream) && s.expected !in s.held
    ensures Sound(p, DropFront(s), stream) && OnlyMoved(s, DropFront(s))
  {
  }

  lemma {:induction false} DrainSound(p: Params, s: Feed, stream: Stream, limit: nat)
    requires p.Ok() && Sound(p, s, stream)
    requires s.expected <= limit && forall q :: q in s.held ==> q < limit
    ensures var t := Drain(s);
      && Sound(p, t, stream) && OnlyMoved(s, t) && t.expected !in t.held && t.expected <= limit
      && t.stats.dropped == s.stats.dropped
      && (Gapless(s) ==> Gapless(t))
    decreases |s.held|
  {
    if s.expected in s.held {
      RemoveShrinks(s.held, s.expected);
      TakeFrontSound(p, s, stream);
      DrainSound(p, TakeFront(s), stream, limit);
    }
  }

  lemma {:induction false} WalkSound(p: Params, s: Feed, target: nat, stream: Stream, limit: nat)
    requires p.Ok() && Sound(p, s, stream)
    requires s.expected <= limit && target <= limit && forall q :: q in s.held ==> q < limit
    ensures var t := Walk(s, target);
      && Sound(p, t, stream) && OnlyMoved(s, t) && t.expected !in t.held
      && target <= t.expected <= limit
    decreases target - s.expected
  {
    if s.expected >= target {
      DrainSound(p, s, stream, limit);
    } else if s.expected in s.held {
      TakeFrontSound(p, s, stream);
      WalkSound(p, TakeFront(s), target, stream, limit);
    } else {
      DropFrontSound(p, s, stream);
      WalkSound(p, DropFront(s), target, stream, limit);
    }
  }

  /** Whatever a wide jump or a reset throws away shows up in `wiped`. */
  lemma WipeSound(p: Params, s: Feed, target: nat, stream: Stream)
    requires p.Ok() && Sound(p, s, stream) && s.expected <= target
    ensures Sound(p, Wipe(s, target), stream) && Balance(Wipe(s, target)) == Balance(s)
    ensures var t := Wipe(s, target);
      && t.held == map[] && t.expected == target && t.history.output == s.history.output
      && t.stats.dropped == s.stats.dropped + (target - s.expected)
  {
  }

  lemma MakeRoomSound(p: Params, s: Feed, sequence: nat, stream: Stream)
    requires p.Ok() && Sound(p, s, stream) && s.expected !in s.held
    requires sequence >= s.expected + p.capacity
    ensures var t := MakeRoom(p, s, sequence);
      && Sound(p, t, stream) && t.expected !in t.held && t.state == Stale && t.started == s.started
      && Balance(t) == Balance(s)
      && t.expected <= sequence < t.expected + p.capacity && sequence !in t.held
  {
    var target := sequence - (p.capacity - 1);
    if target - s.expected >= p.capacity {
      RoomByWiping(p, s, sequence, stream);
    } else {
      WalkSound(p, s, target, stream, sequence);
    }
  }

  lemma RoomByWiping(p: Params, s: Feed, sequence: nat, stream: Stream)
    requires p.Ok() && Sound(p, s, stream) && s.expected !in s.held
    requires sequence - (p.capacity - 1) - s.expected >= p.capacity
    ensures var t := MakeRoom(p, s, sequence);
      && Sound(p, t, stream) && t.expected !in t.held && t.state == Stale && t.started == s.started
      && Balance(t) == Balance(s) && t.expected == sequence && sequence !in t.held
  {
    WideRoomIs(p, s, sequence);
    WipeSound(p, s, sequence, stream);
  }

  /** Over an empty window a walk only counts. */
  lemma {:induction false} WalkOverNothing(s: Feed, target: nat)
    requires s.held == map[] && s.expected <= target
    ensures Walk(s, target)
         == s.(expected := target, stats := s.stats.(dropped := s.stats.dropped + (target - s.expected)))
    decreases target - s.expected
  {
    if s.expected < target {
      WalkOverNothing(DropFront(s), target);
    }
  }

  /** A jump wider than the window wipes it and resyncs on the message itself. */
  lemma WideRoomIs(p: Params, s: Feed, sequence: nat)
    requires p.Ok() && sequence - (p.capacity - 1) - s.expected >= p.capacity
    ensures MakeRoom(p, s, sequence) == EnterStale(Wipe(s, sequence))
  {
    var target := sequence - (p.capacity - 1);
    WalkOverNothing(Wipe(s, target), sequence);
  }

  // ----- one message --------------------------------------------------------------

  /** Everything of the invariant but the credit, with a message just handed over. */
  lemma EmitSound(p: Params, s: Feed, payload: Payload, stream: Stream)
    requires p.Ok() && Sound(p, s, stream) && s.expected !in s.held && payload == stream(s.expected)
    ensures Sound(p, Emit(s, payload), stream)
    ensures Balance(Emit(s, payload)) == Balance(s) - 1
    ensures Gapless(s) ==> Gapless(Emit(s, payload))
  {
  }

  lemma CreditSound(p: Params, s: Feed, line: Option<Line>, stream: Stream)
    requires Sound(p, s, stream)
    ensures Sound(p, Credit(s, line), stream)
    ensures Balance(Credit(s, line)) == Balance(s) + (if line == None then 0 else 1)
    ensures Credit(s, line).(stats := s.stats) == s
    ensures Credit(s, line).stats == s.stats.(winsA := Credit(s, line).stats.winsA, winsB := Credit(s, line).stats.winsB)
  {
  }

  lemma SettleInv(p: Params, s: Feed, was: Feed, now: nat, stream: Stream)
    requires p.Ok() && Sound(p, s, stream) && s.expected !in s.held
    requires Shape(p, was) && GapLaw(was) && was.started
    requires s.state == was.state && s.attempts == was.attempts && s.history.base == was.history.base
    requires s.stats.gapsDetected == was.stats.gapsDetected && s.stats.gapsRecovered == was.stats.gapsRecovered
    requires s.started && s.held.Keys <= was.held.Keys
    requires s.state != Stale ==> Gapless(s)
    ensures Inv(p, Settle(s, now), stream) && Balance(Settle(s, now)) == Balance(s)
    ensures s.state == Stale ==> Settle(s, now).state == Stale
  {
    if |was.held| == 0 {
      assert was.held.Keys == {};
      assert |s.held| == 0;
    }
    assert Sound(p, Settle(s, now), stream);
  }

  lemma DeliverNowInv(p: Params, s: Feed, payload: Payload, line: Option<Line>, now: nat, stream: Stream)
    requires p.Ok() && Inv(p, s, stream) && s.started && payload == stream(s.expected)
    ensures Inv(p, DeliverNow(s, payload, line, now), stream)
    ensures Balance(DeliverNow(s, payload, line, now)) == Balance(s) - (if line == None then 1 else 0)
    ensures s.state == Stale ==> DeliverNow(s, payload, line, now).state == Stale
  {
    CreditSound(p, s, line, stream);
    var s1 := Credit(s, line);
    EmitSound(p, s1, payload, stream);
    var s2 := Emit(s1, payload);
    DrainSound(p, s2, stream, s.expected + p.capacity);
    SettleInv(p, Drain(s2), s, now, stream);
  }

  lemma StoreSound(p: Params, s: Feed, sequence: nat, payload: Payload, stream: Stream)
    requires p.Ok() && Sound(p, s, stream) && payload == stream(sequence)
    requires s.expected < sequence < s.expected + p.capacity && sequence !in s.held
    ensures Sound(p, Store(s, sequence, payload), stream)
    ensures |Store(s, sequence, payload).held| == |s.held| + 1
    ensures Balance(Store(s, sequence, payload)) == Balance(s) - 1
  {
    assert s.held[sequence := payload].Keys == s.held.Keys + {sequence};
  }

  lemma NoteHoleInv(p: Params, s: Feed, was: Feed, now: nat, stream: Stream)
    requires p.Ok() && Sound(p, s, stream) && s.expected !in s.held && |s.held| == |was.held| + 1
    requires Shape(p, was) && GapLaw(was) && was.started && s.started
    requires s.state == was.state && s.attempts == was.attempts && s.history.base == was.history.base
    requires s.stats.gapsDetected == was.stats.gapsDetected && s.stats.gapsRecovered == was.stats.gapsRecovered
    requires s.state != Stale ==> Gapless(s)
    ensures var t := NoteHole(s, |was.held| == 0, now);
      Inv(p, t, stream) && Balance(t) == Balance(s) && (s.state == Stale ==> t.state == Stale)
  {
    var t := NoteHole(s, |was.held| == 0, now);
    assert Sound(p, t, stream);
    assert GapLaw(t) && Shape(p, t);
  }

  lemma HoldInv(p: Params, s: Feed, sequence: nat, payload: Payload, line: Option<Line>, now: nat, stream: Stream)
    requires p.Ok() && Inv(p, s, stream) && s.started && payload == stream(sequence)
    requires s.expected < sequence < s.expected + p.capacity && sequence !in s.held
    ensures Inv(p, Hold(s, sequence, payload, line, now), stream)
    ensures Balance(Hold(s, sequence, payload, line, now)) == Balance(s) - (if line == None then 1 else 0)
    ensures s.state == Stale ==> Hold(s, sequence, payload, line, now).state == Stale
  {
    StoreSound(p, s, sequence, payload, stream);
    var s1 := Store(s, sequence, payload);
    CreditSound(p, s1, line, stream);
    NoteHoleInv(p, Credit(s1, line), s, now, stream);
  }

  lemma PlaceInv(p: Params, s: Feed, sequence: nat, payload: Payload, line: Option<Line>, now: nat, stream: Stream)
    requires p.Ok() && Inv(p, s, stream) && s.started && payload == stream(sequence)
    requires s.expected <= sequence < s.expected + p.capacity && sequence !in s.held
    ensures var (t, taken) := Place(p, s, sequence, payload, line, now);
      && Inv(p, t, stream)
      && Balance(t) == Balance(s) - (if taken && line == None then 1 else 0)
      && (s.state == Stale ==> t.state == Stale)
  {
    if sequence == s.expected {
      DeliverNowInv(p, s, payload, line, now, stream);
    } else if |payload| > p.maxPayload {
    } else {
      HoldInv(p, s, sequence, payload, line, now, stream);
    }
  }

  lemma IngestInv(p: Params, s: Feed, sequence: nat, payload: Payload, line: Option<Line>, now: nat, stream: Stream)
    requires p.Ok() && Inv(p, s, stream) && payload == stream(sequence)
    ensures var (t, taken) := Ingest(p, s, sequence, payload, line, now);
      && Inv(p, t, stream)
      && Balance(t) == Balance(s) - (if taken && line == None then 1 else 0)
      && (s.state == Stale ==> t.state == Stale)
  {
    var s1 := Start(s, sequence);
    assert Inv(p, s1, stream) && s1.started && Balance(s1) == Balance(s);
    if sequence < s1.expected || sequence in s1.held {
    } else if sequence == s1.expected {
      DeliverNowInv(p, s1, payload, line, now, stream);
    } else if sequence - s1.expected >= p.capacity {
      MakeRoomSound(p, s1, sequence, stream);
      PlaceInv(p, MakeRoom(p, s1, sequence), sequence, payload, line, now, stream);
    } else {
      PlaceInv(p, s1, sequence, payload, line, now, stream);
    }
  }

  // ----- time ---------------------------------------------------------------------

  /** The run at the front: nothing of it is held, and it ends at a held message
      unless the window is empty. */
  lemma {:induction false} MissingFromExact(p: Params, s: Feed, i: nat)
    requires i <= p.capacity
    requires forall q :: s.expected <= q < s.expected + i ==> q !in s.held
    ensures var run := MissingFrom(p, s, i);
      && i <= run <= p.capacity
      && (forall q :: s.expected <= q < s.expected + run ==> q !in s.held)
      && (run < p.capacity ==> s.expected + run in s.held)
    decreases p.capacity - i
  {
    if i < p.capacity && s.expected + i !in s.held {
      MissingFromExact(p, s, i + 1);
    }
  }

  lemma MissingRunExact(p: Params, s: Feed)
    requires p.Ok() && s.expected !in s.held && Window(p.capacity, s.expected, s.held)
    ensures var run := MissingRun(p, s);
      && 1 <= run <= p.capacity
      && (forall q :: s.expected <= q < s.expected + run ==> q !in s.held)
      && (|s.held| > 0 ==> run < p.capacity && s.expected + run in s.held)
  {
    MissingFromExact(p, s, 0);
    if |s.held| > 0 {
      var q :| q in s.held;
      assert q < s.expected + p.capacity;
    }
  }

  /** Stepping over the hole delivers at least the message behind it. */
  lemma SkipHoleSound(p: Params, s: Feed, stream: Stream)
    requires p.Ok() && Sound(p, s, stream) && s.expected !in s.held && |s.held| > 0
    ensures var t := SkipHole(p, s);
      Sound(p, t, stream) && OnlyMoved(s, t) && t.expected !in t.held && |t.held| < |s.held|
  {
    MissingRunExact(p, s);
    var target := s.expected + MissingRun(p, s);
    var t := Walk(s, target);
    assert t == SkipHole(p, s);
    WalkSound(p, s, target, stream, s.expected + p.capacity);
    WalkReaches(p, s, target, stream);
    assert Window(p.capacity, t.expected, t.held);
    assert target in s.held.Keys && target !in t.held.Keys;
    ProperSubsetSmaller(t.held.Keys, s.held.Keys);
  }

  lemma ProperSubsetSmaller<T>(a: set<T>, b: set<T>)
    requires a < b
    ensures |a| < |b|
  {
    assert a !! b - a && a + (b - a) == b;
    assert b - a != {};
  }

  lemma {:induction false} WalkReaches(p: Params, s: Feed, target: nat, stream: Stream)
    requires p.Ok() && Sound(p, s, stream) && s.expected <= target && target in s.held
    requires forall q :: s.expected <= q < target ==> q !in s.held
    ensures Walk(s, target).expected > target
    decreases target - s.expected
  {
    if s.expected < target {
      DropFrontSound(p, s, stream);
      WalkReaches(p, DropFront(s), target, stream);
    } else {
      RemoveShrinks(s.held, target);
      TakeFrontSound(p, s, stream);
      DrainSound(p, TakeFront(s), stream, s.expected + p.capacity);
    }
  }

  lemma PollInv(p: Params, s: Feed, now: nat, stream: Stream)
    requires p.Ok() && Inv(p, s, stream)
    ensures var t := Poll(p, s, now).0;
      Inv(p, t, stream) && Balance(t) == Balance(s) && (s.state == Stale ==> t.state == Stale)
  {
    if Poll(p, s, now).1.Some? {
      AskingInv(p, s, Poll(p, s, now).0, stream);
    } else if |s.held| > 0 {
      SkippingInv(p, s, stream);
    }
  }

  /** Sending a request moves timers and counters only. */
  lemma AskingInv(p: Params, s: Feed, t: Feed, stream: Stream)
    requires Inv(p, s, stream) && (s.state == Gap || s.state == Recovering)
    requires t == s.(state := Recovering, attempts := t.attempts, deadline := t.deadline, recoveryEnd := t.recoveryEnd,
                     stats := s.stats.(requests := t.stats.requests, retries := t.stats.retries))
    requires 1 <= t.attempts <= p.maxAttempts
    ensures Inv(p, t, stream) && Balance(t) == Balance(s)
  {
  }

  /** Giving up on a hole leaves a Stale feed. */
  lemma SkippingInv(p: Params, s: Feed, stream: Stream)
    requires p.Ok() && Inv(p, s, stream) && |s.held| > 0
    ensures var t := SkipHole(p, s);
      && Inv(p, EnterStale(t), stream) && Balance(t) == Balance(s) && t.state == s.state
      && (s.state == Stale ==> forall g :: Inv(p, t.(gapSince := g), stream))
  {
    SkipHoleSound(p, s, stream);
  }

  // ----- whole runs ---------------------------------------------------------------

  /** Every copy, on either line or from the retransmission server, is genuine. */
  ghost predicate Genuine(e: Event, stream: Stream) {
    match e
    case OnMessage(_, q, payload, _) => payload == stream(q)
    case OnRetransmit(q, payload, _) => payload == stream(q)
    case _ => true
  }

  ghost predicate AllGenuine(es: seq<Event>, stream: Stream) {
    forall i :: 0 <= i < |es| ==> Genuine(es[i], stream)
  }

  lemma StepInv(p: Params, s: Feed, e: Event, stream: Stream)
    requires p.Ok() && Inv(p, s, stream) && Genuine(e, stream)
    ensures Inv(p, Step(p, s, e), stream)
    ensures Balance(Step(p, s, e)) == Balance(s)
    ensures s.state == Stale && !e.OnReset? ==> Step(p, s, e).state == Stale
  {
    match e
    case OnMessage(line, q, payload, now) => IngestInv(p, s, q, payload, Some(line), now, stream);
    case OnRetransmit(q, payload, now) => IngestInv(p, s, q, payload, None, now, stream);
    case OnPoll(now) => PollInv(p, s, now, stream);
    case OnReset(first) => ResetInv(p, s, first, stream);
  }

  lemma ResetInv(p: Params, s: Feed, first: nat, stream: Stream)
    requires p.Ok() && Inv(p, s, stream)
    ensures Inv(p, Reset(s, first), stream) && Balance(Reset(s, first)) == Balance(s)
  {
  }

  lemma {:induction false} RunInv(p: Params, s: Feed, es: seq<Event>, stream: Stream)
    requires p.Ok() && Inv(p, s, stream) && AllGenuine(es, stream)
    ensures Inv(p, Run(p, s, es), stream)
    ensures Balance(Run(p, s, es)) == Balance(s)
    decreases |es|
  {
    if es != [] {
      StepInv(p, s, es[0], stream);
      RunInv(p, Step(p, s, es[0]), es[1..], stream);
    }
  }

  lemma FreshInv(p: Params, stream: Stream)
    requires p.Ok()
    ensures Inv(p, FRESH, stream) && Balance(FRESH) == 0
  {
  }

  /** The true stream from `lo` up to, not including, `hi`. */
  ghost function Published(stream: Stream, lo: nat, hi: nat): seq<Message>
    requires lo <= hi
  {
    seq(hi - lo, i requires 0 <= i < hi - lo => Message(lo + i, stream(lo + i)))
  }

  lemma GaplessIsPublished(first: nat, out: seq<Message>, expected: nat, stream: Stream)
    requires first <= expected && Ascending(first, out, expected, stream) && Complete(first, out, expected)
    ensures out == Published(stream, first, expected)
  {
    forall i | 0 <= i < |out| ensures out[i] == Published(stream, first, expected)[i] {
      assert out[i] == Message(out[i].sequence, out[i].payload);
    }
  }

  /**
    The headline: however copies are lost, duplicated, reordered and interleaved,
    what went downstream since the last reset is strictly increasing and genuine,
    and while the feed is not Stale it is exactly the published stream.
   */
  lemma WireEqualsFile(p: Params, es: seq<Event>, stream: Stream)
    requires p.Ok() && AllGenuine(es, stream)
    ensures var s := Run(p, FRESH, es);
      && Ascending(s.history.first, s.history.output, s.expected, stream)
      && s.history.first <= s.expected
      && (s.state != Stale ==> s.history.output == Published(stream, s.history.first, s.expected))
  {
    FreshInv(p, stream);
    RunInv(p, FRESH, es, stream);
    var s := Run(p, FRESH, es);
    if s.state != Stale {
      GaplessIsPublished(s.history.first, s.history.output, s.expected, stream);
    }
  }

  /** Nothing but a reset leaves Stale, whatever is delivered, recovered or polled. */
  lemma {:induction false} StaleIsOneWay(p: Params, s: Feed, es: seq<Event>, stream: Stream)
    requires p.Ok() && Inv(p, s, stream) && AllGenuine(es, stream)
    requires s.state == Stale && forall i :: 0 <= i < |es| ==> !es[i].OnReset?
    ensures Run(p, s, es).state == Stale
    decreases |es|
  {
    if es != [] {
      StepInv(p, s, es[0], stream);
      StaleIsOneWay(p, Step(p, s, es[0]), es[1..], stream);
    }
  }

  /** Conservation, in every reachable state: passed sequences, first copies, gaps. */
  lemma Conservation(p: Params, es: seq<Event>, stream: Stream)
    requires p.Ok() && AllGenuine(es, stream)
    ensures var s := Run(p, FRESH, es); var base := s.history.base;
      && s.stats.accepted + s.stats.dropped
         == base.accepted + base.dropped + (s.expected - s.history.first) + s.history.overwide
      && s.stats.winsA + s.stats.winsB + s.stats.fromRecovery
         == s.stats.accepted + |s.held| + s.history.wiped
      && GapLaw(s)
  {
    FreshInv(p, stream);
    RunInv(p, FRESH, es, stream);
  }

  // ----- what the dropped counter means --------------------------------------------

  /** The guard of the branch that refuses an early message for its width. */
  ghost predicate RefusesWide(p: Params, s: Feed, e: Event)
    requires p.Ok()
  {
    (e.OnMessage? || e.OnRetransmit?) && |e.payload| > p.maxPayload &&
    var s1 := Start(s, e.sequence);
    && e.sequence > s1.expected && e.sequence !in s1.held
    && (e.sequence - s1.expected >= p.capacity ==> MakeRoom(p, s1, e.sequence).expected != e.sequence)
  }

  /** Only that branch counts a drop without moving the front. */
  lemma OverwideExactly(p: Params, s: Feed, e: Event, stream: Stream)
    requires p.Ok() && Inv(p, s, stream) && Genuine(e, stream) && !e.OnReset?
    ensures Step(p, s, e).history.overwide
            == (if s.started || e.OnPoll? then s.history.overwide else 0) + (if RefusesWide(p, s, e) then 1 else 0)
    ensures Step(p, s, e).history.base == if s.started || e.OnPoll? then s.history.base else s.stats
  {
    if e.OnPoll? {
      if |s.held| > 0 {
        SkipHoleSound(p, s, stream);
      }
    } else {
      var s1 := Start(s, e.sequence);
      var line := if e.OnMessage? then Some(e.line) else None;
      if e.sequence == s1.expected {
        PlaceHistory(p, s1, e.sequence, e.payload, line, e.now);
      } else if e.sequence > s1.expected && e.sequence !in s1.held {
        if e.sequence - s1.expected >= p.capacity {
          MakeRoomSound(p, s1, e.sequence, stream);
          MakeRoomHistory(p, s1, e.sequence, stream);
          PlaceHistory(p, MakeRoom(p, s1, e.sequence), e.sequence, e.payload, line, e.now);
        } else {
          PlaceHistory(p, s1, e.sequence, e.payload, line, e.now);
        }
      }
    }
  }

  lemma {:induction false} DrainHistory(s: Feed)
    ensures var h := Drain(s).history; h.overwide == s.history.overwide && h.base == s.history.base
    decreases |s.held|
  {
    if s.expected in s.held {
      RemoveShrinks(s.held, s.expected);
      DrainHistory(TakeFront(s));
    }
  }

  lemma PlaceHistory(p: Params, s: Feed, sequence: nat, payload: Payload, line: Option<Line>, now: nat)
    ensures var h := Place(p, s, sequence, payload, line, now).0.history;
      && h.overwide == s.history.overwide + (if sequence != s.expected && |payload| > p.maxPayload then 1 else 0)
      && h.base == s.history.base
  {
    if sequence == s.expected {
      DrainHistory(Emit(Credit(s, line), payload));
      SettleMovesNothing(Drain(Emit(Credit(s, line), payload)), now);
    } else {
      HoldHistory(s, sequence, payload, line, now);
    }
  }

  lemma HoldHistory(s: Feed, sequence: nat, payload: Payload, line: Option<Line>, now: nat)
    ensures Hold(s, sequence, payload, line, now).history == s.history
  {
  }

  lemma MakeRoomHistory(p: Params, s: Feed, sequence: nat, stream: Stream)
    requires p.Ok() && Sound(p, s, stream) && s.expected !in s.held
    requires sequence >= s.expected + p.capacity
    ensures var h := MakeRoom(p, s, sequence).history; h.overwide == s.history.overwide && h.base == s.history.base
  {
    var target := sequence - (p.capacity - 1);
    if target - s.expected >= p.capacity {
      WipeSound(p, s, target, stream);
      WalkSound(p, Wipe(s, target), sequence, stream, sequence);
    } else {
      WalkSound(p, s, target, stream, sequence);
    }
  }

  /** Since the last reset the counter means "passed and not handed downstream" exactly while
      nothing was refused for its width.  A reset that goes back starts a new session, which
      can deliver what an earlier one counted. */
  lemma DroppedMeansNeverDelivered(p: Params, es: seq<Event>, stream: Stream)
    requires p.Ok() && AllGenuine(es, stream)
    ensures var s := Run(p, FRESH, es);
      s.stats.dropped - s.history.base.dropped == s.expected - s.history.first - |s.history.output|
      <==> s.history.overwide == 0
  {
    Conservation(p, es, stream);
    FreshInv(p, stream);
    RunInv(p, FRESH, es, stream);
  }

  /** A refused message that the other line then delivers is counted both ways. */
  lemma DroppedButDelivered(p: Params, es: seq<Event>)
    requires p == Params(4, 0, 0, 1, 1)
    requires es == [OnMessage(A, 0, [0], 0), OnMessage(A, 2, [0, 0], 0),
                    OnMessage(B, 1, [0], 0), OnMessage(B, 2, [0, 0], 0)]
    ensures var s := Run(p, FRESH, es);
      s.state == Synced && s.expected == 3 && |s.history.output| == 3 && s.stats.dropped == 1
  {
    var s1 := Step(p, FRESH, es[0]);
    var s2 := Step(p, s1, es[1]);
    var s3 := Step(p, s2, es[2]);
    var s4 := Step(p, s3, es[3]);
    assert Run(p, s4, []) == s4;
    assert es[3..][1..] == [];
    assert Run(p, s3, es[3..]) == s4;
    assert es[2..][1..] == es[3..];
    assert Run(p, s2, es[2..]) == s4;
    assert es[1..][1..] == es[2..];
    assert Run(p, s1, es[1..]) == s4;
    assert Run(p, FRESH, es) == s4;
  }

  // A reset that goes back: a sequence counted in one session is delivered in the next.

  lemma AfterFirst(p: Params, q: nat, x: Payload, rest: seq<Event>) returns (t: Feed)
    requires p.Ok()
    ensures Run(p, FRESH, [OnMessage(A, q, x, 0)] + rest) == Run(p, t, rest)
    ensures t.started && t.expected == q + 1 && t.held == map[] && t.state == Synced
    ensures t.stats.dropped == 0 && t.history.overwide == 0
  {
    t := Step(p, FRESH, OnMessage(A, q, x, 0));
    assert ([OnMessage(A, q, x, 0)] + rest)[1..] == rest;
  }

  lemma AfterEarly(p: Params, s: Feed, x: Payload, rest: seq<Event>) returns (t: Feed)
    requires p.Ok() && p.capacity > 1 && |x| <= p.maxPayload && s.started && s.state == Synced && s.held == map[]
    ensures Run(p, s, [OnMessage(A, s.expected + 1, x, 0)] + rest) == Run(p, t, rest)
    ensures t.started && t.expected == s.expected && t.held == map[s.expected + 1 := x] && t.state == Gap && t.gapSince == 0
    ensures t.stats.dropped == s.stats.dropped && t.history.overwide == s.history.overwide
  {
    t := Step(p, s, OnMessage(A, s.expected + 1, x, 0));
    assert ([OnMessage(A, s.expected + 1, x, 0)] + rest)[1..] == rest;
  }

  lemma AfterAsking(p: Params, s: Feed, rest: seq<Event>) returns (t: Feed)
    requires p.Ok() && s.started && s.state == Gap && s.gapSince == 0
    ensures Run(p, s, [OnPoll(p.graceNs)] + rest) == Run(p, t, rest)
    ensures t.started && t.expected == s.expected && t.held == s.held && t.state == Recovering && t.attempts == 1
    ensures t.deadline == p.graceNs + p.timeoutNs && t.stats.dropped == s.stats.dropped && t.history.overwide == s.history.overwide
  {
    t := Step(p, s, OnPoll(p.graceNs));
    assert ([OnPoll(p.graceNs)] + rest)[1..] == rest;
  }

  lemma OneMissing(p: Params, s: Feed, x: Payload)
    requires p.capacity > 1 && s.held == map[s.expected + 1 := x]
    ensures MissingRun(p, s) == 1
  {
    assert MissingFrom(p, s, 0) == MissingFrom(p, s, 1) == 1;
  }

  lemma WalkOverOne(s: Feed, x: Payload)
    requires s.held == map[s.expected + 1 := x]
    ensures var t := Walk(s, s.expected + 1);
      t.stats.dropped == s.stats.dropped + 1 && t.started == s.started && t.history.overwide == s.history.overwide
  {
    var after := DropFront(s);
    assert Walk(s, s.expected + 1) == Drain(after);
    var taken := TakeFront(after);
    assert taken.held == map[] && Drain(taken) == taken;
    RemoveShrinks(after.held, after.expected);
    assert Drain(after) == Drain(taken);
  }

  lemma GiveUpIs(p: Params, s: Feed)
    requires p.Ok() && p.maxAttempts == 1 && s.state == Recovering && s.attempts == 1
    ensures Step(p, s, OnPoll(s.deadline)) == EnterStale(SkipHole(p, s))
  {
  }

  lemma SkipsOne(p: Params, s: Feed)
    requires p.capacity > 1 && MissingRun(p, s) == 1
    ensures SkipHole(p, s) == Walk(s, s.expected + 1)
  {
  }

  lemma AfterGivingUp(p: Params, s: Feed, x: Payload, rest: seq<Event>) returns (t: Feed)
    requires p.Ok() && p.capacity > 1 && p.maxAttempts == 1 && s.started && s.state == Recovering && s.attempts == 1
    requires s.held == map[s.expected + 1 := x]
    ensures Run(p, s, [OnPoll(s.deadline)] + rest) == Run(p, t, rest)
    ensures t.started && t.stats.dropped == s.stats.dropped + 1
  {
    OneMissing(p, s, x);
    WalkOverOne(s, x);
    t := Step(p, s, OnPoll(s.deadline));
    GiveUpIs(p, s);
    SkipsOne(p, s);
    assert ([OnPoll(s.deadline)] + rest)[1..] == rest;
  }

  lemma AfterGoingBack(p: Params, s: Feed, q: nat, x: Payload) returns (t: Feed)
    requires p.Ok() && s.started
    ensures t == Run(p, s, [OnReset(q), OnMessage(A, q, x, 0)])
    ensures t.stats.dropped == s.stats.dropped && t.history.overwide == 0 && t.history.output == [Message(q, x)]
  {
    var r := Step(p, s, OnReset(q));
    t := Step(p, r, OnMessage(A, q, x, 0));
    var es := [OnReset(q), OnMessage(A, q, x, 0)];
    assert es[1..] == [OnMessage(A, q, x, 0)] && es[1..][1..] == [];
    assert Run(p, t, []) == t && Run(p, r, es[1..]) == t;
  }

  /** The two messages around a hole, the polls that give it up, and a reset back to it. */
  function GoingBack(p: Params, q: nat, x: Payload): seq<Event> {
    [OnMessage(A, q, x, 0)] + ([OnMessage(A, q + 2, x, 0)] + ([OnPoll(p.graceNs)] +
      ([OnPoll(p.graceNs + p.timeoutNs)] + [OnReset(q + 1), OnMessage(A, q + 1, x, 0)])))
  }

  /** Over the life of a feed the counter does not mean "never handed downstream", even if
      nothing is refused for its width: a sequence given up in one session is delivered in the
      next when a reset goes back to it. */
  lemma DroppedThenRedelivered(p: Params, q: nat, x: Payload)
    requires p.Ok() && p.capacity > 1 && p.maxAttempts == 1 && |x| <= p.maxPayload
    ensures var s := Run(p, FRESH, GoingBack(p, q, x));
      s.stats.dropped == 1 && s.history.overwide == 0 && s.history.output == [Message(q + 1, x)]
  {
    var r4 := [OnReset(q + 1), OnMessage(A, q + 1, x, 0)];
    var r3 := [OnPoll(p.graceNs + p.timeoutNs)] + r4;
    var r2 := [OnPoll(p.graceNs)] + r3;
    var s1 := AfterFirst(p, q, x, [OnMessage(A, q + 2, x, 0)] + r2);
    var s2 := AfterEarly(p, s1, x, r2);
    var s3 := AfterAsking(p, s2, r3);
    var s4 := AfterGivingUp(p, s3, x, r4);
    var s5 := AfterGoingBack(p, s4, q + 1, x);
  }

  // ----- progress -------------------------------------------------------------------

  /** Every request names only sequences that are not held, starting at the front
      and ending at the first held one, or at the 16-bit cap. */
  lemma RequestNamesTheHole(p: Params, s: Feed, now: nat, stream: Stream)
    requires p.Ok() && Inv(p, s, stream) && Poll(p, s, now).1.Some?
    ensures var (t, r) := Poll(p, s, now);
      && r.value.first == s.expected == t.expected && t.held == s.held && t.state == Recovering
      && 1 <= r.value.count <= MAX_REQUEST
      && t.recoveryEnd == r.value.first + r.value.count
      && (forall q :: r.value.first <= q < t.recoveryEnd ==> q !in s.held)
      && (r.value.count == MAX_REQUEST || t.recoveryEnd in s.held)
  {
    MissingRunExact(p, s);
    var run := MissingRun(p, s);
    forall s1: Feed | s1.expected == s.expected && s1.held == s.held ensures MissingRun(p, s1) == run {
      MissingFromSame(p, s, s1, 0);
    }
  }

  lemma {:induction false} MissingFromSame(p: Params, s: Feed, t: Feed, i: nat)
    requires i <= p.capacity && s.expected == t.expected && s.held == t.held
    ensures MissingFrom(p, s, i) == MissingFrom(p, t, i)
    decreases p.capacity - i
  {
    if i < p.capacity && s.expected + i !in s.held {
      MissingFromSame(p, s, t, i + 1);
    }
  }

  ghost predicate Late(p: Params, s: Feed, now: nat) {
    match s.state
    case Synced => true
    case Recovering => now >= s.deadline
    case _ => now >= s.gapSince + p.graceNs
  }

  /** Nothing arrives; time alone drives the feed, each poll late enough to act. */
  ghost predicate AllLate(p: Params, s: Feed, times: seq<nat>)
    decreases |times|
  {
    times == [] || (Late(p, s, times[0]) && AllLate(p, Poll(p, s, times[0]).0, times[1..]))
  }

  ghost function Polls(p: Params, s: Feed, times: seq<nat>): Feed
    decreases |times|
  {
    if times == [] then s else Polls(p, Poll(p, s, times[0]).0, times[1..])
  }

  /** Requests the current recovery episode may still send. */
  ghost function Budget(p: Params, s: Feed): int {
    match s.state
    case Gap => p.maxAttempts
    case Recovering => p.maxAttempts - s.attempts
    case _ => 0
  }

  lemma LatePoll(p: Params, s: Feed, now: nat, stream: Stream)
    requires p.Ok() && Inv(p, s, stream) && |s.held| > 0 && Late(p, s, now)
    ensures var t := Poll(p, s, now).0;
      && Inv(p, t, stream)
      && t.stats.accepted + |t.held| == s.stats.accepted + |s.held|
      && (if Budget(p, s) > 0
          then Poll(p, s, now).1.Some? && Budget(p, t) == Budget(p, s) - 1
               && t.held == s.held && t.stats.requests == s.stats.requests + 1
          else Poll(p, s, now).1.None? && t.state == Stale
               && |t.held| < |s.held| && t.stats.requests == s.stats.requests)
  {
    PollInv(p, s, now, stream);
    SkipHoleSound(p, s, stream);
  }

  /** The rest of the episode sends exactly its budget of requests, then goes Stale,
      then every poll shrinks the window; all that was held goes downstream. */
  lemma {:induction false} PollsMakeProgress(p: Params, s: Feed, times: seq<nat>, stream: Stream)
    requires p.Ok() && Inv(p, s, stream) && AllLate(p, s, times)
    requires |times| >= Budget(p, s) + |s.held|
    ensures var t := Polls(p, s, times);
      && |t.held| == 0
      && t.stats.accepted == s.stats.accepted + |s.held|
      && t.stats.requests == s.stats.requests + (if |s.held| == 0 then 0 else Budget(p, s))
      && (|s.held| > 0 ==> t.state == Stale)
    decreases |times|
  {
    if |s.held| == 0 {
      EmptyPollsIdle(p, s, times, stream);
    } else {
      LatePoll(p, s, times[0], stream);
      PollsMakeProgress(p, Poll(p, s, times[0]).0, times[1..], stream);
      if |Poll(p, s, times[0]).0.held| == 0 {
        EmptyPollsIdle(p, Poll(p, s, times[0]).0, times[1..], stream);
      }
    }
  }

  lemma {:induction false} EmptyPollsIdle(p: Params, s: Feed, times: seq<nat>, stream: Stream)
    requires p.Ok() && Inv(p, s, stream) && |s.held| == 0
    ensures Polls(p, s, times) == s
    decreases |times|
  {
    if times != [] {
      EmptyPollsIdle(p, s, times[1..], stream);
    }
  }

  // ----- a server that answers ----------------------------------------------------------

  /** The server streams back consecutive sequences, whenever each one lands. */
  ghost predicate Answers(es: seq<Event>, stream: Stream, first: nat) {
    forall i: nat {:trigger AnswerAt(es, stream, first, i)} :: i < |es| ==> AnswerAt(es, stream, first, i)
  }

  ghost predicate AnswerAt(es: seq<Event>, stream: Stream, first: nat, i: nat)
    requires i < |es|
  {
    es[i].OnRetransmit? && es[i].sequence == first + i && es[i].payload == stream(first + i)
  }

  lemma AnswersRest(es: seq<Event>, stream: Stream, first: nat)
    requires Answers(es, stream, first) && es != []
    ensures Answers(es[1..], stream, first + 1)
  {
    var rest, next := es[1..], first + 1;
    forall i: nat | i < |rest| ensures AnswerAt(rest, stream, next, i) {
      assert AnswerAt(es, stream, first, i + 1);
    }
  }

  ghost predicate Unheld(held: map<nat, Payload>, first: nat, count: nat) {
    forall q :: first <= q < first + count ==> q !in held
  }

  lemma UnheldRest(held: map<nat, Payload>, first: nat, count: nat)
    requires Unheld(held, first, count) && count > 1
    ensures first + 1 !in held && Unheld(held, first + 1, count - 1)
  {
  }

  /** A started feed that is not Stale and keeps the invariant. */
  ghost predicate Alive(p: Params, s: Feed, stream: Stream) {
    s.started && s.state != Stale && forall k: nat {:trigger Look(k)} :: Look(k) ==> Inv(p, s, stream)
  }

  /** Every sequence from one up to, not including, the other is held. */
  ghost predicate HeldRun(held: map<nat, Payload>, from: nat, to: nat) {
    forall q :: from <= q < to ==> q in held
  }

  lemma FrontDelivered(p: Params, s: Feed, stream: Stream) returns (d: Feed)
    requires p.Ok() && Alive(p, s, stream)
    ensures d == Drain(Emit(s, stream(s.expected))) && OnlyMoved(Emit(s, stream(s.expected)), d)
    ensures d.stats.dropped == s.stats.dropped && d.expected !in s.held
    ensures s.expected + 1 !in s.held ==> d == Emit(s, stream(s.expected))
    ensures HeldRun(s.held, s.expected + 1, d.expected)
  {
    assert Look(0);
    EmitSound(p, s, stream(s.expected), stream);
    d := Drain(Emit(s, stream(s.expected)));
    DrainSound(p, Emit(s, stream(s.expected)), stream, s.expected + p.capacity);
    DrainTakesHeld(p, Emit(s, stream(s.expected)), stream);
    DrainTakesTheRun(Emit(s, stream(s.expected)));
  }

  lemma RetransmitFront(p: Params, s: Feed, now: nat, stream: Stream)
    requires p.Ok() && Alive(p, s, stream)
    ensures var t := Step(p, s, OnRetransmit(s.expected, stream(s.expected), now));
      && t.started && t.state != Stale && t.expected > s.expected
      && t.stats.dropped == s.stats.dropped && t.expected !in s.held && HeldRun(s.held, s.expected + 1, t.expected)
      && (s.expected + 1 !in s.held ==> t.expected == s.expected + 1 && t.held == s.held)
  {
    var d := FrontDelivered(p, s, stream);
    RetransmitIs(p, s, stream(s.expected), now);
    SettleMovesNothing(d, now);
  }

  lemma RetransmitIs(p: Params, s: Feed, payload: Payload, now: nat)
    requires p.Ok() && s.started
    ensures var t, u := Step(p, s, OnRetransmit(s.expected, payload, now)), Settle(Drain(Emit(s, payload)), now);
      && t.started == u.started && t.expected == u.expected && t.held == u.held && t.state == u.state
      && t.stats.dropped == u.stats.dropped
  {
  }

  lemma SettleMovesNothing(d: Feed, now: nat)
    ensures var u := Settle(d, now);
      && u.started == d.started && u.expected == d.expected && u.held == d.held && u.history == d.history
      && u.stats.dropped == d.stats.dropped && (u.state == Stale <==> d.state == Stale)
  {
  }

  lemma {:induction false} DrainTakesTheRun(s: Feed)
    ensures HeldRun(s.held, s.expected, Drain(s).expected)
    decreases |s.held|
  {
    if s.expected in s.held {
      RemoveShrinks(s.held, s.expected);
      DrainTakesTheRun(TakeFront(s));
      HeldRunFrom(s.held, s.expected, Drain(s).expected);
    }
  }

  lemma HeldRunFrom(held: map<nat, Payload>, from: nat, to: nat)
    requires from in held && HeldRun(held - {from}, from + 1, to)
    ensures HeldRun(held, from, to)
  {
    forall q | from <= q < to ensures q in held {
      assert q != from ==> q in held - {from};
    }
  }

  lemma {:induction false} DrainTakesHeld(p: Params, s: Feed, stream: Stream)
    requires p.Ok() && Sound(p, s, stream)
    ensures Drain(s).expected !in s.held
    decreases |s.held|
  {
    if s.expected in s.held {
      RemoveShrinks(s.held, s.expected);
      TakeFrontSound(p, s, stream);
      DrainSound(p, TakeFront(s), stream, s.expected + p.capacity);
      DrainTakesHeld(p, TakeFront(s), stream);
    }
  }

  lemma FirstAnswer(p: Params, s: Feed, es: seq<Event>, stream: Stream) returns (t: Feed)
    requires p.Ok() && Alive(p, s, stream)
    requires es != [] && Answers(es, stream, s.expected)
    ensures Run(p, s, es) == if |es| == 1 then t else Run(p, t, es[1..])
    ensures Alive(p, t, stream) && t.expected > s.expected
    ensures t.stats.dropped == s.stats.dropped && t.expected !in s.held && HeldRun(s.held, s.expected + 1, t.expected)
    ensures s.expected + 1 !in s.held ==> t.expected == s.expected + 1 && t.held == s.held
  {
    assert Look(0);
    assert AnswerAt(es, stream, s.expected, 0);
    RetransmitFront(p, s, es[0].now, stream);
    StepInv(p, s, es[0], stream);
    assert |es| == 1 ==> es[1..] == [];
    t := Step(p, s, es[0]);
  }

  /** Answering a request in full closes the hole it named: nothing is dropped, the feed
      does not go Stale, and the front comes to rest right behind the run of messages that
      were held after the hole. */
  lemma {:induction false} AnswerHeals(p: Params, s: Feed, es: seq<Event>, stream: Stream) returns (t: Feed)
    requires p.Ok() && Alive(p, s, stream)
    requires Answers(es, stream, s.expected)
    requires Unheld(s.held, s.expected, |es|)
    ensures t == Run(p, s, es)
    ensures Alive(p, t, stream) && t.stats.dropped == s.stats.dropped
    ensures t.expected >= s.expected + |es| && HeldRun(s.held, s.expected + |es|, t.expected)
    ensures es != [] ==> t.expected !in s.held
    decreases |es|
  {
    if es == [] {
      t := s;
    } else if |es| == 1 {
      t := FirstAnswer(p, s, es, stream);
    } else {
      UnheldRest(s.held, s.expected, |es|);
      AnswersRest(es, stream, s.expected);
      t := FirstAnswer(p, s, es, stream);
      t := AnswerHeals(p, t, es[1..], stream);
    }
  }
}
