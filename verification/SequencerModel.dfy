/**
  The sequencer as a state machine on values: the reorder window is a plain map
  from sequence number to payload.  Module Sequencer refines it with the ring of
  slots; the theorems over whole runs are in module SequencerTheorems.
 */
module SequencerModel {
  import opened Common

  type Payload = seq<byte>

  datatype Line = A | B

  datatype FeedState = Synced | Gap | Recovering | Stale

  /** The configuration after the constructor has normalised it. */
  datatype Params = Params(capacity: nat, graceNs: nat, timeoutNs: nat, maxAttempts: nat, maxPayload: nat) {
    predicate Ok() {
      capacity >= 1 && maxAttempts >= 1 && maxPayload >= 1
    }
  }

  datatype Stats = Stats(
    accepted: nat, duplicates: nat, outOfOrder: nat, gapsDetected: nat, gapsRecovered: nat,
    dropped: nat, highWater: nat, winsA: nat, winsB: nat, requests: nat, retries: nat, fromRecovery: nat)

  datatype Message = Message(sequence: nat, payload: Payload)

  datatype Request = Request(first: nat, count: nat)

  /** What only the specification remembers: the session's first sequence, what
      went downstream since the last reset, the counters at that reset, how many
      held messages were ever thrown away unread, and how many early messages
      were refused for their width since the reset. */
  datatype History = History(first: nat, output: seq<Message>, base: Stats, wiped: nat, overwide: nat)

  datatype Feed = Feed(
    started: bool, expected: nat, held: map<nat, Payload>, state: FeedState,
    gapSince: nat, deadline: nat, recoveryEnd: nat, attempts: nat,
    stats: Stats, history: History)

  const ZERO_STATS := Stats(0, 0, 0, 0, 0, 0, 0, 0, 0, 0, 0, 0)
  const MAX_REQUEST: nat := 65535

  const FRESH := Feed(false, 0, map[], Synced, 0, 0, 0, 0, ZERO_STATS, History(0, [], ZERO_STATS, 0, 0))

  function ClearRecovery(s: Feed): Feed {
    s.(attempts := 0, deadline := 0, recoveryEnd := 0)
  }

  function EnterStale(s: Feed): Feed {
    ClearRecovery(s.(state := Stale))
  }

  function Reset(s: Feed, first: nat): Feed {
    ClearRecovery(s.(started := true, expected := first, held := map[], state := Synced, gapSince := 0,
                     history := History(first, [], s.stats, s.history.wiped + |s.held|, 0)))
  }

  /** Hand one payload downstream as the sequence that is owed. */
  function Emit(s: Feed, payload: Payload): Feed {
    s.(expected := s.expected + 1,
       stats := s.stats.(accepted := s.stats.accepted + 1),
       history := s.history.(output := s.history.output + [Message(s.expected, payload)]))
  }

  function TakeFront(s: Feed): Feed
    requires s.expected in s.held
  {
    Emit(s.(held := s.held - {s.expected}), s.held[s.expected])
  }

  function DropFront(s: Feed): Feed {
    s.(expected := s.expected + 1, stats := s.stats.(dropped := s.stats.dropped + 1))
  }

  function Drain(s: Feed): Feed
    decreases |s.held|
  {
    if s.expected in s.held then
      assert |s.held - {s.expected}| < |s.held| by { RemoveShrinks(s.held, s.expected); }
      Drain(TakeFront(s))
    else s
  }

  lemma RemoveShrinks<K, V>(m: map<K, V>, k: K)
    requires k in m
    ensures |m - {k}| == |m| - 1
  {
    assert (m - {k}).Keys == m.Keys - {k};
  }

  function Walk(s: Feed, target: nat): Feed
    decreases target - s.expected
  {
    if s.expected >= target then Drain(s)
    else if s.expected in s.held then Walk(TakeFront(s), target)
    else Walk(DropFront(s), target)
  }

  function Wipe(s: Feed, target: nat): Feed
    requires s.expected <= target
  {
    s.(held := map[], expected := target,
       stats := s.stats.(dropped := s.stats.dropped + (target - s.expected)),
       history := s.history.(wiped := s.history.wiped + |s.held|))
  }

  function SkipTo(p: Params, s: Feed, target: nat): (Feed, bool) {
    if target <= s.expected then (s, false)
    else if target - s.expected >= p.capacity then (Wipe(s, target), true)
    else (Walk(s, target), false)
  }

  function MissingFrom(p: Params, s: Feed, i: nat): nat
    requires i <= p.capacity
    decreases p.capacity - i
  {
    if i == p.capacity || s.expected + i in s.held then i else MissingFrom(p, s, i + 1)
  }

  function MissingRun(p: Params, s: Feed): nat {
    MissingFrom(p, s, 0)
  }

  function SkipHole(p: Params, s: Feed): Feed {
    SkipTo(p, s, s.expected + MissingRun(p, s)).0
  }

  function IssueRequest(p: Params, s: Feed): (Feed, Request) {
    var run := MissingRun(p, s);
    var n := if run > MAX_REQUEST then MAX_REQUEST else run;
    (s.(recoveryEnd := s.expected + n), Request(s.expected, n))
  }

  function Credit(s: Feed, line: Option<Line>): Feed {
    match line
    case None => s
    case Some(A) => s.(stats := s.stats.(winsA := s.stats.winsA + 1))
    case Some(B) => s.(stats := s.stats.(winsB := s.stats.winsB + 1))
  }

  function Settle(s: Feed, now: nat): Feed {
    if |s.held| == 0 then
      if s.state == Gap || s.state == Recovering then
        ClearRecovery(s.(state := Synced, stats := s.stats.(gapsRecovered := s.stats.gapsRecovered + 1)))
      else s
    else if s.state == Recovering && s.expected >= s.recoveryEnd then
      ClearRecovery(s.(state := Gap, gapSince := now,
                       stats := s.stats.(gapsRecovered := s.stats.gapsRecovered + 1,
                                         gapsDetected := s.stats.gapsDetected + 1)))
    else s
  }

  function DeliverNow(s: Feed, payload: Payload, line: Option<Line>, now: nat): Feed {
    Settle(Drain(Emit(Credit(s, line), payload)), now)
  }

  function Store(s: Feed, sequence: nat, payload: Payload): Feed {
    var held := s.held[sequence := payload];
    s.(held := held,
       stats := s.stats.(outOfOrder := s.stats.outOfOrder + 1,
                         highWater := if |held| > s.stats.highWater then |held| else s.stats.highWater))
  }

  /** The clock and the gap counter start when the window stops being empty. */
  function NoteHole(s: Feed, firstHole: bool, now: nat): Feed {
    var s1 := if firstHole
              then s.(gapSince := now, stats := s.stats.(gapsDetected := s.stats.gapsDetected + 1))
              else s;
    if s1.state == Synced then s1.(state := Gap) else s1
  }

  function Hold(s: Feed, sequence: nat, payload: Payload, line: Option<Line>, now: nat): Feed {
    NoteHole(Credit(Store(s, sequence, payload), line), |s.held| == 0, now)
  }

  /** The window cannot reach `sequence`: give up the least that makes room. */
  function MakeRoom(p: Params, s: Feed, sequence: nat): Feed
    requires p.Ok() && sequence >= s.expected + p.capacity
  {
    var (s1, wiped) := SkipTo(p, s, sequence - (p.capacity - 1));
    EnterStale(if wiped then SkipTo(p, s1, sequence).0 else s1)
  }

  function CountDuplicate(s: Feed): Feed {
    s.(stats := s.stats.(duplicates := s.stats.duplicates + 1))
  }

  function RefuseWide(s: Feed): Feed {
    s.(stats := s.stats.(dropped := s.stats.dropped + 1),
       history := s.history.(overwide := s.history.overwide + 1))
  }

  function Start(s: Feed, sequence: nat): Feed {
    if s.started then s else Reset(s, sequence)
  }

  /** A message that is ahead of what is owed, once the window can reach it. */
  function Place(p: Params, s: Feed, sequence: nat, payload: Payload, line: Option<Line>, now: nat): (Feed, bool) {
    if sequence == s.expected then (DeliverNow(s, payload, line, now), true)
    else if |payload| > p.maxPayload then (RefuseWide(s), false)
    else (Hold(s, sequence, payload, line, now), true)
  }

  function Ingest(p: Params, s0: Feed, sequence: nat, payload: Payload, line: Option<Line>, now: nat): (Feed, bool)
    requires p.Ok()
  {
    var s := Start(s0, sequence);
    if sequence < s.expected then (CountDuplicate(s), false)
    else if sequence == s.expected then (DeliverNow(s, payload, line, now), true)
    else if sequence in s.held then (CountDuplicate(s), false)
    else
      Place(p, if sequence - s.expected >= p.capacity then MakeRoom(p, s, sequence) else s,
            sequence, payload, line, now)
  }

  function Retransmit(p: Params, s: Feed, sequence: nat, payload: Payload, now: nat): Feed
    requires p.Ok()
  {
    var (s1, taken) := Ingest(p, s, sequence, payload, None, now);
    if !taken then s1
    else
      var s2 := s1.(stats := s1.stats.(fromRecovery := s1.stats.fromRecovery + 1));
      if s2.state == Recovering then s2.(deadline := now + p.timeoutNs) else s2
  }

  predicate UnderPressure(p: Params, s: Feed) {
    |s.held| * 4 >= p.capacity * 3
  }

  function Poll(p: Params, s: Feed, now: nat): (Feed, Option<Request>) {
    match s.state
    case Synced => (s, None)
    case Gap =>
      if !UnderPressure(p, s) && now < s.gapSince + p.graceNs then (s, None)
      else
        var (s1, r) := IssueRequest(p, s.(state := Recovering, attempts := 1, deadline := now + p.timeoutNs,
                                          stats := s.stats.(requests := s.stats.requests + 1)));
        (s1, Some(r))
    case Recovering =>
      if now < s.deadline then (s, None)
      else if s.attempts >= p.maxAttempts then (EnterStale(SkipHole(p, s)), None)
      else
        var (s1, r) := IssueRequest(p, s.(attempts := s.attempts + 1, deadline := now + p.timeoutNs,
                                          stats := s.stats.(requests := s.stats.requests + 1,
                                                            retries := s.stats.retries + 1)));
        (s1, Some(r))
    case Stale =>
      if |s.held| != 0 && now >= s.gapSince + p.graceNs then (SkipHole(p, s).(gapSince := now), None)
      else (s, None)
  }

  // ----- runs -------------------------------------------------------------------

  datatype Event =
    | OnMessage(line: Line, sequence: nat, payload: Payload, now: nat)
    | OnRetransmit(sequence: nat, payload: Payload, now: nat)
    | OnPoll(now: nat)
    | OnReset(first: nat)

  function Step(p: Params, s: Feed, e: Event): Feed
    requires p.Ok()
  {
    match e
    case OnMessage(line, sequence, payload, now) => Ingest(p, s, sequence, payload, Some(line), now).0
    case OnRetransmit(sequence, payload, now) => Retransmit(p, s, sequence, payload, now)
    case OnPoll(now) => Poll(p, s, now).0
    case OnReset(first) => Reset(s, first)
  }

  function Run(p: Params, s: Feed, es: seq<Event>): Feed
    requires p.Ok()
    decreases |es|
  {
    if es == [] then s else Run(p, Step(p, s, es[0]), es[1..])
  }
}
