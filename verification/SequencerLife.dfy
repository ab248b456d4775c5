/**
  The drop counter over the whole life of a feed, resets included: when it is the number of
  sequences that were passed in some session and handed downstream in none.
 */
module SequencerLife {
  import opened SequencerModel
  import opened SequencerTheorems
  import opened Common

  /** What one session did: the sequences from `first` up to `end` were passed. */
  datatype Session = Session(first: nat, end: nat, output: seq<Message>, overwide: nat)

  function SessionOf(s: Feed): Session {
    Session(s.history.first, s.expected, s.history.output, s.history.overwide)
  }

  /** A reset starts a session, and so does the first message. */
  predicate Opens(s: Feed, e: Event) {
    e.OnReset? || (!s.started && !e.OnPoll?)
  }

  /** The sessions of a run, the one still open included. */
  function Sessions(p: Params, s: Feed, es: seq<Event>): seq<Session>
    requires p.Ok()
    decreases |es|
  {
    if es == [] then [SessionOf(s)]
    else (if Opens(s, es[0]) then [SessionOf(s)] else []) + Sessions(p, Step(p, s, es[0]), es[1..])
  }

  /** What went downstream lies within the session and is strictly increasing. */
  ghost predicate Ordered(x: Session) {
    x.first <= x.end && forall k: nat {:trigger Look(k)} :: Look(k) ==> Within(x) && Increasing(x.output)
  }

  ghost predicate Within(x: Session) {
    forall i :: 0 <= i < |x.output| ==> x.first <= x.output[i].sequence < x.end
  }

  ghost predicate Increasing(out: seq<Message>) {
    forall i, j :: 0 <= i < j < |out| ==> out[i].sequence < out[j].sequence
  }

  ghost predicate AllOrdered(ss: seq<Session>) {
    forall i {:trigger ss[i]} :: 0 <= i < |ss| ==> Ordered(ss[i])
  }

  // ----- what a session passed ------------------------------------------------------------

  ghost function Range(lo: nat, hi: nat): (r: set<nat>)
    requires lo <= hi
    ensures |r| == hi - lo && forall q {:trigger q in r} :: q in r <==> lo <= q < hi
    decreases hi - lo
  {
    if lo == hi then {} else Range(lo, hi - 1) + {hi - 1}
  }

  ghost function Sequences(out: seq<Message>): set<nat> {
    set m | m in out :: m.sequence
  }

  lemma {:induction false} SequencesCount(out: seq<Message>)
    requires Increasing(out)
    ensures |Sequences(out)| == |out|
    decreases |out|
  {
    if out != [] {
      var rest, last := out[..|out| - 1], out[|out| - 1];
      SequencesCount(rest);
      assert out == rest + [last];
      assert Sequences(out) == Sequences(rest) + {last.sequence};
      assert last.sequence !in Sequences(rest);
    }
  }

  ghost function Passed(x: Session): set<nat>
    requires Ordered(x)
  {
    Range(x.first, x.end)
  }

  ghost function Delivered(x: Session): set<nat> {
    Sequences(x.output)
  }

  ghost function Skipped(x: Session): (r: set<nat>)
    requires Ordered(x)
    ensures |r| == x.end - x.first - |x.output|
  {
    assert Look(0);
    UnionSize(Passed(x) - Delivered(x), Delivered(x));
    SequencesCount(x.output);
    assert Passed(x) - Delivered(x) + Delivered(x) == Passed(x);
    Passed(x) - Delivered(x)
  }

  // ----- counting in parts ------------------------------------------------------------------

  ghost function Union(parts: seq<set<nat>>): set<nat> {
    set i, q | 0 <= i < |parts| && q in parts[i] :: q
  }

  ghost function Sizes(parts: seq<set<nat>>): nat {
    if parts == [] then 0 else Sizes(parts[..|parts| - 1]) + |parts[|parts| - 1]|
  }

  ghost predicate Disjoint(parts: seq<set<nat>>) {
    forall i, j :: 0 <= i < j < |parts| ==> parts[i] !! parts[j]
  }

  lemma UnionSize<T>(a: set<T>, b: set<T>)
    ensures |a + b| <= |a| + |b|
    ensures |a + b| == |a| + |b| <==> a !! b
  {
    assert a + b == a + (b - a) && b == (b - a) + (a * b);
  }

  /** Parts add up to the size of their union exactly when no two of them meet. */
  lemma {:induction false} UnionCount(parts: seq<set<nat>>)
    ensures |Union(parts)| <= Sizes(parts)
    ensures |Union(parts)| == Sizes(parts) <==> Disjoint(parts)
    decreases |parts|
  {
    if parts != [] {
      var init, last := parts[..|parts| - 1], parts[|parts| - 1];
      UnionCount(init);
      UnionSplit(parts);
      UnionSize(Union(init), last);
      DisjointSplit(parts);
    } else {
      assert Union(parts) == {};
    }
  }

  lemma UnionSplit(parts: seq<set<nat>>)
    requires parts != []
    ensures Union(parts) == Union(parts[..|parts| - 1]) + parts[|parts| - 1]
  {
    var init, last := parts[..|parts| - 1], parts[|parts| - 1];
    forall q | q in Union(init) ensures q in Union(parts) {
      var i :| 0 <= i < |init| && q in init[i];
      assert q in parts[i];
    }
    forall q | q in Union(parts) ensures q in Union(init) + last {
      var i :| 0 <= i < |parts| && q in parts[i];
      assert i < |init| ==> q in init[i];
    }
  }

  lemma DisjointSplit(parts: seq<set<nat>>)
    requires parts != []
    ensures Disjoint(parts) <==> Disjoint(parts[..|parts| - 1]) && Union(parts[..|parts| - 1]) !! parts[|parts| - 1]
  {
    var init, last := parts[..|parts| - 1], parts[|parts| - 1];
    assert forall i :: 0 <= i < |init| ==> init[i] == parts[i];
    if Disjoint(init) && Union(init) !! last {
      forall i, j | 0 <= i < j < |parts| ensures parts[i] !! parts[j] {
        if j == |init| {
          assert forall q :: q in init[i] ==> q in Union(init);
        }
      }
    }
    if Disjoint(parts) {
      forall q | q in Union(init) ensures q !in last {
        var i :| 0 <= i < |init| && q in init[i];
        assert parts[i] !! last;
      }
    }
  }

  // ----- the sessions of a run ----------------------------------------------------------------

  ghost function SkippedIn(ss: seq<Session>): (parts: seq<set<nat>>)
    requires AllOrdered(ss)
    ensures |parts| == |ss| && forall i {:trigger parts[i]} :: 0 <= i < |ss| ==> parts[i] == Skipped(ss[i])
  {
    seq(|ss|, i requires 0 <= i < |ss| => Skipped(ss[i]))
  }

  ghost function DeliveredIn(ss: seq<Session>): (parts: seq<set<nat>>)
    ensures |parts| == |ss| && forall i {:trigger parts[i]} :: 0 <= i < |ss| ==> parts[i] == Delivered(ss[i])
  {
    seq(|ss|, i requires 0 <= i < |ss| => Delivered(ss[i]))
  }

  /** Passed in some session and handed downstream in none. */
  ghost function NeverDelivered(ss: seq<Session>): set<nat>
    requires AllOrdered(ss)
  {
    Union(SkippedIn(ss)) - Union(DeliveredIn(ss))
  }

  /** No session passed a sequence that another one skipped. */
  ghost predicate NotPassedAgain(ss: seq<Session>)
    requires AllOrdered(ss)
  {
    forall i, j {:trigger ss[i], ss[j]} :: 0 <= i < |ss| && 0 <= j < |ss| && i != j ==> Skipped(ss[i]) !! Passed(ss[j])
  }

  lemma PassedIs(x: Session, y: Session)
    requires Ordered(x) && Ordered(y)
    ensures Skipped(x) !! Delivered(x)
    ensures Skipped(x) !! Passed(y) <==> Skipped(x) !! Skipped(y) && Skipped(x) !! Delivered(y)
  {
    assert Look(0);
    assert Delivered(y) <= Passed(y);
    assert Passed(y) == Skipped(y) + Delivered(y);
  }

  lemma NotPassedAgainMeans(ss: seq<Session>)
    requires AllOrdered(ss) && NotPassedAgain(ss)
    ensures Disjoint(SkippedIn(ss)) && Union(SkippedIn(ss)) !! Union(DeliveredIn(ss))
  {
    var skipped, delivered := SkippedIn(ss), DeliveredIn(ss);
    forall i, j | 0 <= i < j < |ss| ensures skipped[i] !! skipped[j] {
      PassedIs(ss[i], ss[j]);
    }
    forall i, j | 0 <= i < |ss| && 0 <= j < |ss| ensures skipped[i] !! delivered[j] {
      PassedIs(ss[i], ss[j]);
    }
    UnionsApart(skipped, delivered);
  }

  lemma PassedOnce(ss: seq<Session>)
    requires AllOrdered(ss) && Disjoint(SkippedIn(ss)) && Union(SkippedIn(ss)) !! Union(DeliveredIn(ss))
    ensures NotPassedAgain(ss)
  {
    var skipped, delivered := SkippedIn(ss), DeliveredIn(ss);
    UnionsApart(skipped, delivered);
    forall i, j | 0 <= i < |ss| && 0 <= j < |ss| && i != j ensures Skipped(ss[i]) !! Passed(ss[j]) {
      assert skipped[i] !! delivered[j];
      assert if i < j then skipped[i] !! skipped[j] else skipped[j] !! skipped[i];
      PassedIs(ss[i], ss[j]);
    }
  }

  lemma UnionsApart(a: seq<set<nat>>, b: seq<set<nat>>)
    ensures Union(a) !! Union(b) <==> forall i, j {:trigger a[i], b[j]} :: 0 <= i < |a| && 0 <= j < |b| ==> a[i] !! b[j]
  {
    if Union(a) !! Union(b) {
      forall i, j | 0 <= i < |a| && 0 <= j < |b| ensures a[i] !! b[j] {
        assert forall q :: q in a[i] ==> q in Union(a);
        assert forall q :: q in b[j] ==> q in Union(b);
      }
    }
  }

  // ----- what the counter adds up -----------------------------------------------------------

  function WideSum(ss: seq<Session>): nat {
    if ss == [] then 0 else WideSum(ss[..|ss| - 1]) + ss[|ss| - 1].overwide
  }

  lemma {:induction false} NoneWide(ss: seq<Session>)
    ensures WideSum(ss) == 0 <==> forall i {:trigger ss[i]} :: 0 <= i < |ss| ==> ss[i].overwide == 0
    decreases |ss|
  {
    if ss != [] {
      var init := ss[..|ss| - 1];
      NoneWide(init);
      assert forall i {:trigger ss[i]} :: 0 <= i < |init| ==> ss[i] == init[i];
      assert forall i {:trigger init[i]} :: 0 <= i < |init| ==> ss[i] == init[i];
    }
  }

  /** What the sessions before the open one added to the counter. */
  lemma SessionAdds(past: seq<Session>, x: Session)
    requires AllOrdered(past) && Ordered(x)
    ensures AllOrdered(past + [x]) && WideSum(past + [x]) == WideSum(past) + x.overwide
    ensures Sizes(SkippedIn(past + [x])) == Sizes(SkippedIn(past)) + |Skipped(x)|
  {
    var ss := past + [x];
    assert ss[..|past|] == past;
    var parts := SkippedIn(ss);
    assert parts[..|past|] == SkippedIn(past);
  }

  /** The counter stood at what the closed sessions added when the open one began. */
  ghost predicate Counted(s: Feed, past: seq<Session>) {
    AllOrdered(past) && s.history.base.dropped == Sizes(SkippedIn(past)) + WideSum(past)
  }

  ghost predicate CountedAll(dropped: nat, ss: seq<Session>) {
    forall k: nat {:trigger Look(k)} :: Look(k) ==> AllOrdered(ss) && dropped == Sizes(SkippedIn(ss)) + WideSum(ss)
  }

  ghost predicate Tracked(p: Params, s: Feed, past: seq<Session>, stream: Stream) {
    forall k: nat {:trigger Look(k)} :: Look(k) ==> Inv(p, s, stream) && Counted(s, past)
  }

  lemma SessionCounts(p: Params, s: Feed, past: seq<Session>, stream: Stream)
    requires Tracked(p, s, past, stream)
    ensures CountedAll(s.stats.dropped, past + [SessionOf(s)])
  {
    assert Look(0);
    assert Ordered(SessionOf(s));
    SessionAdds(past, SessionOf(s));
  }

  lemma StepTracked(p: Params, s: Feed, e: Event, past: seq<Session>, stream: Stream)
    requires p.Ok() && Tracked(p, s, past, stream) && Genuine(e, stream)
    ensures Tracked(p, Step(p, s, e), if Opens(s, e) then past + [SessionOf(s)] else past, stream)
  {
    assert Look(0);
    SessionCounts(p, s, past, stream);
    StepInv(p, s, e, stream);
    BaseMoves(p, s, e, stream);
  }

  lemma FirstStep(p: Params, s: Feed, es: seq<Event>, past: seq<Session>, stream: Stream) returns (t: Feed, past': seq<Session>)
    requires p.Ok() && Tracked(p, s, past, stream) && AllGenuine(es, stream) && es != []
    ensures Tracked(p, t, past', stream) && AllGenuine(es[1..], stream)
    ensures Run(p, s, es) == Run(p, t, es[1..])
    ensures past + Sessions(p, s, es) == past' + Sessions(p, t, es[1..])
  {
    t := Step(p, s, es[0]);
    past' := if Opens(s, es[0]) then past + [SessionOf(s)] else past;
    StepTracked(p, s, es[0], past, stream);
  }

  lemma {:induction false} CounterAddsUp(p: Params, s: Feed, es: seq<Event>, past: seq<Session>, stream: Stream)
    requires p.Ok() && Tracked(p, s, past, stream) && AllGenuine(es, stream)
    ensures CountedAll(Run(p, s, es).stats.dropped, past + Sessions(p, s, es))
    decreases |es|
  {
    if es == [] {
      SessionCounts(p, s, past, stream);
    } else {
      var t, past' := FirstStep(p, s, es, past, stream);
      CounterAddsUp(p, t, es[1..], past', stream);
    }
  }

  lemma BaseMoves(p: Params, s: Feed, e: Event, stream: Stream)
    requires p.Ok() && Inv(p, s, stream) && Genuine(e, stream)
    ensures Step(p, s, e).history.base == if Opens(s, e) then s.stats else s.history.base
  {
    if !e.OnReset? {
      OverwideExactly(p, s, e, stream);
    }
  }

  /**
    Over the life of a feed the counter is the number of sequences passed and never handed
    downstream if and only if nothing was refused for its width and no session passed a
    sequence that another one skipped.
   */
  lemma DroppedForLife(p: Params, es: seq<Event>, stream: Stream)
    requires p.Ok() && AllGenuine(es, stream)
    ensures AllOrdered(Sessions(p, FRESH, es))
    ensures var ss := Sessions(p, FRESH, es);
      Run(p, FRESH, es).stats.dropped == |NeverDelivered(ss)|
      <==> NotPassedAgain(ss) && forall i {:trigger ss[i]} :: 0 <= i < |ss| ==> ss[i].overwide == 0
  {
    FreshInv(p, stream);
    CounterAddsUp(p, FRESH, es, [], stream);
    CounterMeans(Run(p, FRESH, es).stats.dropped, [] + Sessions(p, FRESH, es));
    assert [] + Sessions(p, FRESH, es) == Sessions(p, FRESH, es);
  }

  lemma CounterMeans(dropped: nat, ss: seq<Session>)
    requires CountedAll(dropped, ss)
    ensures AllOrdered(ss)
    ensures dropped == |NeverDelivered(ss)|
      <==> NotPassedAgain(ss) && forall i {:trigger ss[i]} :: 0 <= i < |ss| ==> ss[i].overwide == 0
  {
    assert Look(0);
    NeverDeliveredCount(ss);
    NoneWide(ss);
  }

  lemma NeverDeliveredCount(ss: seq<Session>)
    requires AllOrdered(ss)
    ensures |NeverDelivered(ss)| <= Sizes(SkippedIn(ss))
    ensures |NeverDelivered(ss)| == Sizes(SkippedIn(ss)) <==> NotPassedAgain(ss)
  {
    var skipped, delivered := Union(SkippedIn(ss)), Union(DeliveredIn(ss));
    UnionCount(SkippedIn(ss));
    SetLess(skipped, delivered);
    if NotPassedAgain(ss) {
      NotPassedAgainMeans(ss);
    } else if Disjoint(SkippedIn(ss)) && skipped !! delivered {
      PassedOnce(ss);
    }
  }

  lemma SetLess(a: set<nat>, b: set<nat>)
    ensures |a - b| <= |a| && (|a - b| == |a| <==> a !! b)
  {
    UnionSize(a - b, a * b);
    assert (a - b) + a * b == a;
  }
}
