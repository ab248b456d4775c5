/** The message rate limiter: a ring of ten buckets of one hundred milliseconds. */
module RateLimiter {

  const BUCKETS: nat := 10
  const BUCKET_NS: nat := 100_000_000

  function Bucket(now: nat): nat {
    now / BUCKET_NS
  }

  // ----- the ring, on values ----------------------------------------------------------

  datatype Ring = Ring(index: seq<nat>, count: seq<nat>) {
    predicate Ok() {
      |index| == BUCKETS && |count| == BUCKETS
    }
  }

  const EMPTY_RING := Ring(seq(BUCKETS, _ => 0), seq(BUCKETS, _ => 0))

  function Recorded(r: Ring, now: nat): (r': Ring)
    requires r.Ok()
    ensures r'.Ok()
  {
    var b := Bucket(now);
    var slot := b % BUCKETS;
    Ring(r.index[slot := b], r.count[slot := 1 + if r.index[slot] == b then r.count[slot] else 0])
  }

  predicate Live(r: Ring, i: nat, b: nat)
    requires r.Ok() && i < BUCKETS
  {
    r.index[i] <= b < r.index[i] + BUCKETS
  }

  /** The counts of the first n slots that hold a bucket of the window ending at b. */
  function LiveCount(r: Ring, n: nat, b: nat): nat
    requires r.Ok() && n <= BUCKETS
  {
    if n == 0 then 0 else LiveCount(r, n - 1, b) + if Live(r, n - 1, b) then r.count[n - 1] else 0
  }

  function CountAt(r: Ring, now: nat): nat
    requires r.Ok()
  {
    LiveCount(r, BUCKETS, Bucket(now))
  }

  // ----- what was sent --------------------------------------------------------------------

  /** How many sends fell in buckets lo to hi. */
  function Sent(log: seq<nat>, lo: int, hi: int): nat {
    if log == [] then 0
    else Sent(log[..|log| - 1], lo, hi) + if lo <= Bucket(log[|log| - 1]) <= hi then 1 else 0
  }

  /** The same, of the buckets that share ring slot i only. */
  function SentIn(log: seq<nat>, i: nat, lo: int, hi: int): nat {
    if log == [] then 0
    else
      var b := Bucket(log[|log| - 1]);
      SentIn(log[..|log| - 1], i, lo, hi) + if b % BUCKETS == i && lo <= b <= hi then 1 else 0
  }

  function SentBelow(log: seq<nat>, n: nat, lo: int, hi: int): nat {
    if n == 0 then 0 else SentBelow(log, n - 1, lo, hi) + SentIn(log, n - 1, lo, hi)
  }

  ghost predicate Ordered(log: seq<nat>) {
    forall i, j :: 0 <= i < j < |log| ==> log[i] <= log[j]
  }

  /** Slot i holds the last bucket sent in that maps to it, and that bucket's count. */
  ghost predicate SlotOk(r: Ring, log: seq<nat>, i: nat)
    requires r.Ok() && i < BUCKETS
  {
    && (forall k {:trigger log[k]} :: 0 <= k < |log| && Bucket(log[k]) % BUCKETS == i ==>
          Bucket(log[k]) <= r.index[i] && r.index[i] % BUCKETS == i)
    && r.count[i] == SentIn(log, i, r.index[i], r.index[i])
    && (log == [] ==> r.index[i] == 0)
    && (log != [] ==> r.index[i] <= Bucket(log[|log| - 1]))
  }

  ghost predicate Holds(r: Ring, log: seq<nat>) {
    r.Ok() && forall i: nat {:trigger SlotOk(r, log, i)} :: i < BUCKETS ==> SlotOk(r, log, i)
  }

  lemma {:induction false} NoneInEmptySlot(log: seq<nat>, i: nat, lo: int, hi: int)
    requires forall k :: 0 <= k < |log| ==> Bucket(log[k]) % BUCKETS == i ==> !(lo <= Bucket(log[k]) <= hi)
    ensures SentIn(log, i, lo, hi) == 0
    decreases |log|
  {
    if log != [] {
      NoneInEmptySlot(log[..|log| - 1], i, lo, hi);
    }
  }

  lemma RecordedHolds(r: Ring, log: seq<nat>, now: nat)
    requires Holds(r, log) && Ordered(log + [now])
    ensures Holds(Recorded(r, now), log + [now])
  {
    var r', log' := Recorded(r, now), log + [now];
    assert log'[..|log|] == log && log'[|log|] == now;
    assert log != [] ==> log'[|log| - 1] <= log'[|log|];
    forall i: nat | i < BUCKETS ensures SlotOk(r', log', i) {
      assert SlotOk(r, log, i);
      var b := Bucket(now);
      if i == b % BUCKETS && r.index[i] != b {
        NoneInEmptySlot(log, i, b, b);
      }
    }
  }

  lemma BucketMonotone(a: nat, b: nat)
    requires a <= b
    ensures Bucket(a) <= Bucket(b)
  {
  }

  /** Within a window of ten buckets only the slot's own bucket can share the slot. */
  lemma {:induction false} OneBucketPerSlot(log: seq<nat>, i: nat, index: nat, lo: int, hi: int)
    requires forall k :: 0 <= k < |log| && Bucket(log[k]) % BUCKETS == i ==> Bucket(log[k]) <= index
    requires index % BUCKETS == i && lo <= index <= hi && hi - lo < BUCKETS
    ensures SentIn(log, i, lo, hi) == SentIn(log, i, index, index)
    decreases |log|
  {
    if log != [] {
      OneBucketPerSlot(log[..|log| - 1], i, index, lo, hi);
    }
  }

  lemma SlotCount(r: Ring, log: seq<nat>, i: nat, b: nat)
    requires Holds(r, log) && i < BUCKETS && forall k :: 0 <= k < |log| ==> Bucket(log[k]) <= b
    ensures (if Live(r, i, b) then r.count[i] else 0) == SentIn(log, i, b - 9, b)
  {
    assert SlotOk(r, log, i);
    if r.index[i] % BUCKETS == i && Live(r, i, b) {
      OneBucketPerSlot(log, i, r.index[i], b - 9, b);
    } else {
      NoneInEmptySlot(log, i, b - 9, b);
      if Live(r, i, b) {
        NoneInEmptySlot(log, i, r.index[i], r.index[i]);
      }
    }
  }

  lemma {:induction false} LiveCountIsSent(r: Ring, log: seq<nat>, n: nat, b: nat)
    requires Holds(r, log) && n <= BUCKETS && forall k :: 0 <= k < |log| ==> Bucket(log[k]) <= b
    ensures LiveCount(r, n, b) == SentBelow(log, n, b - 9, b)
  {
    if n > 0 {
      SlotCount(r, log, n - 1, b);
      LiveCountIsSent(r, log, n - 1, b);
    }
  }

  lemma {:induction false} SentBelowAppend(log: seq<nat>, now: nat, n: nat, lo: int, hi: int)
    ensures SentBelow(log + [now], n, lo, hi)
         == SentBelow(log, n, lo, hi) + if Bucket(now) % BUCKETS < n && lo <= Bucket(now) <= hi then 1 else 0
  {
    assert (log + [now])[..|log|] == log;
    if n > 0 {
      SentBelowAppend(log, now, n - 1, lo, hi);
    }
  }

  lemma {:induction false} SentBelowAll(log: seq<nat>, lo: int, hi: int)
    ensures SentBelow(log, BUCKETS, lo, hi) == Sent(log, lo, hi)
    decreases |log|
  {
    if log == [] {
      SentBelowNone(BUCKETS, lo, hi);
    } else {
      var rest, now := log[..|log| - 1], log[|log| - 1];
      SentBelowAll(rest, lo, hi);
      SentBelowAppend(rest, now, BUCKETS, lo, hi);
      assert rest + [now] == log;
    }
  }

  lemma SentBelowNone(n: nat, lo: int, hi: int)
    ensures SentBelow([], n, lo, hi) == 0
  {
  }

  /** With times that never go back, the ring counts exactly the sends of the last ten
      aligned buckets. */
  lemma CountIsExact(r: Ring, log: seq<nat>, now: nat)
    requires Holds(r, log) && Ordered(log + [now])
    ensures CountAt(r, now) == Sent(log, Bucket(now) - 9, Bucket(now))
  {
    var b: int := Bucket(now);
    forall k | 0 <= k < |log| ensures Bucket(log[k]) <= b {
      assert (log + [now])[k] <= (log + [now])[|log|];
      BucketMonotone(log[k], now);
    }
    LiveCountIsSent(r, log, BUCKETS, b);
    SentBelowAll(log, b - 9, b);
  }

  // ----- gated runs -----------------------------------------------------------------------

  /** Each send was let through: the count before it was below the limit. */
  ghost predicate Gated(log: seq<nat>, limit: nat) {
    log == [] ||
    (var rest, now := log[..|log| - 1], log[|log| - 1];
     Gated(rest, limit) && Ordered(log) && Sent(rest, Bucket(now) - 9, Bucket(now)) < limit)
  }

  lemma OrderedAppend(log: seq<nat>, now: nat)
    requires Ordered(log) && forall i {:trigger log[i]} :: 0 <= i < |log| ==> log[i] <= now
    ensures Ordered(log + [now])
  {
  }

  /** A send that the count lets through keeps the ring exact and the run gated. */
  lemma GatedSend(r: Ring, log: seq<nat>, now: nat, limit: nat)
    requires Holds(r, log) && Gated(log, limit) && Ordered(log + [now]) && CountAt(r, now) < limit
    ensures Holds(Recorded(r, now), log + [now]) && Gated(log + [now], limit)
  {
    CountIsExact(r, log, now);
    RecordedHolds(r, log, now);
    assert (log + [now])[..|log|] == log;
  }

  lemma {:induction false} SentNarrower(log: seq<nat>, lo: int, hi: int, lo': int, hi': int)
    requires forall k :: 0 <= k < |log| && lo <= Bucket(log[k]) <= hi ==> lo' <= Bucket(log[k]) <= hi'
    ensures Sent(log, lo, hi) <= Sent(log, lo', hi')
    decreases |log|
  {
    if log != [] {
      SentNarrower(log[..|log| - 1], lo, hi, lo', hi');
    }
  }

  /** No ten consecutive buckets hold more than the limit. */
  lemma {:induction false} TenBuckets(log: seq<nat>, limit: nat, lo: int)
    requires Gated(log, limit)
    ensures Sent(log, lo, lo + 9) <= limit
    decreases |log|
  {
    if log != [] {
      var rest, now := log[..|log| - 1], log[|log| - 1];
      TenBuckets(rest, limit, lo);
      if lo <= Bucket(now) <= lo + 9 {
        forall k | 0 <= k < |rest| && lo <= Bucket(rest[k]) <= lo + 9
          ensures Bucket(now) - 9 <= Bucket(rest[k]) <= Bucket(now)
        {
          assert log[k] <= log[|log| - 1];
          BucketMonotone(rest[k], now);
        }
        SentNarrower(rest, lo, lo + 9, Bucket(now) - 9, Bucket(now));
      }
    }
  }

  /** How many sends fell in the closed interval of length `span` that starts at `from`. */
  function SentWithin(log: seq<nat>, from: nat, span: nat): nat {
    if log == [] then 0
    else SentWithin(log[..|log| - 1], from, span) + if from <= log[|log| - 1] <= from + span then 1 else 0
  }

  lemma {:induction false} WithinBuckets(log: seq<nat>, from: nat, span: nat, lo: int, hi: int)
    requires lo <= Bucket(from) && Bucket(from + span) <= hi
    ensures SentWithin(log, from, span) <= Sent(log, lo, hi)
    decreases |log|
  {
    if log != [] {
      WithinBuckets(log[..|log| - 1], from, span, lo, hi);
      var now := log[|log| - 1];
      if from <= now <= from + span {
        BucketMonotone(from, now);
        BucketMonotone(now, from + span);
      }
    }
  }

  /** No interval of 900 ms holds more than the limit. */
  lemma ShortInterval(log: seq<nat>, limit: nat, from: nat, span: nat)
    requires Gated(log, limit) && span <= 900_000_000
    ensures SentWithin(log, from, span) <= limit
  {
    BucketMonotone(from + span, from + 900_000_000);
    WithinBuckets(log, from, span, Bucket(from), Bucket(from) + 9);
    TenBuckets(log, limit, Bucket(from));
  }

  /** The guarantee for intervals of a given length, over every gated run. */
  ghost predicate Bounded(limit: nat, span: nat) {
    forall log: seq<nat>, from: nat {:trigger SentWithin(log, from, span)} ::
      Gated(log, limit) ==> SentWithin(log, from, span) <= limit
  }

  /** A full second is more than the ring can promise: a burst at the end of one bucket
      is forgotten 900000001 ns later. */
  lemma BurstForgotten(limit: nat, span: nat) returns (log: seq<nat>, from: nat)
    requires limit >= 1 && span > 900_000_000
    ensures Gated(log, limit) && SentWithin(log, from, span) > limit
  {
    from := 99_999_999;
    var burst := seq(limit, _ => from);
    BurstGated(limit, limit);
    log := burst + [1_000_000_000];
    assert log[..|log| - 1] == burst;
    SentNone(burst, 1, 10);
    BurstWithin(limit, from, span);
  }

  lemma {:induction false} SentNone(log: seq<nat>, lo: int, hi: int)
    requires forall k :: 0 <= k < |log| ==> !(lo <= Bucket(log[k]) <= hi)
    ensures Sent(log, lo, hi) == 0
    decreases |log|
  {
    if log != [] {
      SentNone(log[..|log| - 1], lo, hi);
    }
  }

  lemma {:induction false} BurstGated(n: nat, limit: nat)
    requires n <= limit
    ensures Gated(seq(n, _ => 99_999_999), limit) && Sent(seq(n, _ => 99_999_999), -9, 0) == n
  {
    if n > 0 {
      BurstGated(n - 1, limit);
      var log := seq(n, _ => 99_999_999);
      assert log[..n - 1] == seq(n - 1, _ => 99_999_999);
    }
  }

  lemma {:induction false} BurstWithin(n: nat, from: nat, span: nat)
    requires from == 99_999_999
    ensures SentWithin(seq(n, _ => 99_999_999), from, span) == n
  {
    if n > 0 {
      BurstWithin(n - 1, from, span);
      var log := seq(n, _ => 99_999_999);
      assert log[..n - 1] == seq(n - 1, _ => 99_999_999);
    }
  }

  /** Exactly which intervals the limiter bounds: those of at most 900 ms, or any if it lets
      nothing through. */
  lemma RateBoundExact(limit: nat, span: nat)
    ensures Bounded(limit, span) <==> span <= 900_000_000 || limit == 0
  {
    if limit == 0 {
      forall log: seq<nat>, from: nat | Gated(log, limit) ensures SentWithin(log, from, span) <= limit {
        assert log == [];
      }
    } else if span <= 900_000_000 {
      forall log: seq<nat>, from: nat | Gated(log, limit) ensures SentWithin(log, from, span) <= limit {
        ShortInterval(log, limit, from, span);
      }
    } else {
      var log, from := BurstForgotten(limit, span);
    }
  }

  // ----- the class ---------------------------------------------------------------------------

  class RateLimiter {
    const index: array<nat>
    const count: array<nat>

    ghost predicate Valid()
      reads this, index, count
    {
      index != count && index.Length == BUCKETS && count.Length == BUCKETS
    }

    ghost function View(): (r: Ring)
      reads this, index, count
      requires Valid()
      ensures r.Ok()
    {
      Ring(index[..], count[..])
    }

    constructor ()
      ensures Valid() && View() == EMPTY_RING && fresh(index) && fresh(count)
    {
      index := new nat[BUCKETS](_ => 0);
      count := new nat[BUCKETS](_ => 0);
      new;
      assert index[..] == EMPTY_RING.index && count[..] == EMPTY_RING.count;
    }

    /** Add up the slots whose buckets lie in the window. */
    method Count(now: nat) returns (n: nat)
      requires Valid()
      ensures n == CountAt(View(), now)
    {
      var b := Bucket(now);
      n := 0;
      for i := 0 to BUCKETS
        invariant n == LiveCount(View(), i, b)
      {
        if index[i] <= b && index[i] + BUCKETS > b {
          n := n + count[i];
        }
      }
    }

    method Record(now: nat)
      requires Valid()
      modifies index, count
      ensures Valid() && View() == Recorded(old(View()), now)
    {
      var b := Bucket(now);
      var slot := b % BUCKETS;
      if index[slot] != b {
        index[slot] := b;
        count[slot] := 0;
      }
      count[slot] := count[slot] + 1;
      assert index[..] == Recorded(old(View()), now).index;
      assert count[..] == Recorded(old(View()), now).count;
    }

    method Clear()
      requires Valid()
      modifies index, count
      ensures Valid() && View() == EMPTY_RING
    {
      for i := 0 to BUCKETS
        invariant forall j :: 0 <= j < i ==> index[j] == 0 && count[j] == 0
      {
        index[i], count[i] := 0, 0;
      }
      assert index[..] == EMPTY_RING.index && count[..] == EMPTY_RING.count;
    }
  }
}
