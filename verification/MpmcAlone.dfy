/**
  The queue when nobody interferes: from any state that any interleaving can reach, a thread
  that runs while all others rest finishes its push or pop in five steps, and succeeds exactly
  when there is room or an item.
 */
module MpmcAlone {
  import opened Common
  import opened MpmcQueue

  // ----- a popped slot comes back -------------------------------------------------------------

  /** A claimed pop has released its slot or is still about to. */
  ghost predicate Returning<T>(q: Queue<T>, threads: seq<Thread<T>>, pos: nat)
    requires Counted(q) && pos < q.head
  {
    var t := q.popper[pos];
    t < |threads| && (Released(q, pos) || ((threads[t].PopTake? || threads[t].PopRelease?) && threads[t].pos == pos))
  }

  ghost predicate AllReturning<T>(s: State<T>) {
    Counted(s.q) && forall pos: nat {:trigger Returning(s.q, s.threads, pos)} :: pos < s.q.head ==> Returning(s.q, s.threads, pos)
  }

  lemma StillReturning<T>(q: Queue<T>, threads: seq<Thread<T>>, t: nat, spurious: bool, pos: nat)
    requires Counted(q) && SlotsOk(q) && t < |threads| && PcOk(q, t, threads[t]) && pos < q.head && Returning(q, threads, pos)
    ensures var (q', pc') := Move(q, t, threads[t], spurious); Counted(q') && Returning(q', threads[t := pc'], pos)
  {
    MoveSlots(q, t, threads[t], spurious);
    assert SlotOk(q, At(q, pos));
  }

  lemma StepReturns<T>(s: State<T>, a: Action<T>)
    requires Inv(s) && AllReturning(s)
    ensures AllReturning(Step(s, a))
  {
    StepKeeps(s, a);
    var s' := Step(s, a);
    var t := a.thread;
    if t < |s.threads| {
      assert PcOk(s.q, t, s.threads[t]);
      forall pos: nat | pos < s'.q.head ensures Returning(s'.q, s'.threads, pos) {
        if pos < s.q.head {
          assert Returning(s.q, s.threads, pos);
          if a.Advance? {
            StillReturning(s.q, s.threads, t, a.spurious, pos);
          }
        }
      }
    }
  }

  lemma {:induction false} ExecuteReturns<T>(s: State<T>, actions: seq<Action<T>>)
    requires Inv(s) && AllReturning(s)
    ensures Inv(Execute(s, actions)) && AllReturning(Execute(s, actions))
    decreases |actions|
  {
    if actions != [] {
      StepKeeps(s, actions[0]);
      StepReturns(s, actions[0]);
      ExecuteReturns(Step(s, actions[0]), actions[1..]);
    }
  }

  // ----- at rest ------------------------------------------------------------------------------

  ghost predicate Quiet<T>(s: State<T>) {
    forall t: nat {:trigger s.threads[t]} :: t < |s.threads| ==> Ready(s.threads[t])
  }

  /** Two positions of one slot that are at most one lap apart are equal or exactly one lap apart. */
  lemma SameSlot(a: nat, b: nat, n: nat)
    requires n > 0 && Residue(a, n) == Residue(b, n) && a <= b <= a + n
    ensures a == b || b == a + n
  {
    if b < a + n {
      ResidueInjective(a, b, n);
    }
  }

  /** With everybody at rest and room in the queue, the slot at the tail is free. */
  lemma RoomAtTail<T>(s: State<T>)
    requires Inv(s) && AllReturning(s) && Quiet(s)
    ensures var q := s.q; var seqno := q.slots[At(q, q.tail)].seqno;
      if q.tail - q.head < |q.slots| then seqno == q.tail else seqno < q.tail
  {
    var q := s.q;
    var n, i := |q.slots|, At(q, q.tail);
    NeverOverfull(q);
    assert SlotOk(q, i);
    if q.turn[i] > q.tail {
      SameSlot(q.tail, q.turn[i], n);
    } else {
      SameSlot(q.turn[i], q.tail, n);
    }
    if q.tail >= n && q.tail - n < q.head {
      assert Returning(q, s.threads, q.tail - n);
      ResidueNextLap(q.tail - n, n);
    }
  }

  /** With everybody at rest and an item in the queue, the slot at the head is full. */
  lemma ItemAtHead<T>(s: State<T>)
    requires Inv(s) && AllReturning(s) && Quiet(s)
    ensures var q := s.q; var slot := q.slots[At(q, q.head)];
      if q.head < q.tail then slot.seqno == q.head + 1 && slot.value == q.pushed[q.head] else slot.seqno < q.head + 1
  {
    var q := s.q;
    if q.head < q.tail {
      var i := At(q, q.head);
      assert SlotOk(q, i);
      assert PushTracked(q, s.threads, q.head);
      if q.turn[i] > q.head {
        SameSlot(q.head, q.turn[i], |q.slots|);
      }
    } else {
      RoomAtTail(s);
    }
  }

  // ----- alone ----------------------------------------------------------------------------------

  /** Thread t takes n steps in a row. */
  function Alone<T>(s: State<T>, t: nat, n: nat): State<T>
    requires Shaped(s.q)
    decreases n
  {
    if n == 0 then s
    else
      StepShaped(s, Advance(t, false));
      Alone(Step(s, Advance(t, false)), t, n - 1)
  }

  lemma PushAlone<T>(s: State<T>, t: nat, item: T)
    requires Inv(s) && AllReturning(s) && Quiet(s) && t < |s.threads|
    ensures var s' := Alone(Step(s, StartPush(t, item)), t, 5);
      if s.q.tail - s.q.head < |s.q.slots| then
        && s'.threads[t] == Returned(true, None) && s'.q.pushed == s.q.pushed + [item]
        && s'.q.head == s.q.head && s'.q.tail == s.q.tail + 1
      else s'.threads[t] == Returned(false, None) && s'.q == s.q
  {
    RoomAtTail(s);
    assert Ready(s.threads[t]);
    var s1 := Step(s, StartPush(t, item));
    var s2 := Step(s1, Advance(t, false));
    var s3 := Step(s2, Advance(t, false));
    var s4 := Step(s3, Advance(t, false));
    var s5 := Step(s4, Advance(t, false));
    var s6 := Step(s5, Advance(t, false));
    assert Alone(s1, t, 5) == Alone(s2, t, 4) == Alone(s3, t, 3) == Alone(s4, t, 2) == Alone(s5, t, 1) == Alone(s6, t, 0) == s6;
  }

  lemma PopAlone<T>(s: State<T>, t: nat)
    requires Inv(s) && AllReturning(s) && Quiet(s) && t < |s.threads|
    ensures var s' := Alone(Step(s, StartPop(t)), t, 5);
      if s.q.head < s.q.tail then
        && s'.threads[t] == Returned(true, Some(s.q.pushed[s.q.head])) && s'.q.pushed == s.q.pushed
        && s'.q.head == s.q.head + 1 && s'.q.tail == s.q.tail
      else s'.threads[t] == Returned(false, None) && s'.q == s.q
  {
    ItemAtHead(s);
    assert Ready(s.threads[t]);
    var s1 := Step(s, StartPop(t));
    var s2 := Step(s1, Advance(t, false));
    var s3 := Step(s2, Advance(t, false));
    var s4 := Step(s3, Advance(t, false));
    var s5 := Step(s4, Advance(t, false));
    var s6 := Step(s5, Advance(t, false));
    assert Alone(s1, t, 5) == Alone(s2, t, 4) == Alone(s3, t, 3) == Alone(s4, t, 2) == Alone(s5, t, 1) == Alone(s6, t, 0) == s6;
  }

  /** Alone, a push succeeds exactly when fewer than the capacity are in, and then appends. */
  ghost predicate PushIsBounded<T>(s: State<T>, t: nat, item: T)
    requires Counted(s.q) && t < |s.threads|
  {
    var u := Alone(Step(s, StartPush(t, item)), t, 5);
    Counted(u.q) && t < |u.threads| &&
    if |Contents(s.q)| < |s.q.slots| then u.threads[t] == Returned(true, None) && Contents(u.q) == Contents(s.q) + [item]
    else u.threads[t] == Returned(false, None) && u.q == s.q
  }

  /** Alone, a pop succeeds exactly when something is in, and then returns the oldest. */
  ghost predicate PopIsBounded<T>(s: State<T>, t: nat)
    requires Counted(s.q) && t < |s.threads|
  {
    var u := Alone(Step(s, StartPop(t)), t, 5);
    Counted(u.q) && t < |u.threads| &&
    if Contents(s.q) != [] then u.threads[t] == Returned(true, Some(Contents(s.q)[0])) && Contents(u.q) == Contents(s.q)[1..]
    else u.threads[t] == Returned(false, None) && u.q == s.q
  }

  lemma {:induction false} AloneKeeps<T>(s: State<T>, t: nat, n: nat)
    requires Inv(s) && t < |s.threads|
    ensures Inv(Alone(s, t, n)) && |Alone(s, t, n).threads| == |s.threads|
    decreases n
  {
    if n > 0 {
      StepKeeps(s, Advance(t, false));
      AloneKeeps(Step(s, Advance(t, false)), t, n - 1);
    }
  }

  lemma PushBounded<T>(s: State<T>, t: nat, item: T)
    requires Inv(s) && AllReturning(s) && Quiet(s) && t < |s.threads|
    ensures PushIsBounded(s, t, item)
  {
    PushAlone(s, t, item);
    StepKeeps(s, StartPush(t, item));
    AloneKeeps(Step(s, StartPush(t, item)), t, 5);
  }

  lemma PopBounded<T>(s: State<T>, t: nat)
    requires Inv(s) && AllReturning(s) && Quiet(s) && t < |s.threads|
    ensures PopIsBounded(s, t)
  {
    PopAlone(s, t);
    StepKeeps(s, StartPop(t));
    AloneKeeps(Step(s, StartPop(t)), t, 5);
  }

  /** After any interleaving that left every thread at rest, one thread alone behaves like a
      bounded first-in first-out queue. */
  lemma AloneIsABoundedQueue<T>(capacity: nat, threads: nat, blank: T, actions: seq<Action<T>>, t: nat, item: T)
    requires capacity >= 2 && t < threads && Shaped(Initial(capacity, threads, blank).q)
    requires Quiet(Execute(Initial(capacity, threads, blank), actions))
    ensures var s := Execute(Initial(capacity, threads, blank), actions);
      Counted(s.q) && |s.q.slots| == capacity && t < |s.threads| && PushIsBounded(s, t, item) && PopIsBounded(s, t)
  {
    var s0 := Initial(capacity, threads, blank);
    InitialInv(capacity, threads, blank);
    ExecuteKeeps(s0, actions);
    ExecuteReturns(s0, actions);
    SameThreads(s0, actions);
    PushBounded(Execute(s0, actions), t, item);
    PopBounded(Execute(s0, actions), t);
  }

  lemma {:induction false} SameThreads<T>(s: State<T>, actions: seq<Action<T>>)
    requires Shaped(s.q)
    ensures |Execute(s, actions).threads| == |s.threads|
    decreases |actions|
  {
    if actions != [] {
      StepShaped(s, actions[0]);
      SameThreads(Step(s, actions[0]), actions[1..]);
    }
  }

  /** In any interleaving a push gives up only on a full queue and a pop only on an empty one: whatever
      step makes a thread give up found the item one lap back unreleased, or no item published. */
  lemma GivesUpOnlyForCause<T>(s: State<T>, t: nat, spurious: bool)
    requires Inv(s) && t < |s.threads| && !s.threads[t].Returned?
    requires Step(s, Advance(t, spurious)).threads[t].Returned? && !Step(s, Advance(t, spurious)).threads[t].ok
    ensures var pc := s.threads[t];
      if pc.PushRead? then pc.pos == s.q.tail >= |s.q.slots| && !Released(s.q, pc.pos - |s.q.slots|)
      else pc.PopRead? && pc.pos == s.q.head && !Published(s.q, s.q.head)
  {
    if s.threads[t].PushRead? {
      FailedPush(s, t, spurious);
    } else if s.threads[t].PopRead? {
      FailedPop(s, t, spurious);
    }
  }
}
