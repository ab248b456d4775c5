/**
  The multi-producer multi-consumer queue as interleaved atomic steps, for any number
  of threads under sequential consistency.  Positions are unbounded counters.  Each
  thread's program counter says which atomic step of try_push or try_pop comes next.
 */
module MpmcQueue {
  import opened Common

  // ----- the machine -----------------------------------------------------------------

  datatype Slot<T> = Slot(seqno: nat, value: T)

  datatype Thread<T> =
    | Idle
    | PushLoad(item: T)
    | PushRead(item: T, pos: nat)
    | PushCas(item: T, pos: nat)
    | PushWrite(item: T, pos: nat)
    | PushPublish(item: T, pos: nat)
    | PopLoad
    | PopRead(pos: nat)
    | PopCas(pos: nat)
    | PopTake(pos: nat)
    | PopRelease(pos: nat, out: T)
    | Returned(ok: bool, result: Option<T>)

  /** The queue itself, followed by what only the specification remembers: `turn` is the
      position each slot serves; `pushed`, `pusher` and `popper` record, per position, the
      item and the winning threads; `popped` is what was read out at each position. */
  datatype Queue<T> = Queue(
    head: nat, tail: nat, slots: seq<Slot<T>>,
    turn: seq<nat>, pushed: seq<T>, pusher: seq<nat>, popper: seq<nat>, popped: map<nat, T>)

  datatype State<T> = State(q: Queue<T>, threads: seq<Thread<T>>)

  datatype Action<T> =
    | StartPush(thread: nat, item: T)
    | StartPop(thread: nat)
    | Advance(thread: nat, spurious: bool)  // a weak compare and exchange may fail for no reason

  /** Each slot starts free for the position of its own index. */
  function EmptyQueue<T>(capacity: nat, blank: T): Queue<T> {
    Queue(0, 0, seq(capacity, i requires 0 <= i < capacity => Slot(i, blank)),
          seq(capacity, i requires 0 <= i < capacity => i), [], [], [], map[])
  }

  function Initial<T>(capacity: nat, threads: nat, blank: T): State<T> {
    State(EmptyQueue(capacity, blank), seq(threads, _ => Idle))
  }

  predicate Shaped<T>(q: Queue<T>) {
    |q.slots| >= 2 && |q.turn| == |q.slots|
  }

  /** The slot of a position. */
  function At<T>(q: Queue<T>, pos: nat): (i: nat)
    requires Shaped(q)
    ensures i < |q.slots|
  {
    Residue(pos, |q.slots|)
  }

  function WinPush<T>(q: Queue<T>, t: nat, item: T): Queue<T> {
    q.(tail := q.tail + 1, pushed := q.pushed + [item], pusher := q.pusher + [t])
  }

  function WriteValue<T>(q: Queue<T>, pos: nat, item: T): Queue<T>
    requires Shaped(q)
  {
    q.(slots := q.slots[At(q, pos) := q.slots[At(q, pos)].(value := item)])
  }

  function Publish<T>(q: Queue<T>, pos: nat): Queue<T>
    requires Shaped(q)
  {
    q.(slots := q.slots[At(q, pos) := q.slots[At(q, pos)].(seqno := pos + 1)])
  }

  function WinPop<T>(q: Queue<T>, t: nat): Queue<T> {
    q.(head := q.head + 1, popper := q.popper + [t])
  }

  function ReadOut<T>(q: Queue<T>, pos: nat, out: T): Queue<T> {
    q.(popped := q.popped[pos := out])
  }

  function Release<T>(q: Queue<T>, pos: nat): Queue<T>
    requires Shaped(q)
  {
    q.(slots := q.slots[At(q, pos) := q.slots[At(q, pos)].(seqno := pos + |q.slots|)],
       turn := q.turn[At(q, pos) := pos + |q.slots|])
  }

  /** One atomic step of one thread: the queue after it and where the thread then is. */
  function Move<T>(q: Queue<T>, t: nat, pc: Thread<T>, spurious: bool): (Queue<T>, Thread<T>)
    requires Shaped(q)
  {
    match pc
    case PushLoad(item) => (q, PushRead(item, q.tail))
    case PushRead(item, pos) =>
      var seqno := q.slots[At(q, pos)].seqno;
      (q, if seqno == pos then PushCas(item, pos) else if seqno < pos then Returned(false, None) else PushLoad(item))
    case PushCas(item, pos) =>
      if spurious || q.tail != pos then (q, PushRead(item, q.tail)) else (WinPush(q, t, item), PushWrite(item, pos))
    case PushWrite(item, pos) => (WriteValue(q, pos, item), PushPublish(item, pos))
    case PushPublish(_, pos) => (Publish(q, pos), Returned(true, None))
    case PopLoad => (q, PopRead(q.head))
    case PopRead(pos) =>
      var seqno := q.slots[At(q, pos)].seqno;
      (q, if seqno == pos + 1 then PopCas(pos) else if seqno < pos + 1 then Returned(false, None) else PopLoad)
    case PopCas(pos) =>
      if spurious || q.head != pos then (q, PopRead(q.head)) else (WinPop(q, t), PopTake(pos))
    case PopTake(pos) =>
      var out := q.slots[At(q, pos)].value;
      (ReadOut(q, pos, out), PopRelease(pos, out))
    case PopRelease(pos, out) => (Release(q, pos), Returned(true, Some(out)))
    case _ => (q, pc)
  }

  predicate Ready<T>(pc: Thread<T>) {
    pc.Idle? || pc.Returned?
  }

  function Step<T>(s: State<T>, a: Action<T>): State<T>
    requires Shaped(s.q)
  {
    if a.thread >= |s.threads| then s
    else
      var pc := s.threads[a.thread];
      match a
      case StartPush(t, item) => if Ready(pc) then s.(threads := s.threads[t := PushLoad(item)]) else s
      case StartPop(t) => if Ready(pc) then s.(threads := s.threads[t := PopLoad]) else s
      case Advance(t, spurious) =>
        var (q, pc') := Move(s.q, t, pc, spurious);
        State(q, s.threads[t := pc'])
  }

  // ----- the invariant ------------------------------------------------------------------

  ghost predicate Counted<T>(q: Queue<T>) {
    Shaped(q) && q.head <= q.tail && q.tail == |q.pushed| == |q.pusher| && q.head == |q.popper|
  }

  /** Slot i serves position turn[i]: empty while its number is the turn, full one later. */
  ghost predicate SlotOk<T>(q: Queue<T>, i: nat)
    requires Counted(q) && i < |q.slots|
  {
    var turn := q.turn[i];
    var seqno := q.slots[i].seqno;
    && Residue(turn, |q.slots|) == i
    && turn < q.head + |q.slots| && q.tail <= turn + |q.slots|
    && (seqno == turn || seqno == turn + 1)
    && (seqno == turn ==> q.head <= turn)
    && (seqno == turn + 1 ==> turn < q.tail && q.slots[i].value == q.pushed[turn])
  }

  ghost predicate SlotsOk<T>(q: Queue<T>)
    requires Counted(q)
  {
    forall i: nat {:trigger SlotOk(q, i)} :: i < |q.slots| ==> SlotOk(q, i)
  }

  ghost predicate Serves<T>(q: Queue<T>, pos: nat, seqno: nat)
    requires Shaped(q)
  {
    q.turn[At(q, pos)] == pos && q.slots[At(q, pos)].seqno == seqno
  }

  /** What the program counter of thread t knows about its position. */
  ghost predicate PcOk<T>(q: Queue<T>, t: nat, pc: Thread<T>)
    requires Counted(q)
  {
    match pc
    case PushRead(_, pos) => pos <= q.tail
    case PushCas(_, pos) => pos <= q.tail && (q.tail == pos ==> Serves(q, pos, pos))
    case PushWrite(item, pos) => pos < q.tail && Serves(q, pos, pos) && q.pushed[pos] == item && q.pusher[pos] == t
    case PushPublish(item, pos) =>
      && pos < q.tail && Serves(q, pos, pos) && q.pushed[pos] == item && q.pusher[pos] == t
      && q.slots[At(q, pos)].value == item
    case PopRead(pos) => pos <= q.head
    case PopCas(pos) => pos <= q.head && (q.head == pos ==> Serves(q, pos, pos + 1))
    case PopTake(pos) => pos < q.head && Serves(q, pos, pos + 1) && q.popper[pos] == t && pos !in q.popped
    case PopRelease(pos, out) =>
      && pos < q.head && Serves(q, pos, pos + 1) && q.popper[pos] == t
      && out == q.pushed[pos] && pos in q.popped
    case _ => true
  }

  ghost predicate PcsOk<T>(q: Queue<T>, threads: seq<Thread<T>>)
    requires Counted(q)
  {
    forall t: nat {:trigger PcOk(q, t, threads[t])} :: t < |threads| ==> PcOk(q, t, threads[t])
  }

  ghost predicate Published<T>(q: Queue<T>, pos: nat)
    requires Shaped(q)
  {
    q.turn[At(q, pos)] > pos || Serves(q, pos, pos + 1)
  }

  ghost predicate Released<T>(q: Queue<T>, pos: nat)
    requires Shaped(q)
  {
    q.turn[At(q, pos)] > pos
  }

  ghost predicate Pushing<T>(pc: Thread<T>, pos: nat) {
    (pc.PushWrite? || pc.PushPublish?) && pc.pos == pos
  }

  /** A claimed push is published or in its winner's hands. */
  ghost predicate PushTracked<T>(q: Queue<T>, threads: seq<Thread<T>>, pos: nat)
    requires Counted(q) && pos < q.tail
  {
    var t := q.pusher[pos];
    t < |threads| && (Published(q, pos) || Pushing(threads[t], pos))
  }

  /** A claimed pop has read out what was pushed or is in its winner's hands. */
  ghost predicate PopTracked<T>(q: Queue<T>, threads: seq<Thread<T>>, pos: nat)
    requires Counted(q) && pos < q.head
  {
    var t := q.popper[pos];
    t < |threads| && if pos in q.popped then q.popped[pos] == q.pushed[pos] else threads[t] == PopTake(pos)
  }

  ghost predicate Tracked<T>(q: Queue<T>, threads: seq<Thread<T>>)
    requires Counted(q)
  {
    && (forall pos: nat {:trigger PushTracked(q, threads, pos)} :: pos < q.tail ==> PushTracked(q, threads, pos))
    && (forall pos: nat {:trigger PopTracked(q, threads, pos)} :: pos < q.head ==> PopTracked(q, threads, pos))
    && PoppedClaimed(q)
  }

  ghost predicate PoppedClaimed<T>(q: Queue<T>) {
    forall pos {:trigger pos in q.popped} :: pos in q.popped ==> pos < q.head
  }

  ghost predicate Inv<T>(s: State<T>) {
    Counted(s.q) && SlotsOk(s.q) && PcsOk(s.q, s.threads) && Tracked(s.q, s.threads)
  }

  // ----- each step keeps it, slot by slot ---------------------------------------------------

  lemma WinPushSlots<T>(q: Queue<T>, t: nat, item: T)
    requires Counted(q) && SlotsOk(q) && Serves(q, q.tail, q.tail)
    ensures SlotsOk(WinPush(q, t, item))
  {
    var q' := WinPush(q, t, item);
    forall i: nat | i < |q.slots| ensures SlotOk(q', i) {
      assert SlotOk(q, i);
      ResidueNextLap(q.turn[i], |q.slots|);
    }
  }

  lemma WriteValueSlots<T>(q: Queue<T>, pos: nat, item: T)
    requires Counted(q) && SlotsOk(q) && Serves(q, pos, pos)
    ensures SlotsOk(WriteValue(q, pos, item))
  {
    var q' := WriteValue(q, pos, item);
    forall i: nat | i < |q.slots| ensures SlotOk(q', i) {
      assert SlotOk(q, i);
    }
  }

  lemma PublishSlots<T>(q: Queue<T>, pos: nat)
    requires Counted(q) && SlotsOk(q) && Serves(q, pos, pos) && pos < q.tail
    requires q.slots[At(q, pos)].value == q.pushed[pos]
    ensures SlotsOk(Publish(q, pos))
  {
    var q' := Publish(q, pos);
    forall i: nat | i < |q.slots| ensures SlotOk(q', i) {
      assert SlotOk(q, i);
    }
  }

  lemma WinPopSlots<T>(q: Queue<T>, t: nat)
    requires Counted(q) && SlotsOk(q) && Serves(q, q.head, q.head + 1)
    ensures Counted(WinPop(q, t)) && SlotsOk(WinPop(q, t))
  {
    assert SlotOk(q, At(q, q.head));
    var q' := WinPop(q, t);
    forall i: nat | i < |q.slots| ensures SlotOk(q', i) {
      assert SlotOk(q, i);
    }
  }

  lemma ReleaseSlots<T>(q: Queue<T>, pos: nat)
    requires Counted(q) && SlotsOk(q) && Serves(q, pos, pos + 1) && pos < q.head
    ensures SlotsOk(Release(q, pos))
  {
    var q' := Release(q, pos);
    ResidueNextLap(pos, |q.slots|);
    forall i: nat | i < |q.slots| ensures SlotOk(q', i) {
      assert SlotOk(q, i);
    }
  }

  /** A slot's number tells its turn, because a ring has at least two slots. */
  lemma NumberTellsTurn<T>(q: Queue<T>, pos: nat)
    requires Counted(q) && SlotsOk(q)
    ensures var i := At(q, pos); q.slots[i].seqno == pos || q.slots[i].seqno == pos + 1 ==> q.turn[i] == pos
  {
    var i := At(q, pos);
    assert SlotOk(q, i);
    if q.turn[i] + 1 == pos {
      ResidueInjective(q.turn[i], pos, |q.slots|);
    } else if q.turn[i] == pos + 1 {
      ResidueInjective(pos, pos + 1, |q.slots|);
    }
  }

  lemma MoveSlots<T>(q: Queue<T>, t: nat, pc: Thread<T>, spurious: bool)
    requires Counted(q) && SlotsOk(q) && PcOk(q, t, pc)
    ensures var q' := Move(q, t, pc, spurious).0; Counted(q') && SlotsOk(q')
  {
    match pc
    case PushCas(item, pos) => if !spurious && q.tail == pos { WinPushSlots(q, t, item); }
    case PushWrite(item, pos) => WriteValueSlots(q, pos, item);
    case PushPublish(_, pos) => PublishSlots(q, pos);
    case PopCas(pos) => if !spurious && q.head == pos { WinPopSlots(q, t); }
    case PopTake(pos) => ReadOutSlots(q, pos, q.slots[At(q, pos)].value);
    case PopRelease(pos, _) => ReleaseSlots(q, pos);
    case _ =>
  }

  lemma ReadOutSlots<T>(q: Queue<T>, pos: nat, out: T)
    requires Counted(q) && SlotsOk(q)
    ensures SlotsOk(ReadOut(q, pos, out))
  {
    var q' := ReadOut(q, pos, out);
    forall i: nat | i < |q.slots| ensures SlotOk(q', i) {
      assert SlotOk(q, i);
    }
  }

  /** What the stepping thread knows after its step. */
  lemma MovePc<T>(q: Queue<T>, t: nat, pc: Thread<T>, spurious: bool)
    requires Counted(q) && SlotsOk(q) && PoppedClaimed(q) && PcOk(q, t, pc)
    ensures var (q', pc') := Move(q, t, pc, spurious); Counted(q') && PcOk(q', t, pc')
  {
    MoveSlots(q, t, pc, spurious);
    match pc
    case PushRead(_, pos) => NumberTellsTurn(q, pos);
    case PopRead(pos) => NumberTellsTurn(q, pos);
    case PopTake(pos) => assert SlotOk(q, At(q, pos));
    case _ =>
  }

  lemma PublishDisturbsNobody<T>(q: Queue<T>, t: nat, pc: Thread<T>, u: nat, other: Thread<T>)
    requires Counted(q) && SlotsOk(q) && pc.PushPublish? && PcOk(q, t, pc) && PcOk(q, u, other) && t != u
    ensures Counted(Publish(q, pc.pos)) && PcOk(Publish(q, pc.pos), u, other)
  {
    PublishSlots(q, pc.pos);
  }

  lemma ReleaseDisturbsNobody<T>(q: Queue<T>, t: nat, pc: Thread<T>, u: nat, other: Thread<T>)
    requires Counted(q) && SlotsOk(q) && pc.PopRelease? && PcOk(q, t, pc) && PcOk(q, u, other) && t != u
    ensures Counted(Release(q, pc.pos)) && PcOk(Release(q, pc.pos), u, other)
  {
    ReleaseSlots(q, pc.pos);
  }

  /** No step of one thread disturbs what another one knows. */
  lemma Undisturbed<T>(q: Queue<T>, t: nat, pc: Thread<T>, spurious: bool, u: nat, other: Thread<T>)
    requires Counted(q) && SlotsOk(q) && PcOk(q, t, pc) && PcOk(q, u, other) && t != u
    ensures var q' := Move(q, t, pc, spurious).0; Counted(q') && PcOk(q', u, other)
  {
    if pc.PushPublish? {
      PublishDisturbsNobody(q, t, pc, u, other);
    } else if pc.PopRelease? {
      ReleaseDisturbsNobody(q, t, pc, u, other);
    } else {
      MoveSlots(q, t, pc, spurious);
    }
  }

  // ----- no claimed item is lost ----------------------------------------------------------

  lemma PushStillTracked<T>(q: Queue<T>, threads: seq<Thread<T>>, t: nat, spurious: bool, pos: nat)
    requires Counted(q) && SlotsOk(q) && t < |threads| && PcOk(q, t, threads[t])
    requires pos < q.tail && PushTracked(q, threads, pos)
    ensures var (q', pc') := Move(q, t, threads[t], spurious);
      Counted(q') && PushTracked(q', threads[t := pc'], pos)
  {
    MoveSlots(q, t, threads[t], spurious);
  }

  lemma PopStillTracked<T>(q: Queue<T>, threads: seq<Thread<T>>, t: nat, spurious: bool, pos: nat)
    requires Counted(q) && SlotsOk(q) && t < |threads| && PcOk(q, t, threads[t])
    requires pos < q.head && PopTracked(q, threads, pos)
    ensures var (q', pc') := Move(q, t, threads[t], spurious);
      Counted(q') && PopTracked(q', threads[t := pc'], pos)
  {
    MoveSlots(q, t, threads[t], spurious);
    assert SlotOk(q, At(q, pos));
  }

  lemma StillTracked<T>(q: Queue<T>, threads: seq<Thread<T>>, t: nat, spurious: bool)
    requires Counted(q) && SlotsOk(q) && Tracked(q, threads) && t < |threads| && PcOk(q, t, threads[t])
    ensures var (q', pc') := Move(q, t, threads[t], spurious);
      Counted(q') && Tracked(q', threads[t := pc'])
  {
    var (q', pc') := Move(q, t, threads[t], spurious);
    var threads' := threads[t := pc'];
    MoveSlots(q, t, threads[t], spurious);
    forall pos: nat | pos < q'.tail ensures PushTracked(q', threads', pos) {
      if pos < q.tail {
        assert PushTracked(q, threads, pos);
        PushStillTracked(q, threads, t, spurious, pos);
      }
    }
    forall pos: nat | pos < q'.head ensures PopTracked(q', threads', pos) {
      if pos < q.head {
        assert PopTracked(q, threads, pos);
        PopStillTracked(q, threads, t, spurious, pos);
      }
    }
  }

  lemma AdvanceKeeps<T>(s: State<T>, t: nat, spurious: bool)
    requires Inv(s) && t < |s.threads|
    ensures Inv(Step(s, Advance(t, spurious)))
  {
    var pc := s.threads[t];
    var (q', pc') := Move(s.q, t, pc, spurious);
    var threads' := s.threads[t := pc'];
    assert PcOk(s.q, t, s.threads[t]);
    MoveSlots(s.q, t, pc, spurious);
    MovePc(s.q, t, pc, spurious);
    StillTracked(s.q, s.threads, t, spurious);
    forall u: nat | u < |threads'| ensures PcOk(q', u, threads'[u]) {
      if u != t {
        assert PcOk(s.q, u, s.threads[u]);
        Undisturbed(s.q, t, pc, spurious, u, s.threads[u]);
      }
    }
  }

  lemma StartKeeps<T>(s: State<T>, t: nat, pc: Thread<T>)
    requires Inv(s) && t < |s.threads| && Ready(s.threads[t]) && (pc.PushLoad? || pc.PopLoad?)
    ensures Inv(s.(threads := s.threads[t := pc]))
  {
    var threads' := s.threads[t := pc];
    forall u: nat | u < |threads'| ensures PcOk(s.q, u, threads'[u]) {
      assert PcOk(s.q, u, s.threads[u]);
    }
    forall pos: nat | pos < s.q.tail ensures PushTracked(s.q, threads', pos) {
      assert PushTracked(s.q, s.threads, pos);
    }
    forall pos: nat | pos < s.q.head ensures PopTracked(s.q, threads', pos) {
      assert PopTracked(s.q, s.threads, pos);
    }
  }

  lemma StepKeeps<T>(s: State<T>, a: Action<T>)
    requires Inv(s)
    ensures Inv(Step(s, a))
  {
    if a.thread < |s.threads| {
      match a
      case StartPush(t, item) => if Ready(s.threads[t]) { StartKeeps(s, t, PushLoad(item)); }
      case StartPop(t) => if Ready(s.threads[t]) { StartKeeps(s, t, PopLoad); }
      case Advance(t, spurious) => AdvanceKeeps(s, t, spurious);
    }
  }

  // ----- every interleaving ---------------------------------------------------------------

  function Execute<T>(s: State<T>, actions: seq<Action<T>>): State<T>
    requires Shaped(s.q)
    decreases |actions|
  {
    if actions == [] then s
    else
      var s' := Step(s, actions[0]);
      assert Shaped(s'.q) by { StepShaped(s, actions[0]); }
      Execute(s', actions[1..])
  }

  lemma StepShaped<T>(s: State<T>, a: Action<T>)
    requires Shaped(s.q)
    ensures Shaped(Step(s, a).q) && |Step(s, a).q.slots| == |s.q.slots|
  {
  }

  lemma {:induction false} ExecuteKeeps<T>(s: State<T>, actions: seq<Action<T>>)
    requires Inv(s)
    ensures Inv(Execute(s, actions)) && |Execute(s, actions).q.slots| == |s.q.slots|
    decreases |actions|
  {
    if actions != [] {
      StepKeeps(s, actions[0]);
      StepShaped(s, actions[0]);
      ExecuteKeeps(Step(s, actions[0]), actions[1..]);
    }
  }

  lemma InitialInv<T>(capacity: nat, threads: nat, blank: T)
    requires capacity >= 2
    ensures Inv(Initial(capacity, threads, blank))
  {
    var s := Initial(capacity, threads, blank);
    forall i: nat | i < |s.q.slots| ensures SlotOk(s.q, i) {
    }
  }

  /**
    Exactly once and first in first out, in every interleaving of any number of threads:
    what is read out at a position is what was pushed at that position, every claimed
    position has one winner per role, and no claimed item is lost on the way.
   */
  lemma ExactlyOnceFifo<T>(capacity: nat, threads: nat, blank: T, actions: seq<Action<T>>)
    requires capacity >= 2
    ensures Shaped(Initial(capacity, threads, blank).q)
    ensures var s := Execute(Initial(capacity, threads, blank), actions); var q := s.q;
      && Shaped(q) && q.head <= q.tail <= q.head + capacity
      && |q.pushed| == |q.pusher| == q.tail && |q.popper| == q.head
      && (forall p :: p in q.popped ==> p < q.head && q.popped[p] == q.pushed[p])
      && (forall p: nat :: p < q.head && p !in q.popped ==> q.popper[p] < |s.threads| && s.threads[q.popper[p]] == PopTake(p))
      && (forall p: nat :: p < q.tail && !Published(q, p) ==> q.pusher[p] < |s.threads| && Pushing(s.threads[q.pusher[p]], p))
  {
    InitialInv(capacity, threads, blank);
    ExecuteKeeps(Initial(capacity, threads, blank), actions);
    var s := Execute(Initial(capacity, threads, blank), actions);
    NeverOverfull(s.q);
    forall p: nat | p < s.q.head
      ensures if p in s.q.popped then s.q.popped[p] == s.q.pushed[p]
              else s.q.popper[p] < |s.threads| && s.threads[s.q.popper[p]] == PopTake(p)
    {
      assert PopTracked(s.q, s.threads, p);
    }
    forall p: nat | p < s.q.tail && !Published(s.q, p)
      ensures s.q.pusher[p] < |s.threads| && Pushing(s.threads[s.q.pusher[p]], p)
    {
      assert PushTracked(s.q, s.threads, p);
    }
  }

  lemma NeverOverfull<T>(q: Queue<T>)
    requires Counted(q) && SlotsOk(q)
    ensures q.tail <= q.head + |q.slots|
  {
    var i := At(q, q.head);
    assert SlotOk(q, i);
    if q.turn[i] > q.head {
      ResidueInjective(q.head, q.turn[i], |q.slots|);
    }
  }

  /** The position a thread owns between winning its claim and letting the slot go. */
  ghost predicate Owns<T>(pc: Thread<T>, pos: nat) {
    Pushing(pc, pos) || ((pc.PopTake? || pc.PopRelease?) && pc.pos == pos)
  }

  /** Two threads never hold the same slot, so no payload is read or written by two at once. */
  lemma PayloadExclusive<T>(s: State<T>, t: nat, u: nat, a: nat, b: nat)
    requires Inv(s) && t < |s.threads| && u < |s.threads| && t != u
    requires Owns(s.threads[t], a) && Owns(s.threads[u], b)
    ensures At(s.q, a) != At(s.q, b)
  {
    assert PcOk(s.q, t, s.threads[t]) && PcOk(s.q, u, s.threads[u]);
  }

  /** A compare and exchange that wins still finds its slot as the thread last saw it. */
  lemma WinnerStillSees<T>(s: State<T>, t: nat)
    requires Inv(s) && t < |s.threads|
    ensures s.threads[t].PushCas? && s.q.tail == s.threads[t].pos ==> Serves(s.q, s.q.tail, s.q.tail)
    ensures s.threads[t].PopCas? && s.q.head == s.threads[t].pos ==> Serves(s.q, s.q.head, s.q.head + 1)
  {
    assert PcOk(s.q, t, s.threads[t]);
  }

  /** Full means full: a push that gives up stands at the tail, and the item one lap back
      has been claimed but its slot not yet released. */
  lemma FailedPush<T>(s: State<T>, t: nat, spurious: bool)
    requires Inv(s) && t < |s.threads| && s.threads[t].PushRead?
    requires Step(s, Advance(t, spurious)).threads[t] == Returned(false, None)
    ensures var pos := s.threads[t].pos;
      pos == s.q.tail && pos >= |s.q.slots| && !Released(s.q, pos - |s.q.slots|)
  {
    var pos := s.threads[t].pos;
    var n := |s.q.slots|;
    assert PcOk(s.q, t, s.threads[t]) && SlotOk(s.q, At(s.q, pos));
    var turn := s.q.turn[At(s.q, pos)];
    if turn + n > pos {
      ResidueInjective(turn, pos, n);
    }
    ResidueNextLap(turn, n);
  }

  /** Empty means empty: a pop that gives up stands at the head, and the item there has
      not been published. */
  lemma FailedPop<T>(s: State<T>, t: nat, spurious: bool)
    requires Inv(s) && t < |s.threads| && s.threads[t].PopRead?
    requires Step(s, Advance(t, spurious)).threads[t] == Returned(false, None)
    ensures s.threads[t].pos == s.q.head && !Published(s.q, s.q.head)
  {
    var pos := s.threads[t].pos;
    assert PcOk(s.q, t, s.threads[t]) && SlotOk(s.q, At(s.q, pos));
    var turn := s.q.turn[At(s.q, pos)];
    if turn < pos < turn + |s.q.slots| {
      ResidueInjective(turn, pos, |s.q.slots|);
    }
  }

  // ----- refinement: one plain FIFO ----------------------------------------------------------

  /** The items claimed by pushes and not yet by pops. */
  function Contents<T>(q: Queue<T>): seq<T>
    requires q.head <= q.tail <= |q.pushed|
  {
    q.pushed[q.head..q.tail]
  }

  /** Every step leaves the plain queue alone, appends the winning push's item, or takes
      the oldest item, which is then the one its winner reads out. */
  lemma RefinesFifo<T>(s: State<T>, a: Action<T>)
    requires Inv(s)
    ensures Inv(Step(s, a)) && s.q.pushed <= Step(s, a).q.pushed
    ensures var s' := Step(s, a);
      if s'.q.tail > s.q.tail then
        && s.threads[a.thread].PushCas?
        && Contents(s'.q) == Contents(s.q) + [s.threads[a.thread].item]
      else if s'.q.head > s.q.head then
        && Contents(s.q) != [] && Contents(s'.q) == Contents(s.q)[1..]
        && s'.threads[a.thread].PopTake? && s'.q.pushed[s'.threads[a.thread].pos] == Contents(s.q)[0]
      else Contents(s'.q) == Contents(s.q)
  {
    StepKeeps(s, a);
    if a.thread < |s.threads| {
      assert PcOk(s.q, a.thread, s.threads[a.thread]);
    }
  }

  /** What a pop hands back is what was pushed at its position. */
  lemma PopReturnsItsItem<T>(s: State<T>, t: nat, spurious: bool)
    requires Inv(s) && t < |s.threads| && s.threads[t].PopRelease?
    ensures var pos := s.threads[t].pos;
      pos < |s.q.pushed| && Step(s, Advance(t, spurious)).threads[t] == Returned(true, Some(s.q.pushed[pos]))
  {
    assert PcOk(s.q, t, s.threads[t]);
  }
}
