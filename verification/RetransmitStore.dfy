/** The publisher's window of recent messages, from which re-requests are answered. */
module RetransmitStore {
  import opened Common
  import opened SlotBuffer
  import opened SequencerModel

  // ----- what the window answers -----------------------------------------------------

  /** The last message stored in slot i, reading the whole log of stores. */
  function LastAt(log: seq<Message>, capacity: nat, i: nat): Option<Message>
    requires capacity > 0
  {
    if log == [] then None
    else
      var m := log[|log| - 1];
      if Residue(m.sequence, capacity) == i then Some(m) else LastAt(log[..|log| - 1], capacity, i)
  }

  /** The payload of q, unless its slot has been given to another sequence. */
  function Answer(log: seq<Message>, capacity: nat, q: nat): Option<Payload>
    requires capacity > 0
  {
    match LastAt(log, capacity, Residue(q, capacity))
    case None => None
    case Some(m) => if m.sequence == q then Some(m.payload) else None
  }

  /** An answer is a payload that was stored under that very sequence. */
  lemma {:induction false} AnswerWasStored(log: seq<Message>, capacity: nat, i: nat)
    requires capacity > 0 && LastAt(log, capacity, i).Some?
    ensures LastAt(log, capacity, i).value in log && Residue(LastAt(log, capacity, i).value.sequence, capacity) == i
    decreases |log|
  {
    if Residue(log[|log| - 1].sequence, capacity) != i {
      AnswerWasStored(log[..|log| - 1], capacity, i);
    }
  }

  /** Whatever was stored, answers are genuine as long as the stores were. */
  lemma AnswersAreGenuine(log: seq<Message>, capacity: nat, stream: nat -> Payload, q: nat)
    requires capacity > 0 && forall m :: m in log ==> m.payload == stream(m.sequence)
    ensures Answer(log, capacity, q).Some? ==> Answer(log, capacity, q).value == stream(q)
  {
    if LastAt(log, capacity, Residue(q, capacity)).Some? {
      AnswerWasStored(log, capacity, Residue(q, capacity));
    }
  }

  /** A publisher's log: consecutive sequences. */
  ghost predicate Consecutive(log: seq<Message>, first: nat) {
    forall i :: 0 <= i < |log| ==> log[i].sequence == first + i
  }

  lemma {:induction false} LastOfConsecutive(log: seq<Message>, first: nat, capacity: nat, q: nat)
    requires capacity > 0 && Consecutive(log, first) && first <= q < first + |log| <= q + capacity
    ensures LastAt(log, capacity, Residue(q, capacity)) == Some(log[q - first])
    decreases |log|
  {
    var last := first + |log| - 1;
    if q < last {
      if Residue(last, capacity) == Residue(q, capacity) {
        ResidueInjective(q, last, capacity);
      }
      LastOfConsecutive(log[..|log| - 1], first, capacity, q);
    }
  }

  /** A publisher that stores consecutive sequences can answer for exactly the last
      `capacity` of them, and answers each with its own payload. */
  lemma WindowIsExact(log: seq<Message>, first: nat, capacity: nat, q: nat)
    requires capacity > 0 && Consecutive(log, first)
    ensures Answer(log, capacity, q).Some? <==> first <= q < first + |log| <= q + capacity
    ensures first <= q < first + |log| <= q + capacity ==> Answer(log, capacity, q) == Some(log[q - first].payload)
  {
    if first <= q < first + |log| <= q + capacity {
      LastOfConsecutive(log, first, capacity, q);
    } else if first <= q && q + capacity < first + |log| {
      OverwrittenIsAMiss(log, first, capacity, q);
    } else if LastAt(log, capacity, Residue(q, capacity)).Some? {
      AnswerWasStored(log, capacity, Residue(q, capacity));
    }
  }

  lemma {:induction false} OverwrittenIsAMiss(log: seq<Message>, first: nat, capacity: nat, q: nat)
    requires capacity > 0 && Consecutive(log, first) && first <= q && q + capacity < first + |log|
    ensures var m := LastAt(log, capacity, Residue(q, capacity)); m.Some? && m.value.sequence > q
    decreases |log|
  {
    if Residue(log[|log| - 1].sequence, capacity) != Residue(q, capacity) {
      ResidueNextLap(q, capacity);
      OverwrittenIsAMiss(log[..|log| - 1], first, capacity, q);
    }
  }

  // ----- the ring ------------------------------------------------------------------------

  /** Slot i and its cell show the last message stored there. */
  ghost predicate Shown(slots: seq<Slot>, bytes: seq<byte>, width: nat, i: nat, last: Option<Message>)
    requires i < |slots|
  {
    match last
    case None => !slots[i].present
    case Some(m) =>
      slots[i] == Slot(m.sequence, |m.payload|, true) && |m.payload| <= width && Stored(bytes, i * width, m.payload)
  }

  ghost predicate ShowsAll(slots: seq<Slot>, bytes: seq<byte>, width: nat, log: seq<Message>) {
    && |slots| > 0 && |bytes| == |slots| * width
    && forall i: nat {:trigger Shown(slots, bytes, width, i, LastAt(log, |slots|, i))} ::
         i < |slots| ==> Shown(slots, bytes, width, i, LastAt(log, |slots|, i))
  }

  /** Writing one cell leaves the others as they were. */
  lemma ShownStill(slots: seq<Slot>, bytes: seq<byte>, width: nat, at: nat, slot: Slot, bytes': seq<byte>, i: nat, last: Option<Message>)
    requires at < |slots| && i < |slots| && i != at && slot.len <= width && Shown(slots, bytes, width, i, last)
    requires |bytes'| == |bytes|
    requires forall k :: 0 <= k < |bytes| && !(at * width <= k < at * width + slot.len) ==> bytes'[k] == bytes[k]
    ensures Shown(slots[at := slot], bytes', width, i, last)
  {
    CellsApart(i, at, width);
    if last.Some? {
      KeepsStored(bytes, bytes', at * width, slot.len, i * width, last.value.payload);
    }
  }

  lemma StoreShows(slots: seq<Slot>, bytes: seq<byte>, width: nat, log: seq<Message>, m: Message, bytes': seq<byte>)
    requires ShowsAll(slots, bytes, width, log) && |m.payload| <= width
    requires var at := Residue(m.sequence, |slots|) * width;
      |bytes'| == |bytes| && Stored(bytes', at, m.payload) &&
      forall k :: 0 <= k < |bytes| && !(at <= k < at + |m.payload|) ==> bytes'[k] == bytes[k]
    ensures ShowsAll(slots[Residue(m.sequence, |slots|) := Slot(m.sequence, |m.payload|, true)], bytes', width, log + [m])
  {
    var n := |slots|;
    var at := Residue(m.sequence, n);
    var slots' := slots[at := Slot(m.sequence, |m.payload|, true)];
    var log' := log + [m];
    assert log'[..|log|] == log;
    forall i: nat | i < n ensures Shown(slots', bytes', width, i, LastAt(log', n, i)) {
      if i != at {
        assert Shown(slots, bytes, width, i, LastAt(log, n, i));
        ShownStill(slots, bytes, width, at, slots'[at], bytes', i, LastAt(log, n, i));
      }
    }
  }

  class RetransmitStore {
    const width: nat
    const slots: array<Slot>
    const bytes: array<byte>

    /** Every message stored since the last clear, oldest first. */
    ghost var log: seq<Message>

    ghost predicate Valid()
      reads this, slots, bytes
    {
      ShowsAll(slots[..], bytes[..], width, log)
    }

    constructor (capacity: nat, maxPayload: nat)
      ensures Valid() && fresh(slots) && fresh(bytes) && log == []
      ensures RoundedUp(slots.Length, capacity)
      ensures width == if maxPayload == 0 then 1 else maxPayload
    {
      var n := RoundUpPow2(capacity);
      var w := if maxPayload == 0 then 1 else maxPayload;
      width := w;
      slots := new Slot[n](_ => Slot(0, 0, false));
      bytes := new byte[n * w](_ => 0);
      log := [];
    }

    method Store(q: nat, payload: Payload) returns (ok: bool)
      requires Valid()
      modifies this`log, slots, bytes
      ensures Valid() && (ok <==> |payload| <= width)
      ensures log == if ok then old(log) + [Message(q, payload)] else old(log)
    {
      if |payload| > width {
        return false;
      }
      var i := Residue(q, slots.Length);
      CellFits(i, slots.Length, width);
      CopyBytes(bytes, i * width, payload);
      StoreShows(slots[..], old(bytes[..]), width, log, Message(q, payload), bytes[..]);
      slots[i] := Slot(q, |payload|, true);
      assert slots[..] == old(slots[..])[i := Slot(q, |payload|, true)];
      log := log + [Message(q, payload)];
      ok := true;
    }

    /** Copy out the payload of q, if it is still here and fits the caller's buffer. */
    method Fetch(q: nat, room: nat) returns (r: Option<Payload>)
      requires Valid()
      ensures var a := Answer(log, slots.Length, q);
        r == if a.Some? && |a.value| <= room then a else None
    {
      var i := Residue(q, slots.Length);
      assert Shown(slots[..], bytes[..], width, i, LastAt(log, slots.Length, i));
      var s := slots[i];
      if !s.present || s.sequence != q || room < s.len {
        return None;
      }
      CellFits(i, slots.Length, width);
      r := Some(bytes[i * width .. i * width + s.len]);
      assert bytes[i * width .. i * width + s.len] == bytes[..][i * width .. i * width + s.len];
    }

    method Contains(q: nat) returns (r: bool)
      requires Valid()
      ensures r <==> Answer(log, slots.Length, q).Some?
    {
      var i := Residue(q, slots.Length);
      assert Shown(slots[..], bytes[..], width, i, LastAt(log, slots.Length, i));
      r := slots[i].present && slots[i].sequence == q;
    }

    method Clear()
      requires Valid()
      modifies this`log, slots
      ensures Valid() && log == []
    {
      var i := 0;
      while i < slots.Length
        invariant i <= slots.Length && forall j :: 0 <= j < i ==> !slots[j].present
      {
        slots[i] := slots[i].(present := false);
        i := i + 1;
      }
      log := [];
    }
  }
}
