/**
  The sequencer as it is built: a fixed ring of slots indexed by the residue of the
  sequence number, one flat byte buffer behind it, and fields that change in place.
  Every method is proved to take the same step as SequencerModel takes on a map.
 */
module Sequencer {
  import opened Common
  import opened SlotBuffer
  import opened SequencerModel

  datatype Config = Config(reorderWindow: nat, gapGraceNs: nat, recoveryTimeoutNs: nat, maxRecoveryAttempts: nat, maxPayload: nat)

  // ----- the ring, on values ------------------------------------------------------

  /** The slot of q holds exactly this payload for exactly this sequence. */
  ghost predicate Holds(p: Params, slots: seq<Slot>, bytes: seq<byte>, q: nat, payload: Payload)
    requires p.Ok() && |slots| == p.capacity
  {
    var i := Residue(q, p.capacity);
    && slots[i] == Slot(q, |payload|, true)
    && |payload| <= p.maxPayload
    && Stored(bytes, i * p.maxPayload, payload)
  }

  /** The ring represents `held`: each sequence in its own residue slot with its exact
      bytes, no other slot present, all within one window of the front. */
  ghost predicate Represents(p: Params, expected: nat, held: map<nat, Payload>, slots: seq<Slot>, bytes: seq<byte>) {
    && p.Ok() && |slots| == p.capacity && |bytes| == p.capacity * p.maxPayload
    && (forall q :: q in held ==> expected <= q < expected + p.capacity && Holds(p, slots, bytes, q, held[q]))
    && (forall i :: 0 <= i < |slots| && slots[i].present ==>
          slots[i].sequence in held && Residue(slots[i].sequence, p.capacity) == i)
  }

  /** Two sequences of one window never share a slot, so a slot that is not present
      is free and a present one proves whose it is. */
  lemma OwnSlot(p: Params, expected: nat, held: map<nat, Payload>, slots: seq<Slot>, bytes: seq<byte>, q: nat)
    requires Represents(p, expected, held, slots, bytes)
    requires expected <= q < expected + p.capacity
    ensures forall r :: r in held && r != q ==> Residue(r, p.capacity) != Residue(q, p.capacity)
    ensures q in held <==> slots[Residue(q, p.capacity)].present && slots[Residue(q, p.capacity)].sequence == q
    ensures q !in held ==> !slots[Residue(q, p.capacity)].present
  {
    forall r | r in held && r != q ensures Residue(r, p.capacity) != Residue(q, p.capacity) {
      if Residue(r, p.capacity) == Residue(q, p.capacity) {
        if r < q {
          ResidueInjective(r, q, p.capacity);
        } else {
          ResidueInjective(q, r, p.capacity);
        }
      }
    }
  }

  lemma HeldBytes(p: Params, expected: nat, held: map<nat, Payload>, slots: seq<Slot>, bytes: seq<byte>, q: nat)
    requires Represents(p, expected, held, slots, bytes) && q in held
    ensures var i := Residue(q, p.capacity); var at := i * p.maxPayload;
      0 <= at <= at + slots[i].len <= |bytes| && bytes[at .. at + slots[i].len] == held[q]
  {
    assert Holds(p, slots, bytes, q, held[q]);
    CellFits(Residue(q, p.capacity), p.capacity, p.maxPayload);
  }

  /** Forgetting the front keeps the representation. */
  lemma RemoveFront(p: Params, expected: nat, held: map<nat, Payload>, slots: seq<Slot>, bytes: seq<byte>)
    requires Represents(p, expected, held, slots, bytes) && expected in held
    ensures var i := Residue(expected, p.capacity);
      Represents(p, expected + 1, held - {expected}, slots[i := slots[i].(present := false)], bytes)
  {
    OwnSlot(p, expected, held, slots, bytes, expected);
  }

  /** Storing an early message lands on a free slot and on no other slot's bytes. */
  lemma InsertEarly(p: Params, expected: nat, held: map<nat, Payload>, slots: seq<Slot>, bytes: seq<byte>,
                    q: nat, payload: Payload, bytes': seq<byte>)
    requires Represents(p, expected, held, slots, bytes)
    requires expected < q < expected + p.capacity && q !in held && |payload| <= p.maxPayload
    requires var at := Residue(q, p.capacity) * p.maxPayload;
      |bytes'| == |bytes| && Stored(bytes', at, payload) &&
      forall k :: 0 <= k < |bytes| && !(at <= k < at + |payload|) ==> bytes'[k] == bytes[k]
    ensures var i := Residue(q, p.capacity);
      Represents(p, expected, held[q := payload], slots[i := Slot(q, |payload|, true)], bytes')
  {
    OwnSlot(p, expected, held, slots, bytes, q);
    var i := Residue(q, p.capacity);
    forall r | r in held ensures Holds(p, slots[i := Slot(q, |payload|, true)], bytes', r, held[r]) {
      KeepsOther(p, slots, bytes, i, Slot(q, |payload|, true), bytes', r, held[r]);
    }
  }

  lemma KeepsOther(p: Params, slots: seq<Slot>, bytes: seq<byte>, i: nat, slot: Slot, bytes': seq<byte>, r: nat, payload: Payload)
    requires p.Ok() && i < |slots| == p.capacity && Residue(r, p.capacity) != i && Holds(p, slots, bytes, r, payload)
    requires |bytes'| == |bytes| && slot.len <= p.maxPayload
    requires var at := i * p.maxPayload; forall k :: 0 <= k < |bytes| && !(at <= k < at + slot.len) ==> bytes'[k] == bytes[k]
    ensures Holds(p, slots[i := slot], bytes', r, payload)
  {
    CellsApart(Residue(r, p.capacity), i, p.maxPayload);
    KeepsStored(bytes, bytes', i * p.maxPayload, slot.len, Residue(r, p.capacity) * p.maxPayload, payload);
  }

  // ----- where a skip can leave the front ---------------------------------------------

  lemma {:induction false} DrainStops(s: Feed, limit: nat)
    requires s.expected <= limit && forall q :: q in s.held ==> q < limit
    ensures s.expected <= Drain(s).expected <= limit && Drain(s).held.Keys <= s.held.Keys
    decreases |s.held|
  {
    if s.expected in s.held {
      RemoveShrinks(s.held, s.expected);
      DrainStops(SequencerModel.TakeFront(s), limit);
    }
  }

  lemma {:induction false} WalkStops(s: Feed, target: nat, limit: nat)
    requires s.expected <= limit && target <= limit && forall q :: q in s.held ==> q < limit
    ensures target <= Walk(s, target).expected <= limit && Walk(s, target).held.Keys <= s.held.Keys
    decreases target - s.expected
  {
    if s.expected >= target {
      DrainStops(s, limit);
    } else if s.expected in s.held {
      WalkStops(SequencerModel.TakeFront(s), target, limit);
    } else {
      WalkStops(SequencerModel.DropFront(s), target, limit);
    }
  }

  /** After making room the window reaches the message that did not fit, and the
      slot it will go to was not given to anyone else. */
  lemma WindowReaches(p: Params, s: Feed, q: nat)
    requires p.Ok() && q >= s.expected + p.capacity
    requires forall r :: r in s.held ==> r < s.expected + p.capacity
    ensures var t := MakeRoom(p, s, q);
      t.expected <= q < t.expected + p.capacity && q !in t.held
  {
    var target := q - (p.capacity - 1);
    if target - s.expected >= p.capacity {
      WalkStops(Wipe(s, target), q, q);
    } else {
      WalkStops(s, target, q);
    }
  }

  lemma MissingStep(p: Params, s: Feed, i: nat)
    requires i < p.capacity
    ensures MissingFrom(p, s, i) == if s.expected + i in s.held then i else MissingFrom(p, s, i + 1)
  {
  }

  class Sequencer {
    const p: Params
    const slots: array<Slot>
    const bytes: array<byte>

    var started: bool
    var expected: nat
    var pending: nat
    var state: FeedState
    var gapSince: nat
    var deadline: nat
    var recoveryEnd: nat
    var attempts: nat
    var stats: Stats
    /** What the sink was handed since the last reset. */
    var sink: seq<Message>

    /** The model state this object stands for: the fields, the window the ring
        represents, and the history that only the specification keeps. */
    ghost var model: Feed

    ghost predicate Tied()
      reads this
    {
      && model == Feed(started, expected, model.held, state, gapSince, deadline, recoveryEnd, attempts, stats, model.history)
      && model.history.output == sink
    }

    ghost predicate RingOk()
      reads this, slots, bytes
    {
      Tied() && pending == |model.held| && Represents(p, model.expected, model.held, slots[..], bytes[..])
    }

    ghost predicate Valid()
      reads this, slots, bytes
    {
      RingOk() && model.expected !in model.held
    }

    /** Whether the slot of q proves that it holds q. */
    predicate Present(q: nat)
      reads slots
      requires p.Ok() && slots.Length == p.capacity
    {
      slots[Residue(q, p.capacity)].present && slots[Residue(q, p.capacity)].sequence == q
    }

    lemma PresentIffHeld(q: nat)
      requires RingOk() && expected <= q < expected + p.capacity
      ensures Present(q) <==> q in model.held
    {
      OwnSlot(p, expected, model.held, slots[..], bytes[..], q);
    }

    lemma PresentInWindow()
      requires RingOk()
      ensures forall q: nat {:trigger Present(q)} :: expected <= q < expected + p.capacity ==> (Present(q) <==> q in model.held)
    {
      forall q: nat | expected <= q < expected + p.capacity ensures Present(q) <==> q in model.held {
        PresentIffHeld(q);
      }
    }

    constructor (cfg: Config)
      ensures Valid() && fresh(slots) && fresh(bytes)
      ensures model == FRESH
      ensures RoundedUp(p.capacity, if cfg.reorderWindow == 0 then 1 else cfg.reorderWindow)
      ensures p.graceNs == cfg.gapGraceNs && p.timeoutNs == cfg.recoveryTimeoutNs
      ensures p.maxAttempts == (if cfg.maxRecoveryAttempts == 0 then 1 else cfg.maxRecoveryAttempts)
      ensures p.maxPayload == (if cfg.maxPayload == 0 then 1 else cfg.maxPayload)
    {
      var capacity := RoundUpPow2(if cfg.reorderWindow == 0 then 1 else cfg.reorderWindow);
      var width := if cfg.maxPayload == 0 then 1 else cfg.maxPayload;
      p := Params(capacity, cfg.gapGraceNs, cfg.recoveryTimeoutNs,
                  if cfg.maxRecoveryAttempts == 0 then 1 else cfg.maxRecoveryAttempts, width);
      slots := new Slot[capacity](_ => Slot(0, 0, false));
      bytes := new byte[capacity * width](_ => 0);
      started, expected, pending, state := false, 0, 0, Synced;
      gapSince, deadline, recoveryEnd, attempts, stats := 0, 0, 0, 0, ZERO_STATS;
      sink, model := [], FRESH;
    }

    // ----- moving the front -------------------------------------------------------

    /** The bytes of the front's slot, as long as the slot says they are. */
    method FrontPayload() returns (payload: Payload)
      requires RingOk() && expected in model.held
      ensures payload == model.held[expected]
    {
      var i := Residue(expected, p.capacity);
      HeldBytes(p, expected, model.held, slots[..], bytes[..], expected);
      payload := bytes[i * p.maxPayload .. i * p.maxPayload + slots[i].len];
      assert payload == bytes[..][i * p.maxPayload .. i * p.maxPayload + slots[i].len];
    }

    method TakeFront()
      requires RingOk() && expected in model.held
      modifies this, slots
      ensures RingOk() && model == SequencerModel.TakeFront(old(model))
    {
      var payload := FrontPayload();
      FreeSlot(expected, model.held);
      PassFront(payload);
    }

    method FreeSlot(q: nat, ghost held: map<nat, Payload>)
      requires Represents(p, q, held, slots[..], bytes[..]) && q in held
      modifies slots
      ensures Represents(p, q + 1, held - {q}, slots[..], bytes[..])
    {
      RemoveFront(p, q, held, slots[..], bytes[..]);
      var i := Residue(q, p.capacity);
      slots[i] := slots[i].(present := false);
      assert slots[..] == old(slots[..])[i := old(slots[i]).(present := false)];
    }

    method PassFront(payload: Payload)
      requires Tied() && pending == |model.held| && expected in model.held && payload == model.held[expected]
      modifies this
      ensures Tied() && pending == |model.held| && model == SequencerModel.TakeFront(old(model))
    {
      RemoveShrinks(model.held, expected);
      ghost var m := SequencerModel.TakeFront(model);
      sink := sink + [Message(expected, payload)];
      pending := pending - 1;
      stats := stats.(accepted := stats.accepted + 1);
      expected := expected + 1;
      model := m;
    }

    method Drain()
      requires RingOk()
      modifies this, slots
      ensures Valid() && model == SequencerModel.Drain(old(model))
    {
      PresentIffHeld(expected);
      while Present(expected)
        invariant RingOk() && (Present(expected) <==> expected in model.held)
        invariant SequencerModel.Drain(model) == SequencerModel.Drain(old(model))
        decreases |model.held|
      {
        RemoveShrinks(model.held, expected);
        TakeFront();
        PresentIffHeld(expected);
      }
    }

    method Walk(target: nat)
      requires RingOk()
      modifies this, slots
      ensures Valid() && model == SequencerModel.Walk(old(model), target)
    {
      while expected < target
        invariant RingOk()
        invariant SequencerModel.Walk(model, target) == SequencerModel.Walk(old(model), target)
      {
        PresentIffHeld(expected);
        if Present(expected) {
          TakeFront();
        } else {
          DropFront();
        }
      }
      Drain();
    }

    method DropFront()
      requires RingOk() && expected !in model.held
      modifies this
      ensures RingOk() && model == SequencerModel.DropFront(old(model))
    {
      stats := stats.(dropped := stats.dropped + 1);
      expected := expected + 1;
      model := SequencerModel.DropFront(model);
    }

    method ClearRing()
      requires slots.Length == p.capacity
      modifies slots
      ensures forall i :: 0 <= i < slots.Length ==> !slots[i].present
    {
      for i := 0 to slots.Length
        invariant forall k :: 0 <= k < i ==> !slots[k].present
      {
        slots[i] := slots[i].(present := false);
      }
    }

    method SkipTo(target: nat) returns (wide: bool)
      requires Valid()
      modifies this, slots
      ensures Valid() && (model, wide) == SequencerModel.SkipTo(p, old(model), target)
    {
      if target <= expected {
        return false;
      }
      var span := target - expected;
      if span >= p.capacity {
        ClearRing();
        pending := 0;
        stats := stats.(dropped := stats.dropped + span);
        expected := target;
        model := SequencerModel.Wipe(model, target);
        return true;
      }
      Walk(target);
      return false;
    }

    // ----- control ----------------------------------------------------------------

    method ClearRecovery()
      requires RingOk()
      modifies this
      ensures RingOk() && model == SequencerModel.ClearRecovery(old(model))
    {
      attempts, deadline, recoveryEnd := 0, 0, 0;
      model := SequencerModel.ClearRecovery(model);
    }

    method EnterStale()
      requires Valid()
      modifies this
      ensures Valid() && model == SequencerModel.EnterStale(old(model))
    {
      state := Stale;
      model := model.(state := Stale);
      ClearRecovery();
    }

    method Reset(first: nat)
      requires Valid()
      modifies this, slots
      ensures Valid() && model == SequencerModel.Reset(old(model), first)
    {
      ClearRing();
      pending, expected, state, started, gapSince, sink := 0, first, Synced, true, 0, [];
      attempts, deadline, recoveryEnd := 0, 0, 0;
      model := SequencerModel.Reset(model, first);
    }

    method CreditLine(line: Option<Line>)
      requires Valid()
      modifies this
      ensures Valid() && model == SequencerModel.Credit(old(model), line)
    {
      match line {
        case None =>
        case Some(A) => stats := stats.(winsA := stats.winsA + 1);
        case Some(B) => stats := stats.(winsB := stats.winsB + 1);
      }
      model := SequencerModel.Credit(model, line);
    }

    method Settle(now: nat)
      requires Valid()
      modifies this
      ensures Valid() && model == SequencerModel.Settle(old(model), now)
    {
      ghost var m := SequencerModel.Settle(model, now);
      if pending == 0 {
        if state == Gap || state == Recovering {
          stats := stats.(gapsRecovered := stats.gapsRecovered + 1);
          state := Synced;
          model := model.(stats := stats, state := Synced);
          ClearRecovery();
        }
      } else if state == Recovering && expected >= recoveryEnd {
        stats := stats.(gapsRecovered := stats.gapsRecovered + 1, gapsDetected := stats.gapsDetected + 1);
        state, gapSince := Gap, now;
        model := model.(stats := stats, state := Gap, gapSince := now);
        ClearRecovery();
      }
    }

    /** Straight from the receive buffer to the sink. */
    method DeliverNow(payload: Payload, line: Option<Line>, now: nat)
      requires Valid()
      modifies this, slots
      ensures Valid() && model == SequencerModel.DeliverNow(old(model), payload, line, now)
    {
      CreditLine(line);
      HandOver(payload);
      Drain();
      Settle(now);
    }

    method HandOver(payload: Payload)
      requires Valid()
      modifies this
      ensures RingOk() && model == SequencerModel.Emit(old(model), payload)
    {
      ghost var m := SequencerModel.Emit(model, payload);
      sink := sink + [Message(expected, payload)];
      stats := stats.(accepted := stats.accepted + 1);
      expected := expected + 1;
      model := m;
    }

    // ----- taking a message in ----------------------------------------------------

    /** Copy an early message into its slot.  The slot is free and so are its bytes. */
    method CopyIn(q: nat, payload: Payload, ghost held: map<nat, Payload>)
      requires Represents(p, expected, held, slots[..], bytes[..])
      requires expected < q < expected + p.capacity && q !in held && |payload| <= p.maxPayload
      modifies slots, bytes
      ensures !old(slots[Residue(q, p.capacity)]).present
      ensures Represents(p, expected, held[q := payload], slots[..], bytes[..])
    {
      OwnSlot(p, expected, held, slots[..], bytes[..], q);
      var i := Residue(q, p.capacity);
      CellFits(i, p.capacity, p.maxPayload);
      var at: nat := i * p.maxPayload;
      CopyBytes(bytes, at, payload);
      InsertEarly(p, expected, held, slots[..], old(bytes[..]), q, payload, bytes[..]);
      slots[i] := Slot(q, |payload|, true);
      assert slots[..] == old(slots[..])[i := Slot(q, |payload|, true)];
    }

    method Store(q: nat, payload: Payload)
      requires Valid() && expected < q < expected + p.capacity && q !in model.held && |payload| <= p.maxPayload
      modifies this, slots, bytes
      ensures Valid() && model == SequencerModel.Store(old(model), q, payload)
    {
      CopyIn(q, payload, model.held);
      NoteStored(q, payload);
    }

    method NoteStored(q: nat, ghost payload: Payload)
      requires Tied() && pending == |model.held| && q !in model.held
      modifies this
      ensures Tied() && pending == |model.held| && model == SequencerModel.Store(old(model), q, payload)
    {
      ghost var m := SequencerModel.Store(model, q, payload);
      assert m.held.Keys == model.held.Keys + {q};
      pending := pending + 1;
      if pending > stats.highWater {
        stats := stats.(highWater := pending);
      }
      stats := stats.(outOfOrder := stats.outOfOrder + 1);
      model := m;
    }

    method Hold(q: nat, payload: Payload, line: Option<Line>, now: nat)
      requires Valid() && expected < q < expected + p.capacity && q !in model.held && |payload| <= p.maxPayload
      modifies this, slots, bytes
      ensures Valid() && model == SequencerModel.Hold(old(model), q, payload, line, now)
    {
      var firstHole := pending == 0;
      Store(q, payload);
      CreditLine(line);
      NoteHole(firstHole, now);
    }

    method NoteHole(firstHole: bool, now: nat)
      requires Valid()
      modifies this
      ensures Valid() && model == SequencerModel.NoteHole(old(model), firstHole, now)
    {
      ghost var m := SequencerModel.NoteHole(model, firstHole, now);
      if firstHole {
        gapSince := now;
        stats := stats.(gapsDetected := stats.gapsDetected + 1);
      }
      if state == Synced {
        state := Gap;
      }
      model := m;
    }

    /** The window cannot hold what is this far out: skip the least that makes room. */
    method MakeRoom(q: nat)
      requires Valid() && q >= expected + p.capacity
      modifies this, slots
      ensures Valid() && model == SequencerModel.MakeRoom(p, old(model), q)
      ensures expected <= q < expected + p.capacity && q !in model.held
    {
      WindowReaches(p, model, q);
      var wide := SkipTo(q - (p.capacity - 1));
      if wide {
        var _ := SkipTo(q);
      }
      EnterStale();
    }

    method Ingest(q: nat, payload: Payload, line: Option<Line>, now: nat) returns (taken: bool)
      requires Valid()
      modifies this, slots, bytes
      ensures Valid() && (model, taken) == SequencerModel.Ingest(p, old(model), q, payload, line, now)
    {
      if !started {
        Reset(q);
      }
      if q < expected {
        CountDuplicate();
        return false;
      }
      if q == expected {
        DeliverNow(payload, line, now);
        return true;
      }
      var duplicate := HasCopy(q);
      if duplicate {
        CountDuplicate();
        return false;
      }
      if q - expected >= p.capacity {
        MakeRoom(q);
      }
      taken := Place(q, payload, line, now);
    }

    method CountDuplicate()
      requires Valid()
      modifies this
      ensures Valid() && model == SequencerModel.CountDuplicate(old(model))
    {
      stats := stats.(duplicates := stats.duplicates + 1);
      model := SequencerModel.CountDuplicate(model);
    }

    method Place(q: nat, payload: Payload, line: Option<Line>, now: nat) returns (taken: bool)
      requires Valid() && expected <= q < expected + p.capacity && q !in model.held
      modifies this, slots, bytes
      ensures Valid() && (model, taken) == SequencerModel.Place(p, old(model), q, payload, line, now)
    {
      if q == expected {
        DeliverNow(payload, line, now);
        return true;
      }
      if |payload| > p.maxPayload {
        RefuseWide();
        return false;
      }
      Hold(q, payload, line, now);
      return true;
    }

    method RefuseWide()
      requires Valid()
      modifies this
      ensures Valid() && model == SequencerModel.RefuseWide(old(model))
    {
      stats := stats.(dropped := stats.dropped + 1);
      model := SequencerModel.RefuseWide(model);
    }

    // ----- the public operations -----------------------------------------------------

    method OnMessage(line: Line, q: nat, payload: Payload, now: nat)
      requires Valid()
      modifies this, slots, bytes
      ensures Valid() && model == Step(p, old(model), SequencerModel.OnMessage(line, q, payload, now))
    {
      var _ := Ingest(q, payload, Some(line), now);
    }

    method OnRetransmit(q: nat, payload: Payload, now: nat)
      requires Valid()
      modifies this, slots, bytes
      ensures Valid() && model == Step(p, old(model), SequencerModel.OnRetransmit(q, payload, now))
    {
      var taken := Ingest(q, payload, None, now);
      if taken {
        NoteRecovery(now);
      }
    }

    method NoteRecovery(now: nat)
      requires Valid()
      modifies this
      ensures Valid()
      ensures var s := old(model).(stats := old(model).stats.(fromRecovery := old(model).stats.fromRecovery + 1));
        model == if s.state == Recovering then s.(deadline := now + p.timeoutNs) else s
    {
      stats := stats.(fromRecovery := stats.fromRecovery + 1);
      model := model.(stats := stats);
      if state == Recovering {
        deadline := now + p.timeoutNs;
        model := model.(deadline := deadline);
      }
    }

    /** A slot must prove whose sequence it holds: residues alias every lap. */
    method HasCopy(q: nat) returns (copy: bool)
      requires Valid() && q >= expected
      ensures copy <==> q in model.held
    {
      if q - expected < p.capacity {
        PresentIffHeld(q);
      }
      copy := Present(q);
    }

    method MissingRun() returns (run: nat)
      requires Valid()
      ensures run == SequencerModel.MissingRun(p, model)
    {
      PresentInWindow();
      run := CountMissing(model);
    }

    /** Walk the window from the front to the first slot that holds its sequence. */
    method CountMissing(ghost s: Feed) returns (run: nat)
      requires p.Ok() && slots.Length == p.capacity && s.expected == expected
      requires forall q: nat {:trigger Present(q)} :: expected <= q < expected + p.capacity ==> (Present(q) <==> q in s.held)
      ensures run == MissingFrom(p, s, 0)
    {
      run := 0;
      while run < p.capacity
        invariant run <= p.capacity && MissingFrom(p, s, run) == MissingFrom(p, s, 0)
      {
        MissingStep(p, s, run);
        if Present(expected + run) {
          return;
        }
        run := run + 1;
      }
    }

    method IssueRequest() returns (r: Request)
      requires Valid()
      modifies this
      ensures Valid() && (model, r) == SequencerModel.IssueRequest(p, old(model))
    {
      var run := MissingRun();
      var n := if run > MAX_REQUEST then MAX_REQUEST else run;
      recoveryEnd := expected + n;
      model := model.(recoveryEnd := recoveryEnd);
      r := Request(expected, n);
    }

    method SkipHole()
      requires Valid()
      modifies this, slots
      ensures Valid() && model == SequencerModel.SkipHole(p, old(model))
    {
      var run := MissingRun();
      var _ := SkipTo(expected + run);
    }

    method Poll(now: nat) returns (r: Option<Request>)
      requires Valid()
      modifies this, slots
      ensures Valid() && (model, r) == SequencerModel.Poll(p, old(model), now)
    {
      match state {
        case Synced =>
          r := None;
        case Gap =>
          r := PollGap(now);
        case Recovering =>
          if now < deadline {
            return None;
          }
          if attempts >= p.maxAttempts {
            SkipHole();
            EnterStale();
            return None;
          }
          var q := Retry(now);
          r := Some(q);
        case Stale =>
          if pending != 0 && now >= gapSince + p.graceNs {
            SkipHole();
            gapSince := now;
            model := model.(gapSince := now);
          }
          r := None;
      }
    }

    method PollGap(now: nat) returns (r: Option<Request>)
      requires Valid() && state == Gap
      modifies this
      ensures Valid() && (model, r) == SequencerModel.Poll(p, old(model), now)
    {
      var underPressure := pending * 4 >= p.capacity * 3;
      if !underPressure && now < gapSince + p.graceNs {
        return None;
      }
      BeginRecovery(now);
      var q := IssueRequest();
      r := Some(q);
    }

    method BeginRecovery(now: nat)
      requires Valid()
      modifies this`state, this`attempts, this`deadline, this`stats, this`model
      ensures Valid()
      ensures model == old(model).(state := Recovering, attempts := 1, deadline := now + p.timeoutNs,
                                   stats := old(model.stats).(requests := old(model.stats.requests) + 1))
    {
      state, attempts, deadline := Recovering, 1, now + p.timeoutNs;
      stats := stats.(requests := stats.requests + 1);
      model := model.(state := state, attempts := attempts, deadline := deadline, stats := stats);
    }

    method Retry(now: nat) returns (r: Request)
      requires Valid() && state == Recovering && now >= deadline && attempts < p.maxAttempts
      modifies this
      ensures Valid() && (model, Some(r)) == SequencerModel.Poll(p, old(model), now)
    {
      attempts, deadline := attempts + 1, now + p.timeoutNs;
      stats := stats.(requests := stats.requests + 1, retries := stats.retries + 1);
      model := model.(attempts := attempts, deadline := deadline, stats := stats);
      r := IssueRequest();
    }
  }
}
