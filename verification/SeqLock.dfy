/**
  The seqlock as interleaved atomic steps: one writer, any number of readers, and the
  value copied one word at a time in any order, under sequential consistency.
 */
module SeqLock {

  // ----- the machine -----------------------------------------------------------------

  datatype Writer<W> =
    | Resting
    | Loading(value: seq<W>)
    | Opening(value: seq<W>, s: nat)
    | Writing(value: seq<W>, s: nat, todo: set<nat>)

  datatype Phase<W> =
    | Outside
    | Sampling(retry: bool)
    | Reading(retry: bool, s0: nat, local: seq<W>, todo: set<nat>)
    | Failed

  /** A successful load: which store it saw and what it returned. */
  datatype Snapshot<W> = Snapshot(version: nat, value: seq<W>)

  datatype Reader<W> = Reader(phase: Phase<W>, results: seq<Snapshot<W>>)

  /** `stored` is what only the specification remembers: every value stored whole, the
      initial one first. */
  datatype Shared<W> = Shared(counter: nat, storage: seq<W>, writer: Writer<W>, stored: seq<seq<W>>)

  /** `blank` is the value-initialised local that a load copies into. */
  datatype State<W> = State(shared: Shared<W>, readers: seq<Reader<W>>, blank: seq<W>)

  datatype Action<W> =
    | StartStore(value: seq<W>)
    | AdvanceWriter(word: nat)
    | StartLoad(reader: nat, retry: bool)
    | AdvanceReader(reader: nat, word: nat)

  function Initial<W>(value: seq<W>, readers: nat, blank: seq<W>): State<W> {
    State(Shared(0, value, Resting, [value]), seq(readers, _ => Reader(Outside, [])), blank)
  }

  function AllWords(n: nat): (words: set<nat>)
    ensures forall i: nat :: i in words <==> i < n
  {
    if n == 0 then {} else AllWords(n - 1) + {n - 1}
  }

  /** One atomic step of `store`: load the counter, make it odd, copy the words in any
      order, make it even again. */
  function StepWriter<W>(s: Shared<W>, word: nat): Shared<W> {
    match s.writer
    case Resting => s
    case Loading(v) => s.(writer := Opening(v, s.counter))
    case Opening(v, c) => s.(counter := c + 1, writer := Writing(v, c, AllWords(|v|)))
    case Writing(v, c, todo) =>
      if todo == {} then s.(counter := c + 2, writer := Resting, stored := s.stored + [v])
      else if word in todo && word < |s.storage| && word < |v| then
        s.(storage := s.storage[word := v[word]], writer := Writing(v, c, todo - {word}))
      else s
  }

  /** One atomic step of `try_load`, or of `load`, which retries. */
  function StepReader<W>(s: Shared<W>, r: Reader<W>, word: nat, blank: seq<W>): Reader<W> {
    match r.phase
    case Outside => r
    case Failed => r
    case Sampling(retry) =>
      if s.counter % 2 != 0 then r.(phase := if retry then Sampling(true) else Failed)
      else r.(phase := Reading(retry, s.counter, blank, AllWords(|blank|)))
    case Reading(retry, s0, local, todo) =>
      if todo == {} then
        if s0 != s.counter then r.(phase := if retry then Sampling(true) else Failed)
        else Reader(Outside, r.results + [Snapshot(s0 / 2, local)])
      else if word in todo && word < |s.storage| && word < |local| then
        r.(phase := Reading(retry, s0, local[word := s.storage[word]], todo - {word}))
      else r
  }

  function Step<W>(s: State<W>, a: Action<W>): State<W> {
    match a
    case StartStore(v) =>
      if s.shared.writer.Resting? && |v| == |s.blank| then s.(shared := s.shared.(writer := Loading(v))) else s
    case AdvanceWriter(word) => s.(shared := StepWriter(s.shared, word))
    case StartLoad(r, retry) =>
      if r < |s.readers| && (s.readers[r].phase.Outside? || s.readers[r].phase.Failed?)
      then s.(readers := s.readers[r := s.readers[r].(phase := Sampling(retry))])
      else s
    case AdvanceReader(r, word) =>
      if r < |s.readers| then s.(readers := s.readers[r := StepReader(s.shared, s.readers[r], word, s.blank)]) else s
  }

  function Execute<W>(s: State<W>, actions: seq<Action<W>>): State<W>
    decreases |actions|
  {
    if actions == [] then s else Execute(Step(s, actions[0]), actions[1..])
  }

  // ----- the invariant ------------------------------------------------------------------

  /** The words already copied into `to` are those of `from`. */
  ghost predicate Copied<W>(to: seq<W>, from: seq<W>, todo: set<nat>) {
    && |to| == |from|
    && (forall i :: i in todo ==> i < |to|)
    && forall i {:trigger to[i]} {:trigger from[i]} :: 0 <= i < |to| && i !in todo ==> to[i] == from[i]
  }

  /** An even counter counts the completed stores and the storage holds the last one. */
  ghost predicate WriterOk<W>(s: Shared<W>, width: nat) {
    && |s.storage| == width && |s.stored| == s.counter / 2 + 1
    && (forall k :: 0 <= k < |s.stored| ==> |s.stored[k]| == width)
    && match s.writer
       case Resting => s.counter % 2 == 0 && s.storage == s.stored[s.counter / 2]
       case Loading(v) => s.counter % 2 == 0 && s.storage == s.stored[s.counter / 2] && |v| == width
       case Opening(v, c) => s.counter % 2 == 0 && s.storage == s.stored[s.counter / 2] && |v| == width && c == s.counter
       case Writing(v, c, todo) => s.counter % 2 == 1 && c + 1 == s.counter && Copied(s.storage, v, todo)
  }

  /** Every result is a store seen whole, and no reader goes back to an older one. */
  ghost predicate ResultsOk<W>(stored: seq<seq<W>>, results: seq<Snapshot<W>>, limit: nat) {
    && (forall k {:trigger results[k]} :: 0 <= k < |results| ==>
          2 * results[k].version <= limit && results[k].version < |stored| && results[k].value == stored[results[k].version])
    && forall j, k :: 0 <= j < k < |results| ==> results[j].version <= results[k].version
  }

  ghost predicate ReaderOk<W>(s: Shared<W>, r: Reader<W>, width: nat)
    requires WriterOk(s, width)
  {
    && ResultsOk(s.stored, r.results, s.counter)
    && (r.phase.Reading? ==>
          && r.phase.s0 % 2 == 0 && r.phase.s0 <= s.counter && |r.phase.local| == width
          && (forall i :: i in r.phase.todo ==> i < width)
          && ResultsOk(s.stored, r.results, r.phase.s0)
          && (r.phase.s0 == s.counter ==> Copied(r.phase.local, s.stored[r.phase.s0 / 2], r.phase.todo)))
  }

  ghost predicate Inv<W>(s: State<W>) {
    && WriterOk(s.shared, |s.blank|)
    && forall i {:trigger s.readers[i]} :: 0 <= i < |s.readers| ==> ReaderOk(s.shared, s.readers[i], |s.blank|)
  }

  lemma WriterKeeps<W>(s: Shared<W>, word: nat, width: nat)
    requires WriterOk(s, width)
    ensures WriterOk(StepWriter(s, word), width)
    ensures s.counter <= StepWriter(s, word).counter && s.stored <= StepWriter(s, word).stored
    ensures StepWriter(s, word).counter == s.counter || s.counter % 2 == 1 || StepWriter(s, word).counter % 2 == 1
  {
  }

  /** A writer's step does not spoil any reader: either the counter stays, and with an even
      counter so does the storage, or the reader's sample is out of date. */
  lemma ReaderUndisturbed<W>(s: Shared<W>, word: nat, r: Reader<W>, width: nat)
    requires WriterOk(s, width) && ReaderOk(s, r, width)
    ensures WriterOk(StepWriter(s, word), width) && ReaderOk(StepWriter(s, word), r, width)
  {
    WriterKeeps(s, word, width);
  }

  lemma ReaderKeeps<W>(s: Shared<W>, r: Reader<W>, word: nat, blank: seq<W>)
    requires WriterOk(s, |blank|) && ReaderOk(s, r, |blank|)
    ensures ReaderOk(s, StepReader(s, r, word, blank), |blank|)
  {
  }

  lemma StepKeeps<W>(s: State<W>, a: Action<W>)
    requires Inv(s)
    ensures Inv(Step(s, a)) && |Step(s, a).readers| == |s.readers|
    ensures s.shared.stored <= Step(s, a).shared.stored && s.shared.counter <= Step(s, a).shared.counter
  {
    match a
    case StartStore(_) =>
    case AdvanceWriter(word) =>
      WriterKeeps(s.shared, word, |s.blank|);
      forall i | 0 <= i < |s.readers| ensures ReaderOk(StepWriter(s.shared, word), s.readers[i], |s.blank|) {
        ReaderUndisturbed(s.shared, word, s.readers[i], |s.blank|);
      }
    case StartLoad(_, _) =>
    case AdvanceReader(r, word) =>
      if r < |s.readers| {
        ReaderKeeps(s.shared, s.readers[r], word, s.blank);
      }
  }

  lemma {:induction false} ExecuteKeeps<W>(s: State<W>, actions: seq<Action<W>>)
    requires Inv(s)
    ensures Inv(Execute(s, actions)) && |Execute(s, actions).readers| == |s.readers|
    decreases |actions|
  {
    if actions != [] {
      StepKeeps(s, actions[0]);
      ExecuteKeeps(Step(s, actions[0]), actions[1..]);
    }
  }

  // ----- the theorems ----------------------------------------------------------------------

  /** Whatever the interleaving, every successful load returned a value that one store
      wrote whole (or the initial one), and no reader ever goes back to an older store. */
  lemma SnapshotsAreWhole<W>(value: seq<W>, readers: nat, blank: seq<W>, actions: seq<Action<W>>, r: nat)
    requires |value| == |blank| && r < readers
    ensures var s := Execute(Initial(value, readers, blank), actions);
      && |s.readers| == readers && |s.shared.stored| > 0
      && forall k :: 0 <= k < |s.readers[r].results| ==>
           && s.readers[r].results[k].version < |s.shared.stored|
           && s.readers[r].results[k].value == s.shared.stored[s.readers[r].results[k].version]
           && (k > 0 ==> s.readers[r].results[k - 1].version <= s.readers[r].results[k].version)
  {
    var s0 := Initial(value, readers, blank);
    assert Inv(s0);
    ExecuteKeeps(s0, actions);
    var s := Execute(s0, actions);
    assert ReaderOk(s.shared, s.readers[r], |s.blank|);
  }

  /** A load that succeeds returns the latest store completed when it sampled the counter,
      and that store is still the latest when it returns. */
  lemma SuccessIsCurrent<W>(s: State<W>, r: nat, word: nat)
    requires Inv(s) && r < |s.readers| && s.readers[r].phase.Reading? && s.readers[r].phase.todo == {}
    requires s.shared.counter == s.readers[r].phase.s0
    ensures var r' := Step(s, AdvanceReader(r, word)).readers[r];
      && r'.phase == Outside && r'.results != []
      && r'.results[|r'.results| - 1] == Snapshot(|s.shared.stored| - 1, s.shared.stored[|s.shared.stored| - 1])
  {
    assert ReaderOk(s.shared, s.readers[r], |s.blank|);
    assert s.readers[r].phase.local == s.shared.stored[|s.shared.stored| - 1];
  }

  /** A load fails only because a store was in progress when it began or began since. */
  lemma FailureMeansRace<W>(s: State<W>, r: nat, word: nat)
    requires Inv(s) && r < |s.readers|
    requires s.readers[r].phase.Sampling? || s.readers[r].phase.Reading?
    requires Step(s, AdvanceReader(r, word)).readers[r].phase == Failed
    ensures match s.readers[r].phase
      case Sampling(_) => s.shared.writer.Writing?
      case Reading(_, s0, _, _) => s.shared.counter > s0
      case _ => true
  {
    assert ReaderOk(s.shared, s.readers[r], |s.blank|);
  }
}
