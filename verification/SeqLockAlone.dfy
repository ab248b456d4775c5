/**
  The seqlock when nobody interferes: a store that runs through leaves its value and an even
  counter two further, a load that runs through while no store does succeeds and returns the
  last value stored, and a load that retries never gives up.
 */
module SeqLockAlone {
  import opened SeqLock

  function From(lo: nat, hi: nat): (words: set<nat>)
    ensures forall i: nat {:trigger i in words} :: i in words <==> lo <= i < hi
    decreases hi - lo
  {
    if lo >= hi then {} else {lo} + From(lo + 1, hi)
  }

  // ----- a store -------------------------------------------------------------------------------

  /** The writer copies words k, k + 1, ... up to n. */
  function WriteWords<W>(s: Shared<W>, k: nat, n: nat): Shared<W>
    decreases n - k
  {
    if k >= n then s else WriteWords(StepWriter(s, k), k + 1, n)
  }

  lemma {:induction false} WordsWritten<W>(s: Shared<W>, v: seq<W>, c: nat, k: nat)
    requires |s.storage| == |v| && k <= |v| && s.writer == Writing(v, c, From(k, |v|)) && s.storage[..k] == v[..k]
    ensures WriteWords(s, k, |v|) == s.(storage := v, writer := Writing(v, c, {}))
    decreases |v| - k
  {
    if k < |v| {
      var t := StepWriter(s, k);
      assert From(k, |v|) - {k} == From(k + 1, |v|);
      assert t.storage[..k + 1] == v[..k + 1];
      WordsWritten(t, v, c, k + 1);
    } else {
      assert From(k, |v|) == {};
    }
  }

  /** A store that runs through, word by word. */
  function Stored<W>(s: Shared<W>, v: seq<W>): Shared<W> {
    var opened' := StepWriter(StepWriter(s.(writer := Loading(v)), 0), 0);
    StepWriter(WriteWords(opened', 0, |v|), 0)
  }

  lemma StoreAlone<W>(s: Shared<W>, v: seq<W>)
    requires WriterOk(s, |v|) && s.writer.Resting?
    ensures Stored(s, v) == Shared(s.counter + 2, v, Resting, s.stored + [v]) && WriterOk(Stored(s, v), |v|)
  {
    var s1 := s.(writer := Loading(v));
    var s2 := StepWriter(s1, 0);
    var s3 := StepWriter(s2, 0);
    assert s3.writer == Writing(v, s.counter, AllWords(|v|));
    assert AllWords(|v|) == From(0, |v|);
    WordsWritten(s3, v, s.counter, 0);
    var s4 := WriteWords(s3, 0, |v|);
    assert StepWriter(s4, 0) == Stored(s, v);
  }

  // ----- a load --------------------------------------------------------------------------------

  /** The reader copies words k, k + 1, ... up to n, and nothing else happens. */
  function ReadWords<W>(s: Shared<W>, r: Reader<W>, k: nat, n: nat, blank: seq<W>): Reader<W>
    decreases n - k
  {
    if k >= n then r else ReadWords(s, StepReader(s, r, k, blank), k + 1, n, blank)
  }

  lemma {:induction false} WordsRead<W>(s: Shared<W>, r: Reader<W>, k: nat, retry: bool, local: seq<W>, blank: seq<W>)
    requires |s.storage| == |local| && k <= |local| && local[..k] == s.storage[..k]
    requires r.phase == Reading(retry, s.counter, local, From(k, |local|))
    ensures ReadWords(s, r, k, |local|, blank) == Reader(Reading(retry, s.counter, s.storage, {}), r.results)
    decreases |local| - k
  {
    if k < |local| {
      var t := StepReader(s, r, k, blank);
      assert From(k, |local|) - {k} == From(k + 1, |local|);
      assert k in From(k, |local|);
      WordsRead(s, t, k + 1, retry, local[k := s.storage[k]], blank);
    } else {
      assert From(k, |local|) == {} && local == s.storage;
    }
  }

  /** A load that runs through: sample, copy word by word, sample again. */
  function Loaded<W>(s: Shared<W>, r: Reader<W>, retry: bool, blank: seq<W>): Reader<W> {
    var sampled := StepReader(s, r.(phase := Sampling(retry)), 0, blank);
    StepReader(s, ReadWords(s, sampled, 0, |blank|, blank), 0, blank)
  }

  lemma LoadAlone<W>(s: Shared<W>, r: Reader<W>, retry: bool, blank: seq<W>)
    requires WriterOk(s, |blank|) && s.writer.Resting?
    ensures Loaded(s, r, retry, blank)
         == Reader(Outside, r.results + [Snapshot(|s.stored| - 1, s.stored[|s.stored| - 1])])
  {
    var sampled := StepReader(s, r.(phase := Sampling(retry)), 0, blank);
    assert AllWords(|blank|) == From(0, |blank|);
    WordsRead(s, sampled, 0, retry, blank, blank);
  }

  /** While a store is under way a load that may not wait gives up at once. */
  lemma LoadGivesUp<W>(s: Shared<W>, r: Reader<W>, blank: seq<W>, width: nat)
    requires WriterOk(s, width) && s.writer.Writing?
    ensures StepReader(s, r.(phase := Sampling(false)), 0, blank).phase == Failed
  {
  }

  /** A load that waits never gives up. */
  lemma RetryNeverFails<W>(s: Shared<W>, r: Reader<W>, word: nat, blank: seq<W>)
    requires r.phase == Sampling(true) || (r.phase.Reading? && r.phase.retry)
    ensures StepReader(s, r, word, blank).phase != Failed
  {
  }

  /** What was stored last is what is loaded next. */
  lemma LoadAfterStore<W>(s: Shared<W>, v: seq<W>, r: Reader<W>, retry: bool, blank: seq<W>)
    requires |v| == |blank| && WriterOk(s, |v|) && s.writer.Resting?
    ensures var r' := Loaded(Stored(s, v), r, retry, blank);
      r'.phase == Outside && r'.results != [] && r'.results[|r'.results| - 1].value == v
  {
    StoreAlone(s, v);
    LoadAlone(Stored(s, v), r, retry, blank);
  }
}
