/**
  What pooling is for: a freed block is the next one handed out for its class, and the memory
  of a class only ever grows to the most blocks that were live in it at once.
 */
module PoolReuse {
  import opened Common
  import opened PoolResource

  /** The block given back last is the one handed out next. */
  lemma LastFreedFirst(p: Pool, cls: nat, a: nat, base: nat)
    requires cls < |p.free|
    ensures Take(Give(p, cls, a), cls, base) == (p.(reused := p.reused + 1), a)
  {
    assert ([a] + p.free[cls])[1..] == p.free[cls];
    assert p.free[cls := [a] + p.free[cls]][cls := p.free[cls]] == p.free;
  }

  // ----- counting by class ------------------------------------------------------------------

  ghost function LiveIn(live: map<nat, nat>, c: nat): set<nat> {
    set a | a in live && live[a] > 0 && ClassOf(live[a]) == c
  }

  ghost function CarvedIn(blocks: map<nat, Block>, c: nat): set<nat> {
    set a | a in blocks && blocks[a].cls == c
  }

  /** The blocks of a class are live or free. */
  ghost predicate InBalance(s: State, c: nat)
    requires c < |s.p.free|
  {
    |CarvedIn(s.blocks, c)| == |LiveIn(s.live, c)| + |s.p.free[c]|
  }

  lemma LiveMore(live: map<nat, nat>, a: nat, bytes: nat, c: nat)
    requires a !in live && bytes > 0
    ensures |LiveIn(live[a := bytes], c)| == |LiveIn(live, c)| + if ClassOf(bytes) == c then 1 else 0
  {
    assert LiveIn(live[a := bytes], c) == LiveIn(live, c) + if ClassOf(bytes) == c then {a} else {};
  }

  lemma LiveLess(live: map<nat, nat>, a: nat, c: nat)
    requires a in live && live[a] > 0
    ensures |LiveIn(live - {a}, c)| == |LiveIn(live, c)| - if ClassOf(live[a]) == c then 1 else 0
  {
    assert LiveIn(live, c) == LiveIn(live - {a}, c) + if ClassOf(live[a]) == c then {a} else {};
  }

  lemma CarvedMore(blocks: map<nat, Block>, a: nat, b: Block, c: nat)
    requires a !in blocks
    ensures |CarvedIn(blocks[a := b], c)| == |CarvedIn(blocks, c)| + if b.cls == c then 1 else 0
  {
    assert CarvedIn(blocks[a := b], c) == CarvedIn(blocks, c) + if b.cls == c then {a} else {};
  }

  lemma SizeTells<K, V>(m: map<K, V>, k: K, v: V)
    ensures |m[k := v].Keys| == |m.Keys| + if k in m then 0 else 1
  {
    assert m[k := v].Keys == m.Keys + {k};
  }

  /** What is handed out was not live, and what is carved was not carved before. */
  lemma HandedOutIsNew(s: State, bytes: nat, base: nat)
    requires Inv(s) && 0 < bytes <= MAX_BLOCK && Inv(Allocated(s, bytes, base))
    ensures ClassOf(bytes) < CLASSES
    ensures var a := Take(s.p, ClassOf(bytes), base).1;
      a !in s.live && (s.p.free[ClassOf(bytes)] == [] ==> a !in s.blocks)
  {
    ClassFits(bytes);
    var cls, s' := ClassOf(bytes), Allocated(s, bytes, base);
    var (p', a) := Take(s.p, cls, base);
    SizeTells(s.live, a, bytes);
    if s.p.free[cls] == [] {
      SizeTells(s.blocks, a, Block(cls, LastChunk(p')));
    } else {
      assert Freed(s.p.free, s.blocks, s.live, cls, 0);
    }
  }

  // ----- the peak -----------------------------------------------------------------------------

  /** The most blocks of a class that were live at once after any request of a run. */
  ghost function Peak(s: State, rs: seq<Request>, c: nat, most: nat): nat
    requires Shaped(s) && AllLegal(s, rs)
    decreases |rs|
  {
    if rs == [] then most
    else
      var t := Step(s, rs[0]);
      Peak(t, rs[1..], c, Most(|LiveIn(t.live, c)|, most))
  }

  ghost predicate AtPeak(s: State, c: nat, most: nat)
    requires c < |s.p.free|
  {
    InBalance(s, c) && |CarvedIn(s.blocks, c)| == most
  }

  lemma WantAtPeak(s: State, bytes: nat, base: nat, c: nat, most: nat)
    requires Inv(s) && 0 < bytes <= MAX_BLOCK && Inv(Allocated(s, bytes, base)) && c < CLASSES && AtPeak(s, c, most)
    ensures var t := Allocated(s, bytes, base); AtPeak(t, c, Most(|LiveIn(t.live, c)|, most))
  {
    HandedOutIsNew(s, bytes, base);
    var cls := ClassOf(bytes);
    var (p', a) := Take(s.p, cls, base);
    LiveMore(s.live, a, bytes, c);
    if s.p.free[cls] == [] {
      CarvedMore(s.blocks, a, Block(cls, LastChunk(p')), c);
    }
  }

  lemma ReturnAtPeak(s: State, a: nat, c: nat, most: nat)
    requires Inv(s) && a in s.live && 0 < s.live[a] <= MAX_BLOCK && c < CLASSES && AtPeak(s, c, most)
    ensures var t := Deallocated(s, a); AtPeak(t, c, Most(|LiveIn(t.live, c)|, most))
  {
    ClassFits(s.live[a]);
    LiveLess(s.live, a, c);
  }

  function Most(n: nat, most: nat): nat {
    if n > most then n else most
  }

  ghost predicate Kept(s: State, c: nat, most: nat)
    requires c < |s.p.free|
  {
    forall k: nat {:trigger Look(k)} :: Look(k) ==> Inv(s) && AtPeak(s, c, most)
  }

  lemma StepAtPeak(s: State, r: Request, c: nat, most: nat)
    requires Shaped(s) && c < CLASSES && Kept(s, c, most) && Legal(s, r) && Fits(s.p.chunkBytes, r)
    ensures Kept(Step(s, r), c, Most(|LiveIn(Step(s, r).live, c)|, most))
  {
    assert Look(0);
    StepKeeps(s, r);
    match r
    case Want(bytes, base) => WantAtPeak(s, bytes, base, c, most);
    case Return(a) => ReturnAtPeak(s, a, c, most);
  }

  lemma {:induction false} RunAtPeak(s: State, rs: seq<Request>, c: nat, most: nat)
    requires Shaped(s) && AllLegal(s, rs) && AllFit(s.p.chunkBytes, rs) && c < CLASSES && Kept(s, c, most)
    ensures Kept(Run(s, rs), c, Peak(s, rs, c, most))
    decreases |rs|
  {
    if rs != [] {
      StepAtPeak(s, rs[0], c, most);
      RunAtPeak(Step(s, rs[0]), rs[1..], c, Most(|LiveIn(Step(s, rs[0]).live, c)|, most));
    }
  }

  /** In every run whose classes fit a chunk, as many blocks of a class were carved as were ever
      live in it at once, and no more. */
  lemma CarvesToThePeak(chunkBytes: nat, rs: seq<Request>, c: nat)
    requires chunkBytes < 0x1_0000_0000_0000_0000 && AllFit(chunkBytes, rs) && c < CLASSES
    requires Shaped(Start(chunkBytes)) && AllLegal(Start(chunkBytes), rs)
    ensures |CarvedIn(Run(Start(chunkBytes), rs).blocks, c)| == Peak(Start(chunkBytes), rs, c, 0)
  {
    StartInv(chunkBytes);
    assert LiveIn(Start(chunkBytes).live, c) == {} && CarvedIn(Start(chunkBytes).blocks, c) == {};
    RunAtPeak(Start(chunkBytes), rs, c, 0);
    assert Look(0);
  }

  // ----- the counters -------------------------------------------------------------------------

  function Wants(rs: seq<Request>): nat {
    if rs == [] then 0 else (if rs[0].Want? then 1 else 0) + Wants(rs[1..])
  }

  /** Every request was either carved or reused, and upstream gave whole chunks. */
  lemma {:induction false} CountersAddUp(s: State, rs: seq<Request>)
    requires Shaped(s) && AllLegal(s, rs) && s.p.upstreamBytes == |s.p.chunks| * s.p.chunkBytes
    ensures var p := Run(s, rs).p;
      p.carved + p.reused == s.p.carved + s.p.reused + Wants(rs) && p.upstreamBytes == |p.chunks| * p.chunkBytes
    decreases |rs|
  {
    if rs != [] {
      OneMore(s, rs[0]);
      CountersAddUp(Step(s, rs[0]), rs[1..]);
    }
  }

  lemma OneMore(s: State, r: Request)
    requires Shaped(s) && Legal(s, r) && s.p.upstreamBytes == |s.p.chunks| * s.p.chunkBytes
    ensures var p := Step(s, r).p;
      && p.carved + p.reused == s.p.carved + s.p.reused + (if r.Want? then 1 else 0)
      && p.upstreamBytes == |p.chunks| * p.chunkBytes && p.oversized == s.p.oversized
  {
  }
}
