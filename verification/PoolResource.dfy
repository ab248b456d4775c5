/**
  The pooling memory resource: size classes with free lists over chunks taken from an
  upstream resource and carved from the front.  Addresses are naturals.
 */
module PoolResource {
  import opened Common

  const MAX_BLOCK: nat := 256
  const CLASSES: nat := 16
  const MAX_ALIGN: nat := 16

  datatype Region = Region(base: nat, bytes: nat)

  /** Size classes are sixteen bytes apart. */
  function ClassOf(bytes: nat): nat
    requires bytes > 0
  {
    (bytes + 15) / 16 - 1
  }

  function SizeOf(cls: nat): nat {
    (cls + 1) * 16
  }

  /** A class holds what it is asked for and wastes less than one granule. */
  lemma ClassFits(bytes: nat)
    requires 0 < bytes <= MAX_BLOCK
    ensures ClassOf(bytes) < CLASSES && bytes <= SizeOf(ClassOf(bytes)) < bytes + 16
    ensures SizeOf(ClassOf(bytes)) <= MAX_BLOCK
  {
  }

  // ----- the resource, on values ------------------------------------------------------

  datatype Pool = Pool(
    chunkBytes: nat, chunks: seq<Region>, free: seq<seq<nat>>, carve: nat, carveLeft: nat,
    upstreamBytes: nat, reused: nat, carved: nat, oversized: nat)

  function Fresh(chunkBytes: nat): Pool {
    Pool(chunkBytes, [], seq(CLASSES, _ => []), 0, 0, 0, 0, 0, 0)
  }

  /** Blocks over the ceiling or of unusual alignment go straight upstream. */
  predicate Upstream(bytes: nat, align: nat) {
    bytes > MAX_BLOCK || align > MAX_ALIGN
  }

  function AtLeastOne(bytes: nat): nat {
    if bytes == 0 then 1 else bytes
  }

  /** The chunk starts where the upstream resource says. */
  function Chunked(p: Pool, base: nat): Pool {
    p.(chunks := p.chunks + [Region(base, p.chunkBytes)], upstreamBytes := p.upstreamBytes + p.chunkBytes,
       carve := base, carveLeft := p.chunkBytes)
  }

  /** Take a block of this size from the front of the uncarved tail. */
  function Carve(p: Pool, size: nat): Pool {
    p.(carve := p.carve + size, carveLeft := U64(p.carveLeft - size), carved := p.carved + 1)
  }

  /** A block of this class; `base` is where a new chunk would start. */
  function Take(p: Pool, cls: nat, base: nat): (Pool, nat)
    requires cls < |p.free|
  {
    if p.free[cls] != [] then
      (p.(free := p.free[cls := p.free[cls][1..]], reused := p.reused + 1), p.free[cls][0])
    else
      var p1 := if p.carveLeft < SizeOf(cls) then Chunked(p, base) else p;
      (Carve(p1, SizeOf(cls)), p1.carve)
  }

  function Give(p: Pool, cls: nat, a: nat): Pool
    requires cls < |p.free|
  {
    p.(free := p.free[cls := [a] + p.free[cls]])
  }

  // ----- blocks ------------------------------------------------------------------------------

  /** A carved block: its class and the chunk it was carved from. */
  datatype Block = Block(cls: nat, chunk: nat)

  function LastChunk(p: Pool): nat {
    if p.chunks == [] then 0 else |p.chunks| - 1
  }

  /** The part of the last chunk not carved yet. */
  function Tail(p: Pool): Region {
    Region(p.carve, p.carveLeft)
  }

  /** The resource with what only the specification remembers: every block ever carved, by
      address, and which of them are live and for how many bytes. */
  datatype State = State(p: Pool, blocks: map<nat, Block>, live: map<nat, nat>)

  predicate Apart(a: nat, n: nat, b: nat, m: nat) {
    a + n <= b || b + m <= a
  }

  /** The block lies in the chunk it was carved from. */
  ghost predicate Inside(chunks: seq<Region>, a: nat, b: Block) {
    && b.cls < CLASSES && b.chunk < |chunks|
    && chunks[b.chunk].base <= a && a + SizeOf(b.cls) <= chunks[b.chunk].base + chunks[b.chunk].bytes
  }

  ghost predicate TailApart(tail: Region, a: nat, b: Block) {
    Apart(a, SizeOf(b.cls), tail.base, tail.bytes)
  }

  ghost predicate PairApart(blocks: map<nat, Block>, a: nat, b: nat)
    requires a in blocks && b in blocks
  {
    Apart(a, SizeOf(blocks[a].cls), b, SizeOf(blocks[b].cls))
  }

  ghost predicate BlocksOk(chunks: seq<Region>, tail: Region, blocks: map<nat, Block>) {
    && (forall a {:trigger Inside(chunks, a, blocks[a])} :: a in blocks ==> Inside(chunks, a, blocks[a]))
    && (forall a, b {:trigger PairApart(blocks, a, b)} :: a in blocks && b in blocks && a != b ==> PairApart(blocks, a, b))
    && (forall a {:trigger TailApart(tail, a, blocks[a])} :: a in blocks ==> TailApart(tail, a, blocks[a]))
  }

  ghost predicate ChunksApart(chunks: seq<Region>, i: nat, j: nat)
    requires i < |chunks| && j < |chunks|
  {
    Apart(chunks[i].base, chunks[i].bytes, chunks[j].base, chunks[j].bytes)
  }

  /** Chunks overlap nowhere and have one size; the uncarved tail is the end of the last. */
  ghost predicate ChunksOk(p: Pool) {
    && (forall i {:trigger p.chunks[i]} :: 0 <= i < |p.chunks| ==> p.chunks[i].bytes == p.chunkBytes)
    && (forall i: nat, j: nat {:trigger ChunksApart(p.chunks, i, j)} :: i < j < |p.chunks| ==> ChunksApart(p.chunks, i, j))
    && (if p.chunks == [] then p.carveLeft == 0
        else
          var last := p.chunks[|p.chunks| - 1];
          last.base <= p.carve && p.carve + p.carveLeft == last.base + last.bytes)
  }

  ghost predicate Distinct(l: seq<nat>) {
    forall i: nat, j: nat {:trigger Differ(l, i, j)} :: i < j < |l| ==> Differ(l, i, j)
  }

  ghost predicate Differ(l: seq<nat>, i: nat, j: nat)
    requires i < |l| && j < |l|
  {
    l[i] != l[j]
  }

  /** A live address is a carved block of the class its size asks for. */
  ghost predicate InUse(blocks: map<nat, Block>, live: map<nat, nat>, a: nat)
    requires a in live
  {
    a in blocks && 0 < live[a] <= MAX_BLOCK && ClassOf(live[a]) == blocks[a].cls
  }

  /** Entry i of free list c is a carved block of that class, and not live. */
  ghost predicate Freed(free: seq<seq<nat>>, blocks: map<nat, Block>, live: map<nat, nat>, c: nat, i: nat)
    requires c < |free| && i < |free[c]|
  {
    free[c][i] in blocks && blocks[free[c][i]].cls == c && free[c][i] !in live
  }

  /** Every block is live or on its class's free list, not both and on it once. */
  ghost predicate ListsOk(free: seq<seq<nat>>, blocks: map<nat, Block>, live: map<nat, nat>) {
    && |free| == CLASSES
    && (forall c: nat, i: nat {:trigger Freed(free, blocks, live, c, i)} :: c < CLASSES && i < |free[c]| ==>
          Freed(free, blocks, live, c, i))
    && (forall c: nat {:trigger Distinct(free[c])} :: c < CLASSES ==> Distinct(free[c]))
    && (forall a {:trigger InUse(blocks, live, a)} :: a in live ==> InUse(blocks, live, a))
  }

  function FreeCount(free: seq<seq<nat>>): nat {
    if free == [] then 0 else |free[0]| + FreeCount(free[1..])
  }

  ghost predicate Inv(s: State) {
    && s.p.chunkBytes < 0x1_0000_0000_0000_0000 && s.p.carveLeft <= s.p.chunkBytes
    && BlocksOk(s.p.chunks, Tail(s.p), s.blocks) && ChunksOk(s.p) && ListsOk(s.p.free, s.blocks, s.live)
    && Counted(s.p, s.blocks, s.live)
  }

  /** Every block carved is live or free. */
  ghost predicate Counted(p: Pool, blocks: map<nat, Block>, live: map<nat, nat>) {
    p.carved == |blocks.Keys| == |live.Keys| + FreeCount(p.free)
  }

  /** The upstream resource hands out memory it has not handed out before. */
  ghost predicate Honest(p: Pool, base: nat) {
    forall i {:trigger p.chunks[i]} :: 0 <= i < |p.chunks| ==> Apart(p.chunks[i].base, p.chunks[i].bytes, base, p.chunkBytes)
  }

  // ----- the steps -------------------------------------------------------------------------------

  function Allocated(s: State, bytes: nat, base: nat): State
    requires 0 < bytes <= MAX_BLOCK && |s.p.free| == CLASSES
  {
    ClassFits(bytes);
    var cls := ClassOf(bytes);
    var (p, a) := Take(s.p, cls, base);
    State(p, if s.p.free[cls] != [] then s.blocks else s.blocks[a := Block(cls, LastChunk(p))], s.live[a := bytes])
  }

  function Deallocated(s: State, a: nat): State
    requires a in s.live && 0 < s.live[a] <= MAX_BLOCK && |s.p.free| == CLASSES
  {
    ClassFits(s.live[a]);
    State(Give(s.p, ClassOf(s.live[a]), a), s.blocks, s.live - {a})
  }

  lemma {:induction false} FreeCountUpdate(free: seq<seq<nat>>, c: nat, l: seq<nat>)
    requires c < |free|
    ensures FreeCount(free[c := l]) == FreeCount(free) - |free[c]| + |l|
    decreases |free|
  {
    if c == 0 {
      assert free[c := l][1..] == free[1..];
    } else {
      FreeCountUpdate(free[1..], c - 1, l);
      assert free[c := l][1..] == free[1..][c - 1 := l];
    }
  }

  lemma KeysInsert<K, V>(m: map<K, V>, k: K, v: V)
    requires k !in m
    ensures |m[k := v].Keys| == |m.Keys| + 1
  {
    assert m[k := v].Keys == m.Keys + {k};
  }

  lemma KeysRemove<K, V>(m: map<K, V>, k: K)
    requires k in m
    ensures |(m - {k}).Keys| == |m.Keys| - 1
  {
    assert (m - {k}).Keys == m.Keys - {k};
  }

  lemma PopCounted(p: Pool, blocks: map<nat, Block>, live: map<nat, nat>, cls: nat, bytes: nat)
    requires Counted(p, blocks, live) && cls < |p.free| && p.free[cls] != [] && p.free[cls][0] !in live
    ensures Counted(Take(p, cls, 0).0, blocks, live[p.free[cls][0] := bytes])
  {
    FreeCountUpdate(p.free, cls, p.free[cls][1..]);
    KeysInsert(live, p.free[cls][0], bytes);
  }

  lemma CarveCounted(p: Pool, blocks: map<nat, Block>, live: map<nat, nat>, a: nat, b: Block, bytes: nat)
    requires Counted(p, blocks, live) && a !in blocks && a !in live
    ensures Counted(Carve(p, SizeOf(b.cls)), blocks[a := b], live[a := bytes])
  {
    KeysInsert(blocks, a, b);
    KeysInsert(live, a, bytes);
  }

  lemma PushCounted(p: Pool, blocks: map<nat, Block>, live: map<nat, nat>, a: nat)
    requires Counted(p, blocks, live) && a in live && 0 < live[a] && ClassOf(live[a]) < |p.free|
    ensures Counted(Give(p, ClassOf(live[a]), a), blocks, live - {a})
  {
    FreeCountUpdate(p.free, ClassOf(live[a]), [a] + p.free[ClassOf(live[a])]);
    KeysRemove(live, a);
  }

  lemma ReuseKeeps(s: State, bytes: nat, base: nat)
    requires Inv(s) && 0 < bytes <= MAX_BLOCK && s.p.free[ClassOf(bytes)] != []
    ensures Inv(Allocated(s, bytes, base))
  {
    ClassFits(bytes);
    var cls := ClassOf(bytes);
    var a := s.p.free[cls][0];
    assert Freed(s.p.free, s.blocks, s.live, cls, 0);
    PopCounted(s.p, s.blocks, s.live, cls, bytes);
    PopLists(s.p.free, s.blocks, s.live, cls, bytes);
  }

  lemma PopLists(free: seq<seq<nat>>, blocks: map<nat, Block>, live: map<nat, nat>, cls: nat, bytes: nat)
    requires ListsOk(free, blocks, live) && cls < CLASSES && free[cls] != [] && 0 < bytes <= MAX_BLOCK && ClassOf(bytes) == cls
    ensures ListsOk(free[cls := free[cls][1..]], blocks, live[free[cls][0] := bytes])
  {
    var free' := free[cls := free[cls][1..]];
    var a := free[cls][0];
    var live' := live[a := bytes];
    assert Distinct(free[cls]);
    forall i: nat, j: nat | i < j < |free'[cls]| ensures Differ(free'[cls], i, j) {
      assert Differ(free[cls], i + 1, j + 1);
    }
    forall c: nat | c < CLASSES ensures Distinct(free'[c]) {
      assert c != cls ==> Distinct(free[c]);
    }
    assert Freed(free, blocks, live, cls, 0);
    forall k | k in live' ensures InUse(blocks, live', k) {
      assert k != a ==> InUse(blocks, live, k);
    }
    forall c: nat, i: nat | c < CLASSES && i < |free'[c]| ensures Freed(free', blocks, live', c, i) {
      assert Freed(free, blocks, live, c, if c == cls then i + 1 else i);
      assert c == cls ==> Differ(free[cls], 0, i + 1);
    }
  }

  /** A new chunk overlaps nothing carved before. */
  lemma NewChunkKeeps(s: State, base: nat)
    requires Inv(s) && Honest(s.p, base)
    ensures Inv(s.(p := Chunked(s.p, base)))
  {
    var p' := Chunked(s.p, base);
    forall a | a in s.blocks
      ensures Inside(p'.chunks, a, s.blocks[a]) && TailApart(Tail(p'), a, s.blocks[a])
    {
      assert Inside(s.p.chunks, a, s.blocks[a]);
      assert p'.chunks[s.blocks[a].chunk] == s.p.chunks[s.blocks[a].chunk];
    }
    forall i: nat, j: nat | i < j < |p'.chunks| ensures ChunksApart(p'.chunks, i, j) {
      assert j < |s.p.chunks| ==> ChunksApart(s.p.chunks, i, j);
      assert i < |s.p.chunks| && p'.chunks[i] == s.p.chunks[i];
    }
  }

  /** The tail's front block overlaps no other block and leaves a tail that overlaps none. */
  lemma CarveKeeps(s: State, bytes: nat)
    requires Inv(s) && 0 < bytes <= MAX_BLOCK && SizeOf(ClassOf(bytes)) <= s.p.carveLeft
    ensures var a := s.p.carve;
      Inv(State(Carve(s.p, SizeOf(ClassOf(bytes))), s.blocks[a := Block(ClassOf(bytes), LastChunk(s.p))], s.live[a := bytes]))
  {
    ClassFits(bytes);
    var cls, a := ClassOf(bytes), s.p.carve;
    assert a !in s.blocks by {
      assert a in s.blocks ==> TailApart(Tail(s.p), a, s.blocks[a]);
    }
    assert a in s.live ==> InUse(s.blocks, s.live, a);
    CarveCounted(s.p, s.blocks, s.live, a, Block(cls, LastChunk(s.p)), bytes);
    CarveBlocks(s.p, s.blocks, cls);
    CarveLists(s.p.free, s.blocks, s.live, a, Block(cls, LastChunk(s.p)), bytes);
  }

  lemma CarveBlocks(p: Pool, blocks: map<nat, Block>, cls: nat)
    requires BlocksOk(p.chunks, Tail(p), blocks) && ChunksOk(p) && cls < CLASSES && SizeOf(cls) <= p.carveLeft < 0x1_0000_0000_0000_0000
    requires p.carve !in blocks
    ensures p.chunks != []
        && BlocksOk(p.chunks, Tail(Carve(p, SizeOf(cls))), blocks[p.carve := Block(cls, LastChunk(p))]) && ChunksOk(Carve(p, SizeOf(cls)))
  {
    var p' := Carve(p, SizeOf(cls));
    var blocks' := blocks[p.carve := Block(cls, LastChunk(p))];
    assert p'.carveLeft == p.carveLeft - SizeOf(cls);
    forall a | a in blocks'
      ensures Inside(p'.chunks, a, blocks'[a]) && TailApart(Tail(p'), a, blocks'[a])
    {
      if a != p.carve {
        assert blocks'[a] == blocks[a] && Inside(p.chunks, a, blocks[a]) && TailApart(Tail(p), a, blocks[a]);
      }
    }
    forall a, b | a in blocks' && b in blocks' && a != b ensures PairApart(blocks', a, b) {
      assert a != p.carve ==> TailApart(Tail(p), a, blocks[a]);
      assert b != p.carve ==> TailApart(Tail(p), b, blocks[b]);
      assert a != p.carve && b != p.carve ==> PairApart(blocks, a, b);
    }
  }

  lemma CarveLists(free: seq<seq<nat>>, blocks: map<nat, Block>, live: map<nat, nat>, a: nat, b: Block, bytes: nat)
    requires ListsOk(free, blocks, live) && a !in blocks && 0 < bytes <= MAX_BLOCK && ClassOf(bytes) == b.cls
    ensures ListsOk(free, blocks[a := b], live[a := bytes])
  {
    var blocks', live' := blocks[a := b], live[a := bytes];
    forall k | k in live' ensures InUse(blocks', live', k) {
      assert k != a ==> InUse(blocks, live, k);
    }
    forall c: nat, i: nat | c < CLASSES && i < |free[c]| ensures Freed(free, blocks', live', c, i) {
      assert Freed(free, blocks, live, c, i);
    }
  }

  /** Allocating a class that a chunk can hold keeps live blocks apart from each other, from
      the free ones and from the tail, inside owned chunks. */
  lemma AllocateKeeps(s: State, bytes: nat, base: nat)
    requires Inv(s) && 0 < bytes <= MAX_BLOCK && Honest(s.p, base) && SizeOf(ClassOf(bytes)) <= s.p.chunkBytes
    ensures Inv(Allocated(s, bytes, base))
  {
    ClassFits(bytes);
    if s.p.free[ClassOf(bytes)] != [] {
      ReuseKeeps(s, bytes, base);
    } else if s.p.carveLeft < SizeOf(ClassOf(bytes)) {
      NewChunkKeeps(s, base);
      CarveKeeps(s.(p := Chunked(s.p, base)), bytes);
    } else {
      CarveKeeps(s, bytes);
    }
  }

  lemma DeallocateKeeps(s: State, a: nat)
    requires Inv(s) && a in s.live && 0 < s.live[a] <= MAX_BLOCK
    ensures Inv(Deallocated(s, a))
  {
    assert InUse(s.blocks, s.live, a);
    ClassFits(s.live[a]);
    var cls := ClassOf(s.live[a]);
    PushCounted(s.p, s.blocks, s.live, a);
    PushLists(s.p.free, s.blocks, s.live, a);
  }

  lemma PushLists(free: seq<seq<nat>>, blocks: map<nat, Block>, live: map<nat, nat>, a: nat)
    requires ListsOk(free, blocks, live) && a in live && 0 < live[a] && ClassOf(live[a]) < CLASSES
    ensures ListsOk(free[ClassOf(live[a]) := [a] + free[ClassOf(live[a])]], blocks, live - {a})
  {
    var cls := ClassOf(live[a]);
    var free' := free[cls := [a] + free[cls]];
    var live' := live - {a};
    assert InUse(blocks, live, a);
    forall k | k in live' ensures InUse(blocks, live', k) {
      assert InUse(blocks, live, k);
    }
    forall c: nat, i: nat | c < CLASSES && i < |free'[c]| ensures Freed(free', blocks, live', c, i) {
      if !(c == cls && i == 0) {
        assert Freed(free, blocks, live, c, if c == cls then i - 1 else i);
      }
    }
    forall i: nat, j: nat | i < j < |free'[cls]| ensures Differ(free'[cls], i, j) {
      assert Distinct(free[cls]);
      assert i > 0 ==> Differ(free[cls], i - 1, j - 1);
      assert Freed(free, blocks, live, cls, j - 1);
    }
    forall c: nat | c < CLASSES ensures Distinct(free'[c]) {
      assert c != cls ==> Distinct(free[c]);
    }
  }

  // ----- whole runs -------------------------------------------------------------------------------

  /** A request with the address a new chunk would get, or the return of a block. */
  datatype Request = Want(bytes: nat, base: nat) | Return(address: nat)

  ghost predicate Shaped(s: State) {
    |s.p.free| == CLASSES && forall a {:trigger s.live[a]} :: a in s.live ==> 0 < s.live[a] <= MAX_BLOCK
  }

  /** What the contract asks of callers and of the upstream resource. */
  ghost predicate Legal(s: State, r: Request) {
    match r
    case Want(bytes, base) => 0 < bytes <= MAX_BLOCK && Honest(s.p, base)
    case Return(a) => a in s.live
  }

  ghost function Step(s: State, r: Request): (s': State)
    requires Shaped(s) && Legal(s, r)
    ensures Shaped(s') && s'.p.chunkBytes == s.p.chunkBytes
  {
    match r
    case Want(bytes, base) => Allocated(s, bytes, base)
    case Return(a) => Deallocated(s, a)
  }

  ghost predicate AllLegal(s: State, rs: seq<Request>)
    requires Shaped(s)
    decreases |rs|
  {
    rs == [] || (Legal(s, rs[0]) && AllLegal(Step(s, rs[0]), rs[1..]))
  }

  ghost function Run(s: State, rs: seq<Request>): (s': State)
    requires Shaped(s) && AllLegal(s, rs)
    ensures Shaped(s') && s'.p.chunkBytes == s.p.chunkBytes
    decreases |rs|
  {
    if rs == [] then s else Run(Step(s, rs[0]), rs[1..])
  }

  function Start(chunkBytes: nat): State {
    State(Fresh(chunkBytes), map[], map[])
  }

  /** Whether a chunk can hold the class that is asked for. */
  predicate Fits(chunkBytes: nat, r: Request) {
    r.Want? && r.bytes > 0 ==> SizeOf(ClassOf(r.bytes)) <= chunkBytes
  }

  predicate AllFit(chunkBytes: nat, rs: seq<Request>) {
    forall i :: 0 <= i < |rs| ==> Fits(chunkBytes, rs[i])
  }

  lemma StepKeeps(s: State, r: Request)
    requires Inv(s) && Shaped(s) && Legal(s, r) && Fits(s.p.chunkBytes, r)
    ensures Inv(Step(s, r))
  {
    match r
    case Want(bytes, base) => AllocateKeeps(s, bytes, base);
    case Return(a) => DeallocateKeeps(s, a);
  }

  lemma {:induction false} RunKeeps(s: State, rs: seq<Request>)
    requires Inv(s) && Shaped(s) && AllLegal(s, rs) && AllFit(s.p.chunkBytes, rs)
    ensures Inv(Run(s, rs))
    decreases |rs|
  {
    if rs != [] {
      assert Fits(s.p.chunkBytes, rs[0]);
      StepKeeps(s, rs[0]);
      RunKeeps(Step(s, rs[0]), rs[1..]);
    }
  }

  lemma {:induction false} FreeCountEmpty(free: seq<seq<nat>>)
    requires forall c :: 0 <= c < |free| ==> free[c] == []
    ensures FreeCount(free) == 0
  {
    if free != [] {
      FreeCountEmpty(free[1..]);
    }
  }

  lemma StartInv(chunkBytes: nat)
    requires chunkBytes < 0x1_0000_0000_0000_0000
    ensures Inv(Start(chunkBytes)) && Shaped(Start(chunkBytes))
  {
    FreeCountEmpty(Fresh(chunkBytes).free);
  }

  // ----- what every run keeps ---------------------------------------------------------------------

  /** A live block lies in a chunk the resource owns, is at least as large as asked, and
      does not reach into the uncarved tail. */
  lemma {:induction false} LiveBlockIsSafe(chunkBytes: nat, rs: seq<Request>, a: nat)
    requires chunkBytes < 0x1_0000_0000_0000_0000 && AllFit(chunkBytes, rs)
    requires AllLegal(Start(chunkBytes), rs) && a in Run(Start(chunkBytes), rs).live
    ensures var s := Run(Start(chunkBytes), rs);
      && a in s.blocks && s.live[a] <= SizeOf(s.blocks[a].cls)
      && Inside(s.p.chunks, a, s.blocks[a]) && TailApart(Tail(s.p), a, s.blocks[a])
  {
    StartInv(chunkBytes);
    RunKeeps(Start(chunkBytes), rs);
    var s := Run(Start(chunkBytes), rs);
    assert InUse(s.blocks, s.live, a);
    ClassFits(s.live[a]);
    assert Inside(s.p.chunks, a, s.blocks[a]) && TailApart(Tail(s.p), a, s.blocks[a]);
  }

  ghost predicate OnFreeList(p: Pool, b: nat) {
    exists c: nat :: c < |p.free| && b in p.free[c]
  }

  /** A live block overlaps no other live block and no free one. */
  lemma {:induction false} BlocksAreDisjoint(chunkBytes: nat, rs: seq<Request>, a: nat, b: nat)
    requires chunkBytes < 0x1_0000_0000_0000_0000 && AllFit(chunkBytes, rs) && AllLegal(Start(chunkBytes), rs)
    requires var s := Run(Start(chunkBytes), rs);
      a in s.live && ((b in s.live && a != b) || OnFreeList(s.p, b))
    ensures var s := Run(Start(chunkBytes), rs);
      && a != b && a in s.blocks && b in s.blocks
      && Apart(a, SizeOf(s.blocks[a].cls), b, SizeOf(s.blocks[b].cls))
  {
    StartInv(chunkBytes);
    RunKeeps(Start(chunkBytes), rs);
    var s := Run(Start(chunkBytes), rs);
    assert InUse(s.blocks, s.live, a);
    if OnFreeList(s.p, b) {
      var c: nat :| c < |s.p.free| && b in s.p.free[c];
      var i: nat :| i < |s.p.free[c]| && s.p.free[c][i] == b;
      assert Freed(s.p.free, s.blocks, s.live, c, i);
    } else {
      assert InUse(s.blocks, s.live, b);
    }
    assert PairApart(s.blocks, a, b);
  }

  /** Blocks carved are blocks live plus blocks free. */
  lemma {:induction false} BlocksAreConserved(chunkBytes: nat, rs: seq<Request>)
    requires chunkBytes < 0x1_0000_0000_0000_0000 && AllFit(chunkBytes, rs) && AllLegal(Start(chunkBytes), rs)
    ensures var s := Run(Start(chunkBytes), rs);
      s.p.carved == |s.blocks.Keys| == |s.live.Keys| + FreeCount(s.p.free)
  {
    StartInv(chunkBytes);
    RunKeeps(Start(chunkBytes), rs);
  }

  // ----- when blocks stay in their chunks -----------------------------------------------------------

  /** If this request carves a block, the block lies in the chunk it is carved from. */
  ghost predicate CarvesInside(p: Pool, r: Request)
    requires |p.free| == CLASSES && (r.Want? ==> 0 < r.bytes <= MAX_BLOCK)
  {
    if r.Want? then
      ClassFits(r.bytes);
      var cls := ClassOf(r.bytes);
      var (p', a) := Take(p, cls, r.base);
      p.free[cls] == [] ==> Inside(p'.chunks, a, Block(cls, LastChunk(p')))
    else true
  }

  /** Every block the run carves lies in its chunk. */
  ghost predicate AllCarvedInside(s: State, rs: seq<Request>)
    requires Shaped(s) && AllLegal(s, rs)
    decreases |rs|
  {
    rs == [] || (CarvesInside(s.p, rs[0]) && AllCarvedInside(Step(s, rs[0]), rs[1..]))
  }

  /** A request its chunk can hold is carved inside; one it cannot hold finds its free list
      empty and the tail too small, opens a chunk and reaches past it. */
  lemma CarvesInsideExactly(s: State, r: Request)
    requires Inv(s) && Shaped(s) && Legal(s, r)
    ensures CarvesInside(s.p, r) <==> Fits(s.p.chunkBytes, r)
  {
    if r.Want? {
      ClassFits(r.bytes);
      var cls := ClassOf(r.bytes);
      if s.p.free[cls] != [] {
        assert Freed(s.p.free, s.blocks, s.live, cls, 0);
        assert Inside(s.p.chunks, s.p.free[cls][0], s.blocks[s.p.free[cls][0]]);
      }
    }
  }

  /** From any sound state, the blocks of a run lie in their chunks if and only if all fit. */
  lemma {:induction false} InsideExactly(s: State, rs: seq<Request>)
    requires Inv(s) && Shaped(s) && AllLegal(s, rs)
    ensures AllCarvedInside(s, rs) <==> AllFit(s.p.chunkBytes, rs)
    decreases |rs|
  {
    if rs != [] {
      CarvesInsideExactly(s, rs[0]);
      if Fits(s.p.chunkBytes, rs[0]) {
        StepKeeps(s, rs[0]);
        InsideExactly(Step(s, rs[0]), rs[1..]);
        assert AllFit(s.p.chunkBytes, rs) <==> AllFit(s.p.chunkBytes, rs[1..]) by {
          assert forall i :: 1 <= i < |rs| ==> rs[i] == rs[1..][i - 1];
        }
      }
    }
  }

  /**
    Nothing checks that a new chunk can hold the block it is opened for.  In every run from
    a fresh resource, all blocks lie in the chunks they are carved from if and only if no
    request of the run asks for a class larger than a chunk.
   */
  lemma SmallChunksOverrun(chunkBytes: nat, rs: seq<Request>)
    requires chunkBytes < 0x1_0000_0000_0000_0000 && AllLegal(Start(chunkBytes), rs)
    ensures AllCarvedInside(Start(chunkBytes), rs) <==> AllFit(chunkBytes, rs)
  {
    StartInv(chunkBytes);
    InsideExactly(Start(chunkBytes), rs);
  }

  /** Chunks of at least the largest block hold whatever a legal run asks for. */
  lemma {:induction false} LargeChunksHoldAll(s: State, rs: seq<Request>)
    requires Shaped(s) && AllLegal(s, rs) && s.p.chunkBytes >= MAX_BLOCK
    ensures AllFit(s.p.chunkBytes, rs)
    decreases |rs|
  {
    if rs != [] {
      if rs[0].Want? {
        ClassFits(rs[0].bytes);
      }
      LargeChunksHoldAll(Step(s, rs[0]), rs[1..]);
      assert forall i :: 1 <= i < |rs| ==> rs[i] == rs[1..][i - 1];
    }
  }

  /** One request too large spoils the ones after it: with chunks of 100 bytes a block of
      256 is followed by one of 16 that a chunk could hold and that lies outside the only one. */
  lemma OverrunSpreads(base: nat, other: nat)
    ensures var (p1, a1) := Take(Fresh(100), ClassOf(256), base);
      var (p2, a2) := Take(p1, ClassOf(1), other);
      && SizeOf(ClassOf(256)) > 100 >= SizeOf(ClassOf(1))
      && a1 == base && p1.carveLeft == 0x1_0000_0000_0000_0000 - 156
      && p2.chunks == [Region(base, 100)] && a2 == base + 256
  {
    var p := Fresh(100);
    assert ClassOf(256) == 15 && ClassOf(1) == 0;
    assert p.free[15] == [] && p.free[0] == [];
    assert Chunked(p, base).chunks == [Region(base, 100)];
  }

  // ----- the class ----------------------------------------------------------------------------------

  /** Whoever the chunks come from. */
  class UpstreamResource {
    var top: nat

    constructor ()
    {
      top := 0;
    }

    method Allocate(bytes: nat) returns (base: nat)
      modifies this
      ensures base == old(top) && top == base + bytes
    {
      base := top;
      top := top + bytes;
    }
  }

  class PoolResource {
    const upstream: UpstreamResource
    const chunkBytes: nat
    var chunks: seq<Region>
    var free: array<seq<nat>>
    var carve: nat
    var carveLeft: nat
    var upstreamBytes: nat
    var reused: nat
    var carved: nat
    var oversized: nat

    /** Every block ever carved, and the live ones with the bytes asked for. */
    ghost var blocks: map<nat, Block>
    ghost var live: map<nat, nat>

    /** The model state this object stands for. */
    function View(): Pool
      reads this, free
    {
      Pool(chunkBytes, chunks, free[..], carve, carveLeft, upstreamBytes, reused, carved, oversized)
    }

    ghost function Whole(): State
      reads this, free
    {
      State(View(), blocks, live)
    }

    /** The upstream resource never hands out what it handed out before. */
    ghost predicate Fed()
      reads this, upstream
    {
      forall i {:trigger chunks[i]} :: 0 <= i < |chunks| ==> chunks[i].base + chunks[i].bytes <= upstream.top
    }

    ghost predicate Safe()
      reads this, free, upstream
    {
      Fed() && Inv(Whole())
    }

    constructor (chunkBytes: nat, upstream: UpstreamResource)
      ensures View() == Fresh(chunkBytes) && fresh(free) && free.Length == CLASSES && this.upstream == upstream
      ensures chunkBytes < 0x1_0000_0000_0000_0000 ==> Safe() && live == map[]
    {
      this.chunkBytes := chunkBytes;
      this.upstream := upstream;
      chunks, carve, carveLeft, upstreamBytes, reused, carved, oversized := [], 0, 0, 0, 0, 0, 0;
      free := new seq<nat>[CLASSES](_ => []);
      blocks, live := map[], map[];
      new;
      if chunkBytes < 0x1_0000_0000_0000_0000 {
        StartInv(chunkBytes);
      }
      assert free[..] == Fresh(chunkBytes).free;
    }

    /** A block from a free list or the tail; over the ceiling, straight from upstream. */
    method Allocate(asked: nat, align: nat) returns (a: nat)
      requires free.Length == CLASSES
      modifies this, free, upstream
      ensures free == old(free)
      ensures !Upstream(AtLeastOne(asked), align) ==>
        && (View(), a) == Take(old(View()), ClassOf(AtLeastOne(asked)), old(upstream.top))
        && live == old(live)[a := AtLeastOne(asked)]
      ensures oversized == old(oversized) + if asked > 256 || align > 16 then 1 else 0
      ensures Upstream(AtLeastOne(asked), align) ==>
        View() == old(View()).(oversized := old(oversized) + 1) && a == old(upstream.top) && live == old(live)
      ensures old(Safe()) && (Upstream(AtLeastOne(asked), align) || SizeOf(ClassOf(AtLeastOne(asked))) <= chunkBytes) ==> Safe()
    {
      var bytes := AtLeastOne(asked);
      if Upstream(bytes, align) {
        a := upstream.Allocate(bytes);
        oversized := oversized + 1;
      } else {
        a := AllocateBlock(bytes);
      }
    }

    /** A block from a free list or the tail. */
    method AllocateBlock(bytes: nat) returns (a: nat)
      requires free.Length == CLASSES && 0 < bytes <= MAX_BLOCK
      modifies this, free, upstream
      ensures free == old(free) && oversized == old(oversized)
      ensures (View(), a) == Take(old(View()), ClassOf(bytes), old(upstream.top)) && live == old(live)[a := bytes]
      ensures old(Safe()) && SizeOf(ClassOf(bytes)) <= chunkBytes ==> Safe()
    {
      ghost var before := Whole();
      ghost var base := upstream.top;
      ghost var safe := Safe();
      ClassFits(bytes);
      a := TakeBlock(ClassOf(bytes));
      if safe && SizeOf(ClassOf(bytes)) <= chunkBytes {
        AllocateKeeps(before, bytes, base);
      }
      blocks := Allocated(before, bytes, base).blocks;
      live := live[a := bytes];
      assert Whole() == Allocated(before, bytes, base);
    }

    method TakeBlock(cls: nat) returns (a: nat)
      requires cls < CLASSES == free.Length
      modifies this`chunks, this`carve, this`carveLeft, this`upstreamBytes, this`reused, this`carved, free, upstream
      ensures (View(), a) == Take(old(View()), cls, old(upstream.top))
      ensures old(Fed()) ==> Fed()
    {
      if free[cls] != [] {
        a := free[cls][0];
        free[cls] := free[cls][1..];
        reused := reused + 1;
        assert free[..] == old(free[..])[cls := old(free[cls])[1..]];
      } else {
        if carveLeft < SizeOf(cls) {
          NewChunk();
        }
        a := carve;
        carve := carve + SizeOf(cls);
        carveLeft := U64(carveLeft - SizeOf(cls));
        carved := carved + 1;
      }
    }

    method NewChunk()
      modifies this`chunks, this`carve, this`carveLeft, this`upstreamBytes, upstream
      ensures old(Fed()) ==> Fed()
      ensures View() == Chunked(old(View()), old(upstream.top))
    {
      var base := upstream.Allocate(chunkBytes);
      chunks := chunks + [Region(base, chunkBytes)];
      upstreamBytes := upstreamBytes + chunkBytes;
      carve, carveLeft := base, chunkBytes;
    }

    /** Give a block back with the size and alignment it was asked for with. */
    method Deallocate(a: nat, asked: nat, align: nat)
      requires free.Length == CLASSES
      modifies free, this`live
      ensures View() == if Upstream(AtLeastOne(asked), align) then old(View()) else Give(old(View()), ClassOf(AtLeastOne(asked)), a)
      ensures live == if Upstream(AtLeastOne(asked), align) then old(live) else old(live) - {a}
      ensures old(Safe()) && (Upstream(AtLeastOne(asked), align) || (a in old(live) && old(live)[a] == AtLeastOne(asked))) ==> Safe()
    {
      ghost var before := Whole();
      var bytes := AtLeastOne(asked);
      if !Upstream(bytes, align) {
        ClassFits(bytes);
        var cls := ClassOf(bytes);
        if Safe() && a in live && live[a] == bytes {
          DeallocateKeeps(before, a);
        }
        free[cls] := [a] + free[cls];
        live := live - {a};
        assert free[..] == old(free[..])[cls := [a] + old(free[cls])];
      }
    }
  }
}
