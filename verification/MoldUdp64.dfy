/**
  MoldUDP64 framing: the downstream packet, heartbeat, end of session and request packets
  of the NASDAQ MoldUDP64 specification, parsed and built.
 */
module MoldUdp64 {
  import opened Common
  import opened SlotBuffer

  type Bytes = seq<byte>
  type U64 = n: int | 0 <= n < 0x1_0000_0000_0000_0000 witness 0
  type U16 = n: int | 0 <= n < 0x1_0000 witness 0

  const SESSION_LEN: nat := 10
  const OFF_SEQUENCE: nat := 10
  const OFF_COUNT: nat := 18
  const HEADER_LEN: nat := 20
  const END_OF_SESSION: U16 := 0xFFFF
  const MAX_COUNT: U16 := 0xFFFE
  const SPACE: byte := 32

  // ----- big-endian fields -------------------------------------------------------------

  function Be(v: nat, width: nat): (b: Bytes)
    ensures |b| == width
  {
    if width == 0 then [] else Be(v / 256, width - 1) + [(v % 256) as byte]
  }

  function FromBe(b: Bytes): nat {
    if b == [] then 0 else 256 * FromBe(b[..|b| - 1]) + b[|b| - 1] as nat
  }

  function Pow256(width: nat): (p: nat)
    ensures p > 0
  {
    if width == 0 then 1 else 256 * Pow256(width - 1)
  }

  lemma {:induction false} FromBeOfBe(v: nat, width: nat)
    requires v < Pow256(width)
    ensures FromBe(Be(v, width)) == v
  {
    if width > 0 {
      FromBeOfBe(v / 256, width - 1);
      assert Be(v, width)[..width - 1] == Be(v / 256, width - 1);
    }
  }

  lemma {:induction false} BeOfFromBe(b: Bytes)
    ensures FromBe(b) < Pow256(|b|) && Be(FromBe(b), |b|) == b
    decreases |b|
  {
    if b != [] {
      BeOfFromBe(b[..|b| - 1]);
      assert FromBe(b) / 256 == FromBe(b[..|b| - 1]) && FromBe(b) % 256 == b[|b| - 1] as nat;
    }
  }

  lemma Widths()
    ensures Pow256(2) == 0x1_0000 && Pow256(8) == 0x1_0000_0000_0000_0000
  {
    assert Pow256(4) == 0x1_0000_0000;
  }

  function Load16(b: Bytes, at: nat): (v: U16)
    requires at + 2 <= |b|
  {
    BeOfFromBe(b[at..at + 2]);
    Widths();
    FromBe(b[at..at + 2])
  }

  function Load64(b: Bytes, at: nat): (v: U64)
    requires at + 8 <= |b|
  {
    BeOfFromBe(b[at..at + 8]);
    Widths();
    FromBe(b[at..at + 8])
  }

  // ----- packets ---------------------------------------------------------------------------

  datatype Header = Header(session: Bytes, sequence: U64, count: U16)

  function EncodeHeader(h: Header): (b: Bytes)
    requires |h.session| == SESSION_LEN
    ensures |b| == HEADER_LEN
  {
    h.session + Be(h.sequence, 8) + Be(h.count, 2)
  }

  function DecodeHeader(b: Bytes): (h: Header)
    requires |b| >= HEADER_LEN
    ensures |h.session| == SESSION_LEN
  {
    Header(b[..SESSION_LEN], Load64(b, OFF_SEQUENCE), Load16(b, OFF_COUNT))
  }

  lemma DecodeOfEncode(h: Header, rest: Bytes)
    requires |h.session| == SESSION_LEN
    ensures DecodeHeader(EncodeHeader(h) + rest) == h
  {
    var b := EncodeHeader(h) + rest;
    assert b[..SESSION_LEN] == h.session;
    assert b[OFF_SEQUENCE..OFF_SEQUENCE + 8] == Be(h.sequence, 8);
    assert b[OFF_COUNT..OFF_COUNT + 2] == Be(h.count, 2);
    Widths();
    FromBeOfBe(h.sequence, 8);
    FromBeOfBe(h.count, 2);
  }

  lemma EncodeOfDecode(b: Bytes)
    requires |b| >= HEADER_LEN
    ensures EncodeHeader(DecodeHeader(b)) == b[..HEADER_LEN]
  {
    BeOfFromBe(b[OFF_SEQUENCE..OFF_SEQUENCE + 8]);
    BeOfFromBe(b[OFF_COUNT..OFF_COUNT + 2]);
    assert b[..HEADER_LEN] == b[..SESSION_LEN] + b[OFF_SEQUENCE..OFF_SEQUENCE + 8] + b[OFF_COUNT..OFF_COUNT + 2];
  }

  predicate Fits(m: Bytes) {
    |m| < 0x1_0000
  }

  predicate AllFit(ms: seq<Bytes>) {
    forall i :: 0 <= i < |ms| ==> Fits(ms[i])
  }

  /** A message block: a two-byte length and the message. */
  function Block(m: Bytes): Bytes {
    Be(|m|, 2) + m
  }

  function Blocks(ms: seq<Bytes>): Bytes {
    if ms == [] then [] else Block(ms[0]) + Blocks(ms[1..])
  }

  lemma {:induction false} BlocksAppend(ms: seq<Bytes>, m: Bytes)
    ensures Blocks(ms + [m]) == Blocks(ms) + Block(m)
    decreases |ms|
  {
    if ms == [] {
      assert [m][1..] == [];
      assert Blocks([]) + Block(m) == Block(m) + Blocks([]);
    } else {
      BlocksAppend(ms[1..], m);
      assert (ms + [m])[1..] == ms[1..] + [m];
      assert Block(ms[0]) + (Blocks(ms[1..]) + Block(m)) == Block(ms[0]) + Blocks(ms[1..]) + Block(m);
    }
  }

  /** A downstream packet that carries these messages, the first under this sequence. */
  function Packet(session: Bytes, sequence: U64, ms: seq<Bytes>): Bytes
    requires |session| == SESSION_LEN && |ms| <= MAX_COUNT
  {
    EncodeHeader(Header(session, sequence, |ms|)) + Blocks(ms)
  }

  // ----- what parsing means ------------------------------------------------------------------

  /** Cut exactly n blocks out of the bytes, leaving none over. */
  function Split(b: Bytes, n: nat): Option<seq<Bytes>>
    decreases n
  {
    if n == 0 then if b == [] then Some([]) else None
    else if |b| < 2 || |b| - 2 < Load16(b, 0) then None
    else
      var len := Load16(b, 0);
      match Split(b[2 + len..], n - 1)
      case None => None
      case Some(ms) => Some([b[2..2 + len]] + ms)
  }

  /** The first block of some bytes and what follows it are those bytes. */
  lemma BlockAndRest(b: Bytes)
    requires |b| >= 2 && |b| - 2 >= Load16(b, 0)
    ensures var len := Load16(b, 0); Fits(b[2..2 + len]) && Block(b[2..2 + len]) + b[2 + len..] == b
  {
    var len := Load16(b, 0);
    BeOfFromBe(b[0..2]);
    assert b == b[0..2] + b[2..2 + len] + b[2 + len..];
  }

  /** How a cut into at least one block begins. */
  lemma SplitFirst(b: Bytes, n: nat)
    requires n > 0 && Split(b, n).Some?
    ensures |b| >= 2 && |b| - 2 >= Load16(b, 0)
    ensures var len, ms := Load16(b, 0), Split(b, n).value;
      |ms| > 0 && ms[0] == b[2..2 + len] && Split(b[2 + len..], n - 1) == Some(ms[1..])
  {
    var ms := Split(b, n).value;
    assert ms[1..] == Split(b[2 + Load16(b, 0)..], n - 1).value;
  }

  lemma BlocksFirst(ms: seq<Bytes>)
    requires ms != []
    ensures Blocks(ms) == Block(ms[0]) + Blocks(ms[1..])
    ensures AllFit(ms[1..]) && Fits(ms[0]) ==> AllFit(ms)
  {
    assert forall i :: 1 <= i < |ms| ==> ms[i] == ms[1..][i - 1];
  }

  lemma {:induction false} SplitSound(b: Bytes, n: nat)
    requires Split(b, n).Some?
    ensures var ms := Split(b, n).value; |ms| == n && AllFit(ms) && Blocks(ms) == b
    decreases n
  {
    if n > 0 {
      SplitFirst(b, n);
      SplitSound(b[2 + Load16(b, 0)..], n - 1);
      BlockAndRest(b);
      BlocksFirst(Split(b, n).value);
    }
  }

  lemma {:induction false} SplitComplete(ms: seq<Bytes>)
    requires AllFit(ms)
    ensures Split(Blocks(ms), |ms|) == Some(ms)
    decreases |ms|
  {
    if ms != [] {
      assert Fits(ms[0]);
      LoadBlock(ms[0], Blocks(ms[1..]));
      SplitComplete(ms[1..]);
      assert [ms[0]] + ms[1..] == ms;
    }
  }

  lemma LoadBlock(m: Bytes, rest: Bytes)
    requires Fits(m)
    ensures var b := Block(m) + rest;
      Load16(b, 0) == |m| && b[2..2 + |m|] == m && b[2 + |m|..] == rest
  {
    var b := Block(m) + rest;
    Widths();
    FromBeOfBe(|m|, 2);
    assert b[0..2] == Be(|m|, 2);
  }

  /** Whether a datagram parses, and to how many blocks. */
  function Parsed(pkt: Bytes): Option<(Header, nat)> {
    if |pkt| < HEADER_LEN then None
    else
      var h := DecodeHeader(pkt);
      if h.count == END_OF_SESSION then if |pkt| == HEADER_LEN then Some((h, 0)) else None
      else if Split(pkt[HEADER_LEN..], h.count).Some? then Some((h, h.count)) else None
  }

  /** What iterating over a parsed datagram gives. */
  function Messages(pkt: Bytes): seq<Bytes>
    requires Parsed(pkt).Some?
  {
    if Parsed(pkt).value.1 == 0 then [] else Split(pkt[HEADER_LEN..], Parsed(pkt).value.1).value
  }

  /** Parsing is the inverse of building: whatever was packed comes back in order. */
  lemma ParseOfPacket(session: Bytes, sequence: U64, ms: seq<Bytes>)
    requires |session| == SESSION_LEN && |ms| <= MAX_COUNT && AllFit(ms)
    ensures var pkt := Packet(session, sequence, ms);
      && Parsed(pkt) == Some((Header(session, sequence, |ms|), |ms|))
      && Messages(pkt) == ms
  {
    var pkt := Packet(session, sequence, ms);
    DecodeOfEncode(Header(session, sequence, |ms|), Blocks(ms));
    assert pkt[HEADER_LEN..] == Blocks(ms);
    SplitComplete(ms);
  }

  /** A datagram that is not an end of session is accepted exactly when it is the encoding
      of some header and messages, and those are the ones iteration returns. */
  lemma AcceptedExactly(pkt: Bytes)
    ensures Parsed(pkt).Some? && Parsed(pkt).value.0.count != END_OF_SESSION <==>
      exists session: Bytes, sequence: U64, ms: seq<Bytes> ::
        |session| == SESSION_LEN && |ms| <= MAX_COUNT && AllFit(ms) && pkt == Packet(session, sequence, ms)
    ensures Parsed(pkt).Some? && Parsed(pkt).value.0.count != END_OF_SESSION ==>
      var h := Parsed(pkt).value.0;
      |Messages(pkt)| == h.count && pkt == Packet(h.session, h.sequence, Messages(pkt))
  {
    if Parsed(pkt).Some? && Parsed(pkt).value.0.count != END_OF_SESSION {
      var h := Parsed(pkt).value.0;
      SplitSound(pkt[HEADER_LEN..], h.count);
      EncodeOfDecode(pkt);
      var ms := Split(pkt[HEADER_LEN..], h.count).value;
      assert h.count == 0 ==> ms == [];
      assert Messages(pkt) == ms;
      assert pkt == pkt[..HEADER_LEN] + pkt[HEADER_LEN..];
      assert pkt == Packet(h.session, h.sequence, ms);
    }
    if exists session: Bytes, sequence: U64, ms: seq<Bytes> ::
        |session| == SESSION_LEN && |ms| <= MAX_COUNT && AllFit(ms) && pkt == Packet(session, sequence, ms)
    {
      var session: Bytes, sequence: U64, ms: seq<Bytes> :|
        |session| == SESSION_LEN && |ms| <= MAX_COUNT && AllFit(ms) && pkt == Packet(session, sequence, ms);
      ParseOfPacket(session, sequence, ms);
    }
  }

  /** An end of session is its header and nothing else. */
  lemma EndOfSessionAlone(session: Bytes, sequence: U64, rest: Bytes)
    requires |session| == SESSION_LEN
    ensures var h := Header(session, sequence, END_OF_SESSION);
      Parsed(EncodeHeader(h) + rest) == if rest == [] then Some((h, 0)) else None
  {
    DecodeOfEncode(Header(session, sequence, END_OF_SESSION), rest);
  }

  // ----- which byte is which -------------------------------------------------------------------

  /** The most significant byte comes first. */
  lemma {:induction false} BeByte(v: nat, width: nat, i: nat)
    requires i < width
    ensures Be(v, width)[i] as nat == v / Pow256(width - 1 - i) % 256
  {
    if i < width - 1 {
      BeByte(v / 256, width - 1, i);
      DivideTwice(v, Pow256(width - 2 - i));
    }
  }

  lemma DivideTwice(v: nat, p: nat)
    requires p > 0
    ensures v / 256 / p == v / (256 * p)
  {
    var q, r := v / 256 / p, v / 256 % p;
    assert v == 256 * (q * p + r) + v % 256;
    assert 256 * r + v % 256 < 256 * p;
    QuotientUnique(v, 256 * p, q, 256 * r + v % 256);
  }

  lemma QuotientUnique(v: nat, d: nat, q: nat, r: nat)
    requires r < d && v == q * d + r
    ensures v / d == q
  {
    var k := v / d - q;
    assert k * d == r - v % d;
    assert k >= 1 ==> k * d >= d;
    assert k <= -1 ==> k * d <= -(d as int);
  }

  /** Two bytes as a number. */
  function Pair(b: Bytes, at: nat): nat
    requires at + 2 <= |b|
  {
    256 * (b[at] as nat) + b[at + 1] as nat
  }

  /** Four bytes as a number. */
  function Quad(b: Bytes, at: nat): nat
    requires at + 4 <= |b|
  {
    0x1_0000 * Pair(b, at) + Pair(b, at + 2)
  }

  lemma PairIs(b: Bytes, at: nat)
    requires at + 2 <= |b|
    ensures Load16(b, at) == Pair(b, at)
  {
    FromTwo(b[at..at + 2]);
  }

  lemma FromTwo(b: Bytes)
    requires |b| == 2
    ensures FromBe(b) == 256 * (b[0] as nat) + b[1] as nat
  {
    assert FromBe(b[..1]) == b[0] as nat by {
      assert b[..1][..0] == [];
    }
  }

  /** A longer field: all but the last two bytes weigh 65536 times as much. */
  lemma FromLonger(b: Bytes)
    requires |b| >= 2
    ensures FromBe(b) == 0x1_0000 * FromBe(b[..|b| - 2]) + Pair(b, |b| - 2)
  {
    var c := b[..|b| - 1];
    assert c[..|c| - 1] == b[..|b| - 2] && c[|c| - 1] == b[|b| - 2];
  }

  lemma EightIs(b: Bytes, at: nat)
    requires at + 8 <= |b|
    ensures Load64(b, at) == 0x1_0000_0000 * Quad(b, at) + Quad(b, at + 4)
  {
    var f := b[at..at + 8];
    FromLonger(f);
    FromLonger(f[..6]);
    FromLonger(f[..4]);
    FromTwo(f[..2]);
    assert f[..6][..4] == f[..4] && f[..4][..2] == f[..2];
    assert Pair(f, 6) == Pair(b, at + 6) && Pair(f[..6], 4) == Pair(b, at + 4) && Pair(f[..4], 2) == Pair(b, at + 2);
    assert FromBe(f[..2]) == Pair(b, at);
  }

  /** The header of every datagram long enough to have one, byte by byte. */
  lemma HeaderBytes(pkt: Bytes)
    requires |pkt| >= HEADER_LEN
    ensures var h := DecodeHeader(pkt);
      && h.session == pkt[..10] && h.sequence == 0x1_0000_0000 * Quad(pkt, 10) + Quad(pkt, 14) && h.count == Pair(pkt, 18)
    ensures Parsed(pkt).Some? ==> Parsed(pkt).value.0 == DecodeHeader(pkt)
  {
    EightIs(pkt, 10);
    PairIs(pkt, 18);
  }

  /** From one block to the next: its two length bytes say how far. */
  ghost predicate WalkAt(b: Bytes, offs: seq<nat>, k: nat)
    requires k + 1 < |offs|
  {
    offs[k] + 2 <= |b| && offs[k + 1] == offs[k] + 2 + Pair(b, offs[k])
  }

  /** The places where blocks start, and the end of the datagram where the last one ends. */
  ghost predicate Walks(b: Bytes, offs: seq<nat>) {
    && |offs| > 0 && offs[|offs| - 1] == |b|
    && forall k: nat {:trigger WalkAt(b, offs, k)} :: k + 1 < |offs| ==> WalkAt(b, offs, k)
  }

  lemma {:induction false} EndsWalks(b: Bytes, off: nat, n: nat) returns (offs: seq<nat>)
    requires off <= |b| && Ends(b, off, n)
    ensures |offs| == n + 1 && offs[0] == off && Walks(b, offs)
    decreases n
  {
    if n == 0 {
      offs := [off];
    } else {
      PairIs(b, off);
      var rest := EndsWalks(b, off + 2 + Pair(b, off), n - 1);
      offs := [off] + rest;
      forall k: nat | k + 1 < |offs| ensures WalkAt(b, offs, k) {
        assert k > 0 ==> WalkAt(b, rest, k - 1);
      }
    }
  }

  lemma WalksOn(b: Bytes, offs: seq<nat>)
    requires Walks(b, offs) && |offs| > 1
    ensures Walks(b, offs[1..]) && WalkAt(b, offs, 0)
  {
    var rest := offs[1..];
    assert WalkAt(b, offs, 0);
    forall k: nat | k + 1 < |rest| ensures WalkAt(b, rest, k) {
      assert WalkAt(b, offs, k + 1);
    }
  }

  lemma {:induction false} WalksEnds(b: Bytes, offs: seq<nat>)
    requires Walks(b, offs)
    ensures offs[0] <= |b| && Ends(b, offs[0], |offs| - 1)
    decreases |offs|
  {
    if |offs| > 1 {
      WalksOn(b, offs);
      WalksEnds(b, offs[1..]);
      PairIs(b, offs[0]);
    }
  }

  /** A datagram that is not an end of session is accepted if and only if walking its blocks by
      their two length bytes, as often as its two count bytes say, ends where it does. */
  lemma AcceptedByItsBytes(pkt: Bytes)
    ensures Parsed(pkt).Some? && Parsed(pkt).value.0.count != END_OF_SESSION <==>
      |pkt| >= 20 && Pair(pkt, 18) != 0xFFFF && exists offs :: |offs| == Pair(pkt, 18) + 1 && offs[0] == 20 && Walks(pkt, offs)
  {
    if |pkt| >= 20 {
      HeaderBytes(pkt);
      var n := Pair(pkt, 18);
      EndsIsSplit(pkt, 20, n);
      if Ends(pkt, 20, n) {
        var offs := EndsWalks(pkt, 20, n);
      }
      if offs: seq<nat> :| |offs| == n + 1 && offs[0] == 20 && Walks(pkt, offs) {
        WalksEnds(pkt, offs);
      }
    }
  }

  lemma FirstMessage(b: Bytes, off: nat, n: nat, ms: seq<Bytes>)
    requires off <= |b| && n > 0 && Split(b[off..], n) == Some(ms)
    ensures off + 2 <= |b| && off + 2 + Pair(b, off) <= |b| && ms != []
    ensures ms[0] == b[off + 2..off + 2 + Pair(b, off)] && Split(b[off + 2 + Pair(b, off)..], n - 1) == Some(ms[1..])
  {
    SplitFirst(b[off..], n);
    LoadInside(b, off);
    PairIs(b, off);
    assert b[off..][2 + Pair(b, off)..] == b[off + 2 + Pair(b, off)..];
    assert b[off..][2..2 + Pair(b, off)] == b[off + 2..off + 2 + Pair(b, off)];
  }

  /** Message k is what stands between its length and the next block. */
  ghost predicate LiesAt(b: Bytes, offs: seq<nat>, ms: seq<Bytes>, k: nat) {
    k < |ms| && k + 1 < |offs| && offs[k] + 2 <= offs[k + 1] <= |b| && ms[k] == b[offs[k] + 2..offs[k + 1]]
  }

  lemma LiesFurther(b: Bytes, offs: seq<nat>, ms: seq<Bytes>, k: nat)
    requires offs != [] && ms != [] && k > 0 && LiesAt(b, offs[1..], ms[1..], k - 1)
    ensures LiesAt(b, offs, ms, k)
  {
  }

  /** The messages of an accepted datagram are the bytes behind the lengths. */
  lemma {:induction false} MessagesAreTheBytes(b: Bytes, offs: seq<nat>, ms: seq<Bytes>, k: nat)
    requires Walks(b, offs) && offs[0] <= |b| && Split(b[offs[0]..], |offs| - 1) == Some(ms) && k < |offs| - 1
    ensures LiesAt(b, offs, ms, k)
    decreases k
  {
    FirstMessage(b, offs[0], |offs| - 1, ms);
    WalksOn(b, offs);
    if k > 0 {
      MessagesAreTheBytes(b, offs[1..], ms[1..], k - 1);
      LiesFurther(b, offs, ms, k);
    }
  }

  /** Of every accepted datagram with messages: where they lie. */
  lemma MessagesOnTheWire(pkt: Bytes) returns (offs: seq<nat>, ms: seq<Bytes>)
    requires Parsed(pkt).Some? && Parsed(pkt).value.0.count != END_OF_SESSION
    ensures ms == Messages(pkt) && |pkt| >= 20 && |ms| == Pair(pkt, 18)
    ensures |offs| == Pair(pkt, 18) + 1 && offs[0] == 20 && Walks(pkt, offs)
    ensures forall k: nat {:trigger LiesAt(pkt, offs, ms, k)} :: k < |ms| ==> LiesAt(pkt, offs, ms, k)
  {
    var n := Parsed(pkt).value.1;
    HeaderBytes(pkt);
    EndsIsSplit(pkt, 20, n);
    offs := EndsWalks(pkt, 20, n);
    ms := Split(pkt[20..], n).value;
    SplitSound(pkt[20..], n);
    assert n == 0 ==> ms == [];
    forall k: nat | k < |ms| ensures LiesAt(pkt, offs, ms, k) {
      MessagesAreTheBytes(pkt, offs, ms, k);
    }
  }

  /** The header of every packet that is built, byte by byte. */
  lemma PacketBytes(session: Bytes, sequence: U64, ms: seq<Bytes>, i: nat)
    requires |session| == SESSION_LEN && |ms| <= MAX_COUNT && i < 8
    ensures var pkt := Packet(session, sequence, ms);
      && pkt[..10] == session && pkt[10 + i] as nat == sequence / Pow256(7 - i) % 256
      && pkt[18] as nat == |ms| / 256 && pkt[19] as nat == |ms| % 256
  {
    BeByte(sequence, 8, i);
    CountBytes(|ms|);
    var pkt := Packet(session, sequence, ms);
    assert pkt[10..18] == Be(sequence, 8) && pkt[18..20] == Be(|ms|, 2);
    assert pkt[10..18][i] == pkt[10 + i];
  }

  lemma CountBytes(n: U16)
    ensures Be(n, 2)[0] as nat == n / 256 && Be(n, 2)[1] as nat == n % 256
  {
    BeByte(n, 2, 0);
    BeByte(n, 2, 1);
    assert Pow256(1) == 256 && Pow256(0) == 1;
  }

  lemma Weights()
    ensures Pow256(0) == 1 && Pow256(1) == 0x100 && Pow256(2) == 0x1_0000 && Pow256(3) == 0x100_0000
    ensures Pow256(4) == 0x1_0000_0000 && Pow256(5) == 0x100_0000_0000
    ensures Pow256(6) == 0x1_0000_0000_0000 && Pow256(7) == 0x100_0000_0000_0000
  {
    assert Pow256(3) == 0x100_0000 && Pow256(5) == 0x100_0000_0000;
  }

  // ----- session names ----------------------------------------------------------------------

  function Spaces(n: nat): (b: Bytes)
    ensures |b| == n && forall i :: 0 <= i < n ==> b[i] == SPACE
  {
    seq(n, _ => SPACE)
  }

  /** Ten bytes, cut or padded with spaces. */
  function Padded(session: Bytes): (b: Bytes)
    ensures |b| == SESSION_LEN
    ensures forall i {:trigger b[i]} :: 0 <= i < 10 ==> b[i] == if i < |session| then session[i] else SPACE
  {
    if |session| < SESSION_LEN then session + Spaces(SESSION_LEN - |session|) else session[..SESSION_LEN]
  }

  function Trimmed(b: Bytes): Bytes {
    if b != [] && b[|b| - 1] == SPACE then Trimmed(b[..|b| - 1]) else b
  }

  lemma {:induction false} TrimSpaces(b: Bytes, n: nat)
    requires b == [] || b[|b| - 1] != SPACE
    ensures Trimmed(b + Spaces(n)) == b
  {
    if n == 0 {
      assert b + Spaces(0) == b;
    } else {
      TrimSpaces(b, n - 1);
      assert (b + Spaces(n))[..|b| + n - 1] == b + Spaces(n - 1);
    }
  }

  /** A name of at most ten bytes that does not end in a space survives the field. */
  lemma NameSurvives(session: Bytes)
    requires |session| <= SESSION_LEN && (session == [] || session[|session| - 1] != SPACE)
    ensures Trimmed(Padded(session)) == session
  {
    TrimSpaces(session, SESSION_LEN - |session|);
    assert session + Spaces(0) == session;
  }

  // ----- decoding, step by step ------------------------------------------------------------

  /** A validated view over a datagram; an end of session has a count but no blocks. */
  datatype View = View(pkt: Bytes, header: Header, blocks: nat)

  /** Whether n blocks from off end exactly where the datagram does. */
  ghost predicate Ends(pkt: Bytes, off: nat, n: nat)
    requires off <= |pkt|
    decreases n
  {
    if n == 0 then off == |pkt|
    else |pkt| - off >= 2 && |pkt| - off - 2 >= Load16(pkt, off) && Ends(pkt, off + 2 + Load16(pkt, off), n - 1)
  }

  lemma {:induction false} EndsIsSplit(pkt: Bytes, off: nat, n: nat)
    requires off <= |pkt|
    ensures Ends(pkt, off, n) <==> Split(pkt[off..], n).Some?
    decreases n
  {
    if n > 0 && |pkt| - off >= 2 {
      LoadInside(pkt, off);
      var len := Load16(pkt, off);
      if |pkt| - off - 2 >= len {
        assert pkt[off..][2 + len..] == pkt[off + 2 + len..];
        EndsIsSplit(pkt, off + 2 + len, n - 1);
      }
    }
  }

  /** Walk the blocks and reject anything that does not describe itself consistently. */
  method Parse(pkt: Bytes) returns (v: Option<View>)
    ensures v == match Parsed(pkt) case None => None case Some((h, blocks)) => Some(View(pkt, h, blocks))
    ensures v.Some? ==> |pkt| >= 20 && v.value.header.count == Pair(pkt, 18)
  {
    if |pkt| < HEADER_LEN {
      return None;
    }
    var h := DecodeHeader(pkt);
    PairIs(pkt, OFF_COUNT);
    if h.count == END_OF_SESSION {
      return if |pkt| == HEADER_LEN then Some(View(pkt, h, 0)) else None;
    }
    EndsIsSplit(pkt, HEADER_LEN, h.count);
    var off: nat := HEADER_LEN;
    var i: nat := 0;
    while i < h.count
      invariant i <= h.count && off <= |pkt|
      invariant Ends(pkt, off, h.count - i) <==> Ends(pkt, HEADER_LEN, h.count)
    {
      if |pkt| - off < 2 {
        return None;
      }
      var len := Load16(pkt, off);
      off := off + 2;
      if |pkt| - off < len {
        return None;
      }
      off := off + len;
      i := i + 1;
    }
    v := if off == |pkt| then Some(View(pkt, h, h.count)) else None;
  }

  class Iterator {
    const base: Bytes
    var off: nat
    var index: nat
    /** The messages still to come. */
    ghost var rest: seq<Bytes>

    ghost predicate Valid()
      reads this
    {
      off <= |base| && Split(base[off..], |rest|) == Some(rest)
    }

    constructor (v: View)
      requires Parsed(v.pkt) == Some((v.header, v.blocks))
      ensures Valid() && index == 0 && rest == Messages(v.pkt) && |rest| == v.blocks && base == v.pkt
    {
      base := v.pkt;
      off := if v.blocks == 0 then |v.pkt| else HEADER_LEN;
      index := 0;
      rest := Messages(v.pkt);
      new;
      if v.blocks > 0 {
        SplitSound(v.pkt[HEADER_LEN..], v.blocks);
      }
    }

    /** The message under the iterator, read inside the datagram. */
    method Current() returns (m: Bytes)
      requires Valid() && rest != []
      ensures m == rest[0]
    {
      SplitFirst(base[off..], |rest|);
      LoadInside(base, off);
      var len := Load16(base, off);
      m := base[off + 2..off + 2 + len];
      assert m == base[off..][2..2 + len];
    }

    method Advance()
      requires Valid() && rest != []
      modifies this
      ensures Valid() && rest == old(rest)[1..] && index == old(index) + 1
    {
      SplitFirst(base[off..], |rest|);
      LoadInside(base, off);
      var len := Load16(base, off);
      assert base[off..][2 + len..] == base[off + 2 + len..];
      off := off + 2 + len;
      index := index + 1;
      rest := rest[1..];
    }
  }

  /** A length read at an offset is the length the bytes from there begin with. */
  lemma LoadInside(b: Bytes, off: nat)
    requires off + 2 <= |b|
    ensures Load16(b, off) == Load16(b[off..], 0)
  {
    assert b[off..off + 2] == b[off..][0..2];
  }

  /** Iterate from begin to end; message i carries the packet's sequence plus i. */
  method Deliver(v: View) returns (out: seq<(nat, Bytes)>)
    requires Parsed(v.pkt) == Some((v.header, v.blocks))
    ensures |out| == |Messages(v.pkt)|
    ensures forall i :: 0 <= i < |out| ==> out[i] == (v.header.sequence + i, Messages(v.pkt)[i])
  {
    out := [];
    var it := new Iterator(v);
    while it.index != v.blocks
      invariant it.Valid() && it.index <= v.blocks && |out| == it.index && |Messages(v.pkt)| == v.blocks
      invariant it.rest == Messages(v.pkt)[it.index..]
      invariant forall i :: 0 <= i < |out| ==> out[i] == (v.header.sequence + i, Messages(v.pkt)[i])
      decreases v.blocks - it.index
    {
      var m := it.Current();
      out := out + [(v.header.sequence + it.index, m)];
      it.Advance();
    }
  }

  // ----- encoding, step by step -------------------------------------------------------------

  /** Store a big-endian field. */
  method StoreBe(buf: array<byte>, at: nat, v: nat, width: nat)
    requires at + width <= buf.Length
    modifies buf
    ensures buf[..] == old(buf[..at]) + Be(v, width) + old(buf[at + width..])
  {
    CopyBytes(buf, at, Be(v, width));
    assert buf[..] == buf[..at] + buf[at..at + width] + buf[at + width..];
    assert forall j :: 0 <= j < at ==> buf[..][j] == old(buf[..])[j];
    assert forall j :: at + width <= j < buf.Length ==> buf[..][j] == old(buf[..])[j];
    assert buf[..at] == old(buf[..at]) && buf[at + width..] == old(buf[at + width..]);
    assert buf[..][at..at + width] == buf[at..at + width];
  }

  /** The twenty-byte header, or nothing when the buffer cannot hold one. */
  method WriteHeader(buf: array<byte>, session: Bytes, sequence: U64, count: U16) returns (n: nat)
    modifies buf
    ensures n == if buf.Length < HEADER_LEN then 0 else HEADER_LEN
    ensures n == 0 ==> buf[..] == old(buf[..])
    ensures n > 0 ==> buf[..] == EncodeHeader(Header(Padded(session), sequence, count)) + old(buf[HEADER_LEN..])
    ensures n > 0 ==> buf[18] as nat == count / 256 && buf[19] as nat == count % 256
    ensures n > 0 ==> forall i {:trigger Pow256(7 - i)} :: 0 <= i < 8 ==> buf[10 + i] as nat == sequence / Pow256(7 - i) % 256
  {
    if buf.Length < HEADER_LEN {
      return 0;
    }
    ghost var was := buf[..];
    var name := Padded(session);
    CopyBytes(buf, 0, name);
    assert buf[..] == name + was[SESSION_LEN..] by {
      assert buf[..][0..SESSION_LEN] == name;
    }
    StoreBe(buf, OFF_SEQUENCE, sequence, 8);
    assert buf[..] == name + Be(sequence, 8) + was[OFF_COUNT..];
    StoreBe(buf, OFF_COUNT, count, 2);
    assert buf[..] == name + Be(sequence, 8) + Be(count, 2) + was[HEADER_LEN..];
    n := HEADER_LEN;
    CountBytes(count);
    assert buf[18] == buf[..][18] == Be(count, 2)[0] && buf[19] == buf[..][19] == Be(count, 2)[1];
    forall i {:trigger Pow256(7 - i)} | 0 <= i < 8 ensures buf[10 + i] as nat == sequence / Pow256(7 - i) % 256 {
      BeByte(sequence, 8, i);
      assert buf[10 + i] == buf[..][10 + i] == Be(sequence, 8)[i];
    }
  }

  class PacketBuilder {
    const buf: array<byte>
    const session: Bytes
    var size: nat
    var count: nat
    /** What was appended since the last reset, and the sequence it starts at. */
    ghost var appended: seq<Bytes>
    ghost var first: U64

    ghost predicate Valid()
      reads this, buf
    {
      && |session| == SESSION_LEN && count == |appended| <= MAX_COUNT && AllFit(appended)
      && (size == 0 <==> buf.Length < HEADER_LEN)
      && (size == 0 ==> appended == [])
      && (size > 0 ==> HEADER_LEN <= size <= buf.Length && Written())
    }

    /** Everything but the two count bytes, which are stamped when the packet is finished. */
    ghost predicate Written()
      reads this, buf
      requires HEADER_LEN <= size <= buf.Length
    {
      buf[..OFF_COUNT] == session + Be(first, 8) && buf[HEADER_LEN..size] == Blocks(appended)
    }

    constructor (buf: array<byte>, session: Bytes)
      modifies buf
      ensures Valid() && this.buf == buf && this.session == Padded(session) && appended == [] && first == 0
    {
      this.buf := buf;
      this.session := Padded(session);
      size, count, appended, first := 0, 0, [], 0;
      new;
      Reset(0);
    }

    /** Start a new packet; the header is rewritten in full. */
    method Reset(sequence: U64)
      requires |session| == SESSION_LEN
      modifies this, buf
      ensures Valid() && appended == [] && first == sequence
    {
      size := WriteHeader(buf, session, sequence, 0);
      count, appended, first := 0, [], sequence;
      assert Padded(session) == session;
      if size > 0 {
        assert buf[..OFF_COUNT] == buf[..][..OFF_COUNT] == session + Be(sequence, 8);
        assert buf[HEADER_LEN..size] == [];
      }
    }

    /** Append one block, or leave the packet exactly as it was. */
    method TryAppend(m: Bytes) returns (ok: bool)
      requires Valid()
      modifies this`size, this`count, this`appended, buf
      ensures Valid()
      ensures ok <==> old(size) > 0 && old(count) < MAX_COUNT && Fits(m) && 2 + |m| <= buf.Length - old(size)
      ensures appended == if ok then old(appended) + [m] else old(appended)
      ensures !ok ==> size == old(size) && buf[..] == old(buf[..])
    {
      if size == 0 || count >= MAX_COUNT || |m| > 0xFFFF || buf.Length - size < 2 + |m| {
        return false;
      }
      ghost var was := buf[..size];
      AppendBlock(m);
      BlocksAppend(appended, m);
      ghost var now := buf[..size + 2 + |m|];
      assert buf[..OFF_COUNT] == now[..OFF_COUNT] == was[..OFF_COUNT];
      assert buf[HEADER_LEN..size + 2 + |m|] == now[HEADER_LEN..] == was[HEADER_LEN..] + Block(m);
      size := size + 2 + |m|;
      count := count + 1;
      appended := appended + [m];
      ok := true;
    }

    method AppendBlock(m: Bytes)
      requires size + 2 + |m| <= buf.Length
      modifies buf
      ensures buf[..size + 2 + |m|] == old(buf[..size]) + Block(m)
    {
      StoreBe(buf, size, |m|, 2);
      ghost var stored := buf[..];
      assert stored[..size + 2] == old(buf[..size]) + Be(|m|, 2);
      CopyBytes(buf, size + 2, m);
      assert buf[..size + 2] == stored[..size + 2] by {
        assert forall j :: 0 <= j < size + 2 ==> buf[..][j] == stored[j];
      }
      assert buf[size + 2..size + 2 + |m|] == buf[..][size + 2..size + 2 + |m|];
      assert buf[..size + 2 + |m|] == buf[..size + 2] + buf[size + 2..size + 2 + |m|];
    }

    /** Stamp the count and hand back the packet, which parses to what was appended.  More can
        be appended afterwards, and the packet finished again. */
    method Finish() returns (pkt: Bytes)
      requires Valid()
      modifies buf
      ensures Valid()
      ensures pkt == if size == 0 then [] else Packet(session, first, appended)
      ensures size > 0 ==> Parsed(pkt).Some? && Messages(pkt) == appended
      ensures size > 0 ==> pkt[18] as nat == |appended| / 256 && pkt[19] as nat == |appended| % 256
      ensures pkt == [] || pkt == buf[..size]
    {
      if size == 0 {
        return [];
      }
      ghost var was := buf[..];
      StoreBe(buf, OFF_COUNT, count, 2);
      ghost var now := buf[..];
      assert now == was[..OFF_COUNT] + Be(count, 2) + was[HEADER_LEN..];
      assert buf[..OFF_COUNT] == now[..OFF_COUNT] == was[..OFF_COUNT];
      assert buf[HEADER_LEN..size] == now[HEADER_LEN..size] == was[HEADER_LEN..size];
      pkt := buf[..size];
      assert pkt == now[..OFF_COUNT] + now[OFF_COUNT..HEADER_LEN] + now[HEADER_LEN..size];
      ParseOfPacket(session, first, appended);
      PacketBytes(session, first, appended, 0);
    }
  }
}
