/** Streams that end too early and are accepted nevertheless, because the zero bits made up behind them decode. */
module InflateTruncated {
  import opened Bits
  import opened Common
  import opened HuffmanCode
  import opened Deflate
  import opened BitSupply
  import opened BlockDecoding
  import opened InflateSpec
  import opened InflateUnique
  import opened DecodingPath
  import opened Inflate

  /** Under the fixed codes no symbol has fewer than seven bits, and end-of-block is the first of seven. */
  lemma {:induction false} NoShortCodes(n: nat, s: nat)
    requires n <= 288 && s < 7
    ensures Count(FixedLengths(), n, s) == 0
  {
    if n > 0 {
      NoShortCodes(n - 1, s);
    }
  }

  lemma {:induction false} NoSevenBefore(n: nat)
    requires n <= 256
    ensures Count(FixedLengths(), n, 7) == 0
  {
    if n > 0 {
      NoSevenBefore(n - 1);
    }
  }

  lemma {:induction false} FirstCodeIsZero(s: nat)
    requires 1 <= s <= 7
    ensures FirstCode(FixedLengths(), s) == 0
  {
    if s > 1 {
      FirstCodeIsZero(s - 1);
      NoShortCodes(288, s - 1);
    }
  }

  lemma {:induction false} ZeroBits(n: nat)
    ensures Rev(0, n) == 0 && Drop(0, n) == 0
  {
    DropZero(n);
    if n > 0 {
      ZeroBits(n - 1);
    }
  }

  /** Zero bits spell the end-of-block code. */
  lemma ZerosEndBlock()
    ensures Matches(FixedLengths(), 0, END_OF_BLOCK) && FixedLengths()[END_OF_BLOCK] == 7
  {
    NoSevenBefore(256);
    FirstCodeIsZero(7);
    ZeroBits(7);
  }

  /** One last byte fills the buffer with itself and three bytes of zeros. */
  lemma LastByteRefills(size: nat, r: Supply)
    requires r.pos + 1 == size && r.bits == 0
    ensures Refilled(size, r) == Supply(size, 32, r.pad + 24, r.hit)
  {
    var r1 := OneByte(size, r);
    var r2 := OneByte(size, r1);
    var r3 := OneByte(size, r2);
    assert Refilled(size, r3) == Refilled(size, OneByte(size, r3));
    assert Refilled(size, r2) == Refilled(size, r3);
    assert Refilled(size, r1) == Refilled(size, r2);
  }

  lemma HeaderFromLastByte(size: nat, r: Supply)
    requires r.pos + 1 == size && r.bits == 0
    ensures PulledAll(size, r, HeaderPulls()) == Some(Supply(size, 29, r.pad + 24, r.hit))
  {
    LastByteRefills(size, r);
    HeaderPulled(size, r);
  }

  lemma EmptyBlockLasts(s: seq<byte>, u: nat, o: seq<byte>, r: Supply) returns (q: Place)
    requires r.bits == 29 && Drop(StreamOf(s), u) == 0
    ensures CompressedTo(s, FixedLengths(), FixedDistances(), Place(u, o, r), q) && q.u == u + 7 && q.o == o
  {
    var ll, dl := FixedLengths(), FixedDistances();
    ZerosEndBlock();
    OnePull(|s|, r, Sym(7));
    assert ClosedPulls(ll, dl, []) == [Sym(7)];
    q := Place(u + 7, o, r.(bits := 22));
    hide FixedLengths, FixedDistances, Drop, StreamOf, PulledAll, Matches, ClosedPulls;
    assert CompressedVia(s, ll, dl, Place(u, o, r), q, []);
  }

  /** When three is all that is left, a final block under the fixed codes begins in it and ends two bits behind it. */
  lemma LoneThreeIsDue(s: seq<byte>, p: Place) returns (q: Place)
    requires Drop(StreamOf(s), p.u) == 3 && p.r.pos + 1 == |s| && p.r.bits == 0
    ensures BlockTo(s, p, q, true) && q.u == p.u + 10 && q.o == p.o
  {
    hide Drop, Low, CompressedTo, PulledAll, StreamOf;
    ThreeIsHeader();
    DropDrop(StreamOf(s), p.u, 3);
    HeaderFromLastByte(|s|, p.r);
    q := EmptyBlockLasts(s, p.u + 3, p.o, Supply(|s|, 29, p.r.pad + 24, p.r.hit));
  }

  lemma ThreeIsHeader()
    ensures Low(3, 1) == 1 && Low(Drop(3, 1), 2) == 1 && Drop(3, 3) == 0
  {
    LowConst(3);
    LowConst(1);
  }

  /** So decoding such a stream succeeds and adds nothing. */
  lemma LoneThreeStream(s: seq<byte>, p: Place, room: nat) returns (qs: seq<Place>)
    requires Drop(StreamOf(s), p.u) == 3 && p.r.pos + 1 == |s| && p.r.bits == 0 && |p.o| <= room
    ensures CanInflate(s, p, room) && StreamTo(s, p, qs) && At(p, qs).u == p.u + 10
  {
    hide BlockTo, Drop, StreamOf;
    var q := LoneThreeIsDue(s, p);
    qs := [q];
    assert [q][..0] == [];
    assert StreamTo(s, p, qs);
  }

  lemma StreamEnds(s: seq<byte>, p: Place, a: seq<Place>, b: seq<Place>)
    requires StreamTo(s, p, a) && StreamTo(s, p, b)
    ensures At(p, a).u == At(p, b).u && At(p, a).o == At(p, b).o
  {
    hide StreamTo, Inflates;
    StreamInflates(s, p, a);
    StreamInflates(s, p, b);
    InflatesUnique(s, p.u, p.o, At(p, a).o, SpansOf(p, a), At(p, b).o, SpansOf(p, b));
  }

  lemma ThreeIsLeft(s: seq<byte>)
    requires s == [0x78, 0x9C, 3]
    ensures Drop(StreamOf(s), 16) == 3
  {
    DropBytes(s, 2);
    assert Tail(s, 2) == [3] && StreamOf([3][1..]) == 0 && StreamOf([3]) == 3;
    hide Drop;
  }

  lemma ThreeIsAll()
    ensures Drop(StreamOf([3]), 0) == 3
  {
    assert StreamOf([3][1..]) == 0 && StreamOf([3]) == 3;
  }

  /** The single byte 3 inflates to nothing, although its block ends behind it. */
  method AcceptsTruncated() returns (ok: bool, z: ZBuf)
    ensures ok && z.input == [3] && z.used == 10 && z.used > 8 * |z.input|
  {
    hide CanInflate, StreamTo, StreamOf, Drop, Inflates;
    z := new ZBuf([3], 1, true);
    ThreeIsAll();
    ghost var p := Opening(false, []);
    ghost var qs := LoneThreeStream([3], p, z.Room());
    ghost var path;
    ok, path := z.ParseZlib(false);
    StreamEnds([3], p, path, qs);
  }

  lemma GoodHeader()
    ensures HeaderOk([0x78, 0x9C, 3])
  {
  }

  /** So does the zlib stream 78 9C 03. */
  method AcceptsTruncatedZlib() returns (ok: bool, z: ZBuf)
    ensures ok && z.input == [0x78, 0x9C, 3] && z.used == 26 && z.used > 8 * |z.input|
  {
    hide CanInflate, StreamTo, StreamOf, Drop, Inflates, HeaderOk;
    z := new ZBuf([0x78, 0x9C, 3], 1, true);
    ThreeIsLeft(z.input);
    GoodHeader();
    ghost var p := Opening(true, []);
    ghost var qs := LoneThreeStream(z.input, p, z.Room());
    ghost var path;
    ok, path := z.ParseZlib(true);
    StreamEnds(z.input, p, path, qs);
  }
}
