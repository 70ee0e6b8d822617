/** What a zlib stream means: its blocks, and the output a chain of blocks stands for. */
module InflateSpec {
  import opened Bits
  import opened HuffmanCode
  import opened Deflate
  import opened CodeLengths

  /** Bytes as a bit stream, least significant bit first. */
  function StreamOf(s: seq<byte>): nat {
    if s == [] then 0 else s[0] + 256 * StreamOf(s[1..])
  }

  /** Byte i of the zero-extended input. */
  function ByteAt(s: seq<byte>, i: nat): byte {
    if i < |s| then s[i] else 0
  }

  function Tail(s: seq<byte>, i: nat): seq<byte> {
    if i < |s| then s[i..] else []
  }

  /** Dropping whole bytes of the stream drops bytes of the input. */
  lemma TailStream(s: seq<byte>, i: nat)
    ensures StreamOf(Tail(s, i)) == ByteAt(s, i) + 256 * StreamOf(Tail(s, i + 1))
  {
    if i < |s| {
      assert s[i..][1..] == Tail(s, i + 1);
    }
  }

  lemma {:induction false} DropBytes(s: seq<byte>, i: nat)
    ensures Drop(StreamOf(s), 8 * i) == StreamOf(Tail(s, i))
    ensures StreamOf(Tail(s, i)) == ByteAt(s, i) + 256 * StreamOf(Tail(s, i + 1))
  {
    TailStream(s, i);
    if i == 0 {
      assert Tail(s, 0) == s;
    } else {
      hide Drop, StreamOf, Tail, ByteAt;
      DropBytes(s, i - 1);
      DropDrop(StreamOf(s), 8 * (i - 1), 8);
      ByteOff(ByteAt(s, i - 1), StreamOf(Tail(s, i)));
    }
  }

  lemma ByteOff(b: byte, rest: nat)
    ensures Drop(b + 256 * rest, 8) == rest && Low(b + 256 * rest, 8) == b
  {
    Pow2Values();
    ShlEight(rest);
    JoinSplit(b, 8, rest);
  }

  function Le16(low: int, high: int): int {
    high * 256 + low
  }

  /** The byte at which bit u's byte boundary lies. */
  function ByteIndex(u: nat): nat {
    (u + 7) / 8
  }

  /** A stored block's header sits at byte h and declares len bytes of data, all within the input. */
  ghost predicate StoredAt(s: seq<byte>, h: nat, len: nat) {
    && h + 4 + len <= |s|
    && len == Le16(s[h], s[h + 1]) && Le16(s[h + 2], s[h + 3]) == 0xFFFF - len
  }

  function FixedLength(i: nat): nat {
    if i < 144 then 8 else if i < 256 then 9 else if i < 280 then 7 else 8
  }

  /** The fixed codes of section 3.2.6. */
  function FixedLengths(): (lens: seq<nat>)
    ensures |lens| == 288 && Lengths(lens)
  {
    seq(288, i requires 0 <= i => FixedLength(i))
  }

  function FixedDistances(): (lens: seq<nat>)
    ensures |lens| == 32 && Lengths(lens)
  {
    seq(32, _ => 5)
  }

  /** A block from bit `from` up to bit `to`, and the output before and after it. */
  datatype Span = Span(from: nat, to: nat, before: seq<byte>, after: seq<byte>)

  ghost predicate CompressedBy(s: seq<byte>, o: seq<byte>, out: seq<byte>, ll: seq<nat>, dl: seq<nat>,
                               u: nat, to: nat, toks: seq<Token>)
  {
    && BlockIs(ll, dl, Drop(StreamOf(s), u), toks) && Legal(o, toks) && out == Expand(o, toks)
    && to == u + BlockBits(ll, dl, toks) + ll[END_OF_BLOCK]
  }

  ghost predicate CompressedSpan(s: seq<byte>, o: seq<byte>, out: seq<byte>, ll: seq<nat>, dl: seq<nat>,
                                 u: nat, to: nat) {
    exists toks :: CompressedBy(s, o, out, ll, dl, u, to, toks)
  }

  ghost predicate DynamicSpan(s: seq<byte>, o: seq<byte>, out: seq<byte>, u: nat, to: nat) {
    exists ll, dl, bits: nat :: DescribedBy(s, o, out, u, to, ll, dl, bits)
  }

  ghost predicate DescribedBy(s: seq<byte>, o: seq<byte>, out: seq<byte>, u: nat, to: nat,
                              ll: seq<nat>, dl: seq<nat>, bits: nat) {
    Describes(Drop(StreamOf(s), u), ll, dl, bits) && CompressedSpan(s, o, out, ll, dl, u + bits, to)
  }

  function HeaderWord(high: int, low: int): int {
    high * 256 + low
  }

  /** Two header bytes with more behind them: check value, no preset dictionary, method 8 (RFC 1950). */
  predicate HeaderOk(s: seq<byte>) {
    |s| > 2 && HeaderWord(s[0], s[1]) % 31 == 0 && s[1] / 32 % 2 == 0 && s[0] % 16 == 8
  }

  /** Consecutive blocks, none of them final, from bit u with output o up to bit `to` with output out. */
  ghost predicate Chain(s: seq<byte>, u: nat, o: seq<byte>, to: nat, out: seq<byte>, spans: seq<Span>) {
    if spans == [] then to == u && out == o
    else
      var b := spans[|spans| - 1];
      && b.to == to && b.after == out && IsBlock(s, b, false)
      && Chain(s, u, o, b.from, b.before, spans[..|spans| - 1])
  }

  /** Such a chain followed by one final block. */
  ghost predicate Inflates(s: seq<byte>, u: nat, o: seq<byte>, out: seq<byte>, spans: seq<Span>) {
    spans != [] &&
    var b := spans[|spans| - 1];
    && b.after == out && IsBlock(s, b, true)
    && Chain(s, u, o, b.from, b.before, spans[..|spans| - 1])
  }

  /** Every block uses up a nonzero part of the stream, so decoding ends even past the end of the input. */
  lemma BlockOf(s: seq<byte>, from: nat, to: nat, o: seq<byte>, out: seq<byte>, v: nat, u: nat, kind: nat, final: bool)
    requires v == Drop(StreamOf(s), from) && u == from + 3
    requires final == (Low(v, 1) == 1) && kind == Low(Drop(v, 1), 2) && BodyIs(s, kind, u, to, o, out)
    ensures IsBlock(s, Span(from, to, o, out), final) && Drop(StreamOf(s), to) < v
  {
    hide CompressedSpan, DynamicSpan, Drop, StreamOf;
    BodyForward(s, kind, u, to, o, out);
    if v == 0 {
      LowConst(0);
      NoStoredSpan(s, Span(from, to, o, out));
    }
    LaterLess(StreamOf(s), from, to);
  }

  lemma NoStoredSpan(s: seq<byte>, b: Span)
    requires StoredSpan(s, b.before, b.after, b.from + 3, b.to)
    ensures Drop(StreamOf(s), b.from) != 0
  {
    if Drop(StreamOf(s), b.from) == 0 {
      NothingStored(s, b.from, ByteIndex(b.from + 3));
    }
  }

  lemma LaterLess(v: nat, from: nat, to: nat)
    requires from < to
    ensures Drop(v, from) > 0 ==> Drop(v, to) < Drop(v, from)
  {
    DropDrop(v, from, to - from);
    if Drop(v, from) > 0 {
      DropLess(Drop(v, from), to - from);
    }
  }

  lemma BodyForward(s: seq<byte>, kind: nat, u: nat, to: nat, o: seq<byte>, out: seq<byte>)
    requires BodyIs(s, kind, u, to, o, out)
    ensures to >= u
  {
  }

  lemma ZeroByte(s: seq<byte>, u: nat, i: nat)
    requires Drop(StreamOf(s), u) == 0 && u <= 8 * i
    ensures ByteAt(s, i) == 0
  {
    DropBytes(s, i);
    DropDrop(StreamOf(s), u, 8 * i - u);
    DropZero(8 * i - u);
  }

  lemma NothingStored(s: seq<byte>, u: nat, h: nat)
    requires Drop(StreamOf(s), u) == 0 && u <= 8 * h
    ensures forall len :: !StoredAt(s, h, len)
  {
    ZeroByte(s, u, h);
    ZeroByte(s, u, h + 1);
    ZeroByte(s, u, h + 2);
    ZeroByte(s, u, h + 3);
  }

  ghost predicate StoredSpan(s: seq<byte>, o: seq<byte>, out: seq<byte>, u: nat, to: nat) {
    var h := ByteIndex(u);
    exists len :: StoredAt(s, h, len) && to == 8 * (h + 4 + len) && out == o + s[h + 4..h + 4 + len]
  }

  /** Section 3.2.3: the final bit, the two-bit block type, and a body of that type. */
  ghost predicate IsBlock(s: seq<byte>, b: Span, final: bool) {
    var v := Drop(StreamOf(s), b.from);
    final == (Low(v, 1) == 1) && BodyIs(s, Low(Drop(v, 1), 2), b.from + 3, b.to, b.before, b.after)
  }

  ghost predicate BodyIs(s: seq<byte>, kind: nat, u: nat, to: nat, o: seq<byte>, out: seq<byte>) {
    match kind
    case 0 => StoredSpan(s, o, out, u, to)
    case 1 => CompressedSpan(s, o, out, FixedLengths(), FixedDistances(), u, to)
    case 2 => DynamicSpan(s, o, out, u, to)
    case _ => false
  }

  /** Block k of a chain starts where the one before it ended. */
  ghost predicate Starts(spans: seq<Span>, k: nat, u: nat, o: seq<byte>)
    requires k < |spans|
  {
    if k == 0 then spans[0].from == u && spans[0].before == o
    else spans[k].from == spans[k - 1].to && spans[k].before == spans[k - 1].after
  }

  lemma {:induction false} ChainParts(s: seq<byte>, u: nat, o: seq<byte>, to: nat, out: seq<byte>,
                                      spans: seq<Span>, k: nat)
    requires Chain(s, u, o, to, out, spans) && k < |spans|
    ensures IsBlock(s, spans[k], false) && Starts(spans, k, u, o)
    decreases |spans|
  {
    hide IsBlock;
    var init, b := spans[..|spans| - 1], spans[|spans| - 1];
    if k < |init| {
      ChainParts(s, u, o, b.from, b.before, init, k);
    }
  }

  lemma StreamParts(s: seq<byte>, u: nat, o: seq<byte>, out: seq<byte>, spans: seq<Span>, k: nat)
    requires Inflates(s, u, o, out, spans) && k < |spans|
    ensures IsBlock(s, spans[k], k == |spans| - 1) && Starts(spans, k, u, o)
  {
    hide IsBlock;
    var init, b := spans[..|spans| - 1], spans[|spans| - 1];
    if k < |init| {
      ChainParts(s, u, o, b.from, b.before, init, k);
    } else if k > 0 {
      assert init[|init| - 1] == spans[k - 1];
    }
  }

  lemma {:induction false} ExpandOnlyGrows(o: seq<byte>, toks: seq<Token>)
    requires Legal(o, toks)
    ensures |Expand(o, toks)| >= |o|
  {
    ExpandGrows(o, toks, 0);
    assert toks[..0] == [];
  }

  lemma BlockGrows(s: seq<byte>, b: Span, final: bool)
    requires IsBlock(s, b, final)
    ensures b.from < b.to && |b.before| <= |b.after|
  {
    hide Legal, Expand, BlockIs, Drop, StreamOf, FixedLengths, FixedDistances, Describes;
    var kind := Low(Drop(Drop(StreamOf(s), b.from), 1), 2);
    if kind == 1 {
      SpanGrows(s, b.before, b.after, FixedLengths(), FixedDistances(), b.from + 3, b.to);
    } else if kind == 2 {
      var ll, dl, bits: nat :| Describes(Drop(StreamOf(s), b.from + 3), ll, dl, bits)
                               && CompressedSpan(s, b.before, b.after, ll, dl, b.from + 3 + bits, b.to);
      SpanGrows(s, b.before, b.after, ll, dl, b.from + 3 + bits, b.to);
    }
  }

  lemma SpanGrows(s: seq<byte>, o: seq<byte>, out: seq<byte>, ll: seq<nat>, dl: seq<nat>, u: nat, to: nat)
    requires CompressedSpan(s, o, out, ll, dl, u, to)
    ensures u <= to && |o| <= |out|
  {
    var toks :| CompressedBy(s, o, out, ll, dl, u, to, toks);
    ExpandOnlyGrows(o, toks);
  }

  /** Every block of a stream ends within the stream's own end and with no more output. */
  lemma {:induction false} BlockWithin(s: seq<byte>, u: nat, o: seq<byte>, out: seq<byte>, spans: seq<Span>, k: nat)
    requires Inflates(s, u, o, out, spans) && k < |spans|
    ensures spans[k].to <= spans[|spans| - 1].to && |spans[k].after| <= |out|
    decreases |spans| - k
  {
    hide IsBlock, Chain;
    if k + 1 < |spans| {
      BlockWithin(s, u, o, out, spans, k + 1);
      StreamParts(s, u, o, out, spans, k + 1);
      BlockGrows(s, spans[k + 1], k + 1 == |spans| - 1);
    }
  }

  lemma {:induction false} FixedKraft(n: nat)
    requires n <= 288
    ensures Kraft(FixedLengths(), n) ==
            if n <= 144 then 256 * n
            else if n <= 256 then 36864 + 128 * (n - 144)
            else if n <= 280 then 51200 + 512 * (n - 256)
            else 63488 + 256 * (n - 280)
  {
    if n > 0 {
      FixedKraft(n - 1);
      FixedPowers();
    }
  }

  lemma FixedPowers()
    ensures Pow2(7) == 128 && Pow2(8) == 256 && Pow2(9) == 512 && Pow2(11) == 2048 && Pow2(16) == 65536
  {
    Pow2Values();
    assert Pow2(11) == 2 * Pow2(10) && Pow2(10) == 2 * Pow2(9);
  }

  lemma {:induction false} FixedDistanceKraft(n: nat)
    requires n <= 32
    ensures Kraft(FixedDistances(), n) == 2048 * n
  {
    if n > 0 {
      FixedDistanceKraft(n - 1);
      FixedPowers();
    }
  }

  /** The builder accepts the fixed codes, which fill the code space exactly. */
  lemma FixedCodesAccepted()
    ensures Accepted(FixedLengths()) && Accepted(FixedDistances())
    ensures Kraft(FixedLengths(), 288) == Pow2(16) == Kraft(FixedDistances(), 32)
  {
    hide Accepted, Kraft, FixedLengths, FixedDistances;
    FixedKraft(288);
    FixedDistanceKraft(32);
    FixedPowers();
    AcceptedIsKraft(FixedLengths());
    AcceptedIsKraft(FixedDistances());
  }
}
