/**
 The compressed-block format of sections 3.2.3 and 3.2.5 of RFC 1951.  The unread stream is a
 number whose bit 0 is the next bit (section 3.1.1); bits past the end of the input are zero.
 */
module Deflate {
  import opened Bits
  import opened HuffmanCode

  const LENGTH_BASE: seq<nat> :=
    [3, 4, 5, 6, 7, 8, 9, 10, 11, 13, 15, 17, 19, 23, 27, 31,
     35, 43, 51, 59, 67, 83, 99, 115, 131, 163, 195, 227, 258]
  const LENGTH_EXTRA: seq<nat> :=
    [0, 0, 0, 0, 0, 0, 0, 0, 1, 1, 1, 1, 2, 2, 2, 2, 3, 3, 3, 3, 4, 4, 4, 4, 5, 5, 5, 5, 0]
  const DIST_BASE: seq<nat> :=
    [1, 2, 3, 4, 5, 7, 9, 13, 17, 25, 33, 49, 65, 97, 129, 193, 257, 385, 513, 769, 1025, 1537,
     2049, 3073, 4097, 6145, 8193, 12289, 16385, 24577]
  const DIST_EXTRA: seq<nat> :=
    [0, 0, 0, 0, 1, 1, 2, 2, 3, 3, 4, 4, 5, 5, 6, 6, 7, 7, 8, 8, 9, 9, 10, 10, 11, 11, 12, 12, 13, 13]

  const END_OF_BLOCK: nat := 256

  function LengthBase(c: nat): (r: nat)
    requires c < 29
    ensures 3 <= r <= 258
  {
    assert |LENGTH_BASE| == 29;
    LENGTH_BASE[c]
  }

  function LengthExtra(c: nat): (r: nat)
    requires c < 29
    ensures r <= 5
  {
    assert |LENGTH_EXTRA| == 29;
    LENGTH_EXTRA[c]
  }

  function DistBase(c: nat): (r: nat)
    requires c < 30
    ensures 1 <= r <= 24577
  {
    assert |DIST_BASE| == 30;
    DIST_BASE[c]
  }

  function DistExtra(c: nat): (r: nat)
    requires c < 30
    ensures r <= 13
  {
    assert |DIST_EXTRA| == 30;
    DIST_EXTRA[c]
  }

  /** The length ranges tile 3..258, and 258 also has a code of its own. */
  lemma LengthRangesTile(c: nat)
    ensures c < 27 ==> LengthBase(c) + Pow2(LengthExtra(c)) == LengthBase(c + 1)
    ensures LengthBase(0) == 3 && LengthBase(27) + Pow2(LengthExtra(27)) - 1 == LengthBase(28) == 258
  {
  }

  lemma DistPowers()
    ensures Pow2(0) == 1 && Pow2(1) == 2 && Pow2(2) == 4 && Pow2(3) == 8 && Pow2(4) == 16 && Pow2(5) == 32
    ensures Pow2(6) == 64 && Pow2(7) == 128 && Pow2(8) == 256 && Pow2(9) == 512
    ensures Pow2(10) == 1024 && Pow2(11) == 2048 && Pow2(12) == 4096 && Pow2(13) == 8192
  {
  }

  /** The distance ranges tile 1..32768. */
  lemma DistRangesTile(c: nat)
    ensures c < 29 ==> DistBase(c) + Pow2(DistExtra(c)) == DistBase(c + 1)
    ensures DistBase(0) == 1 && DistBase(29) + Pow2(DistExtra(29)) == 32769
  {
    hide Pow2;
    DistPowers();
  }

  /** A literal byte, or a copy given by its two symbols and the values of their extra bits. */
  datatype Token =
    | Literal(b: byte)
    | Copy(lengthCode: nat, lengthBits: nat, distCode: nat, distBits: nat)
  {
    ghost predicate Valid() {
      Copy? ==>
        && lengthCode < 29 && lengthBits < Pow2(LengthExtra(lengthCode))
        && distCode < 30 && distBits < Pow2(DistExtra(distCode))
    }

    function Length(): (n: nat)
      requires Copy? && lengthCode < 29
      ensures n >= 3
    {
      LengthBase(lengthCode) + lengthBits
    }

    function Dist(): (d: nat)
      requires Copy? && distCode < 30
      ensures d >= 1
    {
      DistBase(distCode) + distBits
    }
  }

  /** The next token of the stream is t. */
  ghost predicate Reads(ll: seq<nat>, dl: seq<nat>, v: nat, t: Token) {
    match t
    case Literal(b) => Matches(ll, v, b)
    case Copy(lc, lb, dc, db) =>
      && t.Valid() && Matches(ll, v, 257 + lc)
      && var v1 := Drop(v, ll[257 + lc]);
      && Low(v1, LengthExtra(lc)) == lb
      && var v2 := Drop(v1, LengthExtra(lc));
      && Matches(dl, v2, dc)
      && Low(Drop(v2, dl[dc]), DistExtra(dc)) == db
  }

  ghost function TokenBits(ll: seq<nat>, dl: seq<nat>, t: Token): nat
    requires Codable(ll, dl, t)
  {
    match t
    case Literal(b) => ll[b]
    case Copy(lc, _, dc, _) => ll[257 + lc] + LengthExtra(lc) + dl[dc] + DistExtra(dc)
  }

  /** Both codes have a code word for the token's symbols. */
  ghost predicate Codable(ll: seq<nat>, dl: seq<nat>, t: Token) {
    match t
    case Literal(b) => b < |ll| && ll[b] > 0
    case Copy(lc, _, dc, _) => t.Valid() && 257 + lc < |ll| && ll[257 + lc] > 0 && dc < |dl| && dl[dc] > 0
  }

  ghost function AfterToken(ll: seq<nat>, dl: seq<nat>, v: nat, t: Token): nat
    requires Codable(ll, dl, t)
  {
    match t
    case Literal(b) => Drop(v, ll[b])
    case Copy(lc, _, dc, _) => Drop(Drop(Drop(Drop(v, ll[257 + lc]), LengthExtra(lc)), dl[dc]), DistExtra(dc))
  }

  ghost predicate AllCodable(ll: seq<nat>, dl: seq<nat>, toks: seq<Token>) {
    forall k :: 0 <= k < |toks| ==> Codable(ll, dl, toks[k])
  }

  /** What is left of the stream after the tokens. */
  ghost function After(ll: seq<nat>, dl: seq<nat>, v: nat, toks: seq<Token>): nat
    requires AllCodable(ll, dl, toks)
  {
    if toks == [] then v else AfterToken(ll, dl, After(ll, dl, v, toks[..|toks| - 1]), toks[|toks| - 1])
  }

  ghost predicate ReadsAll(ll: seq<nat>, dl: seq<nat>, v: nat, toks: seq<Token>) {
    && AllCodable(ll, dl, toks)
    && (toks != [] ==>
          var init := toks[..|toks| - 1];
          ReadsAll(ll, dl, v, init) && Reads(ll, dl, After(ll, dl, v, init), toks[|toks| - 1]))
  }

  /** The stream starts with a compressed block of exactly these tokens. */
  ghost predicate BlockIs(ll: seq<nat>, dl: seq<nat>, v: nat, toks: seq<Token>) {
    ReadsAll(ll, dl, v, toks) && Matches(ll, After(ll, dl, v, toks), END_OF_BLOCK)
  }

  ghost function BlockBits(ll: seq<nat>, dl: seq<nat>, toks: seq<Token>): nat
    requires AllCodable(ll, dl, toks)
  {
    if toks == [] then 0
    else BlockBits(ll, dl, toks[..|toks| - 1]) + TokenBits(ll, dl, toks[|toks| - 1])
  }

  /** Append n bytes, each repeating the one dist places before it. */
  function CopyMatch(out: seq<byte>, dist: nat, n: nat): (r: seq<byte>)
    requires 1 <= dist <= |out|
    ensures |r| == |out| + n
  {
    if n == 0 then out
    else
      var o := CopyMatch(out, dist, n - 1);
      o + [o[|o| - dist]]
  }

  /** Earlier output survives and an overlapping copy is periodic. */
  lemma {:induction false} CopyMatchPeriodic(out: seq<byte>, dist: nat, n: nat, i: nat)
    requires 1 <= dist <= |out| && i < |out| + n
    ensures CopyMatch(out, dist, n)[i] == if i < |out| then out[i] else CopyMatch(out, dist, n)[i - dist]
  {
    if n > 0 {
      if i < |out| + n - 1 {
        CopyMatchPeriodic(out, dist, n - 1, i);
      }
    }
  }

  /** A copy from distance one is a run of the last byte. */
  lemma {:induction false} CopyMatchRun(out: seq<byte>, n: nat)
    requires |out| >= 1
    ensures CopyMatch(out, 1, n) == out + seq(n, _ => out[|out| - 1])
  {
    if n > 0 {
      CopyMatchRun(out, n - 1);
    }
  }

  /** The output the tokens stand for; a copy that reaches too far back stands for nothing. */
  ghost function Expand(out: seq<byte>, toks: seq<Token>): seq<byte> {
    if toks == [] then out
    else
      var o, t := Expand(out, toks[..|toks| - 1]), toks[|toks| - 1];
      if t.Literal? then o + [t.b]
      else if t.Valid() && t.Dist() <= |o| then CopyMatch(o, t.Dist(), t.Length())
      else o
  }

  /** Every copy reaches back no further than the output so far. */
  ghost predicate Legal(out: seq<byte>, toks: seq<Token>) {
    toks == [] ||
    var init, t := toks[..|toks| - 1], toks[|toks| - 1];
    Legal(out, init) && t.Valid() && (t.Copy? ==> t.Dist() <= |Expand(out, init)|)
  }

  lemma {:induction false} ExpandGrows(out: seq<byte>, toks: seq<Token>, n: nat)
    requires Legal(out, toks) && n <= |toks|
    ensures Legal(out, toks[..n]) && |Expand(out, toks[..n])| + (|toks| - n) <= |Expand(out, toks)|
    decreases |toks|
  {
    if n < |toks| {
      var init := toks[..|toks| - 1];
      ExpandGrows(out, init, n);
      assert init[..n] == toks[..n];
    } else {
      assert toks[..n] == toks;
    }
  }

  // An encoder: the stream made of a token's bits followed by tail.

  function PutBits(value: nat, n: nat, tail: nat): nat {
    value + Shl(tail, n)
  }

  ghost function PutSymbol(lens: seq<nat>, i: nat, tail: nat): nat
    requires i < |lens| && lens[i] > 0
  {
    PutBits(Rev(Code(lens, i), lens[i]), lens[i], tail)
  }

  ghost function EncodeToken(ll: seq<nat>, dl: seq<nat>, t: Token, tail: nat): nat
    requires Codable(ll, dl, t)
  {
    match t
    case Literal(b) => PutSymbol(ll, b, tail)
    case Copy(lc, lb, dc, db) =>
      PutSymbol(ll, 257 + lc,
        PutBits(lb, LengthExtra(lc), PutSymbol(dl, dc, PutBits(db, DistExtra(dc), tail))))
  }

  ghost function Encode(ll: seq<nat>, dl: seq<nat>, toks: seq<Token>, tail: nat): nat
    requires AllCodable(ll, dl, toks)
  {
    if toks == [] then tail
    else Encode(ll, dl, toks[..|toks| - 1], EncodeToken(ll, dl, toks[|toks| - 1], tail))
  }

  lemma TakePut(value: nat, n: nat, tail: nat)
    requires value < Pow2(n)
    ensures Low(PutBits(value, n, tail), n) == value && Drop(PutBits(value, n, tail), n) == tail
  {
    hide Low, Drop, Shl;
    JoinSplit(value, n, tail);
  }

  lemma TakePutSymbol(lens: seq<nat>, i: nat, tail: nat)
    requires Lengths(lens) && Accepted(lens) && i < |lens| && lens[i] > 0
    ensures Matches(lens, PutSymbol(lens, i, tail), i) && Drop(PutSymbol(lens, i, tail), lens[i]) == tail
  {
    var s, c := lens[i], Code(lens, i);
    RankBelowTotal(lens, i);
    assert CodesFit(lens, s);
    TakePut(Rev(c, s), s, tail);
    RevOfLow(PutSymbol(lens, i, tail), s, s);
    RevRev(c, s);
    LowOfSmall(c, s);
  }

  lemma ReadsEncodedToken(ll: seq<nat>, dl: seq<nat>, t: Token, tail: nat)
    requires Lengths(ll) && Accepted(ll) && Lengths(dl) && Accepted(dl) && Codable(ll, dl, t)
    ensures Reads(ll, dl, EncodeToken(ll, dl, t, tail), t)
    ensures AfterToken(ll, dl, EncodeToken(ll, dl, t, tail), t) == tail
  {
    match t
    case Literal(b) => TakePutSymbol(ll, b, tail);
    case Copy(lc, lb, dc, db) =>
      var v3 := PutBits(db, DistExtra(dc), tail);
      var v2 := PutSymbol(dl, dc, v3);
      var v1 := PutBits(lb, LengthExtra(lc), v2);
      TakePutSymbol(ll, 257 + lc, v1);
      TakePut(lb, LengthExtra(lc), v2);
      TakePutSymbol(dl, dc, v3);
      TakePut(db, DistExtra(dc), tail);
  }

  /** Reading an encoded token list gives it back and leaves the tail. */
  lemma {:induction false} ReadsEncoded(ll: seq<nat>, dl: seq<nat>, toks: seq<Token>, tail: nat)
    requires Lengths(ll) && Accepted(ll) && Lengths(dl) && Accepted(dl) && AllCodable(ll, dl, toks)
    ensures ReadsAll(ll, dl, Encode(ll, dl, toks, tail), toks)
    ensures After(ll, dl, Encode(ll, dl, toks, tail), toks) == tail
  {
    if toks != [] {
      var t := toks[|toks| - 1];
      ReadsEncoded(ll, dl, toks[..|toks| - 1], EncodeToken(ll, dl, t, tail));
      ReadsEncodedToken(ll, dl, t, tail);
    }
  }

  /** A whole block round trip: tokens, end-of-block, then any following stream. */
  lemma BlockRoundTrip(ll: seq<nat>, dl: seq<nat>, toks: seq<Token>, tail: nat)
    requires Lengths(ll) && Accepted(ll) && Lengths(dl) && Accepted(dl) && AllCodable(ll, dl, toks)
    requires |ll| > END_OF_BLOCK && ll[END_OF_BLOCK] > 0
    ensures var v := Encode(ll, dl, toks, PutSymbol(ll, END_OF_BLOCK, tail));
            BlockIs(ll, dl, v, toks) && Drop(After(ll, dl, v, toks), ll[END_OF_BLOCK]) == tail
  {
    ReadsEncoded(ll, dl, toks, PutSymbol(ll, END_OF_BLOCK, tail));
    TakePutSymbol(ll, END_OF_BLOCK, tail);
  }

  /** The stream determines its next token. */
  lemma TokenUnique(ll: seq<nat>, dl: seq<nat>, v: nat, t: Token, u: Token)
    requires Lengths(ll) && Lengths(dl) && Reads(ll, dl, v, t) && Reads(ll, dl, v, u)
    ensures t == u
  {
    MatchUnique(ll, v, if t.Literal? then t.b else 257 + t.lengthCode, if u.Literal? then u.b else 257 + u.lengthCode);
    if t.Copy? {
      MatchUnique(dl, Drop(Drop(v, ll[257 + t.lengthCode]), LengthExtra(t.lengthCode)), t.distCode, u.distCode);
    }
  }

  lemma TokenNotEnd(ll: seq<nat>, dl: seq<nat>, v: nat, t: Token)
    requires Lengths(ll) && Reads(ll, dl, v, t)
    ensures !Matches(ll, v, END_OF_BLOCK)
  {
    if Matches(ll, v, END_OF_BLOCK) {
      MatchUnique(ll, v, if t.Literal? then t.b else 257 + t.lengthCode, END_OF_BLOCK);
    }
  }

  lemma {:induction false} PrefixReads(ll: seq<nat>, dl: seq<nat>, v: nat, toks: seq<Token>, k: nat)
    requires ReadsAll(ll, dl, v, toks) && k <= |toks|
    ensures ReadsAll(ll, dl, v, toks[..k])
    ensures k < |toks| ==> Reads(ll, dl, After(ll, dl, v, toks[..k]), toks[k])
    ensures k < |toks| ==> BlockBits(ll, dl, toks[..k]) + TokenBits(ll, dl, toks[k]) <= BlockBits(ll, dl, toks)
    decreases |toks|
  {
    if k < |toks| {
      var init := toks[..|toks| - 1];
      assert init[..k] == toks[..k];
      PrefixReads(ll, dl, v, init, k);
    } else {
      assert toks[..k] == toks;
    }
  }

  lemma {:induction false} PrefixLegal(out: seq<byte>, toks: seq<Token>, k: nat)
    requires Legal(out, toks) && k <= |toks|
    ensures Legal(out, toks[..k])
    decreases |toks|
  {
    if k < |toks| {
      assert toks[..|toks| - 1][..k] == toks[..k];
      PrefixLegal(out, toks[..|toks| - 1], k);
    } else {
      assert toks[..k] == toks;
    }
  }
}
