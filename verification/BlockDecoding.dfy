/**
 Following a compressed block while it is decoded: what has been read so far, what it took from the
 bit supply, and that a block the supply lasts for is never misread.
 */
module BlockDecoding {
  import opened Bits
  import opened Common
  import opened HuffmanCode
  import opened Deflate
  import opened BitSupply

  // ---- what tokens take from the supply

  function Extra(k: nat): seq<Pull> {
    if k == 0 then [] else [Take(k)]
  }

  /** A length symbol and its extra bits. */
  function LengthPulls(ll: seq<nat>, c: nat): seq<Pull>
    requires c < 29 && 257 + c < |ll|
  {
    [Sym(ll[257 + c])] + Extra(LengthExtra(c))
  }

  ghost function TokenPulls(ll: seq<nat>, dl: seq<nat>, t: Token): seq<Pull>
    requires Codable(ll, dl, t)
  {
    match t
    case Literal(b) => [Sym(ll[b])]
    case Copy(lc, _, dc, _) => LengthPulls(ll, lc) + ([Sym(dl[dc])] + Extra(DistExtra(dc)))
  }

  ghost function BlockPulls(ll: seq<nat>, dl: seq<nat>, toks: seq<Token>): seq<Pull>
    requires AllCodable(ll, dl, toks)
  {
    if toks == [] then []
    else BlockPulls(ll, dl, toks[..|toks| - 1]) + TokenPulls(ll, dl, toks[|toks| - 1])
  }

  /** The tokens of a block and its end-of-block code. */
  ghost function ClosedPulls(ll: seq<nat>, dl: seq<nat>, toks: seq<Token>): seq<Pull>
    requires AllCodable(ll, dl, toks) && END_OF_BLOCK < |ll|
  {
    BlockPulls(ll, dl, toks) + [Sym(ll[END_OF_BLOCK])]
  }

  /** The supply lasts for these, and the check at the end of a block is content. */
  ghost predicate Lasts(size: nat, r: Supply, ps: seq<Pull>) {
    PulledAll(size, r, ps).Some? && Unspent(PulledAll(size, r, ps).value)
  }

  lemma ExtraWidth(k: nat)
    ensures TotalWidth(Extra(k)) == k && (k <= 16 ==> Modest(Extra(k)))
  {
    assert k > 0 ==> Extra(k)[..0] == [];
  }

  lemma OneWidth(p: Pull)
    ensures TotalWidth([p]) == Width(p)
  {
    assert [p][..0] == [];
  }

  lemma ModestConcat(a: seq<Pull>, b: seq<Pull>)
    requires Modest(a) && Modest(b)
    ensures Modest(a + b)
  {
  }

  lemma LengthPullsWidth(ll: seq<nat>, c: nat)
    requires Lengths(ll) && c < 29 && 257 + c < |ll|
    ensures Modest(LengthPulls(ll, c)) && TotalWidth(LengthPulls(ll, c)) == ll[257 + c] + LengthExtra(c)
  {
    var s := [Sym(ll[257 + c])];
    ExtraWidth(LengthExtra(c));
    OneWidth(Sym(ll[257 + c]));
    PulledAllConcat(0, Supply(0, 0, 0, false), s, Extra(LengthExtra(c)));
    ModestConcat(s, Extra(LengthExtra(c)));
  }

  lemma TokenPullsWidth(ll: seq<nat>, dl: seq<nat>, t: Token)
    requires Lengths(ll) && Lengths(dl) && Codable(ll, dl, t)
    ensures Modest(TokenPulls(ll, dl, t)) && TotalWidth(TokenPulls(ll, dl, t)) == TokenBits(ll, dl, t)
  {
    hide LengthPulls, Extra, TotalWidth, PulledAll;
    match t
    case Literal(b) =>
      OneWidth(Sym(ll[b]));
    case Copy(lc, _, dc, _) =>
      var none, s := Supply(0, 0, 0, false), [Sym(dl[dc])];
      LengthPullsWidth(ll, lc);
      ExtraWidth(DistExtra(dc));
      OneWidth(Sym(dl[dc]));
      PulledAllConcat(0, none, s, Extra(DistExtra(dc)));
      PulledAllConcat(0, none, LengthPulls(ll, lc), s + Extra(DistExtra(dc)));
      ModestConcat(s, Extra(DistExtra(dc)));
      ModestConcat(LengthPulls(ll, lc), s + Extra(DistExtra(dc)));
  }

  lemma {:induction false} BlockPullsWidth(ll: seq<nat>, dl: seq<nat>, toks: seq<Token>)
    requires Lengths(ll) && Lengths(dl) && AllCodable(ll, dl, toks)
    ensures Modest(BlockPulls(ll, dl, toks)) && TotalWidth(BlockPulls(ll, dl, toks)) == BlockBits(ll, dl, toks)
  {
    hide TokenPulls, TokenBits, Codable, TotalWidth, PulledAll;
    if toks == [] {
      NoWidth();
    } else {
      var init, t := toks[..|toks| - 1], toks[|toks| - 1];
      BlockPullsWidth(ll, dl, init);
      TokenPullsWidth(ll, dl, t);
      PulledAllConcat(0, Supply(0, 0, 0, false), BlockPulls(ll, dl, init), TokenPulls(ll, dl, t));
      ModestConcat(BlockPulls(ll, dl, init), TokenPulls(ll, dl, t));
    }
  }

  lemma NoWidth()
    ensures TotalWidth([]) == 0
  {
  }

  lemma ClosedWidth(ll: seq<nat>, dl: seq<nat>, toks: seq<Token>)
    requires Lengths(ll) && Lengths(dl) && AllCodable(ll, dl, toks) && END_OF_BLOCK < |ll|
    ensures Modest(ClosedPulls(ll, dl, toks))
    ensures TotalWidth(ClosedPulls(ll, dl, toks)) == BlockBits(ll, dl, toks) + ll[END_OF_BLOCK]
  {
    hide BlockPulls, BlockBits, TotalWidth, PulledAll;
    var eob := [Sym(ll[END_OF_BLOCK])];
    BlockPullsWidth(ll, dl, toks);
    OneWidth(Sym(ll[END_OF_BLOCK]));
    ModestConcat(BlockPulls(ll, dl, toks), eob);
    PulledAllConcat(0, Supply(0, 0, 0, false), BlockPulls(ll, dl, toks), eob);
  }

  /** The supply lasts for every block that lies within the input. */
  lemma WithinLasts(size: nat, r: Supply, used: nat, ll: seq<nat>, dl: seq<nat>, toks: seq<Token>)
    requires Sound(size, r, used) && Lengths(ll) && Lengths(dl) && AllCodable(ll, dl, toks) && END_OF_BLOCK < |ll|
    requires used + BlockBits(ll, dl, toks) + ll[END_OF_BLOCK] <= 8 * size
    ensures Lasts(size, r, ClosedPulls(ll, dl, toks))
  {
    hide BlockPulls, BlockBits, TotalWidth, PulledAll, Sound, Unspent;
    ClosedWidth(ll, dl, toks);
    PulledAllSound(size, r, used, ClosedPulls(ll, dl, toks));
    CheckRefusesExactlyWhen(size, PulledAll(size, r, ClosedPulls(ll, dl, toks)).value,
                            used + TotalWidth(ClosedPulls(ll, dl, toks)));
  }

  // ---- when nothing decodes

  /** No code comes next, or the supply is at its end. */
  ghost predicate NoSymbol(lens: seq<nat>, v: nat, size: nat, r: Supply) {
    Viewed(size, r).None? || forall i: nat :: !Matches(lens, v, i)
  }

  /** The supply lasts for no token and for no end of block that the stream might hold. */
  ghost predicate NoItem(ll: seq<nat>, dl: seq<nat>, v: nat, size: nat, r: Supply) {
    && (forall t: Token | Reads(ll, dl, v, t) :: PulledAll(size, r, TokenPulls(ll, dl, t)).None?)
    && (Matches(ll, v, END_OF_BLOCK) ==> !Lasts(size, r, [Sym(ll[END_OF_BLOCK])]))
  }

  lemma OnePull(size: nat, r: Supply, p: Pull)
    ensures PulledAll(size, r, [p]) == Pulled(size, r, p)
  {
    assert [p][..0] == [];
  }

  /** Every token begins with a length symbol. */
  lemma FirstPull(size: nat, r: Supply, ll: seq<nat>, dl: seq<nat>, t: Token)
    requires Codable(ll, dl, t) && Viewed(size, r).None?
    ensures PulledAll(size, r, TokenPulls(ll, dl, t)).None?
  {
    hide PulledAll, Extra, Viewed;
    match t
    case Literal(b) =>
      OnePull(size, r, Sym(ll[b]));
    case Copy(lc, _, dc, _) =>
      OnePull(size, r, Sym(ll[257 + lc]));
      PulledAllConcat(size, r, [Sym(ll[257 + lc])], Extra(LengthExtra(lc)));
      PulledAllConcat(size, r, LengthPulls(ll, lc), [Sym(dl[dc])] + Extra(DistExtra(dc)));
  }

  lemma NoLengthSymbol(ll: seq<nat>, dl: seq<nat>, v: nat, size: nat, r: Supply)
    requires NoSymbol(ll, v, size, r)
    ensures NoItem(ll, dl, v, size, r)
  {
    hide PulledAll, TokenPulls, Viewed;
    forall t: Token | Reads(ll, dl, v, t)
      ensures PulledAll(size, r, TokenPulls(ll, dl, t)).None?
    {
      FirstPull(size, r, ll, dl, t);
    }
    if Matches(ll, v, END_OF_BLOCK) {
      OnePull(size, r, Sym(ll[END_OF_BLOCK]));
    }
  }

  lemma OnlyLengthSymbol(ll: seq<nat>, dl: seq<nat>, v: nat, r: nat, t: Token)
    requires Lengths(ll) && Matches(ll, v, r) && Reads(ll, dl, v, t)
    ensures r == if t.Literal? then t.b else 257 + t.lengthCode
  {
    MatchUnique(ll, v, r, if t.Literal? then t.b else 257 + t.lengthCode);
  }

  /** Symbols 286 and 287 begin nothing; an end-of-block begins nothing but itself. */
  lemma BadItem(ll: seq<nat>, dl: seq<nat>, v: nat, i: nat, size: nat, r: Supply)
    requires Lengths(ll) && Matches(ll, v, i)
    requires i >= 286 || (i == END_OF_BLOCK && !Lasts(size, r, [Sym(ll[i])]))
    ensures NoItem(ll, dl, v, size, r)
  {
    forall t: Token | Reads(ll, dl, v, t)
      ensures false
    {
      OnlyLengthSymbol(ll, dl, v, i, t);
    }
    if Matches(ll, v, END_OF_BLOCK) {
      MatchUnique(ll, v, i, END_OF_BLOCK);
    }
  }

  /** A length symbol is followed by no distance symbol, or by 30 or 31. */
  lemma BadDistance(ll: seq<nat>, dl: seq<nat>, v: nat, c: nat, v2: nat, size: nat, r: Supply, r2: Supply, d: int)
    requires Lengths(ll) && Lengths(dl) && c < 29 && Matches(ll, v, 257 + c)
    requires v2 == Drop(Drop(v, ll[257 + c]), LengthExtra(c)) && PulledAll(size, r, LengthPulls(ll, c)) == Some(r2)
    requires d < 0 ==> NoSymbol(dl, v2, size, r2)
    requires d >= 0 ==> d >= 30 && Matches(dl, v2, d)
    ensures NoItem(ll, dl, v, size, r)
  {
    forall t: Token | Reads(ll, dl, v, t)
      ensures PulledAll(size, r, TokenPulls(ll, dl, t)).None?
    {
      hide Reads, PulledAll, TokenPulls, LengthPulls, NoSymbol;
      NoCopyWith(ll, dl, v, c, v2, size, r, r2, d, t);
    }
    if Matches(ll, v, END_OF_BLOCK) {
      MatchUnique(ll, v, 257 + c, END_OF_BLOCK);
    }
  }

  lemma NoCopyWith(ll: seq<nat>, dl: seq<nat>, v: nat, c: nat, v2: nat, size: nat, r: Supply, r2: Supply,
                   d: int, t: Token)
    requires Lengths(ll) && Lengths(dl) && c < 29 && Matches(ll, v, 257 + c)
    requires v2 == Drop(Drop(v, ll[257 + c]), LengthExtra(c)) && PulledAll(size, r, LengthPulls(ll, c)) == Some(r2)
    requires d < 0 ==> NoSymbol(dl, v2, size, r2)
    requires d >= 0 ==> d >= 30 && Matches(dl, v2, d)
    requires Reads(ll, dl, v, t)
    ensures Codable(ll, dl, t) && PulledAll(size, r, TokenPulls(ll, dl, t)).None?
  {
    hide PulledAll, LengthPulls, TokenPulls, Extra, Viewed;
    OnlyLengthSymbol(ll, dl, v, 257 + c, t);
    assert t.Copy? && t.lengthCode == c && Matches(dl, v2, t.distCode);
    if d >= 0 {
      MatchUnique(dl, v2, d, t.distCode);
    } else {
      DistanceOut(size, r, r2, ll, dl, t);
    }
  }

  lemma DistanceOut(size: nat, r: Supply, r2: Supply, ll: seq<nat>, dl: seq<nat>, t: Token)
    requires t.Copy? && Codable(ll, dl, t) && PulledAll(size, r, LengthPulls(ll, t.lengthCode)) == Some(r2)
    requires Viewed(size, r2).None?
    ensures PulledAll(size, r, TokenPulls(ll, dl, t)).None?
  {
    hide PulledAll, LengthPulls, Extra, Viewed;
    OnePull(size, r2, Sym(dl[t.distCode]));
    PulledAllConcat(size, r2, [Sym(dl[t.distCode])], Extra(DistExtra(t.distCode)));
    PulledAllConcat(size, r, LengthPulls(ll, t.lengthCode), [Sym(dl[t.distCode])] + Extra(DistExtra(t.distCode)));
  }

  lemma ReadTokenValid(ll: seq<nat>, dl: seq<nat>, v: nat, t: Token)
    requires Reads(ll, dl, v, t)
    ensures t.Valid()
  {
  }

  /** The four parts of a copy, read one after the other. */
  lemma CopyRead(ll: seq<nat>, dl: seq<nat>, v: nat, c: nat, lb: nat, v2: nat, d: nat, db: nat, v3: nat)
    requires c < 29 && Matches(ll, v, 257 + c) && d < 30
    requires lb == Low(Drop(v, ll[257 + c]), LengthExtra(c)) && v2 == Drop(Drop(v, ll[257 + c]), LengthExtra(c))
    requires Matches(dl, v2, d) && v3 == Drop(v2, dl[d]) && db == Low(v3, DistExtra(d))
    ensures var t := Copy(c, lb, d, db);
            && Reads(ll, dl, v, t) && AfterToken(ll, dl, v, t) == Drop(v3, DistExtra(d))
            && TokenBits(ll, dl, t) == ll[257 + c] + LengthExtra(c) + dl[d] + DistExtra(d)
  {
    hide Drop, Low, LengthExtra, DistExtra, Code, Rev, Pow2;
  }

  /** and what they take from the supply. */
  lemma CopyPulled(size: nat, r: Supply, ll: seq<nat>, dl: seq<nat>, t: Token, r2: Supply, r3: Supply, r4: Supply)
    requires t.Copy? && Codable(ll, dl, t)
    requires PulledAll(size, r, LengthPulls(ll, t.lengthCode)) == Some(r2)
    requires Pulled(size, r2, Sym(dl[t.distCode])) == Some(r3)
    requires PulledAll(size, r3, Extra(DistExtra(t.distCode))) == Some(r4)
    ensures PulledAll(size, r, TokenPulls(ll, dl, t)) == Some(r4)
  {
    hide PulledAll, LengthPulls, Extra, Pulled;
    OnePull(size, r2, Sym(dl[t.distCode]));
    PulledAllConcat(size, r2, [Sym(dl[t.distCode])], Extra(DistExtra(t.distCode)));
    PulledAllConcat(size, r, LengthPulls(ll, t.lengthCode), [Sym(dl[t.distCode])] + Extra(DistExtra(t.distCode)));
  }

  lemma LengthPulled(size: nat, r: Supply, ll: seq<nat>, c: nat, r1: Supply, r2: Supply)
    requires c < 29 && 257 + c < |ll| && Pulled(size, r, Sym(ll[257 + c])) == Some(r1)
    requires PulledAll(size, r1, Extra(LengthExtra(c))) == Some(r2)
    ensures PulledAll(size, r, LengthPulls(ll, c)) == Some(r2)
  {
    hide PulledAll, Extra, Pulled;
    OnePull(size, r, Sym(ll[257 + c]));
    PulledAllConcat(size, r, [Sym(ll[257 + c])], Extra(LengthExtra(c)));
  }

  // ---- following a block

  /** What a block decoder starts from: its codes, the stream, the output, the bit supply and what room is left. */
  datatype Job = Job(ll: seq<nat>, dl: seq<nat>, v: nat, o: seq<byte>, size: nat, r: Supply, room: nat)

  /** A well-formed block that the supply lasts for and that fits the room for output. */
  ghost predicate Feasible(j: Job, toks: seq<Token>) {
    && BlockIs(j.ll, j.dl, j.v, toks) && Legal(j.o, toks)
    && Lasts(j.size, j.r, ClosedPulls(j.ll, j.dl, toks))
    && |Expand(j.o, toks)| <= j.room
  }

  ghost predicate Decodable(j: Job) {
    exists toks :: Feasible(j, toks)
  }

  /** The block there is, if the decoder can finish one. */
  ghost function BlockOfJob(j: Job): (toks: seq<Token>)
    ensures Decodable(j) ==> Feasible(j, toks)
  {
    if Decodable(j) then
      var toks :| Feasible(j, toks);
      toks
    else []
  }

  /** The state of a decoder that has read toks and appended their expansion. */
  ghost predicate Progress(j: Job, toks: seq<Token>, rest: nat, out: seq<byte>, used: int, r: Supply) {
    && ReadsAll(j.ll, j.dl, j.v, toks) && rest == After(j.ll, j.dl, j.v, toks)
    && used == BlockBits(j.ll, j.dl, toks) && PulledAll(j.size, j.r, BlockPulls(j.ll, j.dl, toks)) == Some(r)
    && Legal(j.o, toks) && out == Expand(j.o, toks)
  }

  /** The decoder is following the block `expected`, if that one is feasible. */
  ghost predicate OnTrack(j: Job, expected: seq<Token>, toks: seq<Token>) {
    Feasible(j, expected) ==> |toks| <= |expected| && toks == expected[..|toks|]
  }

  lemma NothingRead(j: Job, expected: seq<Token>)
    ensures Progress(j, [], j.v, j.o, 0, j.r) && OnTrack(j, expected, [])
  {
  }

  /** The token can be written out: it reaches back no further than allowed and there is room. */
  ghost predicate Fits(t: Token, o: seq<byte>, room: nat) {
    t.Valid() && (t.Copy? ==> t.Dist() <= |o|) && |o| + (if t.Literal? then 1 else t.Length()) <= room
  }

  /** The output after one more token. */
  ghost predicate Emitted(t: Token, o: seq<byte>, out: seq<byte>) {
    && t.Valid() && (t.Copy? ==> t.Dist() <= |o|)
    && out == if t.Literal? then o + [t.b] else CopyMatch(o, t.Dist(), t.Length())
  }

  lemma ProgressStep(j: Job, toks: seq<Token>, rest: nat, out: seq<byte>, used: int, r: Supply,
                     t: Token, out': seq<byte>, r': Supply)
    requires Progress(j, toks, rest, out, used, r) && Reads(j.ll, j.dl, rest, t) && Emitted(t, out, out')
    requires PulledAll(j.size, r, TokenPulls(j.ll, j.dl, t)) == Some(r')
    ensures Progress(j, toks + [t], AfterToken(j.ll, j.dl, rest, t), out', used + TokenBits(j.ll, j.dl, t), r')
  {
    hide Reads, PulledAll, TokenPulls;
    AppendToken(j.ll, j.dl, j.v, j.o, toks, t);
    assert (toks + [t])[..|toks|] == toks;
    PulledAllConcat(j.size, j.r, BlockPulls(j.ll, j.dl, toks), TokenPulls(j.ll, j.dl, t));
  }

  /** The supply that lasts for a block lasts for each of its tokens in turn. */
  lemma {:induction false} PrefixPulls(size: nat, r: Supply, ll: seq<nat>, dl: seq<nat>, toks: seq<Token>, k: nat)
    requires AllCodable(ll, dl, toks) && k <= |toks| && PulledAll(size, r, BlockPulls(ll, dl, toks)).Some?
    ensures AllCodable(ll, dl, toks[..k]) && PulledAll(size, r, BlockPulls(ll, dl, toks[..k])).Some?
    ensures k < |toks| ==>
              var f := PulledAll(size, r, BlockPulls(ll, dl, toks[..k])).value;
              PulledAll(size, f, TokenPulls(ll, dl, toks[k])).Some?
    decreases |toks|
  {
    hide PulledAll, TokenPulls, Codable;
    if k == |toks| {
      assert toks[..k] == toks;
    } else {
      var init, t := toks[..|toks| - 1], toks[|toks| - 1];
      PulledAllConcat(size, r, BlockPulls(ll, dl, init), TokenPulls(ll, dl, t));
      PrefixPulls(size, r, ll, dl, init, k);
      assert init[..k] == toks[..k];
    }
  }

  /** The supply at the end of a feasible block. */
  lemma ClosedSupply(j: Job, toks: seq<Token>)
    requires AllCodable(j.ll, j.dl, toks) && END_OF_BLOCK < |j.ll|
    ensures var p := PulledAll(j.size, j.r, BlockPulls(j.ll, j.dl, toks));
            PulledAll(j.size, j.r, ClosedPulls(j.ll, j.dl, toks)) ==
            if p.None? then None else PulledAll(j.size, p.value, [Sym(j.ll[END_OF_BLOCK])])
  {
    hide PulledAll, BlockPulls;
    PulledAllConcat(j.size, j.r, BlockPulls(j.ll, j.dl, toks), [Sym(j.ll[END_OF_BLOCK])]);
  }

  /** An end-of-block read after some tokens closes the block they form. */
  lemma Closes(j: Job, toks: seq<Token>, rest: nat, out: seq<byte>, used: int, r: Supply, f: Supply)
    requires Progress(j, toks, rest, out, used, r) && Matches(j.ll, rest, END_OF_BLOCK)
    requires PulledAll(j.size, r, [Sym(j.ll[END_OF_BLOCK])]) == Some(f)
    ensures BlockIs(j.ll, j.dl, j.v, toks) && PulledAll(j.size, j.r, ClosedPulls(j.ll, j.dl, toks)) == Some(f)
  {
    hide PulledAll, BlockPulls, Reads, Expand, Legal, BlockBits;
    ClosedSupply(j, toks);
  }

  /** On a feasible block decoding does not fail, */
  lemma TrackNotBad(j: Job, expected: seq<Token>, toks: seq<Token>, rest: nat, out: seq<byte>, used: int, r: Supply)
    requires Feasible(j, expected) && OnTrack(j, expected, toks) && Progress(j, toks, rest, out, used, r)
    ensures !NoItem(j.ll, j.dl, rest, j.size, r)
  {
    hide Reads, Expand, Legal, After, BlockBits, PulledAll, TokenPulls, BlockPulls, Unspent;
    var k := |toks|;
    PrefixReads(j.ll, j.dl, j.v, expected, k);
    ClosedSupply(j, expected);
    PrefixPulls(j.size, j.r, j.ll, j.dl, expected, k);
    assert expected[..|expected|] == expected;
    if k < |expected| {
      assert PulledAll(j.size, r, TokenPulls(j.ll, j.dl, expected[k])).Some?;
    }
  }

  /** does not stop early, */
  lemma TrackEnd(j: Job, expected: seq<Token>, toks: seq<Token>, rest: nat, out: seq<byte>, used: int, r: Supply)
    requires Lengths(j.ll) && Feasible(j, expected) && OnTrack(j, expected, toks)
    requires Progress(j, toks, rest, out, used, r) && Matches(j.ll, rest, END_OF_BLOCK)
    ensures toks == expected
  {
    hide Reads, ReadsAll, Expand, Legal, After, BlockBits, PulledAll, BlockPulls, ClosedPulls, Lasts;
    PrefixReads(j.ll, j.dl, j.v, expected, |toks|);
    assert expected[..|expected|] == expected;
    if |toks| < |expected| {
      TokenNotEnd(j.ll, j.dl, rest, expected[|toks|]);
    }
  }

  /** and neither misreads a token nor runs out of room for it. */
  lemma TrackToken(j: Job, expected: seq<Token>, toks: seq<Token>, rest: nat, out: seq<byte>, used: int,
                   r: Supply, t: Token)
    requires Lengths(j.ll) && Lengths(j.dl)
    requires Feasible(j, expected) && OnTrack(j, expected, toks) && Progress(j, toks, rest, out, used, r)
    requires Reads(j.ll, j.dl, rest, t)
    ensures OnTrack(j, expected, toks + [t]) && Fits(t, out, j.room)
  {
    hide Reads, ReadsAll, Expand, Legal, After, BlockBits, Fits, PulledAll, BlockPulls, ClosedPulls, Lasts;
    var k := |toks|;
    PrefixReads(j.ll, j.dl, j.v, expected, k);
    assert expected[..|expected|] == expected;
    NextExpected(j.ll, j.dl, rest, t, expected, k);
    NextFits(j.o, expected, k, j.room);
    assert toks + [t] == expected[..k + 1];
  }

  /** Each token of a legal list that fits as a whole fits when its turn comes. */
  lemma NextFits(o: seq<byte>, toks: seq<Token>, k: nat, room: nat)
    requires k < |toks| && Legal(o, toks) && |Expand(o, toks)| <= room
    ensures Fits(toks[k], Expand(o, toks[..k]), room)
  {
    PrefixLegal(o, toks, k + 1);
    ExpandGrows(o, toks, k + 1);
    var next := toks[..k + 1];
    assert next[..|next| - 1] == toks[..k];
  }

  /** One decoded item of a compressed block. */
  datatype Item = Tok(t: Token) | End | Bad

  /** The item is what the stream holds next, an error meaning that the supply lasts for nothing the stream holds. */
  ghost predicate ItemOf(ll: seq<nat>, dl: seq<nat>, v: nat, size: nat, r: Supply, item: Item) {
    match item
    case Tok(t) => Reads(ll, dl, v, t)
    case End => Matches(ll, v, END_OF_BLOCK)
    case Bad => NoItem(ll, dl, v, size, r)
  }

  /** All of this for whatever is decoded next. */
  lemma TrackItem(j: Job, expected: seq<Token>, toks: seq<Token>, rest: nat, out: seq<byte>, used: int,
                  r: Supply, item: Item)
    requires Lengths(j.ll) && Lengths(j.dl)
    requires OnTrack(j, expected, toks) && Progress(j, toks, rest, out, used, r)
    requires ItemOf(j.ll, j.dl, rest, j.size, r, item)
    ensures item.Tok? ==> OnTrack(j, expected, toks + [item.t])
    ensures Feasible(j, expected) ==>
              !item.Bad? && (item.End? ==> toks == expected) && (item.Tok? ==> Fits(item.t, out, j.room))
  {
    hide Progress, Reads, NoItem, Fits;
    if Feasible(j, expected) {
      match item
      case Tok(t) => TrackToken(j, expected, toks, rest, out, used, r, t);
      case End => TrackEnd(j, expected, toks, rest, out, used, r);
      case Bad => TrackNotBad(j, expected, toks, rest, out, used, r);
    }
  }

  /** A token decoded where a feasible block continues is the block's next token. */
  lemma NextExpected(ll: seq<nat>, dl: seq<nat>, at: nat, t: Token, toks: seq<Token>, k: nat)
    requires Lengths(ll) && Lengths(dl) && Reads(ll, dl, at, t) && k <= |toks|
    requires if k < |toks| then Reads(ll, dl, at, toks[k]) else Matches(ll, at, END_OF_BLOCK)
    ensures k < |toks| && t == toks[k]
  {
    if k < |toks| {
      TokenUnique(ll, dl, at, t, toks[k]);
    } else {
      TokenNotEnd(ll, dl, at, t);
    }
  }

  /** Adding one token at the end. */
  lemma AppendToken(ll: seq<nat>, dl: seq<nat>, v: nat, out: seq<byte>, toks: seq<Token>, t: Token)
    requires ReadsAll(ll, dl, v, toks) && Reads(ll, dl, After(ll, dl, v, toks), t) && Legal(out, toks)
    requires t.Copy? ==> t.Dist() <= |Expand(out, toks)|
    ensures ReadsAll(ll, dl, v, toks + [t]) && Legal(out, toks + [t])
    ensures After(ll, dl, v, toks + [t]) == AfterToken(ll, dl, After(ll, dl, v, toks), t)
    ensures BlockBits(ll, dl, toks + [t]) == BlockBits(ll, dl, toks) + TokenBits(ll, dl, t)
    ensures Expand(out, toks + [t]) ==
            if t.Literal? then Expand(out, toks) + [t.b] else CopyMatch(Expand(out, toks), t.Dist(), t.Length())
  {
    var all := toks + [t];
    assert all[..|all| - 1] == toks;
  }
}
