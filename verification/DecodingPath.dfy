/**
 The decoder's way through a stream: after every block the bits used, the output so far and the bit
 supply.  The format decides what a block is, the supply whether it is accepted.
 */
module DecodingPath {
  import opened Bits
  import opened Common
  import opened HuffmanCode
  import opened Deflate
  import opened BitSupply
  import opened BlockDecoding
  import opened CodeLengths
  import opened DescriptionDecoding
  import opened InflateSpec
  import opened InflateUnique

  datatype Place = Place(u: nat, o: seq<byte>, r: Supply)

  // ---- one block

  ghost predicate CompressedVia(s: seq<byte>, ll: seq<nat>, dl: seq<nat>, p: Place, q: Place, toks: seq<Token>) {
    && CompressedBy(s, p.o, q.o, ll, dl, p.u, q.u, toks)
    && PulledAll(|s|, p.r, ClosedPulls(ll, dl, toks)) == Some(q.r) && Unspent(q.r)
  }

  /** Tokens under these codes, which the supply lasts for and the check at their end lets pass. */
  ghost predicate CompressedTo(s: seq<byte>, ll: seq<nat>, dl: seq<nat>, p: Place, q: Place) {
    exists toks :: CompressedVia(s, ll, dl, p, q, toks)
  }

  /** Stored data never lies behind the input, so nothing is left in the buffer and nothing was made up. */
  ghost predicate StoredTo(s: seq<byte>, p: Place, q: Place) {
    StoredSpan(s, p.o, q.o, p.u, q.u) && q.r == Supply(q.u / 8, 0, 0, false)
  }

  ghost predicate DynamicVia(s: seq<byte>, p: Place, q: Place, d: Description) {
    && DescribesTo(|s|, Drop(StreamOf(s), p.u), p.r, d)
    && CompressedTo(s, d.ll, d.dl, Place(p.u + d.bits, p.o, d.r), q)
  }

  ghost predicate DynamicTo(s: seq<byte>, p: Place, q: Place) {
    exists d :: DynamicVia(s, p, q, d)
  }

  ghost predicate BodyTo(s: seq<byte>, kind: nat, p: Place, q: Place) {
    match kind
    case 0 => StoredTo(s, p, q)
    case 1 => CompressedTo(s, FixedLengths(), FixedDistances(), p, q)
    case 2 => DynamicTo(s, p, q)
    case _ => false
  }

  /** The final bit and the two-bit block type. */
  function HeaderPulls(): seq<Pull> {
    [Take(1), Take(2)]
  }

  /** A block from p to q that the supply lasts for. */
  ghost predicate BlockTo(s: seq<byte>, p: Place, q: Place, final: bool) {
    var v, h := Drop(StreamOf(s), p.u), PulledAll(|s|, p.r, HeaderPulls());
    && final == (Low(v, 1) == 1)
    && h.Some? && BodyTo(s, Low(Drop(v, 1), 2), Place(p.u + 3, p.o, h.value), q)
  }

  // ---- what can be decoded from a place, given the room for output

  ghost predicate CanCompressed(s: seq<byte>, ll: seq<nat>, dl: seq<nat>, p: Place, room: nat) {
    exists q: Place :: |q.o| <= room && CompressedTo(s, ll, dl, p, q)
  }

  ghost predicate CanDescribe(s: seq<byte>, p: Place) {
    exists d :: DescribesTo(|s|, Drop(StreamOf(s), p.u), p.r, d)
  }

  ghost predicate CanDynamic(s: seq<byte>, p: Place, room: nat) {
    exists q: Place :: |q.o| <= room && DynamicTo(s, p, q)
  }

  ghost predicate CanBody(s: seq<byte>, kind: nat, p: Place, room: nat) {
    exists q: Place :: |q.o| <= room && BodyTo(s, kind, p, q)
  }

  ghost predicate CanBlock(s: seq<byte>, p: Place, room: nat) {
    exists q: Place, final :: |q.o| <= room && BlockTo(s, p, q, final)
  }

  /** What a block decoder starts from at p. */
  ghost function JobAt(s: seq<byte>, ll: seq<nat>, dl: seq<nat>, p: Place, room: nat): Job {
    Job(ll, dl, Drop(StreamOf(s), p.u), p.o, |s|, p.r, room)
  }

  /** That is a block the decoding loop can finish. */
  lemma CanExactlyWhenDecodable(s: seq<byte>, ll: seq<nat>, dl: seq<nat>, p: Place, room: nat)
    ensures CanCompressed(s, ll, dl, p, room) <==> Decodable(JobAt(s, ll, dl, p, room))
  {
    hide Reads, Legal, Expand, PulledAll, ClosedPulls, Drop, StreamOf, BlockBits;
    var j := JobAt(s, ll, dl, p, room);
    if CanCompressed(s, ll, dl, p, room) {
      var q: Place :| |q.o| <= room && CompressedTo(s, ll, dl, p, q);
      var toks :| CompressedVia(s, ll, dl, p, q, toks);
      assert Feasible(j, toks);
    }
    if Decodable(j) {
      var toks :| Feasible(j, toks);
      var q := Place(p.u + BlockBits(ll, dl, toks) + ll[END_OF_BLOCK], Expand(p.o, toks),
                     PulledAll(|s|, p.r, ClosedPulls(ll, dl, toks)).value);
      assert CompressedVia(s, ll, dl, p, q, toks);
    }
  }

  lemma CanDynamicExactlyWhen(s: seq<byte>, p: Place, room: nat, d: Description)
    requires DescribesTo(|s|, Drop(StreamOf(s), p.u), p.r, d)
    ensures CanDynamic(s, p, room) <==> CanCompressed(s, d.ll, d.dl, Place(p.u + d.bits, p.o, d.r), room)
  {
    hide DescribesTo, CompressedTo, Drop, StreamOf;
    var m := Place(p.u + d.bits, p.o, d.r);
    if CanDynamic(s, p, room) {
      var q: Place :| |q.o| <= room && DynamicTo(s, p, q);
      var e :| DynamicVia(s, p, q, e);
      DescriptionToUnique(|s|, Drop(StreamOf(s), p.u), p.r, d, e);
    }
    if CanCompressed(s, d.ll, d.dl, m, room) {
      var q: Place :| |q.o| <= room && CompressedTo(s, d.ll, d.dl, m, q);
      assert DynamicVia(s, p, q, d);
    }
  }

  lemma NoDescriptionNoBlock(s: seq<byte>, p: Place, room: nat)
    requires !CanDescribe(s, p)
    ensures !CanDynamic(s, p, room)
  {
    hide DescribesTo, CompressedTo;
  }

  lemma DynamicBlock(s: seq<byte>, p: Place, q: Place, d: Description)
    requires DescribesTo(|s|, Drop(StreamOf(s), p.u), p.r, d)
    requires CompressedTo(s, d.ll, d.dl, Place(p.u + d.bits, p.o, d.r), q)
    ensures DynamicTo(s, p, q)
  {
    hide DescribesTo, CompressedTo, Drop, StreamOf;
    assert DynamicVia(s, p, q, d);
  }

  ghost predicate CodesAccepted(all: seq<nat>, split: nat) {
    split <= |all| && Accepted(all[..split]) && Accepted(all[split..])
  }

  /** A description that was spelled out is one exactly if both its codes are valid. */
  lemma DescribedExactlyWhen(s: seq<byte>, p: Place, all: seq<nat>, split: nat, bits: nat, ops: seq<Op>, f: Supply)
    requires split == Low(Drop(StreamOf(s), p.u), 5) + 257
    requires |all| == split + Low(Drop(Drop(StreamOf(s), p.u), 5), 5) + 1
    requires SpelledTo(|s|, Drop(StreamOf(s), p.u), p.r, all, bits, ops, f)
    ensures CanDescribe(s, p) <==> CodesAccepted(all, split)
    ensures CodesAccepted(all, split) ==>
              DescribesTo(|s|, Drop(StreamOf(s), p.u), p.r, Description(all[..split], all[split..], bits, f))
  {
    hide Accepted, Low, Drop, StreamOf, SpelledTo;
    var v := Drop(StreamOf(s), p.u);
    assert all[..split] + all[split..] == all;
    if CodesAccepted(all, split) {
      SpelledIsSpells(|s|, v, p.r, all, bits, ops, f);
      assert DescribesTo(|s|, v, p.r, Description(all[..split], all[split..], bits, f));
    }
    if CanDescribe(s, p) {
      var d :| DescribesTo(|s|, v, p.r, d);
      var x :| SpelledTo(|s|, v, p.r, d.ll + d.dl, d.bits, x, d.r);
      SpellingsAgree(|s|, v, p.r, all, bits, ops, f, d.ll + d.dl, d.bits, x, d.r);
      assert d.ll == all[..split] && d.dl == all[split..];
    }
  }

  lemma SpelledIsSpells(size: nat, v: nat, r: Supply, lens: seq<nat>, bits: nat, ops: seq<Op>, f: Supply)
    requires SpelledTo(size, v, r, lens, bits, ops, f)
    ensures Spells(v, lens, bits)
  {
    hide SpelledBy;
  }

  lemma DescribedIsSpelled(s: seq<byte>, p: Place)
    requires CanDescribe(s, p)
    ensures CanSpellAll(|s|, Drop(StreamOf(s), p.u), p.r)
  {
    hide SpelledTo, Accepted, Low, Drop, StreamOf;
    var v := Drop(StreamOf(s), p.u);
    var d :| DescribesTo(|s|, v, p.r, d);
    var x :| SpelledTo(|s|, v, p.r, d.ll + d.dl, d.bits, x, d.r);
  }

  lemma CanBlockExactlyWhen(s: seq<byte>, p: Place, room: nat, h: Place, kind: nat)
    requires PulledAll(|s|, p.r, HeaderPulls()) == Some(h.r) && h.u == p.u + 3 && h.o == p.o
    requires kind == Low(Drop(Drop(StreamOf(s), p.u), 1), 2)
    ensures CanBlock(s, p, room) <==> CanBody(s, kind, h, room)
  {
    hide BodyTo, Drop, StreamOf, Low, PulledAll;
    if CanBlock(s, p, room) {
      var q: Place, final :| |q.o| <= room && BlockTo(s, p, q, final);
    }
    if CanBody(s, kind, h, room) {
      var q: Place :| |q.o| <= room && BodyTo(s, kind, h, q);
      assert BlockTo(s, p, q, Low(Drop(StreamOf(s), p.u), 1) == 1);
    }
  }

  lemma CannotStore(s: seq<byte>, p: Place, room: nat)
    requires forall len {:trigger StoredAt(s, ByteIndex(p.u), len)} ::
               StoredAt(s, ByteIndex(p.u), len) ==> |p.o| + len > room
    ensures !CanBody(s, 0, p, room)
  {
  }

  // ---- blocks of this kind are blocks of the format, and the only ones

  lemma BodyToIs(s: seq<byte>, kind: nat, p: Place, q: Place)
    requires BodyTo(s, kind, p, q)
    ensures BodyIs(s, kind, p.u, q.u, p.o, q.o)
  {
    hide CompressedBy, DescribesTo, StoredSpan, FixedLengths, FixedDistances, Drop, StreamOf;
    if kind == 1 {
      var toks :| CompressedVia(s, FixedLengths(), FixedDistances(), p, q, toks);
    } else if kind == 2 {
      var d :| DynamicVia(s, p, q, d);
      var toks :| CompressedVia(s, d.ll, d.dl, Place(p.u + d.bits, p.o, d.r), q, toks);
      DescriptionIs(|s|, Drop(StreamOf(s), p.u), p.r, d);
      assert DescribedBy(s, p.o, q.o, p.u, q.u, d.ll, d.dl, d.bits);
    }
  }

  lemma DescriptionIs(size: nat, v: nat, r: Supply, d: Description)
    requires DescribesTo(size, v, r, d)
    ensures Describes(v, d.ll, d.dl, d.bits)
  {
  }

  lemma BlockToIs(s: seq<byte>, p: Place, q: Place, final: bool)
    requires BlockTo(s, p, q, final)
    ensures IsBlock(s, Span(p.u, q.u, p.o, q.o), final) && Drop(StreamOf(s), q.u) < Drop(StreamOf(s), p.u)
  {
    hide BodyTo, BodyIs, Drop, StreamOf, Low;
    var v := Drop(StreamOf(s), p.u);
    var h := PulledAll(|s|, p.r, HeaderPulls()).value;
    BodyToIs(s, Low(Drop(v, 1), 2), Place(p.u + 3, p.o, h), q);
    BlockOf(s, p.u, q.u, p.o, q.o, v, p.u + 3, Low(Drop(v, 1), 2), final);
  }

  lemma CompressedToUnique(s: seq<byte>, ll: seq<nat>, dl: seq<nat>, p: Place, q: Place, q': Place)
    requires Lengths(ll) && Lengths(dl) && CompressedTo(s, ll, dl, p, q) && CompressedTo(s, ll, dl, p, q')
    ensures q == q'
  {
    hide BlockIs, Legal, PulledAll, ClosedPulls, Drop, StreamOf, BlockBits, Unspent;
    var x :| CompressedVia(s, ll, dl, p, q, x);
    var y :| CompressedVia(s, ll, dl, p, q', y);
    BlockUnique(ll, dl, Drop(StreamOf(s), p.u), x, y);
  }

  lemma BodyToUnique(s: seq<byte>, kind: nat, p: Place, q: Place, q': Place)
    requires BodyTo(s, kind, p, q) && BodyTo(s, kind, p, q')
    ensures q == q'
  {
    hide CompressedTo, DescribesTo, FixedLengths, FixedDistances, Drop, StreamOf;
    if kind == 1 {
      CompressedToUnique(s, FixedLengths(), FixedDistances(), p, q, q');
    } else if kind == 2 {
      var d :| DynamicVia(s, p, q, d);
      var e :| DynamicVia(s, p, q', e);
      DescriptionToUnique(|s|, Drop(StreamOf(s), p.u), p.r, d, e);
      CompressedToUnique(s, d.ll, d.dl, Place(p.u + d.bits, p.o, d.r), q, q');
    }
  }

  /** From one place a stream has one block, ending in one place. */
  lemma BlockToUnique(s: seq<byte>, p: Place, q: Place, final: bool, q': Place, final': bool)
    requires BlockTo(s, p, q, final) && BlockTo(s, p, q', final')
    ensures q == q' && final == final'
  {
    hide BodyTo, Drop, StreamOf, Low;
    var v := Drop(StreamOf(s), p.u);
    var h := PulledAll(|s|, p.r, HeaderPulls()).value;
    BodyToUnique(s, Low(Drop(v, 1), 2), Place(p.u + 3, p.o, h), q, q');
  }

  // ---- a whole stream

  function At(p: Place, qs: seq<Place>): Place {
    if qs == [] then p else qs[|qs| - 1]
  }

  /** Blocks, none of them final, from p by way of these places. */
  ghost predicate Passes(s: seq<byte>, p: Place, qs: seq<Place>) {
    qs != [] ==>
      var init := qs[..|qs| - 1];
      Passes(s, p, init) && BlockTo(s, At(p, init), qs[|qs| - 1], false)
  }

  /** Such blocks and then a final one. */
  ghost predicate StreamTo(s: seq<byte>, p: Place, qs: seq<Place>) {
    qs != [] &&
    var init := qs[..|qs| - 1];
    Passes(s, p, init) && BlockTo(s, At(p, init), qs[|qs| - 1], true)
  }

  /** From p the stream can be decoded to its end, within the room for output. */
  ghost predicate CanInflate(s: seq<byte>, p: Place, room: nat) {
    exists qs :: StreamTo(s, p, qs) && |At(p, qs).o| <= room
  }

  function SpansOf(p: Place, qs: seq<Place>): seq<Span> {
    if qs == [] then []
    else
      var init, q := qs[..|qs| - 1], qs[|qs| - 1];
      SpansOf(p, init) + [Span(At(p, init).u, q.u, At(p, init).o, q.o)]
  }

  lemma {:induction false} PassesIsChain(s: seq<byte>, p: Place, qs: seq<Place>)
    requires Passes(s, p, qs)
    ensures Chain(s, p.u, p.o, At(p, qs).u, At(p, qs).o, SpansOf(p, qs))
  {
    hide BlockTo, IsBlock;
    if qs != [] {
      var init, q := qs[..|qs| - 1], qs[|qs| - 1];
      PassesIsChain(s, p, init);
      BlockToIs(s, At(p, init), q, false);
      var b := Span(At(p, init).u, q.u, At(p, init).o, q.o);
      assert SpansOf(p, qs)[..|SpansOf(p, qs)| - 1] == SpansOf(p, init);
    }
  }

  /** Whatever is accepted is a stream of the format. */
  lemma StreamInflates(s: seq<byte>, p: Place, qs: seq<Place>)
    requires StreamTo(s, p, qs)
    ensures Inflates(s, p.u, p.o, At(p, qs).o, SpansOf(p, qs))
    ensures SpansOf(p, qs)[|SpansOf(p, qs)| - 1].to == At(p, qs).u
  {
    hide BlockTo, IsBlock;
    var init, q := qs[..|qs| - 1], qs[|qs| - 1];
    PassesIsChain(s, p, init);
    BlockToIs(s, At(p, init), q, true);
    assert SpansOf(p, qs)[..|SpansOf(p, qs)| - 1] == SpansOf(p, init);
  }

  // ---- streams within the input

  lemma CompressedWithin(s: seq<byte>, ll: seq<nat>, dl: seq<nat>, p: Place, out: seq<byte>, to: nat)
    returns (q: Place)
    requires Lengths(ll) && Lengths(dl) && Sound(|s|, p.r, p.u)
    requires CompressedSpan(s, p.o, out, ll, dl, p.u, to) && to <= 8 * |s|
    ensures q.u == to && q.o == out && CompressedTo(s, ll, dl, p, q) && Sound(|s|, q.r, q.u)
  {
    hide BlockBits, Expand, Legal, Drop, StreamOf, Sound, ClosedPulls, PulledAll, TotalWidth, Unspent, Reads;
    var toks :| CompressedBy(s, p.o, out, ll, dl, p.u, to, toks);
    var ps := ClosedPulls(ll, dl, toks);
    WithinLasts(|s|, p.r, p.u, ll, dl, toks);
    ClosedWidth(ll, dl, toks);
    PulledAllSound(|s|, p.r, p.u, ps);
    q := Place(to, out, PulledAll(|s|, p.r, ps).value);
    assert CompressedVia(s, ll, dl, p, q, toks);
  }

  lemma DynamicWithin(s: seq<byte>, p: Place, out: seq<byte>, to: nat) returns (q: Place)
    requires Sound(|s|, p.r, p.u) && DynamicSpan(s, p.o, out, p.u, to) && to <= 8 * |s|
    ensures q.u == to && q.o == out && DynamicTo(s, p, q) && Sound(|s|, q.r, q.u)
  {
    hide Drop, StreamOf, Sound, CompressedSpan, CompressedTo, Describes, DescribesTo;
    var ll, dl, bits: nat :| DescribedBy(s, p.o, out, p.u, to, ll, dl, bits);
    SpanGrows(s, p.o, out, ll, dl, p.u + bits, to);
    var d := DescriptionWithin(|s|, Drop(StreamOf(s), p.u), p.r, p.u, ll, dl, bits);
    DescriptionToUnique(|s|, Drop(StreamOf(s), p.u), p.r, d, d);
    q := CompressedWithin(s, ll, dl, Place(p.u + bits, p.o, d.r), out, to);
    assert DynamicVia(s, p, q, d);
  }

  lemma BodyWithin(s: seq<byte>, kind: nat, p: Place, out: seq<byte>, to: nat) returns (q: Place)
    requires Sound(|s|, p.r, p.u) && BodyIs(s, kind, p.u, to, p.o, out) && to <= 8 * |s|
    ensures q.u == to && q.o == out && BodyTo(s, kind, p, q) && Sound(|s|, q.r, q.u)
  {
    hide DynamicSpan, CompressedSpan, CompressedTo, DynamicTo, StreamOf, Drop, FixedLengths, FixedDistances;
    if kind == 0 {
      q := Place(to, out, Supply(to / 8, 0, 0, false));
    } else if kind == 1 {
      q := CompressedWithin(s, FixedLengths(), FixedDistances(), p, out, to);
    } else {
      q := DynamicWithin(s, p, out, to);
    }
  }

  /** The supply lasts for every block that lies within the input. */
  lemma BlockWithinLasts(s: seq<byte>, p: Place, b: Span, final: bool) returns (q: Place)
    requires Sound(|s|, p.r, p.u) && b.from == p.u && b.before == p.o && IsBlock(s, b, final) && b.to <= 8 * |s|
    ensures q.u == b.to && q.o == b.after && BlockTo(s, p, q, final) && Sound(|s|, q.r, q.u)
  {
    hide BodyIs, BodyTo, Drop, StreamOf, Low, Sound;
    var v := Drop(StreamOf(s), p.u);
    HeaderSound(|s|, p.r, p.u);
    var h := PulledAll(|s|, p.r, HeaderPulls()).value;
    q := BodyWithin(s, Low(Drop(v, 1), 2), Place(p.u + 3, p.o, h), b.after, b.to);
  }

  lemma HeaderSound(size: nat, r: Supply, used: nat)
    requires Sound(size, r, used)
    ensures var h := PulledAll(size, r, HeaderPulls()); h.Some? && Sound(size, h.value, used + 3)
  {
    hide PulledAll, TotalWidth, Sound;
    TakesAreSupplied(size, r, HeaderPulls());
    OneWidth(Take(1));
    OneWidth(Take(2));
    PulledAllConcat(size, r, [Take(1)], [Take(2)]);
    assert [Take(1)] + [Take(2)] == HeaderPulls();
    PulledAllSound(size, r, used, HeaderPulls());
  }

  lemma {:induction false} ChainWithin(s: seq<byte>, p: Place, to: nat, out: seq<byte>, spans: seq<Span>)
    returns (qs: seq<Place>)
    requires Sound(|s|, p.r, p.u) && Chain(s, p.u, p.o, to, out, spans) && to <= 8 * |s|
    ensures Passes(s, p, qs) && SpansOf(p, qs) == spans
    ensures At(p, qs).u == to && At(p, qs).o == out && Sound(|s|, At(p, qs).r, to)
    decreases |spans|
  {
    hide Sound, IsBlock, BlockTo;
    qs := [];
    if spans != [] {
      var init, b := spans[..|spans| - 1], spans[|spans| - 1];
      BlockGrows(s, b, false);
      qs := ChainWithin(s, p, b.from, b.before, init);
      var q := BlockWithinLasts(s, At(p, qs), b, false);
      assert (qs + [q])[..|qs + [q]| - 1] == qs;
      qs := qs + [q];
    }
  }

  /** Every stream that lies within the input, and whose output fits the room, can be decoded. */
  lemma StreamWithin(s: seq<byte>, p: Place, out: seq<byte>, spans: seq<Span>, room: nat) returns (qs: seq<Place>)
    requires Sound(|s|, p.r, p.u) && Inflates(s, p.u, p.o, out, spans)
    requires spans[|spans| - 1].to <= 8 * |s| && |out| <= room
    ensures StreamTo(s, p, qs) && SpansOf(p, qs) == spans && At(p, qs).o == out && CanInflate(s, p, room)
  {
    hide Sound, IsBlock, BlockTo, Chain, Passes;
    var init, b := spans[..|spans| - 1], spans[|spans| - 1];
    BlockGrows(s, b, true);
    qs := ChainWithin(s, p, b.from, b.before, init);
    var q := BlockWithinLasts(s, At(p, qs), b, true);
    assert (qs + [q])[..|qs + [q]| - 1] == qs;
    qs := qs + [q];
  }

  // ---- following a stream

  /** The places of a stream, if it can be decoded. */
  ghost function PathOf(s: seq<byte>, p: Place, room: nat): (qs: seq<Place>)
    ensures CanInflate(s, p, room) ==> StreamTo(s, p, qs) && |At(p, qs).o| <= room
  {
    if CanInflate(s, p, room) then
      var qs :| StreamTo(s, p, qs) && |At(p, qs).o| <= room;
      qs
    else []
  }

  lemma {:induction false} PassesParts(s: seq<byte>, p: Place, qs: seq<Place>, k: nat)
    requires Passes(s, p, qs) && k < |qs|
    ensures BlockTo(s, At(p, qs[..k]), qs[k], false)
    decreases |qs|
  {
    hide BlockTo;
    var init := qs[..|qs| - 1];
    assert k < |init| ==> init[..k] == qs[..k];
    if k < |init| {
      PassesParts(s, p, init, k);
    }
  }

  lemma StreamBlock(s: seq<byte>, p: Place, qs: seq<Place>, k: nat)
    requires StreamTo(s, p, qs) && k < |qs|
    ensures BlockTo(s, At(p, qs[..k]), qs[k], k == |qs| - 1)
  {
    hide BlockTo;
    var init := qs[..|qs| - 1];
    if k < |init| {
      assert init[..k] == qs[..k];
      PassesParts(s, p, init, k);
    }
  }

  /** Output only grows along the way. */
  lemma {:induction false} PathGrows(s: seq<byte>, p: Place, qs: seq<Place>, k: nat)
    requires StreamTo(s, p, qs) && k < |qs|
    ensures |qs[k].o| <= |At(p, qs).o|
    decreases |qs| - k
  {
    hide BlockTo, StreamTo;
    if k + 1 < |qs| {
      PathGrows(s, p, qs, k + 1);
      StreamBlock(s, p, qs, k + 1);
      assert At(p, qs[..k + 1]) == qs[k];
      var b := Span(qs[k].u, qs[k + 1].u, qs[k].o, qs[k + 1].o);
      BlockToIs(s, qs[k], qs[k + 1], k + 1 == |qs| - 1);
      BlockGrows(s, b, k + 1 == |qs| - 1);
    }
  }

  /** The decoder has come by these places, and they begin the stream's own, if it can be decoded. */
  ghost predicate OnPath(s: seq<byte>, p: Place, room: nat, qs: seq<Place>, here: Place, final: bool) {
    && here == At(p, qs) && (if final then StreamTo(s, p, qs) else Passes(s, p, qs))
    && (CanInflate(s, p, room) ==>
          var all := PathOf(s, p, room);
          |qs| <= |all| && qs == all[..|qs|] && (final <==> |qs| == |all|))
  }

  lemma PathStarts(s: seq<byte>, p: Place, room: nat)
    ensures OnPath(s, p, room, [], p, false)
  {
    hide StreamTo;
    if CanInflate(s, p, room) {
      NonEmptyPath(s, p, PathOf(s, p, room));
    }
  }

  lemma NonEmptyPath(s: seq<byte>, p: Place, qs: seq<Place>)
    requires StreamTo(s, p, qs)
    ensures qs != []
  {
  }

  lemma PathEnds(s: seq<byte>, p: Place, room: nat, qs: seq<Place>, here: Place)
    requires OnPath(s, p, room, qs, here, true)
    ensures StreamTo(s, p, qs) && here == At(p, qs) && Unspent(here.r)
    ensures Inflates(s, p.u, p.o, here.o, SpansOf(p, qs))
    ensures |here.o| <= room ==> CanInflate(s, p, room)
  {
    hide BlockTo, Inflates, SpansOf;
    StreamInflates(s, p, qs);
    BlockUnspent(s, At(p, qs[..|qs| - 1]), here, true);
  }

  /** No block is accepted that took any of the sixteen zero bits the decoder adds itself. */
  lemma BlockUnspent(s: seq<byte>, p: Place, q: Place, final: bool)
    requires BlockTo(s, p, q, final)
    ensures Unspent(q.r)
  {
    hide CompressedBy, DescribesTo, StoredSpan, PulledAll, Low, Drop, StreamOf, FixedLengths, FixedDistances;
  }

  /** While the stream goes on its next block can be decoded, */
  lemma PathGoesOn(s: seq<byte>, p: Place, room: nat, qs: seq<Place>, here: Place)
    requires OnPath(s, p, room, qs, here, false)
    ensures CanInflate(s, p, room) ==> CanBlock(s, here, room)
  {
    hide StreamTo, BlockTo, Passes;
    if CanInflate(s, p, room) {
      var all, k := PathOf(s, p, room), |qs|;
      StreamBlock(s, p, all, k);
      PathGrows(s, p, all, k);
    }
  }

  /** and whatever block is decoded is that one. */
  lemma PathContinues(s: seq<byte>, p: Place, room: nat, qs: seq<Place>, here: Place, q: Place, final: bool)
    requires OnPath(s, p, room, qs, here, false) && BlockTo(s, here, q, final)
    ensures OnPath(s, p, room, qs + [q], q, final)
  {
    hide BlockTo;
    assert (qs + [q])[..|qs + [q]| - 1] == qs;
    if CanInflate(s, p, room) {
      PathContinuesOnly(s, p, room, qs, here, q, final);
    }
  }

  lemma PathContinuesOnly(s: seq<byte>, p: Place, room: nat, qs: seq<Place>, here: Place, q: Place, final: bool)
    requires OnPath(s, p, room, qs, here, false) && BlockTo(s, here, q, final) && CanInflate(s, p, room)
    ensures var all := PathOf(s, p, room);
            |qs| < |all| && qs + [q] == all[..|qs| + 1] && (final <==> |qs| + 1 == |all|)
  {
    hide BlockTo, StreamTo, Passes;
    var all, k := PathOf(s, p, room), |qs|;
    StreamBlock(s, p, all, k);
    BlockToUnique(s, here, q, final, all[k], k == |all| - 1);
  }
}
