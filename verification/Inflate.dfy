/** The zlib decoder: bit reader, growing output buffer, compressed and stored blocks. */
module Inflate {
  import opened Bits
  import opened Common
  import opened HuffmanCode
  import opened ZHuffmanTable
  import opened Deflate
  import opened BitSupply
  import opened BlockDecoding
  import opened CodeLengths
  import opened DescriptionDecoding
  import opened InflateSpec
  import opened InflateUnique
  import opened DecodingPath

  const UINT_MAX: nat := 0xFFFF_FFFF

  /** The size a growing buffer of this size can be doubled to. */
  function Grown(limit: nat): (g: nat)
    ensures limit <= g && (limit <= UINT_MAX ==> g <= UINT_MAX)
    decreases UINT_MAX - limit
  {
    if limit == 0 || limit > UINT_MAX / 2 then limit else Grown(2 * limit)
  }

  /** It is reached by doubling alone, and one more doubling would need more than 32 bits. */
  lemma {:induction false} GrownIsDoubled(limit: nat) returns (k: nat)
    requires 1 <= limit <= 4294967295
    ensures Grown(limit) == Shl(limit, k) && Grown(limit) <= 4294967295 < 2 * Grown(limit)
    decreases UINT_MAX - limit
  {
    k := 0;
    if limit <= UINT_MAX / 2 {
      k := GrownIsDoubled(2 * limit);
      ShlDouble(limit, k);
      k := k + 1;
    }
  }

  /** The stream held by n buffered bits and the unread bytes behind them. */
  function Joined(codeBuffer: nat, n: nat, rest: nat): nat {
    codeBuffer + Shl(rest, n)
  }

  lemma JoinByte(c: nat, n: nat, b: nat, rest: nat)
    requires c < Pow2(n) && b < 256
    ensures Joined(c, n, b) < Pow2(n + 8)
    ensures Joined(Joined(c, n, b), n + 8, rest) == Joined(c, n, b + 256 * rest)
  {
    Pow2Values();
    ShlWhole(8, n + 8);
    ShlMono(b, 256, n);
    ShlAdd(b, 256 * rest, n);
    ShlShl(rest, 8, n);
    ShlEight(rest);
  }

  lemma EightMore(bits: nat, used: nat, pos: nat, pad: nat)
    ensures pad % 8 == 0 ==> (pad + 8) % 8 == 0
    ensures bits + used == 8 * pos + pad ==>
              bits + 8 + used == 8 * pos + (pad + 8) && bits + 8 + used == 8 * (pos + 1) + pad
  {
  }

  lemma ByteTaken(v: nat, u: nat, b: nat, rest: nat)
    requires b < 256 && Drop(v, u) == b + 256 * rest
    ensures Drop(v, u + 8) == rest && Low(Drop(v, u), 8) == b
  {
    ByteOff(b, rest);
    DropDrop(v, u, 8);
  }

  /** Taking k buffered bits takes k bits of the stream. */
  lemma TakeBuffered(c: nat, n: nat, k: nat, rest: nat)
    requires c < Pow2(n) && k <= n
    ensures Low(c, k) == Low(Joined(c, n, rest), k)
    ensures Drop(c, k) < Pow2(n - k) && Joined(Drop(c, k), n - k, rest) == Drop(Joined(c, n, rest), k)
  {
    SplitAt(c, k);
    ShlShl(rest, n - k, k);
    ShlAdd(Drop(c, k), Shl(rest, n - k), k);
    JoinSplit(Low(c, k), k, Joined(Drop(c, k), n - k, rest));
    ShlWhole(n - k, n);
    ShlOrder(Pow2(n - k), Drop(c, k), k);
  }

  lemma HeaderByteIs(s: seq<byte>, i: nat, b: byte)
    requires b == Low(Drop(StreamOf(s), 8 * i), 8)
    ensures b == ByteAt(s, i)
  {
    DropBytes(s, i);
    ByteOff(ByteAt(s, i), StreamOf(Tail(s, i + 1)));
  }

  lemma AlignArith(u: nat, bits: nat, pos: nat, pad: nat) returns (m: nat)
    requires bits + u == 8 * pos + pad && pad % 8 == 0
    ensures bits - bits % 8 == 8 * m && u + bits % 8 == 8 * ByteIndex(u)
  {
    m := bits / 8;
    assert u + bits % 8 == 8 * (pos + pad / 8 - m);
  }

  /** The bytes read so far of a header that starts at byte h. */
  ghost predicate HeaderIs(s: seq<byte>, h: nat, header: seq<byte>) {
    forall i :: 0 <= i < |header| ==> header[i] == ByteAt(s, h + i)
  }

  /** The header leaves one candidate for the length of the stored data. */
  lemma OnlyStored(s: seq<byte>, h: nat, header: seq<byte>, len: nat, nlen: nat)
    requires |header| == 4 && HeaderIs(s, h, header)
    requires len == Le16(header[0], header[1]) && nlen == Le16(header[2], header[3])
    ensures forall l {:trigger StoredAt(s, h, l)} ::
              StoredAt(s, h, l) <==> l == len && nlen == 0xFFFF - len && h + 4 + len <= |s|
    ensures nlen == 0xFFFF - len && h + 4 > |s| ==> len > 0
  {
    assert header[0] == ByteAt(s, h + 0);
  }

  lemma HeaderAppend(s: seq<byte>, h: nat, header: seq<byte>, b: byte)
    requires HeaderIs(s, h, header) && b == ByteAt(s, h + |header|)
    ensures HeaderIs(s, h, header + [b])
  {
  }

  // ---- what is accepted

  lemma HeaderPulled(size: nat, r: Supply)
    ensures PulledAll(size, r, HeaderPulls()) ==
            match Pulled(size, r, Take(1)) case None => None case Some(f) => Pulled(size, f, Take(2))
  {
    hide PulledAll, Pulled;
    assert [Take(1)] + [Take(2)] == HeaderPulls();
    PulledAllConcat(size, r, [Take(1)], [Take(2)]);
    OnePull(size, r, Take(1));
    match Pulled(size, r, Take(1))
    case None =>
    case Some(f) => OnePull(size, f, Take(2));
  }

  /** A block that takes no late number ends at most three bytes behind the input. */
  lemma LateEnd(j: Job, u: nat, toks: seq<Token>, used: nat, r: Supply)
    requires Sound(j.size, j.r, u) && Lengths(j.ll) && Lengths(j.dl)
    requires AllCodable(j.ll, j.dl, toks) && END_OF_BLOCK < |j.ll|
    requires used == u + BlockBits(j.ll, j.dl, toks) + j.ll[END_OF_BLOCK]
    requires PulledAll(j.size, j.r, ClosedPulls(j.ll, j.dl, toks)) == Some(r) && Unspent(r)
    ensures NoLateTake(j.size, j.r, ClosedPulls(j.ll, j.dl, toks)) && Refill(j.r) <= 24 ==> used <= 8 * (j.size + 3)
  {
    var ps := ClosedPulls(j.ll, j.dl, toks);
    ClosedWidth(j.ll, j.dl, toks);
    hide ClosedPulls, PulledAll, NoLateTake, Sound, Unspent, BlockBits, TotalWidth;
    if NoLateTake(j.size, j.r, ps) && Refill(j.r) <= 24 {
      ThreeBytesAtMost(j.size, j.r, u, ps);
    }
  }

  lemma FixedTables(all: seq<nat>)
    requires all == FixedLengths() + FixedDistances()
    ensures |all| == 320 && Lengths(all) && all[..288] == FixedLengths() && all[288..] == FixedDistances()
    ensures Accepted(all[..288]) && Accepted(all[288..])
  {
    hide FixedLengths, FixedDistances, Accepted, Kraft;
    FixedCodesAccepted();
    assert all[..288] == FixedLengths() && all[288..] == FixedDistances();
  }

  /** What decoding yields where an instruction comes that the supply lasts for. */
  lemma OpComes(cl: seq<nat>, v: nat, wanted: Op, size: nat, r: Supply, c: int)
    requires Lengths(cl) && ReadsOp(cl, v, wanted) && PulledAll(size, r, OpPulls(cl, wanted)).Some?
    requires if c == -1 then NoSymbol(cl, v, size, r) else c >= 0 && Matches(cl, v, c)
    ensures c == wanted.Symbol()
  {
    if c == -1 {
      hide PulledAll;
      var p := Sym(cl[wanted.Symbol()]);
      PulledAllConcat(size, r, [p], Extra(wanted.ExtraBits()));
      OnePull(size, r, p);
    } else {
      MatchUnique(cl, v, c, wanted.Symbol());
    }
  }

  // ---- following a whole stream

  function StartOf(parseHeader: bool): nat {
    if parseHeader then 16 else 0
  }

  function FreshSupply(parseHeader: bool): Supply {
    Supply(if parseHeader then 2 else 0, 0, 0, false)
  }

  /** A chain of blocks that lies within the input and whose output fits the room. */
  ghost predicate DueStream(s: seq<byte>, u: nat, o: seq<byte>, room: nat, spans: seq<Span>) {
    && spans != [] && Inflates(s, u, o, spans[|spans| - 1].after, spans)
    && spans[|spans| - 1].to <= 8 * |s| && |spans[|spans| - 1].after| <= room
  }

  /** Where decoding starts. */
  ghost function Opening(parseHeader: bool, o: seq<byte>): Place {
    Place(StartOf(parseHeader), o, FreshSupply(parseHeader))
  }

  /** A stream within the input and the room can be decoded, and to nothing else. */
  lemma DueIsInflated(s: seq<byte>, parseHeader: bool, o: seq<byte>, room: nat, spans: seq<Span>)
    requires (parseHeader ==> HeaderOk(s)) && DueStream(s, StartOf(parseHeader), o, room, spans)
    ensures spans != [] && CanInflate(s, Opening(parseHeader, o), room)
    ensures forall qs :: StreamTo(s, Opening(parseHeader, o), qs) ==>
                           At(Opening(parseHeader, o), qs).o == spans[|spans| - 1].after
                           && SpansOf(Opening(parseHeader, o), qs) == spans
  {
    hide Inflates, StreamTo, CanInflate;
    var p, out := Opening(parseHeader, o), spans[|spans| - 1].after;
    var _ := StreamWithin(s, p, out, spans, room);
    forall qs | StreamTo(s, p, qs)
      ensures At(p, qs).o == out && SpansOf(p, qs) == spans
    {
      StreamInflates(s, p, qs);
      InflatesUnique(s, p.u, o, At(p, qs).o, SpansOf(p, qs), out, spans);
    }
  }

  class ZBuf {
    const input: seq<byte>
    const expandable: bool
    const zLength: ZHuffman
    const zDistance: ZHuffman
    var pos: nat
    var numBits: nat
    var codeBuffer: nat
    var hitEof: bool
    var out: array<byte>
    var n: nat
    ghost var used: nat  // stream bits taken so far
    ghost var pad: nat   // zero bits buffered past the end of the input

    constructor (input: seq<byte>, capacity: nat, expandable: bool)
      requires capacity <= UINT_MAX && (expandable ==> capacity > 0)
      ensures ReaderValid() && OutValid() && this.input == input && this.expandable == expandable
      ensures Rest() == StreamOf(input) && used == 0 && Output() == [] && out.Length == capacity
      ensures Layout() && OutApart() && Begun()
      ensures fresh(out) && fresh(zLength) && fresh(zLength.fast) && fresh(zLength.firstcode) && fresh(zLength.maxcode)
      ensures fresh(zLength.firstsymbol) && fresh(zLength.size) && fresh(zLength.value)
      ensures fresh(zDistance) && fresh(zDistance.fast) && fresh(zDistance.firstcode) && fresh(zDistance.maxcode)
      ensures fresh(zDistance.firstsymbol) && fresh(zDistance.size) && fresh(zDistance.value)
    {
      this.input, this.expandable := input, expandable;
      zLength := new ZHuffman();
      zDistance := new ZHuffman();
      out := new byte[capacity];
      pos, numBits, codeBuffer, hitEof, n, used, pad := 0, 0, 0, false, 0, 0, 0;
      new;
      assert input[0..] == input;
    }

    /** Nothing was read yet. */
    ghost predicate Begun()
      reads this
    {
      pos == 0 && numBits == 0 && used == 0 && pad == 0 && !hitEof
    }

    // ---- bit reader

    ghost predicate ReaderValid()
      reads this
    {
      && pos <= |input| && numBits <= 32 && codeBuffer < Pow2(numBits)
      && numBits + used == 8 * pos + pad && pad % 8 == 0
      && (pad > 0 ==> pos == |input|) && (hitEof ==> pad >= 16)
      && Pending() == Rest()
    }

    /** The input, zero-extended, from bit `used` on. */
    ghost function Rest(): nat
      reads this
    {
      Drop(StreamOf(input), used)
    }

    /** The state of the bit supply. */
    ghost function Stock(): Supply
      reads this
    {
      Supply(pos, numBits, pad, hitEof)
    }

    lemma StockSound()
      requires ReaderValid()
      ensures Sound(|input|, Stock(), used)
    {
    }

    /** What the bit buffer and the unread bytes hold; ReaderValid equates it with Rest. */
    ghost function Pending(): nat
      requires pos <= |input|
      reads this
    {
      Joined(codeBuffer, numBits, StreamOf(input[pos..]))
    }

    predicate AtEof()
      requires pos <= |input|
      reads this
    {
      pos >= |input|
    }

    method Get8() returns (b: byte)
      requires pos <= |input|
      modifies this`pos
      ensures pos == if old(pos) < |input| then old(pos) + 1 else old(pos)
      ensures pos <= |input| && StreamOf(input[old(pos)..]) == b + 256 * StreamOf(input[pos..])
      ensures b == if old(pos) < |input| then input[old(pos)] else 0
    {
      if AtEof() {
        b := 0;
      } else {
        b := input[pos];
        pos := pos + 1;
        assert input[old(pos)..][1..] == input[pos..];
      }
    }

    /** One round of fill_bits: the early exit is taken exactly when the buffer holds stray bits. */
    method FillByte() returns (ok: bool)
      requires pos <= |input| && numBits <= 24
      modifies this`pos, this`codeBuffer, this`numBits, this`pad
      ensures ok <==> old(codeBuffer) < Pow2(old(numBits))
      ensures !ok ==> pos == |input| && codeBuffer == old(codeBuffer) && numBits == old(numBits)
      ensures ok && old(ReaderValid()) ==>
                ReaderValid() && Stock() == OneByte(|input|, old(Stock()))
    {
      if codeBuffer >= Pow2(numBits) {
        pos := |input|;
        return false;
      }
      hide StreamOf, Drop, Joined, Pow2;
      ghost var eof := AtEof();
      ghost var c, n, before := codeBuffer, numBits, StreamOf(input[pos..]);
      var b := Get8();
      ghost var rest := StreamOf(input[pos..]);
      JoinByte(c, n, b, rest);
      codeBuffer := Joined(codeBuffer, numBits, b);
      numBits := numBits + 8;
      EightMore(n, used, old(pos), pad);
      pad := if eof then pad + 8 else pad;
      assert Joined(codeBuffer, numBits, rest) == Joined(c, n, before);
      ok := true;
    }

    method FillBits()
      requires ReaderValid() && numBits <= 24
      modifies this`pos, this`codeBuffer, this`numBits, this`pad
      ensures ReaderValid() && Stock() == Refilled(|input|, old(Stock()))
    {
      var again := true;
      while again
        invariant ReaderValid() && Refilled(|input|, Stock()) == Refilled(|input|, old(Stock()))
        invariant again <==> numBits <= 24
        decreases 40 - numBits
      {
        var ok := FillByte();
        again := ok && numBits <= 24;
      }
    }

    /** The next k bits of the stream. */
    method Receive(k: nat) returns (v: nat)
      requires ReaderValid() && k <= 16
      modifies this`pos, this`codeBuffer, this`numBits, this`pad, this`used
      ensures ReaderValid() && used == old(used) + k
      ensures v == Low(old(Rest()), k) && Rest() == Drop(old(Rest()), k)
      ensures Pulled(|input|, old(Stock()), Take(k)) == Some(Stock())
      ensures old(numBits) >= k ==> numBits == old(numBits) - k && pos == old(pos) && pad == old(pad)
    {
      hide StreamOf, Joined, Drop, Low, Refilled, Pow2;
      if numBits < k {
        FillBits();
      }
      v := Low(codeBuffer, k);
      Consume(k);
    }

    method Consume(k: nat)
      requires ReaderValid() && k <= numBits
      modifies this`codeBuffer, this`numBits, this`used
      ensures ReaderValid() && used == old(used) + k && numBits == old(numBits) - k
      ensures Low(old(codeBuffer), k) == Low(old(Rest()), k)
      ensures Rest() == Drop(old(Rest()), k)
    {
      TakeBuffered(codeBuffer, numBits, k, StreamOf(input[pos..]));
      DropDrop(StreamOf(input), used, k);
      codeBuffer := Drop(codeBuffer, k);
      numBits := numBits - k;
      used := used + k;
    }

    /** The symbol whose code comes next.  A refusal means that no code comes next or that the supply is at its end. */
    method HuffmanDecode(z: ZHuffman) returns (r: int)
      requires ReaderValid() && z.Shape() && z.Built()
      modifies this`pos, this`codeBuffer, this`numBits, this`pad, this`used, this`hitEof
      ensures ReaderValid()
      ensures r == -1 || (r >= 0 && Matches(z.lens, old(Rest()), r)
                          && Rest() == Drop(old(Rest()), z.lens[r]) && used == old(used) + z.lens[r])
      ensures r >= 0 ==> Pulled(|input|, old(Stock()), Sym(z.lens[r])) == Some(Stock())
      ensures r == -1 ==> NoSymbol(z.lens, old(Rest()), |input|, old(Stock()))
    {
      hide Drop, StreamOf, Joined, Refilled, Viewed, Pulled, Matches, Lengths, ZHuffman.Built;
      ghost var size, stock := |input|, Stock();
      var ok := View16();
      if !ok {
        return -1;
      }
      z.BuiltLengths();
      WindowOfStream(z.lens, codeBuffer, numBits, StreamOf(input[pos..]));
      ghost var viewed := Stock();
      var s;
      r, s := z.Resolve(codeBuffer);
      if r != -1 {
        MatchShort(z.lens, codeBuffer, r);
        Consume(s);
        SymPulled(size, stock, viewed, s);
      }
    }

    /** Sixteen bits in view, if they can be had. */
    method View16() returns (ok: bool)
      requires ReaderValid()
      modifies this`pos, this`codeBuffer, this`numBits, this`pad, this`hitEof
      ensures ReaderValid() && Rest() == old(Rest())
      ensures Viewed(|input|, old(Stock())) == if ok then Some(Stock()) else None
      ensures ok ==> numBits >= 16
    {
      hide Drop, StreamOf, Joined;
      if numBits < 16 {
        if AtEof() {
          if hitEof {
            return false;
          }
          PadSixteen();
        } else {
          FillBits();
        }
      }
      ok := true;
    }

    /** The first time the input runs out, sixteen implicit zero bits are buffered. */
    method PadSixteen()
      requires ReaderValid() && AtEof() && numBits < 16
      modifies this`numBits, this`pad, this`hitEof
      ensures ReaderValid() && hitEof && numBits == old(numBits) + 16 && Rest() == old(Rest())
      ensures pos == old(pos) && pad == old(pad) + 16
    {
      Pow2Mono(numBits, numBits + 16);
      ShlOne(numBits);
      ShlOne(numBits + 16);
      hitEof := true;
      numBits := numBits + 16;
      pad := pad + 16;
    }

    // ---- output buffer

    ghost predicate OutValid()
      reads this
    {
      n <= out.Length <= UINT_MAX && (expandable ==> out.Length > 0)
    }

    ghost function Output(): seq<byte>
      requires OutValid()
      reads this, out
    {
      out[..n]
    }

    /** How much output can be held, after all doubling. */
    ghost function Room(): nat
      reads this
    {
      if expandable then Grown(out.Length) else out.Length
    }

    /** Double the buffer until k more bytes fit, keeping what it holds. */
    method ZExpand(k: nat) returns (ok: bool)
      requires OutValid()
      modifies this`out
      ensures OutValid() && Output() == old(Output()) && (out == old(out) || fresh(out))
      ensures ok <==> expandable && n + k <= old(Room())
      ensures ok ==> n + k <= out.Length && (out.Length == old(out.Length) || out.Length < 2 * (n + k))
      ensures ok ==> exists d: nat :: out.Length == Shl(old(out.Length), d)
      ensures Room() == old(Room()) && (!expandable ==> out == old(out))
    {
      if !expandable {
        return false;
      }
      var limit := out.Length;
      ghost var d := 0;
      if UINT_MAX - n < k {
        return false;
      }
      while n + k > limit
        invariant out.Length <= limit <= UINT_MAX && Grown(limit) == Grown(out.Length)
        invariant limit == Shl(out.Length, d) && (limit == out.Length || limit < 2 * (n + k))
        decreases n + k - limit
      {
        if limit > UINT_MAX / 2 {
          return false;
        }
        limit := 2 * limit;
        d := d + 1;
      }
      var q := new byte[limit];
      forall i | 0 <= i < out.Length {
        q[i] := out[i];
      }
      out := q;
      ok := true;
    }

    method Reserve(k: nat) returns (ok: bool)
      requires OutValid()
      modifies this`out
      ensures OutValid() && Output() == old(Output()) && (out == old(out) || fresh(out))
      ensures ok <==> n + k <= old(Room())
      ensures ok ==> n + k <= out.Length
      ensures Room() == old(Room()) && (!expandable ==> out == old(out))
    {
      ok := true;
      if k > out.Length - n {
        ok := ZExpand(k);
      }
    }

    method PutByte(b: byte) returns (ok: bool)
      requires OutValid()
      modifies this`out, this`n, out
      ensures OutValid() && (out == old(out) || fresh(out))
      ensures Output() == if ok then old(Output()) + [b] else old(Output())
      ensures ok <==> old(n) + 1 <= old(Room())
      ensures Room() == old(Room()) && (!expandable ==> out == old(out))
    {
      ok := Reserve(1);
      if ok {
        out[n] := b;
        n := n + 1;
      }
    }

    /** Repeat the bytes dist back; a distance of one takes the run shortcut. */
    method PutCopy(dist: nat, len: nat) returns (ok: bool)
      requires OutValid() && 1 <= dist <= n
      modifies this`out, this`n, out
      ensures OutValid() && (out == old(out) || fresh(out))
      ensures Output() == if ok then CopyMatch(old(Output()), dist, len) else old(Output())
      ensures ok <==> old(n) + len <= old(Room())
      ensures Room() == old(Room()) && (!expandable ==> out == old(out))
    {
      ok := Reserve(len);
      if !ok {
        return;
      }
      if dist == 1 {
        FillRun(len);
      } else {
        CopyBack(dist, len);
      }
    }

    method FillRun(len: nat)
      requires OutValid() && 1 <= n && n + len <= out.Length
      modifies this`n, out
      ensures OutValid() && Output() == CopyMatch(old(Output()), 1, len)
    {
      var v := out[n - 1];
      ghost var was := Output();
      var left := len;
      while left > 0
        invariant 0 <= left <= len && n == |was| + (len - left) && OutValid() && n + left <= out.Length
        invariant Output() == CopyMatch(was, 1, len - left) && out[n - 1] == v
      {
        out[n] := v;
        n := n + 1;
        left := left - 1;
      }
    }

    method CopyBack(dist: nat, len: nat)
      requires OutValid() && 1 <= dist <= n && n + len <= out.Length
      modifies this`n, out
      ensures OutValid() && Output() == CopyMatch(old(Output()), dist, len)
    {
      var p := n - dist;
      ghost var was := Output();
      var left := len;
      while left > 0
        invariant 0 <= left <= len && n == |was| + (len - left) && OutValid() && n + left <= out.Length
        invariant p == n - dist && Output() == CopyMatch(was, dist, len - left)
      {
        out[n] := out[p];
        n := n + 1;
        p := p + 1;
        left := left - 1;
      }
    }

    // ---- compressed blocks

    /** The next token, end-of-block, or an error; an error means the supply lasts for nothing the stream holds. */
    method ReadItem() returns (item: Item)
      requires Layout() && ReaderValid() && zLength.Built() && zDistance.Built()
      modifies this`pos, this`codeBuffer, this`numBits, this`pad, this`used, this`hitEof
      ensures ReaderValid()
      ensures item.Tok? ==> ItemRead(old(Rest()), old(used), old(Stock()), item.t)
      ensures item.End? ==> EndRead(old(Rest()), old(used), old(Stock()))
      ensures item.Bad? ==> NoItem(zLength.lens, zDistance.lens, old(Rest()), |input|, old(Stock()))
    {
      hide Pulled, PulledAll, Viewed, Drop, StreamOf, Joined, Low;
      ghost var ll, dl, v, size, stock := zLength.lens, zDistance.lens, Rest(), |input|, Stock();
      var r := HuffmanDecode(zLength);
      if r < 0 {
        NoLengthSymbol(ll, dl, v, size, stock);
        item := Bad;
      } else if r < 256 {
        OnePull(size, stock, Sym(ll[r]));
        item := Tok(Literal(r));
      } else if r == 256 {
        item := if hitEof && numBits < 16 then Bad else End;
        OnePull(size, stock, Sym(ll[r]));
        if item.Bad? {
          BadItem(ll, dl, v, r, size, stock);
        }
      } else if r >= 286 {
        BadItem(ll, dl, v, r, size, stock);
        item := Bad;
      } else {
        item := ReadCopy(r - 257, v, old(used), stock);
      }
    }

    method ReadCopy(c: nat, ghost v: nat, ghost before: nat, ghost stock: Supply) returns (item: Item)
      requires Layout() && ReaderValid() && zLength.Built() && zDistance.Built() && c < 29
      requires Matches(zLength.lens, v, 257 + c)
      requires Rest() == Drop(v, zLength.lens[257 + c]) && used == before + zLength.lens[257 + c]
      requires Pulled(|input|, stock, Sym(zLength.lens[257 + c])) == Some(Stock())
      modifies this`pos, this`codeBuffer, this`numBits, this`pad, this`used, this`hitEof
      ensures ReaderValid() && !item.End?
      ensures item.Tok? ==> ItemRead(v, before, stock, item.t)
      ensures item.Bad? ==> NoItem(zLength.lens, zDistance.lens, v, |input|, stock)
    {
      hide Pulled, PulledAll, Viewed, Drop, StreamOf, Joined, Low, LengthPulls;
      ghost var ll, dl, size, stock1 := zLength.lens, zDistance.lens, |input|, Stock();
      var lb := ReceiveExtra(LengthExtra(c));
      ghost var v2, stock2 := Rest(), Stock();
      LengthPulled(size, stock, ll, c, stock1, stock2);
      var d := HuffmanDecode(zDistance);
      if d < 0 || d >= 30 {
        BadDistance(ll, dl, v, c, v2, size, stock, stock2, d);
        return Bad;
      }
      ghost var v3, stock3 := Rest(), Stock();
      var db := ReceiveExtra(DistExtra(d));
      CopyRead(ll, dl, v, c, lb, v2, d, db, v3);
      CopyPulled(size, stock, ll, dl, Copy(c, lb, d, db), stock2, stock3, Stock());
      item := Tok(Copy(c, lb, d, db));
    }

    /** Extra bits; none are asked for when there are none. */
    method ReceiveExtra(k: nat) returns (v: nat)
      requires ReaderValid() && k <= 16
      modifies this`pos, this`codeBuffer, this`numBits, this`pad, this`used
      ensures ReaderValid() && used == old(used) + k
      ensures v == Low(old(Rest()), k) && Rest() == Drop(old(Rest()), k)
      ensures PulledAll(|input|, old(Stock()), Extra(k)) == Some(Stock())
    {
      v := 0;
      if k != 0 {
        OnePull(|input|, Stock(), Take(k));
        v := Receive(k);
      }
    }

    ghost predicate ItemRead(v: nat, before: int, stock: Supply, t: Token)
      requires pos <= |input|
      reads this, zLength, zDistance
    {
      && Reads(zLength.lens, zDistance.lens, v, t)
      && Rest() == AfterToken(zLength.lens, zDistance.lens, v, t)
      && used == before + TokenBits(zLength.lens, zDistance.lens, t)
      && PulledAll(|input|, stock, TokenPulls(zLength.lens, zDistance.lens, t)) == Some(Stock())
    }

    ghost predicate EndRead(v: nat, before: nat, stock: Supply)
      requires pos <= |input|
      reads this, zLength
    {
      && Matches(zLength.lens, v, END_OF_BLOCK)
      && Rest() == Drop(v, zLength.lens[END_OF_BLOCK])
      && used == before + zLength.lens[END_OF_BLOCK]
      && PulledAll(|input|, stock, [Sym(zLength.lens[END_OF_BLOCK])]) == Some(Stock()) && Unspent(Stock())
    }

    method Emit(t: Token) returns (ok: bool)
      requires OutValid() && t.Valid()
      modifies this`out, this`n, out
      ensures OutValid() && Room() == old(Room())
      ensures (out == old(out) || fresh(out)) && (!expandable ==> out == old(out))
      ensures ok ==> Emitted(t, old(Output()), Output()) && n > old(n)
      ensures !ok ==> !Fits(t, old(Output()), old(Room()))
    {
      match t
      case Literal(b) =>
        ok := PutByte(b);
      case Copy(_, _, _, _) =>
        if n < t.Dist() {
          return false;
        }
        ok := PutCopy(t.Dist(), t.Length());
    }

    /**
     Decode one compressed block, exactly if there is one that the supply lasts for and that fits the
     room for output.  Then the stream held the returned tokens and the output grew by their expansion.
     */
    method ParseHuffmanBlock() returns (ok: bool, ghost toks: seq<Token>)
      requires Layout() && Ready()
      modifies this, out
      ensures Ready() && SameOut(old(out)) && Room() == old(Room())
      ensures ok <==> Decodable(old(CurrentJob()))
      ensures ok ==> Feasible(old(CurrentJob()), toks) && BlockDecoded(old(CurrentJob()), old(used), toks)
      ensures ok ==> Accounted()
      ensures ok && NoLateTake(|input|, old(Stock()), ClosedPulls(zLength.lens, zDistance.lens, toks)) ==>
                Refill(old(Stock())) <= 24 ==> used <= 8 * (|input| + 3)
    {
      hide Progress, OnTrack, BlockDecoded, Feasible, Accounted, NoLateTake, ClosedPulls, StreamOf, Drop, Joined;
      ghost var j, u := CurrentJob(), used;
      ghost var expected := BlockOfJob(j);
      toks := [];
      NothingRead(j, expected);
      StockSound();
      CodesReady();
      var status := More;
      while status.More?
        invariant Ready() && SameOut(old(out)) && Room() == j.room && SameCodes(j)
        invariant j.size == |input|
        invariant status.More? ==> Progress(j, toks, Rest(), Output(), used - u, Stock()) && OnTrack(j, expected, toks)
        invariant status.Done? ==> BlockDecoded(j, u, toks)
        invariant !status.More? && Feasible(j, expected) ==> status.Done? && toks == expected
        decreases status.More?, UINT_MAX - n
      {
        status, toks := BlockStep(j, u, expected, toks);
      }
      ok := status.Done?;
      if ok {
        DecodedFits(j, u, toks);
        EndOfBlock(j, u, toks);
      }
    }

    lemma CodesReady()
      requires Layout() && Ready()
      ensures Lengths(zLength.lens) && Lengths(zDistance.lens)
    {
    }

    lemma DecodedFits(j: Job, u: nat, toks: seq<Token>)
      requires ReaderValid() && OutValid() && BlockDecoded(j, u, toks) && Room() == j.room
      ensures Feasible(j, toks)
    {
      hide BlockIs, Legal, Expand, PulledAll, ClosedPulls;
    }

    /** What the end of a decoded block says about the end of the input. */
    lemma EndOfBlock(j: Job, u: nat, toks: seq<Token>)
      requires ReaderValid() && OutValid() && BlockDecoded(j, u, toks) && j.size == |input|
      requires Sound(j.size, j.r, u) && Lengths(j.ll) && Lengths(j.dl)
      ensures Accounted()
      ensures NoLateTake(j.size, j.r, ClosedPulls(j.ll, j.dl, toks)) && Refill(j.r) <= 24 ==> used <= 8 * (j.size + 3)
    {
      hide Sound, Lengths, Accounted, NoLateTake, ClosedPulls, Drop, StreamOf, Refill, PulledAll, Unspent;
      EndOfInput();
      LateEnd(j, u, toks, used, Stock());
    }

    /**
     What acceptance says about the end of the input: the block lies within it exactly if no more
     zero bits were made up than are left, the check at its end lets no more of them pass than
     refilling made up, and none were made up while a byte is unread or four bytes follow.
     */
    ghost predicate Accounted()
      reads this
    {
      && (used <= 8 * |input| <==> pad <= numBits)
      && used <= 8 * |input| + Refill(Stock())
      && (pos < |input| || used + 32 <= 8 * |input| ==> pad == 0 && used <= 8 * |input|)
    }

    lemma EndOfInput()
      requires ReaderValid() && Unspent(Stock())
      ensures Accounted()
    {
      StockSound();
      WithinExactlyWhen(|input|, Stock(), used);
      CheckRefusesExactlyWhen(|input|, Stock(), used);
      FourBytesFollow(|input|, Stock(), used);
    }

    /** One turn of the decoding loop. */
    method BlockStep(ghost j: Job, ghost u: nat, ghost expected: seq<Token>, ghost toks: seq<Token>)
      returns (status: Status, ghost toks': seq<Token>)
      requires Layout() && Ready() && Room() == j.room && SameCodes(j) && j.size == |input|
      requires Progress(j, toks, Rest(), Output(), used - u, Stock()) && OnTrack(j, expected, toks)
      modifies this, out
      ensures Ready() && SameOut(old(out)) && Room() == j.room && SameCodes(j)
      ensures status.More? ==> n > old(n) && Progress(j, toks', Rest(), Output(), used - u, Stock())
      ensures status.More? ==> OnTrack(j, expected, toks')
      ensures status.Done? ==> BlockDecoded(j, u, toks')
      ensures !status.More? && Feasible(j, expected) ==> status.Done? && toks' == expected
    {
      hide ReadsAll, Reads, After, AfterToken, Expand, Legal, BlockBits, TokenBits, Drop, StreamOf;
      hide PulledAll, TokenPulls, BlockPulls, Unspent, NoItem;
      ghost var rest, out0, used0, stock := Rest(), Output(), used - u, Stock();
      toks' := toks;
      var item := ReadItem();
      TrackItem(j, expected, toks, rest, out0, used0, stock, item);
      match item
      case Bad =>
        status := Failed;
      case End =>
        Closes(j, toks, rest, out0, used0, stock, Stock());
        status := Done;
      case Tok(t) =>
        status := EmitToken(j, u, toks, rest, used0, stock, t);
        toks' := if status.More? then toks + [t] else toks;
    }

    method EmitToken(ghost j: Job, ghost u: nat, ghost toks: seq<Token>, ghost rest: nat, ghost used0: int,
                     ghost stock: Supply, t: Token)
      returns (status: Status)
      requires Layout() && Ready() && Room() == j.room && SameCodes(j) && j.size == |input|
      requires Progress(j, toks, rest, Output(), used0, stock) && ItemRead(rest, u + used0, stock, t)
      modifies this`out, this`n, out
      ensures Ready() && SameOut(old(out)) && Room() == j.room && SameCodes(j)
      ensures used == old(used) && Stock() == old(Stock())
      ensures !status.Done?
      ensures status.More? ==> n > old(n) && Progress(j, toks + [t], Rest(), Output(), used - u, Stock())
      ensures status.Failed? ==> !Fits(t, old(Output()), j.room)
    {
      hide ReadsAll, Reads, After, AfterToken, Expand, Legal, BlockBits, TokenBits, Drop, StreamOf;
      hide PulledAll, TokenPulls, BlockPulls;
      ReadTokenValid(j.ll, j.dl, rest, t);
      ghost var out0 := Output();
      var ok := Emit(t);
      status := if ok then More else Failed;
      if ok {
        ProgressStep(j, toks, rest, out0, used0, stock, t, Output(), Stock());
      }
    }

    ghost predicate Ready()
      requires Layout()
      reads this, zLength, zLength.fast, zLength.firstcode, zLength.maxcode, zLength.firstsymbol, zLength.size
      reads zLength.value, zDistance, zDistance.fast, zDistance.firstcode, zDistance.maxcode, zDistance.firstsymbol
      reads zDistance.size, zDistance.value
    {
      ReaderValid() && OutValid() && OutApart() && zLength.Built() && zDistance.Built()
    }

    /** The output buffer was kept or replaced by a new one, the latter only if it may grow. */
    twostate predicate SameOut(was: array<byte>)
      reads this
    {
      (out == was || fresh(out)) && (!expandable ==> out == was)
    }

    ghost predicate SameCodes(j: Job)
      reads this, zLength, zDistance
    {
      j.ll == zLength.lens && j.dl == zDistance.lens
    }

    ghost function CurrentJob(): Job
      requires ReaderValid() && OutValid()
      reads this, out, zLength, zDistance
    {
      Job(zLength.lens, zDistance.lens, Rest(), Output(), |input|, Stock(), Room())
    }

    /** How far the decoder has come. */
    ghost function Here(): Place
      requires OutValid()
      reads this, out
    {
      Place(used, Output(), Stock())
    }

    /** The block toks was read, starting when u bits were used, and its expansion was appended. */
    ghost predicate BlockDecoded(j: Job, u: nat, toks: seq<Token>)
      requires pos <= |input| && OutValid()
      reads this, out
    {
      && BlockIs(j.ll, j.dl, j.v, toks) && Legal(j.o, toks) && Output() == Expand(j.o, toks)
      && Rest() == Drop(After(j.ll, j.dl, j.v, toks), j.ll[END_OF_BLOCK])
      && used == u + BlockBits(j.ll, j.dl, toks) + j.ll[END_OF_BLOCK]
      && PulledAll(j.size, j.r, ClosedPulls(j.ll, j.dl, toks)) == Some(Stock()) && Unspent(Stock())
    }

    // ---- stored blocks

    /** Byte i of the input, from the bit buffer while it lasts and directly after that. */
    method HeaderByte(ghost i: nat, ghost m: nat) returns (b: byte)
      requires ReaderValid() && numBits == 8 * m && used == 8 * i
      modifies this`pos, this`codeBuffer, this`numBits, this`pad, this`used
      ensures ReaderValid() && used == 8 * (i + 1) && b == ByteAt(input, i)
      ensures numBits == if m > 0 then 8 * (m - 1) else 0
    {
      if numBits > 0 {
        b := DrainByte();
      } else {
        b := RawByte();
      }
      HeaderByteIs(input, i, b);
    }

    /** Discard the bits up to the next byte boundary. */
    method AlignToByte() returns (ghost m: nat)
      requires ReaderValid()
      modifies this`pos, this`codeBuffer, this`numBits, this`pad, this`used
      ensures ReaderValid() && m <= 4 && numBits == 8 * m && used == 8 * ByteIndex(old(used))
    {
      m := AlignArith(used, numBits, pos, pad);
      if numBits % 8 > 0 {
        var _ := Receive(numBits % 8);
      }
    }

    /** Skip to a byte boundary and take the four header bytes, buffered ones first. */
    method StoredHeader() returns (header: seq<byte>)
      requires ReaderValid()
      modifies this`pos, this`codeBuffer, this`numBits, this`pad, this`used
      ensures ReaderValid() && numBits == 0 && used == 8 * (ByteIndex(old(used)) + 4)
      ensures |header| == 4 && HeaderIs(input, ByteIndex(old(used)), header)
    {
      hide Drop, StreamOf, Joined, Pow2;
      ghost var h := ByteIndex(used);
      ghost var m := AlignToByte();
      header := [];
      while numBits > 0
        invariant ReaderValid() && numBits == 8 * m && used == 8 * (h + |header|) && m + |header| <= 4
        invariant HeaderIs(input, h, header)
        decreases numBits
      {
        var b := HeaderByte(h + |header|, m);
        HeaderAppend(input, h, header, b);
        header := header + [b];
        m := m - 1;
      }
      while |header| < 4
        invariant ReaderValid() && numBits == 0 && used == 8 * (h + |header|) && |header| <= 4
        invariant HeaderIs(input, h, header)
      {
        var b := HeaderByte(h + |header|, 0);
        HeaderAppend(input, h, header, b);
        header := header + [b];
      }
    }

    /**
     Copy a stored block.  The data starts right behind the header, at the byte the format says,
     however many bits were buffered; the block is refused exactly if it is not there or has no room.
     */
    method ParseUncompressedBlock() returns (ok: bool)
      requires ReaderValid() && OutValid()
      modifies this, out
      ensures ReaderValid() && OutValid() && SameOut(old(out))
      ensures Room() == old(Room())
      ensures ok ==> StoredTo(input, old(Here()), Here())
      ensures !ok ==> forall len {:trigger StoredAt(input, ByteIndex(old(used)), len)} ::
                        StoredAt(input, ByteIndex(old(used)), len) ==> old(n) + len > old(Room())
    {
      hide Drop, StreamOf, Joined, StoredAt, HeaderIs;
      ghost var h := ByteIndex(used);
      var header := StoredHeader();
      var len := Le16(header[0], header[1]);
      var nlen := Le16(header[2], header[3]);
      HeaderPosition(h);
      OnlyStored(input, h, header, len, nlen);
      if nlen != 0xFFFF - len || pos + len > |input| {
        return false;
      }
      ok := Reserve(len);
      if ok {
        assert pos == h + 4 && StoredAt(input, h, len);
        CopyStored(len);
      }
    }

    lemma HeaderPosition(h: nat)
      requires ReaderValid() && numBits == 0 && used == 8 * (h + 4)
      ensures if h + 4 <= |input| then pos == h + 4 && pad == 0 else pos == |input|
    {
      hide Drop, StreamOf, Joined;
    }

    method CopyStored(len: nat)
      requires ReaderValid() && OutValid() && numBits == 0 && used == 8 * pos
      requires pos + len <= |input| && n + len <= out.Length
      modifies this`pos, this`n, this`used, out
      ensures ReaderValid() && OutValid() && pos == old(pos) + len && used == 8 * pos
      ensures Output() == old(Output()) + input[old(pos)..pos]
    {
      CopyBytes(input[pos..pos + len]);
      DropBytes(input, pos + len);
      pos := pos + len;
      used := used + 8 * len;
    }

    method CopyBytes(data: seq<byte>)
      requires OutValid() && n + |data| <= out.Length
      modifies this`n, out
      ensures OutValid() && Output() == old(Output()) + data
    {
      forall i | 0 <= i < |data| {
        out[n + i] := data[i];
      }
      n := n + |data|;
    }

    method DrainByte() returns (b: byte)
      requires ReaderValid() && numBits >= 8
      modifies this`codeBuffer, this`numBits, this`used
      ensures ReaderValid() && used == old(used) + 8 && numBits == old(numBits) - 8
      ensures b == Low(Drop(StreamOf(input), old(used)), 8)
    {
      Pow2Values();
      b := Low(codeBuffer, 8);
      Consume(8);
    }

    method RawByte() returns (b: byte)
      requires ReaderValid() && numBits == 0
      modifies this`pos, this`pad, this`used
      ensures ReaderValid() && used == old(used) + 8
      ensures b == Low(Drop(StreamOf(input), old(used)), 8)
    {
      ghost var eof := AtEof();
      NothingBuffered();
      hide StreamOf, Joined, Drop, Low, Pow2;
      b := Get8();
      ByteTaken(StreamOf(input), used, b, StreamOf(input[pos..]));
      pad := if eof then pad + 8 else pad;
      used := used + 8;
      StillNothing();
    }

    lemma NothingBuffered()
      requires ReaderValid() && numBits == 0
      ensures Rest() == StreamOf(input[pos..]) && codeBuffer == 0
    {
    }

    lemma StillNothing()
      requires pos <= |input| && numBits == codeBuffer == 0
      ensures Pending() == StreamOf(input[pos..]) && codeBuffer < Pow2(numBits)
    {
    }

    // ---- blocks with their own codes

    /** The code for code lengths: hclen three-bit lengths in shuffled order. */
    method ReadCodeLengthCode(hclen: nat) returns (sizes: seq<nat>)
      requires ReaderValid() && hclen <= 19
      modifies this`pos, this`codeBuffer, this`numBits, this`pad, this`used
      ensures ReaderValid() && used == old(used) + 3 * hclen && Rest() == Drop(old(Rest()), 3 * hclen)
      ensures sizes == CodeLengthCode(old(Rest()), hclen)
      ensures PulledAll(|input|, old(Stock()), ThreeBitPulls(hclen)) == Some(Stock())
    {
      hide Drop, StreamOf, Low, Joined, DEZIGZAG, Pulled, PulledAll, Pow2;
      ghost var v, u, stock := Rest(), used, Stock();
      sizes := seq(19, _ => 0);
      NothingPulled(|input|, stock);
      for i := 0 to hclen
        invariant ReaderValid() && used == u + 3 * i && sizes == CodeLengthCode(v, i)
        invariant PulledAll(|input|, stock, ThreeBitPulls(i)) == Some(Stock())
      {
        DropDrop(StreamOf(input), u, 3 * i);
        PullOneMore(|input|, stock, ThreeBitPulls(i), Take(3));
        var size := Receive(3);
        DezigzagInRange(i);
        sizes := sizes[DEZIGZAG[i] := size];
      }
      DropDrop(StreamOf(input), u, 3 * hclen);
    }

    /** One instruction.  One that the supply lasts for is refused only if it repeats when nothing precedes it. */
    method ReadOp(z: ZHuffman, first: bool, ghost wanted: Op) returns (ok: bool, op: Op)
      requires ReaderValid() && z.Shape() && z.Built() && |z.lens| == 19
      modifies this`pos, this`codeBuffer, this`numBits, this`pad, this`used, this`hitEof
      ensures ReaderValid()
      ensures ok ==> ReadsOp(z.lens, old(Rest()), op) && used == old(used) + OpBits(z.lens, op)
      ensures ok ==> op.Valid() && (op.Repeat? ==> !first)
      ensures ok ==> PulledAll(|input|, old(Stock()), OpPulls(z.lens, op)) == Some(Stock())
      ensures ReadsOp(z.lens, old(Rest()), wanted) && (wanted.Repeat? ==> !first) ==>
                PulledAll(|input|, old(Stock()), OpPulls(z.lens, wanted)).Some? ==> ok && op == wanted
    {
      hide Drop, StreamOf, Joined, Low, Pulled, PulledAll, NoSymbol;
      ghost var v, cl, size, stock := Rest(), z.lens, |input|, Stock();
      ghost var due := ReadsOp(cl, v, wanted) && (wanted.Repeat? ==> !first)
                       && PulledAll(size, stock, OpPulls(cl, wanted)).Some?;
      var c := HuffmanDecode(z);
      z.BuiltLengths();
      if due {
        OpComes(cl, v, wanted, size, stock, c);
      }
      ok, op := false, Len(0);
      if 0 <= c < 19 {
        ghost var between := Stock();
        op := ReadExtra(c);
        OpPulled(size, stock, cl, op, between, Stock());
        ok := op.Repeat? ==> !first;
        if due {
          OpUnique(cl, v, op, wanted);
        }
      }
    }

    /** The instruction of a symbol, with its extra bits. */
    method ReadExtra(c: nat) returns (op: Op)
      requires ReaderValid() && c < 19
      modifies this`pos, this`codeBuffer, this`numBits, this`pad, this`used
      ensures ReaderValid() && op.Valid() && op.Symbol() == c && used == old(used) + op.ExtraBits()
      ensures !op.Len? ==> op.extra == Low(old(Rest()), op.ExtraBits())
      ensures PulledAll(|input|, old(Stock()), Extra(op.ExtraBits())) == Some(Stock())
    {
      hide Drop, StreamOf, Joined, Low, Pulled, PulledAll;
      if c < 16 {
        NothingPulled(|input|, Stock());
        return Len(c);
      }
      ghost var stock := Stock();
      if c == 16 {
        OnePull(|input|, stock, Take(2));
        var extra := Receive(2);
        return Repeat(extra);
      }
      if c == 17 {
        OnePull(|input|, stock, Take(3));
        var extra := Receive(3);
        return Zeros(extra);
      }
      OnePull(|input|, stock, Take(7));
      var extra := Receive(7);
      return ManyZeros(extra);
    }

    /** The lengths an instruction appends. */
    static method RunOf(op: Op, lens: seq<nat>) returns (run: seq<nat>)
      requires op.Valid() && Lengths(lens) && (op.Repeat? ==> lens != [])
      ensures run == op.Run(lens) && run != [] && Lengths(lens + run)
    {
      match op
      case Len(n) => run := [n];
      case Repeat(e) => run := seq(e + 3, _ => lens[|lens| - 1]);
      case Zeros(e) => run := seq(e + 3, _ => 0);
      case ManyZeros(e) => run := seq(e + 11, _ => 0);
    }

    /** Exactly ntot lengths, spelled out by instructions under z's code, exactly if the supply lasts for them. */
    method ReadLengths(z: ZHuffman, ntot: nat) returns (ok: bool, lens: seq<nat>, ghost ops: seq<Op>)
      requires ReaderValid() && z.Shape() && z.Built() && |z.lens| == 19
      modifies this`pos, this`codeBuffer, this`numBits, this`pad, this`used, this`hitEof
      ensures ReaderValid() && Lengths(lens)
      ensures ok <==> CanSpell(|input|, z.lens, old(Rest()), old(Stock()), ntot)
      ensures ok ==> |lens| == ntot && used >= old(used) && SoFar(z.lens, old(Rest()), ops, lens, used - old(used))
      ensures ok ==> PulledAll(|input|, old(Stock()), OpsPulls(z.lens, ops)) == Some(Stock())
    {
      hide Drop, StreamOf, Joined, ReadsOp, ReadsOps, OpsBits, Runs, PulledAll, OpPulls, OpsPulls, CanSpell;
      ghost var v, u, cl, size, stock := Rest(), used, z.lens, |input|, Stock();
      ghost var wanted := WantedOps(size, cl, v, stock, ntot);
      ghost var due := CanSpell(size, cl, v, stock, ntot);
      lens, ops := [], [];
      NothingSoFar(cl, v);
      NoOpsPulled(size, cl, stock);
      while |lens| < ntot
        invariant ReaderValid() && Lengths(lens) && |lens| <= ntot
        invariant used >= u && SoFar(cl, v, ops, lens, used - u)
        invariant PulledAll(size, stock, OpsPulls(cl, ops)) == Some(Stock())
        invariant due ==> |ops| <= |wanted| && ops == wanted[..|ops|]
      {
        ghost var w, bits, here := Rest(), used - u, Stock();
        DropSum(StreamOf(input), u, bits, used);
        if due {
          NextAwaited(size, cl, v, stock, ntot, wanted, ops, here);
        }
        var op;
        ok, op := ReadOp(z, lens == [], if due then wanted[|ops|] else Len(0));
        if !ok {
          return false, lens, ops;
        }
        var fill := RunOf(op, lens);
        if ntot - |lens| < |fill| {
          return false, lens, ops;
        }
        AppendOp(cl, v, ops, lens, bits, w, op);
        AppendPulls(size, cl, stock, ops, here, op, Stock());
        lens, ops := lens + fill, ops + [op];
      }
      ok := true;
      AllSpelled(size, cl, v, stock, ntot, lens, ops, used - u, Stock());
    }

    /**
     Read a code description and build both tables from it, exactly if the stream holds one that the
     supply lasts for.
     */
    method ComputeHuffmanCodes() returns (ok: bool)
      requires Layout() && Open()
      modifies this`pos, this`codeBuffer, this`numBits, this`pad, this`used, this`hitEof
      modifies zLength, zLength.fast, zLength.firstcode, zLength.maxcode, zLength.firstsymbol, zLength.size
      modifies zLength.value, zDistance, zDistance.fast, zDistance.firstcode, zDistance.maxcode
      modifies zDistance.firstsymbol, zDistance.size, zDistance.value
      ensures Open() && Output() == old(Output())
      ensures ok <==> CanDescribe(input, old(Here()))
      ensures ok ==> Ready() && used >= old(used)
      ensures ok ==> DescribesTo(|input|, old(Rest()), old(Stock()),
                                 Description(zLength.lens, zDistance.lens, used - old(used), Stock()))
    {
      hide Low, Drop, Accepted, StreamOf, Joined, DescribesTo, CanDescribe, SpelledTo;
      hide CanSpellAll;
      ghost var p := Here();
      var lens, hlit;
      ghost var ops;
      ok, lens, hlit, ops := ReadDescription();
      if ok {
        DescribedExactlyWhen(input, p, lens, hlit, used - p.u, ops, Stock());
        ok := BuildCodes(lens, hlit);
      } else if CanDescribe(input, p) {
        DescribedIsSpelled(input, p);
      }
    }

    method ReadDescription() returns (ok: bool, lens: seq<nat>, hlit: nat, ghost ops: seq<Op>)
      requires ReaderValid()
      modifies this`pos, this`codeBuffer, this`numBits, this`pad, this`used, this`hitEof
      ensures ReaderValid()
      ensures hlit == Low(old(Rest()), 5) + 257
      ensures ok <==> CanSpellAll(|input|, old(Rest()), old(Stock()))
      ensures ok ==> Lengths(lens) && |lens| == hlit + Low(Drop(old(Rest()), 5), 5) + 1
      ensures ok ==> used >= old(used)
                     && SpelledTo(|input|, old(Rest()), old(Stock()), lens, used - old(used), ops, Stock())
    {
      hide Drop, Low, CodeLengthCode, OpsBits, Runs, ReadsOps, StreamOf, Joined, Accepted, PulledAll, CanSpell;
      hide ThreeBitPulls, CountPulls, CanSpellAll;
      ghost var v, r, size, before := Rest(), Stock(), |input|, used;
      var hclen, hdist;
      hlit, hdist, hclen := ReadCounts();
      ghost var counted := Stock();
      var sizes := ReadCodeLengthCode(hclen);
      PulledAllConcat(size, r, CountPulls(), ThreeBitPulls(hclen));
      ghost var w, head := Rest(), Stock();
      ok, lens, ops := ReadUnderCode(sizes, hlit + hdist);
      SpelledExactlyWhen(size, v, r, hclen, sizes, w, head, hlit + hdist);
      if ok {
        SpelledByOps(size, v, r, hclen, sizes, w, head, ops, Stock());
      }
    }

    method ReadUnderCode(sizes: seq<nat>, ntot: nat) returns (ok: bool, lens: seq<nat>, ghost ops: seq<Op>)
      requires ReaderValid() && |sizes| == 19 && Lengths(sizes)
      modifies this`pos, this`codeBuffer, this`numBits, this`pad, this`used, this`hitEof
      ensures ReaderValid() && Lengths(lens)
      ensures ok <==> Accepted(sizes) && CanSpell(|input|, sizes, old(Rest()), old(Stock()), ntot)
      ensures ok ==> Accepted(sizes) && |lens| == ntot
      ensures ok ==> used >= old(used) && SoFar(sizes, old(Rest()), ops, lens, used - old(used))
      ensures ok ==> PulledAll(|input|, old(Stock()), OpsPulls(sizes, ops)) == Some(Stock())
    {
      hide CanSpell, PulledAll, OpsPulls, Accepted, StreamOf, Drop, Joined;
      var z := new ZHuffman();
      lens, ops := [], [];
      ok := z.Build(sizes);
      if ok {
        ok, lens, ops := ReadLengths(z, ntot);
      }
    }

    method ReadCounts() returns (hlit: nat, hdist: nat, hclen: nat)
      requires ReaderValid()
      modifies this`pos, this`codeBuffer, this`numBits, this`pad, this`used
      ensures ReaderValid() && used == old(used) + 14 && Rest() == Drop(old(Rest()), 14)
      ensures hlit == Low(old(Rest()), 5) + 257 && hdist == Low(Drop(old(Rest()), 5), 5) + 1
      ensures hclen == Low(Drop(old(Rest()), 10), 4) + 4 && hclen <= 19
      ensures PulledAll(|input|, old(Stock()), CountPulls()) == Some(Stock())
    {
      hide PulledAll, Pulled;
      ghost var v, stock, size := Rest(), Stock(), |input|;
      FourBits(Drop(v, 10));
      DropDrop(v, 5, 5);
      DropDrop(v, 10, 4);
      var a := Receive(5);
      OnePull(size, stock, Take(5));
      PullOneMore(size, stock, [Take(5)], Take(5));
      var b := Receive(5);
      PullOneMore(size, stock, [Take(5)] + [Take(5)], Take(4));
      var c := Receive(4);
      assert [Take(5)] + [Take(5)] + [Take(4)] == CountPulls();
      hlit, hdist, hclen := a + 257, b + 1, c + 4;
    }

    method BuildCodes(lens: seq<nat>, hlit: nat) returns (ok: bool)
      requires Lengths(lens) && hlit <= NUM_SYMBOLS && hlit <= |lens| <= hlit + NUM_SYMBOLS
      requires Layout()
      modifies zLength, zLength.fast, zLength.firstcode, zLength.maxcode, zLength.firstsymbol, zLength.size
      modifies zLength.value, zDistance, zDistance.fast, zDistance.firstcode, zDistance.maxcode
      modifies zDistance.firstsymbol, zDistance.size, zDistance.value
      ensures ok ==> zLength.Built() && zLength.lens == lens[..hlit]
      ensures ok ==> zDistance.Built() && zDistance.lens == lens[hlit..]
      ensures ok <==> Accepted(lens[..hlit]) && Accepted(lens[hlit..])
    {
      ok := zLength.Build(lens[..hlit]);
      if ok {
        ok := zDistance.Build(lens[hlit..]);
      }
    }

    // ---- the whole stream

    ghost predicate Open()
      reads this
    {
      ReaderValid() && OutValid() && OutApart()
    }

    /** A block under the fixed codes, exactly if there is one that the supply lasts for and that fits the room. */
    method ParseFixed() returns (ok: bool)
      requires Layout() && Open()
      modifies this, out, zLength, zLength.fast, zLength.firstcode, zLength.maxcode, zLength.firstsymbol
      modifies zLength.size, zLength.value, zDistance, zDistance.fast, zDistance.firstcode, zDistance.maxcode
      modifies zDistance.firstsymbol, zDistance.size, zDistance.value
      ensures Open() && SameOut(old(out)) && Room() == old(Room())
      ensures ok <==> CanCompressed(input, FixedLengths(), FixedDistances(), old(Here()), old(Room()))
      ensures ok ==> CompressedTo(input, FixedLengths(), FixedDistances(), old(Here()), Here())
    {
      hide FixedLengths, FixedDistances, Accepted, StreamOf, Drop, Joined, CompressedTo, CanCompressed;
      ok := BuildFixed();
      if ok {
        ok := ParseCompressed();
      }
    }

    /** The tables of the fixed codes, which are always built. */
    method BuildFixed() returns (ok: bool)
      requires Layout() && Open()
      modifies zLength, zLength.fast, zLength.firstcode, zLength.maxcode, zLength.firstsymbol, zLength.size
      modifies zLength.value, zDistance, zDistance.fast, zDistance.firstcode, zDistance.maxcode
      modifies zDistance.firstsymbol, zDistance.size, zDistance.value
      ensures ok && Ready() && Output() == old(Output()) && Room() == old(Room())
      ensures zLength.lens == FixedLengths() && zDistance.lens == FixedDistances()
    {
      hide FixedLengths, FixedDistances, Accepted, Lengths, StreamOf, Drop, Joined;
      var all := FixedLengths() + FixedDistances();
      FixedTables(all);
      ok := BuildCodes(all, 288);
    }

    /** A block that carries its codes, exactly if there is one that the supply lasts for and that fits the room. */
    method ParseDynamic() returns (ok: bool)
      requires Layout() && Open()
      modifies this, out, zLength, zLength.fast, zLength.firstcode, zLength.maxcode, zLength.firstsymbol
      modifies zLength.size, zLength.value, zDistance, zDistance.fast, zDistance.firstcode, zDistance.maxcode
      modifies zDistance.firstsymbol, zDistance.size, zDistance.value
      ensures Open() && SameOut(old(out)) && Room() == old(Room())
      ensures ok <==> CanDynamic(input, old(Here()), old(Room()))
      ensures ok ==> DynamicTo(input, old(Here()), Here())
    {
      hide StreamOf, Drop, Joined, DescribesTo, CompressedTo, CanCompressed, CanDynamic, CanDescribe, DynamicTo;
      ghost var p, room := Here(), Room();
      ok := ComputeHuffmanCodes();
      if ok {
        ghost var d := Description(zLength.lens, zDistance.lens, used - p.u, Stock());
        CanDynamicExactlyWhen(input, p, room, d);
        ok := ParseCompressed();
        if ok {
          DynamicBlock(input, p, Here(), d);
        }
      } else {
        NoDescriptionNoBlock(input, p, room);
      }
    }

    /** The tokens of a block whose codes are built. */
    method ParseCompressed() returns (ok: bool)
      requires Layout() && Ready()
      modifies this, out
      ensures Ready() && SameOut(old(out)) && Room() == old(Room())
      ensures ok <==> CanCompressed(input, old(zLength.lens), old(zDistance.lens), old(Here()), old(Room()))
      ensures ok ==> CompressedTo(input, old(zLength.lens), old(zDistance.lens), old(Here()), Here())
    {
      hide StreamOf, Drop, Joined, PulledAll, ClosedPulls, Feasible, Decodable, CanCompressed, BlockIs, Legal, Expand;
      hide BlockBits, Unspent;
      ghost var ll, dl, p, room := zLength.lens, zDistance.lens, Here(), Room();
      CanExactlyWhenDecodable(input, ll, dl, p, room);
      ghost var toks;
      ok, toks := ParseHuffmanBlock();
      if ok {
        assert CompressedVia(input, ll, dl, p, Here(), toks);
      }
    }

    /** One block: its two header fields and its body, exactly if there is one that can be decoded. */
    method ParseBlock() returns (ok: bool, final: bool)
      requires Layout() && Open()
      modifies this, out, zLength, zLength.fast, zLength.firstcode, zLength.maxcode, zLength.firstsymbol
      modifies zLength.size, zLength.value, zDistance, zDistance.fast, zDistance.firstcode, zDistance.maxcode
      modifies zDistance.firstsymbol, zDistance.size, zDistance.value
      ensures Open() && SameOut(old(out)) && Room() == old(Room())
      ensures ok <==> CanBlock(input, old(Here()), old(Room()))
      ensures ok ==> BlockTo(input, old(Here()), Here(), final)
    {
      hide BodyTo, CanBody, CanBlock, Low, Drop, StreamOf, Joined, PulledAll;
      ghost var p, room := Here(), Room();
      var kind;
      final, kind := ReadBlockHeader();
      CanBlockExactlyWhen(input, p, room, Here(), kind);
      ok := ParseBody(kind);
    }

    method ReadBlockHeader() returns (final: bool, kind: nat)
      requires ReaderValid()
      modifies this`pos, this`codeBuffer, this`numBits, this`pad, this`used
      ensures ReaderValid() && used == old(used) + 3 && kind < 4
      ensures final == (Low(old(Rest()), 1) == 1) && kind == Low(Drop(old(Rest()), 1), 2)
      ensures PulledAll(|input|, old(Stock()), HeaderPulls()) == Some(Stock())
    {
      Pow2Values();
      HeaderPulled(|input|, Stock());
      var f := Receive(1);
      kind := Receive(2);
      final := f == 1;
    }

    method ParseBody(kind: nat) returns (ok: bool)
      requires Layout() && Open() && kind < 4
      modifies this, out, zLength, zLength.fast, zLength.firstcode, zLength.maxcode, zLength.firstsymbol
      modifies zLength.size, zLength.value, zDistance, zDistance.fast, zDistance.firstcode, zDistance.maxcode
      modifies zDistance.firstsymbol, zDistance.size, zDistance.value
      ensures Open() && SameOut(old(out)) && Room() == old(Room())
      ensures ok <==> CanBody(input, kind, old(Here()), old(Room()))
      ensures ok ==> BodyTo(input, kind, old(Here()), Here())
    {
      hide StreamOf, Drop, Joined, DynamicTo, StoredTo, CompressedTo, FixedLengths, FixedDistances;
      ghost var p, room := Here(), Room();
      if kind == 0 {
        ok := ParseUncompressedBlock();
        if !ok {
          CannotStore(input, p, room);
        }
      } else if kind == 3 {
        ok := false;
      } else if kind == 1 {
        ok := ParseFixed();
      } else {
        ok := ParseDynamic();
      }
    }

    method ParseZlibHeader() returns (ok: bool)
      requires Layout() && Open() && Begun()
      modifies this`pos, this`used
      ensures Open() && Output() == old(Output())
      ensures ok <==> HeaderOk(input)
      ensures ok ==> used == 16 && Stock() == Supply(2, 0, 0, false)
    {
      hide StreamOf, Joined, Drop;
      NothingBuffered();
      var cmf := Get8();
      var flg := Get8();
      ok := !AtEof() && HeaderWord(cmf, flg) % 31 == 0 && flg / 32 % 2 == 0 && cmf % 16 == 8;
      used := 8 * pos;
      WholeBytes();
    }

    lemma WholeBytes()
      requires pos <= |input| && used == 8 * pos && numBits == codeBuffer == 0
      ensures Pending() == Rest()
    {
      DropBytes(input, pos);
    }

    /**
     Decode a whole stream.  It is accepted exactly if its header is, where one is expected, and the
     input holds a chain of blocks, only the last marked final, that the bit supply lasts for and
     whose output fits the room.  That includes every chain that lies within the input.  The output
     is then what the chain holds; everything else returns false.
     */
    method ParseZlib(parseHeader: bool) returns (ok: bool, ghost path: seq<Place>)
      requires Layout() && Open() && Begun()
      modifies this, out, zLength, zLength.fast, zLength.firstcode, zLength.maxcode, zLength.firstsymbol
      modifies zLength.size, zLength.value, zDistance, zDistance.fast, zDistance.firstcode, zDistance.maxcode
      modifies zDistance.firstsymbol, zDistance.size, zDistance.value
      ensures Open()
      ensures ok <==> (parseHeader ==> HeaderOk(input))
                      && CanInflate(input, Opening(parseHeader, old(Output())), old(Room()))
      ensures ok ==> StreamTo(input, Opening(parseHeader, old(Output())), path)
                     && Here() == At(Opening(parseHeader, old(Output())), path)
      ensures ok ==> Inflates(input, StartOf(parseHeader), old(Output()), Output(),
                              SpansOf(Opening(parseHeader, old(Output())), path)) && Accounted()
      ensures (parseHeader ==> HeaderOk(input)) ==>
                forall spans: seq<Span> :: DueStream(input, StartOf(parseHeader), old(Output()), old(Room()), spans) ==>
                  ok && Output() == spans[|spans| - 1].after
    {
      hide DueStream, Inflates, StreamTo, BlockTo, StreamOf, Drop, Joined, Unspent, OnPath, CanInflate, CanBlock;
      hide Refill;
      path := [];
      ok := true;
      if parseHeader {
        ok := ParseZlibHeader();
        if !ok {
          return;
        }
      }
      ghost var p, room := Here(), Room();
      forall spans: seq<Span> | DueStream(input, p.u, p.o, room, spans)
        ensures CanInflate(input, p, room)
      {
        DueIsInflated(input, parseHeader, p.o, room, spans);
      }
      var final := false;
      PathStarts(input, p, room);
      while !final
        invariant Open() && SameOut(old(out)) && Room() == room
        invariant OnPath(input, p, room, path, Here(), final)
        decreases if final then 0 else 1, Rest()
      {
        ghost var here := Here();
        PathGoesOn(input, p, room, path, here);
        ok, final := ParseBlock();
        if !ok {
          return;
        }
        PathContinues(input, p, room, path, here, Here(), final);
        BlockToIs(input, here, Here(), final);
        path := path + [Here()];
      }
      PathEnds(input, p, room, path, Here());
      EndOfInput();
      forall spans: seq<Span> | DueStream(input, p.u, p.o, room, spans)
        ensures spans != [] && Output() == spans[|spans| - 1].after
      {
        DueIsInflated(input, parseHeader, p.o, room, spans);
      }
    }

    /** The two tables are laid out apart from each other. */
    ghost predicate Layout() {
      zLength.Shape() && zDistance.Shape() && zLength.ApartFrom(zDistance)
    }

    ghost predicate OutApart()
      reads this
    {
      zLength.Apart(out) && zDistance.Apart(out)
    }
  }

  datatype Status = More | Done | Failed

  /** Sixteen buffered bits decide which code comes next. */
  lemma WindowOfStream(lens: seq<nat>, c: nat, n: nat, rest: nat)
    requires Lengths(lens) && c < Pow2(n) && n >= 16
    ensures forall i: nat :: Matches(lens, c, i) <==> Matches(lens, Joined(c, n, rest), i)
  {
    TakeBuffered(c, n, 16, rest);
    forall i: nat | i < |lens|
      ensures Matches(lens, c, i) <==> Matches(lens, Joined(c, n, rest), i)
    {
      hide Joined, Code;
      RevOfLow(c, 16, lens[i]);
      RevOfLow(Joined(c, n, rest), 16, lens[i]);
    }
  }

  lemma MatchShort(lens: seq<nat>, w: nat, i: nat)
    requires Lengths(lens) && Matches(lens, w, i)
    ensures i < |lens| && lens[i] <= 15
  {
  }
}
