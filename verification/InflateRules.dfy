/** The rest of RFC 1951 and RFC 1950 by their numbers: headers, stored data, fixed codes and code descriptions. */
module InflateRules {
  import opened Bits
  import opened Common
  import opened HuffmanCode
  import opened Deflate
  import opened CodeLengths
  import opened InflateSpec
  import opened DeflateRules

  // ---- the stream

  /** Bits are taken from each byte lowest first (section 3.1.1). */
  lemma {:induction false} StreamBits(s: seq<byte>, k: nat)
    requires k < 8 * |s|
    ensures Bit(StreamOf(s), k) == s[k / 8] / Pow2(k % 8) % 2
  {
    hide StreamOf, Drop, Low, Pow2, Bit;
    FirstEight(s, k);
    if k >= 8 {
      StreamBits(s[1..], k - 8);
      assert s[1..][(k - 8) / 8] == s[k / 8];
    }
  }

  lemma FirstEight(s: seq<byte>, k: nat)
    requires s != []
    ensures k < 8 ==> Bit(StreamOf(s), k) == s[0] / Pow2(k) % 2
    ensures k >= 8 ==> Bit(StreamOf(s), k) == Bit(StreamOf(s[1..]), k - 8)
  {
    ByteOff(s[0], StreamOf(s[1..]));
    hide Low, Drop, Pow2;
    if k < 8 {
      BitOfLow(StreamOf(s), 8, k);
      DropIsQuotient(s[0], k);
    } else {
      DropDrop(StreamOf(s), 8, k - 8);
    }
  }

  /** Three bits begin a block: whether it is the last, and its kind (section 3.2.3). */
  lemma BlockHeader(s: seq<byte>, b: Span, final: bool)
    requires IsBlock(s, b, final)
    ensures var v := Drop(StreamOf(s), b.from);
            && (final <==> v % 2 == 1) && v / 2 % 4 < 3
            && (v / 2 % 4 == 0 ==> StoredSpan(s, b.before, b.after, b.from + 3, b.to))
            && (v / 2 % 4 == 1 ==>
                  CompressedSpan(s, b.before, b.after, FixedLengths(), FixedDistances(), b.from + 3, b.to))
            && (v / 2 % 4 == 2 ==> DynamicSpan(s, b.before, b.after, b.from + 3, b.to))
  {
    hide StreamOf, StoredSpan, CompressedSpan, DynamicSpan;
    var v := Drop(StreamOf(s), b.from);
    Pow2Values();
    LowIsRemainder(v, 1);
    LowIsRemainder(Drop(v, 1), 2);
    DropIsQuotient(v, 1);
  }

  // ---- stored data (section 3.2.4)

  /** A stored body: four bytes from the next byte boundary on, length and complement, low byte first, then the data. */
  lemma StoredRule(s: seq<byte>, o: seq<byte>, out: seq<byte>, u: nat, to: nat)
    ensures StoredSpan(s, o, out, u, to) <==>
              var h := (u + 7) / 8;
              h + 4 <= |s| &&
              var len := (s[h + 1] as int) * 256 + s[h];
              && (s[h + 3] as int) * 256 + s[h + 2] == 65535 - len && h + 4 + len <= |s|
              && to == 8 * (h + 4 + len) && out == o + s[h + 4..][..len]
  {
    var h := (u + 7) / 8;
    if StoredSpan(s, o, out, u, to) {
      var l: nat :| StoredAt(s, h, l) && to == 8 * (h + 4 + l) && out == o + s[h + 4..h + 4 + l];
      assert s[h + 4..][..l] == s[h + 4..h + 4 + l];
    }
    if h + 4 <= |s| && h + 4 + (s[h + 1] as int) * 256 + s[h] <= |s| {
      StoredBy(s, o, out, u, to, (s[h + 1] as int) * 256 + s[h]);
    }
  }

  lemma StoredBy(s: seq<byte>, o: seq<byte>, out: seq<byte>, u: nat, to: nat, len: nat)
    requires (u + 7) / 8 + 4 + len <= |s|
    ensures var h := (u + 7) / 8;
            StoredAt(s, h, len) && to == 8 * (h + 4 + len) && out == o + s[h + 4..][..len] ==>
              StoredSpan(s, o, out, u, to)
  {
    var h := ByteIndex(u);
    assert s[h + 4..][..len] == s[h + 4..h + 4 + len];
    if StoredAt(s, h, len) && to == 8 * (h + 4 + len) && out == o + s[h + 4..h + 4 + len] {
      assert StoredSpan(s, o, out, u, to);
    }
  }

  /** Any data of fewer than 65536 bytes behind such a header is a whole stream that holds just the data. */
  lemma StoredStream(data: seq<byte>)
    requires |data| < 65536
    ensures var n := |data|;
            var s := [1, n % 256, n / 256, 255 - n % 256, 255 - n / 256] + data;
            Inflates(s, 0, [], data, [Span(0, 8 * |s|, [], data)])
  {
    var n := |data|;
    var s := [1, n % 256, n / 256, 255 - n % 256, 255 - n / 256] + data;
    assert s[5..][..n] == data;
    StoredRule(s, [], data, 3, 8 * |s|);
    FirstByte(s);
    hide StreamOf, StoredSpan, CompressedSpan, DynamicSpan, Drop, Low;
    var b := Span(0, 8 * |s|, [], data);
    assert IsBlock(s, b, true);
    assert [b][..0] == [];
  }

  lemma FirstByte(s: seq<byte>)
    requires |s| > 0 && s[0] == 1
    ensures var v := Drop(StreamOf(s), 0); Low(v, 1) == 1 && Low(Drop(v, 1), 2) == 0
  {
    var v := StreamOf(s);
    assert v == 1 + 256 * StreamOf(s[1..]);
    Pow2Values();
    LowIsRemainder(v, 1);
    LowIsRemainder(Drop(v, 1), 2);
    DropIsQuotient(v, 1);
  }

  // ---- fixed codes (section 3.2.6)

  lemma {:induction false} FixedCounts(n: nat)
    requires n <= 288
    ensures Count(FixedLengths(), n, 7) == if n <= 256 then 0 else if n <= 280 then n - 256 else 24
    ensures Count(FixedLengths(), n, 8) == if n <= 144 then n else if n <= 280 then 144 else n - 136
    ensures Count(FixedLengths(), n, 9) == if n <= 144 then 0 else if n <= 256 then n - 144 else 112
    ensures forall s :: 0 <= s < 7 ==> Count(FixedLengths(), n, s) == 0
  {
    if n > 0 {
      FixedCounts(n - 1);
    }
  }

  lemma {:induction false} NoCodesBelow(lens: seq<nat>, s: nat)
    requires s >= 1 && forall t :: 1 <= t < s ==> Total(lens, t) == 0
    ensures FirstCode(lens, s) == 0
  {
    if s > 1 {
      NoCodesBelow(lens, s - 1);
    }
  }

  /** Length and code of each symbol. */
  lemma FixedRule(i: nat)
    requires i < 288
    ensures FixedLengths()[i] == (if i < 144 then 8 else if i < 256 then 9 else if i < 280 then 7 else 8)
    ensures Code(FixedLengths(), i) == if i < 144 then 0x30 + i
                                       else if i < 256 then 0x190 + (i - 144)
                                       else if i < 280 then i - 256
                                       else 0xC0 + (i - 280)
  {
    FixedCounts(288);
    FixedCounts(i);
    NoCodesBelow(FixedLengths(), 7);
    FirstFixedCodes();
  }

  lemma FirstFixedCodes()
    ensures FirstCode(FixedLengths(), 7) == 0 && FirstCode(FixedLengths(), 8) == 0x30
    ensures FirstCode(FixedLengths(), 9) == 0x190
  {
    FixedCounts(288);
    NoCodesBelow(FixedLengths(), 7);
    hide Count, FixedLengths;
  }

  lemma {:induction false} FixedDistanceCounts(n: nat)
    requires n <= 32
    ensures Count(FixedDistances(), n, 5) == n && forall s :: 0 <= s < 5 ==> Count(FixedDistances(), n, s) == 0
  {
    if n > 0 {
      FixedDistanceCounts(n - 1);
    }
  }

  lemma FixedDistanceRule(i: nat)
    requires i < 32
    ensures FixedDistances()[i] == 5 && Code(FixedDistances(), i) == i
  {
    FixedDistanceCounts(32);
    FixedDistanceCounts(i);
    NoCodesBelow(FixedDistances(), 5);
  }

  // ---- codes described by the stream (section 3.2.7)

  /** Which length the i-th three-bit field of a description is. */
  function FieldOrder(i: nat): nat
    requires i < 19
  {
    if i < 3 then 16 + i else if i == 3 then 0 else if i % 2 == 0 then 6 + i / 2 else 9 - i / 2
  }

  lemma FieldOrderIs(i: nat)
    requires i < 19
    ensures |DEZIGZAG| == 19 && DEZIGZAG[i] == FieldOrder(i) < 19
  {
  }

  lemma {:induction false} CodeLengthRule(v: nat, k: nat, i: nat)
    requires k <= 19 && i < 19
    ensures CodeLengthCode(v, k)[FieldOrder(i)] == if i < k then v / Pow2(3 * i) % 8 else 0
  {
    FieldOrderIs(i);
    if k > 0 {
      CodeLengthRule(v, k - 1, i);
      FieldOrderIs(k - 1);
      if i == k - 1 {
        Pow2Values();
        LowIsRemainder(Drop(v, 3 * i), 3);
        DropIsQuotient(v, 3 * i);
      }
    }
  }

  /** Where a description has its counts: 5, 5 and 4 bits, from 257, 1 and 4 upwards. */
  lemma DescriptionRule(v: nat, ll: seq<nat>, dl: seq<nat>, bits: nat)
    requires Describes(v, ll, dl, bits)
    ensures |ll| == 257 + v % 32 && |dl| == 1 + v / 32 % 32
    ensures var fields := 4 + v / 1024 % 16;
            exists ops :: && SpelledBy(v, ll + dl, bits, ops) && Runs(ops) == ll + dl
                          && bits == 14 + 3 * fields + OpsBits(CodeLengthCode(v / 16384, fields), ops)
  {
    hide Runs, OpsBits, ReadsOps, Accepted, CodeLengthCode;
    FieldsOf(v);
    var ops :| SpelledBy(v, ll + dl, bits, ops);
  }

  lemma FieldsOf(v: nat)
    ensures Low(v, 5) == v % 32 && Low(Drop(v, 5), 5) == v / 32 % 32
    ensures Low(Drop(v, 10), 4) == v / 1024 % 16 && Drop(v, 14) == v / 16384
  {
    hide Low, Drop, Pow2;
    DistPowers();
    FieldPowers();
    LowIsRemainder(v, 5);
    LowIsRemainder(Drop(v, 5), 5);
    LowIsRemainder(Drop(v, 10), 4);
    DropIsQuotient(v, 5);
    DropIsQuotient(v, 10);
    DropIsQuotient(v, 14);
  }

  lemma FieldPowers()
    ensures Pow2(4) == 16 && Pow2(5) == 32 && Pow2(10) == 1024 && Pow2(14) == 16384
  {
    hide Pow2;
    DistPowers();
    assert Pow2(14) == 2 * Pow2(13) by {
      NextPower(13);
    }
  }

  lemma NextPower(n: nat)
    ensures Pow2(n + 1) == 2 * Pow2(n)
  {
  }

  /** Symbols below 16 are lengths; 16, 17 and 18 are runs, with 2, 3 and 7 extra bits. */
  lemma OpRule(cl: seq<nat>, v: nat, n: nat, e: nat)
    requires |cl| == 19
    ensures ReadsOp(cl, v, Len(n)) <==> n < 16 && Matches(cl, v, n)
    ensures ReadsOp(cl, v, Repeat(e)) <==> Matches(cl, v, 16) && v / Pow2(cl[16]) % 4 == e
    ensures ReadsOp(cl, v, Zeros(e)) <==> Matches(cl, v, 17) && v / Pow2(cl[17]) % 8 == e
    ensures ReadsOp(cl, v, ManyZeros(e)) <==> Matches(cl, v, 18) && v / Pow2(cl[18]) % 128 == e
    ensures OpBits(cl, Repeat(e)) == cl[16] + 2 && OpBits(cl, Zeros(e)) == cl[17] + 3
    ensures OpBits(cl, ManyZeros(e)) == cl[18] + 7 && (n < 16 ==> OpBits(cl, Len(n)) == cl[n])
  {
    hide Low, Drop, Pow2, Matches;
    Pow2Values();
    DropIsQuotient(v, cl[16]);
    DropIsQuotient(v, cl[17]);
    DropIsQuotient(v, cl[18]);
    LowIsRemainder(Drop(v, cl[16]), 2);
    LowIsRemainder(Drop(v, cl[17]), 3);
    LowIsRemainder(Drop(v, cl[18]), 7);
  }

  /** What each appends: a length, the last one again 3 to 6 times, or 3 to 10 or 11 to 138 zeros. */
  lemma RunRule(ops: seq<Op>, n: nat, e: nat)
    ensures Runs(ops + [Len(n)]) == Runs(ops) + [n]
    ensures Runs(ops) != [] ==> Adds(Runs(ops), Runs(ops + [Repeat(e)]), 3 + e, Runs(ops)[|Runs(ops)| - 1])
    ensures Adds(Runs(ops), Runs(ops + [Zeros(e)]), 3 + e, 0)
    ensures Adds(Runs(ops), Runs(ops + [ManyZeros(e)]), 11 + e, 0)
  {
    hide Runs, Adds;
    RunsAppend(ops, Len(n));
    RunsAppend(ops, Repeat(e));
    RunsAppend(ops, Zeros(e));
    RunsAppend(ops, ManyZeros(e));
    RunIs(Runs(ops), e);
  }

  /** That many copies of one length are added. */
  ghost predicate Adds(lens: seq<nat>, r: seq<nat>, count: nat, length: nat) {
    |r| == |lens| + count && r[..|lens|] == lens && forall k :: |lens| <= k < |r| ==> r[k] == length
  }

  lemma RunIs(lens: seq<nat>, e: nat)
    ensures lens != [] ==> Adds(lens, lens + Repeat(e).Run(lens), 3 + e, lens[|lens| - 1])
    ensures Adds(lens, lens + Zeros(e).Run(lens), 3 + e, 0)
    ensures Adds(lens, lens + ManyZeros(e).Run(lens), 11 + e, 0)
  {
  }

  lemma RunsAppend(ops: seq<Op>, op: Op)
    ensures Runs(ops + [op]) == Runs(ops) + op.Run(Runs(ops))
  {
    assert (ops + [op])[..|ops|] == ops;
  }

  // ---- the two bytes before a stream (section 2.2 of RFC 1950)

  /** A multiple of 31 in all, no dictionary, method 8 and any window size, with at least a byte behind. */
  lemma HeaderRule(s: seq<byte>)
    ensures HeaderOk(s) <==> |s| >= 3 && ((s[0] as int) * 256 + s[1]) % 31 == 0 && s[1] / 32 % 2 == 0 && s[0] % 16 == 8
  {
  }
}
