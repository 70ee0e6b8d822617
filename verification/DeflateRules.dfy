/**
 The rules of RFC 1951 by their numbers: what lengths, distances, codes and headers mean, stated
 beside the tables and tests the decoder uses.
 */
module DeflateRules {
  import opened Bits
  import opened Common
  import opened HuffmanCode
  import opened Deflate

  // ---- bits (section 3.1.1)

  /** A number's first bit is its lowest, and a code's first bit its highest. */
  lemma {:induction false} CodeBits(v: nat, n: nat, k: nat)
    requires k < n
    ensures Rev(v, n) / Pow2(n - 1 - k) % 2 == v / Pow2(k) % 2
  {
    RevBit(v, n, k);
    DropIsQuotient(Rev(v, n), n - 1 - k);
    DropIsQuotient(v, k);
  }

  lemma {:induction false} RevBit(v: nat, n: nat, k: nat)
    requires k < n
    ensures Bit(Rev(v, n), n - 1 - k) == Bit(v, k)
  {
    if k < n - 1 {
      RevBit(v, n - 1, k);
      DropHalf(Rev(v, n), n - 2 - k);
      assert Rev(v, n) / 2 == Rev(v, n - 1);
    }
  }

  lemma {:induction false} DropIsQuotient(v: nat, n: nat)
    ensures Drop(v, n) == v / Pow2(n)
  {
    if n > 0 {
      DropIsQuotient(v, n - 1);
      QuotientTwice(v, Pow2(n - 1));
    }
  }

  lemma QuotientTwice(v: nat, p: nat)
    requires p >= 1
    ensures v / p / 2 == v / (2 * p)
  {
    var q := v / p;
    var r, h, b := v - p * q, q / 2, q % 2;
    assert v == 2 * p * h + (p * b + r) by {
      assert p * q == p * (2 * h + b) == 2 * p * h + p * b;
    }
    assert 0 <= p * b + r < 2 * p;
    Quotient(v, 2 * p, h, p * b + r);
  }

  lemma Quotient(v: nat, d: nat, q: nat, r: nat)
    requires d >= 1 && v == d * q + r && r < d
    ensures v / d == q && v % d == r
  {
    var k, r' := v / d - q, v % d;
    assert d * k == d * (v / d) - d * q;
    if k != 0 {
      FarApart(d, k);
    }
  }

  lemma FarApart(d: nat, k: int)
    requires k != 0
    ensures d * k >= d || d * k <= 0 - d
  {
    if k > 0 {
      assert d * k == d + d * (k - 1);
    } else {
      var m := 0 - k;
      assert d * k == 0 - d * m && d * m == d + d * (m - 1);
    }
  }

  lemma LowIsRemainder(v: nat, n: nat)
    ensures Low(v, n) == v % Pow2(n)
  {
    SplitAt(v, n);
    DropIsQuotient(v, n);
    ShlIsProduct(Drop(v, n), n);
    Quotient(v, Pow2(n), Drop(v, n), Low(v, n));
  }

  lemma {:induction false} ShlIsProduct(v: nat, n: nat)
    ensures Shl(v, n) == Pow2(n) * v
  {
    if n > 0 {
      ShlIsProduct(v, n - 1);
    }
  }

  // ---- lengths and distances (section 3.2.5)

  /** A symbol, how many extra bits follow it, and their value. */
  datatype Coded = Coded(symbol: nat, bits: nat, value: nat)

  function LengthRule(n: nat): Coded
    requires 3 <= n <= 258
  {
    if n == 258 then Coded(285, 0, 0)
    else if n <= 10 then Coded(254 + n, 0, 0)
    else if n <= 18 then Coded(265 + (n - 11) / 2, 1, (n - 11) % 2)
    else if n <= 34 then Coded(269 + (n - 19) / 4, 2, (n - 19) % 4)
    else if n <= 66 then Coded(273 + (n - 35) / 8, 3, (n - 35) % 8)
    else if n <= 130 then Coded(277 + (n - 67) / 16, 4, (n - 67) % 16)
    else Coded(281 + (n - 131) / 32, 5, (n - 131) % 32)
  }

  function DistanceRule(d: nat): Coded
    requires 1 <= d <= 32768
  {
    if d <= 4 then Coded(d - 1, 0, 0)
    else if d <= 8 then Coded(4 + (d - 5) / 2, 1, (d - 5) % 2)
    else if d <= 16 then Coded(6 + (d - 9) / 4, 2, (d - 9) % 4)
    else if d <= 32 then Coded(8 + (d - 17) / 8, 3, (d - 17) % 8)
    else if d <= 64 then Coded(10 + (d - 33) / 16, 4, (d - 33) % 16)
    else if d <= 128 then Coded(12 + (d - 65) / 32, 5, (d - 65) % 32)
    else if d <= 256 then Coded(14 + (d - 129) / 64, 6, (d - 129) % 64)
    else if d <= 512 then Coded(16 + (d - 257) / 128, 7, (d - 257) % 128)
    else if d <= 1024 then Coded(18 + (d - 513) / 256, 8, (d - 513) % 256)
    else if d <= 2048 then Coded(20 + (d - 1025) / 512, 9, (d - 1025) % 512)
    else if d <= 4096 then Coded(22 + (d - 2049) / 1024, 10, (d - 2049) % 1024)
    else if d <= 8192 then Coded(24 + (d - 4097) / 2048, 11, (d - 4097) % 2048)
    else if d <= 16384 then Coded(26 + (d - 8193) / 4096, 12, (d - 8193) % 4096)
    else Coded(28 + (d - 16385) / 8192, 13, (d - 16385) % 8192)
  }

  /** Two symbols of one range, each followed by k extra bits that count w values. */
  lemma DistanceRange(d: nat, from: nat, w: nat, c: nat, k: nat)
    requires c < 29 && from <= d < from + 2 * w && Pow2(k) == w
    requires DistanceRow(c) == (from, k) && DistanceRow(c + 1) == (from + w, k)
    ensures w > 0
    ensures var s, v := c + (d - from) / w, (d - from) % w;
            s <= 29 && DistExtra(s) == k && v < w && DistBase(s) + v == d
  {
    hide DistBase, DistExtra, Pow2, DistanceRow;
    Halves(d - from, w);
    DistanceEntry(c);
    DistanceEntry(c + 1);
  }

  /** Four symbols of one range. */
  lemma LengthRange(n: nat, from: nat, w: nat, c: nat, k: nat)
    requires c <= 25 && from <= n < from + 4 * w && Pow2(k) == w
    requires LengthRow(c) == (from, k) && LengthRow(c + 1) == (from + w, k)
    requires LengthRow(c + 2) == (from + 2 * w, k) && LengthRow(c + 3) == (from + 3 * w, k)
    ensures w > 0
    ensures var s, v := c + (n - from) / w, (n - from) % w;
            s <= 28 && LengthExtra(s) == k && v < w && LengthBase(s) + v == n
  {
    hide LengthBase, LengthExtra, Pow2, LengthRow;
    Quarters(n - from, w);
    LengthEntry(c);
    LengthEntry(c + 1);
    LengthEntry(c + 2);
    LengthEntry(c + 3);
  }

  lemma Halves(v: nat, w: nat)
    requires 0 < w && v < 2 * w
    ensures v / w == (if v < w then 0 else 1) && v % w == (if v < w then v else v - w)
  {
    Quotient(v, w, if v < w then 0 else 1, if v < w then v else v - w);
  }

  lemma Quarters(v: nat, w: nat)
    requires 0 < w && v < 4 * w
    ensures v % w < w
    ensures v / w == 0 ==> v % w == v
    ensures v / w == 1 ==> v % w == v - w
    ensures v / w == 2 ==> v % w == v - 2 * w
    ensures v / w == 3 ==> v % w == v - 3 * w
    ensures 0 <= v / w < 4
  {
    var q := if v < w then 0 else if v < 2 * w then 1 else if v < 3 * w then 2 else 3;
    Quotient(v, w, q, v - q * w);
  }

  /** The tables, row by row: the base and the number of extra bits. */
  function LengthRow(c: nat): (nat, nat) {
    if c < 8 then (3 + c, 0)
    else if c < 12 then (11 + 2 * (c - 8), 1)
    else if c < 16 then (19 + 4 * (c - 12), 2)
    else if c < 20 then (35 + 8 * (c - 16), 3)
    else if c < 24 then (67 + 16 * (c - 20), 4)
    else if c < 28 then (131 + 32 * (c - 24), 5)
    else (258, 0)
  }

  function DistanceRow(c: nat): (nat, nat) {
    if c < 4 then (1 + c, 0)
    else if c < 6 then (5 + 2 * (c - 4), 1)
    else if c < 8 then (9 + 4 * (c - 6), 2)
    else if c < 10 then (17 + 8 * (c - 8), 3)
    else if c < 12 then (33 + 16 * (c - 10), 4)
    else if c < 14 then (65 + 32 * (c - 12), 5)
    else if c < 16 then (129 + 64 * (c - 14), 6)
    else if c < 18 then (257 + 128 * (c - 16), 7)
    else if c < 20 then (513 + 256 * (c - 18), 8)
    else if c < 22 then (1025 + 512 * (c - 20), 9)
    else if c < 24 then (2049 + 1024 * (c - 22), 10)
    else if c < 26 then (4097 + 2048 * (c - 24), 11)
    else if c < 28 then (8193 + 4096 * (c - 26), 12)
    else (16385 + 8192 * (c - 28), 13)
  }

  lemma LengthEntry(c: nat)
    requires c < 29
    ensures (LengthBase(c), LengthExtra(c)) == LengthRow(c)
  {
  }

  lemma DistanceEntry(c: nat)
    requires c < 30
    ensures (DistBase(c), DistExtra(c)) == DistanceRow(c)
  {
  }

  /** What the length tables make of the rule's symbol and extra bits. */
  lemma LengthTables(n: nat)
    requires 3 <= n <= 258
    ensures var r := LengthRule(n);
            && 257 <= r.symbol <= 285 && LengthExtra(r.symbol - 257) == r.bits && r.value < Pow2(r.bits)
            && LengthBase(r.symbol - 257) + r.value == n
  {
    if n <= 34 {
      ShortTables(n);
    } else {
      LongTables(n);
    }
  }

  lemma ShortTables(n: nat)
    requires 3 <= n <= 34
    ensures var r := LengthRule(n);
            && 257 <= r.symbol <= 285 && LengthExtra(r.symbol - 257) == r.bits && r.value < Pow2(r.bits)
            && LengthBase(r.symbol - 257) + r.value == n
  {
    hide Pow2, LengthBase, LengthExtra;
    DistPowers();
    if n <= 10 {
      LengthEntry(n - 3);
    } else if n <= 18 {
      LengthRange(n, 11, 2, 8, 1);
    } else {
      LengthRange(n, 19, 4, 12, 2);
    }
  }

  lemma LongTables(n: nat)
    requires 34 < n <= 258
    ensures var r := LengthRule(n);
            && 257 <= r.symbol <= 285 && LengthExtra(r.symbol - 257) == r.bits && r.value < Pow2(r.bits)
            && LengthBase(r.symbol - 257) + r.value == n
  {
    hide Pow2, LengthBase, LengthExtra;
    DistPowers();
    if n == 258 {
      LengthEntry(28);
    } else if n <= 66 {
      LengthRange(n, 35, 8, 16, 3);
    } else if n <= 130 {
      LengthRange(n, 67, 16, 20, 4);
    } else {
      LengthRange(n, 131, 32, 24, 5);
    }
  }

  lemma DistanceTables(d: nat)
    requires 1 <= d <= 32768
    ensures var r := DistanceRule(d);
            && r.symbol <= 29 && DistExtra(r.symbol) == r.bits && r.value < Pow2(r.bits)
            && DistBase(r.symbol) + r.value == d
  {
    if d <= 256 {
      NearTables(d);
    } else {
      FarTables(d);
    }
  }

  lemma NearTables(d: nat)
    requires 1 <= d <= 256
    ensures var r := DistanceRule(d);
            && r.symbol <= 29 && DistExtra(r.symbol) == r.bits && r.value < Pow2(r.bits)
            && DistBase(r.symbol) + r.value == d
  {
    hide Pow2, DistBase, DistExtra;
    DistPowers();
    if d <= 16 {
      NearestTables(d);
    } else if d > 128 {
      DistanceRange(d, 129, 64, 14, 6);
    } else if d > 64 {
      DistanceRange(d, 65, 32, 12, 5);
    } else if d > 32 {
      DistanceRange(d, 33, 16, 10, 4);
    } else {
      DistanceRange(d, 17, 8, 8, 3);
    }
  }

  lemma NearestTables(d: nat)
    requires 1 <= d <= 16
    ensures var r := DistanceRule(d);
            && r.symbol <= 29 && DistExtra(r.symbol) == r.bits && r.value < Pow2(r.bits)
            && DistBase(r.symbol) + r.value == d
  {
    hide Pow2, DistBase, DistExtra;
    DistPowers();
    if d > 8 {
      DistanceRange(d, 9, 4, 6, 2);
    } else if d > 4 {
      DistanceRange(d, 5, 2, 4, 1);
    } else {
      DistanceEntry(d - 1);
    }
  }

  lemma FarTables(d: nat)
    requires 256 < d <= 32768
    ensures var r := DistanceRule(d);
            && r.symbol <= 29 && DistExtra(r.symbol) == r.bits && r.value < Pow2(r.bits)
            && DistBase(r.symbol) + r.value == d
  {
    hide Pow2, DistBase, DistExtra;
    DistPowers();
    if d <= 2048 {
      if d <= 512 {
        DistanceRange(d, 257, 128, 16, 7);
      } else if d <= 1024 {
        DistanceRange(d, 513, 256, 18, 8);
      } else {
        DistanceRange(d, 1025, 512, 20, 9);
      }
    } else {
      FarthestTables(d);
    }
  }

  lemma FarthestTables(d: nat)
    requires 2048 < d <= 32768
    ensures var r := DistanceRule(d);
            && r.symbol <= 29 && DistExtra(r.symbol) == r.bits && r.value < Pow2(r.bits)
            && DistBase(r.symbol) + r.value == d
  {
    hide Pow2, DistBase, DistExtra;
    DistPowers();
    if d <= 4096 {
      DistanceRange(d, 2049, 1024, 22, 10);
    } else if d <= 8192 {
      DistanceRange(d, 4097, 2048, 24, 11);
    } else if d <= 16384 {
      DistanceRange(d, 8193, 4096, 26, 12);
    } else {
      DistanceRange(d, 16385, 8192, 28, 13);
    }
  }

  /** The copy that section 3.2.5 prescribes for a length and a distance. */
  function CopyOf(n: nat, d: nat): Token
    requires 3 <= n <= 258 && 1 <= d <= 32768
  {
    Copy(LengthRule(n).symbol - 257, LengthRule(n).value, DistanceRule(d).symbol, DistanceRule(d).value)
  }

  lemma OneToken(o: seq<byte>, t: Token)
    ensures Expand(o, [t]) == if t.Literal? then o + [t.b]
                              else if t.Valid() && t.Dist() <= |o| then CopyMatch(o, t.Dist(), t.Length())
                              else o
  {
    assert [t][..0] == [] && Expand(o, []) == o;
  }

  lemma CopyOfIs(n: nat, d: nat)
    requires 3 <= n <= 258 && 1 <= d <= 32768
    ensures CopyOf(n, d).Copy? && CopyOf(n, d).Valid() && CopyOf(n, d).Length() == n && CopyOf(n, d).Dist() == d
  {
    hide LengthRule, DistanceRule, LengthBase, DistBase, LengthExtra, DistExtra, Pow2;
    LengthTables(n);
    DistanceTables(d);
  }

  /** It stands for n bytes, each the one d places before it. */
  lemma CopyMeans(n: nat, d: nat, o: seq<byte>)
    requires 3 <= n <= 258 && 1 <= d <= 32768 && d <= |o|
    ensures CopyOf(n, d).Valid()
    ensures var e := Expand(o, [CopyOf(n, d)]);
            && |e| == |o| + n && e[..|o|] == o
            && forall i :: |o| <= i < |o| + n ==> e[i] == e[i - d]
  {
    hide Expand, CopyOf, CopyMatch;
    CopyOfIs(n, d);
    OneToken(o, CopyOf(n, d));
    CopyRepeats(o, d, n);
  }

  /** It may reach back as far as the output goes, and no further. */
  lemma CopyReaches(n: nat, d: nat, o: seq<byte>)
    requires 3 <= n <= 258 && 1 <= d <= 32768
    ensures Legal(o, [CopyOf(n, d)]) <==> d <= |o|
  {
    hide CopyOf, Legal;
    CopyOfIs(n, d);
    OneLegal(o, CopyOf(n, d));
  }

  lemma OneLegal(o: seq<byte>, t: Token)
    ensures Legal(o, [t]) <==> t.Valid() && (t.Copy? ==> t.Dist() <= |o|)
  {
    hide Token.Valid;
    assert [t][..0] == [] && Legal(o, []) && Expand(o, []) == o;
  }

  lemma CopyRepeats(o: seq<byte>, d: nat, n: nat)
    requires 1 <= d <= |o|
    ensures var e := CopyMatch(o, d, n);
            |e| == |o| + n && e[..|o|] == o && forall i :: |o| <= i < |o| + n ==> e[i] == e[i - d]
  {
    hide CopyMatch;
    var e := CopyMatch(o, d, n);
    forall i | 0 <= i < |o|
      ensures e[..|o|][i] == o[i]
    {
      CopyMatchPeriodic(o, d, n, i);
    }
    forall i | |o| <= i < |o| + n
      ensures e[i] == e[i - d]
    {
      CopyMatchPeriodic(o, d, n, i);
    }
  }

  lemma ReadsCopy(ll: seq<nat>, dl: seq<nat>, v: nat, t: Token)
    requires t.Copy? && t.Valid()
    ensures Reads(ll, dl, v, t) <==>
              Matches(ll, v, 257 + t.lengthCode) &&
              var v1 := Drop(v, ll[257 + t.lengthCode]);
              var v2 := Drop(v1, LengthExtra(t.lengthCode));
              && Low(v1, LengthExtra(t.lengthCode)) == t.lengthBits && Matches(dl, v2, t.distCode)
              && Low(Drop(v2, dl[t.distCode]), DistExtra(t.distCode)) == t.distBits
    ensures Reads(ll, dl, v, t) ==>
              && 257 + t.lengthCode < |ll| && t.distCode < |dl|
              && TokenBits(ll, dl, t) == ll[257 + t.lengthCode] + LengthExtra(t.lengthCode)
                                         + dl[t.distCode] + DistExtra(t.distCode)
  {
    hide Drop, Low, LengthExtra, DistExtra, Pow2, Code, Rev;
  }

  lemma CopyOfParts(n: nat, d: nat)
    requires 3 <= n <= 258 && 1 <= d <= 32768
    ensures CopyOf(n, d).Copy? && CopyOf(n, d).Valid()
    ensures var t, l, r := CopyOf(n, d), LengthRule(n), DistanceRule(d);
            && t == Copy(l.symbol - 257, l.value, r.symbol, r.value) && l.symbol >= 257
            && LengthExtra(t.lengthCode) == l.bits && DistExtra(t.distCode) == r.bits
  {
    hide LengthRule, DistanceRule, LengthBase, DistBase, LengthExtra, DistExtra, Pow2;
    LengthTables(n);
    DistanceTables(d);
  }

  /** On the stream it is the length's symbol and extra bits, and then the distance's. */
  lemma CopyReads(ll: seq<nat>, dl: seq<nat>, v: nat, n: nat, d: nat)
    requires 3 <= n <= 258 && 1 <= d <= 32768
    ensures var l, r := LengthRule(n), DistanceRule(d);
            Reads(ll, dl, v, CopyOf(n, d)) <==>
              Matches(ll, v, l.symbol) &&
              var v1 := Drop(v, ll[l.symbol]);
              var v2 := Drop(v1, l.bits);
              && Low(v1, l.bits) == l.value && Matches(dl, v2, r.symbol)
              && Low(Drop(v2, dl[r.symbol]), r.bits) == r.value
    ensures Reads(ll, dl, v, CopyOf(n, d)) ==>
              var l, r := LengthRule(n), DistanceRule(d);
              && l.symbol < |ll| && r.symbol < |dl|
              && TokenBits(ll, dl, CopyOf(n, d)) == ll[l.symbol] + l.bits + dl[r.symbol] + r.bits
  {
    hide CopyOf, Reads, TokenBits, LengthRule, DistanceRule, Drop, Low, LengthExtra, DistExtra, Pow2, Code, Rev;
    CopyOfParts(n, d);
    ReadsCopy(ll, dl, v, CopyOf(n, d));
  }

  /** There are no other copies, but for a second way to write the greatest length. */
  lemma CopiesAreThese(t: Token) returns (n: nat, d: nat)
    requires t.Copy? && t.Valid()
    ensures 3 <= n <= 258 && 1 <= d <= 32768
    ensures t == CopyOf(n, d) || (n == 258 && t == CopyOf(n, d).(lengthCode := 27, lengthBits := 31))
  {
    hide LengthRule, DistanceRule, LengthBase, DistBase, LengthExtra, DistExtra, Pow2, CopyOf;
    LengthOfTables(t.lengthCode, t.lengthBits);
    DistanceOfTables(t.distCode, t.distBits);
    n, d := LengthBase(t.lengthCode) + t.lengthBits, DistBase(t.distCode) + t.distBits;
    CopyOfParts(n, d);
    LongestLength();
  }

  lemma LongestLength()
    ensures LengthRule(258) == Coded(285, 0, 0)
  {
  }

  lemma LengthOfTables(c: nat, b: nat)
    requires c < 29 && b < Pow2(LengthExtra(c))
    ensures var n := LengthBase(c) + b;
            3 <= n <= 258 && (LengthRule(n) == Coded(257 + c, LengthExtra(c), b) || (n == 258 && c == 27 && b == 31))
  {
    if c < 16 {
      ShortOfTables(c, b);
    } else if c < 24 {
      LongOfTables(c, b);
    } else {
      LongestOfTables(c, b);
    }
  }

  lemma ShortOfTables(c: nat, b: nat)
    requires c < 16 && b < Pow2(LengthExtra(c))
    ensures 3 <= LengthBase(c) + b <= 34 && LengthRule(LengthBase(c) + b) == Coded(257 + c, LengthExtra(c), b)
  {
    hide Pow2, LengthBase, LengthExtra;
    DistPowers();
    LengthEntry(c);
  }

  lemma LongOfTables(c: nat, b: nat)
    requires 16 <= c < 24 && b < Pow2(LengthExtra(c))
    ensures 34 < LengthBase(c) + b <= 130 && LengthRule(LengthBase(c) + b) == Coded(257 + c, LengthExtra(c), b)
  {
    hide Pow2, LengthBase, LengthExtra;
    DistPowers();
    LengthEntry(c);
    var from, w := if c < 20 then 35 else 67, if c < 20 then 8 else 16;
    Quotient(LengthBase(c) + b - from, w, if c < 20 then c - 16 else c - 20, b);
  }

  lemma LongestOfTables(c: nat, b: nat)
    requires 24 <= c < 29 && b < Pow2(LengthExtra(c))
    ensures var n := LengthBase(c) + b;
            130 < n <= 258 && (LengthRule(n) == Coded(257 + c, LengthExtra(c), b) || (n == 258 && c == 27 && b == 31))
  {
    hide Pow2, LengthBase, LengthExtra;
    DistPowers();
    LengthEntry(c);
    if c < 28 {
      Quotient(LengthBase(c) + b - 131, 32, c - 24, b);
    }
  }

  lemma DistanceOfTables(c: nat, b: nat)
    requires c < 30 && b < Pow2(DistExtra(c))
    ensures var d := DistBase(c) + b; 1 <= d <= 32768 && DistanceRule(d) == Coded(c, DistExtra(c), b)
  {
    if c < 16 {
      NearOfTables(c, b);
    } else {
      FarOfTables(c, b);
    }
  }

  lemma NearOfTables(c: nat, b: nat)
    requires c < 16 && b < Pow2(DistExtra(c))
    ensures 1 <= DistBase(c) + b <= 256 && DistanceRule(DistBase(c) + b) == Coded(c, DistExtra(c), b)
  {
    hide Pow2, DistBase, DistExtra;
    DistPowers();
    DistanceEntry(c);
  }

  lemma FarOfTables(c: nat, b: nat)
    requires 16 <= c < 30 && b < Pow2(DistExtra(c))
    ensures 256 < DistBase(c) + b <= 32768 && DistanceRule(DistBase(c) + b) == Coded(c, DistExtra(c), b)
  {
    hide Pow2, DistBase, DistExtra;
    DistPowers();
    DistanceEntry(c);
  }

  /** Bytes are their own symbols, and 256 ends a block. */
  lemma LiteralsAndEnd(ll: seq<nat>, dl: seq<nat>, v: nat, b: byte, o: seq<byte>, toks: seq<Token>)
    ensures Reads(ll, dl, v, Literal(b)) <==> Matches(ll, v, b)
    ensures Expand(o, [Literal(b)]) == o + [b]
    ensures BlockIs(ll, dl, v, []) <==> Matches(ll, v, 256)
  {
    OneToken(o, Literal(b));
  }

  // ---- canonical codes (section 3.2.2)

  /** No symbol in from..to has length s. */
  ghost predicate NoneBetween(lens: seq<nat>, from: nat, to: nat, s: nat) {
    forall k :: from <= k < to && k < |lens| ==> lens[k] != s
  }

  lemma {:induction false} CountBetween(lens: seq<nat>, from: nat, to: nat, s: nat)
    requires from <= to <= |lens| && NoneBetween(lens, from, to, s)
    ensures Count(lens, to, s) == Count(lens, from, s)
  {
    if from < to {
      CountBetween(lens, from, to - 1, s);
    }
  }

  /** Codes of one length are consecutive, in the order of their symbols. */
  lemma CodesConsecutive(lens: seq<nat>, i: nat, j: nat)
    requires i < j < |lens| && lens[i] == lens[j] > 0 && NoneBetween(lens, i + 1, j, lens[i])
    ensures Code(lens, j) == Code(lens, i) + 1
  {
    CountBetween(lens, i + 1, j, lens[i]);
  }

  /** No symbol has a length from s up to but not including t. */
  ghost predicate NoLengths(lens: seq<nat>, s: nat, t: nat) {
    forall k :: 0 <= k < |lens| ==> !(s <= lens[k] < t)
  }

  lemma {:induction false} FirstCodeSkips(lens: seq<nat>, s: nat, t: nat)
    requires 1 <= s <= t && NoLengths(lens, s, t)
    ensures FirstCode(lens, t) == Shl(FirstCode(lens, s), t - s)
  {
    if s < t {
      FirstCodeSkips(lens, s, t - 1);
      CountBetween(lens, 0, |lens|, t - 1);
    }
  }

  /** The first code of all is zero. */
  lemma FirstCodeIsZero(lens: seq<nat>, i: nat)
    requires i < |lens| && lens[i] > 0 && NoneBetween(lens, 0, i, lens[i]) && NoLengths(lens, 1, lens[i])
    ensures Code(lens, i) == 0
  {
    FirstCodeSkips(lens, 1, lens[i]);
    CountBetween(lens, 0, i, lens[i]);
    ShlOne(lens[i] - 1);
  }

  /** The first code of a length follows the last one of the length before it, with zeros behind. */
  lemma FirstOfNextLength(lens: seq<nat>, last: nat, i: nat)
    requires last < |lens| && i < |lens| && 0 < lens[last] < lens[i] && NoLengths(lens, lens[last] + 1, lens[i])
    requires NoneBetween(lens, last + 1, |lens|, lens[last]) && NoneBetween(lens, 0, i, lens[i])
    ensures Code(lens, i) == Pow2(lens[i] - lens[last]) * (Code(lens, last) + 1)
  {
    var s, t := lens[last], lens[i];
    CountBetween(lens, last + 1, |lens|, s);
    CountBetween(lens, 0, i, t);
    FirstCodeSkips(lens, s + 1, t);
    assert FirstCode(lens, s + 1) == 2 * (Code(lens, last) + 1);
    ShlDouble(Code(lens, last) + 1, t - s - 1);
    ShlIsProduct(Code(lens, last) + 1, t - s);
  }
}
