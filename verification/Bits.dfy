/**
 Shifts, masks and bit reversal of natural numbers.  They are defined by doubling and halving, so
 no reasoning about them needs multiplication of two variables.
 */
module Bits {

  type byte = x: int | 0 <= x < 256

  function Pow2(n: nat): (p: nat)
    ensures p >= 1
  {
    if n == 0 then 1 else 2 * Pow2(n - 1)
  }

  /** v << n */
  function Shl(v: nat, n: nat): nat {
    if n == 0 then v else 2 * Shl(v, n - 1)
  }

  /** v >> n: what is left of a bit stream after its first n bits. */
  function Drop(v: nat, n: nat): nat {
    if n == 0 then v else Drop(v, n - 1) / 2
  }

  function Bit(v: nat, i: nat): (b: nat)
    ensures b < 2
  {
    Drop(v, i) % 2
  }

  /** v & ((1 << n) - 1): the first n bits of a stream as a number. */
  function Low(v: nat, n: nat): (r: nat)
    ensures r < Pow2(n)
  {
    if n == 0 then 0 else Low(v, n - 1) + if Bit(v, n - 1) == 1 then Pow2(n - 1) else 0
  }

  /** The first n bits of a stream, read with the first bit as the most significant one. */
  function Rev(v: nat, n: nat): (r: nat)
    ensures r < Pow2(n)
  {
    if n == 0 then 0 else 2 * Rev(v, n - 1) + Bit(v, n - 1)
  }

  lemma Pow2Values()
    ensures Pow2(1) == 2 && Pow2(2) == 4 && Pow2(3) == 8 && Pow2(4) == 16 && Pow2(5) == 32 && Pow2(7) == 128
    ensures Pow2(8) == 256 && Pow2(9) == 512 && Pow2(15) == 0x8000 && Pow2(16) == 0x1_0000
  {
  }

  lemma {:induction false} Pow2Mono(a: nat, b: nat)
    requires a <= b
    ensures Pow2(a) <= Pow2(b)
  {
    if a < b {
      Pow2Mono(a, b - 1);
    }
  }

  lemma {:induction false} DropDrop(v: nat, a: nat, b: nat)
    ensures Drop(Drop(v, a), b) == Drop(v, a + b)
  {
    if b > 0 {
      DropDrop(v, a, b - 1);
    }
  }

  lemma DropSum(v: nat, a: nat, b: nat, c: nat)
    requires c == a + b
    ensures Drop(v, c) == Drop(Drop(v, a), b)
  {
    DropDrop(v, a, b);
  }

  lemma {:induction false} ShlShl(v: nat, a: nat, b: nat)
    ensures Shl(Shl(v, a), b) == Shl(v, a + b)
  {
    if b > 0 {
      ShlShl(v, a, b - 1);
    }
  }

  lemma {:induction false} ShlAdd(a: nat, b: nat, n: nat)
    ensures Shl(a + b, n) == Shl(a, n) + Shl(b, n)
  {
    if n > 0 {
      ShlAdd(a, b, n - 1);
    }
  }

  lemma {:induction false} ShlOne(n: nat)
    ensures Shl(1, n) == Pow2(n) && Shl(0, n) == 0
  {
    if n > 0 {
      ShlOne(n - 1);
    }
  }

  lemma ShlSucc(a: nat, n: nat)
    ensures Shl(a + 1, n) == Shl(a, n) + Pow2(n)
  {
    ShlOne(n);
    ShlAdd(a, 1, n);
  }

  lemma ShlDouble(v: nat, n: nat)
    ensures Shl(2 * v, n) == Shl(v, n + 1)
  {
    ShlAdd(v, v, n);
  }

  /** Shifted numbers keep their distance. */
  lemma ShlMono(a: nat, b: nat, n: nat)
    requires a < b
    ensures Shl(a, n) + Pow2(n) <= Shl(b, n)
  {
    ShlOne(n);
    ShlAdd(a, 1, n);
    ShlAdd(a + 1, b - a - 1, n);
  }

  lemma ShlOrder(a: nat, b: nat, n: nat)
    ensures Shl(a, n) <= Shl(b, n) <==> a <= b
  {
    if a < b {
      ShlMono(a, b, n);
    } else if b < a {
      ShlMono(b, a, n);
    }
  }

  /** A number is its low bits and the rest shifted back. */
  lemma {:induction false} SplitAt(v: nat, n: nat)
    ensures v == Low(v, n) + Shl(Drop(v, n), n)
  {
    if n > 0 {
      SplitAt(v, n - 1);
      ShlDouble(Drop(v, n), n - 1);
      ShlOne(n - 1);
      ShlAdd(2 * Drop(v, n), Bit(v, n - 1), n - 1);
    }
  }

  /** and in one way only. */
  lemma JoinSplit(c: nat, n: nat, r: nat)
    requires c < Pow2(n)
    ensures Low(c + Shl(r, n), n) == c && Drop(c + Shl(r, n), n) == r
  {
    var v := c + Shl(r, n);
    SplitAt(v, n);
    if Drop(v, n) < r {
      ShlMono(Drop(v, n), r, n);
    } else if r < Drop(v, n) {
      ShlMono(r, Drop(v, n), n);
    }
  }

  lemma LowOfSmall(c: nat, n: nat)
    requires c < Pow2(n)
    ensures Low(c, n) == c && Drop(c, n) == 0
  {
    ShlOne(n);
    JoinSplit(c, n, 0);
  }

  lemma {:induction false} DropHalf(v: nat, n: nat)
    ensures Drop(v / 2, n) == Drop(v, n + 1)
  {
    DropDrop(v, 1, n);
    assert Drop(v, 1) == v / 2;
  }

  lemma {:induction false} LowHalf(v: nat, n: nat)
    requires n > 0
    ensures Low(v, n) == v % 2 + 2 * Low(v / 2, n - 1)
  {
    if n == 1 {
      assert Bit(v, 0) == v % 2;
    } else {
      LowHalf(v, n - 1);
      DropHalf(v, n - 2);
    }
  }

  lemma {:induction false} BitOfLow(v: nat, m: nat, i: nat)
    requires i < m
    ensures Bit(Low(v, m), i) == Bit(v, i)
    decreases i
  {
    LowHalf(v, m);
    if i > 0 {
      DropHalf(v, i - 1);
      DropHalf(Low(v, m), i - 1);
      BitOfLow(v / 2, m - 1, i - 1);
    }
  }

  lemma {:induction false} RevOfLow(v: nat, m: nat, n: nat)
    requires n <= m
    ensures Rev(Low(v, m), n) == Rev(v, n)
  {
    if n > 0 {
      RevOfLow(v, m, n - 1);
      BitOfLow(v, m, n - 1);
    }
  }

  /** A shorter stream prefix is a longer one shifted right. */
  lemma {:induction false} RevPrefix(v: nat, s: nat, n: nat)
    requires s <= n
    ensures Rev(v, s) == Drop(Rev(v, n), n - s)
    decreases n
  {
    if s < n {
      RevPrefix(v, s, n - 1);
      assert Rev(v, n) / 2 == Rev(v, n - 1);
      DropHalf(Rev(v, n), n - 1 - s);
    }
  }

  lemma {:induction false} RevUnfoldLow(v: nat, n: nat)
    requires n > 0
    ensures Rev(v, n) == (if v % 2 == 1 then Pow2(n - 1) else 0) + Rev(v / 2, n - 1)
  {
    if n == 1 {
      assert Bit(v, 0) == v % 2;
    } else {
      RevUnfoldLow(v, n - 1);
      DropHalf(v, n - 2);
    }
  }

  /** Reversal undoes itself on n bits. */
  lemma {:induction false} RevRev(v: nat, n: nat)
    ensures Rev(Rev(v, n), n) == Low(v, n)
  {
    if n > 0 {
      RevUnfoldLow(Rev(v, n), n);
      assert Rev(v, n) / 2 == Rev(v, n - 1);
      RevRev(v, n - 1);
    }
  }

  /** A right shift equals c exactly when the number lies in c's interval. */
  lemma DropIs(k: nat, n: nat, c: nat)
    ensures Drop(k, n) == c <==> Shl(c, n) <= k < Shl(c, n) + Pow2(n)
  {
    SplitAt(k, n);
    if Shl(c, n) <= k < Shl(c, n) + Pow2(n) {
      JoinSplit(k - Shl(c, n), n, c);
    }
  }

  lemma {:induction false} DropZero(n: nat)
    ensures Drop(0, n) == 0
  {
    if n > 0 {
      DropZero(n - 1);
    }
  }

  lemma {:induction false} DropLess(v: nat, n: nat)
    requires v > 0 && n > 0
    ensures Drop(v, n) < v
  {
    if n > 1 {
      DropMono(v, n - 1);
    }
  }

  lemma {:induction false} DropMono(v: nat, n: nat)
    ensures Drop(v, n) <= v
  {
    if n > 0 {
      DropMono(v, n - 1);
    }
  }

  lemma ShlEight(v: nat)
    ensures Shl(v, 8) == 256 * v
  {
    assert Shl(v, 1) == 2 * v;
    assert Shl(v, 3) == 4 * Shl(v, 1);
    assert Shl(v, 5) == 4 * Shl(v, 3);
    assert Shl(v, 7) == 4 * Shl(v, 5);
  }

  /** Masking and shifting by constants. */
  lemma LowConst(v: nat)
    ensures Low(v, 1) == v % 2 && Low(v, 2) == v % 4 && Low(v, 3) == v % 8
    ensures Drop(v, 1) == v / 2 && Drop(v, 2) == v / 4 && Drop(v, 3) == v / 8
  {
    assert Bit(v, 0) == v % 2 && Bit(v, 1) == v / 2 % 2 && Bit(v, 2) == v / 4 % 2;
  }
}
