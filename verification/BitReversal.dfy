/** The mask-and-swap bit reversal of the zlib decoder, on 16-bit words. */
module BitReversal {
  import opened Bits

  /** Swap neighbours, then pairs, nibbles and bytes. */
  function BitReverse16(n: bv16): bv16 {
    var n1 := ((n & 0xAAAA) >> 1) | ((n & 0x5555) << 1);
    var n2 := ((n1 & 0xCCCC) >> 2) | ((n1 & 0x3333) << 2);
    var n4 := ((n2 & 0xF0F0) >> 4) | ((n2 & 0x0F0F) << 4);
    ((n4 & 0xFF00) >> 8) | ((n4 & 0x00FF) << 8)
  }

  function Mask(k: nat): bv16
    requires k < 16
  {
    if k < 8 then
      if k < 4 then if k < 2 then if k == 0 then 0x1 else 0x2 else if k == 2 then 0x4 else 0x8
      else if k < 6 then if k == 4 then 0x10 else 0x20 else if k == 6 then 0x40 else 0x80
    else if k < 12 then if k < 10 then if k == 8 then 0x100 else 0x200 else if k == 10 then 0x400 else 0x800
    else if k < 14 then if k == 12 then 0x1000 else 0x2000 else if k == 14 then 0x4000 else 0x8000
  }

  predicate WordBit(w: bv16, k: nat)
    requires k < 16
  {
    w & Mask(k) != 0
  }

  function Flag(v: nat, k: nat): bv16
    requires k < 16
  {
    if Bit(v, k) == 1 then Mask(k) else 0
  }

  /** The low n bits of v as a machine word. */
  function WordOfNat(v: nat, n: nat): bv16
    requires n <= 16
  {
    if n == 0 then 0 else WordOfNat(v, n - 1) | Flag(v, n - 1)
  }

  /** The number formed by the top n bits of w. */
  function TopBits(w: bv16, n: nat): nat
    requires n <= 16
  {
    if n == 0 then 0 else 2 * TopBits(w, n - 1) + if WordBit(w, 16 - n) then 1 else 0
  }

  /** bit_reverse(v, bits): reverse sixteen bits and shift away the rest. */
  function BitReverse(v: nat, bits: nat): nat
    requires bits <= 16
  {
    Drop(TopBits(BitReverse16(WordOfNat(v, 16)), 16), 16 - bits)
  }

  lemma OrBits(w: bv16, m: bv16, n: bv16)
    ensures ((w | m) & n != 0) == (w & n != 0 || m & n != 0)
  {
  }

  lemma MasksDiffer(a: nat, k: nat)
    requires a < 16 && k < 16
    ensures (Mask(a) & Mask(k) != 0) == (a == k)
  {
  }

  lemma FlagBit(v: nat, a: nat, k: nat)
    requires a < 16 && k < 16
    ensures (Flag(v, a) & Mask(k) != 0) == (a == k && Bit(v, a) == 1)
  {
    MasksDiffer(a, k);
    assert 0 & Mask(k) == 0;
  }

  lemma {:induction false} WordOfNatBit(v: nat, n: nat, k: nat)
    requires n <= 16 && k < 16
    ensures WordBit(WordOfNat(v, n), k) == (k < n && Bit(v, k) == 1)
  {
    if n == 0 {
      assert 0 & Mask(k) == 0;
    } else {
      WordOfNatBit(v, n - 1, k);
      OrBits(WordOfNat(v, n - 1), Flag(v, n - 1), Mask(k));
      FlagBit(v, n - 1, k);
    }
  }

  lemma SwapsReverse(w: bv16, k: nat)
    requires k < 16
    ensures WordBit(BitReverse16(w), k) == WordBit(w, 15 - k)
  {
  }

  lemma {:induction false} TopBitsOfReverse(v: nat, n: nat)
    requires n <= 16
    ensures TopBits(BitReverse16(WordOfNat(v, 16)), n) == Rev(v, n)
  {
    if n > 0 {
      TopBitsOfReverse(v, n - 1);
      SwapsReverse(WordOfNat(v, 16), 16 - n);
      WordOfNatBit(v, 16, n - 1);
    }
  }

  /** The mask-and-swap code computes the arithmetic reversal, for every width up to 16. */
  lemma BitReverseCorrect(v: nat, bits: nat)
    requires bits <= 16
    ensures BitReverse(v, bits) == Rev(v, bits)
  {
    TopBitsOfReverse(v, 16);
    RevPrefix(v, bits, 16);
  }
}
