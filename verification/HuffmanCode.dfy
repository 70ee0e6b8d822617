/**
 Canonical prefix codes as section 3.2.2 of RFC 1951 defines them, independent of any lookup table.
 A code is a list of code lengths, where 0 marks an unused symbol.  A window w holds the unread
 stream with the next bit at bit 0, so Rev(w, s) is the number its next s bits spell.
 */
module HuffmanCode {
  import opened Bits

  ghost predicate Lengths(lens: seq<nat>) {
    forall i :: 0 <= i < |lens| ==> lens[i] <= 15
  }

  /** How many of the first n symbols have length s. */
  function Count(lens: seq<nat>, n: nat, s: nat): nat
    requires n <= |lens|
  {
    if n == 0 then 0 else Count(lens, n - 1, s) + if lens[n - 1] == s then 1 else 0
  }

  function Total(lens: seq<nat>, s: nat): nat {
    Count(lens, |lens|, s)
  }

  /** The smallest code of length s. */
  function FirstCode(lens: seq<nat>, s: nat): nat
    requires s >= 1
  {
    if s == 1 then 0 else 2 * (FirstCode(lens, s - 1) + Total(lens, s - 1))
  }

  /** Codes of one length are consecutive, in symbol order. */
  function Code(lens: seq<nat>, i: nat): nat
    requires i < |lens| && lens[i] > 0
  {
    FirstCode(lens, lens[i]) + Count(lens, i, lens[i])
  }

  /** Symbol i's code is a prefix of the window. */
  ghost predicate Matches(lens: seq<nat>, w: nat, i: nat) {
    i < |lens| && lens[i] > 0 && Rev(w, lens[i]) == Code(lens, i)
  }

  /** The builder's two range tests for length s. */
  ghost predicate SizeFits(lens: seq<nat>, s: nat) {
    Total(lens, s) <= Pow2(s)
  }

  ghost predicate CodesFit(lens: seq<nat>, s: nat)
    requires s >= 1
  {
    Total(lens, s) > 0 ==> FirstCode(lens, s) + Total(lens, s) <= Pow2(s)
  }

  ghost predicate Accepted(lens: seq<nat>) {
    && (forall s :: 1 <= s <= 15 ==> SizeFits(lens, s))
    && (forall s :: 1 <= s <= 15 ==> CodesFit(lens, s))
  }

  /** The Kraft sum of the first n symbols, in units of 2^-16. */
  function Kraft(lens: seq<nat>, n: nat): nat
    requires n <= |lens|
  {
    if n == 0 then 0
    else Kraft(lens, n - 1) + if 1 <= lens[n - 1] <= 15 then Pow2(16 - lens[n - 1]) else 0
  }

  /** The part of that sum due to lengths 1..s: codes of those lengths occupy [0, Filled). */
  function Filled(lens: seq<nat>, n: nat, s: nat): nat
    requires n <= |lens| && s <= 16
  {
    if s == 0 then 0 else Filled(lens, n, s - 1) + Shl(Count(lens, n, s), 16 - s)
  }

  function Bound(lens: seq<nat>, s: nat): nat
    requires s <= 16
  {
    Filled(lens, |lens|, s)
  }

  /** Where symbol i stands among all used symbols ordered by length, then by index. */
  function FirstSlot(lens: seq<nat>, n: nat, s: nat): nat
    requires n <= |lens| && s >= 1
  {
    if s == 1 then 0 else FirstSlot(lens, n, s - 1) + Count(lens, n, s - 1)
  }

  function Slot(lens: seq<nat>, i: nat): nat
    requires i < |lens| && lens[i] > 0
  {
    FirstSlot(lens, |lens|, lens[i]) + Count(lens, i, lens[i])
  }

  lemma {:induction false} CountMono(lens: seq<nat>, m: nat, n: nat, s: nat)
    requires m <= n <= |lens|
    ensures Count(lens, m, s) <= Count(lens, n, s)
  {
    if m < n {
      CountMono(lens, m, n - 1, s);
    }
  }

  lemma RankBelowTotal(lens: seq<nat>, i: nat)
    requires i < |lens|
    ensures Count(lens, i, lens[i]) < Total(lens, lens[i])
  {
    CountMono(lens, i + 1, |lens|, lens[i]);
  }

  lemma {:induction false} FirstSlotMono(lens: seq<nat>, n: nat, s: nat, t: nat)
    requires n <= |lens| && 1 <= s <= t
    ensures FirstSlot(lens, n, s) <= FirstSlot(lens, n, t)
  {
    if s < t {
      FirstSlotMono(lens, n, s, t - 1);
    }
  }

  lemma {:induction false} FirstSlotStep(lens: seq<nat>, n: nat, s: nat)
    requires 1 <= n <= |lens| && s >= 1
    ensures FirstSlot(lens, n, s) == FirstSlot(lens, n - 1, s) + if 1 <= lens[n - 1] < s then 1 else 0
  {
    if s > 1 {
      FirstSlotStep(lens, n, s - 1);
    }
  }

  lemma {:induction false} FirstSlotBound(lens: seq<nat>, n: nat, s: nat)
    requires n <= |lens| && s >= 1
    ensures FirstSlot(lens, n, s) <= n
  {
    if n == 0 {
      if s > 1 {
        FirstSlotBound(lens, n, s - 1);
      }
    } else {
      FirstSlotStep(lens, n, s);
      FirstSlotBound(lens, n - 1, s);
    }
  }

  lemma SlotBound(lens: seq<nat>, i: nat)
    requires i < |lens| && lens[i] > 0
    ensures Slot(lens, i) < |lens|
  {
    RankBelowTotal(lens, i);
    FirstSlotBound(lens, |lens|, lens[i] + 1);
  }

  /** Different symbols have different slots. */
  lemma SlotInjective(lens: seq<nat>, i: nat, j: nat)
    requires i < j < |lens| && lens[i] > 0 && lens[j] > 0
    ensures Slot(lens, i) != Slot(lens, j)
  {
    RankBelowTotal(lens, i);
    RankBelowTotal(lens, j);
    if lens[i] == lens[j] {
      CountMono(lens, i + 1, j, lens[i]);
    } else if lens[i] < lens[j] {
      FirstSlotMono(lens, |lens|, lens[i] + 1, lens[j]);
    } else {
      FirstSlotMono(lens, |lens|, lens[j] + 1, lens[i]);
    }
  }

  lemma {:induction false} RankExists(lens: seq<nat>, n: nat, s: nat, r: nat) returns (i: nat)
    requires n <= |lens| && r < Count(lens, n, s)
    ensures i < n && lens[i] == s && Count(lens, i, s) == r
  {
    if lens[n - 1] == s && r == Count(lens, n - 1, s) {
      i := n - 1;
    } else {
      i := RankExists(lens, n - 1, s, r);
    }
  }

  lemma {:induction false} FilledStep(lens: seq<nat>, n: nat, s: nat)
    requires 1 <= n <= |lens| && s <= 16
    ensures Filled(lens, n, s)
         == Filled(lens, n - 1, s) + if 1 <= lens[n - 1] <= s then Pow2(16 - lens[n - 1]) else 0
  {
    if s > 0 {
      FilledStep(lens, n, s - 1);
      ShlSucc(Count(lens, n - 1, s), 16 - s);
    }
  }

  lemma {:induction false} FilledIsKraft(lens: seq<nat>, n: nat)
    requires n <= |lens|
    ensures Kraft(lens, n) == Filled(lens, n, 15)
  {
    if n == 0 {
      FilledOfNone(lens, 15);
    } else {
      FilledIsKraft(lens, n - 1);
      FilledStep(lens, n, 15);
    }
  }

  lemma {:induction false} FilledOfNone(lens: seq<nat>, s: nat)
    requires s <= 16
    ensures Filled(lens, 0, s) == 0
  {
    if s > 0 {
      ShlOne(16 - s);
      FilledOfNone(lens, s - 1);
    }
  }

  lemma {:induction false} BoundMono(lens: seq<nat>, s: nat, t: nat)
    requires s <= t <= 16
    ensures Bound(lens, s) <= Bound(lens, t)
  {
    if s < t {
      BoundMono(lens, s, t - 1);
    }
  }

  /** The first code of length s, left-justified, starts where the shorter codes end. */
  lemma {:induction false} FirstCodeJustified(lens: seq<nat>, s: nat)
    requires 1 <= s <= 16
    ensures Shl(FirstCode(lens, s), 16 - s) == Bound(lens, s - 1)
  {
    if s == 1 {
      ShlOne(15);
    } else {
      FirstCodeJustified(lens, s - 1);
      ShlAdd(FirstCode(lens, s - 1), Total(lens, s - 1), 17 - s);
      ShlDouble(FirstCode(lens, s - 1) + Total(lens, s - 1), 16 - s);
    }
  }

  /** The start of symbol i's left-justified interval. */
  function Start(lens: seq<nat>, i: nat): nat
    requires i < |lens| && 1 <= lens[i] <= 16
  {
    Bound(lens, lens[i] - 1) + Shl(Count(lens, i, lens[i]), 16 - lens[i])
  }

  /** Symbol i's code is a prefix of w exactly when the reversed window lies in i's interval. */
  lemma MatchesIsInterval(lens: seq<nat>, w: nat, i: nat)
    requires i < |lens| && 1 <= lens[i] <= 15
    ensures Matches(lens, w, i) <==> Start(lens, i) <= Rev(w, 16) < Start(lens, i) + Pow2(16 - lens[i])
  {
    hide Rev, Drop, Count, FirstCode, Pow2;
    var s := lens[i];
    RevPrefix(w, s, 16);
    FirstCodeJustified(lens, s);
    ShlAdd(FirstCode(lens, s), Count(lens, i, s), 16 - s);
    DropIs(Rev(w, 16), 16 - s, Code(lens, i));
  }

  /** Codes of length s lie between Bound(s - 1) and Bound(s). */
  lemma IntervalWithinLength(lens: seq<nat>, i: nat)
    requires i < |lens| && 1 <= lens[i] <= 15
    ensures Bound(lens, lens[i] - 1) <= Start(lens, i)
    ensures Start(lens, i) + Pow2(16 - lens[i]) <= Bound(lens, lens[i])
  {
    RankBelowTotal(lens, i);
    ShlMono(Count(lens, i, lens[i]), Total(lens, lens[i]), 16 - lens[i]);
  }

  lemma IntervalsDisjoint(lens: seq<nat>, i: nat, j: nat)
    requires i < j < |lens| && 1 <= lens[i] <= 15 && 1 <= lens[j] <= 15
    ensures || Start(lens, i) + Pow2(16 - lens[i]) <= Start(lens, j)
            || Start(lens, j) + Pow2(16 - lens[j]) <= Start(lens, i)
  {
    IntervalWithinLength(lens, i);
    IntervalWithinLength(lens, j);
    if lens[i] == lens[j] {
      CountMono(lens, i + 1, j, lens[i]);
      ShlMono(Count(lens, i, lens[i]), Count(lens, j, lens[i]), 16 - lens[i]);
    } else if lens[i] < lens[j] {
      BoundMono(lens, lens[i], lens[j] - 1);
    } else {
      BoundMono(lens, lens[j], lens[i] - 1);
    }
  }

  /** The code is prefix-free: no window matches two symbols. */
  lemma MatchUnique(lens: seq<nat>, w: nat, i: nat, j: nat)
    requires Lengths(lens) && Matches(lens, w, i) && Matches(lens, w, j)
    ensures i == j
  {
    MatchesIsInterval(lens, w, i);
    MatchesIsInterval(lens, w, j);
    if i < j {
      IntervalsDisjoint(lens, i, j);
    } else if j < i {
      IntervalsDisjoint(lens, j, i);
    }
  }

  /** Between Bound(s - 1) and Bound(s) every window carries a code of length s: the r-th one. */
  lemma MatchAtLength(lens: seq<nat>, w: nat, s: nat) returns (i: nat)
    requires 1 <= s <= 15 && Bound(lens, s - 1) <= Rev(w, 16) < Bound(lens, s)
    ensures Matches(lens, w, i) && lens[i] == s
    ensures Drop(Rev(w, 16), 16 - s) == Code(lens, i)
  {
    var r := Drop(Rev(w, 16) - Bound(lens, s - 1), 16 - s);
    DropIs(Rev(w, 16) - Bound(lens, s - 1), 16 - s, r);
    ShlOrder(Total(lens, s), r, 16 - s);
    i := RankExists(lens, |lens|, s, r);
    MatchesIsInterval(lens, w, i);
    RevPrefix(w, s, 16);
  }

  /** The shortest length whose bound exceeds k. */
  lemma {:induction false} LengthOf(lens: seq<nat>, k: nat, s: nat) returns (t: nat)
    requires s <= 15 && k < Bound(lens, s)
    ensures 1 <= t <= s && Bound(lens, t - 1) <= k < Bound(lens, t)
  {
    if k < Bound(lens, s - 1) {
      t := LengthOf(lens, k, s - 1);
    } else {
      t := s;
    }
  }

  /** Codes of length up to s cover exactly the windows below Bound(s). */
  lemma CodesTile(lens: seq<nat>, w: nat, s: nat)
    requires Lengths(lens) && s <= 15
    ensures Rev(w, 16) < Bound(lens, s) <==> exists i: nat :: Matches(lens, w, i) && lens[i] <= s
  {
    if Rev(w, 16) < Bound(lens, s) {
      var t := LengthOf(lens, Rev(w, 16), s);
      var i := MatchAtLength(lens, w, t);
    }
    forall i: nat | Matches(lens, w, i) && lens[i] <= s
      ensures Rev(w, 16) < Bound(lens, s)
    {
      MatchesIsInterval(lens, w, i);
      IntervalWithinLength(lens, i);
      BoundMono(lens, lens[i], s);
    }
  }

  /** A length's codes fit in that many bits exactly when the space they fill does not overflow. */
  lemma LengthFits(lens: seq<nat>, s: nat)
    requires 1 <= s <= 15
    ensures FirstCode(lens, s) + Total(lens, s) <= Pow2(s) <==> Bound(lens, s) <= Pow2(16)
    ensures FirstCode(lens, s) <= Pow2(s) <==> Bound(lens, s - 1) <= Pow2(16)
  {
    hide FirstCode, Shl, Pow2, Count;
    var f, t := FirstCode(lens, s), Total(lens, s);
    FirstCodeJustified(lens, s);
    ShlAdd(f, t, 16 - s);
    ShlWhole(s, 16);
    ShlOrder(f + t, Pow2(s), 16 - s);
    ShlOrder(f, Pow2(s), 16 - s);
  }

  lemma ShlWhole(s: nat, n: nat)
    requires s <= n
    ensures Shl(Pow2(s), n - s) == Pow2(n)
  {
    ShlOne(s);
    ShlOne(n);
    ShlShl(1, s, n - s);
  }

  lemma {:induction false} AcceptedBound(lens: seq<nat>, s: nat)
    requires Accepted(lens) && s <= 15
    ensures Bound(lens, s) <= Pow2(16)
  {
    if s > 0 {
      AcceptedBound(lens, s - 1);
      LengthFits(lens, s);
      assert CodesFit(lens, s);
    }
  }

  /** The builder's two tests together are the Kraft inequality. */
  lemma AcceptedIsKraft(lens: seq<nat>)
    ensures Accepted(lens) <==> Kraft(lens, |lens|) <= Pow2(16)
  {
    FilledIsKraft(lens, |lens|);
    if Accepted(lens) {
      AcceptedBound(lens, 15);
    }
    if Bound(lens, 15) <= Pow2(16) {
      forall s | 1 <= s <= 15
        ensures FirstCode(lens, s) + Total(lens, s) <= Pow2(s)
      {
        BoundMono(lens, s, 15);
        LengthFits(lens, s);
      }
    }
  }
}
