/** The zlib decoder's Huffman tables: a 9-bit direct table backed by a left-justified search. */
module ZHuffmanTable {
  import opened Bits
  import opened BitReversal
  import opened HuffmanCode

  const FAST_BITS: nat := 9
  const FAST_SIZE: nat := 512
  const NUM_SYMBOLS: nat := 288

  /** What direct cell j holds once the first n symbols are entered: length and symbol packed, or 0. */
  function FastCell(lens: seq<nat>, n: nat, j: nat): nat
    requires n <= |lens|
  {
    if n == 0 then 0
    else if 1 <= lens[n - 1] <= FAST_BITS && Rev(j, lens[n - 1]) == Code(lens, n - 1) then
      lens[n - 1] * 512 + (n - 1)
    else FastCell(lens, n - 1, j)
  }

  lemma {:induction false} FastCellSound(lens: seq<nat>, n: nat, j: nat) returns (i: nat)
    requires n <= |lens| && FastCell(lens, n, j) != 0
    ensures Matches(lens, j, i) && i < n && lens[i] <= FAST_BITS && FastCell(lens, n, j) == lens[i] * 512 + i
  {
    if 1 <= lens[n - 1] <= FAST_BITS && Rev(j, lens[n - 1]) == Code(lens, n - 1) {
      i := n - 1;
    } else {
      i := FastCellSound(lens, n - 1, j);
    }
  }

  /** A symbol without a short code enters no cell. */
  lemma FastCellSkips(lens: seq<nat>, i: nat)
    requires i < |lens| && !(1 <= lens[i] <= FAST_BITS)
    ensures forall j :: FastCell(lens, i + 1, j) == FastCell(lens, i, j)
  {
  }

  lemma EntryParts(len: nat, i: nat)
    requires i < 512
    ensures (len * 512 + i) % 512 == i && (len * 512 + i) / 512 == len
  {
  }

  lemma {:induction false} FastCellComplete(lens: seq<nat>, n: nat, j: nat, i: nat)
    requires i < n <= |lens| && Matches(lens, j, i) && lens[i] <= FAST_BITS
    ensures FastCell(lens, n, j) != 0
  {
    if i < n - 1 {
      FastCellComplete(lens, n - 1, j, i);
    }
  }

  /** Only the low nine bits matter to a short code. */
  lemma ShortMatch(lens: seq<nat>, w: nat, i: nat)
    requires i < |lens| && lens[i] <= FAST_BITS
    ensures Matches(lens, Low(w, 9), i) <==> Matches(lens, w, i)
  {
    RevOfLow(w, 9, lens[i]);
  }

  /** Write v into cells j, j + 2^s, j + 2 * 2^s, ... */
  function Walk(cells: seq<nat>, j: nat, s: nat, v: nat): (r: seq<nat>)
    ensures |r| == |cells|
    decreases |cells| - j
  {
    if j >= |cells| then cells else Walk(cells[j := v], j + Pow2(s), s, v)
  }

  lemma WalkStep(cells: seq<nat>, j: nat, s: nat, v: nat)
    ensures Walk(cells, j, s, v) == if j >= |cells| then cells else Walk(cells[j := v], j + Pow2(s), s, v)
  {
  }

  /** It reaches the cells that agree with j in the low s bits and lie at or after j. */
  lemma {:induction false} WalkAt(cells: seq<nat>, j: nat, s: nat, v: nat, c: nat)
    requires c < |cells|
    ensures Walk(cells, j, s, v)[c] == if c >= j && Low(c, s) == Low(j, s) then v else cells[c]
    decreases |cells| - j
  {
    if j < |cells| {
      WalkAt(cells[j := v], j + Pow2(s), s, v, c);
      NextCell(j, c, s);
    }
  }

  lemma NextCell(j: nat, c: nat, s: nat)
    ensures Low(j + Pow2(s), s) == Low(j, s)
    ensures j <= c < j + Pow2(s) && Low(c, s) == Low(j, s) ==> c == j
  {
    SplitAt(j, s);
    SplitAt(c, s);
    ShlOne(s);
    ShlAdd(Drop(j, s), 1, s);
    JoinSplit(Low(j, s), s, Drop(j, s) + 1);
    if Drop(j, s) < Drop(c, s) {
      ShlMono(Drop(j, s), Drop(c, s), s);
    } else if Drop(c, s) < Drop(j, s) {
      ShlMono(Drop(c, s), Drop(j, s), s);
    }
  }

  /** Entering symbol i fills exactly the cells its code is a prefix of. */
  lemma WalkEnters(lens: seq<nat>, i: nat, cells: seq<nat>, c: nat)
    requires i < |lens| && 1 <= lens[i] <= FAST_BITS && Code(lens, i) < Pow2(lens[i]) && c < |cells|
    ensures Walk(cells, Rev(Code(lens, i), lens[i]), lens[i], lens[i] * 512 + i)[c]
         == if Rev(c, lens[i]) == Code(lens, i) then lens[i] * 512 + i else cells[c]
  {
    hide Low, Rev, Walk;
    var s, code := lens[i], Code(lens, i);
    WalkAt(cells, Rev(code, s), s, s * 512 + i, c);
    LowOfSmall(Rev(code, s), s);
    CellsOfCode(c, code, s);
  }

  /** Cells sharing the reversed code in their low s bits are the windows the code is a prefix of. */
  lemma CellsOfCode(c: nat, code: nat, s: nat)
    requires code < Pow2(s)
    ensures Low(c, s) == Rev(code, s) <==> Rev(c, s) == code
    ensures Low(c, s) <= c
  {
    RevOfLow(c, s, s);
    RevRev(code, s);
    RevRev(c, s);
    LowOfSmall(code, s);
    SplitAt(c, s);
  }

  /** One round of the per-length loop: nothing is truncated and the range test is exact. */
  lemma LengthStep(lens: seq<nat>, s: nat, code: nat, n: nat)
    requires |lens| <= NUM_SYMBOLS && 1 <= s <= 15 && Bound(lens, s - 1) <= 0x10000
    requires code == FirstCode(lens, s) && n == Total(lens, s)
    ensures code < 0x10000 && FirstSlot(lens, |lens|, s) < 0x10000
    ensures Shl(code + n, 16 - s) == Bound(lens, s)
    ensures n == 0 || code + n - 1 < Pow2(s) <==> CodesFit(lens, s)
    ensures CodesFit(lens, s) <==> Bound(lens, s) <= 0x10000
  {
    LengthFits(lens, s);
    FirstSlotBound(lens, |lens|, s);
    Pow2Mono(s, 15);
    Pow2Values();
    FirstCodeJustified(lens, s);
    ShlAdd(code, n, 16 - s);
  }

  /** The next free code of every length once the first n symbols have theirs. */
  ghost predicate NextCodes(lens: seq<nat>, n: nat, nextCode: seq<nat>)
    requires n <= |lens|
  {
    |nextCode| == 16 && forall s :: 1 <= s <= 15 ==> nextCode[s] == FirstCode(lens, s) + Count(lens, n, s)
  }

  ghost predicate FirstCodes(lens: seq<nat>, n: nat, nextCode: seq<nat>)
    requires n <= 16
  {
    |nextCode| == 16 && forall s :: 1 <= s < n ==> nextCode[s] == FirstCode(lens, s)
  }

  lemma NextCodesStep(lens: seq<nat>, i: nat, nextCode: seq<nat>)
    requires i < |lens| && Lengths(lens) && NextCodes(lens, i, nextCode)
    ensures lens[i] > 0 ==> nextCode[lens[i]] == Code(lens, i)
    ensures NextCodes(lens, i + 1, if lens[i] > 0 then nextCode[lens[i] := nextCode[lens[i]] + 1] else nextCode)
  {
  }

  lemma MatchInRange(lens: seq<nat>, w: nat, i: nat)
    requires Matches(lens, w, i)
    ensures i < |lens|
  {
  }

  /** A filled direct cell names the symbol whose code begins the window. */
  lemma FastHit(lens: seq<nat>, w: nat, b: nat)
    requires |lens| <= NUM_SYMBOLS && b == FastCell(lens, |lens|, Low(w, 9)) && b != 0
    ensures Matches(lens, w, b % 512) && lens[b % 512] == b / 512
  {
    hide FastCell, Matches, Low;
    var i := FastCellSound(lens, |lens|, Low(w, 9));
    MatchInRange(lens, Low(w, 9), i);
    ShortMatch(lens, w, i);
    EntryParts(lens[i], i);
  }

  /** An empty direct cell means that only a code longer than nine bits can begin the window. */
  lemma FastMiss(lens: seq<nat>, w: nat, i: nat)
    requires FastCell(lens, |lens|, Low(w, 9)) == 0 && Matches(lens, w, i)
    ensures lens[i] > FAST_BITS
  {
    if lens[i] <= FAST_BITS {
      ShortMatch(lens, w, i);
      FastCellComplete(lens, |lens|, Low(w, 9), i);
    }
  }

  /** When only long codes can begin the window, it lies past the short ones, */
  lemma LongMatches(lens: seq<nat>, w: nat)
    requires Lengths(lens) && forall i: nat :: Matches(lens, w, i) ==> lens[i] > FAST_BITS
    ensures Bound(lens, FAST_BITS) <= Rev(w, 16)
  {
    hide Matches, Bound, Rev;
    CodesTile(lens, w, FAST_BITS);
  }

  /** and past all of them no code begins it. */
  lemma NoMatches(lens: seq<nat>, w: nat)
    requires Lengths(lens) && Bound(lens, 15) <= Rev(w, 16)
    ensures forall i: nat :: !Matches(lens, w, i)
  {
    hide Bound, Rev;
    CodesTile(lens, w, 15);
  }

  class ZHuffman {
    const fast: array<nat>
    const firstcode: array<nat>
    const maxcode: array<nat>
    const firstsymbol: array<nat>
    const size: array<nat>
    const value: array<nat>
    ghost var lens: seq<nat>  // the code the tables were built for

    ghost predicate Apart(o: object) {
      o != fast && o != firstcode && o != maxcode && o != firstsymbol && o != size && o != value
    }

    ghost predicate ApartFrom(z: ZHuffman) {
      this != z && Apart(z.fast) && Apart(z.firstcode) && Apart(z.maxcode)
      && Apart(z.firstsymbol) && Apart(z.size) && Apart(z.value)
    }

    ghost predicate Shape() {
      && fast.Length == FAST_SIZE && firstcode.Length == 16 && maxcode.Length == 17
      && firstsymbol.Length == 16 && size.Length == NUM_SYMBOLS && value.Length == NUM_SYMBOLS
      && fast != firstcode && fast != maxcode && fast != firstsymbol && fast != size && fast != value
      && firstcode != maxcode && firstcode != firstsymbol && firstcode != size && firstcode != value
      && maxcode != firstsymbol && maxcode != size && maxcode != value
      && firstsymbol != size && firstsymbol != value && size != value
    }

    constructor ()
      ensures Shape() && fresh(fast) && fresh(firstcode) && fresh(maxcode)
      ensures fresh(firstsymbol) && fresh(size) && fresh(value)
    {
      fast := new nat[FAST_SIZE];
      firstcode := new nat[16];
      maxcode := new nat[17];
      firstsymbol := new nat[16];
      size := new nat[NUM_SYMBOLS];
      value := new nat[NUM_SYMBOLS];
    }

    /** The per-length tables up to length s. */
    ghost predicate FirstsEntered(code: seq<nat>, s: nat)
      requires Shape() && s <= 15
      reads firstcode, firstsymbol
    {
      forall t :: 1 <= t <= s ==> firstcode[t] == FirstCode(code, t) && firstsymbol[t] == FirstSlot(code, |code|, t)
    }

    ghost predicate LengthsEntered(code: seq<nat>, s: nat)
      requires Shape() && s <= 15
      reads firstcode, maxcode, firstsymbol
    {
      && FirstsEntered(code, s)
      && forall t :: 1 <= t <= s ==> maxcode[t] == Bound(code, t)
    }

    /** The per-symbol tables for the first n symbols. */
    ghost predicate SymbolsEntered(code: seq<nat>, n: nat)
      requires Shape() && n <= |code| <= NUM_SYMBOLS
      reads fast, size, value
    {
      && (forall c :: 0 <= c < FAST_SIZE ==> fast[c] == FastCell(code, n, c))
      && forall i :: 0 <= i < n && code[i] > 0 ==>
           Slot(code, i) < NUM_SYMBOLS && size[Slot(code, i)] == code[i] && value[Slot(code, i)] == i
    }

    ghost predicate Built()
      requires Shape()
      reads this, fast, firstcode, maxcode, firstsymbol, size, value
    {
      && |lens| <= NUM_SYMBOLS && Lengths(lens) && Accepted(lens)
      && LengthsEntered(lens, 15) && maxcode[16] == 0x10000
      && SymbolsEntered(lens, |lens|)
    }

    lemma BuiltLengths()
      requires Shape() && Built()
      ensures Lengths(lens)
    {
    }

    /** Succeeds exactly on the lists that satisfy the Kraft inequality (AcceptedIsKraft). */
    method Build(sizelist: seq<nat>) returns (ok: bool)
      requires Shape() && |sizelist| <= NUM_SYMBOLS && Lengths(sizelist)
      modifies this, fast, firstcode, maxcode, firstsymbol, size, value
      ensures ok <==> Accepted(sizelist)
      ensures ok ==> Built() && lens == sizelist
    {
      var sizes := CountSizes(sizelist);
      ClearFast();
      ok := CheckSizes(sizelist, sizes);
      if ok {
        var nextCode;
        ok, nextCode := AssignCodes(sizelist, sizes);
        if ok {
          maxcode[16] := 0x10000;
          EnterSymbols(sizelist, nextCode);
          lens := sizelist;
        }
      }
    }

    method ClearFast()
      requires Shape()
      modifies fast
      ensures forall c :: 0 <= c < FAST_SIZE ==> fast[c] == 0
    {
      for c := 0 to FAST_SIZE
        invariant forall d :: 0 <= d < c ==> fast[d] == 0
      {
        fast[c] := 0;
      }
    }

    /** No length has more codes than it can hold. */
    static method CheckSizes(sizelist: seq<nat>, sizes: seq<nat>) returns (ok: bool)
      requires |sizes| == 17 && forall s :: 1 <= s <= 16 ==> sizes[s] == Total(sizelist, s)
      ensures ok <==> forall s :: 1 <= s <= 15 ==> SizeFits(sizelist, s)
    {
      for i := 1 to 16
        invariant forall s :: 1 <= s < i ==> SizeFits(sizelist, s)
      {
        if sizes[i] > Pow2(i) {
          assert !SizeFits(sizelist, i);
          return false;
        }
      }
      ok := true;
    }

    /** The histogram of the code lengths, with unused symbols not counted. */
    static method CountSizes(sizelist: seq<nat>) returns (sizes: seq<nat>)
      requires Lengths(sizelist)
      ensures |sizes| == 17
      ensures forall s :: 1 <= s <= 16 ==> sizes[s] == Total(sizelist, s)
    {
      sizes := seq(17, _ => 0);
      for i := 0 to |sizelist|
        invariant |sizes| == 17
        invariant forall s :: 0 <= s <= 16 ==> sizes[s] == Count(sizelist, i, s)
      {
        sizes := sizes[sizelist[i] := sizes[sizelist[i]] + 1];
      }
      sizes := sizes[0 := 0];
    }

    method AssignCodes(sizelist: seq<nat>, sizes: seq<nat>) returns (ok: bool, nextCode: seq<nat>)
      requires Shape() && |sizelist| <= NUM_SYMBOLS && Lengths(sizelist)
      requires |sizes| == 17 && forall s :: 1 <= s <= 16 ==> sizes[s] == Total(sizelist, s)
      requires forall s :: 1 <= s <= 15 ==> SizeFits(sizelist, s)
      modifies firstcode, maxcode, firstsymbol
      ensures ok <==> Accepted(sizelist)
      ensures ok ==> LengthsEntered(sizelist, 15)
      ensures ok ==> FirstCodes(sizelist, 16, nextCode)
    {
      var code, k := 0, 0;
      nextCode := seq(16, _ => 0);
      for i := 1 to 16
        invariant code == FirstCode(sizelist, i) && k == FirstSlot(sizelist, |sizelist|, i)
        invariant Bound(sizelist, i - 1) <= 0x10000
        invariant forall s :: 1 <= s < i ==> CodesFit(sizelist, s)
        invariant FirstCodes(sizelist, i, nextCode)
        invariant LengthsEntered(sizelist, i - 1)
      {
        nextCode := nextCode[i := code];
        var fits := EnterLength(sizelist, i, code, k, sizes[i]);
        if !fits {
          assert !CodesFit(sizelist, i);
          return false, nextCode;
        }
        code := 2 * (code + sizes[i]);
        k := k + sizes[i];
      }
      ok := true;
    }

    method EnterLength(sizelist: seq<nat>, i: nat, code: nat, k: nat, n: nat) returns (fits: bool)
      requires Shape() && |sizelist| <= NUM_SYMBOLS && 1 <= i <= 15
      requires code == FirstCode(sizelist, i) && k == FirstSlot(sizelist, |sizelist|, i) && n == Total(sizelist, i)
      requires Bound(sizelist, i - 1) <= 0x10000 && LengthsEntered(sizelist, i - 1)
      modifies firstcode, maxcode, firstsymbol
      ensures fits <==> CodesFit(sizelist, i)
      ensures fits ==> LengthsEntered(sizelist, i) && Bound(sizelist, i) <= 0x10000
    {
      LengthStep(sizelist, i, code, n);
      firstcode[i] := code % 0x10000;
      firstsymbol[i] := k % 0x10000;
      fits := n == 0 || code + n - 1 < Pow2(i);
      if fits {
        maxcode[i] := Shl(code + n, 16 - i);
      }
    }

    method EnterSymbols(sizelist: seq<nat>, firstCodes: seq<nat>)
      requires Shape() && |sizelist| <= NUM_SYMBOLS && Lengths(sizelist) && Accepted(sizelist)
      requires LengthsEntered(sizelist, 15) && FirstCodes(sizelist, 16, firstCodes)
      requires forall c :: 0 <= c < FAST_SIZE ==> fast[c] == 0
      modifies fast, size, value
      ensures SymbolsEntered(sizelist, |sizelist|)
    {
      var nextCode := firstCodes;
      for i := 0 to |sizelist|
        invariant LengthsEntered(sizelist, 15)
        invariant SymbolsEntered(sizelist, i) && NextCodes(sizelist, i, nextCode)
      {
        var s := sizelist[i];
        NextCodesStep(sizelist, i, nextCode);
        EnterSymbol(sizelist, i, nextCode[s]);
        nextCode := if s > 0 then nextCode[s := nextCode[s] + 1] else nextCode;
      }
    }

    method EnterSymbol(sizelist: seq<nat>, i: nat, code: nat)
      requires Shape() && i < |sizelist| <= NUM_SYMBOLS && Lengths(sizelist) && Accepted(sizelist)
      requires LengthsEntered(sizelist, 15) && SymbolsEntered(sizelist, i)
      requires sizelist[i] > 0 ==> code == Code(sizelist, i)
      modifies fast, size, value
      ensures SymbolsEntered(sizelist, i + 1)
    {
      hide FastCell, Code, Count, FirstSlot, FirstCode, Bound, Accepted, CodesFit;
      var s := sizelist[i];
      if s == 0 || s > FAST_BITS {
        FastCellSkips(sizelist, i);
      }
      if s > 0 {
        SlotOfCode(sizelist, i);
        var c := code - firstcode[s] + firstsymbol[s];
        SlotBound(sizelist, i);
        forall j | 0 <= j < i && sizelist[j] > 0
          ensures Slot(sizelist, j) != c
        {
          SlotInjective(sizelist, j, i);
        }
        size[c] := s;
        value[c] := i;
        if s <= FAST_BITS {
          CodeInRange(sizelist, i);
          FillFast(sizelist, i, code);
        }
      }
    }

    static lemma SlotOfCode(code: seq<nat>, i: nat)
      requires i < |code| && code[i] > 0
      ensures Slot(code, i) == Code(code, i) - FirstCode(code, code[i]) + FirstSlot(code, |code|, code[i])
    {
    }

    /** Write symbol i into every direct cell its code is a prefix of. */
    method FillFast(sizelist: seq<nat>, i: nat, code: nat)
      requires Shape() && i < |sizelist| <= NUM_SYMBOLS && 1 <= sizelist[i] <= FAST_BITS
      requires code == Code(sizelist, i) && code < Pow2(sizelist[i])
      requires forall c :: 0 <= c < FAST_SIZE ==> fast[c] == FastCell(sizelist, i, c)
      modifies fast
      ensures forall c :: 0 <= c < FAST_SIZE ==> fast[c] == FastCell(sizelist, i + 1, c)
    {
      hide Walk, Code, Low, Rev, BitReverse;
      var s := sizelist[i];
      var fastv: nat := s * 512 + i;
      var j: nat := BitReverse(code, s);
      BitReverseCorrect(code, s);
      ghost var was := fast[..];
      ghost var filled := Walk(was, j, s, fastv);
      while j < FAST_SIZE
        invariant Walk(fast[..], j, s, fastv) == filled
      {
        ghost var cells := fast[..];
        WalkStep(cells, j, s, fastv);
        fast[j] := fastv;
        assert fast[..] == cells[j := fastv];
        j := j + Pow2(s);
      }
      WalkStep(fast[..], j, s, fastv);
      forall c | 0 <= c < FAST_SIZE
        ensures filled[c] == FastCell(sizelist, i + 1, c)
      {
        WalkEnters(sizelist, i, was, c);
      }
    }

    static lemma CodeInRange(code: seq<nat>, i: nat)
      requires i < |code| && Lengths(code) && Accepted(code) && code[i] > 0
      ensures Code(code, i) < Pow2(code[i])
    {
      RankBelowTotal(code, i);
      assert CodesFit(code, code[i]);
    }

    /**
     The symbol whose code begins the window, found in the direct table or by the slow path;
     -1 exactly when no code begins it.
     */
    method Resolve(codeBuffer: nat) returns (symbol: int, length: nat)
      requires Shape() && Built()
      ensures symbol == -1 ==> forall i: nat :: !Matches(lens, codeBuffer, i)
      ensures symbol != -1 ==> symbol >= 0 && Matches(lens, codeBuffer, symbol) && length == lens[symbol]
    {
      Pow2Values();
      var b := fast[Low(codeBuffer, FAST_BITS)];
      if b != 0 {
        FastHit(lens, codeBuffer, b);
        length := b / 512;
        symbol := b % 512;
      } else {
        forall i: nat | Matches(lens, codeBuffer, i)
          ensures lens[i] > FAST_BITS
        {
          FastMiss(lens, codeBuffer, i);
        }
        symbol, length := SlowPath(codeBuffer);
      }
    }

    lemma BuiltTables()
      requires Shape() && Built()
      ensures Lengths(lens) && |lens| <= NUM_SYMBOLS && maxcode[16] == 0x10000
      ensures forall t :: 1 <= t <= 15 ==> maxcode[t] == Bound(lens, t)
      ensures forall t :: 1 <= t <= 15 ==> firstcode[t] == FirstCode(lens, t)
      ensures forall t :: 1 <= t <= 15 ==> firstsymbol[t] == FirstSlot(lens, |lens|, t)
      ensures forall i :: 0 <= i < |lens| && lens[i] > 0 ==>
                Slot(lens, i) < NUM_SYMBOLS && size[Slot(lens, i)] == lens[i] && value[Slot(lens, i)] == i
    {
      hide FirstCode, FirstSlot, Slot, Bound, FastCell, Accepted;
    }

    /** The two corruption guards of the slow path never decide the result on a built table. */
    method SlowPath(codeBuffer: nat) returns (symbol: int, length: nat)
      requires Shape() && Built()
      requires forall i: nat :: Matches(lens, codeBuffer, i) ==> lens[i] > FAST_BITS
      ensures symbol == -1 ==> forall i: nat :: !Matches(lens, codeBuffer, i)
      ensures symbol != -1 ==> symbol >= 0 && Matches(lens, codeBuffer, symbol) && length == lens[symbol]
    {
      hide BitReverse, Rev, Drop, Matches, Bound, Slot, Built;
      BuiltTables();
      var k := BitReverse(codeBuffer, 16);
      BitReverseCorrect(codeBuffer, 16);
      Pow2Values();
      LongMatches(lens, codeBuffer);
      var s := FAST_BITS + 1;
      while k >= maxcode[s]
        invariant FAST_BITS < s <= 16 && Bound(lens, s - 1) <= k < 0x10000
        decreases 16 - s
      {
        s := s + 1;
      }
      if s >= 16 {
        NoMatches(lens, codeBuffer);
        return -1, 0;
      }
      ghost var i := MatchAtLength(lens, codeBuffer, s);
      MatchInRange(lens, codeBuffer, i);
      SlotOfCode(lens, i);
      var b := Drop(k, 16 - s) - firstcode[s] + firstsymbol[s];
      assert b == Slot(lens, i);
      symbol := if b >= NUM_SYMBOLS then -1 else if size[b] != s then -1 else value[b];
      length := s;
    }
  }
}
