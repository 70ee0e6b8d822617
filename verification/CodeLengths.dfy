/** Section 3.2.7 of RFC 1951: a block that carries its own codes. */
module CodeLengths {
  import opened Bits
  import opened HuffmanCode

  const DEZIGZAG: seq<nat> := [16, 17, 18, 0, 8, 7, 9, 6, 10, 5, 11, 4, 12, 3, 13, 2, 14, 1, 15]

  /** One instruction of the code-length alphabet: a length, or a run with its extra bits. */
  datatype Op = Len(n: nat) | Repeat(extra: nat) | Zeros(extra: nat) | ManyZeros(extra: nat) {
    function Symbol(): nat {
      match this
      case Len(n) => n
      case Repeat(_) => 16
      case Zeros(_) => 17
      case ManyZeros(_) => 18
    }

    function ExtraBits(): nat {
      match this
      case Len(_) => 0
      case Repeat(_) => 2
      case Zeros(_) => 3
      case ManyZeros(_) => 7
    }

    ghost predicate Valid() {
      if Len? then n < 16 else extra < Pow2(ExtraBits())
    }

    /** The lengths it appends to those read so far. */
    ghost function Run(lens: seq<nat>): seq<nat> {
      match this
      case Len(n) => [n]
      case Repeat(e) => seq(e + 3, _ => if lens == [] then 0 else lens[|lens| - 1])
      case Zeros(e) => seq(e + 3, _ => 0)
      case ManyZeros(e) => seq(e + 11, _ => 0)
    }
  }

  ghost predicate ReadsOp(cl: seq<nat>, v: nat, op: Op) {
    && op.Valid() && Matches(cl, v, op.Symbol())
    && (!op.Len? ==> Low(Drop(v, cl[op.Symbol()]), op.ExtraBits()) == op.extra)
  }

  ghost function OpBits(cl: seq<nat>, op: Op): nat {
    (if op.Symbol() < |cl| then cl[op.Symbol()] else 0) + op.ExtraBits()
  }

  /** The instructions are what the stream holds, with no repeat at the very start. */
  ghost predicate ReadsOps(cl: seq<nat>, v: nat, ops: seq<Op>) {
    |cl| == 19 &&
    (ops != [] ==>
      var init, op := ops[..|ops| - 1], ops[|ops| - 1];
      && ReadsOps(cl, v, init) && ReadsOp(cl, Drop(v, OpsBits(cl, init)), op)
      && (op.Repeat? ==> Runs(init) != []))
  }

  ghost function OpsBits(cl: seq<nat>, ops: seq<Op>): nat
    requires |cl| == 19
  {
    if ops == [] then 0 else OpsBits(cl, ops[..|ops| - 1]) + OpBits(cl, ops[|ops| - 1])
  }

  /** The lengths the instructions spell out. */
  ghost function Runs(ops: seq<Op>): seq<nat> {
    if ops == [] then []
    else
      var lens := Runs(ops[..|ops| - 1]);
      lens + ops[|ops| - 1].Run(lens)
  }

  lemma DezigzagInRange(i: nat)
    requires i < 19
    ensures |DEZIGZAG| == 19 && 0 <= DEZIGZAG[i] < 19
  {
  }

  /** The first k three-bit lengths of the stream, in their shuffled order. */
  ghost function CodeLengthCode(v: nat, k: nat): (cl: seq<nat>)
    requires k <= 19
    ensures |cl| == 19 && forall i :: 0 <= i < 19 ==> cl[i] < 8
  {
    if k == 0 then seq(19, _ => 0)
    else
      Pow2Values();
      assert |DEZIGZAG| == 19 && DEZIGZAG[k - 1] < 19;
      CodeLengthCode(v, k - 1)[DEZIGZAG[k - 1] := Low(Drop(v, 3 * (k - 1)), 3)]
  }

  /** The code lengths and the instructions behind them make up a description of `bits` bits. */
  ghost predicate SpelledBy(v: nat, lens: seq<nat>, bits: nat, ops: seq<Op>) {
    var hclen := Low(Drop(v, 10), 4) + 4;
    hclen <= 19 &&
    var cl := CodeLengthCode(Drop(v, 14), hclen);
    && Accepted(cl) && ReadsOps(cl, Drop(v, 14 + 3 * hclen), ops) && Runs(ops) == lens
    && bits == 14 + 3 * hclen + OpsBits(cl, ops)
  }

  /** The stream starts with a description of `bits` bits that spells out these lengths. */
  ghost predicate Spells(v: nat, lens: seq<nat>, bits: nat) {
    exists ops :: SpelledBy(v, lens, bits, ops)
  }

  /** The stream starts with a code description of `bits` bits for the codes ll and dl. */
  ghost predicate Describes(v: nat, ll: seq<nat>, dl: seq<nat>, bits: nat) {
    && |ll| == Low(v, 5) + 257 && |dl| == Low(Drop(v, 5), 5) + 1
    && Accepted(ll) && Accepted(dl) && Spells(v, ll + dl, bits)
  }

  /** The instructions read from stream v use up `bits` bits and spell out lens. */
  ghost predicate SoFar(cl: seq<nat>, v: nat, ops: seq<Op>, lens: seq<nat>, bits: int) {
    |cl| == 19 && ReadsOps(cl, v, ops) && lens == Runs(ops) && bits == OpsBits(cl, ops)
  }

  lemma AppendOp(cl: seq<nat>, v: nat, ops: seq<Op>, lens: seq<nat>, bits: nat, w: nat, op: Op)
    requires SoFar(cl, v, ops, lens, bits) && w == Drop(v, bits) && ReadsOp(cl, w, op)
    requires op.Repeat? ==> lens != []
    ensures SoFar(cl, v, ops + [op], lens + op.Run(lens), bits + OpBits(cl, op))
  {
    var all := ops + [op];
    assert all[..|all| - 1] == ops;
  }

  // ---- the stream determines the instructions

  lemma OpUnique(cl: seq<nat>, v: nat, a: Op, b: Op)
    requires Lengths(cl) && ReadsOp(cl, v, a) && ReadsOp(cl, v, b)
    ensures a == b
  {
    MatchUnique(cl, v, a.Symbol(), b.Symbol());
  }

  lemma RunsOn(cl: seq<nat>, v: nat, op: Op, lens: seq<nat>)
    requires ReadsOp(cl, v, op)
    ensures |op.Run(lens)| > 0
  {
  }

  lemma {:induction false} PrefixOps(cl: seq<nat>, v: nat, ops: seq<Op>, k: nat)
    requires ReadsOps(cl, v, ops) && k <= |ops|
    ensures ReadsOps(cl, v, ops[..k])
    ensures k < |ops| ==> ReadsOp(cl, Drop(v, OpsBits(cl, ops[..k])), ops[k]) && |Runs(ops[..k])| < |Runs(ops)|
    ensures k < |ops| ==> (ops[k].Repeat? ==> Runs(ops[..k]) != [])
                          && |Runs(ops[..k])| + |ops[k].Run(Runs(ops[..k]))| <= |Runs(ops)|
                          && OpsBits(cl, ops[..k]) + OpBits(cl, ops[k]) <= OpsBits(cl, ops)
    decreases |ops|
  {
    hide ReadsOp, OpBits, Op.Run;
    if k == |ops| {
      assert ops[..k] == ops;
    } else {
      var init := ops[..|ops| - 1];
      assert init[..k] == ops[..k];
      if k == |init| {
        RunsOn(cl, Drop(v, OpsBits(cl, init)), ops[k], Runs(init));
      }
      PrefixOps(cl, v, init, k);
    }
  }

  lemma {:induction false} OpsAgree(cl: seq<nat>, v: nat, a: seq<Op>, b: seq<Op>, k: nat)
    requires Lengths(cl) && ReadsOps(cl, v, a) && ReadsOps(cl, v, b) && k <= |a| && k <= |b|
    ensures a[..k] == b[..k]
  {
    hide ReadsOp, Runs, OpsBits;
    if k > 0 {
      OpsAgree(cl, v, a, b, k - 1);
      PrefixOps(cl, v, a, k - 1);
      PrefixOps(cl, v, b, k - 1);
      OpUnique(cl, Drop(v, OpsBits(cl, a[..k - 1])), a[k - 1], b[k - 1]);
      assert a[..k] == a[..k - 1] + [a[k - 1]] && b[..k] == b[..k - 1] + [b[k - 1]];
    }
  }

  /** Instructions that spell out equally many lengths from one stream are the same. */
  lemma OpsUnique(cl: seq<nat>, v: nat, a: seq<Op>, b: seq<Op>)
    requires Lengths(cl) && ReadsOps(cl, v, a) && ReadsOps(cl, v, b) && |Runs(a)| == |Runs(b)|
    ensures a == b
  {
    var k := if |a| < |b| then |a| else |b|;
    OpsAgree(cl, v, a, b, k);
    PrefixOps(cl, v, a, k);
    PrefixOps(cl, v, b, k);
    assert k == |a| ==> a[..k] == a;
    assert k == |b| ==> b[..k] == b;
  }

  lemma {:induction false} RunsAreLengths(cl: seq<nat>, v: nat, ops: seq<Op>)
    requires ReadsOps(cl, v, ops)
    ensures Lengths(Runs(ops))
  {
    if ops != [] {
      RunsAreLengths(cl, v, ops[..|ops| - 1]);
    }
  }

  lemma SpelledUnique(v: nat, a: seq<nat>, n: nat, x: seq<Op>, b: seq<nat>, m: nat, y: seq<Op>)
    requires SpelledBy(v, a, n, x) && SpelledBy(v, b, m, y) && |a| == |b|
    ensures x == y && a == b && n == m && Lengths(a)
  {
    hide Runs, ReadsOps, OpsBits, Low, Drop, CodeLengthCode;
    var hclen := Low(Drop(v, 10), 4) + 4;
    var cl, w := CodeLengthCode(Drop(v, 14), hclen), Drop(v, 14 + 3 * hclen);
    OpsUnique(cl, w, x, y);
    RunsAreLengths(cl, w, x);
  }

  lemma FourBits(v: nat)
    ensures Low(v, 4) < 16
  {
    Pow2Values();
  }

  lemma NothingSoFar(cl: seq<nat>, v: nat)
    requires |cl| == 19
    ensures SoFar(cl, v, [], [], 0)
  {
  }
}
