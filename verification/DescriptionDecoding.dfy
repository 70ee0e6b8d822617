/** Following a code description while it is read: what it takes from the bit supply, and when it is accepted. */
module DescriptionDecoding {
  import opened Bits
  import opened Common
  import opened HuffmanCode
  import opened CodeLengths
  import opened BitSupply
  import opened BlockDecoding

  // ---- what a description takes from the supply

  function CountPulls(): seq<Pull> {
    [Take(5), Take(5), Take(4)]
  }

  function ThreeBitPulls(k: nat): seq<Pull> {
    if k == 0 then [] else ThreeBitPulls(k - 1) + [Take(3)]
  }

  /** The three counts and the lengths of the code-length code. */
  function HeadPulls(hclen: nat): seq<Pull> {
    CountPulls() + ThreeBitPulls(hclen)
  }

  ghost function OpPulls(cl: seq<nat>, op: Op): seq<Pull> {
    [Sym(if op.Symbol() < |cl| then cl[op.Symbol()] else 0)] + Extra(op.ExtraBits())
  }

  ghost function OpsPulls(cl: seq<nat>, ops: seq<Op>): seq<Pull> {
    if ops == [] then [] else OpsPulls(cl, ops[..|ops| - 1]) + OpPulls(cl, ops[|ops| - 1])
  }

  /** The stream holds these instructions, they spell out ntot lengths, and the supply lasts for them. */
  ghost predicate OpsTo(size: nat, cl: seq<nat>, v: nat, r: Supply, ntot: nat, ops: seq<Op>, f: Supply) {
    && |cl| == 19 && ReadsOps(cl, v, ops) && |Runs(ops)| == ntot
    && PulledAll(size, r, OpsPulls(cl, ops)) == Some(f)
  }

  ghost predicate CanSpell(size: nat, cl: seq<nat>, v: nat, r: Supply, ntot: nat) {
    exists ops, f :: OpsTo(size, cl, v, r, ntot, ops, f)
  }

  /** The whole description but for the two codes' own validity, and the supply behind it. */
  ghost predicate SpelledTo(size: nat, v: nat, r: Supply, lens: seq<nat>, bits: nat, ops: seq<Op>, f: Supply) {
    var hclen := Low(Drop(v, 10), 4) + 4;
    && SpelledBy(v, lens, bits, ops)
    && var h := PulledAll(size, r, HeadPulls(hclen));
       h.Some? && PulledAll(size, h.value, OpsPulls(CodeLengthCode(Drop(v, 14), hclen), ops)) == Some(f)
  }

  /** Some description, whatever the two codes' validity. */
  ghost predicate CanSpellAll(size: nat, v: nat, r: Supply) {
    exists lens, bits, ops, f :: |lens| == Low(v, 5) + 257 + Low(Drop(v, 5), 5) + 1
                                 && SpelledTo(size, v, r, lens, bits, ops, f)
  }

  /** The lengths of two codes, the bits their description takes, and the supply behind it. */
  datatype Description = Description(ll: seq<nat>, dl: seq<nat>, bits: nat, r: Supply)

  ghost predicate DescribesTo(size: nat, v: nat, r: Supply, d: Description) {
    && Describes(v, d.ll, d.dl, d.bits)
    && exists ops :: SpelledTo(size, v, r, d.ll + d.dl, d.bits, ops, d.r)
  }

  // ---- widths

  lemma {:induction false} ThreeBitWidth(k: nat)
    ensures Modest(ThreeBitPulls(k)) && TotalWidth(ThreeBitPulls(k)) == 3 * k
  {
    hide PulledAll, TotalWidth;
    if k == 0 {
      NoWidth();
    } else {
      ThreeBitWidth(k - 1);
      OneWidth(Take(3));
      PulledAllConcat(0, Supply(0, 0, 0, false), ThreeBitPulls(k - 1), [Take(3)]);
    }
  }

  lemma HeadWidth(hclen: nat)
    ensures Modest(HeadPulls(hclen)) && TotalWidth(HeadPulls(hclen)) == 14 + 3 * hclen
  {
    hide PulledAll, TotalWidth, ThreeBitPulls;
    var none, a, b, c := Supply(0, 0, 0, false), [Take(5)], [Take(5)], [Take(4)];
    OneWidth(Take(5));
    OneWidth(Take(4));
    PulledAllConcat(0, none, a, b);
    PulledAllConcat(0, none, a + b, c);
    assert a + b + c == CountPulls();
    ThreeBitWidth(hclen);
    PulledAllConcat(0, none, CountPulls(), ThreeBitPulls(hclen));
  }

  lemma OpWidth(cl: seq<nat>, op: Op)
    requires Lengths(cl)
    ensures Modest(OpPulls(cl, op)) && TotalWidth(OpPulls(cl, op)) == OpBits(cl, op)
  {
    hide PulledAll, TotalWidth, Extra;
    var p := Sym(if op.Symbol() < |cl| then cl[op.Symbol()] else 0);
    OneWidth(p);
    ExtraWidth(op.ExtraBits());
    PulledAllConcat(0, Supply(0, 0, 0, false), [p], Extra(op.ExtraBits()));
    ModestConcat([p], Extra(op.ExtraBits()));
  }

  lemma {:induction false} OpsWidth(cl: seq<nat>, ops: seq<Op>)
    requires Lengths(cl) && |cl| == 19
    ensures Modest(OpsPulls(cl, ops)) && TotalWidth(OpsPulls(cl, ops)) == OpsBits(cl, ops)
  {
    hide PulledAll, TotalWidth, OpPulls, OpBits;
    if ops == [] {
      NoWidth();
    } else {
      var init, op := ops[..|ops| - 1], ops[|ops| - 1];
      OpsWidth(cl, init);
      OpWidth(cl, op);
      PulledAllConcat(0, Supply(0, 0, 0, false), OpsPulls(cl, init), OpPulls(cl, op));
      ModestConcat(OpsPulls(cl, init), OpPulls(cl, op));
    }
  }

  // ---- following the instructions

  /** Instructions of which all are still to be read. */
  ghost predicate Awaited(size: nat, cl: seq<nat>, v: nat, r: Supply, ntot: nat, wanted: seq<Op>) {
    && |cl| == 19 && ReadsOps(cl, v, wanted) && |Runs(wanted)| == ntot
    && PulledAll(size, r, OpsPulls(cl, wanted)).Some?
  }

  ghost function WantedOps(size: nat, cl: seq<nat>, v: nat, r: Supply, ntot: nat): (wanted: seq<Op>)
    ensures CanSpell(size, cl, v, r, ntot) ==> Awaited(size, cl, v, r, ntot, wanted)
  {
    if CanSpell(size, cl, v, r, ntot) then
      var ops, f :| OpsTo(size, cl, v, r, ntot, ops, f);
      ops
    else []
  }

  lemma {:induction false} PrefixOpsPulls(size: nat, r: Supply, cl: seq<nat>, ops: seq<Op>, k: nat)
    requires k <= |ops| && PulledAll(size, r, OpsPulls(cl, ops)).Some?
    ensures PulledAll(size, r, OpsPulls(cl, ops[..k])).Some?
    ensures k < |ops| ==>
              var f := PulledAll(size, r, OpsPulls(cl, ops[..k])).value;
              PulledAll(size, f, OpPulls(cl, ops[k])).Some?
    decreases |ops|
  {
    hide PulledAll, OpPulls;
    if k == |ops| {
      assert ops[..k] == ops;
    } else {
      var init := ops[..|ops| - 1];
      PulledAllConcat(size, r, OpsPulls(cl, init), OpPulls(cl, ops[|ops| - 1]));
      PrefixOpsPulls(size, r, cl, init, k);
      assert init[..k] == ops[..k];
    }
  }

  /** While lengths are missing there is a next instruction: it fits, and the supply lasts for it. */
  lemma NextAwaited(size: nat, cl: seq<nat>, v: nat, r: Supply, ntot: nat, wanted: seq<Op>, ops: seq<Op>, f: Supply)
    requires Awaited(size, cl, v, r, ntot, wanted) && |ops| <= |wanted| && ops == wanted[..|ops|]
    requires |Runs(ops)| < ntot && PulledAll(size, r, OpsPulls(cl, ops)) == Some(f)
    ensures |ops| < |wanted|
    ensures var op := wanted[|ops|];
            && ReadsOp(cl, Drop(v, OpsBits(cl, ops)), op) && (op.Repeat? ==> Runs(ops) != [])
            && |Runs(ops)| + |op.Run(Runs(ops))| <= ntot && PulledAll(size, f, OpPulls(cl, op)).Some?
            && ops + [op] == wanted[..|ops| + 1]
  {
    hide ReadsOp, Runs, OpsBits, ReadsOps, PulledAll, OpsPulls, OpPulls;
    assert wanted[..|wanted|] == wanted;
    PrefixOps(cl, v, wanted, |ops|);
    PrefixOpsPulls(size, r, cl, wanted, |ops|);
    assert ops + [wanted[|ops|]] == wanted[..|ops| + 1];
  }

  lemma AppendPulls(size: nat, cl: seq<nat>, r: Supply, ops: seq<Op>, f: Supply, op: Op, g: Supply)
    requires PulledAll(size, r, OpsPulls(cl, ops)) == Some(f) && PulledAll(size, f, OpPulls(cl, op)) == Some(g)
    ensures PulledAll(size, r, OpsPulls(cl, ops + [op])) == Some(g)
  {
    hide PulledAll, OpPulls;
    var all := ops + [op];
    assert all[..|all| - 1] == ops;
    PulledAllConcat(size, r, OpsPulls(cl, ops), OpPulls(cl, op));
  }

  lemma NoOpsPulled(size: nat, cl: seq<nat>, r: Supply)
    ensures PulledAll(size, r, OpsPulls(cl, [])) == Some(r)
  {
  }

  lemma OpPulled(size: nat, r: Supply, cl: seq<nat>, op: Op, f: Supply, g: Supply)
    requires op.Symbol() < |cl| && Pulled(size, r, Sym(cl[op.Symbol()])) == Some(f)
    requires PulledAll(size, f, Extra(op.ExtraBits())) == Some(g)
    ensures PulledAll(size, r, OpPulls(cl, op)) == Some(g)
  {
    hide PulledAll, Pulled, Extra;
    OnePull(size, r, Sym(cl[op.Symbol()]));
    PulledAllConcat(size, r, [Sym(cl[op.Symbol()])], Extra(op.ExtraBits()));
  }

  lemma NothingPulled(size: nat, r: Supply)
    ensures PulledAll(size, r, []) == Some(r)
  {
  }

  lemma PullOneMore(size: nat, r: Supply, ps: seq<Pull>, p: Pull)
    ensures PulledAll(size, r, ps + [p]) ==
            match PulledAll(size, r, ps) case None => None case Some(f) => Pulled(size, f, p)
  {
    assert (ps + [p])[..|ps|] == ps;
    hide Pulled;
  }

  lemma AllSpelled(size: nat, cl: seq<nat>, v: nat, r: Supply, ntot: nat, lens: seq<nat>, ops: seq<Op>, bits: int,
                   f: Supply)
    requires SoFar(cl, v, ops, lens, bits) && |lens| == ntot && PulledAll(size, r, OpsPulls(cl, ops)) == Some(f)
    ensures CanSpell(size, cl, v, r, ntot)
  {
    hide ReadsOps, Runs, PulledAll, OpsPulls;
    assert OpsTo(size, cl, v, r, ntot, ops, f);
  }

  // ---- descriptions as a whole

  /** The instructions behind the head of a description complete it. */
  lemma SpelledByOps(size: nat, v: nat, r: Supply, hclen: nat, cl: seq<nat>, w: nat, h: Supply, ops: seq<Op>, f: Supply)
    requires hclen == Low(Drop(v, 10), 4) + 4 && hclen <= 19 && cl == CodeLengthCode(Drop(v, 14), hclen) && Accepted(cl)
    requires w == Drop(Drop(v, 14), 3 * hclen) && PulledAll(size, r, HeadPulls(hclen)) == Some(h)
    requires ReadsOps(cl, w, ops) && PulledAll(size, h, OpsPulls(cl, ops)) == Some(f)
    ensures SpelledTo(size, v, r, Runs(ops), 14 + 3 * hclen + OpsBits(cl, ops), ops, f)
  {
    hide Drop, Low, CodeLengthCode, OpsBits, Runs, ReadsOps, Accepted, PulledAll, OpsPulls, HeadPulls;
    DropDrop(v, 14, 3 * hclen);
  }

  lemma SpelledExactlyWhen(size: nat, v: nat, r: Supply, hclen: nat, cl: seq<nat>, w: nat, h: Supply, ntot: nat)
    requires hclen == Low(Drop(v, 10), 4) + 4 && hclen <= 19 && cl == CodeLengthCode(Drop(v, 14), hclen)
    requires w == Drop(Drop(v, 14), 3 * hclen) && PulledAll(size, r, HeadPulls(hclen)) == Some(h)
    requires ntot == Low(v, 5) + 257 + Low(Drop(v, 5), 5) + 1
    ensures CanSpellAll(size, v, r) <==> Accepted(cl) && CanSpell(size, cl, w, h, ntot)
  {
    hide Drop, Low, CodeLengthCode, OpsBits, Runs, ReadsOps, Accepted, PulledAll, OpsPulls, HeadPulls;
    DropDrop(v, 14, 3 * hclen);
    if CanSpellAll(size, v, r) {
      var lens, bits, ops, f :| |lens| == ntot && SpelledTo(size, v, r, lens, bits, ops, f);
      assert OpsTo(size, cl, w, h, ntot, ops, f);
    }
    if Accepted(cl) && CanSpell(size, cl, w, h, ntot) {
      var ops, f :| OpsTo(size, cl, w, h, ntot, ops, f);
      SpelledByOps(size, v, r, hclen, cl, w, h, ops, f);
    }
  }

  /** The counts and code lengths are always supplied. */
  lemma {:induction false} TakesAreSupplied(size: nat, r: Supply, ps: seq<Pull>)
    requires forall i :: 0 <= i < |ps| ==> ps[i].Take? && ps[i].k <= 24
    ensures PulledAll(size, r, ps).Some?
  {
    hide Refilled;
    if ps != [] {
      TakesAreSupplied(size, r, ps[..|ps| - 1]);
    }
  }

  /** The stream and the supply determine the description and the supply behind it. */
  lemma DescriptionToUnique(size: nat, v: nat, r: Supply, d: Description, e: Description)
    requires DescribesTo(size, v, r, d) && DescribesTo(size, v, r, e)
    ensures d == e && Lengths(d.ll) && Lengths(d.dl)
  {
    hide Spells, Accepted, Low, Drop, SpelledTo;
    var x :| SpelledTo(size, v, r, d.ll + d.dl, d.bits, x, d.r);
    var y :| SpelledTo(size, v, r, e.ll + e.dl, e.bits, y, e.r);
    SpellingsAgree(size, v, r, d.ll + d.dl, d.bits, x, d.r, e.ll + e.dl, e.bits, y, e.r);
    var all := d.ll + d.dl;
    assert d.ll == all[..|d.ll|] && e.ll == all[..|d.ll|] && d.dl == all[|d.ll|..] && e.dl == all[|d.ll|..];
  }

  lemma SpellingsAgree(size: nat, v: nat, r: Supply, a: seq<nat>, n: nat, x: seq<Op>, f: Supply,
                       b: seq<nat>, m: nat, y: seq<Op>, g: Supply)
    requires SpelledTo(size, v, r, a, n, x, f) && SpelledTo(size, v, r, b, m, y, g) && |a| == |b|
    ensures a == b && n == m && f == g && Lengths(a)
  {
    hide PulledAll, Runs, ReadsOps, OpsBits, Low, Drop, CodeLengthCode, HeadPulls;
    SpelledUnique(v, a, n, x, b, m, y);
  }

  /** A description that lies within the input is always supplied. */
  lemma DescriptionWithin(size: nat, v: nat, r: Supply, used: nat, ll: seq<nat>, dl: seq<nat>, bits: nat)
    returns (d: Description)
    requires Sound(size, r, used) && Describes(v, ll, dl, bits) && used + bits <= 8 * size
    ensures d.ll == ll && d.dl == dl && d.bits == bits && DescribesTo(size, v, r, d) && Sound(size, d.r, used + bits)
  {
    hide PulledAll, Runs, ReadsOps, OpsBits, Low, Drop, CodeLengthCode, HeadPulls, OpsPulls, TotalWidth, Sound, Modest;
    hide Accepted;
    var ops :| SpelledBy(v, ll + dl, bits, ops);
    var hclen := Low(Drop(v, 10), 4) + 4;
    var cl := CodeLengthCode(Drop(v, 14), hclen);
    HeadWidth(hclen);
    CodeLengthsAreLengths(Drop(v, 14), hclen);
    OpsWidth(cl, ops);
    PulledAllSound(size, r, used, HeadPulls(hclen));
    var h := PulledAll(size, r, HeadPulls(hclen)).value;
    PulledAllSound(size, h, used + 14 + 3 * hclen, OpsPulls(cl, ops));
    d := Description(ll, dl, bits, PulledAll(size, h, OpsPulls(cl, ops)).value);
    assert SpelledTo(size, v, r, d.ll + d.dl, d.bits, ops, d.r);
  }

  lemma CodeLengthsAreLengths(v: nat, k: nat)
    requires k <= 19
    ensures Lengths(CodeLengthCode(v, k))
  {
    hide CodeLengthCode;
  }
}
