/** A stream inflates to one output only, so the decoder's answer is the answer. */
module InflateUnique {
  import opened Bits
  import opened HuffmanCode
  import opened Deflate
  import opened CodeLengths
  import opened InflateSpec

  // ---- one compressed block

  lemma {:induction false} TokensAgree(ll: seq<nat>, dl: seq<nat>, v: nat, a: seq<Token>, b: seq<Token>, k: nat)
    requires Lengths(ll) && Lengths(dl) && ReadsAll(ll, dl, v, a) && ReadsAll(ll, dl, v, b)
    requires k <= |a| && k <= |b|
    ensures a[..k] == b[..k]
  {
    hide Reads, ReadsAll, After, BlockBits, TokenBits, Codable;
    if k > 0 {
      TokensAgree(ll, dl, v, a, b, k - 1);
      PrefixReads(ll, dl, v, a, k - 1);
      PrefixReads(ll, dl, v, b, k - 1);
      TokenUnique(ll, dl, After(ll, dl, v, a[..k - 1]), a[k - 1], b[k - 1]);
      OneMore(a, k);
      OneMore(b, k);
    }
  }

  lemma OneMore(a: seq<Token>, k: nat)
    requires 0 < k <= |a|
    ensures a[..k] == a[..k - 1] + [a[k - 1]]
  {
  }

  lemma BlockNotLonger(ll: seq<nat>, dl: seq<nat>, v: nat, a: seq<Token>, b: seq<Token>)
    requires Lengths(ll) && Lengths(dl) && BlockIs(ll, dl, v, a) && BlockIs(ll, dl, v, b)
    ensures |b| <= |a|
  {
    if |a| < |b| {
      TokensAgree(ll, dl, v, a, b, |a|);
      assert a[..|a|] == a && b[..|a|] == a;
      PrefixReads(ll, dl, v, b, |a|);
      TokenNotEnd(ll, dl, After(ll, dl, v, a), b[|a|]);
    }
  }

  /** The stream determines the tokens of a block. */
  lemma BlockUnique(ll: seq<nat>, dl: seq<nat>, v: nat, a: seq<Token>, b: seq<Token>)
    requires Lengths(ll) && Lengths(dl) && BlockIs(ll, dl, v, a) && BlockIs(ll, dl, v, b)
    ensures a == b
  {
    BlockNotLonger(ll, dl, v, a, b);
    BlockNotLonger(ll, dl, v, b, a);
    TokensAgree(ll, dl, v, a, b, |a|);
    assert a[..|a|] == a && b[..|a|] == b;
  }

  lemma CompressedUnique(s: seq<byte>, o: seq<byte>, ll: seq<nat>, dl: seq<nat>, u: nat,
                         out: seq<byte>, to: nat, out': seq<byte>, to': nat)
    requires Lengths(ll) && Lengths(dl)
    requires CompressedSpan(s, o, out, ll, dl, u, to) && CompressedSpan(s, o, out', ll, dl, u, to')
    ensures out == out' && to == to'
  {
    hide BlockIs, Legal, Drop, StreamOf;
    var a :| CompressedBy(s, o, out, ll, dl, u, to, a);
    var b :| CompressedBy(s, o, out', ll, dl, u, to', b);
    BlockUnique(ll, dl, Drop(StreamOf(s), u), a, b);
  }

  // ---- the description of a dynamic block's codes

  lemma SpellsUnique(v: nat, a: seq<nat>, n: nat, b: seq<nat>, m: nat)
    requires Spells(v, a, n) && Spells(v, b, m) && |a| == |b|
    ensures a == b && n == m && Lengths(a)
  {
    hide SpelledBy;
    var x :| SpelledBy(v, a, n, x);
    var y :| SpelledBy(v, b, m, y);
    SpelledUnique(v, a, n, x, b, m, y);
  }

  /** The stream determines the two codes a dynamic block describes. */
  lemma DescriptionUnique(v: nat, ll: seq<nat>, dl: seq<nat>, n: nat, ll': seq<nat>, dl': seq<nat>, m: nat)
    requires Describes(v, ll, dl, n) && Describes(v, ll', dl', m)
    ensures ll == ll' && dl == dl' && n == m && Lengths(ll) && Lengths(dl)
  {
    hide Spells, Accepted, Low, Drop;
    SpellsUnique(v, ll + dl, n, ll' + dl', m);
    var all := ll + dl;
    assert all == ll' + dl';
    assert ll == all[..|ll|] && ll' == all[..|ll|] && dl == all[|ll|..] && dl' == all[|ll|..];
  }

  lemma DynamicUnique(s: seq<byte>, o: seq<byte>, u: nat, out: seq<byte>, to: nat, out': seq<byte>, to': nat)
    requires DynamicSpan(s, o, out, u, to) && DynamicSpan(s, o, out', u, to')
    ensures out == out' && to == to'
  {
    hide Describes, CompressedSpan, Drop, StreamOf;
    var ll, dl, n: nat :| DescribedBy(s, o, out, u, to, ll, dl, n);
    var ll', dl', m: nat :| DescribedBy(s, o, out', u, to', ll', dl', m);
    DescriptionUnique(Drop(StreamOf(s), u), ll, dl, n, ll', dl', m);
    CompressedUnique(s, o, ll, dl, u + n, out, to, out', to');
  }

  // ---- blocks and streams

  lemma BodyUnique(s: seq<byte>, kind: nat, u: nat, o: seq<byte>, to: nat, out: seq<byte>, to': nat, out': seq<byte>)
    requires BodyIs(s, kind, u, to, o, out) && BodyIs(s, kind, u, to', o, out')
    ensures to == to' && out == out'
  {
    hide CompressedSpan, DynamicSpan, StreamOf, FixedLengths, FixedDistances;
    if kind == 1 {
      CompressedUnique(s, o, FixedLengths(), FixedDistances(), u, out, to, out', to');
    } else if kind == 2 {
      DynamicUnique(s, o, u, out, to, out', to');
    }
  }

  lemma SpanUnique(s: seq<byte>, a: Span, b: Span, final: bool, final': bool)
    requires IsBlock(s, a, final) && IsBlock(s, b, final') && a.from == b.from && a.before == b.before
    ensures a == b && final == final'
  {
    hide BodyIs, Low, Drop, StreamOf;
    BodyUnique(s, Low(Drop(Drop(StreamOf(s), a.from), 1), 2), a.from + 3, a.before, a.to, a.after, b.to, b.after);
  }

  lemma {:induction false} SpansAgree(s: seq<byte>, u: nat, o: seq<byte>, x: seq<byte>, a: seq<Span>,
                                      y: seq<byte>, b: seq<Span>, k: nat)
    requires Inflates(s, u, o, x, a) && Inflates(s, u, o, y, b) && k < |a| && k < |b|
    ensures a[k] == b[k] && (k == |a| - 1 <==> k == |b| - 1)
  {
    hide IsBlock, Inflates;
    StreamParts(s, u, o, x, a, k);
    StreamParts(s, u, o, y, b, k);
    if k > 0 {
      SpansAgree(s, u, o, x, a, y, b, k - 1);
    }
    SpanUnique(s, a[k], b[k], k == |a| - 1, k == |b| - 1);
  }

  /** Two decodings of one stream are the same block for block, and so have the same output. */
  lemma InflatesUnique(s: seq<byte>, u: nat, o: seq<byte>, x: seq<byte>, a: seq<Span>, y: seq<byte>, b: seq<Span>)
    requires Inflates(s, u, o, x, a) && Inflates(s, u, o, y, b)
    ensures x == y && a == b
  {
    hide Chain, IsBlock;
    var k := if |a| < |b| then |a| - 1 else |b| - 1;
    SpansAgree(s, u, o, x, a, y, b, k);
    forall i | 0 <= i < |a|
      ensures a[i] == b[i]
    {
      SpansAgree(s, u, o, x, a, y, b, i);
    }
  }
}
