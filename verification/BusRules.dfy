/** The bus on the wire, by its bytes and numbers: header layout and the greeting of every unbroken connection. */
module BusRules {
  import opened Bits
  import opened Common
  import opened BusFrame
  import opened BusCore
  import opened BusProtocol
  import opened BusRuns
  import opened BusNumbers

  // ---- the header

  /** Four bytes read most significant first. */
  function Word(a: byte, b: byte, c: byte, d: byte): nat {
    256 * (256 * (256 * (a as int) + b) + c) + d
  }

  lemma WordOf(v: nat)
    requires v < 0x1_0000_0000
    ensures var b := Be32(v); Word(b[0], b[1], b[2], b[3]) == v
  {
    Read32Be32(v);
  }

  /** The letters CPHB, the number, the type, the flags, a zero and the length; then the payload. */
  lemma FrameBytes(f: Frame)
    requires f.typ < 0x1_0000 && f.flags < 256 && f.seqno < 0x1_0000_0000 && |f.payload| <= 131072
    ensures var h := Encode(f);
            && |h| == 16 + |f.payload| && h[16..] == f.payload
            && h[..4] == [0x43, 0x50, 0x48, 0x42] && Word(h[4], h[5], h[6], h[7]) == f.seqno
            && (h[8] as int) * 256 + h[9] == f.typ && h[10] == f.flags && h[11] == 0
            && Word(h[12], h[13], h[14], h[15]) == |f.payload|
  {
    hide Word;
    WordOf(f.seqno);
    WordOf(|f.payload|);
    MagicBytes();
    HeaderParts(f);
  }

  lemma MagicBytes()
    ensures Be32(MAGIC) == [0x43, 0x50, 0x48, 0x42]
  {
  }

  lemma HeaderParts(f: Frame)
    requires f.typ < 0x1_0000 && f.flags < 256
    ensures var h, n, len := Encode(f), Be32(f.seqno), Be32(|f.payload|);
            && |h| == 16 + |f.payload| && h[16..] == f.payload && h[..4] == Be32(MAGIC)
            && [h[4], h[5], h[6], h[7]] == n && [h[12], h[13], h[14], h[15]] == len
            && (h[8] as int) * 256 + h[9] == f.typ && h[10] == f.flags && h[11] == 0
  {
    hide Be32;
  }

  /** The bus starts with nothing queued, cached or connected, no type configured sticky, and the number 1. */
  lemma Beginning()
    ensures Exec([]).Some?
    ensures var s := Exec([]).value;
            && s.sh.queue == [] && s.sh.txSeq == 1 && s.sh.current == None && |s.sh.cache| == |s.sh.sticky| == 64
            && (forall t: nat :: t < 64 ==> s.sh.cache[t] == None && !s.sh.sticky[t])
            && s.wire == [] && s.connector == Down && s.writer == Idle
  {
  }

  /** Some write to connection c failed: of a queued frame, of its HELLO, or of a frame of its snapshot. */
  ghost predicate FailedOn(es: seq<Event>, c: nat)
    requires Exec(es).Some?
  {
    es != [] &&
    var (e, s) := (es[|es| - 1], Exec(es[..|es| - 1]).value);
    || (e.WriterFailed? && s.writer.conn == c)
    || ((e.HelloFailed? || e.SyncFailed?) && s.connector.conn == c)
    || FailedOn(es[..|es| - 1], c)
  }

  lemma BrokenStep(s: State, e: Event, c: nat)
    requires Shape(s) && Enabled(s, e)
    ensures c in Apply(s, e).broken <==>
              || c in s.broken || (e.WriterFailed? && s.writer.conn == c)
              || ((e.HelloFailed? || e.SyncFailed?) && s.connector.conn == c)
  {
    hide Snapshot, Send, HELLO_TEXT;
  }

  /** Those are the connections recorded as broken. */
  lemma {:induction false} BrokenExactlyWhen(es: seq<Event>, c: nat)
    requires Exec(es).Some?
    ensures c in Exec(es).value.broken <==> FailedOn(es, c)
  {
    hide Apply, Enabled;
    if es != [] {
      BrokenExactlyWhen(es[..|es| - 1], c);
      BrokenStep(Exec(es[..|es| - 1]).value, es[|es| - 1], c);
    }
  }

  // ---- the greeting

  /** The text of a HELLO. */
  const GREETING := "ver:n:1\nproto:s:carplay_bus\n"

  lemma GreetingText()
    ensures |HELLO_TEXT| == |GREETING| && forall i :: 0 <= i < |GREETING| ==> HELLO_TEXT[i] as char == GREETING[i]
  {
  }

  /** HELLO, SYNC_BEGIN, a replay per cached type in order of type, SYNC_END; and then frames of the queue. */
  ghost predicate Greets(w: seq<Frame>, hello: nat, n: nat, cache: seq<Option<Frame>>, end: nat) {
    && 3 <= end <= |w| && w[0].typ == 1 && w[0].flags == 0 && w[0].seqno == hello
    && |w[0].payload| == |GREETING| && (forall i :: 0 <= i < |GREETING| ==> w[0].payload[i] as char == GREETING[i])
    && SnapshotOf(w[1..end], n, cache)
  }

  lemma GreetingOnWire(es: seq<Event>, c: nat)
    requires Exec(es).Some? && Intact(Exec(es).value, c)
    ensures var s := Exec(es).value;
            && c < |s.wire| && |s.plan[c].sh.cache| == 64
            && exists end: nat ::
                 && Greets(s.wire[c], s.plan[c].hello, s.plan[c].sh.txSeq, s.plan[c].sh.cache, end)
                 && forall k :: end <= k < |s.wire[c]| ==> s.wire[c][k] in s.accepted
  {
    hide Inv, Snapshot, Replays, SnapshotOf, WireOk, PlanHeld;
    WireGrammar(es, c);
    EveryRun(es);
    var s := Exec(es).value;
    PlanTyped(s, c);
    GreetsIs(s, c);
    var end := HandshakeEnd(s.plan[c]);
    forall k | end <= k < |s.wire[c]|
      ensures s.wire[c][k] in s.accepted
    {
      WireAt(s, c, k);
    }
  }

  lemma PlanTyped(s: State, c: nat)
    requires Inv(s) && c in s.plan
    ensures s.plan[c].sh.Ok() && CachedByType(s.plan[c].sh.cache)
  {
    assert PlanHeld(s, c);
  }

  lemma GreetsIs(s: State, c: nat)
    requires c in s.plan && c < |s.wire| && s.plan[c].sh.Ok() && WireOk(s, c) && CachedByType(s.plan[c].sh.cache)
    ensures var p := s.plan[c];
            Greets(s.wire[c], p.hello, p.sh.txSeq, p.sh.cache, HandshakeEnd(p))
  {
    hide Snapshot, SnapshotOf, LiveOk, HELLO_TEXT;
    var p, w := s.plan[c], s.wire[c];
    SnapshotIs(p.sh);
    SnapshotLong(p.sh);
    GreetingText();
    var end := HandshakeEnd(p);
    assert w[..end] == [HelloFrame(p.hello)] + Snapshot(p.sh);
    assert w[1..end] == w[..end][1..] == Snapshot(p.sh);
    assert w[0] == w[..end][0];
  }

  lemma SnapshotLong(sh: Shared)
    requires sh.Ok()
    ensures |Snapshot(sh)| >= 2
  {
  }
}
