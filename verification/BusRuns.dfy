/** What holds after every run of the bus, however the threads interleave. */
module BusRuns {
  import opened Bits
  import opened BusFrame
  import opened Common
  import opened BusCore
  import opened BusProtocol

  // ---- frames that the header can describe

  ghost predicate FrameOk(f: Frame, n: nat) {
    f.typ < MAX_TYPES && f.flags < 256 && |f.payload| <= MAX_PAYLOAD && f.seqno < n
  }

  ghost predicate FramesOk(fs: seq<Frame>, n: nat) {
    forall i :: 0 <= i < |fs| ==> FrameOk(fs[i], n)
  }

  ghost predicate CacheOk(cache: seq<Option<Frame>>, n: nat) {
    forall i :: 0 <= i < |cache| && cache[i].Some? ==> FrameOk(cache[i].value, n)
  }

  ghost predicate WiresFit(wire: seq<seq<Frame>>, n: nat) {
    forall c :: 0 <= c < |wire| ==> FramesOk(wire[c], n)
  }

  /** A cached frame may carry the next free number: its send was turned away and the number handed back. */
  ghost predicate AllOk(s: State) {
    var n := s.sh.txSeq;
    && FramesOk(s.sh.queue, n) && CacheOk(s.sh.cache, n + 1) && WiresFit(s.wire, n) && FramesOk(InFlight(s.writer), n)
    && (s.connector.Syncing? ==> FramesOk(s.connector.todo, n))
    && (s.connector.HelloReady? ==> s.connector.seqno < n)
  }

  lemma SetReplayFits(flags: nat)
    requires flags < 256
    ensures SetReplay(flags) < 256
  {
    var q := flags / 4;
    if q % 2 != 1 {
      assert q <= 63 && q != 63;
      assert flags <= 4 * q + 3;
    }
  }

  lemma {:induction false} ReplaysOk(cache: seq<Option<Frame>>, k: nat, n: nat)
    requires k <= |cache| && CacheOk(cache, n)
    ensures FramesOk(Replays(cache, k), n)
  {
    if k > 0 {
      ReplaysOk(cache, k - 1, n);
      if cache[k - 1].Some? {
        SetReplayFits(cache[k - 1].value.flags);
      }
    }
  }

  lemma AllOkSend(s: State, e: Event)
    requires Shape(s) && AllOk(s) && Enabled(s, e) && e.SendCall?
    ensures AllOk(Apply(s, e))
  {
    hide Apply, IsSticky;
    SendRecords(s, e);
    var added := SendExtends(s, e);
  }

  lemma AllOkSnapshot(s: State)
    requires Shape(s) && AllOk(s) && Enabled(s, TakeSnapshot)
    ensures AllOk(Apply(s, TakeSnapshot))
  {
    ReplaysOk(s.sh.cache, MAX_TYPES, s.sh.txSeq + 1);
  }

  lemma AllOkOther(s: State, e: Event)
    requires Shape(s) && AllOk(s) && Enabled(s, e) && !e.SendCall? && !e.TakeSnapshot?
    ensures AllOk(Apply(s, e))
  {
    hide Send, Snapshot, DoSend;
  }

  lemma AllOkStep(s: State, e: Event)
    requires Shape(s) && AllOk(s) && Enabled(s, e)
    ensures AllOk(Apply(s, e))
  {
    hide Apply, AllOk, Shape;
    match e
    case SendCall(_, _, _) => AllOkSend(s, e);
    case TakeSnapshot => AllOkSnapshot(s);
    case _ => AllOkOther(s, e);
  }

  // ---- the invariant of all runs

  /** What holds of each type. */
  ghost predicate TypeOk(s: State, t: nat)
    requires Shape(s) && StageOk(s) && PlansOk(s)
  {
    Once(s, t) && Arrives(s, t) && CacheLatest(s, t) && LastAccepted(s, t) && SnapshotLatest(s, t)
  }

  ghost predicate TypesOk(s: State)
    requires Shape(s) && StageOk(s) && PlansOk(s)
  {
    forall t: nat :: TypeOk(s, t)
  }

  ghost predicate Inv(s: State) {
    && Shape(s) && OneCurrent(s) && Conserved(s) && NumbersOrdered(s)
    && GivenOk(s) && CacheHeld(s.sh, s.given, s.held) && PlansHeld(s)
    && StageOk(s) && PlansOk(s) && WriterApart(s) && WiresOk(s)
    && CacheTyped(s) && BaseOk(s) && LostBroken(s) && TypesOk(s) && AllOk(s)
  }

  lemma ArrivesStep(s: State, e: Event, t: nat)
    requires Shape(s) && OneCurrent(s) && Conserved(s) && WriterApart(s) && StageOk(s) && PlansOk(s) && CacheTyped(s)
    requires BaseOk(s) && Once(s, t) && Arrives(s, t) && Enabled(s, e)
    requires Shape(Apply(s, e)) && StageOk(Apply(s, e)) && PlansOk(Apply(s, e))
    ensures Arrives(Apply(s, e), t)
  {
    hide Apply, Arrives, Shape, OneCurrent, Conserved, WriterApart, StageOk, PlansOk, CacheTyped, BaseOk, Once;
    match e
    case SendCall(_, _, _) => SendArrives(s, e, t);
    case TakeSnapshot => SnapshotArrives(s, t);
    case SyncFailed => MissedArrives(s, t);
    case WriterTake => TakeArrives(s, t);
    case _ => OtherArrives(s, e, t);
  }

  lemma TypeStep(s: State, e: Event, t: nat)
    requires Shape(s) && OneCurrent(s) && Conserved(s) && WriterApart(s) && StageOk(s) && PlansOk(s) && CacheTyped(s)
    requires BaseOk(s) && TypeOk(s, t) && Enabled(s, e)
    requires Shape(Apply(s, e)) && StageOk(Apply(s, e)) && PlansOk(Apply(s, e))
    ensures TypeOk(Apply(s, e), t)
  {
    hide Apply, Arrives, Shape, OneCurrent, Conserved, WriterApart, StageOk, PlansOk, CacheTyped, BaseOk, Once;
    hide CacheLatest, LastAccepted, SnapshotLatest, Enabled;
    ArrivesStep(s, e, t);
    OnceStep(s, e, t);
    CacheLatestStep(s, e, t);
    LastAcceptedStep(s, e, t);
    SnapshotLatestStep(s, e, t);
  }

  lemma WiresStep(s: State, e: Event)
    requires Shape(s) && Conserved(s) && NumbersOrdered(s) && StageOk(s) && PlansOk(s) && WriterApart(s) && WiresOk(s)
    requires Enabled(s, e) && PlansOk(Apply(s, e))
    ensures WiresOk(Apply(s, e))
  {
    var s' := Apply(s, e);
    forall c | c in s'.plan && c !in s'.broken && !Syncs(s', c)
      ensures WireOk(s', c)
    {
      hide Apply;
      WireStep(s, e, c);
    }
  }

  lemma InvStep(s: State, e: Event)
    requires Inv(s) && Enabled(s, e)
    ensures Inv(Apply(s, e))
  {
    hide Enabled, Apply, StageOk, WriterApart, CacheTyped, AllOk, NumbersOrdered, Conserved, WiresOk, PlansOk;
    hide BaseOk, LostBroken, CacheHeld, GivenOk, PlansHeld, TypeOk;
    ShapeStep(s, e);
    ConservedStep(s, e);
    NumbersStep(s, e);
    GivenStep(s, e);
    HeldStep(s, e);
    PlansHeldStep(s, e);
    StageStep(s, e);
    PlansStep(s, e);
    WriterApartStep(s, e);
    WiresStep(s, e);
    CacheTypedStep(s, e);
    BaseStep(s, e);
    LostBrokenStep(s, e);
    AllOkStep(s, e);
    forall t: nat
      ensures TypeOk(Apply(s, e), t)
    {
      TypeStep(s, e, t);
    }
  }

  /** The state after a run, if every event of the run was possible when it came. */
  ghost function Exec(es: seq<Event>): (r: Option<State>)
    ensures r.Some? ==> Shape(r.value) && OneCurrent(r.value)
  {
    if es == [] then Some(Init())
    else
      var e := es[|es| - 1];
      match Exec(es[..|es| - 1])
      case None => None
      case Some(s) =>
        if Enabled(s, e) then ShapeStep(s, e); Some(Apply(s, e)) else None
  }

  /** The invariant holds after every run. */
  lemma {:induction false} EveryRun(es: seq<Event>)
    requires Exec(es).Some?
    ensures Inv(Exec(es).value)
  {
    hide Apply, Enabled, Inv;
    if es == [] {
      InvInit();
    } else {
      EveryRun(es[..|es| - 1]);
      InvStep(Exec(es[..|es| - 1]).value, es[|es| - 1]);
    }
  }

  lemma InvInit()
    ensures Inv(Init())
  {
    hide Stream, Arriving, LastOf, CountOf, HELLO_TEXT, Snapshot, Replays, WireOk, PlanOk;
  }

  // ---- the promises, for every run

  /** An unbroken greeted connection carries its handshake in order and then only queued frames, older first. */
  lemma WireGrammar(es: seq<Event>, c: nat)
    requires Exec(es).Some?
    ensures var s := Exec(es).value;
            c in s.plan && c !in s.broken && !Syncs(s, c) ==>
              c < |s.wire| && PlanOk(s.plan[c], s.numbers) && WireOk(s, c)
  {
    EveryRun(es);
  }

  /** Where no write failed, the bytes decode to exactly the frames sent, while numbers fit 32 bits. */
  lemma WireDecodes(es: seq<Event>, c: nat)
    requires Exec(es).Some? && c < |Exec(es).value.wire| && Exec(es).value.sh.txSeq <= 0x1_0000_0000
    requires c !in Exec(es).value.broken
    ensures var w := Exec(es).value.wire[c];
            DecodeAll(EncodeAll(w)) == Some(w)
  {
    EveryRun(es);
    var s := Exec(es).value;
    assert FramesOk(s.wire[c], s.sh.txSeq);
    WireRoundTrip(s.wire[c]);
  }

  /** Accepted frames are written or dropped in order, each freed once, under strictly increasing numbers. */
  lemma QueueIsFifo(es: seq<Event>)
    requires Exec(es).Some?
    ensures var s := Exec(es).value;
            && s.accepted == s.released + InFlight(s.writer) + s.sh.queue
            && (forall i, j :: 0 <= i < j < |s.accepted| ==> s.accepted[i].seqno < s.accepted[j].seqno)
            && (forall f :: f in s.accepted ==> f.seqno < s.sh.txSeq)
            && s.sh.txSeq !in s.numbers
  {
    EveryRun(es);
  }

  /** When a connection is exposed no other is current, so the branch that closes a stale one is dead. */
  lemma NoStaleConnection(es: seq<Event>)
    requires Exec(es).Some? && Enabled(Exec(es).value, Expose)
    ensures Exec(es).value.sh.current == None
  {
    ShapeStep(Exec(es).value, Expose);
  }

  // ---- the history fields mean what the run did

  ghost predicate SendsOf(e: Event, t: nat) {
    e.SendCall? && e.typ == t && !BadSend(t, e.payload)
  }

  /** The latest well-formed send of a type in a run, and whether the queue had room for it. */
  ghost function Latest(es: seq<Event>, t: nat): Option<Sent>
    requires Exec(es).Some?
  {
    if es == [] then None
    else
      var (e, s) := (es[|es| - 1], Exec(es[..|es| - 1]).value);
      if SendsOf(e, t) then Some(Sent(e.payload, |s.sh.queue| < CAPACITY))
      else Latest(es[..|es| - 1], t)
  }

  /** Some well-formed send of the type was neither flagged sticky nor of a type configured so. */
  ghost predicate EverLoose(es: seq<Event>, t: nat)
    requires Exec(es).Some?
  {
    es != [] &&
    var (e, s) := (es[|es| - 1], Exec(es[..|es| - 1]).value);
    (SendsOf(e, t) && !IsSticky(s.sh, t, e.flags)) || EverLoose(es[..|es| - 1], t)
  }

  lemma HistoryStep(s: State, e: Event, t: nat)
    requires Shape(s) && Enabled(s, e)
    ensures var s' := Apply(s, e);
            if SendsOf(e, t) then
              && t in s'.last && s'.last[t] == Sent(e.payload, |s.sh.queue| < CAPACITY)
              && (t in s'.mixed <==> t in s.mixed || !IsSticky(s.sh, t, e.flags))
            else
              (t in s'.last <==> t in s.last) && (t in s.last ==> s'.last[t] == s.last[t])
              && (t in s'.mixed <==> t in s.mixed)
  {
  }

  lemma {:induction false} HistoryIsRight(es: seq<Event>, t: nat)
    requires Exec(es).Some?
    ensures var s := Exec(es).value;
            && Latest(es, t) == (if t in s.last then Some(s.last[t]) else None)
            && (EverLoose(es, t) <==> t in s.mixed)
  {
    hide Apply, Enabled;
    if es != [] {
      var s := Exec(es[..|es| - 1]).value;
      HistoryIsRight(es[..|es| - 1], t);
      HistoryStep(s, es[|es| - 1], t);
    }
  }

  /** The types of the handshake frames whose write failed since the latest snapshot. */
  ghost function Missed(es: seq<Event>): set<nat>
    requires Exec(es).Some?
  {
    if es == [] then {}
    else
      var (e, s) := (es[|es| - 1], Exec(es[..|es| - 1]).value);
      var before := Missed(es[..|es| - 1]);
      if e.TakeSnapshot? then {}
      else if e.SyncFailed? then before + {s.connector.todo[0].typ}
      else before
  }

  /** The frames queued at the latest snapshot, and those accepted since. */
  ghost function QueuedSince(es: seq<Event>): seq<Frame>
    requires Exec(es).Some?
  {
    if es == [] then []
    else
      var (e, s) := (es[|es| - 1], Exec(es[..|es| - 1]).value);
      var before := QueuedSince(es[..|es| - 1]);
      match e
      case TakeSnapshot => s.sh.queue
      case SendCall(t, flags, p) =>
        if BadSend(t, p) || |s.sh.queue| == CAPACITY then before
        else before + [Frame(t, flags, s.sh.txSeq, p)]
      case _ => before
  }

  lemma MissedStep(s: State, e: Event)
    requires Shape(s) && Conserved(s) && BaseOk(s) && Enabled(s, e)
    ensures var s' := Apply(s, e);
            && s'.lost == (if e.TakeSnapshot? then {}
                           else if e.SyncFailed? then s.lost + {s.connector.todo[0].typ}
                           else s.lost)
            && Meant(s') == match e
                            case TakeSnapshot => s.sh.queue
                            case SendCall(t, flags, p) =>
                              if BadSend(t, p) || |s.sh.queue| == CAPACITY then Meant(s)
                              else Meant(s) + [Frame(t, flags, s.sh.txSeq, p)]
                            case _ => Meant(s)
  {
    hide Snapshot;
  }

  lemma {:induction false} MissedIsRight(es: seq<Event>)
    requires Exec(es).Some?
    ensures Exec(es).value.lost == Missed(es) && Meant(Exec(es).value) == QueuedSince(es)
  {
    hide Apply, Enabled, Meant, Conserved, BaseOk, Inv;
    if es == [] {
      MeantFirst();
    } else {
      var before := es[..|es| - 1];
      EveryRun(before);
      MissedIsRight(before);
      InvParts(Exec(before).value);
      MissedStep(Exec(before).value, es[|es| - 1]);
    }
  }

  lemma MeantFirst()
    ensures Meant(Init()) == []
  {
  }

  lemma InvParts(s: State)
    requires Inv(s)
    ensures Shape(s) && OneCurrent(s) && Conserved(s) && BaseOk(s)
  {
  }

  /** Nothing is left to send on the current connection, whether or not a handshake write failed on it. */
  ghost predicate Drained(s: State) {
    && s.connector.Exposed? && s.sh.current == Some(s.connector.conn)
    && s.connector.conn < |s.wire| && s.sh.queue == [] && s.writer.Idle?
  }

  /** The last frame of type t, if there is one, carries p. */
  ghost predicate AgreesOn(fs: seq<Frame>, t: nat, p: seq<byte>) {
    LastOf(fs, t).Some? ==> LastOf(fs, t).value.payload == p
  }

  /** There is one, and it does. */
  ghost predicate Carries(fs: seq<Frame>, t: nat, p: seq<byte>) {
    LastOf(fs, t).Some? && LastOf(fs, t).value.payload == p
  }

  /** Exactly what a drained connection ends with, for every ordinary type and on every run. */
  lemma WhatArrives(es: seq<Event>, t: nat)
    requires Exec(es).Some? && Drained(Exec(es).value) && Ordinary(t)
    ensures var s := Exec(es).value;
            Planned(s) && PayloadOf(LastOf(s.wire[s.connector.conn], t)) == Arriving(s, t)
  {
    EveryRun(es);
    var s := Exec(es).value;
    assert TypeOk(s, t);
    assert Stream(s) == s.wire[s.connector.conn];
  }

  /** For a type always sent sticky and accepted last, what arrives is the latest payload, or nothing. */
  lemma LatestArrives(s: State, t: nat)
    requires Inv(s) && Planned(s) && Ordinary(t) && t in s.last && t !in s.mixed && s.last[t].accepted
    ensures Arriving(s, t) == if t !in s.lost || LastOf(Meant(s), t).Some? then Some(s.last[t].payload) else None
  {
    hide Inv, LastOf, Meant, BaseOk, SnapshotLatest, Planned;
    LatestKnown(s, t);
    if LastOf(Meant(s), t).Some? {
      MeantLast(s, t);
    }
  }

  lemma LatestKnown(s: State, t: nat)
    requires Inv(s) && Planned(s) && Ordinary(t) && t in s.last && t !in s.mixed && s.last[t].accepted
    ensures BaseOk(s) && PayloadOf(LastOf(s.accepted, t)) == Some(s.last[t].payload)
    ensures LastOf(Meant(s), t).None? ==> PayloadOf(s.plan[s.connector.conn].sh.cache[t]) == Some(s.last[t].payload)
  {
    hide Shape, LastOf, Meant, Conserved, NumbersOrdered, WiresOk, AllOk, CacheHeld, GivenOk, PlansHeld, CacheTyped;
    hide BaseOk;
    hide Once, Arrives, CacheLatest;
    assert TypeOk(s, t);
  }

  lemma MeantLast(s: State, t: nat)
    requires BaseOk(s) && LastOf(Meant(s), t).Some?
    ensures LastOf(s.accepted, t) == LastOf(Meant(s), t)
  {
    LastOfConcat(s.accepted[..s.base], Meant(s), t);
    assert s.accepted[..s.base] + Meant(s) == s.accepted;
  }

  /**
   Sticky convergence: when every send of a type was sticky and the queue had room for the latest
   one, a drained connection never ends with a stale payload, and it ends with the latest one exactly
   if the write of its replay did not fail or a frame of the type was still to be sent afterwards;
   so it does whenever no write failed.
   */
  lemma StickyConvergence(es: seq<Event>, t: nat)
    requires Exec(es).Some? && Drained(Exec(es).value) && Ordinary(t)
    requires Latest(es, t).Some? && Latest(es, t).value.accepted && !EverLoose(es, t)
    ensures var s := Exec(es).value;
            var w, p := s.wire[s.connector.conn], Latest(es, t).value.payload;
            && AgreesOn(w, t, p)
            && (Carries(w, t, p) <==> t !in Missed(es) || LastOf(QueuedSince(es), t).Some?)
            && (s.connector.conn !in s.broken ==> Carries(w, t, p))
  {
    var s := Exec(es).value;
    EveryRun(es);
    HistoryIsRight(es, t);
    MissedIsRight(es);
    WhatArrives(es, t);
    LatestArrives(s, t);
  }

  /** One missed handshake frame costs the type exactly if it was its replay and nothing of the type is queued. */
  lemma MissedReplay(s: State, t: nat, p: seq<byte>)
    requires Inv(s) && Enabled(s, SyncFailed) && Ordinary(t) && Carries(Stream(s), t, p)
    ensures Shape(Apply(s, SyncFailed))
    ensures Carries(Stream(Apply(s, SyncFailed)), t, p) <==>
            s.connector.todo[0].typ != t || LastOf(s.sh.queue, t).Some?
  {
    hide Inv, LastOf, CountOf, Snapshot;
    InvParts(s);
    ShapeStep(s, SyncFailed);
    HandshakeOnce(s, t);
    WithoutFrame(s.wire[s.connector.conn], s.connector.todo, s.sh.queue, t);
  }

  lemma HandshakeOnce(s: State, t: nat)
    requires Inv(s) && s.connector.Syncing? && Ordinary(t)
    ensures s.connector.conn < |s.wire| && CountOf(s.wire[s.connector.conn] + s.connector.todo, t) <= 1
  {
    hide LastOf, CountOf, Conserved, NumbersOrdered, WiresOk, AllOk, CacheHeld, GivenOk, PlansHeld, CacheTyped;
    hide BaseOk, Arrives;
    assert TypeOk(s, t);
  }

  // ---- refused sends

  /** A refused send changes nothing of what an attached connection will carry, however many went before. */
  lemma TurnedAway(s: State, t: nat, flags: nat, payload: seq<byte>)
    requires Inv(s) && Attached(s) && Ordinary(t) && |s.sh.queue| == CAPACITY && flags < 256 && |payload| <= MAX_PAYLOAD
    ensures var s' := Apply(s, SendCall(t, flags, payload));
            && Stream(s') == Stream(s) && Arriving(s', t) == Arriving(s, t)
            && (Carries(Stream(s'), t, payload) <==> Arriving(s, t) == Some(payload))
  {
    assert TypeOk(s, t);
  }

  /** Greeted after refused sends, a connection ends with the latest payload unless a queued frame says otherwise. */
  lemma GreetedAfterRefusal(s: State, t: nat)
    requires Inv(s) && Enabled(s, TakeSnapshot) && Ordinary(t) && t in s.last && t !in s.mixed
    ensures Carries(Stream(Apply(s, TakeSnapshot)), t, s.last[t].payload) <==>
            LastOf(s.sh.queue, t).None? || LastOf(s.sh.queue, t).value.payload == s.last[t].payload
  {
    hide Inv, LastOf, Snapshot, Replays;
    CacheKnown(s, t);
    HandshakeCarries(s.connector.seqno, s.sh, t);
    LastOfConcat([HelloFrame(s.connector.seqno)] + Snapshot(s.sh), s.sh.queue, t);
  }

  lemma CacheKnown(s: State, t: nat)
    requires Inv(s) && s.connector.Greeted? && Ordinary(t) && t in s.last && t !in s.mixed
    ensures s.sh.Ok() && CacheTyped(s) && PayloadOf(s.sh.cache[t]) == Some(s.last[t].payload)
    ensures s.wire[s.connector.conn] == [HelloFrame(s.connector.seqno)]
  {
    hide LastOf, Conserved, NumbersOrdered, WiresOk, AllOk, CacheHeld, GivenOk, PlansHeld, CacheTyped;
    hide BaseOk, Arrives, Once;
    assert TypeOk(s, t);
  }
}
