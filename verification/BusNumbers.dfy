/** Sequence numbers as a connection sees them: which frames share one, and when they rise. */
module BusNumbers {
  import opened Bits
  import opened BusFrame
  import opened Common
  import opened BusCore
  import opened BusProtocol
  import opened BusRuns

  // ---- whose number a cached frame has, after a run

  /**
   For each type ever cached, what has the number of its cached frame: the frame itself if its send
   was accepted, or else whoever was given the number that the refused send handed back.
   */
  ghost function HolderOf(es: seq<Event>): map<nat, Holder>
    requires Exec(es).Some?
  {
    if es == [] then map[]
    else
      var (e, s) := (es[|es| - 1], Exec(es[..|es| - 1]).value);
      var before := HolderOf(es[..|es| - 1]);
      match e
      case HelloNumber => Claim(before, Direct(s.connector.conn, HelloFrame(s.sh.txSeq)))
      case TakeSnapshot => Claim(before, Direct(s.connector.conn, BeginFrame(s.sh.txSeq)))
      case SendCall(t, flags, p) =>
        var f := Queued(Frame(t, flags, s.sh.txSeq, p));
        if BadSend(t, p) then before
        else if |s.sh.queue| == CAPACITY then Cached(before, t, IsSticky(s.sh, t, flags), Nobody)
        else Cached(Claim(before, f), t, IsSticky(s.sh, t, flags), f)
      case _ => before
  }

  lemma HeldField(s: State, e: Event)
    requires Shape(s) && Enabled(s, e)
    ensures Apply(s, e).held ==
            match e
            case HelloNumber => Claim(s.held, Direct(s.connector.conn, HelloFrame(s.sh.txSeq)))
            case TakeSnapshot => Claim(s.held, Direct(s.connector.conn, BeginFrame(s.sh.txSeq)))
            case SendCall(t, flags, p) =>
              var f := Queued(Frame(t, flags, s.sh.txSeq, p));
              if BadSend(t, p) then s.held
              else if |s.sh.queue| == CAPACITY then Cached(s.held, t, IsSticky(s.sh, t, flags), Nobody)
              else Cached(Claim(s.held, f), t, IsSticky(s.sh, t, flags), f)
            case _ => s.held
  {
    hide Snapshot, Claim, Cached, HELLO_TEXT, IsSticky;
  }

  lemma {:induction false} HeldIsRight(es: seq<Event>)
    requires Exec(es).Some?
    ensures Exec(es).value.held == HolderOf(es)
  {
    hide Apply, Enabled, Claim, Cached, HELLO_TEXT, IsSticky;
    if es != [] {
      HeldIsRight(es[..|es| - 1]);
      HeldField(Exec(es[..|es| - 1]).value, es[|es| - 1]);
    }
  }

  /** Types whose latest sticky send was refused and whose number was not given out since. */
  ghost predicate RefusedSince(es: seq<Event>, t: nat)
    requires Exec(es).Some?
  {
    t in HolderOf(es) && HolderOf(es)[t] == Nobody
  }

  /** The holder has the number, and is an accepted frame if it was queued; without one the number is still to come. */
  lemma HolderIsRight(es: seq<Event>, t: nat)
    requires Exec(es).Some? && t < MAX_TYPES && Exec(es).value.sh.cache[t].Some?
    ensures t in HolderOf(es)
    ensures var s, n := Exec(es).value, Exec(es).value.sh.cache[t].value.seqno;
            && (RefusedSince(es, t) <==> n == s.sh.txSeq)
            && (!RefusedSince(es, t) ==> HolderOf(es)[t].f.seqno == n && GivenTo(s, HolderOf(es)[t]))
  {
    hide HolderOf, Inv;
    HeldIsRight(es);
    EveryRun(es);
    NumbersKnown(Exec(es).value);
    assert HeldOk(Exec(es).value.sh, Exec(es).value.given, Exec(es).value.held, t);
  }

  lemma NumbersKnown(s: State)
    requires Inv(s)
    ensures GivenOk(s) && CacheHeld(s.sh, s.given, s.held) && PlansHeld(s)
  {
  }

  /**
   The next frame accepted gets the number of a cached frame exactly if that frame's send was refused
   and no number was given out since.
   */
  lemma SharesNumberExactlyWhen(es: seq<Event>, t: nat, e: Event)
    requires Exec(es).Some? && t < MAX_TYPES && Exec(es).value.sh.cache[t].Some?
    requires e.SendCall? && Enabled(Exec(es).value, e) && Apply(Exec(es).value, e).accepted != Exec(es).value.accepted
    ensures var s, s' := Exec(es).value, Apply(Exec(es).value, e);
            |s'.accepted| == |s.accepted| + 1
            && (s'.accepted[|s.accepted|].seqno == s.sh.cache[t].value.seqno <==> RefusedSince(es, t))
  {
    hide RefusedSince, Apply, HolderOf;
    HolderIsRight(es, t);
    var added := SendExtends(Exec(es).value, e);
  }

  // ---- which frames of a connection share a number

  /** A connection that was greeted completely, no write having failed on it. */
  ghost predicate Intact(s: State, c: nat) {
    c in s.plan && c !in s.broken && !Syncs(s, c)
  }

  /** Where the handshake of a connection ends. */
  ghost function HandshakeEnd(p: Plan): nat
    requires p.sh.Ok()
  {
    |p.Frames()|
  }

  /** Position k carries a replay. */
  ghost predicate IsReplay(p: Plan, k: nat)
    requires p.sh.Ok()
  {
    2 <= k < HandshakeEnd(p) - 1
  }

  /** What has the number of the frame at position k: the frame itself, unless it is a replay. */
  ghost function HolderAt(c: nat, p: Plan, w: seq<Frame>, k: nat): Holder
    requires p.sh.Ok() && k < |w|
  {
    if IsReplay(p, k) then
      if w[k].typ in p.held && p.held[w[k].typ] != Nobody then p.held[w[k].typ]
      else Direct(c, BeginFrame(p.sh.txSeq))
    else if k < HandshakeEnd(p) then Direct(c, w[k])
    else Queued(w[k])
  }

  /** A replay is a cached frame of its type, with its number. */
  lemma {:induction false} ReplayAt(cache: seq<Option<Frame>>, n: nat, k: nat)
    requires n <= |cache| && k < |Replays(cache, n)|
    requires forall i :: 0 <= i < n && cache[i].Some? ==> cache[i].value.typ == i
    ensures var f := Replays(cache, n)[k];
            f.typ < n && cache[f.typ].Some? && cache[f.typ].value.seqno == f.seqno
  {
    if k < |Replays(cache, n - 1)| {
      ReplayAt(cache, n - 1, k);
    }
  }

  /** The parts of a handshake. */
  lemma HandshakeParts(p: Plan, k: nat)
    requires p.sh.Ok() && k < HandshakeEnd(p)
    ensures HandshakeEnd(p) == |Replays(p.sh.cache, MAX_TYPES)| + 3
    ensures p.Frames()[k] == if k == 0 then HelloFrame(p.hello)
                             else if k == 1 then BeginFrame(p.sh.txSeq)
                             else if k == HandshakeEnd(p) - 1 then EndFrame(p.sh.txSeq + 1)
                             else Replays(p.sh.cache, MAX_TYPES)[k - 2]
  {
    hide Replays, HELLO_TEXT;
  }

  /** The frames of a sound connection, by position. */
  lemma WireAt(s: State, c: nat, k: nat)
    requires Inv(s) && Intact(s, c) && c < |s.wire| && k < |s.wire[c]|
    ensures s.plan[c].sh.Ok() && HandshakeEnd(s.plan[c]) <= |s.wire[c]|
    ensures var p, w := s.plan[c], s.wire[c];
            && (k < HandshakeEnd(p) ==> w[k] == p.Frames()[k])
            && (k >= HandshakeEnd(p) ==> w[k] in s.accepted)
            && (forall i, j :: HandshakeEnd(p) <= i < j < |w| ==> w[i].seqno < w[j].seqno)
  {
    hide AllOk, TypesOk, NumbersOrdered, GivenOk, CacheHeld, PlansHeld, BaseOk, LostBroken, CacheTyped, Plan.Frames;
    var p, w := s.plan[c], s.wire[c];
    assert PlanOk(p, s.numbers) && WireOk(s, c);
    var hs := p.Frames();
    var live := w[|hs|..];
    assert forall i :: |hs| <= i < |w| ==> w[i] == live[i - |hs|];
    if k < |hs| {
      assert w[..|hs|][k] == hs[k];
    } else {
      assert live[k - |hs|] in s.released;
    }
  }

  lemma IntactWire(s: State, c: nat)
    requires Inv(s) && Intact(s, c)
    ensures c < |s.wire| && PlanHeld(s, c)
  {
    hide AllOk, TypesOk, NumbersOrdered, GivenOk, CacheHeld, BaseOk, LostBroken, CacheTyped, WiresOk, PlanHeld;
  }

  /** What a replay found when its snapshot was taken. */
  lemma ReplayHolder(s: State, c: nat, k: nat)
    requires Inv(s) && Intact(s, c) && c < |s.wire| && k < |s.wire[c]| && PlanHeld(s, c) && IsReplay(s.plan[c], k)
    ensures var p, f := s.plan[c], s.wire[c][k];
            && f.typ in p.held
            && (if p.held[f.typ] == Nobody then f.seqno == p.sh.txSeq
                else f.seqno < p.sh.txSeq && GivenTo(s, p.held[f.typ]) && p.held[f.typ].f.seqno == f.seqno)
  {
    hide Inv, Replays, HELLO_TEXT;
    NumbersKnown(s);
    WireAt(s, c, k);
    HandshakeParts(s.plan[c], k);
    CachedHolder(s, c, k - 2);
  }

  lemma CachedHolder(s: State, c: nat, k: nat)
    requires GivenOk(s) && c in s.plan && PlanHeld(s, c) && k < |Replays(s.plan[c].sh.cache, MAX_TYPES)|
    ensures var p := s.plan[c];
            var f := Replays(p.sh.cache, MAX_TYPES)[k];
            && f.typ in p.held
            && (if p.held[f.typ] == Nobody then f.seqno == p.sh.txSeq
                else f.seqno < p.sh.txSeq && GivenTo(s, p.held[f.typ]) && p.held[f.typ].f.seqno == f.seqno)
  {
    hide Replays, HELLO_TEXT;
    var p := s.plan[c];
    ReplayAt(p.sh.cache, MAX_TYPES, k);
    assert HeldOk(p.sh, s.given, p.held, Replays(p.sh.cache, MAX_TYPES)[k].typ);
  }

  /** Each frame's number was given to its holder. */
  lemma HolderHolds(s: State, c: nat, k: nat)
    requires Inv(s) && Intact(s, c) && c < |s.wire| && k < |s.wire[c]| && PlanHeld(s, c)
    ensures var h := HolderAt(c, s.plan[c], s.wire[c], k);
            h != Nobody && GivenTo(s, h) && h.f.seqno == s.wire[c][k].seqno
  {
    hide Inv, HandshakeEnd, GivenOk;
    NumbersKnown(s);
    WireAt(s, c, k);
    if IsReplay(s.plan[c], k) {
      ReplayHolder(s, c, k);
      PlanNumbers(s, c);
    } else if k < HandshakeEnd(s.plan[c]) {
      HandshakeHolder(s, c, k);
    } else {
      QueuedHolder(s, s.wire[c][k]);
    }
  }

  lemma PlanNumbers(s: State, c: nat)
    requires c in s.plan && PlanHeld(s, c)
    ensures GivenTo(s, Direct(c, HelloFrame(s.plan[c].hello))) && GivenTo(s, Direct(c, BeginFrame(s.plan[c].sh.txSeq)))
    ensures GivenTo(s, Direct(c, EndFrame(s.plan[c].sh.txSeq + 1)))
  {
  }

  lemma HandshakeHolder(s: State, c: nat, k: nat)
    requires c in s.plan && PlanHeld(s, c) && k < HandshakeEnd(s.plan[c]) && !IsReplay(s.plan[c], k)
    ensures GivenTo(s, Direct(c, s.plan[c].Frames()[k]))
  {
    hide HELLO_TEXT, HandshakeEnd, GivenTo;
    PlanNumbers(s, c);
    HandshakeParts(s.plan[c], k);
  }

  lemma QueuedHolder(s: State, f: Frame)
    requires GivenOk(s) && f in s.accepted
    ensures GivenTo(s, Queued(f))
  {
  }

  /** Two frames have one number exactly if they have one holder. */
  lemma SameHolder(s: State, c: nat, i: nat, j: nat)
    requires Inv(s) && Intact(s, c) && c < |s.wire| && i < |s.wire[c]| && j < |s.wire[c]| && PlanHeld(s, c)
    ensures s.wire[c][i].seqno == s.wire[c][j].seqno <==>
            HolderAt(c, s.plan[c], s.wire[c], i) == HolderAt(c, s.plan[c], s.wire[c], j)
  {
    HolderHolds(s, c, i);
    HolderHolds(s, c, j);
    hide Inv, HolderAt;
  }

  /**
   The frames of a greeted connection that share a number: HELLO and a replay that got the number
   handed back, SYNC_BEGIN and a replay whose send was refused with no number given out since, two
   replays whose numbers went to the same holder, and a replay and the queued frame that has its
   number, be it the cached frame itself or one accepted after a refusal; no others.
   */
  lemma NumberSharedExactlyWhen(es: seq<Event>, c: nat, i: nat, j: nat)
    requires Exec(es).Some? && Intact(Exec(es).value, c)
    requires c < |Exec(es).value.wire| && i < j < |Exec(es).value.wire[c]|
    ensures var s := Exec(es).value; s.plan[c].sh.Ok()
    ensures var s := Exec(es).value;
            var p, w := s.plan[c], s.wire[c];
            w[i].seqno == w[j].seqno <==>
              || (i == 0 && IsReplay(p, j) && HeldBy(p, w[j].typ) == Direct(c, w[0]))
              || (i == 1 && IsReplay(p, j) && HeldBy(p, w[j].typ) == Nobody)
              || (IsReplay(p, i) && IsReplay(p, j) && HeldBy(p, w[i].typ) == HeldBy(p, w[j].typ))
              || (IsReplay(p, i) && j >= HandshakeEnd(p) && HeldBy(p, w[i].typ) == Queued(w[j]))
  {
    hide Inv, HolderAt, HandshakeEnd;
    var s := Exec(es).value;
    EveryRun(es);
    IntactWire(s, c);
    SameHolder(s, c, i, j);
    SharedCases(s, c, i, j);
  }

  /** What had the number of the type's cached frame at the snapshot. */
  ghost function HeldBy(p: Plan, t: nat): Holder {
    if t in p.held then p.held[t] else Nobody
  }

  lemma SharedCases(s: State, c: nat, i: nat, j: nat)
    requires Inv(s) && Intact(s, c) && c < |s.wire| && i < j < |s.wire[c]| && PlanHeld(s, c)
    ensures var p, w := s.plan[c], s.wire[c];
            HolderAt(c, p, w, i) == HolderAt(c, p, w, j) <==>
              || (i == 0 && IsReplay(p, j) && HeldBy(p, w[j].typ) == Direct(c, w[0]))
              || (i == 1 && IsReplay(p, j) && HeldBy(p, w[j].typ) == Nobody)
              || (IsReplay(p, i) && IsReplay(p, j) && HeldBy(p, w[i].typ) == HeldBy(p, w[j].typ))
              || (IsReplay(p, i) && j >= HandshakeEnd(p) && HeldBy(p, w[i].typ) == Queued(w[j]))
  {
    var p, w := s.plan[c], s.wire[c];
    WireAt(s, c, i);
    WireAt(s, c, j);
    if i < HandshakeEnd(p) {
      HandshakeParts(p, i);
    }
    if j < HandshakeEnd(p) {
      HandshakeParts(p, j);
    }
    if IsReplay(p, i) {
      ReplayHolder(s, c, i);
    }
    if IsReplay(p, j) {
      ReplayHolder(s, c, j);
    }
    hide Inv, HandshakeEnd, HELLO_TEXT, Replays, GivenTo, PlanHeld;
    PlanOrder(s, c);
  }

  lemma PlanOrder(s: State, c: nat)
    requires c in s.plan && PlanHeld(s, c)
    ensures s.plan[c].sh.Ok() && s.plan[c].hello < s.plan[c].sh.txSeq
  {
  }

  // ---- when numbers rise

  ghost predicate Rising(fs: seq<Frame>) {
    forall i, j :: 0 <= i < j < |fs| ==> fs[i].seqno < fs[j].seqno
  }

  /** Nothing was cached. */
  ghost predicate NothingCached(sh: Shared) {
    forall t :: 0 <= t < |sh.cache| ==> sh.cache[t] == None
  }

  /** No replay is numbered above the SYNC_BEGIN before it. */
  lemma ReplaysDoNotRise(s: State, c: nat, k: nat)
    requires Inv(s) && Intact(s, c) && c < |s.wire| && k < |s.wire[c]| && PlanHeld(s, c) && IsReplay(s.plan[c], k)
    ensures s.wire[c][1] == BeginFrame(s.plan[c].sh.txSeq) && s.wire[c][k].seqno <= s.wire[c][1].seqno
  {
    ReplayHolder(s, c, k);
    WireAt(s, c, 1);
    HandshakeParts(s.plan[c], 1);
  }

  lemma {:induction false} SomeReplay(cache: seq<Option<Frame>>, n: nat, t: nat)
    requires n <= |cache|
    ensures t < n && cache[t].Some? ==> Replays(cache, n) != []
    ensures (forall i :: 0 <= i < n ==> cache[i] == None) ==> Replays(cache, n) == []
  {
    if n > 0 {
      SomeReplay(cache, n - 1, t);
    }
  }

  /** Numbers rise exactly if the snapshot found nothing cached and nothing carried since is numbered before it. */
  lemma RisesExactlyWhen(s: State, c: nat)
    requires Inv(s) && Intact(s, c) && c < |s.wire| && PlanHeld(s, c)
    ensures var p, w := s.plan[c], s.wire[c];
            Rising(w) <==> NothingCached(p.sh) && forall k :: HandshakeEnd(p) <= k < |w| ==> w[k].seqno > p.sh.txSeq + 1
  {
    hide Inv, Replays, HELLO_TEXT;
    var p, w := s.plan[c], s.wire[c];
    if Rising(w) {
      RisingMeans(s, c);
    }
    if NothingCached(p.sh) && forall k :: HandshakeEnd(p) <= k < |w| ==> w[k].seqno > p.sh.txSeq + 1 {
      MeansRising(s, c);
    }
  }

  lemma RisingMeans(s: State, c: nat)
    requires Inv(s) && Intact(s, c) && c < |s.wire| && PlanHeld(s, c) && Rising(s.wire[c])
    ensures NothingCached(s.plan[c].sh)
    ensures forall k :: HandshakeEnd(s.plan[c]) <= k < |s.wire[c]| ==> s.wire[c][k].seqno > s.plan[c].sh.txSeq + 1
  {
    hide Inv, Replays, HELLO_TEXT, HandshakeEnd;
    var p, w := s.plan[c], s.wire[c];
    WireHasHandshake(s, c);
    var n := HandshakeEnd(p);
    HandshakeParts(p, 0);
    if Replays(p.sh.cache, MAX_TYPES) != [] {
      ReplaysDoNotRise(s, c, 2);
      assert false;
    }
    forall t | 0 <= t < |p.sh.cache|
      ensures p.sh.cache[t] == None
    {
      SomeReplay(p.sh.cache, MAX_TYPES, t);
    }
    WireAt(s, c, n - 1);
    HandshakeParts(p, n - 1);
  }

  lemma WireHasHandshake(s: State, c: nat)
    requires Inv(s) && Intact(s, c) && c < |s.wire|
    ensures s.plan[c].sh.Ok() && 3 <= HandshakeEnd(s.plan[c]) <= |s.wire[c]|
  {
    hide AllOk, TypesOk, NumbersOrdered, GivenOk, CacheHeld, PlansHeld, BaseOk, LostBroken, CacheTyped, Replays;
    assert PlanOk(s.plan[c], s.numbers) && WireOk(s, c);
    HandshakeParts(s.plan[c], 0);
  }

  lemma MeansRising(s: State, c: nat)
    requires Inv(s) && Intact(s, c) && c < |s.wire| && PlanHeld(s, c) && NothingCached(s.plan[c].sh)
    requires forall k :: HandshakeEnd(s.plan[c]) <= k < |s.wire[c]| ==> s.wire[c][k].seqno > s.plan[c].sh.txSeq + 1
    ensures Rising(s.wire[c])
  {
    hide Inv, Replays, HELLO_TEXT;
    var p, w := s.plan[c], s.wire[c];
    SomeReplay(p.sh.cache, MAX_TYPES, 0);
    WireHasHandshake(s, c);
    PlanOrder(s, c);
    HandshakeParts(p, 0);
    forall i, j | 0 <= i < j < |w|
      ensures w[i].seqno < w[j].seqno
    {
      WireAt(s, c, i);
      WireAt(s, c, j);
      if i < HandshakeEnd(p) {
        HandshakeParts(p, i);
      }
      if j < HandshakeEnd(p) {
        HandshakeParts(p, j);
      }
      hide HandshakeEnd, PlanHeld;
    }
  }

  // ---- what a drained connection carried

  /** On a connection without failures everything meant for it follows its handshake. */
  ghost predicate StreamIs(s: State)
    requires Shape(s)
  {
    Attached(s) && s.connector.conn !in s.broken ==>
      Planned(s) && Stream(s) == s.plan[s.connector.conn].Frames() + Meant(s)
  }

  /** First the frames queued at the snapshot, and then frames numbered behind it. */
  ghost predicate QueuedFirst(s: State) {
    Planned(s) ==>
      var sh := s.plan[s.connector.conn].sh;
      && |sh.queue| <= |Meant(s)| && Meant(s)[..|sh.queue|] == sh.queue
      && (forall i :: 0 <= i < |sh.queue| ==> sh.queue[i].seqno < sh.txSeq)
      && (forall i :: |sh.queue| <= i < |Meant(s)| ==> Meant(s)[i].seqno > sh.txSeq + 1)
      && sh.txSeq + 1 < s.sh.txSeq
  }

  lemma StreamIsSend(s: State, e: Event)
    requires Shape(s) && BaseOk(s) && e.SendCall? && Enabled(s, e) && StreamIs(s) && Shape(Apply(s, e))
    ensures StreamIs(Apply(s, e))
  {
    var s', added := Apply(s, e), [];
    added := SendExtends(s, e);
    SendBreaksNothing(s, e);
    hide Apply, Shape, BaseOk, Stream, Meant, Plan.Frames;
    if Attached(s') {
      SendStream(s, s', added);
    }
  }

  lemma SendBreaksNothing(s: State, e: Event)
    requires Shape(s) && e.SendCall? && Enabled(s, e)
    ensures Apply(s, e).broken == s.broken
  {
  }

  lemma StreamIsSnapshot(s: State)
    requires Shape(s) && StageOk(s) && Conserved(s) && Enabled(s, TakeSnapshot)
    ensures Shape(Apply(s, TakeSnapshot)) && StreamIs(Apply(s, TakeSnapshot))
    ensures Meant(Apply(s, TakeSnapshot)) == s.sh.queue
  {
    hide Snapshot, Claim, HELLO_TEXT;
    var s' := Apply(s, TakeSnapshot);
    assert Meant(s') == s.sh.queue;
    assert s.wire[s.connector.conn] == [HelloFrame(s.connector.seqno)];
  }

  lemma StreamIsMissed(s: State)
    requires Shape(s) && Enabled(s, SyncFailed)
    ensures Shape(Apply(s, SyncFailed)) && StreamIs(Apply(s, SyncFailed))
  {
  }

  lemma StreamIsTake(s: State)
    requires Shape(s) && OneCurrent(s) && Enabled(s, WriterTake) && StreamIs(s)
    ensures Shape(Apply(s, WriterTake)) && StreamIs(Apply(s, WriterTake))
  {
    hide Plan.Frames;
    var s' := Apply(s, WriterTake);
    var f, rest := s.sh.queue[0], s.sh.queue[1..];
    assert s.sh.queue == [f] + rest;
    if Attached(s') {
      assert s.wire[s.connector.conn] + [] + s.sh.queue == s.wire[s.connector.conn] + [f] + rest;
      assert Stream(s') == Stream(s);
    }
  }

  lemma BrokenGrows(s: State, e: Event)
    requires Shape(s) && Enabled(s, e)
    ensures s.broken <= Apply(s, e).broken
  {
    hide Snapshot, DoSend, Claim, HELLO_TEXT;
    if e.SendCall? {
      SendBreaksNothing(s, e);
    }
  }

  lemma StreamIsOther(s: State, e: Event)
    requires Shape(s) && OneCurrent(s) && WriterApart(s) && StageOk(s) && Enabled(s, e) && StreamIs(s)
    requires !e.SendCall? && !e.TakeSnapshot? && !e.SyncFailed? && !e.WriterTake?
    ensures Shape(Apply(s, e)) && StreamIs(Apply(s, e))
  {
    StreamKept(s, e);
    BrokenGrows(s, e);
    PlannedBefore(s, e);
    hide Apply, Shape, OneCurrent, WriterApart, StageOk, Stream, Meant, Plan.Frames, Attached;
  }

  /** Between snapshots the plan of the connection being greeted or used stays as it is. */
  lemma PlannedBefore(s: State, e: Event)
    requires Shape(s) && Enabled(s, e) && !e.TakeSnapshot?
    ensures Planned(Apply(s, e)) ==> Planned(s) && Apply(s, e).connector.conn == s.connector.conn
    ensures Apply(s, e).plan == s.plan && s.sh.txSeq <= Apply(s, e).sh.txSeq
    ensures Planned(s) && (Apply(s, e).connector.Syncing? || Apply(s, e).connector.Exposed?) ==> Planned(Apply(s, e))
  {
    hide Snapshot, Claim, Cached, HELLO_TEXT, IsSticky;
  }

  lemma StreamIsStep(s: State, e: Event)
    requires Inv(s) && Enabled(s, e) && StreamIs(s)
    ensures Shape(Apply(s, e)) && StreamIs(Apply(s, e))
  {
    hide Apply, StreamIs, Enabled, TypesOk, AllOk, WiresOk, NumbersOrdered, GivenOk, CacheHeld, PlansHeld;
    hide Conserved, StageOk, BaseOk, WriterApart, PlansOk, CacheTyped, LostBroken;
    ShapeStep(s, e);
    match e
    case SendCall(_, _, _) => StreamIsSend(s, e);
    case TakeSnapshot => StreamIsSnapshot(s);
    case SyncFailed => StreamIsMissed(s);
    case WriterTake => StreamIsTake(s);
    case _ => StreamIsOther(s, e);
  }

  lemma QueuedFirstSend(s: State, e: Event)
    requires Shape(s) && BaseOk(s) && e.SendCall? && Enabled(s, e) && QueuedFirst(s)
    ensures QueuedFirst(Apply(s, e))
  {
    var added := SendExtends(s, e);
    PlannedBefore(s, e);
    hide Apply, Shape;
    var s' := Apply(s, e);
    assert Meant(s') == Meant(s) + added;
  }

  lemma QueuedFirstSnapshot(s: State)
    requires Shape(s) && StageOk(s) && Conserved(s) && NumbersOrdered(s) && Enabled(s, TakeSnapshot)
    ensures QueuedFirst(Apply(s, TakeSnapshot))
  {
    StreamIsSnapshot(s);
    QueueNumbered(s);
    hide Snapshot, Claim, HELLO_TEXT, Meant, NumbersOrdered, Conserved;
  }

  lemma QueueNumbered(s: State)
    requires Conserved(s) && NumbersOrdered(s)
    ensures forall i :: 0 <= i < |s.sh.queue| ==> s.sh.queue[i].seqno < s.sh.txSeq
  {
    hide Increasing;
    var k := |s.released| + |InFlight(s.writer)|;
    forall i | 0 <= i < |s.sh.queue|
      ensures s.sh.queue[i].seqno < s.sh.txSeq
    {
      assert s.accepted[k + i] == s.sh.queue[i];
    }
  }

  lemma QueuedFirstOther(s: State, e: Event)
    requires Shape(s) && OneCurrent(s) && Conserved(s) && BaseOk(s) && Enabled(s, e) && QueuedFirst(s)
    requires !e.SendCall? && !e.TakeSnapshot?
    ensures QueuedFirst(Apply(s, e))
  {
    BaseStep(s, e);
    PlannedBefore(s, e);
    NothingAccepted(s, e);
    hide Apply, Shape, Meant;
  }

  lemma NothingAccepted(s: State, e: Event)
    requires Shape(s) && Enabled(s, e) && !e.SendCall?
    ensures Apply(s, e).accepted == s.accepted
  {
    hide Snapshot, Claim, HELLO_TEXT;
  }

  lemma QueuedFirstStep(s: State, e: Event)
    requires Inv(s) && Enabled(s, e) && QueuedFirst(s)
    ensures QueuedFirst(Apply(s, e))
  {
    hide Apply, QueuedFirst, Enabled, TypesOk, AllOk, WiresOk, NumbersOrdered, GivenOk, CacheHeld, PlansHeld;
    hide Conserved, StageOk, BaseOk, WriterApart, PlansOk, CacheTyped, LostBroken;
    match e
    case SendCall(_, _, _) => QueuedFirstSend(s, e);
    case TakeSnapshot => QueuedFirstSnapshot(s);
    case _ => QueuedFirstOther(s, e);
  }

  lemma {:induction false} StreamOfRun(es: seq<Event>)
    requires Exec(es).Some?
    ensures StreamIs(Exec(es).value) && QueuedFirst(Exec(es).value)
  {
    hide Apply, Enabled, Inv, StreamIs, QueuedFirst;
    if es == [] {
      NothingStreams();
    } else {
      var before := es[..|es| - 1];
      StreamOfRun(before);
      EveryRun(before);
      StreamIsStep(Exec(before).value, es[|es| - 1]);
      QueuedFirstStep(Exec(before).value, es[|es| - 1]);
    }
  }

  lemma NothingStreams()
    ensures Shape(Init()) && StreamIs(Init()) && QueuedFirst(Init())
  {
  }

  /**
   The numbers a drained connection carried rise strictly exactly if its snapshot found nothing cached
   and nothing queued.
   */
  lemma NumbersRiseExactlyWhen(es: seq<Event>)
    requires Exec(es).Some? && Drained(Exec(es).value) && Exec(es).value.connector.conn !in Exec(es).value.broken
    ensures var s := Exec(es).value;
            var c := s.connector.conn;
            c in s.plan && (Rising(s.wire[c]) <==> NothingCached(s.plan[c].sh) && s.plan[c].sh.queue == [])
  {
    hide Inv;
    var s := Exec(es).value;
    var c := s.connector.conn;
    EveryRun(es);
    StreamOfRun(es);
    assert Stream(s) == s.wire[c];
    assert Intact(s, c);
    IntactWire(s, c);
    RisesExactlyWhen(s, c);
    CarriedMeant(s, c);
  }

  lemma CarriedMeant(s: State, c: nat)
    requires Planned(s) && QueuedFirst(s) && s.connector.conn == c && c < |s.wire|
    requires s.wire[c] == s.plan[c].Frames() + Meant(s)
    ensures var p, w := s.plan[c], s.wire[c];
            (forall k :: HandshakeEnd(p) <= k < |w| ==> w[k].seqno > p.sh.txSeq + 1) <==> p.sh.queue == []
  {
    hide Meant, Plan.Frames;
    var p, w := s.plan[c], s.wire[c];
    var n := HandshakeEnd(p);
    assert forall i :: 0 <= i < |Meant(s)| ==> w[n + i] == Meant(s)[i];
    if p.sh.queue != [] {
      assert Meant(s)[..|p.sh.queue|][0] == p.sh.queue[0];
      assert w[n + 0] == p.sh.queue[0];
    } else {
      assert forall k :: n <= k < |w| ==> w[k] == Meant(s)[k - n];
    }
  }

  /** On such a connection a queued frame that shares a replay's number was queued when the snapshot was taken. */
  lemma SharedWasQueued(es: seq<Event>, i: nat, j: nat)
    requires Exec(es).Some? && Drained(Exec(es).value) && Intact(Exec(es).value, Exec(es).value.connector.conn)
    requires Exec(es).value.plan[Exec(es).value.connector.conn].sh.Ok()
    requires i < j < |Exec(es).value.wire[Exec(es).value.connector.conn]|
    requires IsReplay(Exec(es).value.plan[Exec(es).value.connector.conn], i)
    requires j >= HandshakeEnd(Exec(es).value.plan[Exec(es).value.connector.conn])
    ensures var s := Exec(es).value;
            var w := s.wire[s.connector.conn];
            w[i].seqno == w[j].seqno ==> w[j] in s.plan[s.connector.conn].sh.queue
  {
    hide Inv;
    var s := Exec(es).value;
    var c := s.connector.conn;
    EveryRun(es);
    StreamOfRun(es);
    assert Stream(s) == s.wire[c];
    IntactWire(s, c);
    ReplayHolder(s, c, i);
    MeantAt(s, c, j);
  }

  lemma MeantAt(s: State, c: nat, j: nat)
    requires Planned(s) && QueuedFirst(s) && s.connector.conn == c && c < |s.wire|
    requires s.wire[c] == s.plan[c].Frames() + Meant(s) && HandshakeEnd(s.plan[c]) <= j < |s.wire[c]|
    ensures s.wire[c][j] in s.plan[c].sh.queue || s.wire[c][j].seqno > s.plan[c].sh.txSeq + 1
  {
    hide Meant, Plan.Frames;
    var queue, k := s.plan[c].sh.queue, j - HandshakeEnd(s.plan[c]);
    assert s.wire[c][j] == Meant(s)[k];
    if k < |queue| {
      assert Meant(s)[..|queue|][k] == queue[k];
    }
  }

  /** The snapshot of a connection records state and holders as they were after the run that led to it. */
  lemma PlanIsSnapshot(es: seq<Event>)
    requires Exec(es).Some? && Enabled(Exec(es).value, TakeSnapshot)
    ensures var s := Exec(es).value;
            && Apply(s, TakeSnapshot).plan[s.connector.conn] == Plan(s.connector.seqno, s.sh, HolderOf(es))
            && forall t :: 0 <= t < MAX_TYPES && s.sh.cache[t].Some? ==>
                 (HeldBy(Apply(s, TakeSnapshot).plan[s.connector.conn], t) == Nobody <==> RefusedSince(es, t))
  {
    hide Snapshot, Claim, HELLO_TEXT, HolderOf, Inv;
    HeldIsRight(es);
    EveryRun(es);
    NumbersKnown(Exec(es).value);
    var s := Exec(es).value;
    assert forall t :: 0 <= t < MAX_TYPES && s.sh.cache[t].Some? ==> HeldOk(s.sh, s.given, s.held, t);
  }

  /** And keeps doing so. */
  lemma PlanStaysSnapshot(es: seq<Event>, e: Event, c: nat)
    requires Exec(es).Some? && Enabled(Exec(es).value, e) && c in Exec(es).value.plan
    ensures c in Apply(Exec(es).value, e).plan && Apply(Exec(es).value, e).plan[c] == Exec(es).value.plan[c]
  {
    hide Inv, StageOk;
    EveryRun(es);
    InvStage(Exec(es).value);
    PlanNotAgain(Exec(es).value, e, c);
  }

  lemma InvStage(s: State)
    requires Inv(s)
    ensures Shape(s) && StageOk(s)
  {
  }

  lemma PlanNotAgain(s: State, e: Event, c: nat)
    requires Shape(s) && StageOk(s) && Enabled(s, e) && c in s.plan
    ensures c in Apply(s, e).plan && Apply(s, e).plan[c] == s.plan[c]
  {
    if e.TakeSnapshot? {
      hide Snapshot, Claim, HELLO_TEXT;
    } else {
      hide Apply;
      PlannedBefore(s, e);
    }
  }
}
