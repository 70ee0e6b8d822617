/** Runs of the bus on which a sticky payload does not arrive, or two frames share a number. */
module BusFailures {
  import opened Bits
  import opened BusFrame
  import opened Common
  import opened BusCore
  import opened BusProtocol
  import opened BusRuns

  const TYPE: nat := 16
  const OTHER: nat := 17

  /** Running one more event. */
  lemma Extend(es: seq<Event>, e: Event) returns (es': seq<Event>)
    requires Exec(es).Some? && Enabled(Exec(es).value, e)
    ensures es' == es + [e] && Exec(es') == Some(Apply(Exec(es).value, e))
    ensures Latest(es', TYPE) == if SendsOf(e, TYPE) then Some(Sent(e.payload, |Exec(es).value.sh.queue| < CAPACITY))
                                 else Latest(es, TYPE)
    ensures EverLoose(es', TYPE) <==>
            (SendsOf(e, TYPE) && !IsSticky(Exec(es).value.sh, TYPE, e.flags)) || EverLoose(es, TYPE)
  {
    hide Apply, Enabled;
    es' := es + [e];
    assert es'[..|es'| - 1] == es;
  }

  /** A connection is current and the writer rests. */
  ghost predicate Live(s: State) {
    s.connector.Exposed? && s.sh.current == Some(s.connector.conn) && s.writer.Idle?
  }

  /** Only TYPE is cached, and no type is sticky by itself. */
  ghost predicate Bare(sh: Shared, cached: Option<Frame>) {
    && sh.Ok() && sh.cache[TYPE] == cached
    && (forall i :: 0 <= i < MAX_TYPES && i != TYPE ==> sh.cache[i] == None)
    && (forall i :: 0 <= i < MAX_TYPES ==> !sh.sticky[i])
  }

  ghost predicate SameSends(s: State, s': State) {
    s'.sh.queue == s.sh.queue && s'.sh.cache == s.sh.cache && s'.sh.sticky == s.sh.sticky && s'.accepted == s.accepted
  }

  // ---- draining

  /** One take and one write move the front of the queue to the end of the connection. */
  lemma PassFrame(s: State)
    requires Shape(s) && Live(s) && s.sh.queue != []
    ensures Enabled(s, WriterTake) && Shape(Apply(s, WriterTake)) && Enabled(Apply(s, WriterTake), WriterSent)
    ensures var s' := Apply(Apply(s, WriterTake), WriterSent);
            && Shape(s') && Live(s') && Stream(s') == Stream(s) && s'.sh.queue == s.sh.queue[1..]
            && s'.sh.cache == s.sh.cache && s'.sh.sticky == s.sh.sticky
  {
    assert s.sh.queue == [s.sh.queue[0]] + s.sh.queue[1..];
  }

  /** A live connection can be drained, and then has carried exactly its stream. */
  lemma {:induction false} Drain(es: seq<Event>) returns (done: seq<Event>)
    requires Exec(es).Some? && Live(Exec(es).value)
    ensures Exec(done).Some? && Drained(Exec(done).value) && Live(Exec(done).value)
    ensures var s, d := Exec(es).value, Exec(done).value;
            && d.wire[d.connector.conn] == Stream(s) && Stream(d) == Stream(s)
            && d.sh.cache == s.sh.cache && d.sh.sticky == s.sh.sticky
    ensures Latest(done, TYPE) == Latest(es, TYPE) && EverLoose(done, TYPE) == EverLoose(es, TYPE)
    decreases |Exec(es).value.sh.queue|
  {
    var s := Exec(es).value;
    if s.sh.queue == [] {
      assert Stream(s) == s.wire[s.connector.conn];
      done := es;
    } else {
      hide Apply, Enabled, Stream;
      PassFrame(s);
      var es1 := Extend(es, WriterTake);
      var es2 := Extend(es1, WriterSent);
      done := Drain(es2);
    }
  }

  // ---- connecting

  /** The connector's steps change nothing that was sent. */
  lemma QuietStep(s: State, e: Event)
    requires Shape(s) && Enabled(s, e)
    requires e in {Connect, HelloNumber, HelloSent, TakeSnapshot, SyncSent, SyncFailed, Expose, PeerClosed}
    ensures SameSends(s, Apply(s, e)) && Apply(s, e).writer == s.writer
  {
    hide Snapshot;
  }

  lemma Quietly(es: seq<Event>, e: Event) returns (es': seq<Event>)
    requires Exec(es).Some? && Enabled(Exec(es).value, e)
    requires e in {Connect, HelloNumber, HelloSent, TakeSnapshot, SyncSent, SyncFailed, Expose, PeerClosed}
    ensures Exec(es') == Some(Apply(Exec(es).value, e)) && SameSends(Exec(es).value, Exec(es').value)
    ensures Exec(es').value.writer == Exec(es).value.writer
    ensures Latest(es', TYPE) == Latest(es, TYPE) && EverLoose(es', TYPE) == EverLoose(es, TYPE)
  {
    hide Apply, Enabled, SameSends, Exec, Latest, EverLoose;
    es' := Extend(es, e);
    QuietStep(Exec(es).value, e);
  }

  lemma BareSame(a: Shared, b: Shared, cached: Option<Frame>)
    requires Bare(a, cached) && b.Ok() && b.cache == a.cache && b.sticky == a.sticky
    ensures Bare(b, cached)
  {
  }

  lemma {:induction false} OnlyReplay(cache: seq<Option<Frame>>, n: nat)
    requires n <= |cache| == MAX_TYPES && forall i :: 0 <= i < MAX_TYPES && i != TYPE ==> cache[i] == None
    ensures Replays(cache, n) == if TYPE < n && cache[TYPE].Some?
                                 then [cache[TYPE].value.(flags := SetReplay(cache[TYPE].value.flags))] else []
  {
    if n > 0 {
      OnlyReplay(cache, n - 1);
    }
  }

  /** The frames of a handshake, with or without the replay. */
  ghost function Handshake(hello: nat, sh: Shared, cached: Option<Frame>, missed: bool): seq<Frame> {
    [HelloFrame(hello), Frame(SYNC_BEGIN, 0, sh.txSeq, [])]
    + (if cached.Some? && !missed then [cached.value.(flags := SetReplay(cached.value.flags))] else [])
    + [Frame(SYNC_END, 0, sh.txSeq + 1, [])]
  }

  /** A connection that has carried its HELLO only. */
  ghost predicate Hello(s: State) {
    && s.connector.Greeted? && s.writer.Idle? && s.connector.conn < |s.wire|
    && s.wire[s.connector.conn] == [HelloFrame(s.connector.seqno)]
  }

  lemma HelloSteps(s: State)
    requires Shape(s) && OneCurrent(s) && s.connector.Down? && s.writer.Idle?
    ensures Enabled(s, Connect) && Shape(Apply(s, Connect))
    ensures var a := Apply(s, Connect);
            Enabled(a, HelloNumber) && Shape(Apply(a, HelloNumber))
    ensures var b := Apply(Apply(s, Connect), HelloNumber);
            && Enabled(b, HelloSent) && Hello(Apply(b, HelloSent))
            && Apply(b, HelloSent).connector.seqno == s.sh.txSeq
  {
    hide HELLO_TEXT;
  }

  /** From no connection to one about to be sent its snapshot. */
  lemma SayHello(es: seq<Event>) returns (es': seq<Event>)
    requires Exec(es).Some? && Exec(es).value.connector.Down? && Exec(es).value.writer.Idle?
    ensures Exec(es').Some? && SameSends(Exec(es).value, Exec(es').value) && Hello(Exec(es').value)
    ensures Exec(es').value.connector.seqno == Exec(es).value.sh.txSeq
    ensures Latest(es', TYPE) == Latest(es, TYPE) && EverLoose(es', TYPE) == EverLoose(es, TYPE)
  {
    hide Exec, Apply, Enabled, Latest, EverLoose, Hello;
    HelloSteps(Exec(es).value);
    es' := Quietly(es, Connect);
    es' := Quietly(es', HelloNumber);
    es' := Quietly(es', HelloSent);
  }

  lemma SnapshotStep(s: State, cached: Option<Frame>)
    requires Shape(s) && Hello(s) && Bare(s.sh, cached)
    ensures Enabled(s, TakeSnapshot)
    ensures var s', h := Apply(s, TakeSnapshot), s.connector.seqno;
            && s'.connector.Syncing? && s'.wire == s.wire && s'.connector.conn == s.connector.conn
            && [HelloFrame(h)] + s'.connector.todo == Handshake(h, s.sh, cached, false)
  {
    hide HELLO_TEXT, Replays;
    OnlyReplay(s.sh.cache, MAX_TYPES);
  }

  lemma Snapshots(es: seq<Event>, cached: Option<Frame>) returns (es': seq<Event>, h: nat)
    requires Exec(es).Some? && Hello(Exec(es).value) && Bare(Exec(es).value.sh, cached)
    ensures Exec(es').Some? && SameSends(Exec(es).value, Exec(es').value) && Exec(es').value.writer.Idle?
    ensures Latest(es', TYPE) == Latest(es, TYPE) && EverLoose(es', TYPE) == EverLoose(es, TYPE)
    ensures var s' := Exec(es').value;
            && s'.connector.Syncing? && s'.wire[s'.connector.conn] == [HelloFrame(h)]
            && [HelloFrame(h)] + s'.connector.todo == Handshake(h, Exec(es).value.sh, cached, false)
    ensures h == Exec(es).value.connector.seqno
  {
    hide Exec, Apply, Enabled, Latest, EverLoose, SameSends, Handshake, Bare;
    SnapshotStep(Exec(es).value, cached);
    es' := Quietly(es, TakeSnapshot);
    h := Exec(es).value.connector.seqno;
  }

  /** One handshake frame written, or lost. */
  lemma OneSync(es: seq<Event>, missed: bool) returns (es': seq<Event>)
    requires Exec(es).Some? && Enabled(Exec(es).value, SyncSent)
    ensures Exec(es').Some? && SameSends(Exec(es).value, Exec(es').value)
    ensures Exec(es').value.writer == Exec(es).value.writer
    ensures Latest(es', TYPE) == Latest(es, TYPE) && EverLoose(es', TYPE) == EverLoose(es, TYPE)
    ensures var (s, s') := (Exec(es).value, Exec(es').value);
            var c := s.connector.conn;
            && s'.connector == Syncing(c, s.connector.todo[1..]) && c < |s'.wire|
            && s'.wire[c] == s.wire[c] + if missed then [] else [s.connector.todo[0]]
  {
    hide Exec, Latest, EverLoose, SameSends;
    es' := Quietly(es, if missed then SyncFailed else SyncSent);
  }

  lemma ExposeStep(s: State)
    requires Shape(s) && s.connector.Syncing? && s.connector.todo == [] && s.writer.Idle?
    ensures Enabled(s, Expose) && Shape(Apply(s, Expose))
    ensures Live(Apply(s, Expose)) && Stream(Apply(s, Expose)) == Stream(s)
  {
    assert s.wire[s.connector.conn] + [] == s.wire[s.connector.conn];
  }

  /** The rest of a handshake. */
  lemma {:induction false} FinishSync(es: seq<Event>) returns (es': seq<Event>)
    requires Exec(es).Some? && Exec(es).value.connector.Syncing? && Exec(es).value.writer.Idle?
    ensures Exec(es').Some? && SameSends(Exec(es).value, Exec(es').value) && Live(Exec(es').value)
    ensures Latest(es', TYPE) == Latest(es, TYPE) && EverLoose(es', TYPE) == EverLoose(es, TYPE)
    ensures Stream(Exec(es').value) == Stream(Exec(es).value)
    decreases |Exec(es).value.connector.todo|
  {
    hide Exec, Apply, Latest, EverLoose;
    var s := Exec(es).value;
    var c, todo := s.connector.conn, s.connector.todo;
    if todo == [] {
      hide Enabled, Stream;
      ExposeStep(s);
      es' := Quietly(es, Expose);
    } else {
      var next := OneSync(es, false);
      assert todo == [todo[0]] + todo[1..];
      assert s.wire[c] + [todo[0]] + todo[1..] == s.wire[c] + todo;
      es' := FinishSync(next);
    }
  }

  /** A connection is made and greeted; the write of its replay may fail. */
  lemma Attach(es: seq<Event>, cached: Option<Frame>, missed: bool) returns (es': seq<Event>, h: nat, sh: Shared)
    requires Exec(es).Some? && Exec(es).value.connector.Down? && Exec(es).value.writer.Idle?
    requires Bare(Exec(es).value.sh, cached) && (missed ==> cached.Some?)
    ensures Exec(es').Some? && SameSends(Exec(es).value, Exec(es').value) && Live(Exec(es').value)
    ensures Latest(es', TYPE) == Latest(es, TYPE) && EverLoose(es', TYPE) == EverLoose(es, TYPE)
    ensures Stream(Exec(es').value) == Handshake(h, sh, cached, missed) + Exec(es').value.sh.queue
    ensures h == Exec(es).value.sh.txSeq
  {
    hide Exec, Apply, Latest, EverLoose, Bare, HELLO_TEXT;
    var a := SayHello(es);
    BareSame(Exec(es).value.sh, Exec(a).value.sh, cached);
    sh := Exec(a).value.sh;
    var b;
    b, h := Snapshots(a, cached);
    var s := Exec(b).value;
    var c, todo := s.connector.conn, s.connector.todo;
    if missed {
      var all := Handshake(h, sh, cached, false);
      assert todo == all[1..] && |todo| == 3;
      b := OneSync(b, false);
      b := OneSync(b, true);
      assert [HelloFrame(h)] + [todo[0]] + [] + todo[1..][1..] == Handshake(h, sh, cached, true);
    }
    es' := FinishSync(b);
  }

  // ---- the runs

  lemma NothingSent()
    ensures Exec([]) == Some(Init()) && Bare(Init().sh, None) && !EverLoose([], TYPE) && Init().sh.queue == []
  {
  }

  /** n sticky sends of one payload while the writer is not scheduled. */
  lemma {:induction false} Fill(n: nat, p: seq<byte>) returns (es: seq<Event>, cached: Option<Frame>)
    requires n <= CAPACITY && |p| <= MAX_PAYLOAD
    ensures Exec(es).Some? && Live(Exec(es).value) && |Exec(es).value.sh.queue| == n && !EverLoose(es, TYPE)
    ensures Bare(Exec(es).value.sh, cached)
    ensures n > 0 ==> Carries(Stream(Exec(es).value), TYPE, p)
  {
    hide Exec, Latest, EverLoose, Bare, Apply, Enabled, Stream, Carries;
    if n == 0 {
      var h, sh;
      cached := None;
      NothingSent();
      es, h, sh := Attach([], None, false);
      BareSame(Init().sh, Exec(es).value.sh, None);
    } else {
      es, cached := Fill(n - 1, p);
      var before := Exec(es).value.sh;
      es := Accept(es, p);
      var f := Frame(TYPE, FLAG_STICKY, before.txSeq, p);
      BareAfter(before, cached, Exec(es).value.sh, f);
      cached := Some(f);
    }
  }

  /** A refused sticky send never reaches the live connection, which ends with the older payload. */
  lemma RejectedSendDiverges() returns (es: seq<Event>)
    ensures Exec(es).Some? && Drained(Exec(es).value) && !EverLoose(es, TYPE)
    ensures Latest(es, TYPE) == Some(Sent([1], false))
    ensures var s := Exec(es).value; Carries(s.wire[s.connector.conn], TYPE, [0])
  {
    hide Exec, Latest, Apply, Enabled, Stream, EverLoose, Bare, Carries;
    var cached;
    es, cached := Fill(CAPACITY, [0]);
    es := Refuse(es, [1]);
    es := Drain(es);
  }

  lemma SendStep(s: State, p: seq<byte>)
    requires Shape(s) && OneCurrent(s) && Live(s) && |p| <= MAX_PAYLOAD
    ensures var e := SendCall(TYPE, FLAG_STICKY, p);
            Enabled(s, e) && SendsOf(e, TYPE) && IsSticky(s.sh, TYPE, FLAG_STICKY) && Shape(Apply(s, e))
    ensures var s', f := Apply(s, SendCall(TYPE, FLAG_STICKY, p)), Frame(TYPE, FLAG_STICKY, s.sh.txSeq, p);
            && Live(s') && s'.sh.cache == s.sh.cache[TYPE := Some(f)] && s'.sh.sticky == s.sh.sticky
            && (if |s.sh.queue| < CAPACITY then Stream(s') == Stream(s) + [f] && s'.sh.queue == s.sh.queue + [f]
                else Stream(s') == Stream(s) && s'.sh == s.sh.(cache := s'.sh.cache))
  {
    hide Snapshot;
  }

  /** A sticky send that finds the queue full. */
  lemma Refuse(es: seq<Event>, p: seq<byte>) returns (es': seq<Event>)
    requires Exec(es).Some? && Live(Exec(es).value) && |Exec(es).value.sh.queue| == CAPACITY && |p| <= MAX_PAYLOAD
    ensures Exec(es').Some? && Live(Exec(es').value) && Stream(Exec(es').value) == Stream(Exec(es).value)
    ensures Latest(es', TYPE) == Some(Sent(p, false)) && (EverLoose(es', TYPE) <==> EverLoose(es, TYPE))
    ensures var (a, b) := (Exec(es).value.sh, Exec(es').value.sh);
            b == a.(cache := a.cache[TYPE := Some(Frame(TYPE, FLAG_STICKY, a.txSeq, p))])
  {
    hide Exec, Apply, Enabled, Latest, EverLoose, Stream, SendsOf, IsSticky;
    SendStep(Exec(es).value, p);
    es' := Extend(es, SendCall(TYPE, FLAG_STICKY, p));
  }

  /** A sticky send that finds room is what the connection will carry last. */
  lemma Accept(es: seq<Event>, p: seq<byte>) returns (es': seq<Event>)
    requires Exec(es).Some? && Live(Exec(es).value) && |Exec(es).value.sh.queue| < CAPACITY && |p| <= MAX_PAYLOAD
    ensures Exec(es').Some? && Live(Exec(es').value) && Carries(Stream(Exec(es').value), TYPE, p)
    ensures Latest(es', TYPE) == Some(Sent(p, true)) && (EverLoose(es', TYPE) <==> EverLoose(es, TYPE))
    ensures var (a, b) := (Exec(es).value.sh, Exec(es').value.sh);
            && b.cache == a.cache[TYPE := Some(Frame(TYPE, FLAG_STICKY, a.txSeq, p))] && b.sticky == a.sticky
            && b.queue == a.queue + [Frame(TYPE, FLAG_STICKY, a.txSeq, p)]
  {
    hide Exec, Apply, Enabled, Latest, EverLoose, Stream, SendsOf, IsSticky, LastOf;
    var s := Exec(es).value;
    var f := Frame(TYPE, FLAG_STICKY, s.sh.txSeq, p);
    SendStep(s, p);
    es' := Extend(es, SendCall(TYPE, FLAG_STICKY, p));
    OneFrame(f, TYPE);
    LastOfConcat(Stream(s), [f], TYPE);
  }

  /**
   A sticky payload that was queued and even delivered once never reaches the connection made next,
   because the write of its replay failed and nobody looked: that connection is exposed, current and
   drained without a frame of the type.
   */
  lemma LostReplayDiverges() returns (es: seq<Event>)
    ensures Exec(es).Some? && Drained(Exec(es).value) && !EverLoose(es, TYPE)
    ensures Latest(es, TYPE) == Some(Sent([1], true))
    ensures var s := Exec(es).value; LastOf(s.wire[s.connector.conn], TYPE).None?
  {
    hide Exec, Latest, Apply, Enabled, Stream, LastOf, EverLoose, Bare, Handshake;
    var h, sh, cached;
    es, cached := Fill(0, []);
    var before := Exec(es).value.sh;
    es := Accept(es, [1]);
    BareAfter(before, cached, Exec(es).value.sh, Frame(TYPE, FLAG_STICKY, before.txSeq, [1]));
    cached := Some(Frame(TYPE, FLAG_STICKY, before.txSeq, [1]));
    var sent := Exec(es).value.sh;
    es := Drain(es);
    BareSame(sent, Exec(es).value.sh, cached);
    var on := Exec(es).value.sh;
    es := HangUp(es);
    BareSame(on, Exec(es).value.sh, cached);
    es, h, sh := Attach(es, cached, true);
    NoTypeIn(h, sh, cached);
    es := Drain(es);
  }

  lemma BareAfter(a: Shared, cached: Option<Frame>, b: Shared, f: Frame)
    requires Bare(a, cached) && b.Ok() && b.cache == a.cache[TYPE := Some(f)] && b.sticky == a.sticky
    ensures Bare(b, Some(f))
  {
  }

  lemma HangUpStep(s: State)
    requires Shape(s) && Live(s)
    ensures Enabled(s, PeerClosed) && Shape(Apply(s, PeerClosed)) && Apply(s, PeerClosed).connector.Down?
    ensures Apply(s, PeerClosed).sh.txSeq == s.sh.txSeq
  {
  }

  lemma HangUp(es: seq<Event>) returns (es': seq<Event>)
    requires Exec(es).Some? && Live(Exec(es).value)
    ensures Exec(es').Some? && SameSends(Exec(es).value, Exec(es').value)
    ensures Exec(es').value.connector.Down? && Exec(es').value.writer.Idle? && Exec(es').value.sh.Ok()
    ensures Exec(es').value.sh.txSeq == Exec(es).value.sh.txSeq
    ensures Latest(es', TYPE) == Latest(es, TYPE) && EverLoose(es', TYPE) == EverLoose(es, TYPE)
  {
    hide Exec, Apply, Enabled, Latest, EverLoose;
    HangUpStep(Exec(es).value);
    es' := Quietly(es, PeerClosed);
  }

  lemma NoTypeIn(h: nat, sh: Shared, cached: Option<Frame>)
    ensures LastOf(Handshake(h, sh, cached, true) + [], TYPE).None?
  {
    var a, b, c := HelloFrame(h), Frame(SYNC_BEGIN, 0, sh.txSeq, []), Frame(SYNC_END, 0, sh.txSeq + 1, []);
    hide LastOf, HELLO_TEXT;
    OneFrame(a, TYPE);
    OneFrame(b, TYPE);
    OneFrame(c, TYPE);
    LastOfConcat([a], [b], TYPE);
    LastOfConcat([a] + [b], [c], TYPE);
    assert Handshake(h, sh, cached, true) + [] == [a] + [b] + [c];
  }

  lemma TakeItsPlaceSteps(s: State)
    requires Shape(s) && Live(s) && |s.sh.queue| == CAPACITY && !s.sh.sticky[OTHER]
    ensures Enabled(s, WriterTake) && Shape(Apply(s, WriterTake))
    ensures var a, e := Apply(s, WriterTake), SendCall(OTHER, 0, []);
            Enabled(a, e) && Shape(Apply(a, e)) && Enabled(Apply(a, e), WriterSent)
    ensures var b := Apply(Apply(Apply(s, WriterTake), SendCall(OTHER, 0, [])), WriterSent);
            && Live(b) && b.sh.cache == s.sh.cache && b.sh.sticky == s.sh.sticky
            && b.sh.queue == s.sh.queue[1..] + [Frame(OTHER, 0, s.sh.txSeq, [])]
  {
    hide Snapshot;
  }

  /** The writer makes room and another send takes it, with the number the refused send handed back. */
  lemma TakeItsPlace(es: seq<Event>) returns (es': seq<Event>)
    requires Exec(es).Some? && Live(Exec(es).value) && |Exec(es).value.sh.queue| == CAPACITY
    requires !Exec(es).value.sh.sticky[OTHER]
    ensures Exec(es').Some? && Live(Exec(es').value)
    ensures var (a, b) := (Exec(es).value.sh, Exec(es').value.sh);
            && b.cache == a.cache && b.sticky == a.sticky
            && b.queue == a.queue[1..] + [Frame(OTHER, 0, a.txSeq, [])]
  {
    hide Exec, Apply, Enabled, Latest, EverLoose;
    TakeItsPlaceSteps(Exec(es).value);
    es' := Extend(es, WriterTake);
    es' := Extend(es', SendCall(OTHER, 0, []));
    es' := Extend(es', WriterSent);
  }

  /** One connection carries two frames under one number: the replay of a refused send and a frame accepted later. */
  lemma TwoFramesOneNumber() returns (es: seq<Event>, f: Frame, g: Frame)
    ensures Exec(es).Some? && Drained(Exec(es).value)
    ensures var w := Exec(es).value.wire[Exec(es).value.connector.conn];
            f in w && g in w && f.seqno == g.seqno && f.typ == TYPE && g.typ == OTHER
  {
    hide Exec, Latest, Apply, Enabled, Stream, LastOf, EverLoose, Bare, Handshake;
    var h, sh, cached;
    es, cached := Fill(CAPACITY, [0]);
    var before := Exec(es).value.sh;
    es := Refuse(es, [1]);
    f, g := Frame(TYPE, FLAG_STICKY, before.txSeq, [1]), Frame(OTHER, 0, before.txSeq, []);
    var refused := Exec(es).value.sh;
    BareAfter(before, cached, refused, f);
    es := TakeItsPlace(es);
    es := HangUp(es);
    BareSame(refused, Exec(es).value.sh, Some(f));
    var queue := Exec(es).value.sh.queue;
    es, h, sh := Attach(es, Some(f), false);
    f := f.(flags := SetReplay(f.flags));
    Within(h, sh, Some(Frame(TYPE, FLAG_STICKY, before.txSeq, [1])), queue, f, g);
    es := Drain(es);
  }

  lemma Within(h: nat, sh: Shared, cached: Option<Frame>, queue: seq<Frame>, f: Frame, g: Frame)
    requires cached.Some? && f == cached.value.(flags := SetReplay(cached.value.flags))
    requires queue != [] && queue[|queue| - 1] == g
    ensures f in Handshake(h, sh, cached, false) + queue && g in Handshake(h, sh, cached, false) + queue
  {
    var w := Handshake(h, sh, cached, false) + queue;
    assert w[2] == f && w[|w| - 1] == g;
  }

  /** A replay has the number of its connection's HELLO, which took what the refused send had handed back. */
  lemma ReplayUnderHello() returns (es: seq<Event>, f: Frame)
    ensures Exec(es).Some? && Drained(Exec(es).value)
    ensures var w := Exec(es).value.wire[Exec(es).value.connector.conn];
            f in w && f.typ == TYPE && |w| > 0 && w[0] == HelloFrame(f.seqno)
  {
    hide Exec, Latest, Apply, Enabled, Stream, LastOf, EverLoose, Bare, Handshake, HELLO_TEXT;
    var h, sh, cached;
    es, cached := Fill(CAPACITY, [0]);
    var before := Exec(es).value.sh;
    es := Refuse(es, [1]);
    var refused := Exec(es).value.sh;
    var g := Frame(TYPE, FLAG_STICKY, before.txSeq, [1]);
    BareAfter(before, cached, refused, g);
    es := HangUp(es);
    BareSame(refused, Exec(es).value.sh, Some(g));
    var queue := Exec(es).value.sh.queue;
    es, h, sh := Attach(es, Some(g), false);
    f := g.(flags := SetReplay(g.flags));
    StartsWithHello(h, sh, g, queue);
    es := Drain(es);
  }

  lemma StartsWithHello(h: nat, sh: Shared, g: Frame, queue: seq<Frame>)
    ensures var w := Handshake(h, sh, Some(g), false) + queue;
            |w| > 0 && w[0] == HelloFrame(h) && g.(flags := SetReplay(g.flags)) in w
  {
    var w := Handshake(h, sh, Some(g), false) + queue;
    assert w[2] == g.(flags := SetReplay(g.flags));
  }

  /** A sticky frame still queued when a connection is greeted is replayed and then sent under the same number. */
  lemma SentTwice() returns (es: seq<Event>, f: Frame, g: Frame)
    ensures Exec(es).Some? && Drained(Exec(es).value)
    ensures var w := Exec(es).value.wire[Exec(es).value.connector.conn];
            f in w && g in w && f != g && f == g.(flags := SetReplay(g.flags))
  {
    hide Exec, Latest, Apply, Enabled, Stream, LastOf, EverLoose, Bare, Handshake;
    var h, sh, cached;
    es, cached := Fill(0, []);
    var before := Exec(es).value.sh;
    es := Accept(es, [1]);
    var sent := Exec(es).value.sh;
    g := Frame(TYPE, FLAG_STICKY, before.txSeq, [1]);
    BareAfter(before, cached, sent, g);
    es := HangUp(es);
    BareSame(sent, Exec(es).value.sh, Some(g));
    var queue := Exec(es).value.sh.queue;
    es, h, sh := Attach(es, Some(g), false);
    f := g.(flags := SetReplay(g.flags));
    Within(h, sh, Some(g), queue, f, g);
    es := Drain(es);
  }
}
