/**
 The bus as a state machine: any number of senders, the writer thread and the connector thread,
 interleaved at the boundaries of their critical sections and of their frame writes.  Connections
 are numbered as they are made.
 */
module BusProtocol {
  import opened Bits
  import opened BusFrame
  import opened Common
  import opened BusCore

  datatype Writer = Idle | Sending(f: Frame, conn: nat) | SendFailed(f: Frame, conn: nat)

  datatype Connector =
    | Down
    | Connected(conn: nat)
    | HelloReady(conn: nat, seqno: nat)
    | Greeted(conn: nat, seqno: nat)
    | Syncing(conn: nat, todo: seq<Frame>)
    | Exposed(conn: nat)

  /** What a number was given to: a frame the queue accepted, or a handshake frame of a connection. */
  datatype Holder = Nobody | Queued(f: Frame) | Direct(conn: nat, f: Frame)

  /** The handshake of a connection: the number of its HELLO, and state and number holders at its snapshot. */
  datatype Plan = Plan(hello: nat, sh: Shared, held: map<nat, Holder>) {
    /** HELLO, SYNC_BEGIN, one replay per cached type in type order, SYNC_END. */
    ghost function Frames(): seq<Frame>
      requires sh.Ok()
    {
      [HelloFrame(hello)] + Snapshot(sh)
    }
  }

  datatype Sent = Sent(payload: seq<byte>, accepted: bool)

  /**
   wire[c] is what connection c has carried.  The rest is history for stating properties: the
   connections on which a write failed, the handshake planned for each connection, the frames the
   queue accepted, those whose payload was freed, every number given out for good, the latest send
   of each type, the types that were ever sent without being sticky, how many frames were accepted
   too early to reach the connection last greeted, the types of the handshake frames it missed, what
   each number was given to, and for each cached frame what has its number.
   */
  datatype State = State(
    sh: Shared, writer: Writer, connector: Connector, wire: seq<seq<Frame>>,
    broken: set<nat>, plan: map<nat, Plan>, accepted: seq<Frame>, released: seq<Frame>,
    numbers: seq<nat>, last: map<nat, Sent>, mixed: set<nat>, base: nat, lost: set<nat>,
    given: map<nat, Holder>, held: map<nat, Holder>)

  datatype Event =
    | SendCall(typ: nat, flags: nat, payload: seq<byte>)
    | SetSticky(typ: nat, on: bool)
    | WriterTake | WriterSent | WriterFailed | WriterDrop
    | Connect | HelloNumber | HelloSent | HelloFailed
    | TakeSnapshot | SyncSent | SyncFailed
    | Expose | NoticeLost | PeerClosed

  const HELLO_TEXT: seq<byte> :=
    [118, 101, 114, 58, 110, 58, 49, 10, 112, 114, 111, 116, 111, 58, 115, 58,
     99, 97, 114, 112, 108, 97, 121, 95, 98, 117, 115, 10]

  function HelloFrame(n: nat): Frame {
    Frame(HELLO, 0, n, HELLO_TEXT)
  }

  function Init(): State {
    State(Shared([], 1, None, seq(MAX_TYPES, _ => None), seq(MAX_TYPES, _ => false)),
          Idle, Down, [], {}, map[], [], [], [], map[], {}, 0, {}, map[], map[])
  }

  function InFlight(w: Writer): seq<Frame> {
    if w.Idle? then [] else [w.f]
  }

  function Put(wire: seq<seq<Frame>>, c: nat, f: Frame): seq<seq<Frame>>
    requires c < |wire|
  {
    wire[c := wire[c] + [f]]
  }

  ghost predicate Shape(s: State) {
    && s.sh.Ok()
    && (!s.connector.Down? ==> s.connector.conn < |s.wire|)
    && (!s.writer.Idle? ==> s.writer.conn < |s.wire|)
    && (forall c :: c in s.broken ==> c < |s.wire|)
  }

  ghost predicate Enabled(s: State, e: Event)
    requires Shape(s)
  {
    match e
    case SendCall(_, flags, _) => flags < 256
    case SetSticky(t, _) => t < MAX_TYPES
    case WriterTake => s.writer.Idle? && s.sh.queue != [] && s.sh.current.Some? && s.sh.current.value < |s.wire|
    case WriterSent => s.writer.Sending?
    case WriterFailed => s.writer.Sending?
    case WriterDrop => s.writer.SendFailed?
    case Connect => s.connector.Down?
    case HelloNumber => s.connector.Connected?
    case HelloSent => s.connector.HelloReady?
    case HelloFailed => s.connector.HelloReady?
    case TakeSnapshot => s.connector.Greeted?
    case SyncSent => s.connector.Syncing? && s.connector.todo != []
    case SyncFailed => s.connector.Syncing? && s.connector.todo != []
    case Expose => s.connector.Syncing? && s.connector.todo == []
    case NoticeLost => s.connector.Exposed? && s.sh.current != Some(s.connector.conn)
    case PeerClosed => s.connector.Exposed?
  }

  /** A number that was handed back goes to whoever is numbered next. */
  function Claim(held: map<nat, Holder>, h: Holder): map<nat, Holder> {
    map t | t in held :: if held[t] == Nobody then h else held[t]
  }

  function Cached(held: map<nat, Holder>, typ: nat, sticky: bool, h: Holder): map<nat, Holder> {
    if sticky then held[typ := h] else held
  }

  function BeginFrame(n: nat): Frame {
    Frame(SYNC_BEGIN, 0, n, [])
  }

  function EndFrame(n: nat): Frame {
    Frame(SYNC_END, 0, n, [])
  }

  function DoSend(s: State, typ: nat, flags: nat, payload: seq<byte>): State
    requires s.sh.Ok()
  {
    if BadSend(typ, payload) then s
    else
      var (sh, r) := Send(s.sh, typ, flags, payload);
      var f := Frame(typ, flags, s.sh.txSeq, payload);
      var s' := s.(sh := sh, last := s.last[typ := Sent(payload, r.Accepted?)],
                   mixed := if IsSticky(s.sh, typ, flags) then s.mixed else s.mixed + {typ});
      var sticky := IsSticky(s.sh, typ, flags);
      if r.Accepted? then
        s'.(accepted := s.accepted + [f], numbers := s.numbers + [s.sh.txSeq],
            given := s.given[s.sh.txSeq := Queued(f)], held := Cached(Claim(s.held, Queued(f)), typ, sticky, Queued(f)))
      else s'.(held := Cached(s.held, typ, sticky, Nobody))
  }

  /** Forget the current connection if it is c. */
  function Close(sh: Shared, c: nat): Shared {
    if sh.current == Some(c) then sh.(current := None) else sh
  }

  ghost function Apply(s: State, e: Event): State
    requires Shape(s) && Enabled(s, e)
  {
    match e
    case SendCall(t, flags, payload) => DoSend(s, t, flags, payload)
    case SetSticky(t, on) => s.(sh := s.sh.(sticky := s.sh.sticky[t := on]))
    case WriterTake =>
      s.(sh := s.sh.(queue := s.sh.queue[1..]), writer := Sending(s.sh.queue[0], s.sh.current.value))
    case WriterSent =>
      s.(wire := Put(s.wire, s.writer.conn, s.writer.f), released := s.released + [s.writer.f], writer := Idle)
    case WriterFailed =>
      s.(broken := s.broken + {s.writer.conn}, writer := SendFailed(s.writer.f, s.writer.conn))
    case WriterDrop =>
      s.(sh := Close(s.sh, s.writer.conn), released := s.released + [s.writer.f], writer := Idle)
    case Connect =>
      s.(connector := Connected(|s.wire|), wire := s.wire + [[]])
    case HelloNumber =>
      var hello := Direct(s.connector.conn, HelloFrame(s.sh.txSeq));
      s.(connector := HelloReady(s.connector.conn, s.sh.txSeq), numbers := s.numbers + [s.sh.txSeq],
         given := s.given[s.sh.txSeq := hello], held := Claim(s.held, hello),
         sh := s.sh.(txSeq := s.sh.txSeq + 1))
    case HelloSent =>
      s.(connector := Greeted(s.connector.conn, s.connector.seqno),
         wire := Put(s.wire, s.connector.conn, HelloFrame(s.connector.seqno)))
    case HelloFailed =>
      s.(connector := Down, broken := s.broken + {s.connector.conn})
    case TakeSnapshot =>
      var c, begin, end := s.connector.conn, BeginFrame(s.sh.txSeq), EndFrame(s.sh.txSeq + 1);
      s.(connector := Syncing(c, Snapshot(s.sh)), plan := s.plan[c := Plan(s.connector.seqno, s.sh, s.held)],
         base := |s.released| + |InFlight(s.writer)|, lost := {},
         given := s.given[begin.seqno := Direct(c, begin)][end.seqno := Direct(c, end)],
         held := Claim(s.held, Direct(c, begin)),
         numbers := s.numbers + [s.sh.txSeq, s.sh.txSeq + 1], sh := s.sh.(txSeq := s.sh.txSeq + 2))
    case SyncSent =>
      s.(connector := Syncing(s.connector.conn, s.connector.todo[1..]),
         wire := Put(s.wire, s.connector.conn, s.connector.todo[0]))
    case SyncFailed =>  // the result of the write is not looked at
      s.(connector := Syncing(s.connector.conn, s.connector.todo[1..]), broken := s.broken + {s.connector.conn},
         lost := s.lost + {s.connector.todo[0].typ})
    case Expose =>
      s.(connector := Exposed(s.connector.conn), sh := s.sh.(current := Some(s.connector.conn)))
    case NoticeLost => s.(connector := Down)
    case PeerClosed => s.(connector := Down, sh := Close(s.sh, s.connector.conn))
  }

  // ---- invariants

  /** A connection is current only between being exposed and being given up. */
  ghost predicate OneCurrent(s: State) {
    s.sh.current.Some? ==> s.connector == Exposed(s.sh.current.value)
  }

  /** Frames leave in the order they were accepted, and each is freed once, after its turn. */
  ghost predicate Conserved(s: State) {
    s.accepted == s.released + InFlight(s.writer) + s.sh.queue
  }

  ghost predicate Increasing(ns: seq<nat>) {
    forall i, j :: 0 <= i < j < |ns| ==> ns[i] < ns[j]
  }

  ghost predicate NumbersOrdered(s: State) {
    && Increasing(s.numbers) && (forall i :: 0 <= i < |s.numbers| ==> s.numbers[i] < s.sh.txSeq)
    && (forall i :: 0 <= i < |s.accepted| ==> s.accepted[i].seqno in s.numbers)
    && (forall i, j :: 0 <= i < j < |s.accepted| ==> s.accepted[i].seqno < s.accepted[j].seqno)
  }

  lemma ShapeStep(s: State, e: Event)
    requires Shape(s) && OneCurrent(s) && Enabled(s, e)
    ensures Shape(Apply(s, e)) && OneCurrent(Apply(s, e))
    ensures e.Expose? ==> s.sh.current == None  // so no stale connection is ever replaced
  {
  }

  lemma ConservedStep(s: State, e: Event)
    requires Shape(s) && Conserved(s) && Enabled(s, e)
    ensures Conserved(Apply(s, e))
  {
    if e.WriterTake? {
      assert s.sh.queue == [s.sh.queue[0]] + s.sh.queue[1..];
    }
  }

  /** A step gives out the next numbers, or none, and an accepted frame has the number given out for it. */
  lemma NumbersGiven(s: State, e: Event) returns (given: seq<nat>, added: seq<Frame>)
    requires Shape(s) && Enabled(s, e)
    ensures var s' := Apply(s, e);
            s'.numbers == s.numbers + given && s'.sh.txSeq == s.sh.txSeq + |given| && s'.accepted == s.accepted + added
    ensures |given| <= 2 && forall i :: 0 <= i < |given| ==> given[i] == s.sh.txSeq + i
    ensures added != [] ==> |added| == 1 && added[0].seqno == s.sh.txSeq && given != []
  {
    hide Snapshot, HELLO_TEXT;
    var s' := Apply(s, e);
    given, added := s'.numbers[|s.numbers|..], s'.accepted[|s.accepted|..];
  }

  lemma NumbersStep(s: State, e: Event)
    requires Shape(s) && NumbersOrdered(s) && Enabled(s, e)
    ensures NumbersOrdered(Apply(s, e))
  {
    hide Apply, Enabled, Shape;
    var s' := Apply(s, e);
    var given, added := NumbersGiven(s, e);
    assert forall n :: n in s.numbers ==> n in s'.numbers;
    if added != [] {
      assert s'.numbers[|s.numbers|] == added[0].seqno;
    }
  }

  /** A number given out was never given out before, though a cached frame whose send was refused may carry it. */
  lemma NumberFresh(s: State)
    requires NumbersOrdered(s)
    ensures s.sh.txSeq !in s.numbers && s.sh.txSeq + 1 !in s.numbers
    ensures forall f :: f in s.accepted ==> f.seqno != s.sh.txSeq
  {
  }

  // ---- what a connection carries

  ghost predicate Syncs(s: State, c: nat) {
    s.connector.Syncing? && s.connector.conn == c
  }

  /** How far the connector has got with its own connection. */
  ghost predicate StageOk(s: State)
    requires Shape(s)
  {
    match s.connector
    case Down => true
    case Connected(c) => c !in s.plan && c !in s.broken && s.wire[c] == []
    case HelloReady(c, n) => c !in s.plan && c !in s.broken && s.wire[c] == [] && n in s.numbers
    case Greeted(c, n) => c !in s.plan && c !in s.broken && s.wire[c] == [HelloFrame(n)] && n in s.numbers
    case Syncing(c, todo) =>
      c in s.plan && s.plan[c].sh.Ok() && (c !in s.broken ==> s.wire[c] + todo == s.plan[c].Frames())
    case Exposed(c) => c in s.plan
  }

  ghost predicate PlanOk(p: Plan, numbers: seq<nat>) {
    p.sh.Ok() && p.hello in numbers && p.sh.txSeq in numbers && p.sh.txSeq + 1 in numbers
  }

  ghost predicate PlansOk(s: State) {
    forall c :: c in s.plan ==> c < |s.wire| && PlanOk(s.plan[c], s.numbers)
  }

  /** The writer never writes to a connection that is still being greeted. */
  ghost predicate WriterApart(s: State) {
    !s.writer.Idle? ==> s.writer.conn in s.plan && !Syncs(s, s.writer.conn)
  }

  /** Frames that have left the queue, in queue order. */
  ghost predicate LiveOk(s: State, live: seq<Frame>) {
    && (forall i :: 0 <= i < |live| ==> live[i] in s.released)
    && (forall i, j :: 0 <= i < j < |live| ==> live[i].seqno < live[j].seqno)
  }

  /** The wire grammar: the whole handshake, then queued frames only. */
  ghost predicate WireOk(s: State, c: nat)
    requires c < |s.wire| && c in s.plan && s.plan[c].sh.Ok()
  {
    var hs := s.plan[c].Frames();
    |hs| <= |s.wire[c]| && s.wire[c][..|hs|] == hs && LiveOk(s, s.wire[c][|hs|..])
  }

  ghost predicate WiresOk(s: State)
    requires PlansOk(s)
  {
    forall c :: c in s.plan && c !in s.broken && !Syncs(s, c) ==> WireOk(s, c)
  }

  lemma NumbersGrow(s: State, e: Event)
    requires Shape(s) && Enabled(s, e)
    ensures forall n :: n in s.numbers ==> n in Apply(s, e).numbers
    ensures e.HelloNumber? ==> s.sh.txSeq in Apply(s, e).numbers
    ensures e.TakeSnapshot? ==> s.sh.txSeq in Apply(s, e).numbers && s.sh.txSeq + 1 in Apply(s, e).numbers
  {
    var s' := Apply(s, e);
    if e.HelloNumber? || e.TakeSnapshot? {
      assert s'.numbers[|s.numbers|] == s.sh.txSeq;
    }
    if e.TakeSnapshot? {
      assert s'.numbers[|s.numbers| + 1] == s.sh.txSeq + 1;
    }
  }

  /** What the connector's own steps do to its stage, */
  lemma ConnectorStage(s: State, e: Event)
    requires Shape(s) && StageOk(s) && PlansOk(s) && Enabled(s, e)
    requires e in {Connect, HelloNumber, HelloSent, HelloFailed, TakeSnapshot} || e in {Expose, NoticeLost, PeerClosed}
    requires Shape(Apply(s, e))
    ensures StageOk(Apply(s, e))
  {
    hide Snapshot, HELLO_TEXT;
    NumbersGrow(s, e);
  }

  lemma SyncStage(s: State, e: Event)
    requires Shape(s) && StageOk(s) && Enabled(s, e) && (e.SyncSent? || e.SyncFailed?)
    requires Shape(Apply(s, e))
    ensures StageOk(Apply(s, e))
  {
    hide Snapshot, HELLO_TEXT;
    var c, todo := s.connector.conn, s.connector.todo;
    assert todo == [todo[0]] + todo[1..];
    assert s.wire[c] + [todo[0]] + todo[1..] == s.wire[c] + todo;
  }

  /** and that other steps do nothing to it. */
  lemma StageStep(s: State, e: Event)
    requires Shape(s) && StageOk(s) && WriterApart(s) && Enabled(s, e) && PlansOk(s)
    requires Shape(Apply(s, e))
    ensures StageOk(Apply(s, e))
  {
    hide Apply, StageOk, PlansOk, WriterApart, Enabled, Shape;
    match e
    case SendCall(_, _, _) => OtherStage(s, e);
    case SetSticky(_, _) => OtherStage(s, e);
    case WriterTake => OtherStage(s, e);
    case WriterSent => OtherStage(s, e);
    case WriterFailed => OtherStage(s, e);
    case WriterDrop => OtherStage(s, e);
    case SyncSent => SyncStage(s, e);
    case SyncFailed => SyncStage(s, e);
    case _ => ConnectorStage(s, e);
  }

  lemma OtherStage(s: State, e: Event)
    requires Shape(s) && StageOk(s) && WriterApart(s) && Enabled(s, e) && PlansOk(s)
    requires e.SendCall? || e in {WriterTake, WriterSent, WriterFailed, WriterDrop} || e.SetSticky?
    requires Shape(Apply(s, e))
    ensures StageOk(Apply(s, e))
  {
    hide Snapshot, HELLO_TEXT, Replays;
    NumbersGrow(s, e);
  }

  lemma PlansStep(s: State, e: Event)
    requires Shape(s) && StageOk(s) && PlansOk(s) && Enabled(s, e)
    ensures PlansOk(Apply(s, e))
  {
    hide Snapshot, HELLO_TEXT, DoSend, Claim, PlanOk;
    NumbersGrow(s, e);
    if e.SendCall? {
      var _ := SendExtends(s, e);
    }
    forall c | c in Apply(s, e).plan
      ensures c < |Apply(s, e).wire| && PlanOk(Apply(s, e).plan[c], Apply(s, e).numbers)
    {
      if e.TakeSnapshot? && c == s.connector.conn {
        NewPlanOk(s);
      } else {
        PlanStillOk(s.plan[c], s.numbers, Apply(s, e).numbers);
      }
    }
  }

  lemma NewPlanOk(s: State)
    requires Shape(s) && StageOk(s) && Enabled(s, TakeSnapshot)
    ensures PlanOk(Apply(s, TakeSnapshot).plan[s.connector.conn], Apply(s, TakeSnapshot).numbers)
  {
    hide Snapshot, HELLO_TEXT, Claim;
    NumbersGrow(s, TakeSnapshot);
  }

  lemma PlanStillOk(p: Plan, a: seq<nat>, b: seq<nat>)
    requires PlanOk(p, a) && forall n :: n in a ==> n in b
    ensures PlanOk(p, b)
  {
  }

  lemma WriterApartStep(s: State, e: Event)
    requires Shape(s) && OneCurrent(s) && StageOk(s) && WriterApart(s) && Enabled(s, e)
    ensures WriterApart(Apply(s, e))
  {
  }

  /** Everything released was numbered before what the writer holds. */
  lemma ReleasedEarlier(s: State, f: Frame)
    requires Conserved(s) && NumbersOrdered(s) && !s.writer.Idle? && f in s.released
    ensures f.seqno < s.writer.f.seqno
  {
    var i :| 0 <= i < |s.released| && s.released[i] == f;
    assert s.accepted[i] == f && s.accepted[|s.released|] == s.writer.f;
  }

  /** What a step leaves of a greeted connection, unless it is the writer's. */
  ghost predicate Kept(s: State, s': State, c: nat)
    requires c in s'.plan
  {
    && c in s.plan && s'.plan[c] == s.plan[c] && c !in s.broken
    && c < |s'.wire| && c < |s.wire| && s'.wire[c] == s.wire[c]
    && |s.released| <= |s'.released| && s'.released[..|s.released|] == s.released
    && (Syncs(s, c) ==> s.plan[c].sh.Ok() && s.wire[c] == s.plan[c].Frames())
  }

  lemma KeptByOthers(s: State, e: Event, c: nat)
    requires Shape(s) && PlansOk(s) && Enabled(s, e)
    requires e.SendCall? || e in {WriterTake, WriterSent, WriterFailed, WriterDrop} || e.SetSticky?
    requires c in Apply(s, e).plan && c !in Apply(s, e).broken && !Syncs(Apply(s, e), c)
    requires !(e.WriterSent? && c == s.writer.conn)
    ensures Kept(s, Apply(s, e), c)
  {
    hide Snapshot, HELLO_TEXT, Send, PlanOk;
  }

  lemma KeptByConnector(s: State, e: Event, c: nat)
    requires Shape(s) && StageOk(s) && PlansOk(s) && Enabled(s, e)
    requires e in {Connect, HelloNumber, HelloSent, HelloFailed, TakeSnapshot}
             || e in {SyncSent, SyncFailed, Expose, NoticeLost, PeerClosed}
    requires c in Apply(s, e).plan && c !in Apply(s, e).broken && !Syncs(Apply(s, e), c)
    ensures Kept(s, Apply(s, e), c)
  {
    hide Snapshot, HELLO_TEXT, Plan.Frames, PlanOk;
    if e.Expose? && c == s.connector.conn {
      assert s.wire[c] + [] == s.wire[c];
    }
  }

  lemma KeptOk(s: State, s': State, c: nat)
    requires PlansOk(s) && WiresOk(s) && c in s'.plan && Kept(s, s', c)
    ensures s'.plan[c].sh.Ok() && WireOk(s', c)
  {
    assert PlanOk(s.plan[c], s.numbers);
    assert forall f :: f in s.released ==> f in s'.released[..|s.released|];
    if !Syncs(s, c) {
      assert WireOk(s, c);
    }
  }

  lemma WriterSentStep(s: State)
    requires Shape(s) && Conserved(s) && NumbersOrdered(s) && PlansOk(s) && WriterApart(s) && WiresOk(s)
    requires Enabled(s, WriterSent) && s.writer.conn !in Apply(s, WriterSent).broken && PlansOk(Apply(s, WriterSent))
    ensures s.writer.conn in s.plan && WireOk(Apply(s, WriterSent), s.writer.conn)
  {
    hide NumbersOrdered, Conserved, WireOk;
    assert PlanOk(s.plan[s.writer.conn], s.numbers) && WireOk(s, s.writer.conn);
    LiveStep(s, s.writer.conn);
  }

  lemma WireStep(s: State, e: Event, c: nat)
    requires Shape(s) && Conserved(s) && NumbersOrdered(s) && StageOk(s) && PlansOk(s) && WriterApart(s) && WiresOk(s)
    requires Enabled(s, e) && c in Apply(s, e).plan && PlansOk(Apply(s, e))
    requires c !in Apply(s, e).broken && !Syncs(Apply(s, e), c)
    ensures WireOk(Apply(s, e), c)
  {
    hide Apply, NumbersOrdered, Conserved, Shape, StageOk, WriterApart, WiresOk, WireOk, Syncs, Kept;
    if e.WriterSent? && c == s.writer.conn {
      WriterSentStep(s);
    } else {
      match e {
        case SendCall(_, _, _) => KeptByOthers(s, e, c);
        case SetSticky(_, _) => KeptByOthers(s, e, c);
        case WriterTake => KeptByOthers(s, e, c);
        case WriterSent => KeptByOthers(s, e, c);
        case WriterFailed => KeptByOthers(s, e, c);
        case WriterDrop => KeptByOthers(s, e, c);
        case _ => KeptByConnector(s, e, c);
      }
      KeptOk(s, Apply(s, e), c);
    }
  }

  /** The writer's frame follows every frame the connection has carried from the queue. */
  lemma LiveStep(s: State, c: nat)
    requires Shape(s) && Conserved(s) && NumbersOrdered(s) && s.writer.Sending? && s.writer.conn == c
    requires c in s.plan && s.plan[c].sh.Ok() && WireOk(s, c)
    ensures WireOk(Apply(s, WriterSent), c)
  {
    var s', f := Apply(s, WriterSent), s.writer.f;
    var n := |s.plan[c].Frames()|;
    var live := s.wire[c][n..];
    assert s'.wire[c][n..] == live + [f] && s'.wire[c][..n] == s.wire[c][..n];
    assert s'.released[|s.released|] == f;
    forall i | 0 <= i < |live|
      ensures live[i].seqno < f.seqno && live[i] in s'.released
    {
      ReleasedEarlier(s, live[i]);
      var k :| 0 <= k < |s.released| && s.released[k] == live[i];
      assert s'.released[k] == live[i];
    }
  }

  // ---- what has a number

  /** Every number below the counter was given to one frame, which carries it. */
  ghost predicate GivenOk(s: State) {
    && 1 <= s.sh.txSeq && (forall n :: n in s.given <==> 1 <= n < s.sh.txSeq)
    && (forall n :: n in s.given ==> s.given[n] != Nobody && s.given[n].f.seqno == n)
    && (forall i :: 0 <= i < |s.accepted| ==> GivenTo(s, Queued(s.accepted[i])))
    && (s.connector.HelloReady? || s.connector.Greeted? ==>
          GivenTo(s, Direct(s.connector.conn, HelloFrame(s.connector.seqno))))
  }

  ghost predicate GivenTo(s: State, h: Holder)
    requires h != Nobody
  {
    h.f.seqno in s.given && s.given[h.f.seqno] == h
  }

  /** A cached frame has the next free number, or it is known what else has its number. */
  ghost predicate HeldOk(sh: Shared, given: map<nat, Holder>, held: map<nat, Holder>, t: nat)
    requires t < |sh.cache| && sh.cache[t].Some?
  {
    var n := sh.cache[t].value.seqno;
    t in held && if held[t] == Nobody then n == sh.txSeq else n < sh.txSeq && n in given && given[n] == held[t]
  }

  ghost predicate CacheHeld(sh: Shared, given: map<nat, Holder>, held: map<nat, Holder>)
    requires sh.Ok()
  {
    forall t :: 0 <= t < MAX_TYPES && sh.cache[t].Some? ==> HeldOk(sh, given, held, t)
  }

  /** The handshake of a connection has its numbers, and its replays those their cached frames had. */
  ghost predicate PlanHeld(s: State, c: nat)
    requires c in s.plan
  {
    var p := s.plan[c];
    && p.sh.Ok() && p.hello < p.sh.txSeq && CachedByType(p.sh.cache)
    && GivenTo(s, Direct(c, HelloFrame(p.hello))) && GivenTo(s, Direct(c, BeginFrame(p.sh.txSeq)))
    && GivenTo(s, Direct(c, EndFrame(p.sh.txSeq + 1))) && CacheHeld(p.sh, s.given, p.held)
  }

  ghost predicate PlansHeld(s: State) {
    forall c :: c in s.plan ==> PlanHeld(s, c)
  }

  /** Most steps give out no number and cache nothing. */
  lemma NothingGiven(s: State, e: Event)
    requires Shape(s) && Enabled(s, e) && !e.SendCall? && !e.HelloNumber? && !e.TakeSnapshot?
    ensures var s' := Apply(s, e);
            && s'.given == s.given && s'.held == s.held && s'.accepted == s.accepted
            && s'.sh.txSeq == s.sh.txSeq && s'.sh.cache == s.sh.cache && s'.sh.Ok()
            && (s'.connector.HelloReady? || s'.connector.Greeted? ==>
                  && (s.connector.HelloReady? || s.connector.Greeted?)
                  && s'.connector.conn == s.connector.conn && s'.connector.seqno == s.connector.seqno)
  {
    hide Snapshot, DoSend, Claim, Cached, HELLO_TEXT;
  }

  lemma GivenGrows(s: State, e: Event)
    requires Shape(s) && GivenOk(s) && Enabled(s, e)
    ensures forall n :: n in s.given ==> n in Apply(s, e).given && Apply(s, e).given[n] == s.given[n]
  {
    match e
    case SendCall(_, _, _) => hide Claim, Cached, HELLO_TEXT, IsSticky;
    case HelloNumber => hide Claim;
    case TakeSnapshot => hide Claim, Snapshot;
    case _ =>
      hide Apply;
      NothingGiven(s, e);
  }

  /** Giving out the next number. */
  lemma GivenNext(s: State, s': State, h: Holder, added: seq<Frame>)
    requires GivenOk(s) && h != Nobody && h.f.seqno == s.sh.txSeq
    requires s'.given == s.given[s.sh.txSeq := h] && s'.sh.txSeq == s.sh.txSeq + 1
    requires s'.accepted == s.accepted + added && (added == [] || (|added| == 1 && h == Queued(added[0])))
    requires s'.connector.HelloReady? || s'.connector.Greeted? ==>
               GivenTo(s', Direct(s'.connector.conn, HelloFrame(s'.connector.seqno)))
    ensures GivenOk(s')
  {
    hide HELLO_TEXT;
    assert forall i :: 0 <= i < |s.accepted| ==> GivenTo(s, Queued(s.accepted[i]));
  }

  lemma GivenSend(s: State, e: Event)
    requires Shape(s) && GivenOk(s) && e.SendCall? && Enabled(s, e)
    ensures GivenOk(Apply(s, e))
  {
    var s', f := Apply(s, e), Frame(e.typ, e.flags, s.sh.txSeq, e.payload);
    var added := SendExtends(s, e);
    SendGives(s, e);
    hide Apply, HELLO_TEXT;
    if added != [] {
      GivenNext(s, s', Queued(f), added);
    }
  }

  lemma SendGives(s: State, e: Event)
    requires Shape(s) && e.SendCall? && Enabled(s, e)
    ensures Apply(s, e).given == if Apply(s, e).accepted == s.accepted then s.given
                                 else s.given[s.sh.txSeq := Queued(Frame(e.typ, e.flags, s.sh.txSeq, e.payload))]
  {
    hide Claim, Cached, IsSticky;
  }

  lemma GivenHello(s: State)
    requires Shape(s) && GivenOk(s) && Enabled(s, HelloNumber)
    ensures GivenOk(Apply(s, HelloNumber))
  {
    hide Claim, HELLO_TEXT, GivenOk;
    assert s.accepted + [] == s.accepted;
    GivenNext(s, Apply(s, HelloNumber), Direct(s.connector.conn, HelloFrame(s.sh.txSeq)), []);
  }

  lemma GivenSnapshot(s: State)
    requires Shape(s) && GivenOk(s) && Enabled(s, TakeSnapshot)
    ensures GivenOk(Apply(s, TakeSnapshot))
  {
    hide Claim, Snapshot, HELLO_TEXT;
    var s' := Apply(s, TakeSnapshot);
    assert forall i :: 0 <= i < |s.accepted| ==> GivenTo(s, Queued(s.accepted[i])) && s'.accepted[i] == s.accepted[i];
  }

  lemma GivenStays(s: State, s': State)
    requires GivenOk(s) && s'.given == s.given && s'.sh.txSeq == s.sh.txSeq && s'.accepted == s.accepted
    requires s'.connector.HelloReady? || s'.connector.Greeted? ==>
               && (s.connector.HelloReady? || s.connector.Greeted?)
               && s'.connector.conn == s.connector.conn && s'.connector.seqno == s.connector.seqno
    ensures GivenOk(s')
  {
    hide HELLO_TEXT;
    assert forall i :: 0 <= i < |s.accepted| ==> GivenTo(s, Queued(s.accepted[i]));
  }

  lemma GivenStep(s: State, e: Event)
    requires Shape(s) && GivenOk(s) && Enabled(s, e)
    ensures GivenOk(Apply(s, e))
  {
    hide GivenOk, Apply;
    match e
    case SendCall(_, _, _) => GivenSend(s, e);
    case HelloNumber => GivenHello(s);
    case TakeSnapshot => GivenSnapshot(s);
    case _ =>
      NothingGiven(s, e);
      GivenStays(s, Apply(s, e));
  }

  lemma HeldStep(s: State, e: Event)
    requires Shape(s) && GivenOk(s) && CacheHeld(s.sh, s.given, s.held) && Enabled(s, e)
    ensures Apply(s, e).sh.Ok() && CacheHeld(Apply(s, e).sh, Apply(s, e).given, Apply(s, e).held)
  {
    match e
    case SendCall(_, _, _) => HeldSend(s, e);
    case HelloNumber => HeldHandshake(s, e);
    case TakeSnapshot => HeldHandshake(s, e);
    case _ =>
      hide Apply;
      NothingGiven(s, e);
  }

  lemma HeldSend(s: State, e: Event)
    requires Shape(s) && GivenOk(s) && CacheHeld(s.sh, s.given, s.held) && e.SendCall? && Enabled(s, e)
    ensures Apply(s, e).sh.Ok() && CacheHeld(Apply(s, e).sh, Apply(s, e).given, Apply(s, e).held)
  {
    SendRecords(s, e);
    SendGives(s, e);
    SendHolds(s, e);
    var added := SendExtends(s, e);
    hide Apply, IsSticky, GivenOk, Claim, Cached, HeldOk;
    assert s.accepted + [] == s.accepted;
    GivenBelow(s);
    if !BadSend(e.typ, e.payload) {
      var f, room := Frame(e.typ, e.flags, s.sh.txSeq, e.payload), |s.sh.queue| < CAPACITY;
      var s', sticky := Apply(s, e), IsSticky(s.sh, e.typ, e.flags);
      forall t | 0 <= t < MAX_TYPES && s'.sh.cache[t].Some?
        ensures HeldOk(s'.sh, s'.given, s'.held, t)
      {
        HeldAfterSend(s.sh, s'.sh, s.given, s.held, f, room, sticky, t);
      }
    }
  }

  lemma HeldAfterSend(a: Shared, b: Shared, given: map<nat, Holder>, held: map<nat, Holder>, f: Frame,
                      room: bool, sticky: bool, t: nat)
    requires a.Ok() && b.Ok() && f.typ < MAX_TYPES && t < MAX_TYPES && f.seqno == a.txSeq && a.txSeq !in given
    requires b.cache == if sticky then a.cache[f.typ := Some(f)] else a.cache
    requires b.txSeq == a.txSeq + if room then 1 else 0
    requires b.cache[t].Some? && (a.cache[t].Some? ==> HeldOk(a, given, held, t))
    ensures HeldOk(b, if room then given[f.seqno := Queued(f)] else given,
                   if room then Cached(Claim(held, Queued(f)), f.typ, sticky, Queued(f))
                   else Cached(held, f.typ, sticky, Nobody), t)
  {
  }

  lemma GivenBelow(s: State)
    requires GivenOk(s)
    ensures s.sh.txSeq !in s.given
  {
  }

  lemma SendHolds(s: State, e: Event)
    requires Shape(s) && e.SendCall? && Enabled(s, e)
    ensures var s', f := Apply(s, e), Queued(Frame(e.typ, e.flags, s.sh.txSeq, e.payload));
            s'.sh.Ok() &&
            if BadSend(e.typ, e.payload) then s' == s
            else
              var room, sticky := |s.sh.queue| < CAPACITY, IsSticky(s.sh, e.typ, e.flags);
              s'.held == if room then Cached(Claim(s.held, f), e.typ, sticky, f)
                         else Cached(s.held, e.typ, sticky, Nobody)
  {
    hide Claim, Cached, IsSticky;
  }

  lemma HeldHandshake(s: State, e: Event)
    requires Shape(s) && GivenOk(s) && CacheHeld(s.sh, s.given, s.held) && Enabled(s, e)
    requires e.HelloNumber? || e.TakeSnapshot?
    ensures Apply(s, e).sh.Ok() && CacheHeld(Apply(s, e).sh, Apply(s, e).given, Apply(s, e).held)
  {
    hide Snapshot, HELLO_TEXT, DoSend;
    var s' := Apply(s, e);
    forall t | 0 <= t < MAX_TYPES && s'.sh.cache[t].Some?
      ensures HeldOk(s'.sh, s'.given, s'.held, t)
    {
      assert s.sh.cache[t].Some? ==> HeldOk(s.sh, s.given, s.held, t);
    }
  }

  lemma PlansHeldStep(s: State, e: Event)
    requires Shape(s) && GivenOk(s) && CacheHeld(s.sh, s.given, s.held) && CacheTyped(s)
    requires PlansHeld(s) && Enabled(s, e)
    ensures PlansHeld(Apply(s, e))
  {
    var s' := Apply(s, e);
    GivenGrows(s, e);
    forall c | c in s'.plan
      ensures PlanHeld(s', c)
    {
      if e.TakeSnapshot? && c == s.connector.conn {
        NewPlanHeld(s);
      } else {
        PlanStays(s, e, c);
      }
    }
  }

  lemma NewPlanHeld(s: State)
    requires Shape(s) && GivenOk(s) && CacheHeld(s.sh, s.given, s.held) && CacheTyped(s) && Enabled(s, TakeSnapshot)
    ensures PlanHeld(Apply(s, TakeSnapshot), s.connector.conn)
  {
    hide Snapshot, Claim, HELLO_TEXT;
    forall t | 0 <= t < MAX_TYPES && s.sh.cache[t].Some?
      ensures HeldOk(s.sh, Apply(s, TakeSnapshot).given, s.held, t)
    {
      assert HeldOk(s.sh, s.given, s.held, t);
    }
  }

  lemma PlanStays(s: State, e: Event, c: nat)
    requires Shape(s) && PlansHeld(s) && Enabled(s, e) && c in Apply(s, e).plan
    requires !(e.TakeSnapshot? && c == s.connector.conn)
    requires forall n :: n in s.given ==> n in Apply(s, e).given && Apply(s, e).given[n] == s.given[n]
    ensures PlanHeld(Apply(s, e), c)
  {
    PlanKept(s, e, c);
    hide Apply, Enabled, PlanHeld;
    PlanHeldLater(s, Apply(s, e), c);
  }

  lemma PlanHeldLater(s: State, s': State, c: nat)
    requires c in s.plan && PlanHeld(s, c) && c in s'.plan && s'.plan[c] == s.plan[c]
    requires forall n :: n in s.given ==> n in s'.given && s'.given[n] == s.given[n]
    ensures PlanHeld(s', c)
  {
    hide HELLO_TEXT;
    var p := s.plan[c];
    forall t | 0 <= t < MAX_TYPES && p.sh.cache[t].Some?
      ensures HeldOk(p.sh, s'.given, p.held, t)
    {
      assert HeldOk(p.sh, s.given, p.held, t);
    }
  }

  lemma PlanKept(s: State, e: Event, c: nat)
    requires Shape(s) && Enabled(s, e) && c in Apply(s, e).plan && !(e.TakeSnapshot? && c == s.connector.conn)
    ensures c in s.plan && Apply(s, e).plan[c] == s.plan[c]
  {
    hide Snapshot, Send, Claim, Cached, HELLO_TEXT;
  }

  // ---- what a connection ends with

  /** The last frame of a type. */
  function LastOf(fs: seq<Frame>, t: nat): Option<Frame> {
    if fs == [] then None
    else if fs[|fs| - 1].typ == t then Some(fs[|fs| - 1])
    else LastOf(fs[..|fs| - 1], t)
  }

  function PayloadOf(f: Option<Frame>): Option<seq<byte>> {
    if f.Some? then Some(f.value.payload) else None
  }

  function CountOf(fs: seq<Frame>, t: nat): nat {
    if fs == [] then 0 else CountOf(fs[..|fs| - 1], t) + if fs[|fs| - 1].typ == t then 1 else 0
  }

  lemma {:induction false} LastOfConcat(a: seq<Frame>, b: seq<Frame>, t: nat)
    ensures LastOf(a + b, t) == if LastOf(b, t).Some? then LastOf(b, t) else LastOf(a, t)
    ensures CountOf(a + b, t) == CountOf(a, t) + CountOf(b, t)
  {
    if b == [] {
      assert a + b == a;
    } else {
      assert (a + b)[..|a + b| - 1] == a + b[..|b| - 1];
      LastOfConcat(a, b[..|b| - 1], t);
    }
  }

  lemma OneFrame(f: Frame, t: nat)
    ensures LastOf([f], t) == if f.typ == t then Some(f) else None
    ensures CountOf([f], t) == if f.typ == t then 1 else 0
  {
    assert [f][..0] == [] && LastOf([], t) == None;
  }

  lemma {:induction false} NoneCounted(fs: seq<Frame>, t: nat)
    ensures LastOf(fs, t).None? <==> CountOf(fs, t) == 0
  {
    if fs != [] {
      NoneCounted(fs[..|fs| - 1], t);
    }
  }

  /** Types that senders use and the handshake does not. */
  predicate Ordinary(t: nat) {
    t < MAX_TYPES && t !in {HELLO, SYNC_BEGIN, SYNC_END}
  }

  ghost predicate CacheTyped(s: State)
    requires s.sh.Ok()
  {
    CachedByType(s.sh.cache)
  }

  lemma CacheTypedStep(s: State, e: Event)
    requires Shape(s) && CacheTyped(s) && Enabled(s, e)
    ensures CacheTyped(Apply(s, e))
  {
    hide Snapshot;
  }

  /** A replay carries what is cached, once. */
  lemma {:induction false} ReplaysCarry(cache: seq<Option<Frame>>, n: nat, t: nat)
    requires n <= |cache| && forall i :: 0 <= i < n && cache[i].Some? ==> cache[i].value.typ == i
    ensures PayloadOf(LastOf(Replays(cache, n), t)) == if t < n then PayloadOf(cache[t]) else None
    ensures CountOf(Replays(cache, n), t) <= 1 && (t >= n ==> CountOf(Replays(cache, n), t) == 0)
  {
    hide LastOf, CountOf;
    if n == 0 {
      NoFrames(t);
    } else {
      ReplaysCarry(cache, n - 1, t);
      NoFrames(t);
      var more := match cache[n - 1] case None => [] case Some(f) => [f.(flags := SetReplay(f.flags))];
      if cache[n - 1].Some? {
        OneFrame(more[0], t);
      }
      LastOfConcat(Replays(cache, n - 1), more, t);
    }
  }

  lemma NoFrames(t: nat)
    ensures LastOf([], t) == None && CountOf([], t) == 0
  {
  }

  lemma HandshakeCarries(hello: nat, sh: Shared, t: nat)
    requires sh.Ok() && Ordinary(t)
    requires forall i :: 0 <= i < MAX_TYPES && sh.cache[i].Some? ==> sh.cache[i].value.typ == i
    ensures PayloadOf(LastOf([HelloFrame(hello)] + Snapshot(sh), t)) == PayloadOf(sh.cache[t])
    ensures CountOf([HelloFrame(hello)] + Snapshot(sh), t) <= 1
  {
    hide Replays, HELLO_TEXT, LastOf, CountOf;
    var begin, end := Frame(SYNC_BEGIN, 0, sh.txSeq, []), Frame(SYNC_END, 0, sh.txSeq + 1, []);
    var replays := Replays(sh.cache, MAX_TYPES);
    ReplaysCarry(sh.cache, MAX_TYPES, t);
    OneFrame(HelloFrame(hello), t);
    OneFrame(begin, t);
    OneFrame(end, t);
    LastOfConcat([begin], replays, t);
    LastOfConcat([begin] + replays, [end], t);
    LastOfConcat([HelloFrame(hello)], Snapshot(sh), t);
  }

  function OnWire(w: Writer, c: nat): seq<Frame> {
    if w.Sending? && w.conn == c then [w.f] else []
  }

  /** The connector has a greeted connection. */
  ghost predicate Greeting(s: State) {
    s.connector.Syncing? || s.connector.Exposed?
  }

  ghost predicate Planned(s: State) {
    Greeting(s) && s.connector.conn in s.plan && s.plan[s.connector.conn].sh.Ok()
  }

  /** It is being greeted, or is current with no write of the writer's failed on it. */
  ghost predicate Attached(s: State) {
    || s.connector.Syncing?
    || (s.connector.Exposed? && s.sh.current == Some(s.connector.conn)
        && !(s.writer.SendFailed? && s.writer.conn == s.connector.conn))
  }

  /** What such a connection has carried, is being sent and will be sent, in order. */
  ghost function Stream(s: State): seq<Frame>
    requires Shape(s)
  {
    match s.connector
    case Syncing(c, todo) => s.wire[c] + todo + s.sh.queue
    case Exposed(c) => s.wire[c] + OnWire(s.writer, c) + s.sh.queue
    case _ => []
  }

  /** The accepted frames meant for the connection last greeted. */
  ghost function Meant(s: State): seq<Frame> {
    if s.base <= |s.accepted| then s.accepted[s.base..] else []
  }

  ghost predicate BaseOk(s: State) {
    s.base <= |s.accepted| && (s.connector.Syncing? ==> Meant(s) == s.sh.queue)
  }

  lemma BaseStep(s: State, e: Event)
    requires Shape(s) && OneCurrent(s) && Conserved(s) && BaseOk(s) && Enabled(s, e)
    ensures BaseOk(Apply(s, e))
    ensures Greeting(s) && e.SendCall? && Apply(s, e).accepted != s.accepted ==>
              Meant(Apply(s, e)) == Meant(s) + [Apply(s, e).accepted[|s.accepted|]]
    ensures Apply(s, e).accepted == s.accepted && !e.TakeSnapshot? ==> Meant(Apply(s, e)) == Meant(s)
  {
    hide Snapshot, Replays, HELLO_TEXT;
    if e.SendCall? {
      hide Apply;
      var added := SendExtends(s, e);
      assert Meant(Apply(s, e)) == if Apply(s, e).accepted == s.accepted then Meant(s)
                                   else Meant(s) + [Apply(s, e).accepted[|s.accepted|]];
    }
  }

  /** Each ordinary type occurs at most once in a handshake under way. */
  ghost predicate Once(s: State, t: nat)
    requires Shape(s)
  {
    s.connector.Syncing? && Ordinary(t) ==> CountOf(s.wire[s.connector.conn] + s.connector.todo, t) <= 1
  }

  /** Handshake frames are missed only by connections on which a write failed. */
  ghost predicate LostBroken(s: State) {
    Greeting(s) && s.connector.conn !in s.broken ==> s.lost == {}
  }

  lemma LostBrokenStep(s: State, e: Event)
    requires Shape(s) && LostBroken(s) && Enabled(s, e)
    ensures LostBroken(Apply(s, e))
  {
    hide Snapshot, Send;
  }

  lemma OnceStep(s: State, e: Event, t: nat)
    requires Shape(s) && StageOk(s) && WriterApart(s) && CacheTyped(s) && Once(s, t) && Enabled(s, e)
    ensures Once(Apply(s, e), t)
  {
    hide Snapshot, Replays, Send, CountOf;
    if e.TakeSnapshot? && Ordinary(t) {
      HandshakeCarries(s.connector.seqno, s.sh, t);
      assert s.wire[s.connector.conn] == [HelloFrame(s.connector.seqno)];
    } else if (e.SyncSent? || e.SyncFailed?) && Ordinary(t) {
      var c, todo := s.connector.conn, s.connector.todo;
      assert todo == [todo[0]] + todo[1..];
      assert s.wire[c] + [todo[0]] + todo[1..] == s.wire[c] + todo;
      LastOfConcat(s.wire[c], todo, t);
      LastOfConcat([todo[0]], todo[1..], t);
      LastOfConcat(s.wire[c], todo[1..], t);
    }
  }

  /**
   The payload of the last frame of type t that the connection will have carried: that of the last
   frame meant for it, or else that of the replay, unless the replay was missed.
   */
  ghost function Arriving(s: State, t: nat): Option<seq<byte>>
    requires Planned(s) && t < MAX_TYPES
  {
    var q := LastOf(Meant(s), t);
    if q.Some? then PayloadOf(q)
    else if t in s.lost then None
    else PayloadOf(s.plan[s.connector.conn].sh.cache[t])
  }

  ghost predicate Arrives(s: State, t: nat)
    requires Shape(s) && StageOk(s) && PlansOk(s)
  {
    Attached(s) && Ordinary(t) ==> PayloadOf(LastOf(Stream(s), t)) == Arriving(s, t)
  }

  /** A send adds at most one frame, at the end of the queue and of the accepted frames, and touches no connection. */
  lemma SendExtends(s: State, e: Event) returns (added: seq<Frame>)
    requires Shape(s) && e.SendCall? && Enabled(s, e)
    ensures var s' := Apply(s, e);
            && s'.sh.queue == s.sh.queue + added && s'.accepted == s.accepted + added
            && s'.connector == s.connector && s'.writer == s.writer && s'.wire == s.wire && s'.plan == s.plan
            && s'.lost == s.lost && s'.base == s.base && s'.sh.current == s.sh.current
            && s'.sh.txSeq == s.sh.txSeq + |added|
    ensures added == [] || added == [Frame(e.typ, e.flags, s.sh.txSeq, e.payload)]
  {
    var s' := Apply(s, e);
    added := if s'.accepted == s.accepted then [] else [Frame(e.typ, e.flags, s.sh.txSeq, e.payload)];
  }

  /** What a send leaves in the history and in the cache. */
  lemma SendRecords(s: State, e: Event)
    requires Shape(s) && e.SendCall? && Enabled(s, e)
    ensures var s', f := Apply(s, e), Frame(e.typ, e.flags, s.sh.txSeq, e.payload);
            if BadSend(e.typ, e.payload) then s' == s
            else
              var sticky, room := IsSticky(s.sh, e.typ, e.flags), |s.sh.queue| < CAPACITY;
              && s'.last == s.last[e.typ := Sent(e.payload, room)]
              && s'.mixed == s.mixed + (if sticky then {} else {e.typ})
              && s'.sh.cache == (if sticky then s.sh.cache[e.typ := Some(f)] else s.sh.cache)
              && s'.accepted == s.accepted + (if room then [f] else [])
  {
    assert s.accepted + [] == s.accepted;
  }

  lemma SendStream(s: State, s': State, added: seq<Frame>)
    requires Shape(s) && Shape(s') && BaseOk(s) && Attached(s')
    requires s'.sh.queue == s.sh.queue + added && s'.accepted == s.accepted + added
    requires s'.connector == s.connector && s'.writer == s.writer && s'.wire == s.wire
    requires s'.base == s.base && s'.sh.current == s.sh.current
    ensures Attached(s) && Stream(s') == Stream(s) + added && Meant(s') == Meant(s) + added
  {
  }

  lemma SendArrives(s: State, e: Event, t: nat)
    requires Shape(s) && StageOk(s) && PlansOk(s) && BaseOk(s) && Arrives(s, t)
    requires e.SendCall? && Enabled(s, e) && Shape(Apply(s, e)) && StageOk(Apply(s, e)) && PlansOk(Apply(s, e))
    ensures Arrives(Apply(s, e), t)
  {
    hide Apply, LastOf, PlansOk, BaseOk, Shape, Stream, Meant;
    var s' := Apply(s, e);
    var added := SendExtends(s, e);
    if Attached(s') && Ordinary(t) {
      SendStream(s, s', added);
      LastOfConcat(Stream(s), added, t);
      LastOfConcat(Meant(s), added, t);
    }
  }

  lemma SnapshotArrives(s: State, t: nat)
    requires Shape(s) && StageOk(s) && PlansOk(s) && Conserved(s) && CacheTyped(s) && Enabled(s, TakeSnapshot)
    requires Shape(Apply(s, TakeSnapshot)) && StageOk(Apply(s, TakeSnapshot)) && PlansOk(Apply(s, TakeSnapshot))
    ensures Arrives(Apply(s, TakeSnapshot), t)
  {
    hide LastOf, Snapshot, Replays;
    var s' := Apply(s, TakeSnapshot);
    if Ordinary(t) {
      var c, sh := s.connector.conn, s.sh;
      HandshakeCarries(s.connector.seqno, sh, t);
      assert s.wire[c] == [HelloFrame(s.connector.seqno)];
      LastOfConcat(s.wire[c] + Snapshot(sh), sh.queue, t);
      assert Meant(s') == sh.queue;
    }
  }

  /** A stream without one of its frames, when the handshake in it has at most one of the type. */
  lemma WithoutFrame(w: seq<Frame>, todo: seq<Frame>, queue: seq<Frame>, t: nat)
    requires todo != [] && CountOf(w + todo, t) <= 1
    ensures LastOf(w + todo[1..] + queue, t) == if LastOf(queue, t).Some? then LastOf(queue, t)
                                                else if todo[0].typ == t then None
                                                else LastOf(w + todo + queue, t)
    ensures LastOf(queue, t).Some? ==> LastOf(w + todo + queue, t) == LastOf(queue, t)
  {
    hide LastOf, CountOf;
    var f, rest := todo[0], todo[1..];
    assert todo == [f] + rest;
    OneFrame(f, t);
    LastOfConcat(w + todo, queue, t);
    LastOfConcat(w + rest, queue, t);
    LastOfConcat(w, todo, t);
    LastOfConcat(w, rest, t);
    LastOfConcat([f], rest, t);
    NoneCounted(w + rest, t);
  }

  /** A missed frame leaves the rest of the stream as it is. */
  lemma MissedArrives(s: State, t: nat)
    requires Shape(s) && StageOk(s) && PlansOk(s) && BaseOk(s) && Once(s, t) && Arrives(s, t) && Enabled(s, SyncFailed)
    requires Shape(Apply(s, SyncFailed)) && StageOk(Apply(s, SyncFailed)) && PlansOk(Apply(s, SyncFailed))
    ensures Arrives(Apply(s, SyncFailed), t)
  {
    hide LastOf, CountOf, Snapshot, Replays;
    if Ordinary(t) {
      WithoutFrame(s.wire[s.connector.conn], s.connector.todo, s.sh.queue, t);
    }
  }

  lemma TakeArrives(s: State, t: nat)
    requires Shape(s) && OneCurrent(s) && StageOk(s) && PlansOk(s) && Arrives(s, t) && Enabled(s, WriterTake)
    requires Shape(Apply(s, WriterTake)) && StageOk(Apply(s, WriterTake)) && PlansOk(Apply(s, WriterTake))
    ensures Arrives(Apply(s, WriterTake), t)
  {
    hide LastOf;
    var s' := Apply(s, WriterTake);
    var f, rest := s.sh.queue[0], s.sh.queue[1..];
    assert s.sh.queue == [f] + rest;
    if Attached(s') {
      assert s.wire[s.connector.conn] + [] + s.sh.queue == s.wire[s.connector.conn] + [f] + rest;
      assert Stream(s') == Stream(s);
    }
  }

  /** Every other step moves frames along a connection, or ends it. */
  lemma StreamKept(s: State, e: Event)
    requires Shape(s) && OneCurrent(s) && WriterApart(s) && StageOk(s) && Enabled(s, e)
    requires !e.SendCall? && !e.TakeSnapshot? && !e.SyncFailed? && !e.WriterTake?
    ensures Shape(Apply(s, e))
    ensures Attached(Apply(s, e)) ==>
              && Attached(s) && Stream(Apply(s, e)) == Stream(s) && Apply(s, e).connector.conn == s.connector.conn
              && Apply(s, e).plan == s.plan && Apply(s, e).lost == s.lost && Meant(Apply(s, e)) == Meant(s)
  {
    hide Snapshot, Replays, Send, HELLO_TEXT;
    if e.SyncSent? {
      var c, todo := s.connector.conn, s.connector.todo;
      assert todo == [todo[0]] + todo[1..];
      assert s.wire[c] + [todo[0]] + todo[1..] == s.wire[c] + todo;
    }
  }

  lemma OtherArrives(s: State, e: Event, t: nat)
    requires Shape(s) && OneCurrent(s) && WriterApart(s) && StageOk(s) && PlansOk(s) && Arrives(s, t) && Enabled(s, e)
    requires !e.SendCall? && !e.TakeSnapshot? && !e.SyncFailed? && !e.WriterTake?
    requires Shape(Apply(s, e)) && StageOk(Apply(s, e)) && PlansOk(Apply(s, e))
    ensures Arrives(Apply(s, e), t)
  {
    StreamKept(s, e);
    hide Apply, Stream, LastOf, Meant;
  }

  // ---- sticky types

  /** For a type whose sends were all sticky, what is cached is the latest send. */
  ghost predicate CacheLatest(s: State, t: nat)
    requires s.sh.Ok()
  {
    t < MAX_TYPES && t in s.last && t !in s.mixed ==> PayloadOf(s.sh.cache[t]) == Some(s.last[t].payload)
  }

  lemma CacheLatestStep(s: State, e: Event, t: nat)
    requires Shape(s) && CacheLatest(s, t) && Enabled(s, e)
    ensures CacheLatest(Apply(s, e), t)
  {
    if e.SendCall? {
      hide Apply, IsSticky;
      SendRecords(s, e);
    } else {
      hide Snapshot, Replays, DoSend;
    }
  }

  /** A latest send that was accepted is the last accepted frame of its type. */
  ghost predicate LastAccepted(s: State, t: nat) {
    t in s.last && s.last[t].accepted ==> PayloadOf(LastOf(s.accepted, t)) == Some(s.last[t].payload)
  }

  lemma LastAcceptedStep(s: State, e: Event, t: nat)
    requires Shape(s) && LastAccepted(s, t) && Enabled(s, e)
    ensures LastAccepted(Apply(s, e), t)
  {
    if e.SendCall? {
      hide Apply, LastOf, IsSticky;
      var f := Frame(e.typ, e.flags, s.sh.txSeq, e.payload);
      SendRecords(s, e);
      LastOfConcat(s.accepted, [f], t);
      OneFrame(f, t);
      assert s.accepted + [] == s.accepted;
    } else {
      hide Snapshot, Replays, DoSend;
    }
  }

  /** Unless a frame of the type was accepted since the snapshot, the snapshot knew the latest send. */
  ghost predicate SnapshotLatest(s: State, t: nat)
    requires Shape(s) && StageOk(s) && PlansOk(s)
  {
    Greeting(s) && t < MAX_TYPES && t in s.last && t !in s.mixed && s.last[t].accepted && LastOf(Meant(s), t).None? ==>
      PayloadOf(s.plan[s.connector.conn].sh.cache[t]) == Some(s.last[t].payload)
  }

  lemma SnapshotLatestStep(s: State, e: Event, t: nat)
    requires Shape(s) && OneCurrent(s) && Conserved(s) && StageOk(s) && PlansOk(s) && BaseOk(s)
    requires SnapshotLatest(s, t) && CacheLatest(s, t) && Enabled(s, e)
    requires Shape(Apply(s, e)) && StageOk(Apply(s, e)) && PlansOk(Apply(s, e))
    ensures SnapshotLatest(Apply(s, e), t)
  {
    BaseStep(s, e);
    if e.SendCall? {
      SnapshotLatestSend(s, e, t);
    } else {
      hide LastOf, Snapshot, Replays, Meant, Conserved, BaseOk, Send;
    }
  }

  lemma SnapshotLatestSend(s: State, e: Event, t: nat)
    requires Shape(s) && StageOk(s) && PlansOk(s) && BaseOk(s) && SnapshotLatest(s, t) && e.SendCall? && Enabled(s, e)
    requires Shape(Apply(s, e)) && StageOk(Apply(s, e)) && PlansOk(Apply(s, e))
    ensures SnapshotLatest(Apply(s, e), t)
  {
    hide Apply, LastOf, PlansOk, IsSticky;
    var f := Frame(e.typ, e.flags, s.sh.txSeq, e.payload);
    var added := SendExtends(s, e);
    SendRecords(s, e);
    assert Meant(Apply(s, e)) == Meant(s) + added;
    LastOfConcat(Meant(s), [f], t);
    OneFrame(f, t);
    assert Meant(s) + [] == Meant(s);
  }
}
