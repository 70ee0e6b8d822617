/**
 The renderer's transition engine: a current maneuver, the one being pushed in and the one waiting,
 with a transparent preload beside them.  An animation is only known by its being finished.
 */
module Engine {
  import opened Common

  type Maneuver = int

  datatype Phase = Idle | Pushing | SlidingIn

  datatype Bar = Bar(level: nat, mode: nat)

  /** What rides along with a maneuver: flag bits, perspective and bar graph. */
  datatype Extras = Extras(flags: nat, persp: nat, level: nat, mode: nat)

  datatype Engine = Engine(
    current: Option<Maneuver>, next: Option<Maneuver>, pending: Option<Maneuver>, phase: Phase, preload: bool,
    persp: nat, perspDeferred: Option<nat>, bar: Bar, barDeferred: Option<Bar>)

  datatype Command =
    | Show(m: Maneuver, x: Extras)
    | Preload(m: Maneuver, x: Extras)
    | Start
    | Perspective(value: nat)
    | BarGraph(level: nat, mode: nat)
    | Other  // hide, screenshot, debug and shutdown leave all of this alone

  datatype Event = Obey(cmd: Command) | Tick(finished: bool)

  function Init(): Engine {
    Engine(None, None, None, Idle, false, 1, None, Bar(0, 0), None)
  }

  function Clamped(level: nat, mode: nat): Bar {
    Bar(if level > 16 then 16 else level, if mode > 2 then 1 else mode)
  }

  function ToPersp(value: nat): nat {
    if value == 0 then 0 else 1
  }

  /** Set aside what rides along; a preload brings everything, a plain maneuver what its flags name. */
  function Defer(e: Engine, x: Extras, all: bool): Engine {
    e.(perspDeferred := if all || x.flags % 2 == 1 then Some(ToPersp(x.persp)) else e.perspDeferred,
       barDeferred := if all || x.flags / 2 % 2 == 1 then Some(Clamped(x.level, x.mode)) else e.barDeferred)
  }

  /** Make what was set aside visible. */
  function Unveil(e: Engine): Engine {
    e.(persp := if e.perspDeferred.Some? then e.perspDeferred.value else e.persp, perspDeferred := None,
       bar := if e.barDeferred.Some? then e.barDeferred.value else e.bar, barDeferred := None)
  }

  function ApplyManeuver(e: Engine, m: Maneuver): Engine {
    if e.current.None? then e.(current := Some(m), next := None, phase := SlidingIn)
    else if e.phase != Idle then e.(pending := Some(m))
    else e.(next := Some(m), bar := e.bar.(mode := 0), phase := Pushing)
  }

  function PreloadManeuver(e: Engine, m: Maneuver): Engine {
    e.(current := Some(m), next := None, pending := None, phase := Idle, preload := true)
  }

  function StartPreloaded(e: Engine): Engine {
    if !e.preload || e.current.None? then e
    else Unveil(e.(preload := false, phase := SlidingIn))
  }

  function Promote(e: Engine): Engine {
    e.(next := e.pending, pending := None, phase := Pushing)
  }

  function Advance(e: Engine, finished: bool): Engine {
    if !finished then e
    else
      match e.phase
      case Idle => e
      case Pushing =>
        var c := if e.next.Some? then e.(current := e.next, next := None) else e;
        if c.pending.Some? then Promote(c) else c.(phase := SlidingIn)
      case SlidingIn =>
        if e.pending.Some? then Promote(e) else Unveil(e.(phase := Idle))
  }

  function Do(e: Engine, ev: Event): Engine {
    match ev
    case Tick(finished) => Advance(e, finished)
    case Obey(Show(m, x)) => ApplyManeuver(Defer(e, x, false), m)
    case Obey(Preload(m, x)) => PreloadManeuver(Defer(e, x, true), m)
    case Obey(Start) => StartPreloaded(e)
    case Obey(Perspective(v)) => e.(persp := ToPersp(v))
    case Obey(BarGraph(l, m)) => e.(bar := Clamped(l, m))
    case Obey(Other) => e
  }

  function Run(es: seq<Event>): Engine {
    if es == [] then Init() else Do(Run(es[..|es| - 1]), es[|es| - 1])
  }

  // ---- what every run keeps

  ghost predicate Inv(e: Engine) {
    && (e.pending.Some? ==> e.phase != Idle)
    && (e.phase == Pushing ==> e.next.Some?)
    && (e.phase != Idle || e.preload ==> e.current.Some?)
    && (e.perspDeferred.Some? || e.barDeferred.Some? ==> e.phase != Idle || e.preload)
  }

  lemma InvStep(e: Engine, ev: Event)
    requires Inv(e)
    ensures Inv(Do(e, ev))
  {
  }

  lemma {:induction false} InvOfRun(es: seq<Event>)
    ensures Inv(Run(es))
  {
    hide Do;
    if es != [] {
      InvOfRun(es[..|es| - 1]);
      InvStep(Run(es[..|es| - 1]), es[|es| - 1]);
    }
  }

  /** The maneuver the engine is heading for. */
  function Newest(e: Engine): Option<Maneuver> {
    if e.pending.Some? then e.pending
    else if e.phase == Pushing then e.next
    else e.current
  }

  // ---- coming to rest

  function Ticks(e: Engine, n: nat): Engine {
    if n == 0 then e else Advance(Ticks(e, n - 1), true)
  }

  /** How many finished animations separate the engine from rest. */
  function Needed(e: Engine): (n: nat)
    ensures n <= 3
  {
    if e.phase == Idle then 0
    else if e.pending.Some? then 3
    else if e.phase == Pushing then 2
    else 1
  }

  /**
   Left alone, the engine comes to rest after exactly the needed number of finished animations, at
   most three, showing the newest maneuver with whatever was set aside for it.
   */
  lemma {:induction false} ComesToRest(e: Engine, n: nat)
    requires Inv(e)
    ensures var f := Ticks(e, n);
            && Inv(f) && Newest(f) == Newest(e) && Needed(f) == (if n >= Needed(e) then 0 else Needed(e) - n)
            && (f.phase == Idle <==> n >= Needed(e))
            && (f.phase == Idle ==> f.current == Newest(e))
            && (f.phase == Idle && Needed(e) > 0 ==>
                  && f.persp == (if e.perspDeferred.Some? then e.perspDeferred.value else e.persp)
                  && f.bar == (if e.barDeferred.Some? then e.barDeferred.value else e.bar))
  {
    RestSteps(e, n);
  }

  /** Nothing set aside is revealed on the way, and then everything is. */
  ghost predicate Underway(e: Engine, f: Engine) {
    if Needed(f) > 0 then
      f.perspDeferred == e.perspDeferred && f.barDeferred == e.barDeferred && f.persp == e.persp && f.bar == e.bar
    else
      && f.persp == (if e.perspDeferred.Some? then e.perspDeferred.value else e.persp)
      && f.bar == (if e.barDeferred.Some? then e.barDeferred.value else e.bar)
  }

  lemma {:induction false} RestSteps(e: Engine, n: nat)
    requires Inv(e)
    ensures var f := Ticks(e, n);
            && Inv(f) && Newest(f) == Newest(e) && Needed(f) == (if n >= Needed(e) then 0 else Needed(e) - n)
            && (Needed(e) > 0 ==> Underway(e, f))
  {
    if n > 0 {
      RestSteps(e, n - 1);
    }
  }

  // ---- which maneuver wins

  /** The maneuver brought last. */
  function Latest(es: seq<Event>): Option<Maneuver> {
    if es == [] then None
    else
      match es[|es| - 1]
      case Obey(Show(m, _)) => Some(m)
      case Obey(Preload(m, _)) => Some(m)
      case _ => Latest(es[..|es| - 1])
  }

  /** The maneuver brought last was shown outright rather than preloaded. */
  predicate ShownLast(es: seq<Event>) {
    es != [] &&
    match es[|es| - 1]
    case Obey(Show(_, _)) => true
    case Obey(Preload(_, _)) => false
    case _ => ShownLast(es[..|es| - 1])
  }

  /** No maneuver is shown between a preload and the start that uses it. */
  predicate Orderly(es: seq<Event>) {
    es == [] ||
    (var init := es[..|es| - 1];
     Orderly(init) && (es[|es| - 1] == Obey(Start) && Run(init).preload ==> !ShownLast(init)))
  }

  /** A start that cuts off the push bringing in a maneuver other than the current one. */
  predicate Cuts(e: Engine, ev: Event) {
    ev == Obey(Start) && e.preload && e.phase == Pushing && e.pending.None? && e.next != e.current
  }

  /** In any state an event brings its maneuver, falls back to the current one by a cut, or keeps the newest. */
  lemma NewestStep(e: Engine, ev: Event)
    requires Inv(e)
    ensures Newest(Do(e, ev)) == match ev
                                 case Obey(Show(m, _)) => Some(m)
                                 case Obey(Preload(m, _)) => Some(m)
                                 case _ => if Cuts(e, ev) then e.current else Newest(e)
    ensures Cuts(e, ev) ==> e.current != Newest(e) && !Do(e, ev).preload
    ensures Do(e, ev).preload ==> e.preload || (ev.Obey? && ev.cmd.Preload?)
  {
  }

  /** A start has cut off a push since the latest maneuver was brought. */
  predicate CutSince(es: seq<Event>) {
    es != [] &&
    var init := es[..|es| - 1];
    match es[|es| - 1]
    case Obey(Show(_, _)) => false
    case Obey(Preload(_, _)) => false
    case ev => Cuts(Run(init), ev) || CutSince(init)
  }

  /** In every run the maneuver brought last is the newest one exactly if no start has cut it off since. */
  lemma {:induction false} LatestWinsExactlyWhen(es: seq<Event>)
    ensures Newest(Run(es)) == Latest(es) <==> !CutSince(es)
    ensures CutSince(es) ==> !Run(es).preload
  {
    if es != [] {
      hide Do, Newest, Inv;
      var init, ev := es[..|es| - 1], es[|es| - 1];
      LatestWinsExactlyWhen(init);
      InvOfRun(init);
      NewestStep(Run(init), ev);
    }
  }

  /** So left alone for three finished animations a run shows the maneuver brought last under exactly that condition. */
  lemma SettlesExactlyWhen(es: seq<Event>)
    ensures Ticks(Run(es), 3).phase == Idle
    ensures Ticks(Run(es), 3).current == Latest(es) <==> !CutSince(es)
  {
    InvOfRun(es);
    LatestWinsExactlyWhen(es);
    ComesToRest(Run(es), 3);
  }

  lemma OrderlyStep(e: Engine, ev: Event)
    requires Inv(e) && (e.next.Some? <==> e.phase == Pushing) && (ev == Obey(Start) && e.preload ==> e.phase == Idle)
    ensures var f := Do(e, ev);
            && (f.next.Some? <==> f.phase == Pushing)
            && Newest(f) == match ev
                            case Obey(Show(m, _)) => Some(m)
                            case Obey(Preload(m, _)) => Some(m)
                            case _ => Newest(e)
    ensures !ev.Obey? || !(ev.cmd.Show? || ev.cmd.Preload?) ==>
              Do(e, ev).preload && e.phase == Idle ==> e.preload && Do(e, ev).phase == Idle
    ensures Do(e, ev).preload ==> e.preload || (ev.Obey? && ev.cmd.Preload?)
    ensures ev.Obey? && ev.cmd.Preload? ==> Do(e, ev).phase == Idle
  {
  }

  /** Latest wins: an orderly run never loses the newest maneuver, and a next one exists exactly while pushing. */
  lemma {:induction false} LatestWins(es: seq<Event>)
    requires Orderly(es)
    ensures var e := Run(es);
            && Newest(e) == Latest(es) && (e.next.Some? <==> e.phase == Pushing)
            && (e.preload && !ShownLast(es) ==> e.phase == Idle)
  {
    if es != [] {
      hide Do, Newest, Inv;
      LatestWins(es[..|es| - 1]);
      InvOfRun(es[..|es| - 1]);
      OrderlyStep(Run(es[..|es| - 1]), es[|es| - 1]);
    }
  }

  /** Together: an orderly run left alone for three finished animations shows what was brought last. */
  lemma OrderlyRunsSettle(es: seq<Event>)
    requires Orderly(es)
    ensures Ticks(Run(es), 3).phase == Idle && Ticks(Run(es), 3).current == Latest(es)
  {
    InvOfRun(es);
    LatestWins(es);
    ComesToRest(Run(es), 3);
  }

  /** A start loses the newest maneuver exactly when it cuts off the push that brings it in. */
  lemma StartKeepsExactlyWhen(e: Engine)
    requires Inv(e) && e.preload
    ensures Newest(StartPreloaded(e)) == Newest(e) <==> !(e.phase == Pushing && e.pending.None? && e.next != e.current)
  {
  }

  /** Which does happen: preload one maneuver, show another, start, and the second is never seen. */
  lemma DisorderlyStartLoses(a: Maneuver, b: Maneuver, x: Extras, n: nat)
    ensures var es := [Obey(Preload(a, x)), Obey(Show(b, x)), Obey(Start)];
            && Latest(es) == Some(b)
            && (n > 0 ==> Ticks(Run(es), n).phase == Idle) && Ticks(Run(es), n).current == Some(a)
  {
    var p, h := Obey(Preload(a, x)), Obey(Show(b, x));
    assert [p, h, Obey(Start)][..2] == [p, h] && [p, h][..1] == [p] && [p][..0] == [];
    assert Run([p]) == Do(Init(), p) && Run([p, h]) == Do(Run([p]), h);
    ComesToRest(Run([p, h, Obey(Start)]), n);
  }

  // ---- one turn of the main loop

  /** The commands that take effect while the socket is drained. */
  function Immediate(cmds: seq<Command>): seq<Event> {
    if cmds == [] then []
    else
      var c := cmds[|cmds| - 1];
      Immediate(cmds[..|cmds| - 1]) + if c.Show? || c.Preload? then [] else [Obey(c)]
  }

  /** The last maneuver of a batch; earlier ones are skipped. */
  function Last(cmds: seq<Command>): Option<Command> {
    if cmds == [] then None
    else
      var c := cmds[|cmds| - 1];
      if c.Show? || c.Preload? then Some(c) else Last(cmds[..|cmds| - 1])
  }

  /** The order in which a turn really carries out its batch. */
  function Turn(cmds: seq<Command>, finished: bool): seq<Event> {
    Immediate(cmds) + (if Last(cmds).Some? then [Obey(Last(cmds).value)] else []) + [Tick(finished)]
  }

  function DoAll(e: Engine, es: seq<Event>): Engine {
    if es == [] then e else Do(DoAll(e, es[..|es| - 1]), es[|es| - 1])
  }

  lemma {:induction false} DoAllConcat(e: Engine, a: seq<Event>, b: seq<Event>)
    ensures DoAll(e, a + b) == DoAll(DoAll(e, a), b)
  {
    if b == [] {
      assert a + b == a;
    } else {
      assert (a + b)[..|a + b| - 1] == a + b[..|b| - 1];
      DoAllConcat(e, a, b[..|b| - 1]);
    }
  }

  lemma {:induction false} RunIsDoAll(es: seq<Event>)
    ensures Run(es) == DoAll(Init(), es)
  {
    if es != [] {
      RunIsDoAll(es[..|es| - 1]);
    }
  }

  /** Turns of the main loop extend a run like any other events, so all of the above holds of them. */
  lemma TurnExtendsRun(es: seq<Event>, cmds: seq<Command>, finished: bool)
    ensures DoAll(Run(es), Turn(cmds, finished)) == Run(es + Turn(cmds, finished))
  {
    RunIsDoAll(es);
    RunIsDoAll(es + Turn(cmds, finished));
    DoAllConcat(Init(), es, Turn(cmds, finished));
  }

  /**
   When the last maneuver of a batch is a preload, the turn ends with it at rest and hidden, so a start
   anywhere in the batch, even behind its preload, comes too early.
   */
  lemma StartInSameBatchIsIgnored(e: Engine, cmds: seq<Command>, finished: bool)
    requires Last(cmds).Some? && Last(cmds).value.Preload?
    ensures var f := DoAll(e, Turn(cmds, finished));
            f.preload && f.phase == Idle && f.current == Some(Last(cmds).value.m)
  {
    hide DoAll, Immediate, Last, Turn;
    TurnSplits(e, cmds, finished);
  }

  // ---- the engine's globals

  class CrEngine {
    var current: Option<Maneuver>
    var next: Option<Maneuver>
    var pending: Option<Maneuver>
    var phase: Phase
    var preloadPending: bool
    var perspective: nat
    var perspDeferred: Option<nat>
    var bar: Bar
    var barDeferred: Option<Bar>

    ghost function View(): Engine
      reads this
    {
      Engine(current, next, pending, phase, preloadPending, perspective, perspDeferred, bar, barDeferred)
    }

    constructor ()
      ensures View() == Init()
    {
      current, next, pending, phase, preloadPending := None, None, None, Idle, false;
      perspective, perspDeferred, bar, barDeferred := 1, None, Bar(0, 0), None;
    }

    method Apply(state: Maneuver)
      modifies this
      ensures View() == ApplyManeuver(old(View()), state)
    {
      if current.None? {
        current, next, phase := Some(state), None, SlidingIn;
        return;
      }
      if phase == Pushing || phase == SlidingIn {
        pending := Some(state);
        return;
      }
      next := Some(state);
      bar := bar.(mode := 0);
      phase := Pushing;
    }

    method PreloadState(state: Maneuver)
      modifies this
      ensures View() == PreloadManeuver(old(View()), state)
    {
      current, next, pending := Some(state), None, None;
      phase := Idle;
      preloadPending := true;
    }

    method ShowDeferred()
      modifies this
      ensures View() == Unveil(old(View()))
    {
      if perspDeferred.Some? {
        perspective, perspDeferred := perspDeferred.value, None;
      }
      if barDeferred.Some? {
        bar, barDeferred := barDeferred.value, None;
      }
    }

    method StartPreloadedAnimation()
      modifies this
      ensures View() == StartPreloaded(old(View()))
    {
      if !preloadPending || current.None? {
        return;
      }
      preloadPending := false;
      phase := SlidingIn;
      ShowDeferred();
    }

    method EngineTick(finished: bool)
      modifies this
      ensures View() == Advance(old(View()), finished)
    {
      match phase {
        case Pushing =>
          if finished {
            if next.Some? {
              current, next := next, None;
            }
            if pending.Some? {
              next, pending := pending, None;
              phase := Pushing;
            } else {
              phase := SlidingIn;
            }
          }
        case SlidingIn =>
          if finished {
            if pending.Some? {
              next, pending := pending, None;
              phase := Pushing;
            } else {
              phase := Idle;
              ShowDeferred();
            }
          }
        case Idle =>
      }
    }

    /** A command that takes effect as it is read. */
    method Execute(c: Command)
      requires !c.Show? && !c.Preload?
      modifies this
      ensures View() == Do(old(View()), Obey(c))
    {
      match c {
        case Start => StartPreloadedAnimation();
        case Perspective(v) => perspective := if v == 0 then 0 else 1;
        case BarGraph(level, mode) => bar := Clamped(level, mode);
        case Other =>
      }
    }

    method Drain(cmds: seq<Command>) returns (last: Option<Command>)
      modifies this
      ensures View() == DoAll(old(View()), Immediate(cmds)) && last == Last(cmds)
    {
      hide Do, DoAll, Immediate, Last;
      last := None;
      ghost var start := View();
      assert cmds[..0] == [];
      NothingToDo(start);
      for i := 0 to |cmds|
        invariant View() == DoAll(start, Immediate(cmds[..i])) && last == Last(cmds[..i])
      {
        var c := cmds[i];
        assert cmds[..i + 1] == cmds[..i] + [c];
        DrainStep(start, cmds[..i], c);
        if c.Show? || c.Preload? {
          last := Some(c);
        } else {
          Execute(c);
        }
      }
      assert cmds[..|cmds|] == cmds;
    }

    /** Apply a maneuver or a preload, setting aside what rides along with it. */
    method Bring(c: Command)
      requires c.Show? || c.Preload?
      modifies this
      ensures View() == Do(old(View()), Obey(c))
    {
      var x := c.x;
      if c.Preload? || x.flags % 2 == 1 {
        perspDeferred := Some(if x.persp == 0 then 0 else 1);
      }
      if c.Preload? || x.flags / 2 % 2 == 1 {
        barDeferred := Some(Clamped(x.level, x.mode));
      }
      if c.Preload? {
        PreloadState(c.m);
      } else {
        Apply(c.m);
      }
    }

    /** Drain the waiting commands, then apply the last maneuver among them, then tick. */
    method MainTurn(cmds: seq<Command>, finished: bool)
      modifies this
      ensures View() == DoAll(old(View()), Turn(cmds, finished))
    {
      hide Do, DoAll, Immediate, Last, Turn, Advance;
      ghost var start := View();
      var last := Drain(cmds);
      LastBrings(cmds);
      TurnSplits(start, cmds, finished);
      if last.Some? {
        Bring(last.value);
      }
      EngineTick(finished);
    }
  }

  lemma LastBrings(cmds: seq<Command>)
    ensures Last(cmds).Some? ==> Last(cmds).value.Show? || Last(cmds).value.Preload?
  {
  }

  lemma NothingToDo(e: Engine)
    ensures DoAll(e, Immediate([])) == e && Last([]) == None
  {
  }

  lemma DrainStep(e: Engine, done: seq<Command>, c: Command)
    ensures (done + [c])[..|done|] == done
    ensures DoAll(e, Immediate(done + [c])) == if c.Show? || c.Preload? then DoAll(e, Immediate(done))
                                               else Do(DoAll(e, Immediate(done)), Obey(c))
    ensures Last(done + [c]) == if c.Show? || c.Preload? then Some(c) else Last(done)
  {
    assert (done + [c])[..|done|] == done;
    var es := Immediate(done);
    if !c.Show? && !c.Preload? {
      assert (es + [Obey(c)])[..|es|] == es;
    } else {
      assert es + [] == es;
    }
  }

  lemma TurnSplits(e: Engine, cmds: seq<Command>, finished: bool)
    ensures var d := DoAll(e, Immediate(cmds));
            var l := Last(cmds);
            DoAll(e, Turn(cmds, finished)) == Advance(if l.Some? then Do(d, Obey(l.value)) else d, finished)
  {
    var es := Immediate(cmds);
    var mid := es + if Last(cmds).Some? then [Obey(Last(cmds).value)] else [];
    assert (mid + [Tick(finished)])[..|mid|] == mid;
    if Last(cmds).Some? {
      assert mid[..|es|] == es;
    } else {
      assert mid == es;
    }
  }
}
