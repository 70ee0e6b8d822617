/** The engine's rules, field by field: what each command and each finished animation does in every run. */
module EngineRules {
  import opened Common
  import opened Engine

  lemma RunSnoc(es: seq<Event>, ev: Event)
    ensures Run(es + [ev]) == Do(Run(es), ev) && Inv(Run(es)) && Inv(Run(es + [ev]))
  {
    assert (es + [ev])[..|es|] == es;
    InvOfRun(es);
    InvOfRun(es + [ev]);
  }

  /** What the other fields of an event's result keep. */
  ghost predicate SameExtras(e: Engine, f: Engine) {
    && f.persp == e.persp && f.perspDeferred == e.perspDeferred && f.bar == e.bar && f.barDeferred == e.barDeferred
  }

  ghost predicate SameManeuvers(e: Engine, f: Engine) {
    f.current == e.current && f.next == e.next && f.pending == e.pending && f.phase == e.phase && f.preload == e.preload
  }

  /** What had been set aside is now visible, and nothing is set aside any more. */
  ghost predicate Revealed(e: Engine, f: Engine) {
    && f.perspDeferred == None && f.barDeferred == None
    && f.persp == (match e.perspDeferred case None => e.persp case Some(v) => v)
    && f.bar == (match e.barDeferred case None => e.bar case Some(b) => b)
  }

  /** At first there is nothing to show, the view is in perspective and the bar graph is off. */
  lemma Beginning()
    ensures var e := Run([]);
            && e.current == None && e.next == None && e.pending == None && e.phase == Idle && !e.preload
            && e.persp == 1 && e.perspDeferred == None && e.bar == Bar(0, 0) && e.barDeferred == None
  {
  }

  // ---- start

  /**
   A start with a preload waiting slides the current maneuver in and reveals what was set aside; one
   finished animation later it is at rest if nothing else waits, and otherwise after three.
   */
  lemma StartSlidesIn(es: seq<Event>, n: nat)
    requires Run(es).preload
    ensures var e, f := Run(es), Run(es + [Obey(Start)]);
            && f.phase == SlidingIn && !f.preload && f.current == e.current && e.current.Some?
            && f.next == e.next && f.pending == e.pending && Revealed(e, f)
            && (Ticks(f, n).phase == Idle <==> n >= if e.pending.None? then 1 else 3)
            && (e.pending.None? && n >= 1 ==> Ticks(f, n).current == e.current)
            && (e.pending.Some? && n >= 3 ==> Ticks(f, n).current == e.pending)
  {
    RunSnoc(es, Obey(Start));
    ComesToRest(Run(es + [Obey(Start)]), n);
  }

  lemma StartWithoutPreload(es: seq<Event>)
    requires !Run(es).preload
    ensures Run(es + [Obey(Start)]) == Run(es)
  {
    RunSnoc(es, Obey(Start));
  }

  /** A maneuver shown right behind a start has to wait, and is pushed in when the start's animation is over. */
  lemma ShowBehindStart(es: seq<Event>, m: Maneuver, x: Extras, n: nat)
    requires Run(es).preload
    ensures var e, f := Run(es), Run(es + [Obey(Start)] + [Obey(Show(m, x))]);
            && f.phase == SlidingIn && f.pending == Some(m) && f.next == e.next && f.current == e.current
            && Ticks(f, 1).phase == Pushing && Ticks(f, 1).next == Some(m) && Ticks(f, 1).pending == None
            && Ticks(f, 2).phase == SlidingIn && Ticks(f, 2).current == Some(m)
            && (Ticks(f, n).phase == Idle <==> n >= 3)
  {
    hide Run, Ticks, Do, Advance, Inv;
    StartSlidesIn(es, 0);
    ShowWhileMoving(es + [Obey(Start)], m, x, n);
    PendingGoesNext(Run(es + [Obey(Start)] + [Obey(Show(m, x))]));
  }

  lemma PendingGoesNext(f: Engine)
    requires f.phase == SlidingIn && f.pending.Some?
    ensures Ticks(f, 1).phase == Pushing && Ticks(f, 1).next == f.pending && Ticks(f, 1).pending == None
    ensures Ticks(f, 2).phase == SlidingIn && Ticks(f, 2).current == f.pending
  {
    FirstTicks(f);
  }

  lemma FirstTicks(f: Engine)
    ensures Ticks(f, 0) == f && Ticks(f, 1) == Advance(f, true) && Ticks(f, 2) == Advance(Advance(f, true), true)
  {
    assert Ticks(f, 1) == Advance(Ticks(f, 0), true);
  }

  // ---- show

  /** The very first maneuver is current at once and slides in. */
  lemma ColdShow(es: seq<Event>, m: Maneuver, x: Extras, n: nat)
    requires Run(es).current.None?
    ensures var e, f := Run(es), Run(es + [Obey(Show(m, x))]);
            && f.current == Some(m) && f.next == None && f.pending == None && f.phase == SlidingIn && !f.preload
            && f.persp == e.persp && f.bar == e.bar
            && (Ticks(f, n).phase == Idle <==> n >= 1)
  {
    RunSnoc(es, Obey(Show(m, x)));
    ComesToRest(Run(es + [Obey(Show(m, x))]), n);
  }

  /** At rest a maneuver is pushed in behind the current one, and the bar graph goes off. */
  lemma ShowAtRest(es: seq<Event>, m: Maneuver, x: Extras, n: nat)
    requires Run(es).current.Some? && Run(es).phase == Idle
    ensures var e, f := Run(es), Run(es + [Obey(Show(m, x))]);
            && f.current == e.current && f.next == Some(m) && f.pending == None && f.phase == Pushing
            && f.preload == e.preload && f.persp == e.persp && f.bar == Bar(e.bar.level, 0)
            && (Ticks(f, n).phase == Idle <==> n >= 2) && (n >= 1 ==> Ticks(f, n).current == Some(m))
  {
    RunSnoc(es, Obey(Show(m, x)));
    var f := Run(es + [Obey(Show(m, x))]);
    FirstTicks(f);
    ComesToRest(f, n);
  }

  /** While anything moves a maneuver waits, in place of one that already does. */
  lemma ShowWhileMoving(es: seq<Event>, m: Maneuver, x: Extras, n: nat)
    requires Run(es).phase != Idle
    ensures var e, f := Run(es), Run(es + [Obey(Show(m, x))]);
            && f.current == e.current && f.next == e.next && f.pending == Some(m) && f.phase == e.phase
            && f.preload == e.preload && f.persp == e.persp && f.bar == e.bar
            && (Ticks(f, n).phase == Idle <==> n >= 3) && (n >= 2 ==> Ticks(f, n).current == Some(m))
  {
    RunSnoc(es, Obey(Show(m, x)));
    var f := Run(es + [Obey(Show(m, x))]);
    FirstTicks(f);
    ComesToRest(f, n);
  }

  /** Flag bit 0 sets a perspective aside and bit 1 a bar graph; what no bit names stays as it was. */
  lemma ShowSetsAside(es: seq<Event>, m: Maneuver, x: Extras)
    ensures var e, f := Run(es), Run(es + [Obey(Show(m, x))]);
            && f.perspDeferred == (if x.flags % 2 == 1 then Some(if x.persp == 0 then 0 else 1) else e.perspDeferred)
            && (x.flags / 2 % 2 == 0 ==> f.barDeferred == e.barDeferred)
            && (x.flags / 2 % 2 == 1 ==> f.barDeferred.Some? && BarFor(x.level, x.mode, f.barDeferred.value))
  {
    RunSnoc(es, Obey(Show(m, x)));
  }

  /** Levels end at 16, and a mode above 2 counts as 1. */
  predicate BarFor(level: nat, mode: nat, b: Bar) {
    && (level <= 16 ==> b.level == level) && (level > 16 ==> b.level == 16)
    && (mode <= 2 ==> b.mode == mode) && (mode > 2 ==> b.mode == 1)
  }

  /** Once at rest, what the flags named is visible with the maneuver. */
  lemma ShownWithExtras(es: seq<Event>, m: Maneuver, x: Extras)
    ensures var f := Ticks(Run(es + [Obey(Show(m, x))]), 3);
            && f.phase == Idle && f.current == Some(m)
            && (x.flags % 2 == 1 ==> f.persp == if x.persp == 0 then 0 else 1)
            && (x.flags / 2 % 2 == 1 ==> BarFor(x.level, x.mode, f.bar))
  {
    RunSnoc(es, Obey(Show(m, x)));
    ShowSetsAside(es, m, x);
    ComesToRest(Run(es + [Obey(Show(m, x))]), 3);
  }

  // ---- preload

  /** A preload drops whatever was shown or waiting, and sets perspective and bar graph aside whatever its flags. */
  lemma PreloadReplacesAll(es: seq<Event>, m: Maneuver, x: Extras)
    ensures var e, f := Run(es), Run(es + [Obey(Preload(m, x))]);
            && f.current == Some(m) && f.next == None && f.pending == None && f.phase == Idle && f.preload
            && f.persp == e.persp && f.bar == e.bar && f.perspDeferred == Some(if x.persp == 0 then 0 else 1)
            && f.barDeferred.Some? && BarFor(x.level, x.mode, f.barDeferred.value)
  {
    RunSnoc(es, Obey(Preload(m, x)));
  }

  // ---- the rest

  /** Perspective and bar graph commands take effect at once and touch nothing else. */
  lemma SetAtOnce(es: seq<Event>, value: nat, level: nat, mode: nat)
    ensures var e, f := Run(es), Run(es + [Obey(Perspective(value))]);
            SameManeuvers(e, f) && SameExtras(e, f.(persp := e.persp)) && f.persp == if value == 0 then 0 else 1
    ensures var e, f := Run(es), Run(es + [Obey(BarGraph(level, mode))]);
            SameManeuvers(e, f) && SameExtras(e, f.(bar := e.bar)) && BarFor(level, mode, f.bar)
    ensures Run(es + [Obey(Other)]) == Run(es)
  {
    RunSnoc(es, Obey(Perspective(value)));
    RunSnoc(es, Obey(BarGraph(level, mode)));
    RunSnoc(es, Obey(Other));
  }

  /** What the end of an animation does; while none has ended, and at rest, nothing happens. */
  lemma AnimationEnds(es: seq<Event>)
    ensures var e, f := Run(es), Run(es + [Tick(true)]);
            && (e.phase == Idle ==> f == e)
            && (e.phase == Pushing ==>
                  && e.next.Some? && f.current == e.next && f.next == e.pending && f.pending == None
                  && f.phase == (if e.pending.Some? then Pushing else SlidingIn)
                  && f.preload == e.preload && SameExtras(e, f))
            && (e.phase == SlidingIn && e.pending.Some? ==>
                  && f.current == e.current && f.next == e.pending && f.pending == None && f.phase == Pushing
                  && f.preload == e.preload && SameExtras(e, f))
            && (e.phase == SlidingIn && e.pending.None? ==>
                  && f.current == e.current && f.next == e.next && f.pending == None && f.phase == Idle
                  && f.preload == e.preload && Revealed(e, f))
    ensures Run(es + [Tick(false)]) == Run(es)
  {
    RunSnoc(es, Tick(true));
    RunSnoc(es, Tick(false));
  }

  // ---- batches

  /** Of a batch's maneuvers the last one counts, and only that one. */
  lemma {:induction false} LastIs(cmds: seq<Command>, k: nat)
    requires k < |cmds| && (cmds[k].Show? || cmds[k].Preload?)
    requires forall i :: k < i < |cmds| ==> !cmds[i].Show? && !cmds[i].Preload?
    ensures Last(cmds) == Some(cmds[k])
  {
    if k < |cmds| - 1 {
      LastIs(cmds[..|cmds| - 1], k);
    }
  }

  lemma {:induction false} LastIsNone(cmds: seq<Command>)
    requires forall i :: 0 <= i < |cmds| ==> !cmds[i].Show? && !cmds[i].Preload?
    ensures Last(cmds) == None
  {
    if cmds != [] {
      LastIsNone(cmds[..|cmds| - 1]);
    }
  }

  /** All other commands are carried out first, in the order they came. */
  lemma ImmediateIs(cmds: seq<Command>, c: Command)
    ensures Immediate([]) == []
    ensures Immediate(cmds + [c]) == if c.Show? || c.Preload? then Immediate(cmds) else Immediate(cmds) + [Obey(c)]
  {
    assert (cmds + [c])[..|cmds|] == cmds;
  }

  /** A turn with a maneuver and a start, in either order, starts what was preloaded and then brings the maneuver. */
  lemma StartAndShow(es: seq<Event>, m: Maneuver, x: Extras, startFirst: bool, finished: bool)
    ensures var cmds := if startFirst then [Start, Show(m, x)] else [Show(m, x), Start];
            Turn(cmds, finished) == [Obey(Start), Obey(Show(m, x)), Tick(finished)]
  {
    hide Immediate, Last;
    ImmediateIs([], Start);
    ImmediateIs([], Show(m, x));
    ImmediateIs([Start], Show(m, x));
    ImmediateIs([Show(m, x)], Start);
    assert [] + [Start] == [Start] && [] + [Show(m, x)] == [Show(m, x)];
    assert [Start] + [Show(m, x)] == [Start, Show(m, x)] && [Show(m, x)] + [Start] == [Show(m, x), Start];
    LastIs([Start, Show(m, x)], 1);
    LastIs([Show(m, x), Start], 0);
  }
}
