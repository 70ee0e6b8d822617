/**
 Route metadata published beside each guidance snapshot: a generation that changes with the head
 maneuver, an update number, and whether head, distance and cached maneuver belong together.
 */
module AmapMeta {
  import opened Common

  const NO_HEAD: nat := 0xFFFF
  const WRAP: nat := 0x1_0000_0000
  const CYCLE: nat := 0xFFFF_FFFF

  /** The parts of a route update that matter here: the maneuver list, if carried, and whether a distance came along. */
  datatype Update = Update(list: Option<seq<nat>>, distance: bool)

  /** For each maneuver index held by a cache slot, whether the slot knows the maneuver's type. */
  type SlotCache = map<nat, bool>

  datatype Meta = Meta(generation: nat, updateSeq: nat, head: nat, aligned: bool, timely: bool)

  datatype Snapshot = Snapshot(generation: nat, updateSeq: nat, head: int, aligned: bool, timely: bool)

  datatype Event =
    | Note(update: Option<Update>, hardClear: bool, cache: SlotCache)
    | Clear
    | Publish(cache: SlotCache)

  function Init(): Meta {
    Meta(1, 0, NO_HEAD, false, false)
  }

  function NextNonzero(v: nat): (r: nat)
    requires v < WRAP
    ensures 0 < r < WRAP && (v < CYCLE ==> r == v + 1)
  {
    var n := (v + 1) % WRAP;
    if n == 0 then 1 else n
  }

  ghost predicate Ok(m: Meta) {
    0 < m.generation < WRAP && m.updateSeq < WRAP
  }

  function Bump(m: Meta): Meta
    requires Ok(m)
  {
    m.(generation := NextNonzero(m.generation))
  }

  function ResetHead(m: Meta): Meta {
    m.(head := NO_HEAD, aligned := false, timely := false)
  }

  predicate KnowsType(cache: SlotCache, head: nat) {
    head in cache && cache[head]
  }

  function Refreshed(m: Meta, cache: SlotCache): Meta {
    m.(aligned := m.head != NO_HEAD && m.timely && KnowsType(cache, m.head))
  }

  /** The head a maneuver list selects. */
  function HeadOf(list: seq<nat>): nat {
    if list == [] then NO_HEAD else list[0]
  }

  function Selected(m: Meta, u: Update): Meta
    requires Ok(m)
  {
    if u.list.Some? then
      var h := HeadOf(u.list.value);
      (if h != m.head then Bump(m).(head := h) else m).(timely := u.distance)
    else if u.distance then m.(timely := true)
    else m
  }

  function Noted(m: Meta, u: Option<Update>, hardClear: bool, cache: SlotCache): Meta
    requires Ok(m)
  {
    var n := m.(updateSeq := NextNonzero(m.updateSeq));
    if hardClear then ResetHead(Bump(n))
    else if u.None? then Refreshed(n, cache)
    else Refreshed(Selected(n, u.value), cache)
  }

  function Apply(m: Meta, e: Event): (r: Meta)
    requires Ok(m)
    ensures Ok(r)
  {
    match e
    case Note(u, hardClear, cache) => Noted(m, u, hardClear, cache)
    case Clear => ResetHead(Bump(m))
    case Publish(cache) => Refreshed(m, cache)
  }

  function SnapshotOf(m: Meta): Snapshot {
    Snapshot(m.generation, m.updateSeq, if m.head == NO_HEAD then -1 else m.head, m.aligned, m.timely)
  }

  function Run(es: seq<Event>): (m: Meta)
    ensures Ok(m)
  {
    if es == [] then Init() else Apply(Run(es[..|es| - 1]), es[|es| - 1])
  }

  // ---- what the numbers count

  /** An event that starts a new generation: a clear, or an update whose list selects another head. */
  predicate Renews(m: Meta, e: Event) {
    match e
    case Note(u, hardClear, _) =>
      hardClear || (u.Some? && u.value.list.Some? && HeadOf(u.value.list.value) != m.head)
    case Clear => true
    case Publish(_) => false
  }

  function Renewals(es: seq<Event>): nat {
    if es == [] then 0
    else Renewals(es[..|es| - 1]) + if Renews(Run(es[..|es| - 1]), es[|es| - 1]) then 1 else 0
  }

  function Updates(es: seq<Event>): nat {
    if es == [] then 0 else Updates(es[..|es| - 1]) + if es[|es| - 1].Note? then 1 else 0
  }

  /** Counting from 1 to 2^32 - 1 and round again. */
  function Cyclic(n: nat): (r: nat)
    ensures 0 < r < WRAP
  {
    1 + n % CYCLE
  }

  lemma CyclicNext(n: nat)
    ensures NextNonzero(Cyclic(n)) == Cyclic(n + 1)
  {
    var q, r := n / CYCLE, n % CYCLE;
    if r + 1 == CYCLE {
      assert n + 1 == CYCLE * (q + 1);
    } else {
      assert n + 1 == CYCLE * q + (r + 1);
    }
  }

  /** Like Cyclic, but starting from a 0 that never comes back. */
  function FromZero(n: nat): (r: nat)
    ensures r < WRAP && (r == 0 <==> n == 0)
  {
    if n == 0 then 0 else Cyclic(n - 1)
  }

  lemma FromZeroNext(n: nat)
    ensures NextNonzero(FromZero(n)) == FromZero(n + 1)
  {
    if n > 0 {
      hide Cyclic, NextNonzero;
      CyclicNext(n - 1);
    }
  }

  lemma NumbersStep(m: Meta, e: Event)
    requires Ok(m)
    ensures var r := Apply(m, e);
            && r.generation == (if Renews(m, e) then NextNonzero(m.generation) else m.generation)
            && r.updateSeq == (if e.Note? then NextNonzero(m.updateSeq) else m.updateSeq)
  {
    hide NextNonzero;
  }

  /** The generation counts renewals and the update number counts updates; it is 0 only before the first. */
  lemma {:induction false} NumbersCount(es: seq<Event>)
    ensures Run(es).generation == Cyclic(Renewals(es)) && Run(es).updateSeq == FromZero(Updates(es))
  {
    if es == [] {
      assert Cyclic(0) == 1;
    } else {
      hide Cyclic, FromZero, NextNonzero, Renews, Apply;
      var init := es[..|es| - 1];
      NumbersCount(init);
      NumbersStep(Run(init), es[|es| - 1]);
      CyclicNext(Renewals(init));
      FromZeroNext(Updates(init));
    }
  }

  /** The head only ever changes together with the generation. */
  lemma {:induction false} HeadChangesRenew(es: seq<Event>, k: nat)
    requires k <= |es|
    ensures Renewals(es[..k]) <= Renewals(es)
    ensures Renewals(es[..k]) == Renewals(es) ==> Run(es[..k]).head == Run(es).head
  {
    if k == |es| {
      assert es[..k] == es;
    } else {
      var init := es[..|es| - 1];
      HeadChangesRenew(init, k);
      assert init[..k] == es[..k];
    }
  }

  lemma CyclicDiffers(a: nat, b: nat)
    requires a <= b
    ensures Cyclic(a) == Cyclic(b) <==> (b - a) % CYCLE == 0
  {
    var q, r := a / CYCLE, a % CYCLE;
    var d := b - a;
    if b % CYCLE == r {
      assert d == CYCLE * (b / CYCLE - q);
    }
    if d % CYCLE == 0 {
      assert b == CYCLE * (q + d / CYCLE) + r;
    }
  }

  /**
   Two snapshots of one run have the same generation exactly when the renewals between them are a
   multiple of 2^32 - 1; when they are fewer, the same generation means the same head.
   */
  lemma SameGenerationSameHead(es: seq<Event>, k: nat)
    requires k <= |es|
    ensures var (a, b) := (SnapshotOf(Run(es[..k])), SnapshotOf(Run(es)));
            var between := Renewals(es) - Renewals(es[..k]);
            && between >= 0
            && (a.generation == b.generation <==> between % CYCLE == 0)
            && (a.generation == b.generation && between < CYCLE ==> a.head == b.head)
  {
    hide Run, Cyclic, Renewals;
    NumbersCount(es);
    NumbersCount(es[..k]);
    HeadChangesRenew(es, k);
    CyclicDiffers(Renewals(es[..k]), Renewals(es));
  }

  /** The bound cannot be dropped: once round the counter, two heads share a generation. */
  lemma WrapSharesGeneration(head: nat)
    requires head != NO_HEAD
    ensures var first := [Note(Some(Update(Some([head]), true)), false, map[])];
            var es := first + seq(CYCLE, _ => Clear);
            && Run(first).head == head && Run(es).head == NO_HEAD && Run(first).generation == Run(es).generation
  {
    var first := [Note(Some(Update(Some([head]), true)), false, map[])];
    var es := first + seq(CYCLE, _ => Clear);
    assert first[..0] == [];
    RenewalsAppend(first, CYCLE);
    assert es[..1] == first;
    SameGenerationSameHead(es, 1);
    assert es[|es| - 1] == Clear;
  }

  lemma {:induction false} RenewalsAppend(es: seq<Event>, n: nat)
    ensures Renewals(es + seq(n, _ => Clear)) == Renewals(es) + n
  {
    var all := es + seq(n, _ => Clear);
    if n > 0 {
      RenewalsAppend(es, n - 1);
      assert all[..|all| - 1] == es + seq(n - 1, _ => Clear) && all[|all| - 1] == Clear;
    } else {
      assert all == es;
    }
  }

  // ---- what "aligned" promises

  /** The head chosen by the history: by the last update that carried a list, if nothing was cleared since. */
  function Chosen(es: seq<Event>): nat {
    if es == [] then NO_HEAD
    else
      match es[|es| - 1]
      case Clear => NO_HEAD
      case Note(u, hardClear, _) =>
        if hardClear then NO_HEAD
        else if u.Some? && u.value.list.Some? then HeadOf(u.value.list.value)
        else Chosen(es[..|es| - 1])
      case Publish(_) => Chosen(es[..|es| - 1])
  }

  /** A distance has come since the head was last chosen, the choosing update included. */
  predicate Measured(es: seq<Event>) {
    es != [] &&
    match es[|es| - 1]
    case Clear => false
    case Note(u, hardClear, _) =>
      !hardClear && if u.None? then Measured(es[..|es| - 1])
                    else u.value.distance || (u.value.list.None? && Measured(es[..|es| - 1]))
    case Publish(_) => Measured(es[..|es| - 1])
  }

  lemma {:induction false} HeadAndDistance(es: seq<Event>)
    ensures Run(es).head == Chosen(es) && (Run(es).timely <==> Measured(es))
  {
    hide NextNonzero, KnowsType;
    if es != [] {
      HeadAndDistance(es[..|es| - 1]);
    }
  }

  /** A snapshot says aligned exactly when there is a head, a distance for it, and a cached maneuver with a type. */
  lemma PublishedAlignment(es: seq<Event>, cache: SlotCache)
    ensures var all := es + [Publish(cache)];
            var s := SnapshotOf(Run(all));
            && (s.aligned <==> Chosen(es) != NO_HEAD && Measured(es) && KnowsType(cache, Chosen(es)))
            && s.head == (if Chosen(es) == NO_HEAD then -1 else Chosen(es)) && (s.timely <==> Measured(es))
            && s.generation > 0 && (s.updateSeq == 0 <==> Updates(es) == 0)
  {
    var all := es + [Publish(cache)];
    assert all[..|all| - 1] == es;
    HeadAndDistance(es);
    NumbersCount(all);
  }

  // ---- one event at a time, by its numbers

  lemma RunSnoc(es: seq<Event>, e: Event)
    ensures Run(es + [e]) == Apply(Run(es), e)
  {
    assert (es + [e])[..|es|] == es;
  }

  /** Counters go from 4294967295 back to 1. */
  predicate Follows(a: nat, b: nat) {
    b == if a == 4294967295 then 1 else a + 1
  }

  /** Aligned: there is a head, its distance is known, and its slot knows the type. */
  predicate AlignedRight(m: Meta, cache: SlotCache) {
    m.aligned <==> m.head != 65535 && m.timely && m.head in cache && cache[m.head]
  }

  /** A list makes its first entry the head, or takes the head away if empty; a change of head starts a generation. */
  lemma ListRule(es: seq<Event>, list: seq<nat>, distance: bool, cache: SlotCache)
    ensures var m, r := Run(es), Run(es + [Note(Some(Update(Some(list), distance)), false, cache)]);
            && r.head == (if list == [] then 65535 else list[0]) && r.timely == distance && AlignedRight(r, cache)
            && Follows(m.updateSeq, r.updateSeq)
            && (if r.head == m.head then r.generation == m.generation else Follows(m.generation, r.generation))
  {
    RunSnoc(es, Note(Some(Update(Some(list), distance)), false, cache));
  }

  /** Without a list the head stays, and only a distance that comes can change whether there is one. */
  lemma DistanceRule(es: seq<Event>, u: Option<Update>, cache: SlotCache)
    requires u.Some? ==> u.value.list.None?
    ensures var m, r := Run(es), Run(es + [Note(u, false, cache)]);
            && r.head == m.head && r.generation == m.generation && Follows(m.updateSeq, r.updateSeq)
            && (r.timely <==> m.timely || (u.Some? && u.value.distance)) && AlignedRight(r, cache)
  {
    RunSnoc(es, Note(u, false, cache));
  }

  /** Clearing takes head, distance and alignment away and starts a generation; only an update counts as one. */
  lemma ClearRule(es: seq<Event>, u: Option<Update>, cache: SlotCache)
    ensures var m, r := Run(es), Run(es + [Clear]);
            && r.head == 65535 && !r.timely && !r.aligned
            && Follows(m.generation, r.generation) && r.updateSeq == m.updateSeq
    ensures var r, s := Run(es + [Clear]), Run(es + [Note(u, true, cache)]);
            s == r.(updateSeq := s.updateSeq) && Follows(Run(es).updateSeq, s.updateSeq)
  {
    RunSnoc(es, Clear);
    RunSnoc(es, Note(u, true, cache));
  }

  /** Publishing only looks at the cache again; no head is published as -1. */
  lemma PublishRule(es: seq<Event>, cache: SlotCache)
    ensures var m, r := Run(es), Run(es + [Publish(cache)]);
            && r == m.(aligned := r.aligned) && AlignedRight(r, cache)
            && SnapshotOf(r) == Snapshot(m.generation, m.updateSeq, if m.head == 65535 then 0 - 1 else m.head,
                                         r.aligned, m.timely)
    ensures Run([]) == Meta(1, 0, 65535, false, false)
  {
    RunSnoc(es, Publish(cache));
  }

  // ---- the fields themselves

  class RouteMeta {
    var generation: nat
    var updateSeq: nat
    var headIndex: nat
    var headAligned: bool
    var distanceFresh: bool

    ghost function View(): Meta
      reads this
    {
      Meta(generation, updateSeq, headIndex, headAligned, distanceFresh)
    }

    constructor ()
      ensures View() == Init() && Ok(View())
    {
      generation, updateSeq, headIndex, headAligned, distanceFresh := 1, 0, NO_HEAD, false, false;
    }

    method BumpGeneration()
      requires Ok(View())
      modifies this`generation
      ensures View() == Bump(old(View())) && Ok(View())
    {
      generation := NextNonzero(generation);
    }

    method Reset(bump: bool)
      requires Ok(View())
      modifies this
      ensures View() == ResetHead(if bump then Bump(old(View())) else old(View())) && Ok(View())
    {
      if bump {
        BumpGeneration();
      }
      headIndex, headAligned, distanceFresh := NO_HEAD, false, false;
    }

    method RefreshAlignment(cache: SlotCache)
      modifies this`headAligned
      ensures View() == Refreshed(old(View()), cache)
    {
      headAligned := false;
      if headIndex == NO_HEAD || !distanceFresh {
        return;
      }
      if headIndex !in cache {
        return;
      }
      if cache[headIndex] {
        headAligned := true;
      }
    }

    method NoteRouteUpdate(update: Option<Update>, hardClear: bool, cache: SlotCache)
      requires Ok(View())
      modifies this
      ensures View() == Apply(old(View()), Note(update, hardClear, cache)) && Ok(View())
    {
      updateSeq := NextNonzero(updateSeq);
      if hardClear {
        Reset(true);
        return;
      }
      if update.None? {
        RefreshAlignment(cache);
        return;
      }
      var upd := update.value;
      if upd.list.Some? {
        var list := upd.list.value;
        var newHead := if |list| > 0 then list[0] else NO_HEAD;
        if newHead != headIndex {
          BumpGeneration();
          headIndex := newHead;
        }
        distanceFresh := upd.distance;
      } else if upd.distance {
        distanceFresh := true;
      }
      RefreshAlignment(cache);
    }

    method PublishSnapshot(cache: SlotCache) returns (s: Snapshot)
      requires Ok(View())
      modifies this`headAligned
      ensures View() == Apply(old(View()), Publish(cache)) && Ok(View()) && s == SnapshotOf(View())
    {
      RefreshAlignment(cache);
      s := Snapshot(generation, updateSeq, if headIndex == NO_HEAD then -1 else headIndex, headAligned, distanceFresh);
    }
  }
}
