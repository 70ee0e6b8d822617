/**
 Publishing a cover image: two files used in turn and a symbolic link swapped between them, with
 any file operation free to fail, and the one-slot queue that feeds the worker.
 */
module CoverPublish {
  import opened Common

  type Image = seq<int>

  datatype File = Absent | Partial | Whole(image: Image)

  /** The two image files, and the slot the published link and the temporary link point to. */
  datatype Disk = Disk(files: seq<File>, tmp: Option<nat>, main: Option<nat>) {
    ghost predicate Ok() {
      |files| == 2 && (tmp.Some? ==> tmp.value < 2) && (main.Some? ==> main.value < 2)
    }
  }

  /** What a reader of the published path gets. */
  function Resolve(d: Disk): File
    requires d.Ok()
  {
    if d.main.None? then Absent else d.files[d.main.value]
  }

  /** Nothing at all or one fully written image. */
  ghost predicate Safe(d: Disk) {
    d.Ok() && !Resolve(d).Partial?
  }

  ghost predicate AllSafe(states: seq<Disk>) {
    forall i :: 0 <= i < |states| ==> Safe(states[i])
  }

  /** Which of the operations of one call go wrong. */
  datatype Faults = Faults(open: bool, write: bool, clearTmp: bool, symlink: bool, rename: bool, cleanUp: bool)

  /** The disk after every single operation of a call, the slot afterwards, and the result. */
  datatype Outcome = Outcome(states: seq<Disk>, slot: nat, ok: bool)

  function Created(d: Disk, k: nat, f: File): (r: Disk)
    requires d.Ok() && k < 2
    ensures r.Ok() && r.tmp == d.tmp && r.main == d.main
  {
    d.(files := d.files[k := f])
  }

  /** Point the published link at the freshly written slot, then clear the other one. */
  function Swap(d: Disk, slot: nat, f: Faults): (o: Outcome)
    requires d.Ok() && slot < 2
    ensures o.slot < 2 && o.states != [] && forall i :: 0 <= i < |o.states| ==> o.states[i].Ok()
  {
    var k := 1 - slot;
    var d3 := if f.clearTmp then d else d.(tmp := None);
    if f.symlink || d3.tmp.Some? then
      Outcome([d3, if f.cleanUp then d3 else Created(d3, k, Absent)], slot, false)
    else
      var d4 := d3.(tmp := Some(k));
      if f.rename then Outcome([d3, d4, if f.cleanUp then d4 else d4.(tmp := None)], slot, false)
      else
        var d5 := d4.(main := Some(k), tmp := None);
        Outcome([d3, d4, d5, if f.cleanUp then d5 else Created(d5, slot, Absent)], k, true)
  }

  function Publish(d: Disk, slot: nat, image: Image, f: Faults): (o: Outcome)
    requires d.Ok() && slot < 2
    ensures o.slot < 2 && forall i :: 0 <= i < |o.states| ==> o.states[i].Ok()
  {
    var k := 1 - slot;
    if f.open then Outcome([], slot, false)
    else
      var d1 := Created(d, k, Partial);
      if f.write then Outcome([d1, if f.cleanUp then d1 else Created(d1, k, Absent)], slot, false)
      else
        var d2 := Created(d1, k, Whole(image));
        var o := Swap(d2, slot, f);
        o.(states := [d1, d2] + o.states)
  }

  function After(d: Disk, o: Outcome): Disk {
    if o.states == [] then d else o.states[|o.states| - 1]
  }

  /** The published link is absent or leads to the whole image of the slot in use. */
  ghost predicate Settled(d: Disk, slot: nat) {
    d.Ok() && slot < 2 && (d.main.Some? ==> d.main.value == slot && d.files[slot].Whole?)
  }

  /** From image a to image b, once. */
  ghost predicate Switches(states: seq<Disk>, a: File, b: File) {
    && (forall i :: 0 <= i < |states| ==> states[i].Ok() && Resolve(states[i]) in {a, b})
    && (forall i, j :: 0 <= i < j < |states| && Resolve(states[i]) == b ==> Resolve(states[j]) == b)
  }

  lemma SwapIsAtomic(d: Disk, slot: nat, image: Image, f: Faults)
    requires Settled(d, slot) && d.files[1 - slot] == Whole(image)
    ensures var o := Swap(d, slot, f);
            && Switches(o.states, Resolve(d), Whole(image)) && Settled(After(d, o), o.slot)
            && Resolve(After(d, o)) == if o.ok then Whole(image) else Resolve(d)
  {
  }

  /**
   One call, seen from outside: every intermediate state shows what was published before or the new
   image, the new image never gives way again, and it is there afterwards exactly when the call says so.
   */
  lemma PublishIsAtomic(d: Disk, slot: nat, image: Image, f: Faults)
    requires Settled(d, slot)
    ensures var o := Publish(d, slot, image, f);
            && Switches(o.states, Resolve(d), Whole(image)) && Settled(After(d, o), o.slot)
            && Resolve(After(d, o)) == if o.ok then Whole(image) else Resolve(d)
  {
    hide Swap, Switches;
    var k, o := 1 - slot, Publish(d, slot, image, f);
    if f.open || f.write {
      NoSwitch(o.states, Resolve(d), Whole(image));
    } else {
      var d1 := Created(d, k, Partial);
      var d2 := Created(d1, k, Whole(image));
      SwapIsAtomic(d2, slot, image, f);
      SwitchLater([d1, d2], Swap(d2, slot, f).states, Resolve(d), Whole(image));
    }
  }

  lemma NoSwitch(states: seq<Disk>, a: File, b: File)
    requires forall i :: 0 <= i < |states| ==> states[i].Ok() && Resolve(states[i]) == a
    ensures Switches(states, a, b)
  {
    hide Resolve;
  }

  lemma SwitchLater(before: seq<Disk>, states: seq<Disk>, a: File, b: File)
    requires Switches(states, a, b) && forall i :: 0 <= i < |before| ==> before[i].Ok() && Resolve(before[i]) == a
    ensures Switches(before + states, a, b)
  {
    hide Resolve;
  }

  /** Where a call ends: what is left in both files and both links, after a success and after each fault. */
  lemma PublishLeaves(d: Disk, slot: nat, image: Image, f: Faults)
    requires d.Ok() && slot < 2
    ensures var (o, k, linked) := (Publish(d, slot, image, f), 1 - slot, !f.symlink && !(f.clearTmp && d.tmp.Some?));
            var e, kept := After(d, o), if f.clearTmp then d.tmp else None;
            && (o.ok <==> !f.open && !f.write && linked && !f.rename) && o.slot == (if o.ok then k else slot)
            && (f.open ==> e == d && o.states == [])
            && (!f.open && f.write ==>
                  e == d.(files := d.files[k := if f.cleanUp then Partial else Absent]))
            && (!f.open && !f.write && !linked ==>
                  e == d.(files := d.files[k := if f.cleanUp then Whole(image) else Absent], tmp := kept))
            && (!f.open && !f.write && linked && f.rename ==>
                  e == d.(files := d.files[k := Whole(image)], tmp := if f.cleanUp then Some(k) else None))
            && (o.ok ==> e.main == Some(k) && e.tmp == None && |e.files| == 2 && e.files[k] == Whole(image)
                         && e.files[slot] == if f.cleanUp then d.files[slot] else Absent)
  {
  }

  // ---- whole runs

  datatype Call = Call(image: Image, faults: Faults)

  datatype Run = Run(disk: Disk, slot: nat, states: seq<Disk>)

  function RunOf(start: Disk, calls: seq<Call>): (r: Run)
    requires start.Ok()
    ensures r.disk.Ok() && r.slot < 2
  {
    if calls == [] then Run(start, 0, [start])
    else
      var (b, c) := (RunOf(start, calls[..|calls| - 1]), calls[|calls| - 1]);
      var o := Publish(b.disk, b.slot, c.image, c.faults);
      Run(After(b.disk, o), o.slot, b.states + o.states)
  }

  /** The latest image whose call succeeded. */
  function Published(start: Disk, calls: seq<Call>): File
    requires start.Ok()
  {
    if calls == [] then Resolve(start)
    else
      var (b, c) := (RunOf(start, calls[..|calls| - 1]), calls[|calls| - 1]);
      if Publish(b.disk, b.slot, c.image, c.faults).ok then Whole(c.image) else Published(start, calls[..|calls| - 1])
  }

  /** After every file operation of any sequence of calls, with any faults, a reader finds nothing or a whole image. */
  lemma {:induction false} NeverPartial(start: Disk, calls: seq<Call>)
    requires Settled(start, 0)
    ensures var r := RunOf(start, calls);
            && Settled(r.disk, r.slot) && Resolve(r.disk) == Published(start, calls)
            && AllSafe(r.states)
  {
    if calls != [] {
      var init, c := calls[..|calls| - 1], calls[|calls| - 1];
      NeverPartial(start, init);
      var b := RunOf(start, init);
      PublishIsAtomic(b.disk, b.slot, c.image, c.faults);
    }
  }

  // ---- when it fails

  const NO_FAULTS := Faults(false, false, false, false, false, false)

  /** No fault whatsoever makes this call show a reader anything partial. */
  ghost predicate CallSafe(d: Disk, slot: nat, image: Image)
    requires d.Ok() && slot < 2
  {
    forall f :: AllSafe(Publish(d, slot, image, f).states)
  }

  /** A call is safe from any disk whatsoever exactly when the link does not lead to the slot about to be rewritten. */
  lemma SafeExactlyWhen(d: Disk, slot: nat, image: Image)
    requires Safe(d) && slot < 2
    ensures CallSafe(d, slot, image) <==> d.main != Some(1 - slot)
  {
    var o := Publish(d, slot, image, NO_FAULTS);
    if d.main == Some(1 - slot) {
      assert !Safe(o.states[0]);
      assert !AllSafe(o.states);
    } else {
      forall f
        ensures AllSafe(Publish(d, slot, image, f).states)
      {
      }
    }
  }

  /** A restart forgets the slot: from then on a call is safe exactly if slot 0 was in use or nothing was published. */
  lemma RestartSafeExactlyWhen(start: Disk, calls: seq<Call>, image: Image)
    requires Settled(start, 0)
    ensures var r := RunOf(start, calls);
            CallSafe(r.disk, 0, image) <==> r.slot == 0 || r.disk.main.None?
  {
    hide CallSafe;
    NeverPartial(start, calls);
    var r := RunOf(start, calls);
    SafeExactlyWhen(r.disk, 0, image);
  }

  /** For instance after one success: the next call of a restarted process empties the file in use. */
  lemma RestartTruncates(a: Image, b: Image)
    ensures var r := RunOf(Disk([Absent, Absent], None, None), [Call(a, NO_FAULTS)]);
            Resolve(r.disk) == Whole(a) && Resolve(Publish(r.disk, 0, b, NO_FAULTS).states[0]) == Partial
  {
    var start := Disk([Absent, Absent], None, None);
    assert [Call(a, NO_FAULTS)][..0] == [];
    assert RunOf(start, []) == Run(start, 0, [start]);
  }

  /** The publisher with its state on disk; `seen` records the disk after every operation. */
  class Publisher {
    var disk: Disk
    var slot: nat
    ghost var seen: seq<Disk>

    ghost predicate Valid()
      reads this
    {
      disk.Ok() && slot < 2
    }

    constructor (d: Disk)
      requires d.Ok()
      ensures Valid() && disk == d && slot == 0 && seen == [d]
    {
      disk, slot, seen := d, 0, [d];
    }

    method Operate(d: Disk)
      requires Valid() && d.Ok()
      modifies this`disk, this`seen
      ensures Valid() && disk == d && seen == old(seen) + [d]
    {
      disk, seen := d, seen + [d];
    }

    method WritePngFile(image: Image, f: Faults) returns (ok: bool)
      requires Valid()
      modifies this
      ensures Valid()
      ensures var o := Publish(old(disk), old(slot), image, f);
              ok == o.ok && slot == o.slot && disk == After(old(disk), o) && seen == old(seen) + o.states
    {
      hide Created, Swap;
      var newSlot := 1 - slot;
      if f.open {
        return false;
      }
      Operate(Created(disk, newSlot, Partial));
      if f.write {
        Operate(if f.cleanUp then disk else Created(disk, newSlot, Absent));
        return false;
      }
      Operate(Created(disk, newSlot, Whole(image)));
      ghost var d1, d2 := Created(old(disk), newSlot, Partial), disk;
      ok := SwapLink(f);
      assert seen == old(seen) + ([d1, d2] + Swap(d2, old(slot), f).states);
    }

    method SwapLink(f: Faults) returns (ok: bool)
      requires Valid()
      modifies this
      ensures Valid()
      ensures var o := Swap(old(disk), old(slot), f);
              ok == o.ok && slot == o.slot && disk == After(old(disk), o) && seen == old(seen) + o.states
    {
      hide Created;
      var newSlot, oldSlot := 1 - slot, slot;
      Operate(if f.clearTmp then disk else disk.(tmp := None));
      if f.symlink || disk.tmp.Some? {
        Operate(if f.cleanUp then disk else Created(disk, newSlot, Absent));
        return false;
      }
      Operate(disk.(tmp := Some(newSlot)));
      if f.rename {
        Operate(if f.cleanUp then disk else disk.(tmp := None));
        return false;
      }
      Operate(disk.(main := disk.tmp, tmp := None));
      Operate(if f.cleanUp then disk else Created(disk, oldSlot, Absent));
      slot := newSlot;
      assert seen == old(seen) + Swap(old(disk), old(slot), f).states;
      return true;
    }
  }

  // ---- the one-slot queue in front of the worker

  /** Buffers are numbered as they are handed over; `freed` lists them as their memory is given back. */
  datatype Queue = Queue(handed: nat, pending: Option<nat>, working: Option<nat>, handled: seq<nat>, freed: seq<nat>)

  datatype Step = Enqueue | Take | Finish

  function Do(q: Queue, e: Step): Queue {
    match e
    case Enqueue =>
      q.(handed := q.handed + 1, pending := Some(q.handed),
         freed := q.freed + if q.pending.Some? then [q.pending.value] else [])
    case Take =>
      if q.pending.Some? && q.working.None? then q.(pending := None, working := q.pending) else q
    case Finish =>
      if q.working.Some? then
        q.(working := None, handled := q.handled + [q.working.value], freed := q.freed + [q.working.value])
      else q
  }

  function Play(es: seq<Step>): Queue {
    if es == [] then Queue(0, None, None, [], []) else Do(Play(es[..|es| - 1]), es[|es| - 1])
  }

  function Held(o: Option<nat>): multiset<nat> {
    if o.Some? then multiset{o.value} else multiset{}
  }

  /** Every buffer is pending, being worked on, or freed, and never two of these or twice one of them. */
  ghost predicate FreedOnce(q: Queue) {
    forall b: nat ::
      (multiset(q.freed) + Held(q.pending) + Held(q.working))[b] == if b < q.handed then 1 else 0
  }

  ghost predicate Below(s: seq<nat>, n: nat) {
    forall i :: 0 <= i < |s| ==> s[i] < n
  }

  /** Buffers are worked on in order, and the newest is never the one dropped. */
  ghost predicate LatestWins(q: Queue) {
    && (forall i, j :: 0 <= i < j < |q.handled| ==> q.handled[i] < q.handled[j])
    && Below(q.handled, q.handed)
    && (q.working.Some? ==> q.working.value < q.handed && Below(q.handled, q.working.value))
    && (q.pending.Some? ==> q.pending.value + 1 == q.handed && Below(q.handled, q.pending.value))
    && (q.working.Some? && q.pending.Some? ==> q.working.value < q.pending.value)
    && (q.handed == 0 || q.pending.Some? || q.working == Some(q.handed - 1)
        || (q.handled != [] && q.handled[|q.handled| - 1] == q.handed - 1))
  }

  lemma DoFreesOnce(q: Queue, e: Step)
    requires FreedOnce(q) && LatestWins(q)
    ensures FreedOnce(Do(q, e))
  {
    hide Below;
    var r := Do(q, e);
    assert e.Enqueue? && q.pending.Some? ==> multiset(r.freed) == multiset(q.freed) + Held(q.pending);
    assert e.Finish? && q.working.Some? ==> multiset(r.freed) == multiset(q.freed) + Held(q.working);
    forall b: nat
      ensures (multiset(r.freed) + Held(r.pending) + Held(r.working))[b] == if b < r.handed then 1 else 0
    {
      assert (multiset(q.freed) + Held(q.pending) + Held(q.working))[b] == if b < q.handed then 1 else 0;
    }
  }

  lemma DoKeepsOrder(q: Queue, e: Step)
    requires LatestWins(q)
    ensures LatestWins(Do(q, e))
  {
  }

  /** Once nothing is queued and the worker rests, the last image handed over was handled last, and all are freed. */
  lemma {:induction false} WorkerRun(es: seq<Step>)
    ensures FreedOnce(Play(es)) && LatestWins(Play(es))
    ensures var q := Play(es);
            q.pending.None? && q.working.None? && q.handed > 0 ==>
              && q.handled != [] && q.handled[|q.handled| - 1] == q.handed - 1
              && forall b: nat :: multiset(q.freed)[b] == if b < q.handed then 1 else 0
  {
    if es != [] {
      WorkerRun(es[..|es| - 1]);
      DoFreesOnce(Play(es[..|es| - 1]), es[|es| - 1]);
      DoKeepsOrder(Play(es[..|es| - 1]), es[|es| - 1]);
    }
    var q := Play(es);
    if q.pending.None? && q.working.None? {
      assert multiset(q.freed) + Held(q.pending) + Held(q.working) == multiset(q.freed);
    }
  }

  /** The queue as the reading thread and the worker thread change it, one critical section per method. */
  class Worker {
    const started: bool
    var handed: nat
    var pending: Option<nat>
    var working: Option<nat>
    var handled: seq<nat>
    var freed: seq<nat>

    ghost function View(): Queue
      reads this
    {
      Queue(handed, pending, working, handled, freed)
    }

    constructor (started: bool)
      ensures View() == Play([]) && this.started == started
    {
      this.started := started;
      handed, pending, working, handled, freed := 0, None, None, [], [];
    }

    /** Hand over a buffer; without a worker it is handled on the spot. */
    method EnqueueImage()
      requires !started ==> pending.None? && working.None?
      modifies this
      ensures View() == if started then Do(old(View()), Enqueue)
                        else Do(Do(Do(old(View()), Enqueue), Take), Finish)
    {
      var data := handed;
      handed := handed + 1;
      if !started {
        handled, freed := handled + [data], freed + [data];
        return;
      }
      freed := freed + match pending case Some(older) => [older] case None => [];
      pending := Some(data);
    }

    method TakePending()
      requires started && pending.Some? && working.None?
      modifies this`pending, this`working
      ensures View() == Do(old(View()), Take)
    {
      working, pending := pending, None;
    }

    method FinishImage()
      requires working.Some?
      modifies this`working, this`handled, this`freed
      ensures View() == Do(old(View()), Finish)
    {
      handled, freed := handled + [working.value], freed + [working.value];
      working := None;
    }
  }
}
