/**
 The shared state of the bus and its critical sections: a 256-slot ring, the sequence counter, the
 sticky cache and the current connection.  Each method of class Bus is one section under the lock
 and is tied to a function on the value Shared, over which the protocol is studied.
 */
module BusCore {
  import opened Bits
  import opened BusFrame
  import opened Common

  const CAPACITY: nat := 256
  const MAX_TYPES: nat := 0x40
  const FLAG_STICKY: nat := 1
  const FLAG_REPLAY: nat := 4

  const HELLO: nat := 1
  const SYNC_BEGIN: nat := 2
  const SYNC_END: nat := 3

  /** The lock-protected state: queued frames oldest first, one cache entry and one sticky flag per type. */
  datatype Shared = Shared(queue: seq<Frame>, txSeq: nat, current: Option<nat>,
                           cache: seq<Option<Frame>>, sticky: seq<bool>)
  {
    ghost predicate Ok() {
      |queue| <= CAPACITY && |cache| == MAX_TYPES && |sticky| == MAX_TYPES
    }
  }

  datatype Outcome = Accepted | BadParameter | Busy

  predicate IsSticky(sh: Shared, typ: nat, flags: nat)
    requires typ < |sh.sticky|
  {
    flags % 2 == 1 || sh.sticky[typ]
  }

  predicate BadSend(typ: nat, payload: seq<byte>) {
    |payload| > MAX_PAYLOAD || typ >= MAX_TYPES
  }

  /** A send: the cache is updated even if the queue then has no room, and a number is kept only for a queued frame. */
  function Send(sh: Shared, typ: nat, flags: nat, payload: seq<byte>): (r: (Shared, Outcome))
    requires sh.Ok()
    ensures r.0.Ok()
  {
    if BadSend(typ, payload) then (sh, BadParameter)
    else
      var f := Frame(typ, flags, sh.txSeq, payload);
      var cached := if IsSticky(sh, typ, flags) then sh.(cache := sh.cache[typ := Some(f)]) else sh;
      if |sh.queue| == CAPACITY then (cached, Busy)
      else (cached.(queue := sh.queue + [f], txSeq := sh.txSeq + 1), Accepted)
  }

  function SetReplay(flags: nat): nat {
    if flags / 4 % 2 == 1 then flags else flags + FLAG_REPLAY
  }

  /** The cached frames of types below n, in type order, marked as replays and keeping their numbers. */
  function Replays(cache: seq<Option<Frame>>, n: nat): (fs: seq<Frame>)
    requires n <= |cache|
    ensures |fs| <= n
  {
    if n == 0 then []
    else Replays(cache, n - 1) +
         match cache[n - 1]
         case None => []
         case Some(f) => [f.(flags := SetReplay(f.flags))]
  }

  function Snapshot(sh: Shared): seq<Frame>
    requires sh.Ok()
  {
    [Frame(SYNC_BEGIN, 0, sh.txSeq, [])] + Replays(sh.cache, MAX_TYPES) + [Frame(SYNC_END, 0, sh.txSeq + 1, [])]
  }

  /** Each cached frame lies under its own type. */
  ghost predicate CachedByType(cache: seq<Option<Frame>>) {
    forall t :: 0 <= t < |cache| && cache[t].Some? ==> cache[t].value.typ == t
  }

  /** A frame of a cached type with its payload and number; of its flags, bit 2 is set and the others are as cached. */
  ghost predicate ReplayOf(r: Frame, cache: seq<Option<Frame>>) {
    && r.typ < |cache| && cache[r.typ].Some?
    && var f := cache[r.typ].value;
    && r.payload == f.payload && r.seqno == f.seqno
    && r.flags / 4 % 2 == 1 && r.flags % 4 == f.flags % 4 && r.flags / 8 == f.flags / 8
  }

  ghost predicate HasType(fs: seq<Frame>, t: nat) {
    exists i :: 0 <= i < |fs| && fs[i].typ == t
  }

  /** One such frame for each cached type below n, and no others, in strictly increasing order of type. */
  ghost predicate ReplaysOf(fs: seq<Frame>, cache: seq<Option<Frame>>, n: nat)
    requires n <= |cache|
  {
    && (forall i :: 0 <= i < |fs| ==> ReplayOf(fs[i], cache) && fs[i].typ < n)
    && (forall i, j :: 0 <= i < j < |fs| ==> fs[i].typ < fs[j].typ)
    && (forall t: nat :: t < n && cache[t].Some? ==> HasType(fs, t))
  }

  /** An empty frame of type 2, the replays, and an empty frame of type 3 with the number after that of the first. */
  ghost predicate SnapshotOf(fs: seq<Frame>, n: nat, cache: seq<Option<Frame>>) {
    && |fs| >= 2 && fs[0] == Frame(2, 0, n, []) && fs[|fs| - 1] == Frame(3, 0, n + 1, [])
    && ReplaysOf(fs[1..|fs| - 1], cache, |cache|)
  }

  lemma ReplayFlags(flags: nat)
    ensures var r := SetReplay(flags); r / 4 % 2 == 1 && r % 4 == flags % 4 && r / 8 == flags / 8
  {
    var q, lo := flags / 8, flags % 8;
    ThreeLow(flags, q, lo);
    if lo < 4 {
      ThreeLow(flags + 4, q, lo + 4);
    }
  }

  lemma ThreeLow(v: nat, q: nat, lo: nat)
    requires lo < 8 && v == 8 * q + lo
    ensures v / 8 == q && v / 4 % 2 == (if lo < 4 then 0 else 1) && v % 4 == if lo < 4 then lo else lo - 4
  {
    assert v / 4 == 2 * q + if lo < 4 then 0 else 1;
  }

  lemma MoreTypes(fs: seq<Frame>, r: Frame, t: nat)
    ensures HasType(fs, t) || r.typ == t ==> HasType(fs + [r], t)
  {
    var all := fs + [r];
    assert all[|fs|] == r;
    if HasType(fs, t) {
      var i :| 0 <= i < |fs| && fs[i].typ == t;
      assert all[i].typ == t;
    }
  }

  lemma OneMoreReplay(fs: seq<Frame>, cache: seq<Option<Frame>>, n: nat, r: Frame)
    requires n < |cache| && ReplaysOf(fs, cache, n)
    ensures cache[n].None? ==> ReplaysOf(fs, cache, n + 1)
    ensures ReplayOf(r, cache) && r.typ == n ==> ReplaysOf(fs + [r], cache, n + 1)
  {
    hide HasType, ReplayOf;
    forall t: nat
      ensures HasType(fs, t) || r.typ == t ==> HasType(fs + [r], t)
    {
      MoreTypes(fs, r, t);
    }
  }

  lemma {:induction false} ReplaysBelow(cache: seq<Option<Frame>>, n: nat)
    requires n <= |cache| && CachedByType(cache)
    ensures ReplaysOf(Replays(cache, n), cache, n)
  {
    hide SetReplay, ReplaysOf;
    if n == 0 {
      NoReplays(cache);
    } else {
      ReplaysBelow(cache, n - 1);
      var fs := Replays(cache, n - 1);
      match cache[n - 1]
      case None =>
        OneMoreReplay(fs, cache, n - 1, Frame(0, 0, 0, []));
        assert fs + [] == fs;
      case Some(f) =>
        ReplayFlags(f.flags);
        OneMoreReplay(fs, cache, n - 1, f.(flags := SetReplay(f.flags)));
    }
  }

  lemma NoReplays(cache: seq<Option<Frame>>)
    ensures ReplaysOf([], cache, 0)
  {
  }

  lemma SnapshotIs(sh: Shared)
    requires sh.Ok() && CachedByType(sh.cache)
    ensures SnapshotOf(Snapshot(sh), sh.txSeq, sh.cache)
  {
    hide Replays, ReplaysOf;
    ReplaysBelow(sh.cache, MAX_TYPES);
    var fs := Snapshot(sh);
    assert fs[1..|fs| - 1] == Replays(sh.cache, MAX_TYPES);
  }

  /** What a send does, by its numbers: 64 types, 131072 bytes, 256 places in the queue, flag bit 0 for sticky. */
  lemma SendRule(sh: Shared, typ: nat, flags: nat, payload: seq<byte>)
    requires sh.Ok()
    ensures |sh.sticky| == |sh.cache| == 64 && |sh.queue| <= 256
    ensures var (after, r) := Send(sh, typ, flags, payload);
            var f := Frame(typ, flags, sh.txSeq, payload);
            && (r == BadParameter <==> typ >= 64 || |payload| > 131072)
            && (r == Busy <==> typ < 64 && |payload| <= 131072 && |sh.queue| == 256)
            && (r == Accepted <==> typ < 64 && |payload| <= 131072 && |sh.queue| < 256)
            && after.queue == (if r == Accepted then sh.queue + [f] else sh.queue)
            && after.txSeq == (if r == Accepted then sh.txSeq + 1 else sh.txSeq)
            && after.current == sh.current && after.sticky == sh.sticky && |after.cache| == 64
            && forall t: nat :: t < 64 ==>
                 after.cache[t] == if r != BadParameter && t == typ && (flags % 2 == 1 || sh.sticky[t]) then Some(f)
                                   else sh.cache[t]
  {
  }

  /** Position i of the queue lives in this slot. */
  function SlotOf(head: nat, i: nat): nat {
    (head + i) % CAPACITY
  }

  lemma SlotsDiffer(head: nat, i: nat, j: nat)
    requires i < j < CAPACITY
    ensures SlotOf(head, i) != SlotOf(head, j)
  {
  }

  /** The fixed ring; a slot outside the queue holds no frame, so every payload copy has one owner. */
  class SendQueue {
    const ring: array<Option<Frame>>
    var head: nat
    var tail: nat
    var count: nat
    ghost var contents: seq<Frame>

    ghost predicate Valid()
      reads this, ring
    {
      && ring.Length == CAPACITY && head < CAPACITY && count <= CAPACITY
      && tail == SlotOf(head, count) && |contents| == count
      && (forall i :: 0 <= i < count ==> ring[SlotOf(head, i)] == Some(contents[i]))
      && (forall i :: count <= i < CAPACITY ==> ring[SlotOf(head, i)] == None)
    }

    constructor ()
      ensures Valid() && contents == [] && fresh(ring)
    {
      ring := new Option<Frame>[CAPACITY](_ => None);
      head, tail, count := 0, 0, 0;
      contents := [];
    }

    method Enqueue(f: Frame) returns (ok: bool)
      requires Valid()
      modifies this, ring
      ensures Valid() && ok == (|old(contents)| < CAPACITY)
      ensures contents == if ok then old(contents) + [f] else old(contents)
    {
      if count == CAPACITY {
        return false;
      }
      forall i | 0 <= i < CAPACITY && i != count
        ensures SlotOf(head, i) != tail
      {
        if i < count {
          SlotsDiffer(head, i, count);
        } else {
          SlotsDiffer(head, count, i);
        }
      }
      ring[tail] := Some(f);
      tail := (tail + 1) % CAPACITY;
      count := count + 1;
      contents := contents + [f];
      ok := true;
    }

    method Dequeue() returns (r: Option<Frame>)
      requires Valid()
      modifies this, ring
      ensures Valid()
      ensures old(contents) == [] ==> r == None && contents == []
      ensures old(contents) != [] ==> r == Some(old(contents)[0]) && contents == old(contents)[1..]
    {
      if count == 0 {
        return None;
      }
      assert SlotOf(head, 0) == head;
      forall i | 0 < i < CAPACITY
        ensures SlotOf(head, i) != head
      {
        SlotsDiffer(head, 0, i);
      }
      r := ring[head];
      ring[head] := None;
      ghost var h := head;
      head := (head + 1) % CAPACITY;
      count := count - 1;
      contents := contents[1..];
      forall i | 0 <= i < CAPACITY
        ensures SlotOf(head, i) == if i + 1 < CAPACITY then SlotOf(h, i + 1) else h
      {
      }
    }
  }

  /** The bus itself, one method per critical section. */
  class Bus {
    const queue: SendQueue
    const last: array<Option<Frame>>
    const sticky: array<bool>
    var txSeq: nat
    var clientFd: Option<nat>

    ghost predicate Valid()
      reads this, queue, queue.ring, last, sticky
    {
      && queue.Valid() && last.Length == MAX_TYPES && sticky.Length == MAX_TYPES && last != queue.ring
      && CachedByType(last[..])
    }

    ghost function View(): (sh: Shared)
      requires Valid()
      reads this, queue, queue.ring, last, sticky
      ensures sh.Ok()
    {
      Shared(queue.contents, txSeq, clientFd, last[..], sticky[..])
    }

    constructor ()
      ensures Valid()
      ensures View() == Shared([], 1, None, seq(MAX_TYPES, _ => None), seq(MAX_TYPES, _ => false))
    {
      queue := new SendQueue();
      last := new Option<Frame>[MAX_TYPES](_ => None);
      sticky := new bool[MAX_TYPES](_ => false);
      txSeq := 1;
      clientFd := None;
      new;
      assert last[..] == seq(MAX_TYPES, _ => None);
      assert sticky[..] == seq(MAX_TYPES, _ => false);
    }

    method SetSticky(typ: nat, on: bool)
      requires Valid()
      modifies sticky
      ensures Valid()
      ensures View() == if typ < MAX_TYPES then old(View()).(sticky := old(sticky[..])[typ := on]) else old(View())
    {
      if typ < MAX_TYPES {
        sticky[typ] := on;
      }
    }

    /** Number the frame, cache it if sticky, queue it; if the queue is full the number is handed back. */
    method BusSend(typ: nat, flags: nat, payload: seq<byte>) returns (r: Outcome)
      requires Valid()
      modifies this, queue, queue.ring, last
      ensures Valid() && (View(), r) == Send(old(View()), typ, flags, payload)
    {
      if |payload| > MAX_PAYLOAD {
        return BadParameter;
      }
      if typ >= MAX_TYPES {
        return BadParameter;
      }
      var mySeq := txSeq;
      txSeq := txSeq + 1;
      var f := Frame(typ, flags, mySeq, payload);
      if flags % 2 == 1 || sticky[typ] {
        last[typ] := Some(f);
      }
      var ok := queue.Enqueue(f);
      if !ok {
        if txSeq == mySeq + 1 {
          txSeq := txSeq - 1;
        }
      }
      r := if ok then Accepted else Busy;
    }

    method NextSeq() returns (n: nat)
      requires Valid()
      modifies this`txSeq
      ensures Valid() && n == old(txSeq) && View() == old(View()).(txSeq := n + 1)
    {
      n := txSeq;
      txSeq := txSeq + 1;
    }

    /** The frames of a replay, copied out together with the two numbers that bracket them. */
    method TakeSnapshot() returns (frames: seq<Frame>)
      requires Valid()
      modifies this`txSeq
      ensures Valid() && frames == Snapshot(old(View())) && SnapshotOf(frames, old(txSeq), last[..])
      ensures View() == old(View()).(txSeq := old(txSeq) + 2)
    {
      SnapshotIs(View());
      hide ReplaysOf, SetReplay, CachedByType;
      var begin := Frame(SYNC_BEGIN, 0, txSeq, []);
      var end := Frame(SYNC_END, 0, txSeq + 1, []);
      txSeq := txSeq + 2;
      frames := [begin];
      for i := 0 to MAX_TYPES
        invariant frames == [begin] + Replays(last[..], i)
      {
        match last[i] {
          case None =>
          case Some(f) =>
            frames := frames + [f.(flags := SetReplay(f.flags))];
        }
      }
      frames := frames + [end];
    }

    /** What the writer does once it may: take the oldest frame and note the current connection. */
    method WriterTake() returns (job: Option<(Frame, nat)>)
      requires Valid()
      modifies queue, queue.ring
      ensures Valid()
      ensures old(View()).queue == [] || clientFd == None ==> job == None && View() == old(View())
      ensures old(View()).queue != [] && clientFd.Some? ==>
                && job == Some((old(View()).queue[0], clientFd.value))
                && View() == old(View()).(queue := old(View()).queue[1..])
    {
      if queue.count == 0 || clientFd == None {
        return None;
      }
      var f := queue.Dequeue();
      job := Some((f.value, clientFd.value));
    }

    /** Close the connection if it is still the current one. */
    method CloseIfCurrent(fd: nat)
      requires Valid()
      modifies this`clientFd
      ensures Valid()
      ensures View() == if old(clientFd) == Some(fd) then old(View()).(current := None) else old(View())
    {
      if clientFd == Some(fd) {
        clientFd := None;
      }
    }

    /** Make a greeted connection the current one; `stale` tells whether another had to be closed. */
    method Expose(fd: nat) returns (stale: bool)
      requires Valid()
      modifies this`clientFd
      ensures Valid() && stale == old(clientFd).Some? && View() == old(View()).(current := Some(fd))
    {
      stale := clientFd.Some?;
      clientFd := Some(fd);
    }
  }
}
