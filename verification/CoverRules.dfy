/** The cover-art stream by its bytes and numbers: packets, payloads, sessions, images and buffers. */
module CoverRules {
  import opened Bits
  import opened Common
  import opened CoverPackets
  import opened CoverStream
  import opened CoverSlot

  // ---- packets

  /** Which four bytes make the parser take a packet, and which make it wait; all others are skipped. */
  lemma LookRule(raw: seq<byte>, i: nat)
    requires i + 4 <= |raw|
    ensures var n := (raw[i + 2] as int) * 256 + raw[i + 3];
            var header := raw[i] == 0xFF && raw[i + 1] == 0x5A && n >= 4;
            && (LookAt(raw, i).Accept? <==>
                  header && if i + n + 2 <= |raw| then raw[i + n] == 0xFF && raw[i + n + 1] == 0x5A
                            else i == 0 && i + n <= |raw|)
            && (LookAt(raw, i).Accept? ==> LookAt(raw, i).len == n)
            && (LookAt(raw, i).Wait? <==> header && i + n + 2 > |raw| && (i > 0 || n > |raw|))
  {
  }

  /** The packets whose last byte has arrived are taken, all but the first only once two more bytes have. */
  lemma {:induction false} TakenExactlyWhen(n: nat, ps: seq<Packet>, j: nat)
    requires AllWellFormed(ps) && j < |ps|
    ensures j < Ready(n, ps, true) <==> n >= Size(ps[..j + 1]) + if j == 0 then 0 else 2
  {
    TakenLater(n, ps, true, j);
  }

  lemma {:induction false} TakenLater(n: nat, ps: seq<Packet>, first: bool, j: nat)
    requires AllWellFormed(ps) && j < |ps|
    ensures j < Ready(n, ps, first) <==> n >= Size(ps[..j + 1]) + if first && j == 0 then 0 else 2
  {
    hide AllWellFormed, WellFormed;
    PartsWellFormed(ps);
    var rest := ps[1..];
    assert ps[..j + 1][1..] == rest[..j];
    if j == 0 {
      assert Size(ps[..1]) == |ps[0]| + Size([]);
    } else {
      FirstIsLess(rest, j);
      if n >= |ps[0]| {
        TakenLater(n - |ps[0]|, rest, false, j - 1);
      }
    }
  }

  lemma FirstIsLess(ps: seq<Packet>, j: nat)
    requires AllWellFormed(ps) && 0 < j <= |ps|
    ensures Size(ps[..j]) >= 4
  {
    assert WellFormed(ps[0]);
  }

  /** Bytes in front of a stream of packets are passed over if none of them is FF, and cost no packet. */
  lemma {:induction false} Resynchronises(junk: seq<byte>, got: seq<byte>, ps: seq<Packet>, i: nat)
    requires i <= |junk| && 0xFF !in junk && AllWellFormed(ps) && got <= Concat(ps)
    ensures var k := Ready(|got|, ps, junk == []);
            Size(ps[..k]) <= |got| && Scan(junk + got, i).0 == ps[..k]
            && (|got| >= 4 ==> Scan(junk + got, i).1 == |junk| + Size(ps[..k]))
    decreases |junk| - i
  {
    hide Concat, AllWellFormed, Size, Ready;
    var raw := junk + got;
    assert raw[|junk|..] == got;
    if i == |junk| {
      ScanFramed(raw, i, ps);
    } else {
      Resynchronises(junk, got, ps, i + 1);
      assert raw[i] == junk[i] && junk[i] in junk;
      if i + 4 <= |raw| {
        ScanPasses(raw, i);
      } else {
        TooFewReady(|got|, ps, junk == []);
      }
    }
  }

  lemma TooFewReady(n: nat, ps: seq<Packet>, first: bool)
    requires AllWellFormed(ps) && n < 4
    ensures Ready(n, ps, first) == 0
  {
    PartsWellFormed(ps);
  }

  lemma ScanPasses(raw: seq<byte>, i: nat)
    requires i + 4 <= |raw| && raw[i] != 0xFF
    ensures Scan(raw, i) == Scan(raw, i + 1)
  {
  }

  // ---- buffers

  /** Buffers start at 64 KiB, grow by doubling, and no further than needed. */
  lemma {:induction false} BufferRule(cap: nat, need: nat) returns (d: nat)
    ensures need <= cap ==> NextCap(cap, need) == cap
    ensures need > cap ==>
              var from := if cap == 0 then 65536 else 2 * cap;
              NextCap(cap, need) == Shl(from, d) && NextCap(cap, need) >= need && (d > 0 ==> Shl(from, d - 1) < need)
  {
    d := DoublingRule(if cap == 0 then 65536 else 2 * cap, need);
  }

  lemma {:induction false} DoublingRule(c: nat, n: nat) returns (d: nat)
    requires c > 0
    ensures Doubled(c, n) == Shl(c, d) && (d > 0 ==> Shl(c, d - 1) < n)
    decreases n - c
  {
    d := 0;
    if c < n {
      d := DoublingRule(2 * c, n);
      ShlDouble(c, d);
      if d > 0 {
        ShlDouble(c, d - 1);
      }
      d := d + 1;
    }
  }

  // ---- payloads and sessions

  /** Eleven bytes of headers, one byte behind. */
  lemma PayloadRule(p: Packet)
    ensures Payload(p) == if |p| >= 13 then p[11..|p| - 1] else []
  {
  }

  /** Two bytes FF m at position i. */
  predicate MarkerAt(s: seq<byte>, i: nat, m: byte) {
    i + 2 <= |s| && s[i] == 0xFF && s[i + 1] == m
  }

  lemma MarkerOccurs(s: seq<byte>, i: nat, m: byte)
    ensures OccursAt(s, [0xFF, m], i) <==> MarkerAt(s, i, m)
  {
    if i + 2 <= |s| {
      assert s[i..i + 2] == [s[i], s[i + 1]];
    }
  }

  /** A packet opens a session if FF D8 lies within its payload. */
  lemma OpensRule(p: Packet)
    ensures Opens(p) <==> exists j: nat :: 11 <= j && j + 3 <= |p| && MarkerAt(p, j, 0xD8)
  {
    hide Find, OccursAt;
    if |p| >= 13 {
      var s := Payload(p);
      forall j: nat | 11 <= j && j + 3 <= |p|
        ensures OccursAt(s, Soi(), j - 11) <==> MarkerAt(p, j, 0xD8)
      {
        MarkerOccurs(s, j - 11, 0xD8);
      }
      FindsFirst(s, Soi());
      if Opens(p) {
        var at := Find(s, Soi(), 0).value;
        MarkerOccurs(s, at, 0xD8);
        assert MarkerAt(p, 11 + at, 0xD8);
      }
    }
  }

  lemma FindsFirst(h: seq<byte>, n: seq<byte>)
    ensures Find(h, n, 0).Some? ==> OccursAt(h, n, Find(h, n, 0).value)
    ensures Find(h, n, 0).None? ==> forall j: nat :: !OccursAt(h, n, j)
  {
  }

  /** What is collected: nothing up to a packet that opens a session, then that session's payloads, told by byte 7. */
  lemma CollectedRule(ps: seq<Packet>, p: Packet)
    ensures Collected([]) == (-1, [])
    ensures var (t, d) := Collected(ps);
            Collected(ps + [p]) == if t == -1 then if Opens(p) then (p[7] as int, p[11..|p| - 1]) else (-1, [])
                                   else if |p| >= 13 && p[7] == t then (t, d + p[11..|p| - 1])
                                   else (t, d)
  {
    hide Payload, Opener, Session;
    CollectedSnoc(ps, p);
    PayloadRule(p);
    NothingCollected();
    assert Collected(ps).1 + [] == Collected(ps).1;
  }

  /** The size a buffer of size cap has after it had to hold need bytes: as above, but never more than 32 MiB. */
  predicate CapRight(cap: nat, need: nat, after: nat) {
    after == if need <= cap then cap else if NextCap(cap, need) <= 33554432 then NextCap(cap, need) else 33554432
  }

  /** A packet's effect on a collection of at most 32 MiB; one without a payload has none. */
  lemma AbsorbRule(j: Jpeg, p: Packet)
    ensures |p| < 13 ==> Absorb(j, p) == (j, false)
    ensures |p| >= 13 ==>
            var target := if j.target == -1 && Opens(p) then p[7] else j.target;
            var (r, stop) := Absorb(j, p);
            if target != p[7] then r == j.(target := target) && !stop
            else if |j.data| + |p| - 12 > j.cap && |j.data| + |p| - 12 > 33554432 then r == Jpeg(-1, [], 0) && stop
            else r.target == target && r.data == j.data + p[11..|p| - 1] && !stop && CapRight(j.cap, |r.data|, r.cap)
  {
  }

  // ---- images

  /** An image runs from the first FF D8 to the end of the first FF D9 from there on. */
  lemma ImageRule(s: seq<byte>, a: nat, b: nat)
    requires MarkerAt(s, a, 0xD8) && forall i: nat :: i < a ==> !MarkerAt(s, i, 0xD8)
    requires a <= b && MarkerAt(s, b, 0xD9) && forall i: nat :: a <= i < b ==> !MarkerAt(s, i, 0xD9)
    ensures ImageIn(s) == Some(s[a..b + 2])
  {
    hide Find, OccursAt;
    FirstAt(s, Soi(), a, 0xD8);
    forall i: nat | i < b - a
      ensures !MarkerAt(s[a..], i, 0xD9)
    {
      assert !MarkerAt(s, a + i, 0xD9);
    }
    FirstAt(s[a..], Eoi(), b - a, 0xD9);
  }

  lemma FirstAt(h: seq<byte>, n: seq<byte>, at: nat, m: byte)
    requires n == [0xFF, m] && MarkerAt(h, at, m) && forall i: nat :: i < at ==> !MarkerAt(h, i, m)
    ensures Find(h, n, 0) == Some(at)
  {
    MarkerOccurs(h, at, m);
    forall j: nat | j < at
      ensures !OccursAt(h, n, j)
    {
      MarkerOccurs(h, j, m);
    }
  }

  lemma ImagesEnd(s: seq<byte>)
    ensures ImageIn(s).None? <==> forall a: nat, b: nat :: a <= b && MarkerAt(s, a, 0xD8) ==> !MarkerAt(s, b, 0xD9)
  {
    hide Find, OccursAt;
    FindsFirst(s, Soi());
    match Find(s, Soi(), 0)
    case None =>
      forall a: nat
        ensures !MarkerAt(s, a, 0xD8)
      {
        MarkerOccurs(s, a, 0xD8);
      }
    case Some(a) =>
      MarkerOccurs(s, a, 0xD8);
      FindsNoneBefore(s, Soi(), a);
      FindsFirst(s[a..], Eoi());
      forall i: nat
        ensures OccursAt(s[a..], Eoi(), i) <==> MarkerAt(s, a + i, 0xD9)
      {
        MarkerOccurs(s[a..], i, 0xD9);
      }
      forall c: nat, b: nat | c <= b && MarkerAt(s, c, 0xD8) && MarkerAt(s, b, 0xD9)
        ensures a <= b && OccursAt(s[a..], Eoi(), b - a)
      {
        MarkerOccurs(s, c, 0xD8);
      }
  }

  lemma FindsNoneBefore(h: seq<byte>, n: seq<byte>, at: nat)
    requires Find(h, n, 0) == Some(at)
    ensures forall j: nat :: j < at ==> !OccursAt(h, n, j)
  {
  }

  /** After an image, or past 10 MiB without one, collection starts over; the second time its buffer goes too. */
  lemma DeliveredRule(j: Jpeg)
    ensures ImageIn(j.data).Some? ==> Delivered(j) == Jpeg(-1, [], j.cap)
    ensures ImageIn(j.data).None? ==> Delivered(j) == if |j.data| > 10485760 then Jpeg(-1, [], 0) else j
  {
  }

  // ---- overflow

  /** A read is dropped, with what was waiting, exactly if that makes more than 1 MiB; none up to 983040 bytes is. */
  lemma OverflowRule(s: Slot, n: nat)
    requires Good(s) && n > 0
    ensures Overflows(s, n) <==> |s.raw| + n > 1048576
    ensures n <= 983040 ==> !Overflows(s, n)
  {
    OverflowNeedsHugeRead(s, n);
  }

  // ---- giving up

  /** Sixty-four reads without a packet, and the descriptor is given up; not one sooner. */
  lemma {:induction false} GivesUpAfter64(chunks: seq<seq<byte>>, known: bool)
    requires forall i :: 0 <= i < |chunks| ==> 0 < |chunks[i]| <= 983040
    requires RunOf(chunks, known).packets == []
    ensures var s := RunOf(chunks, known).slot;
            Good(s) && s.known == known && !s.carplay && (s.skip <==> |chunks| >= 64)
            && (0 < |chunks| < 64 ==> s.active && s.probes == |chunks|)
  {
    hide Scan, AbsorbAll, Delivered, ImageIn, NextCap, Overflows, IsCap, JpegOk, Good;
    if chunks != [] {
      var init, buf := chunks[..|chunks| - 1], chunks[|chunks| - 1];
      GivesUpAfter64(init, known);
      ProbeStep(RunOf(init, known).slot, buf);
    } else {
      UnusedGood(known);
    }
  }

  lemma UnusedGood(known: bool)
    ensures Good(Unused(known))
  {
  }

  /** A read that brings no packet. */
  lemma ProbeStep(s: Slot, buf: seq<byte>)
    requires Good(s) && !s.carplay && 0 < |buf| <= 983040 && Fed(s, buf).packets == []
    ensures var t, n := Fed(s, buf).slot, (if s.active then s.probes else 0) + 1;
            && Good(t) && t.known == s.known && !t.carplay
            && (s.skip ==> t.skip)
            && (!s.skip ==> (t.skip <==> n >= 64) && (n < 64 ==> t.active && t.probes == n))
  {
    hide Scan, AbsorbAll, Delivered, ImageIn, NextCap, Overflows, IsCap, JpegOk;
    HandledGood(s, buf);
    OpenedGood(s);
    OverflowNeedsHugeRead(Opened(s), |buf|);
  }

  /** Reads from a descriptor so given up are let through unread, unless it is the one that was asked for. */
  lemma FilterRule(s: Slot, buf: seq<byte>)
    ensures !s.known && s.skip ==> Fed(s, buf) == Outcome(s, [], None)
    ensures s.known || !s.skip ==> Fed(s, buf) == Handled(s, buf)
  {
  }
}
