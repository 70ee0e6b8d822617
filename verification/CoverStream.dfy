/**
 One stream slot of the cover-art hook: bytes read from a descriptor are buffered, framed into
 packets, and the payloads of the session that carries a JPEG are collected until it is complete.
 */
module CoverStream {
  import opened Bits
  import opened Common
  import opened CoverPackets

  const STRIP: nat := 11
  const TRAILER: nat := 1
  const FIRST_CAP: nat := 65536
  const STREAM_MAX: nat := 0x10_0000
  const JPEG_CAP_MAX: nat := 0x200_0000
  const JPEG_LIMIT: nat := 0xA0_0000
  const PROBE_LIMIT: nat := 64

  function Soi(): seq<byte> {
    [0xFF, 0xD8]
  }

  function Eoi(): seq<byte> {
    [0xFF, 0xD9]
  }

  // ---- search

  predicate OccursAt(h: seq<byte>, n: seq<byte>, i: nat) {
    i + |n| <= |h| && h[i..i + |n|] == n
  }

  /** The first occurrence of n in h at or after i. */
  function Find(h: seq<byte>, n: seq<byte>, i: nat): (r: Option<nat>)
    requires i <= |h|
    ensures r.Some? ==> i <= r.value && OccursAt(h, n, r.value) && forall j :: i <= j < r.value ==> !OccursAt(h, n, j)
    ensures r.None? ==> forall j :: i <= j ==> !OccursAt(h, n, j)
    decreases |h| - i
  {
    if OccursAt(h, n, i) then Some(i)
    else if i == |h| then None
    else Find(h, n, i + 1)
  }

  method MyMemmem(h: seq<byte>, n: seq<byte>) returns (r: Option<nat>)
    ensures r == Find(h, n, 0)
  {
    if |n| == 0 {
      return Some(0);
    }
    if |h| < |n| {
      assert forall j: nat :: !OccursAt(h, n, j);
      return None;
    }
    var i := 0;
    while i <= |h| - |n|
      invariant 0 <= i <= |h| - |n| + 1
      invariant Find(h, n, i) == Find(h, n, 0)
    {
      if h[i] == n[0] && h[i..i + |n|] == n {
        return Some(i);
      }
      i := i + 1;
    }
    assert forall j :: i <= j ==> !OccursAt(h, n, j);
    return None;
  }

  // ---- buffer sizes

  /** Doubling from c until at least n. */
  function Doubled(c: nat, n: nat): (r: nat)
    requires c > 0
    ensures r >= n && r >= c
    decreases n - c
  {
    if c >= n then c else Doubled(2 * c, n)
  }

  method Grow(c: nat, n: nat) returns (r: nat)
    requires c > 0
    ensures r == Doubled(c, n)
  {
    r := c;
    while r < n
      invariant r > 0 && Doubled(r, n) == Doubled(c, n)
    {
      r := r * 2;
    }
  }

  /** 65536 doubled some number of times. */
  ghost predicate IsCap(c: nat) {
    c == FIRST_CAP || (c > FIRST_CAP && c % 2 == 0 && IsCap(c / 2))
  }

  lemma {:induction false} CapGap(a: nat, b: nat)
    requires IsCap(a) && IsCap(b) && a < b
    ensures 2 * a <= b
  {
    if a == FIRST_CAP {
      CapAtLeast(b / 2);
    } else {
      CapAtLeast(a / 2);
      CapGap(a / 2, b / 2);
    }
  }

  lemma CapAtLeast(c: nat)
    requires IsCap(c)
    ensures c >= FIRST_CAP
  {
  }

  /** A buffer never grows past the first size of its kind that is large enough. */
  lemma {:induction false} DoubledIsCap(c: nat, n: nat, max: nat)
    requires IsCap(c)
    ensures IsCap(Doubled(c, n))
    ensures IsCap(max) && c <= max && n <= max ==> Doubled(c, n) <= max
    decreases n - c
  {
    CapAtLeast(c);
    if c < n {
      assert 2 * c / 2 == c;
      if IsCap(max) && c < max {
        CapGap(c, max);
      }
      DoubledIsCap(2 * c, n, max);
    }
  }

  lemma LimitsAreCaps()
    ensures IsCap(STREAM_MAX) && IsCap(JPEG_CAP_MAX)
  {
    assert IsCap(0x2_0000) && IsCap(0x4_0000) && IsCap(0x8_0000);
    assert IsCap(STREAM_MAX);
    assert IsCap(0x20_0000) && IsCap(0x40_0000) && IsCap(0x80_0000);
    assert IsCap(0x100_0000);
  }

  function NextCap(cap: nat, need: nat): (r: nat)
    ensures r >= need
  {
    if need <= cap then cap else Doubled(if cap > 0 then 2 * cap else FIRST_CAP, need)
  }

  // ---- collecting the JPEG of a session

  /** The locked session, or -1, and its bytes so far, in a buffer of size cap. */
  datatype Jpeg = Jpeg(target: int, data: seq<byte>, cap: nat)

  const NO_JPEG := Jpeg(-1, [], 0)

  predicate Carries(p: Packet) {
    |p| > STRIP + TRAILER
  }

  function Payload(p: Packet): (s: seq<byte>)
    ensures |s| <= |p|
  {
    if Carries(p) then p[STRIP..|p| - TRAILER] else []
  }

  /** A packet's effect on the collection; the flag says that the parser gives up on the buffer. */
  function Absorb(j: Jpeg, p: Packet): (Jpeg, bool) {
    if !Carries(p) then (j, false)
    else
      var session := p[7] as int;
      var target := if j.target == -1 && Find(Payload(p), Soi(), 0).Some? then session else j.target;
      var need := |j.data| + |Payload(p)|;
      if target != session then (j.(target := target), false)
      else if need > j.cap && need > JPEG_CAP_MAX then (NO_JPEG, true)
      else
        var cap := NextCap(j.cap, need);
        (Jpeg(target, j.data + Payload(p), if need > j.cap && cap > JPEG_CAP_MAX then JPEG_CAP_MAX else cap), false)
  }

  function AbsorbAll(j: Jpeg, ps: seq<Packet>): Jpeg {
    if ps == [] then j else Absorb(AbsorbAll(j, ps[..|ps| - 1]), ps[|ps| - 1]).0
  }

  ghost predicate JpegOk(j: Jpeg) {
    && -1 <= j.target < 256 && (j.target == -1 ==> j.data == [])
    && (j.cap == 0 || (IsCap(j.cap) && j.cap <= JPEG_CAP_MAX)) && |j.data| <= j.cap
  }

  /** As long as the data stays well under the cap, the cap is never hit. */
  lemma AbsorbOk(j: Jpeg, p: Packet)
    requires JpegOk(j) && |j.data| + |p| <= JPEG_CAP_MAX
    ensures !Absorb(j, p).1 && JpegOk(Absorb(j, p).0) && |Absorb(j, p).0.data| <= |j.data| + |p|
  {
    LimitsAreCaps();
    var need := |j.data| + |Payload(p)|;
    if need > j.cap {
      var c := if j.cap > 0 then 2 * j.cap else FIRST_CAP;
      if j.cap > 0 {
        CapAtLeast(j.cap);
        assert 2 * j.cap / 2 == j.cap && j.cap < JPEG_CAP_MAX;
        CapGap(j.cap, JPEG_CAP_MAX);
      }
      DoubledIsCap(c, need, JPEG_CAP_MAX);
    }
  }

  lemma SizeSnoc(ps: seq<Packet>, p: Packet)
    ensures Size(ps + [p]) == Size(ps) + |p|
  {
    if ps != [] {
      assert (ps + [p])[1..] == ps[1..] + [p];
    }
  }

  lemma {:induction false} AbsorbAllOk(j: Jpeg, ps: seq<Packet>)
    requires JpegOk(j) && |j.data| + Size(ps) <= JPEG_CAP_MAX
    ensures JpegOk(AbsorbAll(j, ps)) && |AbsorbAll(j, ps).data| <= |j.data| + Size(ps)
  {
    if ps != [] {
      var init, p := ps[..|ps| - 1], ps[|ps| - 1];
      assert init + [p] == ps;
      SizeSnoc(init, p);
      AbsorbAllOk(j, init);
      AbsorbOk(AbsorbAll(j, init), p);
    }
  }

  // ---- what the collection is

  /** The first packet whose payload holds a start-of-image marker; it chooses the session. */
  function Opener(ps: seq<Packet>): (k: nat)
    ensures k <= |ps|
    ensures k < |ps| ==> Opens(ps[k])
  {
    if ps == [] then 0
    else
      var k := Opener(ps[..|ps| - 1]);
      if k < |ps| - 1 || Opens(ps[|ps| - 1]) then k else |ps|
  }

  predicate Opens(p: Packet) {
    Carries(p) && Find(Payload(p), Soi(), 0).Some?
  }

  /** The payloads of one session, joined. */
  function Session(ps: seq<Packet>, id: int): seq<byte> {
    if ps == [] then []
    else
      var p := ps[|ps| - 1];
      Session(ps[..|ps| - 1], id) + if Carries(p) && p[7] == id then Payload(p) else []
  }

  /** The session and bytes collected from packets ps: the opener's session, from the opener on. */
  function Collected(ps: seq<Packet>): (int, seq<byte>) {
    var k := Opener(ps);
    if k == |ps| then (-1, []) else (ps[k][7], Session(ps[k..], ps[k][7]))
  }

  lemma CollectedSnoc(ps: seq<Packet>, p: Packet)
    ensures var (t, d) := Collected(ps);
            Collected(ps + [p]) == if t == -1 then if Opens(p) then (p[7], Payload(p)) else (-1, [])
                                   else (t, d + if Carries(p) && p[7] == t then Payload(p) else [])
  {
    hide Payload;
    var all := ps + [p];
    assert all[..|all| - 1] == ps;
    var k := Opener(ps);
    if k < |ps| {
      assert all[k..] == ps[k..] + [p];
      assert all[k..][..|all[k..]| - 1] == ps[k..];
    } else if Opens(p) {
      assert all[k..] == [p] && [p][..0] == [];
      assert Session([p], p[7]) == Session([], p[7]) + Payload(p) == Payload(p);
    }
  }

  lemma AbsorbCollects(j: Jpeg, p: Packet)
    requires JpegOk(j) && |j.data| + |p| <= JPEG_CAP_MAX
    ensures var r := Absorb(j, p).0;
            if j.target == -1 then
              if Opens(p) then r.target == p[7] && r.data == Payload(p) else r.target == -1 && r.data == []
            else r.target == j.target && r.data == j.data + if Carries(p) && p[7] == j.target then Payload(p) else []
  {
    assert [] + Payload(p) == Payload(p);
  }

  /** Absorbing packets extends what was collected from earlier ones. */
  lemma {:induction false} CollectMore(j: Jpeg, earlier: seq<Packet>, ps: seq<Packet>)
    requires JpegOk(j) && |j.data| + Size(ps) <= JPEG_CAP_MAX && (j.target, j.data) == Collected(earlier)
    ensures (AbsorbAll(j, ps).target, AbsorbAll(j, ps).data) == Collected(earlier + ps)
  {
    if ps == [] {
      assert earlier + ps == earlier;
    } else {
      var init, p := ps[..|ps| - 1], ps[|ps| - 1];
      assert init + [p] == ps && earlier + ps == (earlier + init) + [p];
      SizeSnoc(init, p);
      CollectMore(j, earlier, init);
      AbsorbAllOk(j, init);
      CollectedSnoc(earlier + init, p);
      AbsorbCollects(AbsorbAll(j, init), p);
    }
  }
}
