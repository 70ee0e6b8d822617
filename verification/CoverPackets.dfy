/** Framing of the cover-art stream: FF 5A packets with a big-endian length, found by resynchronising. */
module CoverPackets {
  import opened Bits

  type Packet = seq<byte>

  const MAX_LENGTH: nat := 65535

  function LengthAt(raw: seq<byte>, i: nat): (n: nat)
    requires i + 4 <= |raw|
    ensures n <= MAX_LENGTH
  {
    (raw[i + 2] as int) * 256 + raw[i + 3]
  }

  predicate SyncAt(raw: seq<byte>, i: nat)
    requires i + 2 <= |raw|
  {
    raw[i] == 0xFF && raw[i + 1] == 0x5A
  }

  datatype Look = Skip | Wait | Accept(len: nat)

  /** What the parser makes of the bytes at offset i, once there are four of them. */
  function LookAt(raw: seq<byte>, i: nat): (l: Look)
    requires i + 4 <= |raw|
    ensures l.Accept? ==> 4 <= l.len <= |raw| - i
  {
    if !SyncAt(raw, i) then Skip
    else
      var len := LengthAt(raw, i);
      if len < 4 then Skip
      else if |raw| - i < len then Wait
      else if i + len + 2 <= |raw| then
        if SyncAt(raw, i + len) then Accept(len) else Skip
      else if i > 0 then Wait
      else Accept(len)
  }

  /** The packets accepted from offset i on, and the offset at which the parser stops. */
  function Scan(raw: seq<byte>, i: nat): (r: (seq<Packet>, nat))
    requires i <= |raw|
    ensures i <= r.1 <= |raw|
    decreases |raw| - i
  {
    if i + 4 > |raw| then ([], i)
    else
      match LookAt(raw, i)
      case Skip => Scan(raw, i + 1)
      case Wait => ([], i)
      case Accept(len) =>
        var (ps, end) := Scan(raw, i + len);
        ([raw[i..i + len]] + ps, end)
  }

  function Size(ps: seq<Packet>): nat {
    if ps == [] then 0 else |ps[0]| + Size(ps[1..])
  }

  function Concat(ps: seq<Packet>): (s: seq<byte>)
    ensures |s| == Size(ps)
  {
    if ps == [] then [] else ps[0] + Concat(ps[1..])
  }

  /** A packet as the sender writes it. */
  predicate WellFormed(p: Packet) {
    4 <= |p| && p[0] == 0xFF && p[1] == 0x5A && |p| == (p[2] as int) * 256 + p[3]
  }

  predicate AllWellFormed(ps: seq<Packet>) {
    forall k :: 0 <= k < |ps| ==> WellFormed(ps[k])
  }

  // ---- whatever the bytes

  /** Everything accepted is well formed, fits what was scanned, and at most 65536 bytes stay behind. */
  lemma {:induction false} ScanBounds(raw: seq<byte>, i: nat)
    requires i <= |raw|
    ensures var (ps, end) := Scan(raw, i);
            && AllWellFormed(ps) && Size(ps) <= end - i && |raw| - end <= MAX_LENGTH + 1
    decreases |raw| - i
  {
    if i + 4 <= |raw| {
      match LookAt(raw, i)
      case Skip => ScanBounds(raw, i + 1);
      case Wait =>
      case Accept(len) => ScanBounds(raw, i + len);
    }
  }

  // ---- framed streams

  /** How many of the packets the parser accepts when n bytes of them have arrived. */
  function Ready(n: nat, ps: seq<Packet>, first: bool): (k: nat)
    ensures k <= |ps|
  {
    if ps == [] || n < |ps[0]| || (!first && n < |ps[0]| + 2) then 0
    else 1 + Ready(n - |ps[0]|, ps[1..], false)
  }

  /** At most one whole packet is left waiting, and only for two bytes of the next. */
  lemma {:induction false} ReadyDefersOne(n: nat, ps: seq<Packet>, first: bool)
    requires n <= Size(ps)
    ensures var k := Ready(n, ps, first);
            && Size(ps[..k]) <= n
            && (k < |ps| ==> n - Size(ps[..k]) < |ps[k]| + 2)
            && (k == 0 && first && ps != [] ==> n < |ps[0]|)
  {
    var k := Ready(n, ps, first);
    if k > 0 {
      ReadyDefersOne(n - |ps[0]|, ps[1..], false);
      assert ps[..k][1..] == ps[1..][..k - 1];
    }
  }

  /** The first four bytes of a framed stream are the header of its first packet. */
  lemma HeaderSeen(raw: seq<byte>, i: nat, ps: seq<Packet>)
    requires i + 4 <= |raw| && AllWellFormed(ps) && raw[i..] <= Concat(ps)
    ensures ps != [] && SyncAt(raw, i) && LengthAt(raw, i) == |ps[0]|
  {
    assert ps != [] && WellFormed(ps[0]);
    assert forall j :: 0 <= j < 4 ==> raw[i + j] == raw[i..][j] == Concat(ps)[j] == ps[0][j];
  }

  lemma FirstSeen(raw: seq<byte>, i: nat, ps: seq<Packet>)
    requires i <= |raw| && ps != [] && raw[i..] <= Concat(ps) && |raw| - i >= |ps[0]|
    ensures raw[i..i + |ps[0]|] == ps[0] && raw[i + |ps[0]|..] <= Concat(ps[1..])
  {
    var n := |ps[0]|;
    var rest := raw[i..];
    assert rest[..n] == Concat(ps)[..n] && rest[n..] <= Concat(ps)[n..];
    assert rest[..n] == raw[i..i + n] && rest[n..] == raw[i + n..];
  }

  lemma NextSeen(raw: seq<byte>, i: nat, ps: seq<Packet>)
    requires i <= |raw| && ps != [] && AllWellFormed(ps) && raw[i..] <= Concat(ps) && |raw| - i >= |ps[0]| + 2
    ensures SyncAt(raw, i + |ps[0]|)
  {
    FirstSeen(raw, i, ps);
    var j, rest := i + |ps[0]|, ps[1..];
    assert rest != [] && WellFormed(rest[0]);
    assert raw[j] == raw[j..][0] == Concat(rest)[0] && raw[j + 1] == raw[j..][1] == Concat(rest)[1];
  }

  /** The parser's decision at the start of a packet of a framed stream. */
  lemma LookFramed(raw: seq<byte>, i: nat, ps: seq<Packet>)
    requires i + 4 <= |raw| && AllWellFormed(ps) && raw[i..] <= Concat(ps)
    ensures ps != [] && |ps[0]| >= 4
    ensures LookAt(raw, i) == if Ready(|raw| - i, ps, i == 0) == 0 then Wait else Accept(|ps[0]|)
  {
    HeaderSeen(raw, i, ps);
    if |raw| - i >= |ps[0]| + 2 {
      NextSeen(raw, i, ps);
    }
  }

  lemma PartsWellFormed(ps: seq<Packet>)
    requires AllWellFormed(ps)
    ensures ps != [] ==> |ps[0]| >= 4 && AllWellFormed(ps[1..])
  {
    if ps != [] {
      assert WellFormed(ps[0]);
    }
  }

  /** On a framed stream the parser never loses sync: it accepts exactly the ready packets. */
  lemma {:induction false} ScanFramed(raw: seq<byte>, i: nat, ps: seq<Packet>)
    requires i <= |raw| && AllWellFormed(ps) && raw[i..] <= Concat(ps)
    ensures var k := Ready(|raw| - i, ps, i == 0);
            Size(ps[..k]) <= |raw| - i && Scan(raw, i) == (ps[..k], i + Size(ps[..k]))
    decreases |ps|
  {
    hide LookAt, Concat, WellFormed, AllWellFormed;
    PartsWellFormed(ps);
    var n := |raw| - i;
    var k := Ready(n, ps, i == 0);
    if n >= 4 {
      LookFramed(raw, i, ps);
      if k > 0 {
        var rest := ps[1..];
        FirstSeen(raw, i, ps);
        ScanFramed(raw, i + |ps[0]|, rest);
        assert ps[..k] == [ps[0]] + rest[..k - 1] && ps[..k][1..] == rest[..k - 1];
      }
    }
  }
}
