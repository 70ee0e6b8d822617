/**
 iAP2 messages: a frame of length-prefixed parameters, and the link packet a frame travels in, with
 its header checksum and payload checksum.
 */
module Iap2 {
  import opened Bits
  import opened Common

  const SYNC: byte := 0x40
  const MIN_FRAME: nat := 6
  const LINK_SYNC1: byte := 0xFF
  const LINK_SYNC2: byte := 0x5A
  const LINK_HEADER: nat := 9
  const MESSAGE_BUFFER: nat := 512

  // ---- parameters

  datatype Tlv = Tlv(id: nat, value: seq<byte>)

  /** A parameter on the wire; its length field has 16 bits. */
  function BuiltTlv(t: Tlv): (s: seq<byte>)
    ensures |s| == 4 + |t.value|
  {
    Be16(4 + |t.value|) + Be16(t.id) + t.value
  }

  function BuiltAll(ts: seq<Tlv>): seq<byte> {
    if ts == [] then [] else BuiltTlv(ts[0]) + BuiltAll(ts[1..])
  }

  function ParseTlv(s: seq<byte>): (t: Option<Tlv>)
    ensures t.Some? ==> 4 + |t.value.value| <= |s|
  {
    if |s| < 4 then None
    else
      var len := Read16(s, 0);
      if len < 4 || len > |s| then None else Some(Tlv(Read16(s, 2), s[4..len]))
  }

  /** Everything the iterator yields before it stops, at the end or at the first malformed parameter. */
  function ParseAll(s: seq<byte>): (ts: seq<Tlv>)
    decreases |s|
  {
    match ParseTlv(s)
    case None => []
    case Some(t) => [t] + ParseAll(s[4 + |t.value|..])
  }

  predicate WireId(t: Tlv) {
    t.id < 0x1_0000
  }

  /** A built parameter reads back exactly when its value has at most 65531 bytes. */
  lemma TlvRoundTrip(t: Tlv, tail: seq<byte>)
    requires WireId(t)
    ensures ParseTlv(BuiltTlv(t) + tail) == Some(t) <==> |t.value| <= 65531
  {
    var s := BuiltTlv(t) + tail;
    Read16Be16(t.id);
    assert s[2..4] == Be16(t.id) && s[0..2] == Be16(4 + |t.value|);
    if |t.value| <= 65531 {
      Read16Be16(4 + |t.value|);
      assert s[4..4 + |t.value|] == t.value;
    }
  }

  /** Any list of parameters that fits a frame is yielded back by the iterator, complete and in order. */
  lemma {:induction false} ListRoundTrip(ts: seq<Tlv>)
    requires forall k :: 0 <= k < |ts| ==> WireId(ts[k]) && |ts[k].value| <= 65531
    ensures ParseAll(BuiltAll(ts)) == ts
  {
    if ts != [] {
      var tail := BuiltAll(ts[1..]);
      TlvRoundTrip(ts[0], tail);
      ListRoundTrip(ts[1..]);
      assert (BuiltTlv(ts[0]) + tail)[4 + |ts[0].value|..] == tail;
    }
  }

  function FirstWith(ts: seq<Tlv>, id: nat): Option<Tlv> {
    if ts == [] then None else if ts[0].id == id then Some(ts[0]) else FirstWith(ts[1..], id)
  }

  /** Offset of the first parameter with an id, in the bytes of a list. */
  function OffsetOf(ts: seq<Tlv>, id: nat): nat {
    if ts == [] || ts[0].id == id then 0 else 4 + |ts[0].value| + OffsetOf(ts[1..], id)
  }

  /** That offset leads to the parameter itself. */
  lemma {:induction false} OffsetIsRight(s: seq<byte>, id: nat)
    requires FirstWith(ParseAll(s), id).Some?
    ensures OffsetOf(ParseAll(s), id) <= |s|
    ensures ParseTlv(s[OffsetOf(ParseAll(s), id)..]) == FirstWith(ParseAll(s), id)
    decreases |s|
  {
    hide Read16;
    var t := ParseTlv(s).value;
    if t.id == id {
      assert s[0..] == s;
    } else {
      var n := 4 + |t.value|;
      OffsetIsRight(s[n..], id);
      var k := OffsetOf(ParseAll(s[n..]), id);
      assert s[n..][k..] == s[n + k..];
    }
  }

  /** Walks the parameters behind a frame header. */
  class TlvIter {
    var data: seq<byte>
    var offset: nat

    ghost predicate Valid()
      reads this
    {
      offset <= |data|
    }

    /** What is still to be yielded. */
    ghost function Rest(): seq<Tlv>
      requires Valid()
      reads this
    {
      ParseAll(data[offset..])
    }

    constructor (frame: seq<byte>)
      ensures Valid() && Rest() == if |frame| > 6 then ParseAll(frame[6..]) else []
    {
      data := if |frame| > 6 then frame[6..] else [];
      offset := 0;
      new;
      assert data[0..] == data;
    }

    method Next() returns (r: Option<Tlv>)
      requires Valid()
      modifies this`offset
      ensures Valid()
      ensures old(Rest()) == [] ==> r == None && Rest() == []
      ensures old(Rest()) != [] ==> r == Some(old(Rest())[0]) && Rest() == old(Rest())[1..]
    {
      if offset + 4 > |data| {
        return None;
      }
      r := ParseTlv(data[offset..]);
      if r.Some? {
        ghost var n := 4 + |r.value.value|;
        assert data[offset..][n..] == data[offset + n..];
        offset := offset + 4 + |r.value.value|;
      }
    }
  }

  /** Reading one parameter of a longer buffer in place. */
  lemma ParseInPlace(s: seq<byte>, off: nat)
    requires off + 4 <= |s|
    ensures var tlen := Read16(s, off);
            if tlen < 4 || off + tlen > |s| then ParseAll(s[off..]) == []
            else
              var t := Tlv(Read16(s, off + 2), s[off + 4..off + tlen]);
              && ParseTlv(s[off..]) == Some(t) && 4 + |t.value| == tlen
              && ParseAll(s[off..]) == [t] + ParseAll(s[off + tlen..])
  {
    var tlen := Read16(s, off);
    assert Read16(s[off..], 0) == tlen && Read16(s[off..], 2) == Read16(s, off + 2);
    if 4 <= tlen && off + tlen <= |s| {
      assert s[off..][4..tlen] == s[off + 4..off + tlen];
      assert s[off..][tlen..] == s[off + tlen..];
    }
  }

  lemma NothingToParse(s: seq<byte>, off: nat)
    requires off <= |s| < off + 4
    ensures ParseAll(s[off..]) == []
  {
  }

  /** What is still to be searched from an offset on decides the whole search. */
  ghost predicate Searching(s: seq<byte>, id: nat, off: nat) {
    && off <= |s| && FirstWith(ParseAll(s), id) == FirstWith(ParseAll(s[off..]), id)
    && (FirstWith(ParseAll(s), id).Some? ==> OffsetOf(ParseAll(s), id) == off + OffsetOf(ParseAll(s[off..]), id))
  }

  lemma SearchFrom(s: seq<byte>, id: nat)
    ensures Searching(s, id, 0)
  {
    assert s[0..] == s;
  }

  lemma SearchOn(s: seq<byte>, id: nat, off: nat)
    requires Searching(s, id, off)
    ensures off + 4 > |s| ==> FirstWith(ParseAll(s), id) == None
    ensures off + 4 <= |s| ==>
              var tlen := Read16(s, off);
              if tlen < 4 || off + tlen > |s| then FirstWith(ParseAll(s), id) == None
              else if Read16(s, off + 2) == id then
                FirstWith(ParseAll(s), id) == Some(Tlv(id, s[off + 4..off + tlen])) && OffsetOf(ParseAll(s), id) == off
              else Searching(s, id, off + tlen)
  {
    hide ParseAll, ParseTlv;
    if off + 4 > |s| {
      NothingToParse(s, off);
    } else {
      ParseInPlace(s, off);
      var tlen := Read16(s, off);
      if 4 <= tlen && off + tlen <= |s| {
        var t, more := Tlv(Read16(s, off + 2), s[off + 4..off + tlen]), ParseAll(s[off + tlen..]);
        assert ([t] + more)[1..] == more;
      }
    }
  }

  /** On any bytes, the search finds the first parameter with the id that the iterator would yield. */
  method FindTlv(payload: seq<byte>, id: nat) returns (r: Option<Tlv>)
    ensures r == FirstWith(ParseAll(payload), id)
  {
    hide ParseAll, FirstWith, OffsetOf, Searching;
    SearchFrom(payload, id);
    var off := 0;
    while off + 4 <= |payload|
      invariant Searching(payload, id, off)
    {
      var tlen, tid := Read16(payload, off), Read16(payload, off + 2);
      SearchOn(payload, id, off);
      if tlen < 4 || off + tlen > |payload| {
        return None;
      }
      if tid == id {
        return Some(Tlv(tid, payload[off + 4..off + tlen]));
      }
      off := off + tlen;
    }
    SearchOn(payload, id, off);
    return None;
  }

  /** The offset of the first parameter with the id, or 0. */
  function FoundOffset(payload: seq<byte>, id: nat): nat {
    if FirstWith(ParseAll(payload), id).Some? then OffsetOf(ParseAll(payload), id) else 0
  }

  /** The offset 0 is ambiguous: it means that the first parameter has the id, or that none has. */
  lemma ZeroExactlyWhen(payload: seq<byte>, id: nat)
    ensures FoundOffset(payload, id) == 0 <==>
            FirstWith(ParseAll(payload), id).None? || ParseAll(payload)[0].id == id
  {
  }

  /** The variant that returns an offset; matched is the length it writes through out_len, if it writes one. */
  method FindTlvOffset(payload: seq<byte>, id: nat) returns (off: nat, matched: Option<nat>)
    ensures off == FoundOffset(payload, id)
    ensures off == 0 <==> FirstWith(ParseAll(payload), id).None? || ParseAll(payload)[0].id == id
    ensures matched == match FirstWith(ParseAll(payload), id)
                       case None => None
                       case Some(t) => Some(4 + |t.value|)
  {
    hide ParseAll, FirstWith, OffsetOf, Searching;
    SearchFrom(payload, id);
    ZeroExactlyWhen(payload, id);
    off := 0;
    while off + 4 <= |payload|
      invariant Searching(payload, id, off)
    {
      var tlen, tid := Read16(payload, off), Read16(payload, off + 2);
      SearchOn(payload, id, off);
      if tlen < 4 || off + tlen > |payload| {
        return 0, None;
      }
      if tid == id {
        return off, Some(tlen);
      }
      off := off + tlen;
    }
    SearchOn(payload, id, off);
    return 0, None;
  }

  // ---- frames

  function BuiltFrame(msgid: nat, payload: seq<byte>): (s: seq<byte>)
    ensures |s| == 6 + |payload|
  {
    [SYNC, SYNC] + Be16(6 + |payload|) + Be16(msgid) + payload
  }

  datatype Message = Message(offset: nat, msgid: nat, payload: seq<byte>)

  /** A frame starts here and lies within the bytes. */
  predicate FrameAt(s: seq<byte>, i: nat) {
    i + MIN_FRAME <= |s| && s[i] == SYNC && s[i + 1] == SYNC && MIN_FRAME <= Read16(s, i + 2) <= |s| - i
  }

  function MessageAt(s: seq<byte>, i: nat): Message
    requires FrameAt(s, i)
  {
    Message(i, Read16(s, i + 4), s[i + 6..i + Read16(s, i + 2)])
  }

  method FindFrameAt(buf: seq<byte>, start: nat) returns (r: Option<Message>)
    ensures r.Some? ==>
              var at := r.value.offset;
              start <= at && FrameAt(buf, at) && r.value == MessageAt(buf, at)
    ensures r.Some? ==> forall j :: start <= j < r.value.offset ==> !FrameAt(buf, j)
    ensures r.None? ==> forall j :: start <= j ==> !FrameAt(buf, j)
  {
    if |buf| < MIN_FRAME {
      return None;
    }
    var i := start;
    while i < |buf| - 5
      invariant start <= i && forall j :: start <= j < i ==> !FrameAt(buf, j)
    {
      if buf[i] == SYNC && buf[i + 1] == SYNC {
        var flen := Read16(buf, i + 2);
        if flen >= MIN_FRAME && i + flen <= |buf| {
          return Some(Message(i, Read16(buf, i + 4), buf[i + 6..i + flen]));
        }
      }
      i := i + 1;
    }
    return None;
  }

  /** A built frame is found at its place, complete, exactly when the payload has at most 65529 bytes. */
  lemma FrameRoundTrip(msgid: nat, payload: seq<byte>, tail: seq<byte>)
    requires msgid < 0x1_0000
    ensures var s := BuiltFrame(msgid, payload) + tail;
            FrameAt(s, 0) && MessageAt(s, 0) == Message(0, msgid, payload) <==> |payload| <= 65529
  {
    var s := BuiltFrame(msgid, payload) + tail;
    Read16Be16(msgid);
    assert s[4..6] == Be16(msgid) && s[2..4] == Be16(6 + |payload|);
    if |payload| <= 65529 {
      Read16Be16(6 + |payload|);
      assert s[6..6 + |payload|] == payload;
    }
  }

  /** Parameters built into a frame come back out of it. */
  lemma MessageRoundTrip(msgid: nat, ts: seq<Tlv>)
    requires msgid < 0x1_0000 && |BuiltAll(ts)| <= 65529 && forall k :: 0 <= k < |ts| ==> WireId(ts[k])
    ensures var f := BuiltFrame(msgid, BuiltAll(ts));
            && FrameAt(f, 0) && MessageAt(f, 0).msgid == msgid
            && ParseAll(MessageAt(f, 0).payload) == ts && (|f| > 6 ==> ParseAll(f[6..]) == ts)
            && forall id :: FirstWith(ParseAll(MessageAt(f, 0).payload), id) == FirstWith(ts, id)
  {
    var payload := BuiltAll(ts);
    var f := BuiltFrame(msgid, payload);
    assert f + [] == f;
    FrameRoundTrip(msgid, payload, []);
    PartsFit(ts);
    ListRoundTrip(ts);
    assert f[6..] == payload;
  }

  lemma {:induction false} PartsFit(ts: seq<Tlv>)
    requires |BuiltAll(ts)| <= 65529
    ensures forall k :: 0 <= k < |ts| ==> |ts[k].value| <= 65531
  {
    if ts != [] {
      PartsFit(ts[1..]);
    }
  }

  method CopyInto(out: array<byte>, at: nat, s: seq<byte>)
    requires at + |s| <= out.Length
    modifies out
    ensures out[..] == Over(old(out[..]), at, s)
  {
    ghost var was := out[..];
    for i := 0 to |s|
      invariant out[..] == Over(was, at, s[..i])
    {
      out[at + i] := s[i];
      assert s[..i + 1] == s[..i] + [s[i]];
    }
    assert s[..|s|] == s;
  }

  /** Write a parameter at a position with this much room behind it. */
  method BuildTlv(out: array<byte>, at: nat, room: nat, t: Tlv) returns (n: nat)
    requires at + room <= out.Length
    modifies out
    ensures n == if room < 4 + |t.value| then 0 else 4 + |t.value|
    ensures out[..] == if n == 0 then old(out[..]) else Over(old(out[..]), at, BuiltTlv(t))
  {
    hide Over, Be16;
    n := 4 + |t.value|;
    if room < n {
      return 0;
    }
    ghost var was := out[..];
    WriteBe16(out, at, n);
    WriteBe16(out, at + 2, t.id);
    OverOver(was, at, Be16(n), Be16(t.id));
    CopyInto(out, at + 4, t.value);
    OverOver(was, at, Be16(n) + Be16(t.id), t.value);
  }

  method BuildTlvU16(out: array<byte>, at: nat, room: nat, id: nat, value: nat) returns (n: nat)
    requires at + room <= out.Length && value < 0x1_0000
    modifies out
    ensures n == if room < 6 then 0 else 6
    ensures out[..] == if n == 0 then old(out[..]) else Over(old(out[..]), at, BuiltTlv(Tlv(id, Be16(value))))
  {
    hide Over, Be16;
    if room < 6 {
      return 0;
    }
    ghost var was := out[..];
    WriteBe16(out, at, 6);
    WriteBe16(out, at + 2, id);
    OverOver(was, at, Be16(6), Be16(id));
    WriteBe16(out, at + 4, value);
    OverOver(was, at, Be16(6) + Be16(id), Be16(value));
    return 6;
  }

  method BuildFrame(out: array<byte>, msgid: nat, payload: seq<byte>) returns (n: nat)
    modifies out
    ensures n == if out.Length < 6 + |payload| then 0 else 6 + |payload|
    ensures out[..] == if n == 0 then old(out[..]) else Over(old(out[..]), 0, BuiltFrame(msgid, payload))
  {
    hide Over, Be16;
    n := 6 + |payload|;
    if out.Length < n {
      return 0;
    }
    ghost var was := out[..];
    WriteByte(out, 0, SYNC);
    WriteByte(out, 1, SYNC);
    OverOver(was, 0, [SYNC], [SYNC]);
    WriteBe16(out, 2, n);
    assert [SYNC] + [SYNC] == [SYNC, SYNC];
    OverOver(was, 0, [SYNC, SYNC], Be16(n));
    WriteBe16(out, 4, msgid);
    OverOver(was, 0, [SYNC, SYNC] + Be16(n), Be16(msgid));
    CopyInto(out, 6, payload);
    OverOver(was, 0, [SYNC, SYNC] + Be16(n) + Be16(msgid), payload);
  }

  // ---- link packets

  function Sum(s: seq<byte>): nat {
    if s == [] then 0 else s[0] as int + Sum(s[1..])
  }

  lemma {:induction false} SumConcat(a: seq<byte>, b: seq<byte>)
    ensures Sum(a + b) == Sum(a) + Sum(b)
  {
    if a == [] {
      assert a + b == b;
    } else {
      assert (a + b)[1..] == a[1..] + b;
      SumConcat(a[1..], b);
    }
  }

  lemma SumSnoc(s: seq<byte>, b: byte, sum: int)
    requires sum == Sum(s) % 256
    ensures (sum + b) % 256 == Sum(s + [b]) % 256
  {
    SumConcat(s, [b]);
  }

  /** The negated 8-bit sum: appended to the bytes it makes them sum to a multiple of 256. */
  method CksumNeg(buf: array<byte>, from: nat, to: nat) returns (c: byte)
    requires from <= to <= buf.Length
    ensures (Sum(buf[from..to]) + c) % 256 == 0
  {
    var sum: byte := 0;
    assert buf[from..from] == [];
    for i := from to to
      invariant sum as int == Sum(buf[from..i]) % 256
    {
      assert buf[from..i + 1] == buf[from..i] + [buf[i]];
      SumSnoc(buf[from..i], buf[i], sum);
      sum := (sum as int + buf[i] as int) % 256;
    }
    c := (256 - sum as int) % 256;
  }

  datatype LinkHeader = LinkHeader(length: nat, ctrl: byte, seqno: byte, ack: byte, session: byte, checksum: byte)

  function ParseLinkHeader(s: seq<byte>): Option<LinkHeader> {
    if |s| < LINK_HEADER || s[0] != LINK_SYNC1 || s[1] != LINK_SYNC2 then None
    else Some(LinkHeader(Read16(s, 2), s[4], s[5], s[6], s[7], s[8]))
  }

  /** The prefix gets its length field and its last byte rewritten, unless its length field is zero. */
  ghost predicate Patched(old_: seq<byte>, new_: seq<byte>, total: nat) {
    && |new_| == |old_| >= LINK_HEADER
    && if Read16(old_, 2) == 0 then new_ == old_
       else
         && new_[..2] == old_[..2] && new_[2..4] == Be16(total) && new_[4..|old_| - 1] == old_[4..|old_| - 1]
         && Sum(new_) % 256 == 0
  }

  method PatchLinkHeader(buf: array<byte>, prefixLen: nat, newTotal: nat)
    requires prefixLen <= buf.Length
    modifies buf
    ensures buf[prefixLen..] == old(buf[prefixLen..])
    ensures if prefixLen < LINK_HEADER then buf[..] == old(buf[..])
            else Patched(old(buf[..prefixLen]), buf[..prefixLen], newTotal)
  {
    if prefixLen < LINK_HEADER {
      return;
    }
    var matches, matchOff, oldLen := 0, 0, 0;
    var i := 0;
    while i + 1 < prefixLen
      invariant i <= 2 && matches == 0
    {
      var v := Read16(buf[..], i);
      if i == 2 || v > 0 {
        if i == 2 {
          oldLen, matchOff, matches := v, i, 1;
          break;
        }
      }
      i := i + 1;
    }
    ghost var was := buf[..];
    assert Read16(was[..prefixLen], 2) == oldLen;
    if matches == 1 && oldLen > 0 {
      WriteBe16(buf, matchOff, newTotal);
      var check := CksumNeg(buf, 0, prefixLen - 1);
      buf[prefixLen - 1] := check;
      ghost var now := buf[..prefixLen];
      assert now == buf[0..prefixLen - 1] + [check];
      SumConcat(now[..prefixLen - 1], [check]);
      assert now[..prefixLen - 1] == buf[0..prefixLen - 1];
    }
  }

  datatype HookResult = Ok | ErrParam | ErrInit | ErrIo

  /** A packet as it leaves: patched prefix, frame, and the frame's checksum. */
  ghost predicate Carried(prefix: seq<byte>, frame: seq<byte>, packet: seq<byte>) {
    var n := |prefix|;
    && |packet| == n + |frame| + 1 && packet[n..n + |frame|] == frame
    && (Sum(frame) + packet[n + |frame|]) % 256 == 0
    && if n < LINK_HEADER then packet[..n] == prefix else Patched(prefix, packet[..n], |packet|)
  }

  /** An injected packet over a nine-byte link prefix is a packet its receiver accepts. */
  lemma InjectedIsWellFormed(prefix: seq<byte>, frame: seq<byte>, packet: seq<byte>)
    requires |prefix| == LINK_HEADER && prefix[0] == LINK_SYNC1 && prefix[1] == LINK_SYNC2
    requires Carried(prefix, frame, packet)
    ensures ParseLinkHeader(packet).Some?
    ensures packet[9..9 + |frame|] == frame && Sum(packet[9..]) % 256 == 0
    ensures Read16(prefix, 2) != 0 ==> Sum(packet[..9]) % 256 == 0
    ensures Read16(prefix, 2) != 0 && |packet| <= 65535 <==> ParseLinkHeader(packet).value.length == |packet|
    ensures Read16(prefix, 2) != 0 ==>
              var h, was := ParseLinkHeader(packet).value, ParseLinkHeader(prefix).value;
              h.ctrl == was.ctrl && h.seqno == was.seqno && h.ack == was.ack && h.session == was.session
  {
    var head := packet[..9];
    assert packet[9..] == frame + [packet[9 + |frame|]];
    SumConcat(frame, [packet[9 + |frame|]]);
    if Read16(prefix, 2) != 0 {
      assert head[2..4] == Be16(|packet|);
      assert packet[2] == head[2] == head[2..4][0] && packet[3] == head[3] == head[2..4][1];
      assert head[0] == head[..2][0] && head[1] == head[..2][1];
      if |packet| <= 65535 {
        Read16Be16(|packet|);
      }
      assert head[4..8] == prefix[4..8];
      assert head[4] == head[4..8][0] && head[5] == head[4..8][1];
      assert head[6] == head[4..8][2] && head[7] == head[4..8][3];
      assert prefix[4] == prefix[4..8][0] && prefix[5] == prefix[4..8][1];
      assert prefix[6] == prefix[4..8][2] && prefix[7] == prefix[4..8][3];
    } else {
      assert head == prefix;
    }
  }

  /** Prefix, frame and checksum in one buffer, the prefix patched to the whole length. */
  method Assemble(prefix: seq<byte>, frame: seq<byte>) returns (out: array<byte>)
    ensures fresh(out) && Carried(prefix, frame, out[..])
  {
    hide Over, Sum, Patched;
    var n := |prefix|;
    var total := n + |frame| + 1;
    out := new byte[total];
    ghost var was := out[..];
    CopyInto(out, 0, prefix);
    CopyInto(out, n, frame);
    OverOver(was, 0, prefix, frame);
    OverParts(was, prefix + frame, n);
    var c := CksumNeg(out, n, n + |frame|);
    ghost var before := out[..];
    WriteByte(out, n + |frame|, c);
    OverOver(was, 0, prefix + frame, [c]);
    OverWhole(was, prefix + frame + [c]);
    ghost var packet := prefix + frame + [c];
    assert out[..] == packet;
    PatchLinkHeader(out, n, total);
    assert out[n..] == packet[n..] == frame + [c];
    BehindPrefix(out[..], n, frame, c);
    assert packet[..n] == prefix && out[..][..n] == out[..n];
  }

  lemma BehindPrefix(s: seq<byte>, n: nat, frame: seq<byte>, c: byte)
    requires n <= |s| && s[n..] == frame + [c]
    ensures s[n..n + |frame|] == frame && s[n + |frame|] == c
  {
    assert s[n..][..|frame|] == frame && s[n..][|frame|] == c;
  }

  lemma OverParts(s: seq<byte>, t: seq<byte>, k: nat)
    requires k <= |t| <= |s|
    ensures Over(s, 0, t)[..k] == t[..k] && Over(s, 0, t)[k..|t|] == t[k..]
  {
  }

  class Injector {
    var initialized: bool
    var valid: bool
    var prefix: seq<byte>
    var inSend: bool
    var sent: seq<seq<byte>>

    constructor ()
      ensures !initialized && !valid && !inSend && sent == []
    {
      initialized, valid, prefix, inSend, sent := false, false, [], false, [];
    }

    /** Send a frame; `failed` is what the transport says. */
    method InjectFrame(frame: seq<byte>, failed: bool) returns (r: HookResult)
      modifies this`inSend, this`sent
      ensures r == if |frame| < 6 then ErrParam else if !initialized then ErrInit
                   else if !valid || failed then ErrIo else Ok
      ensures |frame| < 6 || !initialized || !valid ==> sent == old(sent) && inSend == old(inSend)
      ensures |frame| >= 6 && initialized && valid ==>
                && !inSend && |sent| == |old(sent)| + 1 && sent[..|old(sent)|] == old(sent)
                && if prefix == [] then sent[|old(sent)|] == frame else Carried(prefix, frame, sent[|old(sent)|])
    {
      if |frame| < 6 {
        return ErrParam;
      }
      if !initialized {
        return ErrInit;
      }
      if !valid {
        return ErrIo;
      }
      inSend := true;
      if |prefix| > 0 {
        var out := Assemble(prefix, frame);
        sent := sent + [out[..]];
      } else {
        sent := sent + [frame];
      }
      inSend := false;
      r := if failed then ErrIo else Ok;
    }

    /** Build a message in a 512-byte buffer and send it. */
    method InjectMessage(msgid: nat, payload: seq<byte>, failed: bool) returns (r: HookResult)
      modifies this`inSend, this`sent
      ensures |payload| > 506 ==> r == ErrParam && sent == old(sent)
      ensures |payload| <= 506 ==>
                r == if !initialized then ErrInit else if !valid || failed then ErrIo else Ok
      ensures |payload| <= 506 && initialized && valid ==>
                && |sent| == |old(sent)| + 1 && sent[..|old(sent)|] == old(sent)
                && var f := BuiltFrame(msgid, payload);
                   if prefix == [] then sent[|old(sent)|] == f else Carried(prefix, f, sent[|old(sent)|])
    {
      var frame := new byte[MESSAGE_BUFFER];
      var n := BuildFrame(frame, msgid, payload);
      if n == 0 {
        return ErrParam;
      }
      assert frame[..n] == BuiltFrame(msgid, payload);
      r := InjectFrame(frame[..n], failed);
    }
  }
}
