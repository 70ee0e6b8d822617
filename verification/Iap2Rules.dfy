/** iAP2 by its bytes: parameters, frames and link headers. */
module Iap2Rules {
  import opened Bits
  import opened Common
  import opened Iap2

  /** Two bytes, the more significant one first. */
  function Pair(s: seq<byte>, i: nat): nat
    requires i + 2 <= |s|
  {
    256 * (s[i] as int) + s[i + 1]
  }

  lemma PairOf(v: nat)
    requires v < 0x1_0000
    ensures Pair(Be16(v), 0) == v
  {
  }

  /** A parameter is its whole length, its id and its value. */
  lemma TlvBytes(t: Tlv)
    requires t.id < 0x1_0000 && |t.value| <= 65531
    ensures var s := BuiltTlv(t);
            |s| == 4 + |t.value| && Pair(s, 0) == |s| && Pair(s, 2) == t.id && s[4..] == t.value
  {
    PairOf(4 + |t.value|);
    PairOf(t.id);
  }

  /** What is read as one: at least four bytes, of a length that lies within what is there. */
  lemma TlvRead(s: seq<byte>)
    ensures ParseTlv(s).Some? <==> |s| >= 4 && 4 <= Pair(s, 0) <= |s|
    ensures ParseTlv(s).Some? ==> ParseTlv(s).value == Tlv(Pair(s, 2), s[4..Pair(s, 0)])
  {
  }

  /** The search ends at the first parameter with the id. */
  lemma {:induction false} FirstIs(ts: seq<Tlv>, id: nat, k: nat)
    requires k < |ts| && ts[k].id == id && forall i :: 0 <= i < k ==> ts[i].id != id
    ensures FirstWith(ts, id) == Some(ts[k])
  {
    if k > 0 {
      FirstIs(ts[1..], id, k - 1);
    }
  }

  lemma {:induction false} FirstIsNone(ts: seq<Tlv>, id: nat)
    ensures FirstWith(ts, id).None? <==> forall i :: 0 <= i < |ts| ==> ts[i].id != id
  {
    if ts != [] {
      FirstIsNone(ts[1..], id);
      if FirstWith(ts, id).None? {
        forall i | 0 <= i < |ts|
          ensures ts[i].id != id
        {
          assert i > 0 ==> ts[i] == ts[1..][i - 1];
        }
      } else if ts[0].id != id {
        var i :| 0 <= i < |ts[1..]| && ts[1..][i].id == id;
        assert ts[i + 1].id == id;
      }
    }
  }

  /** A frame is two bytes 40, its whole length, the message id and the parameters. */
  lemma FrameBytes(msgid: nat, payload: seq<byte>)
    requires msgid < 0x1_0000 && |payload| <= 65529
    ensures var s := BuiltFrame(msgid, payload);
            && |s| == 6 + |payload| && s[0] == 0x40 && s[1] == 0x40 && Pair(s, 2) == |s| && Pair(s, 4) == msgid
            && s[6..] == payload
  {
    PairOf(6 + |payload|);
    PairOf(msgid);
  }

  /** What is found as one. */
  lemma FrameFound(s: seq<byte>, i: nat)
    ensures FrameAt(s, i) <==> i + 6 <= |s| && s[i] == 0x40 && s[i + 1] == 0x40 && 6 <= Pair(s, i + 2) <= |s| - i
    ensures FrameAt(s, i) ==> MessageAt(s, i) == Message(i, Pair(s, i + 4), s[i + 6..i + Pair(s, i + 2)])
  {
  }

  /** The sum is what its name says. */
  lemma SumRule(a: seq<byte>, b: byte)
    ensures Sum([]) == 0 && Sum(a + [b]) == Sum(a) + b as int
  {
    SumConcat(a, [b]);
  }

  /** An injected packet over a nine-byte prefix, by its bytes. */
  lemma PacketBytes(prefix: seq<byte>, frame: seq<byte>, packet: seq<byte>)
    requires |prefix| == 9 && prefix[0] == 0xFF && prefix[1] == 0x5A && Pair(prefix, 2) != 0
    requires Carried(prefix, frame, packet) && |packet| <= 65535
    ensures |packet| == 10 + |frame| && packet[0] == 0xFF && packet[1] == 0x5A && Pair(packet, 2) == |packet|
    ensures packet[4..8] == prefix[4..8] && packet[9..9 + |frame|] == frame
    ensures Sum(packet[..9]) % 256 == 0 && Sum(packet[9..]) % 256 == 0
  {
    hide Sum, Read16;
    HeaderRead(prefix);
    InjectedIsWellFormed(prefix, frame, packet);
    HeaderRead(packet);
    assert packet[..9][4..8] == packet[4..8] == prefix[4..8];
  }

  /** A link header: FF 5A, the packet's length, control, number, acknowledgement, session and checksum. */
  lemma HeaderRead(s: seq<byte>)
    ensures ParseLinkHeader(s).Some? <==> |s| >= 9 && s[0] == 0xFF && s[1] == 0x5A
    ensures ParseLinkHeader(s).Some? ==>
              ParseLinkHeader(s).value == LinkHeader(Pair(s, 2), s[4], s[5], s[6], s[7], s[8])
    ensures |s| >= 4 ==> Read16(s, 2) == Pair(s, 2)
  {
  }
}
