/** Frames of the bus and their big-endian wire form. */
module BusFrame {
  import opened Bits
  import opened Common

  const MAGIC: nat := 0x4350_4842
  const HEADER_SIZE: nat := 16
  const MAX_PAYLOAD: nat := 131072

  datatype Frame = Frame(typ: nat, flags: nat, seqno: nat, payload: seq<byte>) {
    /** The fields fit the widths the header gives them. */
    ghost predicate Fits() {
      typ < 0x1_0000 && flags < 256 && seqno < 0x1_0000_0000 && |payload| <= MAX_PAYLOAD
    }
  }

  function Header(f: Frame): (h: seq<byte>)
    ensures |h| == HEADER_SIZE
  {
    Be32(MAGIC) + Be32(f.seqno) + Be16(f.typ) + [f.flags % 256, 0] + Be32(|f.payload|)
  }

  function Encode(f: Frame): seq<byte> {
    Header(f) + f.payload
  }

  function EncodeAll(fs: seq<Frame>): seq<byte> {
    if fs == [] then [] else Encode(fs[0]) + EncodeAll(fs[1..])
  }

  /** One frame off the front of a byte stream. */
  function Decode(s: seq<byte>): Option<(Frame, seq<byte>)> {
    if |s| < HEADER_SIZE || Read32(s, 0) != MAGIC then None
    else
      var len := Read32(s, 12);
      if |s| < HEADER_SIZE + len then None
      else Some((Frame(Read16(s, 8), s[10], Read32(s, 4), s[HEADER_SIZE..HEADER_SIZE + len]), s[HEADER_SIZE + len..]))
  }

  /** All frames of a stream that ends with a frame. */
  function DecodeAll(s: seq<byte>): Option<seq<Frame>>
    decreases |s|
  {
    if s == [] then Some([])
    else match Decode(s)
      case None => None
      case Some((f, rest)) =>
        match DecodeAll(rest)
        case None => None
        case Some(fs) => Some([f] + fs)
  }

  lemma ReadSlices(s: seq<byte>)
    requires |s| >= HEADER_SIZE
    ensures Read32(s, 0) == Read32(s[0..4], 0) && Read32(s, 4) == Read32(s[4..8], 0)
    ensures Read16(s, 8) == Read16(s[8..10], 0) && Read32(s, 12) == Read32(s[12..16], 0)
  {
  }

  lemma HeaderFields(f: Frame, tail: seq<byte>)
    requires f.Fits()
    ensures var s := Header(f) + tail;
            Read32(s, 0) == MAGIC && Read32(s, 4) == f.seqno && Read16(s, 8) == f.typ
            && s[10] == f.flags && s[11] == 0 && Read32(s, 12) == |f.payload|
  {
    hide Be32, Be16, Read32, Read16;
    Read32Be32(MAGIC);
    Read32Be32(f.seqno);
    Read16Be16(f.typ);
    Read32Be32(|f.payload|);
    var s := Header(f) + tail;
    ReadSlices(s);
    assert s[0..4] == Be32(MAGIC) && s[4..8] == Be32(f.seqno) && s[8..10] == Be16(f.typ);
    assert s[12..16] == Be32(|f.payload|);
  }

  lemma DecodeEncoded(f: Frame, tail: seq<byte>)
    requires f.Fits()
    ensures Decode(Encode(f) + tail) == Some((f, tail))
  {
    HeaderFields(f, f.payload + tail);
    assert Encode(f) + tail == Header(f) + (f.payload + tail);
    var s := Header(f) + (f.payload + tail);
    assert s[HEADER_SIZE..HEADER_SIZE + |f.payload|] == f.payload;
    assert s[HEADER_SIZE + |f.payload|..] == tail;
  }

  /** The bytes of a connection determine the frames sent on it. */
  lemma {:induction false} WireRoundTrip(fs: seq<Frame>)
    requires forall k :: 0 <= k < |fs| ==> fs[k].Fits()
    ensures DecodeAll(EncodeAll(fs)) == Some(fs)
  {
    if fs != [] {
      DecodeEncoded(fs[0], EncodeAll(fs[1..]));
      WireRoundTrip(fs[1..]);
      assert [fs[0]] + fs[1..] == fs;
    }
  }

  /** The header bytes send_frame puts on the wire ahead of the payload. */
  method BuildHeader(f: Frame) returns (hdr: array<byte>)
    ensures fresh(hdr) && hdr[..] == Header(f)
  {
    hide Over, Be32, Be16;
    hdr := new byte[HEADER_SIZE];
    ghost var was := hdr[..];
    WriteBe32(hdr, 0, MAGIC);
    WriteBe32(hdr, 4, f.seqno);
    OverOver(was, 0, Be32(MAGIC), Be32(f.seqno));
    WriteBe16(hdr, 8, f.typ);
    OverOver(was, 0, Be32(MAGIC) + Be32(f.seqno), Be16(f.typ));
    WriteByte(hdr, 10, f.flags % 256);
    OverOver(was, 0, Be32(MAGIC) + Be32(f.seqno) + Be16(f.typ), [f.flags % 256]);
    WriteByte(hdr, 11, 0);
    OverOver(was, 0, Be32(MAGIC) + Be32(f.seqno) + Be16(f.typ) + [f.flags % 256], [0]);
    WriteBe32(hdr, 12, |f.payload|);
    ghost var front := Be32(MAGIC) + Be32(f.seqno) + Be16(f.typ) + [f.flags % 256] + [0];
    OverOver(was, 0, front, Be32(|f.payload|));
    assert front + Be32(|f.payload|) == Header(f);
    OverWhole(was, Header(f));
  }
}
