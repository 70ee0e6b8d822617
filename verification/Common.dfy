/** Optional values and big-endian numbers in byte buffers. */
module Common {
  import opened Bits

  datatype Option<T> = None | Some(value: T)

  function Be16(v: nat): (s: seq<byte>)
    ensures |s| == 2
  {
    [v / 256 % 256, v % 256]
  }

  function Be32(v: nat): (s: seq<byte>)
    ensures |s| == 4
  {
    [v / 0x100_0000 % 256, v / 0x1_0000 % 256, v / 256 % 256, v % 256]
  }

  function Read16(s: seq<byte>, i: nat): nat
    requires i + 2 <= |s|
  {
    (s[i] as int) * 256 + s[i + 1]
  }

  function Read32(s: seq<byte>, i: nat): nat
    requires i + 4 <= |s|
  {
    (((s[i] as int) * 256 + s[i + 1]) * 256 + s[i + 2]) * 256 + s[i + 3]
  }

  lemma Read16Be16(v: nat)
    requires v < 0x1_0000
    ensures Read16(Be16(v), 0) == v
  {
  }

  lemma Read32Be32(v: nat)
    requires v < 0x1_0000_0000
    ensures Read32(Be32(v), 0) == v
  {
    var a, b, c := v / 256, v / 256 / 256, v / 256 / 256 / 256;
    assert v / 0x1_0000 == b && v / 0x100_0000 == c;
  }

  /** s with the bytes t written over it from position at. */
  function Over(s: seq<byte>, at: nat, t: seq<byte>): (r: seq<byte>)
    requires at + |t| <= |s|
    ensures |r| == |s|
  {
    s[..at] + t + s[at + |t|..]
  }

  /** Writing a and then b right behind it is writing a + b. */
  lemma OverOver(s: seq<byte>, at: nat, a: seq<byte>, b: seq<byte>)
    requires at + |a| + |b| <= |s|
    ensures Over(Over(s, at, a), at + |a|, b) == Over(s, at, a + b)
  {
    var o := Over(s, at, a);
    assert o[..at + |a|] == s[..at] + a;
    assert o[at + |a| + |b|..] == s[at + |a| + |b|..];
  }

  lemma OverWhole(s: seq<byte>, t: seq<byte>)
    requires |t| == |s|
    ensures Over(s, 0, t) == t
  {
  }

  method WriteBe16(p: array<byte>, at: nat, v: nat)
    requires at + 2 <= p.Length
    modifies p
    ensures p[..] == Over(old(p[..]), at, Be16(v))
  {
    p[at] := v / 256 % 256;
    p[at + 1] := v % 256;
  }

  method WriteBe32(p: array<byte>, at: nat, v: nat)
    requires at + 4 <= p.Length
    modifies p
    ensures p[..] == Over(old(p[..]), at, Be32(v))
  {
    p[at] := v / 0x100_0000 % 256;
    p[at + 1] := v / 0x1_0000 % 256;
    p[at + 2] := v / 256 % 256;
    p[at + 3] := v % 256;
  }

  method WriteByte(p: array<byte>, at: nat, b: byte)
    requires at < p.Length
    modifies p
    ensures p[..] == Over(old(p[..]), at, [b])
  {
    p[at] := b;
  }
}
