/** Class files by their bytes (sections 4.1 and 4.4 of the JVM Specification), and what counts as UTF-8 text. */
module ClassRules {
  import opened Bits
  import opened Common
  import opened ClassFile

  // ---- layout

  /** How many bytes follow the tag: references, numbers, names, method handles and dynamic constants. */
  lemma WidthRule(tag: byte)
    ensures tag in {9, 10, 11, 12} ==> Width(tag) == Some(2 + 2)
    ensures tag in {3, 4} ==> Width(tag) == Some(4)
    ensures tag in {5, 6} ==> Width(tag) == Some(4 + 4)
    ensures tag in {7, 8, 16, 19, 20} ==> Width(tag) == Some(2)
    ensures tag == 15 ==> Width(tag) == Some(1 + 2)
    ensures tag in {17, 18} ==> Width(tag) == Some(2 + 2)
    ensures tag in {0, 1, 2, 13, 14} || tag > 20 ==> Width(tag) == None
  {
  }

  /** Only the eight-byte constants take up two indices. */
  lemma SlotsRule(tag: byte)
    ensures Slots(tag) == if Width(tag) == Some(8) then 2 else 1
  {
  }

  /** An entry begins with its tag; text follows its length, the more significant byte first. */
  lemma EntryRule(e: Entry)
    requires EntryOk(e)
    ensures var s := EntryBytes(e);
            match e
            case Utf8(raw) => s[0] == 1 && |s| == 3 + |raw| && 256 * (s[1] as int) + s[2] == |raw| && s[3..] == raw
            case Other(tag, body) => tag != 1 && s == [tag] + body
  {
  }

  /** Four magic bytes, four of version, the count, the entries one behind the other, and the rest. */
  lemma FileRule(c: ClassFile, k: nat)
    requires WellFormed(c) && k < |c.pool|
    ensures var s, at := Encode(c), 10 + |PoolBytes(c.pool[..k])|;
            && |s| >= 10 && s[..4] == [0xCA, 0xFE, 0xBA, 0xBE] && 256 * (s[8] as int) + s[9] == c.count
            && s == s[..10] + PoolBytes(c.pool) + c.rest
            && at + |EntryBytes(c.pool[k])| <= |s| && s[at..at + |EntryBytes(c.pool[k])|] == EntryBytes(c.pool[k])
  {
    hide EntryBytes, EntryOk, PoolBytes;
    var s := Encode(c);
    Count16(c.count);
    assert s[..8] == c.head && s[8..10] == Be16(c.count) && s[..10] == c.head + Be16(c.count);
    assert s[..4] == c.head[..4];
    PoolSplits(c.pool, k);
    var mid := EntryBytes(c.pool[k]);
    Between(s[..10] + PoolBytes(c.pool[..k]), mid, PoolBytes(c.pool[k + 1..]) + c.rest);
    assert s == (s[..10] + PoolBytes(c.pool[..k])) + mid + (PoolBytes(c.pool[k + 1..]) + c.rest);
  }

  lemma Count16(v: nat)
    requires v < 0x1_0000
    ensures 256 * (Be16(v)[0] as int) + Be16(v)[1] == v
  {
  }

  lemma Between(a: seq<byte>, b: seq<byte>, c: seq<byte>)
    ensures (a + b + c)[|a|..|a| + |b|] == b
  {
  }

  lemma {:induction false} PoolSplits(es: seq<Entry>, k: nat)
    requires k < |es|
    ensures PoolBytes(es) == PoolBytes(es[..k]) + EntryBytes(es[k]) + PoolBytes(es[k + 1..])
  {
    hide EntryBytes;
    var init := es[..|es| - 1];
    if k == |es| - 1 {
      assert es[k + 1..] == [];
    } else {
      PoolSplits(init, k);
      assert init[..k] == es[..k] && init[k + 1..] == es[k + 1..][..|es| - k - 2];
      assert es[k + 1..][|es| - k - 2] == es[|es| - 1];
    }
  }

  /** A pool of this many entries fills the indices from 1 up to the count: two for every eight-byte constant. */
  lemma CountRule(c: ClassFile)
    requires WellFormed(c)
    ensures c.count == 0 ==> c.pool == []
    ensures c.count > 0 ==> c.count == 1 + |c.pool| + Doubles(c.pool)
  {
    SlotsCounted(c.pool);
  }

  function Doubles(es: seq<Entry>): nat {
    if es == [] then 0
    else Doubles(es[..|es| - 1]) + if es[|es| - 1].Other? && es[|es| - 1].tag in {5, 6} then 1 else 0
  }

  lemma {:induction false} SlotsCounted(es: seq<Entry>)
    ensures PoolSlots(es) == |es| + Doubles(es)
  {
    if es != [] {
      SlotsCounted(es[..|es| - 1]);
    }
  }

  // ---- the texts

  predicate Begins(s: seq<byte>, text: string) {
    |text| <= |s| && forall i :: 0 <= i < |text| ==> s[i] as char == text[i]
  }

  /** "2026-" at the front is replaced by the id, and "Build: 2026-" by the words and the id. */
  lemma RewriteRule(raw: seq<byte>, id: seq<byte>)
    ensures IsUtf8(raw) && Begins(raw, "2026-") ==> Rewrite(raw, id) == id
    ensures IsUtf8(raw) && Begins(raw, "Build: 2026-") ==>
              var r := Rewrite(raw, id); |r| == 7 + |id| && Begins(r, "Build: ") && r[7..] == id
    ensures !IsUtf8(raw) || !(Begins(raw, "2026-") || Begins(raw, "Build: 2026-")) ==> Rewrite(raw, id) == raw
  {
    hide IsUtf8, BuildPrefix, YearPrefix;
    DatedByRule(raw, id);
    Prefixes(raw);
    Prefixes(BuildPrefix() + id);
    assert BuildPrefix() <= BuildPrefix() + id;
  }

  lemma Prefixes(raw: seq<byte>)
    ensures |BuildPrefix()| == 7
    ensures BuildPrefix() <= raw <==> Begins(raw, "Build: ")
    ensures BuildPrefix() + YearPrefix() <= raw <==> Begins(raw, "Build: 2026-")
    ensures YearPrefix() <= raw <==> Begins(raw, "2026-")
    ensures Begins(raw, "Build: 2026-") ==> Begins(raw, "Build: ")
    ensures Begins(raw, "2026-") ==> !Begins(raw, "Build: ")
  {
    var build, year := "Build: ", "2026-";
    assert BuildPrefix() + YearPrefix() == [66, 117, 105, 108, 100, 58, 32, 50, 48, 50, 54, 45];
    assert Begins(raw, "2026-") ==> raw[0] as char == year[0];
    assert Begins(raw, "Build: ") ==> raw[0] as char == build[0];
  }

  // ---- UTF-8 (RFC 3629)

  predicate Scalar(c: nat) {
    c < 0x11_0000 && !(0xD800 <= c < 0xE000)
  }

  function Encoded(c: nat): (s: seq<byte>)
    requires Scalar(c)
    ensures s != []
  {
    if c < 0x80 then [c]
    else if c < 0x800 then [0xC0 + c / 64, 0x80 + c % 64]
    else if c < 0x1_0000 then [0xE0 + c / 4096, 0x80 + c / 64 % 64, 0x80 + c % 64]
    else [0xF0 + c / 262144, 0x80 + c / 4096 % 64, 0x80 + c / 64 % 64, 0x80 + c % 64]
  }

  ghost predicate Scalars(cs: seq<nat>) {
    forall i :: 0 <= i < |cs| ==> Scalar(cs[i])
  }

  function Text(cs: seq<nat>): seq<byte>
    requires forall i :: 0 <= i < |cs| ==> Scalar(cs[i])
  {
    if cs == [] then [] else Encoded(cs[0]) + Text(cs[1..])
  }

  lemma LengthOfEncoded(c: nat, rest: seq<byte>)
    requires Scalar(c)
    ensures CharLength(Encoded(c) + rest) == |Encoded(c)|
  {
    if c < 0x800 {
    } else if c < 0x1_0000 {
      assert 0 <= c / 4096 < 16 && (c / 4096 == 0 ==> c / 64 >= 32) && (c / 4096 == 13 ==> c / 64 % 64 < 32);
    } else {
      assert 0 <= c / 262144 <= 4 && (c / 262144 == 0 ==> c / 4096 >= 16) && (c / 262144 == 4 ==> c / 4096 % 64 < 16);
    }
  }

  /** Six bits are put behind a number. */
  function Six(a: nat, b: byte): nat
    requires b >= 0x80
  {
    64 * a + (b - 0x80)
  }

  lemma SixBack(a: nat, b: byte)
    requires 0x80 <= b < 0xC0
    ensures Six(a, b) / 64 == a && 0x80 + Six(a, b) % 64 == b
  {
  }

  lemma TwiceSix(c: nat)
    ensures c / 4096 == c / 64 / 64 && c / 262144 == c / 4096 / 64
  {
  }

  lemma LongEncoded(c: nat)
    requires 0x1_0000 <= c < 0x11_0000
    ensures Scalar(c)
    ensures Encoded(c) == [0xF0 + c / 64 / 64 / 64, 0x80 + c / 64 / 64 % 64, 0x80 + c / 64 % 64, 0x80 + c % 64]
  {
    TwiceSix(c);
  }

  lemma FirstScalar(s: seq<byte>) returns (c: nat)
    requires s != [] && CharLength(s) > 0
    ensures Scalar(c) && Encoded(c) == s[..CharLength(s)]
  {
    var n := CharLength(s);
    if n == 1 {
      c := s[0];
    } else if n == 2 {
      c := Six(s[0] - 0xC0, s[1]);
      SixBack(s[0] - 0xC0, s[1]);
    } else if n == 3 {
      c := ThreeBytes(s[0], s[1], s[2]);
    } else {
      c := FourBytes(s[0], s[1], s[2], s[3]);
    }
  }

  lemma ThreeBytes(a: byte, b: byte, d: byte) returns (c: nat)
    requires 0xE0 <= a <= 0xEF && 0x80 <= b <= 0xBF && 0x80 <= d <= 0xBF
    requires (a == 0xE0 ==> b >= 0xA0) && (a == 0xED ==> b <= 0x9F)
    ensures Scalar(c) && Encoded(c) == [a, b, d]
  {
    var hi := Six(a - 0xE0, b);
    c := Six(hi, d);
    SixBack(a - 0xE0, b);
    SixBack(hi, d);
    TwiceSix(c);
  }

  lemma FourBytes(a: byte, b: byte, d: byte, e: byte) returns (c: nat)
    requires 0xF0 <= a <= 0xF4 && 0x80 <= b <= 0xBF && 0x80 <= d <= 0xBF && 0x80 <= e <= 0xBF
    requires (a == 0xF0 ==> b >= 0x90) && (a == 0xF4 ==> b <= 0x8F)
    ensures Scalar(c) && Encoded(c) == [a, b, d, e]
  {
    hide Encoded, Six;
    var top := Six(a - 0xF0, b);
    var hi := Six(top, d);
    c := Six(hi, e);
    FourInRange(a, b, d, e);
    SixBack(a - 0xF0, b);
    SixBack(top, d);
    SixBack(hi, e);
    LongEncoded(c);
  }

  lemma FourInRange(a: byte, b: byte, d: byte, e: byte)
    requires 0xF0 <= a <= 0xF4 && 0x80 <= b <= 0xBF && 0x80 <= d <= 0xBF && 0x80 <= e <= 0xBF
    requires (a == 0xF0 ==> b >= 0x90) && (a == 0xF4 ==> b <= 0x8F)
    ensures 0x1_0000 <= Six(Six(Six(a - 0xF0, b), d), e) < 0x11_0000
    ensures Six(a - 0xF0, b) / 64 == a - 0xF0
  {
  }

  lemma {:induction false} TextIsUtf8(cs: seq<nat>)
    requires Scalars(cs)
    ensures IsUtf8(Text(cs))
  {
    hide CharLength, Encoded;
    if cs != [] {
      TextIsUtf8(cs[1..]);
      LengthOfEncoded(cs[0], Text(cs[1..]));
      assert (Encoded(cs[0]) + Text(cs[1..]))[|Encoded(cs[0])|..] == Text(cs[1..]);
    }
  }

  lemma {:induction false} Utf8IsText(s: seq<byte>) returns (cs: seq<nat>)
    requires IsUtf8(s)
    ensures Scalars(cs) && Text(cs) == s
    decreases |s|
  {
    hide CharLength, Encoded;
    cs := [];
    if s != [] {
      var n := CharLength(s);
      var c := FirstScalar(s);
      var more := Utf8IsText(s[n..]);
      cs := [c] + more;
      assert cs[1..] == more;
    }
  }

  /** Exactly the encodings of Unicode scalar values count as UTF-8. */
  lemma Utf8ExactlyWhen(s: seq<byte>)
    ensures IsUtf8(s) <==> exists cs :: Scalars(cs) && Text(cs) == s
  {
    if IsUtf8(s) {
      var cs := Utf8IsText(s);
    } else {
      forall cs | Scalars(cs)
        ensures Text(cs) != s
      {
        TextIsUtf8(cs);
      }
    }
  }
}
