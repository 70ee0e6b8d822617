/** Rewriting the build id held in the constant pool of a Java class file. */
module ClassFile {
  import opened Bits
  import opened Common

  const TAG_UTF8: byte := 1
  const BODY: nat := 10

  /** A constant-pool entry; every kind but Utf8 has a body of fixed width. */
  datatype Entry = Utf8(raw: seq<byte>) | Other(tag: byte, body: seq<byte>)

  /** Magic and version, the pool's declared count, the pool, and everything after it. */
  datatype ClassFile = ClassFile(head: seq<byte>, count: nat, pool: seq<Entry>, rest: seq<byte>)

  function Width(tag: byte): Option<nat> {
    if tag == 3 || tag == 4 then Some(4)
    else if tag == 5 || tag == 6 then Some(8)
    else if tag == 7 || tag == 8 || tag == 16 || tag == 19 || tag == 20 then Some(2)
    else if tag == 9 || tag == 10 || tag == 11 || tag == 12 || tag == 17 || tag == 18 then Some(4)
    else if tag == 15 then Some(3)
    else None
  }

  function Tag(e: Entry): byte {
    if e.Utf8? then TAG_UTF8 else e.tag
  }

  /** Long and Double entries take two indices. */
  function Slots(tag: byte): nat {
    if tag == 5 || tag == 6 then 2 else 1
  }

  predicate EntryOk(e: Entry) {
    match e
    case Utf8(raw) => |raw| < 0x1_0000
    case Other(tag, body) => Width(tag) == Some(|body|)
  }

  function EntryBytes(e: Entry): seq<byte> {
    match e
    case Utf8(raw) => [TAG_UTF8] + Be16(|raw|) + raw
    case Other(tag, body) => [tag] + body
  }

  function PoolBytes(es: seq<Entry>): seq<byte> {
    if es == [] then [] else PoolBytes(es[..|es| - 1]) + EntryBytes(es[|es| - 1])
  }

  function PoolSlots(es: seq<Entry>): nat {
    if es == [] then 0 else PoolSlots(es[..|es| - 1]) + Slots(Tag(es[|es| - 1]))
  }

  function Magic(): seq<byte> {
    [0xCA, 0xFE, 0xBA, 0xBE]
  }

  function Remaining(count: nat): nat {
    if count == 0 then 0 else count - 1
  }

  ghost predicate WellFormed(c: ClassFile) {
    && |c.head| == 8 && c.head[..4] == Magic() && c.count < 0x1_0000
    && PoolSlots(c.pool) == Remaining(c.count) && forall k :: 0 <= k < |c.pool| ==> EntryOk(c.pool[k])
  }

  function Encode(c: ClassFile): seq<byte> {
    c.head + Be16(c.count) + PoolBytes(c.pool) + c.rest
  }

  // ---- the build-id rule

  function BuildPrefix(): seq<byte> {
    [66, 117, 105, 108, 100, 58, 32]  // "Build: "
  }

  function YearPrefix(): seq<byte> {
    [50, 48, 50, 54, 45]  // "2026-"
  }

  predicate Continues(s: seq<byte>, i: nat, lo: byte, hi: byte) {
    i < |s| && lo <= s[i] <= hi
  }

  /** Length of the UTF-8 character at the front, or 0 if there is none (table 3-7 of the Unicode Standard). */
  function CharLength(s: seq<byte>): (n: nat)
    requires s != []
    ensures n <= |s|
  {
    var b := s[0];
    if b < 0x80 then 1
    else if 0xC2 <= b <= 0xDF then if Continues(s, 1, 0x80, 0xBF) then 2 else 0
    else if 0xE0 <= b <= 0xEF then
      if Continues(s, 1, if b == 0xE0 then 0xA0 else 0x80, if b == 0xED then 0x9F else 0xBF)
         && Continues(s, 2, 0x80, 0xBF) then 3 else 0
    else if 0xF0 <= b <= 0xF4 then
      if Continues(s, 1, if b == 0xF0 then 0x90 else 0x80, if b == 0xF4 then 0x8F else 0xBF)
         && Continues(s, 2, 0x80, 0xBF) && Continues(s, 3, 0x80, 0xBF) then 4 else 0
    else 0
  }

  predicate IsUtf8(s: seq<byte>) {
    s == [] || (var n := CharLength(s); n > 0 && IsUtf8(s[n..]))
  }

  /** A build id, or the words "Build: " and one, is replaced by the new one. */
  function Rewrite(raw: seq<byte>, id: seq<byte>): seq<byte> {
    if !IsUtf8(raw) then raw
    else if BuildPrefix() + YearPrefix() <= raw && raw != BuildPrefix() + id then BuildPrefix() + id
    else if YearPrefix() <= raw && raw != id then id
    else raw
  }

  /** UTF-8 that begins with the year, or with the words "Build: " and the year. */
  predicate Dated(raw: seq<byte>) {
    IsUtf8(raw) && (YearPrefix() <= raw || BuildPrefix() + YearPrefix() <= raw)
  }

  function RewriteEntry(e: Entry, id: seq<byte>): Entry {
    if e.Utf8? then Utf8(Rewrite(e.raw, id)) else e
  }

  function RewriteAll(es: seq<Entry>, id: seq<byte>): (r: seq<Entry>)
    ensures |r| == |es| && forall k :: 0 <= k < |es| ==> r[k] == RewriteEntry(es[k], id)
  {
    if es == [] then [] else RewriteAll(es[..|es| - 1], id) + [RewriteEntry(es[|es| - 1], id)]
  }

  function Rewritten(c: ClassFile, id: seq<byte>): ClassFile {
    c.(pool := RewriteAll(c.pool, id))
  }

  lemma RewriteFits(e: Entry, id: seq<byte>)
    requires EntryOk(e) && |id| + 7 < 0x1_0000
    ensures EntryOk(RewriteEntry(e, id))
  {
  }

  /**
   The pool keeps its layout: every entry its index and tag.  Entries of other kinds, entries that
   are not UTF-8 and entries that begin with neither prefix keep their bytes; the rest get the new id.
   */
  lemma RewritingKeepsStructure(c: ClassFile, id: seq<byte>)
    requires WellFormed(c) && |id| + 7 < 0x1_0000
    ensures var d := Rewritten(c, id);
            && WellFormed(d) && d.head == c.head && d.count == c.count && d.rest == c.rest && |d.pool| == |c.pool|
            && (forall k :: 0 <= k <= |c.pool| ==> PoolSlots(d.pool[..k]) == PoolSlots(c.pool[..k]))
            && (forall k :: 0 <= k < |c.pool| ==> Tag(d.pool[k]) == Tag(c.pool[k]))
            && (forall k :: 0 <= k < |c.pool| && (c.pool[k].Other? || !Dated(c.pool[k].raw)) ==> d.pool[k] == c.pool[k])
            && (forall k :: 0 <= k < |c.pool| && c.pool[k].Utf8? && Dated(c.pool[k].raw) ==>
                  d.pool[k] == Utf8(if BuildPrefix() <= c.pool[k].raw then BuildPrefix() + id else id))
  {
    hide Rewrite, Dated, IsUtf8, WellFormed, PoolSlots, EntryOk;
    var d := Rewritten(c, id);
    forall k | 0 <= k < |c.pool| && c.pool[k].Utf8?
      ensures d.pool[k] == Utf8(if !Dated(c.pool[k].raw) then c.pool[k].raw
                                else if BuildPrefix() <= c.pool[k].raw then BuildPrefix() + id
                                else id)
    {
      DatedByRule(c.pool[k].raw, id);
    }
    RewrittenFits(c, id);
    LayoutKept(c, id);
  }

  lemma DatedByRule(raw: seq<byte>, id: seq<byte>)
    ensures Rewrite(raw, id) == if !Dated(raw) then raw
                                else if BuildPrefix() <= raw then BuildPrefix() + id
                                else id
  {
    hide IsUtf8;
    assert BuildPrefix()[0] != YearPrefix()[0];
  }

  lemma LayoutKept(c: ClassFile, id: seq<byte>)
    ensures var d := Rewritten(c, id);
            && (forall k :: 0 <= k <= |c.pool| ==> PoolSlots(d.pool[..k]) == PoolSlots(c.pool[..k]))
            && (forall k :: 0 <= k < |c.pool| ==> Tag(d.pool[k]) == Tag(c.pool[k]))
  {
    hide Rewrite, PoolSlots;
    var d := Rewritten(c, id);
    forall k | 0 <= k <= |c.pool|
      ensures PoolSlots(d.pool[..k]) == PoolSlots(c.pool[..k])
    {
      SlotsKept(c.pool, d.pool, k);
    }
  }

  lemma RewrittenFits(c: ClassFile, id: seq<byte>)
    requires WellFormed(c) && |id| + 7 < 0x1_0000
    ensures WellFormed(Rewritten(c, id))
  {
    hide Rewrite;
    var d := Rewritten(c, id);
    LayoutKept(c, id);
    assert d.pool[..|d.pool|] == d.pool && c.pool[..|c.pool|] == c.pool;
    forall k | 0 <= k < |d.pool|
      ensures EntryOk(d.pool[k])
    {
      assert EntryOk(c.pool[k]);
      RewriteFits(c.pool[k], id);
    }
  }

  lemma {:induction false} SlotsKept(a: seq<Entry>, b: seq<Entry>, k: nat)
    requires k <= |a| == |b| && forall i :: 0 <= i < |a| ==> Tag(a[i]) == Tag(b[i])
    ensures PoolSlots(a[..k]) == PoolSlots(b[..k])
  {
    if k > 0 {
      SlotsKept(a, b, k - 1);
      assert a[..k][..k - 1] == a[..k - 1] && b[..k][..k - 1] == b[..k - 1];
    }
  }

  /** Patching twice is patching once for every constant, exactly when the new id does not begin "Build: 2026-". */
  lemma StableExactlyWhen(id: seq<byte>)
    requires IsUtf8(id)
    ensures (forall raw :: Rewrite(Rewrite(raw, id), id) == Rewrite(raw, id)) <==> !(BuildPrefix() + YearPrefix() <= id)
  {
    if BuildPrefix() + YearPrefix() <= id {
      var raw := YearPrefix();
      assert IsUtf8(raw) by {
        assert raw[1..][1..][1..][1..][1..] == [];
      }
      assert raw != id && Rewrite(raw, id) == id;
      assert Rewrite(id, id) == BuildPrefix() + id != id;
    } else {
      forall raw
        ensures Rewrite(Rewrite(raw, id), id) == Rewrite(raw, id)
      {
        assert !(YearPrefix() <= BuildPrefix() + id) by {
          assert (BuildPrefix() + id)[0] == 66;
        }
      }
    }
  }

  // ---- reading the pool

  /** The entry at a position and the position after it. */
  function EntryAt(data: seq<byte>, pos: nat): Option<(Entry, nat)> {
    if pos >= |data| then None
    else if data[pos] == TAG_UTF8 then
      if pos + 3 > |data| then None
      else
        var len := Read16(data, pos + 1);
        if pos + 3 + len > |data| then None else Some((Utf8(data[pos + 3..pos + 3 + len]), pos + 3 + len))
    else
      match Width(data[pos])
      case None => None
      case Some(w) =>
        if pos + 1 + w > |data| then None else Some((Other(data[pos], data[pos + 1..pos + 1 + w]), pos + 1 + w))
  }

  /** Entries from a position on, filling exactly this many slots, and the position after them. */
  function PoolAt(data: seq<byte>, pos: nat, slots: nat): Option<(seq<Entry>, nat)>
    decreases slots
  {
    if slots == 0 then if pos <= |data| then Some(([], pos)) else None
    else
      match EntryAt(data, pos)
      case None => None
      case Some((e, next)) =>
        if Slots(Tag(e)) > slots then None
        else
          match PoolAt(data, next, slots - Slots(Tag(e)))
          case None => None
          case Some((es, end)) => Some(([e] + es, end))
  }

  function Parse(data: seq<byte>): Option<ClassFile> {
    if |data| < BODY || data[..4] != Magic() then None
    else
      match PoolAt(data, BODY, Remaining(Read16(data, 8)))
      case None => None
      case Some((es, end)) =>
        if end > |data| then None else Some(ClassFile(data[..8], Read16(data, 8), es, data[end..]))
  }

  lemma {:induction false} PoolCons(e: Entry, es: seq<Entry>)
    ensures PoolBytes([e] + es) == EntryBytes(e) + PoolBytes(es)
    ensures PoolSlots([e] + es) == Slots(Tag(e)) + PoolSlots(es)
  {
    hide EntryBytes, Slots;
    var all := [e] + es;
    if es == [] {
      assert all[..|all| - 1] == [];
    } else {
      assert all[..|all| - 1] == [e] + es[..|es| - 1];
      PoolCons(e, es[..|es| - 1]);
    }
  }

  lemma Utf8Seen(s: seq<byte>, n: nat, raw: seq<byte>)
    requires n + 3 + |raw| <= |s| && |raw| < 0x1_0000
    requires s[n] == TAG_UTF8 && s[n + 1..n + 3] == Be16(|raw|) && s[n + 3..n + 3 + |raw|] == raw
    ensures EntryAt(s, n) == Some((Utf8(raw), n + 3 + |raw|))
  {
    Read16Be16(|raw|);
    var h := s[n + 1..n + 3];
    assert s[n + 1] == h[0] && s[n + 2] == h[1];
  }

  lemma EntryRoundTrip(front: seq<byte>, e: Entry, tail: seq<byte>)
    requires EntryOk(e)
    ensures EntryAt(front + EntryBytes(e) + tail, |front|) == Some((e, |front| + |EntryBytes(e)|))
  {
    var s, n, mid := front + EntryBytes(e) + tail, |front|, EntryBytes(e);
    if e.Utf8? {
      hide EntryAt, Be16;
      var len := Be16(|e.raw|);
      assert s[n + 1..n + 3] == len;
      assert s[n + 3..n + 3 + |e.raw|] == e.raw;
      Utf8Seen(s, n, e.raw);
    } else {
      assert s[n + 1..n + 1 + |e.body|] == e.body;
    }
  }

  lemma {:induction false} PoolRoundTrip(front: seq<byte>, es: seq<Entry>, tail: seq<byte>)
    requires forall k :: 0 <= k < |es| ==> EntryOk(es[k])
    ensures PoolAt(front + PoolBytes(es) + tail, |front|, PoolSlots(es)) == Some((es, |front| + |PoolBytes(es)|))
    decreases |es|
  {
    hide EntryOk, EntryAt, EntryBytes;
    if es != [] {
      var e, rest := es[0], es[1..];
      assert [e] + rest == es;
      PoolCons(e, rest);
      assert front + PoolBytes(es) + tail == front + EntryBytes(e) + (PoolBytes(rest) + tail);
      EntryRoundTrip(front, e, PoolBytes(rest) + tail);
      assert front + PoolBytes(es) + tail == (front + EntryBytes(e)) + PoolBytes(rest) + tail;
      PoolRoundTrip(front + EntryBytes(e), rest, tail);
    }
  }

  /** The bytes of a well-formed class file determine its parts. */
  lemma ClassRoundTrip(c: ClassFile)
    requires WellFormed(c)
    ensures Parse(Encode(c)) == Some(c)
  {
    hide EntryOk, PoolAt, PoolBytes;
    var data := Encode(c);
    var front := c.head + Be16(c.count);
    Read16Be16(c.count);
    assert data == front + PoolBytes(c.pool) + c.rest;
    assert data[8..10] == Be16(c.count) && data[..8] == c.head && data[..4] == c.head[..4];
    PoolRoundTrip(front, c.pool, c.rest);
    assert data[|front| + |PoolBytes(c.pool)|..] == c.rest;
  }

  datatype Result = Ok(data: seq<byte>) | NotAClass | BadTag | Malformed | NoBuildId

  /** Python's slice: bounds past the end are clamped. */
  function Slice(s: seq<byte>, from: nat, to: nat): seq<byte> {
    var hi := if to < |s| then to else |s|;
    if from < hi then s[from..hi] else []
  }

  /** What has been copied so far, if the pool is well formed: the first k of its entries, rewritten. */
  ghost predicate Copied(data: seq<byte>, id: seq<byte>, c: ClassFile, end: nat, k: nat,
                         pos: nat, slots: nat, out: seq<byte>, changed: bool)
  {
    && |data| >= BODY && k <= |c.pool| && PoolAt(data, pos, slots) == Some((c.pool[k..], end))
    && out == data[..BODY] + PoolBytes(RewriteAll(c.pool[..k], id))
    && (changed <==> RewriteAll(c.pool[..k], id) != c.pool[..k])
  }

  lemma CopyStep(data: seq<byte>, id: seq<byte>, c: ClassFile, end: nat, k: nat,
                 pos: nat, slots: nat, out: seq<byte>, changed: bool)
    requires Copied(data, id, c, end, k, pos, slots, out, changed) && slots > 0
    ensures k < |c.pool| && EntryAt(data, pos).Some? && EntryAt(data, pos).value.0 == c.pool[k]
    ensures var e := c.pool[k];
            Slots(Tag(e)) <= slots &&
            Copied(data, id, c, end, k + 1, EntryAt(data, pos).value.1, slots - Slots(Tag(e)),
                   out + EntryBytes(RewriteEntry(e, id)), changed || RewriteEntry(e, id) != e)
  {
    hide EntryAt, EntryBytes, RewriteEntry, Slots;
    var e := c.pool[k];
    assert c.pool[..k + 1][..k] == c.pool[..k];
    var done, more := RewriteAll(c.pool[..k], id), RewriteAll(c.pool[..k + 1], id);
    assert more == done + [RewriteEntry(e, id)] && more[..k] == done;
    assert c.pool[k..][1..] == c.pool[k + 1..];
    assert changed || RewriteEntry(e, id) != e <==> more != c.pool[..k + 1] by {
      assert c.pool[..k + 1] == c.pool[..k] + [e];
      assert more[k] == RewriteEntry(e, id) && c.pool[..k + 1][k] == e;
    }
  }

  /** How many slots are left from index i on. */
  function Left(count: nat, i: nat): nat {
    if i < count then count - i else 0
  }

  datatype Step = Step(bytes: seq<byte>, next: nat, slots: nat, changed: bool) | Stop(why: Result)

  /** Copy one entry, rewriting it if it is a build id. */
  method PatchEntry(data: seq<byte>, pos: nat, id: seq<byte>) returns (s: Step)
    ensures s.Stop? ==> !s.why.Ok?
    ensures s.Step? ==> 1 <= s.slots <= 2
    ensures EntryAt(data, pos).Some? && |id| + 7 < 0x1_0000 ==>
              var (e, next) := EntryAt(data, pos).value;
              s == Step(EntryBytes(RewriteEntry(e, id)), next, Slots(Tag(e)), RewriteEntry(e, id) != e)
  {
    hide IsUtf8;
    if pos >= |data| {
      return Stop(Malformed);
    }
    var tag := data[pos];
    if tag == TAG_UTF8 {
      if pos + 3 > |data| {
        return Stop(Malformed);
      }
      var length := Read16(data, pos + 1);
      var raw := Slice(data, pos + 3, pos + 3 + length);
      assert pos + 3 + length <= |data| ==> raw == data[pos + 3..pos + 3 + length];
      var new_ := Rewrite(raw, id);
      if |new_| >= 0x1_0000 {
        return Stop(Malformed);
      }
      return Step([TAG_UTF8] + Be16(|new_|) + new_, pos + 3 + length, 1, new_ != raw);
    }
    var w := Width(tag);
    if w.None? {
      return Stop(BadTag);
    }
    assert pos + 1 + w.value <= |data| ==> Slice(data, pos + 1, pos + 1 + w.value) == data[pos + 1..pos + 1 + w.value];
    return Step([tag] + Slice(data, pos + 1, pos + 1 + w.value), pos + 1 + w.value,
                if tag == 5 || tag == 6 then 2 else 1, false);
  }

  /**
   Copy a class file, replacing its build-id constants.  A well-formed file comes out as its own
   rewriting, or is refused if that would change nothing.
   */
  method PatchClassUtf8(data: seq<byte>, id: seq<byte>) returns (r: Result)
    ensures r.Ok? ==> |data| >= BODY && data[..4] == Magic()
    ensures Parse(data).Some? && |id| + 7 < 0x1_0000 ==>
              var c := Parse(data).value;
              r == if Rewritten(c, id) == c then NoBuildId else Ok(Encode(Rewritten(c, id)))
  {
    hide EntryAt, EntryBytes, RewriteEntry, Slots, PoolAt, Copied, Magic;
    if Slice(data, 0, 4) != Magic() {
      return NotAClass;
    }
    if |data| < BODY {
      return Malformed;
    }
    var count := Read16(data, 8);
    var pos, out, changed, i := BODY, data[..BODY], false, 1;
    ghost var ok := Parse(data).Some? && |id| + 7 < 0x1_0000;
    ghost var c := if ok then Parse(data).value else ClassFile([], 0, [], []);
    ghost var end, k: nat := if ok then PoolAt(data, BODY, Remaining(count)).value.1 else 0, 0;
    if ok {
      CopyStart(data, id, c, end);
    }
    while i < count
      invariant i >= 1
      invariant ok ==> Copied(data, id, c, end, k, pos, Left(count, i), out, changed)
      decreases count - i
    {
      if ok {
        CopyStep(data, id, c, end, k, pos, Left(count, i), out, changed);
      }
      var step := PatchEntry(data, pos, id);
      if step.Stop? {
        return step.why;
      }
      out := out + step.bytes;
      pos := step.next;
      changed := changed || step.changed;
      i := i + step.slots;
      k := k + 1;
    }
    if ok {
      CopyEnd(data, id, c, end, k, pos, out, changed);
    }
    out := out + Slice(data, pos, |data|);
    if !changed {
      return NoBuildId;
    }
    return Ok(out);
  }

  lemma CopyStart(data: seq<byte>, id: seq<byte>, c: ClassFile, end: nat)
    requires Parse(data) == Some(c) && end == PoolAt(data, BODY, Remaining(c.count)).value.1
    ensures Copied(data, id, c, end, 0, BODY, Left(c.count, 1), data[..BODY], false)
  {
    hide PoolAt;
    assert c.pool[..0] == [] && c.pool[0..] == c.pool;
  }

  lemma CopyEnd(data: seq<byte>, id: seq<byte>, c: ClassFile, end: nat, k: nat, pos: nat, out: seq<byte>, changed: bool)
    requires Parse(data) == Some(c) && end == PoolAt(data, BODY, Remaining(c.count)).value.1
    requires Copied(data, id, c, end, k, pos, 0, out, changed)
    ensures out + Slice(data, pos, |data|) == Encode(Rewritten(c, id)) && (changed <==> Rewritten(c, id) != c)
  {
    PoolEnds(data, pos);
    hide PoolAt, PoolBytes, Rewrite, RewriteEntry, Magic;
    assert pos == end && c.pool[k..] == [] && c.pool[..k] == c.pool;
    assert Slice(data, pos, |data|) == c.rest;
    ReadHeader(data);
  }

  lemma PoolEnds(data: seq<byte>, pos: nat)
    ensures PoolAt(data, pos, 0).Some? ==> PoolAt(data, pos, 0).value == ([], pos)
  {
  }

  lemma ReadHeader(data: seq<byte>)
    requires |data| >= BODY
    ensures data[..8] + Be16(Read16(data, 8)) == data[..BODY]
  {
    var v := Read16(data, 8);
    assert v / 256 == data[8] && v % 256 == data[9];
  }

  /** The whole of it: a well-formed class file with a build id to replace becomes one that differs only in that. */
  lemma PatchedParses(c: ClassFile, id: seq<byte>)
    requires WellFormed(c) && |id| + 7 < 0x1_0000
    ensures Parse(Encode(c)) == Some(c) && Parse(Encode(Rewritten(c, id))) == Some(Rewritten(c, id))
  {
    hide WellFormed, Parse, Encode;
    ClassRoundTrip(c);
    RewritingKeepsStructure(c, id);
    ClassRoundTrip(Rewritten(c, id));
  }
}
