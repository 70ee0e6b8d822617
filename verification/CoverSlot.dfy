/** A stream slot over a whole descriptor's life: each read, the release after failed probing, and close. */
module CoverSlot {
  import opened Bits
  import opened Common
  import opened CoverPackets
  import opened CoverStream

  const MAX_READ: nat := STREAM_MAX - MAX_LENGTH - 1

  /** The slot of one descriptor and the two flags kept beside it. */
  datatype Slot = Slot(active: bool, raw: seq<byte>, rawCap: nat, jpeg: Jpeg, carplay: bool, probes: nat,
                       skip: bool, known: bool)

  /** A slot no descriptor uses. */
  function Unused(known: bool): Slot {
    Slot(false, [], 0, NO_JPEG, false, 0, false, known)
  }

  /** Taking a free slot clears everything in it; a slot already held is used as it is. */
  function Opened(s: Slot): Slot {
    if s.active then s else Slot(true, [], 0, NO_JPEG, false, 0, s.skip, s.known)
  }

  /** The first image in the collected bytes: from the first start marker to the first end marker after it. */
  function ImageIn(data: seq<byte>): Option<seq<byte>> {
    match Find(data, Soi(), 0)
    case None => None
    case Some(a) =>
      match Find(data[a..], Eoi(), 0)
      case None => None
      case Some(b) => Some(data[a..a + b + 2])
  }

  /** After an image, or past the size limit, collection starts over. */
  function Delivered(j: Jpeg): Jpeg {
    if ImageIn(j.data).Some? then j.(data := [], target := -1)
    else if |j.data| > JPEG_LIMIT then NO_JPEG
    else j
  }

  /** A descriptor without a valid packet is given up after 64 reads. */
  function Probed(s: Slot): Slot {
    if s.carplay then s
    else if s.probes + 1 >= PROBE_LIMIT then
      s.(probes := s.probes + 1, skip := true, raw := [], rawCap := 0, active := false)
    else s.(probes := s.probes + 1)
  }

  datatype Outcome = Outcome(slot: Slot, packets: seq<Packet>, image: Option<seq<byte>>)

  predicate Overflows(s: Slot, n: nat) {
    |s.raw| + n > s.rawCap && NextCap(s.rawCap, |s.raw| + n) > STREAM_MAX
  }

  /** One call of the stream handler. */
  function Handled(s: Slot, buf: seq<byte>): Outcome {
    if buf == [] then Outcome(s, [], None)
    else
      var o := Opened(s);
      if Overflows(o, |buf|) then Outcome(o.(raw := []), [], None)
      else
        var raw := o.raw + buf;
        var (ps, end) := Scan(raw, 0);
        var jpeg := AbsorbAll(o.jpeg, ps);
        Outcome(Probed(o.(raw := raw[end..], rawCap := NextCap(o.rawCap, |raw|), jpeg := Delivered(jpeg),
                          carplay := o.carplay || ps != [])),
                ps, ImageIn(jpeg.data))
  }

  /** What the read hook does with the bytes of one successful read. */
  function Fed(s: Slot, buf: seq<byte>): Outcome {
    if !s.known && s.skip then Outcome(s, [], None) else Handled(s, buf)
  }

  function Closed(s: Slot): Slot {
    var t := s.(skip := false, known := false);
    if s.active then t.(raw := [], rawCap := 0, jpeg := Jpeg(s.jpeg.target, [], 0), active := false) else t
  }

  // ---- what every call keeps, whatever the bytes

  ghost predicate Good(s: Slot) {
    && (s.rawCap == 0 || (IsCap(s.rawCap) && s.rawCap <= STREAM_MAX))
    && |s.raw| <= s.rawCap && |s.raw| <= MAX_LENGTH + 1
    && JpegOk(s.jpeg.(target := if s.active then s.jpeg.target else -1)) && |s.jpeg.data| <= JPEG_LIMIT
    && (s.active && !s.carplay ==> s.jpeg == NO_JPEG && s.probes < PROBE_LIMIT)
    && (!s.active ==> s.raw == [] && s.rawCap == 0 && s.jpeg.data == [] && s.jpeg.cap == 0)
  }

  lemma OpenedGood(s: Slot)
    requires Good(s)
    ensures Good(Opened(s))
  {
  }

  lemma NextCapOk(cap: nat, need: nat)
    requires (cap == 0 || (IsCap(cap) && cap <= STREAM_MAX)) && need > 0
    ensures need <= STREAM_MAX <==> NextCap(cap, need) <= STREAM_MAX
    ensures need <= STREAM_MAX ==> IsCap(NextCap(cap, need))
  {
    LimitsAreCaps();
    if need > cap {
      var c := if cap > 0 then 2 * cap else FIRST_CAP;
      if cap > 0 {
        CapAtLeast(cap);
        assert 2 * cap / 2 == cap;
        if cap < STREAM_MAX {
          CapGap(cap, STREAM_MAX);
        }
      }
      DoubledIsCap(c, need, STREAM_MAX);
    }
  }

  /** The buffer is thrown away whole exactly when it cannot be held in a megabyte, which takes one huge read. */
  lemma OverflowNeedsHugeRead(s: Slot, n: nat)
    requires Good(s) && n > 0
    ensures Overflows(s, n) <==> |s.raw| + n > STREAM_MAX
    ensures Overflows(s, n) ==> n > MAX_READ
  {
    NextCapOk(s.rawCap, |s.raw| + n);
  }

  lemma DeliveredOk(j: Jpeg)
    requires JpegOk(j)
    ensures JpegOk(Delivered(j)) && |Delivered(j).data| <= JPEG_LIMIT
    ensures j == NO_JPEG ==> Delivered(j) == NO_JPEG
  {
    assert !OccursAt([], Soi(), 0);
  }

  /** Every call ends, keeps all bounds, and never meets the 32 MiB cap. */
  lemma HandledGood(s: Slot, buf: seq<byte>)
    requires Good(s)
    ensures Good(Handled(s, buf).slot)
  {
    hide Scan, IsCap, JpegOk, Delivered, ImageIn, NextCap, AllWellFormed;
    var o := Opened(s);
    OpenedGood(s);
    if buf != [] {
      OverflowNeedsHugeRead(o, |buf|);
      NextCapOk(o.rawCap, |o.raw| + |buf|);
      if !Overflows(o, |buf|) {
        var raw := o.raw + buf;
        var (ps, end) := Scan(raw, 0);
        ScanBounds(raw, 0);
        AbsorbAllOk(o.jpeg, ps);
        DeliveredOk(AbsorbAll(o.jpeg, ps));
      }
    }
  }

  /** The branch that frees a 32 MiB collection in the middle of a call is dead. */
  lemma CapNeverHit(s: Slot, buf: seq<byte>, k: nat)
    requires Good(s) && |s.raw| + |buf| <= STREAM_MAX
    requires k < |Scan(Opened(s).raw + buf, 0).0|
    ensures var ps := Scan(Opened(s).raw + buf, 0).0;
            !Absorb(AbsorbAll(Opened(s).jpeg, ps[..k]), ps[k]).1
  {
    var o, raw := Opened(s), Opened(s).raw + buf;
    var ps := Scan(raw, 0).0;
    OpenedGood(s);
    ScanBounds(raw, 0);
    SizeSplit(ps, k);
    AbsorbAllOk(o.jpeg, ps[..k]);
    AbsorbOk(AbsorbAll(o.jpeg, ps[..k]), ps[k]);
  }

  lemma {:induction false} SizeSplit(ps: seq<Packet>, k: nat)
    requires k <= |ps|
    ensures Size(ps) == Size(ps[..k]) + Size(ps[k..])
    ensures Concat(ps) == Concat(ps[..k]) + Concat(ps[k..])
    ensures k < |ps| ==> Size(ps[..k]) + |ps[k]| <= Size(ps)
  {
    if k > 0 {
      SizeSplit(ps[1..], k - 1);
      assert ps[..k][1..] == ps[1..][..k - 1] && ps[1..][k - 1..] == ps[k..];
    } else {
      assert ps[..0] == [] && ps[0..] == ps;
    }
  }

  /** A closed descriptor's number can be used again as if it never had been. */
  lemma ClosedIsUnused(s: Slot, buf: seq<byte>)
    requires Good(s) && buf != []
    ensures Good(Closed(s)) && !Closed(s).active && Closed(s).raw == []
    ensures Closed(s).jpeg.data == [] && Closed(s).jpeg.cap == 0
    ensures Fed(Closed(s), buf) == Fed(Unused(false), buf)
  {
    assert Opened(Closed(s)) == Opened(Unused(false));
  }

  // ---- runs over a framed stream

  function Join(chunks: seq<seq<byte>>): seq<byte> {
    if chunks == [] then [] else Join(chunks[..|chunks| - 1]) + chunks[|chunks| - 1]
  }

  /** packets[since..] are those of the image being collected. */
  datatype Run = Run(slot: Slot, packets: seq<Packet>, images: seq<seq<byte>>, since: nat)

  function Next(b: Run, buf: seq<byte>): Run {
    var o := Fed(b.slot, buf);
    var packets := b.packets + o.packets;
    Run(o.slot, packets, b.images + (if o.image.Some? then [o.image.value] else []),
        if o.slot.jpeg.target == -1 then |packets| else b.since)
  }

  /** A descriptor's life from its first read on. */
  function RunOf(chunks: seq<seq<byte>>, known: bool): Run {
    if chunks == [] then Run(Unused(known), [], [], 0)
    else Next(RunOf(chunks[..|chunks| - 1], known), chunks[|chunks| - 1])
  }

  /** The chunks read cut up a stream of packets, the buffer can take each, and the first packet is soon complete. */
  ghost predicate Framed(chunks: seq<seq<byte>>, ps: seq<Packet>) {
    && AllWellFormed(ps) && Join(chunks) <= Concat(ps)
    && (forall i :: 0 <= i < |chunks| ==> 0 < |chunks[i]| <= MAX_READ)
    && (|chunks| >= PROBE_LIMIT ==> ps != [] && |ps[0]| <= |Join(chunks[..PROBE_LIMIT])|)
  }

  /** The slot is in step with the stream: k packets taken, the rest of what arrived is in the buffer. */
  ghost predicate InStep(s: Slot, k: nat, got: seq<byte>, n: nat, ps: seq<Packet>) {
    && Good(s) && k <= |ps| && (if n > 0 then s.active else s == Unused(s.known)) && !s.skip && got <= Concat(ps)
    && Size(ps[..k]) <= |got| && s.raw == got[Size(ps[..k])..]
    && (k < |ps| ==> |s.raw| < |ps[k]| + 2)
    && (s.carplay <==> k > 0) && (k == 0 ==> s.probes == n)
  }

  lemma JoinPrefix(chunks: seq<seq<byte>>, n: nat)
    requires n <= |chunks|
    ensures |Join(chunks[..n])| <= |Join(chunks)|
  {
    if n == |chunks| {
      assert chunks[..n] == chunks;
    } else {
      JoinPrefix(chunks[..|chunks| - 1], n);
      assert chunks[..|chunks| - 1][..n] == chunks[..n];
    }
  }

  lemma FramedPrefix(chunks: seq<seq<byte>>, ps: seq<Packet>)
    requires chunks != [] && Framed(chunks, ps)
    ensures Framed(chunks[..|chunks| - 1], ps)
  {
    var init := chunks[..|chunks| - 1];
    assert Join(init) <= Join(chunks);
    if |init| >= PROBE_LIMIT {
      assert init[..PROBE_LIMIT] == chunks[..PROBE_LIMIT];
    }
  }

  lemma DropFront(s: seq<byte>, a: seq<byte>, b: seq<byte>)
    requires s <= a + b && |a| <= |s|
    ensures s[|a|..] <= b
  {
  }

  lemma DropTwice(s: seq<byte>, a: nat, b: nat)
    requires a + b <= |s|
    ensures s[a..][b..] == s[a + b..]
  {
  }

  lemma TakeWithin(ps: seq<Packet>, k: nat, j: nat)
    requires k + j <= |ps|
    ensures ps[k..][..j] == ps[k..k + j] && ps[..k + j][..k] == ps[..k] && ps[..k + j][k..] == ps[k..][..j]
  {
  }

  /** Cutting the stream behind the first k packets, and then behind j more. */
  lemma CutTwice(whole: seq<byte>, ps: seq<Packet>, k: nat, j: nat)
    requires whole <= Concat(ps) && k + j <= |ps| && Size(ps[..k]) <= |whole|
    ensures whole[Size(ps[..k])..] <= Concat(ps[k..])
    ensures ps[k..][..j] == ps[k..k + j] && Size(ps[..k + j]) == Size(ps[..k]) + Size(ps[k..][..j])
    ensures Size(ps[..k + j]) <= |whole| ==>
              whole[Size(ps[..k])..][Size(ps[k..][..j])..] == whole[Size(ps[..k + j])..]
  {
    hide Concat, Size;
    SizeSplit(ps, k);
    DropFront(whole, Concat(ps[..k]), Concat(ps[k..]));
    TakeWithin(ps, k, j);
    SizeSplit(ps[..k + j], k);
    if Size(ps[..k + j]) <= |whole| {
      DropTwice(whole, Size(ps[..k]), Size(ps[k..][..j]));
    }
  }

  lemma RestWellFormed(ps: seq<Packet>, k: nat)
    requires AllWellFormed(ps) && k <= |ps|
    ensures AllWellFormed(ps[k..])
  {
    hide WellFormed;
  }

  /** Scanning what is left of a framed stream after k packets takes the j that are ready. */
  lemma ScanReady(whole: seq<byte>, ps: seq<Packet>, k: nat, raw: seq<byte>, j: nat)
    requires AllWellFormed(ps) && whole <= Concat(ps) && k <= |ps| && Size(ps[..k]) <= |whole|
    requires raw == whole[Size(ps[..k])..] && j == Ready(|raw|, ps[k..], true)
    ensures k + j <= |ps| && Size(ps[..k + j]) <= |whole|
    ensures Scan(raw, 0) == (ps[k..k + j], Size(ps[..k + j]) - Size(ps[..k]))
  {
    hide WellFormed, LookAt, Scan, Concat, Ready, AllWellFormed, Size;
    var rest := ps[k..];
    RestWellFormed(ps, k);
    CutTwice(whole, ps, k, j);
    ScanFramed(raw, 0, rest);
    ReadyDefersOne(|raw|, rest, true);
  }

  /** What is then left over is the stream behind those packets, with at most one of the next. */
  lemma LeftOver(whole: seq<byte>, ps: seq<Packet>, k: nat, raw: seq<byte>, j: nat)
    requires AllWellFormed(ps) && whole <= Concat(ps) && k <= |ps| && Size(ps[..k]) <= |whole|
    requires raw == whole[Size(ps[..k])..] && j == Ready(|raw|, ps[k..], true)
    requires k + j <= |ps| && Size(ps[..k + j]) <= |whole|
    ensures k + j < |ps| ==> |whole| - Size(ps[..k + j]) < |ps[k + j]| + 2
    ensures k < |ps| && |raw| >= |ps[k]| ==> j > 0
  {
    hide WellFormed, Concat, Ready, AllWellFormed, Size;
    var rest := ps[k..];
    CutTwice(whole, ps, k, j);
    ReadyDefersOne(|raw|, rest, true);
  }

  /** A read that fits leaves the unscanned bytes in the slot, unless that ends the probing. */
  lemma FedFits(s: Slot, buf: seq<byte>)
    requires Good(s) && !s.skip && 0 < |buf| <= MAX_READ
    ensures var (ps, end) := Scan(s.raw + buf, 0);
            var o := Fed(s, buf);
            && Good(o.slot) && o.packets == ps && (o.slot.carplay <==> Opened(s).carplay || ps != [])
            && (o.slot.carplay || Opened(s).probes + 1 < PROBE_LIMIT ==>
                  o.slot.active && !o.slot.skip && o.slot.raw == (s.raw + buf)[end..])
            && (!o.slot.carplay ==> o.slot.probes == Opened(s).probes + 1)
  {
    hide Scan, AbsorbAll, Delivered, ImageIn, NextCap, Overflows, IsCap, JpegOk;
    HandledGood(s, buf);
    OpenedGood(s);
    OverflowNeedsHugeRead(Opened(s), |buf|);
  }

  /** One read keeps the slot in step, and hands over exactly the packets that became ready. */
  lemma StepInStep(s: Slot, k: nat, got: seq<byte>, n: nat, ps: seq<Packet>, buf: seq<byte>)
    requires InStep(s, k, got, n, ps) && AllWellFormed(ps) && got + buf <= Concat(ps)
    requires 0 < |buf| <= MAX_READ
    requires n + 1 >= PROBE_LIMIT ==> ps != [] && |ps[0]| <= |got + buf|
    ensures var o := Fed(s, buf);
            k + |o.packets| <= |ps| && o.packets == ps[k..k + |o.packets|]
            && InStep(o.slot, k + |o.packets|, got + buf, n + 1, ps)
  {
    hide AllWellFormed, Scan, Good, Concat, Fed, Size, Ready;
    FedFits(s, buf);
    assert s.raw + buf == (got + buf)[Size(ps[..k])..];
    var whole, raw := got + buf, s.raw + buf;
    var j := Ready(|raw|, ps[k..], true);
    ScanReady(whole, ps, k, raw, j);
    LeftOver(whole, ps, k, raw, j);
    DropTwice(whole, Size(ps[..k]), Size(ps[..k + j]) - Size(ps[..k]));
    if k == 0 {
      NothingTaken(ps);
    }
  }

  lemma NothingTaken(ps: seq<Packet>)
    ensures Size(ps[..0]) == 0
  {
  }

  /** The packets handed on are the first of the stream, once each and in order. */
  ghost predicate OnStream(r: Run, got: seq<byte>, n: nat, ps: seq<Packet>) {
    |r.packets| <= |ps| && r.packets == ps[..|r.packets|] && InStep(r.slot, |r.packets|, got, n, ps)
  }

  lemma OnStreamStep(r: Run, got: seq<byte>, n: nat, ps: seq<Packet>, buf: seq<byte>)
    requires OnStream(r, got, n, ps) && AllWellFormed(ps) && got + buf <= Concat(ps) && 0 < |buf| <= MAX_READ
    requires n + 1 >= PROBE_LIMIT ==> ps != [] && |ps[0]| <= |got + buf|
    ensures OnStream(Next(r, buf), got + buf, n + 1, ps)
  {
    hide InStep, Fed, AllWellFormed, Concat;
    StepInStep(r.slot, |r.packets|, got, n, ps, buf);
    var k, o := |r.packets|, Fed(r.slot, buf);
    assert ps[..k] + ps[k..k + |o.packets|] == ps[..k + |o.packets|];
  }

  /**
   A framed stream is never out of step, however it is cut into chunks: the packets handed on are
   the first k of the stream, once each and in order, and the buffer holds exactly the bytes after
   them, with at most one whole packet waiting for two bytes of the next.
   */
  lemma {:induction false} NeverOutOfStep(chunks: seq<seq<byte>>, known: bool, ps: seq<Packet>)
    requires Framed(chunks, ps)
    ensures OnStream(RunOf(chunks, known), Join(chunks), |chunks|, ps)
  {
    if chunks != [] {
      hide OnStream, Next, Concat;
      var init, buf := chunks[..|chunks| - 1], chunks[|chunks| - 1];
      FramedPrefix(chunks, ps);
      NeverOutOfStep(init, known, ps);
      if |chunks| >= PROBE_LIMIT {
        JoinPrefix(chunks, PROBE_LIMIT);
      }
      OnStreamStep(RunOf(init, known), Join(init), |init|, ps, buf);
    } else {
      assert ps[..0] == [];
      assert Good(Unused(known));
    }
  }

  // ---- images

  /** What has been collected comes from the packets since the last image, and holds no whole image yet. */
  ghost predicate Collecting(r: Run) {
    && Good(r.slot) && (!r.slot.active ==> r.slot.jpeg == NO_JPEG) && r.since <= |r.packets|
    && (r.slot.jpeg.target, r.slot.jpeg.data) == Collected(r.packets[r.since..])
    && ImageIn(r.slot.jpeg.data) == None
  }

  lemma NoImageInNothing()
    ensures ImageIn([]) == None
  {
    assert !OccursAt([], Soi(), 0);
  }

  /** A call that is ignored or overflows changes nothing that was collected. */
  lemma FedParts(s: Slot, buf: seq<byte>)
    requires Good(s) && (!s.active ==> s.jpeg == NO_JPEG) && ImageIn(s.jpeg.data) == None
    ensures var o := Fed(s, buf);
            var j := AbsorbAll(s.jpeg, o.packets);
            && Good(o.slot) && (!o.slot.active ==> o.slot.jpeg == NO_JPEG)
            && |s.jpeg.data| + Size(o.packets) <= JPEG_CAP_MAX && JpegOk(s.jpeg)
            && o.image == ImageIn(j.data) && o.slot.jpeg == Delivered(j)
  {
    hide Scan, IsCap, ImageIn, NextCap, Overflows, AllWellFormed;
    HandledGood(s, buf);
    NoImageInNothing();
    var o := Opened(s);
    if buf != [] && !Overflows(o, |buf|) && (s.known || !s.skip) {
      OverflowNeedsHugeRead(o, |buf|);
      ScanBounds(o.raw + buf, 0);
      assert o.jpeg == s.jpeg;
      assert Handled(s, buf).packets == [] ==> !Handled(s, buf).slot.active ==> !s.carplay;
    }
  }

  lemma NothingCollected()
    ensures Collected([]) == (-1, [])
  {
  }

  lemma UnlockedIsEmpty(s: Slot)
    requires Good(s) && (!s.active ==> s.jpeg == NO_JPEG) && s.jpeg.target == -1
    ensures s.jpeg.data == []
  {
  }

  lemma CollectingStep(b: Run, buf: seq<byte>)
    requires Collecting(b)
    ensures Collecting(Next(b, buf)) && b.since <= |Next(b, buf).packets|
    ensures var image := ImageIn(Collected(Next(b, buf).packets[b.since..]).1);
            Next(b, buf).images == b.images + if image.Some? then [image.value] else []
  {
    hide Good, JpegOk, ImageIn, Fed, Collected, AbsorbAll, Size;
    var o, r := Fed(b.slot, buf), Next(b, buf);
    FedParts(b.slot, buf);
    CollectMore(b.slot.jpeg, b.packets[b.since..], o.packets);
    assert r.packets[b.since..] == b.packets[b.since..] + o.packets;
    NoImageInNothing();
    if o.slot.jpeg.target == -1 {
      assert r.packets[|r.packets|..] == [];
      UnlockedIsEmpty(o.slot);
      NothingCollected();
    }
  }

  /**
   Whatever the bytes, the image handed over by a call, if any, is the first whole image in the
   payloads that the opening packet's session has sent since the previous image.
   */
  lemma {:induction false} ImagesAreExact(chunks: seq<seq<byte>>, known: bool)
    ensures Collecting(RunOf(chunks, known))
    ensures chunks != [] ==>
              var b, r := RunOf(chunks[..|chunks| - 1], known), RunOf(chunks, known);
              b.since <= |r.packets| &&
              var image := ImageIn(Collected(r.packets[b.since..]).1);
              r.images == b.images + if image.Some? then [image.value] else []
  {
    if chunks == [] {
      NoImageInNothing();
    } else {
      hide Collecting, Next;
      ImagesAreExact(chunks[..|chunks| - 1], known);
      CollectingStep(RunOf(chunks[..|chunks| - 1], known), chunks[|chunks| - 1]);
    }
  }
}
