/** The stream handler as the hook runs it, field by field, and the table of slots. */
module CoverHook {
  import opened Bits
  import opened Common
  import opened CoverPackets
  import opened CoverStream
  import opened CoverSlot

  class StreamState {
    var active: bool
    var raw: seq<byte>
    var rawCap: nat
    var jpeg: seq<byte>
    var jpegCap: nat
    var targetSession: int
    var isCarplay: bool
    var probeCalls: nat
    var fdSkip: bool
    var fdIap2: bool

    ghost function View(): Slot
      reads this
    {
      Slot(active, raw, rawCap, Jpeg(targetSession, jpeg, jpegCap), isCarplay, probeCalls, fdSkip, fdIap2)
    }

    constructor ()
      ensures View() == Unused(false)
    {
      active, raw, rawCap, jpeg, jpegCap, targetSession := false, [], 0, [], 0, -1;
      isCarplay, probeCalls, fdSkip, fdIap2 := false, 0, false, false;
    }

    /** Take the slot: a free one is cleared first. */
    method Acquire()
      modifies this
      ensures View() == Opened(old(View()))
    {
      if active {
        return;
      }
      raw, rawCap, jpeg, jpegCap := [], 0, [], 0;
      targetSession, isCarplay, probeCalls := -1, false, 0;
      active := true;
    }

    /** Put the bytes behind those already waiting, unless the buffer would outgrow its limit. */
    method Append(buf: seq<byte>) returns (ok: bool)
      modifies this
      ensures ok == !Overflows(old(View()), |buf|)
      ensures View() == if ok then
                          old(View()).(raw := old(raw) + buf, rawCap := NextCap(old(rawCap), |old(raw)| + |buf|))
                        else old(View()).(raw := [])
    {
      if |raw| + |buf| > rawCap {
        var cap := if rawCap > 0 then rawCap * 2 else FIRST_CAP;
        cap := Grow(cap, |raw| + |buf|);
        if cap > STREAM_MAX {
          raw := [];
          return false;
        }
        rawCap := cap;
      }
      raw := raw + buf;
      ok := true;
    }

    /** One valid packet: lock its session if it opens an image, and collect its payload if its session is locked. */
    method TakePacket(p: Packet) returns (stop: bool)
      requires 4 <= |p|
      modifies this`jpeg, this`jpegCap, this`targetSession
      ensures (View().jpeg, stop) == Absorb(old(View()).jpeg, p)
    {
      stop := false;
      if |p| > STRIP + TRAILER {
        var sessionId := p[7];
        var payload := p[STRIP..|p| - TRAILER];
        if targetSession == -1 {
          var soi := MyMemmem(payload, Soi());
          if soi.Some? {
            targetSession := sessionId;
          }
        }
        if targetSession == sessionId {
          if |jpeg| + |payload| > jpegCap {
            var need := |jpeg| + |payload|;
            if need > JPEG_CAP_MAX {
              jpeg, jpegCap, targetSession := [], 0, -1;
              return true;
            }
            var cap := if jpegCap > 0 then jpegCap * 2 else FIRST_CAP;
            cap := Grow(cap, need);
            if cap > JPEG_CAP_MAX {
              cap := JPEG_CAP_MAX;
            }
            jpegCap := cap;
          }
          jpeg := jpeg + payload;
        }
      }
    }

    /** Judge the bytes at an offset: no packet here, not yet decidable, or a packet of this length. */
    method Inspect(processed: nat) returns (look: Look)
      requires processed + 4 <= |raw|
      ensures look == LookAt(raw, processed)
    {
      if raw[processed] != 0xFF || raw[processed + 1] != 0x5A {
        return Skip;
      }
      var packetLen := (raw[processed + 2] as int) * 256 + raw[processed + 3];
      if packetLen < 4 {
        return Skip;
      }
      if |raw| - processed < packetLen {
        return Wait;
      }
      var next := processed + packetLen;
      if |raw| >= next + 2 {
        if raw[next] != 0xFF || raw[next + 1] != 0x5A {
          return Skip;
        }
      } else if processed > 0 {
        return Wait;
      }
      return Accept(packetLen);
    }

    /** Take every packet the buffer holds, resynchronising byte by byte, and drop what was consumed. */
    method TakePackets() returns (ghost packets: seq<Packet>)
      requires JpegOk(View().jpeg) && |jpeg| + |raw| <= JPEG_CAP_MAX
      modifies this`raw, this`jpeg, this`jpegCap, this`targetSession, this`isCarplay
      ensures var (ps, end) := Scan(old(raw), 0);
              && packets == ps && raw == old(raw)[end..] && isCarplay == (old(isCarplay) || ps != [])
              && View().jpeg == AbsorbAll(old(View()).jpeg, ps)
    {
      hide LookAt, Absorb, JpegOk, NextCap, Size, AllWellFormed, AbsorbAll;
      ghost var start, all := View().jpeg, Scan(raw, 0);
      var processed := 0;
      packets := [];
      ScanBounds(raw, 0);
      AbsorbNone(start);
      assert [] + all.0 == all.0;
      while |raw| - processed >= 4
        invariant 0 <= processed <= |raw| && raw == old(raw)
        invariant Ahead(all, packets, Scan(raw, processed))
        invariant View().jpeg == AbsorbAll(start, packets)
        invariant isCarplay == (old(isCarplay) || packets != [])
        decreases |raw| - processed
      {
        var look := Inspect(processed);
        if look.Skip? {
          processed := processed + 1;
          continue;
        }
        if look.Wait? {
          break;
        }
        var p := raw[processed..processed + look.len];
        AheadStep(all, packets, p, Scan(raw, processed + look.len), Scan(raw, processed));
        NeverStops(start, all.0, packets, p);
        AbsorbSnoc(start, packets, p);
        isCarplay := true;
        var stop := TakePacket(p);
        packets := packets + [p];
        if stop {
          break;
        }
        processed := processed + look.len;
      }
      raw := raw[processed..];
    }

    /** Hand over the first whole image, if there is one, and start collecting the next. */
    method TakeImage() returns (image: Option<seq<byte>>)
      modifies this`jpeg, this`jpegCap, this`targetSession
      ensures image == ImageIn(old(jpeg)) && View() == old(View()).(jpeg := Delivered(old(View()).jpeg))
    {
      hide ImageIn;
      image := None;
      if |jpeg| > 0 {
        var soi := MyMemmem(jpeg, Soi());
        if soi.None? {
          NoImageStart(jpeg);
        } else {
          ImageFrom(jpeg, soi.value);
        }
        if soi.Some? {
          var eoi := MyMemmem(jpeg[soi.value..], Eoi());
          if eoi.Some? {
            image := Some(jpeg[soi.value..soi.value + eoi.value + 2]);
            jpeg, targetSession := [], -1;
          }
        }
        if |jpeg| > JPEG_LIMIT {
          jpeg, jpegCap, targetSession := [], 0, -1;
        }
      } else {
        NoImageInNothing();
      }
    }

    /** The image is what lies between the first start marker and the first end marker behind it. */
    static lemma ImageFrom(data: seq<byte>, soi: nat)
      requires Find(data, Soi(), 0) == Some(soi)
      ensures soi <= |data|
      ensures Find(data[soi..], Eoi(), 0).None? ==> ImageIn(data) == None
      ensures Find(data[soi..], Eoi(), 0).Some? ==>
                var end := soi + Find(data[soi..], Eoi(), 0).value + 2;
                end <= |data| && ImageIn(data) == Some(data[soi..end])
    {
      hide OccursAt, Find;
      FindWithin(data, Soi(), soi);
      if Find(data[soi..], Eoi(), 0).Some? {
        FindWithin(data[soi..], Eoi(), Find(data[soi..], Eoi(), 0).value);
      }
    }

    static lemma FindWithin(h: seq<byte>, n: seq<byte>, at: nat)
      requires Find(h, n, 0) == Some(at)
      ensures at + |n| <= |h|
    {
    }

    static lemma NoImageStart(data: seq<byte>)
      requires Find(data, Soi(), 0).None?
      ensures ImageIn(data) == None
    {
    }

    method CountProbe()
      modifies this
      ensures View() == Probed(old(View()))
    {
      if !isCarplay {
        probeCalls := probeCalls + 1;
        if probeCalls >= PROBE_LIMIT {
          fdSkip := true;
          raw, rawCap, active := [], 0, false;
        }
      }
    }

    method HandleStreamData(buf: seq<byte>) returns (image: Option<seq<byte>>, ghost packets: seq<Packet>)
      requires Good(View())
      modifies this
      ensures Outcome(View(), packets, image) == Handled(old(View()), buf) && Good(View())
    {
      hide Scan, AbsorbAll, NextCap, IsCap, JpegOk, Overflows, ImageIn, Delivered, Probed;
      image, packets := None, [];
      HandledGood(View(), buf);
      if |buf| == 0 {
        return;
      }
      OpenedGood(View());
      Acquire();
      ghost var held := View();
      OverflowNeedsHugeRead(held, |buf|);
      var ok := Append(buf);
      if !ok {
        return;
      }
      packets := TakePackets();
      image := TakeImage();
      CountProbe();
    }

    /** The read hook, for a read that returned these bytes. */
    method Read(buf: seq<byte>) returns (image: Option<seq<byte>>, ghost packets: seq<Packet>)
      requires Good(View())
      modifies this
      ensures Outcome(View(), packets, image) == Fed(old(View()), buf) && Good(View())
    {
      image, packets := None, [];
      if fdIap2 || !fdSkip {
        image, packets := HandleStreamData(buf);
      }
    }

    /** The open hook: only the iAP2 endpoint is worth reading from. */
    method Open(iap2Path: bool)
      modifies this`fdSkip, this`fdIap2
      ensures View() == old(View()).(known := iap2Path, skip := !iap2Path)
    {
      fdIap2, fdSkip := iap2Path, !iap2Path;
    }

    method Close()
      requires Good(View())
      modifies this
      ensures View() == Closed(old(View())) && Good(View())
    {
      fdSkip, fdIap2 := false, false;
      if active {
        raw, jpeg, rawCap, jpegCap, active := [], [], 0, 0, false;
      }
    }
  }

  /** The whole scan is what was taken so far followed by the scan of the rest. */
  ghost predicate Ahead(all: (seq<Packet>, nat), taken: seq<Packet>, rest: (seq<Packet>, nat)) {
    all == (taken + rest.0, rest.1)
  }

  lemma AheadStep(all: (seq<Packet>, nat), taken: seq<Packet>, p: Packet,
                  rest: (seq<Packet>, nat), here: (seq<Packet>, nat))
    requires Ahead(all, taken, here) && here == ([p] + rest.0, rest.1)
    ensures Ahead(all, taken + [p], rest) && taken + [p] <= all.0
  {
    assert taken + ([p] + rest.0) == taken + [p] + rest.0;
  }

  lemma AbsorbNone(j: Jpeg)
    ensures AbsorbAll(j, []) == j
  {
  }

  lemma AbsorbSnoc(j: Jpeg, taken: seq<Packet>, p: Packet)
    ensures AbsorbAll(j, taken + [p]) == Absorb(AbsorbAll(j, taken), p).0
  {
    assert (taken + [p])[..|taken|] == taken;
  }

  lemma NeverStops(j: Jpeg, ps: seq<Packet>, taken: seq<Packet>, p: Packet)
    requires JpegOk(j) && |j.data| + Size(ps) <= JPEG_CAP_MAX && taken + [p] <= ps
    ensures !Absorb(AbsorbAll(j, taken), p).1
  {
    var k := |taken|;
    assert ps[..k] == taken && ps[k] == p;
    SizeSplit(ps, k);
    AbsorbAllOk(j, taken);
    AbsorbOk(AbsorbAll(j, taken), p);
  }

  // ---- the slot table

  const MAX_STREAMS: nat := 16

  /** Which descriptor holds each slot. */
  class StreamTable {
    const owner: array<Option<nat>>

    ghost predicate Valid()
      reads this, owner
    {
      owner.Length == MAX_STREAMS &&
      forall i, j :: 0 <= i < j < MAX_STREAMS && owner[i].Some? ==> owner[i] != owner[j]
    }

    constructor ()
      ensures Valid() && fresh(owner) && forall i :: 0 <= i < MAX_STREAMS ==> owner[i] == None
    {
      owner := new Option<nat>[MAX_STREAMS](_ => None);
    }

    /** The slot a descriptor holds, or else the first free one, which it holds from now on; none if others hold all. */
    method GetStream(fd: nat) returns (slot: Option<nat>)
      requires Valid()
      modifies owner
      ensures Valid()
      ensures Some(fd) in old(owner[..]) ==> slot.Some? && owner[..] == old(owner[..])
      ensures slot.None? <==> Some(fd) !in old(owner[..]) && None !in old(owner[..])
      ensures slot.None? ==> owner[..] == old(owner[..])
      ensures slot.Some? ==> slot.value < MAX_STREAMS && owner[..] == old(owner[..])[slot.value := Some(fd)]
      ensures slot.Some? && Some(fd) !in old(owner[..]) ==>
                old(owner[slot.value]) == None && None !in old(owner[..slot.value])
    {
      var free: Option<nat> := None;
      for i := 0 to MAX_STREAMS
        invariant Some(fd) !in owner[..i]
        invariant free.None? <==> None !in owner[..i]
        invariant free.Some? ==> free.value < i && owner[free.value] == None && None !in owner[..free.value]
      {
        if owner[i] == Some(fd) {
          assert owner[..] == owner[..][i := Some(fd)];
          return Some(i);
        }
        if owner[i] == None && free.None? {
          free := Some(i);
        }
      }
      assert owner[..] == owner[..MAX_STREAMS];
      if free.None? {
        return None;
      }
      owner[free.value] := Some(fd);
      return free;
    }
  }
}
