/**
 From the inflated data of a PNG file to its pixels, at whole bytes per pixel: one filtered image,
 or seven filtered passes to be unfiltered one after the other and scattered.
 */
module PngImage {
  import opened Bits
  import opened Common
  import opened PngFilter
  import opened Adam7

  type Pixel = seq<byte>

  // ---- rows of bytes and rows of pixels

  function JoinRow(px: seq<Pixel>): seq<byte> {
    if px == [] then [] else px[0] + JoinRow(px[1..])
  }

  function SplitRowAt(row: seq<byte>, bpp: nat, n: nat): (px: seq<Pixel>)
    ensures |px| == n
    decreases n
  {
    if n == 0 then []
    else if |row| < bpp then [row] + SplitRowAt([], bpp, n - 1)
    else [row[..bpp]] + SplitRowAt(row[bpp..], bpp, n - 1)
  }

  ghost predicate RowOk(px: seq<Pixel>, bpp: nat) {
    forall i :: 0 <= i < |px| ==> |px[i]| == bpp
  }

  lemma {:induction false} SplitJoined(px: seq<Pixel>, bpp: nat)
    requires RowOk(px, bpp)
    ensures |JoinRow(px)| == |px| * bpp && SplitRowAt(JoinRow(px), bpp, |px|) == px
  {
    if px != [] {
      SplitJoined(px[1..], bpp);
      assert JoinRow(px)[bpp..] == JoinRow(px[1..]) && JoinRow(px)[..bpp] == px[0];
      assert |px| * bpp == |px[1..]| * bpp + bpp;
    }
  }

  function JoinRows(pass: seq<seq<Pixel>>): (rows: seq<seq<byte>>)
    ensures |rows| == |pass|
  {
    seq(|pass|, j requires 0 <= j < |pass| => JoinRow(pass[j]))
  }

  function SplitRows(rows: seq<seq<byte>>, bpp: nat, x: nat): (pass: seq<seq<Pixel>>)
    ensures |pass| == |rows| && forall j :: 0 <= j < |pass| ==> |pass[j]| == x
  {
    seq(|rows|, j requires 0 <= j < |rows| => SplitRowAt(rows[j], bpp, x))
  }

  ghost predicate PassOk(pass: seq<seq<Pixel>>, x: nat, bpp: nat) {
    forall j :: 0 <= j < |pass| ==> |pass[j]| == x && RowOk(pass[j], bpp)
  }

  lemma RowsJoin(pass: seq<seq<Pixel>>, x: nat, bpp: nat)
    requires PassOk(pass, x, bpp)
    ensures SplitRows(JoinRows(pass), bpp, x) == pass
    ensures forall j :: 0 <= j < |pass| ==> |JoinRows(pass)[j]| == x * bpp
  {
    forall j | 0 <= j < |pass|
      ensures |JoinRows(pass)[j]| == x * bpp && SplitRows(JoinRows(pass), bpp, x)[j] == pass[j]
    {
      SplitJoined(pass[j], bpp);
    }
  }

  // ---- one pass

  /** The pixels of y filtered rows of x pixels at the front of the data. */
  function PassAt(raw: seq<byte>, x: nat, y: nat, bpp: nat): (r: Option<seq<seq<Pixel>>>)
    requires bpp >= 1
    ensures r.Some? ==> Size(x * bpp, y) <= |raw| && |r.value| == y && forall j :: 0 <= j < y ==> |r.value[j]| == x
  {
    if |raw| < Size(x * bpp, y) then None
    else
      UnfilteredRows(raw, x * bpp, bpp, y, Zeros(x * bpp), []);
      match Unfiltered(raw, x * bpp, bpp, y, Zeros(x * bpp), [])
      case None => None
      case Some(rows) => Some(SplitRows(rows, bpp, x))
  }

  lemma {:induction false} UnfilteredRows(raw: seq<byte>, w: nat, bpp: nat, y: nat, prior: seq<byte>,
                                          rows: seq<seq<byte>>)
    requires |prior| == w && bpp >= 1 && |raw| >= Size(w, y)
    ensures var r := Unfiltered(raw, w, bpp, y, prior, rows);
            r.Some? ==> |r.value| == |rows| + y
    decreases y
  {
    if y > 0 && raw[0] <= 4 {
      var row := Recon(raw[0], prior, raw[1..1 + w], bpp, w);
      UnfilteredRows(raw[1 + w..], w, bpp, y - 1, row, rows + [row]);
    }
  }

  /** What an encoder writes for a pass: its rows, each under the filter chosen for it. */
  ghost function PassBytes(pass: seq<seq<Pixel>>, filters: seq<byte>, x: nat, bpp: nat): seq<byte>
    requires PassOk(pass, x, bpp) && |filters| == |pass| && bpp >= 1
  {
    RowsJoin(pass, x, bpp);
    Filtered(JoinRows(pass), filters, Zeros(x * bpp), bpp)
  }

  lemma PassRoundTrip(pass: seq<seq<Pixel>>, filters: seq<byte>, x: nat, bpp: nat, extra: seq<byte>)
    requires PassOk(pass, x, bpp) && |filters| == |pass| && bpp >= 1
    requires forall j :: 0 <= j < |filters| ==> filters[j] <= 4
    ensures PassAt(PassBytes(pass, filters, x, bpp) + extra, x, |pass|, bpp) == Some(pass)
    ensures |PassBytes(pass, filters, x, bpp)| == Size(x * bpp, |pass|)
  {
    hide Filtered, Unfiltered, JoinRows, SplitRows;
    RowsJoin(pass, x, bpp);
    FilterRoundTrip(JoinRows(pass), filters, Zeros(x * bpp), bpp, extra, []);
    assert [] + JoinRows(pass) == JoinRows(pass);
  }

  // ---- seven passes

  /** A pass with no rows or no columns has no data at all. */
  predicate Empty(w: nat, h: nat, p: nat)
    requires w >= 1 && h >= 1 && p < 7
  {
    PassWidth(w, p) == 0 || PassHeight(h, p) == 0
  }

  function Blank(h: nat, p: nat): seq<seq<Pixel>>
    requires h >= 1 && p < 7
  {
    seq(PassHeight(h, p), _ => [])
  }

  /** Passes p to 6, one behind the other in the data. */
  function PassesFrom(raw: seq<byte>, w: nat, h: nat, bpp: nat, p: nat): (r: Option<seq<seq<seq<Pixel>>>>)
    requires w >= 1 && h >= 1 && bpp >= 1 && p <= 7
    ensures r.Some? ==> |r.value| == 7 - p && forall q :: 0 <= q < 7 - p ==> PassShape(r.value[q], w, h, p + q)
    decreases 7 - p
  {
    if p == 7 then Some([])
    else if Empty(w, h, p) then
      match PassesFrom(raw, w, h, bpp, p + 1)
      case None => None
      case Some(rest) => Some([Blank(h, p)] + rest)
    else
      var x, y := PassWidth(w, p), PassHeight(h, p);
      match PassAt(raw, x, y, bpp)
      case None => None
      case Some(pass) =>
        match PassesFrom(raw[Size(x * bpp, y)..], w, h, bpp, p + 1)
        case None => None
        case Some(rest) => Some([pass] + rest)
  }

  /** What an encoder writes for passes p to 6. */
  ghost function Data(passes: seq<seq<seq<Pixel>>>, filters: seq<seq<byte>>, w: nat, h: nat, bpp: nat, p: nat)
    : seq<byte>
    requires PassesOk(passes, filters, w, h, bpp) && p <= 7
    decreases 7 - p
  {
    if p == 7 then []
    else (if Empty(w, h, p) then [] else PassBytes(passes[p], filters[p], PassWidth(w, p), bpp))
         + Data(passes, filters, w, h, bpp, p + 1)
  }

  ghost predicate PassesOk(passes: seq<seq<seq<Pixel>>>, filters: seq<seq<byte>>, w: nat, h: nat, bpp: nat) {
    && w >= 1 && h >= 1 && bpp >= 1 && |passes| == |filters| == 7
    && forall p :: 0 <= p < 7 ==> PassFiltered(passes[p], filters[p], w, h, bpp, p)
  }

  ghost predicate PassFiltered(pass: seq<seq<Pixel>>, filters: seq<byte>, w: nat, h: nat, bpp: nat, p: nat)
    requires w >= 1 && h >= 1 && p < 7
  {
    && PassShape(pass, w, h, p) && PassOk(pass, PassWidth(w, p), bpp)
    && |filters| == |pass| && forall j :: 0 <= j < |filters| ==> filters[j] <= 4
  }

  lemma BlankIsAll(pass: seq<seq<Pixel>>, w: nat, h: nat, p: nat)
    requires w >= 1 && h >= 1 && p < 7 && PassShape(pass, w, h, p) && Empty(w, h, p)
    ensures pass == Blank(h, p)
  {
    if PassWidth(w, p) == 0 {
      assert forall j :: 0 <= j < |pass| ==> pass[j] == [];
    }
  }

  lemma {:induction false} PassesRoundTrip(passes: seq<seq<seq<Pixel>>>, filters: seq<seq<byte>>, w: nat, h: nat,
                                           bpp: nat, p: nat, extra: seq<byte>)
    requires PassesOk(passes, filters, w, h, bpp) && p <= 7
    ensures PassesFrom(Data(passes, filters, w, h, bpp, p) + extra, w, h, bpp, p) == Some(passes[p..])
    decreases 7 - p
  {
    hide PassAt, PassBytes, PassWidth, PassHeight, Blank;
    if p < 7 {
      assert PassFiltered(passes[p], filters[p], w, h, bpp, p);
      var rest := Data(passes, filters, w, h, bpp, p + 1);
      PassesRoundTrip(passes, filters, w, h, bpp, p + 1, extra);
      assert passes[p..] == [passes[p]] + passes[p + 1..];
      if Empty(w, h, p) {
        BlankIsAll(passes[p], w, h, p);
        assert Data(passes, filters, w, h, bpp, p) + extra == rest + extra;
      } else {
        var bytes := PassBytes(passes[p], filters[p], PassWidth(w, p), bpp);
        PassRoundTrip(passes[p], filters[p], PassWidth(w, p), bpp, rest + extra);
        assert Data(passes, filters, w, h, bpp, p) + extra == bytes + (rest + extra);
        assert (bytes + (rest + extra))[|bytes|..] == rest + extra;
      }
    }
  }

  // ---- the decoder

  method ReadPass(raw: seq<byte>, x: nat, y: nat, bpp: nat) returns (ok: bool, pass: seq<seq<Pixel>>)
    requires bpp >= 1 && x >= 1
    ensures PassAt(raw, x, y, bpp) == if ok then Some(pass) else None
  {
    assert x * bpp >= bpp by {
      assert x * bpp == (x - 1) * bpp + bpp;
    }
    var rows;
    ok, rows := CreateImageRaw(raw, x * bpp, bpp, y);
    pass := [];
    if ok {
      pass := SplitRows(rows, bpp, x);
    }
  }

  /** The image so far: the pixels of passes below p are those of t, if there is such a t. */
  ghost predicate Scattered(final: array2<Pixel>, t: Option<seq<seq<seq<Pixel>>>>, w: nat, h: nat, p: nat)
    requires w >= 1 && h >= 1
    requires t.Some? ==> |t.value| == 7 && forall q :: 0 <= q < 7 ==> PassShape(t.value[q], w, h, q)
    reads final
  {
    && final.Length0 == h && final.Length1 == w
    && (t.Some? ==> forall x: nat, y: nat | x < w && y < h && PassOf(x, y) < p ::
                      final[y, x] == Sample(t.value, w, h, x, y))
  }

  ghost predicate Left(raw: seq<byte>, t: Option<seq<seq<seq<Pixel>>>>, w: nat, h: nat, bpp: nat, p: nat)
    requires w >= 1 && h >= 1 && bpp >= 1 && p <= 7
  {
    PassesFrom(raw, w, h, bpp, p) == if t.Some? && |t.value| == 7 then Some(t.value[p..]) else None
  }

  lemma NextLeft(raw: seq<byte>, t: Option<seq<seq<seq<Pixel>>>>, w: nat, h: nat, bpp: nat, p: nat)
    requires w >= 1 && h >= 1 && bpp >= 1 && p < 7 && (t.Some? ==> |t.value| == 7) && Left(raw, t, w, h, bpp, p)
    ensures Empty(w, h, p) ==> Left(raw, t, w, h, bpp, p + 1)
    ensures !Empty(w, h, p) ==>
              var x, y := PassWidth(w, p), PassHeight(h, p);
              var pass := PassAt(raw, x, y, bpp);
              if pass.None? then t.None?
              else Left(raw[Size(x * bpp, y)..], t, w, h, bpp, p + 1) && (t.Some? ==> t.value[p] == pass.value)
  {
    hide PassAt, PassWidth, PassHeight, Blank;
    if t.Some? {
      assert t.value[p..][0] == t.value[p] && t.value[p..][1..] == t.value[p + 1..];
    }
  }

  /** Interlaced: unfilter and scatter each pass; fails exactly when one is cut short or has an unknown filter. */
  method CreateInterlaced(raw: seq<byte>, w: nat, h: nat, bpp: nat) returns (ok: bool, final: array2<Pixel>)
    requires w >= 1 && h >= 1 && bpp >= 1
    ensures final.Length0 == h && final.Length1 == w
    ensures ok <==> PassesFrom(raw, w, h, bpp, 0).Some?
    ensures ok ==> forall x: nat, y: nat | x < w && y < h ::
                     final[y, x] == Sample(PassesFrom(raw, w, h, bpp, 0).value, w, h, x, y)
  {
    hide PassesFrom, PassAt, Size, PassWidth, PassHeight;
    final := new Pixel[h, w];
    ghost var t := PassesFrom(raw, w, h, bpp, 0);
    assert t.Some? ==> t.value[0..] == t.value;
    var data := raw;
    for p := 0 to 7
      invariant Scattered(final, t, w, h, p) && Left(data, t, w, h, bpp, p)
    {
      NextLeft(data, t, w, h, bpp, p);
      var x, y := PassWidth(w, p), PassHeight(h, p);
      if x > 0 && y > 0 {
        var pass;
        ok, pass := ReadPass(data, x, y, bpp);
        if !ok {
          return;
        }
        data := data[Size(x * bpp, y)..];
        ScatterPass(final, pass, p);
      } else {
        NothingInEmpty(w, h, p);
      }
    }
    ok := true;
    NoneLeft(data, t, w, h, bpp);
  }

  lemma NoneLeft(raw: seq<byte>, t: Option<seq<seq<seq<Pixel>>>>, w: nat, h: nat, bpp: nat)
    requires w >= 1 && h >= 1 && bpp >= 1 && Left(raw, t, w, h, bpp, 7)
    ensures t.Some?
  {
  }

  lemma NothingInEmpty(w: nat, h: nat, p: nat)
    requires w >= 1 && h >= 1 && p < 7 && Empty(w, h, p)
    ensures forall x: nat, y: nat | x < w && y < h :: PassOf(x, y) != p
  {
    forall x: nat, y: nat | x < w && y < h
      ensures PassOf(x, y) != p
    {
      EveryPixelHit(w, h, x, y);
    }
  }

  /** An image split into passes, each row filtered at will, laid out pass after pass, comes back pixel by pixel. */
  lemma InterlacedRoundTrip(img: seq<seq<Pixel>>, passes: seq<seq<seq<Pixel>>>, filters: seq<seq<byte>>,
                            w: nat, h: nat, bpp: nat, extra: seq<byte>, x: nat, y: nat)
    requires PassesOk(passes, filters, w, h, bpp)
    requires |img| == h && (forall r :: 0 <= r < h ==> |img[r]| == w) && x < w && y < h
    requires forall p :: 0 <= p < 7 ==> Extracted(img, w, h, p, passes[p])
    ensures var t := PassesFrom(Data(passes, filters, w, h, bpp, 0) + extra, w, h, bpp, 0);
            t.Some? && Sample(t.value, w, h, x, y) == img[y][x]
  {
    hide Data, PassesFrom;
    PassesRoundTrip(passes, filters, w, h, bpp, 0, extra);
    assert passes[0..] == passes;
    InterlaceRoundTrip(img, w, h, passes, x, y);
  }
}
