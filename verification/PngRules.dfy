/** Passes and pixels of a PNG image by their numbers (sections 2.3, 2.6 and 6 of RFC 2083). */
module PngRules {
  import opened Bits
  import opened Common
  import opened PngFilter
  import opened Adam7
  import opened PngImage

  // ---- which pass a pixel is in, and where

  /** Odd rows are the last pass, odd columns of the others the one before it, and so on down to every eighth. */
  function PassRule(x: nat, y: nat): nat {
    if y % 2 == 1 then 6
    else if x % 2 == 1 then 5
    else if y % 4 == 2 then 4
    else if x % 4 == 2 then 3
    else if y % 8 == 4 then 2
    else if x % 8 == 4 then 1
    else 0
  }

  /** Passes have one column for every so many of the image, and one row. */
  function Across(p: nat): (n: nat)
    ensures n >= 1
  {
    if p < 2 then 8 else if p < 4 then 4 else if p < 6 then 2 else 1
  }

  function Down(p: nat): (n: nat)
    ensures n >= 1
  {
    if p < 3 then 8 else if p < 5 then 4 else 2
  }

  lemma PassesAreThese(x: nat, y: nat)
    ensures PassOf(x, y) == PassRule(x, y)
  {
    SmallPasses(x % 8, y % 8);
    Halves(x);
    Halves(y);
  }

  lemma Halves(x: nat)
    ensures x % 8 % 2 == x % 2 && x % 8 % 4 == x % 4
  {
  }

  lemma SmallPasses(x: nat, y: nat)
    requires x < 8 && y < 8
    ensures PATTERN[y][x] == PassRule(x, y)
  {
  }

  lemma SampleIs<T>(passes: seq<seq<seq<T>>>, w: nat, h: nat, x: nat, y: nat)
    requires |passes| == 7 && x < w && y < h && forall p :: 0 <= p < 7 ==> PassShape(passes[p], w, h, p)
    ensures var p := PassRule(x, y);
            && y / Down(p) < |passes[p]| && x / Across(p) < |passes[p][y / Down(p)]|
            && Sample(passes, w, h, x, y) == passes[p][y / Down(p)][x / Across(p)]
  {
    PassesAreThese(x, y);
    EveryPixelHit(w, h, x, y);
    var p := PassRule(x, y);
    assert PassShape(passes[p], w, h, p);
    SpacesAre(p);
  }

  lemma SpacesAre(p: nat)
    requires p < 7
    ensures XSPC[p] == Across(p) && YSPC[p] == Down(p)
  {
  }

  /** A pass is as wide and as high as the image's share in it. */
  lemma PassSizes(w: nat, h: nat)
    requires w >= 1 && h >= 1
    ensures PassWidth(w, 0) == (w + 7) / 8 && PassHeight(h, 0) == (h + 7) / 8
    ensures PassWidth(w, 1) == (w + 3) / 8 && PassHeight(h, 1) == (h + 7) / 8
    ensures PassWidth(w, 2) == (w + 3) / 4 && PassHeight(h, 2) == (h + 3) / 8
    ensures PassWidth(w, 3) == (w + 1) / 4 && PassHeight(h, 3) == (h + 3) / 4
    ensures PassWidth(w, 4) == (w + 1) / 2 && PassHeight(h, 4) == (h + 1) / 4
    ensures PassWidth(w, 5) == w / 2 && PassHeight(h, 5) == (h + 1) / 2
    ensures PassWidth(w, 6) == w && PassHeight(h, 6) == h / 2
  {
  }

  // ---- pixels

  function Offset(i: nat, bpp: nat): nat {
    i * bpp
  }

  lemma {:induction false} SplitIs(row: seq<byte>, bpp: nat, n: nat, i: nat)
    requires i < n && |row| >= Offset(n, bpp)
    ensures PixelAt(row, Offset(i, bpp), bpp, SplitRowAt(row, bpp, n)[i])
  {
    hide Offset;
    OneMore(n - 1, bpp);
    if i > 0 {
      OneMore(i - 1, bpp);
      SplitIs(row[bpp..], bpp, n - 1, i - 1);
      LaterSlice(row, bpp, Offset(i - 1, bpp));
    } else {
      OneMore(0, bpp);
      assert row[0..0 + bpp] == row[..bpp];
    }
  }

  lemma OneMore(n: nat, bpp: nat)
    ensures Offset(n + 1, bpp) == Offset(n, bpp) + bpp && (n == 0 ==> Offset(n, bpp) == 0)
  {
  }

  lemma LaterSlice(row: seq<byte>, bpp: nat, at: nat)
    requires bpp + at + bpp <= |row|
    ensures row[bpp..][at..at + bpp] == row[at + bpp..at + bpp + bpp]
  {
  }

  /** A pass is read if its rows are all there under known filters, and pixel i of row j is then bytes of that row. */
  lemma PassIs(raw: seq<byte>, x: nat, y: nat, bpp: nat)
    requires bpp >= 1
    ensures PassAt(raw, x, y, bpp).Some? <==> |raw| >= (x * bpp + 1) * y && FiltersKnown(raw, x * bpp, 0, y)
    ensures PassAt(raw, x, y, bpp).Some? ==>
              exists rows ::
                RowsRight(raw, x * bpp, bpp, y, rows) && PixelsOf(rows, x, bpp, PassAt(raw, x, y, bpp).value)
  {
    hide Unfiltered, RowsRight, FiltersKnown;
    SizeIsProduct(x * bpp, y);
    if |raw| >= (x * bpp + 1) * y {
      RowsAreRight(raw, x * bpp, bpp, y);
      match Unfiltered(raw, x * bpp, bpp, y, Zeros(x * bpp), [])
      case None =>
      case Some(rows) =>
        RowWidths(raw, x * bpp, bpp, y, rows);
        PixelsAre(rows, x, bpp);
    }
  }

  ghost predicate PixelsOf(rows: seq<seq<byte>>, x: nat, bpp: nat, pass: seq<seq<Pixel>>) {
    |pass| == |rows| && forall j: nat | j < |rows| :: RowPixels(rows[j], x, bpp, pass[j])
  }

  ghost predicate RowPixels(row: seq<byte>, x: nat, bpp: nat, px: seq<Pixel>) {
    |px| == x && forall i: nat | i < x :: PixelAt(row, Offset(i, bpp), bpp, px[i])
  }

  predicate PixelAt(row: seq<byte>, at: nat, bpp: nat, px: Pixel) {
    at + bpp <= |row| && px == row[at..at + bpp]
  }

  lemma RowWidths(raw: seq<byte>, w: nat, bpp: nat, y: nat, rows: seq<seq<byte>>)
    requires RowsRight(raw, w, bpp, y, rows)
    ensures |rows| == y && forall j: nat | j < y :: |rows[j]| == w
  {
    hide RightAt, RowStart;
    forall j: nat | j < y
      ensures |rows[j]| == w
    {
      assert ThatRowRight(raw, w, bpp, rows, j);
    }
  }

  lemma PixelsAre(rows: seq<seq<byte>>, x: nat, bpp: nat)
    requires forall j: nat | j < |rows| :: |rows[j]| == Offset(x, bpp)
    ensures PixelsOf(rows, x, bpp, SplitRows(rows, bpp, x))
  {
    hide Offset;
    forall j: nat | j < |rows|
      ensures RowPixels(rows[j], x, bpp, SplitRows(rows, bpp, x)[j])
    {
      RowIs(rows[j], x, bpp);
    }
  }

  lemma RowIs(row: seq<byte>, x: nat, bpp: nat)
    requires |row| == Offset(x, bpp)
    ensures RowPixels(row, x, bpp, SplitRowAt(row, bpp, x))
  {
    hide Offset, SplitRowAt;
    forall i: nat | i < x
      ensures PixelAt(row, Offset(i, bpp), bpp, SplitRowAt(row, bpp, x)[i])
    {
      SplitIs(row, bpp, x, i);
    }
  }

  // ---- where each pass begins in the data

  /** Behind those before it; one without rows or columns takes up nothing. */
  function PassStart(w: nat, h: nat, bpp: nat, p: nat): nat
    requires w >= 1 && h >= 1 && p <= 7
  {
    if p == 0 then 0 else PassStart(w, h, bpp, p - 1) + Taken(PassWidth(w, p - 1), PassHeight(h, p - 1), bpp)
  }

  function Taken(x: nat, y: nat, bpp: nat): nat {
    if x == 0 || y == 0 then 0 else (x * bpp + 1) * y
  }

  lemma {:induction false} PassesAt(raw: seq<byte>, w: nat, h: nat, bpp: nat, p: nat)
    requires w >= 1 && h >= 1 && bpp >= 1 && p < 7 && PassesFrom(raw, w, h, bpp, 0).Some?
    ensures PassStart(w, h, bpp, p) <= |raw|
    ensures PassWidth(w, p) > 0 && PassHeight(h, p) > 0 ==>
              PassAt(raw[PassStart(w, h, bpp, p)..], PassWidth(w, p), PassHeight(h, p), bpp)
              == Some(PassesFrom(raw, w, h, bpp, 0).value[p])
  {
    hide PassAt, PassWidth, PassHeight, Blank, PassesFrom;
    assert raw[0..] == raw;
    PassesOn(raw, w, h, bpp, p);
    PassFirst(raw[PassStart(w, h, bpp, p)..], w, h, bpp, p);
  }

  lemma {:induction false} PassesOn(raw: seq<byte>, w: nat, h: nat, bpp: nat, p: nat)
    requires w >= 1 && h >= 1 && bpp >= 1 && p <= 7 && PassesFrom(raw, w, h, bpp, 0).Some?
    ensures PassStart(w, h, bpp, p) <= |raw|
    ensures PassesFrom(raw[PassStart(w, h, bpp, p)..], w, h, bpp, p) == Some(PassesFrom(raw, w, h, bpp, 0).value[p..])
  {
    hide PassAt, PassWidth, PassHeight, Blank, PassesFrom;
    var all := PassesFrom(raw, w, h, bpp, 0).value;
    if p == 0 {
      assert raw[0..] == raw && all[0..] == all;
    } else {
      PassesOn(raw, w, h, bpp, p - 1);
      var rest := raw[PassStart(w, h, bpp, p - 1)..];
      PassFirst(rest, w, h, bpp, p - 1);
      var n := Taken(PassWidth(w, p - 1), PassHeight(h, p - 1), bpp);
      assert rest[n..] == raw[PassStart(w, h, bpp, p)..] && all[p - 1..][1..] == all[p..];
    }
  }

  lemma PassFirst(raw: seq<byte>, w: nat, h: nat, bpp: nat, p: nat)
    requires w >= 1 && h >= 1 && bpp >= 1 && p < 7 && PassesFrom(raw, w, h, bpp, p).Some?
    ensures var x, y, all := PassWidth(w, p), PassHeight(h, p), PassesFrom(raw, w, h, bpp, p).value;
            && Taken(x, y, bpp) <= |raw| && PassesFrom(raw[Taken(x, y, bpp)..], w, h, bpp, p + 1) == Some(all[1..])
            && (x > 0 && y > 0 ==> PassAt(raw, x, y, bpp) == Some(all[0]))
  {
    hide PassAt, PassWidth, PassHeight, Blank;
    SizeIsProduct(PassWidth(w, p) * bpp, PassHeight(h, p));
    assert raw[0..] == raw;
  }

  ghost predicate Readable(raw: seq<byte>, w: nat, h: nat, bpp: nat, p: nat)
    requires w >= 1 && h >= 1 && bpp >= 1 && p < 7
  {
    PassWidth(w, p) > 0 && PassHeight(h, p) > 0 ==>
      PassStart(w, h, bpp, p) <= |raw|
      && PassAt(raw[PassStart(w, h, bpp, p)..], PassWidth(w, p), PassHeight(h, p), bpp).Some?
  }

  /** All seven are read exactly if each that has pixels can be read at its place. */
  lemma PassesReadable(raw: seq<byte>, w: nat, h: nat, bpp: nat)
    requires w >= 1 && h >= 1 && bpp >= 1
    ensures PassesFrom(raw, w, h, bpp, 0).Some? <==> forall p: nat | p < 7 :: Readable(raw, w, h, bpp, p)
  {
    hide PassAt, PassWidth, PassHeight, Blank, PassesFrom;
    if PassesFrom(raw, w, h, bpp, 0).Some? {
      forall p: nat | p < 7
        ensures Readable(raw, w, h, bpp, p)
      {
        PassesAt(raw, w, h, bpp, p);
      }
    }
    if forall p: nat | p < 7 :: Readable(raw, w, h, bpp, p) {
      assert raw[0..] == raw;
      ReadableFrom(raw, w, h, bpp, 0);
    }
  }

  lemma {:induction false} ReadableFrom(raw: seq<byte>, w: nat, h: nat, bpp: nat, p: nat)
    requires w >= 1 && h >= 1 && bpp >= 1 && p <= 7 && PassStart(w, h, bpp, p) <= |raw|
    requires forall q: nat | p <= q < 7 :: Readable(raw, w, h, bpp, q)
    ensures PassesFrom(raw[PassStart(w, h, bpp, p)..], w, h, bpp, p).Some?
    decreases 7 - p
  {
    hide PassAt, PassWidth, PassHeight, Blank;
    if p < 7 {
      var rest, x, y := raw[PassStart(w, h, bpp, p)..], PassWidth(w, p), PassHeight(h, p);
      assert Readable(raw, w, h, bpp, p);
      SizeIsProduct(x * bpp, y);
      assert rest[0..] == rest;
      if Taken(x, y, bpp) <= |rest| {
        assert rest[Taken(x, y, bpp)..] == raw[PassStart(w, h, bpp, p + 1)..];
      }
      ReadableFrom(raw, w, h, bpp, p + 1);
    }
  }
}
