/** Interlaced PNG images: scattering the seven Adam7 passes (section 2.6 of RFC 2083). */
module Adam7 {

  const XORIG: seq<nat> := [0, 4, 0, 2, 0, 1, 0]
  const YORIG: seq<nat> := [0, 0, 4, 0, 2, 0, 1]
  const XSPC: seq<nat> := [8, 8, 4, 4, 2, 2, 1]
  const YSPC: seq<nat> := [8, 8, 8, 4, 4, 2, 2]

  /** The 8 by 8 pattern of section 2.6, passes numbered from 0. */
  const PATTERN: seq<seq<nat>> := [
    [0, 5, 3, 5, 1, 5, 3, 5],
    [6, 6, 6, 6, 6, 6, 6, 6],
    [4, 5, 4, 5, 4, 5, 4, 5],
    [6, 6, 6, 6, 6, 6, 6, 6],
    [2, 5, 3, 5, 2, 5, 3, 5],
    [6, 6, 6, 6, 6, 6, 6, 6],
    [4, 5, 4, 5, 4, 5, 4, 5],
    [6, 6, 6, 6, 6, 6, 6, 6]]

  function PassOf(x: nat, y: nat): (p: nat)
    ensures p < 7
  {
    assert |PATTERN| == 8 && forall r :: 0 <= r < 8 ==> |PATTERN[r]| == 8;
    PATTERN[y % 8][x % 8]
  }

  /** How many of the coordinates below `size` a pass with this origin and spacing has. */
  function Extent(size: nat, orig: nat, spc: nat): (n: nat)
    requires spc > 0 && orig < spc && size >= 1
  {
    (size - orig + spc - 1) / spc
  }

  function PassWidth(w: nat, p: nat): nat
    requires w >= 1 && p < 7
  {
    assert XORIG[p] < XSPC[p] && XSPC[p] > 0;
    Extent(w, XORIG[p], XSPC[p])
  }

  function PassHeight(h: nat, p: nat): nat
    requires h >= 1 && p < 7
  {
    assert YORIG[p] < YSPC[p] && YSPC[p] > 0;
    Extent(h, YORIG[p], YSPC[p])
  }

  /** The column of the image that column i of pass p goes to, and the other way round. */
  function Across(p: nat, i: nat): nat
    requires p < 7
  {
    i * XSPC[p] + XORIG[p]
  }

  function Column(p: nat, x: nat): nat
    requires p < 7
  {
    assert XSPC[p] > 0;
    x / XSPC[p]
  }

  function Down(p: nat, j: nat): nat
    requires p < 7
  {
    j * YSPC[p] + YORIG[p]
  }

  function Row(p: nat, y: nat): nat
    requires p < 7
  {
    assert YSPC[p] > 0;
    y / YSPC[p]
  }

  /** Pixel (i, j) of pass p lands on pixel (x, y) of the image. */
  ghost predicate Lands(p: nat, i: nat, j: nat, x: nat, y: nat)
    requires p < 7
  {
    x == Across(p, i) && y == Down(p, j)
  }

  lemma Coordinate(i: nat, orig: nat, spc: nat, x: nat)
    requires spc in {1, 2, 4, 8} && orig < spc
    ensures x == i * spc + orig <==> x % spc == orig && i == x / spc
  {
  }

  lemma LandsIsCoordinates(p: nat, i: nat, j: nat, x: nat, y: nat)
    requires p < 7
    ensures Lands(p, i, j, x, y) <==> PassOf(x, y) == p && i == Column(p, x) && j == Row(p, y)
  {
    Coordinate(i, XORIG[p], XSPC[p], x);
    Coordinate(j, YORIG[p], YSPC[p], y);
    LandsInPass(p, x, y);
  }

  lemma WithinExtent(i: nat, orig: nat, spc: nat, size: nat)
    requires spc in {1, 2, 4, 8} && orig < spc && size >= 1
    ensures i < Extent(size, orig, spc) <==> i * spc + orig < size
  {
  }

  /** A pass covers exactly the pixels the pattern assigns to it. */
  lemma LandsInPass(p: nat, x: nat, y: nat)
    requires p < 7
    ensures (x % XSPC[p] == XORIG[p] && y % YSPC[p] == YORIG[p]) <==> PassOf(x, y) == p
  {
    PatternIs(x % 8, y % 8, p);
    Residue(x, XSPC[p]);
    Residue(y, YSPC[p]);
  }

  lemma Residue(x: nat, spc: nat)
    requires spc in {1, 2, 4, 8}
    ensures x % 8 % spc == x % spc
  {
  }

  lemma PatternIs(x: nat, y: nat, p: nat)
    requires x < 8 && y < 8 && p < 7
    ensures (x % XSPC[p] == XORIG[p] && y % YSPC[p] == YORIG[p]) <==> PATTERN[y][x] == p
  {
    if y % 2 == 1 {
      OddRow(x, y, p);
    } else {
      EvenRow(x, y, p);
    }
  }

  lemma OddRow(x: nat, y: nat, p: nat)
    requires x < 8 && y in {1, 3, 5, 7} && p < 7
    ensures (x % XSPC[p] == XORIG[p] && y % YSPC[p] == YORIG[p]) <==> PATTERN[y][x] == p
  {
  }

  lemma EvenRow(x: nat, y: nat, p: nat)
    requires x < 8 && y in {0, 2, 4, 6} && p < 7
    ensures (x % XSPC[p] == XORIG[p] && y % YSPC[p] == YORIG[p]) <==> PATTERN[y][x] == p
  {
  }

  /** Every pixel of the image is hit, by a pixel within its pass, */
  lemma EveryPixelHit(w: nat, h: nat, x: nat, y: nat)
    requires x < w && y < h
    ensures var p := PassOf(x, y);
            && Column(p, x) < PassWidth(w, p) && Row(p, y) < PassHeight(h, p)
            && Lands(p, Column(p, x), Row(p, y), x, y)
  {
    var p := PassOf(x, y);
    LandsIsCoordinates(p, Column(p, x), Row(p, y), x, y);
    WithinExtent(Column(p, x), XORIG[p], XSPC[p], w);
    WithinExtent(Row(p, y), YORIG[p], YSPC[p], h);
  }

  /** by no other, and no pass pixel lands outside the image. */
  lemma HitOnce(w: nat, h: nat, p: nat, i: nat, j: nat, x: nat, y: nat)
    requires w >= 1 && h >= 1 && p < 7 && i < PassWidth(w, p) && j < PassHeight(h, p) && Lands(p, i, j, x, y)
    ensures x < w && y < h
    ensures p == PassOf(x, y)
    ensures forall q: nat, k: nat, l: nat | q < 7 && Lands(q, k, l, x, y) :: q == p && k == i && l == j
  {
    WithinExtent(i, XORIG[p], XSPC[p], w);
    WithinExtent(j, YORIG[p], YSPC[p], h);
    LandsIsCoordinates(p, i, j, x, y);
    forall q: nat, k: nat, l: nat | q < 7 && Lands(q, k, l, x, y)
      ensures q == p && k == i && l == j
    {
      LandsIsCoordinates(q, k, l, x, y);
    }
  }

  ghost predicate PassShape<T>(pass: seq<seq<T>>, w: nat, h: nat, p: nat)
    requires w >= 1 && h >= 1 && p < 7
  {
    |pass| == PassHeight(h, p) && forall j :: 0 <= j < |pass| ==> |pass[j]| == PassWidth(w, p)
  }

  /** The pass sample that belongs at (x, y). */
  function Sample<T>(passes: seq<seq<seq<T>>>, w: nat, h: nat, x: nat, y: nat): T
    requires |passes| == 7 && x < w && y < h && forall p :: 0 <= p < 7 ==> PassShape(passes[p], w, h, p)
  {
    EveryPixelHit(w, h, x, y);
    var p := PassOf(x, y);
    assert PassShape(passes[p], w, h, p);
    passes[p][Row(p, y)][Column(p, x)]
  }

  /** Copy one pass into the image, leaving the pixels of all other passes alone. */
  method ScatterPass<T>(final: array2<T>, pass: seq<seq<T>>, p: nat)
    requires final.Length0 >= 1 && final.Length1 >= 1 && p < 7
    requires PassShape(pass, final.Length1, final.Length0, p)
    modifies final
    ensures forall x: nat, y: nat | x < final.Length1 && y < final.Length0 ::
              if PassOf(x, y) == p then
                Row(p, y) < |pass| && Column(p, x) < |pass[Row(p, y)]|
                && final[y, x] == pass[Row(p, y)][Column(p, x)]
              else final[y, x] == old(final[y, x])
  {
    var w, h := final.Length1, final.Length0;
    forall x: nat, y: nat | x < w && y < h && PassOf(x, y) == p
      ensures Row(p, y) < |pass| && Column(p, x) < PassWidth(w, p)
    {
      EveryPixelHit(w, h, x, y);
    }
    for j := 0 to |pass|
      invariant forall x: nat, y: nat | x < w && y < h && PassOf(x, y) == p && Row(p, y) < j ::
                  final[y, x] == pass[Row(p, y)][Column(p, x)]
      invariant forall x: nat, y: nat | x < w && y < h && PassOf(x, y) != p :: final[y, x] == old(final[y, x])
    {
      ScatterRow(final, pass, p, j);
    }
  }

  method ScatterRow<T>(final: array2<T>, pass: seq<seq<T>>, p: nat, j: nat)
    requires final.Length0 >= 1 && final.Length1 >= 1 && p < 7
    requires PassShape(pass, final.Length1, final.Length0, p) && j < |pass|
    modifies final
    ensures forall x: nat, y: nat | x < final.Length1 && y < final.Length0 ::
              if PassOf(x, y) == p && Row(p, y) == j then
                Column(p, x) < |pass[j]| && final[y, x] == pass[j][Column(p, x)]
              else final[y, x] == old(final[y, x])
  {
    hide PassOf, Across, Down, Column, Row;
    var w, h := final.Length1, final.Length0;
    forall x: nat, y: nat | x < w && y < h && PassOf(x, y) == p
      ensures Column(p, x) < PassWidth(w, p)
    {
      EveryPixelHit(w, h, x, y);
    }
    for i := 0 to |pass[j]|
      invariant forall x: nat, y: nat | x < w && y < h && PassOf(x, y) == p && Row(p, y) == j && Column(p, x) < i ::
                  final[y, x] == pass[j][Column(p, x)]
      invariant forall x: nat, y: nat | x < w && y < h && !(PassOf(x, y) == p && Row(p, y) == j) ::
                  final[y, x] == old(final[y, x])
    {
      var outY, outX := Down(p, j), Across(p, i);
      HitOnce(w, h, p, i, j, outX, outY);
      LandsIsCoordinates(p, i, j, outX, outY);
      forall x: nat, y: nat | PassOf(x, y) == p && Row(p, y) == j && Column(p, x) == i
        ensures x == outX && y == outY
      {
        LandsIsCoordinates(p, i, j, x, y);
      }
      final[outY, outX] := pass[j][i];
    }
  }

  /** The seven-pass loop gives every pixel the sample its pass holds for it. */
  method Deinterlace<T(0)>(w: nat, h: nat, passes: seq<seq<seq<T>>>) returns (final: array2<T>)
    requires w >= 1 && h >= 1 && |passes| == 7 && forall p :: 0 <= p < 7 ==> PassShape(passes[p], w, h, p)
    ensures final.Length0 == h && final.Length1 == w
    ensures forall x: nat, y: nat | x < w && y < h :: final[y, x] == Sample(passes, w, h, x, y)
  {
    final := new T[h, w];
    for p := 0 to 7
      invariant forall x: nat, y: nat | x < w && y < h && PassOf(x, y) < p ::
                  final[y, x] == Sample(passes, w, h, x, y)
    {
      if PassWidth(w, p) > 0 && PassHeight(h, p) > 0 {
        ScatterPass(final, passes[p], p);
      } else {
        forall x: nat, y: nat | x < w && y < h
          ensures PassOf(x, y) != p
        {
          EveryPixelHit(w, h, x, y);
        }
      }
    }
  }

  /** The pass an encoder extracts from an image. */
  ghost predicate Extracted<T>(img: seq<seq<T>>, w: nat, h: nat, p: nat, pass: seq<seq<T>>)
    requires w >= 1 && h >= 1 && p < 7 && |img| == h && forall y :: 0 <= y < h ==> |img[y]| == w
  {
    && PassShape(pass, w, h, p)
    && forall i, j, x, y | 0 <= j < |pass| && 0 <= i < |pass[j]| && 0 <= x < w && 0 <= y < h && Lands(p, i, j, x, y) ::
         pass[j][i] == img[y][x]
  }

  /** Deinterlacing the extracted passes restores the image. */
  lemma InterlaceRoundTrip<T>(img: seq<seq<T>>, w: nat, h: nat, passes: seq<seq<seq<T>>>, x: nat, y: nat)
    requires |img| == h && (forall r :: 0 <= r < h ==> |img[r]| == w) && x < w && y < h
    requires |passes| == 7 && forall p :: 0 <= p < 7 ==> Extracted(img, w, h, p, passes[p])
    ensures forall p :: 0 <= p < 7 ==> PassShape(passes[p], w, h, p)
    ensures Sample(passes, w, h, x, y) == img[y][x]
  {
    EveryPixelHit(w, h, x, y);
    var p := PassOf(x, y);
    assert Extracted(img, w, h, p, passes[p]);
  }
}
