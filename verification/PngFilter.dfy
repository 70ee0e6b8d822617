/** PNG row filters (section 6 of RFC 2083) and their removal with two alternating row buffers. */
module PngFilter {
  import opened Bits
  import opened Common

  const NO_FILTER := 0
  const SUB := 1
  const UP := 2
  const AVG := 3
  const PAETH := 4
  const AVG_FIRST := 5  // stands in for AVG on the first row

  function Abs(x: int): int {
    if x < 0 then -x else x
  }

  /** The predictor of section 6.6. */
  function PaethPredictor(a: int, b: int, c: int): int {
    var p := a + b - c;
    var pa, pb, pc := Abs(p - a), Abs(p - b), Abs(p - c);
    if pa <= pb && pa <= pc then a else if pb <= pc then b else c
  }

  /** The branch-free form. */
  function Paeth(a: int, b: int, c: int): int {
    var thresh := c * 3 - (a + b);
    var lo := if a < b then a else b;
    var hi := if a < b then b else a;
    var t0 := if hi <= thresh then lo else c;
    if thresh <= lo then hi else t0
  }

  lemma PaethIsPredictor(a: int, b: int, c: int)
    ensures Paeth(a, b, c) == PaethPredictor(a, b, c)
  {
  }

  /** What each filter predicts from the byte to the left, the byte above and the byte above that one. */
  function Predict(filter: int, a: byte, b: byte, c: byte): (p: int)
    ensures 0 <= p < 256
  {
    match filter
    case SUB => a
    case UP => b
    case AVG => (a as int + b as int) / 2
    case PAETH => PaethPredictor(a, b, c)
    case AVG_FIRST => a as int / 2
    case _ => 0
  }

  function Back(row: seq<byte>, k: nat, bpp: nat): byte
    requires k < |row| + bpp
  {
    if k < bpp then 0 else row[k - bpp]
  }

  /** Section 6: filtering subtracts the prediction made from the original row and the row above. */
  function FilterRow(filter: int, prior: seq<byte>, row: seq<byte>, bpp: nat): (r: seq<byte>)
    requires |prior| == |row| && bpp >= 1
    ensures |r| == |row|
  {
    seq(|row|, k requires 0 <= k < |row| =>
      (row[k] as int - Predict(filter, Back(row, k, bpp), prior[k], Back(prior, k, bpp))) % 256)
  }

  /** The first n bytes of a row whose filtered form is raw. */
  function Recon(filter: int, prior: seq<byte>, raw: seq<byte>, bpp: nat, n: nat): (r: seq<byte>)
    requires |prior| == |raw| && bpp >= 1 && n <= |raw|
    ensures |r| == n
  {
    if n == 0 then []
    else
      var r, k := Recon(filter, prior, raw, bpp, n - 1), n - 1;
      r + [(raw[k] as int + Predict(filter, Back(r, k, bpp), prior[k], Back(prior, k, bpp))) % 256]
  }

  lemma {:induction false} ReconFiltered(filter: int, prior: seq<byte>, row: seq<byte>, bpp: nat, n: nat)
    requires |prior| == |row| && bpp >= 1 && n <= |row|
    ensures Recon(filter, prior, FilterRow(filter, prior, row, bpp), bpp, n) == row[..n]
  {
    hide Predict;
    if n > 0 {
      ReconFiltered(filter, prior, row, bpp, n - 1);
      var k := n - 1;
      assert Back(row[..k], k, bpp) == Back(row, k, bpp);
      var p := Predict(filter, Back(row, k, bpp), prior[k], Back(prior, k, bpp));
      assert ((row[k] as int - p) % 256 + p) % 256 == row[k];
    }
  }

  function Zeros(n: nat): (z: seq<byte>)
    ensures |z| == n
  {
    seq(n, _ => 0)
  }

  /** The filter used on the first row, where no row above exists. */
  function FirstRowFilter(filter: int): int {
    match filter
    case UP => NO_FILTER
    case AVG => AVG_FIRST
    case PAETH => SUB
    case _ => filter
  }

  /** It gives what the filter itself gives below an all-zero row, whatever the buffer above holds. */
  lemma {:induction false} FirstRow(filter: int, stale: seq<byte>, raw: seq<byte>, bpp: nat, n: nat)
    requires |stale| == |raw| && bpp >= 1 && n <= |raw| && 0 <= filter <= 4
    ensures Recon(FirstRowFilter(filter), stale, raw, bpp, n) == Recon(filter, Zeros(|raw|), raw, bpp, n)
  {
    if n > 0 {
      FirstRow(filter, stale, raw, bpp, n - 1);
    }
  }

  /** An image as filtered rows, each behind its filter byte. */
  function Filtered(rows: seq<seq<byte>>, filters: seq<byte>, prior: seq<byte>, bpp: nat): seq<byte>
    requires |filters| == |rows| && bpp >= 1 && forall j :: 0 <= j < |rows| ==> |rows[j]| == |prior|
  {
    if rows == [] then []
    else [filters[0]] + FilterRow(filters[0], prior, rows[0], bpp) + Filtered(rows[1..], filters[1..], rows[0], bpp)
  }

  /** Read y rows of w bytes and append them to the rows already read; an unknown filter fails. */
  function Unfiltered(raw: seq<byte>, w: nat, bpp: nat, y: nat, prior: seq<byte>, rows: seq<seq<byte>>)
    : Option<seq<seq<byte>>>
    requires |prior| == w && bpp >= 1 && |raw| >= Size(w, y)
    decreases y
  {
    if y == 0 then Some(rows)
    else if raw[0] > 4 then None
    else
      var row := Recon(raw[0], prior, raw[1..1 + w], bpp, w);
      Unfiltered(raw[1 + w..], w, bpp, y - 1, row, rows + [row])
  }

  /** (w + 1) * y bytes: y rows of w bytes, each with its filter byte. */
  function Size(w: nat, y: nat): nat {
    if y == 0 then 0 else w + 1 + Size(w, y - 1)
  }

  lemma {:induction false} SizeIsProduct(w: nat, y: nat)
    ensures Size(w, y) == (w + 1) * y
  {
    if y > 0 {
      SizeIsProduct(w, y - 1);
      assert (w + 1) * y == (w + 1) * (y - 1) + (w + 1);
    }
  }

  lemma {:induction false} FilteredSize(rows: seq<seq<byte>>, filters: seq<byte>, prior: seq<byte>, bpp: nat)
    requires |filters| == |rows| && bpp >= 1 && forall j :: 0 <= j < |rows| ==> |rows[j]| == |prior|
    ensures |Filtered(rows, filters, prior, bpp)| == Size(|prior|, |rows|)
  {
    if rows != [] {
      FilteredSize(rows[1..], filters[1..], rows[0], bpp);
    }
  }

  lemma SplitRow(f: byte, row: seq<byte>, more: seq<byte>, extra: seq<byte>)
    ensures var raw := [f] + row + more + extra;
            raw[0] == f && raw[1..1 + |row|] == row && raw[1 + |row|..] == more + extra
  {
  }

  /** Any image under any choice of filters comes back, even with more data behind it. */
  lemma {:induction false} FilterRoundTrip(rows: seq<seq<byte>>, filters: seq<byte>, prior: seq<byte>, bpp: nat,
                                           extra: seq<byte>, before: seq<seq<byte>>)
    requires |filters| == |rows| && bpp >= 1 && forall j :: 0 <= j < |rows| ==> |rows[j]| == |prior|
    requires forall j :: 0 <= j < |filters| ==> filters[j] <= 4
    ensures |Filtered(rows, filters, prior, bpp)| == Size(|prior|, |rows|)
    ensures Unfiltered(Filtered(rows, filters, prior, bpp) + extra, |prior|, bpp, |rows|, prior, before)
         == Some(before + rows)
    decreases |rows|
  {
    hide Recon, FilterRow, Predict, Back;
    FilteredSize(rows, filters, prior, bpp);
    var w, raw := |prior|, Filtered(rows, filters, prior, bpp) + extra;
    if rows == [] {
      assert before + rows == before;
    } else {
      ReconFiltered(filters[0], prior, rows[0], bpp, w);
      SplitRow(filters[0], FilterRow(filters[0], prior, rows[0], bpp),
               Filtered(rows[1..], filters[1..], rows[0], bpp), extra);
      assert rows[0][..w] == rows[0];
      FilterRoundTrip(rows[1..], filters[1..], rows[0], bpp, extra, before + [rows[0]]);
      assert before + [rows[0]] + rows[1..] == before + rows;
    }
  }

  // ---- what a row is, by its filter byte

  /** Of left, above and upper left, the one nearest to left + above - upper left; ties go to the earlier one. */
  function Nearest(left: int, above: int, corner: int): int {
    var toLeft := if above < corner then corner - above else above - corner;
    var toAbove := if left < corner then corner - left else left - corner;
    var sum := left + above - 2 * corner;
    var toCorner := if sum < 0 then 0 - sum else sum;
    if toLeft <= toAbove && toLeft <= toCorner then left else if toAbove <= toCorner then above else corner
  }

  /**
   Section 6 for one row at raw[at..]: a filter byte from 0 to 4, and then the bytes, to which are
   added nothing; the byte bpp places to the left; the one above; half the sum of both; or the
   nearest of these and the upper left one.  Outside the image there are zeros.
   */
  ghost predicate RowRight(raw: seq<byte>, at: nat, w: nat, bpp: nat, above: seq<byte>, row: seq<byte>) {
    && at + 1 + w <= |raw| && |above| == |row| == w && 1 <= bpp && raw[at] <= 4
    && forall k: nat | k < w :: RightAt(raw, at, bpp, above, row, k)
  }

  predicate RightAt(raw: seq<byte>, at: nat, bpp: nat, above: seq<byte>, row: seq<byte>, k: nat)
    requires k < |above| == |row| && at + 1 + k < |raw| && 1 <= bpp
  {
    ByteRight(raw[at], raw[at + 1 + k], if k < bpp then 0 else row[k - bpp], above[k],
              if k < bpp then 0 else above[k - bpp], row[k])
  }

  predicate ByteRight(f: byte, x: byte, left: byte, above: byte, corner: byte, r: byte) {
    && (f == 0 ==> r == x)
    && (f == 1 ==> r == (x as int + left) % 256)
    && (f == 2 ==> r == (x as int + above) % 256)
    && (f == 3 ==> r == (x as int + (left as int + above) / 2) % 256)
    && (f == 4 ==> r == (x as int + Nearest(left, above, corner)) % 256)
  }

  function RowStart(w: nat, j: nat): nat {
    (w + 1) * j
  }

  function RowAbove(rows: seq<seq<byte>>, w: nat, j: nat): seq<byte>
    requires j <= |rows|
  {
    if j == 0 then seq(w, _ => 0) else rows[j - 1]
  }

  ghost predicate RowsRight(raw: seq<byte>, w: nat, bpp: nat, y: nat, rows: seq<seq<byte>>) {
    |rows| == y && forall j: nat | j < y :: ThatRowRight(raw, w, bpp, rows, j)
  }

  ghost predicate ThatRowRight(raw: seq<byte>, w: nat, bpp: nat, rows: seq<seq<byte>>, j: nat)
    requires j < |rows|
  {
    RowRight(raw, RowStart(w, j), w, bpp, RowAbove(rows, w, j), rows[j])
  }

  ghost predicate FiltersKnown(raw: seq<byte>, w: nat, from: nat, y: nat) {
    forall j: nat | from <= j < y :: FilterKnown(raw, RowStart(w, j))
  }

  predicate FilterKnown(raw: seq<byte>, at: nat) {
    at < |raw| && raw[at] <= 4
  }

  lemma NearestIsPaeth(a: int, b: int, c: int)
    ensures Nearest(a, b, c) == PaethPredictor(a, b, c)
  {
  }

  lemma {:induction false} ReconPrefix(f: int, prior: seq<byte>, raw: seq<byte>, bpp: nat, n: nat, k: nat)
    requires |prior| == |raw| && bpp >= 1 && k <= n <= |raw|
    ensures Recon(f, prior, raw, bpp, n)[..k] == Recon(f, prior, raw, bpp, k)
  {
    if k < n {
      ReconPrefix(f, prior, raw, bpp, n - 1, k);
    }
  }

  lemma ReconByte(f: byte, prior: seq<byte>, raw: seq<byte>, bpp: nat, k: nat)
    requires |prior| == |raw| && bpp >= 1 && k < |raw| && f <= 4
    ensures var r := Recon(f, prior, raw, bpp, |raw|);
            ByteRight(f, raw[k], if k < bpp then 0 else r[k - bpp], prior[k],
                      if k < bpp then 0 else prior[k - bpp], r[k])
  {
    hide PaethPredictor, Nearest;
    var r := Recon(f, prior, raw, bpp, |raw|);
    ReconPrefix(f, prior, raw, bpp, |raw|, k);
    ReconPrefix(f, prior, raw, bpp, |raw|, k + 1);
    assert r[k] == r[..k + 1][k];
    assert k >= bpp ==> r[k - bpp] == r[..k][k - bpp];
    NearestIsPaeth(Back(r, k, bpp), prior[k], Back(prior, k, bpp));
  }

  lemma ReconRight(raw: seq<byte>, at: nat, w: nat, bpp: nat, prior: seq<byte>)
    requires at + 1 + w <= |raw| && |prior| == w && bpp >= 1 && raw[at] <= 4
    ensures RowRight(raw, at, w, bpp, prior, Recon(raw[at], prior, raw[at + 1..at + 1 + w], bpp, w))
  {
    hide Recon, ByteRight;
    var bytes := raw[at + 1..at + 1 + w];
    forall k: nat | k < w
      ensures RightAt(raw, at, bpp, prior, Recon(raw[at], prior, bytes, bpp, w), k)
    {
      ReconByte(raw[at], prior, bytes, bpp, k);
      assert bytes[k] == raw[at + 1 + k];
    }
  }

  lemma RowSpace(raw: seq<byte>, w: nat, y: nat, j: nat)
    requires j < y && |raw| >= (w + 1) * y
    ensures RowStart(w, j) + 1 + w <= |raw| && RowStart(w, j + 1) == RowStart(w, j) + 1 + w
    ensures |raw| - RowStart(w, j) >= Size(w, y - j)
  {
    assert (w + 1) * y == (w + 1) * j + (w + 1) * (y - j);
    assert (w + 1) * (y - j) == (w + 1) * (y - j - 1) + (w + 1);
    SizeIsProduct(w, y - j);
  }

  /** Reading row j fails on a filter byte above 4, and else leads on to row j + 1. */
  lemma OnwardStep(raw: seq<byte>, w: nat, bpp: nat, y: nat, j: nat, prior: seq<byte>, rows: seq<seq<byte>>)
    requires |prior| == w && bpp >= 1 && j < y && |raw| >= (w + 1) * y
    ensures var at := RowStart(w, j);
            && at + 1 + w <= |raw| && RowStart(w, j + 1) == at + 1 + w
            && |raw| - at >= Size(w, y - j) && |raw| - at - 1 - w >= Size(w, y - j - 1)
            && Unfiltered(raw[at..], w, bpp, y - j, prior, rows) ==
               if raw[at] > 4 then None
               else
                 var row := Recon(raw[at], prior, raw[at + 1..at + 1 + w], bpp, w);
                 Unfiltered(raw[at + 1 + w..], w, bpp, y - j - 1, row, rows + [row])
  {
    hide Unfiltered, Recon, RowStart;
    RowSpace(raw, w, y, j);
    var at := RowStart(w, j);
    UnfilteredStep(raw[at..], w, bpp, y - j, prior, rows);
    assert raw[at..][1..1 + w] == raw[at + 1..at + 1 + w] && raw[at..][1 + w..] == raw[at + 1 + w..];
  }

  lemma MoreRight(raw: seq<byte>, w: nat, bpp: nat, rows: seq<seq<byte>>, row: seq<byte>)
    requires RowsRight(raw, w, bpp, |rows|, rows)
    requires RowRight(raw, RowStart(w, |rows|), w, bpp, RowAbove(rows, w, |rows|), row)
    ensures RowsRight(raw, w, bpp, |rows| + 1, rows + [row])
  {
    hide RowRight, RowStart;
    var all := rows + [row];
    forall j: nat | j < |all|
      ensures ThatRowRight(raw, w, bpp, all, j)
    {
      assert RowAbove(all, w, j) == RowAbove(rows, w, j);
      assert j < |rows| ==> ThatRowRight(raw, w, bpp, rows, j);
    }
  }

  lemma {:induction false} RowsFrom(raw: seq<byte>, w: nat, bpp: nat, y: nat, j: nat, rows: seq<seq<byte>>,
                                    rest: seq<byte>, above: seq<byte>)
    requires bpp >= 1 && j == |rows| <= y && |raw| >= (w + 1) * y && RowsRight(raw, w, bpp, j, rows)
    requires RowStart(w, j) <= |raw| && rest == raw[RowStart(w, j)..] && |rest| >= Size(w, y - j)
    requires above == RowAbove(rows, w, j) && |above| == w
    ensures var r := Unfiltered(rest, w, bpp, y - j, above, rows);
            && (r.Some? <==> FiltersKnown(raw, w, j, y))
            && (r.Some? ==> RowsRight(raw, w, bpp, y, r.value))
    decreases y - j
  {
    hide RowRight, Recon, Unfiltered, RowStart, RowsRight, FiltersKnown;
    if j == y {
      UnfilteredDone(rest, w, bpp, above, rows);
      NoneUnknown(raw, w, y);
    } else {
      OnwardStep(raw, w, bpp, y, j, above, rows);
      KnownStep(raw, w, j, y);
      var at := RowStart(w, j);
      if raw[at] <= 4 {
        ReconRight(raw, at, w, bpp, above);
        var row := Recon(raw[at], above, raw[at + 1..at + 1 + w], bpp, w);
        MoreRight(raw, w, bpp, rows, row);
        RowsFrom(raw, w, bpp, y, j + 1, rows + [row], raw[at + 1 + w..], row);
      }
    }
  }

  lemma NoneUnknown(raw: seq<byte>, w: nat, y: nat)
    ensures FiltersKnown(raw, w, y, y)
  {
  }

  lemma KnownStep(raw: seq<byte>, w: nat, j: nat, y: nat)
    requires j < y
    ensures FiltersKnown(raw, w, j, y) <==> FilterKnown(raw, RowStart(w, j)) && FiltersKnown(raw, w, j + 1, y)
  {
    hide FilterKnown, RowStart;
  }

  /** Every byte of every row is right, and reading fails exactly on an unknown filter byte. */
  lemma RowsAreRight(raw: seq<byte>, w: nat, bpp: nat, y: nat)
    requires bpp >= 1 && |raw| >= (w + 1) * y
    ensures |raw| >= Size(w, y)
    ensures var r := Unfiltered(raw, w, bpp, y, Zeros(w), []);
            (r.Some? <==> FiltersKnown(raw, w, 0, y)) && (r.Some? ==> RowsRight(raw, w, bpp, y, r.value))
  {
    hide RowRight, Unfiltered;
    SizeIsProduct(w, y);
    assert raw[RowStart(w, 0)..] == raw;
    assert RowAbove([], w, 0) == Zeros(w);
    RowsFrom(raw, w, bpp, y, 0, [], raw, Zeros(w));
  }

  /** The two row buffers: the current row at `cur`, the one above at `prior`. */
  ghost predicate Buffers(buf: array<byte>, cur: nat, prior: nat, w: nat) {
    buf.Length == 2 * w && ((cur == 0 && prior == w) || (cur == w && prior == 0))
  }

  method StoreByte(buf: array<byte>, cur: nat, prior: nat, w: nat, k: nat, v: byte)
    requires Buffers(buf, cur, prior, w) && k < w
    modifies buf
    ensures buf[cur..cur + k + 1] == old(buf[cur..cur + k]) + [v]
    ensures buf[prior..prior + w] == old(buf[prior..prior + w])
  {
    buf[cur + k] := v;
  }

  /** The prediction as the decoder computes it where there is nothing to the left. */
  function LeftEdge(filter: int, b: byte): (p: int)
    ensures p == Predict(filter, 0, b, 0)
  {
    PaethIsPredictor(0, b, 0);
    match filter
    case UP => b
    case AVG => b as int / 2
    case PAETH => b
    case _ => 0
  }

  /** and everywhere else. */
  function Inside(filter: int, a: byte, b: byte, c: byte): (p: int)
    ensures p == Predict(filter, a, b, c)
  {
    PaethIsPredictor(a, b, c);
    match filter
    case SUB => a
    case UP => b
    case AVG => (b as int + a as int) / 2
    case PAETH => Paeth(a, b, c)
    case AVG_FIRST => a as int / 2
    case _ => 0
  }

  lemma ReconNone(filter: int, prior: seq<byte>, raw: seq<byte>, bpp: nat)
    requires |prior| == |raw| && bpp >= 1
    ensures Recon(filter, prior, raw, bpp, 0) == []
  {
  }

  lemma ReconEdge(filter: int, prior: seq<byte>, raw: seq<byte>, bpp: nat, k: nat, b: byte)
    requires |prior| == |raw| && 1 <= bpp && k < |raw| && k < bpp && b == prior[k]
    ensures Recon(filter, prior, raw, bpp, k + 1)
         == Recon(filter, prior, raw, bpp, k) + [(raw[k] as int + LeftEdge(filter, b)) % 256]
  {
  }

  lemma ReconInside(filter: int, prior: seq<byte>, raw: seq<byte>, bpp: nat, k: nat, a: byte, b: byte, c: byte)
    requires |prior| == |raw| && 1 <= bpp <= k < |raw|
    requires a == Recon(filter, prior, raw, bpp, k)[k - bpp] && b == prior[k] && c == prior[k - bpp]
    ensures Recon(filter, prior, raw, bpp, k + 1)
         == Recon(filter, prior, raw, bpp, k) + [(raw[k] as int + Inside(filter, a, b, c)) % 256]
  {
  }

  /** Reconstruct byte k from the bytes to its left, above it and above that one. */
  method StoreInside(buf: array<byte>, cur: nat, prior: nat, raw: seq<byte>, bpp: nat, filter: int, k: nat)
    requires Buffers(buf, cur, prior, |raw|) && 1 <= bpp <= k < |raw|
    requires buf[cur..cur + k] == Recon(filter, buf[prior..prior + |raw|], raw, bpp, k)
    modifies buf
    ensures buf[prior..prior + |raw|] == old(buf[prior..prior + |raw|])
    ensures buf[cur..cur + k + 1] == Recon(filter, old(buf[prior..prior + |raw|]), raw, bpp, k + 1)
  {
    hide Predict, Recon, Inside;
    ghost var above := buf[prior..prior + |raw|];
    var a, b, c := buf[cur + k - bpp], buf[prior + k], buf[prior + k - bpp];
    assert a == buf[cur..cur + k][k - bpp] && b == above[k] && c == above[k - bpp];
    ReconInside(filter, above, raw, bpp, k, a, b, c);
    StoreByte(buf, cur, prior, |raw|, k, (raw[k] as int + Inside(filter, a, b, c)) % 256);
  }

  /** Undo one row's filter, building the current row from the raw bytes and the row above. */
  method UnfilterRow(buf: array<byte>, cur: nat, prior: nat, raw: seq<byte>, bpp: nat, filter: int)
    requires Buffers(buf, cur, prior, |raw|) && 1 <= bpp <= |raw| && 0 <= filter <= 5
    modifies buf
    ensures buf[cur..cur + |raw|] == Recon(filter, old(buf[prior..prior + |raw|]), raw, bpp, |raw|)
    ensures buf[prior..prior + |raw|] == old(buf[prior..prior + |raw|])
  {
    hide Predict, Recon, LeftEdge, Inside, Back;
    var w := |raw|;
    ghost var above := buf[prior..prior + w];
    var k := 0;
    ReconNone(filter, above, raw, bpp);
    while k < bpp
      invariant 0 <= k <= bpp && buf[prior..prior + w] == above
      invariant buf[cur..cur + k] == Recon(filter, above, raw, bpp, k)
    {
      var b := buf[prior + k];
      assert b == above[k];
      ReconEdge(filter, above, raw, bpp, k, b);
      StoreByte(buf, cur, prior, w, k, (raw[k] as int + LeftEdge(filter, b)) % 256);
      k := k + 1;
    }
    while k < w
      invariant bpp <= k <= w && buf[prior..prior + w] == above
      invariant buf[cur..cur + k] == Recon(filter, above, raw, bpp, k)
    {
      StoreInside(buf, cur, prior, raw, bpp, filter, k);
      k := k + 1;
    }
  }

  /** Unfilter a whole image, keeping only the current row and the one above it. */
  method CreateImageRaw(raw: seq<byte>, w: nat, bpp: nat, y: nat) returns (ok: bool, rows: seq<seq<byte>>)
    requires 1 <= bpp <= w
    ensures ok <==> |raw| >= (w + 1) * y && FiltersKnown(raw, w, 0, y)
    ensures ok ==> RowsRight(raw, w, bpp, y, rows)
    ensures |raw| < Size(w, y) ==> !ok
    ensures |raw| >= Size(w, y) ==>
              Unfiltered(raw, w, bpp, y, Zeros(w), []) == if ok then Some(rows) else None
  {
    hide Unfiltered, Recon, Zeros, RowsRight, FiltersKnown;
    rows := [];
    SizeIsProduct(w, y);
    if |raw| < (w + 1) * y {
      return false, rows;
    }
    RowsAreRight(raw, w, bpp, y);
    var buf := new byte[2 * w];
    var rest := raw;
    ghost var above := Zeros(w);
    for j := 0 to y
      invariant |rest| >= Size(w, y - j) && buf.Length == 2 * w && |above| == w
      invariant j == 0 ==> above == Zeros(w)
      invariant j > 0 ==> above == buf[Prior(j, w)..Prior(j, w) + w]
      invariant Unfiltered(raw, w, bpp, y, Zeros(w), []) == Unfiltered(rest, w, bpp, y - j, above, rows)
    {
      UnfilteredStep(rest, w, bpp, y - j, above, rows);
      if rest[0] > 4 {
        return false, rows;
      }
      var row := NextRow(buf, rest[0], rest[1..1 + w], bpp, j, above);
      rows := rows + [row];
      rest := rest[1 + w..];
      above := row;
    }
    UnfilteredDone(rest, w, bpp, above, rows);
    ok := true;
  }

  lemma UnfilteredStep(raw: seq<byte>, w: nat, bpp: nat, y: nat, prior: seq<byte>, rows: seq<seq<byte>>)
    requires |prior| == w && bpp >= 1 && y >= 1 && |raw| >= Size(w, y)
    ensures |raw| >= 1 + w && |raw[1 + w..]| >= Size(w, y - 1)
    ensures Unfiltered(raw, w, bpp, y, prior, rows) ==
            if raw[0] > 4 then None
            else
              var row := Recon(raw[0], prior, raw[1..1 + w], bpp, w);
              Unfiltered(raw[1 + w..], w, bpp, y - 1, row, rows + [row])
  {
  }

  lemma UnfilteredDone(raw: seq<byte>, w: nat, bpp: nat, prior: seq<byte>, rows: seq<seq<byte>>)
    requires |prior| == w && bpp >= 1
    ensures Unfiltered(raw, w, bpp, 0, prior, rows) == Some(rows)
  {
  }

  /** Rows are built in the two buffers alternately. */
  function Current(j: nat, w: nat): nat {
    if j % 2 == 1 then w else 0
  }

  function Prior(j: nat, w: nat): nat {
    if j % 2 == 1 then 0 else w
  }

  method NextRow(buf: array<byte>, f: byte, raw: seq<byte>, bpp: nat, j: nat, ghost above: seq<byte>)
    returns (row: seq<byte>)
    requires buf.Length == 2 * |raw| && 1 <= bpp <= |raw| && f <= 4 && |above| == |raw|
    requires if j == 0 then above == Zeros(|raw|) else above == buf[Prior(j, |raw|)..Prior(j, |raw|) + |raw|]
    modifies buf
    ensures row == Recon(f, above, raw, bpp, |raw|)
    ensures row == buf[Prior(j + 1, |raw|)..Prior(j + 1, |raw|) + |raw|]
  {
    hide Predict, Recon, Zeros;
    var w := |raw|;
    var cur, prior := Current(j, w), Prior(j, w);
    var filter: int := f;
    if j == 0 {
      FirstRow(f, buf[prior..prior + w], raw, bpp, w);
      filter := FirstRowFilter(f);
    }
    UnfilterRow(buf, cur, prior, raw, bpp, filter);
    row := buf[cur..cur + w];
  }

  /** One pixel of three samples becomes one of four; only its own four bytes change. */
  method ExpandPixel(buf: array<byte>, i: nat)
    requires 4 * i + 4 <= buf.Length
    modifies buf
    ensures forall k :: 0 <= k < buf.Length && !(4 * i <= k < 4 * i + 4) ==> buf[k] == old(buf[k])
    ensures buf[4 * i] == old(buf[3 * i]) && buf[4 * i + 1] == old(buf[3 * i + 1])
    ensures buf[4 * i + 2] == old(buf[3 * i + 2]) && buf[4 * i + 3] == 255
  {
    buf[4 * i + 3] := 255;
    buf[4 * i + 2] := buf[3 * i + 2];
    buf[4 * i + 1] := buf[3 * i + 1];
    buf[4 * i] := buf[3 * i];
  }

  /**
   Add an all-255 alpha channel to x pixels of one or three channels, in the same buffer: going
   backwards, no sample is overwritten before it has been moved.
   */
  method ExpandAlpha(buf: array<byte>, x: nat, channels: nat)
    requires (channels == 1 || channels == 3) && buf.Length >= if channels == 1 then 2 * x else 4 * x
    modifies buf
    ensures channels == 1 ==>
              forall i :: 0 <= i < x ==> buf[2 * i] == old(buf[i]) && buf[2 * i + 1] == 255
    ensures channels == 3 ==>
              forall i :: 0 <= i < x ==>
                && buf[4 * i] == old(buf[3 * i]) && buf[4 * i + 1] == old(buf[3 * i + 1])
                && buf[4 * i + 2] == old(buf[3 * i + 2]) && buf[4 * i + 3] == 255
  {
    var i := x;
    if channels == 1 {
      while i > 0
        invariant 0 <= i <= x
        invariant forall k :: 0 <= k < i ==> buf[k] == old(buf[k])
        invariant forall k :: i <= k < x ==> buf[2 * k] == old(buf[k]) && buf[2 * k + 1] == 255
      {
        i := i - 1;
        buf[2 * i + 1] := 255;
        buf[2 * i] := buf[i];
      }
    } else {
      while i > 0
        invariant 0 <= i <= x
        invariant forall k :: 0 <= k < 3 * i ==> buf[k] == old(buf[k])
        invariant forall k :: i <= k < x ==>
          && buf[4 * k] == old(buf[3 * k]) && buf[4 * k + 1] == old(buf[3 * k + 1])
          && buf[4 * k + 2] == old(buf[3 * k + 2]) && buf[4 * k + 3] == 255
      {
        i := i - 1;
        ExpandPixel(buf, i);
      }
    }
  }
}
