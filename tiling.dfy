/** BitmapSeperate: the bands a bitmap is cut into when decoding the whole image finds nothing. */
module Tiling {
  import opened Wrappers
  import opened Int32
  import opened Imaging

  /** A family of n bands is cut only when the side it divides is at least n * 20 pixels. */
  const MinBandSide: int := 20

  /** The largest tile count whose guard `n * 20` still fits in 32 bits. */
  const MaxUnwrappedCount: int := 107374182

  /** The guard `seperateCount * 20`, an unchecked 32-bit product. */
  function Guard(n: int32): (g: int32)
    ensures 0 <= n <= MaxUnwrappedCount ==> g == n * MinBandSide
    ensures MaxUnwrappedCount < n ==> g < n * MinBandSide
  {
    Wrap32(n * MinBandSide)
  }

  /** The horizontal bands: n rectangles (0, k * band, width, band) with band = height / n,
      or the exception that building them throws. */
  function RowBands(b: Bitmap, n: int32): (r: Result<seq<Rect>>)
    ensures r.Success? ==> forall k :: 0 <= k < |r.value| ==> 0 < r.value[k].width && 0 < r.value[k].height
  {
    if b.height < Guard(n) then Success([])
    else if n == 0 then Failure(DivideByZero)
    else if n < 0 then Success([])
    else
      var band := TruncDiv(b.height, n);
      if band <= 0 then Failure(InvalidBitmapSize)
      else Success(seq(n, k => Rect(0, k * band, b.width, band)))
  }

  /** The vertical bands: n rectangles (k * band, 0, height, band) with band = width / n.
      The rectangle's width is the bitmap's HEIGHT and its height the band width, as written. */
  function ColumnBands(b: Bitmap, n: int32): (r: Result<seq<Rect>>)
    ensures r.Success? ==> forall k :: 0 <= k < |r.value| ==> 0 < r.value[k].width && 0 < r.value[k].height
  {
    if b.width < Guard(n) then Success([])
    else if n == 0 then Failure(DivideByZero)
    else if n < 0 then Success([])
    else
      var band := TruncDiv(b.width, n);
      if band <= 0 then Failure(InvalidBitmapSize)
      else Success(seq(n, k => Rect(k * band, 0, b.height, band)))
  }

  /** All crop rectangles, row bands first. */
  function Tiles(b: Bitmap, n: int32): (r: Result<seq<Rect>>)
    ensures r.Success? ==> forall k :: 0 <= k < |r.value| ==> 0 < r.value[k].width && 0 < r.value[k].height
  {
    var rows :- RowBands(b, n);
    var columns :- ColumnBands(b, n);
    Success(rows + columns)
  }

  /** One copy of each rectangle, in order. */
  function Copies(b: Bitmap, rects: seq<Rect>): seq<Bitmap>
    requires forall k :: 0 <= k < |rects| ==> 0 < rects[k].width && 0 < rects[k].height
  {
    seq(|rects|, k requires 0 <= k < |rects| => CopyRegion(b, rects[k]).value)
  }

  lemma CopiesAppend(b: Bitmap, rects: seq<Rect>, rect: Rect)
    requires forall k :: 0 <= k < |rects| ==> 0 < rects[k].width && 0 < rects[k].height
    requires 0 < rect.width && 0 < rect.height
    ensures Copies(b, rects + [rect]) == Copies(b, rects) + [CopyRegion(b, rect).value]
  {
  }

  lemma CopiesConcat(b: Bitmap, first: seq<Rect>, second: seq<Rect>)
    requires forall k :: 0 <= k < |first| ==> 0 < first[k].width && 0 < first[k].height
    requires forall k :: 0 <= k < |second| ==> 0 < second[k].width && 0 < second[k].height
    ensures Copies(b, first + second) == Copies(b, first) + Copies(b, second)
  {
  }

  /** The copies of a list of bands, or the exception met while building the list. */
  function BandImages(b: Bitmap, bands: Result<seq<Rect>>): Result<seq<Bitmap>>
    requires bands.Success? ==> forall k :: 0 <= k < |bands.value| ==> 0 < bands.value[k].width && 0 < bands.value[k].height
  {
    var rects :- bands;
    Success(Copies(b, rects))
  }

  /** The bitmaps BitmapSeperate returns: one copy of each crop rectangle. */
  function TileImages(b: Bitmap, n: int32): Result<seq<Bitmap>> {
    BandImages(b, Tiles(b, n))
  }

  /** BitmapSeperate (lines 428-470): the row bands, then the column bands, as bitmaps. */
  method BitmapSeperate(b: Bitmap, n: int32) returns (r: Result<seq<Bitmap>>)
    ensures r == TileImages(b, n)
  {
    var rows :- CutRowBands(b, n);
    var columns :- CutColumnBands(b, n);
    CopiesConcat(b, RowBands(b, n).value, ColumnBands(b, n).value);
    return Success(rows + columns);
  }

  /** The first loop of BitmapSeperate (lines 434-450). */
  method CutRowBands(b: Bitmap, n: int32) returns (r: Result<seq<Bitmap>>)
    ensures r == BandImages(b, RowBands(b, n))
  {
    var bitmaps: seq<Bitmap> := [];
    ghost var cut: seq<Rect> := [];
    assert bitmaps == Copies(b, cut);
    if b.height >= Guard(n) {
      if n == 0 {
        return Failure(DivideByZero);
      }
      var height := TruncDiv(b.height, n);
      var i := 0;
      while i < n
        invariant 0 <= i && (0 < n ==> i <= n)
        invariant 0 < i ==> 0 < height
        invariant cut == seq(i, k => Rect(0, k * height, b.width, height))
        invariant bitmaps == Copies(b, cut)
      {
        var cropRect := Rect(0, i * height, b.width, height);
        var target :- CopyRegion(b, cropRect);
        CopiesAppend(b, cut, cropRect);
        bitmaps := bitmaps + [target];
        cut := cut + [cropRect];
        i := i + 1;
      }
    }
    assert cut == RowBands(b, n).value;
    return Success(bitmaps);
  }

  /** The second loop of BitmapSeperate (lines 452-467). */
  method CutColumnBands(b: Bitmap, n: int32) returns (r: Result<seq<Bitmap>>)
    ensures r == BandImages(b, ColumnBands(b, n))
  {
    var bitmaps: seq<Bitmap> := [];
    ghost var cut: seq<Rect> := [];
    assert bitmaps == Copies(b, cut);
    if b.width >= Guard(n) {
      if n == 0 {
        return Failure(DivideByZero);
      }
      var width := TruncDiv(b.width, n);
      var i := 0;
      while i < n
        invariant 0 <= i && (0 < n ==> i <= n)
        invariant 0 < i ==> 0 < width
        invariant cut == seq(i, k => Rect(k * width, 0, b.height, width))
        invariant bitmaps == Copies(b, cut)
      {
        var cropRect := Rect(i * width, 0, b.height, width);
        var target :- CopyRegion(b, cropRect);
        CopiesAppend(b, cut, cropRect);
        bitmaps := bitmaps + [target];
        cut := cut + [cropRect];
        i := i + 1;
      }
    }
    assert cut == ColumnBands(b, n).value;
    return Success(bitmaps);
  }

  // Arithmetic helpers for the band lemmas below.

  lemma MulMono(n: nat, x: int, y: int)
    requires x <= y
    ensures n * x <= n * y
  {
    assert n * y - n * x == n * (y - x);
  }

  lemma DivAtLeast(a: int, n: int, m: int)
    requires 0 < n && 0 <= m && n * m <= a
    ensures m <= a / n
  {
    var q := a / n;
    if q < m {
      MulMono(n, q, m - 1);
    }
  }

  /** With a count that does not overflow the guard, row bands exist exactly when the
      height is at least n * 20; there are then n of them, band k is
      (0, k * (height / n), width, height / n), and every band is at least 20 rows high. */
  lemma {:induction false} RowBandsShape(b: Bitmap, n: int32)
    requires 0 < n <= MaxUnwrappedCount
    ensures RowBands(b, n).Success?
    ensures b.height < n * MinBandSide ==> RowBands(b, n).value == []
    ensures b.height >= n * MinBandSide ==>
      var rows := RowBands(b, n).value;
      && |rows| == n
      && MinBandSide <= b.height / n
      && forall k :: 0 <= k < n ==> rows[k] == Rect(0, k * (b.height / n), b.width, b.height / n)
  {
    if b.height >= n * MinBandSide {
      DivAtLeast(b.height, n, MinBandSide);
    }
  }

  /** The row bands follow one another without overlap, and together end at row
      n * (height / n): the last height % n rows, fewer than n, belong to no band. */
  lemma {:induction false} RowBandsDisjoint(b: Bitmap, n: int32)
    requires 0 < n <= MaxUnwrappedCount && n * MinBandSide <= b.height
    ensures var rows := RowBands(b, n).value;
      && (forall k1, k2 :: 0 <= k1 < k2 < n ==> rows[k1].y + rows[k1].height <= rows[k2].y)
      && rows[n - 1].y + rows[n - 1].height == n * (b.height / n) <= b.height < n * (b.height / n) + n
  {
    RowBandsShape(b, n);
    var rows := RowBands(b, n).value;
    var band := b.height / n;
    forall k1, k2 | 0 <= k1 < k2 < n
      ensures rows[k1].y + rows[k1].height <= rows[k2].y
    {
      MulMono(band, k1 + 1, k2);
    }
    assert b.height == n * band + b.height % n;
  }

  /** A row above n * band lies in band y / band. */
  lemma {:induction false} BandOfRow(band: nat, n: nat, y: int)
    requires 0 < band && 0 < n && 0 <= y < n * band
    ensures 0 <= y / band < n
    ensures (y / band) * band <= y < (y / band) * band + band
  {
    var k := y / band;
    assert y == band * k + y % band;
    if n <= k {
      MulMono(band, n, k);
    }
  }

  /** No band k < n reaches a row at or beyond n * band. */
  lemma {:induction false} NoBandBeyond(band: nat, n: nat, y: int, k: int)
    requires 0 < band && 0 <= k < n && n * band <= y
    ensures k * band + band <= y
  {
    MulMono(band, k + 1, n);
  }

  /** Row y of the bitmap lies in some row band exactly when y < n * (height / n). */
  lemma {:induction false} RowBandsCover(b: Bitmap, n: int32, y: int)
    requires 0 < n <= MaxUnwrappedCount && n * MinBandSide <= b.height && 0 <= y < b.height
    ensures var rows := RowBands(b, n).value;
      (exists k :: 0 <= k < n && rows[k].y <= y < rows[k].y + rows[k].height) <==> y < n * (b.height / n)
  {
    RowBandsShape(b, n);
    var rows := RowBands(b, n).value;
    var band := b.height / n;
    if y < n * band {
      BandOfRow(band, n, y);
      var k := y / band;
      assert rows[k] == Rect(0, k * band, b.width, band);
      assert rows[k].y <= y < rows[k].y + rows[k].height;
    } else {
      forall k | 0 <= k < n
        ensures !(rows[k].y <= y < rows[k].y + rows[k].height)
      {
        NoBandBeyond(band, n, y, k);
        assert rows[k] == Rect(0, k * band, b.width, band);
      }
    }
  }

  /** Column bands exist exactly when the width is at least n * 20; there are then n of them
      and band k is (k * (width / n), 0, height, width / n): width and height swapped. */
  lemma {:induction false} ColumnBandsShape(b: Bitmap, n: int32)
    requires 0 < n <= MaxUnwrappedCount
    ensures ColumnBands(b, n).Success?
    ensures b.width < n * MinBandSide ==> ColumnBands(b, n).value == []
    ensures b.width >= n * MinBandSide ==>
      var columns := ColumnBands(b, n).value;
      && |columns| == n
      && MinBandSide <= b.width / n
      && forall k :: 0 <= k < n ==> columns[k] == Rect(k * (b.width / n), 0, b.height, b.width / n)
  {
    if b.width >= n * MinBandSide {
      DivAtLeast(b.width, n, MinBandSide);
    }
  }

  /** Because of the swap, when the bitmap is taller than a band is wide the first column
      tile reaches into the second one's columns, and each column tile covers only the
      top width / n rows. */
  lemma {:induction false} ColumnBandsOverlap(b: Bitmap, n: int32)
    requires 2 <= n <= MaxUnwrappedCount && n * MinBandSide <= b.width && b.width / n < b.height
    ensures var columns := ColumnBands(b, n).value;
      && columns[1].x < columns[0].x + columns[0].width
      && columns[0].height < b.height
  {
    ColumnBandsShape(b, n);
  }

  /** The tile list: row bands, then column bands; 0, n or 2n tiles in all. */
  lemma {:induction false} TilesShape(b: Bitmap, n: int32)
    requires 0 < n <= MaxUnwrappedCount
    ensures Tiles(b, n).Success?
    ensures Tiles(b, n).value == RowBands(b, n).value + ColumnBands(b, n).value
    ensures |Tiles(b, n).value| ==
      (if n * MinBandSide <= b.height then n else 0) + (if n * MinBandSide <= b.width then n else 0)
  {
    RowBandsShape(b, n);
    ColumnBandsShape(b, n);
  }

  /** A negative count cuts nothing: both loops stop before their first band. */
  lemma NoTilesForNegativeCount(b: Bitmap, n: int32)
    requires n < 0
    ensures Tiles(b, n) == Success([])
  {
    assert RowBands(b, n) == Success([]) && ColumnBands(b, n) == Success([]);
    var none: seq<Rect> := [];
    assert none + none == none;
  }

  /** A count of 0 always reaches `Height / 0`: the guard `Height >= 0` holds for every bitmap. */
  lemma ZeroCountDividesByZero(b: Bitmap)
    ensures Tiles(b, 0) == Failure(DivideByZero)
  {
  }

  /** Past the overflow point the guard wraps to a negative number and admits bitmaps far too
      small: with 107374183 bands, any bitmap lower than that gets bands 0 rows high, and
      `new Bitmap(width, 0)` throws. */
  lemma WrappedGuardFails(b: Bitmap)
    requires b.height < 107374183
    ensures Guard(107374183) < 0
    ensures Tiles(b, 107374183) == Failure(InvalidBitmapSize)
  {
    assert Guard(107374183) == -2147483636;
  }

  /** Each row tile is a copy of its band: pixel (i, j) of tile k is source pixel
      (i, k * (height / n) + j). */
  lemma {:induction false} RowTilePixels(b: Bitmap, n: int32, k: int, i: int, j: int)
    requires 0 < n <= MaxUnwrappedCount && n * MinBandSide <= b.height && 0 <= k < n
    ensures TileImages(b, n).Success? && k < |TileImages(b, n).value|
    ensures var tile := TileImages(b, n).value[k];
      InRange(tile, i, j) ==> tile.pixel(i, j) == b.pixel(i, k * (b.height / n) + j)
  {
    var band := b.height / n;
    var rect := Rect(0, k * band, b.width, band);
    RowTileIsCopy(b, n, k);
    var tile := TileImages(b, n).value[k];
    if InRange(tile, i, j) {
      CopyRegionPixel(b, rect, i, j);
      BandRowInside(band, n, k, j, b.height);
    }
  }

  /** Row tile k is the copy of row band k. */
  lemma RowTileIsCopy(b: Bitmap, n: int32, k: int)
    requires 0 < n <= MaxUnwrappedCount && n * MinBandSide <= b.height && 0 <= k < n
    ensures 0 < b.height / n
    ensures TileImages(b, n).Success? && k < |TileImages(b, n).value|
    ensures TileImages(b, n).value[k] == CopyRegion(b, Rect(0, k * (b.height / n), b.width, b.height / n)).value
  {
    TilesShape(b, n);
    RowBandsShape(b, n);
    var rects := Tiles(b, n).value;
    assert rects[k] == RowBands(b, n).value[k];
    assert TileImages(b, n).value == Copies(b, rects);
  }

  /** Row j of band k lies inside a bitmap at least n bands high. */
  lemma BandRowInside(band: nat, n: nat, k: int, j: int, height: int)
    requires 0 <= k < n && 0 <= j < band && n * band <= height
    ensures 0 <= k * band + j < height
  {
    MulMono(band, k + 1, n);
  }

}
