/** Bitmaps as pixel grids, and the copy that `new Bitmap` plus `Graphics.DrawImage` performs. */
module Imaging {
  import opened Wrappers

  /** A 32-bit ARGB colour, as System.Drawing.Color holds one read by GetPixel;
      two colours are equal exactly when all four channels are. */
  datatype Colour = Argb(a: int, r: int, g: int, b: int)

  /** The colour every pixel of a freshly allocated `new Bitmap(w, h)` has. */
  const Transparent: Colour := Argb(0, 0, 0, 0)

  /** A grid of pixels; `pixel(x, y)` is meaningful for 0 <= x < width and 0 <= y < height. */
  datatype Grid = Grid(width: int, height: int, pixel: (int, int) -> Colour)

  /** A GDI+ bitmap: never empty in either direction. */
  type Bitmap = g: Grid | 0 < g.width && 0 < g.height
    witness Grid(1, 1, (x: int, y: int) => Transparent)

  predicate InRange(g: Grid, x: int, y: int) {
    0 <= x < g.width && 0 <= y < g.height
  }

  /** A System.Drawing.Rectangle: top-left corner and size. */
  datatype Rect = Rect(x: int, y: int, width: int, height: int)

  /** What `DrawImage` reads at source position (x, y): the pixel there, or nothing
      (the target keeps its transparent colour) outside the source. */
  function SourcePixel(b: Bitmap, x: int, y: int): Colour {
    if InRange(b, x, y) then b.pixel(x, y) else Transparent
  }

  /** `new Bitmap(rect.Width, rect.Height)` followed by drawing `rect` of `b` onto it
      at (0, 0) in pixel units: a one-to-one copy, no scaling. */
  function CopyRegion(b: Bitmap, rect: Rect): (r: Result<Bitmap>)
    ensures r.Success? <==> 0 < rect.width && 0 < rect.height
    ensures r.Failure? ==> r.error == InvalidBitmapSize
    ensures r.Success? ==> r.value.width == rect.width && r.value.height == rect.height
  {
    if rect.width <= 0 || rect.height <= 0 then Failure(InvalidBitmapSize)
    else
      var copy: (int, int) -> Colour := (i: int, j: int) => SourcePixel(b, rect.x + i, rect.y + j);
      Success(Grid(rect.width, rect.height, copy))
  }

  /** The copy is one-to-one: target pixel (i, j) is source pixel (rect.x + i, rect.y + j),
      transparent where that lies outside the source. */
  lemma CopyRegionPixel(b: Bitmap, rect: Rect, i: int, j: int)
    requires 0 < rect.width && 0 < rect.height
    requires 0 <= i < rect.width && 0 <= j < rect.height
    ensures CopyRegion(b, rect).value.pixel(i, j) == SourcePixel(b, rect.x + i, rect.y + j)
  {
  }
}
