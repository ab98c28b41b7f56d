/** The NoSpace margin trim of a generated barcode image (lines 293-382): four scans compare
    every pixel with the top-left one, and the box they find is copied out. */
module Trimming {
  import opened Wrappers
  import opened Imaging

  /** The four scans, in the order the source runs them. MinX and MaxX look for a column,
      MinY and MaxY for a row; Min scans go forwards, Max scans backwards. */
  datatype Pass = MinX | MinY | MaxX | MaxY

  predicate Forwards(p: Pass) {
    p == MinX || p == MinY
  }

  /** The outer loop's bound. Every `x` loop of the source runs to the bitmap's Height and
      every `y` loop to its Width, although `x` is used as a column and `y` as a row. */
  function OuterLen(b: Bitmap, p: Pass): int {
    if p == MinX || p == MaxX then b.height else b.width
  }

  function InnerLen(b: Bitmap, p: Pass): int {
    if p == MinX || p == MaxX then b.width else b.height
  }

  /** The arguments of the `GetPixel(x, y)` call at outer step i, inner step j. */
  function Visit(b: Bitmap, p: Pass, i: int, j: int): (int, int) {
    match p
    case MinX => (i, j)
    case MinY => (j, i)
    case MaxX => (b.height - 1 - i, b.width - 1 - j)
    case MaxY => (b.height - 1 - j, b.width - 1 - i)
  }

  /** The value the scan stores in `xResult` or `yResult` when it stops at outer step i. */
  function Coordinate(b: Bitmap, p: Pass, i: int): int {
    match p
    case MinX => i
    case MinY => i
    case MaxX => b.height - 1 - i
    case MaxY => b.width - 1 - i
  }

  /** A step stops the scan: GetPixel throws there, or returns a colour other than `c`. */
  predicate Hit(b: Bitmap, c: Colour, p: Pass, i: int, j: int) {
    var (x, y) := Visit(b, p, i, j);
    !InRange(b, x, y) || b.pixel(x, y) != c
  }

  /** Step (i, j) comes no later than step (i', j') in the nested loops' order. */
  predicate NotAfter(i: int, j: int, i': int, j': int) {
    i < i' || (i == i' && j <= j')
  }

  predicate InLoops(b: Bitmap, p: Pass, i: int, j: int) {
    0 <= i < OuterLen(b, p) && 0 <= j < InnerLen(b, p)
  }

  /** The first step at or after (i, j) that stops the scan, if any. */
  function Scan(b: Bitmap, c: Colour, p: Pass, i: nat, j: nat): (r: Option<(int, int)>)
    requires j <= InnerLen(b, p)
    ensures r.Some? ==> InLoops(b, p, r.value.0, r.value.1) && Hit(b, c, p, r.value.0, r.value.1)
    ensures r.Some? ==> NotAfter(i, j, r.value.0, r.value.1)
    decreases OuterLen(b, p) - i, InnerLen(b, p) - j
  {
    if i >= OuterLen(b, p) then None
    else if j == InnerLen(b, p) then Scan(b, c, p, i + 1, 0)
    else if Hit(b, c, p, i, j) then Some((i, j))
    else Scan(b, c, p, i, j + 1)
  }

  /** The outcome of one scan: GetPixel throws at the stopping step, or the scan stores its
      coordinate, or it finds nothing and the variable keeps `prev`. */
  function PassResult(b: Bitmap, c: Colour, p: Pass, prev: int): Result<int> {
    match Scan(b, c, p, 0, 0)
    case None => Success(prev)
    case Some((i, j)) =>
      var (x, y) := Visit(b, p, i, j);
      if InRange(b, x, y) then Success(Coordinate(b, p, i)) else Failure(PixelOutOfRange)
  }

  /** The trimmed image. `xResult` and `yResult` are shared by the scans, so a backward scan
      that finds nothing leaves the forward scan's value in place; the copied size is
      end minus start, with no +1. */
  function TrimSpec(b: Bitmap): Result<Bitmap> {
    var c := b.pixel(0, 0);
    var x0 :- PassResult(b, c, MinX, 0);
    var y0 :- PassResult(b, c, MinY, 0);
    var x1 :- PassResult(b, c, MaxX, x0);
    var y1 :- PassResult(b, c, MaxY, y0);
    CopyRegion(b, Rect(x0, y0, x1 - x0, y1 - y0))
  }

  /** One of the four nested scans (lines 301-316, 319-334, 340-355, 357-372): it stops at
      the first pixel whose colour is not `c`. */
  method ScanPass(b: Bitmap, c: Colour, p: Pass, prev: int) returns (r: Result<int>)
    ensures r == PassResult(b, c, p, prev)
  {
    var i := 0;
    while i < OuterLen(b, p)
      invariant 0 <= i
      invariant i <= OuterLen(b, p)
      invariant Scan(b, c, p, 0, 0) == Scan(b, c, p, i, 0)
    {
      var j := 0;
      while j < InnerLen(b, p)
        invariant 0 <= j <= InnerLen(b, p)
        invariant Scan(b, c, p, 0, 0) == Scan(b, c, p, i, j)
      {
        var (x, y) := Visit(b, p, i, j);
        if !InRange(b, x, y) {
          return Failure(PixelOutOfRange);
        }
        if b.pixel(x, y) != c {
          return Success(Coordinate(b, p, i));
        }
        j := j + 1;
      }
      i := i + 1;
    }
    return Success(prev);
  }

  /** Lines 293-380: the four scans, then `new Bitmap(end - start)` and a one-to-one copy. */
  method TrimMargins(b: Bitmap) returns (r: Result<Bitmap>)
    ensures r == TrimSpec(b)
  {
    var c := b.pixel(0, 0);
    var x0 :- ScanPass(b, c, MinX, 0);
    var y0 :- ScanPass(b, c, MinY, 0);
    var x1 :- ScanPass(b, c, MaxX, x0);
    var y1 :- ScanPass(b, c, MaxY, y0);
    r := CopyRegion(b, Rect(x0, y0, x1 - x0, y1 - y0));
  }

  /** The scan result is the first stopping step in loop order: no earlier step stops it. */
  lemma {:induction false} ScanFirstHit(b: Bitmap, c: Colour, p: Pass, i: nat, j: nat, i': int, j': int)
    requires j <= InnerLen(b, p)
    requires InLoops(b, p, i', j') && NotAfter(i, j, i', j') && Hit(b, c, p, i', j')
    ensures Scan(b, c, p, i, j).Some?
    ensures NotAfter(Scan(b, c, p, i, j).value.0, Scan(b, c, p, i, j).value.1, i', j')
    decreases OuterLen(b, p) - i, InnerLen(b, p) - j
  {
    if j == InnerLen(b, p) {
      ScanFirstHit(b, c, p, i + 1, 0, i', j');
    } else if !Hit(b, c, p, i, j) {
      ScanFirstHit(b, c, p, i, j + 1, i', j');
    }
  }

  /** A pixel whose colour differs from `c`. */
  predicate Differs(b: Bitmap, c: Colour, x: int, y: int) {
    InRange(b, x, y) && b.pixel(x, y) != c
  }

  ghost predicate HasContent(b: Bitmap, c: Colour) {
    exists x, y :: Differs(b, c, x, y)
  }

  /** The column (MinX, MaxX) or row (MinY, MaxY) of pixel (x, y). */
  function Key(p: Pass, x: int, y: int): int {
    if p == MinX || p == MaxX then x else y
  }

  /** `v` lies at least as far towards the pass's edge as `k`. */
  predicate Beyond(p: Pass, v: int, k: int) {
    if Forwards(p) then v <= k else k <= v
  }

  /** The loop step at which a pass visits pixel (x, y) of a square bitmap. */
  function StepOf(b: Bitmap, p: Pass, x: int, y: int): (int, int) {
    match p
    case MinX => (x, y)
    case MinY => (y, x)
    case MaxX => (b.height - 1 - x, b.width - 1 - y)
    case MaxY => (b.width - 1 - y, b.height - 1 - x)
  }

  /** On a square bitmap every scan stays in range and finds the outermost content column or
      row towards its edge; with no content it leaves `prev`. */
  lemma PassOnSquare(b: Bitmap, c: Colour, p: Pass, prev: int)
    requires b.width == b.height
    ensures PassResult(b, c, p, prev).Success?
    ensures !HasContent(b, c) ==> PassResult(b, c, p, prev).value == prev
    ensures HasContent(b, c) ==>
      var v := PassResult(b, c, p, prev).value;
      (forall x, y :: Differs(b, c, x, y) ==> Beyond(p, v, Key(p, x, y))) &&
      exists x, y :: Differs(b, c, x, y) && Key(p, x, y) == v
  {
    var scan := Scan(b, c, p, 0, 0);
    if scan.None? {
      if HasContent(b, c) {
        var x, y :| Differs(b, c, x, y);
        var (i, j) := StepOf(b, p, x, y);
        ScanFirstHit(b, c, p, 0, 0, i, j);
        assert false;
      }
    } else {
      var (i, j) := scan.value;
      var (x, y) := Visit(b, p, i, j);
      assert Differs(b, c, x, y) && Key(p, x, y) == Coordinate(b, p, i);
      forall x', y' | Differs(b, c, x', y')
        ensures Beyond(p, Coordinate(b, p, i), Key(p, x', y'))
      {
        var (i', j') := StepOf(b, p, x', y');
        ScanFirstHit(b, c, p, 0, 0, i', j');
      }
    }
  }

  /** The tight box around the pixels whose colour differs from `c`: it holds all of them and
      each of its four edges touches one. */
  ghost predicate ContentBox(b: Bitmap, c: Colour, x0: int, y0: int, x1: int, y1: int) {
    (forall x, y :: Differs(b, c, x, y) ==> x0 <= x <= x1 && y0 <= y <= y1) &&
    (exists y :: Differs(b, c, x0, y)) && (exists y :: Differs(b, c, x1, y)) &&
    (exists x :: Differs(b, c, x, y0)) && (exists x :: Differs(b, c, x, y1))
  }

  /** NoSpace on a square bitmap: a blank image cannot be trimmed, and otherwise the result is
      the region of the content box that starts at its top-left corner and stops one short of
      its right column and bottom row (so content one pixel wide or high cannot be trimmed). */
  lemma TrimSquare(b: Bitmap)
    requires b.width == b.height
    ensures !HasContent(b, b.pixel(0, 0)) ==> TrimSpec(b) == Failure(InvalidBitmapSize)
    ensures HasContent(b, b.pixel(0, 0)) ==>
      exists x0, y0, x1, y1 :: ContentBox(b, b.pixel(0, 0), x0, y0, x1, y1) &&
        TrimSpec(b) == CopyRegion(b, Rect(x0, y0, x1 - x0, y1 - y0))
  {
    var c := b.pixel(0, 0);
    PassOnSquare(b, c, MinX, 0);
    var x0 := PassResult(b, c, MinX, 0).value;
    PassOnSquare(b, c, MinY, 0);
    var y0 := PassResult(b, c, MinY, 0).value;
    PassOnSquare(b, c, MaxX, x0);
    var x1 := PassResult(b, c, MaxX, x0).value;
    PassOnSquare(b, c, MaxY, y0);
    var y1 := PassResult(b, c, MaxY, y0).value;
    assert TrimSpec(b) == CopyRegion(b, Rect(x0, y0, x1 - x0, y1 - y0));
    if HasContent(b, c) {
      assert ContentBox(b, c, x0, y0, x1, y1);
    }
  }

  /** NoSpace on a bitmap that is not square always throws: the first backward scan starts
      with GetPixel(Height - 1, Width - 1), which lies outside it. */
  lemma TrimFailsUnlessSquare(b: Bitmap)
    requires b.width != b.height
    ensures TrimSpec(b) == Failure(PixelOutOfRange)
  {
    var c := b.pixel(0, 0);
    assert Hit(b, c, MaxX, 0, 0);
    assert Scan(b, c, MaxX, 0, 0) == Some((0, 0));
  }
}
