/** The 32-bit signed arithmetic of C#'s `int`, where the source relies on it. */
module Int32 {

  const MinInt32: int := -0x8000_0000
  const MaxInt32: int := 0x7fff_ffff

  type int32 = x: int | MinInt32 <= x <= MaxInt32

  /** An unchecked C# `int` result: `v` reduced into the 32-bit range by wrap-around. */
  function Wrap32(v: int): (r: int32)
    ensures MinInt32 <= v <= MaxInt32 ==> r == v
    ensures (v - r) % 0x1_0000_0000 == 0
  {
    (v - MinInt32) % 0x1_0000_0000 + MinInt32
  }

  function Abs(x: int): nat {
    if x < 0 then -x else x
  }

  /** C#'s integer division, which truncates toward zero (Dafny's `/` is Euclidean): the
      quotient of the magnitudes, with the sign of the exact quotient. */
  function TruncDiv(a: int, b: int): (q: int)
    requires b != 0
    ensures (a < 0) == (b < 0) ==> q >= 0
    ensures (a < 0) != (b < 0) ==> q <= 0
    ensures 0 <= a && 0 < b ==> q == a / b
  {
    var m: int := Quotient(Abs(a), Abs(b));
    if (a < 0) == (b < 0) then m else -m
  }

  /** Division of a non-negative number by a positive one, where truncation and Euclid agree. */
  function Quotient(x: nat, y: int): nat
    requires 0 < y
  {
    x / y
  }

  /** The magnitude of the quotient is the whole number of times |b| fits in |a|, so the
      quotient is the exact one rounded toward zero. */
  lemma TruncDivBounds(a: int, b: int)
    requires b != 0
    ensures Abs(TruncDiv(a, b)) * Abs(b) <= Abs(a) < Abs(TruncDiv(a, b)) * Abs(b) + Abs(b)
  {
    var x, y := Abs(a), Abs(b);
    var m := x / y;
    assert Abs(TruncDiv(a, b)) == m;
    assert x == y * m + x % y && 0 <= x % y < y;
    assert m * y == y * m;
  }

  /** On a negative dividend the two divisions part: C# gives -7 / 2 == -3, Euclid -4. */
  lemma TruncDivTowardZero()
    ensures TruncDiv(-7, 2) == -3
    ensures -7 / 2 == -4
  {
    TruncDivBounds(-7, 2);
  }
}
