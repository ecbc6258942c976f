/** Small value types shared by every part of the model: optional values,
    screen points and rectangles, and the C# 32-bit integer operations the
    mod relies on. */
module Common {

  datatype Option<+T> = None | Some(value: T)

  /** A screen coordinate (XNA `Point`). */
  datatype Point = Point(x: int, y: int)

  /** An XNA `Rectangle`: left, top, width and height. */
  datatype Rect = Rect(x: int, y: int, width: int, height: int) {

    /** `Rectangle.Contains(x, y)`: the left and top edges are inside,
        the right and bottom edges are not. */
    predicate Contains(px: int, py: int) {
      x <= px < x + width && y <= py < y + height
    }
  }

  /** `Rectangle.Empty`. */
  const EmptyRect := Rect(0, 0, 0, 0)

  /** Whether the host consumed an input event. */
  datatype EInputHandled = Consumed | NotHandled

  /** `int.MaxValue` and `int.MinValue` of C#. */
  const IntMax: int := 0x7FFF_FFFF
  const IntMin: int := -0x8000_0000
  const TwoTo32: int := 0x1_0000_0000

  predicate InInt32(v: int) { IntMin <= v <= IntMax }

  /** The value C# `unchecked` arithmetic leaves in an `int`: `v` reduced
      modulo 2^32 into the signed range. */
  function Wrap32(v: int): (r: int)
    ensures InInt32(r)
    ensures (r - v) % TwoTo32 == 0
    ensures InInt32(v) ==> r == v
  {
    (v - IntMin) % TwoTo32 + IntMin
  }

  /** A sum that passes `int.MaxValue` by less than 2^32 wraps once, to a
      value 2^32 lower. */
  lemma Wrap32OfOverflow(v: int)
    requires IntMax < v <= IntMax + TwoTo32
    ensures Wrap32(v) == v - TwoTo32
  {
    var w := v - IntMin;
    assert TwoTo32 <= w < 2 * TwoTo32;
    assert w % TwoTo32 == w - TwoTo32;
  }

  function Min(a: int, b: int): (r: int)
    ensures r <= a && r <= b && (r == a || r == b)
  {
    if a <= b then a else b
  }

  function Max(a: int, b: int): (r: int)
    ensures r >= a && r >= b && (r == a || r == b)
  {
    if a >= b then a else b
  }

  /** C#'s integer division, which truncates toward zero (Dafny's `/` is
      Euclidean and differs on negative operands). */
  function CsDiv(a: int, b: int): (q: int)
    requires b != 0
    ensures a >= 0 && b > 0 ==> q == a / b
    ensures b > 0 && a >= 0 ==> q * b <= a < q * b + b
    ensures b > 0 && a < 0 ==> q * b - b < a <= q * b
  {
    if a >= 0 && b > 0 then a / b
    else if a < 0 && b > 0 then -((-a) / b)
    else if a >= 0 then -(a / (-b))
    else (-a) / (-b)
  }

  /** The index of the first element equal to `x`, or -1 when there is
      none (`List.IndexOf`, `List.FindIndex`). */
  function FirstIndexOf<T(==)>(s: seq<T>, x: T): (i: int)
    ensures -1 <= i < |s|
    ensures i == -1 <==> x !in s
    ensures 0 <= i ==> s[i] == x && x !in s[..i]
  {
    if |s| == 0 then -1
    else if s[0] == x then 0
    else
      var j := FirstIndexOf(s[1..], x);
      if j == -1 then -1 else j + 1
  }

  /** The index of the first element satisfying `p`, or -1 when there is
      none (`List.FindIndex`, or a `foreach` that stops at the first hit). */
  function FirstIndexWhere<T>(s: seq<T>, p: T -> bool): (i: int)
    ensures -1 <= i < |s|
    ensures i == -1 <==> forall j :: 0 <= j < |s| ==> !p(s[j])
    ensures 0 <= i ==> p(s[i])
    ensures forall j :: 0 <= j < i ==> !p(s[j])
  {
    if |s| == 0 then -1
    else if p(s[0]) then 0
    else
      var j := FirstIndexWhere(s[1..], p);
      if j == -1 then -1 else j + 1
  }

  /** `List.Remove(x)`: drops the first element equal to `x`, if any. */
  function RemoveFirst<T(==)>(s: seq<T>, x: T): (r: seq<T>)
    ensures x !in s ==> r == s
    ensures x in s ==> |r| == |s| - 1
    ensures x in s ==> var i := FirstIndexOf(s, x); r == s[..i] + s[i + 1..]
  {
    var i := FirstIndexOf(s, x);
    if i == -1 then s else s[..i] + s[i + 1..]
  }
}
