/**
 * The per-frame geometry of the viewfinder overlay: every rectangle and path that
 * `WXViewfinderView.onDraw` hands to the canvas, as pure functions of the target
 * frame, the surface size, the animation offset and the style constants.
 *
 * Coordinates are Android `Rect` coordinates: a filled rectangle covers the pixel
 * cells `left <= x < right`, `top <= y < bottom`. The overlay itself treats the
 * target frame as INCLUSIVE of its `right` and `bottom` edges (see FrameCells).
 */
module Geometry {

  datatype Rect = Rect(left: int, top: int, right: int, bottom: int)

  datatype Point = Point(x: int, y: int)

  /** Inset of the laser strip from the frame's left and right edges (field `laserPadding`) */
  const LaserPadding: int := 10

  /** Height of the laser strip, in pixels */
  const LaserThickness: int := 3

  /** Pixel cell (x, y) is covered when `r` is filled */
  predicate Contains(r: Rect, x: int, y: int) {
    r.left <= x < r.right && r.top <= y < r.bottom
  }

  /** No pixel cell is covered by both rectangles */
  ghost predicate CellDisjoint(a: Rect, b: Rect) {
    forall x, y :: !(Contains(a, x, y) && Contains(b, x, y))
  }

  /** Some rectangle of `rs` covers cell (x, y) */
  ghost predicate Covered(rs: seq<Rect>, x: int, y: int) {
    exists i :: 0 <= i < |rs| && Contains(rs[i], x, y)
  }

  /** The frame lies on a `width` x `height` surface, with `left <= right` and `top <= bottom` */
  predicate InsideSurface(frame: Rect, width: int, height: int) {
    0 <= frame.left <= frame.right < width && 0 <= frame.top <= frame.bottom < height
  }

  /** The block of cells the overlay leaves unmasked: the frame with `right` and `bottom` included */
  function FrameCells(frame: Rect): (c: Rect)
    ensures forall x, y :: Contains(c, x, y) <==>
      frame.left <= x <= frame.right && frame.top <= y <= frame.bottom
  {
    Rect(frame.left, frame.top, frame.right + 1, frame.bottom + 1)
  }

  /** Java's `a / b` on int for a positive divisor: the quotient is truncated toward zero */
  function TruncDiv(a: int, b: int): (q: int)
    requires b > 0
    ensures a >= 0 ==> 0 <= a - q * b < b
    ensures a < 0 ==> -b < a - q * b <= 0
  {
    if a >= 0 then a / b else -((-a) / b)
  }

  /**
   * The four mask rectangles (above, left of, right of and below the frame).
   * When the frame lies on the surface they do not overlap one another nor the
   * frame's cells, and with those cells they cover the surface exactly.
   */
  function MaskRects(frame: Rect, width: int, height: int): (r: seq<Rect>)
    ensures |r| == 4
    ensures InsideSurface(frame, width, height) ==>
      forall i, j :: 0 <= i < j < |r| ==> CellDisjoint(r[i], r[j])
    ensures InsideSurface(frame, width, height) ==>
      forall i :: 0 <= i < |r| ==> CellDisjoint(r[i], FrameCells(frame))
    ensures InsideSurface(frame, width, height) ==>
      forall i :: 0 <= i < |r| ==> forall x, y :: Contains(r[i], x, y) ==> 0 <= x < width && 0 <= y < height
  {
    [ Rect(0, 0, width, frame.top),
      Rect(0, frame.top, frame.left, frame.bottom + 1),
      Rect(frame.right + 1, frame.top, width, frame.bottom + 1),
      Rect(0, frame.bottom + 1, width, height) ]
  }

  /**
   * Together with the frame's cells, the masks cover every cell of the surface:
   * with the disjointness that MaskRects promises, the five blocks tile the surface.
   */
  lemma MaskTiling(frame: Rect, width: int, height: int)
    requires InsideSurface(frame, width, height)
    ensures forall x, y :: Contains(Rect(0, 0, width, height), x, y) <==>
      Contains(FrameCells(frame), x, y) || Covered(MaskRects(frame, width, height), x, y)
  {
    var masks := MaskRects(frame, width, height);
    forall x, y | Contains(Rect(0, 0, width, height), x, y)
      ensures Contains(FrameCells(frame), x, y) || Covered(masks, x, y)
    {
      if y < frame.top {
        assert Contains(masks[0], x, y);
      } else if y > frame.bottom {
        assert Contains(masks[3], x, y);
      } else if x < frame.left {
        assert Contains(masks[1], x, y);
      } else if x > frame.right {
        assert Contains(masks[2], x, y);
      }
    }
  }

  /**
   * The stroked border: the frame pulled in by one pixel on the top and left only.
   * Its outline lies in the frame's own cells, so it never runs over a mask.
   */
  function BorderRect(frame: Rect): (r: Rect)
    ensures r.left - frame.left == 1 && r.top - frame.top == 1
    ensures r.right == frame.right && r.bottom == frame.bottom
    ensures forall x, y :: r.left <= x <= r.right && r.top <= y <= r.bottom ==>
        Contains(FrameCells(frame), x, y)
  {
    Rect(frame.left + 1, frame.top + 1, frame.right, frame.bottom)
  }

  /** `path` moved by (dx, dy), as a translation Matrix applied to a Path */
  function Translated(path: seq<Point>, dx: int, dy: int): (r: seq<Point>)
    ensures |r| == |path|
    ensures forall i :: 0 <= i < |path| ==> r[i] == Point(path[i].x + dx, path[i].y + dy)
  {
    seq(|path|, i requires 0 <= i < |path| => Point(path[i].x + dx, path[i].y + dy))
  }

  /** `path` reflected across the horizontal line `2 * y == axis2` */
  function ReflectedY(path: seq<Point>, axis2: int): (r: seq<Point>)
    ensures |r| == |path|
    ensures forall i :: 0 <= i < |path| ==> r[i] == Point(path[i].x, axis2 - path[i].y)
  {
    seq(|path|, i requires 0 <= i < |path| => Point(path[i].x, axis2 - path[i].y))
  }

  /** `path` reflected across the vertical line `2 * x == axis2` */
  function ReflectedX(path: seq<Point>, axis2: int): (r: seq<Point>)
    ensures |r| == |path|
    ensures forall i :: 0 <= i < |path| ==> r[i] == Point(axis2 - path[i].x, path[i].y)
  {
    seq(|path|, i requires 0 <= i < |path| => Point(axis2 - path[i].x, path[i].y))
  }

  /** `path` traversed backwards */
  function Reversed(path: seq<Point>): (r: seq<Point>)
    ensures |r| == |path|
    ensures forall i :: 0 <= i < |path| ==> r[i] == path[|path| - 1 - i]
  {
    seq(|path|, i requires 0 <= i < |path| => path[|path| - 1 - i])
  }

  function Abs(n: int): int {
    if n < 0 then -n else n
  }

  /** A horizontal segment of the given length */
  predicate HorizontalLeg(a: Point, b: Point, length: int) {
    a.y == b.y && Abs(a.x - b.x) == length
  }

  /** A vertical segment of the given length */
  predicate VerticalLeg(a: Point, b: Point, length: int) {
    a.x == b.x && Abs(a.y - b.y) == length
  }

  /** A three-point polyline whose two legs, one horizontal and one vertical, meet at its middle point */
  predicate LShaped(p: seq<Point>, length: int) {
    |p| == 3 &&
    ((VerticalLeg(p[0], p[1], length) && HorizontalLeg(p[1], p[2], length)) ||
     (HorizontalLeg(p[0], p[1], length) && VerticalLeg(p[1], p[2], length)))
  }

  /**
   * The four corner accents (top-left, top-right, bottom-left, bottom-right), each an
   * L of two legs of `cornerLength` drawn around a corner of the frame's cells and
   * moved `halfWidth` toward the inside so that the stroke does not stick out.
   * The bottom-left corner mirrors the top-left one across the frame's horizontal
   * mid-line; the right-hand corners mirror the left-hand ones across its vertical
   * mid-line, traversed in the opposite direction.
   */
  function CornerPaths(frame: Rect, cornerLength: int, halfWidth: int): (r: seq<seq<Point>>)
    ensures |r| == 4 && forall k :: 0 <= k < 4 ==> |r[k]| == 3
    ensures cornerLength >= 0 ==> forall k :: 0 <= k < 4 ==> LShaped(r[k], cornerLength)
    ensures r[0][1] == Point(frame.left + halfWidth, frame.top + halfWidth)
    ensures r[1][1] == Point(frame.right + 1 - halfWidth, frame.top + halfWidth)
    ensures r[2][1] == Point(frame.left + halfWidth, frame.bottom + 1 - halfWidth)
    ensures r[3][1] == Point(frame.right + 1 - halfWidth, frame.bottom + 1 - halfWidth)
  {
    var left, top, right, bottom := frame.left, frame.top, frame.right, frame.bottom;
    var corner1 := Translated(
      [Point(left, top + cornerLength), Point(left, top), Point(left + cornerLength, top)],
      halfWidth, halfWidth);
    var corner2 := Translated(
      [Point(right + 1 - cornerLength, top), Point(right + 1, top), Point(right + 1, top + cornerLength)],
      -halfWidth, halfWidth);
    var corner3 := Translated(
      [Point(left, bottom + 1 - cornerLength), Point(left, bottom + 1), Point(left + cornerLength, bottom + 1)],
      halfWidth, -halfWidth);
    var corner4 := Translated(
      [Point(right + 1 - cornerLength, bottom + 1), Point(right + 1, bottom + 1), Point(right + 1, bottom + 1 - cornerLength)],
      -halfWidth, -halfWidth);
    [corner1, corner2, corner3, corner4]
  }

  /**
   * When an accent fits in the frame, every point of every accent lies within the
   * frame's cell block: the legs run from the corners along the edges, inward.
   */
  lemma CornersInsideFrame(frame: Rect, cornerLength: int, halfWidth: int)
    requires 0 <= halfWidth && 0 <= cornerLength
    requires halfWidth + cornerLength <= frame.right + 1 - frame.left
    requires halfWidth + cornerLength <= frame.bottom + 1 - frame.top
    ensures var r := CornerPaths(frame, cornerLength, halfWidth);
      forall k, i :: 0 <= k < 4 && 0 <= i < 3 ==>
        frame.left <= r[k][i].x <= frame.right + 1 && frame.top <= r[k][i].y <= frame.bottom + 1
  {
  }

  /**
   * The bottom-left accent is the top-left one reflected across the frame's
   * horizontal mid-line `y == (top + bottom + 1) / 2`.
   */
  lemma BottomLeftMirrorsTopLeft(frame: Rect, cornerLength: int, halfWidth: int)
    ensures var r := CornerPaths(frame, cornerLength, halfWidth);
      r[2] == ReflectedY(r[0], frame.top + frame.bottom + 1)
  {
    var r := CornerPaths(frame, cornerLength, halfWidth);
    var m := ReflectedY(r[0], frame.top + frame.bottom + 1);
    assert r[2][0] == m[0] && r[2][1] == m[1] && r[2][2] == m[2];
  }

  /**
   * The right-hand accents are the left-hand ones reflected across the frame's
   * vertical mid-line `x == (left + right + 1) / 2`, traversed backwards.
   */
  lemma RightMirrorsLeft(frame: Rect, cornerLength: int, halfWidth: int)
    ensures var r := CornerPaths(frame, cornerLength, halfWidth);
      && r[1] == Reversed(ReflectedX(r[0], frame.left + frame.right + 1))
      && r[3] == Reversed(ReflectedX(r[2], frame.left + frame.right + 1))
  {
    var r := CornerPaths(frame, cornerLength, halfWidth);
    var axis := frame.left + frame.right + 1;
    var top := Reversed(ReflectedX(r[0], axis));
    assert r[1][0] == top[0] && r[1][1] == top[1] && r[1][2] == top[2];
    var bottom := Reversed(ReflectedX(r[2], axis));
    assert r[3][0] == bottom[0] && r[3][1] == bottom[1] && r[3][2] == bottom[2];
  }

  /**
   * The laser strip for a given animation offset: `LaserPadding` in from the frame's
   * right edge and one pixel more from its left edge, `offset` rows below the first
   * row under the frame's top edge, and `LaserThickness` rows high. For an offset
   * the animation can reach (below the frame height) the strip starts inside the frame.
   */
  function LaserRect(frame: Rect, offset: int): (r: Rect)
    ensures r.left - frame.left == 1 + LaserPadding && frame.right - r.right == LaserPadding
    ensures r.top - frame.top == 1 + offset
    ensures r.bottom - r.top == LaserThickness
    ensures 0 <= offset < frame.bottom - frame.top ==> frame.top < r.top <= frame.bottom
    ensures 0 <= offset && offset + LaserThickness <= frame.bottom - frame.top ==>
      forall x, y :: Contains(r, x, y) ==> Contains(FrameCells(frame), x, y)
  {
    var top := frame.top + 1 + offset;
    Rect(frame.left + 1 + LaserPadding, top, frame.right - LaserPadding, top + LaserThickness)
  }

  /**
   * For a frame at least one row high and an offset the animation can hold (0, or
   * below the frame height), the strip ends at most two rows below the frame's cells.
   */
  lemma LaserOverhangBound(frame: Rect, offset: int)
    requires frame.bottom - frame.top >= 1
    requires offset == 0 || 0 <= offset < frame.bottom - frame.top
    ensures LaserRect(frame, offset).bottom <= FrameCells(frame).bottom + 2
  {
  }

  /** The frame (100, 200, 300, 400): the strip spans columns 111 to 289 and starts at row 201 + offset */
  lemma LaserForSampleFrame(offset: int)
    ensures LaserRect(Rect(100, 200, 300, 400), offset) == Rect(111, 201 + offset, 290, 204 + offset)
  {
  }

  /**
   * The x at which the status text is centred: the frame's horizontal midpoint,
   * computed with Java's truncating integer division.
   */
  function TextAnchorX(frame: Rect): (x: int)
    ensures frame.left <= frame.right ==> frame.left <= x <= frame.right
    ensures -1 <= 2 * x - (frame.left + frame.right) <= 1
    ensures frame.left + frame.right >= 0 ==> 2 * x <= frame.left + frame.right
    ensures frame.left + frame.right < 0 ==> 2 * x >= frame.left + frame.right
  {
    TruncDiv(frame.right + frame.left, 2)
  }
}
