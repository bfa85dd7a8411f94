/**
 * Grid geometry: integer cells, the four facing directions, grid transforms and
 * the grid-library operations the tiles use. The library's own formulas for
 * rotating a point and for scaling a shape up by a range are not part of this
 * model: they are carried as function values in a `Geometry`.
 */
module Grid {

  /** One cell of the unbounded square grid (FIntPoint). */
  datatype Point = Point(x: int, y: int)

  const Origin: Point := Point(0, 0)

  function Add(a: Point, b: Point): Point {
    Point(a.x + b.x, a.y + b.y)
  }

  function Max(a: int, b: int): (r: int)
    ensures r >= a && r >= b && (r == a || r == b)
  {
    if a >= b then a else b
  }

  datatype Direction = North | East | South | West

  /** A location on the grid together with the direction a tile faces. */
  datatype GridTransform = GridTransform(location: Point, direction: Direction)

  /**
   * The grid-library operations used by the tiles, taken as given:
   * `rotate` is PointLocationInDirection, `scale` is ScaleShapeUp.
   */
  datatype Geometry = Geometry(rotate: (Direction, Point) -> Point, scale: (set<Point>, int) -> set<Point>)

  /** PointShapeInDirection: every point of the shape turned to face `d`. */
  function RotateShape(rotate: (Direction, Point) -> Point, d: Direction, shape: set<Point>): set<Point> {
    set p | p in shape :: rotate(d, p)
  }

  /** Every point of `cells` moved by `offset`. */
  function Translate(cells: set<Point>, offset: Point): set<Point> {
    set p | p in cells :: Add(p, offset)
  }

  /** Rotate a relative shape into the transform's direction, then move it to its location. */
  function TransformShape(rotate: (Direction, Point) -> Point, shape: set<Point>, t: GridTransform): set<Point> {
    Translate(RotateShape(rotate, t.direction, shape), t.location)
  }

  lemma TransformShapeMembers(rotate: (Direction, Point) -> Point, shape: set<Point>, t: GridTransform, q: Point)
    ensures q in TransformShape(rotate, shape, t) <==> exists p :: p in shape && q == Add(rotate(t.direction, p), t.location)
  {
  }

  /** The contract ScaleShapeUp is documented to meet: one more ring never loses a cell. */
  ghost predicate MonotoneScale(scale: (set<Point>, int) -> set<Point>) {
    forall s: set<Point>, r: int :: 0 <= r ==> scale(s, r) <= scale(s, r + 1)
  }

  /** The contract ScaleShapeUp is documented to meet: the scaled shape keeps every cell it started from. */
  ghost predicate CoveringScale(scale: (set<Point>, int) -> set<Point>) {
    forall s: set<Point>, r: int :: 0 <= r ==> s <= scale(s, r)
  }

  lemma {:induction false} ScaleMonotoneBetween(scale: (set<Point>, int) -> set<Point>, s: set<Point>, r1: int, r2: int)
    requires MonotoneScale(scale)
    requires 0 <= r1 <= r2
    ensures scale(s, r1) <= scale(s, r2)
    decreases r2 - r1
  {
    if r1 < r2 {
      ScaleMonotoneBetween(scale, s, r1, r2 - 1);
      assert scale(s, r2 - 1) <= scale(s, r2);
    }
  }
}
