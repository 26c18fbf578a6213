/** The program's `Point` objects. A point holding pixel indices (contour
    points, candidate centers, picture corners) is a Point; a point holding
    floats (a computed center, a direction vector, a scale factor) is a Vec. */
module Geometry {

  datatype Point = Point(x: int, y: int)

  datatype Vec = Vec(x: real, y: real)

  function ToVec(p: Point): (v: Vec)
    ensures v.x == p.x as real && v.y == p.y as real
  {
    Vec(p.x as real, p.y as real)
  }
}
