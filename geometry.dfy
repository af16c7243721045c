/** Points and vectors in world space, as the script's THREE.Vector3 values. */
module Geometry {

  datatype Point = Point(x: real, y: real, z: real)

  const Origin := Point(0.0, 0.0, 0.0)

  function Abs(r: real): real { if r < 0.0 then -r else r }

  /** Squared Euclidean length; a vector's length is the non-negative number whose square this is. */
  function NormSq(v: Point): real { v.x * v.x + v.y * v.y + v.z * v.z }
}
