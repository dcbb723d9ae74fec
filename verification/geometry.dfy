/** Real 3-vectors and the degree/radian conversions numpy provides. */
module Geometry {

  import opened RealArith

  datatype Vec3 = Vec3(x: real, y: real, z: real)

  const Origin: Vec3 := Vec3(0.0, 0.0, 0.0)

  function Add(u: Vec3, v: Vec3): Vec3 {
    Vec3(u.x + v.x, u.y + v.y, u.z + v.z)
  }

  function Sub(u: Vec3, v: Vec3): Vec3 {
    Vec3(u.x - v.x, u.y - v.y, u.z - v.z)
  }

  /** `k * u` for a real scalar `k`. */
  function Scale(k: real, u: Vec3): Vec3 {
    Vec3(k * u.x, k * u.y, k * u.z)
  }

  /** `np.dot` on two 3-vectors. */
  function Dot(u: Vec3, v: Vec3): real {
    u.x * v.x + u.y * v.y + u.z * v.z
  }

  /** `np.cross` on two 3-vectors. */
  function Cross(u: Vec3, v: Vec3): Vec3 {
    Vec3(u.y * v.z - u.z * v.y, u.z * v.x - u.x * v.z, u.x * v.y - u.y * v.x)
  }

  lemma DotSelfNonNegative(u: Vec3)
    ensures Dot(u, u) >= 0.0
  {
    SqNonNegative(u.x);
    SqNonNegative(u.y);
    SqNonNegative(u.z);
  }

  /** A non-zero vector has a positive squared length. */
  lemma DotSelfPositive(u: Vec3)
    requires u != Origin
    ensures Dot(u, u) > 0.0
  {
    SqNonNegative(u.x);
    SqNonNegative(u.y);
    SqNonNegative(u.z);
    if u.x != 0.0 {
      SqPositive(u.x);
    } else if u.y != 0.0 {
      SqPositive(u.y);
    } else {
      SqPositive(u.z);
    }
  }

  /** The decimal value numpy prints for `np.pi`; all angle arithmetic is exact
      over this constant. */
  const Pi: real := 3.141592653589793

  /** `2*np.pi`, the factor the engine applies to every q component. */
  const TwoPi: real := 2.0 * Pi

  /** `np.radians`. */
  function Radians(degrees: real): real {
    degrees * Pi / 180.0
  }

  /** `np.degrees`. */
  function Degrees(radians: real): real {
    radians * 180.0 / Pi
  }

  lemma DegreesOfRadians(d: real)
    ensures Degrees(Radians(d)) == d
  {
  }
}
