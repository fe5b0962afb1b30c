/** Three-component vectors over the reals, standing for single-precision Vector3. */
module Vectors {

  datatype Vector3 = Vector3(x: real, y: real, z: real)

  function Add(a: Vector3, b: Vector3): Vector3 {
    Vector3(a.x + b.x, a.y + b.y, a.z + b.z)
  }

  function Sub(a: Vector3, b: Vector3): Vector3 {
    Vector3(a.x - b.x, a.y - b.y, a.z - b.z)
  }

  function Neg(a: Vector3): Vector3 {
    Vector3(-a.x, -a.y, -a.z)
  }

  function Scale(a: Vector3, k: real): Vector3 {
    Vector3(a.x * k, a.y * k, a.z * k)
  }

  /** Real multiplication, named so that sums of products stay linear terms for the solver. */
  function Mul(a: real, b: real): real {
    a * b
  }

  function Dot(a: Vector3, b: Vector3): real {
    Mul(a.x, b.x) + Mul(a.y, b.y) + Mul(a.z, b.z)
  }

  function Cross(a: Vector3, b: Vector3): Vector3 {
    Vector3(Mul(a.y, b.z) - Mul(a.z, b.y), Mul(a.z, b.x) - Mul(a.x, b.z), Mul(a.x, b.y) - Mul(a.y, b.x))
  }

  function Square(r: real): real {
    r * r
  }

  function SquaredLength(a: Vector3): real {
    Square(a.x) + Square(a.y) + Square(a.z)
  }

  function Abs(r: real): real {
    if r < 0.0 then -r else r
  }
}
