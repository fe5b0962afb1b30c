/** Column extraction from 4x4 transformation matrices (MatrixEx.cs). */
module MatrixEx {
  import opened Vectors

  /** An engine matrix; mRC is the entry in row R and column C. */
  datatype Matrix4x4 = Matrix4x4(
    m00: real, m01: real, m02: real, m03: real,
    m10: real, m11: real, m12: real, m13: real,
    m20: real, m21: real, m22: real, m23: real,
    m30: real, m31: real, m32: real, m33: real)

  datatype Vector4 = Vector4(x: real, y: real, z: real, w: real)

  /** The engine's indexer matrix[row, column]. */
  function Get(m: Matrix4x4, row: nat, column: nat): real
    requires row < 4 && column < 4
  {
    match (row, column)
    case (0, 0) => m.m00 case (0, 1) => m.m01 case (0, 2) => m.m02 case (0, 3) => m.m03
    case (1, 0) => m.m10 case (1, 1) => m.m11 case (1, 2) => m.m12 case (1, 3) => m.m13
    case (2, 0) => m.m20 case (2, 1) => m.m21 case (2, 2) => m.m22 case (2, 3) => m.m23
    case (3, 0) => m.m30 case (3, 1) => m.m31 case (3, 2) => m.m32 case _ => m.m33
  }

  /** The engine's GetColumn: all four rows of one column. */
  function Column(m: Matrix4x4, column: nat): Vector4
    requires column < 4
  {
    Vector4(Get(m, 0, column), Get(m, 1, column), Get(m, 2, column), Get(m, 3, column))
  }

  /** The first three components of a column. */
  function Xyz(v: Vector4): Vector3 {
    Vector3(v.x, v.y, v.z)
  }

  function SquaredLength4(v: Vector4): real {
    Square(v.x) + Square(v.y) + Square(v.z) + Square(v.w)
  }

  /** The engine's constructor from four columns. */
  function FromColumns(c0: Vector4, c1: Vector4, c2: Vector4, c3: Vector4): (m: Matrix4x4)
    ensures Column(m, 0) == c0 && Column(m, 1) == c1 && Column(m, 2) == c2 && Column(m, 3) == c3
  {
    Matrix4x4(
      c0.x, c1.x, c2.x, c3.x,
      c0.y, c1.y, c2.y, c3.y,
      c0.z, c1.z, c2.z, c3.z,
      c0.w, c1.w, c2.w, c3.w)
  }

  /** The local x axis: rows 0 to 2 of column 0. */
  function ExtractX(matrix: Matrix4x4): (x: Vector3)
    ensures x == Xyz(Column(matrix, 0))
  {
    Vector3(matrix.m00, matrix.m10, matrix.m20)
  }

  /** The local y axis: rows 0 to 2 of column 1. */
  function ExtractY(matrix: Matrix4x4): (y: Vector3)
    ensures y == Xyz(Column(matrix, 1))
  {
    Vector3(matrix.m01, matrix.m11, matrix.m21)
  }

  /** The local z axis: rows 0 to 2 of column 2. */
  function ExtractZ(matrix: Matrix4x4): (z: Vector3)
    ensures z == Xyz(Column(matrix, 2))
  {
    Vector3(matrix.m02, matrix.m12, matrix.m22)
  }

  /** The translation: rows 0 to 2 of column 3. */
  function ExtractPosition(matrix: Matrix4x4): (position: Vector3)
    ensures position == Xyz(Column(matrix, 3))
  {
    Vector3(matrix.m03, matrix.m13, matrix.m23)
  }

  /** The forward and upwards vectors ExtractRotation hands to the engine's LookRotation
      (the quaternion itself is computed by the engine). */
  function ExtractRotationArguments(matrix: Matrix4x4): (r: (Vector3, Vector3))
    ensures r.0 == ExtractZ(matrix) && r.1 == ExtractY(matrix)
  {
    (Vector3(matrix.m02, matrix.m12, matrix.m22), Vector3(matrix.m01, matrix.m11, matrix.m21))
  }

  /** ExtractScale in squared form: each component is the squared magnitude of the whole
      four-entry column, bottom row included. */
  function ExtractScaleSquared(matrix: Matrix4x4): (s: Vector3)
    ensures s.x == SquaredLength4(Column(matrix, 0)) && s.x >= 0.0
    ensures s.y == SquaredLength4(Column(matrix, 1)) && s.y >= 0.0
    ensures s.z == SquaredLength4(Column(matrix, 2)) && s.z >= 0.0
  {
    Vector3(
      SquaredLength4(Vector4(matrix.m00, matrix.m10, matrix.m20, matrix.m30)),
      SquaredLength4(Vector4(matrix.m01, matrix.m11, matrix.m21, matrix.m31)),
      SquaredLength4(Vector4(matrix.m02, matrix.m12, matrix.m22, matrix.m32)))
  }

  /** Extracting from a matrix assembled from columns gives those columns back. */
  lemma ExtractFromColumns(c0: Vector4, c1: Vector4, c2: Vector4, c3: Vector4)
    ensures ExtractX(FromColumns(c0, c1, c2, c3)) == Xyz(c0)
    ensures ExtractY(FromColumns(c0, c1, c2, c3)) == Xyz(c1)
    ensures ExtractZ(FromColumns(c0, c1, c2, c3)) == Xyz(c2)
    ensures ExtractPosition(FromColumns(c0, c1, c2, c3)) == Xyz(c3)
  {
  }

  /** For an affine matrix (bottom row 0, 0, 0, w) the squared scale is the squared length
      of the extracted axis. */
  lemma AffineScaleIsAxisLength(matrix: Matrix4x4)
    requires matrix.m30 == 0.0 && matrix.m31 == 0.0 && matrix.m32 == 0.0
    ensures ExtractScaleSquared(matrix) ==
      Vector3(SquaredLength(ExtractX(matrix)), SquaredLength(ExtractY(matrix)), SquaredLength(ExtractZ(matrix)))
  {
  }

  /** SetPosition as written: the matrix arrives by value, so the three assignments change
      a copy. The copy is the out-parameter here only so that the contract can say where the
      writes go; the source's method returns nothing, and every caller drops it. */
  method SetPosition(matrix: Matrix4x4, x: real, y: real, z: real) returns (copy: Matrix4x4)
    ensures copy == WithPosition(matrix, Vector3(x, y, z))
    ensures ExtractPosition(copy) == Vector3(x, y, z)
  {
    copy := matrix;
    copy := copy.(m03 := x);
    copy := copy.(m13 := y);
    copy := copy.(m23 := z);
  }

  /** The Vector3 overload, with the same by-value parameter and the same dropped copy. */
  method SetPositionFromVector(matrix: Matrix4x4, position: Vector3) returns (copy: Matrix4x4)
    ensures copy == WithPosition(matrix, position)
    ensures ExtractPosition(copy) == position
  {
    copy := matrix;
    copy := copy.(m03 := position.x);
    copy := copy.(m13 := position.y);
    copy := copy.(m23 := position.z);
  }

  /** What a caller holds after calling either overload: its matrix, unchanged, so
      ExtractPosition still returns the old translation whatever position was asked for. */
  method MatrixAfterSetPosition(matrix: Matrix4x4, position: Vector3) returns (after: Matrix4x4)
    ensures after == matrix
    ensures ExtractPosition(after) == ExtractPosition(matrix)
    ensures position != ExtractPosition(matrix) ==> ExtractPosition(after) != position
  {
    after := matrix;
    var _ := SetPosition(after, position.x, position.y, position.z);
    var _ := SetPositionFromVector(after, position);
  }

  /** The evidently intended SetPosition: the matrix with its translation replaced. */
  function WithPosition(matrix: Matrix4x4, position: Vector3): (m: Matrix4x4)
    ensures ExtractPosition(m) == position
    ensures ExtractX(m) == ExtractX(matrix) && ExtractY(m) == ExtractY(matrix) && ExtractZ(m) == ExtractZ(matrix)
    ensures Get(m, 3, 0) == Get(matrix, 3, 0) && Get(m, 3, 1) == Get(matrix, 3, 1)
    ensures Get(m, 3, 2) == Get(matrix, 3, 2) && Get(m, 3, 3) == Get(matrix, 3, 3)
  {
    matrix.(m03 := position.x, m13 := position.y, m23 := position.z)
  }

  /** Setting the position that was read leaves the matrix as it was; setting any other
      position changes it, which the as-written SetPosition never does. */
  lemma WithPositionRoundTrip(matrix: Matrix4x4, position: Vector3)
    ensures WithPosition(matrix, ExtractPosition(matrix)) == matrix
    ensures position != ExtractPosition(matrix) ==> WithPosition(matrix, position) != matrix
  {
    if position != ExtractPosition(matrix) {
      assert ExtractPosition(WithPosition(matrix, position)) != ExtractPosition(matrix);
    }
  }
}
