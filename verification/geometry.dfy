/** Vectors and 4x4 matrices as the node reads them from the host. */
module Geometry {

  /** A point or direction in world space. */
  datatype Vec3 = Vec3(x: real, y: real, z: real)

  function Sub(a: Vec3, b: Vec3): Vec3 {
    Vec3(a.x - b.x, a.y - b.y, a.z - b.z)
  }

  /** Sum of the squared components: the square of the Euclidean length. */
  function SqNorm(v: Vec3): real {
    v.x * v.x + v.y * v.y + v.z * v.z
  }

  /**
    * `length` gives `v` its Euclidean length: a non-negative value whose square is
    * the sum of the squared components. Real square roots are not definable here,
    * so vector lengths are supplied by the caller and characterised by this
    * predicate on the vectors that are actually measured.
    */
  predicate EuclideanAt(length: Vec3 -> real, v: Vec3) {
    0.0 <= length(v) && length(v) * length(v) == SqNorm(v)
  }

  /** Squaring is strictly increasing on the non-negative reals. */
  lemma SquareStrictlyIncreasing(a: real, b: real)
    requires 0.0 <= a < b
    ensures a * a < b * b
  {
    calc {
      a * a;
    <=  { assert a * (b - a) >= 0.0; }
      a * b;
    <   { assert (b - a) * b > 0.0; }
      b * b;
    }
  }

  /** A non-negative square root is unique. */
  lemma RootUnique(a: real, b: real)
    requires 0.0 <= a && 0.0 <= b && a * a == b * b
    ensures a == b
  {
    if a < b {
      SquareStrictlyIncreasing(a, b);
    } else if b < a {
      SquareStrictlyIncreasing(b, a);
    }
  }

  /** The distance from a to b equals the distance from b to a. */
  lemma LengthSymmetric(length: Vec3 -> real, a: Vec3, b: Vec3)
    requires EuclideanAt(length, Sub(a, b)) && EuclideanAt(length, Sub(b, a))
    ensures length(Sub(a, b)) == length(Sub(b, a))
  {
    assert SqNorm(Sub(a, b)) == SqNorm(Sub(b, a));
    RootUnique(length(Sub(a, b)), length(Sub(b, a)));
  }

  /** A vector whose squared components sum to d * d, for d >= 0, is d long. */
  lemma LengthFromSquare(length: Vec3 -> real, v: Vec3, d: real)
    requires EuclideanAt(length, v) && 0.0 <= d && SqNorm(v) == d * d
    ensures length(v) == d
  {
    RootUnique(length(v), d);
  }

  /** A 4x4 matrix of doubles, row-major as the host stores it. */
  type Matrix = m: seq<seq<real>> | |m| == 4 && forall i :: 0 <= i < 4 ==> |m[i]| == 4
    witness [[1.0, 0.0, 0.0, 0.0], [0.0, 1.0, 0.0, 0.0], [0.0, 0.0, 1.0, 0.0], [0.0, 0.0, 0.0, 1.0]]

  /** The translation part of a matrix: entries [3][0], [3][1], [3][2]. */
  function Translation(m: Matrix): Vec3 {
    Vec3(m[3][0], m[3][1], m[3][2])
  }

  /** `m` with entry [i][j] replaced by `x`. */
  function SetEntry(m: Matrix, i: nat, j: nat, x: real): Matrix
    requires i < 4 && j < 4
  {
    m[i := m[i][j := x]]
  }

  /** Writing any entry outside [3][0..2] leaves the translation as it was. */
  lemma TranslationIgnoresOtherEntries(m: Matrix, i: nat, j: nat, x: real)
    requires i < 4 && j < 4 && (i != 3 || j == 3)
    ensures Translation(SetEntry(m, i, j, x)) == Translation(m)
  {
  }
}
