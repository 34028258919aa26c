/**
 * R^3 algebra of the point class pt3D and the free functions beside it:
 * points are values, the 3x3 matrix that `inverse` overwrites is an array.
 * Doubles are modelled as reals, so every identity below is exact.
 */
module Pt {
  /** space dimension */
  const DIM: nat := 3

  /** coordinate selector; IdxUndef stands for the value -1 of the enum */
  datatype Index = IdxUndef | IdxX | IdxY | IdxZ

  datatype Pt3 = Pt3(x: real, y: real, z: real)

  const Zero: Pt3 := Pt3(0.0, 0.0, 0.0)

  /** the coordinate picked by a defined index */
  function Coord(p: Pt3, idx: Index): real
    requires idx != IdxUndef
  {
    match idx
    case IdxX => p.x
    case IdxY => p.y
    case IdxZ => p.z
  }

  function Abs(x: real): real { if x < 0.0 then -x else x }

  /** sign(x) is 1.0 for a positive x and -1.0 otherwise, zero included */
  function Sign(x: real): (r: real)
    ensures r == 1.0 <==> x > 0.0
    ensures r == -1.0 <==> x <= 0.0
  {
    if x > 0.0 then 1.0 else -1.0
  }

  /** sign(x) * |x| == x, zero included */
  lemma SignTimesAbs(x: real)
    ensures Sign(x) * Abs(x) == x
  {
  }

  function Sq(x: real): (r: real)
    ensures r >= 0.0
  {
    x * x
  }

  /** scalar product */
  function PScal(a: Pt3, b: Pt3): real
  {
    a.x * b.x + a.y * b.y + a.z * b.z
  }

  /** the unit vector along a coordinate, or the zero vector for IdxUndef */
  function FromIndex(idx: Index): (r: Pt3)
    ensures idx == IdxUndef ==> r == Zero
    ensures idx != IdxUndef ==> Coord(r, idx) == 1.0
    ensures forall j: Index :: j != IdxUndef && j != idx ==> Coord(r, j) == 0.0
  {
    match idx
    case IdxUndef => Zero
    case IdxX => Pt3(1.0, 0.0, 0.0)
    case IdxY => Pt3(0.0, 1.0, 0.0)
    case IdxZ => Pt3(0.0, 0.0, 1.0)
  }

  /** the unit vectors built from a coordinate index have norm 1 */
  lemma FromIndexIsUnit(idx: Index)
    requires idx != IdxUndef
    ensures PScal(FromIndex(idx), FromIndex(idx)) == 1.0
  {
  }

  /** operator+ */
  function Add(a: Pt3, b: Pt3): (r: Pt3)
  {
    Pt3(a.x + b.x, a.y + b.y, a.z + b.z)
  }

  /** operator-: subtracting b is undone by adding it back */
  function Sub(a: Pt3, b: Pt3): (r: Pt3)
    ensures Add(r, b) == a
  {
    Pt3(a.x - b.x, a.y - b.y, a.z - b.z)
  }

  /** left scalar product a * b: parallel to b, and scaling the projections */
  function ScaleLeft(a: real, b: Pt3): (r: Pt3)
  {
    Pt3(a * b.x, a * b.y, a * b.z)
  }

  /** operator+ is commutative and associative, with the zero vector as neutral element */
  lemma AddCommutativeMonoid(a: Pt3, b: Pt3, c: Pt3)
    ensures Add(a, b) == Add(b, a)
    ensures Add(Add(a, b), c) == Add(a, Add(b, c))
    ensures Add(a, Zero) == a
  {
  }

  /** regrouping a sum of four vectors */
  lemma AddRegroup(a: Pt3, b: Pt3, c: Pt3, d: Pt3)
    ensures Add(Add(a, b), Add(c, d)) == Add(Add(a, c), Add(b, d))
  {
  }

  /** the left scalar product distributes over a sum of vectors */
  lemma ScaleLeftAdd(c: real, a: Pt3, b: Pt3)
    ensures ScaleLeft(c, Add(a, b)) == Add(ScaleLeft(c, a), ScaleLeft(c, b))
  {
  }

  /** the left scalar product distributes over a sum of scalars */
  lemma ScaleLeftSum(a: real, b: real, p: Pt3)
    ensures ScaleLeft(a + b, p) == Add(ScaleLeft(a, p), ScaleLeft(b, p))
  {
  }

  /** scaling a vector scales its scalar product with any other */
  lemma PScalScaleLeft(c: real, a: Pt3, b: Pt3)
    ensures PScal(ScaleLeft(c, a), b) == c * PScal(a, b)
  {
  }

  /** right scalar product a * b: the same vector as the left one */
  function ScaleRight(a: Pt3, b: real): (r: Pt3)
    ensures r == ScaleLeft(b, a)
  {
    Pt3(b * a.x, b * a.y, b * a.z)
  }

  /** division by a non-zero scalar, undone by the left scalar product */
  function Div(a: Pt3, b: real): (r: Pt3)
    requires b != 0.0
    ensures ScaleLeft(b, r) == a
  {
    Pt3(a.x / b, a.y / b, a.z / b)
  }

  /** vector product operator*(pt3D, pt3D): orthogonal to both factors */
  function Cross(a: Pt3, b: Pt3): (r: Pt3)
    ensures PScal(a, r) == 0.0 && PScal(b, r) == 0.0
  {
    Pt3(a.y * b.z - a.z * b.y, a.z * b.x - a.x * b.z, a.x * b.y - a.y * b.x)
  }

  /** component by component product, whose coordinates add up to the scalar product */
  function PDirect(a: Pt3, b: Pt3): (r: Pt3)
    ensures r.x + r.y + r.z == PScal(a, b)
  {
    Pt3(a.x * b.x, a.y * b.y, a.z * b.z)
  }

  /** component by component cube */
  function DirectCube(a: Pt3): (r: Pt3)
  {
    Pt3(a.x * a.x * a.x, a.y * a.y * a.y, a.z * a.z * a.z)
  }

  /** the direct cube is the direct product of a with its direct square */
  lemma DirectCubeIsDirectProduct(a: Pt3)
    ensures DirectCube(a) == PDirect(a, PDirect(a, a))
  {
  }

  /** scalar triple product pScal(a * b, c) */
  function PTriple(a: Pt3, b: Pt3, c: Pt3): real
  {
    PScal(Cross(a, b), c)
  }

  /** true when the three pairwise scalar products are below precision in magnitude */
  function IsOrthogonal(a: Pt3, b: Pt3, c: Pt3, precision: real): (r: bool)
    ensures r <==> Abs(PScal(a, b)) < precision && Abs(PScal(b, c)) < precision
                   && Abs(PScal(c, a)) < precision
  {
    var val := Abs(PScal(a, b)) < precision;
    var val2 := val && Abs(PScal(b, c)) < precision;
    val2 && Abs(PScal(c, a)) < precision
  }

  /** the largest signed coordinate */
  function MaxLength(p: Pt3): (r: real)
    ensures r >= p.x && r >= p.y && r >= p.z
    ensures r == p.x || r == p.y || r == p.z
  {
    var yz := if p.y < p.z then p.z else p.y;
    if p.x < yz then yz else p.x
  }

  /** a 3x3 matrix by rows, the value of a `double M[DIM][DIM]` */
  datatype Mat3 = Mat3(r0: Pt3, r1: Pt3, r2: Pt3)

  predicate Is3x3(M: array2<real>) { M.Length0 == 3 && M.Length1 == 3 }

  /** the value held by a 3x3 array */
  function Snap(M: array2<real>): Mat3
    reads M
    requires Is3x3(M)
  {
    Mat3(Pt3(M[0, 0], M[0, 1], M[0, 2]),
         Pt3(M[1, 0], M[1, 1], M[1, 2]),
         Pt3(M[2, 0], M[2, 1], M[2, 2]))
  }

  /** det(M) on the nine entries, expanded along the first row */
  function Det9(m00: real, m01: real, m02: real,
                 m10: real, m11: real, m12: real,
                 m20: real, m21: real, m22: real): real
  {
    m00 * (m11 * m22 - m12 * m21) - m01 * (m10 * m22 - m12 * m20) + m02 * (m10 * m21 - m11 * m20)
  }

  /** det(M) */
  function Det(m: Mat3): (r: real)
    ensures r == PTriple(m.r0, m.r1, m.r2)
  {
    Det9(m.r0.x, m.r0.y, m.r0.z, m.r1.x, m.r1.y, m.r1.z, m.r2.x, m.r2.y, m.r2.z)
  }

  /** the matrix `inverse` leaves in M, on the nine entries: every cofactor divided by detM */
  function Cofactors9(m00: real, m01: real, m02: real,
                       m10: real, m11: real, m12: real,
                       m20: real, m21: real, m22: real, detM: real): Mat3
    requires detM != 0.0
  {
    Mat3(Pt3((m11 * m22 - m12 * m21) / detM, (m02 * m21 - m01 * m22) / detM, (m01 * m12 - m02 * m11) / detM),
         Pt3((m12 * m20 - m10 * m22) / detM, (m00 * m22 - m02 * m20) / detM, (m02 * m10 - m00 * m12) / detM),
         Pt3((m10 * m21 - m11 * m20) / detM, (m01 * m20 - m00 * m21) / detM, (m00 * m11 - m01 * m10) / detM))
  }

  /** the matrix `inverse` leaves in a matrix m */
  function CofactorsOver(m: Mat3, detM: real): Mat3
    requires detM != 0.0
  {
    Cofactors9(m.r0.x, m.r0.y, m.r0.z, m.r1.x, m.r1.y, m.r1.z, m.r2.x, m.r2.y, m.r2.z, detM)
  }

  /** c * m and m * c are both the identity, written out entry by entry: the first nine
      equations are the rows of c * m, the last nine the rows of m * c */
  predicate InverseEntries(c00: real, c01: real, c02: real,
                           c10: real, c11: real, c12: real,
                           c20: real, c21: real, c22: real,
                           m00: real, m01: real, m02: real,
                           m10: real, m11: real, m12: real,
                           m20: real, m21: real, m22: real)
  {
    c00 * m00 + c01 * m10 + c02 * m20 == 1.0
    && c00 * m01 + c01 * m11 + c02 * m21 == 0.0
    && c00 * m02 + c01 * m12 + c02 * m22 == 0.0
    && c10 * m00 + c11 * m10 + c12 * m20 == 0.0
    && c10 * m01 + c11 * m11 + c12 * m21 == 1.0
    && c10 * m02 + c11 * m12 + c12 * m22 == 0.0
    && c20 * m00 + c21 * m10 + c22 * m20 == 0.0
    && c20 * m01 + c21 * m11 + c22 * m21 == 0.0
    && c20 * m02 + c21 * m12 + c22 * m22 == 1.0
    && m00 * c00 + m01 * c10 + m02 * c20 == 1.0
    && m00 * c01 + m01 * c11 + m02 * c21 == 0.0
    && m00 * c02 + m01 * c12 + m02 * c22 == 0.0
    && m10 * c00 + m11 * c10 + m12 * c20 == 0.0
    && m10 * c01 + m11 * c11 + m12 * c21 == 1.0
    && m10 * c02 + m11 * c12 + m12 * c22 == 0.0
    && m20 * c00 + m21 * c10 + m22 * c20 == 0.0
    && m20 * c01 + m21 * c11 + m22 * c21 == 0.0
    && m20 * c02 + m21 * c12 + m22 * c22 == 1.0
  }

  /** c is a two-sided inverse of m */
  predicate IsTwoSidedInverse(c: Mat3, m: Mat3)
  {
    InverseEntries(c.r0.x, c.r0.y, c.r0.z, c.r1.x, c.r1.y, c.r1.z, c.r2.x, c.r2.y, c.r2.z,
                   m.r0.x, m.r0.y, m.r0.z, m.r1.x, m.r1.y, m.r1.z, m.r2.x, m.r2.y, m.r2.z)
  }

  /** the nine quotients `inverse` assigns are the entries of Cofactors9 */
  lemma Cofactors9Entries(m00: real, m01: real, m02: real, m10: real, m11: real, m12: real,
                          m20: real, m21: real, m22: real, detM: real,
                          c00: real, c01: real, c02: real, c10: real, c11: real, c12: real,
                          c20: real, c21: real, c22: real)
    requires detM != 0.0
    requires c00 == (m11 * m22 - m12 * m21) / detM && c01 == (m02 * m21 - m01 * m22) / detM && c02 == (m01 * m12 - m02 * m11) / detM
    requires c10 == (m12 * m20 - m10 * m22) / detM && c11 == (m00 * m22 - m02 * m20) / detM && c12 == (m02 * m10 - m00 * m12) / detM
    requires c20 == (m10 * m21 - m11 * m20) / detM && c21 == (m01 * m20 - m00 * m21) / detM && c22 == (m00 * m11 - m01 * m10) / detM
    ensures Cofactors9(m00, m01, m02, m10, m11, m12, m20, m21, m22, detM)
            == Mat3(Pt3(c00, c01, c02), Pt3(c10, c11, c12), Pt3(c20, c21, c22))
  {
  }

  /** `inverse` overwrites M in place; when detM is det(M) the result is M^-1 on both sides */
  method Inverse(M: array2<real>, detM: real)
    requires Is3x3(M)
    requires detM != 0.0
    modifies M
    ensures Snap(M) == CofactorsOver(old(Snap(M)), detM)
    ensures detM == Det(old(Snap(M))) ==> IsTwoSidedInverse(Snap(M), old(Snap(M)))
  {
    ghost var m := Snap(M);
    var m00, m01, m02 := M[0, 0], M[0, 1], M[0, 2];
    var m10, m11, m12 := M[1, 0], M[1, 1], M[1, 2];
    var m20, m21, m22 := M[2, 0], M[2, 1], M[2, 2];
    M[0, 0] := (m11 * m22 - m12 * m21) / detM;
    M[0, 1] := (m02 * m21 - m01 * m22) / detM;
    M[0, 2] := (m01 * m12 - m02 * m11) / detM;
    M[1, 0] := (m12 * m20 - m10 * m22) / detM;
    M[1, 1] := (m00 * m22 - m02 * m20) / detM;
    M[1, 2] := (m02 * m10 - m00 * m12) / detM;
    M[2, 0] := (m10 * m21 - m11 * m20) / detM;
    M[2, 1] := (m01 * m20 - m00 * m21) / detM;
    M[2, 2] := (m00 * m11 - m01 * m10) / detM;
    Cofactors9Entries(m00, m01, m02, m10, m11, m12, m20, m21, m22, detM,
                      M[0, 0], M[0, 1], M[0, 2], M[1, 0], M[1, 1], M[1, 2], M[2, 0], M[2, 1], M[2, 2]);
    if detM == Det(m) {
      InverseIsInverse(m);
    }
  }

  // The cofactor identities on plain entries, one row of c * m or one column of
  // m * c at a time, where c holds the cofactors of m over d = det(m).

  lemma InverseLeftRow0(m00: real, m01: real, m02: real,
                        m10: real, m11: real, m12: real,
                        m20: real, m21: real, m22: real,
                        c0: real, c1: real, c2: real, d: real)
    requires d == Det9(m00, m01, m02, m10, m11, m12, m20, m21, m22) && d != 0.0
    requires c0 == (m11 * m22 - m12 * m21) / d && c1 == (m02 * m21 - m01 * m22) / d && c2 == (m01 * m12 - m02 * m11) / d
    ensures c0 * m00 + c1 * m10 + c2 * m20 == 1.0
    ensures c0 * m01 + c1 * m11 + c2 * m21 == 0.0
    ensures c0 * m02 + c1 * m12 + c2 * m22 == 0.0
  {
  }

  lemma InverseLeftRow1(m00: real, m01: real, m02: real,
                        m10: real, m11: real, m12: real,
                        m20: real, m21: real, m22: real,
                        c0: real, c1: real, c2: real, d: real)
    requires d == Det9(m00, m01, m02, m10, m11, m12, m20, m21, m22) && d != 0.0
    requires c0 == (m12 * m20 - m10 * m22) / d && c1 == (m00 * m22 - m02 * m20) / d && c2 == (m02 * m10 - m00 * m12) / d
    ensures c0 * m00 + c1 * m10 + c2 * m20 == 0.0
    ensures c0 * m01 + c1 * m11 + c2 * m21 == 1.0
    ensures c0 * m02 + c1 * m12 + c2 * m22 == 0.0
  {
  }

  lemma InverseLeftRow2(m00: real, m01: real, m02: real,
                        m10: real, m11: real, m12: real,
                        m20: real, m21: real, m22: real,
                        c0: real, c1: real, c2: real, d: real)
    requires d == Det9(m00, m01, m02, m10, m11, m12, m20, m21, m22) && d != 0.0
    requires c0 == (m10 * m21 - m11 * m20) / d && c1 == (m01 * m20 - m00 * m21) / d && c2 == (m00 * m11 - m01 * m10) / d
    ensures c0 * m00 + c1 * m10 + c2 * m20 == 0.0
    ensures c0 * m01 + c1 * m11 + c2 * m21 == 0.0
    ensures c0 * m02 + c1 * m12 + c2 * m22 == 1.0
  {
  }

  lemma InverseRightCol0(m00: real, m01: real, m02: real,
                         m10: real, m11: real, m12: real,
                         m20: real, m21: real, m22: real,
                         c0: real, c1: real, c2: real, d: real)
    requires d == Det9(m00, m01, m02, m10, m11, m12, m20, m21, m22) && d != 0.0
    requires c0 == (m11 * m22 - m12 * m21) / d && c1 == (m12 * m20 - m10 * m22) / d && c2 == (m10 * m21 - m11 * m20) / d
    ensures m00 * c0 + m01 * c1 + m02 * c2 == 1.0
    ensures m10 * c0 + m11 * c1 + m12 * c2 == 0.0
    ensures m20 * c0 + m21 * c1 + m22 * c2 == 0.0
  {
  }

  lemma InverseRightCol1(m00: real, m01: real, m02: real,
                         m10: real, m11: real, m12: real,
                         m20: real, m21: real, m22: real,
                         c0: real, c1: real, c2: real, d: real)
    requires d == Det9(m00, m01, m02, m10, m11, m12, m20, m21, m22) && d != 0.0
    requires c0 == (m02 * m21 - m01 * m22) / d && c1 == (m00 * m22 - m02 * m20) / d && c2 == (m01 * m20 - m00 * m21) / d
    ensures m00 * c0 + m01 * c1 + m02 * c2 == 0.0
    ensures m10 * c0 + m11 * c1 + m12 * c2 == 1.0
    ensures m20 * c0 + m21 * c1 + m22 * c2 == 0.0
  {
  }

  lemma InverseRightCol2(m00: real, m01: real, m02: real,
                         m10: real, m11: real, m12: real,
                         m20: real, m21: real, m22: real,
                         c0: real, c1: real, c2: real, d: real)
    requires d == Det9(m00, m01, m02, m10, m11, m12, m20, m21, m22) && d != 0.0
    requires c0 == (m01 * m12 - m02 * m11) / d && c1 == (m02 * m10 - m00 * m12) / d && c2 == (m00 * m11 - m01 * m10) / d
    ensures m00 * c0 + m01 * c1 + m02 * c2 == 0.0
    ensures m10 * c0 + m11 * c1 + m12 * c2 == 0.0
    ensures m20 * c0 + m21 * c1 + m22 * c2 == 1.0
  {
  }

  /** the cofactors over the determinant invert the matrix, on plain entries */
  lemma CofactorsInvert(m00: real, m01: real, m02: real,
                        m10: real, m11: real, m12: real,
                        m20: real, m21: real, m22: real,
                        c00: real, c01: real, c02: real,
                        c10: real, c11: real, c12: real,
                        c20: real, c21: real, c22: real, d: real)
    requires d == Det9(m00, m01, m02, m10, m11, m12, m20, m21, m22) && d != 0.0
    requires Mat3(Pt3(c00, c01, c02), Pt3(c10, c11, c12), Pt3(c20, c21, c22)) == Cofactors9(m00, m01, m02, m10, m11, m12, m20, m21, m22, d)
    ensures InverseEntries(c00, c01, c02, c10, c11, c12, c20, c21, c22,
                           m00, m01, m02, m10, m11, m12, m20, m21, m22)
  {
    InverseLeftRow0(m00, m01, m02, m10, m11, m12, m20, m21, m22, c00, c01, c02, d);
    InverseLeftRow1(m00, m01, m02, m10, m11, m12, m20, m21, m22, c10, c11, c12, d);
    InverseLeftRow2(m00, m01, m02, m10, m11, m12, m20, m21, m22, c20, c21, c22, d);
    InverseRightCol0(m00, m01, m02, m10, m11, m12, m20, m21, m22, c00, c10, c20, d);
    InverseRightCol1(m00, m01, m02, m10, m11, m12, m20, m21, m22, c01, c11, c21, d);
    InverseRightCol2(m00, m01, m02, m10, m11, m12, m20, m21, m22, c02, c12, c22, d);
  }

  /** the cofactor matrix over det(m) is a two-sided inverse of m */
  lemma InverseIsInverse(m: Mat3)
    requires Det(m) != 0.0
    ensures IsTwoSidedInverse(CofactorsOver(m, Det(m)), m)
  {
    var c := CofactorsOver(m, Det(m));
    CofactorsInvert(m.r0.x, m.r0.y, m.r0.z, m.r1.x, m.r1.y, m.r1.z, m.r2.x, m.r2.y, m.r2.z,
                    c.r0.x, c.r0.y, c.r0.z, c.r1.x, c.r1.y, c.r1.z, c.r2.x, c.r2.y, c.r2.z, Det(m));
  }

  /** the scalar square of a point is the sum of the squares of its coordinates,
      hence non-negative, and it vanishes on the zero vector */
  lemma PScalSquare(a: Pt3)
    ensures PScal(a, a) == Sq(a.x) + Sq(a.y) + Sq(a.z)
    ensures PScal(a, a) >= 0.0
    ensures a == Zero ==> PScal(a, a) == 0.0
  {
  }

  /** the scalar product is additive in its left argument */
  lemma PScalAddLeft(a: Pt3, b: Pt3, c: Pt3)
    ensures PScal(Add(a, b), c) == PScal(a, c) + PScal(b, c)
  {
  }

  /** the scalar product is additive in its left argument, for differences too */
  lemma PScalSubLeft(a: Pt3, b: Pt3, c: Pt3)
    ensures PScal(Sub(a, b), c) == PScal(a, c) - PScal(b, c)
  {
  }

  /** the vector product is anticommutative and vanishes on equal factors */
  lemma CrossAntiCommutative(a: Pt3, b: Pt3)
    ensures Cross(a, b) == ScaleLeft(-1.0, Cross(b, a))
    ensures Cross(a, a) == Zero
  {
  }

  /** the triple product is invariant under cyclic permutation of its arguments */
  lemma TripleCyclic(a: Pt3, b: Pt3, c: Pt3)
    ensures PTriple(a, b, c) == PTriple(b, c, a)
  {
  }

  /** exchanging two arguments of the triple product changes its sign */
  lemma TripleSwap(a: Pt3, b: Pt3, c: Pt3)
    ensures PTriple(a, b, c) == -PTriple(a, c, b)
  {
  }

  /** exactly orthogonal vectors pass isOrthogonal for any positive precision,
      and the test does not depend on the order of the three vectors */
  lemma IsOrthogonalProperties(a: Pt3, b: Pt3, c: Pt3, precision: real)
    ensures precision > 0.0 && PScal(a, b) == 0.0 && PScal(b, c) == 0.0 && PScal(c, a) == 0.0
            ==> IsOrthogonal(a, b, c, precision)
    ensures IsOrthogonal(a, b, c, precision) == IsOrthogonal(b, c, a, precision)
    ensures IsOrthogonal(a, b, c, precision) == IsOrthogonal(b, a, c, precision)
  {
  }
}
