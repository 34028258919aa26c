/**
 * Tetrahedral elements (tetra.cpp): the Jacobian of the map from the
 * reference tetrahedron, the initialisation of the shape-function gradients
 * and quadrature weights, the orientation fix of `calc_vol`, the copy of the
 * corner coordinates done by `getNod`, and the way `integrales` accumulates
 * the exchange and lumped gyroscopic terms into the local matrix AE.
 *
 * The constants of the reference element (the gradients `dadu`, the weights
 * `pds` and the number NPI of quadrature points) come from a header that is
 * not part of this model: they are parameters here.
 */
module Tetra {
  import opened Pt
  import opened Nodes

  /** number of summits of a tetrahedron */
  const N: nat := 4

  /** the node indices of an element designate nodes of the mesh */
  predicate IndicesIn(nodes: seq<Node>, ind: seq<int>)
  {
    |ind| == N && forall k :: 0 <= k < N ==> 0 <= ind[k] < |nodes|
  }

  /** position of corner k */
  function Corner(nodes: seq<Node>, ind: seq<int>, k: nat): Pt3
    reads nodes
    requires IndicesIn(nodes, ind) && k < N
  {
    nodes[ind[k]].p
  }

  /** the edge matrix: column c holds p_{c+1} - p_0 */
  function EdgeMatrix(p0: Pt3, p1: Pt3, p2: Pt3, p3: Pt3): Mat3
  {
    Mat3(Pt3(p1.x - p0.x, p2.x - p0.x, p3.x - p0.x),
         Pt3(p1.y - p0.y, p2.y - p0.y, p3.y - p0.y),
         Pt3(p1.z - p0.z, p2.z - p0.z, p3.z - p0.z))
  }

  /** the edge matrix of an element of the mesh */
  function ElementEdges(nodes: seq<Node>, ind: seq<int>): Mat3
    reads nodes
    requires IndicesIn(nodes, ind)
  {
    EdgeMatrix(Corner(nodes, ind, 0), Corner(nodes, ind, 1), Corner(nodes, ind, 2), Corner(nodes, ind, 3))
  }

  /** signed volume ((p1 - p0) * (p2 - p0)) . (p3 - p0) / 6 */
  function SignedVolume(p0: Pt3, p1: Pt3, p2: Pt3, p3: Pt3): real
  {
    1.0 / 6.0 * PScal(Cross(Sub(p1, p0), Sub(p2, p0)), Sub(p3, p0))
  }

  /** the signed volume of an element of the mesh */
  function ElementVolume(nodes: seq<Node>, ind: seq<int>): real
    reads nodes
    requires IndicesIn(nodes, ind)
  {
    SignedVolume(Corner(nodes, ind, 0), Corner(nodes, ind, 1), Corner(nodes, ind, 2), Corner(nodes, ind, 3))
  }

  /** the Jacobian determinant is six times the signed volume */
  lemma DetIsSixVolumes(p0: Pt3, p1: Pt3, p2: Pt3, p3: Pt3)
    ensures Det(EdgeMatrix(p0, p1, p2, p3)) == 6.0 * SignedVolume(p0, p1, p2, p3)
  {
    var e1, e2, e3 := Sub(p1, p0), Sub(p2, p0), Sub(p3, p0);
    assert PScal(Cross(e1, e2), e3) == Det(EdgeMatrix(p0, p1, p2, p3));
  }

  /** exchanging the last two corners negates the signed volume */
  lemma SwapNegatesVolume(p0: Pt3, p1: Pt3, p2: Pt3, p3: Pt3)
    ensures SignedVolume(p0, p1, p3, p2) == -SignedVolume(p0, p1, p2, p3)
  {
    var e1, e2, e3 := Sub(p1, p0), Sub(p2, p0), Sub(p3, p0);
    TripleSwap(e1, e2, e3);
    var t := PTriple(e1, e2, e3);
    assert SignedVolume(p0, p1, p2, p3) == 1.0 / 6.0 * t;
    assert SignedVolume(p0, p1, p3, p2) == 1.0 / 6.0 * -t;
  }

  /** row vector g times matrix m, as `tiny::mult` computes `dadu * J` row by row */
  function RowTimes(g: Pt3, m: Mat3): Pt3
  {
    Pt3(g.x * m.r0.x + g.y * m.r1.x + g.z * m.r2.x,
        g.x * m.r0.y + g.y * m.r1.y + g.z * m.r2.y,
        g.x * m.r0.z + g.y * m.r1.z + g.z * m.r2.z)
  }

  /** the physical gradient of a shape function whose gradient on the
      reference element is g: g times the inverse of the Jacobian */
  function ShapeGradient(g: Pt3, m: Mat3): Pt3
    requires Det(m) != 0.0
  {
    RowTimes(g, CofactorsOver(m, Det(m)))
  }

  /** one coordinate of (g * c) * m: with k = g * c and e the column of c * m
      against (m0, m1, m2), k . (m0, m1, m2) is g . e */
  lemma RowTimesColumn(g0: real, g1: real, g2: real,
                       c00: real, c01: real, c02: real, c10: real, c11: real, c12: real,
                       c20: real, c21: real, c22: real, k0: real, k1: real, k2: real,
                       m0: real, m1: real, m2: real, e0: real, e1: real, e2: real)
    requires k0 == g0 * c00 + g1 * c10 + g2 * c20
    requires k1 == g0 * c01 + g1 * c11 + g2 * c21
    requires k2 == g0 * c02 + g1 * c12 + g2 * c22
    requires e0 == c00 * m0 + c01 * m1 + c02 * m2
    requires e1 == c10 * m0 + c11 * m1 + c12 * m2
    requires e2 == c20 * m0 + c21 * m1 + c22 * m2
    ensures k0 * m0 + k1 * m1 + k2 * m2 == g0 * e0 + g1 * e1 + g2 * e2
  {
    MulCongruence(m0, k0, g0 * c00 + g1 * c10 + g2 * c20);
    MulCongruence(m1, k1, g0 * c01 + g1 * c11 + g2 * c21);
    MulCongruence(m2, k2, g0 * c02 + g1 * c12 + g2 * c22);
    MulCongruence(g0, c00 * m0 + c01 * m1 + c02 * m2, e0);
    MulCongruence(g1, c10 * m0 + c11 * m1 + c12 * m2, e1);
    MulCongruence(g2, c20 * m0 + c21 * m1 + c22 * m2, e2);
  }

  lemma MulCongruence(a: real, b: real, b': real)
    requires b == b'
    ensures a * b == a * b'
  {
  }

  /** multiplying by a left inverse and then by the matrix gives g back */
  lemma RowTimesInverse(g: Pt3, c: Mat3, m: Mat3)
    requires IsTwoSidedInverse(c, m)
    ensures RowTimes(RowTimes(g, c), m) == g
  {
    var k := RowTimes(g, c);
    LeftInverseColumns(g.x, g.y, g.z, c.r0.x, c.r0.y, c.r0.z, c.r1.x, c.r1.y, c.r1.z,
                       c.r2.x, c.r2.y, c.r2.z, k.x, k.y, k.z,
                       m.r0.x, m.r0.y, m.r0.z, m.r1.x, m.r1.y, m.r1.z, m.r2.x, m.r2.y, m.r2.z);
  }

  /** RowTimesInverse on plain entries: c * m is the identity, k = g * c */
  lemma LeftInverseColumns(g0: real, g1: real, g2: real,
                           c00: real, c01: real, c02: real, c10: real, c11: real, c12: real,
                           c20: real, c21: real, c22: real, k0: real, k1: real, k2: real,
                           m00: real, m01: real, m02: real, m10: real, m11: real, m12: real,
                           m20: real, m21: real, m22: real)
    requires k0 == g0 * c00 + g1 * c10 + g2 * c20
    requires k1 == g0 * c01 + g1 * c11 + g2 * c21
    requires k2 == g0 * c02 + g1 * c12 + g2 * c22
    requires InverseEntries(c00, c01, c02, c10, c11, c12, c20, c21, c22,
                            m00, m01, m02, m10, m11, m12, m20, m21, m22)
    ensures k0 * m00 + k1 * m10 + k2 * m20 == g0
    ensures k0 * m01 + k1 * m11 + k2 * m21 == g1
    ensures k0 * m02 + k1 * m12 + k2 * m22 == g2
  {
    RowTimesColumn(g0, g1, g2, c00, c01, c02, c10, c11, c12, c20, c21, c22, k0, k1, k2,
                   m00, m10, m20, 1.0, 0.0, 0.0);
    RowTimesColumn(g0, g1, g2, c00, c01, c02, c10, c11, c12, c20, c21, c22, k0, k1, k2,
                   m01, m11, m21, 0.0, 1.0, 0.0);
    RowTimesColumn(g0, g1, g2, c00, c01, c02, c10, c11, c12, c20, c21, c22, k0, k1, k2,
                   m02, m12, m22, 0.0, 0.0, 1.0);
  }

  /** chain rule: the physical gradient times the Jacobian is the reference gradient */
  lemma ShapeGradientChainRule(g: Pt3, m: Mat3)
    requires Det(m) != 0.0
    ensures RowTimes(ShapeGradient(g, m), m) == g
  {
    InverseIsInverse(m);
    RowTimesInverse(g, CofactorsOver(m, Det(m)), m);
  }

  /** a table with N rows of NPI entries */
  predicate Shaped(t: seq<seq<real>>, npi: nat)
  {
    |t| == N && forall i :: 0 <= i < N ==> |t[i]| == npi
  }

  /** the inner loop of `init` on one table: column j receives vals, the other columns are kept */
  method SetColumn(t: seq<seq<real>>, npi: nat, j: nat, vals: seq<real>) returns (r: seq<seq<real>>)
    requires Shaped(t, npi) && j < npi && |vals| == N
    ensures Shaped(r, npi)
    ensures forall i :: 0 <= i < N ==> r[i][j] == vals[i]
    ensures forall i, k :: 0 <= i < N && 0 <= k < npi && k != j ==> r[i][k] == t[i][k]
  {
    r := t;
    var i := 0;
    while i < N
      invariant 0 <= i <= N && Shaped(r, npi)
      invariant forall i' :: 0 <= i' < i ==> r[i'][j] == vals[i']
      invariant forall i', k :: 0 <= i' < N && 0 <= k < npi && (k != j || i' >= i) ==> r[i'][k] == t[i'][k]
    {
      r := r[i := r[i][j := vals[i]]];
      i := i + 1;
    }
  }

  /** `tiny::mult(dadu, J^-1, da)`: row i of da is row i of dadu times inv */
  function Gradients(dadu: seq<Pt3>, inv: Mat3): (da: seq<Pt3>)
    ensures |da| == |dadu|
    ensures forall i :: 0 <= i < |dadu| ==> da[i] == RowTimes(dadu[i], inv)
  {
    if dadu == [] then [] else [RowTimes(dadu[0], inv)] + Gradients(dadu[1..], inv)
  }

  /** the coordinates of a sequence of points, one coordinate at a time */
  function Xs(ps: seq<Pt3>): (r: seq<real>)
    ensures |r| == |ps| && forall i :: 0 <= i < |ps| ==> r[i] == ps[i].x
  {
    if ps == [] then [] else [ps[0].x] + Xs(ps[1..])
  }

  function Ys(ps: seq<Pt3>): (r: seq<real>)
    ensures |r| == |ps| && forall i :: 0 <= i < |ps| ==> r[i] == ps[i].y
  {
    if ps == [] then [] else [ps[0].y] + Ys(ps[1..])
  }

  function Zs(ps: seq<Pt3>): (r: seq<real>)
    ensures |r| == |ps| && forall i :: 0 <= i < |ps| ==> r[i] == ps[i].z
  {
    if ps == [] then [] else [ps[0].z] + Zs(ps[1..])
  }

  // The part of `integrales` that fills AE. Rows and columns of AE are
  // numbered b * N + i: block b in 0..2 is a component of the magnetization,
  // i the summit.

  /** the block of row or column r */
  function Block(r: nat): (b: nat)
    requires r < 3 * N
    ensures b < 3
  {
    if r < N then 0 else if r < 2 * N then 1 else 2
  }

  /** the summit of row or column r */
  function Summit(r: nat): (i: nat)
    requires r < 3 * N
    ensures i < N
  {
    if r < N then r else if r < 2 * N then r - N else r - 2 * N
  }

  /** the values `integrales` reads: gradients, weights and shape functions of
      the element, and the magnetization u0 at its summits */
  datatype LocalData = LocalData(gx: seq<seq<real>>, gy: seq<seq<real>>, gz: seq<seq<real>>,
                                 w: seq<real>, a: seq<seq<real>>, uNod: seq<Pt3>, npi: nat)

  predicate WellFormed(d: LocalData)
  {
    Shaped(d.gx, d.npi) && Shaped(d.gy, d.npi) && Shaped(d.gz, d.npi) && |d.w| == d.npi
    && Shaped(d.a, d.npi) && |d.uNod| == N
  }

  /** grad a_i . grad a_j at quadrature point q */
  function DaiDaj(d: LocalData, i: nat, j: nat, q: nat): real
    requires WellFormed(d) && i < N && j < N && q < d.npi
  {
    d.gx[i][q] * d.gx[j][q] + d.gy[i][q] * d.gy[j][q] + d.gz[i][q] * d.gz[j][q]
  }

  /** the exchange term `contrib` of point q at entry (r, c): the same value in
      the three diagonal blocks, nothing outside them */
  function Exchange(d: LocalData, coef: real, q: nat, r: nat, c: nat): real
    requires WellFormed(d) && q < d.npi && r < 3 * N && c < 3 * N
  {
    if Block(r) == Block(c) then coef * DaiDaj(d, Summit(r), Summit(c), q) * d.w[q] else 0.0
  }

  /** the lumped terms of point q at entry (r, c): alfa * a_i * w on the
      diagonal and the components of u0 at summit i, with alternating signs,
      between the blocks of the same summit i */
  function Lumping(d: LocalData, alfa: real, q: nat, r: nat, c: nat): real
    requires WellFormed(d) && q < d.npi && r < 3 * N && c < 3 * N
  {
    var b1, i := Block(r), Summit(r);
    var b2, j := Block(c), Summit(c);
    if i != j then 0.0
    else
      var aiw := d.a[i][q] * d.w[q];
      var u := d.uNod[i];
      if b1 == b2 then alfa * aiw
      else if b1 == 0 && b2 == 2 then u.y * aiw
      else if b1 == 0 && b2 == 1 then -u.z * aiw
      else if b1 == 1 && b2 == 0 then u.z * aiw
      else if b1 == 1 && b2 == 2 then -u.x * aiw
      else if b1 == 2 && b2 == 1 then u.x * aiw
      else -u.y * aiw
  }

  /** the exchange terms of the first k quadrature points */
  function SumExchange(d: LocalData, coef: real, k: nat, r: nat, c: nat): real
    requires WellFormed(d) && k <= d.npi && r < 3 * N && c < 3 * N
  {
    if k == 0 then 0.0 else SumExchange(d, coef, k - 1, r, c) + Exchange(d, coef, k - 1, r, c)
  }

  /** the lumped terms of the first k quadrature points */
  function SumLumping(d: LocalData, alfa: real, k: nat, r: nat, c: nat): real
    requires WellFormed(d) && k <= d.npi && r < 3 * N && c < 3 * N
  {
    if k == 0 then 0.0 else SumLumping(d, alfa, k - 1, r, c) + Lumping(d, alfa, k - 1, r, c)
  }

  /** the exchange part of AE is symmetric */
  lemma {:induction false} SumExchangeSymmetric(d: LocalData, coef: real, k: nat, r: nat, c: nat)
    requires WellFormed(d) && k <= d.npi && r < 3 * N && c < 3 * N
    ensures SumExchange(d, coef, k, r, c) == SumExchange(d, coef, k, c, r)
  {
    if k > 0 {
      SumExchangeSymmetric(d, coef, k - 1, r, c);
    }
  }

  /** the exchange part of AE vanishes outside the diagonal blocks and is the
      same matrix in each of them */
  lemma {:induction false} SumExchangeBlocks(d: LocalData, coef: real, k: nat, r: nat, c: nat)
    requires WellFormed(d) && k <= d.npi && r < 3 * N && c < 3 * N
    ensures Block(r) != Block(c) ==> SumExchange(d, coef, k, r, c) == 0.0
    ensures Block(r) == Block(c) ==> SumExchange(d, coef, k, r, c) == SumExchange(d, coef, k, Summit(r), Summit(c))
  {
    if k > 0 {
      SumExchangeBlocks(d, coef, k - 1, r, c);
    }
  }

  /** the lumped part of AE only links the blocks of one summit, and inside a
      diagonal block it only touches the diagonal */
  lemma {:induction false} SumLumpingSameSummit(d: LocalData, alfa: real, k: nat, r: nat, c: nat)
    requires WellFormed(d) && k <= d.npi && r < 3 * N && c < 3 * N
    ensures Summit(r) != Summit(c) ==> SumLumping(d, alfa, k, r, c) == 0.0
    ensures Block(r) == Block(c) && r != c ==> SumLumping(d, alfa, k, r, c) == 0.0
  {
    if k > 0 {
      SumLumpingSameSummit(d, alfa, k - 1, r, c);
    }
  }

  /** the lumped part of AE is antisymmetric outside the diagonal blocks */
  lemma {:induction false} SumLumpingAntisymmetric(d: LocalData, alfa: real, k: nat, r: nat, c: nat)
    requires WellFormed(d) && k <= d.npi && r < 3 * N && c < 3 * N
    ensures Block(r) != Block(c) ==> SumLumping(d, alfa, k, r, c) == -SumLumping(d, alfa, k, c, r)
  {
    if k > 0 {
      SumLumpingAntisymmetric(d, alfa, k - 1, r, c);
    }
  }

  /** the lumped terms of point q in row r: at most three entries, in the
      columns of summit Summit(r) */
  function LumpingRow(d: LocalData, alfa: real, q: nat, r: nat): (Pt3)
    requires WellFormed(d) && q < d.npi && r < 3 * N
  {
    var i := Summit(r);
    Pt3(Lumping(d, alfa, q, r, i), Lumping(d, alfa, q, r, N + i), Lumping(d, alfa, q, r, 2 * N + i))
  }

  /** the lumped entries of row r are the three of LumpingRow */
  lemma LumpingInRow(d: LocalData, alfa: real, q: nat, r: nat, c: nat)
    requires WellFormed(d) && q < d.npi && r < 3 * N && c < 3 * N
    ensures var i, v := Summit(r), LumpingRow(d, alfa, q, r);
            Lumping(d, alfa, q, r, c) == (if c == i then v.x else if c == N + i then v.y
                                          else if c == 2 * N + i then v.z else 0.0)
  {
  }

  /** the three lumped entries v of row `row`, added in place in the columns of its summit */
  method AddRow(AE: array2<real>, d: LocalData, alfa: real, q: nat, row: nat, v: Pt3)
    requires WellFormed(d) && q < d.npi && row < 3 * N
    requires AE.Length0 == 3 * N && AE.Length1 == 3 * N
    requires v == LumpingRow(d, alfa, q, row)
    modifies AE
    ensures forall r, c :: 0 <= r < 3 * N && 0 <= c < 3 * N ==>
              AE[r, c] == old(AE[r, c]) + (if r == row then Lumping(d, alfa, q, r, c) else 0.0)
  {
    var i := Summit(row);
    AE[row, i] := AE[row, i] + v.x;
    AE[row, N + i] := AE[row, N + i] + v.y;
    AE[row, 2 * N + i] := AE[row, 2 * N + i] + v.z;
    forall c | 0 <= c < 3 * N
      ensures AE[row, c] == old(AE[row, c]) + Lumping(d, alfa, q, row, c)
    {
      LumpingInRow(d, alfa, q, row, c);
    }
  }

  /** the three rows of summit i hold alfa * a_i * w on the diagonal and the
      components of u0 at summit i times a_i * w, with the signs of the
      vector product */
  lemma LumpingRowsOfSummit(d: LocalData, alfa: real, q: nat, i: nat)
    requires WellFormed(d) && q < d.npi && i < N
    ensures var aiw, u := d.a[i][q] * d.w[q], d.uNod[i];
            LumpingRow(d, alfa, q, i) == Pt3(alfa * aiw, -u.z * aiw, u.y * aiw)
            && LumpingRow(d, alfa, q, N + i) == Pt3(u.z * aiw, alfa * aiw, -u.x * aiw)
            && LumpingRow(d, alfa, q, 2 * N + i) == Pt3(-u.y * aiw, u.x * aiw, alfa * aiw)
  {
  }

  /** the lumped terms of summit i at point q, added in place */
  method AddLumping(AE: array2<real>, d: LocalData, alfa: real, q: nat, i: nat)
    requires WellFormed(d) && q < d.npi && i < N
    requires AE.Length0 == 3 * N && AE.Length1 == 3 * N
    modifies AE
    ensures forall r, c :: 0 <= r < 3 * N && 0 <= c < 3 * N ==>
              AE[r, c] == old(AE[r, c]) + (if Summit(r) == i then Lumping(d, alfa, q, r, c) else 0.0)
  {
    var aiw := d.a[i][q] * d.w[q];
    var u := d.uNod[i];
    LumpingRowsOfSummit(d, alfa, q, i);
    AddRow(AE, d, alfa, q, i, Pt3(alfa * aiw, -u.z * aiw, u.y * aiw));
    AddRow(AE, d, alfa, q, N + i, Pt3(u.z * aiw, alfa * aiw, -u.x * aiw));
    AddRow(AE, d, alfa, q, 2 * N + i, Pt3(-u.y * aiw, u.x * aiw, alfa * aiw));
  }

  /** the exchange term of summits i and j at point q, added in the three diagonal blocks */
  method AddExchange(AE: array2<real>, d: LocalData, coef: real, q: nat, i: nat, j: nat)
    requires WellFormed(d) && q < d.npi && i < N && j < N
    requires AE.Length0 == 3 * N && AE.Length1 == 3 * N
    modifies AE
    ensures forall r, c :: 0 <= r < 3 * N && 0 <= c < 3 * N ==>
              AE[r, c] == old(AE[r, c]) + (if Summit(r) == i && Summit(c) == j then Exchange(d, coef, q, r, c) else 0.0)
  {
    var contrib := coef * DaiDaj(d, i, j, q) * d.w[q];
    AE[i, j] := AE[i, j] + contrib;
    AE[N + i, N + j] := AE[N + i, N + j] + contrib;
    AE[2 * N + i, 2 * N + j] := AE[2 * N + i, 2 * N + j] + contrib;
  }

  class Tet {
    /** number of quadrature points */
    const npi: nat
    /** indices of the four summits */
    var ind: seq<int>
    /** volume */
    var vol: real
    /** gradients of the shape functions at the quadrature points: dadx[i][j] is
        the x derivative of shape function i at quadrature point j */
    var dadx: seq<seq<real>>
    var dady: seq<seq<real>>
    var dadz: seq<seq<real>>
    /** quadrature weights */
    var weight: seq<real>

    predicate Valid()
      reads this
    {
      |ind| == N && Shaped(dadx, npi) && Shaped(dady, npi) && Shaped(dadz, npi) && |weight| == npi
    }

    constructor(npi: nat, ind: seq<int>)
      requires |ind| == N
      ensures Valid() && this.npi == npi && this.ind == ind
    {
      this.npi, this.ind, vol := npi, ind, 0.0;
      dadx, dady, dadz := seq(N, _ => seq(npi, _ => 0.0)), seq(N, _ => seq(npi, _ => 0.0)), seq(N, _ => seq(npi, _ => 0.0));
      weight := seq(npi, _ => 0.0);
    }

    /** `Jacobian`: J receives the edge matrix and the result is its determinant */
    method Jacobian(J: array2<real>, nodes: seq<Node>) returns (detJ: real)
      requires Valid() && IndicesIn(nodes, ind) && Is3x3(J)
      modifies J
      ensures Snap(J) == ElementEdges(nodes, ind)
      ensures detJ == Det(Snap(J))
    {
      var p0, p1, p2, p3 := nodes[ind[0]].p, nodes[ind[1]].p, nodes[ind[2]].p, nodes[ind[3]].p;
      J[0, 0], J[0, 1], J[0, 2] := p1.x - p0.x, p2.x - p0.x, p3.x - p0.x;
      J[1, 0], J[1, 1], J[1, 2] := p1.y - p0.y, p2.y - p0.y, p3.y - p0.y;
      J[2, 0], J[2, 1], J[2, 2] := p1.z - p0.z, p2.z - p0.z, p3.z - p0.z;
      detJ := Det(Snap(J));
    }

    /** `getNod`: column i of nod receives the coordinates of summit i; nothing else changes */
    method GetNod(nod: array2<real>, nodes: seq<Node>)
      requires Valid() && IndicesIn(nodes, ind) && nod.Length0 >= 3 && nod.Length1 >= N
      modifies nod
      ensures forall i :: 0 <= i < N ==>
                nod[0, i] == Corner(nodes, ind, i).x && nod[1, i] == Corner(nodes, ind, i).y
                && nod[2, i] == Corner(nodes, ind, i).z
      ensures forall r, c :: 0 <= r < nod.Length0 && 0 <= c < nod.Length1 && (r >= 3 || c >= N) ==>
                nod[r, c] == old(nod[r, c])
    {
      var i := 0;
      while i < N
        invariant 0 <= i <= N
        invariant forall k :: 0 <= k < i ==>
                    nod[0, k] == Corner(nodes, ind, k).x && nod[1, k] == Corner(nodes, ind, k).y
                    && nod[2, k] == Corner(nodes, ind, k).z
        invariant forall r, c :: 0 <= r < nod.Length0 && 0 <= c < nod.Length1 && (r >= 3 || c >= i) ==>
                    nod[r, c] == old(nod[r, c])
      {
        var p := nodes[ind[i]].p;
        nod[0, i] := p.x;
        nod[1, i] := p.y;
        nod[2, i] := p.z;
        i := i + 1;
      }
    }

    /** `calc_vol`: vol is the signed volume; an ill-oriented element (negative
        volume) gets its last two summits exchanged and the opposite volume */
    method CalcVol(nodes: seq<Node>)
      requires Valid() && IndicesIn(nodes, ind)
      modifies this
      ensures Valid() && IndicesIn(nodes, ind)
      ensures dadx == old(dadx) && dady == old(dady) && dadz == old(dadz) && weight == old(weight)
      ensures ind[0] == old(ind[0]) && ind[1] == old(ind[1])
      ensures var sv := ElementVolume(nodes, old(ind));
              if sv < 0.0 then ind == [old(ind[0]), old(ind[1]), old(ind[3]), old(ind[2])] && vol == -sv
              else ind == old(ind) && vol == sv
      ensures vol >= 0.0 && vol == Abs(ElementVolume(nodes, old(ind)))
      ensures vol == ElementVolume(nodes, ind)
    {
      var i0, i1, i2, i3 := ind[0], ind[1], ind[2], ind[3];
      var p0, p1, p2, p3 := nodes[i0].p, nodes[i1].p, nodes[i2].p, nodes[i3].p;
      var vec := Cross(Sub(p1, p0), Sub(p2, p0));
      vol := 1.0 / 6.0 * PScal(vec, Sub(p3, p0));
      if vol < 0.0 {
        ind := [i0, i1, i3, i2];
        vol := vol * -1.0;
        SwapNegatesVolume(p0, p1, p2, p3);
      } else {
        assert ind == [i0, i1, i2, i3];
      }
    }

    /** `init`: a Jacobian of magnitude below epsilon is the error path, which
        changes nothing; otherwise every quadrature point gets the gradients
        dadu * J^-1 and the weight detJ * pds[j] */
    method Init(nodes: seq<Node>, epsilon: real, dadu: seq<Pt3>, pds: seq<real>) returns (ok: bool)
      requires Valid() && IndicesIn(nodes, ind) && epsilon > 0.0
      requires |dadu| == N && |pds| == npi
      modifies this
      ensures Valid() && ind == old(ind) && vol == old(vol)
      ensures ok <==> Abs(Det(ElementEdges(nodes, ind))) >= epsilon
      ensures !ok ==> dadx == old(dadx) && dady == old(dady) && dadz == old(dadz) && weight == old(weight)
      ensures ok ==> var m := ElementEdges(nodes, ind);
                     forall i, j :: 0 <= i < N && 0 <= j < npi ==>
                       dadx[i][j] == ShapeGradient(dadu[i], m).x && dady[i][j] == ShapeGradient(dadu[i], m).y
                       && dadz[i][j] == ShapeGradient(dadu[i], m).z
      ensures ok ==> forall j :: 0 <= j < npi ==> weight[j] == Det(ElementEdges(nodes, ind)) * pds[j]
    {
      var J := new real[3, 3];
      var detJ := Jacobian(J, nodes);
      if Abs(detJ) < epsilon {
        return false;
      }
      ghost var m := Snap(J);
      assert m == ElementEdges(nodes, ind) && detJ == Det(m);
      var da := InverseGradients(J, m, detJ, dadu);
      FillGradients(da, detJ, pds);
      assert ElementEdges(nodes, ind) == m;
      ok := true;
    }

    /** the inversion of `init`: J becomes J^-1 and every shape function gets
        the gradient dadu[i] * J^-1 */
    method InverseGradients(J: array2<real>, ghost m: Mat3, detJ: real, dadu: seq<Pt3>) returns (da: seq<Pt3>)
      requires Is3x3(J) && Snap(J) == m && detJ == Det(m) && detJ != 0.0 && |dadu| == N
      modifies J
      ensures |da| == N && forall i :: 0 <= i < N ==> da[i] == ShapeGradient(dadu[i], m)
    {
      Inverse(J, detJ);
      var inv := Snap(J);
      assert inv == CofactorsOver(m, detJ);
      da := Gradients(dadu, inv);
    }

    /** the two loops of `init` after the inversion: shape function i gets the
        gradient da[i] at every quadrature point j, and point j the weight detJ * pds[j] */
    method FillGradients(da: seq<Pt3>, detJ: real, pds: seq<real>)
      requires Valid() && |da| == N && |pds| == npi
      modifies this
      ensures Valid() && ind == old(ind) && vol == old(vol)
      ensures forall i, j :: 0 <= i < N && 0 <= j < npi ==>
                dadx[i][j] == da[i].x && dady[i][j] == da[i].y && dadz[i][j] == da[i].z
      ensures forall j :: 0 <= j < npi ==> weight[j] == detJ * pds[j]
    {
      var xs, ys, zs := Xs(da), Ys(da), Zs(da);
      var gx, gy, gz, w := dadx, dady, dadz, weight;
      var j := 0;
      while j < npi
        invariant 0 <= j <= npi && unchanged(this)
        invariant Shaped(gx, npi) && Shaped(gy, npi) && Shaped(gz, npi) && |w| == npi
        invariant forall i, k :: 0 <= i < N && 0 <= k < j ==>
                    gx[i][k] == da[i].x && gy[i][k] == da[i].y && gz[i][k] == da[i].z
        invariant forall k :: 0 <= k < j ==> w[k] == detJ * pds[k]
      {
        gx := SetColumn(gx, npi, j, xs);
        gy := SetColumn(gy, npi, j, ys);
        gz := SetColumn(gz, npi, j, zs);
        w := w[j := detJ * pds[j]];
        j := j + 1;
      }
      dadx, dady, dadz, weight := gx, gy, gz, w;
    }

    /** what `integrales` reads from the element and from its summits */
    function Data(nodes: seq<Node>, a: seq<seq<real>>): LocalData
      reads this, nodes
      requires Valid() && IndicesIn(nodes, ind)
    {
      LocalData(dadx, dady, dadz, weight, a,
                [nodes[ind[0]].u0, nodes[ind[1]].u0, nodes[ind[2]].u0, nodes[ind[3]].u0], npi)
    }

    /** `integrales`, the AE part: over every quadrature point and every summit
        i, the lumped terms of i and the exchange terms of (i, j) for every j are
        added to AE, so that AE grows by the two sums over the quadrature points */
    method Integrales(AE: array2<real>, nodes: seq<Node>, a: seq<seq<real>>,
                      alpha: real, A: real, Jm: real, theta: real, dt: real)
      requires Valid() && IndicesIn(nodes, ind) && Shaped(a, npi) && Jm != 0.0
      requires AE.Length0 == 3 * N && AE.Length1 == 3 * N
      modifies AE
      ensures var d, coef := Data(nodes, a), theta * dt * (2.0 * A / Jm);
              forall r, c :: 0 <= r < 3 * N && 0 <= c < 3 * N ==>
                AE[r, c] == old(AE[r, c]) + SumExchange(d, coef, npi, r, c) + SumLumping(d, alpha, npi, r, c)
    {
      var abis := 2.0 * A / Jm;
      var sDt := theta * dt;
      var uNod := [nodes[ind[0]].u0, nodes[ind[1]].u0, nodes[ind[2]].u0, nodes[ind[3]].u0];
      var d := LocalData(dadx, dady, dadz, weight, a, uNod, npi);
      var alfa := alpha;
      var R := 0.0;
      var coef := sDt * (1.0 + R) * abis;
      assert d == Data(nodes, a);
      assert coef == theta * dt * (2.0 * A / Jm);
      var q := 0;
      while q < npi
        invariant 0 <= q <= npi
        invariant forall r, c :: 0 <= r < 3 * N && 0 <= c < 3 * N ==>
                    AE[r, c] == old(AE[r, c]) + SumExchange(d, coef, q, r, c) + SumLumping(d, alfa, q, r, c)
      {
        var i := 0;
        while i < N
          invariant 0 <= i <= N
          invariant forall r, c :: 0 <= r < 3 * N && 0 <= c < 3 * N ==>
                      AE[r, c] == old(AE[r, c]) + SumExchange(d, coef, q, r, c) + SumLumping(d, alfa, q, r, c)
                                  + (if Summit(r) < i then Exchange(d, coef, q, r, c) + Lumping(d, alfa, q, r, c) else 0.0)
        {
          AddLumping(AE, d, alfa, q, i);
          var j := 0;
          while j < N
            invariant 0 <= j <= N
            invariant forall r, c :: 0 <= r < 3 * N && 0 <= c < 3 * N ==>
                        AE[r, c] == old(AE[r, c]) + SumExchange(d, coef, q, r, c) + SumLumping(d, alfa, q, r, c)
                                    + (if Summit(r) < i then Exchange(d, coef, q, r, c) + Lumping(d, alfa, q, r, c) else 0.0)
                                    + (if Summit(r) == i then Lumping(d, alfa, q, r, c)
                                                              + (if Summit(c) < j then Exchange(d, coef, q, r, c) else 0.0)
                                       else 0.0)
          {
            AddExchange(AE, d, coef, q, i, j);
            j := j + 1;
          }
          i := i + 1;
        }
        q := q + 1;
      }
    }
  }
}
