/**
 * Assembly of the electrostatic problem (electrostatSolver.h, free functions
 * and `prepareData`): the local conductance matrix of a tetrahedron, the
 * local load of a boundary face, the push of the non-zero local entries as
 * (row, col, value) triplets, the accumulation of the face loads into the
 * global load vector, and the mean of the imposed potentials.
 *
 * Elements are the values the solver reads from its copy of the mesh. A
 * double that becomes infinite or NaN is not a real: such a computation
 * ends in the `NotFinite` outcome; undefined behaviour of the C++ library
 * ends in `Undefined`.
 */
module Electrostat {
  import opened Pt
  import Tetra
  import Facette

  datatype Outcome<T> = Ok(value: T) | NotFinite | Undefined

  /** `Eigen::Triplet<double>` */
  datatype Triplet = Triplet(row: int, col: int, value: real)

  /** what the solver reads from a tetrahedron: node indices, quadrature
      weights, shape-function gradients (N rows of NPI entries), Gauss points
      and the position `idx` of the element in the mesh */
  datatype TetRec = TetRec(ind: seq<int>, weight: seq<real>, dadx: seq<seq<real>>, dady: seq<seq<real>>,
                           dadz: seq<seq<real>>, ptGauss: seq<Pt3>, idx: int)

  /** the tables of a tetrahedron have N rows of NPI entries, NPI = |weight| */
  predicate TetShaped(t: TetRec)
  {
    |t.ind| == Tetra.N && Tetra.Shaped(t.dadx, |t.weight|) && Tetra.Shaped(t.dady, |t.weight|)
    && Tetra.Shaped(t.dadz, |t.weight|) && |t.ptGauss| == |t.weight|
  }

  /** a tetrahedron whose node indices are below nod */
  predicate TetIn(t: TetRec, nod: nat)
  {
    TetShaped(t) && forall i :: 0 <= i < Tetra.N ==> 0 <= t.ind[i] < nod
  }

  /** a face whose node indices are below nod and which has NPI weights */
  predicate FacIn(f: Facette.Fac, nod: nat)
  {
    |f.weight| == Facette.NPI && forall i :: 0 <= i < Facette.N ==> 0 <= f.ind[i] < nod
  }

  /** the table of the face hat functions: N rows of NPI entries */
  predicate HatTable(ha: seq<seq<real>>)
  {
    |ha| == Facette.N && forall i :: 0 <= i < Facette.N ==> |ha[i]| == Facette.NPI
  }

  // ---------------------------------------------------------------------
  // Triplets of a local matrix

  /** the triplets of s whose value is not zero, in their order in s */
  function NonZero(s: seq<Triplet>): seq<Triplet>
  {
    if s == [] then [] else (if s[0].value != 0.0 then [s[0]] else []) + NonZero(s[1..])
  }

  lemma {:induction false} NonZeroConcat(a: seq<Triplet>, b: seq<Triplet>)
    ensures NonZero(a + b) == NonZero(a) + NonZero(b)
  {
    if a == [] {
      assert a + b == b;
    } else {
      assert (a + b)[1..] == a[1..] + b;
      NonZeroConcat(a[1..], b);
    }
  }

  /** the filter keeps exactly the triplets with a non-zero value */
  lemma {:induction false} NonZeroMembers(s: seq<Triplet>, t: Triplet)
    ensures t in NonZero(s) <==> t in s && t.value != 0.0
  {
    if s != [] {
      NonZeroMembers(s[1..], t);
      assert s == [s[0]] + s[1..];
    }
  }

  /** the matrix held by a 4 x 4 array */
  function Grid(M: array2<real>): (g: seq<seq<real>>)
    reads M
    requires M.Length0 == Tetra.N && M.Length1 == Tetra.N
    ensures |g| == Tetra.N && forall i :: 0 <= i < Tetra.N ==> |g[i]| == Tetra.N
    ensures forall i, j :: 0 <= i < Tetra.N && 0 <= j < Tetra.N ==> g[i][j] == M[i, j]
  {
    [GridRow(M, 0), GridRow(M, 1), GridRow(M, 2), GridRow(M, 3)]
  }

  /** row i of a 4 x 4 array */
  function GridRow(M: array2<real>, i: nat): (r: seq<real>)
    reads M
    requires M.Length0 == Tetra.N && M.Length1 == Tetra.N && i < Tetra.N
  {
    [M[i, 0], M[i, 1], M[i, 2], M[i, 3]]
  }

  predicate Square4(Ke: seq<seq<real>>)
  {
    |Ke| == Tetra.N && forall i :: 0 <= i < Tetra.N ==> |Ke[i]| == Tetra.N
  }

  /** row ie of a local matrix as triplets in global numbering */
  function RowTriplets(ind: seq<int>, Ke: seq<seq<real>>, ie: nat): (r: seq<Triplet>)
    requires |ind| == Tetra.N && Square4(Ke) && ie < Tetra.N
    ensures |r| == Tetra.N
    ensures forall je :: 0 <= je < Tetra.N ==> r[je] == Triplet(ind[ie], ind[je], Ke[ie][je])
  {
    seq(Tetra.N, je requires 0 <= je < Tetra.N => Triplet(ind[ie], ind[je], Ke[ie][je]))
  }

  /** the first k rows of a local matrix as triplets, in row-major order */
  function RowMajor(ind: seq<int>, Ke: seq<seq<real>>, k: nat): seq<Triplet>
    requires |ind| == Tetra.N && Square4(Ke) && k <= Tetra.N
  {
    if k == 0 then [] else RowMajor(ind, Ke, k - 1) + RowTriplets(ind, Ke, k - 1)
  }

  /** the first k rows give 4 * k triplets */
  lemma {:induction false} RowMajorLength(ind: seq<int>, Ke: seq<seq<real>>, k: nat)
    requires |ind| == Tetra.N && Square4(Ke) && k <= Tetra.N
    ensures |RowMajor(ind, Ke, k)| == 4 * k
  {
    if k > 0 {
      RowMajorLength(ind, Ke, k - 1);
    }
  }

  /** entry (ie, je) of the local matrix is triplet number 4 * ie + je of the row-major list */
  lemma {:induction false} RowMajorEntry(ind: seq<int>, Ke: seq<seq<real>>, k: nat, ie: nat, je: nat)
    requires |ind| == Tetra.N && Square4(Ke) && k <= Tetra.N && ie < k && je < Tetra.N
    ensures |RowMajor(ind, Ke, k)| == 4 * k
    ensures RowMajor(ind, Ke, k)[4 * ie + je] == Triplet(ind[ie], ind[je], Ke[ie][je])
  {
    RowMajorLength(ind, Ke, k);
    RowMajorLength(ind, Ke, k - 1);
    var a, b := RowMajor(ind, Ke, k - 1), RowTriplets(ind, Ke, k - 1);
    assert RowMajor(ind, Ke, k) == a + b;
    if ie < k - 1 {
      RowMajorEntry(ind, Ke, k - 1, ie, je);
      assert (a + b)[4 * ie + je] == a[4 * ie + je];
    } else {
      assert 4 * ie + je == |a| + je;
      assert (a + b)[|a| + je] == b[je];
    }
  }

  /** the row-major list of the first k rows: entry (ie, je) is triplet number 4 * ie + je */
  lemma RowMajorEntries(ind: seq<int>, Ke: seq<seq<real>>, k: nat)
    requires |ind| == Tetra.N && Square4(Ke) && k <= Tetra.N
    ensures |RowMajor(ind, Ke, k)| == 4 * k
    ensures forall ie, je :: 0 <= ie < k && 0 <= je < Tetra.N ==>
              RowMajor(ind, Ke, k)[4 * ie + je] == Triplet(ind[ie], ind[je], Ke[ie][je])
  {
    RowMajorLength(ind, Ke, k);
    forall ie, je | 0 <= ie < k && 0 <= je < Tetra.N
      ensures RowMajor(ind, Ke, k)[4 * ie + je] == Triplet(ind[ie], ind[je], Ke[ie][je])
    {
      RowMajorEntry(ind, Ke, k, ie, je);
    }
  }

  /** the row-major list of the first k rows holds exactly their entries */
  lemma {:induction false} RowMajorMembers(ind: seq<int>, Ke: seq<seq<real>>, k: nat, t: Triplet)
    requires |ind| == Tetra.N && Square4(Ke) && k <= Tetra.N
    ensures t in RowMajor(ind, Ke, k) <==>
            exists ie, je :: 0 <= ie < k && 0 <= je < Tetra.N && t == Triplet(ind[ie], ind[je], Ke[ie][je])
  {
    if k > 0 {
      RowMajorMembers(ind, Ke, k - 1, t);
      var b := RowTriplets(ind, Ke, k - 1);
      if t in b {
        var je :| 0 <= je < |b| && b[je] == t;
        assert t == Triplet(ind[k - 1], ind[je], Ke[k - 1][je]);
      }
    }
  }

  /** the triplets pushed for a local matrix are exactly its non-zero entries */
  lemma PushedAreNonZeroEntries(ind: seq<int>, Ke: seq<seq<real>>, t: Triplet)
    requires |ind| == Tetra.N && Square4(Ke)
    ensures t in NonZero(RowMajor(ind, Ke, Tetra.N)) <==>
            t.value != 0.0 && exists ie, je :: 0 <= ie < Tetra.N && 0 <= je < Tetra.N
                                               && t == Triplet(ind[ie], ind[je], Ke[ie][je])
  {
    NonZeroMembers(RowMajor(ind, Ke, Tetra.N), t);
    RowMajorMembers(ind, Ke, Tetra.N, t);
  }

  lemma NonZeroSnoc(s: seq<Triplet>, x: Triplet)
    ensures NonZero(s + [x]) == NonZero(s) + (if x.value != 0.0 then [x] else [])
  {
    NonZeroConcat(s, [x]);
    assert [x][1..] == [];
  }

  /** sequence concatenation is associative */
  lemma AppendAssoc<T>(a: seq<T>, b: seq<T>, c: seq<T>)
    ensures a + (b + c) == (a + b) + c
  {
  }

  /** the non-zero triplets of the first ie + 1 rows are those of the first
      ie rows followed by those of row ie */
  lemma NonZeroRowMajorStep(ind: seq<int>, Ke: seq<seq<real>>, ie: nat)
    requires |ind| == Tetra.N && Square4(Ke) && ie < Tetra.N
    ensures NonZero(RowMajor(ind, Ke, ie + 1)) == NonZero(RowMajor(ind, Ke, ie)) + NonZero(RowTriplets(ind, Ke, ie))
  {
    NonZeroConcat(RowMajor(ind, Ke, ie), RowTriplets(ind, Ke, ie));
  }

  /** the je loop of `assembling_mat`: the non-zero entries of row ie of Ke
      are appended to K */
  method AssembleRow(ind: seq<int>, Ke: array2<real>, ghost g: seq<seq<real>>, ie: nat, K: seq<Triplet>)
    returns (K': seq<Triplet>)
    requires |ind| == Tetra.N && Ke.Length0 == Tetra.N && Ke.Length1 == Tetra.N && ie < Tetra.N
    requires g == Grid(Ke)
    ensures K' == K + NonZero(RowTriplets(ind, g, ie))
  {
    ghost var row := RowTriplets(ind, g, ie);
    K' := K;
    var je := 0;
    assert row[..0] == [];
    while je < Tetra.N
      invariant 0 <= je <= Tetra.N
      invariant K' == K + NonZero(row[..je])
    {
      var val := Ke[ie, je];
      assert row[je] == Triplet(ind[ie], ind[je], val);
      assert row[..je + 1] == row[..je] + [row[je]];
      NonZeroSnoc(row[..je], row[je]);
      if val != 0.0 {
        K' := K' + [Triplet(ind[ie], ind[je], val)];
      }
      je := je + 1;
    }
    assert row[..Tetra.N] == row;
  }

  /** `assembling_mat`: the non-zero entries of Ke are appended to K as
      triplets, in row-major order; K's previous contents stay in front */
  method AssemblingMat(t: TetRec, Ke: array2<real>, K: seq<Triplet>) returns (K': seq<Triplet>)
    requires |t.ind| == Tetra.N && Ke.Length0 == Tetra.N && Ke.Length1 == Tetra.N
    ensures K' == K + NonZero(RowMajor(t.ind, Grid(Ke), Tetra.N))
  {
    ghost var g := Grid(Ke);
    K' := K;
    var ie := 0;
    while ie < Tetra.N
      invariant 0 <= ie <= Tetra.N
      invariant K' == K + NonZero(RowMajor(t.ind, g, ie))
    {
      K' := AssembleRow(t.ind, Ke, g, ie, K');
      NonZeroRowMajorStep(t.ind, g, ie);
      AppendAssoc(K, NonZero(RowMajor(t.ind, g, ie)), NonZero(RowTriplets(t.ind, g, ie)));
      ie := ie + 1;
    }
  }


  // ---------------------------------------------------------------------
  // Load vector

  /** the first k entries of Le added at the positions ind[0..k) of L, in order */
  function AddAt(L: seq<real>, ind: seq<int>, Le: seq<real>, k: nat): (r: seq<real>)
    requires k <= |ind| && k <= |Le| && forall e :: 0 <= e < k ==> 0 <= ind[e] < |L|
    ensures |r| == |L|
  {
    if k == 0 then L
    else
      var s := AddAt(L, ind, Le, k - 1);
      s[ind[k - 1] := s[ind[k - 1]] + Le[k - 1]]
  }

  function Sum(s: seq<real>): real
  {
    if s == [] then 0.0 else Sum(s[..|s| - 1]) + s[|s| - 1]
  }

  /** adding v at one position adds v to the sum */
  lemma {:induction false} SumAddAt(s: seq<real>, p: int, v: real)
    requires 0 <= p < |s|
    ensures Sum(s[p := s[p] + v]) == Sum(s) + v
  {
    var s' := s[p := s[p] + v];
    if p == |s| - 1 {
      assert s'[..|s'| - 1] == s[..|s| - 1];
    } else {
      assert s'[..|s'| - 1] == s[..|s| - 1][p := s[p] + v];
      SumAddAt(s[..|s| - 1], p, v);
    }
  }

  /** positions no face index designates are unchanged */
  lemma {:induction false} AddAtUntouched(L: seq<real>, ind: seq<int>, Le: seq<real>, k: nat, p: int)
    requires k <= |ind| && k <= |Le| && forall e :: 0 <= e < k ==> 0 <= ind[e] < |L|
    requires 0 <= p < |L| && forall e :: 0 <= e < k ==> ind[e] != p
    ensures AddAt(L, ind, Le, k)[p] == L[p]
  {
    if k > 0 {
      AddAtUntouched(L, ind, Le, k - 1, p);
    }
  }

  /** the sum of L grows by the sum of the added entries, repeated indices included */
  lemma {:induction false} AddAtSum(L: seq<real>, ind: seq<int>, Le: seq<real>, k: nat)
    requires k <= |ind| && k <= |Le| && forall e :: 0 <= e < k ==> 0 <= ind[e] < |L|
    ensures Sum(AddAt(L, ind, Le, k)) == Sum(L) + Sum(Le[..k])
  {
    if k > 0 {
      AddAtSum(L, ind, Le, k - 1);
      var s := AddAt(L, ind, Le, k - 1);
      SumAddAt(s, ind[k - 1], Le[k - 1]);
      assert Le[..k][..k - 1] == Le[..k - 1];
    }
  }

  /** `assembling_vect`: Le[ie] is added at L[fac.ind[ie]] for the three summits */
  method AssemblingVect(f: Facette.Fac, Le: seq<real>, L: array<real>)
    requires |Le| >= Facette.N && forall e :: 0 <= e < Facette.N ==> 0 <= f.ind[e] < L.Length
    modifies L
    ensures L[..] == AddAt(old(L[..]), f.ind, Le, Facette.N)
  {
    var ie := 0;
    while ie < Facette.N
      invariant 0 <= ie <= Facette.N
      invariant L[..] == AddAt(old(L[..]), f.ind, Le, ie)
    {
      L[f.ind[ie]] := L[f.ind[ie]] + Le[ie];
      ie := ie + 1;
    }
  }

  // ---------------------------------------------------------------------
  // Local integrals

  /** sigma (grad a_i . grad a_j) w at quadrature point q */
  function ConductTerm(t: TetRec, sigma: real, q: nat, i: nat, j: nat): real
    requires TetShaped(t) && q < |t.weight| && i < Tetra.N && j < Tetra.N
  {
    sigma * (t.dadx[i][q] * t.dadx[j][q] + t.dady[i][q] * t.dady[j][q] + t.dadz[i][q] * t.dadz[j][q]) * t.weight[q]
  }

  /** the local conductance of (i, j) over the first k quadrature points */
  function Conduct(t: TetRec, sigma: real, k: nat, i: nat, j: nat): real
    requires TetShaped(t) && k <= |t.weight| && i < Tetra.N && j < Tetra.N
  {
    if k == 0 then 0.0 else Conduct(t, sigma, k - 1, i, j) + ConductTerm(t, sigma, k - 1, i, j)
  }

  /** the local conductance matrix is symmetric */
  lemma {:induction false} ConductSymmetric(t: TetRec, sigma: real, k: nat, i: nat, j: nat)
    requires TetShaped(t) && k <= |t.weight| && i < Tetra.N && j < Tetra.N
    ensures Conduct(t, sigma, k, i, j) == Conduct(t, sigma, k, j, i)
  {
    if k > 0 {
      ConductSymmetric(t, sigma, k - 1, i, j);
    }
  }

  /** the local conductance matrix, from the zero matrix */
  function ConductMatrix(t: TetRec, sigma: real): (K: seq<seq<real>>)
    requires TetShaped(t)
    ensures Square4(K)
  {
    seq(Tetra.N, i requires 0 <= i < Tetra.N =>
      seq(Tetra.N, j requires 0 <= j < Tetra.N => Conduct(t, sigma, |t.weight|, i, j)))
  }

  /** a 4 x 4 table whose entries are the conductances is the conductance matrix */
  lemma ConductMatrixFrom(g: seq<seq<real>>, t: TetRec, sigma: real)
    requires TetShaped(t) && Square4(g)
    requires forall i, j :: 0 <= i < Tetra.N && 0 <= j < Tetra.N ==> g[i][j] == Conduct(t, sigma, |t.weight|, i, j)
    ensures g == ConductMatrix(t, sigma)
  {
    ConductMatrixEntries(t, sigma);
    forall i | 0 <= i < Tetra.N
      ensures g[i] == ConductMatrix(t, sigma)[i]
    {
    }
  }

  /** entry (i, j) of the local conductance matrix is the conductance of (i, j) */
  lemma ConductMatrixEntries(t: TetRec, sigma: real)
    requires TetShaped(t)
    ensures forall i, j :: 0 <= i < Tetra.N && 0 <= j < Tetra.N ==>
              ConductMatrix(t, sigma)[i][j] == Conduct(t, sigma, |t.weight|, i, j)
  {
  }

  /** the local conductance matrix is symmetric */
  lemma ConductMatrixSymmetric(t: TetRec, sigma: real)
    requires TetShaped(t)
    ensures forall i, j :: 0 <= i < Tetra.N && 0 <= j < Tetra.N ==>
              ConductMatrix(t, sigma)[i][j] == ConductMatrix(t, sigma)[j][i]
  {
    forall i, j | 0 <= i < Tetra.N && 0 <= j < Tetra.N
      ensures ConductMatrix(t, sigma)[i][j] == ConductMatrix(t, sigma)[j][i]
    {
      ConductSymmetric(t, sigma, |t.weight|, i, j);
    }
  }

  /** the je loop of `integrales(tet, sigma, AE)`: row ie of AE grows by the
      terms of quadrature point q */
  method AddConductRow(t: TetRec, sigma: real, q: nat, ie: nat, AE: array2<real>)
    requires TetShaped(t) && q < |t.weight| && ie < Tetra.N
    requires AE.Length0 == Tetra.N && AE.Length1 == Tetra.N
    modifies AE
    ensures forall i, j :: 0 <= i < Tetra.N && 0 <= j < Tetra.N ==>
              AE[i, j] == old(AE[i, j]) + (if i == ie then ConductTerm(t, sigma, q, i, j) else 0.0)
  {
    var w := t.weight[q];
    var daiDx, daiDy, daiDz := t.dadx[ie][q], t.dady[ie][q], t.dadz[ie][q];
    var je := 0;
    while je < Tetra.N
      invariant 0 <= je <= Tetra.N
      invariant forall i, j :: 0 <= i < Tetra.N && 0 <= j < Tetra.N ==>
                  AE[i, j] == old(AE[i, j]) + (if i == ie && j < je then ConductTerm(t, sigma, q, i, j) else 0.0)
    {
      var dajDx, dajDy, dajDz := t.dadx[je][q], t.dady[je][q], t.dadz[je][q];
      var v := sigma * (daiDx * dajDx + daiDy * dajDy + daiDz * dajDz) * w;
      assert v == ConductTerm(t, sigma, q, ie, je);
      AE[ie, je] := AE[ie, je] + v;
      je := je + 1;
    }
  }

  /** `integrales(tet, sigma, AE)`: AE(i, j) grows by the conductance of (i, j) */
  method TetIntegrales(t: TetRec, sigma: real, AE: array2<real>)
    requires TetShaped(t) && AE.Length0 == Tetra.N && AE.Length1 == Tetra.N
    modifies AE
    ensures forall i, j :: 0 <= i < Tetra.N && 0 <= j < Tetra.N ==>
              AE[i, j] == old(AE[i, j]) + Conduct(t, sigma, |t.weight|, i, j)
  {
    var q := 0;
    while q < |t.weight|
      invariant 0 <= q <= |t.weight|
      invariant forall i, j :: 0 <= i < Tetra.N && 0 <= j < Tetra.N ==>
                  AE[i, j] == old(AE[i, j]) + Conduct(t, sigma, q, i, j)
    {
      var ie := 0;
      while ie < Tetra.N
        invariant 0 <= ie <= Tetra.N
        invariant forall i, j :: 0 <= i < Tetra.N && 0 <= j < Tetra.N ==>
                    AE[i, j] == old(AE[i, j]) + Conduct(t, sigma, q, i, j)
                                + (if i < ie then ConductTerm(t, sigma, q, i, j) else 0.0)
      {
        AddConductRow(t, sigma, q, ie, AE);
        ie := ie + 1;
      }
      q := q + 1;
    }
  }

  /** the load of summit ie of a face over the first k quadrature points */
  function FaceLoad(f: Facette.Fac, ha: seq<seq<real>>, potVal: real, k: nat, ie: nat): real
    requires |f.weight| == Facette.NPI && HatTable(ha) && k <= Facette.NPI && ie < Facette.N
  {
    if k == 0 then 0.0 else FaceLoad(f, ha, potVal, k - 1, ie) + ha[ie][k - 1] * potVal * f.weight[k - 1]
  }

  /** a zero imposed potential gives a zero face load */
  lemma {:induction false} FaceLoadZeroPotential(f: Facette.Fac, ha: seq<seq<real>>, k: nat, ie: nat)
    requires |f.weight| == Facette.NPI && HatTable(ha) && k <= Facette.NPI && ie < Facette.N
    ensures FaceLoad(f, ha, 0.0, k, ie) == 0.0
  {
    if k > 0 {
      FaceLoadZeroPotential(f, ha, k - 1, ie);
    }
  }

  /** `integrales(fac, pot_val, BE)`: BE[ie] decreases by the load of summit ie */
  method FacIntegrales(f: Facette.Fac, ha: seq<seq<real>>, potVal: real, BE: array<real>)
    requires |f.weight| == Facette.NPI && HatTable(ha) && BE.Length == Facette.N
    modifies BE
    ensures forall ie :: 0 <= ie < Facette.N ==> BE[ie] == old(BE[ie]) - FaceLoad(f, ha, potVal, Facette.NPI, ie)
  {
    var q := 0;
    while q < Facette.NPI
      invariant 0 <= q <= Facette.NPI
      invariant forall ie :: 0 <= ie < Facette.N ==> BE[ie] == old(BE[ie]) - FaceLoad(f, ha, potVal, q, ie)
    {
      var ie := 0;
      while ie < Facette.N
        invariant 0 <= ie <= Facette.N
        invariant forall e :: 0 <= e < Facette.N ==>
                    BE[e] == old(BE[e]) - FaceLoad(f, ha, potVal, q, e)
                             - (if e < ie then ha[e][q] * potVal * f.weight[q] else 0.0)
      {
        BE[ie] := BE[ie] - ha[ie][q] * potVal * f.weight[q];
        ie := ie + 1;
      }
      q := q + 1;
    }
  }

  // ---------------------------------------------------------------------
  // Mean potential

  /** a boundary condition: the name of a surface and the potential imposed on it */
  datatype Condition = Condition(name: string, V: real)

  function SumV(bcs: seq<Condition>): real
  {
    if bcs == [] then 0.0 else SumV(bcs[..|bcs| - 1]) + bcs[|bcs| - 1].V
  }

  /** the sum of the imposed potentials lies between |bcs| times their lower
      and upper bounds */
  lemma {:induction false} SumVBounds(bcs: seq<Condition>, lo: real, hi: real)
    requires forall k :: 0 <= k < |bcs| ==> lo <= bcs[k].V <= hi
    ensures lo * |bcs| as real <= SumV(bcs) <= hi * |bcs| as real
  {
    if bcs != [] {
      SumVBounds(bcs[..|bcs| - 1], lo, hi);
      assert lo * |bcs| as real == lo * (|bcs| - 1) as real + lo;
      assert hi * |bcs| as real == hi * (|bcs| - 1) as real + hi;
    }
  }

  /** the mean of the imposed potentials: 0 / 0 is NaN when there is no condition */
  function Mean(bcs: seq<Condition>): Outcome<real>
  {
    if |bcs| == 0 then NotFinite else Ok(SumV(bcs) / |bcs| as real)
  }

  /** the mean lies between any bounds of the imposed potentials */
  lemma MeanBetween(bcs: seq<Condition>, lo: real, hi: real)
    requires |bcs| > 0 && forall k :: 0 <= k < |bcs| ==> lo <= bcs[k].V <= hi
    ensures Mean(bcs).Ok? && lo <= Mean(bcs).value <= hi
  {
    SumVBounds(bcs, lo, hi);
    var n := |bcs| as real;
    DivBounds(SumV(bcs), n, lo, hi);
  }

  lemma DivBounds(s: real, n: real, lo: real, hi: real)
    requires n > 0.0 && lo * n <= s <= hi * n
    ensures lo <= s / n <= hi
  {
    assert s / n - lo == (s - lo * n) / n;
    assert hi - s / n == (hi * n - s) / n;
  }

  /** the mean of equal potentials is that potential */
  lemma MeanOfEqual(bcs: seq<Condition>, v: real)
    requires |bcs| > 0 && forall k :: 0 <= k < |bcs| ==> bcs[k].V == v
    ensures Mean(bcs) == Ok(v)
  {
    MeanBetween(bcs, v, v);
  }

  /** the `pot_val` loop of `prepareData`: the sum of the potentials divided by their number */
  method MeanPotential(bcs: seq<Condition>) returns (potVal: Outcome<real>)
    ensures potVal == Mean(bcs)
  {
    var sum := 0.0;
    var k := 0;
    while k < |bcs|
      invariant 0 <= k <= |bcs|
      invariant sum == SumV(bcs[..k])
    {
      assert bcs[..k + 1][..k] == bcs[..k];
      sum := sum + bcs[k].V;
      k := k + 1;
    }
    assert bcs[..|bcs|] == bcs;
    if |bcs| == 0 {
      potVal := NotFinite;
    } else {
      potVal := Ok(sum / |bcs| as real);
    }
  }

  // ---------------------------------------------------------------------
  // prepareData

  /** the triplets pushed for the first k tetrahedra */
  function TetsTriplets(tets: seq<TetRec>, sigma: real, k: nat): seq<Triplet>
    requires k <= |tets| && forall e :: 0 <= e < |tets| ==> TetShaped(tets[e])
  {
    if k == 0 then []
    else TetsTriplets(tets, sigma, k - 1) + LocalTriplets(tets[k - 1], sigma)
  }

  /** the triplets pushed for one tetrahedron */
  function LocalTriplets(t: TetRec, sigma: real): seq<Triplet>
    requires TetShaped(t)
  {
    NonZero(RowMajor(t.ind, ConductMatrix(t, sigma), Tetra.N))
  }

  /** the local load vector of a face, from the zero vector */
  function FaceVector(f: Facette.Fac, ha: seq<seq<real>>, potVal: real): (r: seq<real>)
    requires |f.weight| == Facette.NPI && HatTable(ha)
    ensures |r| == Facette.N
  {
    [0.0 - FaceLoad(f, ha, potVal, Facette.NPI, 0), 0.0 - FaceLoad(f, ha, potVal, Facette.NPI, 1),
     0.0 - FaceLoad(f, ha, potVal, Facette.NPI, 2)]
  }

  /** L after the loads of the first k faces */
  function FacesLoad(L: seq<real>, facs: seq<Facette.Fac>, ha: seq<seq<real>>, potVal: real, k: nat): (r: seq<real>)
    requires k <= |facs| && HatTable(ha) && forall e :: 0 <= e < |facs| ==> FacIn(facs[e], |L|)
    ensures |r| == |L|
  {
    if k == 0 then L
    else AddAt(FacesLoad(L, facs, ha, potVal, k - 1), facs[k - 1].ind, FaceVector(facs[k - 1], ha, potVal), Facette.N)
  }

  /** adding zeros changes nothing */
  lemma {:induction false} AddAtZero(L: seq<real>, ind: seq<int>, Le: seq<real>, k: nat)
    requires k <= |ind| && k <= |Le| && forall e :: 0 <= e < k ==> 0 <= ind[e] < |L|
    requires forall e :: 0 <= e < k ==> Le[e] == 0.0
    ensures AddAt(L, ind, Le, k) == L
  {
    if k > 0 {
      AddAtZero(L, ind, Le, k - 1);
    }
  }

  /** with a zero potential the faces leave L unchanged */
  lemma {:induction false} FacesLoadZero(L: seq<real>, facs: seq<Facette.Fac>, ha: seq<seq<real>>, k: nat)
    requires k <= |facs| && HatTable(ha) && forall e :: 0 <= e < |facs| ==> FacIn(facs[e], |L|)
    ensures FacesLoad(L, facs, ha, 0.0, k) == L
  {
    if k > 0 {
      FacesLoadZero(L, facs, ha, k - 1);
      var f := facs[k - 1];
      FaceLoadZeroPotential(f, ha, Facette.NPI, 0);
      FaceLoadZeroPotential(f, ha, Facette.NPI, 1);
      FaceLoadZeroPotential(f, ha, Facette.NPI, 2);
      AddAtZero(FacesLoad(L, facs, ha, 0.0, k - 1), f.ind, FaceVector(f, ha, 0.0), Facette.N);
    }
  }

  /** the local matrix of a tetrahedron, pushed as triplets: a fresh zero
      matrix, `integrales`, then `assembling_mat` */
  method PushTet(t: TetRec, sigma: real, Kw: seq<Triplet>) returns (Kw': seq<Triplet>)
    requires TetShaped(t)
    ensures Kw' == Kw + LocalTriplets(t, sigma)
  {
    var K := new real[Tetra.N, Tetra.N]((_, _) => 0.0);
    assert forall i, j :: 0 <= i < Tetra.N && 0 <= j < Tetra.N ==> K[i, j] == 0.0;
    TetIntegrales(t, sigma, K);
    ghost var g := Grid(K);
    ConductMatrixFrom(g, t, sigma);
    Kw' := AssemblingMat(t, K, Kw);
  }

  /** the local load of a face, accumulated into Lw: a fresh zero vector,
      `integrales`, then `assembling_vect` */
  method PushFac(f: Facette.Fac, ha: seq<seq<real>>, potVal: real, Lw: array<real>)
    requires FacIn(f, Lw.Length) && HatTable(ha)
    modifies Lw
    ensures Lw[..] == AddAt(old(Lw[..]), f.ind, FaceVector(f, ha, potVal), Facette.N)
  {
    var L := new real[Facette.N](_ => 0.0);
    FacIntegrales(f, ha, potVal, L);
    assert L[..] == FaceVector(f, ha, potVal);
    AssemblingVect(f, L[..], Lw);
  }

  /** one more tetrahedron appends its triplets after those of the previous ones */
  lemma TetsTripletsStep(Kw: seq<Triplet>, tets: seq<TetRec>, sigma: real, k: nat)
    requires k < |tets| && forall e :: 0 <= e < |tets| ==> TetShaped(tets[e])
    ensures Kw + TetsTriplets(tets, sigma, k + 1) == Kw + TetsTriplets(tets, sigma, k) + LocalTriplets(tets[k], sigma)
  {
    AppendAssoc(Kw, TetsTriplets(tets, sigma, k), LocalTriplets(tets[k], sigma));
  }

  /** the tetrahedron loop of `prepareData` */
  method PushTets(tets: seq<TetRec>, sigma: real, Kw: seq<Triplet>) returns (Kw': seq<Triplet>)
    requires forall e :: 0 <= e < |tets| ==> TetShaped(tets[e])
    ensures Kw' == Kw + TetsTriplets(tets, sigma, |tets|)
  {
    Kw' := Kw;
    var k := 0;
    while k < |tets|
      invariant 0 <= k <= |tets|
      invariant Kw' == Kw + TetsTriplets(tets, sigma, k)
    {
      Kw' := PushTet(tets[k], sigma, Kw');
      TetsTripletsStep(Kw, tets, sigma, k);
      k := k + 1;
    }
  }

  /** the face loop of `prepareData` */
  method PushFacs(facs: seq<Facette.Fac>, ha: seq<seq<real>>, potVal: real, Lw: array<real>)
    requires forall e :: 0 <= e < |facs| ==> FacIn(facs[e], Lw.Length)
    requires HatTable(ha)
    modifies Lw
    ensures Lw[..] == FacesLoad(old(Lw[..]), facs, ha, potVal, |facs|)
  {
    var k := 0;
    while k < |facs|
      invariant 0 <= k <= |facs|
      invariant Lw[..] == FacesLoad(old(Lw[..]), facs, ha, potVal, k)
    {
      PushFac(facs[k], ha, potVal, Lw);
      k := k + 1;
    }
  }

  /** `prepareData`: the triplets of every tetrahedron are appended to Kw and
      the loads of every face, for the mean imposed potential, added into Lw;
      without boundary conditions the mean is NaN */
  method PrepareData(tets: seq<TetRec>, facs: seq<Facette.Fac>, sigma: real, bcs: seq<Condition>,
                     ha: seq<seq<real>>, Kw: seq<Triplet>, Lw: array<real>)
    returns (Kw': seq<Triplet>, potVal: Outcome<real>)
    requires forall e :: 0 <= e < |tets| ==> TetShaped(tets[e])
    requires forall e :: 0 <= e < |facs| ==> FacIn(facs[e], Lw.Length)
    requires HatTable(ha)
    modifies Lw
    ensures Kw' == Kw + TetsTriplets(tets, sigma, |tets|)
    ensures potVal == Mean(bcs)
    ensures potVal.Ok? ==> Lw[..] == FacesLoad(old(Lw[..]), facs, ha, potVal.value, |facs|)
    ensures !potVal.Ok? ==> Lw[..] == old(Lw[..])
  {
    Kw' := PushTets(tets, sigma, Kw);
    potVal := MeanPotential(bcs);
    if potVal.Ok? {
      PushFacs(facs, ha, potVal.value, Lw);
    }
  }
}
