/**
 * The class `electrostatSolver` (electrostatSolver.h): `solve` builds the
 * triplet list and the load vector, applies the Dirichlet conditions,
 * assembles the sparse matrix, scales every row by its largest magnitude,
 * hands the scaled system to BiCGSTAB and keeps its solution as the node
 * potentials V; the constructor then computes, for every tetrahedron and
 * quadrature point, the gradient of V and the field Hm, and `extraField`
 * adds Hm to a field table.
 *
 * BiCGSTAB is the parameter `bicgstab`: it maps a matrix, a right-hand side,
 * a tolerance and an iteration cap to a solution and an iteration count.
 */
module ElectrostatSolver {
  import opened Pt
  import Tetra
  import Facette
  import opened Electrostat
  import opened Dirichlet

  /** `Eigen::SparseMatrix<double>`: the stored entries by (row, col) */
  type Sparse = map<(int, int), real>

  /** every triplet has its row and column below nod */
  predicate TripletsIn(Kw: seq<Triplet>, nod: nat)
  {
    forall t :: t in Kw ==> 0 <= t.row < nod && 0 <= t.col < nod
  }

  /** every stored entry has its row and column below nod */
  predicate MatrixIn(A: Sparse, nod: nat)
  {
    forall key :: key in A ==> 0 <= key.0 < nod && 0 <= key.1 < nod
  }

  // ---------------------------------------------------------------------
  // setFromTriplets

  /** the sum of the values of the triplets at (r, c) */
  function SumAt(Kw: seq<Triplet>, r: int, c: int): real
  {
    if Kw == [] then 0.0
    else SumAt(Kw[..|Kw| - 1], r, c) + (if Kw[|Kw| - 1].row == r && Kw[|Kw| - 1].col == c then Kw[|Kw| - 1].value else 0.0)
  }

  /** `setFromTriplets`: one stored entry per coordinate, duplicates summed */
  function SetFromTriplets(Kw: seq<Triplet>): Sparse
  {
    if Kw == [] then map[]
    else
      var m := SetFromTriplets(Kw[..|Kw| - 1]);
      var t := Kw[|Kw| - 1];
      m[(t.row, t.col) := (if (t.row, t.col) in m then m[(t.row, t.col)] else 0.0) + t.value]
  }

  /** (r, c) is stored exactly when some triplet sits there, and it holds the
      sum of the values of those triplets */
  lemma {:induction false} SetFromTripletsSums(Kw: seq<Triplet>, r: int, c: int)
    ensures (r, c) in SetFromTriplets(Kw) <==> exists t :: t in Kw && t.row == r && t.col == c
    ensures (r, c) in SetFromTriplets(Kw) ==> SetFromTriplets(Kw)[(r, c)] == SumAt(Kw, r, c)
    ensures (r, c) !in SetFromTriplets(Kw) ==> SumAt(Kw, r, c) == 0.0
  {
    if Kw != [] {
      var pre := Kw[..|Kw| - 1];
      SetFromTripletsSums(pre, r, c);
      assert Kw == pre + [Kw[|Kw| - 1]];
      if exists t :: t in pre && t.row == r && t.col == c {
        var t :| t in pre && t.row == r && t.col == c;
        assert t in Kw;
      }
    }
  }

  /** triplets inside the mesh give a matrix inside the mesh */
  lemma SetFromTripletsIn(Kw: seq<Triplet>, nod: nat)
    requires TripletsIn(Kw, nod)
    ensures MatrixIn(SetFromTriplets(Kw), nod)
  {
    forall key | key in SetFromTriplets(Kw)
      ensures 0 <= key.0 < nod && 0 <= key.1 < nod
    {
      SetFromTripletsSums(Kw, key.0, key.1);
    }
  }

  // ---------------------------------------------------------------------
  // Triplets stay inside the mesh

  /** the triplets of tetrahedra inside the mesh are inside the mesh */
  lemma {:induction false} TetsTripletsIn(tets: seq<TetRec>, sigma: real, k: nat, nod: nat)
    requires k <= |tets| && forall e :: 0 <= e < |tets| ==> TetShaped(tets[e]) && TetIn(tets[e], nod)
    ensures TripletsIn(TetsTriplets(tets, sigma, k), nod)
  {
    if k > 0 {
      TetsTripletsIn(tets, sigma, k - 1, nod);
      var t := tets[k - 1];
      forall x | x in LocalTriplets(t, sigma)
        ensures 0 <= x.row < nod && 0 <= x.col < nod
      {
        PushedAreNonZeroEntries(t.ind, ConductMatrix(t, sigma), x);
      }
    }
  }

  /** erasing keeps only elements of the list */
  lemma EraseRemoveIfSubset(s: seq<Triplet>, p: Triplet -> bool, t: Triplet)
    requires EraseRemoveIf(s, p).Ok? && t in EraseRemoveIf(s, p).value
    ensures t in s
  {
    var n := |Kept(s, p)|;
    if t in Kept(s, p) {
      KeptMembers(s, p, t);
    } else {
      assert t in s[n + 1..];
    }
  }

  /** a completed run keeps the triplets inside the mesh */
  lemma {:induction false} RunKeepsIn(st: System, steps: seq<(int, real)>, nod: nat)
    requires |st.Lw| == nod && |st.Xw| == nod && StepsIn(steps, nod) && TripletsIn(st.Kw, nod)
    requires Run(st, steps).Ok?
    ensures TripletsIn(Run(st, steps).value.Kw, nod)
  {
    if steps != [] {
      var pre := steps[..|steps| - 1];
      var (i, V) := steps[|steps| - 1];
      RunKeepsIn(st, pre, nod);
      var s := Run(st, pre).value;
      var k1 := EraseRemoveIf(s.Kw, IsDiagonal).value;
      var k2 := EraseRemoveIf(k1, InRow(i)).value;
      forall t | t in k2
        ensures 0 <= t.row < nod && 0 <= t.col < nod
      {
        EraseRemoveIfSubset(k1, InRow(i), t);
        EraseRemoveIfSubset(s.Kw, IsDiagonal, t);
      }
    }
  }

  // ---------------------------------------------------------------------
  // Row maxima

  /** m is the largest magnitude of the stored entries of row i, 0 for a row without any */
  predicate IsRowMax(A: Sparse, i: int, m: real)
  {
    m >= 0.0
    && (forall key :: key in A && key.0 == i ==> Abs(A[key]) <= m)
    && (m == 0.0 || exists key :: key in A && key.0 == i && Abs(A[key]) == m)
  }

  /** the row maximum is unique */
  lemma RowMaxUnique(A: Sparse, i: int, m1: real, m2: real)
    requires IsRowMax(A, i, m1) && IsRowMax(A, i, m2)
    ensures m1 == m2
  {
    if m1 != 0.0 {
      var k1 :| k1 in A && k1.0 == i && Abs(A[k1]) == m1;
      assert m1 <= m2;
    }
    if m2 != 0.0 {
      var k2 :| k2 in A && k2.0 == i && Abs(A[k2]) == m2;
      assert m2 <= m1;
    }
  }

  /** the largest magnitude in row i among the stored entries of keys */
  ghost function RowMaxOver(A: Sparse, i: int, keys: set<(int, int)>): (m: real)
    requires keys <= A.Keys
    ensures m >= 0.0
    ensures forall key :: key in keys && key.0 == i ==> Abs(A[key]) <= m
    ensures m == 0.0 || exists key :: key in keys && key.0 == i && Abs(A[key]) == m
    decreases keys
  {
    if keys == {} then 0.0
    else
      var k :| k in keys;
      var m := RowMaxOver(A, i, keys - {k});
      if k.0 == i && Abs(A[k]) > m then Abs(A[k]) else m
  }

  /** the row maxima of A, by definition */
  ghost function RowMaxima(A: Sparse, nod: nat): (r: seq<real>)
    ensures |r| == nod && forall i :: 0 <= i < nod ==> IsRowMax(A, i, r[i])
  {
    seq(nod, i => RowMaxOver(A, i, A.Keys))
  }

  /** the `maxRow` loops: for every row, a pass over all stored entries keeps
      the largest magnitude met in that row; the entries are visited in an
      arbitrary order, which stands for Eigen's storage order */
  method MaxRow(A: Sparse, nod: nat) returns (maxRow: seq<real>)
    ensures maxRow == RowMaxima(A, nod)
  {
    maxRow := seq(nod, _ => 0.0);
    var i := 0;
    while i < nod
      invariant 0 <= i <= nod && |maxRow| == nod
      invariant forall j :: 0 <= j < i ==> IsRowMax(A, j, maxRow[j])
      invariant forall j :: i <= j < nod ==> maxRow[j] == 0.0
    {
      var keys := A.Keys;
      while keys != {}
        invariant keys <= A.Keys && |maxRow| == nod
        invariant forall j :: 0 <= j < i ==> IsRowMax(A, j, maxRow[j])
        invariant forall j :: i < j < nod ==> maxRow[j] == 0.0
        invariant maxRow[i] >= 0.0
        invariant forall key :: key in A && key !in keys && key.0 == i ==> Abs(A[key]) <= maxRow[i]
        invariant maxRow[i] == 0.0 || exists key :: key in A && key.0 == i && Abs(A[key]) == maxRow[i]
        decreases |keys|
      {
        var key :| key in keys;
        if key.0 == i && Abs(A[key]) > maxRow[i] {
          maxRow := maxRow[i := Abs(A[key])];
        }
        keys := keys - {key};
      }
      i := i + 1;
    }
    forall j | 0 <= j < nod
      ensures maxRow[j] == RowMaxima(A, nod)[j]
    {
      RowMaxUnique(A, j, maxRow[j], RowMaxima(A, nod)[j]);
    }
  }

  // ---------------------------------------------------------------------
  // Row scaling

  /** the matrix with row i divided by norme */
  function ScaleRow(A: Sparse, i: int, norme: real): Sparse
    requires norme != 0.0
  {
    map key | key in A :: if key.0 == i then A[key] / norme else A[key]
  }

  /** every row i divided by maxRow[i] */
  function Scaled(A: Sparse, maxRow: seq<real>): (B: Sparse)
    requires MatrixIn(A, |maxRow|) && forall i :: 0 <= i < |maxRow| ==> maxRow[i] != 0.0
    ensures B.Keys == A.Keys
  {
    map key | key in A :: A[key] / maxRow[key.0]
  }

  /** the scaling loop of `solve`: Lw[i] and row i are divided by maxRow[i];
      a zero maximum makes the quotients infinite or NaN */
  method ScaleRows(A: Sparse, maxRow: seq<real>, Lw: array<real>) returns (B: Outcome<Sparse>)
    requires |maxRow| == Lw.Length && MatrixIn(A, Lw.Length)
    modifies Lw
    ensures B.Ok? <==> forall i :: 0 <= i < |maxRow| ==> maxRow[i] != 0.0
    ensures !B.Ok? ==> B == NotFinite
    ensures B.Ok? ==> B.value == Scaled(A, maxRow)
    ensures B.Ok? ==> forall i :: 0 <= i < Lw.Length ==> Lw[i] == old(Lw[i]) / maxRow[i]
  {
    var Kr := A;
    var i := 0;
    while i < Lw.Length
      invariant 0 <= i <= Lw.Length
      invariant forall j :: 0 <= j < i ==> maxRow[j] != 0.0
      invariant Kr.Keys == A.Keys
      invariant forall key :: key in A ==> Kr[key] == if key.0 < i then A[key] / maxRow[key.0] else A[key]
      invariant forall j :: 0 <= j < Lw.Length ==> Lw[j] == if j < i then old(Lw[j]) / maxRow[j] else old(Lw[j])
    {
      var norme := maxRow[i];
      if norme == 0.0 {
        return NotFinite;
      }
      Lw[i] := Lw[i] / norme;
      Kr := ScaleRow(Kr, i, norme);
      i := i + 1;
    }
    B := Ok(Kr);
  }

  /** |x| / m is at most 1 when |x| <= m, and equals 1 when |x| == m */
  lemma DivByBound(x: real, m: real)
    requires m > 0.0 && Abs(x) <= m
    ensures Abs(x / m) <= 1.0
    ensures Abs(x) == m ==> Abs(x / m) == 1.0
  {
    DivBounds(x, m, -1.0, 1.0);
    if Abs(x) == m {
      if x == m {
        assert x / m == 1.0;
      } else {
        assert x == -m;
        assert x / m == -1.0;
      }
    }
  }

  /** row i holds an entry of magnitude 1 */
  predicate HasUnitEntry(B: Sparse, i: int)
  {
    exists key :: key in B && key.0 == i && Abs(B[key]) == 1.0
  }

  /** after the scaling by the row maxima every entry has magnitude at most 1,
      and every row holds one of magnitude 1 */
  lemma ScaledRowsBounded(A: Sparse, nod: nat)
    requires MatrixIn(A, nod) && forall i :: 0 <= i < nod ==> RowMaxima(A, nod)[i] != 0.0
    ensures forall key :: key in A ==> Abs(Scaled(A, RowMaxima(A, nod))[key]) <= 1.0
    ensures forall i :: 0 <= i < nod ==> HasUnitEntry(Scaled(A, RowMaxima(A, nod)), i)
  {
    var m := RowMaxima(A, nod);
    var B := Scaled(A, m);
    forall key | key in A
      ensures Abs(B[key]) <= 1.0
    {
      DivByBound(A[key], m[key.0]);
    }
    forall i | 0 <= i < nod
      ensures HasUnitEntry(B, i)
    {
      assert IsRowMax(A, i, m[i]) && m[i] != 0.0;
      var key :| key in A && key.0 == i && Abs(A[key]) == m[i];
      DivByBound(A[key], m[i]);
      assert key in B && key.0 == i && Abs(B[key]) == 1.0;
    }
  }

  /** the sum over columns j < n of A(i, j) * X[j], absent entries being zero */
  function RowDot(A: Sparse, i: int, X: seq<real>, n: nat): real
    requires n <= |X|
  {
    if n == 0 then 0.0
    else RowDot(A, i, X, n - 1) + (if (i, n - 1) in A then A[(i, n - 1)] else 0.0) * X[n - 1]
  }

  lemma DivDistributes(a: real, b: real, x: real, m: real)
    requires m != 0.0
    ensures a / m + b / m * x == (a + b * x) / m
  {
  }

  /** dividing a row by m divides its product with any X by m */
  lemma {:induction false} ScaleRowDot(A: Sparse, maxRow: seq<real>, i: int, X: seq<real>, n: nat)
    requires MatrixIn(A, |maxRow|) && forall j :: 0 <= j < |maxRow| ==> maxRow[j] != 0.0
    requires 0 <= i < |maxRow| && n <= |X|
    ensures RowDot(Scaled(A, maxRow), i, X, n) == RowDot(A, i, X, n) / maxRow[i]
  {
    if n > 0 {
      ScaleRowDot(A, maxRow, i, X, n - 1);
      var a := if (i, n - 1) in A then A[(i, n - 1)] else 0.0;
      DivDistributes(RowDot(A, i, X, n - 1), a, X[n - 1], maxRow[i]);
    }
  }

  /** the scaling keeps the solutions: X satisfies equation i of the scaled
      system exactly when it satisfies equation i of the original one */
  lemma ScalingKeepsSolutions(A: Sparse, maxRow: seq<real>, L: seq<real>, X: seq<real>, i: int)
    requires MatrixIn(A, |maxRow|) && forall j :: 0 <= j < |maxRow| ==> maxRow[j] != 0.0
    requires 0 <= i < |maxRow| == |L| == |X|
    ensures RowDot(Scaled(A, maxRow), i, X, |X|) == L[i] / maxRow[i] <==> RowDot(A, i, X, |X|) == L[i]
  {
    ScaleRowDot(A, maxRow, i, X, |X|);
    DivInjective(RowDot(A, i, X, |X|), L[i], maxRow[i]);
  }

  lemma DivInjective(a: real, b: real, m: real)
    requires m != 0.0
    ensures a / m == b / m <==> a == b
  {
    assert a / m * m == a;
    assert b / m * m == b;
  }

  // ---------------------------------------------------------------------
  // The system handed to BiCGSTAB

  /** the mesh data the solver reads is consistent with nod nodes */
  predicate MeshIn(tets: seq<TetRec>, facs: seq<Facette.Fac>, surfaces: seq<Surface>, ha: seq<seq<real>>, nod: nat)
  {
    (forall e {:trigger tets[e]} :: 0 <= e < |tets| ==> TetIn(tets[e], nod))
    && (forall e {:trigger facs[e]} :: 0 <= e < |facs| ==> FacIn(facs[e], nod))
    && SurfacesIn(surfaces, nod) && HatTable(ha)
  }

  /** the Dirichlet-constrained system of `solve`, before the scaling: Kw
      from the tetrahedra, Lw from the faces at the mean potential, then the
      boundary conditions; Xw0 is the initial content of Xw */
  ghost function Constrained(tets: seq<TetRec>, facs: seq<Facette.Fac>, surfaces: seq<Surface>, ha: seq<seq<real>>,
                             nod: nat, sigma: real, bcs: seq<Condition>, Xw0: seq<real>): (r: Outcome<System>)
    requires MeshIn(tets, facs, surfaces, ha, nod) && |Xw0| == nod
    ensures r.Ok? ==> |r.value.Lw| == nod && |r.value.Xw| == nod && TripletsIn(r.value.Kw, nod)
  {
    match Mean(bcs)
    case Ok(potVal) =>
      (var Kw := TetsTriplets(tets, sigma, |tets|);
       var st := System(Kw, FacesLoad(seq(nod, _ => 0.0), facs, ha, potVal, |facs|), Xw0);
       AllStepsIn(surfaces, bcs, |bcs|, nod);
       TetsTripletsIn(tets, sigma, |tets|, nod);
       var r := Run(st, AllSteps(surfaces, bcs, |bcs|));
       if r.Ok? then RunKeepsIn(st, AllSteps(surfaces, bcs, |bcs|), nod); r else r)
    case NotFinite => NotFinite
    case Undefined => Undefined
  }

  /** the scaled system of `solve`: matrix and right-hand side */
  ghost function Preconditioned(tets: seq<TetRec>, facs: seq<Facette.Fac>, surfaces: seq<Surface>, ha: seq<seq<real>>,
                                nod: nat, sigma: real, bcs: seq<Condition>, Xw0: seq<real>): (r: Outcome<(Sparse, seq<real>)>)
    requires MeshIn(tets, facs, surfaces, ha, nod) && |Xw0| == nod
    ensures r.Ok? ==> |r.value.1| == nod
  {
    match Constrained(tets, facs, surfaces, ha, nod, sigma, bcs, Xw0)
    case Ok(st) => ScaledSystem(st.Kw, st.Lw)
    case NotFinite => NotFinite
    case Undefined => Undefined
  }

  /** the uninitialised content of Xw has no influence on the scaled system */
  lemma PreconditionedIgnoresXw(tets: seq<TetRec>, facs: seq<Facette.Fac>, surfaces: seq<Surface>, ha: seq<seq<real>>,
                                nod: nat, sigma: real, bcs: seq<Condition>, X1: seq<real>, X2: seq<real>)
    requires MeshIn(tets, facs, surfaces, ha, nod) && |X1| == nod && |X2| == nod
    ensures Preconditioned(tets, facs, surfaces, ha, nod, sigma, bcs, X1)
            == Preconditioned(tets, facs, surfaces, ha, nod, sigma, bcs, X2)
  {
    if Mean(bcs).Ok? {
      var Kw := TetsTriplets(tets, sigma, |tets|);
      var Lw := FacesLoad(seq(nod, _ => 0.0), facs, ha, Mean(bcs).value, |facs|);
      AllStepsIn(surfaces, bcs, |bcs|, nod);
      RunIgnoresXw(Kw, Lw, X1, X2, AllSteps(surfaces, bcs, |bcs|));
    }
  }

  /** the matrix of the triplets Kw and the vector Lw, both with every row
      divided by the row maximum of the matrix; a zero maximum gives
      non-finite values */
  ghost function ScaledSystem(Kw: seq<Triplet>, Lw: seq<real>): (r: Outcome<(Sparse, seq<real>)>)
    requires TripletsIn(Kw, |Lw|)
    ensures r.Ok? ==> |r.value.1| == |Lw|
  {
    SetFromTripletsIn(Kw, |Lw|);
    var A := SetFromTriplets(Kw);
    var m := RowMaxima(A, |Lw|);
    if exists i :: 0 <= i < |Lw| && m[i] == 0.0 then NotFinite
    else Ok((Scaled(A, m), seq(|Lw|, i requires 0 <= i < |Lw| => Lw[i] / m[i])))
  }

  /** the first part of `solve`: `prepareData` on a zero Lw, then the
      boundary conditions; Xw starts as Xw0 */
  method ConstrainedSystem(tets: seq<TetRec>, facs: seq<Facette.Fac>, surfaces: seq<Surface>, ha: seq<seq<real>>,
                           nod: nat, sigma: real, bcs: seq<Condition>, Xw0: seq<real>)
    returns (Kw: Outcome<seq<Triplet>>, Lw: array<real>, Xw: array<real>)
    requires MeshIn(tets, facs, surfaces, ha, nod) && |Xw0| == nod
    ensures fresh(Lw) && fresh(Xw) && Lw.Length == nod && Xw.Length == nod
    ensures WithVectors(Kw, Lw[..], Xw[..]) == Constrained(tets, facs, surfaces, ha, nod, sigma, bcs, Xw0)
  {
    Lw := new real[nod](_ => 0.0);
    Xw := new real[nod](i requires 0 <= i < nod => Xw0[i]);
    ghost var zeros := Lw[..];
    assert zeros == seq(nod, _ => 0.0);
    var Kw0, potVal := PrepareData(tets, facs, sigma, bcs, ha, [], Lw);
    if !potVal.Ok? {
      return NotFinite, Lw, Xw;
    }
    assert Kw0 == TetsTriplets(tets, sigma, |tets|);
    assert Xw[..] == Xw0;
    Kw := ApplyConditions(Kw0, Lw, Xw, surfaces, bcs);
  }

  /** the second part of `solve`: `setFromTriplets`, the row maxima and the scaling */
  method ScaleSystem(Kw: seq<Triplet>, Lw: array<real>) returns (B: Outcome<Sparse>)
    requires TripletsIn(Kw, Lw.Length)
    modifies Lw
    ensures B.Ok? ==> ScaledSystem(Kw, old(Lw[..])) == Ok((B.value, Lw[..]))
    ensures !B.Ok? ==> B == NotFinite && ScaledSystem(Kw, old(Lw[..])) == NotFinite
  {
    ghost var L0 := Lw[..];
    var n := Lw.Length;
    var Kr := SetFromTriplets(Kw);
    SetFromTripletsIn(Kw, n);
    var maxRow := MaxRow(Kr, n);
    assert maxRow == RowMaxima(SetFromTriplets(Kw), |L0|);
    B := ScaleRows(Kr, maxRow, Lw);
    if B.Ok? {
      ghost var L1 := seq(n, i requires 0 <= i < n => L0[i] / maxRow[i]);
      assert Lw[..] == L1;
      assert ScaledSystem(Kw, L0) == Ok((Scaled(Kr, maxRow), L1));
    } else {
      ghost var i :| 0 <= i < n && maxRow[i] == 0.0;
      assert ScaledSystem(Kw, L0) == NotFinite;
    }
  }

  // ---------------------------------------------------------------------
  // Gradient of the potential and Hm

  /** the first k terms of the sum over the summits of V[ind[i]] grad a_i at point q */
  function GradSum(V: seq<real>, t: TetRec, q: nat, k: nat): Pt3
    requires TetIn(t, |V|) && q < |t.weight| && k <= Tetra.N
  {
    if k == 0 then Zero
    else Add(GradSum(V, t, q, k - 1), ScaleLeft(V[t.ind[k - 1]], Pt3(t.dadx[k - 1][q], t.dady[k - 1][q], t.dadz[k - 1][q])))
  }

  /** the first k terms of the sum over the summits of grad a_i at point q */
  function ShapeGradSum(t: TetRec, q: nat, k: nat): Pt3
    requires TetShaped(t) && q < |t.weight| && k <= Tetra.N
  {
    if k == 0 then Zero else Add(ShapeGradSum(t, q, k - 1), Pt3(t.dadx[k - 1][q], t.dady[k - 1][q], t.dadz[k - 1][q]))
  }

  /** one more summit in the sum, written coordinate by coordinate */
  lemma GradSumStep(V: seq<real>, t: TetRec, q: nat, i: nat, v: real, dx: real, dy: real, dz: real)
    requires TetIn(t, |V|) && q < |t.weight| && i < Tetra.N
    requires v == V[t.ind[i]] && dx == t.dadx[i][q] && dy == t.dady[i][q] && dz == t.dadz[i][q]
    ensures GradSum(V, t, q, i + 1) == Add(GradSum(V, t, q, i), Pt3(v * dx, v * dy, v * dz))
  {
    assert ScaleLeft(v, Pt3(dx, dy, dz)) == Pt3(v * dx, v * dy, v * dz);
  }

  /** the i loop of `calc_gradV`: the gradient at quadrature point q */
  method GradAt(V: seq<real>, t: TetRec, q: nat) returns (p: Pt3)
    requires TetIn(t, |V|) && q < |t.weight|
    ensures p == GradSum(V, t, q, Tetra.N)
  {
    var vx, vy, vz := 0.0, 0.0, 0.0;
    var i := 0;
    while i < Tetra.N
      invariant 0 <= i <= Tetra.N
      invariant Pt3(vx, vy, vz) == GradSum(V, t, q, i)
    {
      var vTet := V[t.ind[i]];
      var dx, dy, dz := t.dadx[i][q], t.dady[i][q], t.dadz[i][q];
      GradSumStep(V, t, q, i, vTet, dx, dy, dz);
      vx := vx + vTet * dx;
      vy := vy + vTet * dy;
      vz := vz + vTet * dz;
      i := i + 1;
    }
    p := Pt3(vx, vy, vz);
  }

  /** with the same potential c on every summit the gradient is c times the
      sum of the shape gradients */
  lemma {:induction false} GradOfUniform(V: seq<real>, t: TetRec, q: nat, k: nat, c: real)
    requires TetIn(t, |V|) && q < |t.weight| && k <= Tetra.N
    requires forall i :: 0 <= i < Tetra.N ==> V[t.ind[i]] == c
    ensures GradSum(V, t, q, k) == ScaleLeft(c, ShapeGradSum(t, q, k))
  {
    if k > 0 {
      GradOfUniform(V, t, q, k - 1, c);
      var d := Pt3(t.dadx[k - 1][q], t.dady[k - 1][q], t.dadz[k - 1][q]);
      ScaleLeftAdd(c, ShapeGradSum(t, q, k - 1), d);
    }
  }

  /** shape gradients that sum to zero (the hat functions sum to one) give a
      zero gradient for a uniform potential */
  lemma UniformPotentialNoGradient(V: seq<real>, t: TetRec, q: nat, c: real)
    requires TetIn(t, |V|) && q < |t.weight|
    requires forall i :: 0 <= i < Tetra.N ==> V[t.ind[i]] == c
    requires ShapeGradSum(t, q, Tetra.N) == Zero
    ensures GradSum(V, t, q, Tetra.N) == Zero
  {
    GradOfUniform(V, t, q, Tetra.N, c);
  }

  /** the gradient, and its sum of shape gradients, is linear in V */
  lemma {:induction false} GradSumLinear(V: seq<real>, V1: seq<real>, V2: seq<real>, t: TetRec, q: nat, k: nat)
    requires |V| == |V1| == |V2| && TetIn(t, |V|) && q < |t.weight| && k <= Tetra.N
    requires forall j :: 0 <= j < |V| ==> V[j] == V1[j] + V2[j]
    ensures GradSum(V, t, q, k) == Add(GradSum(V1, t, q, k), GradSum(V2, t, q, k))
  {
    if k > 0 {
      GradSumLinear(V, V1, V2, t, q, k - 1);
      var j := t.ind[k - 1];
      var d := Pt3(t.dadx[k - 1][q], t.dady[k - 1][q], t.dadz[k - 1][q]);
      ScaleLeftSum(V1[j], V2[j], d);
      AddRegroup(GradSum(V1, t, q, k - 1), GradSum(V2, t, q, k - 1), ScaleLeft(V1[j], d), ScaleLeft(V2[j], d));
    }
  }

  /** the gradient of V at every quadrature point of t */
  function GradField(V: seq<real>, t: TetRec): (g: seq<Pt3>)
    requires TetIn(t, |V|)
    ensures |g| == |t.weight| && forall q :: 0 <= q < |t.weight| ==> g[q] == GradSum(V, t, q, Tetra.N)
  {
    seq(|t.weight|, q requires 0 <= q < |t.weight| => GradSum(V, t, q, Tetra.N))
  }

  /** the gradient tables of all tetrahedra */
  function GradFields(V: seq<real>, tets: seq<TetRec>): (gs: seq<seq<Pt3>>)
    requires forall e {:trigger tets[e]} :: 0 <= e < |tets| ==> TetIn(tets[e], |V|)
    ensures |gs| == |tets| && forall e :: 0 <= e < |tets| ==> gs[e] == GradField(V, tets[e])
  {
    seq(|tets|, e requires 0 <= e < |tets| => GradField(V, tets[e]))
  }

  /** the Hm tables of all tetrahedra, from their gradient tables */
  function HmFields(sigma: real, tets: seq<TetRec>, gs: seq<seq<Pt3>>): (hs: seq<seq<Pt3>>)
    requires |gs| == |tets| && forall e :: 0 <= e < |tets| ==> |gs[e]| == |tets[e].ptGauss|
    ensures |hs| == |tets| && forall e :: 0 <= e < |tets| ==> hs[e] == HmField(sigma, tets[e], gs[e])
  {
    seq(|tets|, e requires 0 <= e < |tets| => HmField(sigma, tets[e], gs[e]))
  }

  /** what `solve` returns for a scaled system: whether BiCGSTAB used fewer
      than maxIter iterations */
  function Converged(p: Outcome<(Sparse, seq<real>)>, bicgstab: (Sparse, seq<real>, real, nat) -> (seq<real>, nat),
                     tol: real, maxIter: nat): Outcome<bool>
  {
    match p
    case Ok(sys) => Ok(bicgstab(sys.0, sys.1, tol, maxIter).1 < maxIter)
    case NotFinite => NotFinite
    case Undefined => Undefined
  }

  /** -sigma (grad V x p_g) at every quadrature point */
  function HmField(sigma: real, t: TetRec, g: seq<Pt3>): (h: seq<Pt3>)
    requires |g| == |t.ptGauss|
    ensures |h| == |g|
  {
    seq(|g|, q requires 0 <= q < |g| => ScaleLeft(-sigma, Cross(g[q], t.ptGauss[q])))
  }

  /** Hm is orthogonal to the gradient and to the Gauss point */
  lemma HmOrthogonal(sigma: real, t: TetRec, g: seq<Pt3>, q: nat)
    requires |g| == |t.ptGauss| && q < |g|
    ensures PScal(HmField(sigma, t, g)[q], g[q]) == 0.0
    ensures PScal(HmField(sigma, t, g)[q], t.ptGauss[q]) == 0.0
  {
    var c := Cross(g[q], t.ptGauss[q]);
    PScalScaleLeft(-sigma, c, g[q]);
    PScalScaleLeft(-sigma, c, t.ptGauss[q]);
    assert PScal(c, g[q]) == PScal(g[q], c);
    assert PScal(c, t.ptGauss[q]) == PScal(t.ptGauss[q], c);
  }

  /** the coordinate r of p, rows 0, 1 and 2 of a field table */
  function Row3(p: Pt3, r: nat): real
  {
    if r == 0 then p.x else if r == 1 then p.y else p.z
  }

  class Solver {
    /** the copy of the mesh: tetrahedra, faces, surfaces, number of nodes,
        and the hat functions of the faces */
    const tets: seq<TetRec>
    const facs: seq<Facette.Fac>
    const surfaces: seq<Surface>
    const nod: nat
    const ha: seq<seq<real>>
    /** conductivity and boundary conditions */
    const sigma: real
    const bcs: seq<Condition>
    /** iteration cap of BiCGSTAB */
    const maxIter: nat
    /** potential of every node */
    var V: seq<real>
    /** gradient of V and Hm, one table of NPI vectors per tetrahedron */
    var gradV: seq<seq<Pt3>>
    var Hm: seq<seq<Pt3>>
    /** how the solve ended: convergence, or a non-finite or undefined computation */
    var status: Outcome<bool>

    predicate Valid()
      reads this
    {
      MeshIn(tets, facs, surfaces, ha, nod)
    }

    /** the constructor: `solve`, then on convergence the gradient and Hm of
        every tetrahedron (the source ends the program otherwise) */
    constructor(tets: seq<TetRec>, facs: seq<Facette.Fac>, surfaces: seq<Surface>, nod: nat, ha: seq<seq<real>>,
                sigma: real, bcs: seq<Condition>, maxIter: nat, tol: real, Xw0: seq<real>,
                bicgstab: (Sparse, seq<real>, real, nat) -> (seq<real>, nat))
      requires MeshIn(tets, facs, surfaces, ha, nod) && |Xw0| == nod
      requires forall A, b, tol', n :: |bicgstab(A, b, tol', n).0| == |b|
      ensures Valid()
      ensures this.tets == tets && this.facs == facs && this.surfaces == surfaces && this.nod == nod
      ensures this.ha == ha && this.sigma == sigma && this.bcs == bcs && this.maxIter == maxIter
      ensures status == Converged(Preconditioned(tets, facs, surfaces, ha, nod, sigma, bcs, Xw0), bicgstab, tol, maxIter)
      ensures status.Ok? ==> var sys := Preconditioned(tets, facs, surfaces, ha, nod, sigma, bcs, Xw0).value;
                             V == bicgstab(sys.0, sys.1, tol, maxIter).0
      ensures status == Ok(true) ==> |V| == nod && gradV == GradFields(V, tets) && Hm == HmFields(sigma, tets, gradV)
    {
      this.tets, this.facs, this.surfaces, this.nod, this.ha := tets, facs, surfaces, nod, ha;
      this.sigma, this.bcs, this.maxIter := sigma, bcs, maxIter;
      V, gradV, Hm, status := [], [], [], NotFinite;
      new;
      status := Solve(tol, Xw0, bicgstab);
      if status == Ok(true) {
        assert gradV == [] && Hm == [];
        ComputeFields();
        ghost var g := GradFields(V, tets);
        assert gradV == [] + g && [] + g == g;
        ghost var h := HmFields(sigma, tets, g);
        assert Hm == [] + h && [] + h == h;
      }
    }

    /** `solve`: the potentials are the solution BiCGSTAB returns for the
        scaled system; the result says whether it used fewer than maxIter
        iterations */
    method Solve(tol: real, Xw0: seq<real>, bicgstab: (Sparse, seq<real>, real, nat) -> (seq<real>, nat))
      returns (r: Outcome<bool>)
      requires Valid() && |Xw0| == nod
      requires forall A, b, tol', n :: |bicgstab(A, b, tol', n).0| == |b|
      modifies this
      ensures Valid() && gradV == old(gradV) && Hm == old(Hm) && status == old(status)
      ensures r == Converged(Preconditioned(tets, facs, surfaces, ha, nod, sigma, bcs, Xw0), bicgstab, tol, maxIter)
      ensures r.Ok? ==> var sys := Preconditioned(tets, facs, surfaces, ha, nod, sigma, bcs, Xw0).value;
                        V == bicgstab(sys.0, sys.1, tol, maxIter).0
      ensures !r.Ok? ==> V == old(V)
    {
      var Kw, Lw, Xw := ConstrainedSystem(tets, facs, surfaces, ha, nod, sigma, bcs, Xw0);
      if !Kw.Ok? {
        return if Kw.NotFinite? then NotFinite else Undefined;
      }
      var B := ScaleSystem(Kw.value, Lw);
      if !B.Ok? {
        return NotFinite;
      }
      var (sol, iterations) := bicgstab(B.value, Lw[..], tol, maxIter);
      var v := seq(nod, _ => 0.0);
      var i := 0;
      while i < nod
        invariant 0 <= i <= nod && |v| == nod
        invariant forall j :: 0 <= j < i ==> v[j] == sol[j]
      {
        v := v[i := sol[i]];
        i := i + 1;
      }
      V := v;
      r := Ok(iterations < maxIter);
    }

    /** `calc_gradV`: at every quadrature point, the sum over the summits of
        V[ind[i]] times the gradient of the hat function i */
    method CalcGradV(t: TetRec) returns (g: seq<Pt3>)
      requires TetIn(t, |V|)
      ensures g == GradField(V, t)
    {
      g := seq(|t.weight|, _ => Zero);
      var npi := 0;
      while npi < |t.weight|
        invariant 0 <= npi <= |t.weight| && |g| == |t.weight|
        invariant forall q :: 0 <= q < npi ==> g[q] == GradSum(V, t, q, Tetra.N)
      {
        var p := GradAt(V, t, npi);
        g := g[npi := p];
        npi := npi + 1;
      }
    }

    /** `calc_Hm`: -sigma (grad V x p_g) at every quadrature point, a vector
        orthogonal to both the gradient and the Gauss point */
    method CalcHm(t: TetRec, g: seq<Pt3>) returns (h: seq<Pt3>)
      requires |g| == |t.ptGauss|
      ensures h == HmField(sigma, t, g)
      ensures forall q :: 0 <= q < |g| ==> PScal(h[q], g[q]) == 0.0 && PScal(h[q], t.ptGauss[q]) == 0.0
    {
      h := seq(|g|, _ => Zero);
      var npi := 0;
      while npi < |g|
        invariant 0 <= npi <= |g| && |h| == |g|
        invariant forall q :: 0 <= q < npi ==> h[q] == HmField(sigma, t, g)[q]
      {
        h := h[npi := ScaleLeft(-sigma, Cross(g[npi], t.ptGauss[npi]))];
        npi := npi + 1;
      }
      forall q | 0 <= q < |g|
        ensures PScal(h[q], g[q]) == 0.0 && PScal(h[q], t.ptGauss[q]) == 0.0
      {
        HmOrthogonal(sigma, t, g, q);
      }
    }

    /** the loop of the constructor: gradV and Hm receive one table per tetrahedron */
    method ComputeFields()
      requires Valid() && |V| == nod
      modifies this
      ensures Valid() && V == old(V) && status == old(status)
      ensures gradV == old(gradV) + GradFields(V, tets)
      ensures Hm == old(Hm) + HmFields(sigma, tets, GradFields(V, tets))
    {
      var gs: seq<seq<Pt3>> := [];
      var hs: seq<seq<Pt3>> := [];
      assert forall e :: 0 <= e < |tets| ==> TetIn(tets[e], |V|);
      var k := 0;
      while k < |tets|
        invariant unchanged(this)
        invariant forall e :: 0 <= e < |tets| ==> TetIn(tets[e], |V|)
        invariant 0 <= k <= |tets| && |gs| == k && |hs| == k
        invariant forall e :: 0 <= e < k ==> gs[e] == GradField(V, tets[e])
        invariant forall e :: 0 <= e < k ==> hs[e] == HmField(sigma, tets[e], GradField(V, tets[e]))
      {
        var g := CalcGradV(tets[k]);
        var h := CalcHm(tets[k], g);
        gs := gs + [g];
        hs := hs + [h];
        k := k + 1;
      }
      gradV := gradV + gs;
      Hm := Hm + hs;
    }

    /** `extraField` of tetrahedron t (set by `prepareExtras`): column npi of
        H receives Hm[t.idx][npi]; nothing else of H changes */
    method ExtraField(t: TetRec, H: array2<real>)
      requires 0 <= t.idx < |Hm| && H.Length0 == DIM && H.Length1 == |Hm[t.idx]|
      modifies H
      ensures forall r, c :: 0 <= r < DIM && 0 <= c < H.Length1 ==> H[r, c] == old(H[r, c]) + Row3(Hm[t.idx][c], r)
    {
      var npi := 0;
      while npi < H.Length1
        invariant 0 <= npi <= H.Length1
        invariant forall r, c :: 0 <= r < DIM && 0 <= c < H.Length1 ==>
                    H[r, c] == old(H[r, c]) + (if c < npi then Row3(Hm[t.idx][c], r) else 0.0)
      {
        var p := Hm[t.idx][npi];
        H[0, npi] := H[0, npi] + p.x;
        H[1, npi] := H[1, npi] + p.y;
        H[2, npi] := H[2, npi] + p.z;
        npi := npi + 1;
      }
    }
  }
}
