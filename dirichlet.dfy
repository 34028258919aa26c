/**
 * Dirichlet boundary conditions in `electrostatSolver::solve`
 * (electrostatSolver.h): for every condition (surface name, potential V)
 * whose surface exists, and for every summit i of every triangle of that
 * surface, the triplet list Kw loses one diagonal triplet and one triplet
 * of row i, receives the triplet (i, i, 1e9), and Lw[i] and Xw[i] become
 * V * 1e9 and V.
 *
 * Each removal is `Kw.erase(std::remove_if(...))` with the single-iterator
 * overload of `erase`: `remove_if` (as libstdc++ implements it) moves the
 * triplets that do not match to the front, in order, and leaves every later
 * position with its old contents; `erase` then removes the one element at
 * the returned position. When nothing matches that position is `end()` and
 * the erase is undefined behaviour.
 */
module Dirichlet {
  import opened Electrostat

  /** the penalty written on the diagonal of a constrained node */
  const Penalty: real := 1_000_000_000.0

  /** a triangle of a surface: its three node indices */
  datatype Triangle = Triangle(ind: seq<int>)

  /** `Mesh::Surf`: a named list of triangles */
  datatype Surface = Surface(name: string, elem: seq<Triangle>)

  /** the edited state: the triplet list and the vectors Lw and Xw */
  datatype System = System(Kw: seq<Triplet>, Lw: seq<real>, Xw: seq<real>)

  predicate IsDiagonal(t: Triplet) { t.row == t.col }

  // ---------------------------------------------------------------------
  // erase(remove_if(...))

  /** the elements of s that p rejects, in their order in s */
  function Kept(s: seq<Triplet>, p: Triplet -> bool): (r: seq<Triplet>)
    ensures |r| <= |s|
  {
    if s == [] then [] else (if p(s[0]) then [] else [s[0]]) + Kept(s[1..], p)
  }

  /** the number of elements of s that p accepts */
  function Count(s: seq<Triplet>, p: Triplet -> bool): nat
  {
    if s == [] then 0 else (if p(s[0]) then 1 else 0) + Count(s[1..], p)
  }

  /** `remove_if` keeps exactly the rejected elements */
  lemma {:induction false} KeptMembers(s: seq<Triplet>, p: Triplet -> bool, t: Triplet)
    ensures t in Kept(s, p) <==> t in s && !p(t)
  {
    if s != [] {
      KeptMembers(s[1..], p, t);
      assert s == [s[0]] + s[1..];
    }
  }

  /** every accepted element is missing from the kept prefix */
  lemma {:induction false} KeptLength(s: seq<Triplet>, p: Triplet -> bool)
    ensures |Kept(s, p)| == |s| - Count(s, p)
  {
    if s != [] {
      KeptLength(s[1..], p);
    }
  }

  /** p accepts some element of s exactly when Count is positive */
  lemma {:induction false} CountPositive(s: seq<Triplet>, p: Triplet -> bool)
    ensures Count(s, p) > 0 <==> exists t :: t in s && p(t)
  {
    if s != [] {
      CountPositive(s[1..], p);
      assert s == [s[0]] + s[1..];
    }
  }

  /** `s.erase(std::remove_if(s.begin(), s.end(), p))`: defined exactly when p
      accepts some element; then the list is one shorter, starts with the
      rejected elements in order and ends with the old contents behind the
      first position after them */
  function EraseRemoveIf(s: seq<Triplet>, p: Triplet -> bool): (r: Outcome<seq<Triplet>>)
    ensures r.Ok? <==> exists t :: t in s && p(t)
    ensures r.Ok? ==> var n := |Kept(s, p)|;
                      n < |s| && |r.value| == |s| - 1 && r.value[..n] == Kept(s, p) && r.value[n..] == s[n + 1..]
    ensures !r.Ok? ==> r == Undefined
  {
    KeptLength(s, p);
    CountPositive(s, p);
    var n := |Kept(s, p)|;
    if n == |s| then Undefined else Ok(Kept(s, p) + s[n + 1..])
  }

  /** with one accepted element the erase removes it and keeps the rest in order */
  lemma EraseRemoveIfSingle(s: seq<Triplet>, p: Triplet -> bool)
    requires Count(s, p) == 1
    ensures EraseRemoveIf(s, p) == Ok(Kept(s, p))
  {
    KeptLength(s, p);
    assert s[|s|..] == [];
    assert Kept(s, p) + [] == Kept(s, p);
  }

  /** with two diagonal triplets, only the first one is removed: the second
      one moves to the front */
  lemma EraseRemoveIfKeepsLaterMatch()
    ensures EraseRemoveIf([Triplet(0, 0, 1.0), Triplet(1, 1, 2.0)], IsDiagonal) == Ok([Triplet(1, 1, 2.0)])
  {
    var s := [Triplet(0, 0, 1.0), Triplet(1, 1, 2.0)];
    assert s[1..][1..] == [];
    assert Kept(s[1..][1..], IsDiagonal) == [];
    assert IsDiagonal(s[1..][0]);
    assert Kept(s[1..], IsDiagonal) == [];
    assert IsDiagonal(s[0]);
    assert Kept(s, IsDiagonal) == [];
    assert EraseRemoveIf(s, IsDiagonal) == Ok(Kept(s, IsDiagonal) + s[1..]);
    assert Kept(s, IsDiagonal) + s[1..] == [Triplet(1, 1, 2.0)];
  }

  /** with two diagonal triplets ahead of an off-diagonal one, both diagonal
      triplets disappear and the off-diagonal one is there twice */
  lemma EraseRemoveIfDuplicatesTail()
    ensures EraseRemoveIf([Triplet(0, 0, 1.0), Triplet(1, 1, 2.0), Triplet(1, 2, 3.0)], IsDiagonal)
            == Ok([Triplet(1, 2, 3.0), Triplet(1, 2, 3.0)])
  {
    var s := [Triplet(0, 0, 1.0), Triplet(1, 1, 2.0), Triplet(1, 2, 3.0)];
    assert s[1..][1..][1..] == [];
    assert !IsDiagonal(s[1..][1..][0]);
    assert Kept(s[1..][1..], IsDiagonal) == [Triplet(1, 2, 3.0)];
    assert IsDiagonal(s[1..][0]);
    assert Kept(s[1..], IsDiagonal) == [Triplet(1, 2, 3.0)];
    assert IsDiagonal(s[0]);
    assert Kept(s, IsDiagonal) == [Triplet(1, 2, 3.0)];
    assert EraseRemoveIf(s, IsDiagonal) == Ok(Kept(s, IsDiagonal) + s[2..]);
    assert Kept(s, IsDiagonal) + s[2..] == [Triplet(1, 2, 3.0), Triplet(1, 2, 3.0)];
  }

  // ---------------------------------------------------------------------
  // One constrained node

  /** the triplets of row i */
  function InRow(i: int): Triplet -> bool
  {
    (t: Triplet) => t.row == i
  }

  /** the edits for summit i of a triangle of a surface held at potential V:
      defined when Kw holds a diagonal triplet and, after its first removal,
      a triplet of row i; a step then shortens Kw by one, ends it with
      (i, i, 1e9), writes V * 1e9 and V at i, and changes nothing else */
  function NodeStep(st: System, i: int, V: real): (r: Outcome<System>)
    requires 0 <= i < |st.Lw| && 0 <= i < |st.Xw|
    ensures r.Ok? <==>
              (exists t :: t in st.Kw && IsDiagonal(t))
              && var k1 := EraseRemoveIf(st.Kw, IsDiagonal);
                 k1.Ok? && exists t :: t in k1.value && t.row == i
    ensures r.Ok? ==>
              |r.value.Kw| == |st.Kw| - 1 && r.value.Kw[|r.value.Kw| - 1] == Triplet(i, i, Penalty)
              && |r.value.Lw| == |st.Lw| && |r.value.Xw| == |st.Xw|
              && r.value.Lw[i] == V * Penalty && r.value.Xw[i] == V
              && (forall j :: 0 <= j < |st.Lw| && j != i ==> r.value.Lw[j] == st.Lw[j])
              && (forall j :: 0 <= j < |st.Xw| && j != i ==> r.value.Xw[j] == st.Xw[j])
    ensures !r.Ok? ==> r == Undefined
  {
    match EraseRemoveIf(st.Kw, IsDiagonal)
    case Ok(k1) =>
      (match EraseRemoveIf(k1, InRow(i))
       case Ok(k2) => Ok(System(k2 + [Triplet(i, i, Penalty)], st.Lw[i := V * Penalty], st.Xw[i := V]))
       case NotFinite => NotFinite
       case Undefined => Undefined)
    case NotFinite => NotFinite
    case Undefined => Undefined
  }

  /** a list of (node, potential) steps, run from the first to the last; the
      first step that is not defined ends the run */
  function Run(st: System, steps: seq<(int, real)>): (r: Outcome<System>)
    requires forall k :: 0 <= k < |steps| ==> 0 <= steps[k].0 < |st.Lw| && 0 <= steps[k].0 < |st.Xw|
    ensures r.Ok? ==> |r.value.Lw| == |st.Lw| && |r.value.Xw| == |st.Xw|
  {
    if steps == [] then Ok(st)
    else
      match Run(st, steps[..|steps| - 1])
      case Ok(s) =>
        NodeStep(s, steps[|steps| - 1].0, steps[|steps| - 1].1)
      case NotFinite => NotFinite
      case Undefined => Undefined
  }

  /** every node index of steps lies below n */
  predicate StepsIn(steps: seq<(int, real)>, n: nat)
  {
    forall k :: 0 <= k < |steps| ==> 0 <= steps[k].0 < n
  }

  /** running a + b runs a, then b from where a ended */
  lemma {:induction false} RunConcat(st: System, a: seq<(int, real)>, b: seq<(int, real)>)
    requires |st.Lw| == |st.Xw| && StepsIn(a, |st.Lw|) && StepsIn(b, |st.Lw|)
    ensures Run(st, a + b) == match Run(st, a)
                              case Ok(s) => Run(s, b)
                              case NotFinite => NotFinite
                              case Undefined => Undefined
  {
    if b == [] {
      assert a + b == a;
    } else {
      var b' := b[..|b| - 1];
      assert (a + b)[..|a + b| - 1] == a + b';
      RunConcat(st, a, b');
    }
  }

  /** Xw only receives the imposed potentials: whether a run is defined, and
      the Kw and Lw it ends with, do not depend on the initial Xw */
  lemma {:induction false} RunIgnoresXw(Kw: seq<Triplet>, Lw: seq<real>, X1: seq<real>, X2: seq<real>,
                                        steps: seq<(int, real)>)
    requires |X1| == |Lw| && |X2| == |Lw| && StepsIn(steps, |Lw|)
    ensures var r1, r2 := Run(System(Kw, Lw, X1), steps), Run(System(Kw, Lw, X2), steps);
            r1.Ok? == r2.Ok? && (r1.Ok? ==> r1.value.Kw == r2.value.Kw && r1.value.Lw == r2.value.Lw)
            && (!r1.Ok? ==> r1 == r2)
  {
    if steps != [] {
      RunIgnoresXw(Kw, Lw, X1, X2, steps[..|steps| - 1]);
    }
  }

  /** the potential the last step at node j imposes, d when no step touches j */
  function LastValue(steps: seq<(int, real)>, j: int, d: real): real
  {
    if steps == [] then d
    else if steps[|steps| - 1].0 == j then steps[|steps| - 1].1
    else LastValue(steps[..|steps| - 1], j, d)
  }

  /** whether some step touches node j */
  predicate Touched(steps: seq<(int, real)>, j: int)
  {
    exists k :: 0 <= k < |steps| && steps[k].0 == j
  }

  /** a completed run shortens Kw by one triplet per step; at every node the
      last condition that touches it wins: Xw holds its potential and Lw that
      potential times 1e9, and untouched nodes keep their values */
  lemma {:induction false} RunEffect(st: System, steps: seq<(int, real)>)
    requires |st.Lw| == |st.Xw| && StepsIn(steps, |st.Lw|)
    requires Run(st, steps).Ok?
    ensures |Run(st, steps).value.Kw| == |st.Kw| - |steps|
    ensures forall j :: 0 <= j < |st.Xw| ==>
              Run(st, steps).value.Xw[j] == LastValue(steps, j, st.Xw[j])
    ensures forall j :: 0 <= j < |st.Lw| ==>
              Run(st, steps).value.Lw[j] == if Touched(steps, j) then LastValue(steps, j, st.Xw[j]) * Penalty else st.Lw[j]
  {
    if steps != [] {
      var pre := steps[..|steps| - 1];
      var last := steps[|steps| - 1];
      RunEffect(st, pre);
      var s := Run(st, pre).value;
      assert Run(st, steps) == NodeStep(s, last.0, last.1);
      forall j | 0 <= j < |st.Lw|
        ensures Run(st, steps).value.Lw[j] == if Touched(steps, j) then LastValue(steps, j, st.Xw[j]) * Penalty else st.Lw[j]
      {
        TouchedSnoc(steps, j);
      }
    }
  }

  /** a node is touched by a list of steps iff the last step or an earlier one touches it */
  lemma TouchedSnoc(steps: seq<(int, real)>, j: int)
    requires steps != []
    ensures Touched(steps, j) <==> steps[|steps| - 1].0 == j || Touched(steps[..|steps| - 1], j)
  {
    var pre := steps[..|steps| - 1];
    if Touched(steps, j) && steps[|steps| - 1].0 != j {
      var k :| 0 <= k < |steps| && steps[k].0 == j;
      assert pre[k].0 == j;
    }
    if Touched(pre, j) {
      var k :| 0 <= k < |pre| && pre[k].0 == j;
      assert steps[k].0 == j;
    }
  }

  // ---------------------------------------------------------------------
  // The steps of the boundary conditions

  /** the steps of the three summits of a triangle, at potential V */
  function TriangleSteps(tri: Triangle, V: real): (r: seq<(int, real)>)
    requires |tri.ind| == 3
    ensures |r| == 3 && forall e :: 0 <= e < 3 ==> r[e] == (tri.ind[e], V)
  {
    [(tri.ind[0], V), (tri.ind[1], V), (tri.ind[2], V)]
  }

  /** the steps of the first k triangles, each at potential V */
  function SurfaceSteps(tris: seq<Triangle>, V: real, k: nat): seq<(int, real)>
    requires k <= |tris| && forall t :: 0 <= t < |tris| ==> |tris[t].ind| == 3
  {
    if k == 0 then [] else SurfaceSteps(tris, V, k - 1) + TriangleSteps(tris[k - 1], V)
  }

  /** `std::find_if` on the names: the position of the first surface called
      name, |surfaces| (the end iterator) when there is none */
  function FindSurface(surfaces: seq<Surface>, name: string): (k: nat)
    ensures k <= |surfaces|
    ensures k < |surfaces| ==> surfaces[k].name == name
    ensures forall j :: 0 <= j < k ==> surfaces[j].name != name
  {
    if surfaces == [] then 0
    else if surfaces[0].name == name then 0
    else 1 + FindSurface(surfaces[1..], name)
  }

  /** every triangle of every surface has three summits */
  predicate SurfacesShaped(surfaces: seq<Surface>)
  {
    forall s, t :: 0 <= s < |surfaces| && 0 <= t < |surfaces[s].elem| ==> |surfaces[s].elem[t].ind| == 3
  }

  /** the triangles of every surface have three summits below nod */
  predicate SurfacesIn(surfaces: seq<Surface>, nod: nat)
  {
    forall s :: 0 <= s < |surfaces| ==> TrianglesIn(surfaces[s].elem, nod)
  }

  /** every triangle has three summits, all below nod */
  predicate TrianglesIn(tris: seq<Triangle>, nod: nat)
  {
    forall t :: 0 <= t < |tris| ==> |tris[t].ind| == 3 && forall e :: 0 <= e < 3 ==> 0 <= tris[t].ind[e] < nod
  }

  /** the steps of one condition: none when no surface has its name */
  function ConditionSteps(surfaces: seq<Surface>, bc: Condition): seq<(int, real)>
    requires SurfacesShaped(surfaces)
  {
    var k := FindSurface(surfaces, bc.name);
    if k == |surfaces| then [] else SurfaceSteps(surfaces[k].elem, bc.V, |surfaces[k].elem|)
  }

  /** the steps of the first k conditions */
  function AllSteps(surfaces: seq<Surface>, bcs: seq<Condition>, k: nat): seq<(int, real)>
    requires k <= |bcs| && SurfacesShaped(surfaces)
  {
    if k == 0 then [] else AllSteps(surfaces, bcs, k - 1) + ConditionSteps(surfaces, bcs[k - 1])
  }

  /** the steps of a surface name the summits of its triangles */
  lemma {:induction false} SurfaceStepsIn(tris: seq<Triangle>, V: real, k: nat, nod: nat)
    requires k <= |tris| && TrianglesIn(tris, nod)
    ensures StepsIn(SurfaceSteps(tris, V, k), nod)
  {
    if k > 0 {
      SurfaceStepsIn(tris, V, k - 1, nod);
    }
  }

  /** the steps of one condition name nodes of the mesh */
  lemma ConditionStepsIn(surfaces: seq<Surface>, bc: Condition, nod: nat)
    requires SurfacesIn(surfaces, nod)
    ensures StepsIn(ConditionSteps(surfaces, bc), nod)
  {
    var s := FindSurface(surfaces, bc.name);
    if s < |surfaces| {
      SurfaceStepsIn(surfaces[s].elem, bc.V, |surfaces[s].elem|, nod);
    }
  }

  /** the steps of the conditions name nodes of the mesh */
  lemma {:induction false} AllStepsIn(surfaces: seq<Surface>, bcs: seq<Condition>, k: nat, nod: nat)
    requires k <= |bcs| && SurfacesIn(surfaces, nod)
    ensures StepsIn(AllSteps(surfaces, bcs, k), nod)
  {
    if k > 0 {
      AllStepsIn(surfaces, bcs, k - 1, nod);
      ConditionStepsIn(surfaces, bcs[k - 1], nod);
    }
  }

  /** a condition naming no surface changes nothing */
  lemma UnknownSurfaceNoStep(surfaces: seq<Surface>, bc: Condition)
    requires SurfacesShaped(surfaces)
    requires forall s :: 0 <= s < |surfaces| ==> surfaces[s].name != bc.name
    ensures ConditionSteps(surfaces, bc) == []
  {
  }

  // ---------------------------------------------------------------------
  // The loops of `solve`

  /** the outcome of Kw with the values of Lw and Xw */
  function WithVectors(r: Outcome<seq<Triplet>>, Lw: seq<real>, Xw: seq<real>): Outcome<System>
  {
    match r
    case Ok(k) => Ok(System(k, Lw, Xw))
    case NotFinite => NotFinite
    case Undefined => Undefined
  }

  /** the three statements for summit i: two erasures, a push, two writes */
  method ConstrainNode(Kw: seq<Triplet>, Lw: array<real>, Xw: array<real>, i: int, V: real)
    returns (r: Outcome<seq<Triplet>>)
    requires Lw != Xw && 0 <= i < Lw.Length && 0 <= i < Xw.Length
    modifies Lw, Xw
    ensures WithVectors(r, Lw[..], Xw[..]) == NodeStep(System(Kw, old(Lw[..]), old(Xw[..])), i, V)
  {
    var k1 := EraseRemoveIf(Kw, IsDiagonal);
    if !k1.Ok? {
      return Undefined;
    }
    var k2 := EraseRemoveIf(k1.value, InRow(i));
    if !k2.Ok? {
      return Undefined;
    }
    r := Ok(k2.value + [Triplet(i, i, Penalty)]);
    Lw[i] := V * Penalty;
    Xw[i] := V;
  }

  /** the run over the first ie + 1 steps continues the run over the first
      ie with step ie, or keeps its error */
  lemma RunPrefixStep(st0: System, steps: seq<(int, real)>, ie: nat,
                      r: Outcome<seq<Triplet>>, L: seq<real>, X: seq<real>,
                      r': Outcome<seq<Triplet>>, L': seq<real>, X': seq<real>)
    requires ie < |steps| && forall k :: 0 <= k < |steps| ==> 0 <= steps[k].0 < |st0.Lw| && 0 <= steps[k].0 < |st0.Xw|
    requires WithVectors(r, L, X) == Run(st0, steps[..ie])
    requires r.Ok? ==> WithVectors(r', L', X') == NodeStep(System(r.value, L, X), steps[ie].0, steps[ie].1)
    requires !r.Ok? ==> r' == r
    ensures WithVectors(r', L', X') == Run(st0, steps[..ie + 1])
  {
    assert steps[..ie + 1][..ie] == steps[..ie];
  }

  /** the summit loop for one triangle */
  method ConstrainTriangle(Kw: seq<Triplet>, Lw: array<real>, Xw: array<real>, tri: Triangle, V: real)
    returns (r: Outcome<seq<Triplet>>)
    requires Lw != Xw && Lw.Length == Xw.Length
    requires |tri.ind| == 3 && forall e :: 0 <= e < 3 ==> 0 <= tri.ind[e] < Lw.Length
    modifies Lw, Xw
    ensures WithVectors(r, Lw[..], Xw[..]) == Run(System(Kw, old(Lw[..]), old(Xw[..])), TriangleSteps(tri, V))
  {
    ghost var st0 := System(Kw, old(Lw[..]), old(Xw[..]));
    ghost var steps := TriangleSteps(tri, V);
    r := Ok(Kw);
    var ie := 0;
    while ie < 3
      invariant 0 <= ie <= 3
      invariant WithVectors(r, Lw[..], Xw[..]) == Run(st0, steps[..ie])
    {
      ghost var r0, L0, X0 := r, Lw[..], Xw[..];
      if r.Ok? {
        r := ConstrainNode(r.value, Lw, Xw, tri.ind[ie], V);
      }
      RunPrefixStep(st0, steps, ie, r0, L0, X0, r, Lw[..], Xw[..]);
      ie := ie + 1;
    }
    assert steps[..3] == steps;
  }

  /** the run over the first t + 1 triangles continues the run over the
      first t with the three steps of triangle t, or keeps its error */
  lemma SurfaceRunStep(st0: System, tris: seq<Triangle>, V: real, t: nat,
                       r: Outcome<seq<Triplet>>, L: seq<real>, X: seq<real>,
                       r': Outcome<seq<Triplet>>, L': seq<real>, X': seq<real>)
    requires |st0.Lw| == |st0.Xw| && t < |tris| && TrianglesIn(tris, |st0.Lw|)
    requires StepsIn(SurfaceSteps(tris, V, t), |st0.Lw|)
    requires WithVectors(r, L, X) == Run(st0, SurfaceSteps(tris, V, t))
    requires r.Ok? ==> WithVectors(r', L', X') == Run(System(r.value, L, X), TriangleSteps(tris[t], V))
    requires !r.Ok? ==> r' == r
    ensures StepsIn(SurfaceSteps(tris, V, t + 1), |st0.Lw|)
    ensures WithVectors(r', L', X') == Run(st0, SurfaceSteps(tris, V, t + 1))
  {
    SurfaceStepsIn(tris, V, t + 1, |st0.Lw|);
    var done := SurfaceSteps(tris, V, t);
    var next := TriangleSteps(tris[t], V);
    assert StepsIn(next, |st0.Lw|);
    RunConcat(st0, done, next);
  }

  /** one pass of the triangle loop: triangle t, unless an error came before */
  method ConstrainNext(r0: Outcome<seq<Triplet>>, Lw: array<real>, Xw: array<real>, tris: seq<Triangle>, V: real,
                       t: nat, ghost st0: System)
    returns (r: Outcome<seq<Triplet>>)
    requires Lw != Xw && Lw.Length == Xw.Length && |st0.Lw| == Lw.Length && |st0.Xw| == Xw.Length
    requires t < |tris| && TrianglesIn(tris, Lw.Length) && StepsIn(SurfaceSteps(tris, V, t), Lw.Length)
    requires WithVectors(r0, Lw[..], Xw[..]) == Run(st0, SurfaceSteps(tris, V, t))
    modifies Lw, Xw
    ensures StepsIn(SurfaceSteps(tris, V, t + 1), Lw.Length)
    ensures WithVectors(r, Lw[..], Xw[..]) == Run(st0, SurfaceSteps(tris, V, t + 1))
  {
    ghost var L0, X0 := Lw[..], Xw[..];
    r := r0;
    if r0.Ok? {
      r := ConstrainTriangle(r0.value, Lw, Xw, tris[t], V);
    }
    SurfaceRunStep(st0, tris, V, t, r0, L0, X0, r, Lw[..], Xw[..]);
  }

  /** the triangle loop of one surface */
  method ConstrainSurface(Kw: seq<Triplet>, Lw: array<real>, Xw: array<real>, tris: seq<Triangle>, V: real)
    returns (r: Outcome<seq<Triplet>>)
    requires Lw != Xw && Lw.Length == Xw.Length
    requires TrianglesIn(tris, Lw.Length)
    modifies Lw, Xw
    ensures StepsIn(SurfaceSteps(tris, V, |tris|), Lw.Length)
    ensures WithVectors(r, Lw[..], Xw[..]) == Run(System(Kw, old(Lw[..]), old(Xw[..])), SurfaceSteps(tris, V, |tris|))
  {
    ghost var st0 := System(Kw, old(Lw[..]), old(Xw[..]));
    SurfaceStepsIn(tris, V, |tris|, Lw.Length);
    r := Ok(Kw);
    var t := 0;
    while t < |tris|
      invariant 0 <= t <= |tris|
      invariant StepsIn(SurfaceSteps(tris, V, t), Lw.Length)
      invariant WithVectors(r, Lw[..], Xw[..]) == Run(st0, SurfaceSteps(tris, V, t))
    {
      r := ConstrainNext(r, Lw, Xw, tris, V, t, st0);
      t := t + 1;
    }
  }

  /** one boundary condition: `find_if` on the surface names, then the
      triangle loop of that surface when there is one; the run so far, over
      the steps done, continues with the steps of the condition */
  method ApplyCondition(r0: Outcome<seq<Triplet>>, Lw: array<real>, Xw: array<real>, surfaces: seq<Surface>,
                        bc: Condition, ghost st0: System, ghost done: seq<(int, real)>)
    returns (r: Outcome<seq<Triplet>>)
    requires Lw != Xw && Lw.Length == Xw.Length && SurfacesIn(surfaces, Lw.Length)
    requires |st0.Lw| == Lw.Length && |st0.Xw| == Xw.Length && StepsIn(done, Lw.Length)
    requires WithVectors(r0, Lw[..], Xw[..]) == Run(st0, done)
    modifies Lw, Xw
    ensures StepsIn(ConditionSteps(surfaces, bc), Lw.Length)
    ensures WithVectors(r, Lw[..], Xw[..]) == Run(st0, done + ConditionSteps(surfaces, bc))
  {
    ConditionStepsIn(surfaces, bc, Lw.Length);
    RunConcat(st0, done, ConditionSteps(surfaces, bc));
    var s := FindSurface(surfaces, bc.name);
    if r0.Ok? && s < |surfaces| {
      r := ConstrainSurface(r0.value, Lw, Xw, surfaces[s].elem, bc.V);
    } else {
      r := r0;
    }
  }

  /** the loop over the boundary conditions of `solve`: a condition whose
      surface is missing is skipped */
  method ApplyConditions(Kw: seq<Triplet>, Lw: array<real>, Xw: array<real>, surfaces: seq<Surface>, bcs: seq<Condition>)
    returns (r: Outcome<seq<Triplet>>)
    requires Lw != Xw && Lw.Length == Xw.Length && SurfacesIn(surfaces, Lw.Length)
    modifies Lw, Xw
    ensures StepsIn(AllSteps(surfaces, bcs, |bcs|), Lw.Length)
    ensures WithVectors(r, Lw[..], Xw[..]) == Run(System(Kw, old(Lw[..]), old(Xw[..])), AllSteps(surfaces, bcs, |bcs|))
  {
    ghost var st0 := System(Kw, old(Lw[..]), old(Xw[..]));
    AllStepsIn(surfaces, bcs, |bcs|, Lw.Length);
    r := Ok(Kw);
    var k := 0;
    while k < |bcs|
      invariant 0 <= k <= |bcs|
      invariant StepsIn(AllSteps(surfaces, bcs, k), Lw.Length)
      invariant WithVectors(r, Lw[..], Xw[..]) == Run(st0, AllSteps(surfaces, bcs, k))
    {
      r := ApplyCondition(r, Lw, Xw, surfaces, bcs[k], st0, AllSteps(surfaces, bcs, k));
      AllStepsIn(surfaces, bcs, k + 1, Lw.Length);
      k := k + 1;
    }
  }
}
