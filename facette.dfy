/**
 * Triangular faces of the mesh (facette.h): the face record, its two
 * constructors and the lexicographic order `less_than` used to sort faces.
 */
module Facette {
  import opened Pt

  /** number of summits of a face */
  const N: nat := 3
  /** number of quadrature points of a face */
  const NPI: nat := 4

  /** quadrature constants used to build the hat functions of a face */
  const U: seq<real> := [1.0 / 3.0, 1.0 / 5.0, 3.0 / 5.0, 1.0 / 5.0]
  const V: seq<real> := [1.0 / 3.0, 1.0 / 5.0, 1.0 / 5.0, 3.0 / 5.0]
  const Pds: seq<real> := [-27.0 / 96.0, 25.0 / 96.0, 25.0 / 96.0, 25.0 / 96.0]

  /** the three node indices of a face */
  type Indices = s: seq<int> | |s| == 3 witness [0, 0, 0]

  /** a face: region number, material index, surface, magnetization at
      saturation, normal vector, node indices, quadrature weights and the
      table of its hat functions (N rows of NPI values) */
  datatype Fac = Fac(reg: int, idxPrm: int, surf: real, ms: real, n: Pt3,
                     ind: Indices, weight: seq<real>, a: seq<seq<real>>)

  /** `Fac()`: only `reg` is initialised; every other field is left as found */
  method NewFac() returns (f: Fac)
    ensures f.reg == 0
  {
    f := Fac(0, 0, 0.0, 0.0, Zero, [0, 0, 0], [], []);
  }

  /** `Fac(r, i0, i1, i2)`: the region and the three indices are set; the
      other fields are left as found */
  method NewFacWith(r: int, i0: int, i1: int, i2: int) returns (f: Fac)
    ensures f.reg == r
    ensures f.ind == [i0, i1, i2]
  {
    f := Fac(r, 0, 0.0, 0.0, Zero, [i0, i1, i2], [], []);
  }

  /** `less_than::operator()`: the chain of comparisons on the indices */
  predicate LessThan(f1: Fac, f2: Fac)
  {
    if f1.ind[0] < f2.ind[0] then true
    else if f1.ind[0] == f2.ind[0] && f1.ind[1] < f2.ind[1] then true
    else if f1.ind[0] == f2.ind[0] && f1.ind[1] == f2.ind[1] && f1.ind[2] < f2.ind[2] then true
    else false
  }

  /** reference definition: strict lexicographic order on integer sequences of equal length */
  predicate LexLess(a: seq<int>, b: seq<int>)
    requires |a| == |b|
  {
    |a| > 0 && (a[0] < b[0] || (a[0] == b[0] && LexLess(a[1..], b[1..])))
  }

  lemma {:induction false} LexIrreflexive(a: seq<int>)
    ensures !LexLess(a, a)
  {
    if |a| > 0 {
      LexIrreflexive(a[1..]);
    }
  }

  lemma {:induction false} LexAsymmetric(a: seq<int>, b: seq<int>)
    requires |a| == |b|
    ensures LexLess(a, b) ==> !LexLess(b, a)
  {
    if |a| > 0 && a[0] == b[0] {
      LexAsymmetric(a[1..], b[1..]);
    }
  }

  lemma {:induction false} LexTransitive(a: seq<int>, b: seq<int>, c: seq<int>)
    requires |a| == |b| == |c|
    ensures LexLess(a, b) && LexLess(b, c) ==> LexLess(a, c)
  {
    if |a| > 0 && a[0] == b[0] && b[0] == c[0] {
      LexTransitive(a[1..], b[1..], c[1..]);
    }
  }

  /** two distinct sequences of equal length are comparable */
  lemma {:induction false} LexTotal(a: seq<int>, b: seq<int>)
    requires |a| == |b|
    ensures a != b ==> LexLess(a, b) || LexLess(b, a)
  {
    if |a| > 0 && a[0] == b[0] {
      LexTotal(a[1..], b[1..]);
      if a[1..] == b[1..] {
        assert a == [a[0]] + a[1..] && b == [b[0]] + b[1..];
      }
    }
  }

  /** `less_than` is exactly the lexicographic order on the index triples */
  lemma LessThanIsLex(f1: Fac, f2: Fac)
    ensures LessThan(f1, f2) <==> LexLess(f1.ind, f2.ind)
  {
    var a, b := f1.ind, f2.ind;
    assert a[1..][1..][1..] == [] && b[1..][1..][1..] == [];
    assert LexLess(a, b) <==> a[0] < b[0] || (a[0] == b[0] && LexLess(a[1..], b[1..]));
    assert LexLess(a[1..], b[1..]) <==> a[1] < b[1] || (a[1] == b[1] && LexLess(a[1..][1..], b[1..][1..]));
    assert LexLess(a[1..][1..], b[1..][1..]) <==> a[2] < b[2];
  }

  lemma LessThanIrreflexive(f: Fac)
    ensures !LessThan(f, f)
  {
  }

  lemma LessThanAsymmetric(f1: Fac, f2: Fac)
    ensures LessThan(f1, f2) ==> !LessThan(f2, f1)
  {
  }

  lemma LessThanTransitive(f1: Fac, f2: Fac, f3: Fac)
    ensures LessThan(f1, f2) && LessThan(f2, f3) ==> LessThan(f1, f3)
  {
    LessThanIsLex(f1, f2);
    LessThanIsLex(f2, f3);
    LessThanIsLex(f1, f3);
    LexTransitive(f1.ind, f2.ind, f3.ind);
  }

  /** faces with equal index triples are incomparable; faces with distinct
      triples are ordered in exactly one direction */
  lemma LessThanTrichotomy(f1: Fac, f2: Fac)
    ensures f1.ind == f2.ind ==> !LessThan(f1, f2) && !LessThan(f2, f1)
    ensures f1.ind != f2.ind ==> LessThan(f1, f2) != LessThan(f2, f1)
  {
    LessThanIsLex(f1, f2);
    LessThanIsLex(f2, f1);
    LexTotal(f1.ind, f2.ind);
    LexAsymmetric(f1.ind, f2.ind);
    LexIrreflexive(f1.ind);
  }

  /** the order only reads the indices: region, material, surface, normal and weights are ignored */
  lemma LessThanIgnoresOtherFields(f1: Fac, f2: Fac, g1: Fac, g2: Fac)
    requires f1.ind == g1.ind && f2.ind == g2.ind
    ensures LessThan(f1, f2) == LessThan(g1, g2)
  {
  }
}
