/**
 * Two loops of the time-step driver (linear_algebra.cpp): the partition of
 * the tetrahedra into one contiguous block per thread, and the update of
 * every node with its speed components while the largest squared speed is
 * tracked.
 *
 * Iterators into the vector of tetrahedra are modelled by their offsets from
 * `begin()`; the square root of v_max is taken by a function supplied by the
 * caller.
 */
module LinAlgebra {
  import opened Pt
  import opened Nodes

  /** start offset of block i when n items are split into nb blocks: each
      block holds n / nb items, and the first n % nb blocks one more */
  function BlockStart(n: nat, nb: nat, i: nat): nat
    requires nb >= 1
  {
    if i == 0 then 0
    else BlockStart(n, nb, i - 1) + n / nb + (if i - 1 < n % nb then 1 else 0)
  }

  /** squared speed vp^2 + vq^2 of node i */
  function Speed2(X: seq<real>, nod: nat, i: nat): real
    requires i < nod && 2 * nod <= |X|
  {
    X[i] * X[i] + X[nod + i] * X[nod + i]
  }

  /** the largest squared speed among the first k nodes, 0 when there are none */
  function MaxSpeed2(X: seq<real>, nod: nat, k: nat): real
    requires k <= nod && 2 * nod <= |X|
  {
    if k == 0 then 0.0
    else
      var m := MaxSpeed2(X, nod, k - 1);
      if Speed2(X, nod, k - 1) > m then Speed2(X, nod, k - 1) else m
  }

  /** block i starts after i full blocks and after one extra item for each
      of the first min(i, n % nb) blocks */
  lemma {:induction false} BlockStartClosedForm(n: nat, nb: nat, i: nat)
    requires nb >= 1
    ensures BlockStart(n, nb, i) == i * (n / nb) + (if i < n % nb then i else n % nb)
  {
    if i > 0 {
      BlockStartClosedForm(n, nb, i - 1);
      MulStep(i, n / nb);
    }
  }

  lemma MulStep(i: int, b: int)
    ensures i * b == (i - 1) * b + b
  {
  }

  /** the blocks cover [0, n): the first starts at 0 and the last ends at n */
  lemma BlocksCover(n: nat, nb: nat)
    requires nb >= 1
    ensures BlockStart(n, nb, 0) == 0
    ensures BlockStart(n, nb, nb) == n
  {
    BlockStartClosedForm(n, nb, nb);
    assert n % nb < nb;
    assert nb * (n / nb) + n % nb == n;
  }

  /** block i holds n / nb items, plus one for the first n % nb blocks */
  lemma BlockSize(n: nat, nb: nat, i: nat)
    requires nb >= 1
    ensures BlockStart(n, nb, i + 1) - BlockStart(n, nb, i) == n / nb + (if i < n % nb then 1 else 0)
  {
  }

  /** any two block sizes differ by at most one */
  lemma BlockSizesBalanced(n: nat, nb: nat, i: nat, j: nat)
    requires nb >= 1
    ensures -1 <= (BlockStart(n, nb, i + 1) - BlockStart(n, nb, i))
                  - (BlockStart(n, nb, j + 1) - BlockStart(n, nb, j)) <= 1
  {
    BlockSize(n, nb, i);
    BlockSize(n, nb, j);
  }

  /** the running maximum bounds every squared speed seen so far */
  lemma {:induction false} MaxSpeed2Bounds(X: seq<real>, nod: nat, k: nat)
    requires k <= nod && 2 * nod <= |X|
    ensures MaxSpeed2(X, nod, k) >= 0.0
    ensures forall i :: 0 <= i < k ==> Speed2(X, nod, i) <= MaxSpeed2(X, nod, k)
  {
    if k > 0 {
      MaxSpeed2Bounds(X, nod, k - 1);
    }
  }

  /** the running maximum is 0 or one of the squared speeds */
  lemma {:induction false} MaxSpeed2Attained(X: seq<real>, nod: nat, k: nat)
    requires k <= nod && 2 * nod <= |X|
    ensures MaxSpeed2(X, nod, k) == 0.0
            || exists i :: 0 <= i < k && MaxSpeed2(X, nod, k) == Speed2(X, nod, i)
  {
    if k > 0 {
      MaxSpeed2Attained(X, nod, k - 1);
      if Speed2(X, nod, k - 1) <= MaxSpeed2(X, nod, k - 1) && MaxSpeed2(X, nod, k - 1) != 0.0 {
        var i :| 0 <= i < k - 1 && MaxSpeed2(X, nod, k - 1) == Speed2(X, nod, i);
        assert MaxSpeed2(X, nod, k) == Speed2(X, nod, i);
      }
    }
  }

  /** the loop of `prepareItTet`: nb (begin, end) pairs laid end to end */
  method Blocks(n: nat, nb: nat) returns (blocks: seq<(nat, nat)>)
    requires nb >= 1
    ensures |blocks| == nb
    ensures forall i {:trigger blocks[i]} :: 0 <= i < nb ==> blocks[i] == (BlockStart(n, nb, i), BlockStart(n, nb, i + 1))
    ensures blocks[nb - 1].1 == n
  {
    var blockSize := n / nb;
    var extraBlocks := n % nb;
    blocks := [];
    var it: nat := 0;
    var i := 0;
    while i < nb
      invariant 0 <= i <= nb && |blocks| == i
      invariant it == BlockStart(n, nb, i)
      invariant forall k {:trigger blocks[k]} :: 0 <= k < i ==> blocks[k] == (BlockStart(n, nb, k), BlockStart(n, nb, k + 1))
    {
      BlockSize(n, nb, i);
      var first := it;
      it := it + blockSize + (if i < extraBlocks then 1 else 0);
      blocks := blocks + [(first, it)];
      i := i + 1;
    }
    BlocksCover(n, nb);
    assert blocks[nb - 1].1 == BlockStart(n, nb, nb);
  }

  class LinAlgebra {
    /** number of threads */
    const nbTH: nat
    /** number of nodes */
    const nod: nat
    /** the nodes of the mesh */
    const nodes: seq<Node>
    /** one (begin, end) pair of offsets per thread */
    var refTetIt: seq<(nat, nat)>
    /** the largest speed of the last update */
    var vMax: real

    predicate Valid()
      reads this
    {
      nbTH >= 1 && |refTetIt| == nbTH && nod == |nodes|
      && forall i, j :: 0 <= i < j < |nodes| ==> nodes[i] != nodes[j]
    }

    constructor(nbTH: nat, nodes: seq<Node>)
      requires nbTH >= 1
      requires forall i, j :: 0 <= i < j < |nodes| ==> nodes[i] != nodes[j]
      ensures Valid()
      ensures this.nbTH == nbTH && this.nodes == nodes
    {
      this.nbTH, this.nod, this.nodes := nbTH, |nodes|, nodes;
      refTetIt := seq(nbTH, _ => (0, 0));
      vMax := 0.0;
    }

    /** `prepareItTet`: block i of the nTet tetrahedra is [BlockStart(i), BlockStart(i + 1)),
        and the last block ends at the end of the vector */
    method PrepareItTet(nTet: nat)
      requires Valid()
      modifies this
      ensures Valid() && vMax == old(vMax)
      ensures forall i {:trigger refTetIt[i]} :: 0 <= i < nbTH ==>
                refTetIt[i] == (BlockStart(nTet, nbTH, i), BlockStart(nTet, nbTH, i + 1))
      ensures refTetIt[nbTH - 1].1 == nTet
    {
      refTetIt := Blocks(nTet, nbTH);
    }

    /** `updateNodes`: node i gets make_evol(X[i], X[NOD + i], dt), and v_max
        becomes the square root of the largest vp^2 + vq^2 */
    method UpdateNodes(X: seq<real>, dt: real, invNorm: Pt3 -> real, sqrt: real -> real)
      requires Valid() && 2 * nod <= |X|
      modifies this, set k | 0 <= k < |nodes| :: nodes[k]
      ensures Valid() && refTetIt == old(refTetIt)
      ensures forall k {:trigger nodes[k]} :: 0 <= k < nod ==>
                nodes[k].State() == Evolve(old(nodes[k].State()), X[k], X[nod + k], dt, invNorm)
      ensures vMax == sqrt(MaxSpeed2(X, nod, nod))
    {
      var v2max := 0.0;
      var i := 0;
      while i < nod
        invariant 0 <= i <= nod
        invariant refTetIt == old(refTetIt)
        invariant v2max == MaxSpeed2(X, nod, i)
        invariant forall k {:trigger nodes[k]} :: 0 <= k < i ==>
                    nodes[k].State() == Evolve(old(nodes[k].State()), X[k], X[nod + k], dt, invNorm)
        invariant forall k :: i <= k < nod ==> unchanged(nodes[k])
      {
        var vp := X[i];
        var vq := X[nod + i];
        var v2 := vp * vp + vq * vq;
        assert v2 == Speed2(X, nod, i);
        if v2 > v2max {
          v2max := v2;
        }
        assert v2max == MaxSpeed2(X, nod, i + 1);
        nodes[i].MakeEvol(vp, vq, dt, invNorm);
        i := i + 1;
      }
      vMax := sqrt(v2max);
    }
  }
}
