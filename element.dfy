/**
 * The element template (element.h): an element with N nodes and NPI
 * quadrature points keeps the indices of its nodes in a vector `ind` and a
 * reference to the vector of nodes of the mesh.
 */
module Element {
  import opened Nodes

  class Element {
    /** the template parameters N and NPI */
    const n: nat
    const npi: nat
    /** the vector of nodes of the mesh, shared and never changed here */
    const refNode: seq<Node>
    /** indices of the nodes of the element */
    var ind: seq<int>

    /** the constructor sizes `ind` to N; resizing an empty vector value-initialises to 0 */
    constructor(nodes: seq<Node>, n: nat, npi: nat)
      ensures this.n == n && this.npi == npi && refNode == nodes
      ensures |ind| == n
      ensures forall k :: 0 <= k < |ind| ==> ind[k] == 0
    {
      this.n, this.npi, refNode := n, npi, nodes;
      ind := seq(n, _ => 0);
    }

    /** `set_ind`: ind becomes the given list */
    method SetInd(list: seq<int>)
      modifies this
      ensures ind == list
    {
      ind := list;
    }

    /** `zeroBasing`: from one-based to zero-based indices */
    method ZeroBasing()
      modifies this
      ensures |ind| == |old(ind)|
      ensures forall k :: 0 <= k < |ind| ==> ind[k] == old(ind[k]) - 1
    {
      var k := 0;
      while k < |ind|
        invariant 0 <= k <= |ind| == |old(ind)|
        invariant forall j :: 0 <= j < k ==> ind[j] == old(ind[j]) - 1
        invariant forall j :: k <= j < |ind| ==> ind[j] == old(ind[j])
      {
        ind := ind[k := ind[k] - 1];
        k := k + 1;
      }
    }

    /** `indicesToZero`: every index becomes 0 */
    method IndicesToZero()
      modifies this
      ensures |ind| == |old(ind)|
      ensures forall k :: 0 <= k < |ind| ==> ind[k] == 0
    {
      var k := 0;
      while k < |ind|
        invariant 0 <= k <= |ind| == |old(ind)|
        invariant forall j :: 0 <= j < k ==> ind[j] == 0
      {
        ind := ind[k := 0];
        k := k + 1;
      }
    }

    function GetN(): nat { n }

    function GetNPI(): nat { npi }

    /** `getNode(i)`: the node the i-th index designates */
    function GetNode(i: int): Node
      reads this
      requires 0 <= i < |ind| && 0 <= ind[i] < |refNode|
    {
      refNode[ind[i]]
    }
  }
}
