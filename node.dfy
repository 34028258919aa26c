/**
 * Mesh nodes (node.h): position, magnetization and its speed at the start
 * and at the end of a time step, the local tangent basis (ep, eq) and the
 * scalar potentials.
 *
 * Square roots and trigonometric values are not computed here: `normalize`
 * multiplies a vector by a factor `invNorm(v)` supplied by the caller (one
 * over the Euclidean norm), and the rotation angle r enters through its
 * cosine and sine.
 */
module Nodes {
  import opened Pt

  /** the value of every field of a node */
  datatype NodeState = NodeState(p: Pt3, u0: Pt3, v0: Pt3, u: Pt3, v: Pt3, ep: Pt3, eq: Pt3,
                                 phi0: real, phi: real, phiv0: real, phiv: real)

  /** the unit axis among X, Y, Z that `setBasis` starts from: the one along
      which |u0| is smallest, ties with Z going to Z and ties between X and Y
      going to Y */
  function InitialAxis(u0: Pt3): (r: Index)
    ensures r != IdxUndef
    ensures Abs(Coord(u0, r)) <= Abs(u0.x) && Abs(Coord(u0, r)) <= Abs(u0.y) && Abs(Coord(u0, r)) <= Abs(u0.z)
    ensures r == IdxZ <==> Abs(u0.z) <= Abs(u0.x) && Abs(u0.z) <= Abs(u0.y)
    ensures r == IdxX <==> Abs(u0.x) < Abs(u0.y) && Abs(u0.x) < Abs(u0.z)
    ensures r == IdxY <==> Abs(u0.y) <= Abs(u0.x) && Abs(u0.y) < Abs(u0.z)
  {
    var absX, absY, absZ := Abs(u0.x), Abs(u0.y), Abs(u0.z);
    if absX < absY then
      (if absX < absZ then IdxX else IdxZ)
    else
      (if absY < absZ then IdxY else IdxZ)
  }

  /** one Gram-Schmidt step: `e -= e.dot(u0) * u0` */
  function GramSchmidt(e: Pt3, u0: Pt3): Pt3
  {
    Sub(e, ScaleLeft(PScal(e, u0), u0))
  }

  /** `e.normalize()`, with the scaling factor supplied by the caller */
  function Normalize(e: Pt3, invNorm: Pt3 -> real): Pt3
  {
    ScaleLeft(invNorm(e), e)
  }

  /** the basis (ep, eq) that `setBasis` computes from u0 */
  function Basis(u0: Pt3, cosR: real, sinR: real, paranoid: bool, invNorm: Pt3 -> real): (Pt3, Pt3)
  {
    var ep1 := Normalize(GramSchmidt(FromIndex(InitialAxis(u0)), u0), invNorm);
    var eq1 := Cross(u0, ep1);
    var ep2 := Sub(ScaleLeft(cosR, ep1), ScaleLeft(sinR, eq1));
    var eq2 := Add(ScaleLeft(sinR, ep1), ScaleLeft(cosR, eq1));
    if paranoid then
      var ep3 := Normalize(GramSchmidt(ep2, u0), invNorm);
      var eq3 := GramSchmidt(GramSchmidt(eq2, u0), ep3);
      (ep3, Normalize(eq3, invNorm))
    else
      (ep2, eq2)
  }

  /** the new speed `vp * ep + vq * eq` of `make_evol` */
  function Speed(ep: Pt3, eq: Pt3, vp: real, vq: real): Pt3
  {
    Add(ScaleLeft(vp, ep), ScaleLeft(vq, eq))
  }

  /** the state after `evolution` */
  function Evolved(s: NodeState): NodeState
  {
    s.(u0 := s.u, v0 := s.v, phi0 := s.phi, phiv0 := s.phiv)
  }

  /** the state after `make_evol(vp, vq, dt)` */
  function Evolve(s: NodeState, vp: real, vq: real, dt: real, invNorm: Pt3 -> real): NodeState
  {
    var v := Speed(s.ep, s.eq, vp, vq);
    s.(v := v, u := Normalize(Add(s.u0, ScaleLeft(dt, v)), invNorm))
  }

  class Node {
    var p: Pt3
    var u0: Pt3
    var v0: Pt3
    var u: Pt3
    var v: Pt3
    var ep: Pt3
    var eq: Pt3
    var phi0: real
    var phi: real
    var phiv0: real
    var phiv: real

    function State(): NodeState
      reads this
    {
      NodeState(p, u0, v0, u, v, ep, eq, phi0, phi, phiv0, phiv)
    }

    constructor(s: NodeState)
      ensures State() == s
    {
      p, u0, v0, u, v, ep, eq := s.p, s.u0, s.v0, s.u, s.v, s.ep, s.eq;
      phi0, phi, phiv0, phiv := s.phi0, s.phi, s.phiv0, s.phiv;
    }

    /** `setBasis(r)`: only ep and eq change */
    method SetBasis(cosR: real, sinR: real, paranoid: bool, invNorm: Pt3 -> real)
      modifies this
      ensures State() == old(State()).(ep := Basis(u0, cosR, sinR, paranoid, invNorm).0,
                                      eq := Basis(u0, cosR, sinR, paranoid, invNorm).1)
    {
      var axis := InitialAxis(u0);
      var e := FromIndex(axis);
      e := GramSchmidt(e, u0);
      e := Normalize(e, invNorm);
      var f := Cross(u0, e);
      var newEp := Sub(ScaleLeft(cosR, e), ScaleLeft(sinR, f));
      f := Add(ScaleLeft(sinR, e), ScaleLeft(cosR, f));
      e := newEp;
      if paranoid {
        e := GramSchmidt(e, u0);
        e := Normalize(e, invNorm);
        f := GramSchmidt(f, u0);
        f := GramSchmidt(f, e);
        f := Normalize(f, invNorm);
      }
      ep, eq := e, f;
    }

    /** `evolution()`: the end-of-step values become the start-of-step values */
    method Evolution()
      modifies this
      ensures State() == Evolved(old(State()))
    {
      u0 := u;
      v0 := v;
      phi0 := phi;
      phiv0 := phiv;
    }

    /** `make_evol(vp, vq, dt)`: only v and u change */
    method MakeEvol(vp: real, vq: real, dt: real, invNorm: Pt3 -> real)
      modifies this
      ensures State() == Evolve(old(State()), vp, vq, dt, invNorm)
    {
      v := Speed(ep, eq, vp, vq);
      u := Add(u0, ScaleLeft(dt, v));
      u := Normalize(u, invNorm);
    }
  }

  function GetP(n: Node): Pt3 reads n { n.p }
  function GetU0(n: Node): Pt3 reads n { n.u0 }
  function GetV0(n: Node): Pt3 reads n { n.v0 }
  function GetU(n: Node): Pt3 reads n { n.u }
  function GetV(n: Node): Pt3 reads n { n.v }
  function GetUComp(n: Node, idx: Index): real reads n requires idx != IdxUndef { Coord(n.u, idx) }
  function GetVComp(n: Node, idx: Index): real reads n requires idx != IdxUndef { Coord(n.v, idx) }
  function GetV0Comp(n: Node, idx: Index): real reads n requires idx != IdxUndef { Coord(n.v0, idx) }
  function GetPhi(n: Node): real reads n { n.phi }
  function GetPhi0(n: Node): real reads n { n.phi0 }
  function GetPhiv0(n: Node): real reads n { n.phiv0 }

  /** `set_phi`: only phi changes */
  method SetPhi(n: Node, val: real)
    modifies n
    ensures n.State() == old(n.State()).(phi := val)
  {
    n.phi := val;
  }

  /** `set_phiv`: only phiv changes */
  method SetPhiv(n: Node, val: real)
    modifies n
    ensures n.State() == old(n.State()).(phiv := val)
  {
    n.phiv := val;
  }

  /** the Gram-Schmidt step makes e orthogonal to a unit u0 */
  lemma GramSchmidtOrthogonal(e: Pt3, u0: Pt3)
    requires PScal(u0, u0) == 1.0
    ensures PScal(GramSchmidt(e, u0), u0) == 0.0
  {
    assert PScal(GramSchmidt(e, u0), u0) == PScal(e, u0) - PScal(e, u0) * PScal(u0, u0);
  }

  /** a scaled vector stays orthogonal to what the vector was orthogonal to */
  lemma ScaleKeepsOrthogonal(k: real, e: Pt3, w: Pt3)
    requires PScal(e, w) == 0.0
    ensures PScal(ScaleLeft(k, e), w) == 0.0
  {
    assert PScal(ScaleLeft(k, e), w) == k * PScal(e, w);
  }

  /** a linear combination of two vectors orthogonal to w is orthogonal to w */
  lemma CombinationKeepsOrthogonal(a: real, e: Pt3, b: real, f: Pt3, w: Pt3)
    requires PScal(e, w) == 0.0 && PScal(f, w) == 0.0
    ensures PScal(Add(ScaleLeft(a, e), ScaleLeft(b, f)), w) == 0.0
    ensures PScal(Sub(ScaleLeft(a, e), ScaleLeft(b, f)), w) == 0.0
  {
    ScaleKeepsOrthogonal(a, e, w);
    ScaleKeepsOrthogonal(b, f, w);
    PScalAddLeft(ScaleLeft(a, e), ScaleLeft(b, f), w);
    PScalSubLeft(ScaleLeft(a, e), ScaleLeft(b, f), w);
  }

  /** removing the component along ep keeps a vector orthogonal to u0 when ep is */
  lemma GramSchmidtKeepsOrthogonal(e: Pt3, ep: Pt3, u0: Pt3)
    requires PScal(e, u0) == 0.0 && PScal(ep, u0) == 0.0
    ensures PScal(GramSchmidt(e, ep), u0) == 0.0
  {
    assert PScal(GramSchmidt(e, ep), u0) == PScal(e, u0) - PScal(e, ep) * PScal(ep, u0);
  }

  /** for a unit u0, both vectors of the basis built by `setBasis` are
      orthogonal to u0, whatever the angle and the normalisation factors */
  lemma BasisOrthogonalToU0(u0: Pt3, cosR: real, sinR: real, paranoid: bool, invNorm: Pt3 -> real)
    requires PScal(u0, u0) == 1.0
    ensures PScal(Basis(u0, cosR, sinR, paranoid, invNorm).0, u0) == 0.0
    ensures PScal(Basis(u0, cosR, sinR, paranoid, invNorm).1, u0) == 0.0
  {
    var g := GramSchmidt(FromIndex(InitialAxis(u0)), u0);
    GramSchmidtOrthogonal(FromIndex(InitialAxis(u0)), u0);
    var ep1 := Normalize(g, invNorm);
    ScaleKeepsOrthogonal(invNorm(g), g, u0);
    var eq1 := Cross(u0, ep1);
    var ep2 := Sub(ScaleLeft(cosR, ep1), ScaleLeft(sinR, eq1));
    var eq2 := Add(ScaleLeft(sinR, ep1), ScaleLeft(cosR, eq1));
    CombinationKeepsOrthogonal(cosR, ep1, sinR, eq1, u0);
    CombinationKeepsOrthogonal(sinR, ep1, cosR, eq1, u0);
    if paranoid {
      var g3 := GramSchmidt(ep2, u0);
      GramSchmidtOrthogonal(ep2, u0);
      var ep3 := Normalize(g3, invNorm);
      ScaleKeepsOrthogonal(invNorm(g3), g3, u0);
      var eq3a := GramSchmidt(eq2, u0);
      GramSchmidtOrthogonal(eq2, u0);
      var eq3 := GramSchmidt(eq3a, ep3);
      GramSchmidtKeepsOrthogonal(eq3a, ep3, u0);
      ScaleKeepsOrthogonal(invNorm(eq3), eq3, u0);
    }
  }

  /** `evolution` is idempotent and leaves position, end-of-step values and basis alone */
  lemma EvolvedIdempotent(s: NodeState)
    ensures Evolved(Evolved(s)) == Evolved(s)
    ensures Evolved(s).u0 == s.u && Evolved(s).v0 == s.v
    ensures Evolved(s).phi0 == s.phi && Evolved(s).phiv0 == s.phiv
    ensures Evolved(s).(u0 := s.u0, v0 := s.v0, phi0 := s.phi0, phiv0 := s.phiv0) == s
  {
  }

  /** the speed set by `make_evol` lies in the plane of the basis, hence is
      orthogonal to u0 when ep and eq are */
  lemma EvolveSpeedTangent(s: NodeState, vp: real, vq: real, dt: real, invNorm: Pt3 -> real)
    requires PScal(s.ep, s.u0) == 0.0 && PScal(s.eq, s.u0) == 0.0
    ensures PScal(Evolve(s, vp, vq, dt, invNorm).v, s.u0) == 0.0
    ensures Evolve(s, vp, vq, dt, invNorm).(u := s.u, v := s.v) == s
  {
    CombinationKeepsOrthogonal(vp, s.ep, vq, s.eq, s.u0);
  }
}
