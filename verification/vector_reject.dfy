/** The two formulas for removing from a spin vector `s` its component along a
    scattering vector `q`: the direct rejection and Gutmann's double cross
    product. The driver loop that compares them on random vectors is not
    modelled; instead the lemmas below prove that they agree. */
module VectorReject {

  import opened Geometry
  import RealArith

  /** `v / d`, numpy's element-wise division of a vector by a scalar. */
  function DivBy(v: Vec3, d: real): Vec3
    requires d != 0.0
  {
    Vec3(v.x / d, v.y / d, v.z / d)
  }

  /** `s - np.dot(s, q)/np.dot(q, q)*q`: what is left of `s` has no
      component along `q`. */
  function Reject(s: Vec3, q: Vec3): (r: Vec3)
    requires q != Origin
    ensures Dot(r, q) == 0.0
  {
    DotSelfPositive(q);
    var k := Dot(s, q) / Dot(q, q);
    assert k * Dot(q, q) == Dot(s, q);
    assert Dot(Sub(s, Scale(k, q)), q) == Dot(s, q) - k * Dot(q, q);
    RejectBy(s, q, k)
  }

  /** `s` less `k` times `q`. */
  function RejectBy(s: Vec3, q: Vec3, k: real): Vec3 {
    Sub(s, Scale(k, q))
  }

  /** `np.cross(np.cross(q, s), q)/np.dot(q, q)`: the same vector as the
      direct rejection, for every non-zero `q`. */
  function Gutmann(s: Vec3, q: Vec3): (r: Vec3)
    requires q != Origin
    ensures r == Reject(s, q)
  {
    DotSelfPositive(q);
    var d := Dot(q, q);
    TripleProductExpansion(s, q);
    assert Dot(q, s) == Dot(s, q);
    DivideDifference(d, s.x, Dot(s, q), q.x);
    DivideDifference(d, s.y, Dot(s, q), q.y);
    DivideDifference(d, s.z, Dot(s, q), q.z);
    DivBy(Cross(Cross(q, s), q), d)
  }

  /** The triple product expansion, one coordinate at a time. */
  lemma TripleProductX(s: Vec3, q: Vec3)
    ensures Cross(Cross(q, s), q).x == Dot(q, q) * s.x - Dot(q, s) * q.x
  {
    ExpansionIdentity(q.x, q.y, q.z, s.x, s.y, s.z, Dot(q, q), Dot(q, s));
  }

  lemma TripleProductY(s: Vec3, q: Vec3)
    ensures Cross(Cross(q, s), q).y == Dot(q, q) * s.y - Dot(q, s) * q.y
  {
    ExpansionIdentity(q.y, q.z, q.x, s.y, s.z, s.x, Dot(q, q), Dot(q, s));
  }

  lemma TripleProductZ(s: Vec3, q: Vec3)
    ensures Cross(Cross(q, s), q).z == Dot(q, q) * s.z - Dot(q, s) * q.z
  {
    ExpansionIdentity(q.z, q.x, q.y, s.z, s.x, s.y, Dot(q, q), Dot(q, s));
  }

  /** One coordinate of (q x s) x q, with the coordinates named a, b, c in
      cyclic order and the two dot products given. */
  lemma ExpansionIdentity(qa: real, qb: real, qc: real, sa: real, sb: real, sc: real, qq: real, qs: real)
    requires qq == qa * qa + qb * qb + qc * qc
    requires qs == qa * sa + qb * sb + qc * sc
    ensures (qc * sa - qa * sc) * qc - (qa * sb - qb * sa) * qb == qq * sa - qs * qa
  {
    RealArith.SubTimes(qc * sa, qa * sc, qc);
    RealArith.SubTimes(qa * sb, qb * sa, qb);
    RealArith.SumTimes(qq, qa * qa, qb * qb, qc * qc, sa);
    RealArith.SumTimes(qs, qa * sa, qb * sb, qc * sc, qa);
    RealArith.Reorder(qa, qa, sa);
    RealArith.Reorder(qb, qb, sa);
    RealArith.Reorder(qc, qc, sa);
    RealArith.Reorder(qa, qb, sb);
    RealArith.Reorder(qa, qc, sc);
    CancelTerms((qc * sa) * qc, (qa * sc) * qc, (qa * sb) * qb, (qb * sa) * qb,
                (qa * qa) * sa, (qb * qb) * sa, (qc * qc) * sa,
                (qa * sa) * qa, (qb * sb) * qa, (qc * sc) * qa);
  }

  /** The cancellation left once every product is written out. */
  lemma CancelTerms(m1: real, m2: real, m3: real, m4: real, n1: real, n2: real, n3: real,
                    k1: real, k2: real, k3: real)
    requires n1 == k1 && n2 == m4 && n3 == m1 && k2 == m3 && k3 == m2
    ensures (m1 - m2) - (m3 - m4) == (n1 + n2 + n3) - (k1 + k2 + k3)
  {
  }

  /** The vector triple product expansion (q x s) x q = s (q.q) - q (q.s). */
  lemma TripleProductExpansion(s: Vec3, q: Vec3)
    ensures Cross(Cross(q, s), q) == Sub(Scale(Dot(q, q), s), Scale(Dot(q, s), q))
  {
    TripleProductX(s, q);
    TripleProductY(s, q);
    TripleProductZ(s, q);
  }

  lemma DivideDifference(d: real, a: real, b: real, w: real)
    requires d != 0.0
    ensures (d * a - b * w) / d == a - b / d * w
  {
  }

  /** A spin parallel to `q` is removed entirely. */
  lemma RejectParallelIsZero(k: real, q: Vec3)
    requires q != Origin
    ensures Reject(Scale(k, q), q) == Origin
  {
    DotSelfPositive(q);
    assert Dot(Scale(k, q), q) == k * Dot(q, q);
    assert Dot(Scale(k, q), q) / Dot(q, q) == k;
  }

  /** A spin already perpendicular to `q` is left as it is. */
  lemma RejectOfPerpendicular(s: Vec3, q: Vec3)
    requires q != Origin
    requires Dot(s, q) == 0.0
    ensures Reject(s, q) == s
  {
    DotSelfPositive(q);
    assert Dot(s, q) / Dot(q, q) == 0.0;
  }

  /** Rejecting twice is the same as rejecting once. */
  lemma RejectIdempotent(s: Vec3, q: Vec3)
    requires q != Origin
    ensures Reject(Reject(s, q), q) == Reject(s, q)
  {
    RejectOfPerpendicular(Reject(s, q), q);
  }
}
