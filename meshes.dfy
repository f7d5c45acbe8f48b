/** The shell surface: gcs.py `gcs_mesh`, after the SolarSoft routine
    cmecloud.pro. Around every skeleton sample v it sweeps a circle of radius
    r[v], tilted by the cross-section angle ca[v], sampled at the angles
    theta = linspace(0, 2*pi, cv); the points are laid out row-major over
    (skeleton sample, circle angle), as numpy's meshgrid and flatten do. */
module Meshes {
  import opened Numerics
  import opened Skeletons

  /** The three flat arrays `gcs_mesh` returns: points, their circle angles
      `u` and their skeleton indices `v`. */
  datatype Mesh = Mesh(points: seq<V3>, u: seq<real>, v: seq<nat>)

  /** gcs.py line 86: the distance along the legs at which they meet the
      front arc, chosen so that the front arc's reference height
      b = d / cos(alpha) and shift rho = d * tan(alpha) add up to
      height * (1 - k). */
  function JunctionDistance(t: Trig, alpha: real, height: real, k: real): (d: real)
    requires Sin(t, alpha) != -1.0
    ensures Cos(t, alpha) != 0.0 && TanAt(t, alpha) ==>
      ArcHeight(t, alpha, d) + ArcShift(t, alpha, d) == height * (1.0 - k)
  {
    var d := height * (1.0 - k) * Cos(t, alpha) / (1.0 + Sin(t, alpha));
    JunctionSum(t, alpha, height, k, d);
    d
  }

  /** b + rho = d (1 + sin alpha) / cos alpha, which is height * (1 - k) for
      the junction distance. */
  lemma {:induction false} JunctionSum(t: Trig, alpha: real, height: real, k: real, d: real)
    requires Sin(t, alpha) != -1.0 && d == height * (1.0 - k) * Cos(t, alpha) / (1.0 + Sin(t, alpha))
    ensures Cos(t, alpha) != 0.0 && TanAt(t, alpha) ==>
      ArcHeight(t, alpha, d) + ArcShift(t, alpha, d) == height * (1.0 - k)
  {
    var s, c := Sin(t, alpha), Cos(t, alpha);
    if c != 0.0 && TanAt(t, alpha) {
      assert d * (1.0 + s) == height * (1.0 - k) * c;
      assert ArcShift(t, alpha, d) == d * (s / c);
      assert (ArcHeight(t, alpha, d) + ArcShift(t, alpha, d)) * c == d * (1.0 + s);
      DivExact(height * (1.0 - k) * c, c, ArcHeight(t, alpha, d) + ArcShift(t, alpha, d));
    }
  }

  /** The unit direction (cos u, sin u cos ca, sin u sin ca) of line 94. */
  function CircleDirection(t: Trig, u: real, ca: real): V3 {
    V3(Cos(t, u), Sin(t, u) * Cos(t, ca), Sin(t, u) * Sin(t, ca))
  }

  /** One mesh point: r * direction + p. */
  function MeshPoint(t: Trig, p: V3, r: real, ca: real, u: real): V3 {
    Add(Scale(r, CircleDirection(t, u, ca)), p)
  }

  /** The circle around one skeleton sample, one point per angle. */
  function Ring(t: Trig, p: V3, r: real, ca: real, theta: seq<real>): (ring: seq<V3>)
    ensures |ring| == |theta|
    decreases |theta|
  {
    if |theta| == 0 then []
    else Ring(t, p, r, ca, theta[..|theta| - 1]) + [MeshPoint(t, p, r, ca, theta[|theta| - 1])]
  }

  lemma {:induction false} RingAt(t: Trig, p: V3, r: real, ca: real, theta: seq<real>, c: nat)
    requires c < |theta|
    ensures Ring(t, p, r, ca, theta)[c] == MeshPoint(t, p, r, ca, theta[c])
    decreases |theta|
  {
    if c < |theta| - 1 {
      RingAt(t, p, r, ca, theta[..|theta| - 1], c);
    }
  }

  /** The rings of the first n skeleton samples: the points of the meshgrid
      before flattening, one row per skeleton sample. */
  function Rings(t: Trig, a: Axis, theta: seq<real>, n: nat): (rows: seq<seq<V3>>)
    requires n <= |a.p| && n <= |a.r| && n <= |a.ca|
    ensures |rows| == n
    decreases n
  {
    if n == 0 then []
    else Rings(t, a, theta, n - 1) + [Ring(t, a.p[n - 1], a.r[n - 1], a.ca[n - 1], theta)]
  }

  lemma {:induction false} RingsAt(t: Trig, a: Axis, theta: seq<real>, n: nat, i: nat)
    requires n <= |a.p| && n <= |a.r| && n <= |a.ca| && i < n
    ensures Rings(t, a, theta, n)[i] == Ring(t, a.p[i], a.r[i], a.ca[i], theta)
    decreases n
  {
    if i < n - 1 {
      RingsAt(t, a, theta, n - 1, i);
    }
  }

  /** The meshgrid of the indices 0..n-1: row i holds cv copies of i. */
  function IndexRows(n: nat, cv: nat): (rows: seq<seq<nat>>)
    ensures |rows| == n
    decreases n
  {
    if n == 0 then [] else IndexRows(n - 1, cv) + [Full<nat>(n - 1, cv)]
  }

  lemma {:induction false} IndexRowsAt(n: nat, cv: nat, i: nat)
    requires i < n
    ensures IndexRows(n, cv)[i] == Full<nat>(i, cv)
    decreases n
  {
    if i < n - 1 {
      IndexRowsAt(n - 1, cv, i);
    }
  }

  lemma {:induction false} RingsRectangular(t: Trig, a: Axis, theta: seq<real>, n: nat)
    requires n <= |a.p| && n <= |a.r| && n <= |a.ca|
    ensures Rectangular(Rings(t, a, theta, n), |theta|)
  {
    forall i | 0 <= i < n
      ensures |Rings(t, a, theta, n)[i]| == |theta|
    {
      RingsAt(t, a, theta, n, i);
    }
  }

  lemma {:induction false} AngleRowsRectangular(theta: seq<real>, n: nat)
    ensures Rectangular(Full(theta, n), |theta|)
  {
    forall i | 0 <= i < n
      ensures |Full(theta, n)[i]| == |theta|
    {
      FullAt(theta, n, i);
    }
  }

  lemma {:induction false} IndexRowsRectangular(n: nat, cv: nat)
    ensures Rectangular(IndexRows(n, cv), cv)
  {
    forall i | 0 <= i < n
      ensures |IndexRows(n, cv)[i]| == cv
    {
      IndexRowsAt(n, cv, i);
    }
  }

  /** The mesh over the first n samples of a skeleton, for circle angles
      theta. */
  function MeshFrom(t: Trig, a: Axis, theta: seq<real>, n: nat): (m: Mesh)
    requires n <= |a.p| && n <= |a.r| && n <= |a.ca|
  {
    Mesh(Flatten(Rings(t, a, theta, n)), Flatten(Full(theta, n)), Flatten(IndexRows(n, |theta|)))
  }

  /** The length of np.arange(0, (fv + sv) * 2 - 3), which is empty when the
      bound is not positive. */
  function PspaceLength(sv: nat, fv: nat): nat {
    if (fv + sv) * 2 - 3 < 0 then 0 else (fv + sv) * 2 - 3
  }

  /** gcs.py `gcs_mesh`: the skeleton for the junction distance that puts the
      leading edge at `height`, and cv circle angles from 0 to 2*pi. */
  function GcsMesh(t: Trig, alpha: real, height: real, sv: nat, fv: nat, cv: nat, k: real): Mesh
    requires k * k != 1.0 && Cos(t, alpha) != 0.0 && Sin(t, alpha) != -1.0
    requires sv >= 1 && fv >= 1
  {
    var a := Skeleton(t, alpha, JunctionDistance(t, alpha, height, k), sv, fv, k);
    MeshFrom(t, a, Linspace(0.0, TwoPi(t), cv), PspaceLength(sv, fv))
  }

  /** The three flat arrays have n * cv entries. */
  lemma {:induction false} MeshLengthFrom(t: Trig, a: Axis, theta: seq<real>, n: nat, cv: nat)
    requires n <= |a.p| && n <= |a.r| && n <= |a.ca| && |theta| == cv
    ensures var m := MeshFrom(t, a, theta, n);
      |m.points| == n * cv && |m.u| == n * cv && |m.v| == n * cv
  {
    RingsRectangular(t, a, theta, n);
    AngleRowsRectangular(theta, n);
    IndexRowsRectangular(n, cv);
    FlattenLength(Rings(t, a, theta, n), cv);
    FlattenLength(Full(theta, n), cv);
    FlattenLength(IndexRows(n, cv), cv);
  }

  /** Flat index q = i * cv + c holds the point of line 94 for skeleton
      sample i and circle angle c. */
  lemma {:induction false} PointAtFrom(t: Trig, a: Axis, theta: seq<real>, n: nat, cv: nat, i: nat, c: nat, q: nat)
    requires n <= |a.p| && n <= |a.r| && n <= |a.ca| && |theta| == cv && i < n && c < cv && q == i * cv + c
    ensures var m := MeshFrom(t, a, theta, n);
      q < |m.points| && m.points[q] == MeshPoint(t, a.p[i], a.r[i], a.ca[i], theta[c])
  {
    RingsRectangular(t, a, theta, n);
    FlattenAt(Rings(t, a, theta, n), |theta|, i, c);
    RingsAt(t, a, theta, n, i);
    RingAt(t, a.p[i], a.r[i], a.ca[i], theta, c);
  }

  /** Flat index q = i * cv + c has circle angle theta[c]. */
  lemma {:induction false} CircleAngleFrom(t: Trig, a: Axis, theta: seq<real>, n: nat, cv: nat, i: nat, c: nat, q: nat)
    requires n <= |a.p| && n <= |a.r| && n <= |a.ca| && |theta| == cv && i < n && c < cv && q == i * cv + c
    ensures var m := MeshFrom(t, a, theta, n);
      q < |m.u| && m.u[q] == theta[c]
  {
    AngleRowsRectangular(theta, n);
    FlattenAt(Full(theta, n), cv, i, c);
    FullAt(theta, n, i);
  }

  /** Flat index q = i * cv + c has skeleton index i. */
  lemma {:induction false} SampleIndexFrom(t: Trig, a: Axis, theta: seq<real>, n: nat, cv: nat, i: nat, c: nat, q: nat)
    requires n <= |a.p| && n <= |a.r| && n <= |a.ca| && |theta| == cv && i < n && c < cv && q == i * cv + c
    ensures var m := MeshFrom(t, a, theta, n);
      q < |m.v| && m.v[q] == i
  {
    IndexRowsRectangular(n, cv);
    FlattenAt(IndexRows(n, cv), cv, i, c);
    IndexRowsAt(n, cv, i);
    FullAt<nat>(i, cv, c);
  }

  /** q / cv < n for q < n * cv, and q = (q / cv) * cv + q % cv. */
  lemma {:induction false} QuotientBelow(q: nat, n: nat, cv: nat)
    requires cv > 0 && q < n * cv
    ensures q / cv < n && q == (q / cv) * cv + q % cv
  {
    var i := q / cv;
    assert i * cv <= q;
    assert (n - i) * cv == n * cv - i * cv;
    assert (n - i) * cv > 0;
  }

  /** Read the other way: flat index q is skeleton sample q / cv at circle
      angle q % cv. */
  lemma {:induction false} FlatIndexFrom(t: Trig, a: Axis, theta: seq<real>, n: nat, q: nat)
    requires n <= |a.p| && n <= |a.r| && n <= |a.ca| && q < n * |theta|
    ensures var m, cv := MeshFrom(t, a, theta, n), |theta|;
      && cv > 0 && q / cv < n && q < |m.points| && q < |m.u| && q < |m.v|
      && m.v[q] == q / cv && m.u[q] == theta[q % cv]
      && m.points[q] == MeshPoint(t, a.p[q / cv], a.r[q / cv], a.ca[q / cv], theta[q % cv])
  {
    var cv := |theta|;
    assert cv > 0;
    var i, c := q / cv, q % cv;
    QuotientBelow(q, n, cv);
    PointAtFrom(t, a, theta, n, cv, i, c, q);
    CircleAngleFrom(t, a, theta, n, cv, i, c, q);
    SampleIndexFrom(t, a, theta, n, cv, i, c, q);
  }

  /** A mesh point lies on the circle of radius |r| around its skeleton
      point, given sin^2 + cos^2 = 1 at u and at ca. */
  lemma {:induction false} OnCircle(t: Trig, p: V3, r: real, ca: real, u: real)
    requires PythagoreanAt(t, u) && PythagoreanAt(t, ca)
    ensures Dist2(MeshPoint(t, p, r, ca, u), p) == Sq(r)
  {
    var su, cu, sc, cc := Sin(t, u), Cos(t, u), Sin(t, ca), Cos(t, ca);
    assert (r * (su * cc)) * (r * (su * cc)) + (r * (su * sc)) * (r * (su * sc))
        == (r * su) * (r * su) * (cc * cc + sc * sc);
    assert (r * cu) * (r * cu) + (r * su) * (r * su) == r * r * (cu * cu + su * su);
  }

  /** Each mesh point of the first n samples lies at distance |r[i]| from
      its skeleton point p[i]. */
  lemma {:induction false} OnCrossSectionFrom(t: Trig, a: Axis, theta: seq<real>, n: nat, cv: nat, i: nat, c: nat, q: nat)
    requires n <= |a.p| && n <= |a.r| && n <= |a.ca| && |theta| == cv && i < n && c < cv && q == i * cv + c
    requires Pythagorean(t)
    ensures var m := MeshFrom(t, a, theta, n);
      q < |m.points| && Dist2(m.points[q], a.p[i]) == Sq(a.r[i])
  {
    PointAtFrom(t, a, theta, n, cv, i, c, q);
    assert PythagoreanAt(t, theta[c]) && PythagoreanAt(t, a.ca[i]);
    OnCircle(t, a.p[i], a.r[i], a.ca[i], theta[c]);
  }

  /** Ring i starts and ends at the same point when sin and cos agree at the
      first and the last circle angle. */
  lemma {:induction false} RingClosesFrom(t: Trig, a: Axis, theta: seq<real>, n: nat, cv: nat, i: nat, first: nat, last: nat)
    requires n <= |a.p| && n <= |a.r| && n <= |a.ca| && i < n && |theta| == cv && cv >= 2
    requires first == i * cv && last == first + cv - 1
    requires Sin(t, theta[0]) == Sin(t, theta[|theta| - 1]) && Cos(t, theta[0]) == Cos(t, theta[|theta| - 1])
    ensures var m := MeshFrom(t, a, theta, n);
      last < |m.points| && m.points[first] == m.points[last]
  {
    PointAtFrom(t, a, theta, n, cv, i, 0, first);
    PointAtFrom(t, a, theta, n, cv, i, cv - 1, last);
    assert CircleDirection(t, theta[0], a.ca[i]) == CircleDirection(t, theta[|theta| - 1], a.ca[i]);
  }

  /** The skeleton samples gcs_mesh sweeps: for sv, fv >= 1 pspace covers
      exactly the 2*sv + 2*fv - 3 samples of the skeleton. */
  lemma {:induction false} PspaceCoversSkeleton(t: Trig, alpha: real, height: real, sv: nat, fv: nat, k: real)
    requires k * k != 1.0 && Cos(t, alpha) != 0.0 && Sin(t, alpha) != -1.0
    requires sv >= 1 && fv >= 1
    ensures var a := Skeleton(t, alpha, JunctionDistance(t, alpha, height, k), sv, fv, k);
      PspaceLength(sv, fv) == |a.p| == |a.r| == |a.ca| == 2 * sv + 2 * fv - 3
  {
  }

  /** gcs_mesh returns n * cv points, circle angles and skeleton indices,
      n = 2*sv + 2*fv - 3. */
  lemma {:induction false} MeshSize(t: Trig, alpha: real, height: real, sv: nat, fv: nat, cv: nat, k: real)
    requires k * k != 1.0 && Cos(t, alpha) != 0.0 && Sin(t, alpha) != -1.0
    requires sv >= 1 && fv >= 1
    ensures var m := GcsMesh(t, alpha, height, sv, fv, cv, k);
      |m.points| == PspaceLength(sv, fv) * cv && |m.u| == |m.points| && |m.v| == |m.points|
  {
    var a := Skeleton(t, alpha, JunctionDistance(t, alpha, height, k), sv, fv, k);
    MeshLengthFrom(t, a, Linspace(0.0, TwoPi(t), cv), PspaceLength(sv, fv), cv);
  }

  /** Flat index q = i * cv + c of gcs_mesh belongs to skeleton sample v = i at circle angle
      u = theta[c], and is r[i] * (cos u, sin u cos ca[i], sin u sin ca[i]) + p[i]. */
  lemma {:induction false} MeshIndex(t: Trig, alpha: real, height: real, sv: nat, fv: nat, cv: nat, k: real, i: nat, c: nat, q: nat)
    requires k * k != 1.0 && Cos(t, alpha) != 0.0 && Sin(t, alpha) != -1.0
    requires sv >= 1 && fv >= 1 && i < 2 * sv + 2 * fv - 3 && c < cv && q == i * cv + c
    ensures var m := GcsMesh(t, alpha, height, sv, fv, cv, k);
      var a := Skeleton(t, alpha, JunctionDistance(t, alpha, height, k), sv, fv, k);
      var theta := Linspace(0.0, TwoPi(t), cv);
      && q < |m.points| && q < |m.u| && q < |m.v| && i < |a.p|
      && m.v[q] == i && m.u[q] == theta[c]
      && m.points[q] == MeshPoint(t, a.p[i], a.r[i], a.ca[i], theta[c])
  {
    var a := Skeleton(t, alpha, JunctionDistance(t, alpha, height, k), sv, fv, k);
    var theta := Linspace(0.0, TwoPi(t), cv);
    PointAtFrom(t, a, theta, PspaceLength(sv, fv), cv, i, c, q);
    CircleAngleFrom(t, a, theta, PspaceLength(sv, fv), cv, i, c, q);
    SampleIndexFrom(t, a, theta, PspaceLength(sv, fv), cv, i, c, q);
  }

  /** Every mesh point lies at distance |r[i]| from its skeleton point p[i]. */
  lemma {:induction false} PointOnCrossSection(t: Trig, alpha: real, height: real, sv: nat, fv: nat, cv: nat, k: real, i: nat, c: nat, q: nat)
    requires k * k != 1.0 && Cos(t, alpha) != 0.0 && Sin(t, alpha) != -1.0
    requires sv >= 1 && fv >= 1 && i < 2 * sv + 2 * fv - 3 && c < cv && q == i * cv + c
    requires Pythagorean(t)
    ensures var m := GcsMesh(t, alpha, height, sv, fv, cv, k);
      var a := Skeleton(t, alpha, JunctionDistance(t, alpha, height, k), sv, fv, k);
      && q < |m.points| && i < |a.p|
      && Dist2(m.points[q], a.p[i]) == Sq(a.r[i])
  {
    var a := Skeleton(t, alpha, JunctionDistance(t, alpha, height, k), sv, fv, k);
    OnCrossSectionFrom(t, a, Linspace(0.0, TwoPi(t), cv), PspaceLength(sv, fv), cv, i, c, q);
  }

  /** Each ring closes: its first point (theta = 0, flat index i * cv) and
      its last point (theta = 2*pi, flat index i * cv + cv - 1) coincide when
      sin and cos agree at 0 and 2*pi. */
  lemma {:induction false} RingCloses(t: Trig, alpha: real, height: real, sv: nat, fv: nat, cv: nat, k: real, i: nat, first: nat, last: nat)
    requires k * k != 1.0 && Cos(t, alpha) != 0.0 && Sin(t, alpha) != -1.0
    requires sv >= 1 && fv >= 1 && cv >= 2 && i < 2 * sv + 2 * fv - 3
    requires first == i * cv && last == first + cv - 1
    requires FullTurn(t)
    ensures var m := GcsMesh(t, alpha, height, sv, fv, cv, k);
      last < |m.points| && m.points[first] == m.points[last]
  {
    var a := Skeleton(t, alpha, JunctionDistance(t, alpha, height, k), sv, fv, k);
    RingClosesFrom(t, a, Linspace(0.0, TwoPi(t), cv), PspaceLength(sv, fv), cv, i, first, last);
  }
}
