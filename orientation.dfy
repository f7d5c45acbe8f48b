/** gcs.py `rotate_mesh`, `gcs_mesh_rotated` and `gcs_mesh_sunpy`: the GCS
    mesh turned into its orientation on the sky, point by point, and the
    axis permutation and scaling that put it into SunPy's Cartesian frame. */
module Orientation {
  import opened Numerics
  import opened Skeletons
  import opened Meshes

  /** The `neang` list of `rotate_mesh`: longitude, latitude and tilt, in
      radians, in that order. */
  datatype Angles = Angles(lon: real, lat: real, tilt: real)

  /** The Euler angle list `rotate_mesh` hands to `from_euler('zyx', ...)`:
      `[neang[2], neang[1], neang[0]]`, i.e. tilt, latitude, longitude. */
  function EulerArguments(n: Angles): (e: seq<real>)
    ensures |e| == 3
  {
    [n.tilt, n.lat, n.lon]
  }

  // Right-handed rotations by angle a about the x, y and z axes applied to a point.
  function RotX(t: Trig, a: real, p: V3): V3 {
    var s, c := Sin(t, a), Cos(t, a);
    V3(p.x, c * p.y - s * p.z, s * p.y + c * p.z)
  }

  function RotY(t: Trig, a: real, p: V3): V3 {
    var s, c := Sin(t, a), Cos(t, a);
    V3(c * p.x + s * p.z, p.y, c * p.z - s * p.x)
  }

  function RotZ(t: Trig, a: real, p: V3): V3 {
    var s, c := Sin(t, a), Cos(t, a);
    V3(c * p.x - s * p.y, s * p.x + c * p.y, p.z)
  }

  /** scipy's lower-case 'zyx' sequence is extrinsic: the first angle turns
      about z, the second about the fixed y axis, the third about the fixed
      x axis, so the composed rotation is Rx(e[2]) Ry(e[1]) Rz(e[0]). */
  function Extrinsic(t: Trig, e: seq<real>, p: V3): V3
    requires |e| == 3
  {
    RotX(t, e[2], RotY(t, e[1], RotZ(t, e[0], p)))
  }

  /** The rotation `rotate_mesh` applies to one point. */
  function Rotate(t: Trig, n: Angles, p: V3): V3 {
    Extrinsic(t, EulerArguments(n), p)
  }

  // The transposed matrices: the rotations back by angle a.
  function RotXBack(t: Trig, a: real, p: V3): V3 {
    var s, c := Sin(t, a), Cos(t, a);
    V3(p.x, c * p.y + s * p.z, c * p.z - s * p.y)
  }

  function RotYBack(t: Trig, a: real, p: V3): V3 {
    var s, c := Sin(t, a), Cos(t, a);
    V3(c * p.x - s * p.z, p.y, c * p.z + s * p.x)
  }

  function RotZBack(t: Trig, a: real, p: V3): V3 {
    var s, c := Sin(t, a), Cos(t, a);
    V3(c * p.x + s * p.y, c * p.y - s * p.x, p.z)
  }

  /** The inverse rotation: longitude, latitude and tilt undone in reverse order. */
  function Unrotate(t: Trig, n: Angles, p: V3): V3 {
    RotZBack(t, n.tilt, RotYBack(t, n.lat, RotXBack(t, n.lon, p)))
  }

  /** `Rotation.apply` on an (N, 3) array: every point rotated on its own. */
  function RotateAll(t: Trig, n: Angles, pts: seq<V3>): (r: seq<V3>)
    ensures |r| == |pts|
    decreases |pts|
  {
    if |pts| == 0 then [] else RotateAll(t, n, pts[..|pts| - 1]) + [Rotate(t, n, pts[|pts| - 1])]
  }

  lemma {:induction false} RotateAllAt(t: Trig, n: Angles, pts: seq<V3>, i: nat)
    requires i < |pts|
    ensures RotateAll(t, n, pts)[i] == Rotate(t, n, pts[i])
    decreases |pts|
  {
    if i < |pts| - 1 {
      RotateAllAt(t, n, pts[..|pts| - 1], i);
    }
  }

  /** `gcs_mesh_rotated` applied to a mesh: points rotated, u and v kept. */
  function Rotated(t: Trig, n: Angles, m: Mesh): Mesh {
    Mesh(RotateAll(t, n, m.points), m.u, m.v)
  }

  /** gcs.py `gcs_mesh_rotated`: the mesh of `gcs_mesh`, rotated by
      `[lon, lat, tilt]`. */
  function GcsMeshRotated(t: Trig, alpha: real, height: real, sv: nat, fv: nat, cv: nat, k: real,
                          lat: real, lon: real, tilt: real): Mesh
    requires k * k != 1.0 && Cos(t, alpha) != 0.0 && Sin(t, alpha) != -1.0
    requires sv >= 1 && fv >= 1
  {
    Rotated(t, Angles(lon, lat, tilt), GcsMesh(t, alpha, height, sv, fv, cv, k))
  }

  /** The SunPy Cartesian triple of a point: rows permuted to (z, y, x),
      scaled by the solar radius, then the middle row negated. */
  function SunpyPoint(radius: real, p: V3): V3 {
    V3(radius * p.z, -(radius * p.y), radius * p.x)
  }

  /** The point a SunPy triple came from, for a non-zero radius. */
  function FromSunpy(radius: real, s: V3): V3
    requires radius != 0.0
  {
    V3(s.z / radius, -s.y / radius, s.x / radius)
  }

  function SunpyAll(radius: real, pts: seq<V3>): (r: seq<V3>)
    ensures |r| == |pts|
    decreases |pts|
  {
    if |pts| == 0 then [] else SunpyAll(radius, pts[..|pts| - 1]) + [SunpyPoint(radius, pts[|pts| - 1])]
  }

  lemma {:induction false} SunpyAllAt(radius: real, pts: seq<V3>, i: nat)
    requires i < |pts|
    ensures SunpyAll(radius, pts)[i] == SunpyPoint(radius, pts[i])
    decreases |pts|
  {
    if i < |pts| - 1 {
      SunpyAllAt(radius, pts[..|pts| - 1], i);
    }
  }

  /** gcs.py `gcs_mesh_sunpy` without the SkyCoord wrapper: the rotated mesh
      points in SunPy's Cartesian axes, `radius` standing for
      `sun.constants.radius`. */
  function GcsMeshSunpy(t: Trig, alpha: real, height: real, sv: nat, fv: nat, cv: nat, k: real,
                        lat: real, lon: real, tilt: real, radius: real): seq<V3>
    requires k * k != 1.0 && Cos(t, alpha) != 0.0 && Sin(t, alpha) != -1.0
    requires sv >= 1 && fv >= 1
  {
    SunpyAll(radius, GcsMeshRotated(t, alpha, height, sv, fv, cv, k, lat, lon, tilt).points)
  }

  // ---- Rotations are rigid -------------------------------------------------

  /** A turn of the plane by an angle with sine s and cosine c keeps the
      squared length of (y, z). */
  lemma {:induction false} PlaneTurn(s: real, c: real, y: real, z: real)
    requires s * s + c * c == 1.0
    ensures (c * y - s * z) * (c * y - s * z) + (s * y + c * z) * (s * y + c * z) == y * y + z * z
  {
    assert (c * y - s * z) * (c * y - s * z) + (s * y + c * z) * (s * y + c * z)
        == (s * s + c * c) * (y * y) + (s * s + c * c) * (z * z);
  }

  lemma {:induction false} RotXRigid(t: Trig, a: real, p: V3, q: V3)
    requires PythagoreanAt(t, a)
    ensures Dist2(RotX(t, a, p), RotX(t, a, q)) == Dist2(p, q)
  {
    var s, c := Sin(t, a), Cos(t, a);
    var dy, dz := p.y - q.y, p.z - q.z;
    assert RotX(t, a, p).y - RotX(t, a, q).y == c * dy - s * dz;
    assert RotX(t, a, p).z - RotX(t, a, q).z == s * dy + c * dz;
    PlaneTurn(s, c, dy, dz);
  }

  lemma {:induction false} RotYRigid(t: Trig, a: real, p: V3, q: V3)
    requires PythagoreanAt(t, a)
    ensures Dist2(RotY(t, a, p), RotY(t, a, q)) == Dist2(p, q)
  {
    var s, c := Sin(t, a), Cos(t, a);
    var dz, dx := p.z - q.z, p.x - q.x;
    assert RotY(t, a, p).z - RotY(t, a, q).z == c * dz - s * dx;
    assert RotY(t, a, p).x - RotY(t, a, q).x == s * dz + c * dx;
    PlaneTurn(s, c, dz, dx);
  }

  lemma {:induction false} RotZRigid(t: Trig, a: real, p: V3, q: V3)
    requires PythagoreanAt(t, a)
    ensures Dist2(RotZ(t, a, p), RotZ(t, a, q)) == Dist2(p, q)
  {
    var s, c := Sin(t, a), Cos(t, a);
    var dx, dy := p.x - q.x, p.y - q.y;
    assert RotZ(t, a, p).x - RotZ(t, a, q).x == c * dx - s * dy;
    assert RotZ(t, a, p).y - RotZ(t, a, q).y == s * dx + c * dy;
    PlaneTurn(s, c, dx, dy);
  }

  /** `rotate_mesh` keeps every distance between points, given
      sin^2 + cos^2 = 1 at the three angles. */
  lemma {:induction false} RotateRigid(t: Trig, n: Angles, p: V3, q: V3)
    requires PythagoreanAt(t, n.lon) && PythagoreanAt(t, n.lat) && PythagoreanAt(t, n.tilt)
    ensures Dist2(Rotate(t, n, p), Rotate(t, n, q)) == Dist2(p, q)
  {
    RotZRigid(t, n.tilt, p, q);
    RotYRigid(t, n.lat, RotZ(t, n.tilt, p), RotZ(t, n.tilt, q));
    RotXRigid(t, n.lon, RotY(t, n.lat, RotZ(t, n.tilt, p)), RotY(t, n.lat, RotZ(t, n.tilt, q)));
  }

  // ---- Zero angles and the inverse ----------------------------------------

  /** With all three angles 0 (sin 0 = 0, cos 0 = 1) `rotate_mesh` moves nothing. */
  lemma {:induction false} ZeroAnglesIdentity(t: Trig, p: V3)
    requires Sin(t, 0.0) == 0.0 && Cos(t, 0.0) == 1.0
    ensures Rotate(t, Angles(0.0, 0.0, 0.0), p) == p
  {
  }

  /** A turn of the plane followed by the transposed turn undoes it. */
  lemma {:induction false} PlaneTurnBack(s: real, c: real, y: real, z: real)
    requires s * s + c * c == 1.0
    ensures c * (c * y - s * z) + s * (s * y + c * z) == y
    ensures c * (s * y + c * z) - s * (c * y - s * z) == z
  {
    assert c * (c * y - s * z) + s * (s * y + c * z) == (s * s + c * c) * y;
    assert c * (s * y + c * z) - s * (c * y - s * z) == (s * s + c * c) * z;
  }

  lemma {:induction false} RotXUndone(t: Trig, a: real, p: V3)
    requires PythagoreanAt(t, a)
    ensures RotXBack(t, a, RotX(t, a, p)) == p
  {
    PlaneTurnBack(Sin(t, a), Cos(t, a), p.y, p.z);
  }

  lemma {:induction false} RotYUndone(t: Trig, a: real, p: V3)
    requires PythagoreanAt(t, a)
    ensures RotYBack(t, a, RotY(t, a, p)) == p
  {
    PlaneTurnBack(Sin(t, a), Cos(t, a), p.z, p.x);
  }

  lemma {:induction false} RotZUndone(t: Trig, a: real, p: V3)
    requires PythagoreanAt(t, a)
    ensures RotZBack(t, a, RotZ(t, a, p)) == p
  {
    PlaneTurnBack(Sin(t, a), Cos(t, a), p.x, p.y);
  }

  /** Undoing longitude, latitude and tilt in turn recovers the unrotated point. */
  lemma {:induction false} UnrotateRotate(t: Trig, n: Angles, p: V3)
    requires PythagoreanAt(t, n.lon) && PythagoreanAt(t, n.lat) && PythagoreanAt(t, n.tilt)
    ensures Unrotate(t, n, Rotate(t, n, p)) == p
  {
    var p1 := RotZ(t, n.tilt, p);
    var p2 := RotY(t, n.lat, p1);
    assert Rotate(t, n, p) == RotX(t, n.lon, p2);
    RotXUndone(t, n.lon, p2);
    RotYUndone(t, n.lat, p1);
    RotZUndone(t, n.tilt, p);
  }

  // ---- The rotated mesh ------------------------------------------------------

  /** Rotating a mesh keeps its length, its u and v arrays, and the order of
      its points: point q of the result is point q of the input, rotated. */
  lemma {:induction false} RotatedKeepsIndexing(t: Trig, n: Angles, m: Mesh, q: nat)
    requires q < |m.points|
    ensures var r := Rotated(t, n, m);
      && |r.points| == |m.points| && r.u == m.u && r.v == m.v
      && r.points[q] == Rotate(t, n, m.points[q])
  {
    RotateAllAt(t, n, m.points, q);
  }

  /** `gcs_mesh_rotated`: u and v are those of `gcs_mesh`, and each point is
      the rotation by [lon, lat, tilt] of the corresponding `gcs_mesh` point. */
  lemma {:induction false} GcsMeshRotatedAt(t: Trig, alpha: real, height: real, sv: nat, fv: nat, cv: nat, k: real,
                                             lat: real, lon: real, tilt: real, q: nat)
    requires k * k != 1.0 && Cos(t, alpha) != 0.0 && Sin(t, alpha) != -1.0
    requires sv >= 1 && fv >= 1 && q < PspaceLength(sv, fv) * cv
    ensures var m := GcsMesh(t, alpha, height, sv, fv, cv, k);
      var r := GcsMeshRotated(t, alpha, height, sv, fv, cv, k, lat, lon, tilt);
      && |r.points| == |m.points| && q < |m.points|
      && r.u == m.u && r.v == m.v
      && r.points[q] == Rotate(t, Angles(lon, lat, tilt), m.points[q])
  {
    var m := GcsMesh(t, alpha, height, sv, fv, cv, k);
    MeshSize(t, alpha, height, sv, fv, cv, k);
    RotatedKeepsIndexing(t, Angles(lon, lat, tilt), m, q);
  }

  /** After rotation every mesh point still lies at distance |r[i]| from its
      rotated skeleton point. */
  lemma {:induction false} RotatedPointOnCrossSection(t: Trig, alpha: real, height: real, sv: nat, fv: nat, cv: nat, k: real,
                                                       lat: real, lon: real, tilt: real, i: nat, c: nat, q: nat)
    requires k * k != 1.0 && Cos(t, alpha) != 0.0 && Sin(t, alpha) != -1.0
    requires sv >= 1 && fv >= 1 && i < 2 * sv + 2 * fv - 3 && c < cv && q == i * cv + c
    requires Pythagorean(t)
    ensures var r := GcsMeshRotated(t, alpha, height, sv, fv, cv, k, lat, lon, tilt);
      var a := Skeleton(t, alpha, JunctionDistance(t, alpha, height, k), sv, fv, k);
      && q < |r.points| && i < |a.p|
      && Dist2(r.points[q], Rotate(t, Angles(lon, lat, tilt), a.p[i])) == Sq(a.r[i])
  {
    var n := Angles(lon, lat, tilt);
    var m := GcsMesh(t, alpha, height, sv, fv, cv, k);
    var a := Skeleton(t, alpha, JunctionDistance(t, alpha, height, k), sv, fv, k);
    PointOnCrossSection(t, alpha, height, sv, fv, cv, k, i, c, q);
    RotatedKeepsIndexing(t, n, m, q);
    assert PythagoreanAt(t, lon) && PythagoreanAt(t, lat) && PythagoreanAt(t, tilt);
    RotateRigid(t, n, m.points[q], a.p[i]);
  }

  // ---- SunPy axes ------------------------------------------------------------

  /** The SunPy triple determines the point: FromSunpy inverts SunpyPoint. */
  lemma {:induction false} SunpyRoundTrip(radius: real, p: V3)
    requires radius != 0.0
    ensures FromSunpy(radius, SunpyPoint(radius, p)) == p
  {
    var s := SunpyPoint(radius, p);
    DivExact(s.z, radius, p.x);
    DivExact(radius * p.y, radius, p.y);
    DivExact(s.x, radius, p.z);
  }

  /** The SunPy axes scale every squared distance by radius^2 and change
      nothing else: the permutation and the sign flip are rigid. */
  lemma {:induction false} SunpyScalesDistance(radius: real, p: V3, q: V3)
    ensures Dist2(SunpyPoint(radius, p), SunpyPoint(radius, q)) == Sq(radius) * Dist2(p, q)
  {
    var dx, dy, dz := p.x - q.x, p.y - q.y, p.z - q.z;
    assert radius * p.z - radius * q.z == radius * dz;
    assert -(radius * p.y) - -(radius * q.y) == -(radius * dy);
    assert radius * p.x - radius * q.x == radius * dx;
    assert (radius * dz) * (radius * dz) + (-(radius * dy)) * (-(radius * dy)) + (radius * dx) * (radius * dx)
        == (radius * radius) * (dx * dx + dy * dy + dz * dz);
  }

  /** `gcs_mesh_sunpy` returns one triple per `gcs_mesh` point. */
  lemma {:induction false} GcsMeshSunpySize(t: Trig, alpha: real, height: real, sv: nat, fv: nat, cv: nat, k: real,
                                             lat: real, lon: real, tilt: real, radius: real)
    requires k * k != 1.0 && Cos(t, alpha) != 0.0 && Sin(t, alpha) != -1.0
    requires sv >= 1 && fv >= 1
    ensures |GcsMeshSunpy(t, alpha, height, sv, fv, cv, k, lat, lon, tilt, radius)| == PspaceLength(sv, fv) * cv
  {
    var m := GcsMesh(t, alpha, height, sv, fv, cv, k);
    MeshSize(t, alpha, height, sv, fv, cv, k);
    assert |Rotated(t, Angles(lon, lat, tilt), m).points| == |m.points|;
  }

  /** `gcs_mesh_sunpy`: one SunPy triple (z R, -y R, x R) per rotated mesh
      point, in the same order. */
  lemma {:induction false} GcsMeshSunpyAt(t: Trig, alpha: real, height: real, sv: nat, fv: nat, cv: nat, k: real,
                                           lat: real, lon: real, tilt: real, radius: real, q: nat)
    requires k * k != 1.0 && Cos(t, alpha) != 0.0 && Sin(t, alpha) != -1.0
    requires sv >= 1 && fv >= 1 && q < PspaceLength(sv, fv) * cv
    ensures var r := GcsMeshRotated(t, alpha, height, sv, fv, cv, k, lat, lon, tilt);
      var s := GcsMeshSunpy(t, alpha, height, sv, fv, cv, k, lat, lon, tilt, radius);
      && |s| == |r.points| && q < |s| && s[q] == SunpyPoint(radius, r.points[q])
  {
    var r := GcsMeshRotated(t, alpha, height, sv, fv, cv, k, lat, lon, tilt);
    GcsMeshRotatedAt(t, alpha, height, sv, fv, cv, k, lat, lon, tilt, q);
    SunpyAllAt(radius, r.points, q);
  }
}
