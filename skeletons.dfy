/** The centre line of the flux rope: gcs.py `skeleton`, after the SolarSoft
    routine shellskeleton.pro. It samples four segments (right leg, right half
    of the front arc, left half of the front arc, left leg) and concatenates
    them into positions `p`, cross-section radii `r` and cross-section angles
    `ca`. Axis 0 is depth, axis 1 lateral, axis 2 height. */
module Skeletons {
  import opened Numerics

  /** The three parallel arrays `skeleton` returns. */
  datatype Axis = Axis(p: seq<V3>, r: seq<real>, ca: seq<real>)

  /** The sampled segments, before assembly: the straight legs (`psl`), their
      radii and angles, and the front arc sampled at angles `beta` with
      centre offsets `x0`, radii `rc` and positions `pc`. */
  datatype Parts = Parts(
    pslR: seq<V3>, pslL: seq<V3>, rsl: seq<real>, casl: seq<real>,
    beta: seq<real>, x0: seq<real>, rc: seq<real>, pcR: seq<V3>, pcL: seq<V3>)

  ghost predicate Shaped(s: Parts, sv: nat, fv: nat) {
    && |s.pslR| == sv && |s.pslL| == sv && |s.rsl| == sv && |s.casl| == sv
    && |s.beta| == fv && |s.x0| == fv && |s.rc| == fv && |s.pcR| == fv && |s.pcL| == fv
  }

  /** np.outer of a column of scalars with one 3-vector. */
  function Outer(ts: seq<real>, d: V3): (m: seq<V3>)
    ensures |m| == |ts|
    decreases |ts|
  {
    if |ts| == 0 then [] else Outer(ts[..|ts| - 1], d) + [Scale(ts[|ts| - 1], d)]
  }

  /** Row i of the outer product is ts[i] times d. */
  lemma {:induction false} OuterAt(ts: seq<real>, d: V3, i: nat)
    requires i < |ts|
    ensures Outer(ts, d)[i] == Scale(ts[i], d)
    decreases |ts|
  {
    if i < |ts| - 1 {
      OuterAt(ts[..|ts| - 1], d, i);
    }
  }

  /** numpy.linalg.norm of one row. */
  function Norm(t: Trig, a: V3): real {
    Sqrt(t, SumSq(a))
  }

  function SumSq(a: V3): real {
    a.x * a.x + a.y * a.y + a.z * a.z
  }

  /** Leg radii: tan(gamma) times the distance of each leg sample from the
      origin. */
  function LegRadii(t: Trig, gamma: real, psl: seq<V3>): (r: seq<real>)
    ensures |r| == |psl|
    decreases |psl|
  {
    if |psl| == 0 then [] else LegRadii(t, gamma, psl[..|psl| - 1]) + [LegRadius(t, gamma, psl[|psl| - 1])]
  }

  /** Leg radius i is the radius of leg sample i. */
  lemma {:induction false} LegRadiiAt(t: Trig, gamma: real, psl: seq<V3>, i: nat)
    requires i < |psl|
    ensures LegRadii(t, gamma, psl)[i] == LegRadius(t, gamma, psl[i])
    decreases |psl|
  {
    if i < |psl| - 1 {
      LegRadiiAt(t, gamma, psl[..|psl| - 1], i);
    }
  }

  function LegRadius(t: Trig, gamma: real, p: V3): real {
    Tan(t, gamma) * Norm(t, p)
  }

  /** The front arc's centre offset X0 at each angle beta. */
  function FrontOffsets(t: Trig, k: real, h: real, rho: real, beta: seq<real>): (x0: seq<real>)
    requires k * k != 1.0
    ensures |x0| == |beta|
    decreases |beta|
  {
    if |beta| == 0 then [] else FrontOffsets(t, k, h, rho, beta[..|beta| - 1]) + [FrontOffset(t, k, h, rho, beta[|beta| - 1])]
  }

  /** Offset j is the offset at angle beta[j]. */
  lemma {:induction false} FrontOffsetsAt(t: Trig, k: real, h: real, rho: real, beta: seq<real>, j: nat)
    requires k * k != 1.0 && j < |beta|
    ensures FrontOffsets(t, k, h, rho, beta)[j] == FrontOffset(t, k, h, rho, beta[j])
    decreases |beta|
  {
    if j < |beta| - 1 {
      FrontOffsetsAt(t, k, h, rho, beta[..|beta| - 1], j);
    }
  }

  function FrontOffset(t: Trig, k: real, h: real, rho: real, b: real): real
    requires k * k != 1.0
  {
    (rho + h * (k * k) * Sin(t, b)) / (1.0 - k * k)
  }

  /** The front arc's cross-section radius at each centre offset. */
  function FrontRadii(t: Trig, k: real, h: real, rho: real, x0: seq<real>): (rc: seq<real>)
    requires k * k != 1.0
    ensures |rc| == |x0|
    decreases |x0|
  {
    if |x0| == 0 then [] else FrontRadii(t, k, h, rho, x0[..|x0| - 1]) + [FrontRadius(t, k, h, rho, x0[|x0| - 1])]
  }

  /** Radius j is the radius at offset x0[j]. */
  lemma {:induction false} FrontRadiiAt(t: Trig, k: real, h: real, rho: real, x0: seq<real>, j: nat)
    requires k * k != 1.0 && j < |x0|
    ensures FrontRadii(t, k, h, rho, x0)[j] == FrontRadius(t, k, h, rho, x0[j])
    decreases |x0|
  {
    if j < |x0| - 1 {
      FrontRadiiAt(t, k, h, rho, x0[..|x0| - 1], j);
    }
  }

  function FrontRadius(t: Trig, k: real, h: real, rho: real, x: real): real
    requires k * k != 1.0
  {
    Sqrt(t, RadiusArgument(k, h, rho, x))
  }

  /** gcs.py line 48: the argument of the square root giving rc. */
  function RadiusArgument(k: real, h: real, rho: real, x: real): real
    requires k * k != 1.0
  {
    (h * h * (k * k) - rho * rho) / (1.0 - k * k) + x * x
  }

  /** Right front positions (0, X0 cos beta, h + X0 sin beta). */
  function FrontRight(t: Trig, h: real, x0: seq<real>, beta: seq<real>): (pc: seq<V3>)
    requires |x0| == |beta|
    ensures |pc| == |beta|
    decreases |beta|
  {
    if |beta| == 0 then []
    else FrontRight(t, h, x0[..|x0| - 1], beta[..|beta| - 1]) + [FrontPoint(t, h, x0[|x0| - 1], beta[|beta| - 1])]
  }

  /** Right front sample j is the arc point at offset x0[j] and angle beta[j]. */
  lemma {:induction false} FrontRightAt(t: Trig, h: real, x0: seq<real>, beta: seq<real>, j: nat)
    requires |x0| == |beta| && j < |beta|
    ensures FrontRight(t, h, x0, beta)[j] == FrontPoint(t, h, x0[j], beta[j])
    decreases |beta|
  {
    if j < |beta| - 1 {
      FrontRightAt(t, h, x0[..|x0| - 1], beta[..|beta| - 1], j);
    }
  }

  function FrontPoint(t: Trig, h: real, x: real, b: real): V3 {
    V3(0.0, x * Cos(t, b), h + x * Sin(t, b))
  }

  /** Left front positions (0, -X0 cos beta, h + X0 sin beta). */
  function FrontLeft(t: Trig, h: real, x0: seq<real>, beta: seq<real>): (pc: seq<V3>)
    requires |x0| == |beta|
    ensures |pc| == |beta|
    decreases |beta|
  {
    if |beta| == 0 then []
    else FrontLeft(t, h, x0[..|x0| - 1], beta[..|beta| - 1]) + [FrontPointLeft(t, h, x0[|x0| - 1], beta[|beta| - 1])]
  }

  /** Left front sample j is the mirrored arc point at offset x0[j] and angle beta[j]. */
  lemma {:induction false} FrontLeftAt(t: Trig, h: real, x0: seq<real>, beta: seq<real>, j: nat)
    requires |x0| == |beta| && j < |beta|
    ensures FrontLeft(t, h, x0, beta)[j] == FrontPointLeft(t, h, x0[j], beta[j])
    decreases |beta|
  {
    if j < |beta| - 1 {
      FrontLeftAt(t, h, x0[..|x0| - 1], beta[..|beta| - 1], j);
    }
  }

  function FrontPointLeft(t: Trig, h: real, x: real, b: real): V3 {
    V3(0.0, -x * Cos(t, b), h + x * Sin(t, b))
  }

  /** The segments of gcs.py lines 31-52 for given leg distances `ts`, front
      angles `beta`, arc height `h` and arc offset `rho`; `k` is the aspect
      ratio kappa and gamma = arcsin(k) the leg half-angle. */
  function SegmentsFrom(t: Trig, alpha: real, k: real, ts: seq<real>, beta: seq<real>, h: real, rho: real): (s: Parts)
    requires k * k != 1.0
    ensures Shaped(s, |ts|, |beta|)
  {
    var pslR := Outer(ts, V3(0.0, Sin(t, alpha), Cos(t, alpha)));
    var x0 := FrontOffsets(t, k, h, rho, beta);
    Parts(
      pslR, Outer(ts, V3(0.0, -Sin(t, alpha), Cos(t, alpha))),
      LegRadii(t, Arcsin(t, k), pslR), Full(-alpha, |ts|),
      beta, x0, FrontRadii(t, k, h, rho, x0),
      FrontRight(t, h, x0, beta), FrontLeft(t, h, x0, beta))
  }

  /** The concatenation used for `p` and `r` (gcs.py lines 54 and 56): x, then
      y from its second element, then z reversed from its second element, then
      w reversed from its second element. */
  function Join<T>(x: seq<T>, y: seq<T>, z: seq<T>, w: seq<T>): (j: seq<T>)
    ensures |x| >= 1 && |y| >= 1 && |z| >= 1 && |w| >= 1 ==> |j| == |x| + |y| + |z| + |w| - 3
  {
    x + Rest(y) + Rest(Flip(z)) + Rest(Flip(w))
  }

  /** The concatenation used for `ca` (gcs.py line 55): as Join with z = y and
      w = x, the two reversed parts reflected as pi - angle. */
  function JoinAngles(pi: real, x: seq<real>, y: seq<real>): (j: seq<real>)
    ensures |x| >= 1 && |y| >= 1 ==> |j| == 2 * |x| + 2 * |y| - 3
  {
    x + Rest(y) + Reflect(pi, Rest(Flip(y))) + Reflect(pi, Rest(Flip(x)))
  }

  /** Assembly of the three arrays from the segments (gcs.py lines 54-56). */
  function Assemble(pi: real, s: Parts): Axis {
    Axis(Join(s.pslR, s.pcR, s.pcL, s.pslL), Join(s.rsl, s.rc, s.rc, s.rsl), JoinAngles(pi, s.casl, s.beta))
  }

  /** The skeleton for given samples; `Skeleton` fixes them. */
  function SkeletonFrom(t: Trig, alpha: real, k: real, ts: seq<real>, beta: seq<real>, h: real, rho: real): (a: Axis)
    requires k * k != 1.0
    ensures |ts| >= 1 && |beta| >= 1 ==>
      && |a.p| == 2 * |ts| + 2 * |beta| - 3 && |a.r| == |a.p| && |a.ca| == |a.p|
  {
    Assemble(t.pi, SegmentsFrom(t, alpha, k, ts, beta, h, rho))
  }

  /** gcs.py line 44: h = distJunc / cos(alpha), the height of the front
      arc's reference point. */
  function ArcHeight(t: Trig, alpha: real, d: real): real
    requires Cos(t, alpha) != 0.0
  {
    d / Cos(t, alpha)
  }

  /** gcs.py line 45: rho = distJunc * tan(alpha). */
  function ArcShift(t: Trig, alpha: real, d: real): real {
    d * Tan(t, alpha)
  }

  /** gcs.py `skeleton`: sv leg distances from 0 to `distJunc` (where the legs
      meet the front arc), fv front angles from -alpha to pi/2,
      h = distJunc / cos(alpha) and rho = distJunc * tan(alpha); three arrays
      of 2*sv + 2*fv - 3 samples each. */
  function Skeleton(t: Trig, alpha: real, distJunc: real, sv: nat, fv: nat, k: real): (a: Axis)
    requires k * k != 1.0 && Cos(t, alpha) != 0.0
    ensures sv >= 1 && fv >= 1 ==>
      && |a.p| == 2 * sv + 2 * fv - 3 && |a.r| == |a.p| && |a.ca| == |a.p|
  {
    SkeletonFrom(t, alpha, k, Linspace(0.0, distJunc, sv), Linspace(-alpha, HalfPi(t), fv),
      ArcHeight(t, alpha, distJunc), ArcShift(t, alpha, distJunc))
  }

  // The layout of the concatenations, piece by piece. With n = 2*sv + 2*fv - 3,
  // indices below sv hold the first part, the next fv - 1 the second part from
  // its element 1, the next fv - 1 the third part reversed (elements fv-2..0),
  // and the last sv - 1 the fourth part reversed (elements sv-2..0).

  lemma {:induction false} ConcatAt<T>(a: seq<T>, b: seq<T>, c: seq<T>, d: seq<T>, i: nat)
    requires i < |a| + |b| + |c| + |d|
    ensures (a + b + c + d)[i] ==
      if i < |a| then a[i]
      else if i < |a| + |b| then b[i - |a|]
      else if i < |a| + |b| + |c| then c[i - |a| - |b|]
      else d[i - |a| - |b| - |c|]
  {
  }

  lemma {:induction false} RestFlipAt<T>(z: seq<T>, m: nat)
    requires m + 1 < |z|
    ensures Rest(Flip(z))[m] == z[|z| - 2 - m]
  {
    RestAt(Flip(z), m);
    FlipAt(z, m + 1);
  }

  /** The element of Join at index i, by the piece i falls in. */
  lemma {:induction false} JoinAt<T>(x: seq<T>, y: seq<T>, z: seq<T>, w: seq<T>, sv: nat, fv: nat, i: nat)
    requires |x| == sv && |w| == sv && |y| == fv && |z| == fv && sv >= 1 && fv >= 1
    requires i < 2 * sv + 2 * fv - 3
    ensures Join(x, y, z, w)[i] ==
      if i < sv then x[i]
      else if i < sv + fv - 1 then y[i - sv + 1]
      else if i < sv + 2 * fv - 2 then z[sv + 2 * fv - 3 - i]
      else w[2 * sv + 2 * fv - 4 - i]
  {
    ConcatAt(x, Rest(y), Rest(Flip(z)), Rest(Flip(w)), i);
    if sv <= i < sv + fv - 1 {
      RestAt(y, i - sv);
    } else if sv + fv - 1 <= i < sv + 2 * fv - 2 {
      RestFlipAt(z, i - sv - fv + 1);
    } else if sv + 2 * fv - 2 <= i {
      RestFlipAt(w, i - sv - 2 * fv + 2);
    }
  }

  /** The element of JoinAngles at index i, by the piece i falls in. */
  lemma {:induction false} JoinAnglesAt(pi: real, x: seq<real>, y: seq<real>, sv: nat, fv: nat, i: nat)
    requires |x| == sv && |y| == fv && sv >= 1 && fv >= 1
    requires i < 2 * sv + 2 * fv - 3
    ensures JoinAngles(pi, x, y)[i] ==
      if i < sv then x[i]
      else if i < sv + fv - 1 then y[i - sv + 1]
      else if i < sv + 2 * fv - 2 then pi - y[sv + 2 * fv - 3 - i]
      else pi - x[2 * sv + 2 * fv - 4 - i]
  {
    ConcatAt(x, Rest(y), Reflect(pi, Rest(Flip(y))), Reflect(pi, Rest(Flip(x))), i);
    if sv <= i < sv + fv - 1 {
      RestAt(y, i - sv);
    } else if sv + fv - 1 <= i < sv + 2 * fv - 2 {
      ReflectAt(pi, Rest(Flip(y)), i - sv - fv + 1);
      RestFlipAt(y, i - sv - fv + 1);
    } else if sv + 2 * fv - 2 <= i {
      ReflectAt(pi, Rest(Flip(x)), i - sv - 2 * fv + 2);
      RestFlipAt(x, i - sv - 2 * fv + 2);
    }
  }

  /** Index i of the right half (up to the middle sv + fv - 2) and its mirror
      n - 1 - i hold corresponding samples of the right and the left parts:
      the same leg sample below the junction, the first front sample facing the
      last leg sample at the junction, the same front sample beyond it. */
  lemma {:induction false} JoinPair<T>(x: seq<T>, y: seq<T>, z: seq<T>, w: seq<T>, sv: nat, fv: nat, i: nat)
    requires |x| == sv && |w| == sv && |y| == fv && |z| == fv && sv >= 1 && fv >= 2
    requires i <= sv + fv - 2
    ensures var j, n := Join(x, y, z, w), 2 * sv + 2 * fv - 3;
      && (i < sv - 1 ==> j[i] == x[i] && j[n - 1 - i] == w[i])
      && (i == sv - 1 ==> j[i] == x[sv - 1] && j[n - 1 - i] == z[0])
      && (sv - 1 < i < sv + fv - 2 ==> j[i] == y[i - sv + 1] && j[n - 1 - i] == z[i - sv + 1])
      && (i == sv + fv - 2 ==> j[i] == y[fv - 1] && j[n - 1 - i] == y[fv - 1])
  {
    JoinAt(x, y, z, w, sv, fv, i);
    JoinAt(x, y, z, w, sv, fv, 2 * sv + 2 * fv - 4 - i);
  }

  /** Lateral reflection is an involution. */
  lemma {:induction false} MirrorTwice(a: V3)
    ensures MirrorLateral(MirrorLateral(a)) == a
  {
  }

  /** If z and w are the lateral reflections of y and x, y starts where x ends
      and y's last element lies in the reflection plane, the joined sequence
      reads as its own lateral reflection from the other end. */
  lemma {:induction false} MirrorJoin(x: seq<V3>, y: seq<V3>, z: seq<V3>, w: seq<V3>, sv: nat, fv: nat)
    requires |x| == sv && |w| == sv && |y| == fv && |z| == fv && sv >= 1 && fv >= 2
    requires forall j :: 0 <= j < sv ==> w[j] == MirrorLateral(x[j])
    requires forall j :: 0 <= j < fv ==> z[j] == MirrorLateral(y[j])
    requires y[0] == x[sv - 1] && MirrorLateral(y[fv - 1]) == y[fv - 1]
    ensures var j := Join(x, y, z, w);
      forall i :: 0 <= i < |j| ==> j[|j| - 1 - i] == MirrorLateral(j[i])
  {
    var j, n := Join(x, y, z, w), 2 * sv + 2 * fv - 3;
    forall i | 0 <= i < n
      ensures j[n - 1 - i] == MirrorLateral(j[i])
    {
      if i <= sv + fv - 2 {
        JoinPair(x, y, z, w, sv, fv, i);
      } else {
        JoinPair(x, y, z, w, sv, fv, n - 1 - i);
        MirrorTwice(j[n - 1 - i]);
      }
    }
  }

  /** A sequence laid out as Join(x, y, y, x) is a palindrome when y starts
      where x ends. */
  lemma {:induction false} PalindromeJoin<T>(x: seq<T>, y: seq<T>, sv: nat, fv: nat)
    requires |x| == sv && |y| == fv && sv >= 1 && fv >= 2
    requires y[0] == x[sv - 1]
    ensures var j := Join(x, y, y, x);
      forall i :: 0 <= i < |j| ==> j[|j| - 1 - i] == j[i]
  {
    var j, n := Join(x, y, y, x), 2 * sv + 2 * fv - 3;
    forall i | 0 <= i < n
      ensures j[n - 1 - i] == j[i]
    {
      if i <= sv + fv - 2 {
        JoinPair(x, y, y, x, sv, fv, i);
      } else {
        JoinPair(x, y, y, x, sv, fv, n - 1 - i);
      }
    }
  }

  /** The angle layout is reflected about pi/2 end to end when y starts where
      x ends and ends at pi/2; its middle element is then pi/2. */
  lemma {:induction false} ReflectedJoinMirror(pi: real, x: seq<real>, y: seq<real>, sv: nat, fv: nat)
    requires |x| == sv && |y| == fv && sv >= 1 && fv >= 2
    requires x[sv - 1] == y[0] && y[fv - 1] == pi / 2.0
    ensures var j := JoinAngles(pi, x, y);
      && (forall i :: 0 <= i < |j| ==> j[|j| - 1 - i] == pi - j[i])
      && j[sv + fv - 2] == pi / 2.0
  {
    var j, n := JoinAngles(pi, x, y), 2 * sv + 2 * fv - 3;
    forall i | 0 <= i < n
      ensures j[n - 1 - i] == pi - j[i]
    {
      JoinAnglesAt(pi, x, y, sv, fv, i);
      JoinAnglesAt(pi, x, y, sv, fv, n - 1 - i);
    }
    JoinAnglesAt(pi, x, y, sv, fv, sv + fv - 2);
  }

  lemma {:induction false} ScaleMirror(c: real, a: real, b: real)
    ensures Scale(c, V3(0.0, -a, b)) == MirrorLateral(Scale(c, V3(0.0, a, b)))
  {
    assert c * -a == -(c * a);
  }

  lemma {:induction false} OuterMirror(ts: seq<real>, a: real, b: real)
    ensures forall j :: 0 <= j < |ts| ==>
      Outer(ts, V3(0.0, -a, b))[j] == MirrorLateral(Outer(ts, V3(0.0, a, b))[j])
  {
    forall j | 0 <= j < |ts|
      ensures Outer(ts, V3(0.0, -a, b))[j] == MirrorLateral(Outer(ts, V3(0.0, a, b))[j])
    {
      OuterAt(ts, V3(0.0, -a, b), j);
      OuterAt(ts, V3(0.0, a, b), j);
      ScaleMirror(ts[j], a, b);
    }
  }

  lemma {:induction false} FrontPointMirror(t: Trig, h: real, x: real, b: real)
    ensures FrontPointLeft(t, h, x, b) == MirrorLateral(FrontPoint(t, h, x, b))
  {
    assert -x * Cos(t, b) == -(x * Cos(t, b));
  }

  lemma {:induction false} FrontMirror(t: Trig, h: real, x0: seq<real>, beta: seq<real>)
    requires |x0| == |beta|
    ensures forall j :: 0 <= j < |beta| ==>
      FrontLeft(t, h, x0, beta)[j] == MirrorLateral(FrontRight(t, h, x0, beta)[j])
  {
    forall j | 0 <= j < |beta|
      ensures FrontLeft(t, h, x0, beta)[j] == MirrorLateral(FrontRight(t, h, x0, beta)[j])
    {
      FrontLeftAt(t, h, x0, beta, j);
      FrontRightAt(t, h, x0, beta, j);
      FrontPointMirror(t, h, x0[j], beta[j]);
    }
  }

  /** The left leg is the lateral reflection of the right leg, and the left
      front of the right front, whatever the samples. */
  lemma {:induction false} SidesMirroredFrom(t: Trig, alpha: real, k: real, ts: seq<real>, beta: seq<real>, h: real, rho: real)
    requires k * k != 1.0
    ensures var s := SegmentsFrom(t, alpha, k, ts, beta, h, rho);
      && (forall j :: 0 <= j < |ts| ==> s.pslL[j] == MirrorLateral(s.pslR[j]))
      && (forall j :: 0 <= j < |beta| ==> s.pcL[j] == MirrorLateral(s.pcR[j]))
  {
    OuterMirror(ts, Sin(t, alpha), Cos(t, alpha));
    FrontMirror(t, h, FrontOffsets(t, k, h, rho, beta), beta);
  }

  // The junction between legs and front arc. The source relies on these
  // identities without stating them; they hold given the listed trigonometric
  // facts at alpha and at arcsin(k).

  /** (d/c)^2 - (d*(s/c))^2 = d^2 when s^2 + c^2 = 1. */
  lemma {:induction false} LegDifference(s: real, c: real, d: real)
    requires c != 0.0 && s * s + c * c == 1.0
    ensures (d / c) * (d / c) - (d * (s / c)) * (d * (s / c)) == d * d
  {
    var u := d / c;
    assert d * (s / c) == u * s;
    assert (u * s) * (u * s) == (u * u) * (s * s);
    assert u * u - (u * u) * (s * s) == (u * u) * (c * c);
    assert (u * u) * (c * c) == (u * c) * (u * c);
    assert u * c == d;
  }

  /** |d * (0, s, c)|^2 = d^2 when s^2 + c^2 = 1. */
  lemma {:induction false} SumOfSquares(d: real, s: real, c: real)
    requires s * s + c * c == 1.0
    ensures (d * 0.0) * (d * 0.0) + (d * s) * (d * s) + (d * c) * (d * c) == d * d
  {
    assert (d * s) * (d * s) == (d * d) * (s * s);
    assert (d * c) * (d * c) == (d * d) * (c * c);
    assert (d * d) * (s * s) + (d * d) * (c * c) == (d * d) * (s * s + c * c);
  }


  /** A leg sample at distance d along (0, sin alpha, cos alpha) has norm |d|. */
  lemma {:induction false} LegNorm(t: Trig, alpha: real, d: real)
    requires PythagoreanAt(t, alpha) && SqrtLaw(t)
    ensures Norm(t, Scale(d, V3(0.0, Sin(t, alpha), Cos(t, alpha)))) == if d >= 0.0 then d else -d
  {
    var s, c := Sin(t, alpha), Cos(t, alpha);
    var ad := if d >= 0.0 then d else -d;
    var v := Scale(d, V3(0.0, s, c));
    SumOfSquares(d, s, c);
    assert SumSq(v) == ad * ad;
    SqrtUnique(t, ad, ad * ad);
  }

  /** At beta = -alpha the front arc's centre offset X0 equals rho. */
  lemma {:induction false} JunctionOffset(t: Trig, alpha: real, d: real, k: real)
    requires Cos(t, alpha) != 0.0 && k * k != 1.0
    requires TanAt(t, alpha) && ParityAt(t, alpha)
    ensures FrontOffset(t, k, ArcHeight(t, alpha, d), ArcShift(t, alpha, d), -alpha) == ArcShift(t, alpha, d)
  {
    var s, c := Sin(t, alpha), Cos(t, alpha);
    var h, rho := d / c, ArcShift(t, alpha, d);
    assert rho == d * (s / c);
    assert h * s == rho;
    assert h * (k * k) * Sin(t, -alpha) == -(rho * (k * k));
    assert rho + h * (k * k) * Sin(t, -alpha) == rho * (1.0 - k * k);
    DivExact(rho + h * (k * k) * Sin(t, -alpha), 1.0 - k * k, rho);
  }

  /** The front arc at beta = -alpha with X0 = rho is the last leg sample. */
  lemma {:induction false} JunctionPoint(t: Trig, alpha: real, d: real)
    requires Cos(t, alpha) != 0.0
    requires TanAt(t, alpha) && ParityAt(t, alpha) && PythagoreanAt(t, alpha)
    ensures FrontPoint(t, ArcHeight(t, alpha, d), ArcShift(t, alpha, d), -alpha)
         == Scale(d, V3(0.0, Sin(t, alpha), Cos(t, alpha)))
  {
    var s, c := Sin(t, alpha), Cos(t, alpha);
    var h, rho := d / c, ArcShift(t, alpha, d);
    assert rho == d * (s / c);
    assert rho * c == d * s;
    assert (h - rho * s) * c == d - d * s * s == d * c * c;
    assert h + rho * Sin(t, -alpha) == d * c;
  }

  /** h^2 - rho^2 = d^2 for h = d / cos(alpha) and rho = d * tan(alpha). */
  lemma {:induction false} ArcLegs(t: Trig, alpha: real, d: real)
    requires Cos(t, alpha) != 0.0
    requires TanAt(t, alpha) && PythagoreanAt(t, alpha)
    ensures ArcHeight(t, alpha, d) * ArcHeight(t, alpha, d) - ArcShift(t, alpha, d) * ArcShift(t, alpha, d) == d * d
  {
    var s, c := Sin(t, alpha), Cos(t, alpha);
    assert ArcShift(t, alpha, d) == d * (s / c);
    LegDifference(s, c, d);
  }

  /** k^2 d^2 / (1 - k^2): the squared radius where the legs meet the front. */
  function JunctionArgument(k: real, d: real): real
    requires k * k != 1.0
  {
    (k * k) * (d * d) / (1.0 - k * k)
  }

  /** (h^2 k^2 - rho^2) / (1 - k^2) + rho^2 = k^2 d^2 / (1 - k^2) when h^2 - rho^2 = d^2. */
  lemma {:induction false} ArgumentAlgebra(h: real, rho: real, d: real, k: real)
    requires k * k != 1.0 && h * h - rho * rho == d * d
    ensures RadiusArgument(k, h, rho, rho) == JunctionArgument(k, d)
  {
    var k2 := k * k;
    var a := h * h * k2 - rho * rho;
    assert a + rho * rho * (1.0 - k2) == k2 * (h * h - rho * rho);
    var lhs := a / (1.0 - k2) + rho * rho;
    assert lhs * (1.0 - k2) == a + rho * rho * (1.0 - k2);
    DivExact(k2 * (d * d), 1.0 - k2, lhs);
  }

  /** k|d|/q is the non-negative root of k^2 d^2 / (1 - k^2) when q^2 = 1 - k^2. */
  lemma {:induction false} ScaledRoot(k: real, d: real, q: real)
    requires 0.0 <= k && 0.0 < q && q * q == 1.0 - k * k
    ensures var ad := if d >= 0.0 then d else -d;
      var x := (k / q) * ad;
      0.0 <= x && x * x == JunctionArgument(k, d)
  {
    var ad := if d >= 0.0 then d else -d;
    var x := (k / q) * ad;
    assert 0.0 <= k / q;
    assert ad * ad == d * d;
    assert x * q == k * ad;
    assert (x * x) * (q * q) == (x * q) * (x * q);
    assert (k * ad) * (k * ad) == (k * k) * (ad * ad);
    DivExact((k * k) * (d * d), q * q, x * x);
  }

  /** tan(arcsin k) = k / sqrt(1 - k^2), with a positive root. */
  lemma {:induction false} TanOfArcsin(t: Trig, k: real)
    requires k * k < 1.0
    requires ArcsinAt(t, k) && TanAt(t, Arcsin(t, k)) && SqrtLaw(t)
    ensures var q := Sqrt(t, 1.0 - k * k);
      0.0 < q && q * q == 1.0 - k * k && Tan(t, Arcsin(t, k)) == k / q
  {
    var q := Sqrt(t, 1.0 - k * k);
    assert 0.0 <= q && q * q == 1.0 - k * k;
  }

  /** The last leg radius is k|d| / sqrt(1 - k^2). */
  lemma {:induction false} LegEndRadius(t: Trig, alpha: real, d: real, k: real)
    requires k * k < 1.0
    requires PythagoreanAt(t, alpha)
    requires ArcsinAt(t, k) && TanAt(t, Arcsin(t, k)) && SqrtLaw(t)
    ensures LegRadius(t, Arcsin(t, k), Scale(d, V3(0.0, Sin(t, alpha), Cos(t, alpha))))
         == (k / Sqrt(t, 1.0 - k * k)) * (if d >= 0.0 then d else -d)
  {
    LegNorm(t, alpha, d);
    TanOfArcsin(t, k);
  }

  /** The first front radius is sqrt(k^2 d^2 / (1 - k^2)). */
  lemma {:induction false} FrontStartRadius(t: Trig, alpha: real, d: real, k: real)
    requires Cos(t, alpha) != 0.0 && k * k != 1.0
    requires TanAt(t, alpha) && PythagoreanAt(t, alpha)
    ensures FrontRadius(t, k, ArcHeight(t, alpha, d), ArcShift(t, alpha, d), ArcShift(t, alpha, d))
         == Sqrt(t, JunctionArgument(k, d))
  {
    ArcLegs(t, alpha, d);
    ArgumentAlgebra(ArcHeight(t, alpha, d), ArcShift(t, alpha, d), d, k);
  }

  /** sqrt(k^2 d^2 / (1 - k^2)) = k|d| / sqrt(1 - k^2) for 0 <= k < 1. */
  lemma {:induction false} RootOfArgument(t: Trig, d: real, k: real)
    requires 0.0 <= k && k * k < 1.0 && SqrtLaw(t)
    ensures Sqrt(t, 1.0 - k * k) != 0.0
    ensures Sqrt(t, JunctionArgument(k, d)) == (k / Sqrt(t, 1.0 - k * k)) * (if d >= 0.0 then d else -d)
  {
    var q := Sqrt(t, 1.0 - k * k);
    assert 0.0 <= q && q * q == 1.0 - k * k;
    ScaledRoot(k, d, q);
    SqrtUnique(t, (k / q) * (if d >= 0.0 then d else -d), JunctionArgument(k, d));
  }

  /** The first front radius equals the last leg radius: both are
      |d| * k / sqrt(1 - k^2). */
  lemma {:induction false} JunctionRadius(t: Trig, alpha: real, d: real, k: real)
    requires Cos(t, alpha) != 0.0 && 0.0 <= k && k * k < 1.0
    requires TanAt(t, alpha) && PythagoreanAt(t, alpha)
    requires ArcsinAt(t, k) && TanAt(t, Arcsin(t, k)) && SqrtLaw(t)
    ensures FrontRadius(t, k, ArcHeight(t, alpha, d), ArcShift(t, alpha, d), ArcShift(t, alpha, d))
         == LegRadius(t, Arcsin(t, k), Scale(d, V3(0.0, Sin(t, alpha), Cos(t, alpha))))
  {
    FrontStartRadius(t, alpha, d, k);
    RootOfArgument(t, d, k);
    LegEndRadius(t, alpha, d, k);
  }

  /** The last right-leg sample and its radius, read off their definitions. */
  lemma {:induction false} LegEndFrom(t: Trig, alpha: real, k: real, ts: seq<real>, beta: seq<real>, h: real, rho: real)
    requires k * k != 1.0 && |ts| >= 1
    ensures var s := SegmentsFrom(t, alpha, k, ts, beta, h, rho);
      && s.pslR[|ts| - 1] == Scale(ts[|ts| - 1], V3(0.0, Sin(t, alpha), Cos(t, alpha)))
      && s.rsl[|ts| - 1] == LegRadius(t, Arcsin(t, k), s.pslR[|ts| - 1])
  {
    OuterAt(ts, V3(0.0, Sin(t, alpha), Cos(t, alpha)), |ts| - 1);
    LegRadiiAt(t, Arcsin(t, k), Outer(ts, V3(0.0, Sin(t, alpha), Cos(t, alpha))), |ts| - 1);
  }

  /** Front sample j, its centre offset and its radius, read off their
      definitions. */
  lemma {:induction false} FrontSampleFrom(t: Trig, alpha: real, k: real, ts: seq<real>, beta: seq<real>, h: real, rho: real, j: nat)
    requires k * k != 1.0 && j < |beta|
    ensures var s := SegmentsFrom(t, alpha, k, ts, beta, h, rho);
      && s.x0[j] == FrontOffset(t, k, h, rho, beta[j])
      && s.pcR[j] == FrontPoint(t, h, s.x0[j], beta[j])
      && s.rc[j] == FrontRadius(t, k, h, rho, s.x0[j])
  {
    var x0 := FrontOffsets(t, k, h, rho, beta);
    FrontOffsetsAt(t, k, h, rho, beta, j);
    FrontRightAt(t, h, x0, beta, j);
    FrontRadiiAt(t, k, h, rho, x0, j);
  }

  /** Where the legs meet the front arc the two pieces agree: the first front
      sample is the last leg sample, with the same radius, provided the legs
      end at distance d, the arc starts at -alpha, h = d / cos(alpha) and
      rho = d * tan(alpha). */
  lemma {:induction false} JunctionFrom(t: Trig, alpha: real, k: real, ts: seq<real>, beta: seq<real>, d: real)
    requires |ts| >= 1 && |beta| >= 1 && ts[|ts| - 1] == d && beta[0] == -alpha
    requires Cos(t, alpha) != 0.0 && 0.0 <= k && k * k < 1.0
    requires TanAt(t, alpha) && ParityAt(t, alpha) && PythagoreanAt(t, alpha)
    requires ArcsinAt(t, k) && TanAt(t, Arcsin(t, k)) && SqrtLaw(t)
    ensures var s := SegmentsFrom(t, alpha, k, ts, beta, ArcHeight(t, alpha, d), ArcShift(t, alpha, d));
      s.pcR[0] == s.pslR[|ts| - 1] && s.rc[0] == s.rsl[|ts| - 1]
  {
    var h, rho := ArcHeight(t, alpha, d), ArcShift(t, alpha, d);
    LegEndFrom(t, alpha, k, ts, beta, h, rho);
    FrontSampleFrom(t, alpha, k, ts, beta, h, rho, 0);
    JunctionOffset(t, alpha, d, k);
    JunctionPoint(t, alpha, d);
    JunctionRadius(t, alpha, d, k);
  }

  /** At beta = pi/2 the front sample lies on the height axis, at height
      h + X0, in the plane of lateral reflection. */
  lemma {:induction false} ApexFrom(t: Trig, alpha: real, k: real, ts: seq<real>, beta: seq<real>, h: real, rho: real)
    requires k * k != 1.0 && |beta| >= 1 && beta[|beta| - 1] == HalfPi(t) && QuarterTurn(t)
    ensures var s := SegmentsFrom(t, alpha, k, ts, beta, h, rho);
      && s.x0[|beta| - 1] == FrontOffset(t, k, h, rho, HalfPi(t))
      && s.pcR[|beta| - 1] == V3(0.0, 0.0, h + s.x0[|beta| - 1])
      && s.rc[|beta| - 1] == FrontRadius(t, k, h, rho, s.x0[|beta| - 1])
  {
    FrontSampleFrom(t, alpha, k, ts, beta, h, rho, |beta| - 1);
  }

  /** The joined positions read as their own lateral reflection from the other
      end, the joined radii as a palindrome. */
  lemma {:induction false} SymmetricFrom(t: Trig, alpha: real, k: real, ts: seq<real>, beta: seq<real>, d: real)
    requires |ts| >= 1 && |beta| >= 2 && ts[|ts| - 1] == d
    requires beta[0] == -alpha && beta[|beta| - 1] == HalfPi(t)
    requires Cos(t, alpha) != 0.0 && 0.0 <= k && k * k < 1.0
    requires TanAt(t, alpha) && ParityAt(t, alpha) && PythagoreanAt(t, alpha)
    requires ArcsinAt(t, k) && TanAt(t, Arcsin(t, k)) && SqrtLaw(t) && QuarterTurn(t)
    ensures var a := SkeletonFrom(t, alpha, k, ts, beta, ArcHeight(t, alpha, d), ArcShift(t, alpha, d));
      && (forall i :: 0 <= i < |a.p| ==> a.p[|a.p| - 1 - i] == MirrorLateral(a.p[i]))
      && (forall i :: 0 <= i < |a.r| ==> a.r[|a.r| - 1 - i] == a.r[i])
  {
    var h, rho := ArcHeight(t, alpha, d), ArcShift(t, alpha, d);
    var s := SegmentsFrom(t, alpha, k, ts, beta, h, rho);
    SidesMirroredFrom(t, alpha, k, ts, beta, h, rho);
    JunctionFrom(t, alpha, k, ts, beta, d);
    ApexFrom(t, alpha, k, ts, beta, h, rho);
    MirrorJoin(s.pslR, s.pcR, s.pcL, s.pslL, |ts|, |beta|);
    PalindromeJoin(s.rsl, s.rc, |ts|, |beta|);
  }

  /** Whatever the trigonometric tables hold, every joined sample other than
      the junction pair (indices sv-1 and n-sv) and the apex mirrors its
      partner from the other end: the legs mirror each other and so do the
      two halves of the front. */
  lemma {:induction false} OffJunctionFrom(t: Trig, alpha: real, k: real, ts: seq<real>, beta: seq<real>, h: real, rho: real)
    requires k * k != 1.0 && |ts| >= 1 && |beta| >= 2
    ensures var a, sv, fv := SkeletonFrom(t, alpha, k, ts, beta, h, rho), |ts|, |beta|;
      forall i :: 0 <= i < sv + fv - 2 && i != sv - 1 ==>
        a.p[|a.p| - 1 - i] == MirrorLateral(a.p[i]) && a.r[|a.r| - 1 - i] == a.r[i]
  {
    var s := SegmentsFrom(t, alpha, k, ts, beta, h, rho);
    var sv, fv := |ts|, |beta|;
    SidesMirroredFrom(t, alpha, k, ts, beta, h, rho);
    forall i | 0 <= i < sv + fv - 2 && i != sv - 1
      ensures Join(s.pslR, s.pcR, s.pcL, s.pslL)[2 * sv + 2 * fv - 4 - i] == MirrorLateral(Join(s.pslR, s.pcR, s.pcL, s.pslL)[i])
      ensures Join(s.rsl, s.rc, s.rc, s.rsl)[2 * sv + 2 * fv - 4 - i] == Join(s.rsl, s.rc, s.rc, s.rsl)[i]
    {
      JoinPair(s.pslR, s.pcR, s.pcL, s.pslL, sv, fv, i);
      JoinPair(s.rsl, s.rc, s.rc, s.rsl, sv, fv, i);
    }
  }

  /** The joined angles are reflected about pi/2 end to end. */
  lemma {:induction false} AnglesFrom(t: Trig, alpha: real, k: real, ts: seq<real>, beta: seq<real>, h: real, rho: real)
    requires k * k != 1.0 && |ts| >= 1 && |beta| >= 2
    requires beta[0] == -alpha && beta[|beta| - 1] == HalfPi(t)
    ensures var a := SkeletonFrom(t, alpha, k, ts, beta, h, rho);
      && (forall i :: 0 <= i < |a.ca| ==> a.ca[|a.ca| - 1 - i] == t.pi - a.ca[i])
      && a.ca[|ts| + |beta| - 2] == HalfPi(t)
  {
    FullAt(-alpha, |ts|, |ts| - 1);
    ReflectedJoinMirror(t.pi, Full(-alpha, |ts|), beta, |ts|, |beta|);
  }

  /** The joined positions start and end at the first leg sample of each side,
      which is the origin when the legs start at distance 0. */
  lemma {:induction false} EndsFrom(t: Trig, alpha: real, k: real, ts: seq<real>, beta: seq<real>, h: real, rho: real)
    requires k * k != 1.0 && |ts| >= 2 && |beta| >= 1 && ts[0] == 0.0
    ensures var a := SkeletonFrom(t, alpha, k, ts, beta, h, rho);
      a.p[0] == Origin && a.p[|a.p| - 1] == Origin
  {
    var s := SegmentsFrom(t, alpha, k, ts, beta, h, rho);
    var sv, fv := |ts|, |beta|;
    JoinAt(s.pslR, s.pcR, s.pcL, s.pslL, sv, fv, 0);
    JoinAt(s.pslR, s.pcR, s.pcL, s.pslL, sv, fv, 2 * sv + 2 * fv - 4);
    OuterAt(ts, V3(0.0, Sin(t, alpha), Cos(t, alpha)), 0);
    OuterAt(ts, V3(0.0, -Sin(t, alpha), Cos(t, alpha)), 0);
  }

  /** The middle sample (index sv + fv - 2) under beta = pi/2: its position,
      radius and angle. */
  lemma {:induction false} MiddleFrom(t: Trig, alpha: real, k: real, ts: seq<real>, beta: seq<real>, h: real, rho: real)
    requires k * k != 1.0 && |ts| >= 1 && |beta| >= 2 && beta[|beta| - 1] == HalfPi(t) && QuarterTurn(t)
    ensures var a, m := SkeletonFrom(t, alpha, k, ts, beta, h, rho), |ts| + |beta| - 2;
      var x := FrontOffset(t, k, h, rho, HalfPi(t));
      && a.p[m] == V3(0.0, 0.0, h + x) && a.r[m] == FrontRadius(t, k, h, rho, x) && a.ca[m] == HalfPi(t)
  {
    var s := SegmentsFrom(t, alpha, k, ts, beta, h, rho);
    var sv, fv := |ts|, |beta|;
    ApexFrom(t, alpha, k, ts, beta, h, rho);
    JoinAt(s.pslR, s.pcR, s.pcL, s.pslL, sv, fv, sv + fv - 2);
    JoinAt(s.rsl, s.rc, s.rc, s.rsl, sv, fv, sv + fv - 2);
    JoinAnglesAt(t.pi, s.casl, s.beta, sv, fv, sv + fv - 2);
  }

  // The properties of `skeleton` itself, from the sampled versions above.

  /** Both ends of the skeleton are the origin, because the legs are sampled
      from distance 0. */
  lemma {:induction false} SkeletonEndsAtOrigin(t: Trig, alpha: real, distJunc: real, sv: nat, fv: nat, k: real)
    requires k * k != 1.0 && Cos(t, alpha) != 0.0
    requires sv >= 2 && fv >= 1
    ensures var a := Skeleton(t, alpha, distJunc, sv, fv, k);
      a.p[0] == Origin && a.p[2 * sv + 2 * fv - 4] == Origin
  {
    EndsFrom(t, alpha, k, Linspace(0.0, distJunc, sv), Linspace(-alpha, HalfPi(t), fv),
      ArcHeight(t, alpha, distJunc), ArcShift(t, alpha, distJunc));
  }

  /** Cross-section angles are reflected about pi/2 across the middle of the
      skeleton, and the middle one is pi/2, because beta runs from -alpha to
      pi/2 and the leg angles are all -alpha. */
  lemma {:induction false} CrossSectionAngleMirror(t: Trig, alpha: real, distJunc: real, sv: nat, fv: nat, k: real)
    requires k * k != 1.0 && Cos(t, alpha) != 0.0
    requires sv >= 1 && fv >= 2
    ensures var a := Skeleton(t, alpha, distJunc, sv, fv, k);
      && (forall i :: 0 <= i < |a.ca| ==> a.ca[|a.ca| - 1 - i] == t.pi - a.ca[i])
      && a.ca[sv + fv - 2] == HalfPi(t)
  {
    AnglesFrom(t, alpha, k, Linspace(0.0, distJunc, sv), Linspace(-alpha, HalfPi(t), fv),
      ArcHeight(t, alpha, distJunc), ArcShift(t, alpha, distJunc));
  }

  /** The skeleton is symmetric under lateral reflection read from the other
      end: p[n-1-i] is p[i] with its lateral coordinate negated, and the radii
      are a palindrome. At the junction pair this rests on the leg and the arc
      meeting in position and radius, at the apex on cos(pi/2) = 0. */
  lemma {:induction false} SkeletonSymmetric(t: Trig, alpha: real, distJunc: real, sv: nat, fv: nat, k: real)
    requires sv >= 2 && fv >= 2
    requires Cos(t, alpha) != 0.0 && 0.0 <= k && k * k < 1.0
    requires TanAt(t, alpha) && ParityAt(t, alpha) && PythagoreanAt(t, alpha)
    requires ArcsinAt(t, k) && TanAt(t, Arcsin(t, k)) && SqrtLaw(t) && QuarterTurn(t)
    ensures var a := Skeleton(t, alpha, distJunc, sv, fv, k);
      && (forall i :: 0 <= i < |a.p| ==> a.p[|a.p| - 1 - i] == MirrorLateral(a.p[i]))
      && (forall i :: 0 <= i < |a.r| ==> a.r[|a.r| - 1 - i] == a.r[i])
  {
    SymmetricFrom(t, alpha, k, Linspace(0.0, distJunc, sv), Linspace(-alpha, HalfPi(t), fv), distJunc);
  }

  /** The lateral mirror symmetry that holds without any trigonometric fact:
      every sample strictly before the apex except the leg end sv-1 is the
      lateral reflection of its partner from the other end, with the same
      radius. (The junction pair needs the identities SkeletonSymmetric
      assumes.) */
  lemma {:induction false} SkeletonMirrorOffJunction(t: Trig, alpha: real, distJunc: real, sv: nat, fv: nat, k: real)
    requires k * k != 1.0 && Cos(t, alpha) != 0.0 && sv >= 1 && fv >= 2
    ensures var a := Skeleton(t, alpha, distJunc, sv, fv, k);
      forall i :: 0 <= i < sv + fv - 2 && i != sv - 1 ==>
        a.p[|a.p| - 1 - i] == MirrorLateral(a.p[i]) && a.r[|a.r| - 1 - i] == a.r[i]
  {
    OffJunctionFrom(t, alpha, k, Linspace(0.0, distJunc, sv), Linspace(-alpha, HalfPi(t), fv),
      ArcHeight(t, alpha, distJunc), ArcShift(t, alpha, distJunc));
  }

  /** The middle of the skeleton is the apex of the front arc: on the height
      axis at h + X0(pi/2), with radius rc(X0(pi/2)) and angle pi/2. */
  lemma {:induction false} SkeletonApex(t: Trig, alpha: real, distJunc: real, sv: nat, fv: nat, k: real)
    requires k * k != 1.0 && Cos(t, alpha) != 0.0
    requires sv >= 1 && fv >= 2 && QuarterTurn(t)
    ensures var a, m := Skeleton(t, alpha, distJunc, sv, fv, k), sv + fv - 2;
      var h, rho := ArcHeight(t, alpha, distJunc), ArcShift(t, alpha, distJunc);
      var x := FrontOffset(t, k, h, rho, HalfPi(t));
      && a.p[m] == V3(0.0, 0.0, h + x) && a.r[m] == FrontRadius(t, k, h, rho, x)
  {
    MiddleFrom(t, alpha, k, Linspace(0.0, distJunc, sv), Linspace(-alpha, HalfPi(t), fv),
      ArcHeight(t, alpha, distJunc), ArcShift(t, alpha, distJunc));
  }
}
