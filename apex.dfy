/** gcs.py `apex_radius`: the cross-section radius of the flux rope at its
    apex, in closed form, and how it agrees with the skeleton `gcs_mesh`
    builds for the same parameters. */
module Apex {
  import opened Numerics
  import opened Skeletons
  import opened Meshes

  /** gcs.py `apex_radius`: with h the junction distance for `height`,
      b = h / cos(alpha) and rho = h * tan(alpha), the radius
      k (b + rho) / (1 - k^2). */
  function ApexRadius(t: Trig, alpha: real, height: real, k: real): real
    requires Sin(t, alpha) != -1.0 && Cos(t, alpha) != 0.0 && k * k != 1.0
  {
    var h := JunctionDistance(t, alpha, height, k);
    ApexValue(k, ArcHeight(t, alpha, h), ArcShift(t, alpha, h))
  }

  /** The centre offset X0 of the front arc at beta = pi/2, where sin beta = 1. */
  function ApexOffset(k: real, h: real, rho: real): real
    requires k * k != 1.0
  {
    (rho + h * (k * k)) / (1.0 - k * k)
  }

  /** gcs.py line 193: k (b + rho) / (1 - k^2). */
  function ApexValue(k: real, h: real, rho: real): real
    requires k * k != 1.0
  {
    k * (h + rho) / (1.0 - k * k)
  }

  /** The skeleton's centre offset at pi/2 is ApexOffset. */
  lemma {:induction false} FrontOffsetAtApex(t: Trig, k: real, h: real, rho: real)
    requires k * k != 1.0 && QuarterTurn(t)
    ensures FrontOffset(t, k, h, rho, HalfPi(t)) == ApexOffset(k, h, rho)
  {
    var x := FrontOffset(t, k, h, rho, HalfPi(t));
    assert h * (k * k) * Sin(t, HalfPi(t)) == h * (k * k);
    assert x * (1.0 - k * k) == rho + h * (k * k);
    DivExact(rho + h * (k * k), 1.0 - k * k, x);
  }

  /** (h^2 k^2 - rho^2)(1 - k^2) + (rho + h k^2)^2 = (k (h + rho))^2. */
  lemma {:induction false} ApexPolynomial(k: real, h: real, rho: real)
    ensures (h * h * (k * k) - rho * rho) * (1.0 - k * k) + (rho + h * (k * k)) * (rho + h * (k * k))
         == (k * (h + rho)) * (k * (h + rho))
  {
    var k2 := k * k;
    assert (h * h * k2 - rho * rho) * (1.0 - k2) == h * h * k2 - h * h * k2 * k2 - rho * rho + rho * rho * k2;
    assert (rho + h * k2) * (rho + h * k2) == rho * rho + 2.0 * rho * h * k2 + h * h * k2 * k2;
    assert (k * (h + rho)) * (k * (h + rho)) == k2 * (h * h + 2.0 * rho * h + rho * rho);
  }

  /** Multiplying by d^2 != 0 can be undone. */
  lemma {:induction false} CancelSquare(y: real, a: real, d: real)
    requires d != 0.0 && y * (d * d) == (a * d) * (a * d)
    ensures y == a * a
  {
    assert (y * d) * d == ((a * a) * d) * d;
    CancelFactor(y * d, (a * a) * d, d);
    CancelFactor(y, a * a, d);
  }

  /** Multiplying by d != 0 can be undone. */
  lemma {:induction false} CancelFactor(u: real, v: real, d: real)
    requires d != 0.0 && u * d == v * d
    ensures u == v
  {
    assert (u - v) * d == 0.0;
    DivExact((u - v) * d, d, u - v);
  }

  /** The front radius at beta = pi/2 is k (h + rho) / (1 - k^2) whenever
      h + rho = height (1 - k), 0 <= k < 1 and height >= 0. */
  lemma {:induction false} ApexRadiusFrom(t: Trig, k: real, h: real, rho: real, height: real)
    requires 0.0 <= k && k * k < 1.0 && 0.0 <= height && h + rho == height * (1.0 - k)
    requires QuarterTurn(t) && SqrtLaw(t)
    ensures FrontRadius(t, k, h, rho, FrontOffset(t, k, h, rho, HalfPi(t))) == ApexValue(k, h, rho)
  {
    FrontOffsetAtApex(t, k, h, rho);
    ApexArgument(k, h, rho);
    NonNegativeApex(k, h, rho, height);
    SqrtUnique(t, ApexValue(k, h, rho), Sq(ApexValue(k, h, rho)));
  }

  /** A real identity: the squared front radius at the apex is the square of
      k (h + rho) / (1 - k^2), whatever h and rho are. */
  lemma {:induction false} ApexArgument(k: real, h: real, rho: real)
    requires k * k != 1.0
    ensures RadiusArgument(k, h, rho, ApexOffset(k, h, rho)) == Sq(ApexValue(k, h, rho))
  {
    var d := 1.0 - k * k;
    var x, a := ApexOffset(k, h, rho), ApexValue(k, h, rho);
    var p := h * h * (k * k) - rho * rho;
    var y := RadiusArgument(k, h, rho, x);
    assert x * d == rho + h * (k * k);
    assert a * d == k * (h + rho);
    assert y == p / d + x * x;
    assert (p / d) * d == p;
    assert y * (d * d) == p * d + (x * d) * (x * d);
    ApexPolynomial(k, h, rho);
    CancelSquare(y, a, d);
  }

  /** A real identity: h + X0 + k (h + rho) / (1 - k^2) = (h + rho) / (1 - k). */
  lemma {:induction false} LeadingEdgeAlgebra(k: real, h: real, rho: real, height: real)
    requires k * k != 1.0 && h + rho == height * (1.0 - k)
    ensures h + ApexOffset(k, h, rho) + ApexValue(k, h, rho) == height
  {
    var d := 1.0 - k * k;
    var x, a := ApexOffset(k, h, rho), ApexValue(k, h, rho);
    assert x * d == rho + h * (k * k);
    assert a * d == k * (h + rho);
    assert (h + x + a) * d == (h + rho) * (1.0 + k);
    assert (h + rho) * (1.0 + k) == height * d;
    DivExact(height * d, d, h + x + a);
  }

  /** `apex_radius` returns the radius of the middle skeleton sample that
      `gcs_mesh` sweeps (the front arc at beta = pi/2), for 0 <= k < 1 and a
      non-negative height. */
  lemma {:induction false} ApexRadiusIsMiddleRadius(t: Trig, alpha: real, height: real, sv: nat, fv: nat, k: real)
    requires Sin(t, alpha) != -1.0 && Cos(t, alpha) != 0.0 && 0.0 <= k && k * k < 1.0 && 0.0 <= height
    requires sv >= 1 && fv >= 2
    requires TanAt(t, alpha) && QuarterTurn(t) && SqrtLaw(t)
    ensures var a := Skeleton(t, alpha, JunctionDistance(t, alpha, height, k), sv, fv, k);
      sv + fv - 2 < |a.r| && a.r[sv + fv - 2] == ApexRadius(t, alpha, height, k)
  {
    var d := JunctionDistance(t, alpha, height, k);
    var h, rho := ArcHeight(t, alpha, d), ArcShift(t, alpha, d);
    SkeletonApex(t, alpha, d, sv, fv, k);
    ApexRadiusFrom(t, k, h, rho, height);
  }

  /** For 0 <= k < 1 and a non-negative height the apex radius is not
      negative, so it is the root sqrt picks. */
  lemma {:induction false} NonNegativeApex(k: real, h: real, rho: real, height: real)
    requires 0.0 <= k && k * k < 1.0 && 0.0 <= height && h + rho == height * (1.0 - k)
    ensures 0.0 <= ApexValue(k, h, rho)
  {
    assert (1.0 - k) * (1.0 + k) == 1.0 - k * k;
    PositiveFactor(1.0 - k, 1.0 + k);
    NonNegativeProduct(height, 1.0 - k);
    NonNegativeProduct(k, h + rho);
    NonNegativeQuotient(k * (h + rho), 1.0 - k * k);
  }

  lemma {:induction false} PositiveFactor(a: real, b: real)
    requires 0.0 < b && 0.0 < a * b
    ensures 0.0 < a
  {
  }

  lemma {:induction false} NonNegativeProduct(a: real, b: real)
    requires 0.0 <= a && 0.0 <= b
    ensures 0.0 <= a * b
  {
  }

  lemma {:induction false} NonNegativeQuotient(a: real, b: real)
    requires 0.0 <= a && 0.0 < b
    ensures 0.0 <= a / b
  {
  }

  /** The leading edge lands where the caller asked: the apex's height
      coordinate h + X0 plus the apex radius is `height`. */
  lemma {:induction false} LeadingEdgeAtHeight(t: Trig, alpha: real, height: real, sv: nat, fv: nat, k: real)
    requires Sin(t, alpha) != -1.0 && Cos(t, alpha) != 0.0 && k * k != 1.0
    requires sv >= 1 && fv >= 2
    requires TanAt(t, alpha) && QuarterTurn(t)
    ensures var a := Skeleton(t, alpha, JunctionDistance(t, alpha, height, k), sv, fv, k);
      && sv + fv - 2 < |a.p| && a.p[sv + fv - 2].x == 0.0 && a.p[sv + fv - 2].y == 0.0
      && a.p[sv + fv - 2].z + ApexRadius(t, alpha, height, k) == height
  {
    var d := JunctionDistance(t, alpha, height, k);
    var h, rho := ArcHeight(t, alpha, d), ArcShift(t, alpha, d);
    SkeletonApex(t, alpha, d, sv, fv, k);
    FrontOffsetAtApex(t, k, h, rho);
    LeadingEdgeAlgebra(k, h, rho, height);
  }
}
