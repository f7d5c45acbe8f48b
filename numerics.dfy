/** Real-number stand-ins for the numpy primitives the GCS geometry is built
    from: the elementary functions, 3-vectors, `linspace`, `flipud`, slicing
    from the second element, and row-major flattening. */
module Numerics {

  /** The elementary functions numpy supplies, kept uninterpreted. A lemma that
      needs a fact about them (a special value, an identity) states that fact
      among its preconditions. */
  datatype Trig = Trig(
    pi: real,
    sin: imap<real, real>,
    cos: imap<real, real>,
    tan: imap<real, real>,
    arcsin: imap<real, real>,
    sqrt: imap<real, real>)

  /** Looks x up in a table of values; a point the table leaves out reads as 0. */
  function At(f: imap<real, real>, x: real): real {
    if x in f then f[x] else 0.0
  }

  // Each elementary function applied to one argument.
  function Sin(t: Trig, x: real): real { At(t.sin, x) }
  function Cos(t: Trig, x: real): real { At(t.cos, x) }
  function Tan(t: Trig, x: real): real { At(t.tan, x) }
  function Arcsin(t: Trig, x: real): real { At(t.arcsin, x) }
  function Sqrt(t: Trig, x: real): real { At(t.sqrt, x) }

  /** sin^2 x + cos^2 x = 1 at one point. */
  ghost predicate PythagoreanAt(t: Trig, x: real) {
    Sin(t, x) * Sin(t, x) + Cos(t, x) * Cos(t, x) == 1.0
  }

  /** sin^2 x + cos^2 x = 1 everywhere. */
  ghost predicate Pythagorean(t: Trig) {
    forall x :: PythagoreanAt(t, x)
  }

  /** tan x = sin x / cos x wherever cos x is not zero. */
  ghost predicate TanAt(t: Trig, x: real) {
    Cos(t, x) != 0.0 ==> Tan(t, x) == Sin(t, x) / Cos(t, x)
  }

  /** The square root of a non-negative number is its non-negative square root. */
  ghost predicate SqrtLaw(t: Trig) {
    forall y :: 0.0 <= y ==> 0.0 <= Sqrt(t, y) && Sqrt(t, y) * Sqrt(t, y) == y
  }

  /** sin(pi/2) = 1 and cos(pi/2) = 0. */
  ghost predicate QuarterTurn(t: Trig) {
    Sin(t, HalfPi(t)) == 1.0 && Cos(t, HalfPi(t)) == 0.0
  }

  /** sin and cos take the same values at 0 and at 2*pi. */
  ghost predicate FullTurn(t: Trig) {
    Sin(t, TwoPi(t)) == Sin(t, 0.0) && Cos(t, TwoPi(t)) == Cos(t, 0.0)
  }

  /** sin is odd and cos is even at x. */
  ghost predicate ParityAt(t: Trig, x: real) {
    Sin(t, -x) == -Sin(t, x) && Cos(t, -x) == Cos(t, x)
  }

  /** arcsin inverts sin at k, and lands where cos is the non-negative root. */
  ghost predicate ArcsinAt(t: Trig, k: real) {
    Sin(t, Arcsin(t, k)) == k && Cos(t, Arcsin(t, k)) == Sqrt(t, 1.0 - k * k)
  }

  /** Division undoes multiplication. */
  lemma {:induction false} DivExact(x: real, y: real, z: real)
    requires y != 0.0 && x == z * y
    ensures x / y == z
  {
  }

  /** The unique non-negative square root. */
  lemma {:induction false} SqrtUnique(t: Trig, x: real, y: real)
    requires SqrtLaw(t)
    requires 0.0 <= x && x * x == y
    ensures Sqrt(t, y) == x
  {
    var s := Sqrt(t, y);
    assert 0.0 <= s && s * s == x * x;
    assert (s - x) * (s + x) == s * s - x * x;
    if s + x != 0.0 {
      DivExact(0.0, s + x, s - x);
    }
  }

  /** 2*pi, the end of a full turn. */
  function TwoPi(t: Trig): real { 2.0 * t.pi }

  /** pi/2, the angle at which the front of the skeleton reaches the apex. */
  function HalfPi(t: Trig): real { t.pi / 2.0 }

  datatype V3 = V3(x: real, y: real, z: real)

  function Add(a: V3, b: V3): V3 {
    V3(a.x + b.x, a.y + b.y, a.z + b.z)
  }

  function Scale(s: real, a: V3): V3 {
    V3(s * a.x, s * a.y, s * a.z)
  }

  /** Reflection across the lateral axis (axis 1). */
  function MirrorLateral(a: V3): V3 {
    V3(a.x, -a.y, a.z)
  }

  /** Squared Euclidean distance. */
  function Dist2(a: V3, b: V3): real {
    (a.x - b.x) * (a.x - b.x) + (a.y - b.y) * (a.y - b.y) + (a.z - b.z) * (a.z - b.z)
  }

  const Origin := V3(0.0, 0.0, 0.0)

  function Sq(x: real): real { x * x }

  /** n samples a, a + step, a + 2*step, ..., built by repeated addition. */
  function Ramp(a: real, step: real, n: nat): (s: seq<real>)
    ensures |s| == n
    decreases n
  {
    if n == 0 then [] else [a] + Ramp(a + step, step, n - 1)
  }

  /** Sample i of a ramp is a + i*step. */
  lemma {:induction false} RampAt(a: real, step: real, n: nat, i: nat)
    requires i < n
    ensures Ramp(a, step, n)[i] == a + (i as real) * step
    decreases n
  {
    if i > 0 {
      RampAt(a + step, step, n - 1, i - 1);
      assert ((i - 1) as real) * step + step == (i as real) * step;
    }
  }

  /** numpy's linspace(a, b, n): n samples a + i*step with step = (b-a)/(n-1),
      so both end points are included; a single sample is the start. */
  function Linspace(a: real, b: real, n: nat): (s: seq<real>)
    ensures |s| == n
    ensures n >= 1 ==> s[0] == a
    ensures n >= 2 ==> s[n - 1] == b
  {
    if n == 0 then []
    else if n == 1 then [a]
    else
      var s := Ramp(a, Step(a, b, n), n);
      LinspaceLast(a, b, n);
      s
  }

  /** The spacing of linspace(a, b, n). */
  function Step(a: real, b: real, n: nat): real
    requires n >= 2
  {
    (b - a) / ((n - 1) as real)
  }

  lemma {:induction false} LinspaceLast(a: real, b: real, n: nat)
    requires n >= 2
    ensures Ramp(a, Step(a, b, n), n)[n - 1] == b
  {
    var d := (n - 1) as real;
    var step := Step(a, b, n);
    RampAt(a, step, n, n - 1);
    assert d * step == b - a;
  }

  /** numpy's flipud on a one-dimensional sequence or on a sequence of rows. */
  function Flip<T>(s: seq<T>): (f: seq<T>)
    ensures |f| == |s|
    decreases |s|
  {
    if |s| == 0 then [] else [s[|s| - 1]] + Flip(s[..|s| - 1])
  }

  /** flipud reverses: element i of the result is element |s|-1-i of s. */
  lemma {:induction false} FlipAt<T>(s: seq<T>, i: nat)
    requires i < |s|
    ensures Flip(s)[i] == s[|s| - 1 - i]
    decreases |s|
  {
    if i > 0 {
      FlipAt(s[..|s| - 1], i - 1);
    }
  }

  /** Python's slice s[1:], which is empty on an empty sequence. */
  function Rest<T>(s: seq<T>): (r: seq<T>)
    ensures |r| == if |s| == 0 then 0 else |s| - 1
    decreases |s|
  {
    if |s| <= 1 then [] else Rest(s[..|s| - 1]) + [s[|s| - 1]]
  }

  /** Element i of s[1:] is element i + 1 of s. */
  lemma {:induction false} RestAt<T>(s: seq<T>, i: nat)
    requires i + 1 < |s|
    ensures Rest(s)[i] == s[i + 1]
    decreases |s|
  {
    if i + 2 < |s| {
      RestAt(s[..|s| - 1], i);
    }
  }

  /** c - s[i] for every element: the `pi - array` expressions of the source. */
  function Reflect(c: real, s: seq<real>): (r: seq<real>)
    ensures |r| == |s|
    decreases |s|
  {
    if |s| == 0 then [] else Reflect(c, s[..|s| - 1]) + [c - s[|s| - 1]]
  }

  lemma {:induction false} ReflectAt(c: real, s: seq<real>, i: nat)
    requires i < |s|
    ensures Reflect(c, s)[i] == c - s[i]
    decreases |s|
  {
    if i < |s| - 1 {
      ReflectAt(c, s[..|s| - 1], i);
    }
  }

  /** numpy's full(n, x): n copies of x (also n copies of one row). */
  function Full<T>(x: T, n: nat): (r: seq<T>)
    ensures |r| == n
    decreases n
  {
    if n == 0 then [] else [x] + Full(x, n - 1)
  }

  lemma {:induction false} FullAt<T>(x: T, n: nat, i: nat)
    requires i < n
    ensures Full(x, n)[i] == x
    decreases n
  {
    if i > 0 {
      FullAt(x, n - 1, i - 1);
    }
  }

  /** numpy's flatten: the rows of a two-dimensional array, one after another. */
  function Flatten<T>(rows: seq<seq<T>>): seq<T>
    decreases |rows|
  {
    if |rows| == 0 then [] else Flatten(rows[..|rows| - 1]) + rows[|rows| - 1]
  }

  ghost predicate Rectangular<T>(rows: seq<seq<T>>, w: nat) {
    forall a :: 0 <= a < |rows| ==> |rows[a]| == w
  }

  lemma {:induction false} FlattenLength<T>(rows: seq<seq<T>>, w: nat)
    requires Rectangular(rows, w)
    ensures |Flatten(rows)| == |rows| * w
    decreases |rows|
  {
    if |rows| > 0 {
      FlattenLength(rows[..|rows| - 1], w);
    }
  }

  /** Row-major order: element j of row i sits at flat index i*w + j. */
  lemma {:induction false} FlattenAt<T>(rows: seq<seq<T>>, w: nat, i: nat, j: nat)
    requires Rectangular(rows, w)
    requires i < |rows| && j < w
    ensures |Flatten(rows)| == |rows| * w
    ensures i * w + j < |Flatten(rows)|
    ensures Flatten(rows)[i * w + j] == rows[i][j]
    decreases |rows|
  {
    var n := |rows|;
    var init := rows[..n - 1];
    FlattenLength(rows, w);
    FlattenLength(init, w);
    assert (n - 1) * w == n * w - w;
    if i < n - 1 {
      FlattenAt(init, w, i, j);
    } else {
      assert i * w + j == |Flatten(init)| + j;
    }
  }
}
