/** The computational parts of gcs/gui.py: which observatory, instrument and
    detector `load_image` asks the image archive for, the errors it raises
    before asking, the running difference of two frames, the detector
    `make_plot` picks per spacecraft, and the column-major re-ordering of the
    SunPy mesh that `plot_mesh` draws in grid mode. */
module Gui {
  import opened Numerics
  import opened Meshes
  import opened Orientation

  // ---- Selecting a data source ------------------------------------------------

  /** What `download_helioviewer` is asked for: observatory, instrument, detector. */
  datatype Source = Source(observatory: string, instrument: string, detector: string)

  /** The `ValueError`s `load_image` raises, and a shape clash in the
      running difference. */
  datatype Error =
    | UnknownDetector(detector: string, spacecraft: string)
    | UnknownSpacecraft(spacecraft: string)
    | ShapeMismatch

  datatype Outcome<T> = Success(value: T) | Failure(error: Error)

  /** The `ValueError` text. */
  function Message(e: Error): string {
    match e
    case UnknownDetector(d, s) => "unknown detector " + d + " for spacecraft " + s + "."
    case UnknownSpacecraft(s) => "unknown spacecraft: " + s
    case ShapeMismatch => "the two frames differ in size"
  }

  /** gui.py `load_image`, lines 44-60: the if/elif chain on the spacecraft
      name, then the membership test on the detector. */
  function SelectSource(spacecraft: string, detector: string): Outcome<Source> {
    if spacecraft == "STA" then
      if detector !in ["COR1", "COR2"] then Failure(UnknownDetector(detector, spacecraft))
      else Success(Source("STEREO_A", "SECCHI", detector))
    else if spacecraft == "STB" then
      if detector !in ["COR1", "COR2"] then Failure(UnknownDetector(detector, spacecraft))
      else Success(Source("STEREO_B", "SECCHI", detector))
    else if spacecraft == "SOHO" then
      if detector !in ["C2", "C3"] then Failure(UnknownDetector(detector, spacecraft))
      else Success(Source("SOHO", "LASCO", detector))
    else
      Failure(UnknownSpacecraft(spacecraft))
  }

  /** One spacecraft's entry in a table of what it carries. */
  datatype Instrument = Instrument(observatory: string, instrument: string, detectors: set<string>)

  /** The spacecraft `load_image` knows, as a table. */
  const Catalogue: map<string, Instrument> := map[
    "STA" := Instrument("STEREO_A", "SECCHI", {"COR1", "COR2"}),
    "STB" := Instrument("STEREO_B", "SECCHI", {"COR1", "COR2"}),
    "SOHO" := Instrument("SOHO", "LASCO", {"C2", "C3"})]

  /** The if/elif chain agrees with the table: it succeeds exactly for a
      known spacecraft and one of its detectors, keeps the detector, and
      otherwise names the unknown spacecraft or, for a known one, the
      detector it does not have. */
  lemma {:induction false} SelectSourceMatchesCatalogue(spacecraft: string, detector: string)
    ensures var r := SelectSource(spacecraft, detector);
      && (r.Success? <==> spacecraft in Catalogue && detector in Catalogue[spacecraft].detectors)
      && (r.Success? ==> r.value == Source(Catalogue[spacecraft].observatory,
                                           Catalogue[spacecraft].instrument, detector))
      && (r.Failure? && spacecraft !in Catalogue ==> r.error == UnknownSpacecraft(spacecraft))
      && (r.Failure? && spacecraft in Catalogue ==> r.error == UnknownDetector(detector, spacecraft))
  {
    if spacecraft == "STA" {
      assert spacecraft in Catalogue && Catalogue[spacecraft] == Instrument("STEREO_A", "SECCHI", {"COR1", "COR2"});
    } else if spacecraft == "STB" {
      assert spacecraft in Catalogue && Catalogue[spacecraft] == Instrument("STEREO_B", "SECCHI", {"COR1", "COR2"});
    } else if spacecraft == "SOHO" {
      assert spacecraft in Catalogue && Catalogue[spacecraft] == Instrument("SOHO", "LASCO", {"C2", "C3"});
    } else {
      assert spacecraft !in Catalogue;
    }
  }

  // ---- Frames and the running difference ----------------------------------------

  /** An image: its pixel values, flattened, and its header. */
  datatype Frame = Frame(data: seq<real>, meta: map<string, string>)

  /** Element-wise x - y. */
  function Subtract(x: seq<real>, y: seq<real>): (d: seq<real>)
    requires |x| == |y|
    ensures |d| == |x|
    decreases |x|
  {
    if |x| == 0 then [] else Subtract(x[..|x| - 1], y[..|y| - 1]) + [x[|x| - 1] - y[|y| - 1]]
  }

  /** Element-wise x + y. */
  function Plus(x: seq<real>, y: seq<real>): (s: seq<real>)
    requires |x| == |y|
    ensures |s| == |x|
    decreases |x|
  {
    if |x| == 0 then [] else Plus(x[..|x| - 1], y[..|y| - 1]) + [x[|x| - 1] + y[|y| - 1]]
  }

  lemma {:induction false} SubtractAt(x: seq<real>, y: seq<real>, i: nat)
    requires |x| == |y| && i < |x|
    ensures Subtract(x, y)[i] == x[i] - y[i]
    decreases |x|
  {
    if i < |x| - 1 {
      SubtractAt(x[..|x| - 1], y[..|y| - 1], i);
    }
  }

  lemma {:induction false} PlusAt(x: seq<real>, y: seq<real>, i: nat)
    requires |x| == |y| && i < |x|
    ensures Plus(x, y)[i] == x[i] + y[i]
    decreases |x|
  {
    if i < |x| - 1 {
      PlusAt(x[..|x| - 1], y[..|y| - 1], i);
    }
  }

  /** gui.py `running_difference(a, b)`: b's data minus a's, with b's header. */
  function RunningDifference(a: Frame, b: Frame): Outcome<Frame> {
    if |a.data| != |b.data| then Failure(ShapeMismatch)
    else Success(Frame(Subtract(b.data, a.data), b.meta))
  }

  /** The running difference fails only on a shape clash; otherwise it keeps
      the later frame's header, and adding the earlier frame back gives the
      later frame's data. */
  lemma {:induction false} RunningDifferenceUndone(a: Frame, b: Frame)
    ensures var r := RunningDifference(a, b);
      && (r.Failure? <==> |a.data| != |b.data|)
      && (r.Failure? ==> r.error == ShapeMismatch)
      && (r.Success? ==> r.value.meta == b.meta && |r.value.data| == |a.data|
                         && Plus(a.data, r.value.data) == b.data)
  {
    if |a.data| == |b.data| {
      var d := Subtract(b.data, a.data);
      var s := Plus(a.data, d);
      forall i | 0 <= i < |s|
        ensures s[i] == b.data[i]
      {
        PlusAt(a.data, d, i);
        SubtractAt(b.data, a.data, i);
      }
    }
  }

  /** Pixel i of the running difference is pixel i of the later frame minus
      pixel i of the earlier one. */
  lemma {:induction false} RunningDifferenceAt(a: Frame, b: Frame, i: nat)
    requires |a.data| == |b.data| && i < |b.data|
    ensures var r := RunningDifference(a, b);
      r.Success? && |r.value.data| == |b.data| && r.value.data[i] == b.data[i] - a.data[i]
  {
    SubtractAt(b.data, a.data, i);
  }

  // ---- load_image -----------------------------------------------------------------

  /** One call to `download_helioviewer`: a time in seconds and a source. */
  datatype Request = Request(date: int, source: Source)

  /** `dt.timedelta(hours=1)`, in seconds. */
  const OneHour: int := 3600

  /** The result of `load_image` together with the archive requests it made,
      in order. */
  datatype Loaded = Loaded(result: Outcome<Frame>, issued: seq<Request>)

  /** gui.py `load_image`: validate, fetch the frame at `date`, and with
      `runndiff` also the frame an hour earlier and return their running
      difference. `archive` stands for `download_helioviewer`. */
  function LoadImage(spacecraft: string, detector: string, date: int, runndiff: bool,
                     archive: Request -> Frame): Loaded
  {
    match SelectSource(spacecraft, detector)
    case Failure(e) => Loaded(Failure(e), [])
    case Success(src) =>
      var now := Request(date, src);
      var f := archive(now);
      if runndiff then
        var before := Request(date - OneHour, src);
        Loaded(RunningDifference(archive(before), f), [now, before])
      else
        Loaded(Success(f), [now])
  }

  /** Every `ValueError` is raised before anything is downloaded: an invalid
      spacecraft or detector yields that error and no request. */
  lemma {:induction false} LoadImageFailsBeforeDownload(spacecraft: string, detector: string, date: int, runndiff: bool,
                                                        archive: Request -> Frame)
    requires SelectSource(spacecraft, detector).Failure?
    ensures var l := LoadImage(spacecraft, detector, date, runndiff, archive);
      && l.issued == [] && l.result == Failure(SelectSource(spacecraft, detector).error)
      && Message(l.result.error) ==
           if spacecraft in Catalogue then "unknown detector " + detector + " for spacecraft " + spacecraft + "."
           else "unknown spacecraft: " + spacecraft
  {
    SelectSourceMatchesCatalogue(spacecraft, detector);
  }

  /** A valid pair yields exactly one request at `date`, plus one an hour
      earlier with `runndiff`, all for the selected source; without
      `runndiff` the frame is returned as downloaded, with it the result is
      the later frame minus the earlier one under the later frame's header. */
  lemma {:induction false} LoadImageRequests(spacecraft: string, detector: string, date: int, runndiff: bool,
                                             archive: Request -> Frame)
    requires SelectSource(spacecraft, detector).Success?
    ensures var src := SelectSource(spacecraft, detector).value;
      var l := LoadImage(spacecraft, detector, date, runndiff, archive);
      var now := archive(Request(date, src));
      && |l.issued| == (if runndiff then 2 else 1)
      && l.issued[0] == Request(date, src)
      && (runndiff ==> l.issued[1] == Request(date - 3600, src)
                       && l.result == RunningDifference(archive(l.issued[1]), now))
      && (!runndiff ==> l.result == Success(now))
  {
  }

  /** With `runndiff` and frames of one shape, each pixel is the current value
      minus the value an hour earlier, and the header is the current one. */
  lemma {:induction false} LoadImageDifferenceAt(spacecraft: string, detector: string, date: int,
                                                 archive: Request -> Frame, i: nat)
    requires SelectSource(spacecraft, detector).Success?
    requires var src := SelectSource(spacecraft, detector).value;
      |archive(Request(date, src)).data| == |archive(Request(date - 3600, src)).data|
      && i < |archive(Request(date, src)).data|
    ensures var src := SelectSource(spacecraft, detector).value;
      var now, before := archive(Request(date, src)), archive(Request(date - 3600, src));
      var l := LoadImage(spacecraft, detector, date, true, archive);
      && l.result.Success? && l.result.value.meta == now.meta
      && |l.result.value.data| == |now.data|
      && l.result.value.data[i] == now.data[i] - before.data[i]
  {
    var src := SelectSource(spacecraft, detector).value;
    RunningDifferenceAt(archive(Request(date - 3600, src)), archive(Request(date, src)), i);
  }

  // ---- make_plot: the detector per spacecraft ----------------------------------------

  /** gui.py line 179: the STEREO detector for STA and STB, the SOHO detector
      for every other name. */
  function DetectorFor(spacecraft: string, detectorStereo: string, detectorSoho: string): string {
    if spacecraft in ["STA", "STB"] then detectorStereo else detectorSoho
  }

  /** With a valid STEREO detector (COR1 or COR2) and a valid SOHO detector
      (C2 or C3), each of STA, STB and SOHO loads, and any other spacecraft
      is rejected as unknown; in particular the defaults COR2 and C2 load. */
  lemma {:induction false} MakePlotDetectorsLoad(spacecraft: string, detectorStereo: string, detectorSoho: string)
    requires detectorStereo in ["COR1", "COR2"] && detectorSoho in ["C2", "C3"]
    ensures var r := SelectSource(spacecraft, DetectorFor(spacecraft, detectorStereo, detectorSoho));
      && (r.Success? <==> spacecraft in Catalogue)
      && (r.Failure? ==> r.error == UnknownSpacecraft(spacecraft))
  {
    SelectSourceMatchesCatalogue(spacecraft, DetectorFor(spacecraft, detectorStereo, detectorSoho));
  }

  // ---- plot_mesh: grid order ------------------------------------------------------------

  /** The first c entries of row v of s read as rows of width w. */
  function Row<T>(s: seq<T>, w: nat, v: nat, c: nat): (r: seq<T>)
    requires v * w + c <= |s|
    ensures |r| == c
    decreases c
  {
    if c == 0 then [] else Row(s, w, v, c - 1) + [s[v * w + c - 1]]
  }

  lemma {:induction false} RowAt<T>(s: seq<T>, w: nat, v: nat, c: nat, j: nat, q: nat)
    requires v * w + c <= |s| && j < c && q == v * w + j
    ensures Row(s, w, v, c)[j] == s[q]
    decreases c
  {
    if j < c - 1 {
      RowAt(s, w, v, c - 1, j, q);
    }
  }

  lemma {:induction false} RowFits(v: nat, n: nat, w: nat)
    requires v < n
    ensures v * w + w <= n * w
  {
    var d: nat := n - v - 1;
    assert n * w == (v + 1) * w + d * w;
    NatProduct(d, w);
  }

  lemma {:induction false} NatProduct(a: nat, b: nat)
    ensures 0 <= a * b
  {
  }

  /** numpy's reshape(n, w) of a flat sequence of at least n*w entries: n
      rows of width w in row-major order. */
  function Reshape<T>(s: seq<T>, n: nat, w: nat): (rows: seq<seq<T>>)
    requires n * w <= |s|
    ensures |rows| == n
    decreases n
  {
    if n == 0 then []
    else
      RowFits(n - 1, n, w);
      Reshape(s, n - 1, w) + [Row(s, w, n - 1, w)]
  }

  lemma {:induction false} ReshapeAt<T>(s: seq<T>, n: nat, w: nat, v: nat)
    requires n * w <= |s| && v < n
    ensures v * w + w <= |s| && Reshape(s, n, w)[v] == Row(s, w, v, w)
    decreases n
  {
    RowFits(v, n, w);
    if v < n - 1 {
      RowFits(n - 1, n, w);
      ReshapeAt(s, n - 1, w, v);
    }
  }

  lemma {:induction false} ReshapeRectangular<T>(s: seq<T>, n: nat, w: nat)
    requires n * w <= |s|
    ensures Rectangular(Reshape(s, n, w), w)
  {
    forall v | 0 <= v < n
      ensures |Reshape(s, n, w)[v]| == w
    {
      ReshapeAt(s, n, w, v);
    }
  }

  /** Column j of the first v rows. */
  function Column<T>(rows: seq<seq<T>>, w: nat, j: nat, v: nat): (col: seq<T>)
    requires Rectangular(rows, w) && j < w && v <= |rows|
    ensures |col| == v
    decreases v
  {
    if v == 0 then [] else Column(rows, w, j, v - 1) + [rows[v - 1][j]]
  }

  lemma {:induction false} ColumnAt<T>(rows: seq<seq<T>>, w: nat, j: nat, v: nat, i: nat)
    requires Rectangular(rows, w) && j < w && v <= |rows| && i < v
    ensures Column(rows, w, j, v)[i] == rows[i][j]
    decreases v
  {
    if i < v - 1 {
      ColumnAt(rows, w, j, v - 1, i);
    }
  }

  /** `.T` of rows of width w, the first c columns. */
  function Transpose<T>(rows: seq<seq<T>>, w: nat, c: nat): (cols: seq<seq<T>>)
    requires Rectangular(rows, w) && c <= w
    ensures |cols| == c
    decreases c
  {
    if c == 0 then [] else Transpose(rows, w, c - 1) + [Column(rows, w, c - 1, |rows|)]
  }

  lemma {:induction false} TransposeAt<T>(rows: seq<seq<T>>, w: nat, c: nat, j: nat)
    requires Rectangular(rows, w) && c <= w && j < c
    ensures Transpose(rows, w, c)[j] == Column(rows, w, j, |rows|)
    decreases c
  {
    if j < c - 1 {
      TransposeAt(rows, w, c - 1, j);
    }
  }

  lemma {:induction false} TransposeRectangular<T>(rows: seq<seq<T>>, w: nat)
    requires Rectangular(rows, w)
    ensures Rectangular(Transpose(rows, w, w), |rows|)
  {
    forall j | 0 <= j < w
      ensures |Transpose(rows, w, w)[j]| == |rows|
    {
      TransposeAt(rows, w, w, j);
    }
  }

  /** gui.py line 230, `mesh.reshape(n, cv).T.flatten()`: the mesh read
      column by column, all skeleton samples at circle angle 0, then at the
      next angle, and so on. */
  function GridOrder<T>(mesh: seq<T>, n: nat, cv: nat): (g: seq<T>)
    requires |mesh| == n * cv
    ensures |g| == |mesh|
  {
    var rows := Reshape(mesh, n, cv);
    ReshapeRectangular(mesh, n, cv);
    TransposeRectangular(rows, cv);
    FlattenLength(Transpose(rows, cv, cv), n);
    Flatten(Transpose(rows, cv, cv))
  }

  /** The re-ordered mesh has the same length, and its entry c*n + v is the
      mesh's entry v*cv + c: sample v at circle angle c. */
  lemma {:induction false} GridOrderAt<T>(mesh: seq<T>, n: nat, cv: nat, v: nat, c: nat, p: nat, q: nat)
    requires |mesh| == n * cv && v < n && c < cv && p == c * n + v && q == v * cv + c
    ensures |GridOrder(mesh, n, cv)| == n * cv && p < n * cv && q < |mesh|
    ensures GridOrder(mesh, n, cv)[p] == mesh[q]
  {
    var rows := Reshape(mesh, n, cv);
    ReshapeRectangular(mesh, n, cv);
    var cols := Transpose(rows, cv, cv);
    TransposeRectangular(rows, cv);
    FlattenAt(cols, n, c, v);
    assert |Flatten(cols)| == cv * n;
    assert cv * n == n * cv;
    TransposeAt(rows, cv, cv, c);
    ColumnAt(rows, cv, c, n, v);
    ReshapeAt(mesh, n, cv, v);
    RowAt(mesh, cv, v, cv, c, q);
  }

  /** Grid order is a rearrangement that is undone by the grid order of the
      transposed shape: reading the result back as cv rows of n gives the
      original mesh. */
  lemma {:induction false} GridOrderUndone<T>(mesh: seq<T>, n: nat, cv: nat)
    requires |mesh| == n * cv
    ensures |GridOrder(mesh, n, cv)| == cv * n
    ensures GridOrder(GridOrder(mesh, n, cv), cv, n) == mesh
  {
    var m2 := GridOrder(mesh, n, cv);
    var rows := Reshape(mesh, n, cv);
    ReshapeRectangular(mesh, n, cv);
    TransposeRectangular(rows, cv);
    FlattenLength(Transpose(rows, cv, cv), n);
    assert |m2| == cv * n;
    var m3 := GridOrder(m2, cv, n);
    var rows2 := Reshape(m2, cv, n);
    ReshapeRectangular(m2, cv, n);
    TransposeRectangular(rows2, n);
    FlattenLength(Transpose(rows2, n, n), cv);
    assert |m3| == |mesh|;
    forall q | 0 <= q < |mesh|
      ensures m3[q] == mesh[q]
    {
      QuotientBelow(q, n, cv);
      var v, c := q / cv, q % cv;
      var p := c * n + v;
      GridOrderAt(mesh, n, cv, v, c, p, q);
      GridOrderAt(m2, cv, n, c, v, q, p);
    }
  }

  /** `straight_vertices, front_vertices, circle_vertices` of gui.py line 31. */
  const StraightVertices: nat := 10
  const FrontVertices: nat := 10
  const CircleVertices: nat := 20

  /** The row count gui.py line 230 reshapes with, (fv + sv) * 2 - 3. */
  function GridRows(sv: nat, fv: nat): nat
    requires sv + fv >= 2
  {
    (fv + sv) * 2 - 3
  }

  /** The picture `plot_mesh` draws in grid mode: the mesh as it comes, then
      in grid order. */
  function GridDrawing<T>(mesh: seq<T>, n: nat, cv: nat): (d: seq<T>)
    requires |mesh| == n * cv
    ensures |d| == 2 * |mesh| && d[..|mesh|] == mesh
  {
    mesh + GridOrder(mesh, n, cv)
  }

  /** The drawing has twice as many points as the mesh, starts with the mesh,
      and its second half visits sample v at circle angle c at position
      n*cv + c*n + v. */
  lemma {:induction false} GridDrawingAt<T>(mesh: seq<T>, n: nat, cv: nat, v: nat, c: nat, p: nat, q: nat)
    requires |mesh| == n * cv && v < n && c < cv && p == c * n + v && q == v * cv + c
    ensures var d := GridDrawing(mesh, n, cv);
      && |d| == 2 * |mesh| && d[..|mesh|] == mesh
      && q < |mesh| && |mesh| + p < |d| && d[|mesh| + p] == mesh[q]
  {
    GridOrderAt(mesh, n, cv, v, c, p, q);
  }

  /** The SunPy mesh has exactly GridRows(sv, fv) * cv points, so gui.py
      line 230's reshape fits it. */
  lemma {:induction false} SunpyMeshFitsGrid(t: Trig, alpha: real, height: real, sv: nat, fv: nat, cv: nat, k: real,
                                             lat: real, lon: real, tilt: real, radius: real)
    requires k * k != 1.0 && Cos(t, alpha) != 0.0 && Sin(t, alpha) != -1.0
    requires sv >= 1 && fv >= 1
    ensures |GcsMeshSunpy(t, alpha, height, sv, fv, cv, k, lat, lon, tilt, radius)| == GridRows(sv, fv) * cv
  {
    assert GridRows(sv, fv) == PspaceLength(sv, fv);
    GcsMeshSunpySize(t, alpha, height, sv, fv, cv, k, lat, lon, tilt, radius);
  }

  /** With gui.py's vertex counts 10, 10 and 20 the SunPy mesh has 740 points,
      read as a 37-by-20 grid, and the grid drawing has 1480. */
  lemma {:induction false} GuiGridShape(t: Trig, alpha: real, height: real, k: real,
                                        lat: real, lon: real, tilt: real, radius: real)
    requires k * k != 1.0 && Cos(t, alpha) != 0.0 && Sin(t, alpha) != -1.0
    ensures var s := GcsMeshSunpy(t, alpha, height, StraightVertices, FrontVertices, CircleVertices,
                                  k, lat, lon, tilt, radius);
      && GridRows(StraightVertices, FrontVertices) == 37
      && |s| == 740
      && |GridDrawing(s, GridRows(StraightVertices, FrontVertices), CircleVertices)| == 1480
  {
    SunpyMeshFitsGrid(t, alpha, height, StraightVertices, FrontVertices, CircleVertices,
                      k, lat, lon, tilt, radius);
  }
}
