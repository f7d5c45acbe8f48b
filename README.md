# GCS flux-rope geometry, modelled in Dafny

This project models the geometry engine of a Python implementation of the
Graduated Cylindrical Shell (GCS) model of a coronal mass ejection, and the
small computational parts of its interactive fitting GUI.

- **Skeleton** (`gcs.py` `skeleton`, module `Skeletons`). The rope's axis is
  built from four sampled segments: the right leg, the right front arc, the
  left front arc reversed, and the left leg reversed. They are concatenated,
  with numpy slices and reversals, into three parallel arrays: positions
  `p`, cross-section radii `r` and cross-section angles `ca`.
- **Mesh** (`gcs.py` `gcs_mesh`, module `Meshes`). The leading-edge height
  becomes a junction distance. A circle of `circle_vertices` points is swept
  around every skeleton sample. The three arrays `mesh`, `u`, `v` come out
  flattened in meshgrid order, so flat index `i*cv + c` is sample `i` at
  circle angle `c`.
- **Orientation** (`gcs.py` `rotate_mesh`, `gcs_mesh_rotated`,
  `gcs_mesh_sunpy`, module `Orientation`).
  - The rotation is scipy's extrinsic `'zyx'` Euler rotation with angles
    `[tilt, lat, lon]`, written out as three explicit rotation matrices.
  - The SunPy output permutes the axes to (z, y, x), negates the middle
    one and scales by the solar radius.
- **Apex radius** (`gcs.py` `apex_radius`, module `Apex`). It is a closed
  form, proved equal to the middle skeleton radius. The apex centre plus
  that radius is proved to be the requested height.
- **GUI** (`gcs/gui.py`, module `Gui`):
  - `load_image`'s spacecraft/detector selection and its `ValueError`s;
  - the hour-earlier request and the `running_difference` of two frames;
  - the per-spacecraft detector choice of `make_plot`;
  - the grid-mode re-ordering `mesh.reshape(n, cv).T.flatten()` of
    `plot_mesh`.

`numpy`'s elementary functions (`sin`, `cos`, `tan`, `arcsin`, `sqrt`) are
kept uninterpreted in module `Numerics`, as tables inside a `Trig` value.
A lemma that needs a fact about them lists that fact in its preconditions,
e.g. `PythagoreanAt`, `QuarterTurn` (sin π/2 = 1, cos π/2 = 0), `FullTurn`
(2π-periodicity at 0), `SqrtLaw` or `ArcsinAt`. Arithmetic is over `real`.
`np.linspace` is exact, with both end points included.

Every part of the core is pure, so the model is built from datatypes,
functions and lemmas. The only in-place update in the modelled core is
`m[1, :] *= -1` on a fresh local array (gcs.py:170). It is the pure map
`SunpyPoint`.

## Model

| member | source | states |
|---|---|---|
| Numerics.Linspace | gcs.py:36-37 | `linspace(a, b, n)` has n samples, starts at a, and ends exactly at b when n >= 2 |
| Numerics.RampAt | gcs.py:42 | sample i of the evenly spaced sequence is a + i*step |
| Numerics.FlipAt | gcs.py:54-56 | `flipud` reverses: element i is element n-1-i |
| Numerics.RestAt | gcs.py:54-56 | element i of `s[1:]` is element i+1 of s |
| Numerics.FlattenAt | gcs.py:92 | in row-major flattening, row i, column j sits at flat index i*w + j |
| Skeletons.Skeleton | gcs.py:9-58 | `p`, `r` and `ca` each have 2*sv + 2*fv - 3 samples |
| Skeletons.SegmentsFrom | gcs.py:31-52 | models the four segments for given samples: right and left legs `pslR`, `pslL` with radii `rsl` and angles `casl` (sv entries each), and the front's `beta`, `X0`, `rc`, `pcR`, `pcL` (fv entries each) |
| Skeletons.Join | gcs.py:54-56 | models the four-part concatenation with `[1:]` and `flipud`, whose length is the sum of the four lengths minus 3 |
| Skeletons.JoinAngles | gcs.py:55 | models `ca`'s concatenation, with the reversed halves reflected as π - angle, of length 2·len(x) + 2·len(y) - 3 |
| Skeletons.Assemble | gcs.py:54-56 | models the assembly of `r`, `ca` and `p` from the segments (no contract of its own; JoinAt, SkeletonSymmetric and CrossSectionAngleMirror state its layout) |
| Skeletons.JoinAt | gcs.py:54-56 | which segment, and which element of it, each index of the concatenation reads |
| Skeletons.SidesMirroredFrom | gcs.py:36-37 | the left leg is the lateral reflection of the right leg, element by element |
| Skeletons.FrontMirror | gcs.py:51-52 | `pcL` is the lateral reflection of `pcR`, element by element |
| Skeletons.SkeletonEndsAtOrigin | gcs.py:36-37 | the first and the last skeleton position are exactly the origin |
| Skeletons.CrossSectionAngleMirror | gcs.py:39-55 | ca[n-1-i] = π - ca[i] for every i, and the middle sample sv+fv-2 has angle π/2 |
| Skeletons.SkeletonMirrorOffJunction | gcs.py:36-56 | with no trigonometric premise: for every i before the apex other than the leg end sv-1, p[n-1-i] is the lateral reflection of p[i] and r[n-1-i] = r[i] |
| Skeletons.SkeletonSymmetric | gcs.py:36-56 | given the trig identities at alpha and arcsin k, the mirror relations hold at every index, the junction pair included |
| Skeletons.JunctionPoint | gcs.py:44-51 | the front-arc point at beta = -alpha with centre offset rho is d·(0, sin α, cos α), the leg point at distance d, given the trig identities at alpha |
| Skeletons.JunctionRadius | gcs.py:38-48 | the front radius at centre offset rho equals the leg radius tan(arcsin k)·abs(d) at the leg point at distance d, given the trig identities |
| Skeletons.JunctionFrom | gcs.py:36-51 | where the legs end at distance d and the front starts at -alpha, the first front sample is the last leg sample and has the same radius: pcR[0] = pslR[sv-1] and rc[0] = rsl[sv-1], given the trig identities |
| Skeletons.SkeletonApex | gcs.py:47-56 | the middle sample lies on the height axis at h + X0(π/2), with radius rc(X0(π/2)) |
| Meshes.PspaceCoversSkeleton | gcs.py:90 | the `pspace` range has exactly as many indices as the skeleton has samples |
| Meshes.JunctionDistance | gcs.py:86 | the junction distance d puts the front arc's reference height b = d / cos α and shift rho = d tan α at b + rho = height (1 - k), given tan α = sin α / cos α |
| Meshes.GcsMesh | gcs.py:61-101 | models `gcs_mesh` (no contract of its own; MeshSize, MeshIndex, PointOnCrossSection and RingCloses state its sizes, layout and geometry) |
| Meshes.MeshSize | gcs.py:89-92 | `mesh`, `u` and `v` each have (2sv+2fv-3)*cv entries |
| Meshes.MeshIndex | gcs.py:89-94 | flat index i*cv + c has v = i, u = theta[c], and the point r[i]*(cos u, sin u cos ca[i], sin u sin ca[i]) + p[i] |
| Meshes.FlatIndexFrom | gcs.py:91-94 | read the other way, flat index q is skeleton sample q / cv at circle angle theta[q % cv] |
| Meshes.OnCircle | gcs.py:94 | given sin² + cos² = 1, a mesh point is at squared distance r² from its skeleton point |
| Meshes.PointOnCrossSection | gcs.py:94 | every mesh point of `gcs_mesh` lies at distance abs(r[i]) from p[i] |
| Meshes.RingCloses | gcs.py:89 | given 2π-periodicity, each ring's first point (theta 0) and last point (theta 2π) coincide |
| Apex.FrontOffsetAtApex | gcs.py:47 | the front-arc centre offset at beta = π/2 is (rho + h k²)/(1 - k²) |
| Apex.ApexRadius | gcs.py:176-193 | models `apex_radius` (no contract of its own; ApexRadiusIsMiddleRadius, NonNegativeApex and LeadingEdgeAtHeight state what it means) |
| Apex.ApexArgument | gcs.py:48 | the squared front radius at the apex is the square of k(h + rho)/(1 - k²), for any h and rho |
| Apex.NonNegativeApex | gcs.py:193 | for 0 <= k < 1 and height >= 0 the apex radius is not negative |
| Apex.ApexRadiusIsMiddleRadius | gcs.py:190-193 | `apex_radius(alpha, height, k)` is the radius r[sv+fv-2] of the middle skeleton sample `gcs_mesh` sweeps |
| Apex.LeadingEdgeAtHeight | gcs.py:85-86 | the apex centre is on the height axis, and its height coordinate plus the apex radius equals `height` |
| Orientation.EulerArguments | gcs.py:118 | models `[neang[2], neang[1], neang[0]]` for neang = [lon, lat, tilt] (contract: three angles; the body gives the order tilt, lat, lon) |
| Orientation.Extrinsic | gcs.py:118 | models `from_euler('zyx', e)` on one point: z by e[0], then y by e[1], then x by e[2], each about the fixed axes (no contract of its own) |
| Orientation.Rotate | gcs.py:104-118 | models `rotate_mesh` on one point (no contract of its own; RotateRigid, ZeroAnglesIdentity and UnrotateRotate state its properties) |
| Orientation.RotateAll | gcs.py:118 | `apply` on an N-by-3 array returns N points |
| Orientation.GcsMeshRotated | gcs.py:121-144 | models `gcs_mesh_rotated` (no contract of its own; GcsMeshRotatedAt and RotatedPointOnCrossSection state it) |
| Orientation.SunpyPoint | gcs.py:169-170 | models the axis permutation, negation and scaling of one point (no contract of its own; SunpyRoundTrip and SunpyScalesDistance state its properties) |
| Orientation.SunpyAll | gcs.py:169-170 | the SunPy conversion returns one triple per point |
| Orientation.GcsMeshSunpy | gcs.py:147-170 | models `gcs_mesh_sunpy` without the SkyCoord wrapper (no contract of its own; GcsMeshSunpySize and GcsMeshSunpyAt state it) |
| Orientation.RotateAllAt | gcs.py:118 | `apply` rotates each point on its own and keeps the length and order of the points |
| Orientation.RotateRigid | gcs.py:118 | given sin² + cos² = 1 at the three angles, the rotation keeps every squared distance |
| Orientation.ZeroAnglesIdentity | gcs.py:118 | with all three angles 0 the rotation moves nothing |
| Orientation.UnrotateRotate | gcs.py:118 | undoing longitude, latitude and tilt in reverse order recovers the point, so the rotation loses nothing |
| Orientation.RotatedKeepsIndexing | gcs.py:142-144 | rotating a mesh keeps its length and its u and v, and moves point q to position q |
| Orientation.GcsMeshRotatedAt | gcs.py:142-144 | `gcs_mesh_rotated` returns the u and v of `gcs_mesh`, and point q is `gcs_mesh` point q rotated by (lon, lat, tilt) |
| Orientation.RotatedPointOnCrossSection | gcs.py:142-144 | after rotation every point is still at distance abs(r[i]) from its rotated skeleton point |
| Orientation.SunpyRoundTrip | gcs.py:169-170 | the SunPy triple (z R, -y R, x R) determines the point for any non-zero R |
| Orientation.SunpyScalesDistance | gcs.py:169-170 | the SunPy axes multiply every squared distance by R² |
| Orientation.GcsMeshSunpySize | gcs.py:168-170 | `gcs_mesh_sunpy` gives one triple per `gcs_mesh` point |
| Orientation.GcsMeshSunpyAt | gcs.py:169-170 | triple q is (z R, -y R, x R) of rotated point q |
| Gui.SelectSourceMatchesCatalogue | gcs/gui.py:44-60 | selection succeeds iff the spacecraft is STA, STB or SOHO and the detector is one it carries. It then returns STEREO_A/SECCHI, STEREO_B/SECCHI or SOHO/LASCO with the detector. Otherwise it fails with the unknown-spacecraft or the unknown-detector error |
| Gui.SelectSource | gcs/gui.py:44-60 | models `load_image`'s if/elif chain (no contract of its own; SelectSourceMatchesCatalogue relates it to the spacecraft table) |
| Gui.Message | gcs/gui.py:48-60 | models the `ValueError` texts (no contract of its own; LoadImageFailsBeforeDownload states which text each failure carries) |
| Gui.LoadImage | gcs/gui.py:43-68 | models `load_image` with the archive as a parameter (no contract of its own; LoadImageFailsBeforeDownload, LoadImageRequests and LoadImageDifferenceAt state it) |
| Gui.LoadImageFailsBeforeDownload | gcs/gui.py:44-62 | an invalid spacecraft or detector yields its `ValueError` and no archive request; the message is "unknown spacecraft: …" for an unknown spacecraft and "unknown detector … for spacecraft ….", for a known one |
| Gui.LoadImageRequests | gcs/gui.py:62-68 | a valid pair makes one request at `date`, and with `runndiff` a second one 3600 s earlier. The result is the running difference of the two frames, or the frame itself |
| Gui.LoadImageDifferenceAt | gcs/gui.py:64-66 | with `runndiff`, each pixel is the current value minus the value an hour earlier, under the current header |
| Gui.RunningDifferenceUndone | gcs/gui.py:39-40 | the difference fails exactly on a length clash. Otherwise it keeps b's header, and adding a's data back gives b's data |
| Gui.RunningDifferenceAt | gcs/gui.py:39-40 | pixel i of the difference is b[i] - a[i] |
| Gui.RunningDifference | gcs/gui.py:39-40 | models `running_difference` (no contract of its own; RunningDifferenceUndone and RunningDifferenceAt state it) |
| Gui.MakePlotDetectorsLoad | gcs/gui.py:179 | with valid STEREO and SOHO detectors, each of STA, STB and SOHO loads, and any other name is rejected as an unknown spacecraft |
| Gui.DetectorFor | gcs/gui.py:179 | models the detector choice of `make_plot` (no contract of its own; MakePlotDetectorsLoad states its effect) |
| Gui.GridOrder | gcs/gui.py:230 | the grid order keeps the mesh's length |
| Gui.GridOrderAt | gcs/gui.py:230 | the re-ordered mesh has the same length, and mesh2[c*n + v] = mesh[v*cv + c] |
| Gui.GridOrderUndone | gcs/gui.py:230 | the grid order with the roles of n and cv swapped undoes it, so it is a permutation |
| Gui.GridDrawingAt | gcs/gui.py:230-231 | the drawn sequence has length 2*n*cv, starts with the mesh, and holds mesh[v*cv + c] at n*cv + c*n + v |
| Gui.GridDrawing | gcs/gui.py:230-231 | the drawn sequence is twice as long as the mesh and starts with the mesh |
| Gui.SunpyMeshFitsGrid | gcs/gui.py:227-230 | the SunPy mesh has exactly ((fv+sv)*2-3)*cv points, so the reshape fits |
| Gui.GuiGridShape | gcs/gui.py:31 | with the GUI's vertex counts 10, 10 and 20 the SunPy mesh has 740 points, the grid has 37 rows, and the grid drawing has 1480 points |

## Left out

- Floating point: all arithmetic is exact `real` arithmetic. No claim is made about bit-exact numpy results.
- The elementary functions are tables with a default of 0 off their domain. Every fact a lemma uses about them is a precondition of that lemma. This includes the identities that make the junction pair continuous (`SkeletonSymmetric`, `JunctionPoint`, `JunctionRadius`).
- `loop_length` and `circle_length` (gcs.py:27-29) are computed and never used.
- Skeleton, GcsMesh and ApexRadius require k² ≠ 1, cos α ≠ 0 and, where the junction distance is formed, sin α ≠ -1. The source divides by these quantities without checking them.
- GcsMesh requires sv >= 1 and fv >= 1. Below that, `pspace` is shorter than the skeleton and `gcs_mesh` sweeps only its first (sv+fv)*2-3 samples; the model does not cover those counts.
- The rotation is written as explicit matrices of scipy's extrinsic 'zyx' convention. scipy's quaternion internals are not modelled.
- `gcs_mesh_sunpy`'s `SkyCoord` wrapper, the Heliographic Stonyhurst frame and `obstime` are astropy/sunpy coordinate semantics and are left out. The `date` argument therefore does not appear. `sun.constants.radius` is the parameter `radius`.
- `download_helioviewer`, `get_horizons_coord`, `Map` and the SOHO header update (gcs/gui.py:71-82) are network and file I/O. `LoadImage` takes the archive as a function argument and records the requests it makes.
- `RunningDifference`: frames are flattened pixel sequences. numpy broadcasting between differently shaped arrays is modelled as a `ShapeMismatch` failure on a length clash, and numpy's own error text is not reproduced (`Message` gives that failure a text of its own).
- Dates are integer seconds, and `timedelta(hours=1)` is 3600.
- `save_params` and `load_params` are JSON file I/O and are left out.
- The Qt/matplotlib GUI is left out: widget construction, draw modes, canvas updates and event wiring. Of `make_plot` and `plot_mesh`, only the detector choice (line 179) and the grid re-ordering (lines 230-231) are modelled.
- The legacy `gcs_gui.py`, the sample scripts, `setup.py` and the widget and debounce utilities are not part of this model. `gcs.geometry` is not part of this model either; `gcs.py` is taken as the geometry source.
