# DXF2GLB import preprocessing, modelled in Dafny

DXF2GLB turns 3D polylines, already extracted from CAD drawings and stored as
JSON, into a simplified mesh exported as GLB. The Blender script
`DXF2GLB/Scripts/blender_import.py` decides which geometry reaches Blender
before Blender's own operators run. This project models that decision logic.
Coordinates are exact `real`s.

- **Centring** (`Centering`): the midpoint of the bounding box of a sample of the
  points. Polylines are walked in order, then points in order. The six running
  extremes are held as two corner points, `lo` and `hi`. Both loops stop after
  the 100,001st point. The inner loop over one polyline's points is the method
  `SamplePolyline`.
- **Prefix cut and layer grouping** (`Layers`): the optional `MAX_POLYLINES` cut,
  then bucketing by `layer` (default `"Default"`) into an insertion-ordered
  dictionary. The dictionary is a key order plus a map.
- **Strand building** (`Strands`): the data part of
  `create_merged_curve_from_polylines`. Polylines with fewer than two points are
  skipped. Each other polyline becomes a strand of control points
  `((p - centre) * SCALE, w = 1)` that is cyclic when `closed` is true. The strands
  are counted.
- **Orchestration** (`Pipeline`): the curve phase of `import_and_process`.
  - An empty list stops the run.
  - The centre is computed on the full list, before the cut.
  - One merged curve is built per layer, and the spline counts are summed. This
    loop is the method `BuildCurves`.
  - The three simplification stages are gated on their thresholds. Blender's
    operators are left as function parameters.
  - The reduction percentage has a divide-by-zero guard.
- **Command line** (`CommandLine`): `parse_command_line_args`. The script's two
  path globals are fields of a class.

Where the code does something other than its own comments and messages say,
the model follows the code:

- The comment at `blender_import.py:109` says the first 100k points are sampled.
  The count is raised before the `count > 100000` test, so 100,001 points are
  sampled.
- The message at `blender_import.py:322` announces one object per polyline when
  `MERGE_PER_LAYER` is off. The code has no such branch: it builds no curves and
  reports 0 splines.
- For an input without points, the infinite sentinels of
  `blender_import.py:95-96` survive and the centre at `:114-116` is NaN. The
  script goes on with it. The model gives no centre (`None`) there and proves that
  no strand is then built, so the substitute centre it uses never reaches any
  geometry.
- The reduction at `blender_import.py:383` is a percentage, printed as one at
  `:387`, and is 0 when there were no vertices before. The model keeps that
  scale.

## Model

| member | source | states |
|---|---|---|
| `Centering.CalculateCenter` | DXF2GLB/Scripts/blender_import.py:93-118 | The nested sampling loops with their breaks return exactly the bounding-box centre of the sample (the first 100,001 points in traversal order, or all of them), or no centre when there are no points |
| `Centering.SamplePolyline` | DXF2GLB/Scripts/blender_import.py:100-110 | The inner loop widens the box with the points of one polyline in order. It either takes them all, or stops exactly at the 100,001st point of the traversal. The box is then the bounding box of every point taken so far |
| `Centering.AxisExtremes` | DXF2GLB/Scripts/blender_import.py:99-107 | The running per-axis min and max bound every sampled point on that axis, and both are attained by a sampled point |
| `Centering.FlattenAt` | DXF2GLB/Scripts/blender_import.py:99-100 | Point j of polyline k is visited right after the points of all earlier polylines and the first j points of its own |
| `Centering.SampleIsLeadingPoints` | DXF2GLB/Scripts/blender_import.py:98-112 | The sample is a prefix of the traversal and holds exactly min(total, 100,001) points |
| `Centering.LaterPolylinesIgnored` | DXF2GLB/Scripts/blender_import.py:108-112 | Once more than 100,000 points have been seen, polylines appended afterwards change neither the sample nor the centre |
| `Centering.Midpoint` | DXF2GLB/Scripts/blender_import.py:114-116 | The per-axis centre is equally far from the minimum and the maximum, and lies between them |
| `Centering.CenterWithinSampleBox` | DXF2GLB/Scripts/blender_import.py:99-118 | On every axis the centre lies within [min, max] of the sampled points |
| `Centering.CoincidentSampleCenter` | DXF2GLB/Scripts/blender_import.py:99-118 | When all sampled points coincide, the centre is that point |
| `Centering.NoCenterIffNoPoints` | DXF2GLB/Scripts/blender_import.py:95-116 | There is no centre exactly when the input holds no points at all (the case where the infinite sentinels survive) |
| `Layers.Truncate` | DXF2GLB/Scripts/blender_import.py:309-310 | The cut is always a prefix of the input. `None` or `0` leaves the list whole. A positive cap keeps min(cap, n) polylines. A negative cap keeps max(0, n + cap), as a Python slice does |
| `Layers.LayerOrder` | DXF2GLB/Scripts/blender_import.py:314-318 | The dictionary keys are distinct, and a name is a key exactly when some polyline has that layer (absent layer read as "Default") |
| `Layers.GroupByLayer` | DXF2GLB/Scripts/blender_import.py:314-319 | The grouping loop yields the first-occurrence key order. Its keys are exactly the layer names, and each key maps to the polylines of that layer in input order |
| `Layers.OrderOfFirstOccurrence` | DXF2GLB/Scripts/blender_import.py:316-318 | Of two keys, the earlier one occurs in the input before any polyline of the later one |
| `Layers.ExactlyOneBucket` | DXF2GLB/Scripts/blender_import.py:315-319 | Every polyline is in the bucket of its own layer and in no other bucket, and its layer is a key |
| `Layers.GroupingIsPermutation` | DXF2GLB/Scripts/blender_import.py:314-319 | The buckets concatenated in key order are a permutation of the input |
| `Layers.BucketSizesSum` | DXF2GLB/Scripts/blender_import.py:314-319 | Bucket sizes add up to the number of input polylines |
| `Layers.GroupingExample` | DXF2GLB/Scripts/blender_import.py:314-319 | Polylines on two different layers a, b, a (any names, `"Default"` included) give keys a, b, with a holding polylines 0 and 2 and b holding polyline 1 |
| `Strands.Centered` | DXF2GLB/Scripts/blender_import.py:143-146 | The centred list has the length of the input, and adding the centre back gives each input point |
| `Strands.FillSpline` | DXF2GLB/Scripts/blender_import.py:149-154 | The control-point buffer has one slot per point, and slot i is the scaled centred point i with weight 1 |
| `Strands.CreateMergedCurve` | DXF2GLB/Scripts/blender_import.py:134-159 | The strand loop emits the strands of the polylines with at least two points in input order, and its count equals the number of such polylines |
| `Strands.StrandsFollowRenderable` | DXF2GLB/Scripts/blender_import.py:135-159 | There are as many strands as polylines with at least two points, and strand k is built from the k-th such polyline |
| `Strands.RenderableMembers` | DXF2GLB/Scripts/blender_import.py:139-140 | A polyline yields a strand if and only if it has at least two points |
| `Strands.NothingRenderable` | DXF2GLB/Scripts/blender_import.py:139-140 | A group whose polylines all have fewer than two points yields no strand |
| `Strands.RenderableCount` | DXF2GLB/Scripts/blender_import.py:139-159 | The spline count is the group size less the number of positions that hold a polyline with fewer than two points |
| `Strands.RenderablePermutation` | DXF2GLB/Scripts/blender_import.py:139-159 | Reordering the polylines does not change how many strands they yield |
| `Strands.StrandRecoversPolyline` | DXF2GLB/Scripts/blender_import.py:136-157 | A strand has the same length and order as its polyline. Every control point has weight 1, and for a non-zero scale it maps back to its source point. The strand is cyclic iff `closed` is true, and a missing flag means open |
| `Strands.TranslationInvariant` | DXF2GLB/Scripts/blender_import.py:143-154 | Shifting a polyline and the centre by the same offset leaves the strand unchanged |
| `Pipeline.ImportAndProcess` | DXF2GLB/Scripts/blender_import.py:298-345 | An empty list is an error and nothing else. Otherwise the centre comes from the full list before the cut, and the curves are the per-layer strands of the cut list in key order. The total is the number of polylines with at least two points, and without MERGE_PER_LAYER there are no curves and the total is 0. Without a centre no curve has a strand |
| `Pipeline.BuildCurves` | DXF2GLB/Scripts/blender_import.py:327-344 | With MERGE_PER_LAYER, the loop over the dictionary's items builds each layer's merged curve in key order from that layer's bucket, and sums their spline counts. Without it the loop builds nothing and the total stays 0 |
| `Pipeline.TotalSplinesCountRenderable` | DXF2GLB/Scripts/blender_import.py:329-344 | The sum of the per-layer spline counts equals the number of polylines with at least two points in the cut list |
| `Pipeline.NoStrandsWithoutPoints` | DXF2GLB/Scripts/blender_import.py:139-140 | When no polyline has points, no layer's curve has a strand, so the NaN centre of such an input never reaches geometry |
| `Pipeline.ApplyDecimate` | DXF2GLB/Scripts/blender_import.py:224-244 | A ratio of 1.0 or more returns the mesh unchanged |
| `Pipeline.OptimizeMeshes` | DXF2GLB/Scripts/blender_import.py:361-380 | The three stage loops leave each mesh as the gated weld, dissolve and decimate steps applied to it in that order |
| `Pipeline.ClosedGatesIgnoreOperators` | DXF2GLB/Scripts/blender_import.py:362-380 | A stage whose threshold closes its gate cannot affect any mesh, whatever the host operator does |
| `Pipeline.OpenWeldGateWelds` | DXF2GLB/Scripts/blender_import.py:362-365 | With only the weld gate open, the result is exactly the welded mesh |
| `Pipeline.OpenDissolveGateDissolves` | DXF2GLB/Scripts/blender_import.py:369-372 | With only the dissolve gate open, the result is exactly the mesh dissolved at LIMIT_DISSOLVE_ANGLE |
| `Pipeline.OpenDecimateGateDecimates` | DXF2GLB/Scripts/blender_import.py:376-379 | With only the decimate gate open, the result is exactly what `apply_decimate` makes of the mesh, which for COLLAPSE is the host modifier at DECIMATE_RATIO |
| `Pipeline.OpenGatesRunInOrder` | DXF2GLB/Scripts/blender_import.py:361-380 | With all three gates open, the mesh is welded, then dissolved, then decimated, in that order |
| `Pipeline.NeutralSettingsKeepMesh` | DXF2GLB/Scripts/blender_import.py:362-380 | Non-positive merge distance and angle with a ratio of at least 1 leave every mesh unchanged |
| `Pipeline.DefaultsRunEveryStage` | DXF2GLB/Scripts/blender_import.py:47-61 | The shipped settings run welding, dissolve and decimation |
| `Pipeline.Reduction` | DXF2GLB/Scripts/blender_import.py:383 | The reduction is 0 with no vertices before. With no growth it lies in [0, 100]. It is 0 iff nothing was removed and 100 iff nothing is left |
| `Pipeline.ReductionRecoversAfter` | DXF2GLB/Scripts/blender_import.py:383 | The final vertex count is recovered from the reduction: after = before * (1 - r / 100) |
| `Pipeline.ReductionMonotone` | DXF2GLB/Scripts/blender_import.py:383 | Fewer vertices after means a larger reduction |
| `CommandLine.IndexOf` | DXF2GLB/Scripts/blender_import.py:413-414 | Finds the first `--`, and is absent exactly when `--` is not among the arguments |
| `CommandLine.NoSeparatorKeepsPaths` | DXF2GLB/Scripts/blender_import.py:413-420 | Without `--` the result is false and both paths are unchanged |
| `CommandLine.ArgumentsAfterFirstSeparator` | DXF2GLB/Scripts/blender_import.py:413-419 | With `--`, the first argument after the first `--` (if any) becomes the JSON path and the second (if any) the GLB path, and the result is true |
| `CommandLine.Settings.ParseCommandLineArgs` | DXF2GLB/Scripts/blender_import.py:408-420 | Assigns the two path globals and returns the batch flag exactly as ParseArgs describes |

## Left out

- Curve-to-mesh conversion (`convert_curve_to_mesh`) is not modelled at all: `Pipeline.OptimizeMeshes` starts from meshes that are already converted.
- Vertex welding (`remove_doubles`), limited dissolve (`dissolve_limited`) and applying the Decimate modifier are Blender operators whose algorithms the script does not contain. They are function parameters of `Pipeline.RunStages` and `Pipeline.OptimizeMeshes`, and no weld, dissolve or edge-collapse algorithm is invented for them.
- The curve data settings `CURVE_RESOLUTION`, `CURVE_BEVEL_DEPTH` and `bevel_resolution` configure Blender's tube extrusion, which is not modelled.
- Scene handling: `clear_scene`, `get_or_create_collection` (and so `ORGANIZE_BY_LAYER`), object linking, selection, active-object and mode switching, and the viewport zoom. These are side effects on the host's scene graph.
- `get_vertex_count` reads the whole scene. The reduction is modelled over given vertex counts instead.
- I/O: loading the JSON document, the `stats` passthrough, `export_glb` with its gate `EXPORT_GLB and glb_output_path`, `os.path.exists`, `os.path.getsize`, every `print`, and the `__main__` block that calls the parser, clears the scene and checks the file exists.
- IEEE floating point: the `±inf` sentinels are replaced by a first-point branch, and the NaN centre of a point-free input is `None`. `Pipeline.ImportAndProcess` then builds with the origin as centre, which is harmless because no strand is built (`Pipeline.NoStrandsWithoutPoints`). Rounding is not modelled, since coordinates are exact reals.
- Malformed input. A `Point3` is exactly three numbers, and a polyline's `points` is a list or absent, so the model cannot represent the following. The sampling for the centre runs over the full list before the `MAX_POLYLINES` cut, and the strand builder only over polylines inside the cut, and only with `MERGE_PER_LAYER` on. The source treats these inputs as noted:
  - a point with other than three numbers among the first 100,001 points of the traversal raises at the unpacking in `blender_import.py:101`;
  - a later point with more than three numbers has the extra ones silently dropped at `:144` when its polyline reaches the strand builder and has at least two points, and is never read otherwise;
  - a later point with fewer than three numbers raises at `:144` when its polyline reaches the strand builder and has at least two points, and is never read otherwise;
  - `"points": null` raises a TypeError at `:100` when the sampling loop reaches that polyline. A polyline the sampling loop never reaches raises at `len(points)` on `:139` when it reaches the strand builder, and nothing raises otherwise.
- Non-boolean `closed` and `"layer": null`: the source tests `closed` for truthiness at `:156` and would use `None` as a dictionary key at `:316`. The model takes `closed` as a boolean and `layer` as a string, with an absent key as `None`.
