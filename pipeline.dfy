/** `import_and_process` up to the host's geometry operators: the empty-input
    exit, centring on the full list, the prefix cut, layer grouping, one merged
    curve per layer with the spline total, then the gates of the three mesh
    simplification stages and the reduction figure. */
module Pipeline {
  import opened Geometry
  import opened Centering
  import opened Layers
  import opened Strands

  /** The configuration constants at the head of the script. */
  datatype Config = Config(
    scale: real,                  // SCALE
    maxPolylines: Option<int>,    // MAX_POLYLINES
    mergePerLayer: bool,          // MERGE_PER_LAYER
    convertToMesh: bool,          // CONVERT_TO_MESH
    mergeDistance: real,          // MERGE_DISTANCE
    limitDissolveAngle: real,     // LIMIT_DISSOLVE_ANGLE
    decimateRatio: real,          // DECIMATE_RATIO
    decimateType: DecimateType,   // DECIMATE_TYPE
    exportGlb: bool)              // EXPORT_GLB

  datatype DecimateType = Collapse | Unsubdiv | Dissolve

  /** The values the script ships with. */
  const Defaults: Config := Config(1.0, None, true, true, 0.001, 0.0872, 0.5, Collapse, true)

  /** One layer's merged curve: the layer name and its strands. */
  datatype CurveNetwork = CurveNetwork(name: string, strands: seq<Strand>)

  datatype ImportError = NoPolylines

  datatype Result<T> = Ok(value: T) | Err(error: ImportError)

  /** What the curve phase produces: the centre (absent when the input has no
      points), the merged curves in layer order and the total spline count. */
  datatype Curves = Curves(center: Option<Point3>, networks: seq<CurveNetwork>, totalSplines: nat)

  /** The point used when the centre is absent. Any point would do: without
      points no polyline yields a strand (NoStrandsWithoutPoints). */
  const Origin: Point3 := Point3(0.0, 0.0, 0.0)

  /** The merged curves of the layers `keys`, in key order. */
  function NetworksOf(keys: seq<string>, pls: seq<Polyline>, center: Point3, scale: real): seq<CurveNetwork>
  {
    if keys == [] then []
    else
      var k := keys[|keys| - 1];
      NetworksOf(keys[..|keys| - 1], pls, center, scale) + [CurveNetwork(k, StrandsOf(Bucket(pls, k), center, scale))]
  }

  /** The sum of the per-layer spline counts over the layers `keys`. */
  function SplineTotal(keys: seq<string>, pls: seq<Polyline>): nat
  {
    if keys == [] then 0
    else SplineTotal(keys[..|keys| - 1], pls) + |Renderable(Bucket(pls, keys[|keys| - 1]))|
  }

  /** The per-layer counts add up to the spline count of the regrouped buckets. */
  lemma {:induction false} SplineTotalRegroup(keys: seq<string>, pls: seq<Polyline>)
    ensures SplineTotal(keys, pls) == |Renderable(Regroup(keys, pls))|
  {
    if keys != [] {
      var init := keys[..|keys| - 1];
      SplineTotalRegroup(init, pls);
      RenderableAppend(Regroup(init, pls), Bucket(pls, keys[|keys| - 1]));
    }
  }

  /** `total_splines` counts every polyline with at least two points exactly
      once, whatever the layers. */
  lemma TotalSplinesCountRenderable(pls: seq<Polyline>)
    ensures SplineTotal(LayerOrder(pls), pls) == |Renderable(pls)|
  {
    SplineTotalRegroup(LayerOrder(pls), pls);
    GroupingIsPermutation(pls);
    RenderablePermutation(Regroup(LayerOrder(pls), pls), pls);
  }

  /** An input without points has only empty polylines. */
  lemma {:induction false} EmptyTraversal(pls: seq<Polyline>)
    requires Flatten(pls) == []
    ensures forall pl :: pl in pls ==> Points(pl) == []
  {
    if pls != [] {
      var init, last := pls[..|pls| - 1], pls[|pls| - 1];
      assert Flatten(pls) == Flatten(init) + Points(last);
      EmptyTraversal(init);
      forall pl | pl in pls ensures Points(pl) == [] {
        assert pls == init + [last];
        assert pl in init || pl == last;
      }
    }
  }

  /** When no polyline has points, no layer's curve has a strand. */
  lemma {:induction false} NoStrandsWithoutPoints(keys: seq<string>, pls: seq<Polyline>, center: Point3, scale: real)
    requires forall pl :: pl in pls ==> Points(pl) == []
    ensures forall n :: n in NetworksOf(keys, pls, center, scale) ==> n.strands == []
  {
    if keys != [] {
      var k := keys[|keys| - 1];
      NoStrandsWithoutPoints(keys[..|keys| - 1], pls, center, scale);
      var b := Bucket(pls, k);
      BucketMembers(pls, k);
      NothingRenderable(b);
      StrandsFollowRenderable(b, center, scale);
      var init := NetworksOf(keys[..|keys| - 1], pls, center, scale);
      assert NetworksOf(keys, pls, center, scale) == init + [CurveNetwork(k, StrandsOf(b, center, scale))];
    }
  }

  /** Taking in key i adds that layer's curve and its spline count. */
  lemma CurvesStep(keys: seq<string>, i: nat, pls: seq<Polyline>, center: Point3, scale: real)
    requires i < |keys|
    ensures NetworksOf(keys[..i + 1], pls, center, scale) ==
      NetworksOf(keys[..i], pls, center, scale) + [CurveNetwork(keys[i], StrandsOf(Bucket(pls, keys[i]), center, scale))]
    ensures SplineTotal(keys[..i + 1], pls) == SplineTotal(keys[..i], pls) + |Renderable(Bucket(pls, keys[i]))|
  {
    assert keys[..i + 1][..i] == keys[..i];
  }

  /** The loop over the dictionary's items: with MERGE_PER_LAYER, one merged
      curve per layer in key order and the running spline total; without it the
      loop does nothing. */
  method BuildCurves(order: seq<string>, layers: map<string, seq<Polyline>>, ghost cut: seq<Polyline>,
                     center: Point3, scale: real, mergePerLayer: bool)
    returns (networks: seq<CurveNetwork>, total: nat)
    requires forall k :: k in order ==> k in layers && layers[k] == Bucket(cut, k)
    ensures networks == if mergePerLayer then NetworksOf(order, cut, center, scale) else []
    ensures total == if mergePerLayer then SplineTotal(order, cut) else 0
  {
    networks, total := [], 0;
    var i := 0;
    while i < |order|
      invariant 0 <= i <= |order|
      invariant mergePerLayer ==> networks == NetworksOf(order[..i], cut, center, scale)
      invariant mergePerLayer ==> total == SplineTotal(order[..i], cut)
      invariant !mergePerLayer ==> networks == [] && total == 0
    {
      var name := order[i];
      if mergePerLayer {
        var group := layers[name];
        assert group == Bucket(cut, name) by {
          assert name in order;
        }
        var strands, splineCount := CreateMergedCurve(group, center, scale);
        CurvesStep(order, i, cut, center, scale);
        networks := networks + [CurveNetwork(name, strands)];
        total := total + splineCount;
      }
      i := i + 1;
    }
    assert order[..i] == order;
  }

  /** The curve phase of `import_and_process`. An empty list is an error and
      nothing else happens. Otherwise the centre is computed on the whole list,
      the list is cut, grouped by layer, and with MERGE_PER_LAYER one merged
      curve per layer is built in key order while the spline counts are summed;
      without it the loop builds nothing. */
  method ImportAndProcess(polylines: seq<Polyline>, config: Config) returns (r: Result<Curves>)
    ensures r.Err? <==> polylines == []
    ensures r.Err? ==> r.error == NoPolylines
    ensures r.Ok? ==> r.value.center == CenterOf(Sample(polylines))
    ensures r.Ok? ==>
      var cut := Truncate(polylines, config.maxPolylines);
      var c := if r.value.center.Some? then r.value.center.value else Origin;
      && r.value.networks == (if config.mergePerLayer then NetworksOf(LayerOrder(cut), cut, c, config.scale) else [])
      && r.value.totalSplines == (if config.mergePerLayer then |Renderable(cut)| else 0)
    ensures r.Ok? && r.value.center.None? ==> forall n :: n in r.value.networks ==> n.strands == []
  {
    if polylines == [] {
      return Err(NoPolylines);
    }
    var center := CalculateCenter(polylines);
    var c := if center.Some? then center.value else Origin;
    var cut := Truncate(polylines, config.maxPolylines);
    var order, layers := GroupByLayer(cut);
    var networks, total := BuildCurves(order, layers, cut, c, config.scale, config.mergePerLayer);
    TotalSplinesCountRenderable(cut);
    if center.None? {
      NoCenterIffNoPoints(polylines);
      EmptyTraversal(polylines);
      NoStrandsWithoutPoints(order, cut, c, config.scale);
    }
    r := Ok(Curves(center, networks, total));
  }

  /** Which simplification stages run. */
  datatype StagePlan = StagePlan(weld: bool, dissolve: bool, decimate: bool)

  /** The stage gates: welding for a positive merge distance, limited dissolve
      for a positive angle and decimation for a ratio below 1, all inside the
      mesh conversion branch. */
  function PlanStages(config: Config): StagePlan
  {
    StagePlan(config.convertToMesh && config.mergeDistance > 0.0,
              config.convertToMesh && config.limitDissolveAngle > 0.0,
              config.convertToMesh && config.decimateRatio < 1.0)
  }

  /** The setting `apply_decimate` gives the modifier for each decimate type. */
  datatype DecimateSetting = Ratio(ratio: real) | AngleLimit(angle: real) | Unset

  /** `apply_decimate`: returns the mesh as it is for a ratio of 1 or more;
      otherwise applies the host's Decimate modifier (the parameter `modifier`)
      with the ratio for COLLAPSE, an angle limit of 0.0872 for DISSOLVE, and
      nothing set for UNSUBDIV. */
  function ApplyDecimate<M>(mesh: M, ratio: real, kind: DecimateType, modifier: (M, DecimateSetting) -> M): (r: M)
    ensures ratio >= 1.0 ==> r == mesh
  {
    if ratio >= 1.0 then mesh
    else
      match kind
      case Collapse => modifier(mesh, Ratio(ratio))
      case Dissolve => modifier(mesh, AngleLimit(0.0872))
      case Unsubdiv => modifier(mesh, Unset)
  }

  /** What the three stages do to one mesh; `weld` and `dissolve` stand for the
      host's remove-doubles and limited-dissolve operators. */
  function RunStages<M>(mesh: M, config: Config, weld: (M, real) -> M, dissolve: (M, real) -> M,
                        modifier: (M, DecimateSetting) -> M): M
  {
    var plan := PlanStages(config);
    var welded := if plan.weld then weld(mesh, config.mergeDistance) else mesh;
    var dissolved := if plan.dissolve then dissolve(welded, config.limitDissolveAngle) else welded;
    if plan.decimate then ApplyDecimate(dissolved, config.decimateRatio, config.decimateType, modifier) else dissolved
  }

  /** The three stage loops: each enabled stage is applied to every mesh in
      turn before the next stage starts. */
  method OptimizeMeshes<M>(meshes: seq<M>, config: Config, weld: (M, real) -> M, dissolve: (M, real) -> M,
                           modifier: (M, DecimateSetting) -> M)
    returns (result: seq<M>)
    ensures |result| == |meshes|
    ensures forall i :: 0 <= i < |meshes| ==> result[i] == RunStages(meshes[i], config, weld, dissolve, modifier)
  {
    var plan := PlanStages(config);
    result := meshes;
    if plan.weld {
      var i := 0;
      while i < |result|
        invariant 0 <= i <= |result| == |meshes|
        invariant forall k :: 0 <= k < i ==> result[k] == weld(meshes[k], config.mergeDistance)
        invariant forall k :: i <= k < |result| ==> result[k] == meshes[k]
      {
        result := result[i := weld(result[i], config.mergeDistance)];
        i := i + 1;
      }
    }
    ghost var welded := result;
    if plan.dissolve {
      var i := 0;
      while i < |result|
        invariant 0 <= i <= |result| == |welded|
        invariant forall k :: 0 <= k < i ==> result[k] == dissolve(welded[k], config.limitDissolveAngle)
        invariant forall k :: i <= k < |result| ==> result[k] == welded[k]
      {
        result := result[i := dissolve(result[i], config.limitDissolveAngle)];
        i := i + 1;
      }
    }
    ghost var dissolved := result;
    if plan.decimate {
      var i := 0;
      while i < |result|
        invariant 0 <= i <= |result| == |dissolved|
        invariant forall k :: 0 <= k < i ==>
          result[k] == ApplyDecimate(dissolved[k], config.decimateRatio, config.decimateType, modifier)
        invariant forall k :: i <= k < |result| ==> result[k] == dissolved[k]
      {
        result := result[i := ApplyDecimate(result[i], config.decimateRatio, config.decimateType, modifier)];
        i := i + 1;
      }
    }
  }

  /** With a non-positive merge distance and dissolve angle and a ratio of at
      least 1, every mesh leaves the simplification phase unchanged, whatever
      the host operators do. */
  lemma NeutralSettingsKeepMesh<M>(mesh: M, config: Config, weld: (M, real) -> M, dissolve: (M, real) -> M,
                                   modifier: (M, DecimateSetting) -> M)
    requires config.mergeDistance <= 0.0 && config.limitDissolveAngle <= 0.0 && config.decimateRatio >= 1.0
    ensures RunStages(mesh, config, weld, dissolve, modifier) == mesh
  {
  }

  /** A stage whose gate is closed never touches the mesh: with a non-positive
      merge distance the weld operator, with a non-positive angle the dissolve
      operator and with a ratio of at least 1 the Decimate modifier could be
      anything at all without changing the result. */
  lemma ClosedGatesIgnoreOperators<M>(mesh: M, config: Config,
                                      weld: (M, real) -> M, dissolve: (M, real) -> M, modifier: (M, DecimateSetting) -> M,
                                      weld': (M, real) -> M, dissolve': (M, real) -> M, modifier': (M, DecimateSetting) -> M)
    ensures config.mergeDistance <= 0.0 ==>
      RunStages(mesh, config, weld, dissolve, modifier) == RunStages(mesh, config, weld', dissolve, modifier)
    ensures config.limitDissolveAngle <= 0.0 ==>
      RunStages(mesh, config, weld, dissolve, modifier) == RunStages(mesh, config, weld, dissolve', modifier)
    ensures config.decimateRatio >= 1.0 ==>
      RunStages(mesh, config, weld, dissolve, modifier) == RunStages(mesh, config, weld, dissolve, modifier')
  {
  }

  /** An open gate does apply its operator: with mesh conversion on and only
      welding enabled, the result is exactly the welded mesh. */
  lemma OpenWeldGateWelds<M>(mesh: M, config: Config, weld: (M, real) -> M, dissolve: (M, real) -> M,
                             modifier: (M, DecimateSetting) -> M)
    requires config.convertToMesh && config.mergeDistance > 0.0
    requires config.limitDissolveAngle <= 0.0 && config.decimateRatio >= 1.0
    ensures RunStages(mesh, config, weld, dissolve, modifier) == weld(mesh, config.mergeDistance)
  {
  }

  /** With mesh conversion on and only limited dissolve enabled, the result is
      exactly the dissolved mesh at the configured angle. */
  lemma OpenDissolveGateDissolves<M>(mesh: M, config: Config, weld: (M, real) -> M, dissolve: (M, real) -> M,
                                     modifier: (M, DecimateSetting) -> M)
    requires config.convertToMesh && config.limitDissolveAngle > 0.0
    requires config.mergeDistance <= 0.0 && config.decimateRatio >= 1.0
    ensures RunStages(mesh, config, weld, dissolve, modifier) == dissolve(mesh, config.limitDissolveAngle)
  {
  }

  /** With mesh conversion on and only decimation enabled, the result is
      exactly what `apply_decimate` makes of the mesh, which for a ratio below 1
      is the host modifier with the setting of the decimate type. */
  lemma OpenDecimateGateDecimates<M>(mesh: M, config: Config, weld: (M, real) -> M, dissolve: (M, real) -> M,
                                     modifier: (M, DecimateSetting) -> M)
    requires config.convertToMesh && config.decimateRatio < 1.0
    requires config.mergeDistance <= 0.0 && config.limitDissolveAngle <= 0.0
    ensures RunStages(mesh, config, weld, dissolve, modifier) ==
            ApplyDecimate(mesh, config.decimateRatio, config.decimateType, modifier)
    ensures config.decimateType == Collapse ==>
            RunStages(mesh, config, weld, dissolve, modifier) == modifier(mesh, Ratio(config.decimateRatio))
  {
  }

  /** With every gate open the stages compose in the script's order: weld
      first, then limited dissolve on the welded mesh, then decimation. */
  lemma OpenGatesRunInOrder<M>(mesh: M, config: Config, weld: (M, real) -> M, dissolve: (M, real) -> M,
                               modifier: (M, DecimateSetting) -> M)
    requires config.convertToMesh && config.mergeDistance > 0.0
    requires config.limitDissolveAngle > 0.0 && config.decimateRatio < 1.0
    ensures RunStages(mesh, config, weld, dissolve, modifier) ==
            ApplyDecimate(dissolve(weld(mesh, config.mergeDistance), config.limitDissolveAngle),
                          config.decimateRatio, config.decimateType, modifier)
  {
  }

  /** The shipped settings run all three stages, decimating by ratio. */
  lemma DefaultsRunEveryStage()
    ensures PlanStages(Defaults) == StagePlan(true, true, true)
  {
  }

  /** The reduction percentage `(1 - after / before) * 100`, or 0 when there
      were no vertices before. */
  function Reduction(before: nat, after: nat): (r: real)
    ensures before == 0 ==> r == 0.0
    ensures before > 0 && after <= before ==> 0.0 <= r <= 100.0
    ensures before > 0 ==> (r == 0.0 <==> after == before)
    ensures before > 0 ==> (r == 100.0 <==> after == 0)
  {
    if before > 0 then (1.0 - (after as real) / (before as real)) * 100.0 else 0.0
  }

  /** The reduction determines the final count: `after = before * (1 - r / 100)`. */
  lemma ReductionRecoversAfter(before: nat, after: nat)
    requires before > 0
    ensures (before as real) * (1.0 - Reduction(before, after) / 100.0) == after as real
  {
  }

  /** Fewer vertices after means a larger reduction. */
  lemma ReductionMonotone(before: nat, after1: nat, after2: nat)
    requires before > 0 && after1 <= after2
    ensures Reduction(before, after1) >= Reduction(before, after2)
  {
    var b, x1, x2 := before as real, after1 as real, after2 as real;
    assert x2 / b - x1 / b == (x2 - x1) / b;
    assert (x2 - x1) / b >= 0.0;
  }
}
