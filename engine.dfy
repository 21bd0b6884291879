/** The engine (calculate_site_class in backend.py): runs the aggregation
    pass, classifies its weighted velocity and assembles the result record.
    It adds no checks of its own; every failure of the pass is passed on. */
module Engine {
  import opened Velocity
  import opened Aggregate
  import opened SiteClassTable
  import ProfileFacts

  /** The record handed to the report: weighted velocity, site class,
      number of layers used, breakdown. */
  datatype SiteResult = SiteResult(
    weightedVs: real,
    siteClass: SiteClass,
    layersUsed: nat,
    breakdown: seq<LayerResult>)

  function CalculateSiteClass(depth: real, layers: seq<Layer>, pow: PowerFn): (r: Result<SiteResult>)
    ensures r.Ok? <==> WeightedVs(depth, layers, pow).Ok?
    ensures r.Err? ==> r.error == WeightedVs(depth, layers, pow).error
    ensures r.Ok? ==>
              && r.value.siteClass == DetermineSiteClass(r.value.weightedVs)
              && r.value.layersUsed == |r.value.breakdown|
              && Weighted(r.value.weightedVs, r.value.layersUsed, r.value.breakdown)
                 == WeightedVs(depth, layers, pow).value
  {
    match WeightedVs(depth, layers, pow)
    case Err(e) => Err(e)
    case Ok(w) => Ok(SiteResult(w.weightedVs, DetermineSiteClass(w.weightedVs), w.layersUsed, w.breakdown))
  }

  /** A single "Others" layer with a positive velocity, at least as thick
      as a positive depth of influence: the weighted velocity is exactly the
      user's velocity. (A zero velocity gives the velocity error instead.) */
  lemma {:induction false} SingleOthersLayer(depth: real, layer: Layer, pow: PowerFn)
    requires layer.soil == Others && 0.0 < layer.vsi && 0.0 < depth <= layer.thickness
    ensures CalculateSiteClass(depth, [layer], pow)
            == Ok(SiteResult(layer.vsi, DetermineSiteClass(layer.vsi), 1,
                    [LayerResult(layer.index, depth, Others, layer.fines, layer.n1, layer.vsi, depth / layer.vsi)]))
  {
    var layers := [layer];
    assert CumulativeDepth(depth, layers, 1) == depth;
    ProfileFacts.ConsumedIsFirstReach(depth, layers, 1);
    var row := LayerResult(layer.index, depth, Others, layer.fines, layer.n1, layer.vsi, depth / layer.vsi);
    assert Breakdown(depth, layers, 1, pow) == [row];
    assert [row][..0] == [];
    assert TotalThickness([row]) == depth;
    assert TotalSlowness([row]) == depth / layer.vsi;
    assert depth / (depth / layer.vsi) == layer.vsi;
  }

  /** A profile that passes the input form's checks (positive depth,
      declared thickness at least the depth, non-negative thicknesses) and
      whose consumed layers' velocities all lie in [lo, hi] with lo > 0 is
      classified, and its class lies between the classes of hi and of lo.
      Layers below the stopping point may have any velocity. */
  lemma {:induction false} ClassBetweenLayerClasses(depth: real, layers: seq<Layer>, pow: PowerFn, lo: real, hi: real)
    requires 0.0 < depth <= ProfileFacts.InputThickness(layers) && ProfileFacts.NonNegativeThicknesses(layers)
    requires 0.0 < lo
    requires forall k :: 0 <= k < Consumed(depth, layers) ==> lo <= LayerVsi(layers[k], pow) <= hi
    ensures var r := CalculateSiteClass(depth, layers, pow);
            && r.Ok?
            && lo <= r.value.weightedVs <= hi
            && Rank(DetermineSiteClass(hi)) <= Rank(r.value.siteClass) <= Rank(DetermineSiteClass(lo))
  {
    ProfileFacts.DeepProfileSucceeds(depth, layers, pow);
    ProfileFacts.BreakdownFollowsLayers(depth, layers, pow);
    ProfileFacts.SuccessCoversDepthExactly(depth, layers, pow);
    ProfileFacts.WeightedVsWithinLayerVelocities(depth, layers, pow, lo, hi);
    var vs := WeightedVs(depth, layers, pow).value.weightedVs;
    ClassMonotoneInVelocity(lo, vs);
    ClassMonotoneInVelocity(vs, hi);
  }
}
