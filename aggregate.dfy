/** The profile aggregator (compute_weighted_vs in backend.py): one pass over
    the layers, top to bottom, that clips each layer so that the running depth
    never passes the depth of influence, stops at the first layer that reaches
    it, and returns the depth-weighted harmonic mean
    Vs = sum(ti) / sum(ti / Vsi) together with a per-layer breakdown.

    The pass itself is the method ComputeWeightedVs; the functions before it
    describe the same result layer by index, and the method is proved equal
    to WeightedVs. */
module Aggregate {
  import opened Velocity

  /** The three ValueErrors the pass raises. */
  datatype Failure =
    | InvalidVelocity      // "Vsi must be greater than zero."
    | InsufficientDepth    // "Total thickness is less than depth of influence."
    | InvalidDenominator   // "Invalid denominator in Vs calculation."

  datatype Result<T> = Ok(value: T) | Err(error: Failure)

  /** One row of the breakdown: the layer's descriptive fields, its effective
      (clipped) thickness, its velocity and its travel-time term ti / Vsi. */
  datatype LayerResult = LayerResult(
    index: int,
    effectiveThickness: real,
    soil: SoilType,
    fines: Fines,
    n1: int,
    computedVsi: real,
    tiOverVsi: real)

  /** What the pass returns: the weighted velocity, the number of layers
      used, and the breakdown. */
  datatype Weighted = Weighted(weightedVs: real, layersUsed: nat, breakdown: seq<LayerResult>)

  /** The thickness a layer contributes when the layers above it already
      reach `cumulative`: the whole layer, unless that would pass `depth`,
      in which case exactly the depth that remains (negative when the
      running depth is already past `depth`). */
  function EffectiveThickness(cumulative: real, depth: real, thickness: real): (ti: real)
    ensures cumulative + ti <= depth
    ensures ti <= thickness
    ensures ti == thickness || cumulative + ti == depth
  {
    if cumulative + thickness > depth then depth - cumulative else thickness
  }

  /** The clip is the one value that is at most the layer, does not take the
      running depth past `depth`, and is the whole layer or exactly the
      remainder: the largest ti <= thickness within the depth. This holds
      also when the running depth is already past `depth`, where the clip
      is negative. */
  lemma EffectiveThicknessCharacterized(cumulative: real, depth: real, thickness: real, ti: real)
    ensures ti == EffectiveThickness(cumulative, depth, thickness)
            <==> && cumulative + ti <= depth
                 && ti <= thickness
                 && (ti == thickness || cumulative + ti == depth)
  {
  }

  /** The running depth after the first k layers have been clipped and added
      (velocities play no part in it). Once a layer has been added it never
      exceeds the depth of influence. */
  function CumulativeDepth(depth: real, layers: seq<Layer>, k: nat): (c: real)
    requires k <= |layers|
    ensures 0 < k ==> c <= depth
  {
    if k == 0 then 0.0
    else
      var before := CumulativeDepth(depth, layers, k - 1);
      before + EffectiveThickness(before, depth, layers[k - 1].thickness)
  }

  /** The number of layers the pass consumes, searching from layer k on: the
      first layer after which the running depth reaches the depth of
      influence, or all of them. */
  function ConsumedFrom(depth: real, layers: seq<Layer>, k: nat): (n: nat)
    requires k <= |layers|
    ensures k <= n <= |layers|
    ensures k < |layers| ==> k < n
    ensures k < n < |layers| ==> depth <= CumulativeDepth(depth, layers, n)
    ensures forall j :: k < j < n ==> CumulativeDepth(depth, layers, j) < depth
    decreases |layers| - k
  {
    if k == |layers| then k
    else if depth <= CumulativeDepth(depth, layers, k + 1) then k + 1
    else ConsumedFrom(depth, layers, k + 1)
  }

  function Consumed(depth: real, layers: seq<Layer>): nat {
    ConsumedFrom(depth, layers, 0)
  }

  /** The breakdown row of layer k. */
  function Row(depth: real, layers: seq<Layer>, k: nat, pow: PowerFn): LayerResult
    requires k < |layers| && LayerVsi(layers[k], pow) > 0.0
  {
    var layer := layers[k];
    var ti := EffectiveThickness(CumulativeDepth(depth, layers, k), depth, layer.thickness);
    var vsi := LayerVsi(layer, pow);
    LayerResult(layer.index, ti, layer.soil, layer.fines, layer.n1, vsi, ti / vsi)
  }

  /** The rows of the first n layers, in input order. */
  function Breakdown(depth: real, layers: seq<Layer>, n: nat, pow: PowerFn): (rows: seq<LayerResult>)
    requires n <= |layers|
    requires forall k :: 0 <= k < n ==> LayerVsi(layers[k], pow) > 0.0
    ensures |rows| == n
  {
    if n == 0 then [] else Breakdown(depth, layers, n - 1, pow) + [Row(depth, layers, n - 1, pow)]
  }

  /** Row k of the breakdown is the row of layer k. */
  lemma {:induction false} BreakdownRows(depth: real, layers: seq<Layer>, n: nat, pow: PowerFn)
    requires n <= |layers|
    requires forall k :: 0 <= k < n ==> LayerVsi(layers[k], pow) > 0.0
    ensures forall k :: 0 <= k < n ==> Breakdown(depth, layers, n, pow)[k] == Row(depth, layers, k, pow)
  {
    if n > 0 {
      BreakdownRows(depth, layers, n - 1, pow);
    }
  }

  /** Sum of the effective thicknesses of some rows (the numerator). */
  function TotalThickness(rows: seq<LayerResult>): real {
    if rows == [] then 0.0 else TotalThickness(rows[..|rows| - 1]) + rows[|rows| - 1].effectiveThickness
  }

  /** Sum of the travel-time terms ti / Vsi of some rows (the denominator). */
  function TotalSlowness(rows: seq<LayerResult>): real {
    if rows == [] then 0.0 else TotalSlowness(rows[..|rows| - 1]) + rows[|rows| - 1].tiOverVsi
  }

  /** Some layer the pass consumes has a velocity that is not positive. */
  predicate HasInvalidVelocity(layers: seq<Layer>, n: nat, pow: PowerFn)
    requires n <= |layers|
  {
    exists k :: 0 <= k < n && LayerVsi(layers[k], pow) <= 0.0
  }

  /** The outcome of the pass, in the order the source checks it: a
      non-positive velocity among the consumed layers first, then a profile
      that does not reach the depth of influence, then a zero denominator. */
  function WeightedVs(depth: real, layers: seq<Layer>, pow: PowerFn): Result<Weighted> {
    var n := Consumed(depth, layers);
    if HasInvalidVelocity(layers, n, pow) then Err(InvalidVelocity)
    else if CumulativeDepth(depth, layers, n) < depth then Err(InsufficientDepth)
    else
      var rows := Breakdown(depth, layers, n, pow);
      if TotalSlowness(rows) == 0.0 then Err(InvalidDenominator)
      else Ok(Weighted(TotalThickness(rows) / TotalSlowness(rows), n, rows))
  }

  /** The running depth is the sum of the effective thicknesses of the rows
      so far. */
  lemma {:induction false} BreakdownThickness(depth: real, layers: seq<Layer>, n: nat, pow: PowerFn)
    requires n <= |layers|
    requires forall k :: 0 <= k < n ==> LayerVsi(layers[k], pow) > 0.0
    ensures TotalThickness(Breakdown(depth, layers, n, pow)) == CumulativeDepth(depth, layers, n)
  {
    if n > 0 {
      var rows := Breakdown(depth, layers, n, pow);
      assert rows[..n - 1] == Breakdown(depth, layers, n - 1, pow);
      BreakdownThickness(depth, layers, n - 1, pow);
    }
  }

  /** One more consumed layer appends its row and adds its effective
      thickness and its ti / Vsi to the running sums. */
  lemma BreakdownStep(depth: real, layers: seq<Layer>, i: nat, pow: PowerFn)
    requires i < |layers|
    requires forall k :: 0 <= k <= i ==> LayerVsi(layers[k], pow) > 0.0
    ensures Breakdown(depth, layers, i + 1, pow) == Breakdown(depth, layers, i, pow) + [Row(depth, layers, i, pow)]
    ensures TotalSlowness(Breakdown(depth, layers, i + 1, pow))
         == TotalSlowness(Breakdown(depth, layers, i, pow)) + Row(depth, layers, i, pow).tiOverVsi
    ensures CumulativeDepth(depth, layers, i + 1)
         == CumulativeDepth(depth, layers, i) + Row(depth, layers, i, pow).effectiveThickness
  {
    var rows := Breakdown(depth, layers, i + 1, pow);
    assert rows[..i] == Breakdown(depth, layers, i, pow);
  }

  /** A non-positive velocity among the consumed layers decides the outcome. */
  lemma InvalidVelocityOutcome(depth: real, layers: seq<Layer>, i: nat, pow: PowerFn)
    requires i < Consumed(depth, layers) && LayerVsi(layers[i], pow) <= 0.0
    ensures WeightedVs(depth, layers, pow) == Err(InvalidVelocity)
  {
  }

  /** Once the pass has consumed its layers with every velocity positive,
      the outcome follows from its accumulators alone: too shallow is
      checked first, then a zero denominator, and otherwise Vs is the
      running depth over the sum of ti / Vsi. */
  lemma PassOutcome(depth: real, layers: seq<Layer>, pow: PowerFn,
                    breakdown: seq<LayerResult>, cumulative: real, numerator: real, denominator: real)
    requires |breakdown| == Consumed(depth, layers)
    requires forall k :: 0 <= k < |breakdown| ==> LayerVsi(layers[k], pow) > 0.0
    requires breakdown == Breakdown(depth, layers, |breakdown|, pow)
    requires cumulative == CumulativeDepth(depth, layers, |breakdown|)
    requires numerator == cumulative && denominator == TotalSlowness(breakdown)
    ensures cumulative < depth ==> WeightedVs(depth, layers, pow) == Err(InsufficientDepth)
    ensures depth <= cumulative && denominator == 0.0 ==> WeightedVs(depth, layers, pow) == Err(InvalidDenominator)
    ensures depth <= cumulative && denominator != 0.0
            ==> WeightedVs(depth, layers, pow) == Ok(Weighted(numerator / denominator, |breakdown|, breakdown))
  {
    BreakdownThickness(depth, layers, |breakdown|, pow);
  }

  /** After one more layer the search either stops there (the depth is
      reached) or goes on exactly as it would from the next layer. */
  lemma ConsumedStep(depth: real, layers: seq<Layer>, i: nat)
    requires i < |layers|
    ensures depth <= CumulativeDepth(depth, layers, i + 1) ==> ConsumedFrom(depth, layers, i) == i + 1
    ensures CumulativeDepth(depth, layers, i + 1) < depth ==> ConsumedFrom(depth, layers, i) == ConsumedFrom(depth, layers, i + 1)
  {
  }

  /** One iteration of the pass on layer i, in terms of the loop's own
      values: the clipped thickness ti and the velocity vsi of layer i give
      the next row, the next running depth and the next denominator, and
      decide whether the search stops here. */
  lemma PassStep(depth: real, layers: seq<Layer>, pow: PowerFn, i: nat, cumulative: real, ti: real, vsi: real)
    requires i < |layers|
    requires forall k :: 0 <= k < i ==> LayerVsi(layers[k], pow) > 0.0
    requires cumulative == CumulativeDepth(depth, layers, i)
    requires ti == EffectiveThickness(cumulative, depth, layers[i].thickness)
    requires vsi == LayerVsi(layers[i], pow) && 0.0 < vsi
    ensures forall k :: 0 <= k <= i ==> LayerVsi(layers[k], pow) > 0.0
    ensures var layer := layers[i];
            var row := LayerResult(layer.index, ti, layer.soil, layer.fines, layer.n1, vsi, ti / vsi);
            && Breakdown(depth, layers, i + 1, pow) == Breakdown(depth, layers, i, pow) + [row]
            && TotalSlowness(Breakdown(depth, layers, i + 1, pow)) == TotalSlowness(Breakdown(depth, layers, i, pow)) + ti / vsi
            && CumulativeDepth(depth, layers, i + 1) == cumulative + ti
    ensures depth <= cumulative + ti ==> ConsumedFrom(depth, layers, i) == i + 1
    ensures cumulative + ti < depth ==> ConsumedFrom(depth, layers, i) == ConsumedFrom(depth, layers, i + 1)
  {
    BreakdownStep(depth, layers, i, pow);
    ConsumedStep(depth, layers, i);
  }

  /** The single pass of compute_weighted_vs. */
  method ComputeWeightedVs(depth: real, layers: seq<Layer>, pow: PowerFn) returns (res: Result<Weighted>)
    ensures res == WeightedVs(depth, layers, pow)
  {
    var cumulative, numerator, denominator := 0.0, 0.0, 0.0;
    var breakdown: seq<LayerResult> := [];
    var i := 0;
    while i < |layers|
      invariant i <= |layers| && |breakdown| == i
      invariant ConsumedFrom(depth, layers, i) == Consumed(depth, layers)
      invariant forall k :: 0 <= k < i ==> LayerVsi(layers[k], pow) > 0.0
      invariant breakdown == Breakdown(depth, layers, i, pow)
      invariant numerator == cumulative == CumulativeDepth(depth, layers, i)
      invariant denominator == TotalSlowness(breakdown)
    {
      var layer := layers[i];
      var ti;
      if cumulative + layer.thickness > depth {
        ti := depth - cumulative;
      } else {
        ti := layer.thickness;
      }
      var vsi := LayerVsi(layer, pow);
      if vsi <= 0.0 {
        InvalidVelocityOutcome(depth, layers, i, pow);
        return Err(InvalidVelocity);
      }
      var tiOverVsi := ti / vsi;
      PassStep(depth, layers, pow, i, cumulative, ti, vsi);
      numerator := numerator + ti;
      denominator := denominator + tiOverVsi;
      cumulative := cumulative + ti;
      breakdown := breakdown + [LayerResult(layer.index, ti, layer.soil, layer.fines, layer.n1, vsi, tiOverVsi)];
      if cumulative >= depth {
        break;
      }
      i := i + 1;
    }
    PassOutcome(depth, layers, pow, breakdown, cumulative, numerator, denominator);
    if cumulative < depth {
      return Err(InsufficientDepth);
    }
    if denominator == 0.0 {
      return Err(InvalidDenominator);
    }
    res := Ok(Weighted(numerator / denominator, |breakdown|, breakdown));
  }
}
