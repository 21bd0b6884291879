/** What the aggregation pass (compute_weighted_vs in backend.py) guarantees:
    the breakdown follows the layers and stops at the first one that reaches
    the depth of influence, a successful pass covers exactly that depth,
    layers below the stopping point are never looked at, a profile shallower
    than the depth fails and a deep enough one with positive velocities
    succeeds, and the result is a weighted harmonic mean of the consumed
    velocities. */
module ProfileFacts {
  import opened Velocity
  import opened Aggregate

  /** The total declared thickness of a profile (what the input form sums
      before it lets the user calculate). */
  function InputThickness(layers: seq<Layer>): real {
    if layers == [] then 0.0 else InputThickness(layers[..|layers| - 1]) + layers[|layers| - 1].thickness
  }

  predicate NonNegativeThicknesses(layers: seq<Layer>) {
    forall k :: 0 <= k < |layers| ==> 0.0 <= layers[k].thickness
  }

  /** A breakdown row is consistent: non-negative thickness, positive
      velocity, and its travel-time term is their quotient. */
  predicate WellFormedRow(row: LayerResult) {
    0.0 <= row.effectiveThickness && 0.0 < row.computedVsi
    && row.tiOverVsi == row.effectiveThickness / row.computedVsi
  }

  // ---------------------------------------------------------------------
  // Prefixes of the breakdown.

  lemma {:induction false} BreakdownPrefix(depth: real, layers: seq<Layer>, k: nat, n: nat, pow: PowerFn)
    requires k <= n <= |layers|
    requires forall j :: 0 <= j < n ==> LayerVsi(layers[j], pow) > 0.0
    ensures Breakdown(depth, layers, n, pow)[..k] == Breakdown(depth, layers, k, pow)
  {
    if k < n {
      BreakdownPrefix(depth, layers, k, n - 1, pow);
      var rows := Breakdown(depth, layers, n, pow);
      assert rows[..n - 1] == Breakdown(depth, layers, n - 1, pow);
      assert rows[..k] == rows[..n - 1][..k];
    }
  }

  /** The pass consumes exactly n layers when the n-th is the first one
      after which the running depth reaches the depth of influence. */
  lemma {:induction false} ConsumedIsFirstReach(depth: real, layers: seq<Layer>, n: nat)
    requires 0 < n <= |layers|
    requires forall j :: 0 < j < n ==> CumulativeDepth(depth, layers, j) < depth
    requires depth <= CumulativeDepth(depth, layers, n)
    ensures Consumed(depth, layers) == n
  {
  }

  // ---------------------------------------------------------------------
  // Shape of a successful result.

  /** On success the effective thicknesses add up to the depth of influence
      exactly, at least one layer is used, and layers_used is the length of
      the breakdown. */
  lemma {:induction false} SuccessCoversDepthExactly(depth: real, layers: seq<Layer>, pow: PowerFn)
    requires WeightedVs(depth, layers, pow).Ok?
    ensures var w := WeightedVs(depth, layers, pow).value;
            && 1 <= w.layersUsed == |w.breakdown| <= |layers|
            && TotalThickness(w.breakdown) == depth
            && TotalSlowness(w.breakdown) != 0.0
            && w.weightedVs == depth / TotalSlowness(w.breakdown)
  {
    var n := Consumed(depth, layers);
    var rows := Breakdown(depth, layers, n, pow);
    assert Breakdown(depth, layers, 0, pow) == [];
    assert n != 0;
    BreakdownThickness(depth, layers, n, pow);
  }

  /** On success row k of the breakdown belongs to layer k, in input order:
      the layer's own fields, its velocity (positive), its thickness clipped
      against the rows above it, and ti / Vsi. */
  lemma {:induction false} BreakdownFollowsLayers(depth: real, layers: seq<Layer>, pow: PowerFn)
    requires WeightedVs(depth, layers, pow).Ok?
    ensures var rows := WeightedVs(depth, layers, pow).value.breakdown;
            forall k :: 0 <= k < |rows| ==>
              && rows[k].index == layers[k].index
              && rows[k].soil == layers[k].soil
              && rows[k].fines == layers[k].fines
              && rows[k].n1 == layers[k].n1
              && rows[k].computedVsi == LayerVsi(layers[k], pow) > 0.0
              && rows[k].effectiveThickness
                 == EffectiveThickness(TotalThickness(rows[..k]), depth, layers[k].thickness)
              && rows[k].tiOverVsi == rows[k].effectiveThickness / rows[k].computedVsi
  {
    var n := Consumed(depth, layers);
    var rows := Breakdown(depth, layers, n, pow);
    BreakdownRows(depth, layers, n, pow);
    forall k | 0 <= k < n
      ensures TotalThickness(rows[..k]) == CumulativeDepth(depth, layers, k)
    {
      BreakdownPrefix(depth, layers, k, n, pow);
      BreakdownThickness(depth, layers, k, pow);
    }
  }

  /** On success the breakdown ends at the first layer that reaches the
      depth of influence: every shorter prefix of it falls short. */
  lemma {:induction false} StopsAtFirstLayerReachingDepth(depth: real, layers: seq<Layer>, pow: PowerFn)
    requires WeightedVs(depth, layers, pow).Ok?
    ensures var rows := WeightedVs(depth, layers, pow).value.breakdown;
            && (forall k :: 0 < k < |rows| ==> TotalThickness(rows[..k]) < depth)
            && depth <= TotalThickness(rows)
  {
    var n := Consumed(depth, layers);
    var rows := Breakdown(depth, layers, n, pow);
    forall k | 0 < k < n
      ensures TotalThickness(rows[..k]) < depth
    {
      BreakdownPrefix(depth, layers, k, n, pow);
      BreakdownThickness(depth, layers, k, pow);
    }
    BreakdownThickness(depth, layers, n, pow);
  }

  // ---------------------------------------------------------------------
  // Layers below the stopping point.

  lemma {:induction false} CumulativeDepthOfPrefix(depth: real, a: seq<Layer>, b: seq<Layer>, k: nat)
    requires k <= |a| && k <= |b| && a[..k] == b[..k]
    ensures CumulativeDepth(depth, a, k) == CumulativeDepth(depth, b, k)
  {
    if k > 0 {
      assert a[..k - 1] == a[..k][..k - 1] && b[..k - 1] == b[..k][..k - 1];
      CumulativeDepthOfPrefix(depth, a, b, k - 1);
      assert a[k - 1] == a[..k][k - 1] == b[..k][k - 1] == b[k - 1];
    }
  }

  lemma {:induction false} BreakdownOfPrefix(depth: real, a: seq<Layer>, b: seq<Layer>, k: nat, pow: PowerFn)
    requires k <= |a| && k <= |b| && a[..k] == b[..k]
    requires forall j :: 0 <= j < k ==> LayerVsi(a[j], pow) > 0.0
    ensures forall j :: 0 <= j < k ==> LayerVsi(b[j], pow) > 0.0
    ensures Breakdown(depth, a, k, pow) == Breakdown(depth, b, k, pow)
  {
    assert forall j :: 0 <= j < k ==> a[j] == a[..k][j] == b[..k][j] == b[j];
    if k > 0 {
      assert a[..k - 1] == a[..k][..k - 1] && b[..k - 1] == b[..k][..k - 1];
      BreakdownOfPrefix(depth, a, b, k - 1, pow);
      CumulativeDepthOfPrefix(depth, a, b, k - 1);
    }
  }

  /** Once the pass has reached the depth of influence, whatever follows
      the last consumed layer (more layers, layers with invalid velocities,
      nothing at all) does not change the outcome. */
  lemma {:induction false} LaterLayersNeverExamined(depth: real, layers: seq<Layer>, tail: seq<Layer>, pow: PowerFn)
    requires layers != []
    requires depth <= CumulativeDepth(depth, layers, Consumed(depth, layers))
    ensures var n := Consumed(depth, layers);
            WeightedVs(depth, layers[..n] + tail, pow) == WeightedVs(depth, layers, pow)
  {
    var n := Consumed(depth, layers);
    var other := layers[..n] + tail;
    assert other[..n] == layers[..n];
    forall j | 0 < j <= n
      ensures CumulativeDepth(depth, other, j) == CumulativeDepth(depth, layers, j)
    {
      assert other[..j] == layers[..j];
      CumulativeDepthOfPrefix(depth, other, layers, j);
    }
    ConsumedIsFirstReach(depth, other, n);
    assert forall j :: 0 <= j < n ==> other[j] == layers[j];
    if !HasInvalidVelocity(layers, n, pow) {
      BreakdownOfPrefix(depth, layers, other, n, pow);
    }
  }

  // ---------------------------------------------------------------------
  // Shallow and deep profiles.

  lemma {:induction false} InputThicknessPrefix(layers: seq<Layer>, k: nat)
    requires k < |layers|
    ensures InputThickness(layers[..k + 1]) == InputThickness(layers[..k]) + layers[k].thickness
  {
    assert layers[..k + 1][..k] == layers[..k];
  }

  /** With non-negative thicknesses and depth, the running depth is the
      declared thickness so far, capped at the depth of influence. */
  lemma {:induction false} CumulativeIsCappedSum(depth: real, layers: seq<Layer>, k: nat)
    requires 0.0 <= depth && NonNegativeThicknesses(layers) && k <= |layers|
    ensures var sum := InputThickness(layers[..k]);
            CumulativeDepth(depth, layers, k) == if sum < depth then sum else depth
  {
    if k > 0 {
      CumulativeIsCappedSum(depth, layers, k - 1);
      InputThicknessPrefix(layers, k - 1);
    } else {
      assert layers[..0] == [];
    }
  }

  lemma {:induction false} InputThicknessGrows(layers: seq<Layer>, k: nat)
    requires NonNegativeThicknesses(layers) && k <= |layers|
    ensures InputThickness(layers[..k]) <= InputThickness(layers)
    decreases |layers| - k
  {
    if k < |layers| {
      InputThicknessGrows(layers, k + 1);
      InputThicknessPrefix(layers, k);
    } else {
      assert layers[..k] == layers;
    }
  }

  /** A profile whose declared thicknesses add up to less than the depth of
      influence fails: with a non-positive velocity somewhere if there is
      one (every layer is consumed), and as too shallow otherwise. */
  lemma {:induction false} ShallowProfileFails(depth: real, layers: seq<Layer>, pow: PowerFn)
    requires NonNegativeThicknesses(layers) && InputThickness(layers) < depth
    ensures Consumed(depth, layers) == |layers|
    ensures WeightedVs(depth, layers, pow)
            == Err(if HasInvalidVelocity(layers, |layers|, pow) then InvalidVelocity else InsufficientDepth)
  {
    InputThicknessGrows(layers, 0);
    assert layers[..0] == [];
    forall k | 0 <= k <= |layers|
      ensures CumulativeDepth(depth, layers, k) < depth
    {
      InputThicknessGrows(layers, k);
      CumulativeIsCappedSum(depth, layers, k);
    }
  }

  lemma {:induction false} RowsWellFormed(depth: real, layers: seq<Layer>, n: nat, pow: PowerFn)
    requires 0.0 <= depth && NonNegativeThicknesses(layers) && n <= |layers|
    requires forall k :: 0 <= k < n ==> LayerVsi(layers[k], pow) > 0.0
    ensures forall k :: 0 <= k < n ==> WellFormedRow(Breakdown(depth, layers, n, pow)[k])
  {
    BreakdownRows(depth, layers, n, pow);
    forall k | 0 <= k < n
      ensures 0.0 <= Row(depth, layers, k, pow).effectiveThickness
    {
      var c := CumulativeDepth(depth, layers, k);
      assert c <= depth;
    }
  }

  lemma {:induction false} SlownessNonNegative(rows: seq<LayerResult>)
    requires forall k :: 0 <= k < |rows| ==> WellFormedRow(rows[k])
    ensures 0.0 <= TotalSlowness(rows)
    ensures 0.0 < TotalThickness(rows) ==> 0.0 < TotalSlowness(rows)
  {
    if rows != [] {
      var last := rows[|rows| - 1];
      SlownessNonNegative(rows[..|rows| - 1]);
      assert WellFormedRow(last);
      if 0.0 < last.effectiveThickness {
        assert 0.0 < last.tiOverVsi;
      }
    }
  }

  /** The input form's own check (positive depth, declared thickness at
      least the depth) together with positive velocities on the layers the
      pass consumes guarantees success; the layers below are never looked
      at. */
  lemma {:induction false} DeepProfileSucceeds(depth: real, layers: seq<Layer>, pow: PowerFn)
    requires 0.0 < depth <= InputThickness(layers) && NonNegativeThicknesses(layers)
    requires forall k :: 0 <= k < Consumed(depth, layers) ==> LayerVsi(layers[k], pow) > 0.0
    ensures WeightedVs(depth, layers, pow).Ok?
  {
    var n := Consumed(depth, layers);
    assert layers != [];
    CumulativeIsCappedSum(depth, layers, |layers|);
    assert layers[..|layers|] == layers;
    assert depth <= CumulativeDepth(depth, layers, n);
    var rows := Breakdown(depth, layers, n, pow);
    RowsWellFormed(depth, layers, n, pow);
    BreakdownThickness(depth, layers, n, pow);
    SlownessNonNegative(rows);
  }

  /** Without layers the pass never starts: the result is "too shallow" for
      a positive depth and a zero denominator otherwise. */
  lemma {:induction false} EmptyProfile(depth: real, pow: PowerFn)
    ensures WeightedVs(depth, [], pow) == Err(if 0.0 < depth then InsufficientDepth else InvalidDenominator)
  {
    assert Breakdown(depth, [], 0, pow) == [];
  }

  // ---------------------------------------------------------------------
  // The weighted harmonic mean.

  lemma {:induction false} SlownessBounds(rows: seq<LayerResult>, lo: real, hi: real)
    requires forall k :: 0 <= k < |rows| ==> WellFormedRow(rows[k])
    requires forall k :: 0 <= k < |rows| && 0.0 < rows[k].effectiveThickness ==> lo <= rows[k].computedVsi <= hi
    ensures lo * TotalSlowness(rows) <= TotalThickness(rows) <= hi * TotalSlowness(rows)
  {
    if rows != [] {
      var init, last := rows[..|rows| - 1], rows[|rows| - 1];
      assert lo * TotalSlowness(init) <= TotalThickness(init) <= hi * TotalSlowness(init) by {
        SlownessBounds(init, lo, hi);
      }
      assert lo * last.tiOverVsi <= last.effectiveThickness <= hi * last.tiOverVsi by {
        RowBounds(last, lo, hi);
      }
      SumBounds(TotalSlowness(init), TotalThickness(init), last.tiOverVsi, last.effectiveThickness,
                TotalSlowness(rows), TotalThickness(rows), lo, hi);
    }
  }

  /** Bounds of the form lo * s <= t <= hi * s add up. */
  lemma {:induction false} SumBounds(s1: real, t1: real, s2: real, t2: real, s: real, t: real, lo: real, hi: real)
    requires lo * s1 <= t1 <= hi * s1 && lo * s2 <= t2 <= hi * s2
    requires s == s1 + s2 && t == t1 + t2
    ensures lo * s <= t <= hi * s
  {
  }

  /** One well-formed row obeys the bounds on its own. */
  lemma {:induction false} RowBounds(row: LayerResult, lo: real, hi: real)
    requires WellFormedRow(row)
    requires 0.0 < row.effectiveThickness ==> lo <= row.computedVsi <= hi
    ensures lo * row.tiOverVsi <= row.effectiveThickness <= hi * row.tiOverVsi
  {
    if 0.0 < row.effectiveThickness {
      TermBounds(row.effectiveThickness, row.computedVsi, lo, hi);
    } else {
      assert row.effectiveThickness == 0.0;
      assert row.tiOverVsi == 0.0;
    }
  }

  /** lo * t / v <= t <= hi * t / v for a term with lo <= v <= hi. */
  lemma {:induction false} TermBounds(t: real, v: real, lo: real, hi: real)
    requires 0.0 < t && 0.0 < v && lo <= v <= hi
    ensures lo * (t / v) <= t <= hi * (t / v)
  {
    assert t == v * (t / v);
    assert 0.0 < t / v;
  }

  /** With non-negative thicknesses and depth, a successful weighted
      velocity is positive and lies within any bounds that hold for the
      velocities of the consumed layers with positive effective thickness;
      in particular between the smallest and the largest of them. */
  lemma {:induction false} WeightedVsWithinLayerVelocities(depth: real, layers: seq<Layer>, pow: PowerFn, lo: real, hi: real)
    requires 0.0 <= depth && NonNegativeThicknesses(layers)
    requires WeightedVs(depth, layers, pow).Ok?
    requires var rows := WeightedVs(depth, layers, pow).value.breakdown;
             forall k :: 0 <= k < |rows| && 0.0 < rows[k].effectiveThickness ==> lo <= rows[k].computedVsi <= hi
    ensures var vs := WeightedVs(depth, layers, pow).value.weightedVs;
            0.0 < vs && lo <= vs <= hi
  {
    var n := Consumed(depth, layers);
    var rows := Breakdown(depth, layers, n, pow);
    SuccessCoversDepthExactly(depth, layers, pow);
    RowsWellFormed(depth, layers, n, pow);
    HarmonicMeanBounds(rows, lo, hi);
  }

  /** The harmonic mean of well-formed rows with a non-zero denominator is
      positive and lies within any bounds on the velocities of the rows with
      positive effective thickness. */
  lemma {:induction false} HarmonicMeanBounds(rows: seq<LayerResult>, lo: real, hi: real)
    requires forall k :: 0 <= k < |rows| ==> WellFormedRow(rows[k])
    requires forall k :: 0 <= k < |rows| && 0.0 < rows[k].effectiveThickness ==> lo <= rows[k].computedVsi <= hi
    requires TotalSlowness(rows) != 0.0
    ensures 0.0 < TotalThickness(rows) / TotalSlowness(rows)
    ensures lo <= TotalThickness(rows) / TotalSlowness(rows) <= hi
  {
    var t, s := TotalThickness(rows), TotalSlowness(rows);
    assert 0.0 < s by {
      SlownessNonNegative(rows);
    }
    assert 0.0 < t by {
      ThicknessNonNegative(rows);
      if t == 0.0 {
        ZeroThicknessZeroSlowness(rows);
      }
    }
    assert lo * s <= t <= hi * s by {
      SlownessBounds(rows, lo, hi);
    }
    QuotientBounds(t, s, lo, hi);
  }

  lemma {:induction false} ZeroThicknessZeroSlowness(rows: seq<LayerResult>)
    requires forall k :: 0 <= k < |rows| ==> WellFormedRow(rows[k])
    requires TotalThickness(rows) == 0.0
    ensures TotalSlowness(rows) == 0.0
  {
    if rows != [] {
      var init := rows[..|rows| - 1];
      SlownessNonNegative(init);
      ThicknessNonNegative(init);
      ZeroThicknessZeroSlowness(init);
    }
  }

  lemma {:induction false} ThicknessNonNegative(rows: seq<LayerResult>)
    requires forall k :: 0 <= k < |rows| ==> WellFormedRow(rows[k])
    ensures 0.0 <= TotalThickness(rows)
  {
    if rows != [] {
      ThicknessNonNegative(rows[..|rows| - 1]);
    }
  }

  /** lo * s <= t <= hi * s with s, t > 0 gives lo <= t / s <= hi. */
  lemma {:induction false} QuotientBounds(t: real, s: real, lo: real, hi: real)
    requires 0.0 < t && 0.0 < s && lo * s <= t <= hi * s
    ensures 0.0 < t / s && lo <= t / s <= hi
  {
    assert t == s * (t / s);
  }

  // ---------------------------------------------------------------------
  // Monotonicity in the layer velocities.

  /** Two profiles whose layers have the same thicknesses, layer by layer. */
  predicate SameThicknesses(a: seq<Layer>, b: seq<Layer>) {
    |a| == |b| && forall k :: 0 <= k < |a| ==> a[k].thickness == b[k].thickness
  }

  /** The running depth depends on the thicknesses only. */
  lemma {:induction false} CumulativeDepthSameThicknesses(depth: real, a: seq<Layer>, b: seq<Layer>, k: nat)
    requires SameThicknesses(a, b) && k <= |a|
    ensures CumulativeDepth(depth, a, k) == CumulativeDepth(depth, b, k)
  {
    if k > 0 {
      CumulativeDepthSameThicknesses(depth, a, b, k - 1);
    }
  }

  /** So does the number of layers the pass consumes. */
  lemma {:induction false} ConsumedSameThicknesses(depth: real, a: seq<Layer>, b: seq<Layer>, k: nat)
    requires SameThicknesses(a, b) && k <= |a|
    ensures ConsumedFrom(depth, a, k) == ConsumedFrom(depth, b, k)
    decreases |a| - k
  {
    if k < |a| {
      CumulativeDepthSameThicknesses(depth, a, b, k + 1);
      ConsumedSameThicknesses(depth, a, b, k + 1);
    }
  }

  /** Rows with the same non-negative thicknesses and higher velocities have
      a smaller total travel time. */
  lemma {:induction false} SlownessFallsWithVelocity(ra: seq<LayerResult>, rb: seq<LayerResult>)
    requires |ra| == |rb|
    requires forall k :: 0 <= k < |ra| ==> WellFormedRow(ra[k]) && WellFormedRow(rb[k])
    requires forall k :: 0 <= k < |ra| ==>
               ra[k].effectiveThickness == rb[k].effectiveThickness && ra[k].computedVsi <= rb[k].computedVsi
    ensures TotalSlowness(rb) <= TotalSlowness(ra)
  {
    if ra != [] {
      var n := |ra| - 1;
      assert TotalSlowness(rb[..n]) <= TotalSlowness(ra[..n]) by {
        SlownessFallsWithVelocity(ra[..n], rb[..n]);
      }
      assert rb[n].tiOverVsi <= ra[n].tiOverVsi by {
        assert WellFormedRow(ra[n]) && WellFormedRow(rb[n]);
        TermFallsWithVelocity(ra[n].effectiveThickness, ra[n].computedVsi, rb[n].computedVsi);
      }
    }
  }

  /** t / vb <= t / va for t >= 0 and 0 < va <= vb. */
  lemma {:induction false} TermFallsWithVelocity(t: real, va: real, vb: real)
    requires 0.0 <= t && 0.0 < va <= vb
    ensures t / vb <= t / va
  {
    assert t / vb * vb == t && t / va * va == t;
    assert t / va * va <= t / va * vb;
  }

  /** d / sa <= d / sb for d > 0 and 0 < sb <= sa. */
  lemma {:induction false} QuotientFalls(d: real, sa: real, sb: real)
    requires 0.0 < d && 0.0 < sb <= sa
    ensures d / sa <= d / sb
  {
    TermFallsWithVelocity(d, sb, sa);
  }

  /** Raising the velocities of the consumed layers, with the depth and the
      thicknesses unchanged, never lowers the weighted velocity: the same
      layers are consumed with the same effective thicknesses, the numerator
      stays the depth and only the denominator sum(ti / Vsi) falls. A
      successful profile stays successful. */
  lemma {:induction false} WeightedVsMonotoneInVelocities(depth: real, a: seq<Layer>, b: seq<Layer>, pow: PowerFn)
    requires NonNegativeThicknesses(a) && SameThicknesses(a, b)
    requires forall k :: 0 <= k < Consumed(depth, a) ==> LayerVsi(a[k], pow) <= LayerVsi(b[k], pow)
    requires WeightedVs(depth, a, pow).Ok?
    ensures Consumed(depth, b) == Consumed(depth, a)
    ensures WeightedVs(depth, b, pow).Ok?
    ensures WeightedVs(depth, a, pow).value.weightedVs <= WeightedVs(depth, b, pow).value.weightedVs
  {
    var n := Consumed(depth, a);
    ConsumedSameThicknesses(depth, a, b, 0);
    CumulativeDepthSameThicknesses(depth, a, b, n);
    assert forall k :: 0 <= k < n ==> 0.0 < LayerVsi(a[k], pow) <= LayerVsi(b[k], pow);
    if depth < 0.0 {
      assert a[0].thickness == b[0].thickness;
      NegativeDepthUsesFirstLayer(depth, a, pow);
      NegativeDepthUsesFirstLayer(depth, b, pow);
    } else {
      MonotoneNonNegativeDepth(depth, a, b, pow);
    }
  }

  lemma {:induction false} MonotoneNonNegativeDepth(depth: real, a: seq<Layer>, b: seq<Layer>, pow: PowerFn)
    requires 0.0 <= depth && NonNegativeThicknesses(a) && SameThicknesses(a, b)
    requires Consumed(depth, b) == Consumed(depth, a)
    requires CumulativeDepth(depth, b, Consumed(depth, a)) == CumulativeDepth(depth, a, Consumed(depth, a))
    requires forall k :: 0 <= k < Consumed(depth, a) ==> 0.0 < LayerVsi(a[k], pow) <= LayerVsi(b[k], pow)
    requires WeightedVs(depth, a, pow).Ok?
    ensures WeightedVs(depth, b, pow).Ok?
    ensures WeightedVs(depth, a, pow).value.weightedVs <= WeightedVs(depth, b, pow).value.weightedVs
  {
    var n := Consumed(depth, a);
    assert forall k :: 0 <= k < n ==> 0.0 < LayerVsi(b[k], pow);
    var ra, rb := Breakdown(depth, a, n, pow), Breakdown(depth, b, n, pow);
    CompareRows(depth, a, b, n, pow);
    HarmonicMeanMonotone(ra, rb);
  }

  /** Profiles with the same thicknesses have breakdowns with the same
      effective thicknesses, row by row; higher velocities stay higher. */
  lemma {:induction false} CompareRows(depth: real, a: seq<Layer>, b: seq<Layer>, n: nat, pow: PowerFn)
    requires 0.0 <= depth && NonNegativeThicknesses(a) && SameThicknesses(a, b) && n <= |a|
    requires forall k :: 0 <= k < n ==> 0.0 < LayerVsi(a[k], pow) <= LayerVsi(b[k], pow)
    ensures var ra, rb := Breakdown(depth, a, n, pow), Breakdown(depth, b, n, pow);
            && (forall k :: 0 <= k < n ==> WellFormedRow(ra[k]) && WellFormedRow(rb[k]))
            && (forall k :: 0 <= k < n ==>
                  ra[k].effectiveThickness == rb[k].effectiveThickness && ra[k].computedVsi <= rb[k].computedVsi)
            && TotalThickness(ra) == TotalThickness(rb)
  {
    RowsWellFormed(depth, a, n, pow);
    RowsWellFormed(depth, b, n, pow);
    RowsCorrespond(depth, a, b, n, pow);
    BreakdownThickness(depth, a, n, pow);
    BreakdownThickness(depth, b, n, pow);
    CumulativeDepthSameThicknesses(depth, a, b, n);
  }

  lemma {:induction false} RowsCorrespond(depth: real, a: seq<Layer>, b: seq<Layer>, n: nat, pow: PowerFn)
    requires SameThicknesses(a, b) && n <= |a|
    requires forall k :: 0 <= k < n ==> 0.0 < LayerVsi(a[k], pow) <= LayerVsi(b[k], pow)
    ensures var ra, rb := Breakdown(depth, a, n, pow), Breakdown(depth, b, n, pow);
            forall k :: 0 <= k < n ==>
              ra[k].effectiveThickness == rb[k].effectiveThickness && ra[k].computedVsi <= rb[k].computedVsi
  {
    BreakdownRows(depth, a, n, pow);
    BreakdownRows(depth, b, n, pow);
    forall k | 0 <= k < n
      ensures CumulativeDepth(depth, a, k) == CumulativeDepth(depth, b, k)
    {
      CumulativeDepthSameThicknesses(depth, a, b, k);
    }
  }

  /** The harmonic mean of rows with the same thicknesses and higher
      velocities is at least as high, and still defined. */
  lemma {:induction false} HarmonicMeanMonotone(ra: seq<LayerResult>, rb: seq<LayerResult>)
    requires |ra| == |rb|
    requires forall k :: 0 <= k < |ra| ==> WellFormedRow(ra[k]) && WellFormedRow(rb[k])
    requires forall k :: 0 <= k < |ra| ==>
               ra[k].effectiveThickness == rb[k].effectiveThickness && ra[k].computedVsi <= rb[k].computedVsi
    requires TotalThickness(ra) == TotalThickness(rb) && TotalSlowness(ra) != 0.0
    ensures TotalSlowness(rb) != 0.0
    ensures TotalThickness(ra) / TotalSlowness(ra) <= TotalThickness(rb) / TotalSlowness(rb)
  {
    var t, sa, sb := TotalThickness(ra), TotalSlowness(ra), TotalSlowness(rb);
    assert 0.0 < sa by {
      SlownessNonNegative(ra);
    }
    assert 0.0 < t by {
      ThicknessNonNegative(ra);
      if t == 0.0 {
        ZeroThicknessZeroSlowness(ra);
      }
    }
    assert 0.0 < sb by {
      SlownessNonNegative(rb);
    }
    assert sb <= sa by {
      SlownessFallsWithVelocity(ra, rb);
    }
    QuotientFalls(t, sa, sb);
  }

  /** A depth of influence below zero (the input form asks for at least 1 m)
      clips the first layer to that depth and stops there: the weighted
      velocity is the first layer's own velocity. */
  lemma {:induction false} NegativeDepthUsesFirstLayer(depth: real, layers: seq<Layer>, pow: PowerFn)
    requires depth < 0.0 && layers != [] && depth < layers[0].thickness && 0.0 < LayerVsi(layers[0], pow)
    ensures WeightedVs(depth, layers, pow)
            == Ok(Weighted(LayerVsi(layers[0], pow), 1, [Row(depth, layers, 0, pow)]))
  {
    assert CumulativeDepth(depth, layers, 1) == depth;
    ConsumedIsFirstReach(depth, layers, 1);
    var row := Row(depth, layers, 0, pow);
    var v := LayerVsi(layers[0], pow);
    assert row.effectiveThickness == depth && row.tiOverVsi == depth / v;
    assert Breakdown(depth, layers, 1, pow) == [row];
    assert [row][..0] == [];
    assert TotalThickness([row]) == depth;
    assert TotalSlowness([row]) == depth / v;
    assert depth / (depth / v) == v;
  }

  // ---------------------------------------------------------------------
  // Worked examples.

  function OthersLayer(index: int, thickness: real, vsi: real): Layer {
    Layer(index, thickness, Others, NotApplicable, 0, vsi)
  }

  /** Thicknesses 2, 2, 2 m with a depth of influence of 3 m: two layers are
      used, with effective thicknesses 2 and 1. */
  lemma {:induction false} TruncationExample(pow: PowerFn)
    ensures var layers := [OthersLayer(1, 2.0, 200.0), OthersLayer(2, 2.0, 200.0), OthersLayer(3, 2.0, 200.0)];
            var r := WeightedVs(3.0, layers, pow);
            && r.Ok? && r.value.layersUsed == 2
            && r.value.breakdown[0].effectiveThickness == 2.0
            && r.value.breakdown[1].effectiveThickness == 1.0
            && r.value.weightedVs == 200.0
  {
    var layers := [OthersLayer(1, 2.0, 200.0), OthersLayer(2, 2.0, 200.0), OthersLayer(3, 2.0, 200.0)];
    assert CumulativeDepth(3.0, layers, 1) == 2.0;
    assert CumulativeDepth(3.0, layers, 2) == 3.0;
    ConsumedIsFirstReach(3.0, layers, 2);
    var first := LayerResult(1, 2.0, Others, NotApplicable, 0, 200.0, 2.0 / 200.0);
    var second := LayerResult(2, 1.0, Others, NotApplicable, 0, 200.0, 1.0 / 200.0);
    assert Row(3.0, layers, 0, pow) == first;
    assert Row(3.0, layers, 1, pow) == second;
    var rows := Breakdown(3.0, layers, 2, pow);
    assert Breakdown(3.0, layers, 1, pow) == [first];
    assert rows == [first, second];
    Sums2(first, second);
  }

  /** 5 m at 200 m/s over 5 m at 400 m/s, depth 10 m:
      Vs = 10 / (5/200 + 5/400) = 800/3 m/s. */
  lemma {:induction false} HarmonicMeanExample(pow: PowerFn)
    ensures var layers := [OthersLayer(1, 5.0, 200.0), OthersLayer(2, 5.0, 400.0)];
            WeightedVs(10.0, layers, pow) == Ok(Weighted(800.0 / 3.0, 2, [
              LayerResult(1, 5.0, Others, NotApplicable, 0, 200.0, 5.0 / 200.0),
              LayerResult(2, 5.0, Others, NotApplicable, 0, 400.0, 5.0 / 400.0)]))
  {
    var layers := [OthersLayer(1, 5.0, 200.0), OthersLayer(2, 5.0, 400.0)];
    assert CumulativeDepth(10.0, layers, 1) == 5.0;
    assert CumulativeDepth(10.0, layers, 2) == 10.0;
    ConsumedIsFirstReach(10.0, layers, 2);
    var first := LayerResult(1, 5.0, Others, NotApplicable, 0, 200.0, 5.0 / 200.0);
    var second := LayerResult(2, 5.0, Others, NotApplicable, 0, 400.0, 5.0 / 400.0);
    assert Row(10.0, layers, 0, pow) == first;
    assert Row(10.0, layers, 1, pow) == second;
    assert Breakdown(10.0, layers, 1, pow) == [first];
    assert Breakdown(10.0, layers, 2, pow) == [first, second];
    Sums2(first, second);
  }

  /** Depth 1 m over 2 m at 200 m/s and 1 m at 0 m/s: the first layer
      reaches the depth, so the zero velocity below it is never checked. */
  lemma {:induction false} UnconsumedZeroVelocityExample(pow: PowerFn)
    ensures var layers := [OthersLayer(1, 2.0, 200.0), OthersLayer(2, 1.0, 0.0)];
            WeightedVs(1.0, layers, pow)
            == Ok(Weighted(200.0, 1, [LayerResult(1, 1.0, Others, NotApplicable, 0, 200.0, 1.0 / 200.0)]))
  {
    var layers := [OthersLayer(1, 2.0, 200.0), OthersLayer(2, 1.0, 0.0)];
    assert Consumed(1.0, layers) == 1 by {
      assert CumulativeDepth(1.0, layers, 1) == 1.0;
      ConsumedIsFirstReach(1.0, layers, 1);
    }
    assert !HasInvalidVelocity(layers, 1, pow) by {
      assert LayerVsi(layers[0], pow) == 200.0;
    }
    var row := LayerResult(1, 1.0, Others, NotApplicable, 0, 200.0, 1.0 / 200.0);
    assert Breakdown(1.0, layers, 1, pow) == [row] by {
      assert Row(1.0, layers, 0, pow) == row;
    }
    assert TotalThickness([row]) == 1.0 && TotalSlowness([row]) == 1.0 / 200.0 by {
      assert [row][..0] == [];
    }
  }

  lemma {:induction false} Sums2(a: LayerResult, b: LayerResult)
    ensures TotalThickness([a, b]) == a.effectiveThickness + b.effectiveThickness
    ensures TotalSlowness([a, b]) == a.tiOverVsi + b.tiOverVsi
  {
    assert [a, b][..1] == [a];
    assert [a][..0] == [];
    assert TotalThickness([a]) == a.effectiveThickness;
    assert TotalSlowness([a]) == a.tiOverVsi;
  }
}
