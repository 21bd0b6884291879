# Site class determination: a verified model of the numeric engine

The repository determines the seismic site class of a layered soil profile
according to Table 4 of IS 1893:2025. The user enters a depth of influence
and, for each layer from the top down, its thickness, soil type, whether its
fines content is under 15%, its corrected blow count N1 and, where needed, a
measured shear-wave velocity. The engine in `backend.py` then

1. picks each layer's shear-wave velocity Vsi (`compute_layer_vsi`): the
   user's value for "Others" soil or when N1 < 10, otherwise the correlation
   Vsi = 80 * N1^e with e = 0.5 (dry sands with fines), 0.4 (saturated sands
   with fines) or 0.3 (any other sand, clays);
2. walks the layers top to bottom (`compute_weighted_vs`), clipping each
   layer so that the running depth never passes the depth of influence,
   recording one breakdown row per layer, stopping at the first layer that
   reaches the depth, and returns the depth-weighted harmonic mean
   Vs = sum(ti) / sum(ti / Vsi); it raises an error for a non-positive
   velocity, for a profile shallower than the depth and for a zero
   denominator;
3. maps Vs to a class A to E with closed-open bands (`determine_site_class`);
4. assembles the result record (`calculate_site_class`).

The Dafny model has one module per component, all using exact `real`
arithmetic:

- `Velocity` (velocity.dfy): the layer record, soil types, fines selector
  and `LayerVsi`. The fractional power N1^e cannot be computed exactly, so
  it is a parameter `pow`; the lemmas that need its value assume
  `IsTenthRootPower(pow)`, which says pow(n, e) is the positive real whose
  tenth power is n^(10e). That determines pow(n, e) uniquely, so these
  lemmas are about the real power itself.
- `Aggregate` (aggregate.dfy): the pass as an imperative method
  `ComputeWeightedVs`, with the same loop, accumulators, early `break` and
  error order as the source. It is proved equal to `WeightedVs`, a
  specification that describes the same outcome layer by index
  (`CumulativeDepth`, `Consumed`, `Breakdown`). The three `ValueError`s are
  the `Failure` cases of a `Result`.
- `ProfileFacts` (profile_facts.dfy): what the pass guarantees, proved about
  `WeightedVs`.
- `SiteClassTable` (classifier.dfy): `DetermineSiteClass`.
- `Engine` (engine.dfy): `CalculateSiteClass` and end-to-end lemmas.

Behaviour of `backend.py` worth noting, which the model follows:

- An empty layer list with a positive depth fails as `InsufficientDepth`:
  the running depth 0 is checked before the denominator. Only with a depth
  of 0 or less does an empty profile reach the zero-denominator error
  (`ProfileFacts.EmptyProfile`).
- The engine does not itself check that the depth is positive or that there
  is at least one layer; it runs the pass on whatever it is given.
- The report's Table 4 text says "Vs ≤ 180" for class E, but the code puts
  exactly 180 in class D. The model follows the code.
- Only the consumed layers are examined. A zero velocity below the layer
  that reaches the depth is never checked and does not stop the
  calculation (`ProfileFacts.UnconsumedZeroVelocityExample`).
- A negative depth of influence, which the input form rules out, clips
  the first layer to that negative depth and stops there, provided the
  depth is below the first layer's thickness. If that layer's velocity is
  positive, the result is that layer's own velocity
  (`ProfileFacts.NegativeDepthUsesFirstLayer`); otherwise the pass fails
  with the velocity error.
- The bounds of Vs by the layer velocities are proved for non-negative
  thicknesses and a non-negative depth
  (`ProfileFacts.WeightedVsWithinLayerVelocities`). Negative thicknesses,
  which the form also rules out, can make the denominator negative. The
  model accepts any input, as the code does.

## Model

| member | source | states |
|---|---|---|
| Velocity.CorrelationExponent | backend.py:16-24 | The exponent is 0.5 exactly for dry sands with fines "Yes", 0.4 exactly for saturated sands with fines "Yes", and 0.3 otherwise, including every clay |
| Velocity.LayerVsi | backend.py:1-14 | For "Others" soil or N1 < 10 the velocity is the user-supplied value |
| Velocity.UserVelocityIgnoresFines | backend.py:8-14 | For "Others" or N1 < 10 the velocity is the user's value whatever the fines selector says |
| Velocity.CorrelatedVelocityAtLeast80 | backend.py:17-29 | With the correlation in force (not "Others", N1 >= 10) the velocity 80 * N1^e is at least 80, so positive |
| Velocity.CorrelatedVelocityIncreasesWithN1 | backend.py:29 | The correlated velocity grows strictly with N1 |
| Velocity.FinesRaiseSandVelocity | backend.py:17-24 | Fines "Yes" strictly raise a sand's correlated velocity; for clays the fines value changes nothing |
| Velocity.DrySandExample | backend.py:17-18 | Dry sand, fines "Yes", N1 = 16 gives 80 * 16^0.5 = 320 |
| Velocity.TenthPowerOrder | backend.py:29 | Positive reals are ordered as their tenth powers, so N1^e is pinned down by its tenth power |
| Aggregate.EffectiveThickness | backend.py:51-55 | For any running depth, the effective thickness is never more than the layer, never takes the running depth past the depth of influence, and is either the whole layer or exactly the depth that remains |
| Aggregate.EffectiveThicknessCharacterized | backend.py:52-55 | Those three properties hold of the clipped thickness and of no other value |
| Aggregate.CumulativeDepth | backend.py:52-55 | Once a layer has been added, the running depth never exceeds the depth of influence |
| Aggregate.ConsumedFrom | backend.py:47-79 | The pass consumes at least one layer of a non-empty profile, stops at the first layer after which the running depth reaches the depth, and only runs off the end of the profile otherwise |
| Aggregate.Breakdown | backend.py:68-76 | One breakdown row per consumed layer |
| Aggregate.BreakdownRows | backend.py:47-76 | Row k of the breakdown is built from layer k, in input order |
| Aggregate.BreakdownThickness | backend.py:64-66 | The numerator, the running depth and the sum of the rows' effective thicknesses agree |
| Aggregate.BreakdownStep | backend.py:62-76 | Consuming one more layer appends its row and adds its ti and ti / Vsi to the sums |
| Aggregate.InvalidVelocityOutcome | backend.py:57-60 | A non-positive velocity on any consumed layer makes the pass fail with the velocity error |
| Aggregate.PassOutcome | backend.py:81-89 | Once every consumed velocity is positive, the outcome follows from the pass's accumulators: too shallow is checked first, then a zero denominator, and otherwise the result is the numerator (equal to the running depth) over sum(ti / Vsi) |
| Aggregate.PassStep | backend.py:51-79 | One iteration on layer i with its clipped thickness ti and positive velocity Vsi appends the row (ti, Vsi, ti / Vsi), adds ti to the running depth and ti / Vsi to the denominator, and ends the search exactly when the running depth reaches the depth |
| Aggregate.WeightedVs | backend.py:32-91 | The reference definition of the pass, layer by index: the velocity error if a consumed layer's velocity is not positive, then too shallow, then a zero denominator, else sum(ti) / sum(ti / Vsi) over the consumed rows; the loop is proved equal to it and the ProfileFacts lemmas are about it |
| Aggregate.ComputeWeightedVs | backend.py:32-91 | The single pass (loop, accumulators, break and raises) returns exactly the outcome `WeightedVs` specifies |
| ProfileFacts.ConsumedIsFirstReach | backend.py:78-79 | The number of layers consumed is the first n after which the running depth reaches the depth of influence |
| ProfileFacts.BreakdownPrefix | backend.py:68-76 | The rows for the first k layers are a prefix of the rows for the first n |
| ProfileFacts.SuccessCoversDepthExactly | backend.py:64-91 | On success at least one layer is used, layers_used equals the breakdown's length, the effective thicknesses sum to the depth exactly, and Vs = depth / sum(ti / Vsi) |
| ProfileFacts.BreakdownFollowsLayers | backend.py:49-76 | On success row k carries layer k's fields, its positive computed velocity, its thickness clipped against the rows above it, and ti / Vsi |
| ProfileFacts.StopsAtFirstLayerReachingDepth | backend.py:78-79 | On success every proper prefix of the breakdown falls short of the depth and the whole breakdown reaches it |
| ProfileFacts.LaterLayersNeverExamined | backend.py:78-79 | Once the depth is reached, replacing everything after the last consumed layer does not change the outcome, even layers with invalid velocities |
| ProfileFacts.CumulativeIsCappedSum | backend.py:52-55 | With non-negative thicknesses and a non-negative depth the running depth is the declared thickness so far, capped at the depth |
| ProfileFacts.ShallowProfileFails | backend.py:81-84 | With non-negative thicknesses, a profile whose declared thickness is below the depth consumes every layer and fails, with the velocity error if some velocity is not positive and as too shallow otherwise |
| ProfileFacts.DeepProfileSucceeds | app.py:150-151 | Positive depth, declared thickness at least the depth, non-negative thicknesses and positive velocities on the consumed layers guarantee success, whatever the velocities below |
| ProfileFacts.EmptyProfile | backend.py:81-87 | No layers: too shallow for a positive depth, zero denominator otherwise |
| ProfileFacts.SlownessBounds | backend.py:62-65 | Over well-formed rows (non-negative ti, positive Vsi, term ti / Vsi), lo * sum(ti / Vsi) <= sum(ti) <= hi * sum(ti / Vsi) when every velocity with positive thickness lies in [lo, hi] |
| ProfileFacts.HarmonicMeanBounds | backend.py:62-89 | The quotient of the sums over well-formed rows with a non-zero denominator is positive and lies within any bounds on the velocities of the rows with positive effective thickness |
| ProfileFacts.WeightedVsWithinLayerVelocities | backend.py:89 | With non-negative thicknesses and depth, a successful Vs is positive and lies within any bounds on the consumed layers' velocities, so between the smallest and the largest |
| ProfileFacts.WeightedVsMonotoneInVelocities | backend.py:47-89 | With the depth and the (non-negative) thicknesses fixed, raising the velocities of the consumed layers keeps the same layers consumed, keeps a successful pass successful, and never lowers Vs |
| ProfileFacts.HarmonicMeanMonotone | backend.py:62-89 | Well-formed rows (non-negative ti, positive Vsi, term ti / Vsi) with the same effective thicknesses and higher velocities have a non-zero denominator again and a harmonic mean at least as high |
| ProfileFacts.ConsumedSameThicknesses | backend.py:47-79 | The number of layers consumed depends on the thicknesses only, not on soil, N1 or velocity |
| ProfileFacts.NegativeDepthUsesFirstLayer | backend.py:52-60 | When the first layer's velocity is positive and the negative depth is below that layer's thickness, the pass clips the first layer to that depth and stops, so Vs is that layer's velocity |
| ProfileFacts.UnconsumedZeroVelocityExample | backend.py:57-60 | Depth 1 over 2 m at 200 and 1 m at 0 gives Vs = 200 from one layer; the zero velocity below is never checked |
| ProfileFacts.TruncationExample | backend.py:52-79 | Thicknesses 2, 2, 2 with depth 3 use two layers with effective thicknesses 2 and 1 |
| ProfileFacts.HarmonicMeanExample | backend.py:62-89 | 5 m at 200 and 5 m at 400 give Vs = 10 / (5/200 + 5/400) = 800/3 |
| SiteClassTable.DetermineSiteClass | backend.py:96-110 | Class A iff Vs >= 1500, B iff 760 <= Vs < 1500, C iff 360 <= Vs < 760, D iff 180 <= Vs < 360, E iff Vs < 180 |
| SiteClassTable.ClassMonotoneInVelocity | backend.py:101-110 | A larger velocity never gives a softer class |
| SiteClassTable.BoundaryExamples | backend.py:101-110 | 1500 is A, 760 is B, 759.999 is C, 180 is D, 179.999 is E |
| Engine.CalculateSiteClass | backend.py:113-127 | Succeeds exactly when the pass does and passes its failure on unchanged; on success the class is the class of the weighted velocity, layers_used is the breakdown length, and velocity, count and breakdown are those the pass computed |
| Engine.SingleOthersLayer | backend.py:9-10 | One "Others" layer with a positive velocity, at least as thick as a positive depth, gives Vs equal to that velocity, with one row clipped to the depth |
| Engine.ClassBetweenLayerClasses | backend.py:113-127 | For input that passes the form's checks, with the consumed layers' velocities in [lo, hi] and lo > 0, the calculation succeeds and its class lies between the classes of hi and lo |

## Left out

- The input form (app.py), its widgets and session state, and the
  spreadsheet report (report_generator.py, high.py) are presentation and
  I/O. They are not modelled. The form's one relevant check, declared
  thickness at least the depth, appears only as a hypothesis of
  `ProfileFacts.DeepProfileSucceeds` and `Engine.ClassBetweenLayerClasses`.
- Floating-point rounding and the `round(...)` used for display: the model
  computes in exact real arithmetic.
- The fractional power `N1 ** exponent` is not computed. It is the
  parameter `pow`, characterised by `IsTenthRootPower`.
- The fallback that returns the user's velocity for an unrecognised soil
  string cannot occur: soil type is an enumeration of the four values the
  form offers.
- Velocity.LayerVsi: its contract does not state the correlated value
  80 * N1^e. The lemmas beside it state that value's properties, since the
  power is a parameter.
- Python's dynamic typing: thickness, depth and velocity are reals, N1 is
  an integer, and fines is one of "Yes", "No" or the empty string the form
  sends for a disabled selector.
