/** The velocity estimator: the shear-wave velocity Vsi of one soil layer
    (compute_layer_vsi in backend.py). Either the velocity the user typed in,
    or the empirical correlation Vsi = 80 * N1^e with an exponent chosen by
    soil type and fines content. */
module Velocity {

  /** The four soil types the input form offers. */
  datatype SoilType = SaturatedSands | DrySands | Clays | Others

  /** The "fines < 15%" selector: "Yes", "No", or the empty string the form
      sends when the selector is disabled (Clays and Others). */
  datatype Fines = Yes | No | NotApplicable

  /** One layer of the profile, top to bottom; `index` is the 1-based layer
      number and `vsi` the velocity the user supplied (0 when the field was
      disabled). */
  datatype Layer = Layer(index: int, thickness: real, soil: SoilType, fines: Fines, n1: int, vsi: real)

  /** The three exponents of the correlation: 0.5, 0.4 and 0.3. */
  datatype Exponent = Half | TwoFifths | ThreeTenths

  function ExponentValue(e: Exponent): real {
    match e
    case Half => 0.5
    case TwoFifths => 0.4
    case ThreeTenths => 0.3
  }

  /** Ten times the exponent: N1^e is the positive tenth root of N1^Tenths(e). */
  function Tenths(e: Exponent): (k: nat)
    ensures k as real == 10.0 * ExponentValue(e)
    ensures 3 <= k <= 5
  {
    match e
    case Half => 5
    case TwoFifths => 4
    case ThreeTenths => 3
  }

  /** The fractional power N1^e. It cannot be computed in exact arithmetic, so
      every operation that needs it takes it as a parameter. */
  type PowerFn = (nat, Exponent) -> real

  /** x^k for a natural exponent. */
  function Power(x: real, k: nat): real {
    if k == 0 then 1.0 else x * Power(x, k - 1)
  }

  /** `pow` is the real power: pow(n, e) is the positive number whose tenth
      power is n^(10e). This pins pow(n, e) down uniquely (TenthPowerOrder). */
  ghost predicate IsTenthRootPower(pow: PowerFn) {
    forall n: nat, e: Exponent :: 0 < n ==> 0.0 < pow(n, e) && Power(pow(n, e), 10) == Power(n as real, Tenths(e))
  }

  /** The correlation exponent for a soil that is not "Others". */
  function CorrelationExponent(soil: SoilType, fines: Fines): (e: Exponent)
    requires soil != Others
    ensures e == Half <==> soil == DrySands && fines == Yes
    ensures e == TwoFifths <==> soil == SaturatedSands && fines == Yes
    ensures soil == Clays ==> e == ThreeTenths
  {
    match soil
    case DrySands => if fines == Yes then Half else ThreeTenths
    case SaturatedSands => if fines == Yes then TwoFifths else ThreeTenths
    case Clays => ThreeTenths
  }

  /** The velocity of one layer. The user's value is authoritative for
      "Others" and whenever N1 < 10 (the correlation is not valid there);
      otherwise 80 * N1^e (see CorrelatedVelocityAtLeast80). */
  function LayerVsi(layer: Layer, pow: PowerFn): (v: real)
    ensures layer.soil == Others || layer.n1 < 10 ==> v == layer.vsi
  {
    if layer.soil == Others then layer.vsi
    else if layer.n1 < 10 then layer.vsi
    else 80.0 * pow(layer.n1 as nat, CorrelationExponent(layer.soil, layer.fines))
  }

  // ---------------------------------------------------------------------
  // Facts about x^k used to reason about the tenth roots.

  lemma {:induction false} PowerPositive(x: real, k: nat)
    requires 0.0 < x
    ensures 0.0 < Power(x, k)
  {
    if k > 0 {
      PowerPositive(x, k - 1);
    }
  }

  lemma {:induction false} PowerStrictlyIncreasing(x: real, y: real, k: nat)
    requires 0.0 <= x < y && 0 < k
    ensures Power(x, k) < Power(y, k)
  {
    if k == 1 {
      assert Power(x, 0) == 1.0 && Power(y, 0) == 1.0;
    } else {
      PowerStrictlyIncreasing(x, y, k - 1);
      PowerNonNegative(x, k - 1);
      var px, py := Power(x, k - 1), Power(y, k - 1);
      assert x * px <= x * py;
      assert x * py < y * py;
    }
  }

  lemma {:induction false} PowerNonNegative(x: real, k: nat)
    requires 0.0 <= x
    ensures 0.0 <= Power(x, k)
  {
    if k > 0 {
      PowerNonNegative(x, k - 1);
    }
  }

  /** For a base above 1 a larger exponent gives a larger power. */
  lemma {:induction false} PowerGrowsWithExponent(x: real, j: nat, k: nat)
    requires 1.0 < x && j < k
    ensures Power(x, j) < Power(x, k)
  {
    if k != j + 1 {
      PowerGrowsWithExponent(x, j, k - 1);
    }
    PowerStep(x, k);
  }

  lemma {:induction false} PowerStep(x: real, k: nat)
    requires 1.0 < x && 0 < k
    ensures Power(x, k - 1) < Power(x, k)
  {
    PowerPositive(x, k - 1);
    var p := Power(x, k - 1);
    MulPositive(x - 1.0, p);
    calc {
      Power(x, k) - p;
      x * p - p;
      (x - 1.0) * p;
    }
  }

  lemma {:induction false} MulPositive(a: real, b: real)
    requires 0.0 < a && 0.0 < b
    ensures 0.0 < a * b
  {
  }

  /** Positive numbers are ordered as their tenth powers are. */
  lemma {:induction false} TenthPowerOrder(p: real, q: real)
    requires 0.0 < p && 0.0 < q
    ensures Power(p, 10) < Power(q, 10) ==> p < q
    ensures Power(p, 10) == Power(q, 10) ==> p == q
  {
    if q < p {
      PowerStrictlyIncreasing(q, p, 10);
    } else if p < q {
      PowerStrictlyIncreasing(p, q, 10);
    }
  }

  /** A genuine power is at least 1 on blow counts of 1 or more. */
  lemma {:induction false} TenthRootAtLeastOne(pow: PowerFn, n: nat, e: Exponent)
    requires IsTenthRootPower(pow) && 1 <= n
    ensures 1.0 <= pow(n, e)
  {
    var p := pow(n, e);
    if p < 1.0 {
      PowerStrictlyIncreasing(p, 1.0, 10);
      PowerOfOne(10);
      if n == 1 {
        PowerOfOne(Tenths(e));
      } else {
        PowerGrowsWithExponent(n as real, 0, Tenths(e));
      }
      assert false;
    }
  }

  lemma {:induction false} PowerOfOne(k: nat)
    ensures Power(1.0, k) == 1.0
  {
    if k > 0 {
      PowerOfOne(k - 1);
    }
  }

  // ---------------------------------------------------------------------
  // Properties of the estimator.

  /** The user-supplied velocity is taken unchanged for "Others" and below
      N1 = 10, whatever the fines selector says. */
  lemma {:induction false} UserVelocityIgnoresFines(layer: Layer, fines: Fines, pow: PowerFn)
    requires layer.soil == Others || layer.n1 < 10
    ensures LayerVsi(layer.(fines := fines), pow) == layer.vsi
  {
  }

  /** With the correlation in force the velocity is at least 80 m/s. */
  lemma {:induction false} CorrelatedVelocityAtLeast80(layer: Layer, pow: PowerFn)
    requires IsTenthRootPower(pow) && layer.soil != Others && 10 <= layer.n1
    ensures 80.0 <= LayerVsi(layer, pow)
  {
    TenthRootAtLeastOne(pow, layer.n1 as nat, CorrelationExponent(layer.soil, layer.fines));
  }

  /** The correlated velocity grows strictly with the blow count. */
  lemma {:induction false} CorrelatedVelocityIncreasesWithN1(layer: Layer, n1: int, pow: PowerFn)
    requires IsTenthRootPower(pow) && layer.soil != Others && 10 <= layer.n1 < n1
    ensures LayerVsi(layer, pow) < LayerVsi(layer.(n1 := n1), pow)
  {
    var e := CorrelationExponent(layer.soil, layer.fines);
    var p, q := pow(layer.n1 as nat, e), pow(n1 as nat, e);
    PowerStrictlyIncreasing(layer.n1 as real, n1 as real, Tenths(e));
    TenthPowerOrder(p, q);
  }

  /** Fines under 15% raise a sand's correlated velocity (N1 >= 10 > 1, so a
      larger exponent gives a larger power); for clays they change nothing. */
  lemma {:induction false} FinesRaiseSandVelocity(layer: Layer, pow: PowerFn)
    requires IsTenthRootPower(pow) && layer.soil != Others && 10 <= layer.n1
    ensures layer.soil == Clays ==> LayerVsi(layer.(fines := Yes), pow) == LayerVsi(layer.(fines := No), pow)
    ensures layer.soil != Clays ==> LayerVsi(layer.(fines := No), pow) < LayerVsi(layer.(fines := Yes), pow)
  {
    if layer.soil != Clays {
      var n := layer.n1 as nat;
      var eYes := CorrelationExponent(layer.soil, Yes);
      var p, q := pow(n, ThreeTenths), pow(n, eYes);
      PowerGrowsWithExponent(n as real, 3, Tenths(eYes));
      TenthPowerOrder(p, q);
    }
  }

  /** Dry sand with fines and N1 = 16: 80 * 16^0.5 = 320 m/s. */
  lemma {:induction false} DrySandExample(pow: PowerFn, index: int, thickness: real, vsi: real)
    requires IsTenthRootPower(pow)
    ensures LayerVsi(Layer(index, thickness, DrySands, Yes, 16, vsi), pow) == 320.0
  {
    var p := pow(16, Half);
    assert Power(p, 10) == Power(16.0, 5);
    assert Power(4.0, 10) == Power(16.0, 5) by {
      assert Power(4.0, 2) == 16.0;
      assert Power(16.0, 5) == 1048576.0;
      assert Power(4.0, 10) == 1048576.0;
    }
    TenthPowerOrder(p, 4.0);
  }
}
