/**
 The proportional-integral temperature step of `PITemperatureController`
 (citylearn/agents/rbc.py). The controller's only state is a map from an
 integral key (building index, device role) to an accumulated error; it is
 threaded explicitly through every step instead of living in a mutable
 dictionary.
 */
module PIController {
  import opened Base

  /** The four device roles the controller keeps an accumulator for. */
  datatype Role = Cool | Heat | CoHCool | CoHHeat

  /** Typed form of the source's integral key `f"{building_idx}_{device_type}"`. */
  datatype Key = Key(building: nat, role: Role)

  type Integrals = map<Key, real>

  /** The controller's configuration; the source defaults are kp = 0.2,
      ki = 0.005, temp_deadband = 0.5, integral_limit = 10.0,
      min_power = 0.0 and max_power = 1.0. */
  datatype Params = Params(
    kp: real,
    ki: real,
    deadband: real,
    integralLimit: real,
    minPower: real,
    maxPower: real)

  const DefaultParams := Params(0.2, 0.005, 0.5, 10.0, 0.0, 1.0)

  /** The result of one PI step: the action and the updated accumulators. */
  datatype Step = Step(action: real, integrals: Integrals)

  /** Accumulated error of `k`; an absent key reads as 0.0 (the lazy
      initialisation of the source). */
  function Get(integrals: Integrals, k: Key): real {
    if k in integrals then integrals[k] else 0.0
  }

  // ---------------------------------------------------------------------------
  // The string key of the source and why the typed key is faithful to it.

  function RoleName(role: Role): string {
    match role
    case Cool => "cooling"
    case Heat => "heating"
    case CoHCool => "cooling_or_heating_cool"
    case CoHHeat => "cooling_or_heating_heat"
  }

  function DigitChar(d: nat): char
    requires d < 10
  {
    "0123456789"[d]
  }

  predicate IsDigit(c: char) {
    '0' <= c <= '9'
  }

  /** Python's `str(n)` for a non-negative integer: decimal, no leading zeros. */
  function Decimal(n: nat): (r: string)
    ensures |r| >= 1
    ensures forall i :: 0 <= i < |r| ==> IsDigit(r[i])
    ensures n >= 10 <==> |r| >= 2
  {
    if n < 10 then [DigitChar(n)] else Decimal(n / 10) + [DigitChar(n % 10)]
  }

  lemma {:induction false} DecimalInjective(m: nat, n: nat)
    requires Decimal(m) == Decimal(n)
    ensures m == n
  {
    if m >= 10 && n >= 10 {
      var dm, dn := Decimal(m), Decimal(n);
      assert dm[..|dm| - 1] == Decimal(m / 10);
      assert dn[..|dn| - 1] == Decimal(n / 10);
      DecimalInjective(m / 10, n / 10);
      assert DigitChar(m % 10) == dm[|dm| - 1] == dn[|dn| - 1] == DigitChar(n % 10);
    } else {
      assert Decimal(m)[0] == Decimal(n)[0];
    }
  }

  /** The source's `_get_integral_key`: `f"{building_idx}_{device_type}"`. */
  function KeyString(k: Key): string {
    Decimal(k.building) + "_" + RoleName(k.role)
  }

  /** Distinct (building, role) pairs never share a string key, so a map
      keyed by `Key` holds exactly the accumulators the source's string-keyed
      dictionary holds. */
  lemma KeyStringInjective(k1: Key, k2: Key)
    requires KeyString(k1) == KeyString(k2)
    ensures k1 == k2
  {
    var d1, d2 := Decimal(k1.building), Decimal(k2.building);
    var s := KeyString(k1);
    UnderscoreAfterDigits(d1, RoleName(k1.role));
    UnderscoreAfterDigits(d2, RoleName(k2.role));
    assert d1 == s[..|d1|] == d2;
    DecimalInjective(k1.building, k2.building);
    var r1, r2 := RoleName(k1.role), RoleName(k2.role);
    assert r1 == s[|d1| + 1..] == r2;
    if k1.role != k2.role {
      RoleNamesDistinct(k1.role, k2.role);
    }
  }

  /** Position of the first `c` in `s` (`|s|` when there is none). */
  function IndexOf(s: string, c: char): (r: nat)
    ensures r <= |s|
  {
    if |s| == 0 then 0 else if s[0] == c then 0 else 1 + IndexOf(s[1..], c)
  }

  /** A digit string followed by `_` is split at its length. */
  lemma {:induction false} UnderscoreAfterDigits(d: string, rest: string)
    requires forall i :: 0 <= i < |d| ==> IsDigit(d[i])
    ensures IndexOf(d + "_" + rest, '_') == |d|
  {
    var s := d + "_" + rest;
    if |d| > 0 {
      assert s[0] == d[0];
      assert s[1..] == d[1..] + "_" + rest;
      UnderscoreAfterDigits(d[1..], rest);
    }
  }

  lemma RoleNamesDistinct(a: Role, b: Role)
    requires a != b
    ensures RoleName(a) != RoleName(b)
  {
    var x, y := RoleName(a), RoleName(b);
    if |x| == |y| {
      if {a, b} == {Cool, Heat} {
        assert x[0] != y[0];
      } else {
        assert x[19] != y[19];
      }
    }
  }

  /** `k` has the same presence and value in both maps. */
  predicate SameAt(before: Integrals, after: Integrals, k: Key) {
    (k in before <==> k in after) && (k in before ==> before[k] == after[k])
  }

  // ---------------------------------------------------------------------------
  // The PI step.

  predicate InDeadband(p: Params, error: real) {
    (if error < 0.0 then -error else error) <= p.deadband
  }

  /** Scaling of the combined PI signal `u` into the power band: a signal
      that does not ask for effort gives exactly 0.0; otherwise the signal is
      mapped affinely onto `[minPower, maxPower]` and clamped. */
  function PowerOutput(p: Params, u: real): (r: real)
    ensures u <= 0.0 ==> r == 0.0
    ensures u > 0.0 && p.minPower <= p.maxPower ==> p.minPower <= r <= p.maxPower
    ensures p.minPower >= 0.0 ==> r >= 0.0
  {
    if u > 0.0 then
      Clamp(p.minPower + u * (p.maxPower - p.minPower), p.minPower, p.maxPower)
    else
      0.0
  }

  /** Within the band the output is the affine image of the signal; a signal
      of 1.0 or more saturates at `maxPower`. */
  lemma PowerOutputBand(p: Params, u: real)
    requires p.minPower <= p.maxPower
    ensures u >= 1.0 ==> PowerOutput(p, u) == p.maxPower
    ensures 0.0 < u <= 1.0 ==> PowerOutput(p, u) == p.minPower + u * (p.maxPower - p.minPower)
  {
    AffineBounds(u, p.minPower, p.maxPower);
  }

  // Products are reasoned about only through the two lemmas below, each
  // stated on the very expressions the model multiplies.

  lemma MulNonNegative(x: real, y: real)
    requires x >= 0.0 && y >= 0.0
    ensures x * y >= 0.0
  {
  }

  /** Where the affine image `lo + u * (hi - lo)` lies relative to the band. */
  lemma AffineBounds(u: real, lo: real, hi: real)
    requires lo <= hi
    ensures u >= 1.0 ==> lo + u * (hi - lo) >= hi
    ensures 0.0 <= u <= 1.0 ==> lo <= lo + u * (hi - lo) <= hi
  {
    if u >= 1.0 {
      MulNonNegative(u - 1.0, hi - lo);
    } else if u >= 0.0 {
      MulNonNegative(1.0 - u, hi - lo);
      MulNonNegative(u, hi - lo);
    }
  }

  /** The affine image is monotone in `u`. */
  lemma AffineMonotone(u1: real, u2: real, lo: real, hi: real)
    requires lo <= hi && u1 <= u2
    ensures lo + u1 * (hi - lo) <= lo + u2 * (hi - lo)
  {
    MulNonNegative(u2 - u1, hi - lo);
  }

  /** The combined PI signal `kp * error + ki * accumulator`. */
  function Signal(p: Params, error: real, acc: real): real {
    p.kp * error + p.ki * acc
  }

  /** `_calculate_pi_action`: one controller step for `key` on `error`. */
  function PIStep(p: Params, error: real, key: Key, integrals: Integrals): (r: Step)
    // only the addressed accumulator changes, and it is present afterwards
    ensures key in r.integrals
    ensures forall k :: k != key ==> SameAt(integrals, r.integrals, k)
    // deadband: no effort, history discarded
    ensures InDeadband(p, error) ==> r.action == 0.0 && r.integrals[key] == 0.0
    // outside the deadband: accumulate the error with anti-windup
    ensures !InDeadband(p, error) ==>
      r.integrals[key] == Clamp(Get(integrals, key) + error, -p.integralLimit, p.integralLimit)
    ensures !InDeadband(p, error) ==>
      r.action == PowerOutput(p, Signal(p, error, r.integrals[key]))
  {
    if InDeadband(p, error) then
      Step(0.0, integrals[key := 0.0])
    else
      var acc := Clamp(Get(integrals, key) + error, -p.integralLimit, p.integralLimit);
      Step(PowerOutput(p, Signal(p, error, acc)), integrals[key := acc])
  }

  /** Anti-windup keeps the accumulator within the limit; the action is
      either exactly 0.0 or inside the power band. */
  lemma PIStepBounds(p: Params, error: real, key: Key, integrals: Integrals)
    ensures var r := PIStep(p, error, key, integrals);
      p.integralLimit >= 0.0 ==> -p.integralLimit <= r.integrals[key] <= p.integralLimit
    ensures var r := PIStep(p, error, key, integrals);
      p.minPower <= p.maxPower ==> r.action == 0.0 || p.minPower <= r.action <= p.maxPower
  {
  }

  /** `reset`: every accumulator is discarded. */
  function Reset(integrals: Integrals): (r: Integrals)
    ensures forall k :: k !in r && Get(r, k) == 0.0
  {
    map[]
  }

  // ---------------------------------------------------------------------------
  // Invariants of the accumulator map.

  /** Every accumulator lies within the anti-windup limit. */
  ghost predicate WithinLimit(integrals: Integrals, limit: real) {
    forall k :: k in integrals ==> -limit <= integrals[k] <= limit
  }

  lemma StepKeepsWithinLimit(p: Params, error: real, key: Key, integrals: Integrals)
    requires p.integralLimit >= 0.0
    requires WithinLimit(integrals, p.integralLimit)
    ensures WithinLimit(PIStep(p, error, key, integrals).integrals, p.integralLimit)
  {
    var r := PIStep(p, error, key, integrals).integrals;
    forall k | k in r ensures -p.integralLimit <= r[k] <= p.integralLimit {
      if k != key {
        assert SameAt(integrals, r, k);
      }
    }
  }

  /** `n` consecutive steps on the same key with the same error. */
  function Repeat(p: Params, error: real, key: Key, integrals: Integrals, n: nat): Step
  {
    if n == 0 then Step(0.0, integrals)
    else PIStep(p, error, key, Repeat(p, error, key, integrals, n - 1).integrals)
  }

  /** `n * e` as a repeated sum, so that the induction below stays linear. */
  function Sum(n: nat, e: real): real {
    if n == 0 then 0.0 else Sum(n - 1, e) + e
  }

  lemma {:induction false} SumIsProduct(n: nat, e: real)
    ensures Sum(n, e) == (n as real) * e
  {
    if n > 0 {
      SumIsProduct(n - 1, e);
      assert (n as real) * e == ((n - 1) as real) * e + e;
    }
  }

  lemma {:induction false} SumHasSignOf(n: nat, e: real)
    ensures e >= 0.0 ==> Sum(n, e) >= 0.0
    ensures e <= 0.0 ==> Sum(n, e) <= 0.0
  {
    if n > 0 {
      SumHasSignOf(n - 1, e);
    }
  }

  /** One more `error` added to a clamped partial sum is the clamped next
      partial sum. */
  lemma ClampStep(x: real, error: real, limit: real)
    requires limit >= 0.0
    requires (x >= 0.0 && error >= 0.0) || (x <= 0.0 && error <= 0.0)
    ensures Clamp(Clamp(x, -limit, limit) + error, -limit, limit) == Clamp(x + error, -limit, limit)
  {
  }

  lemma {:induction false} RepeatedSum(p: Params, error: real, key: Key, integrals: Integrals, n: nat)
    requires !InDeadband(p, error)
    requires p.integralLimit >= 0.0
    requires Get(integrals, key) == 0.0
    ensures Get(Repeat(p, error, key, integrals, n).integrals, key) ==
      Clamp(Sum(n, error), -p.integralLimit, p.integralLimit)
  {
    if n > 0 {
      var prev := Repeat(p, error, key, integrals, n - 1).integrals;
      RepeatedSum(p, error, key, integrals, n - 1);
      SumHasSignOf(n - 1, error);
      ClampStep(Sum(n - 1, error), error, p.integralLimit);
      assert Repeat(p, error, key, integrals, n) == PIStep(p, error, key, prev);
    }
  }

  /** Anti-windup in closed form: a sustained error outside the deadband,
      applied `n` times to a key starting at 0.0, leaves the accumulator at
      `clamp(n * error, -limit, limit)`. */
  lemma SustainedErrorAccumulates(p: Params, error: real, key: Key, integrals: Integrals, n: nat)
    requires !InDeadband(p, error)
    requires p.integralLimit >= 0.0
    requires Get(integrals, key) == 0.0
    ensures Get(Repeat(p, error, key, integrals, n).integrals, key) ==
      Clamp((n as real) * error, -p.integralLimit, p.integralLimit)
  {
    RepeatedSum(p, error, key, integrals, n);
    SumIsProduct(n, error);
  }

  lemma ClampMonotone(x: real, y: real, lo: real, hi: real)
    requires x <= y
    ensures Clamp(x, lo, hi) <= Clamp(y, lo, hi)
  {
  }

  /** With a positive sustained error the accumulator never decreases. */
  lemma {:induction false} SustainedErrorAccumulatorMonotone(p: Params, error: real, key: Key, integrals: Integrals, n: nat)
    requires !InDeadband(p, error) && error > 0.0
    requires p.integralLimit >= 0.0
    requires Get(integrals, key) == 0.0
    ensures Get(Repeat(p, error, key, integrals, n).integrals, key) <=
      Get(Repeat(p, error, key, integrals, n + 1).integrals, key)
  {
    RepeatedSum(p, error, key, integrals, n);
    RepeatedSum(p, error, key, integrals, n + 1);
    ClampMonotone(Sum(n, error), Sum(n + 1, error), -p.integralLimit, p.integralLimit);
  }

  /** A larger accumulator never yields a smaller action, when the gains
      and the power band are non-negative. */
  lemma PowerOutputMonotone(p: Params, u1: real, u2: real)
    requires 0.0 <= p.minPower <= p.maxPower
    requires u1 <= u2
    ensures PowerOutput(p, u1) <= PowerOutput(p, u2)
  {
    if u1 > 0.0 {
      PowerOutputMonotoneWhenActive(p, u1, u2);
    }
  }

  lemma PowerOutputMonotoneWhenActive(p: Params, u1: real, u2: real)
    requires p.minPower <= p.maxPower
    requires 0.0 < u1 <= u2
    ensures PowerOutput(p, u1) <= PowerOutput(p, u2)
  {
    ClampedAffineMonotone(u1, u2, p.minPower, p.maxPower);
  }

  lemma ClampedAffineMonotone(u1: real, u2: real, lo: real, hi: real)
    requires lo <= hi && u1 <= u2
    ensures Clamp(lo + u1 * (hi - lo), lo, hi) <= Clamp(lo + u2 * (hi - lo), lo, hi)
  {
    AffineMonotone(u1, u2, lo, hi);
    ClampMonotone(lo + u1 * (hi - lo), lo + u2 * (hi - lo), lo, hi);
  }

  lemma SignalMonotone(p: Params, error: real, a1: real, a2: real)
    requires p.ki >= 0.0 && a1 <= a2
    ensures Signal(p, error, a1) <= Signal(p, error, a2)
  {
    MulNonNegative(p.ki, a2 - a1);
  }

  /** Outside the deadband a step that leaves a larger accumulator never
      produces a smaller action. */
  lemma StepActionFollowsAccumulator(p: Params, error: real, key: Key, i1: Integrals, i2: Integrals)
    requires !InDeadband(p, error)
    requires p.ki >= 0.0 && 0.0 <= p.minPower <= p.maxPower
    requires PIStep(p, error, key, i1).integrals[key] <= PIStep(p, error, key, i2).integrals[key]
    ensures PIStep(p, error, key, i1).action <= PIStep(p, error, key, i2).action
  {
    var a1, a2 := PIStep(p, error, key, i1).integrals[key], PIStep(p, error, key, i2).integrals[key];
    var u1, u2 := Signal(p, error, a1), Signal(p, error, a2);
    SignalMonotone(p, error, a1, a2);
    PowerOutputMonotone(p, u1, u2);
    assert PIStep(p, error, key, i1).action == PowerOutput(p, u1);
    assert PIStep(p, error, key, i2).action == PowerOutput(p, u2);
  }

  /** The action under a sustained positive error is non-decreasing from
      one step to the next (it rises until the accumulator or the output
      saturates). */
  lemma SustainedErrorActionMonotone(p: Params, error: real, key: Key, integrals: Integrals, n: nat)
    requires !InDeadband(p, error) && error > 0.0
    requires p.integralLimit >= 0.0 && p.ki >= 0.0
    requires 0.0 <= p.minPower <= p.maxPower
    requires Get(integrals, key) == 0.0
    ensures n > 0 ==>
      Repeat(p, error, key, integrals, n).action <= Repeat(p, error, key, integrals, n + 1).action
  {
    if n > 0 {
      var before := Repeat(p, error, key, integrals, n - 1).integrals;
      var a := Repeat(p, error, key, integrals, n).integrals;
      assert Repeat(p, error, key, integrals, n) == PIStep(p, error, key, before);
      assert Repeat(p, error, key, integrals, n + 1) == PIStep(p, error, key, a);
      SustainedErrorAccumulatorMonotone(p, error, key, integrals, n);
      StepActionFollowsAccumulator(p, error, key, before, a);
    }
  }

  /** Worked instance with the default gains: an error of 2.0 on a fresh key
      gives 0.2 * 2.0 + 0.005 * 2.0 = 0.41. */
  lemma DefaultFirstStep(key: Key)
    ensures PIStep(DefaultParams, 2.0, key, map[]).action == 0.41
    ensures PIStep(DefaultParams, 2.0, key, map[]).integrals == map[key := 2.0]
  {
  }
}
