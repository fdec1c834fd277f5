/**
 Reading the named features a controller consumes out of one agent's
 observation vector. Observation names and values are positionally aligned;
 the PI controller scans the whole vector and keeps the LAST value seen for
 each recognised feature, while the hour-of-use controller takes the FIRST
 `hour` (Python's `list.index`).
 */
module Observations {
  import opened Base

  const IndoorTemperature := "indoor_dry_bulb_temperature"
  const CoolingSetPoint := "indoor_dry_bulb_temperature_cooling_set_point"
  const HeatingSetPoint := "indoor_dry_bulb_temperature_heating_set_point"
  const Hour := "hour"

  /** Default set points used when the observation vector has none. */
  const DefaultCoolingSetPoint: real := 24.0
  const DefaultHeatingSetPoint: real := 20.0

  predicate IsRecognised(name: string) {
    name == IndoorTemperature || name == CoolingSetPoint || name == HeatingSetPoint || name == Hour
  }

  /** Every position whose name is read must have a value (the source indexes
      `o[i]` only for recognised names). */
  predicate Aligned(names: seq<string>, values: seq<real>) {
    forall i :: 0 <= i < |names| && IsRecognised(names[i]) ==> i < |values|
  }

  /** The value at the last position named `feature`, if any. */
  function LastValue(names: seq<string>, values: seq<real>, feature: string): (r: Option<real>)
    requires forall i :: 0 <= i < |names| && names[i] == feature ==> i < |values|
    ensures r.None? <==> feature !in names
    ensures r.Some? ==>
      exists i :: 0 <= i < |names| && names[i] == feature && i < |values| && values[i] == r.value && feature !in names[i + 1..]
    decreases |names|
  {
    if |names| == 0 then None
    else if names[|names| - 1] == feature then
      assert feature !in names[|names|..];
      Some(values[|names| - 1])
    else
      var r := LastValue(names[..|names| - 1], values, feature);
      assert names == names[..|names| - 1] + [names[|names| - 1]];
      if r.Some? then
        var i :| 0 <= i < |names| - 1 && names[i] == feature && i < |values| && values[i] == r.value && feature !in names[..|names| - 1][i + 1..];
        assert names[i + 1..] == names[..|names| - 1][i + 1..] + [names[|names| - 1]];
        r
      else
        r
  }

  /** The raw result of the scan: the last value seen for each feature. */
  datatype Readings = Readings(indoor: Option<real>, cooling: Option<real>, heating: Option<real>, hour: Option<real>)

  /** The scan of the source (`predict`, first loop) over a prefix: every
      recognised name overwrites its feature, so the last one wins. */
  function Scan(names: seq<string>, values: seq<real>): Readings
    requires Aligned(names, values)
    decreases |names|
  {
    if |names| == 0 then Readings(None, None, None, None)
    else
      var n := |names| - 1;
      var r := Scan(names[..n], values);
      if names[n] == IndoorTemperature then r.(indoor := Some(values[n]))
      else if names[n] == CoolingSetPoint then r.(cooling := Some(values[n]))
      else if names[n] == HeatingSetPoint then r.(heating := Some(values[n]))
      else if names[n] == Hour then r.(hour := Some(values[n]))
      else r
  }

  /** Each feature of the scan is the value at its last position. */
  lemma {:induction false} ScanIsLastValue(names: seq<string>, values: seq<real>)
    requires Aligned(names, values)
    ensures Scan(names, values) == Readings(
      LastValue(names, values, IndoorTemperature), LastValue(names, values, CoolingSetPoint),
      LastValue(names, values, HeatingSetPoint), LastValue(names, values, Hour))
    decreases |names|
  {
    if |names| > 0 {
      ScanIsLastValue(names[..|names| - 1], values);
    }
  }

  /** What the PI controller knows about one building at this step. */
  datatype Sensors = Sensors(
    indoor: Option<real>,
    coolingSetPoint: real,
    heatingSetPoint: real,
    hour: Option<real>)

  /** The scan with the default set points filled in. */
  function ReadSensors(names: seq<string>, values: seq<real>): Sensors
    requires Aligned(names, values)
  {
    var r := Scan(names, values);
    Sensors(r.indoor, r.cooling.GetOr(DefaultCoolingSetPoint), r.heating.GetOr(DefaultHeatingSetPoint), r.hour)
  }

  /** A feature is missing exactly when its name is absent; a set point
      that is present is the value at its last position. */
  lemma ReadSensorsSpec(names: seq<string>, values: seq<real>)
    requires Aligned(names, values)
    ensures var s := ReadSensors(names, values);
      && (s.indoor.None? <==> IndoorTemperature !in names)
      && (s.hour.None? <==> Hour !in names)
      && (CoolingSetPoint !in names ==> s.coolingSetPoint == DefaultCoolingSetPoint)
      && (HeatingSetPoint !in names ==> s.heatingSetPoint == DefaultHeatingSetPoint)
      && (CoolingSetPoint in names ==> s.coolingSetPoint == LastValue(names, values, CoolingSetPoint).value)
      && (HeatingSetPoint in names ==> s.heatingSetPoint == LastValue(names, values, HeatingSetPoint).value)
      && s.indoor == LastValue(names, values, IndoorTemperature)
      && s.hour == LastValue(names, values, Hour)
  {
    ScanIsLastValue(names, values);
  }

  /** The scan as the source writes it: one pass that overwrites a feature
      every time its name is met, then fills in the default set points. */
  method ScanSensors(names: seq<string>, values: seq<real>) returns (s: Sensors)
    requires Aligned(names, values)
    ensures s.indoor.None? <==> IndoorTemperature !in names
    ensures s.hour.None? <==> Hour !in names
    ensures CoolingSetPoint !in names ==> s.coolingSetPoint == DefaultCoolingSetPoint
    ensures HeatingSetPoint !in names ==> s.heatingSetPoint == DefaultHeatingSetPoint
    ensures s == ReadSensors(names, values)
  {
    var indoor, cooling, heating, hour: Option<real> := None, None, None, None;
    var i := 0;
    while i < |names|
      invariant 0 <= i <= |names|
      invariant Readings(indoor, cooling, heating, hour) == Scan(names[..i], values)
    {
      assert names[..i + 1][..i] == names[..i];
      if names[i] == IndoorTemperature {
        indoor := Some(values[i]);
      } else if names[i] == CoolingSetPoint {
        cooling := Some(values[i]);
      } else if names[i] == HeatingSetPoint {
        heating := Some(values[i]);
      } else if names[i] == Hour {
        hour := Some(values[i]);
      }
      i := i + 1;
    }
    assert names[..i] == names;
    s := Sensors(indoor, cooling.GetOr(DefaultCoolingSetPoint), heating.GetOr(DefaultHeatingSetPoint), hour);
    ReadSensorsSpec(names, values);
  }

  /** Python's `names.index(feature)`: the first position named `feature`. */
  function FirstIndex(names: seq<string>, feature: string): (r: nat)
    requires feature in names
    ensures r < |names| && names[r] == feature
    ensures feature !in names[..r]
  {
    if names[0] == feature then 0
    else
      assert names == [names[0]] + names[1..];
      var r := 1 + FirstIndex(names[1..], feature);
      assert names[..r] == [names[0]] + names[1..][..r - 1];
      r
  }
}
