/**
 The schedule presets of citylearn/agents/rbc.py: the `action_map` setters
 of `BasicRBC`, `OptimizedRBC`, `BasicBatteryRBC` and
 `BasicElectricVehicleRBC_ReferenceController`. When no map is supplied,
 each distinct action name of every agent is matched against a list of
 name patterns, in source order, and gets the hour table of the first
 schedule that matches; a name matching none is a configuration error. The
 result goes through the `HourRBC` normaliser as a device-keyed map. A
 supplied map is handed to the normaliser unchanged.
 */
module Presets {
  import opened Base
  import opened Observations
  import opened ActionMap
  import opened HourRBC
  import PIPredict

  // ---------------------------------------------------------------------------
  // Schedules as band lists.

  /** `lo <= hour <= hi`, or `hour < bound`. */
  datatype Cond = Between(lo: int, hi: int) | Before(bound: int)

  predicate Holds(c: Cond, h: int) {
    match c
    case Between(lo, hi) => lo <= h <= hi
    case Before(bound) => h < bound
  }

  datatype Band = Band(when: Cond, value: real)

  /** An `if / elif / ... / else` chain over the hour: the first band whose
      condition holds gives the value, `otherwise` when none does. */
  datatype Schedule = Schedule(bands: seq<Band>, otherwise: real)

  function ValueAt(s: Schedule, h: int): (r: real)
    ensures r == s.otherwise || exists i :: 0 <= i < |s.bands| && r == s.bands[i].value
    decreases |s.bands|
  {
    if |s.bands| == 0 then s.otherwise
    else if Holds(s.bands[0].when, h) then s.bands[0].value
    else
      var r := ValueAt(Schedule(s.bands[1..], s.otherwise), h);
      assert forall i :: 1 <= i < |s.bands| ==> s.bands[i] == s.bands[1..][i - 1];
      r
  }

  /** First match: the value is that of the first band whose condition
      holds. */
  lemma {:induction false} ValueAtFirstMatch(s: Schedule, h: int, i: nat)
    requires i < |s.bands| && Holds(s.bands[i].when, h)
    requires forall j :: 0 <= j < i ==> !Holds(s.bands[j].when, h)
    ensures ValueAt(s, h) == s.bands[i].value
    decreases i
  {
    if i > 0 {
      var tail := Schedule(s.bands[1..], s.otherwise);
      assert forall j :: 0 <= j < i - 1 ==> tail.bands[j] == s.bands[j + 1];
      ValueAtFirstMatch(tail, h, i - 1);
    }
  }

  /** No band holds: the `else` value. */
  lemma {:induction false} ValueAtNoMatch(s: Schedule, h: int)
    requires forall j :: 0 <= j < |s.bands| ==> !Holds(s.bands[j].when, h)
    ensures ValueAt(s, h) == s.otherwise
    decreases |s.bands|
  {
    if |s.bands| > 0 {
      var tail := Schedule(s.bands[1..], s.otherwise);
      assert forall j :: 0 <= j < |tail.bands| ==> tail.bands[j] == s.bands[j + 1];
      ValueAtNoMatch(tail, h);
    }
  }

  predicate ScheduleWithin(s: Schedule, lo: real, hi: real) {
    && lo <= s.otherwise <= hi
    && forall i :: 0 <= i < |s.bands| ==> lo <= s.bands[i].value <= hi
  }

  // BasicRBC and the EV reference controller (also the PI controller's
  // built-in storage bands).
  const BasicStorage := Schedule([Band(Between(9, 21), -0.08), Band(Between(1, 8), 0.091), Band(Between(22, 24), 0.091)], 0.0)
  const BasicCooling := Schedule([Band(Between(9, 21), 0.8), Band(Between(1, 8), 0.4), Band(Between(22, 24), 0.4)], 0.0)
  const BasicHeating := Schedule([Band(Between(9, 21), 0.4), Band(Between(1, 8), 0.8), Band(Between(22, 24), 0.8)], 0.0)

  // Shared by all four presets.
  const CoolingOrHeatingSchedule := Schedule([Band(Before(7), 0.4), Band(Before(21), -0.4)], 0.8)

  // OptimizedRBC.
  const OptimizedStorage := Schedule([Band(Between(7, 15), -0.02), Band(Between(16, 18), -0.044), Band(Between(19, 22), -0.024),
                                      Band(Between(23, 24), 0.034), Band(Between(1, 6), 0.05532)], 0.0)
  const OptimizedCooling := Schedule([Band(Between(7, 15), 0.7), Band(Between(16, 18), 0.6), Band(Between(19, 22), 0.8),
                                      Band(Between(23, 24), 0.4), Band(Between(1, 6), 0.2)], 0.0)
  const OptimizedHeating := Schedule([Band(Between(7, 15), 0.3), Band(Between(16, 18), 0.4), Band(Between(19, 22), 0.6),
                                      Band(Between(23, 24), 0.7), Band(Between(1, 6), 0.8)], 0.0)

  // BasicBatteryRBC.
  const BatteryStorage := Schedule([Band(Between(6, 14), 0.11)], -0.067)
  const BatteryCooling := Schedule([Band(Between(6, 14), 0.7)], 0.3)
  const BatteryHeating := Schedule([Band(Between(6, 14), 0.3)], 0.7)

  // The EV reference controller.
  const ElectricVehicleSchedule := Schedule([Band(Before(7), 0.4), Band(Before(10), 1.0), Band(Before(15), -1.0), Band(Before(20), -0.6)], 0.8)
  const FullPower := Schedule([], 1.0)

  // ---------------------------------------------------------------------------
  // Presets as pattern lists.

  /** `text in name` or `name == text`. */
  datatype Pattern = Contains(text: string) | Equals(text: string)

  predicate Matches(p: Pattern, name: string) {
    match p
    case Contains(text) => IsInfix(text, name)
    case Equals(text) => name == text
  }

  datatype Entry = Entry(pattern: Pattern, schedule: Schedule)

  /** The `if / elif` chain over the action name; no match is the
      `ValueError` branch. */
  type Preset = seq<Entry>

  const BasicRBC: Preset := [
    Entry(Contains(PIPredict.StorageInfix), BasicStorage),
    Entry(Equals(PIPredict.CoolingDeviceName), BasicCooling),
    Entry(Equals(PIPredict.HeatingDeviceName), BasicHeating),
    Entry(Equals(PIPredict.CoolingOrHeatingDeviceName), CoolingOrHeatingSchedule)]

  const OptimizedRBC: Preset := [
    Entry(Contains(PIPredict.StorageInfix), OptimizedStorage),
    Entry(Equals(PIPredict.CoolingDeviceName), OptimizedCooling),
    Entry(Equals(PIPredict.HeatingDeviceName), OptimizedHeating),
    Entry(Equals(PIPredict.CoolingOrHeatingDeviceName), CoolingOrHeatingSchedule)]

  const BasicBatteryRBC: Preset := [
    Entry(Contains(PIPredict.StorageInfix), BatteryStorage),
    Entry(Equals(PIPredict.CoolingDeviceName), BatteryCooling),
    Entry(Equals(PIPredict.HeatingDeviceName), BatteryHeating),
    Entry(Equals(PIPredict.CoolingOrHeatingDeviceName), CoolingOrHeatingSchedule)]

  const ElectricVehicleReference: Preset := [
    Entry(Equals(PIPredict.ElectricalStorage), BasicStorage),
    Entry(Equals(PIPredict.CoolingDeviceName), BasicCooling),
    Entry(Equals(PIPredict.HeatingDeviceName), BasicHeating),
    Entry(Equals(PIPredict.CoolingOrHeatingDeviceName), CoolingOrHeatingSchedule),
    Entry(Contains("electric_vehicle"), ElectricVehicleSchedule),
    Entry(Contains("dhw_storage"), FullPower),
    Entry(Contains("washing_machine"), FullPower)]

  predicate IsPreset(preset: Preset) {
    preset == BasicRBC || preset == OptimizedRBC || preset == BasicBatteryRBC || preset == ElectricVehicleReference
  }

  /** The schedule of the first entry whose pattern matches `name`. */
  function ScheduleFor(preset: Preset, name: string): (r: Option<Schedule>)
    ensures r.None? <==> forall i :: 0 <= i < |preset| ==> !Matches(preset[i].pattern, name)
    ensures r.Some? ==> exists i :: 0 <= i < |preset| && Matches(preset[i].pattern, name) && r.value == preset[i].schedule
                                   && forall j :: 0 <= j < i ==> !Matches(preset[j].pattern, name)
    decreases |preset|
  {
    if |preset| == 0 then None
    else if Matches(preset[0].pattern, name) then Some(preset[0].schedule)
    else
      var r := ScheduleFor(preset[1..], name);
      assert forall i :: 1 <= i < |preset| ==> preset[i] == preset[1..][i - 1];
      if r.Some? then
        var i :| 0 <= i < |preset[1..]| && Matches(preset[1..][i].pattern, name) && r.value == preset[1..][i].schedule
                 && forall j :: 0 <= j < i ==> !Matches(preset[1..][j].pattern, name);
        assert Matches(preset[i + 1].pattern, name) && r.value == preset[i + 1].schedule;
        r
      else
        r
  }

  /** The entry at `i` decides when it is the first that matches. */
  lemma ScheduleForFirst(preset: Preset, name: string, i: nat)
    requires i < |preset| && Matches(preset[i].pattern, name)
    requires forall j :: 0 <= j < i ==> !Matches(preset[j].pattern, name)
    ensures ScheduleFor(preset, name) == Some(preset[i].schedule)
  {
    var r := ScheduleFor(preset, name);
    var k :| 0 <= k < |preset| && Matches(preset[k].pattern, name) && r.value == preset[k].schedule
             && forall j :: 0 <= j < k ==> !Matches(preset[j].pattern, name);
    assert k == i;
  }

  // ---------------------------------------------------------------------------
  // Building the map.

  /** One table per schedule: an entry for every hour of the hour domain. */
  function BuildTable(s: Schedule, hours: seq<int>): (r: HourTable)
    ensures forall h :: h in r <==> h in hours
    ensures forall h :: h in r ==> r[h] == ValueAt(s, h)
  {
    map h | h in hours :: ValueAt(s, h)
  }

  /** The hour domain of the building's periodic observation metadata:
      1 to 24. */
  const DayHours: seq<int> := seq(24, i => i + 1)

  lemma DayHoursSpan(h: int)
    ensures h in DayHours <==> 1 <= h <= 24
  {
    if 1 <= h <= 24 {
      assert DayHours[h - 1] == h;
    }
  }

  /** The action names of all agents, agent by agent. */
  function Flatten(agents: seq<seq<string>>): (r: seq<string>)
    ensures forall n :: n in r <==> n in AllNames(agents)
    decreases |agents|
  {
    if |agents| == 0 then []
    else
      var rest := Flatten(agents[1..]);
      assert forall n :: n in AllNames(agents) <==> n in agents[0] || n in AllNames(agents[1..]) by {
        forall n ensures n in AllNames(agents) <==> n in agents[0] || n in AllNames(agents[1..]) {
          if n in AllNames(agents[1..]) {
            var i :| 0 <= i < |agents[1..]| && n in agents[1..][i];
            assert n in agents[i + 1];
          }
          if n in AllNames(agents) && n !in agents[0] {
            var i :| 0 <= i < |agents| && n in agents[i];
            assert n in agents[1..][i - 1];
          }
        }
      }
      agents[0] + rest
  }

  /** The first name, in agent order, that no entry of the preset matches. */
  function FirstUnknown(preset: Preset, names: seq<string>): (r: Option<string>)
    ensures r.None? <==> forall j :: 0 <= j < |names| ==> ScheduleFor(preset, names[j]).Some?
    ensures r.Some? ==> r.value in names && ScheduleFor(preset, r.value).None?
    decreases |names|
  {
    if |names| == 0 then None
    else if ScheduleFor(preset, names[0]).None? then Some(names[0])
    else
      var r := FirstUnknown(preset, names[1..]);
      assert forall j :: 1 <= j < |names| ==> names[j] == names[1..][j - 1];
      r
  }

  /** The table of each name of `names`, all of which the preset knows. */
  function Tables(preset: Preset, names: set<string>, hours: seq<int>): (r: DeviceMap)
    requires forall n :: n in names ==> ScheduleFor(preset, n).Some?
    ensures r.Keys == names
    ensures forall n :: n in r ==> r[n] == BuildTable(ScheduleFor(preset, n).value, hours)
  {
    map n | n in names :: BuildTable(ScheduleFor(preset, n).value, hours)
  }

  /** The device-keyed map a preset builds for the given agents, or the
      `ValueError` for a name it does not know. */
  function PresetMap(preset: Preset, agents: seq<seq<string>>, hours: seq<int>): (r: Result<DeviceMap, ConfigError>)
    ensures r.Ok? <==> forall n :: n in AllNames(agents) ==> ScheduleFor(preset, n).Some?
    ensures r.Err? ==> r.error.UnknownActionName? && r.error.name in AllNames(agents) && ScheduleFor(preset, r.error.name).None?
    ensures r.Ok? ==> r.value == Tables(preset, AllNames(agents), hours)
  {
    var names := Flatten(agents);
    match FirstUnknown(preset, names)
    case Some(n) => Err(UnknownActionName(n))
    case None =>
      assert forall n :: n in AllNames(agents) ==> ScheduleFor(preset, n).Some? by {
        forall n | n in AllNames(agents) ensures ScheduleFor(preset, n).Some? {
          var j :| 0 <= j < |names| && names[j] == n;
        }
      }
      Ok(Tables(preset, AllNames(agents), hours))
  }

  /** A non-empty key set makes a non-empty map. */
  lemma NonEmptyMap(m: DeviceMap, n: string)
    requires n in m
    ensures |m| > 0
  {
    assert m.Keys != {};
  }

  /** The setter of a preset controller: with no map, build the preset's
      map and normalise it; otherwise normalise the map supplied. With no
      action name at all the source's map is empty and normalising it
      fails, so some agent must have a name. */
  function Configure(preset: Preset, raw: RawActionMap, agents: seq<seq<string>>, hours: seq<int>): (r: Result<Option<seq<DeviceMap>>, ConfigError>)
    requires raw.NoMap? ==> AllNames(agents) != {}
    requires raw.ByDevice? ==> |raw.devices| > 0
    requires raw.Flat? ==> |raw.table| > 0
    ensures !raw.NoMap? ==> r == Normalize(raw, agents)
  {
    if raw.NoMap? then
      var devices :- PresetMap(preset, agents, hours);
      var n :| n in AllNames(agents);
      NonEmptyMap(devices, n);
      Normalize(ByDevice(devices), agents)
    else
      Normalize(raw, agents)
  }

  /** Without a map, configuration fails exactly when some name is unknown
      to the preset, and then names such a name. */
  lemma ConfigureFromPresetFails(preset: Preset, agents: seq<seq<string>>, hours: seq<int>)
    requires AllNames(agents) != {}
    ensures var r := Configure(preset, NoMap, agents, hours);
      r.Ok? <==> forall n :: n in AllNames(agents) ==> ScheduleFor(preset, n).Some?
    ensures var r := Configure(preset, NoMap, agents, hours);
      r.Err? ==> r.error.UnknownActionName? && r.error.name in AllNames(agents) && ScheduleFor(preset, r.error.name).None?
  {
    var d := PresetMap(preset, agents, hours);
    if d.Ok? {
      var n :| n in AllNames(agents);
      NonEmptyMap(d.value, n);
      assert AllNames(agents) <= d.value.Keys;
    }
  }

  /** Once accepted, each agent receives, for exactly its own names, the
      preset's table of each name, defined on exactly the hour domain. */
  lemma ConfigureFromPresetTables(preset: Preset, agents: seq<seq<string>>, hours: seq<int>, maps: seq<DeviceMap>)
    requires AllNames(agents) != {}
    requires Configure(preset, NoMap, agents, hours) == Ok(Some(maps))
    ensures Covers(maps, agents)
    ensures forall i, n :: 0 <= i < |agents| && n in maps[i] ==>
      && n in agents[i] && ScheduleFor(preset, n).Some?
      && maps[i][n] == BuildTable(ScheduleFor(preset, n).value, hours)
  {
    var d := PresetMap(preset, agents, hours).value;
    var n :| n in AllNames(agents);
    NonEmptyMap(d, n);
    assert AllNames(agents) <= d.Keys;
    assert Normalize(ByDevice(d), agents) == Ok(Some(maps));
  }

  /** Each table of an accepted configuration is defined on exactly the
      hour domain. */
  lemma ConfiguredTableHours(preset: Preset, agents: seq<seq<string>>, hours: seq<int>, maps: seq<DeviceMap>, i: nat, n: string)
    requires AllNames(agents) != {}
    requires Configure(preset, NoMap, agents, hours) == Ok(Some(maps))
    requires i < |maps| && n in maps[i]
    ensures forall k :: k in maps[i][n] <==> k in hours
  {
    ConfigureFromPresetTables(preset, agents, hours, maps);
    var t := BuildTable(ScheduleFor(preset, n).value, hours);
    assert maps[i][n] == t;
  }

  // ---------------------------------------------------------------------------
  // Properties of the four presets.

  /** A schedule whose every value lies in `[lo, hi]` stays there. */
  lemma ValueAtWithin(s: Schedule, h: int, lo: real, hi: real)
    requires ScheduleWithin(s, lo, hi)
    ensures lo <= ValueAt(s, h) <= hi
  {
  }

  lemma PresetSchedulesWithin(preset: Preset)
    requires IsPreset(preset)
    ensures forall i :: 0 <= i < |preset| ==> ScheduleWithin(preset[i].schedule, -1.0, 1.0)
  {
  }

  /** Every schedule of every preset stays in `[-1, 1]`. */
  lemma PresetValuesWithin(preset: Preset, name: string, h: int)
    requires IsPreset(preset) && ScheduleFor(preset, name).Some?
    ensures -1.0 <= ValueAt(ScheduleFor(preset, name).value, h) <= 1.0
  {
    var s := ScheduleFor(preset, name).value;
    PresetSchedulesWithin(preset);
    var i :| 0 <= i < |preset| && Matches(preset[i].pattern, name) && s == preset[i].schedule
             && forall j :: 0 <= j < i ==> !Matches(preset[j].pattern, name);
    ValueAtWithin(s, h, -1.0, 1.0);
  }

  /** The combined device follows one schedule in all four presets: heating
      effort before 7, cooling (negative) from 7 to 20, heating from 21. */
  lemma CoolingOrHeatingShared(preset: Preset, h: int)
    requires IsPreset(preset)
    ensures ScheduleFor(preset, PIPredict.CoolingOrHeatingDeviceName) == Some(CoolingOrHeatingSchedule)
    ensures ValueAt(CoolingOrHeatingSchedule, h) < 0.0 <==> 7 <= h <= 20
    ensures h < 7 ==> ValueAt(CoolingOrHeatingSchedule, h) == 0.4
    ensures h >= 21 ==> ValueAt(CoolingOrHeatingSchedule, h) == 0.8
  {
    var name := PIPredict.CoolingOrHeatingDeviceName;
    PIPredict.NoStorageInName(name);
    CharAbsent("dhw_storage", name, 4);
    assert forall j :: 0 <= j < 3 ==> !Matches(preset[j].pattern, name);
    ScheduleForFirst(preset, name, 3);
  }

  /** `BasicBatteryRBC` charges storage by 11% exactly from 6 to 14 and
      otherwise discharges by 6.7%, for every name containing `storage`. */
  lemma BatteryChargesAroundMidday(name: string, h: int)
    requires IsInfix(PIPredict.StorageInfix, name)
    ensures ScheduleFor(BasicBatteryRBC, name) == Some(BatteryStorage)
    ensures ValueAt(BatteryStorage, h) == 0.11 <==> 6 <= h <= 14
    ensures ValueAt(BatteryStorage, h) == -0.067 <==> !(6 <= h <= 14)
  {
  }

  /** `BasicRBC` charges storage by 9.1% overnight (1-8, 22-24), discharges by
      8% from 9 to 21 and does nothing at any other hour. */
  lemma BasicStorageBands(h: int)
    ensures ValueAt(BasicStorage, h) > 0.0 <==> 1 <= h <= 8 || 22 <= h <= 24
    ensures ValueAt(BasicStorage, h) < 0.0 <==> 9 <= h <= 21
    ensures ValueAt(BasicStorage, h) == 0.0 <==> h <= 0 || h >= 25
  {
  }

  /** `OptimizedRBC` discharges storage from 7 to 22 and charges from 23 to 6. */
  lemma OptimizedStorageBands(h: int)
    ensures ValueAt(OptimizedStorage, h) < 0.0 <==> 7 <= h <= 22
    ensures ValueAt(OptimizedStorage, h) > 0.0 <==> 1 <= h <= 6 || 23 <= h <= 24
  {
  }

  /** Cooling and heating shares are complementary: at every hour they add
      up to 1.2 for `BasicRBC` and to 1.0 for `BasicBatteryRBC`. */
  lemma CoolingHeatingComplementary(h: int)
    ensures 1 <= h <= 24 ==> ValueAt(BasicCooling, h) + ValueAt(BasicHeating, h) == 1.2
    ensures ValueAt(BatteryCooling, h) + ValueAt(BatteryHeating, h) == 1.0
  {
  }

  /** The PI controller's built-in storage bands are `BasicRBC`'s storage
      schedule, and its electrical-storage rule is `BasicBatteryRBC`'s, at
      every whole hour. */
  lemma PIStorageRulesArePresets(h: int)
    ensures PIPredict.DefaultStorageAction(Some(h as real)) == ValueAt(BasicStorage, h)
    ensures PIPredict.ElectricalStorageAction(Some(h as real)) == ValueAt(BatteryStorage, h)
  {
  }

  /** The only name of a single agent with a single action. */
  lemma SingleName(name: string)
    ensures AllNames([[name]]) == {name}
  {
    forall n | n in AllNames([[name]]) ensures n == name {
      var i :| 0 <= i < |[[name]]| && n in [[name]][i];
    }
    assert name in [[name]][0];
  }

  /** A name no entry matches is rejected by name. */
  lemma UnknownNameRejected(preset: Preset, name: string, hours: seq<int>)
    requires ScheduleFor(preset, name).None?
    ensures AllNames([[name]]) == {name}
    ensures Configure(preset, NoMap, [[name]], hours) == Err(UnknownActionName(name))
  {
    SingleName(name);
    assert Flatten([[name]]) == [name] by {
      assert Flatten([[name]][1..]) == [];
    }
  }

  /** The EV reference controller takes only the exact `electrical_storage`
      and names containing `dhw_storage` among storage names: a
      `cooling_storage` device is rejected, although `BasicRBC` schedules it. */
  lemma ElectricVehicleRejectsCoolingStorage()
    ensures ScheduleFor(BasicRBC, "cooling_storage") == Some(BasicStorage)
    ensures ScheduleFor(ElectricVehicleReference, "cooling_storage").None?
  {
    BasicSchedulesCoolingStorage();
    ElectricVehicleIgnoresCoolingStorage();
  }

  lemma BasicSchedulesCoolingStorage()
    ensures ScheduleFor(BasicRBC, "cooling_storage") == Some(BasicStorage)
  {
    assert OccursAt(PIPredict.StorageInfix, "cooling_storage", 8);
    ScheduleForFirst(BasicRBC, "cooling_storage", 0);
  }

  lemma ElectricVehicleIgnoresCoolingStorage()
    ensures ScheduleFor(ElectricVehicleReference, "cooling_storage").None?
  {
    var ev := ElectricVehicleReference;
    CoolingStorageLacks("electric_vehicle", 11);
    CoolingStorageLacks("dhw_storage", 0);
    CoolingStorageLacks("washing_machine", 0);
    assert forall i :: 0 <= i < |ev| ==> !Matches(ev[i].pattern, "cooling_storage");
  }

  /** `cooling_storage` lacks the `j`-th character of `sub`, hence `sub`. */
  lemma CoolingStorageLacks(sub: string, j: nat)
    requires j < |sub| && sub[j] in "dhw"
    ensures !IsInfix(sub, "cooling_storage")
  {
    CharAbsent(sub, "cooling_storage", j);
  }

  /** ... and configuring it for a single `cooling_storage` device fails
      with that name. */
  lemma ElectricVehicleConfigureRejects()
    ensures AllNames([["cooling_storage"]]) == {"cooling_storage"}
    ensures Configure(ElectricVehicleReference, NoMap, [["cooling_storage"]], DayHours)
      == Err(UnknownActionName("cooling_storage"))
  {
    ElectricVehicleRejectsCoolingStorage();
    UnknownNameRejected(ElectricVehicleReference, "cooling_storage", DayHours);
  }

  /** With no map supplied and the 1-24 hour domain, every preset's
      configuration, once accepted, answers every hour: `predict` never
      raises. */
  lemma PresetNeverMissesAnHour(preset: Preset, agents: seq<AgentSpace>, observations: seq<seq<real>>, maps: seq<DeviceMap>)
    requires AllNames(ActionNamesOf(agents)) != {}
    requires Configure(preset, NoMap, ActionNamesOf(agents), DayHours) == Ok(Some(maps))
    requires HourReadable(agents, observations, Processed(maps, agents, observations))
    ensures HourPredict(Some(maps), agents, observations).Ok?
  {
    PresetTablesSpanDay(preset, ActionNamesOf(agents), maps);
    TotalMapsNeverFail(maps, agents, observations);
  }

  /** An accepted preset configuration covers every agent's names with
      tables defined on every hour from 1 to 24. */
  lemma PresetTablesSpanDay(preset: Preset, names: seq<seq<string>>, maps: seq<DeviceMap>)
    requires AllNames(names) != {}
    requires Configure(preset, NoMap, names, DayHours) == Ok(Some(maps))
    ensures Covers(maps, names)
    ensures forall i, n, k :: 0 <= i < |maps| && n in maps[i] && 1 <= k <= 24 ==> k in maps[i][n]
  {
    ConfigureFromPresetTables(preset, names, DayHours, maps);
    forall i, n, k | 0 <= i < |maps| && n in maps[i] && 1 <= k <= 24 ensures k in maps[i][n] {
      ConfiguredTableHours(preset, names, DayHours, maps, i, n);
      DayHoursSpan(k);
    }
  }

  /** The action names of each agent. */
  function ActionNamesOf(agents: seq<AgentSpace>): (r: seq<seq<string>>)
    ensures |r| == |agents| && forall i :: 0 <= i < |agents| ==> r[i] == agents[i].actionNames
  {
    seq(|agents|, i requires 0 <= i < |agents| => agents[i].actionNames)
  }
}
