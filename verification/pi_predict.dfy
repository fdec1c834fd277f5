/**
 `PITemperatureController.predict` (citylearn/agents/rbc.py): for every
 agent, read its sensors, then emit one action per action name, chosen by
 the action name: fixed electrical-storage rule, storage band or storage
 map lookup, cooling PI, heating PI, combined cooling-or-heating PI, or 0.0.
 The integral accumulators are threaded through the agents and their
 actions in order.
 */
module PIPredict {
  import opened Base
  import opened PIController
  import opened Observations
  import opened ActionMap

  const ElectricalStorage := "electrical_storage"
  const StorageInfix := "storage"
  const CoolingDeviceName := "cooling_device"
  const HeatingDeviceName := "heating_device"
  const CoolingOrHeatingDeviceName := "cooling_or_heating_device"

  /** The branch of `predict` an action name selects, tried in source order. */
  datatype Device =
    | ElectricalStorageDevice
    | Storage
    | CoolingDevice
    | HeatingDevice
    | CoolingOrHeatingDevice
    | Unrecognised

  /** A name without an `s` contains neither storage infix. */
  lemma NoStorageInName(name: string)
    requires 's' !in name
    ensures !IsInfix(ElectricalStorage, name) && !IsInfix(StorageInfix, name)
  {
    CharAbsent(ElectricalStorage, name, 11);
    CharAbsent(StorageInfix, name, 0);
  }

  /** The three temperature devices are recognised by their exact names,
      which no storage test shadows; every other name falls to a storage
      branch when it contains `storage`, and is unrecognised otherwise. */
  function Classify(name: string): (r: Device)
    ensures r == ElectricalStorageDevice <==> IsInfix(ElectricalStorage, name)
    ensures r == Storage <==> !IsInfix(ElectricalStorage, name) && IsInfix(StorageInfix, name)
    ensures r == CoolingDevice <==> name == CoolingDeviceName
    ensures r == HeatingDevice <==> name == HeatingDeviceName
    ensures r == CoolingOrHeatingDevice <==> name == CoolingOrHeatingDeviceName
    ensures r == Unrecognised <==>
      && !IsInfix(StorageInfix, name)
      && name != CoolingDeviceName && name != HeatingDeviceName && name != CoolingOrHeatingDeviceName
  {
    NoStorageInName(CoolingDeviceName);
    NoStorageInName(HeatingDeviceName);
    NoStorageInName(CoolingOrHeatingDeviceName);
    ElectricalStorageHasStorage(name);
    if IsInfix(ElectricalStorage, name) then ElectricalStorageDevice
    else if IsInfix(StorageInfix, name) then Storage
    else if name == CoolingDeviceName then CoolingDevice
    else if name == HeatingDeviceName then HeatingDevice
    else if name == CoolingOrHeatingDeviceName then CoolingOrHeatingDevice
    else Unrecognised
  }

  /** A name containing `electrical_storage` contains `storage`. */
  lemma ElectricalStorageHasStorage(name: string)
    ensures IsInfix(ElectricalStorage, name) ==> IsInfix(StorageInfix, name)
  {
    if IsInfix(ElectricalStorage, name) {
      var i :| 0 <= i <= |name| - |ElectricalStorage| && OccursAt(ElectricalStorage, name, i);
      assert name[i + 11..i + 18] == ElectricalStorage[11..];
      assert OccursAt(StorageInfix, name, i + 11);
    }
  }

  /** The accumulator roles a device drives. */
  function RolesOf(d: Device): set<Role> {
    match d
    case CoolingDevice => {Cool}
    case HeatingDevice => {Heat}
    case CoolingOrHeatingDevice => {CoHCool, CoHHeat}
    case _ => {}
  }

  predicate IsPIDevice(d: Device) {
    d.CoolingDevice? || d.HeatingDevice? || d.CoolingOrHeatingDevice?
  }

  // ---------------------------------------------------------------------------
  // Actions that do not depend on the accumulators.

  /** Solar-aware battery rule: charge 11% between 6 and 14 inclusive,
      discharge 6.7% otherwise; without an hour observation, 0.0 (see
      `ElectricalStorageAsWritten` for what the source appends instead). */
  function ElectricalStorageAction(hour: Option<real>): (r: real)
    ensures hour.Some? && 6.0 <= hour.value <= 14.0 <==> r == 0.11
    ensures hour.Some? && !(6.0 <= hour.value <= 14.0) <==> r == -0.067
    ensures hour.None? <==> r == 0.0
  {
    match hour
    case None => 0.0
    case Some(h) => if 6.0 <= h <= 14.0 then 0.11 else -0.067
  }

  /** The electrical-storage branch as the source writes it: without an
      hour it assigns nothing and appends whatever `action_value` the
      previous action name (of this or an earlier agent) left behind, or
      fails when there was none (`None` here). */
  function ElectricalStorageAsWritten(hour: Option<real>, previous: Option<real>): (r: Option<real>)
    ensures hour.Some? ==> r == Some(ElectricalStorageAction(hour))
    ensures hour.None? ==> r == previous
  {
    if hour.Some? then Some(if 6.0 <= hour.value <= 14.0 then 0.11 else -0.067) else previous
  }

  /** The discrepancy: right after a cooling device of the same agent
      computed 0.41, an electrical storage device without an hour
      observation is sent 0.41 as its own action. */
  lemma StaleStorageAction()
    ensures PIStep(DefaultParams, 2.0, Key(0, Cool), map[]).action == 0.41
    ensures ElectricalStorageAsWritten(None, Some(PIStep(DefaultParams, 2.0, Key(0, Cool), map[]).action)) == Some(0.41)
    ensures ElectricalStorageAction(None) == 0.0
  {
    DefaultFirstStep(Key(0, Cool));
  }

  /** The built-in storage bands used when no storage map is configured:
      discharge 8% from 9 to 21, charge 9.1% at 1-8 and 22-24, nothing at any
      other hour or without an hour. */
  function DefaultStorageAction(hour: Option<real>): (r: real)
    ensures r == -0.08 || r == 0.0 || r == 0.091
    ensures r < 0.0 <==> hour.Some? && 9.0 <= hour.value <= 21.0
    ensures r > 0.0 <==> hour.Some? && ((1.0 <= hour.value <= 8.0) || (22.0 <= hour.value <= 24.0))
  {
    match hour
    case None => 0.0
    case Some(h) =>
      if 9.0 <= h <= 21.0 then -0.08
      else if (1.0 <= h <= 8.0) || (22.0 <= h <= 24.0) then 0.091
      else 0.0
  }

  predicate IsIntegral(x: real) {
    x.Floor as real == x
  }

  /** Python's `table.get(hour, 0.0)` on an int-keyed table with a float
      hour: only an integral hour can equal a key. */
  function TableGet(table: HourTable, hour: real): (r: real)
    ensures IsIntegral(hour) && hour.Floor in table ==> r == table[hour.Floor]
    ensures !(IsIntegral(hour) && hour.Floor in table) ==> r == 0.0
  {
    if IsIntegral(hour) && hour.Floor in table then table[hour.Floor] else 0.0
  }

  /** A non-electrical storage action: the storage map is consulted only when
      it is a device-keyed dict naming this action; any other configured map
      yields 0.0, and no map at all falls back to the built-in bands. */
  function StorageAction(storageMap: RawActionMap, name: string, hour: Option<real>): (r: real)
    ensures storageMap.NoMap? ==> r == DefaultStorageAction(hour)
    ensures storageMap.ByDevice? && name in storageMap.devices && hour.Some? ==>
      r == TableGet(storageMap.devices[name], hour.value)
    ensures !storageMap.NoMap? && !(storageMap.ByDevice? && name in storageMap.devices && hour.Some?) ==> r == 0.0
  {
    match storageMap
    case NoMap => DefaultStorageAction(hour)
    case ByDevice(devices) =>
      if name in devices && hour.Some? then TableGet(devices[name], hour.value) else 0.0
    case _ => 0.0
  }

  // ---------------------------------------------------------------------------
  // The combined cooling-or-heating device.

  /** Cooling is checked first; the accumulator of the other direction is
      zeroed whenever one direction activates, and both are zeroed inside
      the deadband. */
  function CoolingOrHeating(p: Params, b: nat, s: Sensors, integrals: Integrals): Step {
    var cool, heat := Key(b, CoHCool), Key(b, CoHHeat);
    match s.indoor
    case None => Step(0.0, integrals)
    case Some(t) =>
      var coolingError, heatingError := t - s.coolingSetPoint, s.heatingSetPoint - t;
      if coolingError > p.deadband then
        var pi := PIStep(p, coolingError, cool, integrals[heat := 0.0]);
        Step(-pi.action, pi.integrals)
      else if heatingError > p.deadband then
        var pi := PIStep(p, heatingError, heat, integrals[cool := 0.0]);
        Step(pi.action, pi.integrals)
      else
        Step(0.0, integrals[cool := 0.0][heat := 0.0])
  }

  /** Only this building's two combined-device accumulators may change, and
      without an indoor temperature nothing happens. */
  lemma CoolingOrHeatingFrame(p: Params, b: nat, s: Sensors, integrals: Integrals)
    ensures s.indoor.None? ==> CoolingOrHeating(p, b, s, integrals) == Step(0.0, integrals)
    ensures forall k :: k != Key(b, CoHCool) && k != Key(b, CoHHeat) ==>
      SameAt(integrals, CoolingOrHeating(p, b, s, integrals).integrals, k)
  {
  }

  /** Mutual exclusion: after a step with an indoor temperature at most one
      direction holds a non-zero accumulator. */
  lemma CoolingOrHeatingExclusive(p: Params, b: nat, s: Sensors, integrals: Integrals)
    requires s.indoor.Some?
    ensures var r := CoolingOrHeating(p, b, s, integrals).integrals;
      && Key(b, CoHCool) in r && Key(b, CoHHeat) in r
      && (r[Key(b, CoHCool)] == 0.0 || r[Key(b, CoHHeat)] == 0.0)
  {
  }

  /** Too hot: the cooling accumulator steps as a plain PI step would, the
      heating accumulator is zeroed, and the action is the negated PI action. */
  lemma CoolingOrHeatingCools(p: Params, b: nat, s: Sensors, integrals: Integrals)
    requires s.indoor.Some? && s.indoor.value - s.coolingSetPoint > p.deadband
    ensures var r := CoolingOrHeating(p, b, s, integrals);
      var pi := PIStep(p, s.indoor.value - s.coolingSetPoint, Key(b, CoHCool), integrals);
      && r.integrals[Key(b, CoHHeat)] == 0.0
      && r.integrals[Key(b, CoHCool)] == pi.integrals[Key(b, CoHCool)]
      && r.action == -pi.action
      && (p.minPower >= 0.0 ==> r.action <= 0.0)
  {
    var error := s.indoor.value - s.coolingSetPoint;
    var cool, heat := Key(b, CoHCool), Key(b, CoHHeat);
    assert Get(integrals[heat := 0.0], cool) == Get(integrals, cool);
    assert PIStep(p, error, cool, integrals[heat := 0.0]).integrals[cool] == PIStep(p, error, cool, integrals).integrals[cool];
  }

  /** Not too hot but too cold: the mirror image, with a non-negated action. */
  lemma CoolingOrHeatingHeats(p: Params, b: nat, s: Sensors, integrals: Integrals)
    requires s.indoor.Some? && s.indoor.value - s.coolingSetPoint <= p.deadband
    requires s.heatingSetPoint - s.indoor.value > p.deadband
    ensures var r := CoolingOrHeating(p, b, s, integrals);
      var pi := PIStep(p, s.heatingSetPoint - s.indoor.value, Key(b, CoHHeat), integrals);
      && r.integrals[Key(b, CoHCool)] == 0.0
      && r.integrals[Key(b, CoHHeat)] == pi.integrals[Key(b, CoHHeat)]
      && r.action == pi.action
      && (p.minPower >= 0.0 ==> r.action >= 0.0)
  {
    var error := s.heatingSetPoint - s.indoor.value;
    var cool, heat := Key(b, CoHCool), Key(b, CoHHeat);
    assert Get(integrals[cool := 0.0], heat) == Get(integrals, heat);
    assert PIStep(p, error, heat, integrals[cool := 0.0]).integrals[heat] == PIStep(p, error, heat, integrals).integrals[heat];
  }

  /** Neither: no effort and both accumulators zeroed. */
  lemma CoolingOrHeatingIdles(p: Params, b: nat, s: Sensors, integrals: Integrals)
    requires s.indoor.Some? && s.indoor.value - s.coolingSetPoint <= p.deadband
    requires s.heatingSetPoint - s.indoor.value <= p.deadband
    ensures var r := CoolingOrHeating(p, b, s, integrals);
      r.action == 0.0 && r.integrals[Key(b, CoHCool)] == 0.0 && r.integrals[Key(b, CoHHeat)] == 0.0
  {
  }

  // ---------------------------------------------------------------------------
  // One action, one agent, all agents.

  /** The action of a name that does not use the accumulators. */
  function FixedAction(storageMap: RawActionMap, name: string, s: Sensors): real {
    match Classify(name)
    case ElectricalStorageDevice => ElectricalStorageAction(s.hour)
    case Storage => StorageAction(storageMap, name, s.hour)
    case _ => 0.0
  }

  /** The action of a temperature device of building `b`: cooling and
      heating errors are `indoor - cooling set point` and
      `heating set point - indoor`; without an indoor temperature the device
      gets 0.0. */
  function PIAction(p: Params, b: nat, d: Device, s: Sensors, integrals: Integrals): (r: Step)
    requires IsPIDevice(d)
    ensures s.indoor.None? ==> r == Step(0.0, integrals)
    ensures s.indoor.Some? && d == CoolingDevice ==>
      r == PIStep(p, s.indoor.value - s.coolingSetPoint, Key(b, Cool), integrals)
    ensures s.indoor.Some? && d == HeatingDevice ==>
      r == PIStep(p, s.heatingSetPoint - s.indoor.value, Key(b, Heat), integrals)
    ensures d == CoolingOrHeatingDevice ==> r == CoolingOrHeating(p, b, s, integrals)
  {
    match s.indoor
    case None => Step(0.0, integrals)
    case Some(t) =>
      if d == CoolingDevice then PIStep(p, t - s.coolingSetPoint, Key(b, Cool), integrals)
      else if d == HeatingDevice then PIStep(p, s.heatingSetPoint - t, Key(b, Heat), integrals)
      else CoolingOrHeating(p, b, s, integrals)
  }

  /** The action for one action name of building `b`. */
  function ActOne(p: Params, storageMap: RawActionMap, b: nat, name: string, s: Sensors, integrals: Integrals): Step {
    var d := Classify(name);
    if IsPIDevice(d) then PIAction(p, b, d, s, integrals)
    else Step(FixedAction(storageMap, name, s), integrals)
  }

  /** The action rule each name gets, in the order of the source's branches:
      `electrical_storage` names the battery rule, other `storage` names the
      storage map or the built-in bands, the three temperature devices their
      PI steps (cooling error `indoor - cooling set point`, heating error
      `heating set point - indoor`), every other name 0.0. Only a temperature
      device touches the accumulators, and only this building's accumulators
      of the roles it drives. */
  lemma ActOneSpec(p: Params, storageMap: RawActionMap, b: nat, name: string, s: Sensors, integrals: Integrals)
    ensures IsInfix(ElectricalStorage, name) ==>
      ActOne(p, storageMap, b, name, s, integrals) == Step(ElectricalStorageAction(s.hour), integrals)
    ensures !IsInfix(ElectricalStorage, name) && IsInfix(StorageInfix, name) ==>
      ActOne(p, storageMap, b, name, s, integrals) == Step(StorageAction(storageMap, name, s.hour), integrals)
    ensures name == CoolingDeviceName ==>
      ActOne(p, storageMap, b, name, s, integrals) ==
        (if s.indoor.None? then Step(0.0, integrals)
         else PIStep(p, s.indoor.value - s.coolingSetPoint, Key(b, Cool), integrals))
    ensures name == HeatingDeviceName ==>
      ActOne(p, storageMap, b, name, s, integrals) ==
        (if s.indoor.None? then Step(0.0, integrals)
         else PIStep(p, s.heatingSetPoint - s.indoor.value, Key(b, Heat), integrals))
    ensures name == CoolingOrHeatingDeviceName ==>
      ActOne(p, storageMap, b, name, s, integrals) == CoolingOrHeating(p, b, s, integrals)
    ensures !IsInfix(StorageInfix, name) && name != CoolingDeviceName && name != HeatingDeviceName
            && name != CoolingOrHeatingDeviceName ==>
      ActOne(p, storageMap, b, name, s, integrals) == Step(0.0, integrals)
    ensures !IsPIDevice(Classify(name)) ==>
      ActOne(p, storageMap, b, name, s, integrals) == Step(FixedAction(storageMap, name, s), integrals)
    ensures forall k: Key :: k.building != b || k.role !in RolesOf(Classify(name)) ==>
      SameAt(integrals, ActOne(p, storageMap, b, name, s, integrals).integrals, k)
  {
    CoolingOrHeatingFrame(p, b, s, integrals);
  }

  /** Actions of one agent together with the accumulators after them. */
  datatype Row = Row(actions: seq<real>, integrals: Integrals)

  /** Some action name of the list drives `role`. */
  predicate UsesRole(names: seq<string>, role: Role) {
    exists j :: 0 <= j < |names| && role in RolesOf(Classify(names[j]))
  }

  lemma UsesRoleTail(names: seq<string>, role: Role)
    requires |names| > 0 && !UsesRole(names, role)
    ensures role !in RolesOf(Classify(names[0])) && !UsesRole(names[1..], role)
  {
    assert role !in RolesOf(Classify(names[0]));
    forall j | 0 <= j < |names[1..]| ensures role !in RolesOf(Classify(names[1..][j])) {
      assert names[1..][j] == names[j + 1];
    }
  }

  /** All action names of building `b`, in order, threading the accumulators. */
  function ActAll(p: Params, storageMap: RawActionMap, b: nat, names: seq<string>, s: Sensors, integrals: Integrals): (r: Row)
    ensures |r.actions| == |names|
    decreases |names|
  {
    if |names| == 0 then Row([], integrals)
    else
      var first := ActOne(p, storageMap, b, names[0], s, integrals);
      var rest := ActAll(p, storageMap, b, names[1..], s, first.integrals);
      Row([first.action] + rest.actions, rest.integrals)
  }

  /** Every name that is not a temperature device gets its fixed action, at
      its own position. */
  ghost predicate FixedActionsAt(storageMap: RawActionMap, names: seq<string>, s: Sensors, actions: seq<real>) {
    && |actions| == |names|
    && forall j :: 0 <= j < |names| && !IsPIDevice(Classify(names[j])) ==>
         actions[j] == FixedAction(storageMap, names[j], s)
  }

  lemma {:induction false} ActAllFixed(p: Params, storageMap: RawActionMap, b: nat, names: seq<string>, s: Sensors, integrals: Integrals)
    ensures FixedActionsAt(storageMap, names, s, ActAll(p, storageMap, b, names, s, integrals).actions)
    decreases |names|
  {
    if |names| > 0 {
      var first := ActOne(p, storageMap, b, names[0], s, integrals);
      var r := ActAll(p, storageMap, b, names, s, integrals);
      var rest := ActAll(p, storageMap, b, names[1..], s, first.integrals);
      ActOneSpec(p, storageMap, b, names[0], s, integrals);
      ActAllFixed(p, storageMap, b, names[1..], s, first.integrals);
      assert r.actions == [first.action] + rest.actions;
      forall j | 0 <= j < |names| && !IsPIDevice(Classify(names[j]))
        ensures r.actions[j] == FixedAction(storageMap, names[j], s)
      {
        if j > 0 {
          assert r.actions[j] == rest.actions[j - 1] && names[j] == names[1..][j - 1];
        }
      }
    } else {
      assert ActAll(p, storageMap, b, names, s, integrals).actions == [];
    }
  }

  /** Only this building's accumulators of roles some name drives change. */
  lemma {:induction false} ActAllFrame(p: Params, storageMap: RawActionMap, b: nat, names: seq<string>, s: Sensors, integrals: Integrals, k: Key)
    requires k.building != b || !UsesRole(names, k.role)
    ensures SameAt(integrals, ActAll(p, storageMap, b, names, s, integrals).integrals, k)
    decreases |names|
  {
    if |names| > 0 {
      var first := ActOne(p, storageMap, b, names[0], s, integrals);
      if k.building == b {
        UsesRoleTail(names, k.role);
      }
      ActOneSpec(p, storageMap, b, names[0], s, integrals);
      ActAllFrame(p, storageMap, b, names[1..], s, first.integrals, k);
    } else {
      assert ActAll(p, storageMap, b, names, s, integrals).integrals == integrals;
    }
  }

  /** Name `j` of a building gets the action `ActOne` gives it on the
      accumulators left by the names before it. */
  lemma {:induction false} ActAllAction(p: Params, storageMap: RawActionMap, b: nat, names: seq<string>, s: Sensors,
                                        integrals: Integrals, j: nat)
    requires j < |names|
    ensures ActAll(p, storageMap, b, names, s, integrals).actions[j] ==
      ActOne(p, storageMap, b, names[j], s, ActAll(p, storageMap, b, names[..j], s, integrals).integrals).action
    decreases j
  {
    if j == 0 {
      assert names[..0] == [];
    } else {
      var first := ActOne(p, storageMap, b, names[0], s, integrals);
      var tail, before := names[1..], names[..j];
      ActAllAction(p, storageMap, b, tail, s, first.integrals, j - 1);
      assert before[0] == names[0] && before[1..] == tail[..j - 1];
      assert ActAll(p, storageMap, b, before, s, integrals).integrals
          == ActAll(p, storageMap, b, tail[..j - 1], s, first.integrals).integrals;
    }
  }

  /** The controller: its configuration, its optional storage map and its
      accumulators. */
  datatype Controller = Controller(params: Params, storageMap: RawActionMap, integrals: Integrals)

  /** `reset`: configuration kept, accumulators discarded. */
  function ResetController(c: Controller): (r: Controller)
    ensures r.params == c.params && r.storageMap == c.storageMap
    ensures forall k :: Get(r.integrals, k) == 0.0
  {
    Controller(c.params, c.storageMap, Reset(c.integrals))
  }

  /** What `predict` needs of its inputs: every agent it processes has a
      value for each recognised observation name. */
  predicate Readable(agents: seq<AgentSpace>, observations: seq<seq<real>>) {
    forall i :: 0 <= i < ZipLength(|agents|, |observations|) ==> Aligned(agents[i].observationNames, observations[i])
  }

  /** The sensors of agent `i`. */
  function SensorsOf(agents: seq<AgentSpace>, observations: seq<seq<real>>, i: nat): Sensors
    requires Readable(agents, observations) && i < ZipLength(|agents|, |observations|)
  {
    ReadSensors(agents[i].observationNames, observations[i])
  }

  /** Actions of all agents together with the accumulators after them. */
  datatype Batch = Batch(actions: seq<seq<real>>, integrals: Integrals)

  /** Agents `b` to `n - 1`, building index = agent position. */
  function PredictFrom(p: Params, storageMap: RawActionMap, agents: seq<AgentSpace>, observations: seq<seq<real>>,
                       b: nat, integrals: Integrals): (r: Batch)
    requires Readable(agents, observations)
    requires b <= ZipLength(|agents|, |observations|)
    ensures |r.actions| == ZipLength(|agents|, |observations|) - b
    decreases ZipLength(|agents|, |observations|) - b
  {
    if b == ZipLength(|agents|, |observations|) then Batch([], integrals)
    else
      var row := ActAll(p, storageMap, b, agents[b].actionNames, SensorsOf(agents, observations, b), integrals);
      var rest := PredictFrom(p, storageMap, agents, observations, b + 1, row.integrals);
      Batch([row.actions] + rest.actions, rest.integrals)
  }

  /** One unfolding of `PredictFrom`: agent `b`'s row, then the rest. */
  lemma PredictFromStep(p: Params, storageMap: RawActionMap, agents: seq<AgentSpace>, observations: seq<seq<real>>,
                        b: nat, integrals: Integrals)
    requires Readable(agents, observations)
    requires b < ZipLength(|agents|, |observations|)
    ensures var row := ActAll(p, storageMap, b, agents[b].actionNames, SensorsOf(agents, observations, b), integrals);
      var rest := PredictFrom(p, storageMap, agents, observations, b + 1, row.integrals);
      && PredictFrom(p, storageMap, agents, observations, b, integrals).integrals == rest.integrals
      && PredictFrom(p, storageMap, agents, observations, b, integrals).actions[0] == row.actions
      && forall i :: 1 <= i <= |rest.actions| ==>
           PredictFrom(p, storageMap, agents, observations, b, integrals).actions[i] == rest.actions[i - 1]
  {
  }

  lemma PredictFromDone(p: Params, storageMap: RawActionMap, agents: seq<AgentSpace>, observations: seq<seq<real>>,
                        b: nat, integrals: Integrals)
    requires Readable(agents, observations)
    requires b == ZipLength(|agents|, |observations|)
    ensures PredictFrom(p, storageMap, agents, observations, b, integrals) == Batch([], integrals)
  {
  }

  /** The accumulators left by agents `b` to `i - 1`, each acting on those
      its predecessors left. */
  function AccumulatorsBefore(p: Params, storageMap: RawActionMap, agents: seq<AgentSpace>, observations: seq<seq<real>>,
                              b: nat, i: nat, integrals: Integrals): Integrals
    requires Readable(agents, observations)
    requires b <= i <= ZipLength(|agents|, |observations|)
    decreases i - b
  {
    if b == i then integrals
    else
      var row := ActAll(p, storageMap, b, agents[b].actionNames, SensorsOf(agents, observations, b), integrals);
      AccumulatorsBefore(p, storageMap, agents, observations, b + 1, i, row.integrals)
  }

  /** Agent `i`'s row is its building's `ActAll` on the accumulators the
      agents before it left, and the batch leaves what all agents leave. */
  lemma {:induction false} PredictFromRow(p: Params, storageMap: RawActionMap, agents: seq<AgentSpace>, observations: seq<seq<real>>,
                                          b: nat, integrals: Integrals, i: nat)
    requires Readable(agents, observations)
    requires b <= i < ZipLength(|agents|, |observations|)
    ensures PredictFrom(p, storageMap, agents, observations, b, integrals).actions[i - b] ==
      ActAll(p, storageMap, i, agents[i].actionNames, SensorsOf(agents, observations, i),
             AccumulatorsBefore(p, storageMap, agents, observations, b, i, integrals)).actions
    decreases i - b
  {
    var row := ActAll(p, storageMap, b, agents[b].actionNames, SensorsOf(agents, observations, b), integrals);
    PredictFromStep(p, storageMap, agents, observations, b, integrals);
    if i > b {
      PredictFromRow(p, storageMap, agents, observations, b + 1, row.integrals, i);
    }
  }

  lemma {:induction false} PredictFromAccumulators(p: Params, storageMap: RawActionMap, agents: seq<AgentSpace>,
                                                   observations: seq<seq<real>>, b: nat, integrals: Integrals)
    requires Readable(agents, observations)
    requires b <= ZipLength(|agents|, |observations|)
    ensures PredictFrom(p, storageMap, agents, observations, b, integrals).integrals ==
      AccumulatorsBefore(p, storageMap, agents, observations, b, ZipLength(|agents|, |observations|), integrals)
    decreases ZipLength(|agents|, |observations|) - b
  {
    if b < ZipLength(|agents|, |observations|) {
      var row := ActAll(p, storageMap, b, agents[b].actionNames, SensorsOf(agents, observations, b), integrals);
      PredictFromStep(p, storageMap, agents, observations, b, integrals);
      PredictFromAccumulators(p, storageMap, agents, observations, b + 1, row.integrals);
    }
  }

  /** Agent `i`'s action vector gives each of its non-temperature names the
      fixed action computed from agent `i`'s own sensors. */
  ghost predicate AgentFixed(storageMap: RawActionMap, agents: seq<AgentSpace>, observations: seq<seq<real>>, i: nat, actions: seq<real>)
    requires Readable(agents, observations) && i < ZipLength(|agents|, |observations|)
  {
    FixedActionsAt(storageMap, agents[i].actionNames, SensorsOf(agents, observations, i), actions)
  }

  lemma {:induction false} PredictFromFixed(p: Params, storageMap: RawActionMap, agents: seq<AgentSpace>, observations: seq<seq<real>>,
                                            b: nat, integrals: Integrals, i: nat)
    requires Readable(agents, observations)
    requires b <= i < ZipLength(|agents|, |observations|)
    ensures AgentFixed(storageMap, agents, observations, i, PredictFrom(p, storageMap, agents, observations, b, integrals).actions[i - b])
    decreases i - b
  {
    var s := SensorsOf(agents, observations, b);
    var row := ActAll(p, storageMap, b, agents[b].actionNames, s, integrals);
    PredictFromStep(p, storageMap, agents, observations, b, integrals);
    if i == b {
      ActAllFixed(p, storageMap, b, agents[b].actionNames, s, integrals);
    } else {
      PredictFromFixed(p, storageMap, agents, observations, b + 1, row.integrals, i);
    }
  }

  lemma {:induction false} PredictFromFrame(p: Params, storageMap: RawActionMap, agents: seq<AgentSpace>, observations: seq<seq<real>>,
                                            b: nat, integrals: Integrals, k: Key)
    requires Readable(agents, observations)
    requires b <= ZipLength(|agents|, |observations|)
    requires k.building < b || k.building >= ZipLength(|agents|, |observations|)
    ensures SameAt(integrals, PredictFrom(p, storageMap, agents, observations, b, integrals).integrals, k)
    decreases ZipLength(|agents|, |observations|) - b
  {
    if b < ZipLength(|agents|, |observations|) {
      var s := SensorsOf(agents, observations, b);
      var row := ActAll(p, storageMap, b, agents[b].actionNames, s, integrals);
      PredictFromStep(p, storageMap, agents, observations, b, integrals);
      ActAllFrame(p, storageMap, b, agents[b].actionNames, s, integrals, k);
      PredictFromFrame(p, storageMap, agents, observations, b + 1, row.integrals, k);
    } else {
      PredictFromDone(p, storageMap, agents, observations, b, integrals);
    }
  }

  /** `predict`: one action vector per agent (as many agents as both the
      agent list and the observation batch have), the controller updated. */
  function Predict(c: Controller, agents: seq<AgentSpace>, observations: seq<seq<real>>): (r: (seq<seq<real>>, Controller))
    requires Readable(agents, observations)
    ensures |r.0| == ZipLength(|agents|, |observations|)
    ensures r.1.params == c.params && r.1.storageMap == c.storageMap
  {
    var batch := PredictFrom(c.params, c.storageMap, agents, observations, 0, c.integrals);
    (batch.actions, Controller(c.params, c.storageMap, batch.integrals))
  }

  /** Each agent gets one action per action name; every name that is not a
      temperature device gets its fixed action computed from that agent's
      own sensors; the accumulators of buildings beyond the processed agents
      are untouched. */
  lemma PredictSpec(c: Controller, agents: seq<AgentSpace>, observations: seq<seq<real>>)
    requires Readable(agents, observations)
    ensures var r := Predict(c, agents, observations);
      forall i :: 0 <= i < |r.0| ==> AgentFixed(c.storageMap, agents, observations, i, r.0[i])
    ensures var r := Predict(c, agents, observations);
      forall k: Key :: k.building >= ZipLength(|agents|, |observations|) ==> SameAt(c.integrals, r.1.integrals, k)
    ensures var r := Predict(c, agents, observations);
      forall i :: 0 <= i < |r.0| ==>
        r.0[i] == ActAll(c.params, c.storageMap, i, agents[i].actionNames, SensorsOf(agents, observations, i),
                         AccumulatorsBefore(c.params, c.storageMap, agents, observations, 0, i, c.integrals)).actions
    ensures Predict(c, agents, observations).1 ==
      Controller(c.params, c.storageMap,
                 AccumulatorsBefore(c.params, c.storageMap, agents, observations, 0, ZipLength(|agents|, |observations|), c.integrals))
  {
    forall i | 0 <= i < ZipLength(|agents|, |observations|)
      ensures Predict(c, agents, observations).0[i] ==
        ActAll(c.params, c.storageMap, i, agents[i].actionNames, SensorsOf(agents, observations, i),
               AccumulatorsBefore(c.params, c.storageMap, agents, observations, 0, i, c.integrals)).actions
    {
      PredictFromRow(c.params, c.storageMap, agents, observations, 0, c.integrals, i);
    }
    PredictFromAccumulators(c.params, c.storageMap, agents, observations, 0, c.integrals);
    forall i | 0 <= i < ZipLength(|agents|, |observations|)
      ensures AgentFixed(c.storageMap, agents, observations, i, Predict(c, agents, observations).0[i])
    {
      PredictFromFixed(c.params, c.storageMap, agents, observations, 0, c.integrals, i);
    }
    forall k: Key | k.building >= ZipLength(|agents|, |observations|)
      ensures SameAt(c.integrals, Predict(c, agents, observations).1.integrals, k)
    {
      PredictFromFrame(c.params, c.storageMap, agents, observations, 0, c.integrals, k);
    }
  }

  /** Action `j` of agent `i` is `ActOne` for its `j`-th name, on the
      accumulators left by the agents before `i` and the names before `j`. */
  lemma PredictAction(c: Controller, agents: seq<AgentSpace>, observations: seq<seq<real>>, i: nat, j: nat)
    requires Readable(agents, observations)
    requires i < ZipLength(|agents|, |observations|) && j < |agents[i].actionNames|
    ensures |Predict(c, agents, observations).0[i]| == |agents[i].actionNames|
    ensures var names := agents[i].actionNames;
      var s := SensorsOf(agents, observations, i);
      var before := AccumulatorsBefore(c.params, c.storageMap, agents, observations, 0, i, c.integrals);
      Predict(c, agents, observations).0[i][j] ==
        ActOne(c.params, c.storageMap, i, names[j], s, ActAll(c.params, c.storageMap, i, names[..j], s, before).integrals).action
  {
    PredictFromRow(c.params, c.storageMap, agents, observations, 0, c.integrals, i);
    ActAllAction(c.params, c.storageMap, i, agents[i].actionNames, SensorsOf(agents, observations, i),
                 AccumulatorsBefore(c.params, c.storageMap, agents, observations, 0, i, c.integrals), j);
  }

  // ---------------------------------------------------------------------------
  // Invariants of the accumulators across `predict`.

  /** The two combined-device accumulators of a building are never both
      non-zero. */
  ghost predicate CoHExclusive(integrals: Integrals) {
    forall b: nat :: Get(integrals, Key(b, CoHCool)) == 0.0 || Get(integrals, Key(b, CoHHeat)) == 0.0
  }

  /** What every step preserves: anti-windup bounds and mutual exclusion. */
  ghost predicate Invariant(p: Params, integrals: Integrals) {
    WithinLimit(integrals, p.integralLimit) && CoHExclusive(integrals)
  }

  lemma ResetEstablishesInvariant(c: Controller)
    requires c.params.integralLimit >= 0.0
    ensures Invariant(c.params, ResetController(c).integrals)
  {
  }

  lemma CoolingOrHeatingKeepsInvariant(p: Params, b: nat, s: Sensors, integrals: Integrals)
    requires p.integralLimit >= 0.0 && Invariant(p, integrals)
    ensures Invariant(p, CoolingOrHeating(p, b, s, integrals).integrals)
  {
    var r := CoolingOrHeating(p, b, s, integrals).integrals;
    var cool, heat := Key(b, CoHCool), Key(b, CoHHeat);
    CoolingOrHeatingFrame(p, b, s, integrals);
    if s.indoor.Some? {
      var t := s.indoor.value;
      CoolingOrHeatingExclusive(p, b, s, integrals);
      if t - s.coolingSetPoint > p.deadband {
        StepKeepsWithinLimit(p, t - s.coolingSetPoint, cool, integrals[heat := 0.0]);
      } else if s.heatingSetPoint - t > p.deadband {
        StepKeepsWithinLimit(p, s.heatingSetPoint - t, heat, integrals[cool := 0.0]);
      }
      forall b': nat ensures Get(r, Key(b', CoHCool)) == 0.0 || Get(r, Key(b', CoHHeat)) == 0.0 {
        if b' != b {
          assert SameAt(integrals, r, Key(b', CoHCool)) && SameAt(integrals, r, Key(b', CoHHeat));
        }
      }
    }
  }

  lemma ActOneKeepsInvariant(p: Params, storageMap: RawActionMap, b: nat, name: string, s: Sensors, integrals: Integrals)
    requires p.integralLimit >= 0.0 && Invariant(p, integrals)
    ensures Invariant(p, ActOne(p, storageMap, b, name, s, integrals).integrals)
  {
    var d := Classify(name);
    if IsPIDevice(d) && s.indoor.Some? {
      var t := s.indoor.value;
      if d == CoolingDevice {
        StepKeepsWithinLimit(p, t - s.coolingSetPoint, Key(b, Cool), integrals);
      } else if d == HeatingDevice {
        StepKeepsWithinLimit(p, s.heatingSetPoint - t, Key(b, Heat), integrals);
      } else {
        CoolingOrHeatingKeepsInvariant(p, b, s, integrals);
      }
    }
  }

  lemma {:induction false} ActAllKeepsInvariant(p: Params, storageMap: RawActionMap, b: nat, names: seq<string>, s: Sensors, integrals: Integrals)
    requires p.integralLimit >= 0.0 && Invariant(p, integrals)
    ensures Invariant(p, ActAll(p, storageMap, b, names, s, integrals).integrals)
    decreases |names|
  {
    if |names| > 0 {
      var first := ActOne(p, storageMap, b, names[0], s, integrals);
      ActOneKeepsInvariant(p, storageMap, b, names[0], s, integrals);
      ActAllKeepsInvariant(p, storageMap, b, names[1..], s, first.integrals);
    } else {
      assert ActAll(p, storageMap, b, names, s, integrals).integrals == integrals;
    }
  }

  lemma {:induction false} PredictFromKeepsInvariant(p: Params, storageMap: RawActionMap, agents: seq<AgentSpace>,
                                                     observations: seq<seq<real>>, b: nat, integrals: Integrals)
    requires Readable(agents, observations)
    requires b <= ZipLength(|agents|, |observations|)
    requires p.integralLimit >= 0.0 && Invariant(p, integrals)
    ensures Invariant(p, PredictFrom(p, storageMap, agents, observations, b, integrals).integrals)
    decreases ZipLength(|agents|, |observations|) - b
  {
    if b < ZipLength(|agents|, |observations|) {
      var s := SensorsOf(agents, observations, b);
      var row := ActAll(p, storageMap, b, agents[b].actionNames, s, integrals);
      PredictFromStep(p, storageMap, agents, observations, b, integrals);
      ActAllKeepsInvariant(p, storageMap, b, agents[b].actionNames, s, integrals);
      PredictFromKeepsInvariant(p, storageMap, agents, observations, b + 1, row.integrals);
    } else {
      PredictFromDone(p, storageMap, agents, observations, b, integrals);
    }
  }

  /** Across any sequence of `predict` calls started from `reset`, every
      accumulator stays within the anti-windup limit and no building holds
      both a cooling and a heating accumulator of its combined device. */
  lemma PredictKeepsInvariant(c: Controller, agents: seq<AgentSpace>, observations: seq<seq<real>>)
    requires Readable(agents, observations)
    requires c.params.integralLimit >= 0.0 && Invariant(c.params, c.integrals)
    ensures Invariant(c.params, Predict(c, agents, observations).1.integrals)
  {
    PredictFromKeepsInvariant(c.params, c.storageMap, agents, observations, 0, c.integrals);
  }

  // ---------------------------------------------------------------------------
  // Range of the actions.

  ghost predicate AllWithin(xs: seq<real>, lo: real, hi: real) {
    forall j :: 0 <= j < |xs| ==> lo <= xs[j] <= hi
  }

  /** With a power band inside `[0, 1]` and storage map values inside
      `[-1, 1]`, every action lies in `[-1, 1]`; only the combined device's
      cooling direction goes below 0. */
  lemma ActOneInRange(p: Params, storageMap: RawActionMap, b: nat, name: string, s: Sensors, integrals: Integrals)
    requires 0.0 <= p.minPower <= p.maxPower <= 1.0
    requires DeviceValuesWithin(storageMap, -1.0, 1.0)
    ensures var a := ActOne(p, storageMap, b, name, s, integrals).action;
      -1.0 <= a <= 1.0 && (Classify(name) == CoolingDevice || Classify(name) == HeatingDevice ==> a >= 0.0)
  {
    var d := Classify(name);
    if IsPIDevice(d) && s.indoor.Some? {
      var t := s.indoor.value;
      if d == CoolingDevice {
        PIStepBounds(p, t - s.coolingSetPoint, Key(b, Cool), integrals);
      } else if d == HeatingDevice {
        PIStepBounds(p, s.heatingSetPoint - t, Key(b, Heat), integrals);
      } else if t - s.coolingSetPoint > p.deadband {
        CoolingOrHeatingCools(p, b, s, integrals);
        PIStepBounds(p, t - s.coolingSetPoint, Key(b, CoHCool), integrals);
      } else if s.heatingSetPoint - t > p.deadband {
        CoolingOrHeatingHeats(p, b, s, integrals);
        PIStepBounds(p, s.heatingSetPoint - t, Key(b, CoHHeat), integrals);
      } else {
        CoolingOrHeatingIdles(p, b, s, integrals);
      }
    }
  }

  lemma {:induction false} ActAllInRange(p: Params, storageMap: RawActionMap, b: nat, names: seq<string>, s: Sensors, integrals: Integrals)
    requires 0.0 <= p.minPower <= p.maxPower <= 1.0
    requires DeviceValuesWithin(storageMap, -1.0, 1.0)
    ensures AllWithin(ActAll(p, storageMap, b, names, s, integrals).actions, -1.0, 1.0)
    decreases |names|
  {
    if |names| > 0 {
      var first := ActOne(p, storageMap, b, names[0], s, integrals);
      var rest := ActAll(p, storageMap, b, names[1..], s, first.integrals);
      ActOneInRange(p, storageMap, b, names[0], s, integrals);
      ActAllInRange(p, storageMap, b, names[1..], s, first.integrals);
      assert ActAll(p, storageMap, b, names, s, integrals).actions == [first.action] + rest.actions;
    } else {
      assert ActAll(p, storageMap, b, names, s, integrals).actions == [];
    }
  }

  lemma {:induction false} PredictFromInRange(p: Params, storageMap: RawActionMap, agents: seq<AgentSpace>, observations: seq<seq<real>>,
                                              b: nat, integrals: Integrals, i: nat)
    requires Readable(agents, observations)
    requires b <= i < ZipLength(|agents|, |observations|)
    requires 0.0 <= p.minPower <= p.maxPower <= 1.0
    requires DeviceValuesWithin(storageMap, -1.0, 1.0)
    ensures AllWithin(PredictFrom(p, storageMap, agents, observations, b, integrals).actions[i - b], -1.0, 1.0)
    decreases i - b
  {
    var s := SensorsOf(agents, observations, b);
    var row := ActAll(p, storageMap, b, agents[b].actionNames, s, integrals);
    PredictFromStep(p, storageMap, agents, observations, b, integrals);
    if i == b {
      ActAllInRange(p, storageMap, b, agents[b].actionNames, s, integrals);
    } else {
      PredictFromInRange(p, storageMap, agents, observations, b + 1, row.integrals, i);
    }
  }

  /** Every action `predict` returns lies in `[-1, 1]` when the power band
      and the storage map do. */
  lemma PredictInRange(c: Controller, agents: seq<AgentSpace>, observations: seq<seq<real>>)
    requires Readable(agents, observations)
    requires 0.0 <= c.params.minPower <= c.params.maxPower <= 1.0
    requires DeviceValuesWithin(c.storageMap, -1.0, 1.0)
    ensures forall i :: 0 <= i < ZipLength(|agents|, |observations|) ==>
      AllWithin(Predict(c, agents, observations).0[i], -1.0, 1.0)
  {
    forall i | 0 <= i < ZipLength(|agents|, |observations|)
      ensures AllWithin(Predict(c, agents, observations).0[i], -1.0, 1.0)
    {
      PredictFromInRange(c.params, c.storageMap, agents, observations, 0, c.integrals, i);
    }
  }

  // ---------------------------------------------------------------------------
  // A worked scenario.

  /** The cooling device of building 0 at 26.0 degrees against a 24.0 set
      point, from empty accumulators. */
  lemma DefaultCoolingRow(s: Sensors)
    requires s.indoor == Some(26.0) && s.coolingSetPoint == 24.0
    ensures ActAll(DefaultParams, NoMap, 0, [CoolingDeviceName], s, map[]) == Row([0.41], map[Key(0, Cool) := 2.0])
  {
    NoStorageInName(CoolingDeviceName);
    assert Classify(CoolingDeviceName) == CoolingDevice;
    var first := ActOne(DefaultParams, NoMap, 0, CoolingDeviceName, s, map[]);
    assert first == PIStep(DefaultParams, 2.0, Key(0, Cool), map[]);
    DefaultFirstStep(Key(0, Cool));
    assert [CoolingDeviceName][1..] == [];
    assert ActAll(DefaultParams, NoMap, 0, [], s, first.integrals) == Row([], first.integrals);
  }

  /** Default gains, one agent with a cooling device, 26.0 degrees indoors
      and no set point observed (24.0 assumed): the first `predict` after
      `reset` sends 0.2 * 2.0 + 0.005 * 2.0 = 0.41 and leaves the
      accumulator at 2.0. */
  lemma DefaultCoolingScenario()
    ensures var c := Controller(DefaultParams, NoMap, map[]);
      var agents := [AgentSpace([CoolingDeviceName], [IndoorTemperature])];
      var r := Predict(c, agents, [[26.0]]);
      r.0 == [[0.41]] && r.1.integrals == map[Key(0, Cool) := 2.0]
  {
    var agents := [AgentSpace([CoolingDeviceName], [IndoorTemperature])];
    var observations := [[26.0]];
    var s := SensorsOf(agents, observations, 0);
    ReadSensorsSpec([IndoorTemperature], [26.0]);
    DefaultCoolingRow(s);
    var row := Row([0.41], map[Key(0, Cool) := 2.0]);
    PredictFromStep(DefaultParams, NoMap, agents, observations, 0, map[]);
    PredictFromDone(DefaultParams, NoMap, agents, observations, 1, row.integrals);
  }
}
