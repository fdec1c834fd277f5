/**
 The action-map normaliser of `HourRBC` (the `action_map` setter and
 `__verify_action_map` in citylearn/agents/rbc.py). A user schedule comes in
 one of three shapes and is turned into the canonical form: one
 device-name -> hour -> value map per agent, checked to cover every action
 name of every agent.
 */
module ActionMap {
  import opened Base

  /** hour -> action value */
  type HourTable = map<int, real>

  /** action name -> hour table */
  type DeviceMap = map<string, HourTable>

  /** The three shapes a user may supply, plus "no map". The source tells the
      shapes apart by their runtime types; here the shape is a tag. */
  datatype RawActionMap =
    | NoMap
    | PerAgent(maps: seq<DeviceMap>)    // one device map per agent
    | ByDevice(devices: DeviceMap)      // one device map shared by all agents
    | Flat(table: HourTable)            // one hour table for every device

  datatype ConfigError =
    | AgentCountMismatch(agents: nat)                      // list length differs from the agent count
    | UndefinedMaps(missing: set<string>, index: Option<nat>) // uncovered action names (and the agent, for a list)
    | UnknownActionName(name: string)                      // a preset has no schedule for this name

  /** The action names of one agent that `m` has no table for. */
  function Missing(names: seq<string>, m: DeviceMap): (r: set<string>)
    ensures forall n :: n in r <==> n in names && n !in m
  {
    set n | n in names && n !in m
  }

  /** Every action name of every agent. */
  function AllNames(agents: seq<seq<string>>): (r: set<string>)
    ensures forall i, n :: 0 <= i < |agents| && n in agents[i] ==> n in r
    ensures forall n :: n in r ==> exists i :: 0 <= i < |agents| && n in agents[i]
  {
    set i, n | 0 <= i < |agents| && n in agents[i] :: n
  }

  /** The canonical-map invariant: one device map per agent, each with a
      table for every action name of its agent. */
  ghost predicate Covers(maps: seq<DeviceMap>, agents: seq<seq<string>>) {
    && |maps| == |agents|
    && forall i, n :: 0 <= i < |agents| && n in agents[i] ==> n in maps[i]
  }

  /** The per-agent check of a list: the first agent from `i` on whose map
      misses one of its names. */
  function FirstUncovered(maps: seq<DeviceMap>, agents: seq<seq<string>>, i: nat): (r: Option<nat>)
    requires |maps| == |agents| && i <= |agents|
    ensures r.None? <==> forall j :: i <= j < |agents| ==> Missing(agents[j], maps[j]) == {}
    ensures r.Some? ==> i <= r.value < |agents| && Missing(agents[r.value], maps[r.value]) != {}
    ensures r.Some? ==> forall j :: i <= j < r.value ==> Missing(agents[j], maps[j]) == {}
    decreases |agents| - i
  {
    if i == |agents| then None
    else if Missing(agents[i], maps[i]) != {} then Some(i)
    else FirstUncovered(maps, agents, i + 1)
  }

  /** `{n_: action_map[n_] for n_ in set(n)}` */
  function Project(devices: DeviceMap, names: seq<string>): DeviceMap {
    map n | n in names && n in devices :: devices[n]
  }

  /** `{n_: action_map for n_ in set(n)}` */
  function Broadcast(table: HourTable, names: seq<string>): DeviceMap {
    map n | n in names :: table
  }

  /** The `action_map` setter of `HourRBC`. A dict shape must be non-empty:
      the source reads its first value to tell the two dict shapes apart. */
  function Normalize(raw: RawActionMap, agents: seq<seq<string>>): (r: Result<Option<seq<DeviceMap>>, ConfigError>)
    requires raw.ByDevice? ==> |raw.devices| > 0
    requires raw.Flat? ==> |raw.table| > 0
    ensures raw.NoMap? ==> r == Ok(None)
    ensures r.Ok? && r.value.Some? ==> Covers(r.value.value, agents)
    // a list is checked agent by agent and kept as given
    ensures raw.PerAgent? ==>
      (r.Ok? <==>
        |raw.maps| == |agents| && forall i :: 0 <= i < |agents| ==> Missing(agents[i], raw.maps[i]) == {})
    ensures raw.PerAgent? && r.Ok? ==> r.value == Some(raw.maps)
    ensures raw.PerAgent? && |raw.maps| != |agents| ==> r == Err(AgentCountMismatch(|agents|))
    ensures raw.PerAgent? && |raw.maps| == |agents| && r.Err? ==>
      && r.error.UndefinedMaps? && r.error.index.Some?
      && var i := r.error.index.value;
      && i < |agents| && r.error.missing == Missing(agents[i], raw.maps[i]) != {}
      && forall j :: 0 <= j < i ==> Missing(agents[j], raw.maps[j]) == {}
    // a device-keyed map is checked against all names, then projected per agent
    ensures raw.ByDevice? ==> (r.Ok? <==> AllNames(agents) <= raw.devices.Keys)
    ensures raw.ByDevice? && r.Err? ==> r.error == UndefinedMaps(AllNames(agents) - raw.devices.Keys, None)
    ensures raw.ByDevice? && r.Ok? ==>
      && r.value.Some? && |r.value.value| == |agents|
      && forall i :: 0 <= i < |agents| ==>
           && (forall n :: n in r.value.value[i] <==> n in agents[i])
           && (forall n :: n in r.value.value[i] ==> r.value.value[i][n] == raw.devices[n])
    // a flat table is given to every name of every agent
    ensures raw.Flat? ==>
      && r.Ok? && r.value.Some? && |r.value.value| == |agents|
      && forall i :: 0 <= i < |agents| ==>
           && (forall n :: n in r.value.value[i] <==> n in agents[i])
           && (forall n :: n in r.value.value[i] ==> r.value.value[i][n] == raw.table)
  {
    match raw
    case NoMap => Ok(None)
    case PerAgent(maps) =>
      if |maps| != |agents| then Err(AgentCountMismatch(|agents|))
      else
        var bad := FirstUncovered(maps, agents, 0);
        if bad.Some? then Err(UndefinedMaps(Missing(agents[bad.value], maps[bad.value]), Some(bad.value)))
        else
          assert forall i, n :: 0 <= i < |agents| && n in agents[i] ==> n in maps[i] by {
            forall i, n | 0 <= i < |agents| && n in agents[i] ensures n in maps[i] {
              assert n !in Missing(agents[i], maps[i]);
            }
          }
          Ok(Some(maps))
    case ByDevice(devices) =>
      var missing := AllNames(agents) - devices.Keys;
      if missing != {} then Err(UndefinedMaps(missing, None))
      else
        var ms := seq(|agents|, i requires 0 <= i < |agents| => Project(devices, agents[i]));
        assert forall i, n :: 0 <= i < |agents| && n in agents[i] ==> n in ms[i] by {
          forall i, n | 0 <= i < |agents| && n in agents[i] ensures n in ms[i] {
            assert n in AllNames(agents);
            assert n !in missing;
            assert ms[i] == Project(devices, agents[i]);
          }
        }
        Ok(Some(ms))
    case Flat(table) =>
      Ok(Some(seq(|agents|, i requires 0 <= i < |agents| => Broadcast(table, agents[i]))))
  }

  /** A device-keyed map reaches every agent that owns a name with the same
      table: two agents sharing a name share its schedule. */
  lemma SharedNameSharedTable(devices: DeviceMap, agents: seq<seq<string>>, i: nat, j: nat, n: string)
    requires |devices| > 0
    requires Normalize(ByDevice(devices), agents).Ok?
    requires i < |agents| && j < |agents| && n in agents[i] && n in agents[j]
    ensures var ms := Normalize(ByDevice(devices), agents).value.value;
      n in ms[i] && n in ms[j] && ms[i][n] == ms[j][n] == devices[n]
  {
  }

  /** Extra tables never cause a configuration error: adding names to a
      device-keyed map that normalises keeps it normalising. */
  lemma ExtraKeysHarmless(devices: DeviceMap, extra: DeviceMap, agents: seq<seq<string>>)
    requires |devices| > 0
    requires Normalize(ByDevice(devices), agents).Ok?
    ensures Normalize(ByDevice(devices + extra), agents).Ok?
  {
  }

  /** Action values of a raw map that the PI controller can read as storage
      actions lie in `[lo, hi]`. */
  ghost predicate DeviceValuesWithin(raw: RawActionMap, lo: real, hi: real) {
    raw.ByDevice? ==>
      forall n, h :: n in raw.devices && h in raw.devices[n] ==> lo <= raw.devices[n][h] <= hi
  }
}
