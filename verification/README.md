# CityLearn rule-based controllers, modelled in Dafny

This project models the rule-based controllers of CityLearn
(`citylearn/agents/rbc.py`). CityLearn is a building-energy simulation
environment. Its rule-based agents decide, once per time step, how much each
device of each building should charge, discharge, cool or heat. Every action is
a real number, usually in `[-1, 1]`.

The model covers two families of controller.

- `PITemperatureController` runs a proportional-integral (PI) loop for
  cooling, heating and combined cooling-or-heating devices.
  - Each device has its own integral accumulator, keyed by building index
    and device role.
  - The accumulator has a deadband and anti-windup clamping.
  - The output is scaled into a power band.
  - Storage devices follow fixed hour bands, or an optional storage map.
    Electrical storage follows a fixed solar-aware rule.
- `HourRBC` and its four presets follow hour-of-day schedules.
  - An action map can be supplied in three shapes: one hour table for every
    device, one hour table per device name, or one device map per agent. The
    setter turns each shape into one device map per agent, after checking
    that every action name is covered.
  - `predict` rounds each agent's `hour` observation half to even. It then
    tries the hour as given, in 0-23 and in 1-24, and sends every device the
    value of the first hour its table defines.
  - The presets `BasicRBC`, `OptimizedRBC`, `BasicBatteryRBC` and
    `BasicElectricVehicleRBC_ReferenceController` are written out as data:
    lists of name patterns, each with an hour schedule. When no map is given,
    the setter uses that data to build the map for the agents' action names.

Each file holds one module:

| file | module | contents |
|---|---|---|
| `base.dfy` | `Base` | `Option`, `Result`, error collection, substring search, clamping, the agent view (action and observation names) |
| `pi_controller.dfy` | `PIController` | integral key, one PI step, reset, anti-windup and monotonicity laws |
| `observations.dfy` | `Observations` | the scan of an agent's observation names for temperature, set points and hour |
| `pi_predict.dfy` | `PIPredict` | `PITemperatureController.predict`: dispatch by action name, the combined device, the batch over agents |
| `action_map.dfy` | `ActionMap` | the `HourRBC.action_map` setter and its completeness check |
| `hour_rbc.dfy` | `HourRBC` | rounding, hour candidates, table lookup, `HourRBC.predict` and its error |
| `presets.dfy` | `Presets` | the schedules and the four preset setters |

How the model represents the source:

- Controller state is passed explicitly. The accumulator dictionary is a
  `map<Key, real>` that every step takes and returns.
- A step that can raise returns a `Result` whose error names the failure:
  - `UndefinedMaps` for the completeness check;
  - `AgentCountMismatch` for a per-agent list of the wrong length;
  - `UnknownActionName` for the presets;
  - `UndefinedMap` or `UndefinedHour` for the `KeyError` of `HourRBC.predict`.
- Python floats are `real`s.
- `zip` is modelled as stopping at its shortest argument.
- The hour domain that the presets iterate over is a parameter. The constant
  `Presets.DayHours` holds the domain 1 to 24 that the environment's
  metadata supplies.

## Model

| member | source | states |
|---|---|---|
| PIController.KeyStringInjective | citylearn/agents/rbc.py:88-90 | two integral keys with the same string form `"{building}_{device_type}"` are the same (building, role) pair, so no two devices share an accumulator |
| PIController.Reset | citylearn/agents/rbc.py:83-86 | after a reset no accumulator is stored, and every accumulator reads as 0.0 |
| PIController.PIStep | citylearn/agents/rbc.py:107-138 | `key` is stored afterwards and no other accumulator changes; inside the deadband the action is 0.0 and the accumulator is zeroed; outside it the accumulator is the old value plus the error, clamped to ±limit, and the action is the power output of `kp*error + ki*accumulator` |
| PIController.PIStepBounds | citylearn/agents/rbc.py:119-138 | the stepped accumulator lies within ±`integral_limit`, and the action is either exactly 0.0 or inside `[min_power, max_power]` |
| PIController.StepKeepsWithinLimit | citylearn/agents/rbc.py:119-123 | if every accumulator is within ±limit before a step, every one is within it after the step |
| PIController.SustainedErrorAccumulates | citylearn/agents/rbc.py:112-123 | the same out-of-deadband error applied `n` times to an accumulator starting at 0 leaves `clamp(n*error, -limit, limit)`: anti-windup is only a saturation |
| PIController.SustainedErrorActionMonotone | citylearn/agents/rbc.py:116-138 | under a persistent positive error with non-negative `ki` and `0 <= min_power <= max_power`, the action never decreases from one step to the next |
| PIController.PowerOutput | citylearn/agents/rbc.py:131-138 | a non-positive PI signal gives 0.0; a positive one gives a value in `[min_power, max_power]`; a non-negative `min_power` makes every output non-negative |
| PIController.PowerOutputBand | citylearn/agents/rbc.py:132-134 | a signal of at least 1 saturates at `max_power`; a signal in (0, 1] maps affinely onto `[min_power, max_power]` |
| PIController.PowerOutputMonotone | citylearn/agents/rbc.py:131-138 | with `0 <= min_power <= max_power`, a larger PI signal never gives a smaller output |
| PIController.DefaultFirstStep | citylearn/agents/rbc.py:116-138 | with the code's default gains (kp 0.2, ki 0.005), an error of 2.0 on a fresh key gives the action 0.41 and leaves the accumulator at 2.0 |
| Observations.LastValue | citylearn/agents/rbc.py:167-175 | a feature reads as absent exactly when its name is absent; otherwise it reads as the value at the last position carrying the name, since later matches overwrite earlier ones |
| Observations.ReadSensorsSpec | citylearn/agents/rbc.py:161-181 | indoor temperature and hour are that last value or absent; a set point that is not observed defaults to 24.0 (cooling) or 20.0 (heating) |
| Observations.ScanSensors | citylearn/agents/rbc.py:167-181 | the loop over observation names yields exactly the readings `ReadSensors` specifies, with each absent feature absent and each absent set point at its default |
| Observations.FirstIndex | citylearn/agents/rbc.py:363 | `list.index`: the first position holding the feature, with no earlier occurrence |
| ActionMap.Normalize | citylearn/agents/rbc.py:316-338 | no map stays absent. A per-agent list must have one map per agent, and each map must cover its agent's names; otherwise the error names the first agent missing a name and the names it misses. A device-keyed map is accepted iff it covers all names, and is then projected per agent onto that agent's names; otherwise all missing names are reported. A flat hour table is given to every name of every agent. An accepted result covers every agent |
| ActionMap.FirstUncovered | citylearn/agents/rbc.py:321-323 | the first agent, from a given one on, whose map misses one of its names, and none is found exactly when all are covered |
| ActionMap.SharedNameSharedTable | citylearn/agents/rbc.py:325-330 | two agents sharing an action name receive the same hour table for it from a device-keyed map |
| ActionMap.ExtraKeysHarmless | citylearn/agents/rbc.py:391-395 | the check only looks for missing names: adding or replacing tables in an accepted device-keyed map never makes it rejected |
| PIPredict.ElectricalStorageAction | citylearn/agents/rbc.py:185-191 | charge 0.11 exactly when the hour lies in [6, 14], discharge -0.067 exactly at other observed hours, and 0.0 exactly when no hour is observed (corrected behaviour; see Findings) |
| PIPredict.ElectricalStorageAsWritten | citylearn/agents/rbc.py:185-191 | the branch as written: with an hour it agrees with the corrected rule; without one it appends whatever the previous action name left in `action_value` |
| PIPredict.StaleStorageAction | citylearn/agents/rbc.py:183-225 | a cooling device that has just computed 0.41 makes an electrical storage device without an hour observation receive 0.41, where the corrected rule gives 0.0 |
| PIPredict.TableGet | citylearn/agents/rbc.py:196-198 | `dict.get(hour, 0.0)` with a float hour finds the table value only for an integral hour that is a key, and gives 0.0 otherwise |
| PIPredict.CoolingOrHeatingFrame | citylearn/agents/rbc.py:237-270 | the combined device changes only its own building's two combined accumulators, and without an indoor temperature it changes nothing and sends 0.0 |
| PIPredict.CoolingOrHeatingExclusive | citylearn/agents/rbc.py:242-266 | after a step with an indoor temperature, both combined accumulators are stored and at least one of them is 0.0 |
| PIPredict.CoolingOrHeatingCools | citylearn/agents/rbc.py:242-249 | too hot: the heating accumulator is zeroed, the cooling one steps as a plain PI step, and the action is the negated PI action, hence non-positive |
| PIPredict.CoolingOrHeatingHeats | citylearn/agents/rbc.py:251-258 | not too hot but too cold: the cooling accumulator is zeroed, the heating one steps, and the action is the non-negative PI action |
| PIPredict.CoolingOrHeatingIdles | citylearn/agents/rbc.py:259-266 | neither: the action is 0.0 and both accumulators are zeroed |
| PIPredict.Classify | citylearn/agents/rbc.py:183-274 | the `if/elif` dispatch: electrical storage exactly when the name contains `electrical_storage`; other storage exactly when it contains `storage` but not `electrical_storage`; the three temperature devices exactly on their exact names; unrecognised exactly when none of these holds |
| PIPredict.DefaultStorageAction | citylearn/agents/rbc.py:204-213 | without a storage map: discharge -0.08 exactly at observed hours 9 to 21, charge 0.091 exactly at observed hours 1 to 8 and 22 to 24, and 0.0 otherwise, including when no hour is observed |
| PIPredict.StorageAction | citylearn/agents/rbc.py:193-215 | no storage map gives the default bands; a dict map that has the name gives that table's entry at the observed hour (0.0 if the hour is not a key); a dict without the name (a single hour table is keyed by hours, so it never has one), a list of maps, or a missing hour gives 0.0 |
| PIPredict.PIAction | citylearn/agents/rbc.py:217-270 | without an indoor temperature the action is 0.0 and nothing changes; cooling steps the building's cooling accumulator on indoor minus cooling set point; heating steps the heating accumulator on heating set point minus indoor; the combined device follows the combined rule |
| PIPredict.ActOneSpec | citylearn/agents/rbc.py:183-274 | one rule per branch: `electrical_storage` names get the electrical-storage rule; other `storage` names the storage-map or default bands; `cooling_device`, `heating_device` and `cooling_or_heating_device` their PI rule on their own building key (0.0 and no change without indoor temperature); any other name 0.0. Storage and unknown names leave the accumulators alone; any name changes at most its own building's accumulators for the roles it drives |
| PIPredict.ActAll | citylearn/agents/rbc.py:183-276 | one building's row has exactly one action per action name |
| PIPredict.ActAllAction | citylearn/agents/rbc.py:183-276 | the `j`-th action of a building is the per-name rule for its `j`-th name, applied to the accumulators the names before it left |
| PIPredict.PredictFrom | citylearn/agents/rbc.py:156-158 | from agent `b` on, one action vector for each remaining zipped agent |
| PIPredict.PredictFromRow | citylearn/agents/rbc.py:158-276 | agent `i`'s action vector is its building's row computed on the accumulators the agents before it left |
| PIPredict.PredictFromAccumulators | citylearn/agents/rbc.py:158-276 | the accumulators after the batch are those left by running every zipped agent in order |
| PIPredict.ResetController | citylearn/agents/rbc.py:83-86 | reset keeps gains and storage map and makes every accumulator read 0.0 |
| PIPredict.Predict | citylearn/agents/rbc.py:156-158 | one action vector per agent, as many as both the agent list and the observation batch have; gains and storage map unchanged |
| PIPredict.PredictSpec | citylearn/agents/rbc.py:156-281 | each agent gets one action per action name; every name that is not a temperature device gets its fixed action from that agent's own sensors; accumulators of buildings beyond the processed agents are untouched; agent `i` gets its building's row on the accumulators the agents before it left, and the controller ends with the accumulators all agents leave |
| PIPredict.PredictAction | citylearn/agents/rbc.py:156-276 | action `j` of agent `i` is the per-name rule for name `j` of agent `i`, on the accumulators left by the agents before `i` and by the names before `j` |
| PIPredict.ResetEstablishesInvariant | citylearn/agents/rbc.py:83-86 | right after reset every accumulator is within the limit and no building has both combined accumulators non-zero |
| PIPredict.PredictKeepsInvariant | citylearn/agents/rbc.py:156-281 | `predict` preserves that invariant: anti-windup bounds and combined-device mutual exclusion |
| PIPredict.PredictInRange | citylearn/agents/rbc.py:183-274 | with a power band inside [0, 1] and storage-map values inside [-1, 1], every action of every agent lies in [-1, 1] |
| PIPredict.DefaultCoolingScenario | citylearn/agents/rbc.py:217-225 | default gains, one cooling device at 26.0 degrees with no set point observed: the first `predict` after reset sends 0.41 and leaves the accumulator at 2.0 |
| HourRBC.RoundHalfEven | citylearn/agents/rbc.py:364 | Python `round`: the result is within 0.5 of the observation, and on a tie it is even |
| HourRBC.RoundHalfEvenUnique | citylearn/agents/rbc.py:364 | any integer within 0.5 of the observation (and even on a tie) is the rounded hour, so rounding is fully determined |
| HourRBC.Candidates | citylearn/agents/rbc.py:366-370 | the candidates start with the hour as given, hold no duplicate, and are exactly the hour as given, in 0-23 and in 1-24 |
| HourRBC.CandidatesOrder | citylearn/agents/rbc.py:366-370 | the 0-23 encoding comes second whenever it differs from the hour; otherwise the 1-24 encoding follows the hour |
| HourRBC.CandidatesOfDayHour | citylearn/agents/rbc.py:366-370 | hours 1 to 23 are their own only candidate |
| HourRBC.CandidatesAtMidnight | citylearn/agents/rbc.py:365-370 | hour 0 tries 0 then 24, and hour 24 tries 24 then 0 |
| HourRBC.LookupFirst | citylearn/agents/rbc.py:375-380 | no value exactly when the table defines no candidate; otherwise the value of a candidate the table defines |
| HourRBC.LookupPrefersGivenHour | citylearn/agents/rbc.py:375-380 | a table that defines the hour as given answers with that entry |
| HourRBC.TotalTableAnswers | citylearn/agents/rbc.py:365-380 | a table covering 0-23 or 1-24 answers every integer hour |
| HourRBC.LookupAction | citylearn/agents/rbc.py:374-382 | succeeds exactly when the name has a table answering a candidate, with that first answer; a missing table is reported as `UndefinedMap` with the action name, and a table with no candidate hour as `UndefinedHour` with the raw hour observation and the action name |
| HourRBC.AgentRow | citylearn/agents/rbc.py:374-384 | a successful row has exactly one action per action name, in order |
| HourRBC.AgentRowSucceeds | citylearn/agents/rbc.py:374-382 | an agent's row succeeds exactly when every one of its names is answered |
| HourRBC.AgentRowValue | citylearn/agents/rbc.py:374-380 | the `j`-th action of a successful row is the first answer of the `j`-th name's table |
| HourRBC.AgentRowFailure | citylearn/agents/rbc.py:374-382 | a failed row reports the first unanswered name, after answering all names before it |
| HourRBC.HourPredict | citylearn/agents/rbc.py:356-389 | with no map, the random fallback of the base agent (no action vector here); with maps, one row per zipped agent |
| HourRBC.HourPredictSucceeds | citylearn/agents/rbc.py:362-384 | `predict` succeeds exactly when every processed agent's names are all answered at that agent's rounded hour |
| HourRBC.HourPredictAction | citylearn/agents/rbc.py:362-384 | each action of a successful `predict` is the first answer of its table at the agent's rounded hour |
| HourRBC.TotalMapsNeverFail | citylearn/agents/rbc.py:362-384 | maps that cover every agent's names with tables holding 1 to 24 never raise, at any hour observation |
| HourRBC.SparseTableFails | citylearn/agents/rbc.py:378-382 | a cooling table defined only at hour 5, observed at hour 12.0, raises the lookup error naming 12.0 and `cooling_device` |
| Presets.ValueAt | citylearn/agents/rbc.py:429-438 | the scheduled value is either the `else` value or the value of one of the bands |
| Presets.ValueAtFirstMatch | citylearn/agents/rbc.py:429-438 | the `if/elif` chain over the hour gives the value of the first band whose condition holds |
| Presets.ValueAtNoMatch | citylearn/agents/rbc.py:429-438 | when no band holds, the value is the `else` value |
| Presets.ScheduleFor | citylearn/agents/rbc.py:426-476 | a name gets the schedule of the first entry whose pattern matches, and none exactly when no pattern matches |
| Presets.BuildTable | citylearn/agents/rbc.py:430-438 | a preset table is defined at exactly the hours of the domain, each with the schedule's value |
| Presets.DayHoursSpan | citylearn/agents/rbc.py:291 | the hour domain is exactly the hours 1 to 24 |
| Presets.Flatten | citylearn/agents/rbc.py:423-424 | the flattened name list holds exactly the names of all agents |
| Presets.FirstUnknown | citylearn/agents/rbc.py:426-476 | no unknown name exactly when the preset matches every name; otherwise a listed name the preset does not match |
| Presets.PresetMap | citylearn/agents/rbc.py:421-476 | the preset's device map is built exactly when every name of every agent matches some pattern, and then holds each name's table; otherwise the `ValueError` names an unmatched name |
| Presets.Configure | citylearn/agents/rbc.py:419-478 | a supplied map goes unchanged to the `HourRBC` setter |
| Presets.ConfigureFromPresetFails | citylearn/agents/rbc.py:419-478 | without a supplied map, configuration fails exactly when some name matches no pattern, and then names such a name |
| Presets.ConfigureFromPresetTables | citylearn/agents/rbc.py:419-478 | once accepted, each agent receives, for exactly its own names, the preset's table of each name |
| Presets.ConfiguredTableHours | citylearn/agents/rbc.py:426-438 | every table of an accepted preset configuration is defined on exactly the hour domain |
| Presets.PresetTablesSpanDay | citylearn/agents/rbc.py:426-438 | with the 1-24 domain, an accepted preset configuration covers every agent and every table holds every hour from 1 to 24 |
| Presets.PresetNeverMissesAnHour | citylearn/agents/rbc.py:362-382 | with the 1-24 domain, an accepted preset configuration never makes `predict` raise |
| Presets.PresetValuesWithin | citylearn/agents/rbc.py:419-775 | every value a preset schedules, at any hour, lies in [-1, 1] |
| Presets.CoolingOrHeatingShared | citylearn/agents/rbc.py:462-473 | in all four presets the combined device follows one schedule: 0.4 before 7, negative (cooling) exactly from 7 to 20, 0.8 from 21 |
| Presets.BatteryChargesAroundMidday | citylearn/agents/rbc.py:622-629 | `BasicBatteryRBC` gives every storage name a charge of 0.11 exactly from 6 to 14, and a discharge of -0.067 otherwise |
| Presets.BasicStorageBands | citylearn/agents/rbc.py:429-438 | `BasicRBC` storage charges exactly at 1-8 and 22-24, discharges exactly at 9-21, and is idle exactly outside 1-24 |
| Presets.OptimizedStorageBands | citylearn/agents/rbc.py:520-535 | `OptimizedRBC` storage discharges exactly from 7 to 22 and charges exactly at 1-6 and 23-24 |
| Presets.CoolingHeatingComplementary | citylearn/agents/rbc.py:440-460 | `BasicRBC` cooling and heating shares add up to 1.2 at every hour 1-24; `BasicBatteryRBC`'s add up to 1.0 at every hour |
| Presets.PIStorageRulesArePresets | citylearn/agents/rbc.py:204-211 | the PI controller's built-in storage bands equal `BasicRBC`'s storage schedule, and its electrical-storage rule equals `BasicBatteryRBC`'s, at every whole hour |
| Presets.UnknownNameRejected | citylearn/agents/rbc.py:475-476 | a lone name that no pattern matches is rejected with `ValueError` naming it |
| Presets.ElectricVehicleRejectsCoolingStorage | citylearn/agents/rbc.py:697-773 | `cooling_storage` gets `BasicRBC`'s storage schedule, but the EV reference controller, which matches `electrical_storage` exactly and only `dhw_storage` by infix, matches it with nothing |
| Presets.ElectricVehicleConfigureRejects | citylearn/agents/rbc.py:686-775 | configuring the EV reference controller for one `cooling_storage` device fails with `ValueError` naming it |

## Left out

- The agent substrate (`citylearn/agents/base.py`) is not part of this model. `action_names`, `observation_names` and `action_dimension` are inputs (`Base.AgentSpace`, the agent list). `next_time_step()` and the stored `self.actions` have no observable effect on the actions and are omitted.
- `super().predict` in `HourRBC.predict` with no map returns random actions from the base agent. It is modelled only as `Ok(None)`, because randomness and the base agent are outside the model.
- `Building.get_periodic_observation_metadata()` is outside the model. Its hour list is the parameter `hours`; `Presets.DayHours` holds the documented 1 to 24.
- PIPredict.Predict: uses the corrected electrical-storage rule, which sends 0.0 when no hour is observed. The source instead appends the stale `action_value` or raises `UnboundLocalError`; see Findings.
- Floats are `real`s: no rounding error, infinities or NaN. Python `round` is modelled exactly (half to even) on reals.
- Paths that crash in the source are preconditions:
  - an observation vector shorter than the index of a recognised feature;
  - an agent without an `hour` feature in `HourRBC.predict` (`list.index` raises);
  - an empty dict map (`list(action_map.values())[0]` raises);
  - a preset configured with no action name at all (its map is then the empty dict).
- Set iteration order: the source turns names into `list(set(...))`, so when several names are unknown, which one the `ValueError` names is unspecified. The model reports the first in agent order, and the contracts only promise "an unknown name". The completeness check reports missing names as a set.
- Exception messages are reduced to the error's data (names, agent index, hour observation); message strings are not modelled.
- The `deterministic` argument of both `predict` methods has no effect in this code and is omitted.
- The `ki` default is documented as 0.05 but is 0.005 in the code; the model follows the code. `max_temp_diff` is documented but is not a parameter, so it is absent.
- Dataset-download and file-copying fixtures of the test suite are plumbing, not controller logic.

## Findings

| source | as written | input that shows it | evidently intended | confidence | as-written member | corrected member |
|---|---|---|---|---|---|---|
| citylearn/agents/rbc.py:185-191 | an `electrical_storage` action without an `hour` observation assigns nothing and appends the `action_value` left by the previous action name (of this or an earlier building), or raises `UnboundLocalError` if there is none | one building with actions `["cooling_device", "electrical_storage"]`, default gains, indoor 26.0, no `hour` feature: the battery is sent 0.41, the cooling effort | a neutral 0.0, as every other branch gives when its inputs are missing | not executed | PIPredict.StaleStorageAction | PIPredict.ElectricalStorageAction |
