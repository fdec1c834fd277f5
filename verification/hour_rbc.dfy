/**
 `HourRBC.predict` (citylearn/agents/rbc.py): each agent reads its `hour`
 observation, rounds it, tries the hour under the three encodings a
 schedule may use (as given, 0-23, 1-24) and sends every action name the
 value of its schedule at the first encoding the schedule defines.
 */
module HourRBC {
  import opened Base
  import opened Observations
  import opened ActionMap

  // ---------------------------------------------------------------------------
  // Rounding.

  /** Python's `round` on a float: the nearest integer, ties to the even one. */
  function RoundHalfEven(x: real): (r: int)
    ensures -0.5 <= x - r as real <= 0.5
    ensures x - r as real == 0.5 || x - r as real == -0.5 ==> r % 2 == 0
  {
    var f := x.Floor;
    var d := x - f as real;
    if d < 0.5 then f
    else if d > 0.5 then f + 1
    else if f % 2 == 0 then f
    else f + 1
  }

  /** The two ensures above pin the result down: an integer strictly closer
      than one half is the result, and of two integers at distance one half
      the even one is. */
  lemma RoundHalfEvenUnique(x: real, n: int)
    requires -0.5 < x - n as real < 0.5 || ((x - n as real == 0.5 || x - n as real == -0.5) && n % 2 == 0)
    ensures RoundHalfEven(x) == n
  {
  }

  // ---------------------------------------------------------------------------
  // Hour candidates.

  /** The hour as given, then its 0-23 reading, then its 1-24 reading. */
  function Encodings(h: int): (r: seq<int>)
    ensures |r| == 3 && r[0] == h
    ensures 0 <= r[1] <= 23 && 1 <= r[2] <= 24
    ensures r[1] % 24 == h % 24 && r[2] % 24 == h % 24
  {
    [h, h % 24, (h - 1) % 24 + 1]
  }

  /** Appending `x` unless it is already present (`if candidate not in
      hour_candidates`). */
  function AddNew(xs: seq<int>, x: int): seq<int> {
    if x in xs then xs else xs + [x]
  }

  predicate NoDuplicates(xs: seq<int>) {
    forall i, j :: 0 <= i < j < |xs| ==> xs[i] != xs[j]
  }

  /** The deduplicated candidate list of `predict`. */
  function Candidates(h: int): (r: seq<int>)
    ensures |r| > 0 && r[0] == h
    ensures NoDuplicates(r)
    ensures forall x :: x in r <==> x in Encodings(h)
  {
    var e := Encodings(h);
    AddNew(AddNew([e[0]], e[1]), e[2])
  }

  /** The candidates keep the order of the encodings: each one precedes the
      later encodings it is not equal to. */
  lemma CandidatesOrder(h: int)
    ensures h % 24 != h ==> Candidates(h)[1] == h % 24
    ensures h % 24 == h && (h - 1) % 24 + 1 != h ==> Candidates(h) == [h, (h - 1) % 24 + 1]
  {
  }

  /** An hour that is already in both ranges has no other reading. */
  lemma CandidatesOfDayHour(h: int)
    requires 1 <= h <= 23
    ensures Candidates(h) == [h]
  {
  }

  /** Midnight: 0 is also read as 24, and 24 also as 0. */
  lemma CandidatesAtMidnight()
    ensures Candidates(0) == [0, 24]
    ensures Candidates(24) == [24, 0]
  {
  }

  // ---------------------------------------------------------------------------
  // Lookup.

  /** The value at the first candidate present in `table`. */
  function LookupFirst(table: HourTable, candidates: seq<int>): (r: Option<real>)
    ensures r.None? <==> forall j :: 0 <= j < |candidates| ==> candidates[j] !in table
    ensures r.Some? ==> exists j :: 0 <= j < |candidates| && candidates[j] in table && r.value == table[candidates[j]]
                                   && forall k :: 0 <= k < j ==> candidates[k] !in table
    decreases |candidates|
  {
    if |candidates| == 0 then None
    else if candidates[0] in table then Some(table[candidates[0]])
    else
      var r := LookupFirst(table, candidates[1..]);
      assert forall j :: 1 <= j < |candidates| ==> candidates[j] == candidates[1..][j - 1];
      if r.Some? then
        var j :| 0 <= j < |candidates[1..]| && candidates[1..][j] in table && r.value == table[candidates[1..][j]]
                 && forall k :: 0 <= k < j ==> candidates[1..][k] !in table;
        assert candidates[j + 1] in table && r.value == table[candidates[j + 1]];
        r
      else
        r
  }

  /** A table defined on every hour 0-23, or on every hour 1-24, answers
      every rounded hour. */
  lemma TotalTableAnswers(table: HourTable, h: int)
    requires (forall k :: 0 <= k <= 23 ==> k in table) || (forall k :: 1 <= k <= 24 ==> k in table)
    ensures LookupFirst(table, Candidates(h)).Some?
  {
    var e := Encodings(h);
    if forall k :: 0 <= k <= 23 ==> k in table {
      assert e[1] in Candidates(h) && e[1] in table;
    } else {
      assert e[2] in Candidates(h) && e[2] in table;
    }
  }

  /** A table that defines the hour as given answers with that entry. */
  lemma LookupPrefersGivenHour(table: HourTable, h: int)
    requires h in table
    ensures LookupFirst(table, Candidates(h)) == Some(table[h])
  {
  }

  // ---------------------------------------------------------------------------
  // Predict.

  datatype LookupError =
    | UndefinedMap(action: string)                         // the agent's map has no table for this name
    | UndefinedHour(hourObservation: real, action: string)  // no candidate hour is in its table

  /** Name `name` has a table, and the table holds a candidate hour. */
  predicate Answered(m: DeviceMap, name: string, h: int) {
    name in m && LookupFirst(m[name], Candidates(h)).Some?
  }

  /** Every action name is answered. */
  predicate Answers(m: DeviceMap, names: seq<string>, h: int) {
    forall j :: 0 <= j < |names| ==> Answered(m, names[j], h)
  }

  /** The action of one name: `m[a_]` raises when the name has no table,
      and the candidate loop raises when no candidate is in it. */
  function LookupAction(m: DeviceMap, name: string, hourObservation: real, h: int): (r: Result<real, LookupError>)
    ensures r.Ok? <==> Answered(m, name, h)
    ensures r.Ok? ==> LookupFirst(m[name], Candidates(h)) == Some(r.value)
    ensures name !in m ==> r == Err(UndefinedMap(name))
    ensures name in m && r.Err? ==> r == Err(UndefinedHour(hourObservation, name))
  {
    if name !in m then Err(UndefinedMap(name))
    else
      match LookupFirst(m[name], Candidates(h))
      case None => Err(UndefinedHour(hourObservation, name))
      case Some(v) => Ok(v)
  }

  /** The actions of one agent at rounded hour `h`, name by name. */
  function AgentRow(m: DeviceMap, names: seq<string>, hourObservation: real, h: int): (r: Result<seq<real>, LookupError>)
    ensures r.Ok? ==> |r.value| == |names|
  {
    Collect(seq(|names|, j requires 0 <= j < |names| => LookupAction(m, names[j], hourObservation, h)))
  }

  /** A row succeeds exactly when every name is answered. */
  lemma AgentRowSucceeds(m: DeviceMap, names: seq<string>, hourObservation: real, h: int)
    ensures AgentRow(m, names, hourObservation, h).Ok? <==> Answers(m, names, h)
  {
    var rs := seq(|names|, j requires 0 <= j < |names| => LookupAction(m, names[j], hourObservation, h));
    CollectSucceeds(rs);
    assert forall j :: 0 <= j < |names| ==> (rs[j].Ok? <==> Answered(m, names[j], h));
  }

  /** On success, position `j` of the row holds the value of name `j`'s
      table at the first candidate hour it defines. */
  lemma AgentRowValue(m: DeviceMap, names: seq<string>, hourObservation: real, h: int, j: nat)
    requires AgentRow(m, names, hourObservation, h).Ok? && j < |names|
    ensures names[j] in m && LookupFirst(m[names[j]], Candidates(h)) == Some(AgentRow(m, names, hourObservation, h).value[j])
  {
    CollectValue(seq(|names|, j requires 0 <= j < |names| => LookupAction(m, names[j], hourObservation, h)), j);
  }

  /** A failure is the error of the first name that is not answered: a name
      without a table, or a table without any candidate hour. */
  lemma AgentRowFailure(m: DeviceMap, names: seq<string>, hourObservation: real, h: int)
    requires AgentRow(m, names, hourObservation, h).Err?
    ensures exists j ::
      && 0 <= j < |names| && !Answered(m, names[j], h)
      && (forall k :: 0 <= k < j ==> Answered(m, names[k], h))
      && AgentRow(m, names, hourObservation, h).error ==
           (if names[j] !in m then UndefinedMap(names[j]) else UndefinedHour(hourObservation, names[j]))
  {
    var rs := seq(|names|, j requires 0 <= j < |names| => LookupAction(m, names[j], hourObservation, h));
    CollectFailure(rs);
    var j :| 0 <= j < |rs| && rs[j].Err? && Collect(rs).error == rs[j].error && forall k :: 0 <= k < j ==> rs[k].Ok?;
    assert forall k :: 0 <= k < j ==> Answered(m, names[k], h) by {
      forall k | 0 <= k < j ensures Answered(m, names[k], h) {
        assert rs[k].Ok?;
      }
    }
  }

  /** What `predict` needs of its inputs: every processed agent has an
      `hour` observation with a value. */
  predicate HourReadable(agents: seq<AgentSpace>, observations: seq<seq<real>>, n: nat)
    requires n <= |agents| && n <= |observations|
  {
    forall i :: 0 <= i < n ==>
      Hour in agents[i].observationNames && FirstIndex(agents[i].observationNames, Hour) < |observations[i]|
  }

  /** The number of agents `predict` processes: `zip` of the maps, the
      agents and the observations. */
  function Processed(maps: seq<DeviceMap>, agents: seq<AgentSpace>, observations: seq<seq<real>>): (r: nat)
    ensures r <= |maps| && r <= |agents| && r <= |observations|
    ensures r == |maps| || r == |agents| || r == |observations|
  {
    ZipLength(ZipLength(|maps|, |agents|), |observations|)
  }

  /** The hour observation of agent `i` (the first position named `hour`). */
  function HourObservation(agents: seq<AgentSpace>, observations: seq<seq<real>>, i: nat): real
    requires i < |agents| && i < |observations|
    requires Hour in agents[i].observationNames && FirstIndex(agents[i].observationNames, Hour) < |observations[i]|
  {
    observations[i][FirstIndex(agents[i].observationNames, Hour)]
  }

  /** The rounded hour of agent `i`. */
  function HourOf(agents: seq<AgentSpace>, observations: seq<seq<real>>, i: nat): int
    requires i < |agents| && i < |observations|
    requires Hour in agents[i].observationNames && FirstIndex(agents[i].observationNames, Hour) < |observations[i]|
  {
    RoundHalfEven(HourObservation(agents, observations, i))
  }

  /** The rows of all processed agents, each either actions or an error. */
  function Rows(maps: seq<DeviceMap>, agents: seq<AgentSpace>, observations: seq<seq<real>>): (r: seq<Result<seq<real>, LookupError>>)
    requires HourReadable(agents, observations, Processed(maps, agents, observations))
    ensures |r| == Processed(maps, agents, observations)
    ensures forall i :: 0 <= i < |r| ==>
      r[i] == AgentRow(maps[i], agents[i].actionNames, HourObservation(agents, observations, i), HourOf(agents, observations, i))
  {
    seq(Processed(maps, agents, observations), i requires 0 <= i < Processed(maps, agents, observations) =>
      AgentRow(maps[i], agents[i].actionNames, HourObservation(agents, observations, i), HourOf(agents, observations, i)))
  }

  /** `HourRBC.predict`. Without a configured map the source defers to the
      base agent's random actions; that is `Ok(None)` here. Agents are taken
      in order and the first failing lookup aborts the call. */
  function HourPredict(actionMap: Option<seq<DeviceMap>>, agents: seq<AgentSpace>, observations: seq<seq<real>>): (r: Result<Option<seq<seq<real>>>, LookupError>)
    requires actionMap.Some? ==> HourReadable(agents, observations, Processed(actionMap.value, agents, observations))
    ensures actionMap.None? ==> r == Ok(None)
    ensures actionMap.Some? && r.Ok? ==> r.value.Some? && |r.value.value| == Processed(actionMap.value, agents, observations)
  {
    match actionMap
    case None => Ok(None)
    case Some(maps) =>
      var rows :- Collect(Rows(maps, agents, observations));
      Ok(Some(rows))
  }

  /** `predict` succeeds exactly when every processed agent's schedules
      answer its rounded hour. */
  lemma HourPredictSucceeds(maps: seq<DeviceMap>, agents: seq<AgentSpace>, observations: seq<seq<real>>)
    requires HourReadable(agents, observations, Processed(maps, agents, observations))
    ensures HourPredict(Some(maps), agents, observations).Ok? <==>
      forall i :: 0 <= i < Processed(maps, agents, observations) ==>
        Answers(maps[i], agents[i].actionNames, HourOf(agents, observations, i))
  {
    var rs := Rows(maps, agents, observations);
    CollectSucceeds(rs);
    forall i | 0 <= i < |rs|
      ensures rs[i].Ok? <==> Answers(maps[i], agents[i].actionNames, HourOf(agents, observations, i))
    {
      AgentRowSucceeds(maps[i], agents[i].actionNames, HourObservation(agents, observations, i), HourOf(agents, observations, i));
    }
  }

  /** On success agent `i` receives, for its `j`-th action name, that
      name's table at the first candidate of its rounded hour. */
  lemma HourPredictAction(maps: seq<DeviceMap>, agents: seq<AgentSpace>, observations: seq<seq<real>>, i: nat, j: nat)
    requires HourReadable(agents, observations, Processed(maps, agents, observations))
    requires HourPredict(Some(maps), agents, observations).Ok?
    requires i < Processed(maps, agents, observations) && j < |agents[i].actionNames|
    ensures var r := HourPredict(Some(maps), agents, observations).value.value;
      && |r[i]| == |agents[i].actionNames|
      && agents[i].actionNames[j] in maps[i]
      && LookupFirst(maps[i][agents[i].actionNames[j]], Candidates(HourOf(agents, observations, i))) == Some(r[i][j])
  {
    var rs := Rows(maps, agents, observations);
    CollectValue(rs, i);
    AgentRowValue(maps[i], agents[i].actionNames, HourObservation(agents, observations, i), HourOf(agents, observations, i), j);
  }

  /** A configuration whose every table is defined on all of 0-23, or on
      all of 1-24, never fails at prediction time. */
  lemma TotalMapsNeverFail(maps: seq<DeviceMap>, agents: seq<AgentSpace>, observations: seq<seq<real>>)
    requires HourReadable(agents, observations, Processed(maps, agents, observations))
    requires forall i, n :: 0 <= i < Processed(maps, agents, observations) && n in agents[i].actionNames ==> n in maps[i]
    requires forall i, n, k :: 0 <= i < |maps| && n in maps[i] && 1 <= k <= 24 ==> k in maps[i][n]
    ensures HourPredict(Some(maps), agents, observations).Ok?
  {
    forall i | 0 <= i < Processed(maps, agents, observations)
      ensures Answers(maps[i], agents[i].actionNames, HourOf(agents, observations, i))
    {
      var h := HourOf(agents, observations, i);
      forall j | 0 <= j < |agents[i].actionNames|
        ensures LookupFirst(maps[i][agents[i].actionNames[j]], Candidates(h)).Some?
      {
        TotalTableAnswers(maps[i][agents[i].actionNames[j]], h);
      }
    }
    HourPredictSucceeds(maps, agents, observations);
  }

  /** A schedule with a single hour fails every other hour that does not
      wrap onto it: `{5: 0.5}` at hour 12. */
  lemma SparseTableFails()
    ensures var agents := [AgentSpace(["cooling_device"], [Hour])];
      HourPredict(Some([map["cooling_device" := map[5 := 0.5]]]), agents, [[12.0]])
        == Err(UndefinedHour(12.0, "cooling_device"))
  {
    var agents := [AgentSpace(["cooling_device"], [Hour])];
    var maps := [map["cooling_device" := map[5 := 0.5]]];
    RoundHalfEvenUnique(12.0, 12);
    CandidatesOfDayHour(12);
    var row := AgentRow(maps[0], ["cooling_device"], 12.0, 12);
    assert row == Err(UndefinedHour(12.0, "cooling_device")) by {
      var rs := seq(1, j requires 0 <= j < 1 => LookupAction(maps[0], ["cooling_device"][j], 12.0, 12));
      assert rs == [Err(UndefinedHour(12.0, "cooling_device"))];
    }
    assert Rows(maps, agents, [[12.0]]) == [row];
  }
}
