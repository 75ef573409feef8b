/**
 * The simulation engine (`Model` in comma/model.py): the population's agents, the step that
 * moves them through infection and recovery and lets them act, the per-step mental-health time
 * series and the run driver that ties them together.
 */
module Simulation {
  import opened Wrappers
  import opened Errors
  import opened Sequences
  import opened Individuals
  import opened Steps

  /** One entry of the time series: the 6-tuple `update` records per agent. */
  datatype Snapshot = Snapshot(
    lockdown: string, agentId: int, delta: real, cumulative: real, covidStatus: int, days: Option<int>)

  /** One row of the report: the step id followed by the snapshot's six fields. */
  datatype ReportRow = ReportRow(
    stepId: int, lockdown: string, agentId: int, delta: real, cumulative: real, covidStatus: int, days: Option<int>)

  // ---------------------------------------------------------------------------------------
  // The time series, as values

  /** The first snapshot of agent `id` in `prev`, as the comprehension `[... if status[1] == id][0]` finds it. */
  function FirstWithId(prev: seq<Snapshot>, id: int): (r: Option<Snapshot>)
    ensures r.None? <==> forall j :: 0 <= j < |prev| ==> prev[j].agentId != id
    ensures r.Some? ==> exists j :: 0 <= j < |prev| && prev[j] == r.value && r.value.agentId == id &&
                          forall l :: 0 <= l < j ==> prev[l].agentId != id
  {
    if prev == [] then None
    else if prev[0].agentId == id then Some(prev[0])
    else
      var r := FirstWithId(prev[1..], id);
      if r.Some? then
        var j :| 0 <= j < |prev[1..]| && prev[1..][j] == r.value && r.value.agentId == id &&
                 forall l :: 0 <= l < j ==> prev[1..][l].agentId != id;
        assert prev[j + 1] == r.value;
        r
      else r
  }

  /** Every agent id has a snapshot in `prev`. */
  predicate AllFound(prev: seq<Snapshot>, ids: seq<int>) {
    forall i :: 0 <= i < |ids| ==> FirstWithId(prev, ids[i]).Some?
  }

  /** `c` is the cumulative value of the first snapshot of agent `id` in `prev`. */
  predicate PreviousCumulative(prev: seq<Snapshot>, id: int, c: real) {
    exists j :: 0 <= j < |prev| && prev[j].agentId == id && prev[j].cumulative == c &&
      forall l :: 0 <= l < j ==> prev[l].agentId != id
  }

  /** A snapshot of step 0: no change yet, and the agent's status as its cumulative value. */
  function FirstSnapshot(lockdown: string, id: int, s: AgentState): Snapshot {
    Snapshot(lockdown, id, 0.0, s.status, s.covidStatus, s.daysSincePositive)
  }

  /** A later snapshot: the status is the change, added to the previous cumulative value less the baseline. */
  function NextSnapshot(lockdown: string, id: int, s: AgentState, previous: real, baseline: real): Snapshot {
    Snapshot(lockdown, id, s.status, (previous + s.status) - baseline, s.covidStatus, s.daysSincePositive)
  }

  /**
   * The snapshots `update(lockdown, step)` records, given the series so far, the agents' ids and
   * states, the current step counter and the baseline draws, one per agent.
   */
  function UpdateSpec(current: int, cs: map<int, seq<Snapshot>>, lockdown: string, step: int,
                      ids: seq<int>, ss: seq<AgentState>, baseline: nat -> real): Result<seq<Snapshot>, Error>
    requires |ids| == |ss|
  {
    if current == 0 then
      Ok(seq(|ss|, i requires 0 <= i < |ss| => FirstSnapshot(lockdown, ids[i], ss[i])))
    else if ss == [] then Ok([])
    else if step - 1 !in cs then Err(StepKeyError(step - 1))
    else if !AllFound(cs[step - 1], ids) then Err(IndexError)
    else
      var prev := cs[step - 1];
      Ok(seq(|ss|, i requires 0 <= i < |ss| =>
        NextSnapshot(lockdown, ids[i], ss[i], FirstWithId(prev, ids[i]).value.cumulative, baseline(i))))
  }

  /** Step 0 records a zero delta and the raw status; later steps add the delta to the agent's previous cumulative value and subtract the baseline. */
  lemma UpdateRecords(current: int, cs: map<int, seq<Snapshot>>, lockdown: string, step: int,
                      ids: seq<int>, ss: seq<AgentState>, baseline: nat -> real)
    requires |ids| == |ss|
    ensures var r := UpdateSpec(current, cs, lockdown, step, ids, ss, baseline);
            && (r.Err? <==> current != 0 && ss != [] && (step - 1 !in cs || !AllFound(cs[step - 1], ids)))
            && (r.Ok? ==> |r.value| == |ss| && forall i :: 0 <= i < |ss| ==>
                  && r.value[i].lockdown == lockdown && r.value[i].agentId == ids[i]
                  && r.value[i].covidStatus == ss[i].covidStatus && r.value[i].days == ss[i].daysSincePositive)
            && (current == 0 ==> r.Ok? && forall i :: 0 <= i < |ss| ==>
                  r.value[i].delta == 0.0 && r.value[i].cumulative == ss[i].status)
            && (current != 0 && r.Ok? ==> forall i :: 0 <= i < |ss| ==>
                  && r.value[i].delta == ss[i].status
                  && PreviousCumulative(cs[step - 1], ids[i], r.value[i].cumulative - r.value[i].delta + baseline(i)))
  {
    var r := UpdateSpec(current, cs, lockdown, step, ids, ss, baseline);
    if current != 0 && r.Ok? {
      forall i | 0 <= i < |ss|
        ensures PreviousCumulative(cs[step - 1], ids[i], r.value[i].cumulative - r.value[i].delta + baseline(i))
      {
        var prev := cs[step - 1];
        assert FirstWithId(prev, ids[i]).Some?;
        var j :| 0 <= j < |prev| && prev[j] == FirstWithId(prev, ids[i]).value && prev[j].agentId == ids[i] &&
                 forall l :: 0 <= l < j ==> prev[l].agentId != ids[i];
      }
    }
  }

  /** The ids of a sequence of snapshots, in order. */
  function IdsOf(snaps: seq<Snapshot>): (r: seq<int>)
    ensures |r| == |snaps| && forall i :: 0 <= i < |snaps| ==> r[i] == snaps[i].agentId
  {
    seq(|snaps|, i requires 0 <= i < |snaps| => snaps[i].agentId)
  }

  /** A series entry that lists every agent finds every agent again at the next step. */
  lemma AllFoundWhenListed(prev: seq<Snapshot>, ids: seq<int>)
    requires IdsOf(prev) == ids
    ensures AllFound(prev, ids)
  {
    forall i | 0 <= i < |ids| ensures FirstWithId(prev, ids[i]).Some? {
      assert prev[i].agentId == ids[i];
    }
  }

  /** Python dict assignment: an existing key keeps its place, a new key goes last. */
  function InsertKey(keys: seq<int>, k: int): (r: seq<int>)
    ensures forall x :: x in r <==> x in keys || x == k
  {
    if k in keys then keys else keys + [k]
  }

  /** The report's rows of one step. */
  function RowsOf(stepId: int, snaps: seq<Snapshot>): (r: seq<ReportRow>)
    ensures |r| == |snaps|
  {
    seq(|snaps|, i requires 0 <= i < |snaps| =>
      ReportRow(stepId, snaps[i].lockdown, snaps[i].agentId, snaps[i].delta, snaps[i].cumulative,
                snaps[i].covidStatus, snaps[i].days))
  }

  /** The report's rows: each step's snapshots in the series' key order. */
  function ReportRows(keys: seq<int>, cs: map<int, seq<Snapshot>>): seq<ReportRow>
    requires forall k :: k in keys ==> k in cs
    decreases |keys|
  {
    if keys == [] then []
    else
      var k := keys[|keys| - 1];
      assert k in keys;
      ReportRows(keys[..|keys| - 1], cs) + RowsOf(k, cs[k])
  }

  /** The report rows of one step's snapshots, appended one by one. */
  method AppendRows(before: seq<ReportRow>, k: int, snaps: seq<Snapshot>) returns (rows: seq<ReportRow>)
    ensures rows == before + RowsOf(k, snaps)
  {
    rows := before;
    for j := 0 to |snaps|
      invariant rows == before + RowsOf(k, snaps[..j])
    {
      assert RowsOf(k, snaps[..j + 1]) == RowsOf(k, snaps[..j]) + [RowsOf(k, snaps)[j]];
      var s := snaps[j];
      rows := rows + [ReportRow(k, s.lockdown, s.agentId, s.delta, s.cumulative, s.covidStatus, s.days)];
    }
    assert snaps[..|snaps|] == snaps;
  }

  /** The number of snapshots in the series, step by step. */
  function SnapshotCount(keys: seq<int>, cs: map<int, seq<Snapshot>>): nat
    requires forall k :: k in keys ==> k in cs
    decreases |keys|
  {
    if keys == [] then 0
    else
      var k := keys[|keys| - 1];
      assert k in keys;
      SnapshotCount(keys[..|keys| - 1], cs) + |cs[k]|
  }

  /** One row per snapshot; every row is the step id followed by a snapshot of that step. */
  lemma {:induction false} ReportRowsAreSnapshots(keys: seq<int>, cs: map<int, seq<Snapshot>>)
    requires forall k :: k in keys ==> k in cs
    ensures |ReportRows(keys, cs)| == SnapshotCount(keys, cs)
    ensures forall r :: r in ReportRows(keys, cs) ==>
              r.stepId in keys && exists j :: 0 <= j < |cs[r.stepId]| && RowsOf(r.stepId, cs[r.stepId])[j] == r
    decreases |keys|
  {
    if keys != [] {
      var init := keys[..|keys| - 1];
      var k := keys[|keys| - 1];
      ReportRowsAreSnapshots(init, cs);
      forall r | r in ReportRows(keys, cs)
        ensures r.stepId in keys && exists j :: 0 <= j < |cs[r.stepId]| && RowsOf(r.stepId, cs[r.stepId])[j] == r
      {
        if r in ReportRows(init, cs) {
          assert r.stepId in init;
        } else {
          assert r in RowsOf(k, cs[k]);
        }
      }
    }
  }

  predicate IncreasingKeys(keys: seq<int>) {
    forall a, b :: 0 <= a < b < |keys| ==> keys[a] < keys[b]
  }

  /** Rows whose step ids never decrease. */
  predicate InStepOrder(rows: seq<ReportRow>) {
    forall a, b :: 0 <= a < b < |rows| ==> rows[a].stepId <= rows[b].stepId
  }

  /** With increasing keys the report is in step order. */
  lemma {:induction false} ReportInStepOrder(keys: seq<int>, cs: map<int, seq<Snapshot>>)
    requires forall k :: k in keys ==> k in cs
    requires IncreasingKeys(keys)
    ensures InStepOrder(ReportRows(keys, cs))
    ensures forall r :: r in ReportRows(keys, cs) ==> r.stepId in keys
    decreases |keys|
  {
    if keys != [] {
      var init := keys[..|keys| - 1];
      var k := keys[|keys| - 1];
      ReportInStepOrder(init, cs);
      var front := ReportRows(init, cs);
      var back := RowsOf(k, cs[k]);
      var rows := front + back;
      forall a, b | 0 <= a < b < |rows| ensures rows[a].stepId <= rows[b].stepId {
        if b < |front| {
          assert rows[a] == front[a] && rows[b] == front[b];
          assert front[a].stepId <= front[b].stepId;
        } else if a < |front| {
          assert rows[a] == front[a] && rows[b] == back[b - |front|];
          assert front[a] in front;
          var t :| 0 <= t < |init| && init[t] == rows[a].stepId;
          assert keys[t] < keys[|keys| - 1];
          assert back[b - |front|].stepId == k;
        } else {
          assert rows[a] == back[a - |front|] && rows[b] == back[b - |front|];
          assert back[a - |front|].stepId == k && back[b - |front|].stepId == k;
        }
      }
    }
  }

  // ---------------------------------------------------------------------------------------
  // A run, as values

  /** Every lockdown of the policy has a well-formed lockdown matrix and a well-formed action-effects matrix. */
  predicate Covers(policy: seq<string>, lockdowns: map<string, Matrix>, effects: map<string, Matrix>) {
    forall p :: p in policy ==> p in lockdowns && p in effects && WellFormed(lockdowns[p]) && WellFormed(effects[p])
  }

  /** The agents' states after the first `t` steps of a run, or the first step's error. */
  function RunStates(ss: seq<AgentState>, feats: seq<map<string, real>>, policy: seq<string>,
                     lockdowns: map<string, Matrix>, effects: map<string, Matrix>, newCases: seq<int>,
                     draws: nat -> StepDraws, m: Maths, t: nat): (r: Result<seq<AgentState>, Error>)
    requires |feats| == |ss| && t <= |policy|
    requires Covers(policy, lockdowns, effects)
    ensures r.Ok? ==> |r.value| == |ss|
    decreases t
  {
    if t == 0 then Ok(ss)
    else
      match RunStates(ss, feats, policy, lockdowns, effects, newCases, draws, m, t - 1)
      case Err(e) => Err(e)
      case Ok(prev) => StepAt(prev, feats, policy, lockdowns, effects, newCases, draws, m, t - 1)
  }

  /**
   * Step `t` of a run on the states `ss`: an `IndexError` once the case counts run out, else the
   * step with the lockdown's matrices, `newCases[t]` new infections and the draws `draws(t)`.
   */
  function StepAt(ss: seq<AgentState>, feats: seq<map<string, real>>, policy: seq<string>,
                  lockdowns: map<string, Matrix>, effects: map<string, Matrix>, newCases: seq<int>,
                  draws: nat -> StepDraws, m: Maths, t: nat): (r: Result<seq<AgentState>, Error>)
    requires |feats| == |ss| && t < |policy| && Covers(policy, lockdowns, effects)
    ensures r.Ok? ==> |r.value| == |ss|
  {
    if t >= |newCases| then Err(IndexError)
    else
      var p := policy[t];
      match StepSpec(ss, feats, lockdowns[p], effects[p], newCases[t], draws(t), m)
      case Err(e) => Err(e)
      case Ok(o) => Ok(o.states)
  }

  /**
   * The series a run from a fresh model has recorded after `t` steps for `n` agents: one entry
   * per step, agent `i` at position `i`, the step's lockdown, no change at step 0, and each later
   * cumulative value the previous one plus the change less that step's baseline draw.
   */
  ghost predicate Recorded(cs: map<int, seq<Snapshot>>, n: nat, policy: seq<string>,
                           baselines: nat -> (nat -> real), t: nat)
    requires t <= |policy|
  {
    && (forall u :: 0 <= u < t ==> u in cs && |cs[u]| == n)
    && (forall u, i :: 0 <= u < t && 0 <= i < n ==> cs[u][i].agentId == i && cs[u][i].lockdown == policy[u])
    && (forall i :: 0 <= i < n && 0 < t ==> cs[0][i].delta == 0.0)
    && (forall u :: 1 <= u < t ==> Accumulates(cs, u, baselines(u), n))
  }

  /** At step `u` each agent's cumulative value is the one of step `u - 1` plus the change less the baseline draw. */
  ghost predicate Accumulates(cs: map<int, seq<Snapshot>>, u: int, baseline: nat -> real, n: nat)
    requires u - 1 in cs && u in cs && |cs[u - 1]| == n && |cs[u]| == n
  {
    forall i :: 0 <= i < n ==> cs[u][i].cumulative == cs[u - 1][i].cumulative + cs[u][i].delta - baseline(i)
  }

  /** In an entry that lists agent `j` at position `j`, the first snapshot of agent `i` is at position `i`. */
  lemma FirstWithIdListed(prev: seq<Snapshot>, i: nat)
    requires i < |prev| && forall j :: 0 <= j < |prev| ==> prev[j].agentId == j
    ensures FirstWithId(prev, i) == Some(prev[i])
  {
    assert prev[i].agentId == i;
    var j :| 0 <= j < |prev| && prev[j] == FirstWithId(prev, i).value && prev[j].agentId == i &&
             forall l :: 0 <= l < j ==> prev[l].agentId != i;
  }

  /** On a fresh run's series, `update` at step `t` succeeds and extends the series by that step. */
  lemma RecordedStep(cs: map<int, seq<Snapshot>>, n: nat, policy: seq<string>, baselines: nat -> (nat -> real),
                     t: nat, ids: seq<int>, ss: seq<AgentState>)
    requires t < |policy| && Recorded(cs, n, policy, baselines, t)
    requires |ids| == n && |ss| == n && forall i :: 0 <= i < n ==> ids[i] == i
    ensures var r := UpdateSpec(t, cs, policy[t], t, ids, ss, baselines(t));
            r.Ok? && Recorded(cs[t := r.value], n, policy, baselines, t + 1)
  {
    if t > 0 && n > 0 {
      var prev := cs[t - 1];
      forall i | 0 <= i < n ensures FirstWithId(prev, ids[i]) == Some(prev[i]) {
        FirstWithIdListed(prev, i);
      }
      assert AllFound(prev, ids);
    }
    var snaps: seq<Snapshot> := UpdateSpec(t, cs, policy[t], t, ids, ss, baselines(t)).value;
    assert |snaps| == n;
    if t == 0 {
      forall i | 0 <= i < n
        ensures snaps[i].agentId == i && snaps[i].lockdown == policy[t] && snaps[i].delta == 0.0
      {
        assert snaps[i] == FirstSnapshot(policy[t], ids[i], ss[i]);
      }
    } else {
      forall i | 0 <= i < n
        ensures && snaps[i].agentId == i && snaps[i].lockdown == policy[t]
                && snaps[i].cumulative == cs[t - 1][i].cumulative + snaps[i].delta - baselines(t)(i)
      {
        var prev := cs[t - 1];
        assert FirstWithId(prev, ids[i]) == Some(prev[i]);
        assert snaps[i] == NextSnapshot(policy[t], ids[i], ss[i], prev[i].cumulative, baselines(t)(i));
      }
    }
    RecordedExtend(cs, n, policy, baselines, t, snaps);
  }

  /**
   * A series recorded for `t` steps, extended at step `t` by one snapshot per agent in agent
   * order, with no change at step 0 and accumulating later, is recorded for `t + 1` steps.
   */
  lemma RecordedExtend(cs: map<int, seq<Snapshot>>, n: nat, policy: seq<string>, baselines: nat -> (nat -> real),
                       t: nat, snaps: seq<Snapshot>)
    requires t < |policy| && Recorded(cs, n, policy, baselines, t) && |snaps| == n
    requires forall i :: 0 <= i < n ==> snaps[i].agentId == i && snaps[i].lockdown == policy[t]
    requires t == 0 ==> forall i :: 0 <= i < n ==> snaps[i].delta == 0.0
    requires t > 0 ==> forall i :: 0 <= i < n ==>
               snaps[i].cumulative == cs[t - 1][i].cumulative + snaps[i].delta - baselines(t)(i)
    ensures Recorded(cs[t := snaps], n, policy, baselines, t + 1)
  {
    var cs': map<int, seq<Snapshot>> := cs[t := snaps];
    forall u: int, i: int | 0 <= u < t + 1 && 0 <= i < n ensures cs'[u][i].agentId == i && cs'[u][i].lockdown == policy[u] {
      if u < t {
        assert cs'[u] == cs[u];
      }
    }
    forall u | 1 <= u < t + 1 ensures Accumulates(cs', u, baselines(u), n) {
      if u < t {
        assert cs'[u] == cs[u] && cs'[u - 1] == cs[u - 1];
        assert Accumulates(cs, u, baselines(u), n);
      }
    }
  }

  /** The changes of agent `i` from step 1 to step `t`, added up. */
  function DeltaSum(cs: map<int, seq<Snapshot>>, i: nat, t: nat): real
    requires forall u :: 0 <= u <= t ==> u in cs && i < |cs[u]|
  {
    if t == 0 then 0.0 else DeltaSum(cs, i, t - 1) + cs[t][i].delta
  }

  /** The baseline draws of agent `i` from step 1 to step `t`, added up. */
  function BaselineSum(baselines: nat -> (nat -> real), i: nat, t: nat): real {
    if t == 0 then 0.0 else BaselineSum(baselines, i, t - 1) + baselines(t)(i)
  }

  /** An agent's cumulative value at step `u` is its step-0 status plus every later change, less the baselines. */
  lemma {:induction false} CumulativeTelescopes(cs: map<int, seq<Snapshot>>, n: nat, policy: seq<string>,
                                                baselines: nat -> (nat -> real), t: nat, u: nat, i: nat)
    requires t <= |policy| && Recorded(cs, n, policy, baselines, t) && u < t && i < n
    ensures cs[u][i].cumulative == cs[0][i].cumulative + DeltaSum(cs, i, u) - BaselineSum(baselines, i, u)
    decreases u
  {
    if u > 0 {
      CumulativeTelescopes(cs, n, policy, baselines, t, u - 1, i);
      assert Accumulates(cs, u, baselines(u), n);
    }
  }

  /** Recording the lockdown of step `t` extends the recorded prefix of the policy by one step. */
  lemma PrefixMapNext(before: map<int, string>, policy: seq<string>, t: nat)
    requires t < |policy|
    ensures (before + PrefixMap(policy, t))[t := policy[t]] == before + PrefixMap(policy, t + 1)
  {
  }

  /** The run's first `t` steps succeed and leave the states `after`. */
  ghost predicate Reaches(ss: seq<AgentState>, feats: seq<map<string, real>>, policy: seq<string>,
                          lockdowns: map<string, Matrix>, effects: map<string, Matrix>, newCases: seq<int>,
                          draws: nat -> StepDraws, m: Maths, t: nat, after: seq<AgentState>)
    requires |feats| == |ss| && t <= |policy| && Covers(policy, lockdowns, effects)
  {
    RunStates(ss, feats, policy, lockdowns, effects, newCases, draws, m, t) == Ok(after)
  }

  /** The run's first `t` steps succeed and step `t` fails with `e`. */
  ghost predicate StoppedAt(ss: seq<AgentState>, feats: seq<map<string, real>>, policy: seq<string>,
                            lockdowns: map<string, Matrix>, effects: map<string, Matrix>, newCases: seq<int>,
                            draws: nat -> StepDraws, m: Maths, t: nat, e: Error)
    requires |feats| == |ss| && t < |policy| && Covers(policy, lockdowns, effects)
  {
    && RunStates(ss, feats, policy, lockdowns, effects, newCases, draws, m, t).Ok?
    && RunStates(ss, feats, policy, lockdowns, effects, newCases, draws, m, t + 1) == Err(e)
  }

  /** From the states after `t` steps, step `t` either reaches the next states or stops the run there. */
  lemma ReachesNext(ss: seq<AgentState>, feats: seq<map<string, real>>, policy: seq<string>,
                    lockdowns: map<string, Matrix>, effects: map<string, Matrix>, newCases: seq<int>,
                    draws: nat -> StepDraws, m: Maths, t: nat, prev: seq<AgentState>)
    requires |feats| == |ss| && t < |policy| && Covers(policy, lockdowns, effects)
    requires Reaches(ss, feats, policy, lockdowns, effects, newCases, draws, m, t, prev)
    ensures |prev| == |ss|
    ensures var r := StepAt(prev, feats, policy, lockdowns, effects, newCases, draws, m, t);
            && (r.Ok? ==> Reaches(ss, feats, policy, lockdowns, effects, newCases, draws, m, t + 1, r.value))
            && (r.Err? ==> StoppedAt(ss, feats, policy, lockdowns, effects, newCases, draws, m, t, r.error))
  {
  }

  /** The lockdowns of the first `t` steps, by step. */
  function PrefixMap(policy: seq<string>, t: nat): (r: map<int, string>)
    requires t <= |policy|
    ensures forall i :: i in r <==> 0 <= i < t
    ensures forall i :: 0 <= i < t ==> r[i] == policy[i]
  {
    map i | 0 <= i < t :: policy[i]
  }

  /** Replacing the first of the untouched states by its successor moves the boundary by one. */
  lemma ReplaceNext(done: seq<AgentState>, s0: seq<AgentState>, i: nat, x: AgentState)
    requires |done| == i < |s0|
    ensures (done + s0[i..])[i := x] == (done + [x]) + s0[i + 1..]
  {
    assert |(done + s0[i..])[i := x]| == |(done + [x]) + s0[i + 1..]|;
  }

  // ---------------------------------------------------------------------------------------
  // The engine

  class Model {
    /** The population, built once. */
    const agents: seq<Individual>
    var currentStep: int
    var simulationId: Option<int>
    var lockdownStatus: map<int, string>
    /** The keys of `cumulativeStatus` in insertion order. */
    var stepKeys: seq<int>
    var cumulativeStatus: map<int, seq<Snapshot>>

    /** The agents are distinct objects. */
    predicate AgentsDistinct() {
      forall i, j :: 0 <= i < j < |agents| ==> agents[i] != agents[j]
    }

    /** Agent `i` is a distinct object with id `i`, and the series' keys are listed once each. */
    ghost predicate Valid()
      reads this
    {
      && AgentsDistinct()
      && (forall i :: 0 <= i < |agents| ==> agents[i].id == i)
      && (forall k :: k in stepKeys <==> k in cumulativeStatus)
      && (forall a, b :: 0 <= a < b < |stepKeys| ==> stepKeys[a] != stepKeys[b])
    }

    /** A model that has not run yet. */
    predicate Fresh()
      reads this
    {
      currentStep == 0 && stepKeys == [] && cumulativeStatus == map[] && lockdownStatus == map[]
    }

    function States(): (r: seq<AgentState>)
      reads agents
      ensures |r| == |agents| && forall i :: 0 <= i < |agents| ==> r[i] == agents[i].State()
    {
      seq(|agents|, i reads agents requires 0 <= i < |agents| => agents[i].State())
    }

    function Features(): (r: seq<map<string, real>>)
      ensures |r| == |agents| && forall i :: 0 <= i < |agents| ==> r[i] == agents[i].features
    {
      seq(|agents|, i requires 0 <= i < |agents| => agents[i].features)
    }

    function Ids(): (r: seq<int>)
      ensures |r| == |agents| && forall i :: 0 <= i < |agents| ==> r[i] == agents[i].id
    {
      seq(|agents|, i requires 0 <= i < |agents| => agents[i].id)
    }

    /** A model over a sampled population: agent `i` gets id `i` and the `i`-th feature row. */
    constructor(population: seq<map<string, real>>)
      ensures Valid() && Fresh() && simulationId == None
      ensures |agents| == |population| && Features() == population
      ensures forall i :: 0 <= i < |agents| ==> fresh(agents[i])
      ensures forall i :: 0 <= i < |agents| ==> agents[i].State() == AgentState(None, 0.0, 0, 0, None)
    {
      var made: seq<Individual> := [];
      for i := 0 to |population|
        invariant |made| == i
        invariant forall j :: 0 <= j < i ==> fresh(made[j]) && made[j].id == j && made[j].features == population[j]
        invariant forall j :: 0 <= j < i ==> made[j].State() == AgentState(None, 0.0, 0, 0, None)
        invariant forall j, l :: 0 <= j < l < i ==> made[j] != made[l]
      {
        var a := new Individual(i, population[i]);
        made := made + [a];
      }
      agents := made;
      currentStep := 0;
      simulationId := None;
      lockdownStatus := map[];
      stepKeys := [];
      cumulativeStatus := map[];
    }

    /** The indices of the agents whose status is `c`, in agent order. */
    method IndicesWithStatus(c: int) returns (r: seq<nat>)
      ensures r == Filter(Range(|agents|), WithStatus(States(), c))
    {
      ghost var ss := States();
      r := [];
      for i := 0 to |agents|
        invariant r == Filter(Range(i), WithStatus(ss, c))
      {
        assert (Range(i) + [i])[..i] == Range(i);
        if agents[i].covidStatus == c {
          r := r + [i];
        }
      }
    }

    /** `update_covid_counter`. */
    method UpdateCovidCounter()
      requires AgentsDistinct()
      modifies agents
      ensures States() == CounterStep(old(States()))
    {
      ghost var s0 := States();
      for i := 0 to |agents|
        invariant forall j :: 0 <= j < |agents| ==> agents[j].State() == (if j < i then CounterStep(s0)[j] else s0[j])
      {
        if agents[i].covidStatus == 1 {
          agents[i].daysSincePositive := Inc(agents[i].daysSincePositive);
        }
      }
    }

    /**
     * `get_recovered_individuals`: `is_recovered` runs on each positive agent in index order, agent
     * `i` using the long-COVID draw `d.longCovid(i)` and the recovery draw `d.recovery(i)`.
     */
    method GetRecoveredIndividuals(d: StepDraws, maths: Maths) returns (recovered: seq<nat>)
      requires AgentsDistinct()
      modifies agents
      ensures recovered == Recovered(old(States()), d, maths)
      ensures States() == AfterRecoveryCheck(old(States()), d, maths)
    {
      ghost var s0 := States();
      var positives := IndicesWithStatus(1);
      assert positives == Positives(s0);
      IndexListsIncreasing(s0);
      CheckedEnds(s0, d, maths);
      recovered := [];
      for t := 0 to |positives|
        invariant recovered == Filter(positives[..t], RecoverySet(s0, d, maths))
        invariant States() == CheckedSoFar(s0, positives[..t], d, maths)
      {
        var i := positives[t];
        assert i in positives;
        IncreasingFresh(positives, t);
        PrefixStep(positives, t);
        CheckedStep(s0, positives, t, d, maths);
        var b := CheckRecovery(i, d, maths);
        assert (i in RecoverySet(s0, d, maths)) == b;
        if b {
          recovered := recovered + [i];
        }
      }
      assert positives[..|positives|] == positives;
    }

    /** `is_recovered` on agent `i`, which only its long-COVID flag can change. */
    method CheckRecovery(i: nat, d: StepDraws, maths: Maths) returns (b: bool)
      requires AgentsDistinct() && i < |agents|
      modifies agents[i]
      ensures var s := old(States())[i];
              b == RecoveryOf(old(States()), i, d, maths).recovered &&
              States() == old(States())[i := s.(longCovid := RecoveryOf(old(States()), i, d, maths).longCovid)]
    {
      b := agents[i].IsRecovered(d.longCovid(i), d.recovery(i), maths);
    }

    /** Agent `i`'s turn; no other agent changes. */
    method AgentTurn(i: nat, lockdown: Matrix, effects: Matrix, draw: nat -> real, maths: Maths) returns (err: Option<Error>)
      requires AgentsDistinct() && i < |agents| && WellFormed(lockdown) && WellFormed(effects)
      modifies agents[i]
      ensures var r := ActOne(old(States())[i], agents[i].features, lockdown, effects, draw, maths);
              && (err.None? <==> r.Ok?)
              && (err.None? ==> States() == old(States())[i := r.value])
              && (err.Some? ==> r == Err(err.value))
    {
      err := agents[i].TakeTurn(lockdown, effects, draw, maths);
    }

    /** Status 0 and day count 0 for the recovered agents. */
    method ResetAgents(recovered: seq<nat>)
      requires AgentsDistinct() && forall i :: i in recovered ==> i < |agents|
      modifies agents
      ensures States() == ResetRecovered(old(States()), recovered)
    {
      ghost var s0 := States();
      for t := 0 to |recovered|
        invariant forall j :: 0 <= j < |agents| ==>
                    agents[j].State() == (if j in recovered[..t] then ResetRecovered(s0, recovered)[j] else s0[j])
      {
        PrefixStep(recovered, t);
        assert recovered[t] in recovered;
        agents[recovered[t]].covidStatus := 0;
        agents[recovered[t]].daysSincePositive := Some(0);
      }
      assert recovered[..|recovered|] == recovered;
    }

    /** Status 1 and day count 1 for the newly infected agents. */
    method InfectAgents(infected: seq<nat>)
      requires AgentsDistinct() && forall i :: i in infected ==> i < |agents|
      modifies agents
      ensures States() == Infect(old(States()), infected)
    {
      ghost var s0 := States();
      for t := 0 to |infected|
        invariant forall j :: 0 <= j < |agents| ==>
                    agents[j].State() == (if j in infected[..t] then Infect(s0, infected)[j] else s0[j])
      {
        PrefixStep(infected, t);
        assert infected[t] in infected;
        agents[infected[t]].covidStatus := 1;
        agents[infected[t]].daysSincePositive := Some(1);
      }
      assert infected[..|infected|] == infected;
    }

    /** Every agent in order chooses on its policy and takes its actions; the first failure stops the pass. */
    method ActAgents(lockdown: Matrix, effects: Matrix, action: (nat, nat) -> real, maths: Maths) returns (err: Option<Error>)
      requires AgentsDistinct() && WellFormed(lockdown) && WellFormed(effects)
      modifies agents
      ensures var r := ActAll(old(States()), Features(), lockdown, effects, action, maths);
              && (err.None? <==> r.Ok?)
              && (err.None? ==> States() == r.value)
              && (err.Some? ==> r == Err(err.value))
    {
      ghost var s0 := States();
      var feats := Features();
      ghost var done: seq<AgentState> := [];
      for i := 0 to |agents|
        invariant |done| == i
        invariant ActAll(s0[..i], feats[..i], lockdown, effects, action, maths) == Ok(done)
        invariant States() == done + s0[i..]
      {
        assert States()[i] == s0[i] && agents[i].features == feats[i];
        ghost var r := ActOne(s0[i], feats[i], lockdown, effects, AgentDraws(action, i), maths);
        var e := AgentTurn(i, lockdown, effects, AgentDraws(action, i), maths);
        if e.Some? {
          ActAllFailsAt(s0, feats, lockdown, effects, action, maths, i);
          return e;
        }
        ActAllExtends(s0, feats, lockdown, effects, action, maths, i, done);
        ReplaceNext(done, s0, i, r.value);
        done := done + [r.value];
      }
      ActAllWhole(s0, feats, lockdown, effects, action, maths);
      assert done + s0[|agents|..] == done;
      return None;
    }

    /**
     * `step`: advance the counters, reset the recovered, infect `newInfected` of the negatives
     * (a `ValueError` when there are none to draw from, when the count is negative, or when
     * there are not that many, checked in that order), then let every agent act.
     */
    method Step(lockdown: Matrix, effects: Matrix, newInfected: int, d: StepDraws, maths: Maths) returns (err: Option<Error>)
      requires AgentsDistinct() && WellFormed(lockdown) && WellFormed(effects)
      modifies agents
      ensures var r := StepSpec(old(States()), Features(), lockdown, effects, newInfected, d, maths);
              && (err.None? <==> r.Ok?)
              && (err.None? ==> States() == r.value.states)
              && (err.Some? ==> r == Err(err.value))
    {
      ghost var s0 := States();
      UpdateCovidCounter();
      ghost var s1 := States();
      var recovered := GetRecoveredIndividuals(d, maths);
      RecoveredArePositives(s1, d, maths);
      ResetAgents(recovered);
      var negatives := IndicesWithStatus(0);
      assert negatives == Negatives(States());
      if |negatives| == 0 && newInfected != 0 {
        return Some(ValueError(EmptyChoice));
      }
      if newInfected < 0 {
        return Some(ValueError(NegativeSampleSize));
      }
      if newInfected > |negatives| {
        return Some(ValueError(SampleLargerThanPopulation));
      }
      var infected := Choose(negatives, newInfected, d.pick, 0);
      InfectedAreSampledNegatives(s0, newInfected, d, maths);
      InfectAgents(infected);
      assert States() == Infections(s0, newInfected, d, maths).value.states;
      err := ActAgents(lockdown, effects, d.action, maths);
    }

    /**
     * `update(lockdown, step)`: record one snapshot per agent under `step`; agent `i` draws the
     * baseline `baseline(i)`. Nothing is recorded when the previous step is missing (`KeyError`)
     * or lacks an agent (`IndexError`).
     */
    method Update(lockdown: string, step: int, baseline: nat -> real) returns (err: Option<Error>)
      modifies this
      ensures var r := UpdateSpec(old(currentStep), old(cumulativeStatus), lockdown, step, Ids(), States(), baseline);
              && (err.None? <==> r.Ok?)
              && (err.None? ==> cumulativeStatus == old(cumulativeStatus)[step := r.value] &&
                                stepKeys == InsertKey(old(stepKeys), step))
              && (err.Some? ==> r == Err(err.value) &&
                                cumulativeStatus == old(cumulativeStatus) && stepKeys == old(stepKeys))
      ensures currentStep == old(currentStep) && simulationId == old(simulationId) && lockdownStatus == old(lockdownStatus)
      ensures old(Valid()) ==> Valid()
    {
      var snaps: seq<Snapshot>;
      if currentStep == 0 {
        snaps := seq(|agents|, i reads agents requires 0 <= i < |agents| =>
          FirstSnapshot(lockdown, agents[i].id, agents[i].State()));
      } else {
        snaps := [];
        for i := 0 to |agents|
          invariant |snaps| == i
          invariant i > 0 ==> step - 1 in cumulativeStatus
          invariant i > 0 ==> forall j :: 0 <= j < i ==>
                      && FirstWithId(cumulativeStatus[step - 1], agents[j].id).Some?
                      && snaps[j] == NextSnapshot(lockdown, agents[j].id, agents[j].State(),
                                       FirstWithId(cumulativeStatus[step - 1], agents[j].id).value.cumulative, baseline(j))
        {
          if step - 1 !in cumulativeStatus {
            return Some(StepKeyError(step - 1));
          }
          var last := FirstWithId(cumulativeStatus[step - 1], agents[i].id);
          if last.None? {
            assert !AllFound(cumulativeStatus[step - 1], Ids());
            return Some(IndexError);
          }
          snaps := snaps + [NextSnapshot(lockdown, agents[i].id, agents[i].State(), last.value.cumulative, baseline(i))];
        }
        if |agents| > 0 {
          assert AllFound(cumulativeStatus[step - 1], Ids());
        }
      }
      ghost var r := UpdateSpec(currentStep, cumulativeStatus, lockdown, step, Ids(), States(), baseline);
      assert r.Ok? && |r.value| == |snaps|;
      assert forall i :: 0 <= i < |snaps| ==> snaps[i] == r.value[i];
      assert snaps == r.value;
      cumulativeStatus := cumulativeStatus[step := snaps];
      stepKeys := InsertKey(stepKeys, step);
      return None;
    }

    /** The rows `report` writes: every step of the series in key order, each snapshot prefixed by its step. */
    method Report() returns (rows: seq<ReportRow>)
      requires Valid()
      ensures rows == ReportRows(stepKeys, cumulativeStatus)
    {
      rows := [];
      for t := 0 to |stepKeys|
        invariant rows == ReportRows(stepKeys[..t], cumulativeStatus)
      {
        PrefixStep(stepKeys, t);
        var k := stepKeys[t];
        var snaps := cumulativeStatus[k];
        rows := AppendRows(rows, k, snaps);
      }
      assert stepKeys[..|stepKeys|] == stepKeys;
    }

    /**
     * The first `t` steps of the policy have run, from the step counter `c0`, the lockdown record
     * `l0` and the states `s0`: the counter advanced once per step, the last step taken is the
     * simulation id, each step's lockdown is recorded under the step, and the agents are in the
     * states of the run's first `t` steps.
     */
    ghost predicate RanSteps(t: nat, c0: int, l0: map<int, string>, s0: seq<AgentState>, policy: seq<string>,
                             newCases: seq<int>, lockdowns: map<string, Matrix>, effects: map<string, Matrix>,
                             draws: nat -> StepDraws, maths: Maths)
      reads this, agents
      requires t <= |policy| && |s0| == |agents| && Covers(policy, lockdowns, effects)
    {
      && currentStep == c0 + t && (t > 0 ==> simulationId == Some(t - 1))
      && lockdownStatus == l0 + PrefixMap(policy, t)
      && Reaches(s0, Features(), policy, lockdowns, effects, newCases, draws, maths, t, States())
    }

    /** The first half of `run`'s loop at step `t`: record the step and its lockdown, then take the step. */
    method TakeStep(t: nat, policy: seq<string>, newCases: seq<int>, lockdowns: map<string, Matrix>,
                    effects: map<string, Matrix>, draws: nat -> StepDraws, maths: Maths) returns (err: Option<Error>)
      requires Valid() && Covers(policy, lockdowns, effects) && t < |policy|
      modifies this, agents
      ensures Valid()
      ensures simulationId == Some(t) && lockdownStatus == old(lockdownStatus)[t := policy[t]]
      ensures currentStep == old(currentStep) && stepKeys == old(stepKeys) && cumulativeStatus == old(cumulativeStatus)
      ensures StepAt(old(States()), Features(), policy, lockdowns, effects, newCases, draws, maths, t) ==
              if err.None? then Ok(States()) else Err(err.value)
    {
      ghost var s0 := States();
      simulationId := Some(t);
      lockdownStatus := lockdownStatus[t := policy[t]];
      assert States() == s0;
      err := StepWithPolicy(t, policy, newCases, lockdowns, effects, draws, maths);
    }

    /** `step` on the lockdown and effects of policy entry `t` and the new-case count of step `t`. */
    method StepWithPolicy(t: nat, policy: seq<string>, newCases: seq<int>, lockdowns: map<string, Matrix>,
                          effects: map<string, Matrix>, draws: nat -> StepDraws, maths: Maths) returns (err: Option<Error>)
      requires AgentsDistinct() && Covers(policy, lockdowns, effects) && t < |policy|
      modifies agents
      ensures StepAt(old(States()), Features(), policy, lockdowns, effects, newCases, draws, maths, t) ==
              if err.None? then Ok(States()) else Err(err.value)
    {
      if t >= |newCases| {
        return Some(IndexError);
      }
      var p := policy[t];
      err := Step(lockdowns[p], effects[p], newCases[t], draws(t), maths);
    }

    /**
     * The second half of `run`'s loop at step `t`: record the snapshots and, only when that
     * succeeds, advance the counter. On the series a fresh model has recorded so far, the
     * recording cannot fail.
     */
    method RecordStep(t: nat, policy: seq<string>, baselines: nat -> (nat -> real)) returns (err: Option<Error>)
      requires Valid() && t < |policy|
      modifies this
      ensures Valid()
      ensures simulationId == old(simulationId) && lockdownStatus == old(lockdownStatus)
      ensures var r := UpdateSpec(old(currentStep), old(cumulativeStatus), policy[t], t, Ids(), States(), baselines(t));
              && (err.None? <==> r.Ok?)
              && (err.None? ==> cumulativeStatus == old(cumulativeStatus)[t := r.value] &&
                                stepKeys == InsertKey(old(stepKeys), t) && currentStep == old(currentStep) + 1)
              && (err.Some? ==> r == Err(err.value) && cumulativeStatus == old(cumulativeStatus) &&
                                stepKeys == old(stepKeys) && currentStep == old(currentStep))
      ensures old(currentStep) == t && old(stepKeys) == Range(t) &&
              Recorded(old(cumulativeStatus), |agents|, policy, baselines, t) ==>
                err.None? && stepKeys == Range(t + 1) && Recorded(cumulativeStatus, |agents|, policy, baselines, t + 1)
    {
      if currentStep == t && stepKeys == Range(t) && Recorded(cumulativeStatus, |agents|, policy, baselines, t) {
        RecordedStep(cumulativeStatus, |agents|, policy, baselines, t, Ids(), States());
        RangeFacts(t);
      }
      err := Update(policy[t], t, baselines(t));
      if err.None? {
        currentStep := currentStep + 1;
      }
    }

    /**
     * `run`'s loop over the policy: each step records its id and lockdown, takes the step and
     * records the snapshots; the first failure stops the loop, with the failing step recorded.
     */
    method RunSteps(policy: seq<string>, newCases: seq<int>, lockdowns: map<string, Matrix>,
                    effects: map<string, Matrix>, draws: nat -> StepDraws, baselines: nat -> (nat -> real), maths: Maths)
      returns (err: Option<Error>)
      requires Valid() && Covers(policy, lockdowns, effects) && 0 < |policy|
      modifies this, agents
      ensures Valid()
      ensures err.None? ==>
                RanSteps(|policy|, old(currentStep), old(lockdownStatus), old(States()), policy, newCases, lockdowns, effects, draws, maths)
      ensures old(Fresh()) && err.Some? ==>
                && simulationId.Some? && 0 <= simulationId.value < |policy|
                && StoppedAt(old(States()), Features(), policy, lockdowns, effects, newCases, draws, maths,
                             simulationId.value, err.value)
      ensures old(Fresh()) && err.None? ==>
                stepKeys == Range(|policy|) && Recorded(cumulativeStatus, |agents|, policy, baselines, |policy|)
    {
      ghost var s0 := States();
      ghost var wasFresh := Fresh();
      ghost var c0 := currentStep;
      ghost var l0 := lockdownStatus;
      var feats := Features();
      for t := 0 to |policy|
        invariant Valid()
        invariant RanSteps(t, c0, l0, s0, policy, newCases, lockdowns, effects, draws, maths)
        invariant wasFresh ==> c0 == 0 && stepKeys == Range(t) && Recorded(cumulativeStatus, |agents|, policy, baselines, t)
      {
        err := RunPass(t, c0, l0, s0, wasFresh, policy, newCases, lockdowns, effects, draws, baselines, maths);
        if err.Some? {
          return;
        }
      }
      return None;
    }

    /**
     * One pass of `run`'s loop: take step `t`, then record it. On a fresh model only the step
     * itself can fail, and then the run stops at step `t`.
     */
    method RunPass(t: nat, ghost c0: int, ghost l0: map<int, string>, ghost s0: seq<AgentState>, ghost wasFresh: bool,
                   policy: seq<string>, newCases: seq<int>, lockdowns: map<string, Matrix>, effects: map<string, Matrix>,
                   draws: nat -> StepDraws, baselines: nat -> (nat -> real), maths: Maths)
      returns (err: Option<Error>)
      requires Valid() && Covers(policy, lockdowns, effects) && t < |policy| && |s0| == |agents|
      requires RanSteps(t, c0, l0, s0, policy, newCases, lockdowns, effects, draws, maths)
      requires wasFresh ==> c0 == 0 && stepKeys == Range(t) && Recorded(cumulativeStatus, |agents|, policy, baselines, t)
      modifies this, agents
      ensures Valid() && |s0| == |agents|
      ensures err.None? ==> RanSteps(t + 1, c0, l0, s0, policy, newCases, lockdowns, effects, draws, maths)
      ensures err.None? && wasFresh ==>
                stepKeys == Range(t + 1) && Recorded(cumulativeStatus, |agents|, policy, baselines, t + 1)
      ensures err.Some? && wasFresh ==>
                simulationId == Some(t) && StoppedAt(s0, Features(), policy, lockdowns, effects, newCases, draws, maths, t, err.value)
    {
      err := StepOnce(t, c0, l0, s0, policy, newCases, lockdowns, effects, draws, maths);
      if err.Some? {
        return;
      }
      err := RecordPass(t, c0, l0, s0, wasFresh, policy, newCases, lockdowns, effects, draws, baselines, maths);
    }

    /** The second half of one pass: record step `t`, which a fresh model cannot fail to do. */
    method RecordPass(t: nat, ghost c0: int, ghost l0: map<int, string>, ghost s0: seq<AgentState>, ghost wasFresh: bool,
                      policy: seq<string>, newCases: seq<int>, lockdowns: map<string, Matrix>, effects: map<string, Matrix>,
                      draws: nat -> StepDraws, baselines: nat -> (nat -> real), maths: Maths)
      returns (err: Option<Error>)
      requires Valid() && Covers(policy, lockdowns, effects) && t < |policy| && |s0| == |agents|
      requires currentStep == c0 + t && simulationId == Some(t) && lockdownStatus == l0 + PrefixMap(policy, t + 1)
      requires Reaches(s0, Features(), policy, lockdowns, effects, newCases, draws, maths, t + 1, States())
      requires wasFresh ==> c0 == 0 && stepKeys == Range(t) && Recorded(cumulativeStatus, |agents|, policy, baselines, t)
      modifies this
      ensures Valid()
      ensures err.None? ==> RanSteps(t + 1, c0, l0, s0, policy, newCases, lockdowns, effects, draws, maths)
      ensures err.None? && wasFresh ==>
                stepKeys == Range(t + 1) && Recorded(cumulativeStatus, |agents|, policy, baselines, t + 1)
      ensures err.Some? ==> !wasFresh
    {
      err := RecordStep(t, policy, baselines);
    }

    /** The first half of one pass of `run`'s loop: step `t` either extends the run or stops it. */
    method StepOnce(t: nat, ghost c0: int, ghost l0: map<int, string>, ghost s0: seq<AgentState>,
                    policy: seq<string>, newCases: seq<int>, lockdowns: map<string, Matrix>,
                    effects: map<string, Matrix>, draws: nat -> StepDraws, maths: Maths)
      returns (err: Option<Error>)
      requires Valid() && Covers(policy, lockdowns, effects) && t < |policy| && |s0| == |agents|
      requires RanSteps(t, c0, l0, s0, policy, newCases, lockdowns, effects, draws, maths)
      modifies this, agents
      ensures Valid()
      ensures currentStep == old(currentStep) && stepKeys == old(stepKeys) && cumulativeStatus == old(cumulativeStatus)
      ensures simulationId == Some(t) && lockdownStatus == l0 + PrefixMap(policy, t + 1)
      ensures err.None? ==> Reaches(s0, Features(), policy, lockdowns, effects, newCases, draws, maths, t + 1, States())
      ensures err.Some? ==> StoppedAt(s0, Features(), policy, lockdowns, effects, newCases, draws, maths, t, err.value)
    {
      PrefixMapNext(l0, policy, t);
      ReachesNext(s0, Features(), policy, lockdowns, effects, newCases, draws, maths, t, States());
      err := TakeStep(t, policy, newCases, lockdowns, effects, draws, maths);
    }

    /**
     * `run`: refuse fewer than two steps or a policy of another length, run the steps and
     * collect the report's rows. Step `t` uses the draws `draws(t)` and the baseline draws
     * `baselines(t)`.
     */
    method Run(steps: int, policy: seq<string>, newCases: seq<int>, lockdowns: map<string, Matrix>,
               effects: map<string, Matrix>, draws: nat -> StepDraws, baselines: nat -> (nat -> real), maths: Maths)
      returns (err: Option<Error>, rows: seq<ReportRow>)
      requires Valid() && Covers(policy, lockdowns, effects)
      modifies this, agents
      ensures Valid()
      ensures steps <= 1 ==> err == Some(ValueError(StepsTooFew))
      ensures 1 < steps && |policy| != steps ==> err == Some(ValueError(PolicyLengthMismatch))
      ensures steps <= 1 || |policy| != steps ==> unchanged(this) && unchanged(agents)
      ensures err.None? ==>
                && 1 < steps == |policy|
                && RanSteps(|policy|, old(currentStep), old(lockdownStatus), old(States()), policy, newCases, lockdowns, effects, draws, maths)
                && rows == ReportRows(stepKeys, cumulativeStatus)
      ensures old(Fresh()) && 1 < steps == |policy| && err.Some? ==>
                && simulationId.Some? && 0 <= simulationId.value < steps
                && StoppedAt(old(States()), Features(), policy, lockdowns, effects, newCases, draws, maths,
                             simulationId.value, err.value)
      ensures old(Fresh()) && err.None? ==>
                stepKeys == Range(steps) && Recorded(cumulativeStatus, |agents|, policy, baselines, steps)
    {
      rows := [];
      if steps <= 1 {
        err := Some(ValueError(StepsTooFew));
      } else if |policy| != steps {
        err := Some(ValueError(PolicyLengthMismatch));
      } else {
        err := RunSteps(policy, newCases, lockdowns, effects, draws, baselines, maths);
        if err.None? {
          rows := Report();
        }
      }
    }
  }
}
