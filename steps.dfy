/**
 * One simulation step of the engine (`Model.step` in comma/model.py) as a function of the agents'
 * states: advance the day counters, check the positives for recovery, reset the recovered, infect
 * a sample of the negatives, then let every agent act. The class in model.dfy performs the same
 * step in place and is proved to end in the state computed here.
 */
module Steps {
  import opened Wrappers
  import opened Errors
  import opened Sequences
  import opened Individuals

  /** The indices of the agents with the given COVID status. */
  function WithStatus(ss: seq<AgentState>, c: int): set<nat> {
    set i: nat | i < |ss| && ss[i].covidStatus == c
  }

  /** The list comprehension of positives (status 1) in agent order. */
  function Positives(ss: seq<AgentState>): (r: seq<nat>)
    ensures forall i :: i in r <==> 0 <= i < |ss| && ss[i].covidStatus == 1
  {
    RangeFacts(|ss|);
    FilterMembers(Range(|ss|), WithStatus(ss, 1));
    Filter(Range(|ss|), WithStatus(ss, 1))
  }

  /** The list comprehension of negatives (status 0) in agent order. */
  function Negatives(ss: seq<AgentState>): (r: seq<nat>)
    ensures forall i :: i in r <==> 0 <= i < |ss| && ss[i].covidStatus == 0
  {
    RangeFacts(|ss|);
    FilterMembers(Range(|ss|), WithStatus(ss, 0));
    Filter(Range(|ss|), WithStatus(ss, 0))
  }

  lemma IndexListsIncreasing(ss: seq<AgentState>)
    ensures StrictlyIncreasing(Positives(ss)) && StrictlyIncreasing(Negatives(ss))
  {
    RangeFacts(|ss|);
    FilterIncreasing(Range(|ss|), WithStatus(ss, 1));
    FilterIncreasing(Range(|ss|), WithStatus(ss, 0));
  }

  /** Every agent is either negative (0) or positive (1). */
  predicate StatusBits(ss: seq<AgentState>) {
    forall i :: 0 <= i < |ss| ==> ss[i].covidStatus == 0 || ss[i].covidStatus == 1
  }

  // ---------------------------------------------------------------------------------------
  // The phases of a step

  /** `days_since_positive += 1`, where a missing count (NaN) stays missing. */
  function Inc(d: Option<int>): Option<int> {
    if d.None? then None else Some(d.value + 1)
  }

  /** `update_covid_counter`: only positive agents' counters move. */
  function CounterStep(ss: seq<AgentState>): (r: seq<AgentState>)
    ensures |r| == |ss|
    ensures forall i :: 0 <= i < |ss| ==> r[i].(daysSincePositive := ss[i].daysSincePositive) == ss[i]
    ensures forall i :: 0 <= i < |ss| ==>
              (r[i].daysSincePositive != ss[i].daysSincePositive <==> ss[i].covidStatus == 1 && ss[i].daysSincePositive.Some?)
    ensures forall i :: 0 <= i < |ss| && ss[i].covidStatus == 1 && ss[i].daysSincePositive.Some? ==>
              r[i].daysSincePositive == Some(ss[i].daysSincePositive.value + 1)
  {
    seq(|ss|, i requires 0 <= i < |ss| =>
      if ss[i].covidStatus == 1 then ss[i].(daysSincePositive := Inc(ss[i].daysSincePositive)) else ss[i])
  }

  /** The draws a step consumes: per agent for the two recovery draws, per sample position, per agent and row. */
  datatype StepDraws = StepDraws(
    longCovid: nat -> real, recovery: nat -> real, pick: nat -> nat, action: (nat, nat) -> real)

  /** What `is_recovered` decides for agent `i`. */
  function RecoveryOf(ss: seq<AgentState>, i: nat, d: StepDraws, m: Maths): RecoveryOutcome
    requires i < |ss|
  {
    Recovery(ss[i].daysSincePositive, ss[i].longCovid, d.longCovid(i), d.recovery(i), m)
  }

  /** The positive agents that `is_recovered` declares recovered. */
  function RecoverySet(ss: seq<AgentState>, d: StepDraws, m: Maths): set<nat> {
    set i: nat | i < |ss| && ss[i].covidStatus == 1 && RecoveryOf(ss, i, d, m).recovered
  }

  /** `get_recovered_individuals`: the recovered positives, in agent order. */
  function Recovered(ss: seq<AgentState>, d: StepDraws, m: Maths): seq<nat> {
    Filter(Positives(ss), RecoverySet(ss, d, m))
  }

  /** The recovered list is increasing and names exactly the positives whose recovery check succeeds. */
  lemma RecoveredArePositives(ss: seq<AgentState>, d: StepDraws, m: Maths)
    ensures StrictlyIncreasing(Recovered(ss, d, m))
    ensures forall i :: i in Recovered(ss, d, m) <==>
              0 <= i < |ss| && ss[i].covidStatus == 1 && RecoveryOf(ss, i, d, m).recovered
  {
    IndexListsIncreasing(ss);
    FilterIncreasing(Positives(ss), RecoverySet(ss, d, m));
    FilterMembers(Positives(ss), RecoverySet(ss, d, m));
  }

  /** The side effect of the recovery checks: a positive agent's long-COVID flag may be set. */
  function AfterRecoveryCheck(ss: seq<AgentState>, d: StepDraws, m: Maths): (r: seq<AgentState>)
    ensures |r| == |ss|
  {
    seq(|ss|, i requires 0 <= i < |ss| =>
      if ss[i].covidStatus == 1 then ss[i].(longCovid := RecoveryOf(ss, i, d, m).longCovid) else ss[i])
  }

  /** The states once the agents listed in `done` have had their recovery check. */
  function CheckedSoFar(ss: seq<AgentState>, done: seq<nat>, d: StepDraws, m: Maths): (r: seq<AgentState>)
    ensures |r| == |ss|
  {
    seq(|ss|, j requires 0 <= j < |ss| => if j in done then AfterRecoveryCheck(ss, d, m)[j] else ss[j])
  }

  /** Checking one more positive agent changes only its long-COVID flag, as its own check decides. */
  lemma CheckedStep(ss: seq<AgentState>, ps: seq<nat>, t: nat, d: StepDraws, m: Maths)
    requires t < |ps| && ps[t] < |ss| && ss[ps[t]].covidStatus == 1 && ps[t] !in ps[..t]
    ensures var i := ps[t];
            var cur := CheckedSoFar(ss, ps[..t], d, m);
            && cur[i] == ss[i]
            && RecoveryOf(cur, i, d, m) == RecoveryOf(ss, i, d, m)
            && CheckedSoFar(ss, ps[..t + 1], d, m) == cur[i := cur[i].(longCovid := RecoveryOf(cur, i, d, m).longCovid)]
  {
    var i := ps[t];
    var cur := CheckedSoFar(ss, ps[..t], d, m);
    var next := cur[i := cur[i].(longCovid := RecoveryOf(cur, i, d, m).longCovid)];
    assert ps[..t + 1] == ps[..t] + [i];
    forall j | 0 <= j < |ss| ensures CheckedSoFar(ss, ps[..t + 1], d, m)[j] == next[j] {
      assert (j in ps[..t + 1]) == (j in ps[..t] || j == i);
    }
  }

  /** Before any check the states are unchanged; once every positive agent is checked they are `AfterRecoveryCheck`. */
  lemma CheckedEnds(ss: seq<AgentState>, d: StepDraws, m: Maths)
    ensures CheckedSoFar(ss, [], d, m) == ss
    ensures CheckedSoFar(ss, Positives(ss), d, m) == AfterRecoveryCheck(ss, d, m)
  {
  }

  /** The recovered agents get status 0 and day count 0. */
  function ResetRecovered(ss: seq<AgentState>, rec: seq<nat>): (r: seq<AgentState>)
    ensures |r| == |ss|
  {
    seq(|ss|, i requires 0 <= i < |ss| =>
      if i in rec then ss[i].(covidStatus := 0, daysSincePositive := Some(0)) else ss[i])
  }

  /** `pool` without its element at position `j`. */
  function RemoveAt(pool: seq<nat>, j: nat): (r: seq<nat>)
    requires j < |pool|
    ensures |r| == |pool| - 1
    ensures multiset(r) + multiset{pool[j]} == multiset(pool)
  {
    assert pool == pool[..j] + [pool[j]] + pool[j + 1..];
    pool[..j] + pool[j + 1..]
  }

  /**
   * `choice(pool, k, replace=False)`: `k` elements drawn one at a time from what is left, the
   * `t`-th draw choosing position `pick(t) mod |left|`.
   */
  function Choose(pool: seq<nat>, k: nat, pick: nat -> nat, t: nat): (r: seq<nat>)
    requires k <= |pool|
    ensures |r| == k
    ensures multiset(r) <= multiset(pool)
    decreases k
  {
    if k == 0 then []
    else
      var j := pick(t) % |pool|;
      var rest := Choose(RemoveAt(pool, j), k - 1, pick, t + 1);
      [pool[j]] + rest
  }

  /** A sample without replacement from distinct elements has no repeats. */
  lemma DistinctSubMultiset(r: seq<nat>, pool: seq<nat>)
    requires Distinct(pool) && multiset(r) <= multiset(pool)
    ensures Distinct(r)
    ensures forall x :: x in r ==> x in pool
  {
    forall x | x in r ensures x in pool {
      assert x in multiset(r);
    }
    forall k, l | 0 <= k < l < |r| ensures r[k] != r[l] {
      if r[k] == r[l] {
        var x := r[k];
        assert multiset(r)[x] >= 2 by {
          assert r == r[..k] + [x] + r[k + 1..l] + [x] + r[l + 1..];
        }
        DistinctCount(pool, x);
      }
    }
  }

  lemma {:induction false} DistinctCount(pool: seq<nat>, x: nat)
    requires Distinct(pool)
    ensures multiset(pool)[x] <= 1
    decreases |pool|
  {
    if pool != [] {
      var init := pool[..|pool| - 1];
      DistinctCount(init, x);
      assert pool == init + [pool[|pool| - 1]];
      if pool[|pool| - 1] == x {
        assert x !in init;
      }
    }
  }

  /** The sampled agents get status 1 and day count 1. */
  function Infect(ss: seq<AgentState>, chosen: seq<nat>): (r: seq<AgentState>)
    ensures |r| == |ss|
  {
    seq(|ss|, i requires 0 <= i < |ss| =>
      if i in chosen then ss[i].(covidStatus := 1, daysSincePositive := Some(1)) else ss[i])
  }

  /** The draws of agent `i`'s turn, one per policy row. */
  function AgentDraws(action: (nat, nat) -> real, i: nat): nat -> real {
    (j: nat) => action(i, j)
  }

  /** Every agent in order takes its turn; the first failing turn raises. */
  function ActAll(ss: seq<AgentState>, feats: seq<map<string, real>>, lockdown: Matrix, effects: Matrix,
                  action: (nat, nat) -> real, m: Maths): (r: Result<seq<AgentState>, Error>)
    requires |feats| == |ss| && WellFormed(lockdown) && WellFormed(effects)
    ensures r.Ok? ==> |r.value| == |ss|
    decreases |ss|
  {
    if ss == [] then Ok([])
    else
      var n := |ss| - 1;
      match ActAll(ss[..n], feats[..n], lockdown, effects, action, m)
      case Err(e) => Err(e)
      case Ok(prefix) =>
        match ActOne(ss[n], feats[n], lockdown, effects, AgentDraws(action, n), m)
        case Err(e) => Err(e)
        case Ok(s) => Ok(prefix + [s])
  }

  /** The pass over one more agent extends the pass over the ones before by that agent's turn. */
  lemma ActAllSnoc(ss: seq<AgentState>, feats: seq<map<string, real>>, lockdown: Matrix, effects: Matrix,
                   action: (nat, nat) -> real, m: Maths, i: nat)
    requires |feats| == |ss| && WellFormed(lockdown) && WellFormed(effects) && i < |ss|
    ensures var before := ActAll(ss[..i], feats[..i], lockdown, effects, action, m);
            var turn := ActOne(ss[i], feats[i], lockdown, effects, AgentDraws(action, i), m);
            ActAll(ss[..i + 1], feats[..i + 1], lockdown, effects, action, m) ==
              if before.Err? then before else if turn.Err? then Err(turn.error) else Ok(before.value + [turn.value])
  {
    assert ss[..i + 1][..i] == ss[..i] && feats[..i + 1][..i] == feats[..i];
  }

  /** A failing turn makes the whole pass fail with its error, whatever the later agents do. */
  lemma {:induction false} ActAllFailsAtPrefix(ss: seq<AgentState>, feats: seq<map<string, real>>, lockdown: Matrix,
                                               effects: Matrix, action: (nat, nat) -> real, m: Maths, n: nat)
    requires |feats| == |ss| && WellFormed(lockdown) && WellFormed(effects) && n <= |ss|
    requires ActAll(ss[..n], feats[..n], lockdown, effects, action, m).Err?
    ensures ActAll(ss, feats, lockdown, effects, action, m) == ActAll(ss[..n], feats[..n], lockdown, effects, action, m)
    decreases |ss|
  {
    if n < |ss| {
      var k := |ss| - 1;
      assert ss[..k][..n] == ss[..n] && feats[..k][..n] == feats[..n];
      ActAllFailsAtPrefix(ss[..k], feats[..k], lockdown, effects, action, m, n);
      ActAllSnoc(ss, feats, lockdown, effects, action, m, k);
      assert ss[..k + 1] == ss && feats[..k + 1] == feats;
    } else {
      assert ss[..n] == ss && feats[..n] == feats;
    }
  }

  /** A successful turn extends a successful pass over the agents before it. */
  lemma ActAllExtends(ss: seq<AgentState>, feats: seq<map<string, real>>, lockdown: Matrix, effects: Matrix,
                      action: (nat, nat) -> real, m: Maths, i: nat, done: seq<AgentState>)
    requires |feats| == |ss| && WellFormed(lockdown) && WellFormed(effects) && i < |ss|
    requires ActAll(ss[..i], feats[..i], lockdown, effects, action, m) == Ok(done)
    requires ActOne(ss[i], feats[i], lockdown, effects, AgentDraws(action, i), m).Ok?
    ensures ActAll(ss[..i + 1], feats[..i + 1], lockdown, effects, action, m) ==
            Ok(done + [ActOne(ss[i], feats[i], lockdown, effects, AgentDraws(action, i), m).value])
  {
    ActAllSnoc(ss, feats, lockdown, effects, action, m, i);
  }

  /** A failing turn after a successful prefix is the failure of the whole pass. */
  lemma ActAllFailsAt(ss: seq<AgentState>, feats: seq<map<string, real>>, lockdown: Matrix, effects: Matrix,
                      action: (nat, nat) -> real, m: Maths, i: nat)
    requires |feats| == |ss| && WellFormed(lockdown) && WellFormed(effects) && i < |ss|
    requires ActAll(ss[..i], feats[..i], lockdown, effects, action, m).Ok?
    requires ActOne(ss[i], feats[i], lockdown, effects, AgentDraws(action, i), m).Err?
    ensures ActAll(ss, feats, lockdown, effects, action, m) ==
            Err(ActOne(ss[i], feats[i], lockdown, effects, AgentDraws(action, i), m).error)
  {
    ActAllSnoc(ss, feats, lockdown, effects, action, m, i);
    ActAllFailsAtPrefix(ss, feats, lockdown, effects, action, m, i + 1);
  }

  /** The pass over every agent is the pass over the prefix of full length. */
  lemma ActAllWhole(ss: seq<AgentState>, feats: seq<map<string, real>>, lockdown: Matrix, effects: Matrix,
                    action: (nat, nat) -> real, m: Maths)
    requires |feats| == |ss| && WellFormed(lockdown) && WellFormed(effects)
    ensures ActAll(ss[..|ss|], feats[..|ss|], lockdown, effects, action, m) == ActAll(ss, feats, lockdown, effects, action, m)
  {
    assert ss[..|ss|] == ss && feats[..|ss|] == feats;
  }

  /** A turn touches only the chosen actions and the status. */
  lemma ActAllKeepsInfection(ss: seq<AgentState>, feats: seq<map<string, real>>, lockdown: Matrix, effects: Matrix,
                             action: (nat, nat) -> real, m: Maths)
    requires |feats| == |ss| && WellFormed(lockdown) && WellFormed(effects)
    requires ActAll(ss, feats, lockdown, effects, action, m).Ok?
    ensures var r := ActAll(ss, feats, lockdown, effects, action, m).value;
            forall i :: 0 <= i < |ss| ==>
              r[i].covidStatus == ss[i].covidStatus && r[i].daysSincePositive == ss[i].daysSincePositive &&
              r[i].longCovid == ss[i].longCovid
  {
    ActAllTurns(ss, feats, lockdown, effects, action, m);
  }

  /** A successful pass gives every agent the state of its own turn. */
  lemma {:induction false} ActAllTurns(ss: seq<AgentState>, feats: seq<map<string, real>>, lockdown: Matrix,
                                       effects: Matrix, action: (nat, nat) -> real, m: Maths)
    requires |feats| == |ss| && WellFormed(lockdown) && WellFormed(effects)
    ensures var r := ActAll(ss, feats, lockdown, effects, action, m);
            r.Ok? ==> forall i :: 0 <= i < |ss| ==>
              ActOne(ss[i], feats[i], lockdown, effects, AgentDraws(action, i), m) == Ok(r.value[i])
    decreases |ss|
  {
    if ss != [] {
      var n := |ss| - 1;
      ActAllTurns(ss[..n], feats[..n], lockdown, effects, action, m);
      var r := ActAll(ss, feats, lockdown, effects, action, m);
      if r.Ok? {
        var prefix := ActAll(ss[..n], feats[..n], lockdown, effects, action, m).value;
        assert r.value == prefix + [r.value[n]];
        forall i | 0 <= i < n
          ensures ActOne(ss[i], feats[i], lockdown, effects, AgentDraws(action, i), m) == Ok(r.value[i])
        {
          assert ss[..n][i] == ss[i] && feats[..n][i] == feats[i];
        }
      }
    }
  }

  datatype StepOutcome = StepOutcome(recovered: seq<nat>, infected: seq<nat>, states: seq<AgentState>)

  /** The agents' states just before they act, or the error of the sample draw. */
  function Infections(ss: seq<AgentState>, k: int, d: StepDraws, m: Maths): (r: Result<StepOutcome, Error>)
    ensures r.Ok? ==> |r.value.states| == |ss|
  {
    var s1 := CounterStep(ss);
    var rec := Recovered(s1, d, m);
    var s2 := ResetRecovered(AfterRecoveryCheck(s1, d, m), rec);
    var neg := Negatives(s2);
    if |neg| == 0 && k != 0 then Err(ValueError(EmptyChoice))
    else if k < 0 then Err(ValueError(NegativeSampleSize))
    else if k > |neg| then Err(ValueError(SampleLargerThanPopulation))
    else
      var inf := Choose(neg, k, d.pick, 0);
      Ok(StepOutcome(rec, inf, Infect(s2, inf)))
  }

  /** `Model.step` on the agents' states. */
  function StepSpec(ss: seq<AgentState>, feats: seq<map<string, real>>, lockdown: Matrix, effects: Matrix,
                    k: int, d: StepDraws, m: Maths): (r: Result<StepOutcome, Error>)
    requires |feats| == |ss| && WellFormed(lockdown) && WellFormed(effects)
    ensures r.Ok? ==> |r.value.states| == |ss|
  {
    match Infections(ss, k, d, m)
    case Err(e) => Err(e)
    case Ok(o) =>
      match ActAll(o.states, feats, lockdown, effects, d.action, m)
      case Err(e) => Err(e)
      case Ok(acted) => Ok(o.(states := acted))
  }

  // ---------------------------------------------------------------------------------------
  // What a step guarantees

  /** The sample is refused exactly when it is negative or larger than the negatives after recovery. */
  lemma SampleSizeChecked(ss: seq<AgentState>, k: int, d: StepDraws, m: Maths)
    ensures var s1 := CounterStep(ss);
            var s2 := ResetRecovered(AfterRecoveryCheck(s1, d, m), Recovered(s1, d, m));
            var n := |Negatives(s2)|;
            && (Infections(ss, k, d, m).Err? <==> k < 0 || k > n)
            && (n == 0 && k != 0 ==> Infections(ss, k, d, m) == Err(ValueError(EmptyChoice)))
            && (n != 0 && k < 0 ==> Infections(ss, k, d, m) == Err(ValueError(NegativeSampleSize)))
            && (0 < n < k ==> Infections(ss, k, d, m) == Err(ValueError(SampleLargerThanPopulation)))
  {}

  /**
   * The newly infected are `k` distinct agents, each negative once the recovered were reset
   * (so a just-recovered agent may be infected again), and each ends with status 1, day 1.
   */
  lemma InfectedAreSampledNegatives(ss: seq<AgentState>, k: int, d: StepDraws, m: Maths)
    requires Infections(ss, k, d, m).Ok?
    ensures var o := Infections(ss, k, d, m).value;
            var s1 := CounterStep(ss);
            var s2 := ResetRecovered(AfterRecoveryCheck(s1, d, m), Recovered(s1, d, m));
            && |o.infected| == k && Distinct(o.infected)
            && (forall i :: i in o.infected ==> 0 <= i < |ss| && s2[i].covidStatus == 0)
            && (forall i :: i in o.infected ==> o.states[i].covidStatus == 1 && o.states[i].daysSincePositive == Some(1))
  {
    var s1 := CounterStep(ss);
    var s2 := ResetRecovered(AfterRecoveryCheck(s1, d, m), Recovered(s1, d, m));
    var neg := Negatives(s2);
    IndexListsIncreasing(s2);
    var inf := Choose(neg, k, d.pick, 0);
    DistinctSubMultiset(inf, neg);
  }

  /**
   * A recovered agent was positive, and leaves the step with status 0 and day count 0 unless it
   * was drawn again, in which case it has status 1 and day count 1.
   */
  lemma RecoveredAreReset(ss: seq<AgentState>, k: int, d: StepDraws, m: Maths)
    requires Infections(ss, k, d, m).Ok?
    ensures var o := Infections(ss, k, d, m).value;
            forall i :: i in o.recovered ==>
              && 0 <= i < |ss| && ss[i].covidStatus == 1
              && (i !in o.infected ==> o.states[i].covidStatus == 0 && o.states[i].daysSincePositive == Some(0))
              && (i in o.infected ==> o.states[i].covidStatus == 1 && o.states[i].daysSincePositive == Some(1))
  {
    RecoveredArePositives(CounterStep(ss), d, m);
  }

  /** An agent neither recovered nor infected keeps its status; a positive one's counter advanced by one. */
  lemma OthersOnlyCount(ss: seq<AgentState>, k: int, d: StepDraws, m: Maths, i: nat)
    requires Infections(ss, k, d, m).Ok? && i < |ss|
    requires i !in Infections(ss, k, d, m).value.recovered && i !in Infections(ss, k, d, m).value.infected
    ensures var s := Infections(ss, k, d, m).value.states[i];
            s.covidStatus == ss[i].covidStatus &&
            s.daysSincePositive == (if ss[i].covidStatus == 1 then Inc(ss[i].daysSincePositive) else ss[i].daysSincePositive)
  {}

  /** Removing `rec` from `P` and adding the disjoint `inf` changes its size by their lengths. */
  lemma CardArith(P: set<nat>, rec: seq<nat>, inf: seq<nat>)
    requires Distinct(rec) && Distinct(inf)
    requires Elems(rec) <= P && Elems(inf) * (P - Elems(rec)) == {}
    ensures |(P - Elems(rec)) + Elems(inf)| == |P| - |rec| + |inf|
  {
    var R := Elems(rec);
    DistinctCard(rec);
    DistinctCard(inf);
    assert P == (P - R) + R;
    assert (P - R) * R == {};
    assert |P| == |P - R| + |R|;
  }

  /** Resetting a set of positives removes exactly them from the positives. */
  lemma ResetPositives(ss: seq<AgentState>, rec: seq<nat>)
    requires StatusBits(ss) && forall i :: i in rec ==> i in WithStatus(ss, 1)
    ensures StatusBits(ResetRecovered(ss, rec))
    ensures WithStatus(ResetRecovered(ss, rec), 1) == WithStatus(ss, 1) - Elems(rec)
  {}

  /** Infecting negatives adds exactly them to the positives. */
  lemma InfectPositives(ss: seq<AgentState>, chosen: seq<nat>)
    requires StatusBits(ss) && forall i :: i in chosen ==> i in WithStatus(ss, 0)
    ensures StatusBits(Infect(ss, chosen))
    ensures WithStatus(Infect(ss, chosen), 1) == WithStatus(ss, 1) + Elems(chosen)
    ensures Elems(chosen) * WithStatus(ss, 1) == {}
  {}

  /** Advancing the counters and the long-COVID draws leave every status as it was. */
  lemma CheckKeepsPositives(ss: seq<AgentState>, d: StepDraws, m: Maths)
    requires StatusBits(ss)
    ensures var sa := AfterRecoveryCheck(CounterStep(ss), d, m);
            StatusBits(sa) && WithStatus(sa, 1) == WithStatus(ss, 1)
  {
    var s1 := CounterStep(ss);
    assert WithStatus(s1, 1) == WithStatus(ss, 1);
  }

  /** How the positive set moves through one step before the agents act. */
  lemma PositiveSets(ss: seq<AgentState>, k: int, d: StepDraws, m: Maths)
    requires StatusBits(ss) && Infections(ss, k, d, m).Ok?
    ensures var o := Infections(ss, k, d, m).value;
            var P := WithStatus(ss, 1);
            var R := Elems(o.recovered);
            var I := Elems(o.infected);
            && R <= P && I * (P - R) == {}
            && WithStatus(o.states, 1) == (P - R) + I
            && StatusBits(o.states)
  {
    var s1 := CounterStep(ss);
    var rec := Recovered(s1, d, m);
    var sa := AfterRecoveryCheck(s1, d, m);
    var s2 := ResetRecovered(sa, rec);
    var o := Infections(ss, k, d, m).value;
    assert o.recovered == rec && o.states == Infect(s2, o.infected);
    CheckKeepsPositives(ss, d, m);
    RecoveredArePositives(s1, d, m);
    assert forall i :: i in rec ==> i in WithStatus(sa, 1);
    ResetPositives(sa, rec);
    InfectedAreSampledNegatives(ss, k, d, m);
    assert forall i :: i in o.infected ==> i in WithStatus(s2, 0);
    InfectPositives(s2, o.infected);
  }

  /** The positives after the infections: the positives before, less the recovered, plus the `k` new cases. */
  lemma PositiveCount(ss: seq<AgentState>, k: int, d: StepDraws, m: Maths)
    requires StatusBits(ss) && Infections(ss, k, d, m).Ok?
    ensures StatusBits(Infections(ss, k, d, m).value.states)
    ensures |WithStatus(Infections(ss, k, d, m).value.states, 1)|
         == |WithStatus(ss, 1)| - |Infections(ss, k, d, m).value.recovered| + k
  {
    var o := Infections(ss, k, d, m).value;
    PositiveSets(ss, k, d, m);
    RecoveredArePositives(CounterStep(ss), d, m);
    InfectedAreSampledNegatives(ss, k, d, m);
    CardArith(WithStatus(ss, 1), o.recovered, o.infected);
  }

  /** After the whole step, the infection state is the one computed before the agents acted. */
  lemma StepKeepsInfections(ss: seq<AgentState>, feats: seq<map<string, real>>, lockdown: Matrix, effects: Matrix,
                            k: int, d: StepDraws, m: Maths)
    requires |feats| == |ss| && WellFormed(lockdown) && WellFormed(effects)
    requires StepSpec(ss, feats, lockdown, effects, k, d, m).Ok?
    ensures Infections(ss, k, d, m).Ok?
    ensures var o := StepSpec(ss, feats, lockdown, effects, k, d, m).value;
            var before := Infections(ss, k, d, m).value;
            o.recovered == before.recovered && o.infected == before.infected &&
            forall i :: 0 <= i < |ss| ==>
              o.states[i].covidStatus == before.states[i].covidStatus &&
              o.states[i].daysSincePositive == before.states[i].daysSincePositive
  {
    var before := Infections(ss, k, d, m).value;
    ActAllKeepsInfection(before.states, feats, lockdown, effects, d.action, m);
  }
}
