/**
 * One agent of the COVID-19 mental-health engine (comma/individual.py): its policy-driven action
 * choice, the mental-health delta of the chosen actions, the long-COVID flag, the recovery
 * draw and the isolation rewrite of a policy matrix.
 *
 * Random draws are parameters, and the logistic sigmoid and the gamma distribution's CDF are
 * uninterpreted functions into [0, 1].
 */
module Individuals {
  import opened Wrappers
  import opened Errors
  import opened Sequences
  import Hypothesis

  type Prob = r: real | 0.0 <= r <= 1.0

  /** The two numerical functions the agent uses: the logistic sigmoid and the gamma CDF. */
  datatype Maths = Maths(sigmoid: real -> Prob, gammaCdf: (real, real, real) -> Prob)

  /** The probability that an agent `days` after a positive test has recovered. */
  function RecoveryCurve(m: Maths, days: int, longCovid: bool): Prob {
    if longCovid then m.gammaCdf(days as real, 7.0, 10.0) else m.gammaCdf(days as real, 5.0, 3.0)
  }

  // ---------------------------------------------------------------------------------------
  // Policy matrices and their products with a feature vector

  /**
   * A numeric data frame: named columns, rows of reals and, optionally, the text `actions`
   * column of a hypothesis file that was not projected away.
   */
  datatype Matrix = Matrix(columns: seq<string>, values: seq<seq<real>>, actions: Option<seq<string>>)

  predicate WellFormed(m: Matrix) {
    && "actions" !in m.columns
    && (forall i :: 0 <= i < |m.values| ==> |m.values[i]| == |m.columns|)
    && (m.actions.Some? ==> |m.actions.value| == |m.values|)
  }

  /**
   * `DataFrame.dot(Series)` lines up the frame's columns with the series' labels and refuses
   * them unless the columns are the series' labels, each once (a repeated column makes the
   * union of the labels longer than the series); a text `actions` column has no numeric partner.
   */
  predicate Aligned(m: Matrix, features: map<string, real>) {
    m.actions.None? && Distinct(m.columns) && (set c | c in m.columns) == features.Keys
  }

  /** One row of a matrix times the feature vector. */
  function RowScore(columns: seq<string>, row: seq<real>, features: map<string, real>): real
    requires |row| == |columns|
    requires forall c :: c in columns ==> c in features
  {
    if columns == [] then 0.0
    else row[0] * features[columns[0]] + RowScore(columns[1..], row[1..], features)
  }

  /** `lockdown.dot(features)`: one score per row, or the misalignment error. */
  function Scores(m: Matrix, features: map<string, real>): (r: Result<seq<real>, Error>)
    requires WellFormed(m)
    ensures r.Ok? <==> Aligned(m, features)
    ensures r.Err? ==> r.error == ValueError(NotAligned)
    ensures r.Ok? ==> |r.value| == |m.values|
  {
    if !Aligned(m, features) then Err(ValueError(NotAligned))
    else Ok(seq(|m.values|, i requires 0 <= i < |m.values| => RowScore(m.columns, m.values[i], features)))
  }

  /** When only the coefficient of column `key` is non-zero, a score is that coefficient times the `key` feature. */
  lemma {:induction false} RowScoreOneKey(columns: seq<string>, row: seq<real>, features: map<string, real>, key: string, b: real)
    requires |row| == |columns| && Distinct(columns)
    requires forall c :: c in columns ==> c in features
    requires forall j :: 0 <= j < |columns| ==> row[j] == if columns[j] == key then b else 0.0
    ensures RowScore(columns, row, features) == if key in columns then b * features[key] else 0.0
  {
    if columns != [] {
      assert forall j :: 0 <= j < |columns| - 1 ==> columns[1..][j] == columns[j + 1];
      RowScoreOneKey(columns[1..], row[1..], features, key, b);
      if columns[0] == key {
        assert key !in columns[1..];
      }
    }
  }

  // ---------------------------------------------------------------------------------------
  // The chosen actions

  /** The positions of the taken actions, in increasing order. */
  function TakenIndices(chosen: seq<bool>): (idx: seq<nat>)
    ensures forall k :: 0 <= k < |idx| ==> idx[k] < |chosen| && chosen[idx[k]]
    ensures forall i :: 0 <= i < |chosen| && chosen[i] ==> i in idx
    ensures forall k, l :: 0 <= k < l < |idx| ==> idx[k] < idx[l]
    decreases |chosen|
  {
    if chosen == [] then []
    else
      var init := TakenIndices(chosen[..|chosen| - 1]);
      if chosen[|chosen| - 1] then init + [|chosen| - 1] else init
  }

  /** `scores.dot(chosen)` with booleans counted as 0 and 1. */
  function TakenSum(scores: seq<real>, chosen: seq<bool>): real
    requires |scores| == |chosen|
    decreases |chosen|
  {
    if chosen == [] then 0.0
    else
      TakenSum(scores[..|scores| - 1], chosen[..|chosen| - 1])
        + (if chosen[|chosen| - 1] then scores[|scores| - 1] else 0.0)
  }

  /** The scores at the given positions, added up. */
  function SumAt(scores: seq<real>, idx: seq<nat>): real
    requires forall k :: 0 <= k < |idx| ==> idx[k] < |scores|
    decreases |idx|
  {
    if idx == [] then 0.0 else SumAt(scores, idx[..|idx| - 1]) + scores[idx[|idx| - 1]]
  }

  /** The status delta is the sum of the scores of exactly the actions `get_actions` names. */
  lemma {:induction false} TakenSumOverTaken(scores: seq<real>, chosen: seq<bool>)
    requires |scores| == |chosen|
    ensures TakenSum(scores, chosen) == SumAt(scores, TakenIndices(chosen))
    decreases |chosen|
  {
    if chosen != [] {
      var n := |chosen| - 1;
      TakenSumOverTaken(scores[..n], chosen[..n]);
      var init := TakenIndices(chosen[..n]);
      SumAtPrefix(scores, init, n);
      var before := SumAt(scores, init);
      assert TakenSum(scores, chosen) == before + (if chosen[n] then scores[n] else 0.0);
      if chosen[n] {
        var idx := init + [n];
        assert idx[..|init|] == init;
        calc {
          SumAt(scores, TakenIndices(chosen));
          SumAt(scores, idx);
          before + scores[n];
        }
        assert TakenSum(scores, chosen) == SumAt(scores, TakenIndices(chosen));
      } else {
        assert TakenIndices(chosen) == init;
        assert TakenSum(scores, chosen) == SumAt(scores, TakenIndices(chosen));
      }
    }
  }

  /** Summing positions below `n` over a prefix of the scores gives the same sum. */
  lemma {:induction false} SumAtPrefix(scores: seq<real>, idx: seq<nat>, n: nat)
    requires n <= |scores|
    requires forall k :: 0 <= k < |idx| ==> idx[k] < n
    ensures SumAt(scores[..n], idx) == SumAt(scores, idx)
    decreases |idx|
  {
    if idx != [] {
      SumAtPrefix(scores, idx[..|idx| - 1], n);
    }
  }

  /** With no action taken the delta is zero. */
  lemma {:induction false} NothingTakenAddsNothing(scores: seq<real>, chosen: seq<bool>)
    requires |scores| == |chosen|
    requires forall i :: 0 <= i < |chosen| ==> !chosen[i]
    ensures TakenSum(scores, chosen) == 0.0
    decreases |chosen|
  {
    if chosen != [] {
      NothingTakenAddsNothing(scores[..|scores| - 1], chosen[..|chosen| - 1]);
    }
  }

  /** `get_actions`: the names of the taken actions, zipped against the action list `actions`. */
  function ActionNames(actions: seq<string>, chosen: seq<bool>): (names: seq<string>)
    ensures var k := if |chosen| < |actions| then |chosen| else |actions|;
            var idx := TakenIndices(chosen[..k]);
            |names| == |idx| && forall m :: 0 <= m < |idx| ==> names[m] == actions[idx[m]]
    ensures forall a :: a in names ==> a in actions
  {
    var k := if |chosen| < |actions| then |chosen| else |actions|;
    var idx := TakenIndices(chosen[..k]);
    seq(|idx|, m requires 0 <= m < |idx| => actions[idx[m]])
  }

  /**
   * Over distinct action names, an action is named exactly when it is taken, and the names come
   * in list order, so they are a subsequence of the list.
   */
  lemma ActionNamesInOrder(actions: seq<string>, chosen: seq<bool>)
    requires |chosen| == |actions| && Distinct(actions)
    ensures forall i :: 0 <= i < |chosen| ==> (chosen[i] <==> actions[i] in ActionNames(actions, chosen))
    ensures var names := ActionNames(actions, chosen);
            forall m, l :: 0 <= m < l < |names| ==>
              IndexOf(actions, names[m]) < IndexOf(actions, names[l])
  {
    assert chosen[..|chosen|] == chosen;
    var idx := TakenIndices(chosen);
    var names := ActionNames(actions, chosen);
    forall i | 0 <= i < |chosen| ensures chosen[i] <==> actions[i] in names {
      if actions[i] in names {
        var m :| 0 <= m < |names| && names[m] == actions[i];
        assert actions[idx[m]] == actions[i];
      }
      if chosen[i] {
        var m :| 0 <= m < |idx| && idx[m] == i;
        assert names[m] == actions[i];
      }
    }
    forall m, l | 0 <= m < l < |names|
      ensures IndexOf(actions, names[m]) < IndexOf(actions, names[l])
    {
      IndexOfDistinct(actions, idx[m]);
      IndexOfDistinct(actions, idx[l]);
    }
  }

  lemma ActionsDistinct()
    ensures Distinct(Hypothesis.AllPossibleActions)
  {}

  lemma IndexOfDistinct(s: seq<string>, i: nat)
    requires Distinct(s) && i < |s|
    ensures IndexOf(s, s[i]) == i
  {
    var k := IndexOf(s, s[i]);
    assert s[k] == s[i];
  }

  // ---------------------------------------------------------------------------------------
  // Long COVID and recovery

  /** `is_long_covid`: a clear flag is set when the draw is below 0.20; a set flag stays set. */
  function LongCovidAfter(flag: int, u: real): (after: int)
    ensures after == 1 <==> flag == 1 || (flag == 0 && u < 0.20)
    ensures flag == 1 ==> after == 1
    ensures after != flag ==> flag == 0 && after == 1
  {
    if flag == 0 && u < 0.20 then 1 else flag
  }

  datatype RecoveryOutcome = RecoveryOutcome(recovered: bool, longCovid: int)

  /**
   * `is_recovered` with the long-COVID draw `uLong` and the recovery draw `uRec`. A missing
   * day count (NaN) passes the ten-day test and fails the CDF comparison.
   */
  function Recovery(days: Option<int>, flag: int, uLong: real, uRec: real, m: Maths): RecoveryOutcome {
    if days.Some? && days.value <= 10 then RecoveryOutcome(false, flag)
    else
      var after := LongCovidAfter(flag, uLong);
      if days.None? then RecoveryOutcome(false, after)
      else RecoveryOutcome(uRec <= RecoveryCurve(m, days.value, after == 1), after)
  }

  /** Within ten days of a positive test nobody recovers, and neither draw is looked at. */
  lemma RecoveryFloor(d: int, flag: int, uLong: real, uRec: real, uLong': real, uRec': real, m: Maths)
    requires d <= 10
    ensures Recovery(Some(d), flag, uLong, uRec, m) == RecoveryOutcome(false, flag)
    ensures Recovery(Some(d), flag, uLong, uRec, m) == Recovery(Some(d), flag, uLong', uRec', m)
  {}

  /** After ten days the agent recovers when the draw is below the CDF of the curve its flag selects. */
  lemma RecoveryAfterFloor(d: int, flag: int, uLong: real, uRec: real, m: Maths)
    requires d > 10
    ensures var o := Recovery(Some(d), flag, uLong, uRec, m);
            && o.longCovid == LongCovidAfter(flag, uLong)
            && (o.recovered <==> uRec <= (if o.longCovid == 1 then m.gammaCdf(d as real, 7.0, 10.0)
                                                               else m.gammaCdf(d as real, 5.0, 3.0)))
  {}

  // ---------------------------------------------------------------------------------------
  // The isolation rewrite

  /** The row whose baseline the rewrite sets to 5: `be_sedentary` rows, or row 8 without an actions column. */
  predicate Favoured(m: Matrix, i: nat) {
    if m.actions.Some? then i < |m.actions.value| && m.actions.value[i] == "be_sedentary" else i == 8
  }

  /** The number of columns labelled `x`. */
  function Occurrences(cols: seq<string>, x: string): nat {
    if cols == [] then 0 else (if cols[0] == x then 1 else 0) + Occurrences(cols[1..], x)
  }

  /** The label `x` occurs in two columns or more. */
  predicate Repeated(cols: seq<string>, x: string) {
    Occurrences(cols, x) >= 2
  }

  /**
   * `modify_policy_when_infected`, on a copy: every coefficient but the baseline becomes 0, the
   * baseline (added when absent; every column so labelled) becomes -5, and the favoured rows get
   * baseline 5. Without an actions column the favoured row is set with `iat[8, get_loc(...)]`:
   * a repeated `baseline` label gives `get_loc` a non-integer position, which `iat` refuses
   * (`ValueError`) before its bounds check, and a matrix of at most eight rows has no row 8.
   */
  function ModifyPolicyWhenInfected(m: Matrix): (r: Result<Matrix, Error>)
    requires WellFormed(m)
    ensures r.Err? <==> m.actions.None? && (Repeated(m.columns, "baseline") || |m.values| <= 8)
    ensures r.Err? ==> r.error == if Repeated(m.columns, "baseline") then ValueError(NonIntegerPosition) else IndexError
    ensures r.Ok? ==> WellFormed(r.value) && r.value.actions == m.actions && |r.value.values| == |m.values|
    ensures r.Ok? ==> r.value.columns == if "baseline" in m.columns then m.columns else m.columns + ["baseline"]
    ensures r.Ok? ==> forall i, j :: 0 <= i < |m.values| && 0 <= j < |r.value.columns| ==>
              r.value.values[i][j] == (if r.value.columns[j] != "baseline" then 0.0
                                       else if Favoured(m, i) then 5.0 else -5.0)
  {
    if m.actions.None? && Repeated(m.columns, "baseline") then Err(ValueError(NonIntegerPosition))
    else if m.actions.None? && |m.values| <= 8 then Err(IndexError)
    else
      var cols := if "baseline" in m.columns then m.columns else m.columns + ["baseline"];
      IsolationRowAt(cols, true);
      IsolationRowAt(cols, false);
      Ok(Matrix(cols, seq(|m.values|, i requires 0 <= i < |m.values| => IsolationRow(cols, Favoured(m, i))), m.actions))
  }

  /** A rewritten row: 0 everywhere except under `baseline`, which is 5 or -5. */
  function IsolationRow(cols: seq<string>, favoured: bool): (row: seq<real>)
    ensures |row| == |cols|
  {
    if cols == [] then []
    else [if cols[0] != "baseline" then 0.0 else if favoured then 5.0 else -5.0] + IsolationRow(cols[1..], favoured)
  }

  /** Column `j` of a rewritten row is 0 unless it is labelled `baseline`. */
  lemma {:induction false} IsolationRowAt(cols: seq<string>, favoured: bool)
    ensures forall j :: 0 <= j < |cols| ==>
              IsolationRow(cols, favoured)[j] == if cols[j] != "baseline" then 0.0 else if favoured then 5.0 else -5.0
  {
    if cols != [] {
      IsolationRowAt(cols[1..], favoured);
      forall j | 0 < j < |cols|
        ensures IsolationRow(cols, favoured)[j] == IsolationRow(cols[1..], favoured)[j - 1]
      {}
    }
  }

  lemma AlignedCovers(m: Matrix, features: map<string, real>)
    requires Aligned(m, features)
    ensures forall c :: c in m.columns ==> c in features
  {
    forall c | c in m.columns ensures c in features {
      assert c in (set c | c in m.columns);
    }
  }

  /** The score of an isolation row is +-5 times the baseline feature. */
  lemma IsolationScore(cols: seq<string>, favoured: bool, features: map<string, real>)
    requires Distinct(cols) && "baseline" in cols
    requires forall c :: c in cols ==> c in features
    ensures RowScore(cols, IsolationRow(cols, favoured), features) == (if favoured then 5.0 else -5.0) * features["baseline"]
  {
    IsolationRowAt(cols, favoured);
    RowScoreOneKey(cols, IsolationRow(cols, favoured), features, "baseline", if favoured then 5.0 else -5.0);
  }

  /**
   * For an infected agent, the score of every row of the rewritten policy is +-5 times the
   * agent's baseline feature: no other feature matters any more.
   */
  lemma ModifiedScore(m: Matrix, features: map<string, real>, i: nat)
    requires WellFormed(m) && ModifyPolicyWhenInfected(m).Ok?
    requires Aligned(ModifyPolicyWhenInfected(m).value, features) && i < |m.values|
    ensures var r := ModifyPolicyWhenInfected(m).value;
            RowScore(r.columns, r.values[i], features) == (if Favoured(m, i) then 5.0 else -5.0) * features["baseline"]
  {
    var r := ModifyPolicyWhenInfected(m).value;
    assert r.values[i] == IsolationRow(r.columns, Favoured(m, i));
    assert "baseline" in r.columns;
    AlignedCovers(r, features);
    IsolationScore(r.columns, Favoured(m, i), features);
  }

  /** `be_sedentary` is not a canonical action, so on a table of canonical actions no row is favoured. */
  lemma NoCanonicalRowFavoured(m: Matrix)
    requires WellFormed(m) && m.actions.Some?
    requires forall i :: 0 <= i < |m.actions.value| ==> m.actions.value[i] in Hypothesis.AllPossibleActions
    ensures forall i :: 0 <= i < |m.values| ==> !Favoured(m, i)
  {
    Hypothesis.CanonicalLists();
  }

  // ---------------------------------------------------------------------------------------
  // One agent's turn, as values

  /** The choice `choose_actions_on_lockdown` makes: one flag per policy row. */
  function ChosenActions(policy: Matrix, features: map<string, real>, draw: nat -> real, m: Maths): (r: Result<seq<bool>, Error>)
    requires WellFormed(policy)
    ensures r.Ok? <==> Aligned(policy, features)
    ensures r.Err? ==> r.error == ValueError(NotAligned)
    ensures r.Ok? ==> |r.value| == |policy.values| && forall i :: 0 <= i < |policy.values| ==>
              (r.value[i] <==> draw(i) <= m.sigmoid(RowScore(policy.columns, policy.values[i], features)))
  {
    match Scores(policy, features)
    case Err(e) => Err(e)
    case Ok(scores) => Ok(seq(|scores|, i requires 0 <= i < |scores| => draw(i) <= m.sigmoid(scores[i])))
  }

  /** The status `take_actions` computes from the effects matrix and the chosen actions. */
  function StatusAfter(effects: Matrix, features: map<string, real>, chosen: Option<seq<bool>>): (r: Result<real, Error>)
    requires WellFormed(effects)
    ensures r.Ok? <==> Aligned(effects, features) && chosen.Some? && |chosen.value| == |effects.values|
    ensures !Aligned(effects, features) ==> r == Err(ValueError(NotAligned))
    ensures Aligned(effects, features) && chosen.None? ==> r == Err(IndexError)
    ensures Aligned(effects, features) && chosen.Some? && |chosen.value| != |effects.values| ==>
              r == Err(Exception(ShapeMismatch))
  {
    match Scores(effects, features)
    case Err(e) => Err(e)
    case Ok(scores) =>
      if chosen.None? then Err(IndexError)
      else if |chosen.value| != |scores| then Err(Exception(ShapeMismatch))
      else Ok(TakenSum(scores, chosen.value))
  }

  /**
   * One agent's turn in a step: a negative agent chooses on the lockdown policy, a positive one
   * on its isolation rewrite, and either then takes the actions chosen.
   */
  function ActOne(s: AgentState, features: map<string, real>, lockdown: Matrix, effects: Matrix,
                  draw: nat -> real, m: Maths): (r: Result<AgentState, Error>)
    requires WellFormed(lockdown) && WellFormed(effects)
    ensures r.Ok? ==> r.value == s.(chosenActions := r.value.chosenActions, status := r.value.status)
  {
    var policy := if s.covidStatus == 0 then Ok(lockdown) else ModifyPolicyWhenInfected(lockdown);
    match policy
    case Err(e) => Err(e)
    case Ok(p) =>
      match ChosenActions(p, features, draw, m)
      case Err(e) => Err(e)
      case Ok(chosen) =>
        match StatusAfter(effects, features, Some(chosen))
        case Err(e) => Err(e)
        case Ok(status) => Ok(s.(chosenActions := Some(chosen), status := status))
  }

  /** A turn chooses one flag per lockdown row and sets the status to the effect of those actions. */
  lemma ActOneChoosesThenTakes(s: AgentState, features: map<string, real>, lockdown: Matrix, effects: Matrix,
                               draw: nat -> real, m: Maths)
    requires WellFormed(lockdown) && WellFormed(effects)
    requires ActOne(s, features, lockdown, effects, draw, m).Ok?
    ensures var r := ActOne(s, features, lockdown, effects, draw, m).value;
            var policy := if s.covidStatus == 0 then lockdown else ModifyPolicyWhenInfected(lockdown).value;
            && r.chosenActions.Some? && |r.chosenActions.value| == |lockdown.values| == |effects.values|
            && r.chosenActions == Some(ChosenActions(policy, features, draw, m).value)
            && r.status == TakenSum(Scores(effects, features).value, r.chosenActions.value)
  {}

  // ---------------------------------------------------------------------------------------
  // The agent

  /** The mutable part of an agent. */
  datatype AgentState = AgentState(
    chosenActions: Option<seq<bool>>, status: real, covidStatus: int, longCovid: int, daysSincePositive: Option<int>)

  class Individual {
    const id: int
    const features: map<string, real>
    var chosenActions: Option<seq<bool>>
    var status: real
    var covidStatus: int
    var longCovid: int
    var daysSincePositive: Option<int>

    /** A new agent: healthy, not long-COVID, no day count (NaN) and no actions chosen. */
    constructor(id: int, features: map<string, real>)
      ensures this.id == id && this.features == features
      ensures chosenActions == None && status == 0.0
      ensures covidStatus == 0 && longCovid == 0 && daysSincePositive == None
    {
      this.id := id;
      this.features := features;
      chosenActions := None;
      status := 0.0;
      covidStatus := 0;
      longCovid := 0;
      daysSincePositive := None;
    }

    function State(): AgentState
      reads this
    {
      AgentState(chosenActions, status, covidStatus, longCovid, daysSincePositive)
    }

    /** `get_actions`: fails while no actions have been chosen. */
    function GetActions(): (r: Result<seq<string>, Error>)
      reads this
      ensures r.Err? <==> chosenActions.None?
      ensures r.Err? ==> r.error == TypeError
      ensures r.Ok? ==> forall a :: a in r.value ==> a in Hypothesis.AllPossibleActions
    {
      match chosenActions
      case None => Err(TypeError)
      case Some(chosen) => Ok(ActionNames(Hypothesis.AllPossibleActions, chosen))
    }

    /**
     * `choose_actions_on_lockdown`: one boolean per policy row, true when that row's draw is at
     * most the sigmoid of the row's score.
     */
    method ChooseActionsOnLockdown(lockdown: Matrix, draw: nat -> real, maths: Maths) returns (err: Option<Error>)
      requires WellFormed(lockdown)
      modifies this
      ensures err.None? <==> Aligned(lockdown, features)
      ensures err.Some? ==> err.value == ValueError(NotAligned) && chosenActions == old(chosenActions)
      ensures err.None? ==>
        && chosenActions.Some? && |chosenActions.value| == |lockdown.values|
        && forall i :: 0 <= i < |lockdown.values| ==>
             (chosenActions.value[i] <==> draw(i) <= maths.sigmoid(RowScore(lockdown.columns, lockdown.values[i], features)))
      ensures err.None? ==> chosenActions == Some(ChosenActions(lockdown, features, draw, maths).value)
      ensures err.Some? ==> ChosenActions(lockdown, features, draw, maths) == Err(err.value)
      ensures status == old(status) && covidStatus == old(covidStatus)
      ensures longCovid == old(longCovid) && daysSincePositive == old(daysSincePositive)
    {
      var scores := Scores(lockdown, features);
      if scores.Err? {
        return Some(scores.error);
      }
      var probs := scores.value;
      chosenActions := Some(seq(|probs|, i requires 0 <= i < |probs| => draw(i) <= maths.sigmoid(probs[i])));
      return None;
    }

    /**
     * `take_actions`: the status becomes (not grows by) the sum of the effects scores of the
     * chosen actions.
     */
    method TakeActions(effects: Matrix) returns (err: Option<Error>)
      requires WellFormed(effects)
      modifies this
      ensures !Aligned(effects, features) ==> err == Some(ValueError(NotAligned))
      ensures Aligned(effects, features) && chosenActions.None? ==> err == Some(IndexError)
      ensures Aligned(effects, features) && chosenActions.Some? && |chosenActions.value| != |effects.values| ==>
                err == Some(Exception(ShapeMismatch))
      ensures err.Some? ==> status == old(status)
      ensures err.None? <==> StatusAfter(effects, features, chosenActions).Ok?
      ensures err.None? ==> status == StatusAfter(effects, features, chosenActions).value
      ensures err.Some? ==> StatusAfter(effects, features, chosenActions) == Err(err.value)
      ensures err.None? ==>
        && chosenActions.Some? && |chosenActions.value| == |effects.values|
        && status == TakenSum(Scores(effects, features).value, chosenActions.value)
      ensures chosenActions == old(chosenActions) && covidStatus == old(covidStatus)
      ensures longCovid == old(longCovid) && daysSincePositive == old(daysSincePositive)
    {
      var scores := Scores(effects, features);
      if scores.Err? {
        return Some(scores.error);
      }
      if chosenActions.None? {
        return Some(IndexError);
      }
      if |chosenActions.value| != |scores.value| {
        return Some(Exception(ShapeMismatch));
      }
      status := TakenSum(scores.value, chosenActions.value);
      return None;
    }

    /**
     * One agent's turn in `Model.step`: a negative agent chooses on the lockdown policy, a
     * positive one on its isolation rewrite, and then it takes the chosen actions.
     */
    method TakeTurn(lockdown: Matrix, effects: Matrix, draw: nat -> real, maths: Maths) returns (err: Option<Error>)
      requires WellFormed(lockdown) && WellFormed(effects)
      modifies this
      ensures var r := ActOne(old(State()), features, lockdown, effects, draw, maths);
              && (err.None? <==> r.Ok?)
              && (err.None? ==> State() == r.value)
              && (err.Some? ==> r == Err(err.value))
    {
      var policy := lockdown;
      if covidStatus != 0 {
        var p := ModifyPolicyWhenInfected(lockdown);
        if p.Err? {
          return Some(p.error);
        }
        policy := p.value;
      }
      err := ChooseActionsOnLockdown(policy, draw, maths);
      if err.Some? {
        return;
      }
      err := TakeActions(effects);
    }

    /** `is_long_covid` with its draw `u`. */
    method IsLongCovid(u: real) returns (b: bool)
      modifies this
      ensures longCovid == LongCovidAfter(old(longCovid), u)
      ensures b <==> longCovid == 1
      ensures chosenActions == old(chosenActions) && status == old(status)
      ensures covidStatus == old(covidStatus) && daysSincePositive == old(daysSincePositive)
    {
      if longCovid == 0 && u < 0.20 {
        longCovid := 1;
      }
      b := longCovid == 1;
    }

    /** `is_recovered` with the long-COVID draw `uLong` and the recovery draw `uRec`. */
    method IsRecovered(uLong: real, uRec: real, maths: Maths) returns (b: bool)
      modifies this
      ensures var o := Recovery(old(daysSincePositive), old(longCovid), uLong, uRec, maths);
              b == o.recovered && longCovid == o.longCovid
      ensures chosenActions == old(chosenActions) && status == old(status)
      ensures covidStatus == old(covidStatus) && daysSincePositive == old(daysSincePositive)
    {
      if daysSincePositive.Some? && daysSincePositive.value <= 10 {
        return false;
      }
      var isLong := IsLongCovid(uLong);
      if daysSincePositive.None? {
        return false;
      }
      var p := RecoveryCurve(maths, daysSincePositive.value, isLong);
      b := uRec <= p;
    }
  }
}
