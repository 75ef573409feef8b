# comma: a verified model of the COVID-19 mental-health agent-based engine

This project models in Dafny the core of `comma`, an agent-based model of how lockdown policies
and COVID-19 infections affect the mental health of a population. It also models the small
population helpers of its predecessor package `mhm`. The model has eight modules:

- **Hypothesis** (`hypothesis.dfy`) covers the schema of the hypothesis folder:
  - the canonical lists of lockdown policies, one-hot features and actions;
  - the one-hot naming of the individual parameters;
  - the three ordered checks of `validate_param_file` (missing files, missing features, missing actions);
  - the projection and row ordering that turn a parsed hypothesis file into a policy matrix (`read_actions`, `read_hypotheses`), including `df[cols]`'s selection of every column when lower-casing makes two headers alike.

  Files are parsed tables: a header and rows of cells. The folder is a map from file name to table.
- **Individuals** (`individual.dfy`) models one agent (`Individual`) as a class with the fields the source assigns:
  - the action choice `draw(i) <= sigmoid(row_i · features)`;
  - the status update, which overwrites the status with the dot product restricted to the chosen actions;
  - the monotone long-COVID flag;
  - the ten-day recovery floor and the gamma-CDF recovery test;
  - the policy rewrite that pushes infected agents towards isolation.

  It also holds the pure specification of one agent's turn (`ActOne`).
- **Steps** (`steps.dfy`) specifies, on values, one step of the engine: the day counter, the recovery checks, the reset of the recovered, the sample without replacement from the negatives, and every agent's turn. It proves what a step guarantees about these.
- **Simulation** (`model.dfy`) models the engine (`Model`) as a class over a sequence of `Individual` objects:
  - the loops of `update_covid_counter`, `get_recovered_individuals` and `step`;
  - the time series of `update`, in which step 0 records no change and the raw status, and later steps accumulate;
  - the rows of `report`;
  - the argument checks and the loop of `run`.

  Every method is proved against the pure specifications of Steps and of this module. The run is proved against `RunStates`, the fold of the step specification over the policy.
- **Distributions** (`distributions.dfy`) models the `mhm` population generators:
  - the percentage-based 0/1 generators: an array of ones, the slice set to zero, an in-place Fisher–Yates shuffle;
  - the age generator: `array_split` of the age range, then one group and one member drawn per person, with `np.random.choice`'s checks in order;
  - the categorical generators, which follow `random.choices` with its `bisect` over the cumulative weights.
- **MhmAgent** (`agent.dfy`) models the `mhm` agent, its two state mutators and the assembly loop of `make_population`.
- **MhmUtils** (`utils.dfy`) models `label_age_range`: `np.digitize` with right-inclusive bins, and the label lookup whose index `-1` wraps around.
- **Sequences** (`sequences.dfy`) holds the facts about lists and index lists that the other modules share (first position, index ranges, filtered and increasing index lists, prefixes).

The model represents the source as follows:

- **Floats** are `real` (exact arithmetic).
- **NaN** in `days_since_positive` is `None`. `NaN + 1` is NaN, and comparisons with NaN are false.
- **Random draws** are parameters: total functions from the draw's position (agent, row, step, sample index) to a value. The model is stated for every outcome of the generators.
- **The sigmoid and the gamma CDF** are parameters into `[0, 1]` (`Maths`).
- **Exceptions** are `Err` values, or `Some(error)` when a method returns nothing. Each error carries the exception kind and the reason given in its message; `Exception` is the plain exception class pandas raises for a dot product of mismatched shapes.
- **Python dictionary insertion order**, where it matters (`report` walks `cumulative_status` in insertion order), is the key sequence `stepKeys`.

## Model

| member | source | states |
|---|---|---|
| MhmUtils.Digitize | mhm/utils.py:24 | `np.digitize(x, bins, right=True)`: an index between 0 and the number of bins |
| MhmUtils.DigitizeIsRightInclusive | mhm/utils.py:22-24 | on increasing bins the index `i` satisfies `bins[i-1] < x <= bins[i]` (right-inclusive), with the open ends at 0 and `|bins|` |
| MhmUtils.DigitizeMonotone | mhm/utils.py:22-24 | on increasing bins the index never decreases with the value |
| MhmUtils.LabelAgeRange | mhm/utils.py:8-27 | succeeds iff every age has a label; the result has the input's length and is the age label element-wise; the only failure is `IndexError` |
| MhmUtils.AgeLabelInsideBins | mhm/utils.py:22-26 | ages 25–35 get `_1`, 36–45 `_2`, 46–55 `_3`, 56–65 `_4` |
| MhmUtils.AgeLabelYoungWraps | mhm/utils.py:24-25 | an age of at most 24 gets index 0, and the lookup at `-1` wraps to `_4` |
| MhmUtils.AgeLabelOldFails | mhm/utils.py:25 | an age above 65 gets index 4, past the four labels: `IndexError` |
| MhmUtils.AgeGroupNumber | mhm/utils.py:22-26 | for ages 25–65 the label is `_g` for a group number `g` in 1..4 |
| MhmUtils.AgeGroupMonotone | mhm/utils.py:22-25 | for ages 25–65 the group number never decreases with age |
| MhmUtils.LabelAgeRangeExample | tests/test_utils.py:6-12 | the nine ages of the test suite get the labels the test expects |
| MhmAgent.State.constructor | mhm/agent.py:49-55 | the four state fields hold the given values |
| MhmAgent.Agent.constructor | mhm/agent.py:58-62 | an agent holds the given features and state |
| MhmAgent.Agent.GoToWork | mhm/agent.py:64-67 | three more contacts and one more point of mental health; employment and infection unchanged; the features are constant |
| MhmAgent.Agent.Socialise | mhm/agent.py:68-71 | five more contacts and three more points of mental health; employment and infection unchanged |
| MhmAgent.NatToString | mhm/agent.py:116 | `str(i)`: a non-empty string of decimal digits without a leading zero |
| MhmAgent.NatToStringRoundTrip | mhm/agent.py:116 | reading the digits of `str(i)` back gives `i` |
| MhmAgent.NatToStringInjective | mhm/agent.py:116 | different agents get different names |
| MhmAgent.MakePopulation | mhm/agent.py:111-141 | fails with `IndexError` iff an age has no label or a column is shorter than `n`; otherwise `max(n, 0)` new agents, where agent `i` holds name `str(i)`, entry `i` of every column and the `i`-th age label, and starts with `infected = 0`, `mental_health = 2`, `n_contacts = 0`, `employed ∈ {0, 1}`; the agents' states are distinct objects |
| MhmAgent.PopulationFeatures | mhm/agent.py:111-134 | agent `i`'s name reads back as `i`; two agents share a name iff they are the same; its age group is the label of its own age, `_1`..`_4` by its group for ages 25–65 |
| Distributions.SliceEnd | mhm/distributions.py:25 | where `[:k]` ends on an array of `n`: never past the end, a negative `k` counting from the back |
| Distributions.ZeroCount | mhm/distributions.py:25 | the zeros the slice assignment writes never exceed `n` |
| Distributions.ZeroCountOfPercentage | mhm/distributions.py:25 | for a non-negative percentage the zero count is `min(n, ⌊n·percentage/100⌋)`, and exactly the floor up to 100% |
| Distributions.ZeroCountOfNegativePercentage | mhm/distributions.py:25 | for a negative percentage, `int` truncates toward zero and the slice end counts from the back: `n - f` zeros for `f = ⌊n·(-percentage)/100⌋`, and none when `f` is 0 or at least `n` |
| Distributions.ShuffleInPlace | mhm/distributions.py:26 | `np.random.shuffle` in place: the array ends as the Fisher–Yates shuffle of its old contents under the draws |
| Distributions.ShuffleDownPermutes | mhm/distributions.py:26 | the shuffle is a permutation (same multiset) |
| Distributions.GenerateBinaryDistribution | mhm/distributions.py:9-27 | the shared body of the eight 0/1 generators (gender 9-27, depression 216-236, burnout 239-259, addiction 262-281, fatigue 284-304, child 307-326, living with children 329-348, single parent 351-369): a negative size is a `ValueError`; otherwise the shuffle of `ZeroCount` zeros followed by ones |
| Distributions.BinaryDistributionCounts | mhm/distributions.py:24-27 | the result has length `n`, holds only 0 and 1, exactly `ZeroCount(n, percentage)` zeros and the rest ones, whatever the shuffle draws |
| Distributions.Choices | mhm/distributions.py:87-89 | `random.choices(options, weights, k=n)`: a `ValueError` when the lengths differ; an `IndexError` when both are empty; otherwise it fails iff the total weight is not positive; otherwise `max(n, 0)` draws, each one of the options |
| Distributions.ChoicesFollowWeights | mhm/distributions.py:87-89 | with non-negative weights and draws in `[0, 1)`, draw `t` is the option that `bisect_right` over the cumulative weights selects, and that option has positive weight |
| Distributions.BisectRightSorted | mhm/distributions.py:89 | `bisect_right` on sorted totals: everything before the index is at most the point and everything from it is above |
| Distributions.ArraySplit | mhm/distributions.py:54 | `np.array_split(values, k)` gives `k` pieces |
| Distributions.ArraySplitBalanced | mhm/distributions.py:54 | the first `len % k` pieces have one element more than the others |
| Distributions.ArraySplitCovers | mhm/distributions.py:53-54 | the pieces joined in order give back the split sequence: they are contiguous and cover it |
| Distributions.ArraySplitInRange | mhm/distributions.py:53-54 | every member of a piece of `arange(min_age, max_age)` lies in `[min_age, max_age)` |
| Distributions.DrawAge | mhm/distributions.py:58-59 | one pass of the loop: the group `searchsorted(cumsum(p), u, 'right')`, then a member of it; an empty group is a `ValueError` |
| Distributions.GenerateAgeDistribution | mhm/distributions.py:30-60 | the loop computes `AgeSpec`: a `ValueError` for a non-positive group count; no people means no checks; otherwise `np.random.choice`'s probability checks in order (length, sign, sum), then one draw per person, stopping at the first failure |
| Distributions.AgesFailureSticks | mhm/distributions.py:57-59 | a failing person makes the whole generation fail with that person's error |
| Distributions.AgesUpToOk | mhm/distributions.py:56-60 | a successful loop returns one age per person, each the draw of that person |
| Distributions.AgeDistributionInGroups | mhm/distributions.py:53-60 | on success: `max(n, 0)` ages, each in the group its draw selects and in `[min_age, max_age)` |
| Distributions.AgeGroupHasWeight | mhm/distributions.py:58 | with valid probabilities and a draw in `[0, 1)`, the selected group exists and has positive probability |
| Distributions.AgeDistributionSucceeds | mhm/distributions.py:53-60 | with `0 < k <= max_age - min_age`, valid probabilities and draws in `[0, 1)` the generator succeeds |
| Distributions.GenerateEducationalAttainment | mhm/distributions.py:63-90 | fails iff `low + medium + high <= 0`; otherwise `max(n, 0)` values from `Low`, `Medium`, `High` |
| Distributions.GenerateLivingArea | mhm/distributions.py:93-117 | fails iff `rural + urban <= 0`; otherwise `max(n, 0)` values from `rural`, `urban` |
| Distributions.GenerateJobType | mhm/distributions.py:120-149 | fails iff the four weights sum to at most 0; otherwise `max(n, 0)` values from the four job types |
| Distributions.GenerateEmployment | mhm/distributions.py:152-178 | fails iff the three weights sum to at most 0; otherwise `max(n, 0)` values from the three employment options |
| Distributions.GeneratePartnershipStatus | mhm/distributions.py:181-213 | fails iff the five weights sum to at most 0; otherwise `max(n, 0)` values from the five partnership options |
| Distributions.GenerateDifficulties | mhm/distributions.py:372-399 | the health generator; the finance (402-429) and housing (432-459) generators are the same function: fails iff the weights sum to at most 0; otherwise `max(n, 0)` values from `No`, `Some`, `Many` |
| Distributions.GeneratePartnerDifficulties | mhm/distributions.py:462-492 | fails iff the four weights sum to at most 0; otherwise `max(n, 0)` values from `No`, `Some`, `Many`, `Other` |
| Hypothesis.CanonicalLists | comma/hypothesis.py:32-81 | 4 policies, 24 features, 10 actions; `stay_at_home` at index 2, `positive_coping` at 8; `be_sedentary` is not an action |
| Hypothesis.OneHotShape | comma/hypothesis.py:158-164 | the one-hot naming succeeds iff every key's encoding does, and yields one name per string category (one for a numeric key) |
| Hypothesis.OneHotAppend | comma/hypothesis.py:158-164 | keys are processed in order: the names of a concatenation are the concatenated names, and the first failing key decides the error |
| Hypothesis.GetOneHotEncodedFeatures | comma/hypothesis.py:140-164 | the accumulating loop computes `OneHotFeatures` |
| Hypothesis.HypothesisFileNames | comma/hypothesis.py:213-216 | the five hypothesis files, effects file first |
| Hypothesis.Absent | comma/hypothesis.py:218-221 | exactly the required files the folder lacks, in order |
| Hypothesis.MissingFeatureSet | comma/hypothesis.py:225-233 | empty iff every required feature matches some column case-insensitively |
| Hypothesis.MissingActionSet | comma/hypothesis.py:242-244 | exactly the canonical actions absent from the `actions` column, compared case-sensitively |
| Hypothesis.FeatureReports | comma/hypothesis.py:229-239 | no report iff every file has every required feature |
| Hypothesis.ActionReports | comma/hypothesis.py:241-249 | a `KeyError` iff some file has no `actions` column; otherwise no report iff every file names every action |
| Hypothesis.ValidateParamFile | comma/hypothesis.py:198-249 | passes iff the parameters load, their one-hot naming succeeds and all five files exist and conform; absent files raise the `ValueError` naming exactly them, before the feature check; a missing feature raises the missing-features `ValueError` |
| Hypothesis.PolicyColumns | comma/hypothesis.py:129-131 | `baseline` followed by the 24 features; no `actions` column |
| Hypothesis.ActionRank | comma/hypothesis.py:121-123 | a row's action category: its canonical index, or past the end when it is not canonical (NaN) |
| Hypothesis.OrderRowsSortsAndPermutes | comma/hypothesis.py:121-124 | the row ordering is a permutation of the rows, sorted by canonical action index |
| Hypothesis.Selection | comma/hypothesis.py:104 | `df[cols]` on a header that may repeat a label selects only positions of the header whose label is wanted |
| Hypothesis.SelectionCovers | comma/hypothesis.py:104 | every column whose lower-cased header is wanted is selected, not only the first |
| Hypothesis.LabelsAlongSelection | comma/hypothesis.py:101-104 | the `k`-th selected column carries the `k`-th label |
| Hypothesis.LabelsCover | comma/hypothesis.py:101-104 | when every wanted label is carried, the selected labels are exactly the wanted ones |
| Hypothesis.LabelsOfSingleMatches | comma/hypothesis.py:100-104 | when each wanted label is carried by exactly one column, the result has exactly the wanted columns in the wanted order |
| Hypothesis.LabelsLonger | comma/hypothesis.py:100-104 | a wanted label carried by two headers makes the result wider than the wanted list |
| Hypothesis.PolicyColumnsOnce | comma/hypothesis.py:126-134 | a file whose headers cover the policy columns yields exactly the policy column list iff no policy column is carried twice |
| Hypothesis.Project | comma/hypothesis.py:120-134 | succeeds iff there is an `actions` column and every wanted column matches a lower-cased header (a `KeyError` otherwise); output column `k` is the file column `Selection[k]` and is labelled with that column's lower-cased header; the labels are exactly the wanted ones, each repeated once per matching header; row `i` projects the `i`-th ordered row onto those columns |
| Hypothesis.ToPolicyFrame | comma/hypothesis.py:120-134 | succeeds iff there is an `actions` column and every policy column matches a lower-cased header; the labels are exactly the policy columns (never `actions`), and they equal the policy column list iff no two headers lower-case to the same policy column; one row per file row, each as wide as the header |
| Hypothesis.ReadActions | comma/hypothesis.py:83-106 | the action-effects matrix carries exactly the policy columns, in policy order when no header is repeated up to case; a missing file is `FileNotFoundError` |
| Hypothesis.LoadPolicy | comma/hypothesis.py:113-134 | one policy's matrix carries exactly the policy columns, in policy order when no header is repeated up to case; a missing file is `FileNotFoundError` |
| Hypothesis.ReadHypotheses | comma/hypothesis.py:108-138 | succeeds iff every policy loads; then the keys are exactly the policies and each value is that policy's matrix; a failure is that of the first policy that fails |
| Individuals.Scores | comma/individual.py:85 | `DataFrame.dot(features)` succeeds iff the columns are the features' labels, each exactly once (a repeated column label is a `ValueError`); one score per row |
| Individuals.ChosenActions | comma/individual.py:83-92 | one boolean per policy row: `chosen[i] ⇔ draw(i) <= sigmoid(row_i · features)`; unaligned labels are a `ValueError` |
| Individuals.StatusAfter | comma/individual.py:192-195 | succeeds iff the labels align and the chosen actions exist and match the effects' rows; otherwise the first failing of these raises `ValueError` (unaligned labels), `IndexError` (no choice: `np.asarray(None)` has no first dimension) or pandas' plain `Exception` (shape mismatch) |
| Individuals.TakenSumOverTaken | comma/individual.py:193 | the status is the sum of the effect scores at the indices of the taken actions |
| Individuals.NothingTakenAddsNothing | comma/individual.py:193-195 | with no action taken the status is 0 |
| Individuals.ActionNames | comma/individual.py:61-65 | `zip` then filter: the names at the taken indices of the shorter list, each an action |
| Individuals.ActionNamesInOrder | comma/individual.py:61-65 | with distinct actions, an action is named iff it was chosen, and the names keep the list's order |
| Individuals.LongCovidAfter | comma/individual.py:110-113 | the flag ends as 1 iff it was 1, or was 0 and the draw is below 0.20; it never goes back |
| Individuals.RecoveryFloor | comma/individual.py:137-138 | within ten days nobody recovers, the flag is untouched, and neither draw is consulted |
| Individuals.RecoveryAfterFloor | comma/individual.py:140-151 | after ten days the flag is updated first, then recovery is `draw <= cdf(days)` with shape 7, scale 10 for long COVID and shape 5, scale 3 otherwise |
| Individuals.ModifyPolicyWhenInfected | comma/individual.py:153-178 | on a copy of the same shape: every coefficient but the baseline is 0, every `baseline` column (added when absent) is −5 except 5 on the favoured rows (`be_sedentary` rows, or row 8 without an actions column); without an actions column, a repeated `baseline` label is a `ValueError` (`iat` gets a non-integer position), and otherwise eight or fewer rows are an `IndexError` |
| Individuals.ModifiedScore | comma/individual.py:165-176 | an infected agent's score on a rewritten row is ±5 times its baseline feature |
| Individuals.NoCanonicalRowFavoured | comma/individual.py:173-174 | with an actions column of canonical actions no row is favoured: `be_sedentary` is not one of them |
| Individuals.ActOne | comma/model.py:104-115 | one agent's turn changes only its chosen actions and status |
| Individuals.ActOneChoosesThenTakes | comma/model.py:104-115 | the turn chooses on the lockdown when negative and on the rewritten lockdown when positive, then sets the status from the same action effects |
| Individuals.Individual.constructor | comma/individual.py:14-24 | a new agent: status 0, COVID status 0, no long COVID, no day count (NaN), no actions chosen |
| Individuals.Individual.GetActions | comma/individual.py:54-65 | a `TypeError` iff no actions were chosen; the names are canonical actions |
| Individuals.Individual.ChooseActionsOnLockdown | comma/individual.py:67-92 | stores one boolean per policy row, `draw(i) <= sigmoid(score_i)`, and changes nothing else; unaligned labels leave the choice unchanged |
| Individuals.Individual.TakeActions | comma/individual.py:180-195 | the errors in order (unaligned labels: `ValueError`; no choice: `IndexError`; shape mismatch: plain `Exception`); on success the status is overwritten with the taken-actions sum; nothing else changes |
| Individuals.Individual.TakeTurn | comma/model.py:104-115 | the agent's new state is that of `ActOne` on its old state, or the same error |
| Individuals.Individual.IsLongCovid | comma/individual.py:96-113 | the flag becomes `LongCovidAfter` of the old flag, and the result is `flag == 1` |
| Individuals.Individual.IsRecovered | comma/individual.py:115-151 | the result and the new flag are those of `Recovery`; nothing else changes |
| Steps.CounterStep | comma/model.py:39-41 | only day counts change, and exactly for the positive agents with a count, each by one |
| Steps.RecoveredArePositives | comma/model.py:54-62 | the recovered indices are strictly increasing and are exactly the positive agents whose check succeeds |
| Steps.Choose | comma/model.py:93-96 | the sample has `k` elements drawn from the pool without replacement (a sub-multiset) |
| Steps.SampleSizeChecked | comma/model.py:90-96 | the sample is refused iff its size is negative or exceeds the agents negative after the resets; an empty pool with a non-zero size is reported first (`a cannot be empty`), then a negative size, then a sample larger than the pool |
| Steps.InfectedAreSampledNegatives | comma/model.py:90-102 | `new_infected` distinct agents, each negative after the resets (a just-recovered agent may be drawn), now with status 1 and day count 1 |
| Steps.RecoveredAreReset | comma/model.py:80-87 | every recovered agent was positive and ends with status 0 and day count 0, unless it was drawn again |
| Steps.OthersOnlyCount | comma/model.py:78-102 | an agent neither recovered nor infected keeps its status, and its day count advances iff it is positive |
| Steps.PositiveSets | comma/model.py:78-102 | the new positives are the old ones less the recovered, plus the infected, which were not positive |
| Steps.PositiveCount | comma/model.py:78-102 | the number of positives becomes the old number, minus the recovered, plus `new_infected` |
| Steps.ActAllTurns | comma/model.py:104-115 | after the pass every agent's state is its own turn from its pre-turn state |
| Steps.ActAllKeepsInfection | comma/model.py:104-115 | the agents' turns leave their COVID status, day count and long-COVID flag alone |
| Steps.StepKeepsInfections | comma/model.py:64-115 | a successful step's infection state is the one decided before the agents act |
| Simulation.FirstWithId | comma/model.py:142-146 | the first snapshot with the agent's id, or none exactly when no snapshot has it |
| Simulation.UpdateRecords | comma/model.py:125-162 | `update` fails iff a later step finds no entry for the previous step or an agent missing from it; it records one snapshot per agent in agent order with its lockdown, id, COVID status and days; step 0 records delta 0 and cumulative = status; later steps record delta = status and cumulative = previous cumulative + delta − baseline |
| Simulation.InsertKey | comma/model.py:127 | dictionary assignment keeps the old keys and adds the new one |
| Simulation.RowsOf | comma/model.py:174-194 | one report row per snapshot, prefixed by the step id |
| Simulation.AppendRows | comma/model.py:175-194 | the inner loop of `report` appends the rows of one step |
| Simulation.ReportRowsAreSnapshots | comma/model.py:172-194 | the report has one row per recorded snapshot, each the step id followed by a snapshot of that step |
| Simulation.ReportInStepOrder | comma/model.py:174 | with increasing step keys the rows are in step order |
| Simulation.RunStates | comma/model.py:265-278 | the states after the first `t` steps of a run keep the population's size |
| Simulation.StepAt | comma/model.py:271-276 | step `t` on its lockdown's matrices; running out of case counts is an `IndexError` |
| Simulation.ReachesNext | comma/model.py:265-278 | from the states after `t` steps, step `t` either extends the run or stops it with its error |
| Simulation.RecordedStep | comma/model.py:117-162 | on a fresh run's series, `update` at step `t` succeeds and the series then records `t + 1` steps: agent `i` at position `i`, the policy's lockdowns, zero change at step 0, accumulation later |
| Simulation.CumulativeTelescopes | comma/model.py:153-157 | an agent's cumulative value is its step-0 status plus all later changes less all baseline draws |
| Simulation.Model.constructor | comma/model.py:11-30 | no simulation id, step 0, empty records; agent `i` is a fresh individual with id `i` and the `i`-th feature row |
| Simulation.Model.IndicesWithStatus | comma/model.py:54-56 | the indices of the agents with the given COVID status, in agent order |
| Simulation.Model.UpdateCovidCounter | comma/model.py:32-41 | the agents' states become `CounterStep` of the old states |
| Simulation.Model.GetRecoveredIndividuals | comma/model.py:43-62 | returns `Recovered` of the old states, checking the positives in index order, and leaves the long-COVID flags as the checks set them |
| Simulation.Model.CheckRecovery | comma/model.py:58-60 | one agent's check changes only that agent's flag |
| Simulation.Model.ResetAgents | comma/model.py:82-87 | the recovered get status 0 and day count 0; nobody else changes |
| Simulation.Model.InfectAgents | comma/model.py:100-102 | the sampled get status 1 and day count 1; nobody else changes |
| Simulation.Model.AgentTurn | comma/model.py:104-115 | one agent's turn; no other agent changes |
| Simulation.Model.ActAgents | comma/model.py:104-115 | the agents in order each take their turn; the new states are `ActAll`, or its first error |
| Simulation.Model.Step | comma/model.py:64-115 | the new states are `StepSpec` of the old ones, or the same error |
| Simulation.Model.Update | comma/model.py:117-162 | records `UpdateSpec` under the step and inserts the key; on an error nothing is recorded; nothing else changes |
| Simulation.Model.Report | comma/model.py:164-194 | the rows of every recorded step in key order |
| Simulation.Model.TakeStep | comma/model.py:269-276 | records the step as the simulation id and its lockdown, then the agents' states follow `StepAt` |
| Simulation.Model.StepWithPolicy | comma/model.py:271-276 | the step with the policy's matrices and case count, as `StepAt` defines it |
| Simulation.Model.StepOnce | comma/model.py:269-276 | after `t` steps, step `t` either reaches the run's next states or stops the run there, with the lockdowns recorded |
| Simulation.Model.RecordStep | comma/model.py:277-278 | succeeds iff `UpdateSpec` does for step `t`'s lockdown; then the series gains `UpdateSpec`'s snapshots under key `t`, the keys gain `t` and the counter advances by one; a failure is `UpdateSpec`'s error and leaves the series, the keys and the counter unchanged; on a fresh run's series it cannot fail and extends the keys to `0..t` |
| Simulation.Model.RecordPass | comma/model.py:277-278 | after step `t` has reached the run's next states, recording it keeps the run's counter, lockdowns and states in step `t + 1`; on a fresh run's series it cannot fail and extends the keys to `0..t` |
| Simulation.Model.RunPass | comma/model.py:269-278 | one pass of the loop carries the run from `t` steps to `t + 1`; on a fresh model a failure is the step's own, which stops the run at step `t` |
| Simulation.Model.RunSteps | comma/model.py:265-278 | after the loop the counter advanced once per step, every step's lockdown is recorded and the states are the run's; on a fresh model the series has keys `0..steps-1`, and a failure names the step that stopped the run |
| Simulation.Model.Run | comma/model.py:213-279 | `steps <= 1` and a policy of another length are `ValueError`s raised before anything changes; on success the run's states, counters and series as for `RunSteps`, and the report's rows |

## Left out

- Population synthesis is not modelled: `sampling_from_ipf`, `populate_ipf` and `populate` (comma/individual.py:197-325) read files and sample. The engine takes the agents' feature rows as given (`Model.constructor`), with ids `0..n-1` as `populate` assigns them.
- `Model.__init__`'s call to `validate_param_file` and its random generator seeding are not part of the constructor. Seeding does not matter, because every draw is a parameter.
- File and CSV I/O are not modelled: reading CSV and JSON files, `report`'s `to_csv`, and `create_empty_hypotheses`, which only writes CSV files. The hypothesis folder is a map of parsed tables, and the individual parameters are a parsed list.
- The case-count adapter is not modelled. `run` calls `Hypothesis(start, steps)`, `get_positive_cases` and `scale_cases_to_population`, which comma/hypothesis.py does not define, and it calls `read_hypotheses` with three arguments where two are declared. As written, `run` therefore raises `TypeError` at comma/model.py:246 whenever its argument checks pass, because `Hypothesis` declares no constructor taking arguments. `Run` models the run with that adapter supplied: the new case counts and the per-policy lockdown and effects matrices are its parameters.
- The conversion from a projected hypothesis table (cells) to an engine matrix (reals) is not modelled. The engine's matrices are given as real matrices without an `actions` column.
- `random.choices` follows Python 3.9 and later, which raises `ValueError` when the total weight is not positive; Python 3.6 to 3.8 return an element instead. The package needs 3.9 in any case, for its `list[int]` annotations.
- Floating point is not modelled: numbers are exact reals. `np.random.choice`'s tolerance on the sum of `p` is modelled as an exact test for 1.
- The sigmoid (`np.exp`) and `gamma.cdf` are not modelled; they are parameters into `[0, 1]`. Every random draw (uniform, normal baseline, shuffle, sample, choice) is a parameter, not a distribution. The model does not say which value numpy or `random` would produce for a given seed.
- `np.random.choice(..., replace=False)` is modelled as drawing one element at a time from what remains. Only its result's properties (size, no repeats, drawn from the negatives) are stated, not numpy's exact algorithm.
- tqdm progress bars, printing, `summary`, plotting, `Population`, `plot_agents_dist`, `one_hot_encoding` and `make_features_dataframe` are output or pandas helpers and are not modelled. `make_population` is modelled from the generated columns onwards: which generator produced each column is not stated in its contract.
- mhm/individual.py and mhm/model.py are not part of this model; they are stubs.
- Simulation.Model.Step: when an agent's turn fails part-way, the states of the agents before it are not stated. Only the error is.
- Simulation.Model.RunSteps: recording is proved to succeed, and the series is described, only for a model that has not run before. A second run on the same model is only stated to keep the model valid and follow the step specification.
- Simulation.Model.Run: on a failure of a non-fresh model only validity is stated.
- Hypothesis.Lower: lower-cases the ASCII letters `A`–`Z` only. Python's `str.lower` also maps other letters (`É` to `é`) and can lengthen a string (`İ`), so case-insensitive header matching is modelled for ASCII headers only.
- Hypothesis.MissingFeatureSet: matches required features to columns through `Lower`, so it agrees with the source only for ASCII headers and feature names.
- Hypothesis.OrderRows: keeps the file order among rows of the same action (a stable sort). The default quicksort of `sort_values` does not promise any order among such rows; only the sorted-and-permuted property of OrderRowsSortsAndPermutes is guaranteed by pandas.
- Hypothesis.Project: row `i` is stated to project the `i`-th row of OrderRows, so the order among rows of one action is the model's stable choice (see OrderRows); header matching is ASCII-only (see Lower). When the exact header `actions` occurs twice, the model sorts by the first; pandas would fail on the resulting frame, and that failure is not modelled.
- Hypothesis.ToPolicyFrame: inherits Project's fixed order among rows of one action and its ASCII-only header matching.
- Hypothesis.ValidateParamFile: in the missing-features and missing-actions messages, only the kind of report is stated, not its exact text.
