/** The agents of the mental-health population and their assembly (mhm/agent.py). */
module MhmAgent {
  import opened Wrappers
  import opened Errors
  import MhmUtils

  /** The fixed features of an agent, as the `Features` dataclass holds them. */
  datatype Features = Features(
    name: string,
    gender: int,
    age: int,
    ageGroup: string,
    education: string,
    employed: string,
    partnershipStatus: string,
    preExistingDepression: int,
    preExistingBurnout: int,
    preExistingAddiction: int,
    preExistingChronicFatigue: int,
    parenthood: int,
    livingWithChild: int,
    singleParent: int,
    housingDifficulties: string,
    financeDifficulties: string,
    preExistingHealthIssues: string,
    partnerDifficulties: string,
    jobType: string)

  /** The mutable state of an agent. */
  class State {
    var employed: int
    var infected: int
    var mentalHealth: int
    var nContacts: int

    constructor (employed: int, infected: int, mentalHealth: int, nContacts: int)
      ensures this.employed == employed && this.infected == infected
      ensures this.mentalHealth == mentalHealth && this.nContacts == nContacts
    {
      this.employed := employed;
      this.infected := infected;
      this.mentalHealth := mentalHealth;
      this.nContacts := nContacts;
    }
  }

  /** An agent: its features and the state its actions change. */
  class Agent {
    const features: Features
    const state: State

    constructor (features: Features, state: State)
      ensures this.features == features && this.state == state
    {
      this.features := features;
      this.state := state;
    }

    /** `go_to_work`: three more contacts and one more point of mental health. */
    method GoToWork()
      modifies state
      ensures state.nContacts == old(state.nContacts) + 3
      ensures state.mentalHealth == old(state.mentalHealth) + 1
      ensures state.employed == old(state.employed) && state.infected == old(state.infected)
    {
      state.nContacts := state.nContacts + 3;
      state.mentalHealth := state.mentalHealth + 1;
    }

    /** `socialise`: five more contacts and three more points of mental health. */
    method Socialise()
      modifies state
      ensures state.nContacts == old(state.nContacts) + 5
      ensures state.mentalHealth == old(state.mentalHealth) + 3
      ensures state.employed == old(state.employed) && state.infected == old(state.infected)
    {
      state.nContacts := state.nContacts + 5;
      state.mentalHealth := state.mentalHealth + 3;
    }
  }

  // ---------------------------------------------------------------------------------------
  // `str(i)` and its inverse.
  // ---------------------------------------------------------------------------------------

  function Digit(d: int): char
    requires 0 <= d <= 9
  {
    ('0' as int + d) as char
  }

  predicate IsDigits(s: string) {
    forall i :: 0 <= i < |s| ==> '0' <= s[i] <= '9'
  }

  /** `str(n)` for a natural number: its decimal digits, without leading zeros. */
  function NatToString(n: nat): (s: string)
    ensures |s| > 0 && IsDigits(s)
    ensures |s| > 1 ==> s[0] != '0'
    decreases n
  {
    if n < 10 then [Digit(n)] else NatToString(n / 10) + [Digit(n % 10)]
  }

  /** The number a string of decimal digits denotes, as `int(s)` reads it. */
  function DecimalValue(s: string): nat
    requires IsDigits(s)
  {
    if s == [] then 0
    else DecimalValue(s[..|s| - 1]) * 10 + (s[|s| - 1] as int - '0' as int)
  }

  /** Reading back `str(n)` gives `n`. */
  lemma {:induction false} NatToStringRoundTrip(n: nat)
    ensures DecimalValue(NatToString(n)) == n
    decreases n
  {
    var s := NatToString(n);
    if n < 10 {
      assert s[..0] == [];
    } else {
      NatToStringRoundTrip(n / 10);
      assert s[..|s| - 1] == NatToString(n / 10);
    }
  }

  /** Different numbers have different names. */
  lemma NatToStringInjective(a: nat, b: nat)
    requires NatToString(a) == NatToString(b)
    ensures a == b
  {
    NatToStringRoundTrip(a);
    NatToStringRoundTrip(b);
  }

  // ---------------------------------------------------------------------------------------
  // `make_population`: the assembly loop over the generated feature columns.
  // ---------------------------------------------------------------------------------------

  /** The columns the generators produce, one entry per person. */
  datatype Columns = Columns(
    gender: seq<int>,
    age: seq<int>,
    education: seq<string>,
    employment: seq<string>,
    partnership: seq<string>,
    depression: seq<int>,
    addiction: seq<int>,
    fatigue: seq<int>,
    child: seq<int>,
    burnout: seq<int>,
    livingWithChildren: seq<int>,
    health: seq<string>,
    finance: seq<string>,
    singleParent: seq<int>,
    housing: seq<string>,
    partner: seq<string>,
    jobType: seq<string>)

  /** Every column has an entry for each of the first `m` people. */
  predicate Covers(c: Columns, m: nat) {
    && m <= |c.gender| && m <= |c.age| && m <= |c.education| && m <= |c.employment|
    && m <= |c.partnership| && m <= |c.depression| && m <= |c.addiction| && m <= |c.fatigue|
    && m <= |c.child| && m <= |c.burnout| && m <= |c.livingWithChildren| && m <= |c.health|
    && m <= |c.finance| && m <= |c.singleParent| && m <= |c.housing| && m <= |c.partner|
    && m <= |c.jobType|
  }

  /** The features of person `i`: its name, entry `i` of every column, and the label of its age. */
  function FeaturesAt(c: Columns, ageGroups: seq<string>, i: nat): Features
    requires Covers(c, i + 1) && i < |ageGroups|
  {
    Features(
      name := NatToString(i),
      gender := c.gender[i],
      age := c.age[i],
      ageGroup := ageGroups[i],
      education := c.education[i],
      employed := c.employment[i],
      partnershipStatus := c.partnership[i],
      preExistingDepression := c.depression[i],
      preExistingBurnout := c.burnout[i],
      preExistingAddiction := c.addiction[i],
      preExistingChronicFatigue := c.fatigue[i],
      parenthood := c.child[i],
      livingWithChild := c.livingWithChildren[i],
      singleParent := c.singleParent[i],
      housingDifficulties := c.housing[i],
      financeDifficulties := c.finance[i],
      preExistingHealthIssues := c.health[i],
      partnerDifficulties := c.partner[i],
      jobType := c.jobType[i])
  }

  /** The state every new agent starts in, with its employment draw. */
  predicate Initial(s: State, employed: int)
    reads s
  {
    s.employed == employed && s.infected == 0 && s.mentalHealth == 2 && s.nContacts == 0
  }

  /** Agent `i` of a population: the features of person `i` and the initial state. */
  predicate Assembled(a: Agent, c: Columns, ageGroups: seq<string>, employedDraw: nat -> nat, i: nat)
    reads a, a.state
  {
    && Covers(c, i + 1) && i < |ageGroups|
    && a.features == FeaturesAt(c, ageGroups, i)
    && Initial(a.state, employedDraw(i) % 2)
  }

  /**
   * `make_population` from the generated columns: the age labels first (which fail for an
   * age above 65), then one agent per person, in order. `employedDraw(i) % 2` is the value
   * of `np.random.choice(2)` for person `i`.
   */
  method MakePopulation(n: int, c: Columns, employedDraw: nat -> nat) returns (r: Result<seq<Agent>, Error>)
    ensures r.Err? ==> r.error == IndexError
    ensures r.Ok? <==> MhmUtils.LabelAgeRange(c.age).Ok? && Covers(c, if n > 0 then n else 0)
    ensures r.Ok? ==> |r.value| == (if n > 0 then n else 0)
    ensures r.Ok? ==> forall i :: 0 <= i < |r.value| ==>
              && fresh(r.value[i]) && fresh(r.value[i].state)
              && Assembled(r.value[i], c, MhmUtils.LabelAgeRange(c.age).value, employedDraw, i)
    ensures r.Ok? ==> forall i, j :: 0 <= i < j < |r.value| ==> r.value[i].state != r.value[j].state
  {
    var labels := MhmUtils.LabelAgeRange(c.age);
    if labels.Err? {
      return Err(labels.error);
    }
    var people: seq<Agent> := [];
    var count := if n > 0 then n else 0;
    for i := 0 to count
      invariant |people| == i && Covers(c, i)
      invariant forall j :: 0 <= j < i ==>
                  && fresh(people[j]) && fresh(people[j].state)
                  && Assembled(people[j], c, labels.value, employedDraw, j)
      invariant forall j, k :: 0 <= j < k < i ==> people[j].state != people[k].state
    {
      if !Covers(c, i + 1) {
        return Err(IndexError);
      }
      var state := new State(employedDraw(i) % 2, 0, 2, 0);
      var agent := new Agent(FeaturesAt(c, labels.value, i), state);
      people := people + [agent];
    }
    return Ok(people);
  }

  /** What every agent of a population holds: a name that is its decimal position, and an age group label. */
  lemma PopulationFeatures(c: Columns, i: nat, j: nat)
    requires MhmUtils.LabelAgeRange(c.age).Ok? && Covers(c, i + 1) && Covers(c, j + 1)
    ensures var labels := MhmUtils.LabelAgeRange(c.age).value;
            && DecimalValue(FeaturesAt(c, labels, i).name) == i
            && (FeaturesAt(c, labels, i).name == FeaturesAt(c, labels, j).name <==> i == j)
            && FeaturesAt(c, labels, i).ageGroup == MhmUtils.AgeLabel(c.age[i]).value
            && (25 <= c.age[i] <= 65 ==>
                  FeaturesAt(c, labels, i).ageGroup == "_" + MhmUtils.DigitString(MhmUtils.AgeGroupNumber(c.age[i])))
  {
    NatToStringRoundTrip(i);
    if NatToString(i) == NatToString(j) {
      NatToStringInjective(i, j);
    }
  }
}
