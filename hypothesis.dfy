/**
 * The hypothesis schema of the engine (comma/hypothesis.py): the canonical policy, feature and
 * action lists, the one-hot naming of the individual parameters, the three ordered checks on the
 * parameter folder, and the projection that turns a parsed hypothesis table into a policy matrix.
 * Files are modelled by what parsing them yields: a map from file name to parsed table, where a
 * missing key is a file that does not exist.
 */
module Hypothesis {
  import opened Wrappers
  import opened Errors
  import opened Sequences

  const ParamsIndividual: string := "params_individual.json"

  const LockdownPolicies: seq<string> := ["absent", "easy", "medium", "hard"]

  const IndividualStatus: seq<string> := ["mh"]

  const AllPossibleFeatures: seq<string> := [
    "age_group__1", "age_group__2", "age_group__3", "age_group__4",
    "gender_f", "gender_m",
    "education_high", "education_low", "education_medium",
    "unemployed_no", "unemployed_yes",
    "have_partner_no", "have_partner_yes",
    "depressed_no", "depressed_yes",
    "children_presence_no", "children_presence_yes",
    "housing_financial_difficulties_no", "housing_financial_difficulties_yes",
    "selfrated_health_average", "selfrated_health_good", "selfrated_health_poor",
    "critical_job_no", "critical_job_yes"
  ]

  const AllPossibleActions: seq<string> := [
    "work_from_home", "maintain_physical_distance", "stay_at_home", "exercise",
    "socialise", "travel", "seek_help", "negative_coping", "positive_coping",
    "socialise_online"
  ]

  /** The canonical lists: their sizes and the positions the agent code relies on. */
  lemma CanonicalLists()
    ensures |LockdownPolicies| == 4 && |AllPossibleFeatures| == 24 && |AllPossibleActions| == 10
    ensures AllPossibleActions[2] == "stay_at_home" && AllPossibleActions[8] == "positive_coping"
    ensures "be_sedentary" !in AllPossibleActions
  {
    assert forall i :: 0 <= i < |AllPossibleActions| ==> |AllPossibleActions[i]| != 12
                                                         || AllPossibleActions[i][0] != 'b';
  }

  // ---------------------------------------------------------------------------------------
  // Lower case (ASCII)

  function LowerChar(c: char): char {
    if 'A' <= c <= 'Z' then (c as int + 32) as char else c
  }

  function Lower(s: string): (r: string)
    ensures |r| == |s|
  {
    seq(|s|, i requires 0 <= i < |s| => LowerChar(s[i]))
  }

  predicate NoUpper(s: string) {
    forall i :: 0 <= i < |s| ==> !('A' <= s[i] <= 'Z')
  }

  lemma LowerOfLowercase(s: string)
    requires NoUpper(s)
    ensures Lower(s) == s
  {}

  /** Lower casing is idempotent, so comparing lower-cased names is an equivalence. */
  lemma LowerIdempotent(s: string)
    ensures Lower(Lower(s)) == Lower(s)
  {}

  // ---------------------------------------------------------------------------------------
  // Parsed tables

  datatype Cell = Text(text: string) | Number(number: real) | Blank

  /** A parsed semicolon-separated hypothesis file: a header and rows of cells. */
  datatype Table = Table(columns: seq<string>, rows: seq<seq<Cell>>)

  /** A cell of a row; a short row reads as blank. */
  function CellAt(row: seq<Cell>, j: nat): Cell {
    if j < |row| then row[j] else Blank
  }

  /** `df[name]`: the column called exactly `name` (the first one, if repeated). */
  function Column(t: Table, name: string): (r: Option<seq<Cell>>)
    ensures r.Some? <==> name in t.columns
    ensures r.Some? ==> |r.value| == |t.rows|
  {
    var j := IndexOf(t.columns, name);
    if j == |t.columns| then None
    else Some(seq(|t.rows|, i requires 0 <= i < |t.rows| => CellAt(t.rows[i], j)))
  }

  // ---------------------------------------------------------------------------------------
  // One-hot feature names of the individual parameters

  /** A category value in `params_individual.json`: a string or a number. */
  datatype Category = Label(word: string) | Level(level: real)

  /** One key of `params_individual.json` with its list of category values. */
  datatype FeatureParam = FeatureParam(name: string, categories: seq<Category>)

  /**
   * The names one key contributes: `key_v` for every value when the first value is a string
   * (a later non-string value makes `key + '_' + v` fail), otherwise the key itself.
   */
  function EncodeParam(p: FeatureParam): Result<seq<string>, Error> {
    if |p.categories| == 0 then Err(IndexError)
    else if p.categories[0].Label? then
      if forall j :: 0 <= j < |p.categories| ==> p.categories[j].Label? then
        Ok(seq(|p.categories|, j requires 0 <= j < |p.categories| => p.name + "_" + p.categories[j].word))
      else Err(TypeError)
    else Ok([p.name])
  }

  /** The one-hot names of the keys in order; the first failing key raises. */
  function OneHotFeatures(params: seq<FeatureParam>): Result<seq<string>, Error>
    decreases |params|
  {
    if params == [] then Ok([])
    else
      match OneHotFeatures(params[..|params| - 1])
      case Err(e) => Err(e)
      case Ok(prefix) =>
        match EncodeParam(params[|params| - 1])
        case Err(e) => Err(e)
        case Ok(names) => Ok(prefix + names)
  }

  /** Encoding a concatenation: the first error wins, otherwise the names are concatenated. */
  lemma {:induction false} OneHotAppend(p: seq<FeatureParam>, q: seq<FeatureParam>)
    ensures OneHotFeatures(p + q).Ok? <==> OneHotFeatures(p).Ok? && OneHotFeatures(q).Ok?
    ensures OneHotFeatures(p + q).Ok? ==>
              OneHotFeatures(p + q).value == OneHotFeatures(p).value + OneHotFeatures(q).value
    ensures OneHotFeatures(p).Err? ==> OneHotFeatures(p + q) == OneHotFeatures(p)
    ensures OneHotFeatures(p).Ok? && OneHotFeatures(q).Err? ==> OneHotFeatures(p + q) == OneHotFeatures(q)
    decreases |q|
  {
    if q == [] {
      assert p + q == p;
      if OneHotFeatures(p).Ok? {
        assert OneHotFeatures(p).value + [] == OneHotFeatures(p).value;
      }
    } else {
      var q' := q[..|q| - 1];
      assert (p + q)[..|p + q| - 1] == p + q';
      assert (p + q)[|p + q| - 1] == q[|q| - 1];
      OneHotAppend(p, q');
      if OneHotFeatures(p).Ok? && OneHotFeatures(q').Ok? && EncodeParam(q[|q| - 1]).Ok? {
        var a, b, c := OneHotFeatures(p).value, OneHotFeatures(q').value, EncodeParam(q[|q| - 1]).value;
        assert a + b + c == a + (b + c);
      }
    }
  }

  /** How many names a key contributes when it encodes. */
  function Width(p: FeatureParam): nat {
    if |p.categories| > 0 && p.categories[0].Label? then |p.categories| else 1
  }

  function TotalWidth(params: seq<FeatureParam>): nat
    decreases |params|
  {
    if params == [] then 0 else TotalWidth(params[..|params| - 1]) + Width(params[|params| - 1])
  }

  /** One-hot encoding succeeds exactly when every key does, and then has one name per string value. */
  lemma {:induction false} OneHotShape(params: seq<FeatureParam>)
    ensures OneHotFeatures(params).Ok? <==> forall k :: 0 <= k < |params| ==> EncodeParam(params[k]).Ok?
    ensures OneHotFeatures(params).Ok? ==> |OneHotFeatures(params).value| == TotalWidth(params)
    decreases |params|
  {
    if params != [] {
      var init := params[..|params| - 1];
      OneHotShape(init);
      assert forall k :: 0 <= k < |init| ==> params[k] == init[k];
      if OneHotFeatures(params).Ok? {
        assert |EncodeParam(params[|params| - 1]).value| == Width(params[|params| - 1]);
      }
    }
  }

  /** `_get_one_hot_encoded_features`: accumulates the names key by key. */
  method GetOneHotEncodedFeatures(params: seq<FeatureParam>) returns (r: Result<seq<string>, Error>)
    ensures r == OneHotFeatures(params)
  {
    var features: seq<string> := [];
    for i := 0 to |params|
      invariant OneHotFeatures(params[..i]) == Ok(features)
    {
      assert params[..i + 1][..i] == params[..i];
      var names := EncodeParam(params[i]);
      if names.Err? {
        assert OneHotFeatures(params[..i + 1]) == Err(names.error);
        OneHotAppend(params[..i + 1], params[i + 1..]);
        assert params[..i + 1] + params[i + 1..] == params;
        return Err(names.error);
      }
      features := features + names.value;
    }
    assert params[..|params|] == params;
    return Ok(features);
  }

  // ---------------------------------------------------------------------------------------
  // validate_param_file: files, then features, then actions

  function EffectsFileName(status: string): string { "actions_effects_on_" + status + ".csv" }

  function LockdownFileName(policy: string): string { "lockdown_" + policy + ".csv" }

  /** The five hypothesis files the folder must hold, in the order they are reported. */
  function HypothesisFileNames(): (names: seq<string>)
    ensures |names| == 5
  {
    [EffectsFileName(IndividualStatus[0])]
      + seq(|LockdownPolicies|, i requires 0 <= i < |LockdownPolicies| => LockdownFileName(LockdownPolicies[i]))
  }

  /** The names among `names` that are not files of the folder, in order. */
  function Absent(names: seq<string>, files: map<string, Table>): (missing: seq<string>)
    ensures forall f :: f in missing <==> f in names && f !in files
    ensures |missing| <= |names|
  {
    if names == [] then []
    else (if names[0] in files then [] else [names[0]]) + Absent(names[1..], files)
  }

  function LowerSet(names: seq<string>): set<string> {
    set n | n in names :: Lower(n)
  }

  /** The required names (lower-cased) that no column matches case-insensitively. */
  function MissingFeatureSet(required: seq<string>, columns: seq<string>): (missing: set<string>)
    ensures missing == {} <==>
      forall f :: f in required ==> exists c :: c in columns && Lower(c) == Lower(f)
  {
    var m := LowerSet(required) - LowerSet(columns);
    assert m == {} <==> forall f :: f in required ==> exists c :: c in columns && Lower(c) == Lower(f) by {
      if m == {} {
        forall f | f in required ensures exists c :: c in columns && Lower(c) == Lower(f) {
          assert Lower(f) in LowerSet(required);
          assert Lower(f) !in m;
          var c :| c in columns && Lower(c) == Lower(f);
        }
      } else {
        var x :| x in m;
        var f :| f in required && Lower(f) == x;
      }
    }
    m
  }

  /** The canonical actions that do not occur, exactly as written, in the `actions` column. */
  function MissingActionSet(values: seq<Cell>): (missing: set<string>)
    ensures forall a :: a in missing <==> a in AllPossibleActions && Text(a) !in values
  {
    set a | a in AllPossibleActions && Text(a) !in values
  }

  /** The columns every hypothesis file must have, before lower-casing. */
  function RequiredFeatures(oneHot: seq<string>): seq<string> {
    ["actions", "baseline"] + oneHot
  }

  /** A file whose columns cover the required features and whose rows name every action. */
  predicate Conforms(t: Table, oneHot: seq<string>) {
    && MissingFeatureSet(RequiredFeatures(oneHot), t.columns) == {}
    && Column(t, "actions").Some?
    && MissingActionSet(Column(t, "actions").value) == {}
  }

  function FeatureReports(names: seq<string>, files: map<string, Table>, oneHot: seq<string>): (rs: seq<FileReport>)
    requires forall f :: f in names ==> f in files
    ensures rs == [] <==> forall f :: f in names ==> MissingFeatureSet(RequiredFeatures(oneHot), files[f].columns) == {}
  {
    if names == [] then []
    else
      var m := MissingFeatureSet(RequiredFeatures(oneHot), files[names[0]].columns);
      (if m == {} then [] else [FileReport(names[0], m)]) + FeatureReports(names[1..], files, oneHot)
  }

  /** The missing-actions report; `hd["actions"]` raises on the first file without that exact column. */
  function ActionReports(names: seq<string>, files: map<string, Table>): (r: Result<seq<FileReport>, Error>)
    requires forall f :: f in names ==> f in files
    ensures r.Ok? <==> forall f :: f in names ==> Column(files[f], "actions").Some?
    ensures r.Ok? ==> (r.value == [] <==> forall f :: f in names ==> MissingActionSet(Column(files[f], "actions").value) == {})
    ensures r.Err? ==> r.error == KeyError(["actions"])
  {
    if names == [] then Ok([])
    else
      match Column(files[names[0]], "actions")
      case None => Err(KeyError(["actions"]))
      case Some(values) =>
        var m := MissingActionSet(values);
        match ActionReports(names[1..], files)
        case Err(e) => Err(e)
        case Ok(rest) => Ok((if m == {} then [] else [FileReport(names[0], m)]) + rest)
  }

  /**
   * `validate_param_file`. Returns the exception raised, or `None` when the folder passes.
   * `params` is the parsed `params_individual.json`, `None` when that file does not exist.
   */
  function ValidateParamFile(files: map<string, Table>, params: Option<seq<FeatureParam>>): (r: Option<Error>)
    ensures r.None? <==>
      && params.Some? && OneHotFeatures(params.value).Ok?
      && forall f :: f in HypothesisFileNames() ==> f in files && Conforms(files[f], OneHotFeatures(params.value).value)
    ensures Absent(HypothesisFileNames(), files) != [] ==>
      r == Some(ValueError(HypothesisFilesNotFound(Absent(HypothesisFileNames(), files))))
    ensures Absent(HypothesisFileNames(), files) == [] && params.Some? && OneHotFeatures(params.value).Ok? &&
            (exists f :: f in HypothesisFileNames() &&
               MissingFeatureSet(RequiredFeatures(OneHotFeatures(params.value).value), files[f].columns) != {}) ==>
      r.Some? && r.value.ValueError? && r.value.reason.MissingFeatures?
  {
    var names := HypothesisFileNames();
    var missing := Absent(names, files);
    if missing != [] then
      assert missing[0] in missing;
      Some(ValueError(HypothesisFilesNotFound(missing)))
    else if params.None? then Some(FileNotFoundError(ParamsIndividual))
    else
      match OneHotFeatures(params.value)
      case Err(e) => Some(e)
      case Ok(oneHot) =>
        var featureReport := FeatureReports(names, files, oneHot);
        if featureReport != [] then Some(ValueError(MissingFeatures(featureReport)))
        else
          match ActionReports(names, files)
          case Err(e) => Some(e)
          case Ok(actionReport) =>
            if actionReport != [] then Some(ValueError(MissingActions(actionReport))) else None
  }

  // ---------------------------------------------------------------------------------------
  // read_hypotheses / read_actions: row ordering and column projection

  /** The columns of a policy matrix: `baseline`, then the lower-cased canonical features. */
  function PolicyColumns(): (cols: seq<string>)
    ensures |cols| == 1 + |AllPossibleFeatures| && cols[0] == "baseline"
    ensures "actions" !in cols
  {
    assert forall i :: 0 <= i < |AllPossibleFeatures| ==> |AllPossibleFeatures[i]| >= 8;
    ["baseline"] + seq(|AllPossibleFeatures|, i requires 0 <= i < |AllPossibleFeatures| => Lower(AllPossibleFeatures[i]))
  }

  /**
   * The sort key of a row whose `actions` column is at `a`, under categories `order`: the
   * category's index, or `|order|` (sorting last, like NaN) for a value outside the categories.
   */
  function ActionRank(row: seq<Cell>, a: nat, order: seq<string>): (k: nat)
    ensures k <= |order|
    ensures k < |order| <==> CellAt(row, a).Text? && CellAt(row, a).text in order
    ensures k < |order| ==> order[k] == CellAt(row, a).text
  {
    var c := CellAt(row, a);
    if c.Text? && c.text in order then IndexOf(order, c.text) else |order|
  }

  /** The rows whose rank is `k`, in file order. */
  function WithRank(rows: seq<seq<Cell>>, a: nat, order: seq<string>, k: nat): (r: seq<seq<Cell>>)
    ensures forall i :: 0 <= i < |r| ==> ActionRank(r[i], a, order) == k
  {
    if rows == [] then []
    else (if ActionRank(rows[0], a, order) == k then [rows[0]] else []) + WithRank(rows[1..], a, order, k)
  }

  /** The rows whose rank is at least `lo`, in file order. */
  function FromRank(rows: seq<seq<Cell>>, a: nat, order: seq<string>, lo: nat): seq<seq<Cell>> {
    if rows == [] then []
    else (if ActionRank(rows[0], a, order) >= lo then [rows[0]] else []) + FromRank(rows[1..], a, order, lo)
  }

  /** The rows of ranks `lo` to `|order|`, grouped by rank in increasing order. */
  function Buckets(rows: seq<seq<Cell>>, a: nat, order: seq<string>, lo: nat): (r: seq<seq<Cell>>)
    ensures forall i :: 0 <= i < |r| ==> ActionRank(r[i], a, order) >= lo
    decreases |order| + 1 - lo
  {
    if lo > |order| then [] else WithRank(rows, a, order, lo) + Buckets(rows, a, order, lo + 1)
  }

  lemma {:induction false} FromRankSplits(rows: seq<seq<Cell>>, a: nat, order: seq<string>, lo: nat)
    ensures multiset(FromRank(rows, a, order, lo))
         == multiset(WithRank(rows, a, order, lo)) + multiset(FromRank(rows, a, order, lo + 1))
  {
    if rows != [] {
      FromRankSplits(rows[1..], a, order, lo);
    }
  }

  lemma {:induction false} FromRankZero(rows: seq<seq<Cell>>, a: nat, order: seq<string>)
    ensures FromRank(rows, a, order, 0) == rows
  {
    if rows != [] {
      FromRankZero(rows[1..], a, order);
    }
  }

  lemma {:induction false} FromRankPastLast(rows: seq<seq<Cell>>, a: nat, order: seq<string>, lo: nat)
    requires lo > |order|
    ensures FromRank(rows, a, order, lo) == []
  {
    if rows != [] {
      FromRankPastLast(rows[1..], a, order, lo);
    }
  }

  lemma {:induction false} BucketsPermutation(rows: seq<seq<Cell>>, a: nat, order: seq<string>, lo: nat)
    ensures multiset(Buckets(rows, a, order, lo)) == multiset(FromRank(rows, a, order, lo))
    decreases |order| + 1 - lo
  {
    if lo > |order| {
      FromRankPastLast(rows, a, order, lo);
    } else {
      BucketsPermutation(rows, a, order, lo + 1);
      FromRankSplits(rows, a, order, lo);
    }
  }

  predicate RankSorted(r: seq<seq<Cell>>, a: nat, order: seq<string>) {
    forall i, j :: 0 <= i < j < |r| ==> ActionRank(r[i], a, order) <= ActionRank(r[j], a, order)
  }

  lemma SortedConcat(w: seq<seq<Cell>>, b: seq<seq<Cell>>, a: nat, order: seq<string>, lo: nat)
    requires forall i :: 0 <= i < |w| ==> ActionRank(w[i], a, order) == lo
    requires forall i :: 0 <= i < |b| ==> ActionRank(b[i], a, order) > lo
    requires RankSorted(b, a, order)
    ensures RankSorted(w + b, a, order)
  {
    var r := w + b;
    forall i, j | 0 <= i < j < |r| ensures ActionRank(r[i], a, order) <= ActionRank(r[j], a, order) {
      if j >= |w| {
        assert r[j] == b[j - |w|];
        if i >= |w| {
          assert r[i] == b[i - |w|];
        }
      }
    }
  }

  lemma {:induction false} BucketsSorted(rows: seq<seq<Cell>>, a: nat, order: seq<string>, lo: nat)
    ensures RankSorted(Buckets(rows, a, order, lo), a, order)
    decreases |order| + 1 - lo
  {
    if lo <= |order| {
      BucketsSorted(rows, a, order, lo + 1);
      SortedConcat(WithRank(rows, a, order, lo), Buckets(rows, a, order, lo + 1), a, order, lo);
    }
  }

  /**
   * `sort_values(by='actions')` after `set_categories(order)`: rows in category order, the
   * values outside the categories last; rows of one category keep their file order.
   */
  function OrderRows(rows: seq<seq<Cell>>, a: nat, order: seq<string>): (r: seq<seq<Cell>>)
    ensures |r| == |rows|
  {
    BucketsPermutation(rows, a, order, 0);
    FromRankZero(rows, a, order);
    var r := Buckets(rows, a, order, 0);
    assert |multiset(r)| == |r|;
    r
  }

  /** The row ordering is a permutation of the file's rows, sorted by category index. */
  lemma OrderRowsSortsAndPermutes(rows: seq<seq<Cell>>, a: nat, order: seq<string>)
    ensures multiset(OrderRows(rows, a, order)) == multiset(rows)
    ensures RankSorted(OrderRows(rows, a, order), a, order)
  {
    BucketsPermutation(rows, a, order, 0);
    FromRankZero(rows, a, order);
    BucketsSorted(rows, a, order, 0);
  }

  /** The wanted columns that no lower-cased column provides, in order. */
  function Unmatched(wanted: seq<string>, lowered: seq<string>): (missing: seq<string>)
    ensures forall c :: c in missing <==> c in wanted && c !in lowered
  {
    if wanted == [] then []
    else (if wanted[0] in lowered then [] else [wanted[0]]) + Unmatched(wanted[1..], lowered)
  }

  function LowerAll(names: seq<string>): (r: seq<string>)
    ensures |r| == |names|
  {
    seq(|names|, i requires 0 <= i < |names| => Lower(names[i]))
  }

  /** The positions of the columns labelled `c`, in header order. */
  function Matches(names: seq<string>, c: string): (r: seq<nat>)
    ensures forall k :: 0 <= k < |r| ==> r[k] < |names| && names[r[k]] == c
    ensures StrictlyIncreasing(r)
  {
    var keep := set i: nat | i < |names| && names[i] == c;
    RangeFacts(|names|);
    FilterMembers(Range(|names|), keep);
    FilterIncreasing(Range(|names|), keep);
    var r := Filter(Range(|names|), keep);
    assert forall k :: 0 <= k < |r| ==> r[k] in keep;
    r
  }

  /** Every column labelled `c` is matched. */
  lemma MatchesAll(names: seq<string>, c: string)
    ensures forall i :: 0 <= i < |names| && names[i] == c ==> i in Matches(names, c)
  {
    var keep := set i: nat | i < |names| && names[i] == c;
    assert Matches(names, c) == Filter(Range(|names|), keep);
    RangeFacts(|names|);
    FilterMembers(Range(|names|), keep);
  }

  /**
   * The positions `df[wanted]` selects from a header that may repeat a label: for each wanted
   * label in turn, every column carrying it, in header order.
   */
  function Selection(wanted: seq<string>, names: seq<string>): (idx: seq<nat>)
    ensures forall k :: 0 <= k < |idx| ==> idx[k] < |names| && names[idx[k]] in wanted
  {
    if wanted == [] then [] else Matches(names, wanted[0]) + Selection(wanted[1..], names)
  }

  /** Every column whose label is wanted is selected. */
  lemma {:induction false} SelectionCovers(wanted: seq<string>, names: seq<string>)
    ensures forall i :: 0 <= i < |names| && names[i] in wanted ==> i in Selection(wanted, names)
  {
    if wanted != [] {
      SelectionCovers(wanted[1..], names);
      MatchesAll(names, wanted[0]);
      assert Selection(wanted, names) == Matches(names, wanted[0]) + Selection(wanted[1..], names);
      forall i | 0 <= i < |names| && names[i] in wanted
        ensures i in Selection(wanted, names)
      {
        if names[i] != wanted[0] {
          assert names[i] in wanted[1..];
        }
      }
    }
  }

  /** `n` copies of `c`. */
  function Repeat(c: string, n: nat): (r: seq<string>)
    ensures |r| == n && forall k :: 0 <= k < n ==> r[k] == c
  {
    if n == 0 then [] else [c] + Repeat(c, n - 1)
  }

  /** The labels of the selected columns: each wanted label once per column carrying it. */
  function Labels(wanted: seq<string>, names: seq<string>): seq<string> {
    if wanted == [] then [] else Repeat(wanted[0], |Matches(names, wanted[0])|) + Labels(wanted[1..], names)
  }

  /** The `k`-th selected column carries the `k`-th label. */
  lemma {:induction false} LabelsAlongSelection(wanted: seq<string>, names: seq<string>)
    ensures |Labels(wanted, names)| == |Selection(wanted, names)|
    ensures forall k :: 0 <= k < |Labels(wanted, names)| ==> names[Selection(wanted, names)[k]] == Labels(wanted, names)[k]
  {
    if wanted != [] {
      LabelsAlongSelection(wanted[1..], names);
      var here := Matches(names, wanted[0]);
      var idx := Selection(wanted[1..], names);
      var labels := Labels(wanted[1..], names);
      assert Selection(wanted, names) == here + idx;
      var run := Repeat(wanted[0], |here|);
      assert Labels(wanted, names) == run + labels;
      AlongConcat(names, here, idx, run, labels);
    }
  }

  /** Positions that carry their labels, joined, still carry the joined labels. */
  lemma AlongConcat(names: seq<string>, a: seq<nat>, b: seq<nat>, la: seq<string>, lb: seq<string>)
    requires |a| == |la| && forall k :: 0 <= k < |a| ==> a[k] < |names| && names[a[k]] == la[k]
    requires |b| == |lb| && forall k :: 0 <= k < |b| ==> b[k] < |names| && names[b[k]] == lb[k]
    ensures forall k :: 0 <= k < |a| + |b| ==> (a + b)[k] < |names| && names[(a + b)[k]] == (la + lb)[k]
  {
    forall k | |a| <= k < |a| + |b|
      ensures (a + b)[k] < |names| && names[(a + b)[k]] == (la + lb)[k]
    {
      assert (a + b)[k] == b[k - |a|] && (la + lb)[k] == lb[k - |a|];
    }
  }

  /** The selected labels are the wanted ones, each of them at least once when every one is carried. */
  lemma LabelsCover(wanted: seq<string>, names: seq<string>)
    requires forall c :: c in wanted ==> c in names
    ensures forall c :: c in Labels(wanted, names) <==> c in wanted
  {
    var idx := Selection(wanted, names);
    var labels := Labels(wanted, names);
    LabelsAlongSelection(wanted, names);
    SelectionCovers(wanted, names);
    forall c | c in labels ensures c in wanted {
      var k :| 0 <= k < |labels| && labels[k] == c;
    }
    forall c | c in wanted ensures c in labels {
      var i :| 0 <= i < |names| && names[i] == c;
      var k :| 0 <= k < |idx| && idx[k] == i;
    }
  }

  /** When every wanted label is carried by exactly one column, the selection is `wanted` itself. */
  lemma {:induction false} LabelsOfSingleMatches(wanted: seq<string>, names: seq<string>)
    requires forall c :: c in wanted ==> |Matches(names, c)| == 1
    ensures Labels(wanted, names) == wanted
  {
    if wanted != [] {
      assert forall c :: c in wanted[1..] ==> c in wanted;
      LabelsOfSingleMatches(wanted[1..], names);
      assert Repeat(wanted[0], |Matches(names, wanted[0])|) == [wanted[0]];
      assert wanted == [wanted[0]] + wanted[1..];
    }
  }

  /** The cells of a row under the given column positions. */
  function ProjectRow(row: seq<Cell>, idx: seq<nat>): (r: seq<Cell>)
    ensures |r| == |idx|
  {
    seq(|idx|, j requires 0 <= j < |idx| => CellAt(row, idx[j]))
  }

  /**
   * Sorting the rows by the categorical `actions` column under categories `order`, lower-casing
   * the header and keeping the columns `wanted` in that order (every column of a repeated label).
   */
  function Project(t: Table, order: seq<string>, wanted: seq<string>): (r: Result<Table, Error>)
    ensures r.Ok? <==> "actions" in t.columns && forall c :: c in wanted ==> c in LowerAll(t.columns)
    ensures r.Err? ==> r.error.KeyError?
    ensures r.Ok? ==>
      var idx := Selection(wanted, LowerAll(t.columns));
      && r.value.columns == Labels(wanted, LowerAll(t.columns))
      && |r.value.columns| == |idx| && |r.value.rows| == |t.rows|
      && (forall i :: 0 <= i < |r.value.rows| ==> |r.value.rows[i]| == |idx|)
      && (forall k :: 0 <= k < |idx| ==> Lower(t.columns[idx[k]]) == r.value.columns[k])
      && (forall c :: c in r.value.columns ==> c in wanted)
      && (forall c :: c in wanted ==> c in r.value.columns)
    ensures r.Ok? ==>
      var ordered := OrderRows(t.rows, IndexOf(t.columns, "actions"), order);
      forall i :: 0 <= i < |ordered| ==>
        r.value.rows[i] == ProjectRow(ordered[i], Selection(wanted, LowerAll(t.columns)))
  {
    var a := IndexOf(t.columns, "actions");
    if a == |t.columns| then Err(KeyError(["actions"]))
    else
      var ordered := OrderRows(t.rows, a, order);
      var lowered := LowerAll(t.columns);
      var missing := Unmatched(wanted, lowered);
      if missing != [] then
        assert missing[0] in missing;
        Err(KeyError(missing))
      else
        var idx := Selection(wanted, lowered);
        var labels := Labels(wanted, lowered);
        LabelsAlongSelection(wanted, lowered);
        LabelsCover(wanted, lowered);
        Ok(Table(labels, seq(|ordered|, i requires 0 <= i < |ordered| => ProjectRow(ordered[i], idx))))
  }

  /** A file none of whose lower-cased headers repeats a policy column. */
  predicate SingleHeaders(t: Table) {
    forall c :: c in PolicyColumns() ==> |Matches(LowerAll(t.columns), c)| <= 1
  }

  /**
   * The body of `read_hypotheses` for one file (and of `read_actions`): the rows ordered by
   * canonical action, then the `baseline` column and the canonical features; the row of each
   * canonical action is the cell-by-cell projection of that action's row of the file. A policy
   * column that several headers spell (in different cases) is selected once per such header.
   */
  function ToPolicyFrame(t: Table): (r: Result<Table, Error>)
    ensures r.Ok? <==> "actions" in t.columns && forall c :: c in PolicyColumns() ==> c in LowerAll(t.columns)
    ensures r.Ok? ==> "actions" !in r.value.columns
    ensures r.Ok? ==> forall c :: c in r.value.columns <==> c in PolicyColumns()
    ensures r.Ok? ==> (r.value.columns == PolicyColumns() <==> SingleHeaders(t))
    ensures r.Ok? ==> |r.value.rows| == |t.rows| && forall i :: 0 <= i < |t.rows| ==> |r.value.rows[i]| == |r.value.columns|
  {
    var r := Project(t, AllPossibleActions, PolicyColumns());
    if r.Ok? then
      PolicyColumnsOnce(t);
      r
    else r
  }

  /** Exactly the files without repeated policy headers project onto the policy columns. */
  lemma PolicyColumnsOnce(t: Table)
    requires forall c :: c in PolicyColumns() ==> c in LowerAll(t.columns)
    ensures Labels(PolicyColumns(), LowerAll(t.columns)) == PolicyColumns() <==> SingleHeaders(t)
  {
    var lowered := LowerAll(t.columns);
    assert forall c :: c in PolicyColumns() ==> |Matches(lowered, c)| >= 1 by {
      forall c | c in PolicyColumns() ensures |Matches(lowered, c)| >= 1 {
        var i :| 0 <= i < |lowered| && lowered[i] == c;
        MatchesAll(lowered, c);
        assert i in Matches(lowered, c);
      }
    }
    if SingleHeaders(t) {
      LabelsOfSingleMatches(PolicyColumns(), lowered);
    } else {
      var c :| c in PolicyColumns() && |Matches(lowered, c)| > 1;
      LabelsLonger(PolicyColumns(), lowered, c);
    }
  }

  /** A label carried by two columns makes the selection longer than the wanted list. */
  lemma {:induction false} LabelsLonger(wanted: seq<string>, names: seq<string>, c: string)
    requires forall w :: w in wanted ==> |Matches(names, w)| >= 1
    requires c in wanted && |Matches(names, c)| > 1
    ensures |Labels(wanted, names)| > |wanted|
  {
    LabelsAtLeast(wanted[1..], names);
    if wanted[0] != c {
      assert c in wanted[1..];
      LabelsLonger(wanted[1..], names, c);
    }
  }

  lemma {:induction false} LabelsAtLeast(wanted: seq<string>, names: seq<string>)
    requires forall w :: w in wanted ==> |Matches(names, w)| >= 1
    ensures |Labels(wanted, names)| >= |wanted|
  {
    if wanted != [] {
      LabelsAtLeast(wanted[1..], names);
    }
  }

  /** Loading one file of the folder as a policy matrix. */
  function LoadFrame(files: map<string, Table>, name: string): Result<Table, Error> {
    if name !in files then Err(FileNotFoundError(name)) else ToPolicyFrame(files[name])
  }

  /** `read_actions`: the action-effects matrix. */
  function ReadActions(files: map<string, Table>): (r: Result<Table, Error>)
    ensures r.Ok? ==> EffectsFileName("mh") in files && forall c :: c in r.value.columns <==> c in PolicyColumns()
    ensures r.Ok? ==> (r.value.columns == PolicyColumns() <==> SingleHeaders(files[EffectsFileName("mh")]))
    ensures EffectsFileName("mh") !in files ==> r == Err(FileNotFoundError(EffectsFileName("mh")))
  {
    LoadFrame(files, EffectsFileName("mh"))
  }

  /** The policy matrix of one lockdown policy. */
  function LoadPolicy(files: map<string, Table>, policy: string): (r: Result<Table, Error>)
    ensures r.Ok? ==> LockdownFileName(policy) in files && forall c :: c in r.value.columns <==> c in PolicyColumns()
    ensures r.Ok? ==> (r.value.columns == PolicyColumns() <==> SingleHeaders(files[LockdownFileName(policy)]))
    ensures LockdownFileName(policy) !in files ==> r == Err(FileNotFoundError(LockdownFileName(policy)))
  {
    LoadFrame(files, LockdownFileName(policy))
  }

  /** `read_hypotheses`: one policy matrix per distinct policy, filled in policy by policy. */
  method ReadHypotheses(files: map<string, Table>, policies: seq<string>)
    returns (r: Result<map<string, Table>, Error>)
    ensures r.Ok? <==> forall p :: p in policies ==> LoadPolicy(files, p).Ok?
    ensures r.Ok? ==> forall p :: p in r.value <==> p in policies
    ensures r.Ok? ==> forall p :: p in r.value ==> LoadPolicy(files, p) == Ok(r.value[p])
    ensures r.Err? ==>
      exists i :: 0 <= i < |policies| && LoadPolicy(files, policies[i]) == Err(r.error) &&
        forall j :: 0 <= j < i ==> LoadPolicy(files, policies[j]).Ok?
  {
    var lockdownDfs: map<string, Table> := map[];
    for i := 0 to |policies|
      invariant forall p :: p in lockdownDfs <==> p in policies[..i]
      invariant forall p :: p in lockdownDfs ==> LoadPolicy(files, p) == Ok(lockdownDfs[p])
    {
      PrefixStep(policies, i);
      var df := LoadPolicy(files, policies[i]);
      if df.Err? {
        return Err(df.error);
      }
      lockdownDfs := lockdownDfs[policies[i] := df.value];
    }
    assert policies[..|policies|] == policies;
    return Ok(lockdownDfs);
  }
}
