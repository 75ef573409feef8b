/** The age-bin labelling of the mental-health population generator (mhm/utils.py). */
module MhmUtils {
  import opened Wrappers
  import opened Errors

  /** Right-inclusive bin edges: (24, 35], (35, 45], (45, 55], (55, 65]. */
  const AgeBins: seq<int> := [24, 35, 45, 55, 65]
  /** The group numbers the bins are labelled with. */
  const AgeLabels: seq<int> := [1, 2, 3, 4]

  /** `numpy.digitize(x, bins, right=True)`: the number of edges strictly below `x`. */
  function Digitize(x: int, bins: seq<int>): (i: nat)
    ensures i <= |bins|
  {
    if bins == [] then 0 else (if bins[0] < x then 1 else 0) + Digitize(x, bins[1..])
  }

  predicate Increasing(bins: seq<int>) {
    forall i, j :: 0 <= i < j < |bins| ==> bins[i] < bins[j]
  }

  /** On increasing edges, digitize places `x` in the right-inclusive bin `(bins[i-1], bins[i]]`. */
  lemma {:induction false} DigitizeIsRightInclusive(x: int, bins: seq<int>)
    requires Increasing(bins)
    ensures var i := Digitize(x, bins);
            (i == 0 || bins[i - 1] < x) && (i == |bins| || x <= bins[i])
  {
    if bins != [] {
      DigitizeIsRightInclusive(x, bins[1..]);
      var k := Digitize(x, bins[1..]);
      if bins[0] < x {
        assert Digitize(x, bins) == k + 1;
      } else {
        DigitizeNoneBelow(x, bins);
      }
    }
  }

  /** When `x` is at or below the first of increasing edges, no edge is below it. */
  lemma {:induction false} DigitizeNoneBelow(x: int, bins: seq<int>)
    requires Increasing(bins) && bins != [] && x <= bins[0]
    ensures Digitize(x, bins) == 0
  {
    if |bins| > 1 {
      assert bins[1..][0] == bins[1];
      DigitizeNoneBelow(x, bins[1..]);
    }
  }

  /** Digitize is monotone in the value, whatever the edges. */
  lemma {:induction false} DigitizeMonotone(x: int, y: int, bins: seq<int>)
    requires x <= y
    ensures Digitize(x, bins) <= Digitize(y, bins)
  {
    if bins != [] {
      DigitizeMonotone(x, y, bins[1..]);
    }
  }

  /** The decimal digit of a label number. */
  function DigitString(d: int): string
    requires 0 <= d <= 9
  {
    [('0' as int + d) as char]
  }

  /**
   * The label of one age: `labels[digitize(x) - 1]` with numpy indexing, so that index -1
   * wraps to the last label and index 4 is out of range.
   */
  function AgeLabel(x: int): Result<string, Error> {
    var k := Digitize(x, AgeBins) - 1;
    if k >= |AgeLabels| then Err(IndexError)
    else Ok("_" + DigitString(AgeLabels[if k < 0 then k + |AgeLabels| else k]))
  }

  /** `label_age_range`: labels every age, or fails as a whole when one index is out of range. */
  function LabelAgeRange(ages: seq<int>): (r: Result<seq<string>, Error>)
    ensures r.Ok? <==> forall i :: 0 <= i < |ages| ==> AgeLabel(ages[i]).Ok?
    ensures r.Ok? ==> |r.value| == |ages|
    ensures r.Ok? ==> forall i :: 0 <= i < |ages| ==> r.value[i] == AgeLabel(ages[i]).value
    ensures r.Err? ==> r.error == IndexError
  {
    if forall i :: 0 <= i < |ages| ==> AgeLabel(ages[i]).Ok? then
      Ok(seq(|ages|, i requires 0 <= i < |ages| => AgeLabel(ages[i]).value))
    else Err(IndexError)
  }

  /** How the four labels are spelled. */
  lemma LabelSpelling()
    ensures "_" + DigitString(1) == "_1" && "_" + DigitString(2) == "_2"
    ensures "_" + DigitString(3) == "_3" && "_" + DigitString(4) == "_4"
  {
    assert ("_" + DigitString(1))[1] == '1';
    assert ("_" + DigitString(2))[1] == '2';
    assert ("_" + DigitString(3))[1] == '3';
    assert ("_" + DigitString(4))[1] == '4';
  }

  lemma AgeBinsIncreasing()
    ensures Increasing(AgeBins)
  {}

  /** The bins are right-inclusive: 25-35, 36-45, 46-55 and 56-65 get _1 to _4. */
  lemma AgeLabelInsideBins(x: int)
    requires 25 <= x <= 65
    ensures AgeLabel(x) == Ok(if x <= 35 then "_1" else if x <= 45 then "_2"
                              else if x <= 55 then "_3" else "_4")
  {
    AgeBinsIncreasing();
    DigitizeIsRightInclusive(x, AgeBins);
    var i := Digitize(x, AgeBins);
    assert 1 <= i <= 4;
    LabelSpelling();
    if x <= 35 { assert i == 1; } else if x <= 45 { assert i == 2; }
    else if x <= 55 { assert i == 3; } else { assert i == 4; }
  }

  /** Ages up to 24 digitize to 0, and index -1 wraps to the last label. */
  lemma AgeLabelYoungWraps(x: int)
    requires x <= 24
    ensures AgeLabel(x) == Ok("_4")
  {
    AgeBinsIncreasing();
    DigitizeNoneBelow(x, AgeBins);
    LabelSpelling();
  }

  /** Ages above 65 digitize to 5, an index past the four labels. */
  lemma AgeLabelOldFails(x: int)
    requires x > 65
    ensures AgeLabel(x) == Err(IndexError)
  {
    AgeBinsIncreasing();
    DigitizeIsRightInclusive(x, AgeBins);
  }

  /** The group number of an age between 25 and 65. */
  function AgeGroupNumber(x: int): (g: int)
    requires 25 <= x <= 65
    ensures 1 <= g <= 4
    ensures AgeLabel(x) == Ok("_" + DigitString(g))
  {
    AgeBinsIncreasing();
    DigitizeIsRightInclusive(x, AgeBins);
    Digitize(x, AgeBins)
  }

  /** Inside 25..65 the label never decreases as the age grows. */
  lemma AgeGroupMonotone(x: int, y: int)
    requires 25 <= x <= y <= 65
    ensures AgeGroupNumber(x) <= AgeGroupNumber(y)
  {
    DigitizeMonotone(x, y, AgeBins);
  }

  /** The documented example: nine ages and their labels. */
  lemma LabelAgeRangeExample()
    ensures LabelAgeRange([25, 30, 35, 40, 45, 50, 55, 60, 65])
         == Ok(["_1", "_1", "_1", "_2", "_2", "_3", "_3", "_4", "_4"])
  {
    var ages := [25, 30, 35, 40, 45, 50, 55, 60, 65];
    forall i | 0 <= i < |ages| ensures 25 <= ages[i] <= 65 { }
    forall i | 0 <= i < |ages| ensures AgeLabel(ages[i]).Ok? {
      AgeLabelInsideBins(ages[i]);
    }
    var r := LabelAgeRange(ages).value;
    var expected := ["_1", "_1", "_1", "_2", "_2", "_3", "_3", "_4", "_4"];
    forall i | 0 <= i < |ages| ensures r[i] == expected[i] {
      AgeLabelInsideBins(ages[i]);
    }
    assert r == expected;
  }
}
