/**
 * The calorie estimator of the Kalorilaskuri app (`laskeKalorit`): from the
 * weight text field, the chosen sex and the chosen activity level it computes
 * a Harris-Benedict-style basal rate, multiplies it by an activity
 * coefficient and rounds the product to a whole number of kilocalories.
 * Every invalid input collapses into one absent result (`None`, Kotlin's
 * `null`).
 */
module Kalorilaskuri {
  import opened Wrappers
  import opened KotlinMath

  datatype Sex = Male | Female

  /** The five activity levels, in the order the dropdown lists them. */
  datatype Activity = Low | Normal | Moderate | High | VeryHigh

  /** The values the two radio buttons hand to the screen state. */
  const SexOptions: seq<string> := ["Mies", "Nainen"]

  /** The entries of the activity dropdown, in display order. */
  const ActivityOptions: seq<string> := ["Matala", "Tavallinen", "Keskitaso", "Korkea", "Erittäin korkea"]

  /** The initial selections of the screen state. */
  const DefaultSex: string := "Mies"
  const DefaultActivity: string := "Matala"

  // ---------------------------------------------------------------------------
  // The string literals the estimator matches, and their parsers

  /** The Finnish literal that names each sex. */
  function SexLabel(s: Sex): (name: string)
    ensures name in SexOptions
  {
    match s
    case Male => "Mies"
    case Female => "Nainen"
  }

  /** The Finnish literal that names each activity level. */
  function ActivityLabel(a: Activity): (name: string)
    ensures name == ActivityOptions[Rank(a)]
  {
    match a
    case Low => "Matala"
    case Normal => "Tavallinen"
    case Moderate => "Keskitaso"
    case High => "Korkea"
    case VeryHigh => "Erittäin korkea"
  }

  /** Position of an activity level in the dropdown. */
  function Rank(a: Activity): (i: nat)
    ensures i < |ActivityOptions|
  {
    match a
    case Low => 0
    case Normal => 1
    case Moderate => 2
    case High => 3
    case VeryHigh => 4
  }

  /**
   * Kotlin's `when (subject)` over constant string branches: the branches are
   * tried top to bottom, the first literal equal to the subject wins, and no
   * match falls through to `else` (here `None`).
   */
  function When<T>(branches: seq<(string, T)>, subject: string): (r: Option<T>)
    ensures r.None? <==> forall i :: 0 <= i < |branches| ==> branches[i].0 != subject
    ensures r.Some? ==> exists i :: 0 <= i < |branches| && branches[i] == (subject, r.value) && NoMatchBefore(branches, subject, i)
  {
    if branches == [] then None
    else if branches[0].0 == subject then Some(branches[0].1)
    else When(branches[1..], subject)
  }

  /** No branch before position i has the subject as its literal. */
  predicate NoMatchBefore<T>(branches: seq<(string, T)>, subject: string, i: int)
    requires 0 <= i <= |branches|
  {
    forall k :: 0 <= k < i ==> branches[k].0 != subject
  }

  /** The branches of the first `when` of laskeKalorit. */
  const SexBranches: seq<(string, Sex)> := [("Mies", Male), ("Nainen", Female)]

  /** The branches of the second `when` of laskeKalorit. */
  const ActivityBranches: seq<(string, Activity)> :=
    [("Matala", Low), ("Tavallinen", Normal), ("Keskitaso", Moderate), ("Korkea", High), ("Erittäin korkea", VeryHigh)]

  /** A branch whose literal no earlier branch repeats is the one `When` picks for that literal. */
  lemma {:induction false} WhenPicksBranch<T>(branches: seq<(string, T)>, i: int)
    requires 0 <= i < |branches| && NoMatchBefore(branches, branches[i].0, i)
    ensures When(branches, branches[i].0) == Some(branches[i].1)
  {
    if i > 0 {
      var tail := branches[1..];
      assert tail[i - 1] == branches[i];
      assert NoMatchBefore(tail, tail[i - 1].0, i - 1) by {
        forall k | 0 <= k < i - 1 ensures tail[k].0 != tail[i - 1].0 {
          assert tail[k] == branches[k + 1];
        }
      }
      WhenPicksBranch(tail, i - 1);
    }
  }

  /** Each branch of the sex table maps the literal of a sex to that sex. */
  lemma SexBranchesAreLabels(i: int)
    requires 0 <= i < |SexBranches|
    ensures SexBranches[i] == (SexLabel(SexBranches[i].1), SexBranches[i].1)
    ensures NoMatchBefore(SexBranches, SexBranches[i].0, i)
  {
  }

  /** Each branch of the activity table maps the literal of a level to that level, at its dropdown position. */
  lemma ActivityBranchesAreLabels(a: Activity)
    ensures ActivityBranches[Rank(a)] == (ActivityLabel(a), a)
    ensures NoMatchBefore(ActivityBranches, ActivityLabel(a), Rank(a))
  {
  }

  /** The literal of each branch of the activity table is the label of its level. */
  lemma ActivityBranchHoldsLabel(j: int)
    requires 0 <= j < |ActivityBranches|
    ensures ActivityBranches[j].0 == ActivityLabel(ActivityBranches[j].1)
  {
  }

  /** Exact, case-sensitive comparison with the two literals; anything else is rejected. */
  function ParseSex(text: string): (r: Option<Sex>)
    ensures forall s: Sex :: r == Some(s) <==> text == SexLabel(s)
  {
    SexTableInverse(text);
    When(SexBranches, text)
  }

  /** The sex table finds sex s for exactly the literal of s. */
  lemma SexTableInverse(text: string)
    ensures forall s: Sex :: When(SexBranches, text) == Some(s) <==> text == SexLabel(s)
  {
    var r := When(SexBranches, text);
    forall s: Sex ensures r == Some(s) <==> text == SexLabel(s) {
      var i := if s == Male then 0 else 1;
      SexBranchesAreLabels(i);
      WhenPicksBranch(SexBranches, i);
      if r == Some(s) {
        var j :| 0 <= j < |SexBranches| && SexBranches[j] == (text, s);
        SexBranchesAreLabels(j);
      }
    }
  }

  /** Exact comparison with the five literals; anything else is rejected. */
  function ParseActivity(text: string): (r: Option<Activity>)
    ensures forall a: Activity :: r == Some(a) <==> text == ActivityLabel(a)
  {
    ActivityTableInverse(text);
    When(ActivityBranches, text)
  }

  /** The activity table finds level a for exactly the literal of a. */
  lemma ActivityTableInverse(text: string)
    ensures forall a: Activity :: When(ActivityBranches, text) == Some(a) <==> text == ActivityLabel(a)
  {
    var r := When(ActivityBranches, text);
    forall a: Activity ensures r == Some(a) <==> text == ActivityLabel(a) {
      ActivityBranchesAreLabels(a);
      WhenPicksBranch(ActivityBranches, Rank(a));
      if r == Some(a) {
        var j :| 0 <= j < |ActivityBranches| && ActivityBranches[j] == (text, a);
        ActivityBranchHoldsLabel(j);
      }
    }
  }

  // ---------------------------------------------------------------------------
  // The formula

  /** The sex-specific basal rate for a weight of w kilograms. */
  function BaseRate(s: Sex, w: real): (b: real)
    ensures w >= 0.0 ==> b >= 88.362
  {
    match s
    case Male => 88.362 + 13.397 * w
    case Female => 447.593 + 9.247 * w
  }

  /** The activity coefficient. */
  function Factor(a: Activity): (f: real)
    ensures 1.3 <= f <= 2.2
  {
    match a
    case Low => 1.3
    case Normal => 1.5
    case Moderate => 1.7
    case High => 2.0
    case VeryHigh => 2.2
  }

  /** Rounded product of basal rate and coefficient, once every input is valid. */
  function Calories(s: Sex, w: real, a: Activity): (kcal: real)
    ensures IsInteger(kcal)
    ensures Dist(kcal, BaseRate(s, w) * Factor(a)) <= 0.5
    ensures Dist(kcal, BaseRate(s, w) * Factor(a)) == 0.5 ==> IsEven(kcal.Floor)
  {
    Round(BaseRate(s, w) * Factor(a))
  }

  /**
   * laskeKalorit. `parse` stands for Kotlin's `String.toDoubleOrNull`; the
   * weight is parsed first and a failure ends the computation before the sex
   * or the activity is looked at.
   */
  function Estimate(parse: string -> Option<real>, weight: string, sex: string, activity: string): (r: Option<real>)
    ensures parse(weight).None? ==> r.None?
    ensures ParseSex(sex).None? ==> r.None?
    ensures ParseActivity(activity).None? ==> r.None?
    ensures r.Some? <==> parse(weight).Some? && ParseSex(sex).Some? && ParseActivity(activity).Some?
    ensures r.Some? ==> r.value == Calories(ParseSex(sex).value, parse(weight).value, ParseActivity(activity).value)
  {
    match parse(weight)
    case None => None
    case Some(w) =>
      match ParseSex(sex)
      case None => None
      case Some(s) =>
        match ParseActivity(activity)
        case None => None
        case Some(a) => Some(Calories(s, w, a))
  }

  // ---------------------------------------------------------------------------
  // Properties

  /** The parser accepts exactly the two radio-button values. */
  lemma SexOptionsAccepted(text: string)
    ensures ParseSex(text).Some? <==> text in SexOptions
  {
  }

  /** The parser accepts every dropdown entry, as the level at its position. */
  lemma ActivityOptionsAccepted(i: int)
    requires 0 <= i < |ActivityOptions|
    ensures ParseActivity(ActivityOptions[i]).Some?
    ensures Rank(ParseActivity(ActivityOptions[i]).value) == i
  {
  }

  /** The parser accepts exactly the five dropdown entries and nothing else. */
  lemma ActivityOptionsExactly(text: string)
    ensures ParseActivity(text).Some? <==> text in ActivityOptions
  {
    if ParseActivity(text).Some? {
      var a := ParseActivity(text).value;
      assert text == ActivityOptions[Rank(a)];
    } else if text in ActivityOptions {
      var i :| 0 <= i < |ActivityOptions| && ActivityOptions[i] == text;
      ActivityOptionsAccepted(i);
    }
  }

  /** The coefficient strictly grows along the dropdown order, and only then. */
  lemma FactorFollowsDropdownOrder(a: Activity, b: Activity)
    ensures Rank(a) < Rank(b) <==> Factor(a) < Factor(b)
  {
  }

  /** Heavier means a larger basal rate, for both formulas. */
  lemma BaseRateIncreasing(s: Sex, w1: real, w2: real)
    requires w1 <= w2
    ensures BaseRate(s, w1) <= BaseRate(s, w2)
    ensures w1 < w2 ==> BaseRate(s, w1) < BaseRate(s, w2)
  {
  }

  /** A higher activity level never lowers the estimate while the basal rate is non-negative. */
  lemma CaloriesMonotoneInActivity(s: Sex, w: real, a: Activity, b: Activity)
    requires BaseRate(s, w) >= 0.0
    requires Rank(a) <= Rank(b)
    ensures Calories(s, w, a) <= Calories(s, w, b)
  {
    var p1, p2 := BaseRate(s, w) * Factor(a), BaseRate(s, w) * Factor(b);
    assert p1 <= p2 by {
      // with both coefficients fixed literals the comparison is linear
      match a
      case Low =>
      case Normal =>
      case Moderate =>
      case High =>
      case VeryHigh =>
    }
    RoundMonotone(p1, p2);
  }

  /** A larger weight never lowers the estimate. */
  lemma CaloriesMonotoneInWeight(s: Sex, w1: real, w2: real, a: Activity)
    requires w1 <= w2
    ensures Calories(s, w1, a) <= Calories(s, w2, a)
  {
    var p1, p2 := BaseRate(s, w1) * Factor(a), BaseRate(s, w2) * Factor(a);
    BaseRateIncreasing(s, w1, w2);
    assert p1 <= p2 by {
      // with the coefficient a fixed literal the comparison is linear
      match a
      case Low =>
      case Normal =>
      case Moderate =>
      case High =>
      case VeryHigh =>
    }
    RoundMonotone(p1, p2);
  }

  /** Valid literals for sex and activity reach the formula with the levels they name. */
  lemma EstimateOfLabels(parse: string -> Option<real>, weight: string, w: real, s: Sex, a: Activity)
    requires parse(weight) == Some(w)
    ensures Estimate(parse, weight, SexLabel(s), ActivityLabel(a)) == Some(Calories(s, w, a))
  {
  }

  /** The "Mies" rows of the decision table of laskeKalorit, with its constants as written. */
  lemma CaloriesTableMies(w: real)
    ensures Calories(Male, w, Low) == Round((88.362 + 13.397 * w) * 1.3)
    ensures Calories(Male, w, Normal) == Round((88.362 + 13.397 * w) * 1.5)
    ensures Calories(Male, w, Moderate) == Round((88.362 + 13.397 * w) * 1.7)
    ensures Calories(Male, w, High) == Round((88.362 + 13.397 * w) * 2.0)
    ensures Calories(Male, w, VeryHigh) == Round((88.362 + 13.397 * w) * 2.2)
  {
  }

  /** The "Nainen" rows of the decision table of laskeKalorit, with its constants as written. */
  lemma CaloriesTableNainen(w: real)
    ensures Calories(Female, w, Low) == Round((447.593 + 9.247 * w) * 1.3)
    ensures Calories(Female, w, Normal) == Round((447.593 + 9.247 * w) * 1.5)
    ensures Calories(Female, w, Moderate) == Round((447.593 + 9.247 * w) * 1.7)
    ensures Calories(Female, w, High) == Round((447.593 + 9.247 * w) * 2.0)
    ensures Calories(Female, w, VeryHigh) == Round((447.593 + 9.247 * w) * 2.2)
  {
  }


  /**
   * From the screen, only the weight field can make the result absent: every
   * radio value and every dropdown entry is accepted.
   */
  lemma UiSelectionsAccepted(parse: string -> Option<real>, weight: string, i: int, j: int)
    requires 0 <= i < |SexOptions| && 0 <= j < |ActivityOptions|
    ensures Estimate(parse, weight, SexOptions[i], ActivityOptions[j]).Some? <==> parse(weight).Some?
  {
  }

  /** The initial selections are among the options and are accepted. */
  lemma DefaultsAccepted(parse: string -> Option<real>, weight: string)
    ensures DefaultSex == SexOptions[0] && DefaultActivity == ActivityOptions[0]
    ensures Estimate(parse, weight, DefaultSex, DefaultActivity).Some? <==> parse(weight).Some?
  {
  }

  /** Worked examples, for any weight parser that reads "70" and "60" as the numbers they spell. */
  lemma ScenariosComputed(parse: string -> Option<real>)
    requires parse("70") == Some(70.0) && parse("60") == Some(60.0)
    ensures Estimate(parse, "70", "Mies", "Matala") == Some(1334.0)
    ensures Estimate(parse, "60", "Nainen", "Korkea") == Some(2005.0)
  {
    // 1026.152 * 1.3 == 1333.9976, which rounds to 1334
    assert BaseRate(Male, 70.0) * Factor(Low) == 1333.9976;
    RoundUnique(1333.9976, 1334);
    EstimateOfLabels(parse, "70", 70.0, Male, Low);
    // 1002.413 * 2.0 == 2004.826, which rounds to 2005
    assert BaseRate(Female, 60.0) * Factor(High) == 2004.826;
    RoundUnique(2004.826, 2005);
    EstimateOfLabels(parse, "60", 60.0, Female, High);
  }

  /**
   * Worked examples of rejection: an empty weight that the parser refuses, a
   * sex other than the two literals (English "Male" included), an unknown level.
   */
  lemma ScenariosRejected(parse: string -> Option<real>)
    requires parse("") == None
    ensures Estimate(parse, "", "Mies", "Matala") == None
    ensures Estimate(parse, "70", "Other", "Matala") == None
    ensures Estimate(parse, "70", "Male", "Matala") == None
    ensures Estimate(parse, "70", "Mies", "Unknown") == None
  {
  }

}
