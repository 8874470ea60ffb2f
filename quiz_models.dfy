/** The quiz app's tables: questions, their options tagged with a skin type,
    the answers a user gave, and skin-progress diary entries. */
module QuizModels {

  /** The closed choice set of `Option.skin_type` */
  const SkinTags: set<string> := {"dry", "oily", "combination", "sensitive", "normal"}

  /** A question row; only its id matters to the views modelled here */
  datatype Question = Question(id: nat, text: string)

  /** An option row: it belongs to one question and carries a skin-type tag */
  datatype QuizOption = QuizOption(id: nat, question: nat, text: string, skinType: string)

  /** The tag is one of the declared choices. Django checks choices in forms
      only, so rows created in code are not forced to satisfy this. */
  predicate ValidOption(o: QuizOption) {
    o.skinType in SkinTags
  }

  /** A `UserAnswer` row: one user, one question, one (resolved) option */
  datatype UserAnswer = UserAnswer(user: nat, question: nat, option: QuizOption)

  /** A `SkinProgress` row; `date` is a day number and every rating is an
      integer field whose declared choices are 1..10 */
  datatype SkinProgress = SkinProgress(
    user: nat, date: int,
    satisfaction: int, hydration: int, clarity: int, breakouts: int, redness: int,
    notes: string, routineFollowed: bool)

  predicate OnScale(x: int) { 1 <= x <= 10 }

  /** All five ratings are within their declared choices 1..10 */
  predicate ValidProgress(p: SkinProgress) {
    OnScale(p.satisfaction) && OnScale(p.hydration) && OnScale(p.clarity)
    && OnScale(p.breakouts) && OnScale(p.redness)
  }

  /** `n / d` rounded to the nearest integer, halves to the even neighbour
      (Python's `round`) */
  function RoundHalfEven(n: int, d: nat): (r: int)
    requires d > 0
    ensures 2 * (n - r * d) <= d && 2 * (r * d - n) <= d
    ensures 2 * (n - r * d) == d || 2 * (r * d - n) == d ==> r % 2 == 0
  {
    var q := n / d;
    var m := n % d;
    assert n == q * d + m;
    assert (q + 1) * d == q * d + d;
    if 2 * m < d then q
    else if 2 * m > d then q + 1
    else if q % 2 == 0 then q
    else q + 1
  }

  /** `overall_condition`: the mean of hydration, clarity, breakouts and
      redness rounded to one decimal, counted in tenths */
  function OverallCondition(p: SkinProgress): (tenths: int)
    ensures 2 * (10 * (p.hydration + p.clarity + p.breakouts + p.redness) - 4 * tenths) <= 4
    ensures 2 * (4 * tenths - 10 * (p.hydration + p.clarity + p.breakouts + p.redness)) <= 4
  {
    RoundHalfEven(10 * (p.hydration + p.clarity + p.breakouts + p.redness), 4)
  }

  /** With every metric on its 1..10 scale, the overall condition lies
      between 1.0 and 10.0. */
  lemma OverallConditionOnScale(p: SkinProgress)
    requires OnScale(p.hydration) && OnScale(p.clarity) && OnScale(p.breakouts) && OnScale(p.redness)
    ensures 10 <= OverallCondition(p) <= 100
  {
  }

  /** A quarter that is not a tie rounds to the nearest tenth; .25 and .75
      are ties and go to the even tenth (2.25 -> 2.2, 2.75 -> 2.8). */
  lemma OverallConditionTies()
    ensures OverallCondition(SkinProgress(0, 0, 5, 2, 2, 2, 3, "", true)) == 22
    ensures OverallCondition(SkinProgress(0, 0, 5, 2, 3, 3, 3, "", true)) == 28
    ensures OverallCondition(SkinProgress(0, 0, 5, 2, 2, 3, 3, "", true)) == 25
  {
  }

  /** `Meta.ordering = ['-date']`: newest entry first */
  ghost predicate NewestFirst(entries: seq<SkinProgress>) {
    forall i, j :: 0 <= i < j < |entries| ==> entries[i].date >= entries[j].date
  }
}
