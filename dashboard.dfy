/** The analytics of `admin_dashboard`: how often each skin type was
    chosen, the three most common skin types, the number of users who took
    the quiz, and the engagement rates guarded against an empty user table. */
module Dashboard {
  import opened Sorting
  import opened Tally
  import opened Text
  import opened QuizModels
  import opened ProductModels
  import QuizViews

  /** One row of `skin_type_distribution`: the titled tag and its count (the
      float percentage is not part of this model) */
  datatype Share = Share(title: string, count: nat)

  function ShareCount(r: Share): int { r.count }

  /** `{'skin_type': tag.title(), 'count': count}` for each counter item */
  function Shares(items: seq<Entry<string>>): (rows: seq<Share>)
    ensures |rows| == |items|
    ensures forall i :: 0 <= i < |items| ==> rows[i].title == Title(items[i].key) && rows[i].count == items[i].count
  {
    if items == [] then [] else [Share(Title(items[0].key), items[0].count)] + Shares(items[1..])
  }

  /** Shares carry the counts of the items unchanged. */
  lemma {:induction false} SharesSum(items: seq<Entry<string>>)
    ensures SumBy(Shares(items), ShareCount) == SumBy(items, EntryCount)
  {
    if items != [] {
      SharesSum(items[1..]);
      assert Shares(items)[1..] == Shares(items[1..]);
    }
  }

  /** The tags of every stored answer, in table order */
  function AllTags(answers: seq<UserAnswer>): seq<string> {
    QuizViews.TagsOf(answers)
  }

  /** `skin_type_distribution` */
  function Distribution(answers: seq<UserAnswer>): seq<Share> {
    Shares(MostCommon(AllTags(answers)))
  }

  /** Each row is a chosen tag with the exact number of answers that chose
      it, and every chosen tag has a row. */
  lemma DistributionCounts(answers: seq<UserAnswer>, a: UserAnswer)
    requires a in answers
    ensures forall i :: 0 <= i < |Distribution(answers)| ==>
              exists tag :: tag in AllTags(answers) && Distribution(answers)[i] == Share(Title(tag), Count(AllTags(answers), tag))
    ensures Share(Title(a.option.skinType), Count(AllTags(answers), a.option.skinType)) in Distribution(answers)
  {
    var tags := AllTags(answers);
    var mc := MostCommon(tags);
    forall i | 0 <= i < |mc|
      ensures exists tag :: tag in tags && Distribution(answers)[i] == Share(Title(tag), Count(tags, tag))
    {
      MostCommonExact(tags, i);
      assert Distribution(answers)[i] == Share(Title(mc[i].key), Count(tags, mc[i].key));
    }
    var k :| 0 <= k < |answers| && answers[k] == a;
    assert tags[k] == a.option.skinType;
    MostCommonComplete(tags, a.option.skinType);
    var j :| 0 <= j < |mc| && mc[j] == Entry(a.option.skinType, Count(tags, a.option.skinType));
    assert Distribution(answers)[j] == Share(Title(a.option.skinType), Count(tags, a.option.skinType));
  }

  /** The counts of the distribution add up to the number of answers. */
  lemma DistributionTotal(answers: seq<UserAnswer>)
    ensures SumBy(Distribution(answers), ShareCount) == |answers|
  {
    MostCommonTotal(AllTags(answers));
    SharesSum(MostCommon(AllTags(answers)));
  }

  /** Rows come from the largest count down. */
  lemma DistributionDescending(answers: seq<UserAnswer>)
    ensures forall i, j :: 0 <= i < j < |Distribution(answers)| ==>
              Distribution(answers)[i].count >= Distribution(answers)[j].count
  {
    MostCommonDescending(AllTags(answers));
  }

  /** With no answers the distribution is empty, and only then. */
  lemma DistributionEmpty(answers: seq<UserAnswer>)
    ensures Distribution(answers) == [] <==> answers == []
  {
    MostCommonEmpty(AllTags(answers));
  }

  /** A tag with no upper-case letter */
  predicate NoUpper(s: string) {
    forall i :: 0 <= i < |s| ==> !IsUpper(s[i])
  }

  /** The declared skin-type choices are all lower case. */
  lemma SkinTagsLowerCase(tag: string)
    requires tag in SkinTags
    ensures NoUpper(tag)
  {
  }

  /** When every answer's tag has no upper-case letter (as every declared
      choice), each label appears once. */
  lemma DistributionLabelsDistinct(answers: seq<UserAnswer>)
    requires forall a :: a in answers ==> NoUpper(a.option.skinType)
    ensures forall i, j :: 0 <= i < j < |Distribution(answers)| ==>
              Distribution(answers)[i].title != Distribution(answers)[j].title
  {
    var tags := AllTags(answers);
    var mc := MostCommon(tags);
    MostCommonKeysDistinct(tags);
    forall i, j | 0 <= i < j < |mc| ensures Title(mc[i].key) != Title(mc[j].key) {
      MostCommonExact(tags, i);
      MostCommonExact(tags, j);
      var ki :| 0 <= ki < |tags| && tags[ki] == mc[i].key;
      var kj :| 0 <= kj < |tags| && tags[kj] == mc[j].key;
      assert answers[ki] in answers && answers[kj] in answers;
      if Title(mc[i].key) == Title(mc[j].key) {
        TitleInjective(mc[i].key, mc[j].key);
      }
    }
  }

  /** The keys of a list of counter items */
  function KeysOf(items: seq<Entry<string>>): (ks: seq<string>)
    ensures |ks| == |items|
    ensures forall i :: 0 <= i < |items| ==> ks[i] == items[i].key
  {
    if items == [] then [] else [items[0].key] + KeysOf(items[1..])
  }

  /** `[st for st, _ in skin_type_counter.most_common(3)]` */
  function TopSkinTypes(answers: seq<UserAnswer>): (r: seq<string>)
    ensures |r| <= 3 && |r| <= |MostCommon(AllTags(answers))|
    ensures forall i :: 0 <= i < |r| ==> r[i] == MostCommon(AllTags(answers))[i].key
    ensures |r| == 3 || |r| == |MostCommon(AllTags(answers))|
  {
    KeysOf(MostCommonN(AllTags(answers), 3))
  }

  /** A tag left out of the top three was chosen no more often than any
      tag kept. */
  lemma TopSkinTypesAreMostCommon(answers: seq<UserAnswer>, tag: string)
    requires tag in AllTags(answers) && tag !in TopSkinTypes(answers)
    ensures forall t :: t in TopSkinTypes(answers) ==> Count(AllTags(answers), tag) <= Count(AllTags(answers), t)
  {
    var tags := AllTags(answers);
    var top := MostCommonN(tags, 3);
    assert forall i :: 0 <= i < |top| ==> top[i].key != tag by {
      forall i | 0 <= i < |top| ensures top[i].key != tag {
        assert TopSkinTypes(answers)[i] == top[i].key;
      }
    }
    MostCommonNTop(tags, 3, tag);
    forall t | t in TopSkinTypes(answers) ensures Count(tags, tag) <= Count(tags, t) {
      var i :| 0 <= i < |top| && TopSkinTypes(answers)[i] == t;
      assert top[i] == MostCommon(tags)[i];
      MostCommonExact(tags, i);
    }
  }

  /** The users who answered at least one question */
  function QuizTakers(answers: seq<UserAnswer>): (users: set<nat>)
    ensures forall u :: u in users <==> exists a :: a in answers && a.user == u
  {
    if answers == [] then {}
    else
      var rest := QuizTakers(answers[1..]);
      assert forall a :: a in answers <==> a == answers[0] || a in answers[1..];
      {answers[0].user} + rest
  }

  /** `total_quizzes` (and `users_with_quizzes`): distinct users with an answer */
  function TotalQuizzes(answers: seq<UserAnswer>): nat {
    |QuizTakers(answers)|
  }

  /** There are never more quiz takers than answers, and at least one when
      there is an answer. */
  lemma {:induction false} TotalQuizzesBound(answers: seq<UserAnswer>)
    ensures TotalQuizzes(answers) <= |answers|
    ensures answers != [] ==> TotalQuizzes(answers) >= 1
  {
    if answers != [] {
      TotalQuizzesBound(answers[1..]);
      assert answers[0].user in QuizTakers(answers);
    }
  }

  /** The users whose cart holds at least one line */
  function CartUsers(items: seq<CartItem>): (users: set<nat>)
    ensures forall u :: u in users <==> exists line :: line in items && line.owner == u
  {
    if items == [] then {}
    else
      var rest := CartUsers(items[1..]);
      assert forall line :: line in items <==> line == items[0] || line in items[1..];
      {items[0].owner} + rest
  }

  /** `round(part / total * 100, 1) if total > 0 else 0`, without the
      rounding: the exact percentage */
  function Rate(part: nat, total: nat): (r: real)
    ensures total == 0 ==> r == 0.0
    ensures part <= total ==> 0.0 <= r <= 100.0
  {
    if total > 0 then (part as real) / (total as real) * 100.0 else 0.0
  }

  /** The engagement figures of the dashboard */
  datatype Engagement = Engagement(
    totalUsers: nat, totalQuizzes: nat, usersWithCarts: nat, quizCompletionRate: real, cartUsageRate: real)

  function EngagementOf(users: set<nat>, answers: seq<UserAnswer>, items: seq<CartItem>): Engagement {
    var quizzes := TotalQuizzes(answers);
    var carts := |CartUsers(items)|;
    Engagement(|users|, quizzes, carts, Rate(quizzes, |users|), Rate(carts, |users|))
  }

  /** A subset of a finite set is no larger than the set. */
  lemma {:induction false} SubsetNoLarger(a: set<nat>, b: set<nat>)
    requires a <= b
    ensures |a| <= |b|
    decreases |b|
  {
    if b != {} {
      var x :| x in b;
      SubsetNoLarger(a - {x}, b - {x});
    }
  }

  /** With no users both rates are 0. */
  lemma EngagementWithoutUsers(answers: seq<UserAnswer>, items: seq<CartItem>)
    ensures EngagementOf({}, answers, items).quizCompletionRate == 0.0
    ensures EngagementOf({}, answers, items).cartUsageRate == 0.0
  {
  }

  /** When every answer and cart line belongs to a known user, both rates
      lie between 0 and 100. */
  lemma EngagementRatesBounded(users: set<nat>, answers: seq<UserAnswer>, items: seq<CartItem>)
    requires forall a :: a in answers ==> a.user in users
    requires forall line :: line in items ==> line.owner in users
    ensures 0.0 <= EngagementOf(users, answers, items).quizCompletionRate <= 100.0
    ensures 0.0 <= EngagementOf(users, answers, items).cartUsageRate <= 100.0
  {
    SubsetNoLarger(QuizTakers(answers), users);
    SubsetNoLarger(CartUsers(items), users);
  }
}
