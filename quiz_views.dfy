/** The quiz app's read-only views: the result page (a plurality vote over
    the user's answers, then a morning and a night routine assembled from
    the catalogue) and the progress chart. */
module QuizViews {
  import opened Optional
  import opened Text
  import opened Sorting
  import opened Tally
  import opened QuizModels
  import opened ProductModels

  /** The five skin types the tips table knows */
  datatype SkinKind = Dry | Oily | Combination | Sensitive | Normal

  /** The skin type a tag names, when it is one of the declared five */
  function KindOf(tag: string): Option<SkinKind> {
    if tag == "dry" then Some(Dry)
    else if tag == "oily" then Some(Oily)
    else if tag == "combination" then Some(Combination)
    else if tag == "sensitive" then Some(Sensitive)
    else if tag == "normal" then Some(Normal)
    else None
  }

  /** The tips table has an entry for exactly the declared skin-type tags. */
  lemma KindOfDeclared(tag: string)
    ensures KindOf(tag).Some? <==> tag in SkinTags
  {
  }

  /** Per-skin-type guidance: what to focus on, what to avoid, what to look for */
  datatype Tips = Tips(focus: string, avoid: string, keyIngredients: string)

  /** The entries of the `skin_tips` dict */
  function TipsFor(k: SkinKind): Tips {
    match k
    case Dry => Tips("Hydration and moisture retention",
                     "Harsh cleansers and alcohol-based products",
                     "Hyaluronic acid, Ceramides, Glycerin")
    case Oily => Tips("Oil control and pore refinement",
                      "Heavy creams and comedogenic oils",
                      "Salicylic acid, Niacinamide, Tea tree oil")
    case Combination => Tips("Balance hydration and oil control",
                             "Products that are too harsh or too heavy",
                             "Hyaluronic acid, Niacinamide, Vitamin C")
    case Sensitive => Tips("Gentle care and barrier protection",
                           "Fragrances, harsh acids, and irritants",
                           "Centella, Ceramides, Aloe vera")
    case Normal => Tips("Maintaining balance and prevention",
                        "Over-exfoliation and harsh treatments",
                        "Vitamin C, Hyaluronic acid, Antioxidants")
  }

  /** `product_type__icontains=keyword` */
  predicate Matches(p: Product, keyword: string) {
    IContains(p.productType, keyword)
  }

  /** `products.filter(product_type__icontains=keyword).first()`: the
      matching product with the lowest primary key */
  function Pick(products: seq<Product>, keyword: string): Option<Product> {
    if products == [] then None
    else
      var rest := Pick(products[1..], keyword);
      if !Matches(products[0], keyword) then rest
      else if rest.Some? && rest.value.id < products[0].id then rest
      else Some(products[0])
  }

  /** The pick is a matching product of the list with the lowest id of all
      matching ones, and there is none exactly when nothing matches. */
  lemma {:induction false} PickLowest(products: seq<Product>, keyword: string)
    ensures Pick(products, keyword).Some? ==>
              Pick(products, keyword).value in products && Matches(Pick(products, keyword).value, keyword)
    ensures Pick(products, keyword).Some? ==>
              forall q :: q in products && Matches(q, keyword) ==> Pick(products, keyword).value.id <= q.id
    ensures Pick(products, keyword).None? <==> forall q :: q in products ==> !Matches(q, keyword)
  {
    if products != [] {
      PickLowest(products[1..], keyword);
      assert forall q :: q in products ==> q == products[0] || q in products[1..];
    }
  }

  /** The product-type keywords `generate_routine` searches for */
  datatype Category =
    | CleanserType | TonerType | SerumType | MoisturizerType | CreamType
    | SunscreenType | SpfType | MaskType

  function Keyword(c: Category): string {
    match c
    case CleanserType => "Cleanser"
    case TonerType => "Toner"
    case SerumType => "Serum"
    case MoisturizerType => "Moisturizer"
    case CreamType => "Cream"
    case SunscreenType => "Sunscreen"
    case SpfType => "SPF"
    case MaskType => "Mask"
  }

  /** The product chosen for each category */
  datatype Picks = Picks(
    cleanser: Option<Product>, toner: Option<Product>, serum: Option<Product>,
    moisturizer: Option<Product>, sunscreen: Option<Product>, mask: Option<Product>)

  /** The `product_types` dict of `generate_routine`: moisturizer falls back
      to "Cream" and sunscreen to "SPF" when the first keyword finds nothing */
  function PickProducts(products: seq<Product>): Picks {
    Picks(
      Pick(products, Keyword(CleanserType)),
      Pick(products, Keyword(TonerType)),
      Pick(products, Keyword(SerumType)),
      Pick(products, Keyword(MoisturizerType)).Or(Pick(products, Keyword(CreamType))),
      Pick(products, Keyword(SunscreenType)).Or(Pick(products, Keyword(SpfType))),
      Pick(products, Keyword(MaskType)))
  }

  /** The ten step templates of `generate_routine` */
  datatype StepKind =
    | GentleCleanser | MorningToner | MorningSerum | Moisturizer | Sunscreen
    | DoubleCleanse | NightToner | NightSerum | NightCream | WeeklyMask

  /** The fixed wording of a step: its name, duration, icon and instructions */
  datatype StepText = StepText(name: string, time: string, icon: string, instructions: string)

  function Wording(k: StepKind): StepText {
    match k
    case GentleCleanser => StepText("Gentle Cleanser", "1-2 min", "\U{1F4A7}",
      "Wash your face with lukewarm water and a gentle cleanser. Massage in circular motions for 60 seconds.")
    case MorningToner => StepText("Toner (Optional)", "30 sec", "\U{2728}",
      "Apply toner with a cotton pad or pat gently with hands to balance pH and prep skin.")
    case MorningSerum => StepText("Serum/Treatment", "1 min", "\U{1F48E}",
      "Apply 2-3 drops of serum to face and neck. Press gently into skin.")
    case Moisturizer => StepText("Moisturizer", "1-2 min", "\U{1F338}",
      "Apply moisturizer evenly to lock in hydration. Use upward motions.")
    case Sunscreen => StepText("Sunscreen (SPF 30+)", "1-2 min", "\U{2600}\U{FE0F}",
      "Apply generous amount of sunscreen (2 finger lengths) to face and neck. Wait 15 min before sun exposure.")
    case DoubleCleanse => StepText("Double Cleanse", "2-3 min", "\U{1F9FC}",
      "First, remove makeup/sunscreen with cleansing oil/balm. Then, use your regular cleanser to deep clean.")
    case NightToner => StepText("Toner", "30 sec", "\U{2728}",
      "Apply toner to rebalance and prepare skin for treatments.")
    case NightSerum => StepText("Night Serum/Treatment", "1-2 min", "\U{1F31F}",
      "Apply treatment serums targeting your specific concerns (anti-aging, brightening, etc.).")
    case NightCream => StepText("Night Cream", "1-2 min", "\U{1F319}",
      "Apply a richer night cream to support skin repair and regeneration overnight.")
    case WeeklyMask => StepText("Weekly Mask (2-3x)", "15-20 min", "\U{1F3AD}",
      "Use a treatment mask 2-3 times per week after cleansing. Follow with serum and moisturizer.")
  }

  /** The serum step's tip names the key ingredients of the skin type
      (`skin_tips.get(skin_type, {}).get('key_ingredients', ...)`) */
  function SerumTip(tips: Option<SkinKind>): string {
    "Focus on " + (if tips.Some? then TipsFor(tips.value).keyIngredients else "beneficial ingredients") + "."
  }

  /** Without tips the serum step falls back to generic advice. */
  lemma GenericSerumTip()
    ensures SerumTip(None) == "Focus on beneficial ingredients."
  {
  }

  /** The tip shown with a step; only the morning serum's depends on the skin type */
  function StepTip(k: StepKind, tips: Option<SkinKind>): string {
    match k
    case GentleCleanser => "Use lukewarm water, not hot, to avoid stripping natural oils."
    case MorningToner => "Pat, don't rub! This helps with better absorption."
    case MorningSerum => SerumTip(tips)
    case Moisturizer => "Wait 1 minute before applying sunscreen for better absorption."
    case Sunscreen => "Reapply every 2 hours if outdoors! This is the most important step."
    case DoubleCleanse => "Double cleansing ensures all impurities are removed for better overnight repair."
    case NightToner => "Use a hydrating toner at night for extra nourishment and repair."
    case NightSerum => "Night is best for active ingredients like retinol and AHAs that work while you sleep."
    case NightCream => "Night creams are typically thicker and more nourishing to lock in moisture."
    case WeeklyMask => "Do this step 2-3 times per week, not daily. Perfect for relaxing before bed."
  }

  /** One step of a routine: its template and the product picked for it
      (`None` when nothing matched). The step's name, time, icon and
      instructions are `Wording(kind)`, its tip `StepTip(kind, tips)` with
      the routine's tips. */
  datatype Step = Step(number: nat, kind: StepKind, product: Option<Product>)

  /** A routine; its tips are `TipsFor(k)` when `tips` is `Some(k)`, and
      empty for a skin type the tips table lacks */
  datatype Routine = Routine(period: Period, steps: seq<Step>, tips: Option<SkinKind>)

  /** Which of the two routines; `Heading` gives its title, subtitle and total time */
  datatype Period = Morning | Night

  function Heading(p: Period): (string, string, string) {
    match p
    case Morning => ("Morning Skincare Routine", "Start your day with fresh, protected skin", "8-10 minutes")
    case Night => ("Night Skincare Routine", "Repair and rejuvenate while you sleep", "10-15 minutes")
  }

  datatype Routines = Routines(morning: Routine, night: Routine)

  function MorningRoutine(p: Picks, tips: Option<SkinKind>): Routine {
    Routine(Morning,
      [ Step(1, GentleCleanser, p.cleanser), Step(2, MorningToner, p.toner), Step(3, MorningSerum, p.serum),
        Step(4, Moisturizer, p.moisturizer), Step(5, Sunscreen, p.sunscreen) ],
      tips)
  }

  function NightRoutine(p: Picks, tips: Option<SkinKind>): Routine {
    Routine(Night,
      [ Step(1, DoubleCleanse, p.cleanser), Step(2, NightToner, p.toner), Step(3, NightSerum, p.serum),
        Step(4, NightCream, p.moisturizer), Step(5, WeeklyMask, p.mask) ],
      tips)
  }

  /** `generate_routine(skin_type, products)` */
  function GenerateRoutine(skinType: string, products: seq<Product>): (r: Routines)
    ensures |r.morning.steps| == 5 && |r.night.steps| == 5
    ensures forall i :: 0 <= i < 5 ==> r.morning.steps[i].number == i + 1 && r.night.steps[i].number == i + 1
    ensures r.morning.tips == r.night.tips
    ensures r.morning.tips == KindOf(skinType)
  {
    var p := PickProducts(products);
    var tips := KindOf(skinType);
    Routines(MorningRoutine(p, tips), NightRoutine(p, tips))
  }

  /** The category that fills step `i` of the morning (`morning`) or night routine */
  function StepCategory(morning: bool, i: nat): Category
    requires i < 5
  {
    if i == 0 then CleanserType else if i == 1 then TonerType else if i == 2 then SerumType
    else if i == 3 then MoisturizerType
    else if morning then SunscreenType else MaskType
  }

  /** The fallback category of a step, where it has one */
  function StepFallback(morning: bool, i: nat): Option<Category>
    requires i < 5
  {
    if i == 3 then Some(CreamType) else if i == 4 && morning then Some(SpfType) else None
  }

  /** Step `i` of the morning (`morning`) or night routine */
  function StepAt(r: Routines, morning: bool, i: nat): Step
    requires |r.morning.steps| == 5 && |r.night.steps| == 5 && i < 5
  {
    if morning then r.morning.steps[i] else r.night.steps[i]
  }

  /** Some product of the list matches the keyword */
  ghost predicate AnyMatch(products: seq<Product>, keyword: string) {
    exists q :: q in products && Matches(q, keyword)
  }

  /** What `generate_routine` puts in step `i`: the pick for its keyword,
      or else the pick for its fallback */
  function PickFor(products: seq<Product>, morning: bool, i: nat): Option<Product>
    requires i < 5
  {
    var first := Pick(products, Keyword(StepCategory(morning, i)));
    match StepFallback(morning, i)
    case None => first
    case Some(fallback) => first.Or(Pick(products, Keyword(fallback)))
  }

  lemma StepPick(skinType: string, products: seq<Product>, morning: bool, i: nat)
    requires i < 5
    ensures StepAt(GenerateRoutine(skinType, products), morning, i).product == PickFor(products, morning, i)
  {
    if i == 0 {
    } else if i == 1 {
    } else if i == 2 {
    } else if i == 3 {
    } else if morning {
    } else {
    }
  }

  /** Every step carries the lowest-id product of the list that matches its
      keyword, or, only when nothing matches that keyword, the lowest-id
      product matching its fallback; with no match at all it carries none. */
  lemma StepProductChoice(skinType: string, products: seq<Product>, morning: bool, i: nat)
    requires i < 5
    ensures AnyMatch(products, Keyword(StepCategory(morning, i))) ==>
              StepAt(GenerateRoutine(skinType, products), morning, i).product.Some?
    ensures AnyMatch(products, Keyword(StepCategory(morning, i))) ==>
              var p := StepAt(GenerateRoutine(skinType, products), morning, i).product.value;
              p in products && Matches(p, Keyword(StepCategory(morning, i)))
              && forall q :: q in products && Matches(q, Keyword(StepCategory(morning, i))) ==> p.id <= q.id
    ensures !AnyMatch(products, Keyword(StepCategory(morning, i))) && StepFallback(morning, i).Some? ==>
              StepAt(GenerateRoutine(skinType, products), morning, i).product
              == Pick(products, Keyword(StepFallback(morning, i).value))
    ensures !AnyMatch(products, Keyword(StepCategory(morning, i))) && StepFallback(morning, i).None? ==>
              StepAt(GenerateRoutine(skinType, products), morning, i).product.None?
  {
    StepPick(skinType, products, morning, i);
    PickLowest(products, Keyword(StepCategory(morning, i)));
  }

  /** Morning and night share the cleanser, toner, serum and moisturizer;
      step 5 is the sunscreen in the morning and the mask at night. */
  lemma SharedSteps(skinType: string, products: seq<Product>)
    ensures var r := GenerateRoutine(skinType, products);
            forall i :: 0 <= i < 4 ==> r.morning.steps[i].product == r.night.steps[i].product
    ensures GenerateRoutine(skinType, products).morning.steps[4].product == PickProducts(products).sunscreen
    ensures GenerateRoutine(skinType, products).night.steps[4].product == PickProducts(products).mask
  {
  }

  /** An empty catalogue still gives two five-step routines, none with a product. */
  lemma EmptyCatalogue(skinType: string)
    ensures var r := GenerateRoutine(skinType, []);
            forall i :: 0 <= i < 5 ==> r.morning.steps[i].product.None? && r.night.steps[i].product.None?
  {
  }

  /** An unknown skin type gets no guidance and the generic serum tip. */
  lemma UnknownSkinType(skinType: string, products: seq<Product>)
    requires skinType !in SkinTags
    ensures GenerateRoutine(skinType, products).morning.tips.None?
    ensures GenerateRoutine(skinType, products).night.tips.None?
    ensures var r := GenerateRoutine(skinType, products);
            StepTip(r.morning.steps[2].kind, r.morning.tips) == SerumTip(None)
  {
    KindOfDeclared(skinType);
  }

  /** Matching ignores case: a "CLEANSER" fills the cleanser step. */
  lemma CaseInsensitiveMatch(p: Product)
    requires p.productType == "CLEANSER"
    ensures GenerateRoutine(p.skinType, [p]).morning.steps[0].product == Some(p)
  {
    assert IStartsWith(p.productType, Keyword(CleanserType));
    assert Pick([p], Keyword(CleanserType)) == Some(p) by {
      assert [p][1..] == [];
    }
    StepPick(p.skinType, [p], true, 0);
  }

  /** The answers of one user, in the order the table yields them */
  function AnswersOf(answers: seq<UserAnswer>, user: nat): (r: seq<UserAnswer>)
    ensures |r| <= |answers|
    ensures forall a :: a in r <==> a in answers && a.user == user
  {
    if answers == [] then []
    else (if answers[0].user == user then [answers[0]] else []) + AnswersOf(answers[1..], user)
  }

  /** `[a.option.skin_type for a in answers]` */
  function TagsOf(answers: seq<UserAnswer>): (tags: seq<string>)
    ensures |tags| == |answers|
    ensures forall i :: 0 <= i < |answers| ==> tags[i] == answers[i].option.skinType
  {
    if answers == [] then [] else [answers[0].option.skinType] + TagsOf(answers[1..])
  }

  /** `Product.objects.filter(skin_type=skin_type)` */
  function ProductsFor(catalogue: seq<Product>, skinType: string): (r: seq<Product>)
    ensures forall p :: p in r <==> p in catalogue && p.skinType == skinType
  {
    if catalogue == [] then []
    else (if catalogue[0].skinType == skinType then [catalogue[0]] else []) + ProductsFor(catalogue[1..], skinType)
  }

  /** What `quiz_result` answers */
  datatype ResultPage =
    | StartQuizRedirect
    | ResultView(skinType: string, products: seq<Product>, morning: Routine, night: Routine)

  /** `quiz_result`: the user's answers, taken in the order the table yields
      them, vote for a skin type; with no answers the user is sent back to
      the start of the quiz. */
  function QuizResult(answers: seq<UserAnswer>, user: nat, catalogue: seq<Product>): (r: ResultPage)
    ensures r.StartQuizRedirect? <==> forall a :: a in answers ==> a.user != user
    ensures r.ResultView? ==> forall p :: p in r.products <==> p in catalogue && p.skinType == r.skinType
  {
    var mine := AnswersOf(answers, user);
    var tags := TagsOf(mine);
    if tags == [] then
      StartQuizRedirect
    else
      var t := Plurality(tags);
      var products := ProductsFor(catalogue, t);
      var routines := GenerateRoutine(t, products);
      ResultView(t, products, routines.morning, routines.night)
  }

  /** The result is a tag of the user's answers that no other tag outnumbers;
      a tie goes to the tag whose first answer comes first. */
  lemma QuizResultIsPlurality(answers: seq<UserAnswer>, user: nat, catalogue: seq<Product>, other: string)
    requires exists a :: a in answers && a.user == user
    requires other in TagsOf(AnswersOf(answers, user))
    ensures var tags := TagsOf(AnswersOf(answers, user));
            var t := QuizResult(answers, user, catalogue).skinType;
            t in tags && Count(tags, other) <= Count(tags, t)
            && (Count(tags, other) == Count(tags, t) ==> FirstIndex(tags, t) <= FirstIndex(tags, other))
  {
    PluralityIsFirstMaximum(TagsOf(AnswersOf(answers, user)), other);
  }

  /** When every chosen option carries one of the five declared tags, so
      does the result. */
  lemma QuizResultIsSkinTag(answers: seq<UserAnswer>, user: nat, catalogue: seq<Product>)
    requires forall a :: a in answers ==> ValidOption(a.option)
    requires exists a :: a in answers && a.user == user
    ensures QuizResult(answers, user, catalogue).skinType in SkinTags
  {
    var tags := TagsOf(AnswersOf(answers, user));
    PluralityIsFirstMaximum(tags, tags[0]);
    var i :| 0 <= i < |tags| && tags[i] == Plurality(tags);
    assert AnswersOf(answers, user)[i] in answers;
  }

  /** Two "dry" answers outvote one "oily". */
  lemma PluralityMajority()
    ensures Plurality(["dry", "dry", "oily"]) == "dry"
  {
    var a := ["dry", "dry", "oily"];
    PluralityIsFirstMaximum(a, "dry");
    assert Count(a, "dry") == 2;
    assert Count(a, "oily") == 1;
  }

  /** A one-to-one tie goes to the tag answered first. */
  lemma PluralityTie()
    ensures Plurality(["oily", "dry"]) == "oily"
  {
    var c := ["oily", "dry"];
    PluralityIsFirstMaximum(c, "oily");
    PluralityIsFirstMaximum(c, "dry");
    assert FirstIndex(c, "oily") == 0;
  }

  function NegDate(e: SkinProgress): int { -e.date }

  function EntriesOf(all: seq<SkinProgress>, user: nat): (r: seq<SkinProgress>)
    ensures forall e :: e in r <==> e in all && e.user == user
  {
    if all == [] then []
    else (if all[0].user == user then [all[0]] else []) + EntriesOf(all[1..], user)
  }

  /** `SkinProgress.objects.filter(user=...).order_by('-date')[:30]` */
  function RecentEntries(all: seq<SkinProgress>, user: nat): seq<SkinProgress> {
    var sorted := SortBy(EntriesOf(all, user), NegDate);
    sorted[..if |sorted| < 30 then |sorted| else 30]
  }

  /** The progress page shows the user's own entries, newest first: all of
      them when there are at most 30, otherwise 30 of them. */
  lemma RecentEntriesNewestFirst(all: seq<SkinProgress>, user: nat)
    ensures |RecentEntries(all, user)| == if |EntriesOf(all, user)| < 30 then |EntriesOf(all, user)| else 30
    ensures NewestFirst(RecentEntries(all, user))
    ensures forall e :: e in RecentEntries(all, user) ==> e in all && e.user == user
  {
    var mine := EntriesOf(all, user);
    SortBySorted(mine, NegDate);
    forall e | e in RecentEntries(all, user) ensures e in all && e.user == user {
      SortByMember(mine, NegDate, e);
    }
  }

  /** An entry of the user that the page leaves out is no newer than any
      entry it shows. */
  lemma RecentEntriesAreNewest(all: seq<SkinProgress>, user: nat, e: SkinProgress, k: SkinProgress)
    requires e in all && e.user == user && e !in RecentEntries(all, user)
    requires k in RecentEntries(all, user)
    ensures e.date <= k.date
  {
    var mine := EntriesOf(all, user);
    var sorted := SortBy(mine, NegDate);
    var recent := RecentEntries(all, user);
    SortBySorted(mine, NegDate);
    SortByMember(mine, NegDate, e);
    var j :| 0 <= j < |sorted| && sorted[j] == e;
    var i :| 0 <= i < |recent| && recent[i] == k;
    assert forall x :: 0 <= x < |recent| ==> recent[x] == sorted[x] && recent[x] != e;
    assert sorted[i] == k;
    assert NegDate(sorted[i]) <= NegDate(sorted[j]);
  }

  /** The series of the progress chart */
  datatype Chart = Chart(
    dates: seq<int>, satisfaction: seq<int>, hydration: seq<int>, clarity: seq<int>,
    breakouts: seq<int>, redness: seq<int>, overall: seq<int>)

  /** The chart loop of `track_progress`: it walks the entries from the last
      to the first and appends one point to every series. */
  method ChartData(entries: seq<SkinProgress>) returns (c: Chart)
    ensures |c.dates| == |c.satisfaction| == |c.hydration| == |c.clarity| == |entries|
    ensures |c.breakouts| == |c.redness| == |c.overall| == |entries|
    ensures forall i :: 0 <= i < |entries| ==>
      var e := entries[|entries| - 1 - i];
      c.dates[i] == e.date && c.satisfaction[i] == e.satisfaction && c.hydration[i] == e.hydration
      && c.clarity[i] == e.clarity && c.breakouts[i] == e.breakouts && c.redness[i] == e.redness
      && c.overall[i] == OverallCondition(e)
    ensures NewestFirst(entries) ==> forall i, j :: 0 <= i < j < |entries| ==> c.dates[i] <= c.dates[j]
  {
    c := Chart([], [], [], [], [], [], []);
    var n := |entries|;
    for k := 0 to n
      invariant |c.dates| == |c.satisfaction| == |c.hydration| == |c.clarity| == k
      invariant |c.breakouts| == |c.redness| == |c.overall| == k
      invariant forall i :: 0 <= i < k ==>
        var e := entries[n - 1 - i];
        c.dates[i] == e.date && c.satisfaction[i] == e.satisfaction && c.hydration[i] == e.hydration
        && c.clarity[i] == e.clarity && c.breakouts[i] == e.breakouts && c.redness[i] == e.redness
        && c.overall[i] == OverallCondition(e)
    {
      var e := entries[n - 1 - k];
      c := c.(dates := c.dates + [e.date],
              satisfaction := c.satisfaction + [e.satisfaction],
              hydration := c.hydration + [e.hydration],
              clarity := c.clarity + [e.clarity],
              breakouts := c.breakouts + [e.breakouts],
              redness := c.redness + [e.redness],
              overall := c.overall + [OverallCondition(e)]);
    }
  }
}
