/** The community views: `add_review` and `mark_helpful` on product reviews,
    `share_routine`, `view_routine` and `like_routine` on shared routines.
    Each engagement counter is kept equal to the number of rows in the
    table of marks or likes it counts. */
module Community {
  import opened Optional
  import opened Sorting
  import opened ProductModels

  /** The users that a table of (row id, user) pairs, such as `ReviewHelpful`
      or `RoutineLike`, holds for row `id` */
  ghost function UsersOf(marks: set<(nat, nat)>, id: nat): set<nat> {
    set p | p in marks && p.0 == id :: p.1
  }

  /** A new (row, user) pair adds exactly that user to the row and touches no
      other row. */
  lemma UsersOfAdd(marks: set<(nat, nat)>, id: nat, user: nat)
    requires (id, user) !in marks
    ensures UsersOf(marks + {(id, user)}, id) == UsersOf(marks, id) + {user}
    ensures |UsersOf(marks + {(id, user)}, id)| == |UsersOf(marks, id)| + 1
    ensures forall other :: other != id ==> UsersOf(marks + {(id, user)}, other) == UsersOf(marks, other)
  {
    assert user !in UsersOf(marks, id);
  }

  /** Deleting a (row, user) pair removes exactly that user from the row and
      touches no other row. */
  lemma UsersOfRemove(marks: set<(nat, nat)>, id: nat, user: nat)
    requires (id, user) in marks
    ensures UsersOf(marks - {(id, user)}, id) == UsersOf(marks, id) - {user}
    ensures |UsersOf(marks - {(id, user)}, id)| == |UsersOf(marks, id)| - 1
    ensures forall other :: other != id ==> UsersOf(marks - {(id, user)}, other) == UsersOf(marks, other)
  {
    assert user in UsersOf(marks, id);
  }

  /** A row no pair refers to has no users. */
  lemma UsersOfFresh(marks: set<(nat, nat)>, id: nat)
    requires forall p :: p in marks ==> p.0 < id
    ensures UsersOf(marks, id) == {}
  {
  }

  // ---------------------------------------------------------------- reviews

  /** The review of `product` by `user`, if there is one */
  function FindReview(reviews: seq<Review>, product: nat, user: nat): (k: Option<nat>)
    ensures k.Some? ==> k.value < |reviews| && reviews[k.value].product == product && reviews[k.value].user == user
    ensures k.None? ==> forall i :: 0 <= i < |reviews| ==> !(reviews[i].product == product && reviews[i].user == user)
  {
    if reviews == [] then None
    else if reviews[0].product == product && reviews[0].user == user then Some(0)
    else match FindReview(reviews[1..], product, user)
      case None => None
      case Some(k) => Some(k + 1)
  }

  /** The review with primary key `id`, if there is one */
  function FindReviewById(reviews: seq<Review>, id: nat): (k: Option<nat>)
    ensures k.Some? ==> k.value < |reviews| && reviews[k.value].id == id
    ensures k.None? ==> forall i :: 0 <= i < |reviews| ==> reviews[i].id != id
  {
    if reviews == [] then None
    else if reviews[0].id == id then Some(0)
    else match FindReviewById(reviews[1..], id)
      case None => None
      case Some(k) => Some(k + 1)
  }

  /** `ProductReview.objects.filter(product=..., user=...).first()` */
  function ExistingReview(reviews: seq<Review>, product: nat, user: nat): (r: Option<Review>)
    ensures r.Some? ==> r.value in reviews && r.value.product == product && r.value.user == user
    ensures r.None? <==> forall v :: v in reviews ==> !(v.product == product && v.user == user)
  {
    match FindReview(reviews, product, user)
    case Some(k) => Some(reviews[k])
    case None => None
  }

  /** The posted review form; `None` for a field that is missing, or for a
      number that `int()` cannot parse */
  datatype ReviewForm = ReviewForm(
    rating: Option<int>, title: Option<string>, text: Option<string>, skinType: Option<string>,
    effectiveness: Option<int>, valueForMoney: Option<int>, usageDuration: Option<string>,
    wouldRecommend: bool)

  /** `ProductReview.objects.create(...)` succeeds: every number parses and
      no NOT NULL text column receives `None`. The rating choices are not
      checked on this path. */
  predicate ReviewComplete(f: ReviewForm) {
    f.rating.Some? && f.title.Some? && f.text.Some? && f.skinType.Some?
    && f.effectiveness.Some? && f.valueForMoney.Some? && f.usageDuration.Some?
  }

  /** The row `create` inserts, with no helpful marks yet */
  function NewReview(id: nat, product: nat, user: nat, f: ReviewForm): (r: Review)
    requires ReviewComplete(f)
    ensures r.id == id && r.product == product && r.user == user && r.helpfulCount == 0
    ensures r.rating == f.rating.value && r.effectiveness == f.effectiveness.value
            && r.valueForMoney == f.valueForMoney.value
  {
    Review(id, product, user, f.rating.value, f.title.value, f.text.value, f.skinType.value,
           f.effectiveness.value, f.valueForMoney.value, f.usageDuration.value, f.wouldRecommend, 0)
  }

  /** What `add_review` answers */
  datatype ReviewReply =
    | ProductNotFound
      /** the user has reviewed this product before: nothing is written */
    | AlreadyReviewed
    | ReviewPosted
      /** the form page, with the user's earlier review if any (a GET, or a
          POST whose `create` failed) */
    | ReviewFormPage(existing: Option<Review>)

  /** What `mark_helpful` answers */
  datatype HelpfulReply = ReviewNotFound | MarkedHelpful | AlreadyMarked

  /** The `ProductReview` and `ReviewHelpful` tables */
  class ReviewBoard {
    var reviews: seq<Review>
    /** (review id, user) pairs */
    var helpful: set<(nat, nat)>
    var nextId: nat

    ghost predicate Valid()
      reads this
    {
      UniqueReviews(reviews)
      && (forall i :: 0 <= i < |reviews| ==> reviews[i].id < nextId)
      && (forall p :: p in helpful ==> p.0 < nextId)
      && forall i :: 0 <= i < |reviews| ==> reviews[i].helpfulCount == |UsersOf(helpful, reviews[i].id)|
    }

    constructor ()
      ensures Valid()
      ensures reviews == [] && helpful == {} && nextId == 1
    {
      reviews := [];
      helpful := {};
      nextId := 1;
    }

    /** `add_review` of product `productId` by `user` */
    method AddReview(user: nat, catalogue: seq<Product>, productId: nat, isPost: bool, form: ReviewForm)
      returns (reply: ReviewReply)
      requires Valid()
      modifies this
      ensures Valid()
      ensures helpful == old(helpful)
      ensures FindProduct(catalogue, productId).None? ==>
                reply == ProductNotFound && reviews == old(reviews) && nextId == old(nextId)
      ensures FindProduct(catalogue, productId).Some? && !isPost ==>
                reviews == old(reviews) && nextId == old(nextId)
                && reply == ReviewFormPage(ExistingReview(reviews, productId, user))
      ensures FindProduct(catalogue, productId).Some? && isPost && FindReview(old(reviews), productId, user).Some? ==>
                reply == AlreadyReviewed && reviews == old(reviews) && nextId == old(nextId)
      ensures FindProduct(catalogue, productId).Some? && isPost && FindReview(old(reviews), productId, user).None?
              && !ReviewComplete(form) ==>
                reply == ReviewFormPage(None) && reviews == old(reviews) && nextId == old(nextId)
      ensures FindProduct(catalogue, productId).Some? && isPost && FindReview(old(reviews), productId, user).None?
              && ReviewComplete(form) ==>
                reply == ReviewPosted && nextId == old(nextId) + 1
                && reviews == old(reviews) + [NewReview(old(nextId), productId, user, form)]
    {
      if FindProduct(catalogue, productId).None? {
        return ProductNotFound;
      }
      var existing := FindReview(reviews, productId, user);
      if !isPost {
        return ReviewFormPage(ExistingReview(reviews, productId, user));
      }
      if existing.Some? {
        return AlreadyReviewed;
      }
      if !ReviewComplete(form) {
        return ReviewFormPage(None);
      }
      var r := NewReview(nextId, productId, user, form);
      UsersOfFresh(helpful, nextId);
      reviews := reviews + [r];
      nextId := nextId + 1;
      reply := ReviewPosted;
    }

    /** `mark_helpful` of review `reviewId` by `user`: the first mark is
        stored and counted, a repeated one changes nothing */
    method MarkHelpful(user: nat, reviewId: nat) returns (reply: HelpfulReply)
      requires Valid()
      modifies this
      ensures Valid()
      ensures nextId == old(nextId)
      ensures FindReviewById(old(reviews), reviewId).None? ==>
                reply == ReviewNotFound && reviews == old(reviews) && helpful == old(helpful)
      ensures FindReviewById(old(reviews), reviewId).Some? && (reviewId, user) in old(helpful) ==>
                reply == AlreadyMarked && reviews == old(reviews) && helpful == old(helpful)
      ensures FindReviewById(old(reviews), reviewId).Some? && (reviewId, user) !in old(helpful) ==>
                var k := FindReviewById(old(reviews), reviewId).value;
                reply == MarkedHelpful
                && helpful == old(helpful) + {(reviewId, user)}
                && reviews == old(reviews)[k := old(reviews)[k].(helpfulCount := old(reviews)[k].helpfulCount + 1)]
      ensures Marks(reviews, helpful) == Mark(Marks(old(reviews), old(helpful)), reviewId, user)
    {
      match FindReviewById(reviews, reviewId)
      case None =>
        reply := ReviewNotFound;
      case Some(k) =>
        if (reviewId, user) in helpful {
          return AlreadyMarked;
        }
        UsersOfAdd(helpful, reviewId, user);
        var r := reviews[k].(helpfulCount := reviews[k].helpfulCount + 1);
        ReviewsKeepUnique(reviews, k, r);
        helpful := helpful + {(reviewId, user)};
        reviews := reviews[k := r];
        reply := MarkedHelpful;
    }
  }

  /** Replacing a review by one with the same key, product and user keeps
      the reviews unique. */
  lemma ReviewsKeepUnique(reviews: seq<Review>, k: nat, r: Review)
    requires UniqueReviews(reviews) && k < |reviews|
    requires r.id == reviews[k].id && r.product == reviews[k].product && r.user == reviews[k].user
    ensures UniqueReviews(reviews[k := r])
  {
  }

  /** The state `mark_helpful` works on: the reviews and the (review id,
      user) marks */
  datatype Marks = Marks(reviews: seq<Review>, helpful: set<(nat, nat)>)

  /** The effect of one `mark_helpful`: nothing for an unknown review or a
      repeated mark, otherwise the mark is stored and the review's count
      goes up by one */
  function Mark(m: Marks, reviewId: nat, user: nat): (r: Marks)
    ensures |r.reviews| == |m.reviews|
    ensures forall i :: 0 <= i < |m.reviews| ==> r.reviews[i].id == m.reviews[i].id
    ensures (reviewId, user) in r.helpful <==> FindReviewById(m.reviews, reviewId).Some? || (reviewId, user) in m.helpful
  {
    match FindReviewById(m.reviews, reviewId)
    case None => m
    case Some(k) =>
      if (reviewId, user) in m.helpful then m
      else
        var v := m.reviews[k];
        Marks(m.reviews[k := v.(helpfulCount := v.helpfulCount + 1)], m.helpful + {(reviewId, user)})
  }

  /** Marking the same review twice by the same user leaves the reviews, every
      helpful count and the marks exactly as marking it once. */
  lemma MarkTwice(m: Marks, reviewId: nat, user: nat)
    ensures Mark(Mark(m, reviewId, user), reviewId, user) == Mark(m, reviewId, user)
  {
  }

  // --------------------------------------------------------------- routines

  /** The routine with primary key `id`, if there is one */
  function FindRoutine(routines: seq<UserRoutine>, id: nat): (k: Option<nat>)
    ensures k.Some? ==> k.value < |routines| && routines[k.value].id == id
    ensures k.None? ==> forall i :: 0 <= i < |routines| ==> routines[i].id != id
  {
    if routines == [] then None
    else if routines[0].id == id then Some(0)
    else match FindRoutine(routines[1..], id)
      case None => None
      case Some(k) => Some(k + 1)
  }

  /** `like_routine` on the like table: the pair is created, or deleted
      when it exists */
  function ToggleLike(likes: set<(nat, nat)>, routine: nat, user: nat): (r: set<(nat, nat)>)
    ensures (routine, user) in r <==> (routine, user) !in likes
    ensures forall p :: p != (routine, user) ==> (p in r <==> p in likes)
  {
    if (routine, user) in likes then likes - {(routine, user)} else likes + {(routine, user)}
  }

  /** `like_routine` on `likes_count`: one more on a like, and on an unlike
      one less but never below 0 */
  function ToggleCount(wasLiked: bool, count: int): (c: int)
    ensures !wasLiked ==> c == count + 1
    ensures wasLiked ==> c >= 0 && c >= count - 1
    ensures wasLiked && count >= 1 ==> c == count - 1
    ensures wasLiked && count <= 1 ==> c == 0
  {
    if wasLiked then (if count - 1 > 0 then count - 1 else 0) else count + 1
  }

  /** A count that starts non-negative stays non-negative. */
  lemma LikeCountNonNegative(wasLiked: bool, count: int)
    requires count >= 0
    ensures ToggleCount(wasLiked, count) >= 0
  {
  }

  /** A like followed by an unlike restores both the like table and the
      count; so does an unlike followed by a like while the count is
      positive. */
  lemma LikeUnlikeRestores(likes: set<(nat, nat)>, routine: nat, user: nat, count: int)
    ensures ToggleLike(ToggleLike(likes, routine, user), routine, user) == likes
    ensures (routine, user) !in likes ==>
              ToggleCount(true, ToggleCount(false, count)) == (if count >= 0 then count else 0)
    ensures (routine, user) in likes && count >= 1 ==>
              ToggleCount(false, ToggleCount(true, count)) == count
  {
    var once := ToggleLike(likes, routine, user);
    var twice := ToggleLike(once, routine, user);
    forall p ensures p in twice <==> p in likes {
    }
  }

  /** The posted routine form; `None` for a missing field */
  datatype RoutineForm = RoutineForm(
    title: Option<string>, description: Option<string>, skinType: Option<string>,
    routineType: Option<string>, isPublic: bool)

  /** `UserRoutine.objects.create(...)` succeeds: no NOT NULL column
      receives `None`. The choice sets are not checked on this path. */
  predicate RoutineComplete(f: RoutineForm) {
    f.title.Some? && f.description.Some? && f.skinType.Some? && f.routineType.Some?
  }

  /** The row `create` inserts, with no likes and no views */
  function NewRoutine(id: nat, user: nat, f: RoutineForm): (r: UserRoutine)
    requires RoutineComplete(f)
    ensures r.id == id && r.user == user && r.likesCount == 0 && r.viewsCount == 0 && r.isPublic == f.isPublic
  {
    UserRoutine(id, user, f.title.value, f.description.value, f.skinType.value, f.routineType.value,
                f.isPublic, 0, 0)
  }

  /** The `step_product_<i>` field: empty or missing, not an integer, or an id */
  datatype ProductRef = NoProduct | Unparsable | ProductId(n: int)

  /** The `step_name_<i>`, `step_instructions_<i>` and `step_product_<i>` fields */
  datatype StepForm = StepForm(name: Option<string>, instructions: Option<string>, product: ProductRef)

  /** The fields posted for step `i`; all missing when absent */
  function StepFields(fields: map<int, StepForm>, i: int): StepForm {
    if i in fields then fields[i] else StepForm(None, None, NoProduct)
  }

  /** `if step_name and step_instructions`: both present and non-empty */
  predicate CreatesStep(f: StepForm) {
    f.name.Some? && f.name.value != [] && f.instructions.Some? && f.instructions.value != []
  }

  /** The product a step ends up with: the referenced catalogue row when
      there is one; any other reference is ignored */
  function StepProduct(ref: ProductRef, catalogue: seq<Product>): (p: Option<nat>)
    ensures p.Some? ==> ref == ProductId(p.value) && FindProduct(catalogue, p.value).Some?
    ensures ref.ProductId? && ref.n >= 0 && FindProduct(catalogue, ref.n).Some? ==> p == Some(ref.n)
  {
    match ref
    case ProductId(n) => if n >= 0 && FindProduct(catalogue, n).Some? then Some(n) else None
    case _ => None
  }

  /** The steps `share_routine` creates for indices 1..n, with primary keys
      handed out from `firstId` */
  function StepsUpTo(routine: nat, fields: map<int, StepForm>, catalogue: seq<Product>, n: int, firstId: nat)
    : seq<RoutineStep>
    decreases if n < 0 then 0 else n
  {
    if n <= 0 then []
    else
      var prev := StepsUpTo(routine, fields, catalogue, n - 1, firstId);
      var f := StepFields(fields, n);
      if CreatesStep(f)
      then prev + [RoutineStep(firstId + |prev|, routine, n, f.name.value, f.instructions.value,
                               StepProduct(f.product, catalogue))]
      else prev
  }

  /** Every created step belongs to the routine, carries its index i in
      1..n as its number, non-empty fields, the posted product when it
      exists, and the next primary key; numbers strictly increase; and every
      index whose name and instructions are filled in gets a step. */
  lemma {:induction false} StepsUpToSpec(routine: nat, fields: map<int, StepForm>, catalogue: seq<Product>,
                                         n: int, firstId: nat)
    ensures forall j :: 0 <= j < |StepsUpTo(routine, fields, catalogue, n, firstId)| ==>
              var s := StepsUpTo(routine, fields, catalogue, n, firstId)[j];
              s.routine == routine && 1 <= s.number <= n && s.id == firstId + j
              && CreatesStep(StepFields(fields, s.number))
              && s.name == StepFields(fields, s.number).name.value
              && s.instructions == StepFields(fields, s.number).instructions.value
              && s.product == StepProduct(StepFields(fields, s.number).product, catalogue)
    ensures forall i, j :: 0 <= i < j < |StepsUpTo(routine, fields, catalogue, n, firstId)| ==>
              StepsUpTo(routine, fields, catalogue, n, firstId)[i].number
              < StepsUpTo(routine, fields, catalogue, n, firstId)[j].number
    ensures forall i :: 1 <= i <= n && CreatesStep(StepFields(fields, i)) ==>
              exists j :: 0 <= j < |StepsUpTo(routine, fields, catalogue, n, firstId)|
                          && StepsUpTo(routine, fields, catalogue, n, firstId)[j].number == i
  {
    if n > 0 {
      StepsUpToSpec(routine, fields, catalogue, n - 1, firstId);
      var prev := StepsUpTo(routine, fields, catalogue, n - 1, firstId);
      var s := StepsUpTo(routine, fields, catalogue, n, firstId);
      assert forall j :: 0 <= j < |prev| ==> s[j] == prev[j];
      forall i | 1 <= i <= n && CreatesStep(StepFields(fields, i))
        ensures exists j :: 0 <= j < |s| && s[j].number == i
      {
        if i == n {
          assert s[|prev|].number == n;
        } else {
          var j :| 0 <= j < |prev| && prev[j].number == i;
          assert s[j].number == i;
        }
      }
    }
  }

  /** No index without both a name and instructions gets a step. */
  lemma StepsOnlyWhenFilled(routine: nat, fields: map<int, StepForm>, catalogue: seq<Product>, n: int,
                            firstId: nat, i: int)
    requires !CreatesStep(StepFields(fields, i))
    ensures forall s :: s in StepsUpTo(routine, fields, catalogue, n, firstId) ==> s.number != i
  {
    StepsUpToSpec(routine, fields, catalogue, n, firstId);
    var steps := StepsUpTo(routine, fields, catalogue, n, firstId);
    forall s | s in steps ensures s.number != i {
      var j :| 0 <= j < |steps| && steps[j] == s;
    }
  }

  /** Every routine's `likes_count` is the number of users who like it */
  ghost predicate LikesCounted(routines: seq<UserRoutine>, likes: set<(nat, nat)>) {
    forall i :: 0 <= i < |routines| ==> routines[i].likesCount == |UsersOf(likes, routines[i].id)|
  }

  /** Step keys are below the next key, and steps belong to existing routine keys */
  ghost predicate StepsKeyed(steps: seq<RoutineStep>, nextStepId: nat, nextRoutineId: nat) {
    forall i :: 0 <= i < |steps| ==> steps[i].id < nextStepId && steps[i].routine < nextRoutineId
  }

  /** Toggling a like and its routine's count together keeps every count
      equal to its number of likes; the floor at 0 never comes into play. */
  lemma ToggleKeepsCounts(routines: seq<UserRoutine>, likes: set<(nat, nat)>, k: nat, user: nat)
    requires k < |routines| && LikesCounted(routines, likes)
    requires forall i, j :: 0 <= i < j < |routines| ==> routines[i].id != routines[j].id
    ensures LikesCounted(
              routines[k := routines[k].(likesCount := ToggleCount((routines[k].id, user) in likes, routines[k].likesCount))],
              ToggleLike(likes, routines[k].id, user))
  {
    var rid := routines[k].id;
    var r := routines[k := routines[k].(likesCount := ToggleCount((rid, user) in likes, routines[k].likesCount))];
    var l := ToggleLike(likes, rid, user);
    if (rid, user) in likes {
      UsersOfRemove(likes, rid, user);
    } else {
      UsersOfAdd(likes, rid, user);
    }
    forall i | 0 <= i < |r| ensures r[i].likesCount == |UsersOf(l, r[i].id)| {
      if i != k {
        assert r[i] == routines[i] && r[i].id != rid;
      }
    }
  }

  /** Adding a routine under a fresh key, with no likes, keeps the counts. */
  lemma NewRoutineCounted(routines: seq<UserRoutine>, likes: set<(nat, nat)>, r: UserRoutine)
    requires LikesCounted(routines, likes)
    requires r.likesCount == 0 && forall p :: p in likes ==> p.0 < r.id
    ensures LikesCounted(routines + [r], likes)
  {
    UsersOfFresh(likes, r.id);
    var s := routines + [r];
    forall i | 0 <= i < |s| ensures s[i].likesCount == |UsersOf(likes, s[i].id)| {
      if i < |routines| {
        assert s[i] == routines[i];
      }
    }
  }

  /** What the routine views answer */
  datatype RoutineReply =
    | RoutineNotFound
    | Liked
    | Unliked
      /** `view_routine`: the routine after counting the view, its steps in
          step-number order, and whether the user likes it */
    | RoutinePage(routine: UserRoutine, steps: seq<RoutineStep>, liked: bool)
      /** `share_routine` stored the routine and its steps */
    | Shared
      /** `share_routine` failed part way: an error message and the form */
    | ShareFailed
      /** the empty `share_routine` form */
    | ShareFormPage

  /** The `UserRoutine`, `RoutineStep` and `RoutineLike` tables */
  class RoutineBoard {
    var routines: seq<UserRoutine>
    var steps: seq<RoutineStep>
    /** (routine id, user) pairs */
    var likes: set<(nat, nat)>
    var nextRoutineId: nat
    var nextStepId: nat

    ghost predicate Valid()
      reads this
    {
      (forall i, j :: 0 <= i < j < |routines| ==> routines[i].id != routines[j].id)
      && (forall i :: 0 <= i < |routines| ==> routines[i].id < nextRoutineId)
      && (forall p :: p in likes ==> p.0 < nextRoutineId)
      && LikesCounted(routines, likes)
      && StepsKeyed(steps, nextStepId, nextRoutineId)
    }

    constructor ()
      ensures Valid()
      ensures routines == [] && steps == [] && likes == {} && nextRoutineId == 1 && nextStepId == 1
    {
      routines := [];
      steps := [];
      likes := {};
      nextRoutineId := 1;
      nextStepId := 1;
    }

    /** `view_routine`: one more view, then the page */
    method ViewRoutine(user: nat, routineId: nat) returns (reply: RoutineReply)
      requires Valid()
      modifies this
      ensures Valid()
      ensures steps == old(steps) && likes == old(likes)
      ensures nextRoutineId == old(nextRoutineId) && nextStepId == old(nextStepId)
      ensures FindRoutine(old(routines), routineId).None? ==> reply == RoutineNotFound && routines == old(routines)
      ensures FindRoutine(old(routines), routineId).Some? ==>
                var k := FindRoutine(old(routines), routineId).value;
                var r := old(routines)[k].(viewsCount := old(routines)[k].viewsCount + 1);
                routines == old(routines)[k := r]
                && reply == RoutinePage(r, OrderedSteps(steps, routineId), (routineId, user) in likes)
    {
      match FindRoutine(routines, routineId)
      case None =>
        reply := RoutineNotFound;
      case Some(k) =>
        var r := routines[k].(viewsCount := routines[k].viewsCount + 1);
        routines := routines[k := r];
        reply := RoutinePage(r, OrderedSteps(steps, routineId), (routineId, user) in likes);
    }

    /** `like_routine`: like the routine, or unlike it when the user already
        does */
    method LikeRoutine(user: nat, routineId: nat) returns (reply: RoutineReply)
      requires Valid()
      modifies this
      ensures Valid()
      ensures steps == old(steps) && nextRoutineId == old(nextRoutineId) && nextStepId == old(nextStepId)
      ensures FindRoutine(old(routines), routineId).None? ==>
                reply == RoutineNotFound && routines == old(routines) && likes == old(likes)
      ensures FindRoutine(old(routines), routineId).Some? ==>
                var k := FindRoutine(old(routines), routineId).value;
                var wasLiked := (routineId, user) in old(likes);
                likes == ToggleLike(old(likes), routineId, user)
                && routines == old(routines)[k := old(routines)[k].(likesCount :=
                                                   ToggleCount(wasLiked, old(routines)[k].likesCount))]
                && reply == (if wasLiked then Unliked else Liked)
      ensures forall i :: 0 <= i < |routines| ==> routines[i].likesCount >= 0
    {
      match FindRoutine(routines, routineId)
      case None =>
        reply := RoutineNotFound;
      case Some(k) =>
        var wasLiked := (routineId, user) in likes;
        ToggleKeepsCounts(routines, likes, k, user);
        var r := routines[k].(likesCount := ToggleCount(wasLiked, routines[k].likesCount));
        likes := ToggleLike(likes, routineId, user);
        routines := routines[k := r];
        reply := if wasLiked then Unliked else Liked;
    }

    /** `share_routine`. `stepCount` is `int()` of the `step_count` field,
        `None` when it does not parse; `fields` holds the posted step fields
        by index. The routine row is written before `step_count` is parsed,
        so a bad count leaves a routine with no steps. */
    method ShareRoutine(user: nat, isPost: bool, form: RoutineForm, stepCount: Option<int>,
                        fields: map<int, StepForm>, catalogue: seq<Product>)
      returns (reply: RoutineReply)
      requires Valid()
      modifies this
      ensures Valid()
      ensures likes == old(likes)
      ensures !isPost ==> reply == ShareFormPage && routines == old(routines) && steps == old(steps)
                          && nextRoutineId == old(nextRoutineId) && nextStepId == old(nextStepId)
      ensures isPost && !RoutineComplete(form) ==>
                reply == ShareFailed && routines == old(routines) && steps == old(steps)
                && nextRoutineId == old(nextRoutineId) && nextStepId == old(nextStepId)
      ensures isPost && RoutineComplete(form) ==>
                routines == old(routines) + [NewRoutine(old(nextRoutineId), user, form)]
                && nextRoutineId == old(nextRoutineId) + 1
      ensures isPost && RoutineComplete(form) && stepCount.None? ==>
                reply == ShareFailed && steps == old(steps) && nextStepId == old(nextStepId)
      ensures isPost && RoutineComplete(form) && stepCount.Some? ==>
                var created := StepsUpTo(old(nextRoutineId), fields, catalogue, stepCount.value, old(nextStepId));
                reply == Shared && steps == old(steps) + created && nextStepId == old(nextStepId) + |created|
    {
      if !isPost {
        return ShareFormPage;
      }
      if !RoutineComplete(form) {
        return ShareFailed;
      }
      var rid := nextRoutineId;
      NewRoutineCounted(routines, likes, NewRoutine(rid, user, form));
      routines := routines + [NewRoutine(rid, user, form)];
      nextRoutineId := nextRoutineId + 1;
      if stepCount.None? {
        return ShareFailed;
      }
      AddSteps(rid, stepCount.value, fields, catalogue);
      StepsUpToSpec(rid, fields, catalogue, stepCount.value, old(nextStepId));
      reply := Shared;
    }

    /** The step loop of `share_routine`: for i in 1..n, a step numbered i
        is created when the name and instructions for i are both filled in;
        its product is set only when the posted id names a catalogue row */
    method AddSteps(rid: nat, n: int, fields: map<int, StepForm>, catalogue: seq<Product>)
      modifies this
      ensures routines == old(routines) && likes == old(likes) && nextRoutineId == old(nextRoutineId)
      ensures steps == old(steps) + StepsUpTo(rid, fields, catalogue, n, old(nextStepId))
      ensures nextStepId == old(nextStepId) + |StepsUpTo(rid, fields, catalogue, n, old(nextStepId))|
    {
      var firstId := nextStepId;
      var i := 1;
      while i <= n
        invariant 1 <= i <= (if n >= 0 then n + 1 else 1)
        invariant routines == old(routines) && likes == old(likes) && nextRoutineId == old(nextRoutineId)
        invariant steps == old(steps) + StepsUpTo(rid, fields, catalogue, i - 1, firstId)
        invariant nextStepId == firstId + |StepsUpTo(rid, fields, catalogue, i - 1, firstId)|
        decreases n - i
      {
        var f := StepFields(fields, i);
        if CreatesStep(f) {
          var step := RoutineStep(nextStepId, rid, i, f.name.value, f.instructions.value, None);
          if f.product != NoProduct {
            step := step.(product := StepProduct(f.product, catalogue));
          }
          steps := steps + [step];
          nextStepId := nextStepId + 1;
        }
        i := i + 1;
      }
      assert i - 1 == n || (n < 0 && i == 1);
    }
  }
}
