/** The products app's tables: the catalogue, cart lines, reviews and their
    helpful marks, shared routines with their steps and likes, and
    reminders. Money is counted in integer paise (prices carry two decimal
    places); times of day in minutes. */
module ProductModels {
  import opened Optional
  import opened Sorting

  /** A catalogue row; `price` is in paise and may be NULL */
  datatype Product = Product(
    id: nat, name: string, brand: string, productType: string, skinType: string,
    description: string, price: Option<int>)

  /** `Product.__str__`: "<brand> - <name>" */
  function Label(p: Product): (s: string)
    ensures |s| == |p.brand| + 3 + |p.name|
    ensures s[..|p.brand|] == p.brand
    ensures s[|p.brand|..|p.brand| + 3] == " - "
    ensures s[|p.brand| + 3..] == p.name
  {
    p.brand + " - " + p.name
  }

  /** The catalogue row with primary key `id`, if any */
  function FindProduct(catalogue: seq<Product>, id: nat): (p: Option<Product>)
    ensures p.Some? ==> p.value in catalogue && p.value.id == id
    ensures p.None? <==> forall q :: q in catalogue ==> q.id != id
  {
    if catalogue == [] then None
    else if catalogue[0].id == id then Some(catalogue[0])
    else
      var p := FindProduct(catalogue[1..], id);
      assert forall q :: q in catalogue ==> q == catalogue[0] || q in catalogue[1..];
      p
  }

  /** A `CartItem` row. A user has at most one cart (the views always reach
      it through `get_or_create(user=...)`), so a line names its cart by the
      owning user. */
  datatype CartItem = CartItem(id: nat, owner: nat, product: Product, quantity: nat)

  /** `unique_together = ('cart', 'product')`, and primary keys are unique */
  ghost predicate UniqueLines(items: seq<CartItem>) {
    forall i, j :: 0 <= i < j < |items| ==>
      items[i].id != items[j].id
      && !(items[i].owner == items[j].owner && items[i].product.id == items[j].product.id)
  }

  /** The line of `user`'s cart for product `pid`, if there is one */
  function FindLine(items: seq<CartItem>, user: nat, pid: nat): (k: Option<nat>)
    ensures k.Some? ==> k.value < |items| && items[k.value].owner == user && items[k.value].product.id == pid
    ensures k.Some? ==> forall i :: 0 <= i < k.value ==> !(items[i].owner == user && items[i].product.id == pid)
    ensures k.None? ==> forall i :: 0 <= i < |items| ==> !(items[i].owner == user && items[i].product.id == pid)
  {
    if items == [] then None
    else if items[0].owner == user && items[0].product.id == pid then Some(0)
    else match FindLine(items[1..], user, pid)
      case None => None
      case Some(k) => Some(k + 1)
  }

  /** The line with primary key `id` in `user`'s cart, if there is one */
  function FindOwnedLine(items: seq<CartItem>, user: nat, id: nat): (k: Option<nat>)
    ensures k.Some? ==> k.value < |items| && items[k.value].owner == user && items[k.value].id == id
    ensures k.None? ==> forall i :: 0 <= i < |items| ==> !(items[i].owner == user && items[i].id == id)
  {
    if items == [] then None
    else if items[0].owner == user && items[0].id == id then Some(0)
    else match FindOwnedLine(items[1..], user, id)
      case None => None
      case Some(k) => Some(k + 1)
  }

  /** How many of product `pid` the user's cart holds (0 when no line) */
  function Quantity(items: seq<CartItem>, user: nat, pid: nat): nat {
    match FindLine(items, user, pid)
    case None => 0
    case Some(k) => items[k].quantity
  }

  /** `Cart.get_total_items`: the quantities of the cart's lines, summed */
  function TotalItems(items: seq<CartItem>, user: nat): (n: nat)
    ensures n == 0 <==> forall i :: 0 <= i < |items| && items[i].owner == user ==> items[i].quantity == 0
  {
    if items == [] then 0
    else (if items[0].owner == user then items[0].quantity else 0) + TotalItems(items[1..], user)
  }

  /** Lines of other carts do not count towards a cart's total. */
  lemma {:induction false} TotalItemsAppend(items: seq<CartItem>, line: CartItem, user: nat)
    ensures TotalItems(items + [line], user)
            == TotalItems(items, user) + (if line.owner == user then line.quantity else 0)
  {
    if items == [] {
      assert [line][1..] == [];
    } else {
      assert (items + [line])[1..] == items[1..] + [line];
      TotalItemsAppend(items[1..], line, user);
    }
  }

  /** Changing one line of the cart changes its total by the difference. */
  lemma {:induction false} TotalItemsUpdate(items: seq<CartItem>, k: nat, line: CartItem, user: nat)
    requires k < |items| && line.owner == items[k].owner
    ensures TotalItems(items[k := line], user) + (if line.owner == user then items[k].quantity else 0)
            == TotalItems(items, user) + (if line.owner == user then line.quantity else 0)
  {
    if k > 0 {
      assert items[k := line][1..] == items[1..][k - 1 := line];
      TotalItemsUpdate(items[1..], k - 1, line, user);
    }
  }

  /** Deleting one line of the cart lowers its total by that line's quantity. */
  lemma {:induction false} TotalItemsDelete(items: seq<CartItem>, k: nat, user: nat)
    requires k < |items|
    ensures TotalItems(items[..k] + items[k + 1..], user) + (if items[k].owner == user then items[k].quantity else 0)
            == TotalItems(items, user)
  {
    if k == 0 {
      assert items[..0] + items[1..] == items[1..];
    } else {
      assert (items[..k] + items[k + 1..])[1..] == items[1..][..k - 1] + items[1..][k..];
      TotalItemsDelete(items[1..], k - 1, user);
    }
  }

  /** The closed choice sets of the schema */
  const RatingChoices: set<int> := {1, 2, 3, 4, 5}
  const RoutineTypes: set<string> := {"morning", "night", "both"}
  const ReminderTypes: set<string> := {"morning", "evening", "both", "custom"}
  const Frequencies: set<string> := {"daily", "weekdays", "weekends", "custom"}

  /** A `ProductReview` row */
  datatype Review = Review(
    id: nat, product: nat, user: nat, rating: int, title: string, text: string,
    skinType: string, effectiveness: int, valueForMoney: int, usageDuration: string,
    wouldRecommend: bool, helpfulCount: int)

  /** The three 1..5 ratings are within their declared choices */
  predicate ValidRatings(r: Review) {
    r.rating in RatingChoices && r.effectiveness in RatingChoices && r.valueForMoney in RatingChoices
  }

  /** `unique_together = ('product', 'user')`, and primary keys are unique */
  ghost predicate UniqueReviews(reviews: seq<Review>) {
    forall i, j :: 0 <= i < j < |reviews| ==>
      reviews[i].id != reviews[j].id
      && !(reviews[i].product == reviews[j].product && reviews[i].user == reviews[j].user)
  }

  /** A `UserRoutine` row */
  datatype UserRoutine = UserRoutine(
    id: nat, user: nat, title: string, description: string, skinType: string,
    routineType: string, isPublic: bool, likesCount: int, viewsCount: int)

  /** A `RoutineStep` row; `product` is a nullable foreign key */
  datatype RoutineStep = RoutineStep(
    id: nat, routine: nat, number: int, name: string, instructions: string, product: Option<nat>)

  /** A `SkincareReminder` row; `time` in minutes after midnight */
  datatype Reminder = Reminder(
    id: nat, user: nat, title: string, reminderType: string, time: nat,
    frequency: string, isActive: bool, notes: string)

  function StepNumber(s: RoutineStep): int { s.number }

  function ReminderTime(r: Reminder): int { r.time }

  function StepsOfRoutine(steps: seq<RoutineStep>, routine: nat): (r: seq<RoutineStep>)
    ensures forall s :: s in r <==> s in steps && s.routine == routine
  {
    if steps == [] then []
    else (if steps[0].routine == routine then [steps[0]] else []) + StepsOfRoutine(steps[1..], routine)
  }

  function RemindersOfUser(reminders: seq<Reminder>, user: nat): (r: seq<Reminder>)
    ensures forall m :: m in r <==> m in reminders && m.user == user
  {
    if reminders == [] then []
    else (if reminders[0].user == user then [reminders[0]] else []) + RemindersOfUser(reminders[1..], user)
  }

  /** `routine.steps.all()` under `Meta.ordering = ['step_number']` */
  function OrderedSteps(steps: seq<RoutineStep>, routine: nat): seq<RoutineStep> {
    SortBy(StepsOfRoutine(steps, routine), StepNumber)
  }

  /** The reminders of a user under `Meta.ordering = ['time']` */
  function OrderedReminders(reminders: seq<Reminder>, user: nat): seq<Reminder> {
    SortBy(RemindersOfUser(reminders, user), ReminderTime)
  }

  /** A routine's steps come back exactly, in step-number order. */
  lemma StepsInOrder(steps: seq<RoutineStep>, routine: nat)
    ensures Sorted(OrderedSteps(steps, routine), StepNumber)
    ensures forall s :: s in OrderedSteps(steps, routine) <==> s in steps && s.routine == routine
  {
    SortBySorted(StepsOfRoutine(steps, routine), StepNumber);
    forall s ensures s in OrderedSteps(steps, routine) <==> s in StepsOfRoutine(steps, routine) {
      SortByMember(StepsOfRoutine(steps, routine), StepNumber, s);
    }
  }

  /** A user's reminders come back exactly, earliest time of day first. */
  lemma RemindersInOrder(reminders: seq<Reminder>, user: nat)
    ensures Sorted(OrderedReminders(reminders, user), ReminderTime)
    ensures forall m :: m in OrderedReminders(reminders, user) <==> m in reminders && m.user == user
  {
    SortBySorted(RemindersOfUser(reminders, user), ReminderTime);
    forall m ensures m in OrderedReminders(reminders, user) <==> m in RemindersOfUser(reminders, user) {
      SortByMember(RemindersOfUser(reminders, user), ReminderTime, m);
    }
  }
}
