# SkinSense core, modelled in Dafny

SkinSense is a Django skincare shop with a community section. This project
models the parts of it that carry real logic:

- **Quiz.** `start_quiz` and `quiz_question` keep a table of answers, one per
  user and question. `quiz_result` takes a plurality vote over the skin-type
  tags of the chosen options. `generate_routine` then builds a five-step
  morning routine and a five-step night routine from the products of that
  skin type.
- **Progress chart.** The chart series of `track_progress`, and
  `SkinProgress.overall_condition`.
- **Cart and checkout.** The cart views (`add_to_cart`, `update_cart`,
  `clear_cart`), the totals of `checkout` in exact paise, and the demo/real
  routing of `process_payment`.
- **Community.** `add_review` and `mark_helpful` on reviews; `share_routine`,
  `view_routine` and `like_routine` on shared routines; `toggle_reminder`.
- **Dashboard.** The skin-type analytics of `admin_dashboard`.

Tables become sequences of rows (or sets of pairs, for the mark and like
tables). Where a view changes rows in place, the tables are fields of a class
(`QuizSession.QuizStore`, `CartViews.Shop`, `Community.ReviewBoard`,
`Community.RoutineBoard`, `Reminders.ReminderBook`). Each method's
postcondition names the new state as a function of the old one. The
properties are proved about those functions. Each class's `Valid()` holds the
schema's uniqueness constraints and the counters it keeps in step with their
tables. The read-only views and the models are plain functions and lemmas.

Modelling choices:

- **Money** is counted in integer paise, because prices are `Decimal` with two
  places. The 18% tax is exact in hundredths of a paisa.
- **`.first()`** on an unordered queryset picks the lowest primary key. So the
  product a routine step gets is the lowest-id match.
- **Answer order.** `UserAnswer` declares no ordering, so the answer sequence
  is taken in whatever order the table yields it. That order decides a tie in
  the vote.
- **`Counter.most_common`** is a stable sort by count, applied to the keys in
  order of first occurrence. A tie between tags goes to the tag that occurs
  first.
- **Carts.** `Cart.user` is a plain foreign key, but every view looks the
  cart up by its user: `get_or_create(user=...)`, `filter(user=...).first()`,
  `get_object_or_404(Cart, user=...)` or a join through `cart__user`. So a
  user is modelled with at most one cart, and a cart line names its cart by
  the owning user.
- **Outside calls become parameters.** The payment gateway's replies are
  parameters: `GatewayReply` for order creation, `signatureValid` for
  signature verification. So are the posted form fields. A missing field
  without a default, or a number that `int()` cannot parse, is `None`;
  `step_count` defaults to 0 and the payment ids to the empty string.

- **No answers.** With no answers, `quiz_result` does not raise an error. It
  redirects to the start of the quiz (`QuizViews.QuizResult`).
- **Which product is "first".** The first matching product is the one with the
  lowest primary key, which is what `.first()` does on an unordered queryset.
- **`Product` has no purchase link.** `Product` (products/models.py:4-14)
  declares no link field, so the model has none. The `products_without_link`
  filter of `admin_dashboard` names a column that does not exist (see
  "Dashboard as written" under "## Left out").

## Model

| member | source | states |
|---|---|---|
| Tally.PluralityIsFirstMaximum | quiz/views.py:74-75 | `most_common(1)[0][0]` is a tag of the list. No tag occurs more often. Among tags with the same count, it is the one whose first occurrence comes earliest. |
| Tally.CounterTotal | skinsense/views.py:49 | The counts of a `Counter` add up to the length of the list counted. |
| Tally.MostCommonExact | skinsense/views.py:49-52 | Every `most_common()` row is a key of the list with its exact number of occurrences. |
| Tally.MostCommonComplete | skinsense/views.py:49-52 | Every element of the list has a `most_common()` row. |
| Tally.MostCommonKeysDistinct | skinsense/views.py:49-52 | No key has two `most_common()` rows. |
| Tally.MostCommonDescending | skinsense/views.py:52 | `most_common()` rows come in non-increasing count order. |
| Tally.MostCommonTies | skinsense/views.py:52 | Rows with equal counts keep the order of their keys' first occurrence (the sort is stable). |
| Tally.MostCommonTotal | skinsense/views.py:49-52 | The counts of `most_common()` add up to the length of the list. |
| Tally.MostCommonEmpty | skinsense/views.py:49-52 | `most_common()` is empty exactly when the list is. |
| Tally.MostCommonN | skinsense/views.py:56 | `most_common(n)` is a prefix of `most_common()` with at most n rows; it has exactly n rows unless it is the whole of `most_common()`. |
| Tally.MostCommonNTop | skinsense/views.py:56 | An element left out of `most_common(n)` occurs no more often than any row kept. |
| Text.IContainsOccurs | quiz/views.py:94-101 | `icontains` holds exactly when the lower-cased keyword occurs in the lower-cased product type. |
| Text.TitleInjective | skinsense/views.py:51 | Two tags without upper-case letters that `title()` maps to the same label are equal. |
| Text.NatToStringValue | products/views.py:118 | The decimal digits written for a user id read back as that id. |
| ProductModels.Label | products/models.py:13-14 | A product's string form is its brand, then " - ", then its name. |
| ProductModels.FindProduct | products/views.py:34 | `get_object_or_404(Product, id=...)` finds a catalogue row with that id. It finds none exactly when no row has the id. |
| ProductModels.FindLine | products/views.py:38-42 | The line found is the user's line for the product, and no earlier line is. None means the user's cart has no line for it. |
| ProductModels.FindOwnedLine | products/views.py:69 | The line found has the given id and belongs to the user's cart. None means there is no such line. |
| ProductModels.TotalItems | products/models.py:68-69 | `get_total_items` is 0 exactly when every line of the cart has quantity 0, so an empty cart counts 0. |
| ProductModels.TotalItemsAppend | products/models.py:68-69 | A new line adds its quantity to its own cart's total and nothing to other carts. |
| ProductModels.TotalItemsUpdate | products/models.py:68-69 | Changing one line's quantity changes its cart's total by the difference. |
| ProductModels.TotalItemsDelete | products/models.py:68-69 | Deleting a line lowers its cart's total by that line's quantity. |
| ProductModels.StepsInOrder | products/models.py:168-169 | A routine's steps come back sorted by `step_number`: exactly its own steps, no others. |
| ProductModels.RemindersInOrder | products/models.py:53-54 | A user's reminders come back sorted by time: exactly that user's reminders. |
| QuizModels.RoundHalfEven | quiz/models.py:85 | Python's `round`: the result is within half a unit of the exact quotient. An exact half goes to the even neighbour. |
| QuizModels.OverallCondition | quiz/models.py:82-85 | `overall_condition`, in tenths, is within half a tenth of the exact mean of the four metrics. |
| QuizModels.OverallConditionOnScale | quiz/models.py:48-85 | With each metric in its 1..10 choices, `overall_condition` lies in 1.0..10.0. |
| QuizModels.OverallConditionTies | quiz/models.py:85 | Means of 2.25 and 2.75 round to the even tenths 2.2 and 2.8. A mean of 2.5 is kept as it is. |
| QuizSession.RemoveUser | quiz/views.py:15 | Deleting a user's answers keeps exactly the other users' answers. |
| QuizSession.RemoveUserUnique | quiz/views.py:15 | Deleting answers keeps them at one per user and question. |
| QuizSession.FindAnswer | quiz/views.py:42-46 | The lookup of `update_or_create` finds the first answer of the user to the question, or reports that there is none. |
| QuizSession.UpsertSpec | quiz/views.py:42-46 | After `update_or_create` the user's answer to the question is exactly the new one. Every other answer is kept, nothing else is added, and answers stay one per user and question. |
| QuizSession.UpsertLastWins | quiz/views.py:42-46 | Answering the same question twice leaves the table as if only the second answer had been given. |
| QuizSession.NextQuestion | quiz/views.py:49-53 | The next question has the smallest id above the current one. There is none exactly when no id is higher. |
| QuizSession.IndexOf | quiz/views.py:33-35 | The position of the question among the id-ordered questions. |
| QuizSession.NextQuestionWalk | quiz/views.py:49-53 | Answering in turn visits the questions in id order, one after another, and goes to the result after the last one. |
| QuizSession.QuestionNumberInRange | quiz/views.py:33-35 | The "question n of total" number lies in 1..total. Exactly n - 1 questions have a lower id. |
| QuizSession.QuizStore.StartQuiz | quiz/views.py:12-23 | Deletes exactly the user's answers, and keeps every other answer one per user and question. Goes to the lowest-id question, or to the dashboard when there are none. |
| QuizSession.QuizStore.AnswerQuestion | quiz/views.py:25-62 | An unknown question goes to the result page. A GET, or a POST without an option, changes nothing and shows question n of total, with a warning after a POST. A POST with an unknown option id fails. A POST with a known option upserts the answer and goes to the next question by id, or to the result. |
| QuizViews.KindOfDeclared | quiz/views.py:104-130 | The tips table has an entry for exactly the five declared skin types. |
| QuizViews.PickLowest | quiz/views.py:94-101 | `.filter(product_type__icontains=k).first()` returns a matching product of the list with the lowest id among all matches. It returns none exactly when nothing matches. |
| QuizViews.GenerateRoutine | quiz/views.py:90-245 | For any product list, both routines have exactly five steps, numbered 1..5. Both carry the same tips: those of the skin type, or none for a type the table lacks. |
| QuizViews.StepPick | quiz/views.py:133-240 | Step i of each routine carries the pick for its category's keyword, or else for its fallback keyword. |
| QuizViews.StepProductChoice | quiz/views.py:94-101 | Each step carries the lowest-id product matching its keyword. Only when nothing matches does the moisturizer step fall back to "Cream" and the sunscreen step to "SPF". With no match at all, the step has no product. |
| QuizViews.SharedSteps | quiz/views.py:133-240 | Morning and night share the cleanser, toner, serum and moisturizer products. Step 5 is the sunscreen in the morning and the mask at night. |
| QuizViews.EmptyCatalogue | quiz/views.py:133-240 | An empty catalogue gives two five-step routines with no product in any step. |
| QuizViews.UnknownSkinType | quiz/views.py:104-185 | An undeclared skin type gives both routines empty tips. The serum tip is then the generic one. |
| QuizViews.GenericSerumTip | quiz/views.py:163 | Without tips the serum step reads "Focus on beneficial ingredients.". |
| QuizViews.CaseInsensitiveMatch | quiz/views.py:94-101 | A product typed "CLEANSER" fills the cleanser step. |
| QuizViews.AnswersOf | quiz/views.py:67 | The user's answers are exactly the table's answers by that user. |
| QuizViews.TagsOf | quiz/views.py:74 | One tag per answer, in answer order: that answer's option tag. |
| QuizViews.ProductsFor | quiz/views.py:78 | The products offered are exactly the catalogue rows of the chosen skin type. |
| QuizViews.QuizResult | quiz/views.py:64-88 | Redirects to the quiz start exactly when the user has no answers. Otherwise it shows exactly the products of the chosen skin type. |
| QuizViews.QuizResultIsPlurality | quiz/views.py:74-75 | When the user has answered, the result is a tag of their answers that no other tag outnumbers. A tie goes to the tag answered first. |
| QuizViews.QuizResultIsSkinTag | quiz/views.py:74-75 | When the user has answered and every chosen option carries a declared tag, the result is one of the five skin types. |
| QuizViews.PluralityMajority | quiz/views.py:74-75 | [dry, dry, oily] classifies as dry. |
| QuizViews.PluralityTie | quiz/views.py:74-75 | A 1-1 tie [oily, dry] goes to oily, the tag answered first. |
| QuizViews.RecentEntriesNewestFirst | quiz/views.py:270 | The progress page lists the user's 30 newest entries, or all of them when there are fewer: exactly min(30, n) entries, all the user's own, newest first. |
| QuizViews.RecentEntriesAreNewest | quiz/views.py:270 | An entry of the user that the page leaves out is dated no later than any entry it shows. |
| QuizViews.ChartData | quiz/views.py:283-290 | The seven chart series all have one point per entry. They hold the entries in reverse order, so oldest first when the entries are newest first. Each point's overall value is that entry's `overall_condition`. |
| Checkout.SubtotalSkipsOnlyNothing | products/views.py:112 | Skipping lines whose price is zero or NULL leaves the subtotal equal to the sum of price times quantity over every priced line. |
| Checkout.SubtotalNonNegative | products/views.py:112 | With no negative price the subtotal is not negative. |
| Checkout.SubtotalOwnLines | products/views.py:112 | Lines of other users' carts add nothing to the subtotal. |
| Checkout.TruncHundredths | products/views.py:131 | `int()` of an amount in hundredths truncates toward zero. |
| Checkout.TotalsFor | products/views.py:112-131 | The tax is exactly 18% of the subtotal, and the total is the subtotal plus the tax. The amount in paise is the total truncated toward zero. |
| Checkout.AmountIsFloorOfTotal | products/views.py:131 | For a non-negative subtotal, the amount charged is `subtotal * 118 / 100` with integer division. It is never below the subtotal. |
| Checkout.AmountExamples | products/views.py:131 | Rs 999.99 is charged as 117998 paise. A negative subtotal of 1 paisa gives -1. |
| Checkout.DemoOrderId | products/views.py:118 | The demo order id starts with "demo_order_". |
| Checkout.DemoOrderIdInjective | products/views.py:118 | Different users get different demo order ids. |
| Checkout.PlaceholderKeyIsDemo | products/views.py:121-124 | A key containing "your_key", in any letter case, keeps the gateway off. |
| Checkout.CheckoutPageFor | products/views.py:101-164 | A cart without lines shows the empty-cart warning, and only such a cart does. Otherwise the page carries the cart's subtotal. Demo mode holds exactly when the keys are not configured or the gateway gave no order. It then shows the demo order id and "demo_key"; outside demo mode it shows the gateway's order id and the configured key. |
| Checkout.DemoOrderIsDemoPayment | products/views.py:118-182 | A demo order id always takes the demo branch of `process_payment`, whatever the payment id. |
| Checkout.GatewayIdsAreNotDemo | products/views.py:175 | Ids in the gateway's own format ("order_...", "pay_...") never take the demo branch. |
| Checkout.DemoSuccessId | products/views.py:182 | The success page shows the payment id, or the order id when the payment id is empty. |
| Checkout.DemoOrderIdRoutable | products/urls.py:12 | A demo order id as checkout hands it out fits the success page's `<str:order_id>` segment: it is not empty and holds no '/'. |
| Checkout.SlashIsNotRoutable | products/urls.py:12 | A payment id containing '/' never fits the success page's route, whatever the order id. |
| CartViews.QuantityReplace | products/models.py:81-82 | Rewriting a line with its own key, cart and product keeps lines unique per cart and product. Only that product's quantity changes. |
| CartViews.QuantityDelete | products/models.py:81-82 | Deleting a line keeps lines unique. That product's quantity drops to 0 and every other quantity stays. |
| CartViews.QuantityAppend | products/models.py:81-82 | A new line for a product the cart lacks, under a fresh key, keeps lines unique. Only that product's quantity is set. |
| CartViews.AddLineSpec | products/views.py:38-47 | Adding a product raises its quantity by 1, and the cart's item count by 1. No other cart or product changes, and lines stay unique. A line of quantity 1 appears exactly when the cart had none for the product. |
| CartViews.ActionOf | products/views.py:71-88 | Only a POST with "increase", "decrease" or "remove" acts; any other request or action does nothing. |
| CartViews.QuantityAfter | products/views.py:74-88 | "increase" adds 1. "decrease" subtracts 1 above quantity 1 and deletes otherwise. "remove" deletes. No action keeps the quantity. |
| CartViews.ApplyActionSpec | products/views.py:69-90 | The acted-on product's quantity, and its cart's item count, move to the new quantity. The line is deleted exactly when the action deletes. Other products and carts are untouched, and lines stay unique. |
| CartViews.ApplyActionLines | products/views.py:69-90 | No line gains a key or owner that was not already in the table. |
| CartViews.RemoveOwner | products/views.py:96 | Clearing keeps exactly the lines of other carts. |
| CartViews.RemoveOwnerUnique | products/views.py:96 | Clearing keeps lines unique. |
| CartViews.RemoveOwnerTotals | products/views.py:96 | A cleared cart counts 0 items, and every other cart's count is unchanged. |
| CartViews.RemoveOwnerEmpties | products/views.py:96 | A cleared cart has no lines. |
| CartViews.Shop.AddToCart | products/views.py:32-53 | An unknown product is a 404 and changes nothing. Otherwise the user's cart exists afterwards and the lines are `AddLine` of the old ones. The reply is "added" exactly when the line is new, else "updated quantity". A new key is used only for a new line. |
| CartViews.Shop.UpdateCart | products/views.py:67-90 | A line not in the user's cart is a 404 and changes nothing. Otherwise the posted action is applied to that line and the view goes back to the cart. |
| CartViews.Shop.ClearCart | products/views.py:93-98 | A user without a cart gets a 404. Otherwise exactly that cart's lines are deleted. |
| CartViews.Shop.ShowCheckout | products/views.py:101-164 | The cart is created if missing and no line changes. The page is `CheckoutPageFor` the user's lines. |
| CartViews.Shop.ProcessPayment | products/views.py:167-216 | A non-POST goes back to checkout. A demo id empties the cart, if there is one, without any signature check; it then reaches the success page when the shown id fits the route (products/urls.py:12), and otherwise the unhandled `NoReverseMatch` is a server error with the cart already emptied. A real payment empties the cart only with a valid signature and an existing cart; it then reaches the success page when the payment id fits the route, and otherwise the caught `NoReverseMatch` sends it back to checkout. Without a valid signature or a cart it goes back to checkout and nothing changes. |
| CartViews.PaidCartIsEmpty | products/views.py:93-109 | After a cart is cleared or paid for, checkout shows the empty-cart warning. |
| Community.UsersOfAdd | products/models.py:175-182 | Storing a new (row, user) mark adds exactly that user to the row's marks and no other row's. |
| Community.UsersOfRemove | products/models.py:185-192 | Deleting a (row, user) like removes exactly that user from the row's likes and no other row's. |
| Community.UsersOfFresh | products/models.py:185-192 | A row that no pair refers to has no marks or likes. |
| Community.FindReview | products/views.py:266 | Finds the user's review of the product, or reports that there is none. |
| Community.FindReviewById | products/views.py:301 | Finds the review with that key, or reports that there is none. |
| Community.ExistingReview | products/views.py:266 | `existing_review` is the user's review of the product. It is None exactly when there is no such review. |
| Community.NewReview | products/views.py:273-285 | The created review belongs to the product and user, carries the posted ratings and starts with no helpful marks. |
| Community.ReviewBoard.AddReview | products/views.py:260-295 | An unknown product is a 404. A GET shows the form with the user's earlier review. A repeated review is refused and nothing is written. A form `create` rejects writes nothing and shows the form again. Otherwise exactly one review is appended under a fresh key. Helpful marks never change, and reviews stay one per product and user. |
| Community.ReviewBoard.MarkHelpful | products/views.py:298-315 | An unknown review is a 404. A user's first mark is stored and raises `helpful_count` by 1. A repeat changes nothing. Every `helpful_count` stays equal to its number of marks. The new reviews and marks are `Mark` of the old ones. |
| Community.Mark | products/views.py:298-315 | One `mark_helpful` keeps every review and its key; afterwards the user's mark on the review is stored exactly when the review exists or the mark was already there. |
| Community.MarkTwice | products/views.py:298-315 | Two `mark_helpful` calls with the same review and user leave the reviews, every `helpful_count` and the marks exactly as one call does. |
| Community.ReviewsKeepUnique | products/models.py:110 | Rewriting a review in place keeps reviews one per product and user. |
| Community.FindRoutine | products/views.py:366 | Finds the routine with that key, or reports that there is none. |
| Community.ToggleLike | products/views.py:390-400 | The like exists afterwards exactly when it did not before. No other like changes. |
| Community.ToggleCount | products/views.py:395-401 | A like adds 1. An unlike subtracts 1 from a count of at least 1, and sets a count of 1 or less to exactly 0 (`max(0, likes_count - 1)`). |
| Community.LikeCountNonNegative | products/views.py:395-401 | A count that starts non-negative stays non-negative. |
| Community.LikeUnlikeRestores | products/views.py:390-403 | Liking then unliking restores the like table and the count. Unliking then liking a positive count does too. |
| Community.NewRoutine | products/views.py:323-330 | The created routine belongs to the user, with no likes and no views. |
| Community.StepProduct | products/views.py:346-352 | A step gets a product only when the posted value is the id of a catalogue row. Any other value is ignored. |
| Community.StepsUpToSpec | products/views.py:333-352 | Every created step belongs to the routine and is numbered by its index i in 1..n. It carries the posted name and instructions, both non-empty, and the posted product when it exists. Numbers strictly increase, and every index with both fields filled gets a step. |
| Community.StepsOnlyWhenFilled | products/views.py:339 | No index without both a name and instructions gets a step. |
| Community.ToggleKeepsCounts | products/views.py:390-403 | Toggling a like together with its routine's count keeps every count equal to its number of likes. |
| Community.NewRoutineCounted | products/views.py:323-330 | A new routine with no likes keeps every count equal to its number of likes. |
| Community.RoutineBoard.ViewRoutine | products/views.py:363-382 | An unknown routine is a 404. Otherwise its view count rises by 1 and nothing else changes. The page shows the routine's steps in step-number order and whether the user likes it. |
| Community.RoutineBoard.LikeRoutine | products/views.py:385-405 | An unknown routine is a 404. Otherwise the like is toggled and the count moves with it. Every count stays non-negative and equal to its number of likes. |
| Community.RoutineBoard.ShareRoutine | products/views.py:318-360 | A GET shows the form. A form `create` rejects writes nothing. Otherwise the routine is stored first. An unparsable step count then fails and leaves it with no steps. A parsable one appends exactly the steps `StepsUpTo` describes. |
| Community.RoutineBoard.AddSteps | products/views.py:333-352 | The step loop appends exactly `StepsUpTo` of the posted fields, under consecutive fresh keys. |
| Dashboard.Shares | skinsense/views.py:50-53 | One row per counter item, with the item's count and its tag's `title()`. |
| Dashboard.SharesSum | skinsense/views.py:50-53 | The rows carry the counter's counts unchanged. |
| Dashboard.DistributionCounts | skinsense/views.py:47-53 | Each row is a chosen tag with the exact number of answers that chose it. Every chosen tag has a row. |
| Dashboard.DistributionTotal | skinsense/views.py:47-53 | The distribution's counts add up to the number of answers. |
| Dashboard.DistributionDescending | skinsense/views.py:50-52 | Rows come in non-increasing count order. |
| Dashboard.DistributionEmpty | skinsense/views.py:47-53 | The distribution is empty exactly when there are no answers. |
| Dashboard.SkinTagsLowerCase | quiz/models.py:13-22 | The declared skin-type choices have no upper-case letter. |
| Dashboard.DistributionLabelsDistinct | skinsense/views.py:50-53 | With tags as declared, each label appears once. |
| Dashboard.TopSkinTypes | skinsense/views.py:56 | The keys of the first rows of the distribution, in its order: three of them, or all when there are fewer. |
| Dashboard.TopSkinTypesAreMostCommon | skinsense/views.py:56 | A tag left out of the top three was chosen no more often than any tag kept. |
| Dashboard.QuizTakers | skinsense/views.py:82 | Exactly the users with at least one answer. |
| Dashboard.TotalQuizzesBound | skinsense/views.py:43 | `total_quizzes` never exceeds the number of answers, and is at least 1 when there is an answer. |
| Dashboard.CartUsers | skinsense/views.py:83 | Exactly the users whose cart has a line. |
| Dashboard.Rate | skinsense/views.py:84-85 | A rate is 0 with no users, and lies in 0..100 when the part does not exceed the total. |
| Dashboard.EngagementWithoutUsers | skinsense/views.py:84-85 | With no users both rates are 0. |
| Dashboard.EngagementRatesBounded | skinsense/views.py:82-85 | When every answer and cart line belongs to a known user, both rates lie in 0..100. |
| Reminders.FindOwnedReminder | products/views.py:476 | Finds the user's own reminder with that key, or reports that there is none. |
| Reminders.Flipped | products/views.py:477 | Only that reminder's `is_active` flips; every other field and reminder is kept. |
| Reminders.FlipTwice | products/views.py:477 | Toggling twice restores the reminders. |
| Reminders.ReminderBook.Toggle | products/views.py:473-482 | Another user's or a missing reminder is a 404 and nothing changes. Otherwise `is_active` flips. The status reads "activated" exactly when the reminder was inactive. |

## Left out

- **Payment gateway.** The Razorpay client's order creation and signature verification (products/views.py:126-150, 184-214) are network calls. Their outcomes are the parameters `reply` and `signatureValid`. The amount and currency sent to the gateway are not modelled.
- **Anonymous callers.** `process_payment` is not login-protected. An anonymous POST is not modelled; every caller is a user id.
- **Rendering.** Templates, flash messages and redirect targets become reply values. The wording of the messages is not modelled.
- **Float statistics.** The averages, compliance and trend of `track_progress` (quiz/views.py:292-306) and `progress_percentage` (quiz/views.py:36) use float division. They are not modelled.
- **Saving a progress entry.** The POST branch of `track_progress` (quiz/views.py:251-267) is not modelled; entries are an input.
- Dashboard.Rate: the rate is the exact percentage. Python's `round(..., 1)` on a float is not modelled. The float percentage of each distribution row (skinsense/views.py:51) is left out as well.
- **Dashboard aggregations.** The other `admin_dashboard` aggregations (skinsense/views.py:41-42, 44, 57-79, 88-94) are database counts, annotations and orderings; line 43, the number of users who took the quiz, is modelled by `Dashboard.TotalQuizzes`. `products_without_link` filters on a `link` column that `Product` (products/models.py:4-14) does not declare.
- **Dashboard as written.** Because `Product` has no `link` field, `Product.objects.filter(Q(link='') | Q(link__isnull=True))` at skinsense/views.py:94 raises `FieldError` when the filter is built, so `admin_dashboard` as written answers every request with a server error and none of its figures reaches a page. The other scripts of the repository (check_links.py:12, update_missing_links.py:19) use `link`, so the field was evidently meant to exist. `Dashboard` models the values that lines 41-85 compute before line 94, as they would be shown if the field existed; the failing request itself is not modelled.
- **Dates.** Dates are day numbers; `strftime` labels in the chart are not modelled (`ChartData` keeps the day number). Reminder times are minutes after midnight.
- **Other views.** The remaining views are not modelled: reminder creation, editing, deletion and listing, `community_hub`, `product_list`, `view_cart`, `payment_success`, `dashboard` and the accounts views. They only read or write whole rows.
- **Management commands and scripts.** These seed or inspect data and are not part of this model.
- **Decimal limits.** `max_digits`/`decimal_places` limits and string lengths (`max_length`) are not enforced. Prices are unbounded integers of paise.
- **Case folding.** `icontains`, `lower()` and `title()` are modelled over ASCII letters only. Database collation and Unicode case rules are not.
- **Failed writes.** Only a missing (`None`) NOT NULL field or an unparsable number counts as a failed `create`. Other database errors, and exceptions beyond those the views catch, are not modelled.
- **Unparsable ids.** A non-numeric `option` value makes `update_or_create` in `quiz_question` raise, as an unknown id does. The model takes option ids as numbers, so it does not model that case.
- **Unchecked options.** `quiz_question` accepts any existing option id, even one belonging to another question. The model does the same and does not check it either.
- **Weekday flags.** The seven weekday flags of `SkincareReminder` are not modelled.
- **Choice sets.** The declared choices (ratings 1..5, skin-type tags, progress ratings 1..10, routine and reminder types) are predicates (`ValidRatings`, `ValidOption`, `ValidProgress`). The views do not enforce them, since Django checks choices only in forms.
- **Multiple carts.** `Cart.user` is a foreign key, so the database could hold several carts per user. The model assumes the one cart per user that `get_or_create(user=...)` maintains.
- **Step products.** A step's product is set when the step is created, not by a second `save()`. The resulting row is the same.
- **Likes on routine view.** `view_routine` reports `user_liked` only for a logged-in user; every caller is logged in here.
- **Question and option rows.** Only question ids and option rows by id are modelled; their text is not.
