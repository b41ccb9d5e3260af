# Watch list reviews: admission, rating aggregation and access rules

This project models the domain logic of a small Django REST Framework catalog
API for streaming platforms, watch items (movies and shows) and user reviews.
Two pieces carry real rules, and both are modelled here:

- **Review creation** (`ReviewCreate.perform_create`) and the per-item review
  listing (`ReviewList.get_queryset`). A user may review a watch item at most
  once. A second submission fails with `ValidationError("Review already
  submitted!")` and changes nothing. An accepted review updates the item's
  derived fields by a fixed recurrence:
  - the first rating becomes `avg_rating`;
  - every later rating is averaged with the previous `avg_rating` (a halving
    mean, not the arithmetic mean);
  - `number_rating` goes up by one;
  - then the review is stored, tagged with the item and the user.
- **Access rules** (`IsAdminOrReadOnly.has_permission` and
  `ReviewUserorReadOnly.has_object_permission`). Both are pure predicates over
  the request method, the requesting user and, for the second, the review.
  The safe methods are `GET`, `HEAD` and `OPTIONS`.

Files and modules:

- `models.dfy`, module `Models`: the records. Items and users are identified
  by their primary keys. `WatchItem` holds `avgRating: real` and
  `numberRating: nat`. `Review` is tagged with `watchlist` (the item key) and
  `reviewUser`.
- `permissions.dfy`, module `Permissions`: the two access rules as functions,
  and lemmas about who is granted what.
- `ratings.dfy`, module `Ratings`: the recurrence `NextAverage`, and `Replay`,
  which folds it over a list of ratings in submission order. Lemmas cover
  bounds, order dependence and the difference from the arithmetic mean.
- `reviews.dfy`, module `Reviews`: the filter queries, the two store
  invariants and the class `Store`. `Store` holds a map of items and the
  sequence of reviews in save order. Its method `PerformCreate` changes them
  in place, like the view does. `TwoUsersScenario` is a client of `Store`: two
  users rate an item 8 and then 4 (the average becomes 8, then 6), and the
  first user's second attempt is turned away with nothing changed.

The store carries two invariants. `PerformCreate` does not require them,
because the view has no such precondition. Instead it promises to preserve
each one whenever it held before the call:

- `OneReviewPerUser`: at most one review per (item, user) pair.
- `AggregatesAgree`: every item's `numberRating` is the number of its reviews.
  Once an item is rated, its `avgRating` is `Replay` of its reviews' ratings
  in save order.

For any item whose fields agree with the reviews (which `AggregatesAgree`
requires of every item), `AverageWithinSubmittedRatings` shows that the
item's average lies between the lowest and the highest rating submitted to
it.

Facts about the code that shape the model:

- `ReviewDetail` (watchlist/views.py:88-94) declares no permission classes,
  and no other view uses either permission class. `ReviewUserorReadOnly` is
  nested inside `IsAdminOrReadOnly` (watchlist/permissions.py:26). The rules
  are modelled as standalone predicates, and nothing here claims that a view
  enforces them.
- `ReviewCreate` (watchlist/views.py:33-49) declares no permission classes.
  The model takes the requesting user as a user key.
- A missing watch item is not handled: `WatchList.objects.get` raises
  `DoesNotExist` (watchlist/views.py:66). The model returns a distinct
  `DoesNotExist` failure that changes nothing. It is not a handled "not found"
  response.
- `UnratedStoreAgrees` shows that a store of unrated items with no reviews
  meets both invariants. `Store.AveragesWithinSubmittedRatings` states the
  rating bound for the store's own state.

## Model

| member | source | states |
|---|---|---|
| `Permissions.IsAdminOrReadOnly` | watchlist/permissions.py:8-22 | A safe method (GET, HEAD, OPTIONS) is always granted, whoever the user is. Any other method is granted if and only if a user is present and is staff. |
| `Permissions.ReviewUserOrReadOnly` | watchlist/permissions.py:32-48 | A safe method is always granted on any review. Any other method is granted if and only if the requesting user is the review's `review_user`. |
| `Permissions.AdminRuleOnMutations` | watchlist/permissions.py:19-22 | On POST, PUT, PATCH and DELETE the admin rule grants exactly a present staff user; no user or a non-staff user is denied. |
| `Permissions.AdminRuleSeesOnlyStaffFlag` | watchlist/permissions.py:8-22 | The admin rule depends on the user only through `is_staff`: two users with the same flag get the same answer for every method. |
| `Permissions.OwnerRuleSeesOnlyIdentities` | watchlist/permissions.py:32-48 | The owner rule depends only on the method, the user's identity and the review's owner. The staff flag and the review's other fields make no difference. |
| `Permissions.OwnerRuleOnMutations` | watchlist/permissions.py:45-48 | On POST, PUT, PATCH and DELETE the owner rule grants exactly the review's author; a staff user who did not write the review is denied. |
| `Permissions.AnonymousGetsExactlySafeMethods` | watchlist/permissions.py:19-48 | With nobody logged in, each rule grants a method exactly when it is safe. |
| `Ratings.NextAverage` | watchlist/views.py:76-81 | For an unrated item the new average is the rating itself. Otherwise it is the midpoint of the old average and the rating, so it lies between the two. |
| `Ratings.Replay` | watchlist/views.py:76-81 | The average after any non-empty run of ratings lies between the lowest and the highest of them. |
| `Ratings.ReplaySnoc` | watchlist/views.py:76-81 | One more rating changes the replayed average by exactly one step of the recurrence, given the count so far. |
| `Ratings.LastRatingWeighsHalf` | watchlist/views.py:78-79 | Once an item has a rating, the newest rating always makes up half of the new average, however many ratings came before. |
| `Ratings.TwoReviewsScenario` | watchlist/views.py:76-81 | Ratings 8 then 4 give averages 8 and then 6. |
| `Ratings.EightFourSix` | watchlist/views.py:76-81 | Ratings 8, 4, 6, in that order, give an average of 6. |
| `Ratings.SixFourEight` | watchlist/views.py:76-81 | Ratings 6, 4, 8, in that order, give an average of 6.5. |
| `Ratings.OrderMatters` | watchlist/views.py:76-79 | The same three ratings in two orders give two different averages, so the result depends on submission order. |
| `Ratings.NotTheArithmeticMean` | watchlist/views.py:78-79 | Ratings 2, 4, 9 replay to 6, while their arithmetic mean is 5. |
| `Reviews.ReviewsFor` | watchlist/views.py:28-29 | Every review in the listing for `pk` is about `pk`, and the listing is no longer than the store. |
| `Reviews.ReviewsForExactly` | watchlist/views.py:28-29 | The listing for `pk` holds exactly the stored reviews whose item is `pk`, each as many times as it is stored. |
| `Reviews.ReviewsBy` | watchlist/views.py:70 | Every review the (item, user) query returns is by that user about that item. |
| `Reviews.ReviewsByExactly` | watchlist/views.py:70 | The (item, user) query holds exactly the stored reviews by that user about that item. |
| `Reviews.HasReviewed` | watchlist/views.py:70-72 | The admission test is true if and only if some stored review has that item and that user. |
| `Reviews.ReviewsForSnoc` | watchlist/views.py:85 | Saving a review appends it to its own item's listing and leaves every other item's listing unchanged. |
| `Reviews.AtMostOneReview` | watchlist/views.py:69-73 | While the one-review-per-(item, user) invariant holds, the (item, user) query returns at most one review. |
| `Reviews.AdmittedKeepsOneReviewPerUser` | watchlist/views.py:69-85 | Saving a review that passed the admission test keeps at most one review per (item, user). |
| `Reviews.RatedItemAgrees` | watchlist/views.py:76-85 | If an item's count and average agreed with its reviews, they still agree after rating the item by the recurrence and saving the review. |
| `Reviews.OtherItemAgrees` | watchlist/views.py:65-85 | An item the new review is not about still agrees with the reviews after the save. |
| `Reviews.RatingKeepsAggregatesAgreed` | watchlist/views.py:65-85 | Updating only the reviewed item and appending the review keeps every item's derived fields in agreement with the stored reviews. |
| `Reviews.AverageWithinSubmittedRatings` | watchlist/views.py:76-79 | While a rated item's fields agree with the stored reviews, its average is at least one submitted rating for that item and at most another, so it lies between the lowest and the highest. |
| `Reviews.CreationKeepsInvariants` | watchlist/views.py:69-85 | One accepted creation keeps both store invariants. The admission test passed, the reviewed item was rated by the recurrence, and the review was appended. |
| `Reviews.UnratedStoreAgrees` | watchlist/views.py:76-81 | A store whose items all have `number_rating` 0 and which holds no reviews meets both invariants, so they can be established. |
| `Reviews.Store.AveragesWithinSubmittedRatings` | watchlist/views.py:76-79 | In a store whose items agree with its reviews, every rated item's average lies between two ratings submitted to that item. |
| `Reviews.Store.PerformCreate` | watchlist/views.py:52-85 | A missing item raises and nothing changes. A repeat by the same user fails with "Review already submitted!" and nothing changes. Otherwise the review is created and the average follows the recurrence: the first rating becomes the average, and each later rating is averaged with the old average. The count rises by exactly one, the item's other fields and every other item stay the same, and the store gains exactly one review, tagged with the item and the user. Both invariants are preserved. |

## Left out

- HTTP dispatch, serializers, URL routing and admin registration. This covers
  `WatchListAV`, `WatchListDetailAV`, `StreamPlatformView`, `ReviewDetail` and
  all of `serializers.py`, `urls.py` and `admin.py`. They are generic CRUD
  dispatch handled by the framework.
- Direct writes to the rating aggregate. `WatchListSerializer` lists all
  fields (watchlist/serializers.py:37-38). Item create and update through it
  (watchlist/views.py:137-139, 183-186), and the admin site
  (watchlist/admin.py:6), can set `avg_rating` and `number_rating` to any
  value, unless `models.py` locks them, and `models.py` is not part of this
  model. Such a write can break `AggregatesAgree`, and might make the count
  negative, which `numberRating: nat` cannot express. This is why
  `PerformCreate` promises only to preserve each invariant when it held
  before the call.
- Persistence order and transactions. The view saves the item
  (watchlist/views.py:82) before saving the review (line 85), so a failed
  review insert would leave the rating already updated. The model makes the
  whole creation one atomic step.
- Concurrency. The read-check-write race that can admit two reviews by one
  user depends on database isolation, not on this code.
- Authentication, and how the framework invokes permission classes. Neither
  permission class is attached to a view.
- Review update and delete. They never recompute `avg_rating` or
  `number_rating`, and they are not modelled.
- Floating point. `avg_rating` is an exact `real`, so the halving mean is
  exact rather than rounded.
- Review field validation, timestamps, review and item primary keys
  assigned by the database, and field bounds. `models.py` is not part of this
  model. Ratings are modelled as integers with no range.
- Listing order. `Review.objects.filter` has no ordering, so the database
  fixes the order. `ReviewsFor` keeps save order, and `ReviewsForExactly`
  states the listing's contents as a multiset, which does not depend on order.
- Anonymous review submitters. No permission class guards `ReviewCreate`, so
  an unauthenticated request reaches `perform_create` with DRF's anonymous
  user. The query at watchlist/views.py:70 or the save at line 85 then fails,
  and the rating update at lines 76-82 may already have been saved. The
  model's `user: UserId` cannot express that input.
- Unauthenticated users in the access rules. When nobody is logged in, the framework supplies an
  anonymous user whose `is_staff` is false and who equals no stored user. The
  model writes this as `None`, which gives the same answers.
