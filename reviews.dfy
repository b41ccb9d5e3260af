/**
 Review admission and rating aggregation. The store holds the watch items by
 key and the reviews in the order they were saved. Creating a review first
 looks up the item, then refuses a second review by the same user for the
 same item, and otherwise updates the item's derived rating fields and saves
 the new review.
 */
module Reviews {
  import opened Models
  import opened Ratings

  const AlreadySubmitted: string := "Review already submitted!"

  /** Why a review was not created. */
  datatype Failure =
    | DoesNotExist                      // no watch item with that key: the lookup raises
    | ValidationError(detail: string)   // the user already reviewed the item

  datatype Outcome = Created(review: Review) | Rejected(failure: Failure)

  /** The reviews of one watch item, in store order (`Review.objects.filter(watchlist=pk)`). */
  function ReviewsFor(reviews: seq<Review>, pk: ItemId): (found: seq<Review>)
    ensures |found| <= |reviews|
    ensures forall i :: 0 <= i < |found| ==> found[i].watchlist == pk
  {
    var n := |reviews|;
    if n == 0 then []
    else ReviewsFor(reviews[..n - 1], pk) + (if reviews[n - 1].watchlist == pk then [reviews[n - 1]] else [])
  }

  /** The reviews one user wrote for one watch item (`filter(watchlist=..., review_user=...)`). */
  function ReviewsBy(reviews: seq<Review>, pk: ItemId, user: UserId): (found: seq<Review>)
    ensures |found| <= |reviews|
    ensures forall i :: 0 <= i < |found| ==> found[i].watchlist == pk && found[i].reviewUser == user
  {
    var n := |reviews|;
    if n == 0 then []
    else
      var last := reviews[n - 1];
      ReviewsBy(reviews[..n - 1], pk, user) + (if last.watchlist == pk && last.reviewUser == user then [last] else [])
  }

  /**
   The listing for item `pk` holds exactly the stored reviews of `pk`, each as
   many times as it is stored, and nothing else.
   */
  lemma {:induction false} ReviewsForExactly(reviews: seq<Review>, pk: ItemId)
    ensures forall r :: multiset(ReviewsFor(reviews, pk))[r] == if r.watchlist == pk then multiset(reviews)[r] else 0
  {
    var n := |reviews|;
    if n > 0 {
      var prefix, last := reviews[..n - 1], reviews[n - 1];
      ReviewsForExactly(prefix, pk);
      assert reviews == prefix + [last];
      assert multiset(reviews) == multiset(prefix) + multiset{last};
    }
  }

  /** The (item, user) query holds exactly the stored reviews by `user` of `pk`. */
  lemma {:induction false} ReviewsByExactly(reviews: seq<Review>, pk: ItemId, user: UserId)
    ensures forall r :: multiset(ReviewsBy(reviews, pk, user))[r] ==
                        if r.watchlist == pk && r.reviewUser == user then multiset(reviews)[r] else 0
  {
    var n := |reviews|;
    if n > 0 {
      var prefix, last := reviews[..n - 1], reviews[n - 1];
      ReviewsByExactly(prefix, pk, user);
      assert reviews == prefix + [last];
      assert multiset(reviews) == multiset(prefix) + multiset{last};
    }
  }

  /** The admission test: does the user already have a review of the item? */
  function HasReviewed(reviews: seq<Review>, pk: ItemId, user: UserId): (reviewed: bool)
    ensures reviewed <==> exists i :: 0 <= i < |reviews| && reviews[i].watchlist == pk && reviews[i].reviewUser == user
  {
    var found := ReviewsBy(reviews, pk, user);
    ReviewsByExactly(reviews, pk, user);
    if found != [] then
      assert multiset(found)[found[0]] > 0;
      true
    else
      assert forall i :: 0 <= i < |reviews| ==> multiset(reviews)[reviews[i]] > 0;
      false
  }

  /** The ratings of a list of reviews, in the same order. */
  function RatingsOf(reviews: seq<Review>): (ratings: seq<int>)
    ensures |ratings| == |reviews|
    ensures forall i :: 0 <= i < |reviews| ==> ratings[i] == reviews[i].rating
  {
    var n := |reviews|;
    if n == 0 then [] else RatingsOf(reviews[..n - 1]) + [reviews[n - 1].rating]
  }

  /** At most one review per (watch item, user) pair. */
  ghost predicate OneReviewPerUser(reviews: seq<Review>)
  {
    forall i, j :: 0 <= i < j < |reviews| && reviews[i].watchlist == reviews[j].watchlist ==>
      reviews[i].reviewUser != reviews[j].reviewUser
  }

  /**
   One item's derived fields agree with the stored reviews: the count is the
   number of its reviews and, once rated, the average is the recurrence
   replayed over their ratings in the order they were saved.
   */
  ghost predicate ItemAgrees(item: WatchItem, reviews: seq<Review>, pk: ItemId)
  {
    item.numberRating == |ReviewsFor(reviews, pk)| &&
    (item.numberRating > 0 ==> item.avgRating == Replay(RatingsOf(ReviewsFor(reviews, pk))))
  }

  /** Every item's derived fields agree with the stored reviews. */
  ghost predicate AggregatesAgree(items: map<ItemId, WatchItem>, reviews: seq<Review>)
  {
    forall pk :: pk in items ==> ItemAgrees(items[pk], reviews, pk)
  }

  /** Saving a review appends it to its own item's listing and to no other. */
  lemma ReviewsForSnoc(reviews: seq<Review>, review: Review, pk: ItemId)
    ensures ReviewsFor(reviews + [review], pk) ==
      ReviewsFor(reviews, pk) + (if review.watchlist == pk then [review] else [])
  {
    assert (reviews + [review])[..|reviews|] == reviews;
  }

  /** Appending a review appends its rating. */
  lemma RatingsOfSnoc(reviews: seq<Review>, review: Review)
    ensures RatingsOf(reviews + [review]) == RatingsOf(reviews) + [review.rating]
  {
  }

  /** Under the invariant, the user's review of an item, if any, is the only one. */
  lemma {:induction false} AtMostOneReview(reviews: seq<Review>, pk: ItemId, user: UserId)
    requires OneReviewPerUser(reviews)
    ensures |ReviewsBy(reviews, pk, user)| <= 1
  {
    var n := |reviews|;
    if n > 0 {
      var prefix, last := reviews[..n - 1], reviews[n - 1];
      AtMostOneReview(prefix, pk, user);
      if last.watchlist == pk && last.reviewUser == user {
        // an earlier review of the same pair would break the invariant
        assert !HasReviewed(prefix, pk, user);
      }
    }
  }

  /** Saving a review the admission test let through keeps one review per user and item. */
  lemma AdmittedKeepsOneReviewPerUser(reviews: seq<Review>, review: Review)
    requires OneReviewPerUser(reviews)
    requires !HasReviewed(reviews, review.watchlist, review.reviewUser)
    ensures OneReviewPerUser(reviews + [review])
  {
  }

  /** Rating the reviewed item with the recurrence keeps it in agreement. */
  lemma RatedItemAgrees(item: WatchItem, reviews: seq<Review>, review: Review)
    requires ItemAgrees(item, reviews, review.watchlist)
    ensures ItemAgrees(
      item.(avgRating := NextAverage(item.avgRating, item.numberRating, review.rating),
            numberRating := item.numberRating + 1),
      reviews + [review], review.watchlist)
  {
    var before := ReviewsFor(reviews, review.watchlist);
    ReviewsForSnoc(reviews, review, review.watchlist);
    RatingsOfSnoc(before, review);
    ReplaySnoc(RatingsOf(before), review.rating);
  }

  /** An item the new review is not about keeps its agreement untouched. */
  lemma OtherItemAgrees(item: WatchItem, reviews: seq<Review>, review: Review, pk: ItemId)
    requires ItemAgrees(item, reviews, pk) && review.watchlist != pk
    ensures ItemAgrees(item, reviews + [review], pk)
  {
    ReviewsForSnoc(reviews, review, pk);
    assert ReviewsFor(reviews + [review], pk) == ReviewsFor(reviews, pk) + [];
    assert ReviewsFor(reviews, pk) + [] == ReviewsFor(reviews, pk);
  }

  /**
   Rating item `pk` and saving a review of it keeps every item's derived
   fields in agreement with the reviews.
   */
  lemma RatingKeepsAggregatesAgreed(items: map<ItemId, WatchItem>, reviews: seq<Review>, review: Review, rated: WatchItem)
    requires AggregatesAgree(items, reviews)
    requires review.watchlist in items
    requires rated == items[review.watchlist].(
      avgRating := NextAverage(items[review.watchlist].avgRating, items[review.watchlist].numberRating, review.rating),
      numberRating := items[review.watchlist].numberRating + 1)
    ensures AggregatesAgree(items[review.watchlist := rated], reviews + [review])
  {
    var pk := review.watchlist;
    var items' := items[pk := rated];
    forall k | k in items'
      ensures ItemAgrees(items'[k], reviews + [review], k)
    {
      if k == pk {
        RatedItemAgrees(items[pk], reviews, review);
      } else {
        OtherItemAgrees(items[k], reviews, review, k);
      }
    }
  }

  /**
   While an item agrees with the stored reviews, once rated its average lies
   between the lowest and the highest rating among its reviews.
   */
  lemma AverageWithinSubmittedRatings(item: WatchItem, reviews: seq<Review>, pk: ItemId)
    requires ItemAgrees(item, reviews, pk) && item.numberRating > 0
    ensures exists i :: 0 <= i < |reviews| && reviews[i].watchlist == pk && reviews[i].rating as real <= item.avgRating
    ensures exists i :: 0 <= i < |reviews| && reviews[i].watchlist == pk && item.avgRating <= reviews[i].rating as real
  {
    var mine := ReviewsFor(reviews, pk);
    ReviewsForExactly(reviews, pk);
    var ratings := RatingsOf(mine);
    var lo :| 0 <= lo < |ratings| && ratings[lo] == Lowest(ratings);
    var hi :| 0 <= hi < |ratings| && ratings[hi] == Highest(ratings);
    assert multiset(mine)[mine[lo]] > 0 && multiset(mine)[mine[hi]] > 0;
    var i :| 0 <= i < |reviews| && reviews[i] == mine[lo];
    var j :| 0 <= j < |reviews| && reviews[j] == mine[hi];
    assert reviews[i].rating as real <= item.avgRating;
    assert item.avgRating <= reviews[j].rating as real;
  }

  /**
   One accepted creation (rate the item by the recurrence, append the review)
   keeps both store invariants.
   */
  lemma CreationKeepsInvariants(
    items: map<ItemId, WatchItem>, reviews: seq<Review>, review: Review,
    items': map<ItemId, WatchItem>, reviews': seq<Review>)
    requires review.watchlist in items
    requires !HasReviewed(reviews, review.watchlist, review.reviewUser)
    requires items' == items[review.watchlist := items[review.watchlist].(
      avgRating := NextAverage(items[review.watchlist].avgRating, items[review.watchlist].numberRating, review.rating),
      numberRating := items[review.watchlist].numberRating + 1)]
    requires reviews' == reviews + [review]
    ensures OneReviewPerUser(reviews) ==> OneReviewPerUser(reviews')
    ensures AggregatesAgree(items, reviews) ==> AggregatesAgree(items', reviews')
  {
    if OneReviewPerUser(reviews) {
      AdmittedKeepsOneReviewPerUser(reviews, review);
    }
    if AggregatesAgree(items, reviews) {
      RatingKeepsAggregatesAgreed(items, reviews, review, items'[review.watchlist]);
    }
  }

  /** A store of unrated items and no reviews satisfies both invariants. */
  lemma UnratedStoreAgrees(items: map<ItemId, WatchItem>)
    requires forall pk :: pk in items ==> items[pk].numberRating == 0
    ensures OneReviewPerUser([])
    ensures AggregatesAgree(items, [])
  {
  }

  /** The persistent state: watch items by key and the reviews in save order. */
  class Store {
    var items: map<ItemId, WatchItem>
    var reviews: seq<Review>

    constructor (items: map<ItemId, WatchItem>, reviews: seq<Review>)
      ensures this.items == items && this.reviews == reviews
    {
      this.items := items;
      this.reviews := reviews;
    }

    /** The admission invariant over the current reviews. */
    ghost predicate ReviewsUnique()
      reads this
    {
      OneReviewPerUser(reviews)
    }

    /** The aggregation invariant over the current items and reviews. */
    ghost predicate RatingsConsistent()
      reads this
    {
      AggregatesAgree(items, reviews)
    }

    /**
     In a consistent store every rated item's average lies between ratings
     that were submitted to that item.
     */
    lemma AveragesWithinSubmittedRatings(pk: ItemId)
      requires RatingsConsistent()
      requires pk in items && items[pk].numberRating > 0
      ensures exists i :: 0 <= i < |reviews| && reviews[i].watchlist == pk && reviews[i].rating as real <= items[pk].avgRating
      ensures exists i :: 0 <= i < |reviews| && reviews[i].watchlist == pk && items[pk].avgRating <= reviews[i].rating as real
    {
      AverageWithinSubmittedRatings(items[pk], reviews, pk);
    }

    /**
     `ReviewCreate.perform_create`: `user` submits `data` for item `pk`. The
     whole operation is one atomic step; on any failure nothing changes.
     */
    method PerformCreate(pk: ItemId, user: UserId, data: ReviewData) returns (outcome: Outcome)
      modifies this
      ensures pk !in old(items) ==>
        outcome == Rejected(DoesNotExist) && items == old(items) && reviews == old(reviews)
      ensures pk in old(items) && HasReviewed(old(reviews), pk, user) ==>
        outcome == Rejected(ValidationError(AlreadySubmitted)) && items == old(items) && reviews == old(reviews)
      ensures outcome.Created? <==> pk in old(items) && !HasReviewed(old(reviews), pk, user)
      ensures outcome.Created? ==> outcome.review == Review(pk, user, data.rating, data.description, data.active)
      ensures outcome.Created? ==> reviews == old(reviews) + [outcome.review]
      ensures outcome.Created? ==> items == old(items)[pk := old(items)[pk].(
        avgRating := if old(items)[pk].numberRating == 0 then data.rating as real
                     else (old(items)[pk].avgRating + data.rating as real) / 2.0,
        numberRating := old(items)[pk].numberRating + 1)]
      ensures old(ReviewsUnique()) ==> ReviewsUnique()
      ensures old(RatingsConsistent()) ==> RatingsConsistent()
    {
      if pk !in items {
        return Rejected(DoesNotExist);
      }
      var watchlist := items[pk];
      if HasReviewed(reviews, pk, user) {
        return Rejected(ValidationError(AlreadySubmitted));
      }
      if watchlist.numberRating == 0 {
        watchlist := watchlist.(avgRating := data.rating as real);
      } else {
        watchlist := watchlist.(avgRating := (watchlist.avgRating + data.rating as real) / 2.0);
      }
      watchlist := watchlist.(numberRating := watchlist.numberRating + 1);
      ghost var oldItems, oldReviews := items, reviews;
      assert watchlist.avgRating == NextAverage(oldItems[pk].avgRating, oldItems[pk].numberRating, data.rating);
      items := items[pk := watchlist];
      var review := Review(pk, user, data.rating, data.description, data.active);
      reviews := reviews + [review];
      outcome := Created(review);
      CreationKeepsInvariants(oldItems, oldReviews, review, items, reviews);
    }
  }

  /** Two users review one item, then the first tries again and is turned away. */
  method TwoUsersScenario()
  {
    var item := WatchItem("A Movie", "A story", None, 0.0, 0);
    var store := new Store(map[1 := item], []);
    UnratedStoreAgrees(map[1 := item]);
    assert store.ReviewsUnique() && store.RatingsConsistent();
    assert !HasReviewed([], 1, 100);
    var o1 := store.PerformCreate(1, 100, ReviewData(8, "great", true));
    assert o1.Created? && store.reviews == [o1.review];
    assert store.items[1].avgRating == 8.0 && store.items[1].numberRating == 1;
    assert !HasReviewed(store.reviews, 1, 200);
    var o2 := store.PerformCreate(1, 200, ReviewData(4, "meh", true));
    assert o2.Created?;
    assert store.items[1].avgRating == 6.0 && store.items[1].numberRating == 2;
    store.AveragesWithinSubmittedRatings(1);
    var itemsBefore, reviewsBefore := store.items, store.reviews;
    assert reviewsBefore[0] == o1.review;
    assert HasReviewed(reviewsBefore, 1, 100);
    var o3 := store.PerformCreate(1, 100, ReviewData(1, "again", true));
    assert o3 == Rejected(ValidationError(AlreadySubmitted));
    assert store.items == itemsBefore && store.reviews == reviewsBefore;
    assert store.ReviewsUnique() && store.RatingsConsistent();
  }
}
