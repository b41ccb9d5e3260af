/**
 The records the review logic works on: watch items with their derived rating
 fields, reviews, and the users who make requests. Identifiers stand for the
 database primary keys; two users or items are the same exactly when their
 keys are equal, as for Django model instances.
 */
module Models {

  datatype Option<+T> = None | Some(value: T)

  type ItemId = nat
  type UserId = nat

  /** An authenticated user; `isStaff` is Django's `is_staff` flag. */
  datatype User = User(id: UserId, isStaff: bool)

  /**
   A watch item (a movie or show). `avgRating` and `numberRating` are the
   rating aggregate; in this model only review creation writes them.
   `avgRating` means something only once `numberRating > 0`.
   */
  datatype WatchItem = WatchItem(
    title: string,
    storyline: string,
    platform: Option<nat>,
    avgRating: real,
    numberRating: nat)

  /** The fields a client submits for a new review, after validation. */
  datatype ReviewData = ReviewData(rating: int, description: string, active: bool)

  /** A stored review, tagged with the item it is about and the user who wrote it. */
  datatype Review = Review(
    watchlist: ItemId,
    reviewUser: UserId,
    rating: int,
    description: string,
    active: bool)
}
