/**
 The rating aggregator: the recurrence that turns a watch item's previous
 average and count, plus one new rating, into its next average. The first
 rating becomes the average; every later one is averaged with the previous
 average (a halving mean, not the arithmetic mean of all ratings).
 */
module Ratings {

  function Min(x: real, y: real): (lesser: real) { if x <= y then x else y }
  function Max(x: real, y: real): (greater: real) { if x <= y then y else x }

  /** The next average after one more rating, given the average and count so far. */
  function NextAverage(avg: real, count: nat, rating: int): (next: real)
    ensures count == 0 ==> next == rating as real
    ensures count > 0 ==> Min(avg, rating as real) <= next <= Max(avg, rating as real)
    ensures count > 0 ==> next - avg == rating as real - next
  {
    if count == 0 then rating as real
    else (avg + rating as real) / 2.0
  }

  /** The smallest of a non-empty list of ratings. */
  function Lowest(ratings: seq<int>): (lo: int)
    requires ratings != []
    ensures lo in ratings
    ensures forall i :: 0 <= i < |ratings| ==> lo <= ratings[i]
  {
    var n := |ratings|;
    if n == 1 then ratings[0]
    else
      var rest := Lowest(ratings[..n - 1]);
      if ratings[n - 1] < rest then ratings[n - 1] else rest
  }

  /** The largest of a non-empty list of ratings. */
  function Highest(ratings: seq<int>): (hi: int)
    requires ratings != []
    ensures hi in ratings
    ensures forall i :: 0 <= i < |ratings| ==> ratings[i] <= hi
  {
    var n := |ratings|;
    if n == 1 then ratings[0]
    else
      var rest := Highest(ratings[..n - 1]);
      if rest < ratings[n - 1] then ratings[n - 1] else rest
  }

  /**
   The average an item holds after receiving `ratings`, in submission order,
   starting from no ratings at all. The starting average of an unrated item is
   never read, so 0.0 stands for it.
   */
  function Replay(ratings: seq<int>): (avg: real)
    ensures ratings != [] ==> Lowest(ratings) as real <= avg <= Highest(ratings) as real
  {
    var n := |ratings|;
    if n == 0 then 0.0
    else NextAverage(Replay(ratings[..n - 1]), n - 1, ratings[n - 1])
  }

  /** Feeding one more rating to the replay is one step of the recurrence. */
  lemma ReplaySnoc(ratings: seq<int>, rating: int)
    ensures Replay(ratings + [rating]) == NextAverage(Replay(ratings), |ratings|, rating)
  {
    assert (ratings + [rating])[..|ratings|] == ratings;
  }

  /** The last rating always carries half the weight once there are two or more. */
  lemma LastRatingWeighsHalf(ratings: seq<int>, rating: int)
    requires ratings != []
    ensures Replay(ratings + [rating]) == Replay(ratings) / 2.0 + (rating as real) / 2.0
  {
    ReplaySnoc(ratings, rating);
  }

  /** Two reviews, 8 then 4, leave an average of 6. */
  lemma TwoReviewsScenario()
    ensures Replay([8]) == 8.0
    ensures Replay([8, 4]) == 6.0
  {
    ReplaySnoc([], 8);
    ReplaySnoc([8], 4);
  }

  /** Ratings 8, 4, 6, in that order, replay to 6. */
  lemma EightFourSix()
    ensures Replay([8, 4, 6]) == 6.0
  {
    ReplaySnoc([], 8);
    assert [] + [8] == [8];
    ReplaySnoc([8], 4);
    assert [8] + [4] == [8, 4];
    ReplaySnoc([8, 4], 6);
    assert [8, 4] + [6] == [8, 4, 6];
  }

  /** Ratings 6, 4, 8, in that order, replay to 6.5. */
  lemma SixFourEight()
    ensures Replay([6, 4, 8]) == 6.5
  {
    ReplaySnoc([], 6);
    assert [] + [6] == [6];
    ReplaySnoc([6], 4);
    assert [6] + [4] == [6, 4];
    ReplaySnoc([6, 4], 8);
    assert [6, 4] + [8] == [6, 4, 8];
  }

  /** The same ratings in another order give another average. */
  lemma OrderMatters()
    ensures Replay([6, 4, 8]) != Replay([8, 4, 6])
  {
    EightFourSix();
    SixFourEight();
  }

  /** The recurrence is not the arithmetic mean: 2, 4, 9 average 5 but replay to 6. */
  lemma NotTheArithmeticMean()
    ensures Replay([2, 4, 9]) == 6.0
    ensures (2 + 4 + 9) as real / 3.0 == 5.0
  {
    ReplaySnoc([], 2);
    ReplaySnoc([2], 4);
    ReplaySnoc([2, 4], 9);
  }
}
