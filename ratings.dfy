/** The review and title tables and the per-user and per-item aggregates the
    recommender reads from them. */
module Ratings {

  /** One row of the review table: `user` gave `item` the score `value`. */
  datatype Rating = Rating(user: int, item: int, value: real)

  /** One row of the title table. */
  datatype Title = Title(item: int, name: string)

  /** The rows of the review table written by `user`, in table order. */
  function UserRatings(ratings: seq<Rating>, user: int): (r: seq<Rating>)
    ensures |r| <= |ratings|
    ensures forall x :: x in r <==> x in ratings && x.user == user
  {
    if |ratings| == 0 then []
    else if ratings[0].user == user then [ratings[0]] + UserRatings(ratings[1..], user)
    else UserRatings(ratings[1..], user)
  }

  /** The item ids of those `rows` whose rating is at least `threshold`: the seed items. */
  function HighRated(rows: seq<Rating>, threshold: real): (r: seq<int>)
    ensures |r| <= |rows|
    ensures forall x :: x in r <==> exists row :: row in rows && row.item == x && row.value >= threshold
  {
    if |rows| == 0 then []
    else if rows[0].value >= threshold then [rows[0].item] + HighRated(rows[1..], threshold)
    else HighRated(rows[1..], threshold)
  }

  /** Selecting a user's rows keeps one entry per matching row, in table order:
      it distributes over concatenation. */
  lemma {:induction false} UserRatingsAppend(a: seq<Rating>, b: seq<Rating>, user: int)
    ensures UserRatings(a + b, user) == UserRatings(a, user) + UserRatings(b, user)
  {
    if |a| > 0 {
      assert (a + b)[0] == a[0];
      assert (a + b)[1..] == a[1..] + b;
      UserRatingsAppend(a[1..], b, user);
    } else {
      assert a + b == b;
    }
  }

  /** Seed selection keeps one seed per qualifying row, in row order: it
      distributes over concatenation, so an item rated highly twice is a seed
      twice. */
  lemma {:induction false} HighRatedAppend(a: seq<Rating>, b: seq<Rating>, threshold: real)
    ensures HighRated(a + b, threshold) == HighRated(a, threshold) + HighRated(b, threshold)
  {
    if |a| > 0 {
      assert (a + b)[0] == a[0];
      assert (a + b)[1..] == a[1..] + b;
      HighRatedAppend(a[1..], b, threshold);
    } else {
      assert a + b == b;
    }
  }

  /** A user with no rating at or above the threshold has no seed items. */
  lemma {:induction false} NoHighRatings(rows: seq<Rating>, threshold: real)
    requires forall row :: row in rows ==> row.value < threshold
    ensures HighRated(rows, threshold) == []
  {
    if |rows| > 0 {
      assert forall row :: row in rows[1..] ==> row in rows;
      NoHighRatings(rows[1..], threshold);
    }
  }

  /** The item ids of `rows`, one per row: the items already seen. */
  function ItemIds(rows: seq<Rating>): (r: seq<int>)
    ensures |r| == |rows|
    ensures forall x :: x in r <==> exists row :: row in rows && row.item == x
  {
    if |rows| == 0 then [] else [rows[0].item] + ItemIds(rows[1..])
  }

  /** The number of reviews of `item`, over all users. */
  function Count(ratings: seq<Rating>, item: int): nat
  {
    if |ratings| == 0 then 0
    else (if ratings[0].item == item then 1 else 0) + Count(ratings[1..], item)
  }

  /** The sum of all ratings given to `item`. */
  function SumRatings(ratings: seq<Rating>, item: int): real
  {
    if |ratings| == 0 then 0.0
    else (if ratings[0].item == item then ratings[0].value else 0.0) + SumRatings(ratings[1..], item)
  }

  /** The mean rating of a reviewed item. */
  function MeanRating(ratings: seq<Rating>, item: int): real
    requires Count(ratings, item) > 0
  {
    SumRatings(ratings, item) / (Count(ratings, item) as real)
  }

  /** The items that occur in the review table. */
  function ItemsOf(ratings: seq<Rating>): set<int>
  {
    set row | row in ratings :: row.item
  }

  /** An item occurs in the review table exactly when it has at least one review. */
  lemma {:induction false} ItemsOfCounted(ratings: seq<Rating>)
    ensures forall c :: c in ItemsOf(ratings) <==> Count(ratings, c) > 0
  {
    if |ratings| > 0 {
      ItemsOfCounted(ratings[1..]);
      assert ratings == [ratings[0]] + ratings[1..];
      assert ItemsOf(ratings) == {ratings[0].item} + ItemsOf(ratings[1..]);
    }
  }

  /** The per-item review counts: one entry per item that has a review, none
      for the others, so that a lookup with default 0 gives every item's count. */
  function ReviewCounts(ratings: seq<Rating>): (counts: map<int, nat>)
    ensures forall c :: c in counts <==> Count(ratings, c) > 0
    ensures forall c :: c in counts ==> counts[c] == Count(ratings, c)
  {
    ItemsOfCounted(ratings);
    map c | c in ItemsOf(ratings) :: Count(ratings, c)
  }

  /** The mean rating of an item lies between the least and the greatest
      rating it received. */
  lemma {:induction false} MeanWithinRatings(ratings: seq<Rating>, item: int, lo: real, hi: real)
    requires Count(ratings, item) > 0
    requires forall row :: row in ratings && row.item == item ==> lo <= row.value <= hi
    ensures lo <= MeanRating(ratings, item) <= hi
  {
    SumWithinRatings(ratings, item, lo, hi);
    var n, sum := Count(ratings, item) as real, SumRatings(ratings, item);
    QuotientAtLeast(sum, n, lo);
    QuotientAtLeast(-sum, n, -hi);
    assert -sum / n == -(sum / n);
  }

  lemma {:induction false} SumWithinRatings(ratings: seq<Rating>, item: int, lo: real, hi: real)
    requires forall row :: row in ratings && row.item == item ==> lo <= row.value <= hi
    ensures lo * (Count(ratings, item) as real) <= SumRatings(ratings, item) <= hi * (Count(ratings, item) as real)
  {
    if |ratings| > 0 {
      var rest := ratings[1..];
      assert forall row :: row in rest ==> row in ratings;
      SumWithinRatings(rest, item, lo, hi);
      var n, s := Count(rest, item) as real, SumRatings(rest, item);
      if ratings[0].item == item {
        assert lo <= ratings[0].value <= hi by { assert ratings[0] in ratings; }
        assert SumRatings(ratings, item) == ratings[0].value + s;
        var c := Count(ratings, item) as real;
        assert c == n + 1.0;
        assert lo * c == lo * n + lo;
        assert hi * c == hi * n + hi;
      } else {
        assert SumRatings(ratings, item) == s && Count(ratings, item) as real == n;
      }
    }
  }

  /** Dividing by a positive count keeps a lower bound on the total. */
  lemma QuotientAtLeast(x: real, n: real, lo: real)
    requires n > 0.0 && x >= lo * n
    ensures x / n >= lo
  {
  }
}
