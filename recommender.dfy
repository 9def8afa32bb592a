/** Item-based collaborative filtering for one user: seeds from the user's
    high ratings, candidates scored from the similarity table (or from
    popularity when a seed has no column), the top N by score, and their rows
    of the title table. */
module Recommender {
  import opened Ratings
  import opened Scoring
  import opened Ranking

  /** The items `user` rated at least `threshold`, in review-table order. */
  function Seeds(ratings: seq<Rating>, user: int, threshold: real): seq<int>
  {
    HighRated(UserRatings(ratings, user), threshold)
  }

  /** The scoring inputs of a request; the seen items are all items `user` rated. */
  function RequestContext(ratings: seq<Rating>, corr: Similarity, user: int, minReviews: int): Context
  {
    Context(ratings, corr, ItemIds(UserRatings(ratings, user)), minReviews)
  }

  /** Recommends titles to `user`: the title rows, in title-table order, of the
      `topN` best-scored candidates. */
  method RecommendForUser(user: int, ratings: seq<Rating>, titles: seq<Title>, corr: Similarity,
                          threshold: real := 4.0, minReviews: int := 10, topN: int := 5)
    returns (rows: seq<Title>)
    ensures rows == FilterTitles(titles, TopN(CandidateScores(RequestContext(ratings, corr, user, minReviews),
                                                              Seeds(ratings, user, threshold)), topN))
    ensures forall t :: t in rows ==> t in titles
    ensures forall t, r :: t in rows && r in ratings && r.user == user ==> r.item != t.item
    ensures forall t :: t in rows ==> Count(ratings, t.item) >= minReviews
    ensures (forall r :: r in ratings && r.user == user ==> r.value < threshold) ==> rows == []
    ensures 0 <= topN && UniqueItems(titles) ==> |rows| <= topN
  {
    var userRatings := UserRatings(ratings, user);
    var highRated := HighRated(userRatings, threshold);
    var seen := ItemIds(userRatings);
    var ctx := Context(ratings, corr, seen, minReviews);
    var scores := ScoreCandidates(ctx, highRated);
    var top := TopN(scores, topN);
    rows := FilterTitles(titles, top);

    forall t | t in rows
      ensures t.item !in seen && Count(ratings, t.item) >= minReviews
    {
      var i :| 0 <= i < |top| && top[i] == t.item;
      CandidatesUnseenAndPopular(ctx, highRated, t.item);
    }
    if forall r :: r in ratings && r.user == user ==> r.value < threshold {
      NoHighRatings(userRatings, threshold);
      assert scores == map[];
      assert top == [];
      FilterTitlesNone(titles);
    }
    if UniqueItems(titles) {
      FilterTitlesAtMost(titles, top);
    }
  }
}
