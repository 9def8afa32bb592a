/** Candidate generation and score accumulation: for every seed item, either
    the similarity branch (the seed has a column in the similarity table) or
    the popularity fallback (it has none) adds to the candidates' scores. */
module Scoring {
  import opened Ratings

  /** The item-item similarity table. `corr[m]` is the column of item `m`; an
      item that is not a key of `corr` has no column. Inside a column, a missing
      key stands for an undefined (NaN) coefficient. */
  type Similarity = map<int, map<int, real>>

  /** A dictionary lookup with a default, as `dict.get(k, default)`. */
  function GetOr<K, V>(m: map<K, V>, k: K, default: V): V
  {
    if k in m then m[k] else default
  }

  /** The fixed inputs of one scoring run. */
  datatype Context = Context(ratings: seq<Rating>, corr: Similarity, seen: seq<int>, minReviews: int)
  {
    /** Whether seed item `seed` adds to the score of item `c`. A seed without a
        column adds every reviewed, popular enough, unseen item; a seed with a
        column adds every other item with a defined coefficient in it that is
        unseen and popular enough (an item without reviews counts 0 reviews). */
    predicate Contributes(seed: int, c: int)
    {
      if seed !in corr then
        Count(ratings, c) > 0 && Count(ratings, c) >= minReviews && c !in seen
      else
        c in corr[seed] && c != seed && c !in seen && Count(ratings, c) >= minReviews
    }

    /** What seed item `seed` adds to the score of item `c`: the item's mean
        rating in the fallback, its coefficient in the seed's column otherwise. */
    function Contribution(seed: int, c: int): real
    {
      if !Contributes(seed, c) then 0.0
      else if seed !in corr then MeanRating(ratings, c)
      else corr[seed][c]
    }

    /** Whether some seed of `seeds` contributes to `c`. */
    predicate Scored(seeds: seq<int>, c: int)
    {
      |seeds| > 0 && (Scored(seeds[..|seeds| - 1], c) || Contributes(seeds[|seeds| - 1], c))
    }

    /** The sum, over the seeds, of what each adds to the score of `c`. */
    function Total(seeds: seq<int>, c: int): real
    {
      if |seeds| == 0 then 0.0
      else Total(seeds[..|seeds| - 1], c) + Contribution(seeds[|seeds| - 1], c)
    }

    /** Every item that is reviewed or appears in some column. */
    function Universe(): set<int>
    {
      ItemsOf(ratings) + set s, c | s in corr && c in corr[s] :: c
    }
  }

  /** The specification of the candidate-score dictionary after all `seeds`:
      an entry for every item some seed contributes to, holding the sum of the
      contributions of all seeds. */
  function CandidateScores(ctx: Context, seeds: seq<int>): map<int, real>
  {
    map c | c in ctx.Universe() && ctx.Scored(seeds, c) :: ctx.Total(seeds, c)
  }

  /** The fallback table: the mean rating of every item with at least
      `minReviews` reviews that is not among `seen`. */
  function PopularItems(ratings: seq<Rating>, seen: seq<int>, minReviews: int): (popular: map<int, real>)
    ensures forall c :: c in popular <==> Count(ratings, c) > 0 && Count(ratings, c) >= minReviews && c !in seen
    ensures forall c :: c in popular ==> Count(ratings, c) > 0 && popular[c] == MeanRating(ratings, c)
  {
    ItemsOfCounted(ratings);
    map c | c in ItemsOf(ratings) && Count(ratings, c) >= minReviews && c !in seen :: MeanRating(ratings, c)
  }

  /** Accumulates the candidate scores of `seeds` into a dictionary, one seed
      at a time, by the fallback or the similarity branch. */
  method ScoreCandidates(ctx: Context, seeds: seq<int>) returns (scores: map<int, real>)
    ensures scores == CandidateScores(ctx, seeds)
  {
    var reviewCounts := ReviewCounts(ctx.ratings);
    scores := map[];
    for i := 0 to |seeds|
      invariant forall c :: c in scores <==> ctx.Scored(seeds[..i], c)
      invariant forall c :: c in scores ==> scores[c] == ctx.Total(seeds[..i], c)
    {
      var seed := seeds[i];
      ghost var done := seeds[..i];
      ghost var before := scores;
      if seed !in ctx.corr {
        scores := AddPopular(ctx, seed, scores);
      } else {
        scores := AddSimilar(ctx, reviewCounts, seed, scores);
      }
      assert seeds[..i + 1] == done + [seed];
      forall c | c in scores
        ensures scores[c] == ctx.Total(seeds[..i + 1], c)
      {
        if c !in before { UnscoredTotal(ctx, done, c); }
      }
    }
    assert seeds[..|seeds|] == seeds;
    CandidateScoresCharacterized(ctx, seeds, scores);
  }

  /** The fallback branch for a seed without a column: every popular enough,
      unseen item gains its mean rating. */
  method AddPopular(ctx: Context, seed: int, scores: map<int, real>) returns (after: map<int, real>)
    requires seed !in ctx.corr
    ensures forall c :: c in after <==> c in scores || ctx.Contributes(seed, c)
    ensures forall c :: c in after ==> after[c] == GetOr(scores, c, 0.0) + ctx.Contribution(seed, c)
  {
    var popular := PopularItems(ctx.ratings, ctx.seen, ctx.minReviews);
    after := scores;
    var todo := popular.Keys;
    while todo != {}
      invariant todo <= popular.Keys
      invariant forall c :: c in after <==> c in scores || (c !in todo && ctx.Contributes(seed, c))
      invariant forall c :: c in after && c in todo ==> after[c] == GetOr(scores, c, 0.0)
      invariant forall c :: c in after && c !in todo ==> after[c] == GetOr(scores, c, 0.0) + ctx.Contribution(seed, c)
    {
      var c := Pick(todo);
      todo := todo - {c};
      after := after[c := GetOr(after, c, 0.0) + popular[c]];
    }
  }

  /** The similarity branch for a seed with a column: the seed's own entry and
      the undefined entries are dropped, seen items and items with fewer than
      `minReviews` reviews are skipped, and every other item gains its
      coefficient. */
  method AddSimilar(ctx: Context, reviewCounts: map<int, nat>, seed: int, scores: map<int, real>)
    returns (after: map<int, real>)
    requires seed in ctx.corr
    requires reviewCounts == ReviewCounts(ctx.ratings)
    ensures forall c :: c in after <==> c in scores || ctx.Contributes(seed, c)
    ensures forall c :: c in after ==> after[c] == GetOr(scores, c, 0.0) + ctx.Contribution(seed, c)
  {
    var column := ctx.corr[seed];
    after := scores;
    var todo := column.Keys - {seed};
    while todo != {}
      invariant todo <= column.Keys - {seed}
      invariant forall c :: c in after <==> c in scores || (c !in todo && ctx.Contributes(seed, c))
      invariant forall c :: c in after && c in todo ==> after[c] == GetOr(scores, c, 0.0)
      invariant forall c :: c in after && c !in todo ==> after[c] == GetOr(scores, c, 0.0) + ctx.Contribution(seed, c)
    {
      var c := Pick(todo);
      todo := todo - {c};
      // a seen item, or one with too few reviews, is skipped
      if c !in ctx.seen && GetOr(reviewCounts, c, 0) >= ctx.minReviews {
        after := after[c := GetOr(after, c, 0.0) + column[c]];
      }
    }
  }

  /** Some element of a non-empty set, the next one a loop over it visits. */
  method Pick(s: set<int>) returns (x: int)
    requires s != {}
    ensures x in s
  {
    if forall y :: y !in s {
      // Unreachable, as s is not empty; the case split hands the prover the
      // element of s that the choice of x below needs.
      assert false;
    }
    x :| x in s;
  }

  /** An item no seed contributes to has total 0. */
  lemma {:induction false} UnscoredTotal(ctx: Context, seeds: seq<int>, c: int)
    requires !ctx.Scored(seeds, c)
    ensures ctx.Total(seeds, c) == 0.0
  {
    if |seeds| > 0 {
      UnscoredTotal(ctx, seeds[..|seeds| - 1], c);
    }
  }

  /** Every item a seed contributes to belongs to the universe of items. */
  lemma {:induction false} ScoredInUniverse(ctx: Context, seeds: seq<int>, c: int)
    requires ctx.Scored(seeds, c)
    ensures c in ctx.Universe()
  {
    var last := seeds[|seeds| - 1];
    if ctx.Contributes(last, c) {
      if last !in ctx.corr {
        ItemsOfCounted(ctx.ratings);
      }
    } else {
      ScoredInUniverse(ctx, seeds[..|seeds| - 1], c);
    }
  }

  /** A dictionary with the keys and values the specification gives is the
      specification's dictionary. */
  lemma CandidateScoresCharacterized(ctx: Context, seeds: seq<int>, m: map<int, real>)
    requires forall c :: c in m <==> ctx.Scored(seeds, c)
    requires forall c :: c in m ==> m[c] == ctx.Total(seeds, c)
    ensures m == CandidateScores(ctx, seeds)
  {
    var spec := CandidateScores(ctx, seeds);
    forall c | c in m ensures c in spec {
      ScoredInUniverse(ctx, seeds, c);
    }
  }

  /** The candidates are exactly the items some seed contributes to. */
  lemma {:induction false} CandidateKeys(ctx: Context, seeds: seq<int>, c: int)
    ensures c in CandidateScores(ctx, seeds) <==> exists i :: 0 <= i < |seeds| && ctx.Contributes(seeds[i], c)
  {
    if ctx.Scored(seeds, c) {
      ScoredInUniverse(ctx, seeds, c);
    }
    ScoredSomeSeed(ctx, seeds, c);
  }

  lemma {:induction false} ScoredSomeSeed(ctx: Context, seeds: seq<int>, c: int)
    ensures ctx.Scored(seeds, c) <==> exists i :: 0 <= i < |seeds| && ctx.Contributes(seeds[i], c)
  {
    if |seeds| > 0 {
      var init := seeds[..|seeds| - 1];
      ScoredSomeSeed(ctx, init, c);
      if ctx.Scored(init, c) {
        var i :| 0 <= i < |init| && ctx.Contributes(init[i], c);
        assert seeds[i] == init[i];
      }
      if exists i :: 0 <= i < |seeds| && ctx.Contributes(seeds[i], c) {
        var i :| 0 <= i < |seeds| && ctx.Contributes(seeds[i], c);
        if i < |init| {
          assert init[i] == seeds[i];
        }
      }
    }
  }

  /** No candidate is an item the user has already rated, and every candidate
      has at least `minReviews` reviews (an item without reviews has 0). */
  lemma CandidatesUnseenAndPopular(ctx: Context, seeds: seq<int>, c: int)
    requires c in CandidateScores(ctx, seeds)
    ensures c !in ctx.seen
    ensures Count(ctx.ratings, c) >= ctx.minReviews
  {
    CandidateKeys(ctx, seeds, c);
  }

  /** Scores accumulate additively over the seeds. */
  lemma {:induction false} TotalAppend(ctx: Context, a: seq<int>, b: seq<int>, c: int)
    ensures ctx.Total(a + b, c) == ctx.Total(a, c) + ctx.Total(b, c)
  {
    if |b| == 0 {
      assert a + b == a;
    } else {
      var b' := b[..|b| - 1];
      assert (a + b)[..|a + b| - 1] == a + b';
      TotalAppend(ctx, a, b', c);
    }
  }

  /** The sum of the defined coefficients of `c` in the columns of the seeds
      other than `c` itself. */
  function CoefficientSum(corr: Similarity, seeds: seq<int>, c: int): real
  {
    if |seeds| == 0 then 0.0
    else
      var s := seeds[0];
      (if s in corr && s != c && c in corr[s] then corr[s][c] else 0.0) + CoefficientSum(corr, seeds[1..], c)
  }

  /** When every seed has a column, the score of an unseen, popular enough
      item is the sum of its coefficients in the seeds' columns, the seeds'
      own entries and the undefined entries adding nothing; a seen or rarely
      reviewed item gets no score. */
  lemma {:induction false} SimilarityScore(ctx: Context, seeds: seq<int>, c: int)
    requires forall i :: 0 <= i < |seeds| ==> seeds[i] in ctx.corr
    ensures ctx.Total(seeds, c) ==
      if c !in ctx.seen && Count(ctx.ratings, c) >= ctx.minReviews then CoefficientSum(ctx.corr, seeds, c) else 0.0
  {
    if |seeds| > 0 {
      assert seeds == [seeds[0]] + seeds[1..];
      TotalAppend(ctx, [seeds[0]], seeds[1..], c);
      assert [seeds[0]][..0] == [];
      SimilarityScore(ctx, seeds[1..], c);
    }
  }

  /** When no seed has a column, every seed re-adds the mean rating of each
      popular enough, unseen item, so its score is that mean times the number
      of seeds. */
  lemma {:induction false} FallbackScore(ctx: Context, seeds: seq<int>, c: int)
    requires forall i :: 0 <= i < |seeds| ==> seeds[i] !in ctx.corr
    requires c in PopularItems(ctx.ratings, ctx.seen, ctx.minReviews)
    ensures ctx.Total(seeds, c) == (|seeds| as real) * PopularItems(ctx.ratings, ctx.seen, ctx.minReviews)[c]
  {
    if |seeds| > 0 {
      FallbackScore(ctx, seeds[..|seeds| - 1], c);
    }
  }
}
