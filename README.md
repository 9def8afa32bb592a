# Item-based collaborative-filtering movie recommender, in Dafny

This project models the recommendation engine of a small movie-recommendation
app: `recommend_for_user_corr` in `app.py`. Given a review table of
(user, item, rating) rows, a title table of (item, title) rows and a
precomputed item-item similarity table, the engine does five things:

1. It picks the user's *seed* items, the ones the user rated at or above a threshold.
2. It treats every item the user rated as *seen*.
3. It counts the reviews of every item.
4. For each seed it adds to a dictionary of candidate scores:
   - a seed with no column in the similarity table adds the mean rating of
     every item with enough reviews that the user has not seen (the
     popularity fallback);
   - any other seed adds its coefficient with every other item in its column
     that has a defined coefficient, is unseen and has enough reviews.
5. It ranks the candidates by score, keeps the first `top_n` ids, and returns
   the rows of the title table with those ids, in title-table order.

Layout, one module per component:

- `ratings.dfy` (`Ratings`): the two tables and their aggregates. These are
  the user's rows, the seed ids, the seen ids, review counts, sums and mean
  ratings.
- `scoring.dfy` (`Scoring`): the similarity table type and the scoring
  specification. `Context.Contributes` says whether a seed adds to an item,
  and `Context.Contribution` says what it adds. `CandidateScores` is the
  dictionary that results: one entry per item some seed contributes to,
  holding the sum over all seeds. The imperative `ScoreCandidates` runs the
  nested loops. It is proved equal to `CandidateScores`.
- `ranking.dfy` (`Ranking`): ranking, the Python `[:top_n]` cut, and the
  title filter.
- `recommender.dfy` (`Recommender`): `RecommendForUser`, the whole pipeline.

Modelling decisions:

- The similarity table is a `map<int, map<int, real>>`. A missing outer key
  means the item has no column (the check at app.py:114). A missing inner key
  is an undefined (NaN) coefficient, which `dropna` at app.py:132 removes. So
  every column is indexed by every item, and `drop(seed)` cannot fail.
- Ratings and coefficients are exact `real`s. Mean ratings and score sums
  therefore have no rounding.
- Tie rule: the source sorts with Python's stable `sorted`. Tied candidates
  therefore keep the dictionary's insertion order, which comes from pandas
  iteration order. This model breaks ties by ascending item id instead
  (`Ranking.Outranks`).
- The two inner loops visit a set of items in arbitrary order. In the source,
  the similarity column is first sorted by descending coefficient
  (app.py:132) and the fallback table comes in group order. Visiting order
  only changes dictionary insertion order. Under the tie rule above it cannot
  change the result, and `ScoreCandidates` is proved to give the same
  dictionary for every visiting order.
- `top_n` follows Python slice semantics. A negative `top_n` keeps all
  candidates but the last `-top_n` (`Ranking.TakeCount`).
- Titles come back in title-table order, as app.py:148 returns them, not in
  rank order.
- `RecommendForUser` keeps the source's default arguments (app.py:95): a
  rating threshold of 4.0, a minimum of 10 reviews and a top-N of 5.

## Model

| member | source | states |
|---|---|---|
| `Ratings.UserRatings` | app.py:98 | the user's rows are exactly the rows of the review table with that user id, and there are no more of them than rows in the table |
| `Ratings.HighRated` | app.py:101 | an item is a seed exactly when some row of the user rates it at or above the threshold |
| `Ratings.UserRatingsAppend` | app.py:98 | the selection keeps one entry per matching row, in table order: selecting from a concatenation concatenates the selections, so a duplicated row stays duplicated |
| `Ratings.HighRatedAppend` | app.py:101 | the seed list has one entry per qualifying row, in row order: an item the user rated highly twice is a seed twice, and so scores twice |
| `Ratings.ItemIds` | app.py:104 | one id per user row; an item is seen exactly when some row of the user is about it |
| `Ratings.NoHighRatings` | app.py:101 | when none of the user's ratings reaches the threshold there are no seeds |
| `Ratings.ReviewCounts` | app.py:107 | the group sizes have an entry exactly for the items with at least one review, and each entry is that item's number of reviews |
| `Ratings.MeanWithinRatings` | app.py:115-117 | an item's mean rating lies between the least and the greatest rating it received |
| `Scoring.PopularItems` | app.py:115-125 | the fallback table holds exactly the reviewed items with at least `min_review_count` reviews that are not seen, each with its mean rating |
| `Scoring.AddPopular` | app.py:114-129 | a seed without a column adds every fallback item, with its mean rating, to the dictionary and leaves every other entry unchanged |
| `Scoring.AddSimilar` | app.py:132-141 | a seed with a column adds its coefficient to every other item with a defined coefficient that is unseen and has at least `min_review_count` reviews (0 if it has none), and leaves every other entry unchanged |
| `Scoring.ScoreCandidates` | app.py:106-141 | after all seeds the candidate dictionary is the specification dictionary `CandidateScores`: an entry per item some seed contributes to, holding the sum of all seeds' contributions |
| `Scoring.CandidateKeys` | app.py:110-141 | an item has a score exactly when at least one seed contributes to it |
| `Scoring.CandidatesUnseenAndPopular` | app.py:122-124 | no scored item is one the user rated, and every scored item has at least `min_review_count` reviews |
| `Scoring.TotalAppend` | app.py:128 | scores add up over the seeds: the total of two runs of seeds is the sum of their totals |
| `Scoring.SimilarityScore` | app.py:132-141 | when every seed has a column, an unseen item with enough reviews scores the sum of its defined coefficients in the columns of the seeds other than itself, and any other item scores 0 |
| `Scoring.FallbackScore` | app.py:114-129 | when no seed has a column, each seed re-adds the fallback item's mean rating, so its score is that mean times the number of seeds |
| `Ranking.BestExists` | app.py:144 | every non-empty set of candidates has a highest-ranked member |
| `Ranking.Select` | app.py:144-145 | the selection has min(k, pool size) distinct ids from the pool, in ranking order, each ranked above every pool member left out |
| `Ranking.TopN` | app.py:144-145 | the kept ids are distinct candidates in non-increasing score order. For `top_n >= 0` there are min(`top_n`, candidate count) of them; a negative `top_n` drops that many from the end. Every kept id scores at least as high as every candidate left out, and on equal scores has the smaller id |
| `Ranking.FilterTitles` | app.py:148 | a title row is returned exactly when it is in the title table and its id is among the kept ids |
| `Ranking.FilterTitlesAppend` | app.py:148 | the filter keeps the title table's own order: filtering a concatenation concatenates the filtered parts |
| `Ranking.FilterTitlesNone` | app.py:148 | no kept ids, no rows |
| `Ranking.FilterTitlesAtMost` | app.py:148 | when item ids are unique in the title table, no more rows are returned than ids were kept |
| `Recommender.RecommendForUser` | app.py:95-148 | with the source's defaults (threshold 4.0, 10 reviews, top 5), the result is the title filter of the top-N ids of the specified scores. Every row is a title row whose item the user has not rated and that has at least `min_review_count` reviews. A user with no rating at or above the threshold gets nothing. With `top_n >= 0` and unique title ids, at most `top_n` rows come back |

## Left out

- The user-item rating matrix built by `pivot_table` (app.py:64) and the Pearson similarity from `DataFrame.corr()` (app.py:73): these are library numerics on floating point. The similarity table is an input of the model, not computed.
- Reading the CSV files and the `merge` with the title table (app.py:12-14): file input and a library join.
- The page layout, headings, text and tables of the user interface (app.py:3-94, app.py:150-235). The display copy of the function at app.py:150-207 is the same code and is not modelled twice.
- The unknown-user check and the call with `min_review_count=1` (app.py:211-218): caller-side glue. The model has no precondition on the user; an unknown user simply gets no seeds and no rows.
- Floating point: ratings, means and coefficients are exact reals, and a NaN rating in the review table is not modelled.
- The exact order among tied scores: the model breaks ties by ascending item id, not by dictionary insertion order.
- `pandas.iterrows` turns the fallback rows' item ids into floats (app.py:127-128). A float id equals the integer id as a dictionary key and in `isin`, so the model keeps integer ids.
- RecommendForUser: the bound of at most `top_n` rows is stated only for `top_n >= 0` and only for a title table with unique item ids. A negative `top_n` follows Python slicing, and duplicate title rows for one item are all returned.
