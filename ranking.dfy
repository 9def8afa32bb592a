/** Ranking of the candidates by accumulated score, the top-N cut, and the
    selection of the matching rows of the title table. */
module Ranking {
  import opened Ratings

  /** `x` ranks no lower than `y`: a higher score first, and among equal
      scores the smaller item id first (the tie rule of this model). */
  predicate Outranks(scores: map<int, real>, x: int, y: int)
    requires x in scores && y in scores
  {
    scores[x] > scores[y] || (scores[x] == scores[y] && x <= y)
  }

  /** `b` is the highest-ranked item of `pool`. */
  predicate IsBest(scores: map<int, real>, pool: set<int>, b: int)
    requires pool <= scores.Keys
  {
    b in pool && forall y :: y in pool ==> Outranks(scores, b, y)
  }

  /** Every non-empty pool of candidates has a highest-ranked item. */
  lemma {:induction false} BestExists(scores: map<int, real>, pool: set<int>)
    requires pool <= scores.Keys && pool != {}
    ensures exists b :: IsBest(scores, pool, b)
    decreases pool
  {
    if forall y :: y !in pool {
      // Unreachable, as pool is not empty; the case split hands the prover
      // the element of pool that the choice of x below needs.
      assert false;
    }
    var x :| x in pool;
    var rest := pool - {x};
    if rest == {} {
      forall y | y in pool ensures Outranks(scores, x, y) {
        assert y !in rest;  // so y is x
      }
      assert IsBest(scores, pool, x);
    } else {
      BestExists(scores, rest);
      var b :| IsBest(scores, rest, b);
      if Outranks(scores, x, b) {
        forall y | y in pool ensures Outranks(scores, x, y) {
          if y != x { assert y in rest; }
        }
        assert IsBest(scores, pool, x);
      } else {
        forall y | y in pool ensures Outranks(scores, b, y) {
          if y != x { assert y in rest; }
        }
        assert IsBest(scores, pool, b);
      }
    }
  }

  /** The highest-ranked item of a non-empty pool. */
  function Best(scores: map<int, real>, pool: set<int>): (b: int)
    requires pool <= scores.Keys && pool != {}
    ensures IsBest(scores, pool, b)
  {
    BestExists(scores, pool);
    var b :| IsBest(scores, pool, b);
    b
  }

  /** The `k` highest-ranked items of `pool` (all of them if there are fewer),
      best first. */
  function Select(scores: map<int, real>, pool: set<int>, k: nat): (r: seq<int>)
    requires pool <= scores.Keys
    ensures |r| == if k <= |pool| then k else |pool|
    ensures forall i :: 0 <= i < |r| ==> r[i] in pool
    ensures forall i, j :: 0 <= i < j < |r| ==> r[i] != r[j] && Outranks(scores, r[i], r[j])
    ensures forall i, y :: 0 <= i < |r| && y in pool && y !in r ==> Outranks(scores, r[i], y)
    decreases k
  {
    if k == 0 || pool == {} then []
    else
      var b := Best(scores, pool);
      [b] + Select(scores, pool - {b}, k - 1)
  }

  /** The length of the Python slice `s[:n]` of a list `s` of length `len`: a
      negative `n` drops `-n` items from the end. */
  function TakeCount(len: nat, n: int): nat
  {
    if 0 <= n then (if n <= len then n else len)
    else if len + n >= 0 then len + n
    else 0
  }

  /** The ids of the first `topN` candidates in the order of descending score,
      as `sorted(..., reverse=True)[:topN]`. */
  function TopN(scores: map<int, real>, topN: int): (ids: seq<int>)
    ensures 0 <= topN ==> |ids| == if topN <= |scores.Keys| then topN else |scores.Keys|
    ensures topN < 0 ==> |ids| == if |scores.Keys| + topN >= 0 then |scores.Keys| + topN else 0
    ensures forall i :: 0 <= i < |ids| ==> ids[i] in scores
    ensures forall i, j :: 0 <= i < j < |ids| ==> ids[i] != ids[j] && scores[ids[i]] >= scores[ids[j]]
    ensures forall i, y :: 0 <= i < |ids| && y in scores && y !in ids ==>
      scores[ids[i]] > scores[y] || (scores[ids[i]] == scores[y] && ids[i] < y)
  {
    Select(scores, scores.Keys, TakeCount(|scores.Keys|, topN))
  }

  /** The rows of the title table whose item is among `ids`, in the title
      table's own order. */
  function FilterTitles(titles: seq<Title>, ids: seq<int>): (r: seq<Title>)
    ensures |r| <= |titles|
    ensures forall t :: t in r <==> t in titles && t.item in ids
  {
    if |titles| == 0 then []
    else if titles[0].item in ids then [titles[0]] + FilterTitles(titles[1..], ids)
    else FilterTitles(titles[1..], ids)
  }

  /** No requested id, no rows. */
  lemma {:induction false} FilterTitlesNone(titles: seq<Title>)
    ensures FilterTitles(titles, []) == []
  {
    if |titles| > 0 {
      FilterTitlesNone(titles[1..]);
    }
  }

  /** Filtering keeps the table's order: it distributes over concatenation. */
  lemma {:induction false} FilterTitlesAppend(a: seq<Title>, b: seq<Title>, ids: seq<int>)
    ensures FilterTitles(a + b, ids) == FilterTitles(a, ids) + FilterTitles(b, ids)
  {
    if |a| > 0 {
      assert (a + b)[0] == a[0];
      assert (a + b)[1..] == a[1..] + b;
      FilterTitlesAppend(a[1..], b, ids);
    } else {
      assert a + b == b;
    }
  }

  /** No two rows of the title table share an item id. */
  predicate UniqueItems(titles: seq<Title>)
  {
    forall i, j :: 0 <= i < j < |titles| ==> titles[i].item != titles[j].item
  }

  /** The item ids of some title rows. */
  function ItemSet(titles: seq<Title>): set<int>
  {
    set t | t in titles :: t.item
  }

  /** When item ids are unique in the title table, it returns at most one row
      per requested id. */
  lemma FilterTitlesAtMost(titles: seq<Title>, ids: seq<int>)
    requires UniqueItems(titles)
    ensures |FilterTitles(titles, ids)| <= |ids|
  {
    var r := FilterTitles(titles, ids);
    FilteredItemsCount(titles, ids);
    var a, b := ItemSet(r), set x | x in ids;
    assert a <= b;
    assert b == a + (b - a);
    ElementsAtMost(ids);
  }

  lemma {:induction false} FilteredItemsCount(titles: seq<Title>, ids: seq<int>)
    requires UniqueItems(titles)
    ensures |ItemSet(FilterTitles(titles, ids))| == |FilterTitles(titles, ids)|
  {
    if |titles| > 0 {
      var t, rest := titles[0], titles[1..];
      assert UniqueItems(rest) by {
        forall i, j | 0 <= i < j < |rest| ensures rest[i].item != rest[j].item {
          assert rest[i] == titles[i + 1] && rest[j] == titles[j + 1];
        }
      }
      FilteredItemsCount(rest, ids);
      if t.item in ids {
        var r' := FilterTitles(rest, ids);
        assert t.item !in ItemSet(r') by {
          forall u | u in r' ensures u.item != t.item {
            var j :| 0 <= j < |rest| && rest[j] == u;
            assert titles[j + 1] == u;
          }
        }
        ItemSetCons(t, r');
      }
    }
  }

  lemma ItemSetCons(t: Title, r: seq<Title>)
    ensures ItemSet([t] + r) == {t.item} + ItemSet(r)
  {
  }

  lemma {:induction false} ElementsAtMost(s: seq<int>)
    ensures |set x | x in s| <= |s|
  {
    if |s| > 0 {
      ElementsAtMost(s[1..]);
      assert (set x | x in s) == {s[0]} + (set x | x in s[1..]);
    }
  }
}
