/** Reciprocal rank fusion of the dense and the keyword hit list. */
module RankFusion {

  const RRF_K: nat := 60

  type Hit = (int, real)

  /** The contribution of position `rank`, counted from 0. */
  function Weight(rank: nat): real {
    1.0 / (RRF_K + rank + 1) as real
  }

  function Ids(hits: seq<Hit>): seq<int> {
    seq(|hits|, i requires 0 <= i < |hits| => hits[i].0)
  }

  /** What the positions of `id` in one ranked list add up to. */
  function Share(ids: seq<int>, id: int): real {
    if |ids| == 0 then 0.0
    else Share(ids[..|ids| - 1], id) + if ids[|ids| - 1] == id then Weight(|ids| - 1) else 0.0
  }

  /** Every id found by either list, with the sum of its shares. */
  ghost function ScoreMap(f: seq<int>, b: seq<int>): map<int, real> {
    map id | id in f + b :: Share(f, id) + Share(b, id)
  }

  /** Where an id was first met. */
  function FirstSeen(ids: seq<int>, id: int): nat {
    if |ids| == 0 || ids[0] == id then 0 else 1 + FirstSeen(ids[1..], id)
  }

  /** Higher score first; equal scores keep the order in which the ids were first met. */
  ghost predicate Outranks(x: int, y: int, scores: map<int, real>, order: seq<int>)
    requires x in scores && y in scores
  {
    scores[x] > scores[y] || (scores[x] == scores[y] && FirstSeen(order, x) < FirstSeen(order, y))
  }

  predicate Distinct(ids: seq<int>) {
    forall i, j :: 0 <= i < j < |ids| ==> ids[i] != ids[j]
  }

  /** The length of the Python slice `[:k]` of a list of `n` items. */
  function CutLength(k: int, n: nat): (m: nat)
    ensures m <= n
  {
    if k >= 0 then if k < n then k else n
    else if n + k >= 0 then n + k else 0
  }

  /** Best first, without ties. */
  ghost predicate Ranked(ids: seq<int>, scores: map<int, real>, order: seq<int>) {
    && (forall i :: 0 <= i < |ids| ==> ids[i] in scores)
    && (forall i, j :: 0 <= i < j < |ids| ==> Outranks(ids[i], ids[j], scores, order))
  }

  /** The ids kept by a merge: ranked, and no id left out outranks a kept one. */
  ghost predicate BestFirst(kept: seq<int>, scores: map<int, real>, order: seq<int>) {
    && Ranked(kept, scores, order)
    && (forall id, i :: id in scores && id !in kept && 0 <= i < |kept| ==> Outranks(kept[i], id, scores, order))
  }

  // ---------------------------------------------------------------- accumulating scores

  lemma WeightPositive(rank: nat)
    ensures Weight(rank) > 0.0
  {
  }

  lemma {:induction false} ShareNonNegative(ids: seq<int>, id: int)
    ensures Share(ids, id) >= 0.0
    ensures id !in ids ==> Share(ids, id) == 0.0
    ensures id in ids ==> Share(ids, id) > 0.0
  {
    if |ids| > 0 {
      ShareNonNegative(ids[..|ids| - 1], id);
      assert ids == ids[..|ids| - 1] + [ids[|ids| - 1]];
      WeightPositive(|ids| - 1);
    }
  }

  /** `seen` holds exactly the ids of `ids`, once each, in the order they were first met. */
  ghost predicate FirstSeenOrder(seen: seq<int>, ids: seq<int>) {
    && (forall id :: id in seen <==> id in ids)
    && (forall i, j :: 0 <= i < j < |seen| ==> FirstSeen(ids, seen[i]) < FirstSeen(ids, seen[j]))
  }

  lemma {:induction false} FirstSeenPush(ids: seq<int>, id: int, x: int)
    ensures id in ids ==> FirstSeen(ids + [x], id) == FirstSeen(ids, id) < |ids|
    ensures id !in ids && id == x ==> FirstSeen(ids + [x], id) == |ids|
  {
    if |ids| == 0 {
    } else if ids[0] != id {
      FirstSeenPush(ids[1..], id, x);
      assert (ids + [x])[1..] == ids[1..] + [x];
    }
  }

  lemma SeenPush(seen: seq<int>, ids: seq<int>, x: int)
    requires FirstSeenOrder(seen, ids)
    ensures FirstSeenOrder(Note(seen, x), ids + [x])
  {
    var seen' := Note(seen, x);
    forall i, j | 0 <= i < j < |seen'|
      ensures FirstSeen(ids + [x], seen'[i]) < FirstSeen(ids + [x], seen'[j])
    {
      assert seen[i] in seen;
      FirstSeenPush(ids, seen'[i], x);
      assert j < |seen| ==> seen[j] in seen;
      FirstSeenPush(ids, seen'[j], x);
    }
  }

  lemma NotYetSeen(ids: seq<int>, seen: seq<int>, before: seq<int>, id: int)
    requires FirstSeenOrder(seen, before + ids) && id !in seen
    ensures Share(ids, id) == 0.0
  {
    assert id in ids ==> id in before + ids;
    ShareNonNegative(ids, id);
  }

  /** The dictionary holds what it held before plus the shares of the list read so far. */
  ghost predicate Accumulated(scores: map<int, real>, scores0: map<int, real>, seen: seq<int>, ids: seq<int>) {
    && (forall id :: id in scores <==> id in seen)
    && (forall id :: id in scores0 ==> id in scores)
    && (forall id :: id in scores ==>
          scores[id] == (if id in scores0 then scores0[id] else 0.0) + Share(ids, id))
  }

  /** `score_map[idx] = score_map.get(idx, 0) + weight` */
  function Bump(scores: map<int, real>, id: int, rank: nat): map<int, real> {
    scores[id := (if id in scores then scores[id] else 0.0) + Weight(rank)]
  }

  function Note(seen: seq<int>, id: int): seq<int> {
    if id in seen then seen else seen + [id]
  }

  lemma BumpAccumulates(scores: map<int, real>, scores0: map<int, real>, seen: seq<int>, ids: seq<int>, x: int)
    requires Accumulated(scores, scores0, seen, ids)
    requires x !in seen ==> Share(ids, x) == 0.0
    ensures Accumulated(Bump(scores, x, |ids|), scores0, Note(seen, x), ids + [x])
  {
    assert (ids + [x])[..|ids|] == ids;
  }

  lemma AccumulateStep(scores: map<int, real>, scores0: map<int, real>, seen: seq<int>,
                       before: seq<int>, ids: seq<int>, x: int)
    requires FirstSeenOrder(seen, before + ids) && Accumulated(scores, scores0, seen, ids)
    ensures FirstSeenOrder(Note(seen, x), before + (ids + [x]))
    ensures Accumulated(Bump(scores, x, |ids|), scores0, Note(seen, x), ids + [x])
  {
    assert before + (ids + [x]) == before + ids + [x];
    SeenPush(seen, before + ids, x);
    if x !in seen {
      NotYetSeen(ids, seen, before, x);
    }
    BumpAccumulates(scores, scores0, seen, ids, x);
  }

  lemma AccumulateNothing(scores0: map<int, real>, seen0: seq<int>, before: seq<int>)
    requires FirstSeenOrder(seen0, before) && forall id :: id in scores0 <==> id in seen0
    ensures FirstSeenOrder(seen0, before + []) && Accumulated(scores0, scores0, seen0, [])
  {
    assert before + [] == before;
  }

  lemma NextPrefix(ids: seq<int>, k: nat)
    requires k < |ids|
    ensures ids[..k + 1] == ids[..k] + [ids[k]]
  {
  }

  /** One of the two accumulation loops; `seen` is the dictionary's insertion order. */
  method Accumulate(hits: seq<Hit>, scores0: map<int, real>, seen0: seq<int>, ghost before: seq<int>)
      returns (scores: map<int, real>, seen: seq<int>)
    requires FirstSeenOrder(seen0, before)
    requires forall id :: id in scores0 <==> id in seen0
    ensures FirstSeenOrder(seen, before + Ids(hits))
    ensures Accumulated(scores, scores0, seen, Ids(hits))
  {
    scores, seen := scores0, seen0;
    AccumulateNothing(scores0, seen0, before);
    ghost var ids := Ids(hits);
    assert ids[..0] == [];
    for rank := 0 to |hits|
      invariant FirstSeenOrder(seen, before + ids[..rank]) && Accumulated(scores, scores0, seen, ids[..rank])
    {
      var id := hits[rank].0;
      AccumulateStep(scores, scores0, seen, before, ids[..rank], id);
      NextPrefix(ids, rank);
      seen := Note(seen, id);
      scores := Bump(scores, id, rank);
    }
    assert ids[..|hits|] == ids;
  }

  // ---------------------------------------------------------------- the stable descending sort

  /** Python's `sorted(..., reverse=True)` is stable; one insertion from the right. */
  function Insert(sorted: seq<int>, x: int, scores: map<int, real>): seq<int>
    requires x in scores && forall y :: y in sorted ==> y in scores
  {
    if |sorted| == 0 then [x]
    else
      var init, last := sorted[..|sorted| - 1], sorted[|sorted| - 1];
      if scores[last] >= scores[x] then sorted + [x] else Insert(init, x, scores) + [last]
  }

  lemma {:induction false} InsertMembers(sorted: seq<int>, x: int, scores: map<int, real>)
    requires x in scores && forall y :: y in sorted ==> y in scores
    ensures forall y :: y in Insert(sorted, x, scores) <==> y in sorted || y == x
    ensures |Insert(sorted, x, scores)| == |sorted| + 1
  {
    if |sorted| > 0 {
      InsertMembers(sorted[..|sorted| - 1], x, scores);
      assert sorted == sorted[..|sorted| - 1] + [sorted[|sorted| - 1]];
    }
  }

  lemma OrderedPush(init: seq<int>, last: int, scores: map<int, real>, order: seq<int>)
    requires Ranked(init, scores, order) && last in scores
    requires forall y :: y in init ==> y in scores && Outranks(y, last, scores, order)
    ensures Ranked(init + [last], scores, order)
  {
    assert forall i :: 0 <= i < |init| ==> init[i] in init;
  }

  lemma {:induction false} InsertOrdered(sorted: seq<int>, x: int, scores: map<int, real>, order: seq<int>)
    requires Ranked(sorted, scores, order) && x in scores
    requires forall y :: y in sorted ==> y in scores && FirstSeen(order, y) < FirstSeen(order, x)
    ensures Ranked(Insert(sorted, x, scores), scores, order)
  {
    if |sorted| > 0 {
      var init, last := sorted[..|sorted| - 1], sorted[|sorted| - 1];
      forall y | y in init
        ensures y in sorted && Outranks(y, last, scores, order)
      {
        var m :| 0 <= m < |init| && init[m] == y;
        assert sorted[m] == y;
      }
      if scores[last] >= scores[x] {
        assert last in sorted;
        assert forall y :: y in sorted ==> y == last || y in init by {
          assert sorted == init + [last];
        }
        OrderedPush(sorted, x, scores, order);
      } else {
        InsertOrdered(init, x, scores, order);
        InsertMembers(init, x, scores);
        OrderedPush(Insert(init, x, scores), last, scores, order);
      }
    }
  }

  method SortByScore(order: seq<int>, scores: map<int, real>, ghost ids: seq<int>) returns (sorted: seq<int>)
    requires FirstSeenOrder(order, ids) && forall id :: id in order ==> id in scores
    ensures Ranked(sorted, scores, ids) && |sorted| == |order|
    ensures forall id :: id in sorted <==> id in ids
  {
    sorted := [];
    for n := 0 to |order|
      invariant Ranked(sorted, scores, ids) && |sorted| == n
      invariant forall id :: id in sorted <==> id in order[..n]
    {
      assert order[n] in order;
      forall y | y in sorted
        ensures y in scores && FirstSeen(ids, y) < FirstSeen(ids, order[n])
      {
        var m :| 0 <= m < n && order[m] == y;
        assert order[m] in order;
      }
      InsertOrdered(sorted, order[n], scores, ids);
      InsertMembers(sorted, order[n], scores);
      sorted := Insert(sorted, order[n], scores);
      assert order[..n + 1] == order[..n] + [order[n]];
    }
    assert order[..|order|] == order;
  }

  // ---------------------------------------------------------------- the merge

  function Ratio(x: real, y: real): real {
    if y == 0.0 then 0.0 else x / y
  }

  /** Every kept id carries its share of the best score. */
  ghost predicate Normalised(merged: seq<Hit>, scores: map<int, real>) {
    forall i :: 0 <= i < |merged| ==>
      && merged[i].0 in scores && merged[0].0 in scores && scores[merged[0].0] > 0.0
      && merged[i].1 * scores[merged[0].0] == scores[merged[i].0]
  }

  lemma SharesAreRatios(merged: seq<Hit>, scores: map<int, real>, i: nat)
    requires Normalised(merged, scores) && i < |merged|
    ensures merged[i].1 == Ratio(scores[merged[i].0], scores[merged[0].0])
  {
    QuotientIs(merged[i].1, scores[merged[0].0]);
  }

  lemma QuotientIs(q: real, y: real)
    requires y > 0.0
    ensures Ratio(q * y, y) == q
  {
    assert q * y / y == q;
  }

  lemma RatioTimes(x: real, y: real)
    requires y > 0.0
    ensures Ratio(x, y) * y == x
  {
  }

  lemma ScoresPositive(f: seq<int>, b: seq<int>, id: int)
    requires id in ScoreMap(f, b)
    ensures ScoreMap(f, b)[id] > 0.0
  {
    ShareNonNegative(f, id);
    ShareNonNegative(b, id);
  }

  method MaxScore(result: seq<int>, scores: map<int, real>, ghost order: seq<int>) returns (best: real)
    requires Ranked(result, scores, order) && |result| > 0
    ensures best == scores[result[0]]
  {
    best := scores[result[0]];
    for i := 1 to |result|
      invariant best == scores[result[0]]
    {
      assert Outranks(result[0], result[i], scores, order);
      best := if scores[result[i]] > best then scores[result[i]] else best;
    }
  }

  /** Find the largest score and divide by it. */
  method Normalise(result: seq<int>, scores: map<int, real>, ghost order: seq<int>) returns (merged: seq<Hit>)
    requires Ranked(result, scores, order) && forall id :: id in scores ==> scores[id] > 0.0
    ensures Ids(merged) == result && Normalised(merged, scores)
  {
    merged := [];
    if |result| > 0 {
      var best := MaxScore(result, scores, order);
      for i := 0 to |result|
        invariant |merged| == i
        invariant forall m :: 0 <= m < i ==> merged[m].0 == result[m] && merged[m].1 * best == scores[result[m]]
      {
        RatioTimes(scores[result[i]], best);
        merged := merged + [(result[i], Ratio(scores[result[i]], best))];
      }
    }
  }

  /** `m` of `n` items are left by the slice `[:k]`: at most `k` of them, or all but the last `-k`. */
  predicate Cut(m: nat, k: int, n: nat) {
    && (k >= 0 ==> m <= k && m <= n && (m == k || m == n))
    && (k < 0 ==> m == n + k || (m == 0 && n + k < 0))
  }

  method RrfMerge(faissHits: seq<Hit>, bm25Hits: seq<Hit>, k: int) returns (merged: seq<Hit>)
    ensures var f, b := Ids(faissHits), Ids(bm25Hits);
            && BestFirst(Ids(merged), ScoreMap(f, b), f + b)
            && Normalised(merged, ScoreMap(f, b))
            && Cut(|merged|, k, |ScoreMap(f, b)|)
  {
    ghost var f, b := Ids(faissHits), Ids(bm25Hits);
    var scores, seen := Accumulate(faissHits, map[], [], []);
    assert [] + f == f;
    ghost var scores1 := scores;
    scores, seen := Accumulate(bm25Hits, scores, seen, f);
    ScoresAreSums(scores1, scores, seen, f, b);
    var sorted := SortByScore(seen, scores, f + b);
    DistinctCount(sorted, scores, f + b);
    assert (set id | id in sorted) == scores.Keys;
    var result := sorted[..CutLength(k, |sorted|)];
    SliceIsBestFirst(f + b, scores, sorted, result);
    forall id | id in scores
      ensures scores[id] > 0.0
    {
      ScoresPositive(f, b, id);
    }
    merged := Normalise(result, scores, f + b);
  }

  lemma ScoresAreSums(scores1: map<int, real>, scores: map<int, real>, seen: seq<int>, f: seq<int>, b: seq<int>)
    requires FirstSeenOrder(seen, f + b)
    requires forall id :: id in scores1 ==> scores1[id] == 0.0 + Share(f, id)
    requires forall id :: id in f ==> id in scores1
    requires Accumulated(scores, scores1, seen, b)
    ensures scores == ScoreMap(f, b)
  {
    forall id
      ensures id in scores <==> id in ScoreMap(f, b)
    {
      assert id in seen <==> id in f + b;
    }
    forall id | id in scores
      ensures scores[id] == Share(f, id) + Share(b, id)
    {
      if id !in scores1 {
        ShareNonNegative(f, id);
      }
    }
  }

  lemma {:induction false} DistinctCount(sorted: seq<int>, scores: map<int, real>, ids: seq<int>)
    requires Ranked(sorted, scores, ids)
    ensures |set id | id in sorted| == |sorted|
  {
    if |sorted| > 0 {
      var init, last := sorted[..|sorted| - 1], sorted[|sorted| - 1];
      DistinctCount(init, scores, ids);
      forall m | 0 <= m < |init|
        ensures init[m] != last
      {
        assert Outranks(sorted[m], sorted[|sorted| - 1], scores, ids);
      }
      assert (set id | id in sorted) == (set id | id in init) + {last} by {
        assert sorted == init + [last];
      }
    }
  }

  lemma SliceIsBestFirst(order: seq<int>, scores: map<int, real>, sorted: seq<int>, result: seq<int>)
    requires Ranked(sorted, scores, order) && result <= sorted
    requires forall id :: id in scores ==> id in sorted
    ensures BestFirst(result, scores, order)
  {
    forall id, i | id in scores && id !in result && 0 <= i < |result|
      ensures Outranks(result[i], id, scores, order)
    {
      var rest := sorted[|result|..];
      assert sorted == result + rest;
      var j :| 0 <= j < |rest| && rest[j] == id;
      assert Outranks(sorted[i], sorted[|result| + j], scores, order);
    }
  }

  /** The kept list is determined by its length alone. */
  lemma {:induction false} BestFirstUnique(x: seq<int>, y: seq<int>, scores: map<int, real>, order: seq<int>, n: nat)
    requires BestFirst(x, scores, order) && BestFirst(y, scores, order) && |x| == |y| && n <= |x|
    ensures x[..n] == y[..n]
  {
    if n > 0 {
      BestFirstUnique(x, y, scores, order, n - 1);
      if x[n - 1] != y[n - 1] {
        AheadOfOther(x, y, scores, order, n - 1);
        AheadOfOther(y, x, scores, order, n - 1);
      }
    }
  }

  lemma AheadOfOther(x: seq<int>, y: seq<int>, scores: map<int, real>, order: seq<int>, i: nat)
    requires Ranked(x, scores, order) && BestFirst(y, scores, order) && i < |x| && i < |y|
    requires x[..i] == y[..i] && x[i] != y[i]
    ensures Outranks(y[i], x[i], scores, order)
  {
    forall j | 0 <= j < i
      ensures y[j] != x[i]
    {
      assert x[j] == x[..i][j] == y[..i][j] == y[j];
      assert Outranks(x[j], x[i], scores, order);
    }
    if x[i] in y {
      var j :| 0 <= j < |y| && y[j] == x[i];
      assert Outranks(y[i], y[j], scores, order);
    }
  }

  // ---------------------------------------------------------------- bounds for duplicate-free lists

  lemma Reciprocal(a: real, b: real)
    requires 0.0 < a <= b
    ensures 0.0 < 1.0 / b <= 1.0 / a
  {
  }

  lemma WeightBounds(rank: nat, n: nat)
    requires rank < n
    ensures 1.0 / (RRF_K + n) as real <= Weight(rank) <= 1.0 / 61.0
  {
    Reciprocal((RRF_K + rank + 1) as real, (RRF_K + n) as real);
    Reciprocal(61.0, (RRF_K + rank + 1) as real);
  }

  /** In a list without duplicates of length at most `n`, an id has one weight, or none. */
  lemma {:induction false} ShareBounds(ids: seq<int>, id: int, n: nat)
    requires Distinct(ids) && |ids| <= n
    ensures id !in ids ==> Share(ids, id) == 0.0
    ensures id in ids ==> 1.0 / (RRF_K + n) as real <= Share(ids, id) <= 1.0 / 61.0
  {
    if |ids| > 0 {
      var init, last := ids[..|ids| - 1], ids[|ids| - 1];
      ShareBounds(init, id, n);
      assert ids == init + [last];
      if last == id {
        assert id !in init;
        WeightBounds(|ids| - 1, n);
      }
    }
  }

  /** All scores lie between the weight of the last position and twice that of the first. */
  ghost predicate Bounded(scores: map<int, real>, d: real)
    requires d > 0.0
  {
    forall id :: id in scores ==> 1.0 / d <= scores[id] <= 2.0 / 61.0
  }

  lemma ScoreBounds(f: seq<int>, b: seq<int>, n: nat)
    requires Distinct(f) && Distinct(b) && |f| <= n && |b| <= n
    ensures Bounded(ScoreMap(f, b), (RRF_K + n) as real)
  {
    forall id | id in f + b
      ensures 1.0 / (RRF_K + n) as real <= Share(f, id) + Share(b, id) <= 2.0 / 61.0
    {
      ShareBounds(f, id, n);
      ShareBounds(b, id, n);
      Reciprocal(61.0, (RRF_K + n) as real);
    }
  }

  lemma ScoreOfBoth(f: seq<int>, b: seq<int>, n: nat, id: int)
    requires Distinct(f) && Distinct(b) && |f| <= n && |b| <= n && id in f + b
    ensures id in f && id in b ==> ScoreMap(f, b)[id] >= 2.0 / (RRF_K + n) as real
    ensures !(id in f && id in b) ==> ScoreMap(f, b)[id] <= 1.0 / 61.0
  {
    ShareBounds(f, id, n);
    ShareBounds(b, id, n);
    Halves((RRF_K + n) as real);
  }

  lemma Halves(x: real)
    requires x > 0.0
    ensures 2.0 / x == 1.0 / x + 1.0 / x
  {
  }

  lemma NoBetter(kept: seq<int>, scores: map<int, real>, order: seq<int>, i: nat, j: nat)
    requires Ranked(kept, scores, order) && i <= j < |kept|
    ensures scores[kept[j]] <= scores[kept[i]]
  {
    assert i < j ==> Outranks(kept[i], kept[j], scores, order);
  }

  /** Normalised scores: the best one is exactly 1, none exceeds it, and none falls below 61 / (2 d),
      where d is 60 + n for lists of at most n hits. */
  lemma ScoresInRange(merged: seq<Hit>, scores: map<int, real>, order: seq<int>, d: real, i: nat)
    requires Ranked(Ids(merged), scores, order) && Normalised(merged, scores) && i < |merged|
    requires d > 0.0 && Bounded(scores, d)
    ensures merged[0].1 == 1.0
    ensures 0.0 < 61.0 / (2.0 * d) <= merged[i].1 <= 1.0
  {
    NoBetter(Ids(merged), scores, order, 0, i);
    SharesAreRatios(merged, scores, 0);
    SharesAreRatios(merged, scores, i);
    RatioBounds(scores[merged[i].0], scores[merged[0].0], d);
  }

  /** The merged list is sorted by score. */
  lemma ScoresDescend(merged: seq<Hit>, scores: map<int, real>, order: seq<int>, i: nat, j: nat)
    requires Ranked(Ids(merged), scores, order) && Normalised(merged, scores) && i <= j < |merged|
    requires scores[merged[0].0] > 0.0
    ensures merged[j].1 <= merged[i].1
  {
    NoBetter(Ids(merged), scores, order, i, j);
    SharesAreRatios(merged, scores, i);
    SharesAreRatios(merged, scores, j);
    RatioMonotone(scores[merged[j].0], scores[merged[i].0], scores[merged[0].0]);
  }

  /** What a merge of two duplicate-free lists of at most `n` hits promises:
      scores descend from exactly 1 and none falls below 61 / (2 (60 + n)). */
  lemma MergeGuarantees(f: seq<int>, b: seq<int>, n: nat, merged: seq<Hit>, i: nat, j: nat)
    requires Distinct(f) && Distinct(b) && |f| <= n && |b| <= n && i <= j < |merged|
    requires BestFirst(Ids(merged), ScoreMap(f, b), f + b) && Normalised(merged, ScoreMap(f, b))
    ensures merged[0].1 == 1.0 && 61.0 / (2.0 * (RRF_K + n) as real) <= merged[j].1 <= merged[i].1 <= 1.0
  {
    var d := (RRF_K + n) as real;
    ScoreBounds(f, b, n);
    ScoresInRange(merged, ScoreMap(f, b), f + b, d, i);
    ScoresInRange(merged, ScoreMap(f, b), f + b, d, j);
    ScoresDescend(merged, ScoreMap(f, b), f + b, i, j);
  }

  lemma RatioMonotone(x: real, y: real, best: real)
    requires x <= y && best > 0.0
    ensures Ratio(x, best) <= Ratio(y, best)
  {
  }

  lemma RatioBounds(here: real, best: real, d: real)
    requires d > 0.0 && 0.0 < 1.0 / d <= here <= best <= 2.0 / 61.0
    ensures Ratio(best, best) == 1.0
    ensures 0.0 < 61.0 / (2.0 * d) <= Ratio(here, best) <= 1.0
  {
    var r := here / best;
    assert r * best == here;
    assert r <= 1.0;
    assert here * d >= 1.0 by {
      assert (1.0 / d) * d == 1.0;
    }
    assert r * (2.0 / 61.0) >= here by {
      assert r >= 0.0;
    }
    assert r * (2.0 / 61.0) * d >= here * d;
    assert r * (2.0 * d) >= 61.0;
  }

  lemma TwoLastsBeatOneFirst(n: nat)
    ensures n < 62 <==> 2.0 / (RRF_K + n) as real > 1.0 / 61.0
  {
    var d := (RRF_K + n) as real;
    assert (2.0 / d) * d == 2.0;
    assert 2.0 / 122.0 == 1.0 / 61.0;
    if n < 62 {
      assert d <= 121.0;
      assert (2.0 / d) * 121.0 >= (2.0 / d) * d;
    } else {
      assert (2.0 / d) * 122.0 <= (2.0 / d) * d;
    }
  }

  /** Below 62 hits per list, whatever both lists found is ranked before
      everything only one of them found, and is kept if any of that is kept. */
  lemma FoundByBothComesFirst(f: seq<int>, b: seq<int>, kept: seq<int>, n: nat, x: int, j: nat)
    requires BestFirst(kept, ScoreMap(f, b), f + b)
    requires Distinct(f) && Distinct(b) && |f| <= n && |b| <= n && n < 62
    requires x in f && x in b && j < |kept| && !(kept[j] in f && kept[j] in b)
    ensures exists i :: 0 <= i < j && kept[i] == x
  {
    var scores, order := ScoreMap(f, b), f + b;
    ScoreOfBoth(f, b, n, x);
    ScoreOfBoth(f, b, n, kept[j]);
    TwoLastsBeatOneFirst(n);
    assert scores[x] > scores[kept[j]];
    BetterIsEarlier(kept, scores, order, x, j);
  }

  lemma BetterIsEarlier(kept: seq<int>, scores: map<int, real>, order: seq<int>, x: int, j: nat)
    requires BestFirst(kept, scores, order) && j < |kept| && x in scores && scores[x] > scores[kept[j]]
    ensures exists i :: 0 <= i < j && kept[i] == x
  {
    forall i | j < i < |kept|
      ensures kept[i] != x
    {
      assert Outranks(kept[j], kept[i], scores, order);
    }
    assert !Outranks(kept[j], x, scores, order);
    assert x in kept;
    var i :| 0 <= i < |kept| && kept[i] == x;
  }

  /** From 62 hits per list on the guarantee is gone: an id both lists rank last
      does not outrank the first hit of one list. */
  lemma SixtyTwoIsTheLimit(n: nat)
    requires n >= 62
    ensures exists f: seq<int>, b: seq<int> ::
              && |f| == |b| == n && Distinct(f) && Distinct(b)
              && f[n - 1] == b[n - 1] && f[0] !in b
              && !Outranks(f[n - 1], f[0], ScoreMap(f, b), f + b)
  {
    var f := seq(n, i => if i == n - 1 then 0 else i + 1);
    var b := seq(n, i => if i == n - 1 then 0 else -i - 1);
    assert Distinct(f) && Distinct(b);
    assert f[n - 1] in f + b && f[0] in f + b && f[0] !in b;
    assert FirstSeen(f + b, 1) == 0;
    ShareAt(f, n - 1);
    ShareAt(b, n - 1);
    ShareAt(f, 0);
    ShareNonNegative(b, 1);
    TwoLastsBeatOneFirst(n);
    Halves((RRF_K + n) as real);
    assert !Outranks(f[n - 1], f[0], ScoreMap(f, b), f + b);
  }

  lemma {:induction false} ShareAt(ids: seq<int>, i: nat)
    requires Distinct(ids) && i < |ids|
    ensures Share(ids, ids[i]) == Weight(i)
  {
    var init, last := ids[..|ids| - 1], ids[|ids| - 1];
    if i == |ids| - 1 {
      assert last !in init;
      ShareNonNegative(init, last);
    } else {
      ShareAt(init, i);
    }
  }

  // ---------------------------------------------------------------- what a rank is worth

  /** The score of an id that the lists rank `i` and `j`, counted from 0, is
      1 / (61 + i) + 1 / (61 + j); one list alone gives its own term. */
  lemma ScoreOfRanks(f: seq<int>, b: seq<int>, id: int)
    requires Distinct(f) && Distinct(b)
    ensures forall i :: 0 <= i < |f| && f[i] == id && id !in b ==> ScoreMap(f, b)[id] == 1.0 / (61 + i) as real
    ensures forall j :: 0 <= j < |b| && b[j] == id && id !in f ==> ScoreMap(f, b)[id] == 1.0 / (61 + j) as real
    ensures forall i, j :: 0 <= i < |f| && f[i] == id && 0 <= j < |b| && b[j] == id ==>
              ScoreMap(f, b)[id] == 1.0 / (61 + i) as real + 1.0 / (61 + j) as real
  {
    ShareNonNegative(f, id);
    ShareNonNegative(b, id);
    forall i | 0 <= i < |f| && f[i] == id
      ensures Share(f, id) == 1.0 / (61 + i) as real
    {
      ShareAt(f, i);
    }
    forall j | 0 <= j < |b| && b[j] == id
      ensures Share(b, id) == 1.0 / (61 + j) as real
    {
      ShareAt(b, j);
    }
  }

  /** One list ranks the id `r`, counted from 0, and the other does not find it. */
  predicate FoundOnceAt(f: seq<int>, b: seq<int>, id: int, r: nat) {
    (r < |f| && f[r] == id && id !in b) || (r < |b| && b[r] == id && id !in f)
  }

  lemma ScoreFoundOnce(f: seq<int>, b: seq<int>, id: int, r: nat)
    requires Distinct(f) && Distinct(b) && FoundOnceAt(f, b, id, r)
    ensures id in ScoreMap(f, b) && ScoreMap(f, b)[id] == 1.0 / (61 + r) as real
  {
    ScoreOfRanks(f, b, id);
  }

  lemma StrictReciprocal(a: real, b: real)
    requires 0.0 < a < b
    ensures 1.0 / b < 1.0 / a
  {
  }

  lemma RatioStrict(x: real, y: real, best: real)
    requires x < y && best > 0.0
    ensures Ratio(x, best) < Ratio(y, best)
  {
  }

  /** Of two ids that one list each has found, the one at the smaller rank comes
      strictly first in the answer and scores strictly more. */
  lemma SmallerRankComesFirst(f: seq<int>, b: seq<int>, merged: seq<Hit>, x: int, rx: nat, y: int, ry: nat, j: nat)
    requires Distinct(f) && Distinct(b) && FoundOnceAt(f, b, x, rx) && FoundOnceAt(f, b, y, ry) && rx < ry
    requires BestFirst(Ids(merged), ScoreMap(f, b), f + b) && Normalised(merged, ScoreMap(f, b))
    requires j < |merged| && merged[j].0 == y
    ensures exists i :: 0 <= i < j && merged[i].0 == x && merged[i].1 > merged[j].1
  {
    var scores, kept := ScoreMap(f, b), Ids(merged);
    ScoreFoundOnce(f, b, x, rx);
    ScoreFoundOnce(f, b, y, ry);
    StrictReciprocal((61 + rx) as real, (61 + ry) as real);
    BetterIsEarlier(kept, scores, f + b, x, j);
    var i :| 0 <= i < j && kept[i] == x;
    NoBetter(kept, scores, f + b, 0, j);
    Reciprocal(1.0, (61 + ry) as real);
    RatioStrict(scores[y], scores[x], scores[kept[0]]);
    SharesAreRatios(merged, scores, i);
    SharesAreRatios(merged, scores, j);
  }

  /** At equal ranks the dense list's id comes first. */
  lemma EqualRanksDenseFirst(f: seq<int>, b: seq<int>, kept: seq<int>, r: nat, j: nat)
    requires Distinct(f) && Distinct(b) && r < |f| && r < |b| && f[r] !in b && b[r] !in f
    requires BestFirst(kept, ScoreMap(f, b), f + b) && j < |kept| && kept[j] == b[r]
    ensures exists i :: 0 <= i < j && kept[i] == f[r]
  {
    var scores, x, y := ScoreMap(f, b), f[r], b[r];
    ScoreFoundOnce(f, b, x, r);
    ScoreFoundOnce(f, b, y, r);
    SeenInFirst(f, b, x);
    SeenInSecond(f, b, y);
    assert Outranks(x, y, scores, f + b) && !Outranks(y, x, scores, f + b);
    forall i | j < i < |kept|
      ensures kept[i] != x
    {
      assert Outranks(kept[j], kept[i], scores, f + b);
    }
    assert x in kept;
    var i :| 0 <= i < |kept| && kept[i] == x;
  }

  lemma {:induction false} SeenInFirst(f: seq<int>, b: seq<int>, id: int)
    requires id in f
    ensures FirstSeen(f + b, id) < |f|
  {
    if f[0] != id {
      assert (f + b)[1..] == f[1..] + b;
      SeenInFirst(f[1..], b, id);
    }
  }

  lemma {:induction false} SeenInSecond(f: seq<int>, b: seq<int>, id: int)
    requires id !in f
    ensures FirstSeen(f + b, id) >= |f|
  {
    if |f| > 0 {
      assert (f + b)[1..] == f[1..] + b;
      SeenInSecond(f[1..], b, id);
    }
  }
}
