/** Reciprocal-rank fusion of ranked candidate lists. */
module RrfFusion {
  import opened Base
  import opened Sorting

  const RRF_K: real := 60.0

  datatype Hit = Hit(id: Uuid, text: string)

  /** The contribution of rank `rank`, counted from zero. */
  function Share(rank: nat): (r: real)
    ensures r > 0.0
  {
    1.0 / (RRF_K + rank as real)
  }

  /** Rank `rank` gives one part in `60 + rank`. */
  lemma ShareIs(rank: nat)
    ensures Share(rank) * (60 + rank) as real == 1.0
  {
  }

  /** What `list` gives to chunk `id`: one share per occurrence. */
  function ListScore(list: seq<Hit>, id: Uuid): real {
    if list == [] then 0.0
    else
      var n := |list| - 1;
      ListScore(list[..n], id) + (if list[n].id == id then Share(n) else 0.0)
  }

  function Score(lists: seq<seq<Hit>>, id: Uuid): real {
    if lists == [] then 0.0
    else Score(lists[..|lists| - 1], id) + ListScore(lists[|lists| - 1], id)
  }

  /** The scores of a chunk in several lists add up. */
  lemma {:induction false} ScoreAdds(a: seq<seq<Hit>>, b: seq<seq<Hit>>, id: Uuid)
    ensures Score(a + b, id) == Score(a, id) + Score(b, id)
    ensures forall list :: Score([list], id) == ListScore(list, id)
    decreases |b|
  {
    forall list ensures Score([list], id) == ListScore(list, id) {
      assert [list][..0] == [];
    }
    if b == [] {
      assert a + b == a;
    } else {
      assert (a + b)[..|a + b| - 1] == a + b[..|b| - 1];
      ScoreAdds(a, b[..|b| - 1], id);
    }
  }

  predicate Occurs(list: seq<Hit>, id: Uuid) { exists i :: 0 <= i < |list| && list[i].id == id }

  /** All hits in reading order: list after list, best rank first. */
  function Flat(lists: seq<seq<Hit>>): seq<Hit> {
    if lists == [] then [] else Flat(lists[..|lists| - 1]) + lists[|lists| - 1]
  }

  /** `hits` keeps, for every chunk met so far, the first hit that showed it. */
  ghost predicate KeepsFirst(seen: seq<Hit>, hits: map<Uuid, Hit>) {
    && (forall id :: id in hits <==> Occurs(seen, id))
    && (forall id :: id in hits ==>
          hits[id].id == id && exists i :: 0 <= i < |seen| && IsFirst(seen, i) && seen[i] == hits[id])
  }

  ghost predicate IsFirst(seen: seq<Hit>, i: nat)
    requires i < |seen|
  {
    forall j :: 0 <= j < i ==> seen[j].id != seen[i].id
  }

  lemma KeepsFirstStep(seen: seq<Hit>, hits: map<Uuid, Hit>, h: Hit)
    requires KeepsFirst(seen, hits)
    ensures KeepsFirst(seen + [h], if h.id in hits then hits else hits[h.id := h])
  {
    var more, after := seen + [h], if h.id in hits then hits else hits[h.id := h];
    forall id ensures Occurs(more, id) <==> Occurs(seen, id) || id == h.id {
      if Occurs(seen, id) {
        var i :| 0 <= i < |seen| && seen[i].id == id;
        assert more[i].id == id;
      }
      if id == h.id { assert more[|seen|].id == id; }
    }
    forall id | id in after
      ensures after[id].id == id && exists i :: 0 <= i < |more| && IsFirst(more, i) && more[i] == after[id]
    {
      if id in hits {
        var i :| 0 <= i < |seen| && IsFirst(seen, i) && seen[i] == hits[id];
        assert IsFirst(more, i) && more[i] == after[id];
      } else {
        assert IsFirst(more, |seen|) && more[|seen|] == after[id];
      }
    }
  }

  function Lookup(scores: map<Uuid, real>, id: Uuid): real { if id in scores then scores[id] else 0.0 }

  /** The inner loop: one list. */
  method AddList(list: seq<Hit>, scores0: map<Uuid, real>, hits0: map<Uuid, Hit>, ghost seen: seq<Hit>)
    returns (scores: map<Uuid, real>, hits: map<Uuid, Hit>)
    requires KeepsFirst(seen, hits0) && scores0.Keys == hits0.Keys
    ensures KeepsFirst(seen + list, hits) && scores.Keys == hits.Keys
    ensures forall id :: Lookup(scores, id) == Lookup(scores0, id) + ListScore(list, id)
  {
    scores, hits := scores0, hits0;
    assert seen + list[..0] == seen;
    for rank := 0 to |list|
      invariant KeepsFirst(seen + list[..rank], hits) && scores.Keys == hits.Keys
      invariant forall id :: Lookup(scores, id) == Lookup(scores0, id) + ListScore(list[..rank], id)
    {
      var hit := list[rank];
      assert list[..rank + 1][..rank] == list[..rank];
      assert (seen + list[..rank]) + [hit] == seen + list[..rank + 1];
      KeepsFirstStep(seen + list[..rank], hits, hit);
      scores := scores[hit.id := Lookup(scores, hit.id) + Share(rank)];
      if hit.id !in hits {
        hits := hits[hit.id := hit];
      }
    }
    assert list[..|list|] == list;
  }

  /** `h` is the first hit, in reading order, of its chunk. */
  ghost predicate IsShown(seen: seq<Hit>, h: Hit) {
    exists i :: 0 <= i < |seen| && IsFirst(seen, i) && seen[i] == h
  }

  /** The fused ranking: the chunks of all lists without repetition, each shown by its first hit and
      carrying its summed score, best score first. */
  ghost predicate IsFusion(lists: seq<seq<Hit>>, fused: seq<(Hit, real)>) {
    && Descending(fused)
    && (forall i, j :: 0 <= i < j < |fused| ==> fused[i].0.id != fused[j].0.id)
    && (forall i :: 0 <= i < |fused| ==> fused[i].1 == Score(lists, fused[i].0.id) && IsShown(Flat(lists), fused[i].0))
    && (forall id :: Occurs(Flat(lists), id) ==> exists i :: 0 <= i < |fused| && fused[i].0.id == id)
  }

  /** Attach its hit to every ranked id. */
  function Attach(ranking: seq<(Uuid, real)>, hits: map<Uuid, Hit>): (fused: seq<(Hit, real)>)
    requires forall e :: e in ranking ==> e.0 in hits
    ensures |fused| == |ranking|
    ensures forall i :: 0 <= i < |ranking| ==> fused[i] == (hits[ranking[i].0], ranking[i].1)
  {
    if ranking == [] then []
    else
      assert ranking[0] in ranking;
      [(hits[ranking[0].0], ranking[0].1)] + Attach(ranking[1..], hits)
  }

  lemma RankOf(scored: map<Uuid, real>, ranking: seq<(Uuid, real)>, id: Uuid) returns (i: nat)
    requires IsRanking(scored, ranking) && id in scored
    ensures i < |ranking| && ranking[i].0 == id
  {
    assert (id, scored[id]) in ranking;
    i :| 0 <= i < |ranking| && ranking[i] == (id, scored[id]);
  }

  lemma KeptAreShown(seen: seq<Hit>, hits: map<Uuid, Hit>)
    requires KeepsFirst(seen, hits)
    ensures forall id :: id in hits ==> hits[id].id == id && IsShown(seen, hits[id])
    ensures forall id :: Occurs(seen, id) ==> id in hits
  {
  }

  lemma RankedApart(scored: map<Uuid, real>, ranking: seq<(Uuid, real)>, fused: seq<(Hit, real)>)
    requires IsRanking(scored, ranking) && |fused| == |ranking|
    requires forall i :: 0 <= i < |fused| ==> fused[i].0.id == ranking[i].0 && fused[i].1 == ranking[i].1
    ensures Descending(fused) && forall i, j :: 0 <= i < j < |fused| ==> fused[i].0.id != fused[j].0.id
  {
  }

  lemma AttachIsFusion(lists: seq<seq<Hit>>, hits: map<Uuid, Hit>, scored: map<Uuid, real>, ranking: seq<(Uuid, real)>)
    requires forall id :: id in hits ==> hits[id].id == id && IsShown(Flat(lists), hits[id])
    requires forall id :: Occurs(Flat(lists), id) ==> id in hits
    requires scored.Keys == hits.Keys && IsRanking(scored, ranking)
    requires forall id :: id in scored ==> scored[id] == Score(lists, id)
    requires forall e :: e in ranking ==> e.0 in hits
    ensures IsFusion(lists, Attach(ranking, hits))
  {
    var fused := Attach(ranking, hits);
    forall i | 0 <= i < |fused|
      ensures fused[i].0.id == ranking[i].0 && fused[i].1 == ranking[i].1
      ensures fused[i].1 == Score(lists, fused[i].0.id) && IsShown(Flat(lists), fused[i].0)
    {
      assert ranking[i] in ranking;
    }
    RankedApart(scored, ranking, fused);
    forall id | Occurs(Flat(lists), id) ensures exists i :: 0 <= i < |fused| && fused[i].0.id == id {
      var i := RankOf(scored, ranking, id);
      assert fused[i].0.id == id;
    }
  }

  lemma KeptIsFusion(lists: seq<seq<Hit>>, hits: map<Uuid, Hit>, scored: map<Uuid, real>, ranking: seq<(Uuid, real)>)
    requires KeepsFirst(Flat(lists), hits) && scored.Keys == hits.Keys && IsRanking(scored, ranking)
    requires forall id :: id in scored ==> scored[id] == Score(lists, id)
    ensures forall e :: e in ranking ==> e.0 in hits
    ensures IsFusion(lists, Attach(ranking, hits))
  {
    KeptAreShown(Flat(lists), hits);
    AttachIsFusion(lists, hits, scored, ranking);
  }

  method RrfFuse(lists: seq<seq<Hit>>) returns (fused: seq<(Hit, real)>)
    ensures IsFusion(lists, fused)
  {
    var scores: map<Uuid, real> := map[];
    var hits: map<Uuid, Hit> := map[];
    for k := 0 to |lists|
      invariant KeepsFirst(Flat(lists[..k]), hits) && scores.Keys == hits.Keys
      invariant forall id :: Lookup(scores, id) == Score(lists[..k], id)
    {
      assert lists[..k + 1][..k] == lists[..k];
      scores, hits := AddList(lists[k], scores, hits, Flat(lists[..k]));
    }
    assert lists[..|lists|] == lists;
    var scored := map id | id in hits :: Lookup(scores, id);
    var ranking := RankEntries(scored);
    KeptIsFusion(lists, hits, scored, ranking);
    fused := Attach(ranking, hits);
  }

  // ---- Agreement of the two legs wins ---------------------------------------------------------

  lemma ShareMonotone(a: nat, b: nat)
    requires a <= b
    ensures Share(a) >= Share(b)
  {
  }

  ghost predicate DistinctHits(list: seq<Hit>) {
    forall i, j :: 0 <= i < j < |list| ==> list[i].id != list[j].id
  }

  /** In a duplicate-free list a chunk scores the share of its one rank, or nothing. */
  lemma {:induction false} ListScoreOf(list: seq<Hit>, id: Uuid)
    requires DistinctHits(list)
    ensures !Occurs(list, id) ==> ListScore(list, id) == 0.0
    ensures forall i :: 0 <= i < |list| && list[i].id == id ==> ListScore(list, id) == Share(i)
  {
    if list == [] {
    } else {
      var n := |list| - 1;
      ListScoreOf(list[..n], id);
      assert forall i :: 0 <= i < n ==> list[..n][i] == list[i];
      if list[n].id == id {
        assert !Occurs(list[..n], id);
      } else if !Occurs(list, id) {
        assert !Occurs(list[..n], id);
      }
    }
  }

  lemma ListScoreBounds(list: seq<Hit>, id: Uuid)
    requires DistinctHits(list)
    ensures Occurs(list, id) ==> Share(|list| - 1) <= ListScore(list, id) <= Share(0)
  {
    ListScoreOf(list, id);
    if i :| 0 <= i < |list| && list[i].id == id {
      ShareMonotone(i, |list| - 1);
      ShareMonotone(0, i);
    }
  }

  /** Twice the worst share beats the best one exactly for lists of at most sixty. */
  lemma TwoSharesBeatOne(n: nat)
    requires n > 0
    ensures 2.0 * Share(n - 1) > Share(0) <==> n <= 60
  {
    var d := RRF_K + (n - 1) as real;
    assert 2.0 * Share(n - 1) == 2.0 / d;
    if 2.0 / d <= 1.0 / 60.0 {
      SmallQuotient(d);
    } else {
      LargeQuotient(d);
    }
  }

  lemma SmallQuotient(d: real)
    requires d > 0.0 && 2.0 / d <= 1.0 / 60.0
    ensures d >= 120.0
  {
    assert 2.0 / d * d <= 1.0 / 60.0 * d;
  }

  lemma LargeQuotient(d: real)
    requires d > 0.0 && 2.0 / d > 1.0 / 60.0
    ensures d < 120.0
  {
    assert 2.0 / d * d > 1.0 / 60.0 * d;
  }

  lemma ScoreOfTwo(a: seq<Hit>, b: seq<Hit>, id: Uuid)
    ensures Score([a, b], id) == ListScore(a, id) + ListScore(b, id)
    ensures Flat([a, b]) == a + b
  {
    assert [a, b][..1] == [a] && [a][..0] == [];
    assert Score([a], id) == Score([], id) + ListScore(a, id);
    assert Flat([a]) == Flat([]) + a;
  }

  /** Two duplicate-free lists of at most sixty hits: every chunk in both comes before every chunk in
      only one. The candidate lists have at most fifty. */
  lemma BothBeforeOne(a: seq<Hit>, b: seq<Hit>, fused: seq<(Hit, real)>, i: nat, j: nat)
    requires DistinctHits(a) && DistinctHits(b) && |a| <= 60 && |b| <= 60
    requires IsFusion([a, b], fused) && i < |fused| && j < |fused|
    requires Occurs(a, fused[i].0.id) && Occurs(b, fused[i].0.id)
    requires !(Occurs(a, fused[j].0.id) && Occurs(b, fused[j].0.id))
    ensures i < j
  {
    var both, one := fused[i].0.id, fused[j].0.id;
    ScoreOfTwo(a, b, both);
    ScoreOfTwo(a, b, one);
    ListScoreBounds(a, both);
    ListScoreBounds(b, both);
    ListScoreBounds(a, one);
    ListScoreBounds(b, one);
    ListScoreOf(a, one);
    ListScoreOf(b, one);
    TwoSharesBeatOne(60);
    ShareMonotone(|a| - 1, 59);
    ShareMonotone(|b| - 1, 59);
    assert fused[i].1 > fused[j].1;
  }

  /** At sixty-one the guarantee is lost: the last chunk of both lists only ties with the first of
      one. */
  lemma SixtyOneTies()
    ensures Share(60) + Share(60) == Share(0)
  {
  }
}
