/** Walking a hash map and sorting its entries by score, highest first. */
module Sorting {

  ghost predicate Descending<T>(xs: seq<(T, real)>) {
    forall i, j :: 0 <= i < j < |xs| ==> xs[i].1 >= xs[j].1
  }

  function Insert<T>(x: (T, real), xs: seq<(T, real)>): (r: seq<(T, real)>) {
    if xs == [] || x.1 >= xs[0].1 then [x] + xs else [xs[0]] + Insert(x, xs[1..])
  }

  /** The standard library's stable sort under the comparison `b.score` against `a.score`. */
  function SortDescending<T>(xs: seq<(T, real)>): (r: seq<(T, real)>) {
    if xs == [] then [] else Insert(xs[0], SortDescending(xs[1..]))
  }

  lemma {:induction false} InsertPermutes<T>(x: (T, real), xs: seq<(T, real)>)
    ensures multiset(Insert(x, xs)) == multiset(xs) + multiset{x}
  {
    if xs != [] && x.1 < xs[0].1 {
      InsertPermutes(x, xs[1..]);
      assert xs == [xs[0]] + xs[1..];
    }
  }

  /** The first entry after an insertion is `x` or the old first entry. */
  lemma {:induction false} InsertSorts<T>(x: (T, real), xs: seq<(T, real)>)
    requires Descending(xs)
    ensures Descending(Insert(x, xs))
    ensures Insert(x, xs)[0] == x || (xs != [] && Insert(x, xs)[0] == xs[0])
  {
    if xs != [] && x.1 < xs[0].1 {
      InsertSorts(x, xs[1..]);
    }
  }

  lemma {:induction false} SortSorts<T>(xs: seq<(T, real)>)
    ensures Descending(SortDescending(xs)) && multiset(SortDescending(xs)) == multiset(xs)
  {
    if xs == [] {
    } else {
      SortSorts(xs[1..]);
      InsertSorts(xs[0], SortDescending(xs[1..]));
      InsertPermutes(xs[0], SortDescending(xs[1..]));
      assert xs == [xs[0]] + xs[1..];
    }
  }

  /** `scored` lists every entry of `m` exactly once, highest score first. */
  ghost predicate IsRanking<T>(m: map<T, real>, scored: seq<(T, real)>) {
    && Descending(scored)
    && (forall e :: e in scored ==> e.0 in m && m[e.0] == e.1)
    && (forall k :: k in m ==> (k, m[k]) in scored)
    && DistinctKeys(scored)
  }

  ghost predicate DistinctKeys<T>(xs: seq<(T, real)>) {
    forall i, j :: 0 <= i < j < |xs| ==> xs[i].0 != xs[j].0
  }

  lemma SamePermutation<T>(xs: seq<T>, ys: seq<T>, e: T)
    requires multiset(xs) == multiset(ys)
    ensures e in xs <==> e in ys
  {
    assert e in multiset(xs) <==> e in multiset(ys);
  }

  lemma PermutationKeepsDistinctKeys<T>(xs: seq<(T, real)>, ys: seq<(T, real)>, i: nat, j: nat)
    requires multiset(xs) == multiset(ys) && DistinctKeys(xs) && i < j < |ys|
    ensures ys[i].0 != ys[j].0
  {
    if ys[i].0 == ys[j].0 {
      SamePermutation(xs, ys, ys[i]);
      SamePermutation(xs, ys, ys[j]);
      assert ys[i] == ys[j];
      TwiceInSequence(ys, i, j);
      OnceInSequence(xs, ys[i]);
    }
  }

  lemma SortedEntriesRank<T>(m: map<T, real>, entries: seq<(T, real)>)
    requires forall e :: e in entries ==> e.0 in m && m[e.0] == e.1
    requires forall k :: k in m ==> (k, m[k]) in entries
    requires DistinctKeys(entries)
    ensures IsRanking(m, SortDescending(entries))
  {
    var s := SortDescending(entries);
    SortSorts(entries);
    forall e | e in s ensures e.0 in m && m[e.0] == e.1 {
      SamePermutation(entries, s, e);
    }
    forall k | k in m ensures (k, m[k]) in s {
      SamePermutation(entries, s, (k, m[k]));
    }
    forall i, j | 0 <= i < j < |s| ensures s[i].0 != s[j].0 {
      PermutationKeepsDistinctKeys(entries, s, i, j);
    }
  }

  lemma TwiceInSequence<E>(s: seq<E>, i: nat, j: nat)
    requires i < j < |s| && s[i] == s[j]
    ensures multiset(s)[s[i]] >= 2
  {
    assert s == s[..j] + [s[j]] + s[j + 1..];
    assert s[i] in s[..j];
  }

  lemma {:induction false} OnceInSequence<E>(s: seq<E>, e: E)
    requires forall i, j :: 0 <= i < j < |s| ==> s[i] != s[j]
    ensures multiset(s)[e] <= 1
  {
    if s == [] {
    } else {
      OnceInSequence(s[1..], e);
      assert s == [s[0]] + s[1..];
      assert s[0] !in s[1..];
    }
  }

  /** `into_iter().collect()` then `sort_by`: the hash map is walked in any order. */
  method RankEntries<T(==)>(m: map<T, real>) returns (scored: seq<(T, real)>)
    ensures IsRanking(m, scored)
  {
    var entries: seq<(T, real)> := [];
    var todo := m.Keys;
    while todo != {}
      invariant todo <= m.Keys
      invariant forall e :: e in entries ==> e.0 in m && e.0 !in todo && m[e.0] == e.1
      invariant forall k :: k in m && k !in todo ==> (k, m[k]) in entries
      invariant DistinctKeys(entries)
      decreases todo
    {
      var k :| k in todo;
      todo := todo - {k};
      entries := entries + [(k, m[k])];
    }
    scored := SortDescending(entries);
    SortedEntriesRank(m, entries);
  }
}
