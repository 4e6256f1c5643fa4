/** Row-set operations used by the queries: the first matching row (`.first()`), a WHERE
    filter that keeps table order, and offset/limit paging. */
module Seqs {
  import opened Wrappers

  /** Index of the first element satisfying p, as `.first()` returns the first row. */
  function FirstIndex<T>(s: seq<T>, p: T -> bool): (r: Option<nat>)
    ensures r.Some? ==> r.value < |s| && p(s[r.value])
    ensures r.Some? ==> forall j :: 0 <= j < r.value ==> !p(s[j])
    ensures r.None? <==> forall j :: 0 <= j < |s| ==> !p(s[j])
  {
    if |s| == 0 then None
    else if p(s[0]) then Some(0)
    else
      match FirstIndex(s[1..], p)
      case None => None
      case Some(k) => Some(k + 1)
  }

  /** The elements of s that satisfy p, in their original order. */
  function Filter<T>(s: seq<T>, p: T -> bool): (r: seq<T>)
    ensures |r| <= |s|
    ensures forall i :: 0 <= i < |r| ==> r[i] in s && p(r[i])
    ensures forall j {:trigger s[j] in r} :: 0 <= j < |s| && p(s[j]) ==> s[j] in r
  {
    if |s| == 0 then []
    else (if p(s[0]) then [s[0]] else []) + Filter(s[1..], p)
  }

  /** The positions of the elements of s that satisfy p, in increasing order: an
      independent account of which elements a filter keeps and in what order. */
  function PassingIndices<T>(s: seq<T>, p: T -> bool): (idx: seq<nat>)
    ensures forall k :: 0 <= k < |idx| ==> idx[k] < |s| && p(s[idx[k]])
    ensures forall k, l :: 0 <= k < l < |idx| ==> idx[k] < idx[l]
    ensures forall j :: 0 <= j < |s| && p(s[j]) ==> j in idx
    decreases |s|
  {
    if |s| == 0 then []
    else
      var init := s[..|s| - 1];
      var rest := PassingIndices(init, p);
      assert forall j :: 0 <= j < |init| ==> init[j] == s[j];
      if p(s[|s| - 1]) then rest + [|s| - 1] else rest
  }

  /** r holds exactly the elements of s that satisfy p, each once per occurrence, in the
      order they have in s. */
  ghost predicate KeepsInOrder<T>(r: seq<T>, s: seq<T>, p: T -> bool) {
    var idx := PassingIndices(s, p);
    |r| == |idx| && forall k :: 0 <= k < |r| ==> r[k] == s[idx[k]]
  }

  /** Filtering keeps the passing elements in their order. */
  lemma {:induction false} FilterInOrder<T>(s: seq<T>, p: T -> bool)
    ensures KeepsInOrder(Filter(s, p), s, p)
    decreases |s|
  {
    if |s| > 0 {
      var init, last := s[..|s| - 1], s[|s| - 1];
      assert s == init + [last];
      FilterInOrder(init, p);
      FilterAppend(init, [last], p);
      assert Filter([last], p) == (if p(last) then [last] else []) by {
        assert [last][1..] == [];
      }
      var r, idx := Filter(init, p), PassingIndices(init, p);
      assert PassingIndices(s, p) == if p(last) then idx + [|s| - 1] else idx;
      assert Filter(s, p) == if p(last) then r + [last] else r;
      assert forall k :: 0 <= k < |idx| ==> s[idx[k]] == init[idx[k]];
    }
  }

  /** Number of elements of s that satisfy p. */
  function Count<T>(s: seq<T>, p: T -> bool): (n: nat)
    ensures n <= |s|
    ensures n == 0 <==> forall j :: 0 <= j < |s| ==> !p(s[j])
  {
    if |s| == 0 then 0
    else (if p(s[0]) then 1 else 0) + Count(s[1..], p)
  }

  /** OFFSET skip LIMIT limit. */
  function Page<T>(s: seq<T>, skip: nat, limit: nat): (r: seq<T>)
    ensures |r| == if skip >= |s| then 0 else if |s| - skip < limit then |s| - skip else limit
    ensures forall i :: 0 <= i < |r| ==> skip + i < |s| && r[i] == s[skip + i]
  {
    if skip >= |s| then []
    else if |s| - skip < limit then s[skip..]
    else s[skip..skip + limit]
  }

  lemma {:induction false} FilterLength<T>(s: seq<T>, p: T -> bool)
    ensures |Filter(s, p)| == Count(s, p)
  {
    if |s| > 0 {
      FilterLength(s[1..], p);
    }
  }

  lemma {:induction false} FilterAppend<T>(a: seq<T>, b: seq<T>, p: T -> bool)
    ensures Filter(a + b, p) == Filter(a, p) + Filter(b, p)
  {
    if |a| == 0 {
      assert a + b == b;
    } else {
      assert (a + b)[1..] == a[1..] + b;
      FilterAppend(a[1..], b, p);
    }
  }

  /** Filtering keeps everything when every element passes. */
  lemma {:induction false} FilterKeepsAll<T>(s: seq<T>, p: T -> bool)
    requires forall j :: 0 <= j < |s| ==> p(s[j])
    ensures Filter(s, p) == s
  {
    if |s| > 0 {
      FilterKeepsAll(s[1..], p);
    }
  }

  /** Filtering that rejects exactly the element at i removes exactly that element. */
  lemma FilterRemovesOne<T>(s: seq<T>, p: T -> bool, i: nat)
    requires i < |s| && !p(s[i])
    requires forall j :: 0 <= j < |s| && j != i ==> p(s[j])
    ensures Filter(s, p) == s[..i] + s[i + 1..]
  {
    var a, b := s[..i], s[i + 1..];
    assert s == a + ([s[i]] + b);
    assert forall j :: 0 <= j < |a| ==> p(a[j]) by {
      forall j | 0 <= j < |a| ensures p(a[j]) { assert a[j] == s[j]; }
    }
    assert forall j :: 0 <= j < |b| ==> p(b[j]) by {
      forall j | 0 <= j < |b| ensures p(b[j]) { assert b[j] == s[i + 1 + j]; }
    }
    FilterDropsOne(a, s[i], b, p);
  }

  lemma FilterDropsOne<T>(a: seq<T>, x: T, b: seq<T>, p: T -> bool)
    requires !p(x)
    requires forall j :: 0 <= j < |a| ==> p(a[j])
    requires forall j :: 0 <= j < |b| ==> p(b[j])
    ensures Filter(a + ([x] + b), p) == a + b
  {
    FilterAppend(a, [x] + b, p);
    FilterAppend([x], b, p);
    FilterKeepsAll(a, p);
    FilterKeepsAll(b, p);
    assert Filter([x], p) == [] by {
      assert [x][1..] == [];
    }
    assert [] + b == b;
  }

  /** A weaker condition never keeps fewer elements. */
  lemma {:induction false} CountWeaker<T>(s: seq<T>, p: T -> bool, q: T -> bool)
    requires forall x :: p(x) ==> q(x)
    ensures Count(s, p) <= Count(s, q)
  {
    if |s| > 0 {
      CountWeaker(s[1..], p, q);
    }
  }

  lemma {:induction false} CountAppend<T>(a: seq<T>, b: seq<T>, p: T -> bool)
    ensures Count(a + b, p) == Count(a, p) + Count(b, p)
  {
    if |a| == 0 {
      assert a + b == b;
    } else {
      assert (a + b)[1..] == a[1..] + b;
      CountAppend(a[1..], b, p);
    }
  }

  /** Keeping the elements that fail p leaves as many as there are minus those that pass. */
  lemma {:induction false} FilterComplementLength<T>(s: seq<T>, p: T -> bool, q: T -> bool)
    requires forall x :: q(x) == !p(x)
    ensures |Filter(s, q)| + Count(s, p) == |s|
  {
    if |s| > 0 {
      FilterComplementLength(s[1..], p, q);
    }
  }

  /** Filtering keeps keys distinct. */
  lemma {:induction false} FilterKeepsKeysDistinct<T, K>(s: seq<T>, p: T -> bool, key: T -> K)
    requires forall i, j :: 0 <= i < j < |s| ==> key(s[i]) != key(s[j])
    ensures forall i, j :: 0 <= i < j < |Filter(s, p)| ==> key(Filter(s, p)[i]) != key(Filter(s, p)[j])
  {
    if |s| > 0 {
      FilterKeepsKeysDistinct(s[1..], p, key);
      var rest := Filter(s[1..], p);
      forall j | 0 <= j < |rest|
        ensures key(s[0]) != key(rest[j])
      {
        var k :| 0 <= k < |s[1..]| && s[1..][k] == rest[j];
        assert s[k + 1] == rest[j];
      }
    }
  }

  /** Every element has a key below `next`, and no two elements share a key: the rows of a
      table whose ids were handed out by a counter. */
  predicate KeyedBelow<T>(s: seq<T>, key: T -> nat, next: nat) {
    && (forall i :: 0 <= i < |s| ==> key(s[i]) < next)
    && (forall i, j :: 0 <= i < j < |s| ==> key(s[i]) != key(s[j]))
  }

  /** Appending a row keyed by the counter keeps the keys unique once the counter moves on. */
  lemma KeyedAppend<T>(s: seq<T>, key: T -> nat, next: nat, x: T)
    requires KeyedBelow(s, key, next) && key(x) == next
    ensures KeyedBelow(s + [x], key, next + 1)
    ensures forall j :: 0 <= j < |s| ==> key(s[j]) != key(x)
  {
    assert forall i :: 0 <= i < |s| ==> (s + [x])[i] == s[i];
  }

  lemma KeyedRaise<T>(s: seq<T>, key: T -> nat, next: nat, next': nat)
    requires KeyedBelow(s, key, next) && next <= next'
    ensures KeyedBelow(s, key, next')
  {
  }

  /** Keeping some rows keeps their keys unique and below the counter. */
  lemma KeyedFilter<T>(s: seq<T>, p: T -> bool, key: T -> nat, next: nat)
    requires KeyedBelow(s, key, next)
    ensures KeyedBelow(Filter(s, p), key, next)
  {
    FilterKeepsKeysDistinct(s, p, key);
    forall i | 0 <= i < |Filter(s, p)|
      ensures key(Filter(s, p)[i]) < next
    {
      var j :| 0 <= j < |s| && s[j] == Filter(s, p)[i];
    }
  }

  /** Replacing a row by one with the same key keeps the keys as they were. */
  lemma KeyedUpdate<T>(s: seq<T>, key: T -> nat, next: nat, i: nat, x: T)
    requires KeyedBelow(s, key, next) && i < |s| && key(x) == key(s[i])
    ensures KeyedBelow(s[i := x], key, next)
  {
  }

  /** Two elements that satisfy p make the count at least two. */
  lemma CountTwo<T>(s: seq<T>, p: T -> bool, i: nat, j: nat)
    requires i < j < |s| && p(s[i]) && p(s[j])
    ensures Count(s, p) >= 2
  {
    assert s == s[..j] + s[j..];
    CountAppend(s[..j], s[j..], p);
    assert s[..j][i] == s[i];
    assert s[j..][0] == s[j];
  }

  /** A single passing element counts one. */
  lemma {:induction false} CountExactlyOne<T>(s: seq<T>, p: T -> bool, i: nat)
    requires i < |s| && p(s[i])
    requires forall m :: 0 <= m < |s| && m != i ==> !p(s[m])
    ensures Count(s, p) == 1
  {
    if i > 0 {
      CountExactlyOne(s[1..], p, i - 1);
    } else {
      assert forall m :: 0 <= m < |s[1..]| ==> !p(s[1..][m]) by {
        forall m | 0 <= m < |s[1..]| ensures !p(s[1..][m]) { assert s[1..][m] == s[m + 1]; }
      }
    }
  }

  /** Exactly two passing elements count two. */
  lemma {:induction false} CountExactlyTwo<T>(s: seq<T>, p: T -> bool, i: nat, j: nat)
    requires i < j < |s| && p(s[i]) && p(s[j])
    requires forall m :: 0 <= m < |s| && m != i && m != j ==> !p(s[m])
    ensures Count(s, p) == 2
  {
    if i > 0 {
      CountExactlyTwo(s[1..], p, i - 1, j - 1);
    } else {
      CountExactlyOne(s[1..], p, j - 1);
    }
  }

  /** Applies f to each element in order; the first failure ends it with that failure. */
  function TryMap<A, B>(s: seq<A>, f: A -> Result<B>): (r: Result<seq<B>>)
    decreases |s|
  {
    if |s| == 0 then Ok([])
    else
      match TryMap(s[..|s| - 1], f)
      case Err(e) => Err(e)
      case Ok(bs) =>
        match f(s[|s| - 1])
        case Err(e) => Err(e)
        case Ok(b) => Ok(bs + [b])
  }

  /** TryMap succeeds exactly when f succeeds on every element, and then holds f's results in
      order; a failure is the failure of some element. */
  lemma {:induction false} TryMapMeaning<A, B>(s: seq<A>, f: A -> Result<B>)
    ensures TryMap(s, f).Ok? <==> forall i :: 0 <= i < |s| ==> f(s[i]).Ok?
    ensures TryMap(s, f).Err? ==> exists i :: 0 <= i < |s| && f(s[i]) == Err(TryMap(s, f).error)
    ensures TryMap(s, f).Ok? ==> |TryMap(s, f).value| == |s|
    ensures TryMap(s, f).Ok? ==> forall i :: 0 <= i < |s| ==> f(s[i]) == Ok(TryMap(s, f).value[i])
    decreases |s|
  {
    if |s| > 0 {
      var init := s[..|s| - 1];
      assert forall i :: 0 <= i < |init| ==> init[i] == s[i];
      TryMapMeaning(init, f);
    }
  }

  predicate NoDup<T(==)>(s: seq<T>) {
    forall i, j :: 0 <= i < j < |s| ==> s[i] != s[j]
  }

  /** `SELECT DISTINCT`: each element once, at its first occurrence. */
  function Distinct<T(==,!new)>(s: seq<T>): (r: seq<T>)
    ensures NoDup(r)
    ensures forall x :: x in r <==> x in s
    decreases |s|
  {
    if |s| == 0 then []
    else
      var init := s[..|s| - 1];
      var d := Distinct(init);
      assert forall x :: x in s <==> x in init || x == s[|s| - 1];
      if s[|s| - 1] in d then d else d + [s[|s| - 1]]
  }

  /** Without duplicates, every element occurs once. */
  lemma {:induction false} NoDupCounts<T>(s: seq<T>)
    requires NoDup(s)
    ensures forall x :: multiset(s)[x] <= 1
    decreases |s|
  {
    if |s| > 0 {
      var init := s[..|s| - 1];
      NoDupCounts(init);
      assert s == init + [s[|s| - 1]];
      assert s[|s| - 1] !in init;
    }
  }

  /** A sequence with the same elements, counted, as one without duplicates has none. */
  lemma NoDupPermutation<T>(s: seq<T>, t: seq<T>)
    requires NoDup(s) && multiset(s) == multiset(t)
    ensures NoDup(t)
  {
    NoDupCounts(s);
    forall i, j | 0 <= i < j < |t|
      ensures t[i] != t[j]
    {
      assert t == t[..j] + t[j..];
      assert t[i] == t[..j][i];
      assert t[j] == t[j..][0];
      assert multiset(t)[t[i]] == multiset(t[..j])[t[i]] + multiset(t[j..])[t[i]];
    }
  }
}
