/** Order-keeping operations on sequences shared by the modules: Ruby's
    `Array#uniq`. */
module Seqs {
  import opened Wrappers

  /** `uniq`: the first occurrence of every value, in order. */
  function Uniq<T(==,!new)>(xs: seq<T>): (r: seq<T>)
    ensures forall x :: x in r <==> x in xs
    ensures |r| <= |xs|
    decreases |xs|
  {
    if xs == [] then []
    else
      var u := Uniq(xs[..|xs| - 1]);
      var x := xs[|xs| - 1];
      assert forall y :: y in xs <==> y in xs[..|xs| - 1] || y == x;
      if x in u then u else u + [x]
  }

  predicate NoDuplicates<T(==)>(xs: seq<T>) {
    forall i, j :: 0 <= i < j < |xs| ==> xs[i] != xs[j]
  }

  /** The position of the first occurrence of `x`. */
  function FirstIndex<T(==)>(xs: seq<T>, x: T): (r: nat)
    requires x in xs
    ensures r < |xs| && xs[r] == x && x !in xs[..r]
  {
    if xs[0] == x then 0
    else
      var k := FirstIndex(xs[1..], x);
      assert xs[..k + 1] == [xs[0]] + xs[1..][..k];
      k + 1
  }

  /** `uniq` keeps one copy of each value, and keeps them in the order of
      their first occurrences. */
  lemma {:induction false} UniqFirstOccurrences<T(!new)>(xs: seq<T>)
    ensures NoDuplicates(Uniq(xs))
    ensures forall i, j :: 0 <= i < j < |Uniq(xs)| ==> FirstIndex(xs, Uniq(xs)[i]) < FirstIndex(xs, Uniq(xs)[j])
    decreases |xs|
  {
    if xs != [] {
      var init, x := xs[..|xs| - 1], xs[|xs| - 1];
      var u := Uniq(init);
      UniqFirstOccurrences(init);
      forall y | y in u
        ensures FirstIndex(xs, y) == FirstIndex(init, y)
      {
        FirstIndexPrefix(init, [x], y);
        assert init + [x] == xs;
      }
      if x !in u {
        assert x !in init;
        FirstIndexLast(xs);
        var r := u + [x];
        forall i, j | 0 <= i < j < |r|
          ensures r[i] != r[j] && FirstIndex(xs, r[i]) < FirstIndex(xs, r[j])
        {
          if j == |u| {
            assert r[i] == u[i];
          } else {
            assert r[i] == u[i] && r[j] == u[j];
          }
        }
      }
    }
  }

  lemma FirstIndexPrefix<T>(a: seq<T>, b: seq<T>, y: T)
    requires y in a
    ensures FirstIndex(a + b, y) == FirstIndex(a, y)
  {
    var k, k' := FirstIndex(a, y), FirstIndex(a + b, y);
    assert (a + b)[k] == y;
  }

  lemma FirstIndexLast<T>(xs: seq<T>)
    requires xs != [] && xs[|xs| - 1] !in xs[..|xs| - 1]
    ensures FirstIndex(xs, xs[|xs| - 1]) == |xs| - 1
  {
  }

  /** The values kept from a prefix come first, in the same order: `uniq`
      of `a + b` starts with `uniq` of `a`. */
  lemma {:induction false} UniqPrefix<T(!new)>(a: seq<T>, b: seq<T>)
    ensures |Uniq(a)| <= |Uniq(a + b)| && Uniq(a + b)[..|Uniq(a)|] == Uniq(a)
    decreases |b|
  {
    if b == [] {
      assert a + b == a;
    } else {
      var b' := b[..|b| - 1];
      UniqPrefix(a, b');
      assert (a + b)[..|a + b| - 1] == a + b';
    }
  }

  /** `uniq` leaves a sequence without duplicates as it is. */
  lemma {:induction false} UniqOfDistinct<T(!new)>(xs: seq<T>)
    requires NoDuplicates(xs)
    ensures Uniq(xs) == xs
    decreases |xs|
  {
    if xs != [] {
      var init := xs[..|xs| - 1];
      UniqOfDistinct(init);
      assert xs[|xs| - 1] !in init;
      assert init + [xs[|xs| - 1]] == xs;
    }
  }

  /** The positions whose flag is set, in increasing order. */
  function IndicesWhere(flags: seq<bool>): (r: seq<nat>)
    ensures |r| <= |flags|
    ensures forall k :: 0 <= k < |r| ==> r[k] < |flags| && flags[r[k]]
    decreases |flags|
  {
    if flags == [] then []
    else
      var n := |flags| - 1;
      IndicesWhere(flags[..n]) + (if flags[n] then [n] else [])
  }

  predicate Increasing(xs: seq<nat>) {
    forall k, l :: 0 <= k < l < |xs| ==> xs[k] < xs[l]
  }

  /** The listed positions increase strictly, and every set flag's
      position is listed. */
  lemma IndicesWhereSpec(flags: seq<bool>)
    ensures var r := IndicesWhere(flags);
      && (forall k, l :: 0 <= k < l < |r| ==> r[k] < r[l])
      && (forall i :: 0 <= i < |flags| && flags[i] ==> i in r)
  {
    IndicesWhereIncreasing(flags);
    IndicesWhereComplete(flags);
  }

  lemma {:induction false} IndicesWhereIncreasing(flags: seq<bool>)
    ensures Increasing(IndicesWhere(flags))
    decreases |flags|
  {
    if flags != [] {
      var n := |flags| - 1;
      var r0 := IndicesWhere(flags[..n]);
      IndicesWhereIncreasing(flags[..n]);
      var r := IndicesWhere(flags);
      if flags[n] {
        assert r == r0 + [n];
        forall k, l | 0 <= k < l < |r|
          ensures r[k] < r[l]
        {
          assert r[k] == r0[k];
          if l < |r0| {
            assert r[l] == r0[l];
          }
        }
      } else {
        assert r == r0;
      }
    }
  }

  lemma {:induction false} IndicesWhereComplete(flags: seq<bool>)
    ensures forall i :: 0 <= i < |flags| && flags[i] ==> i in IndicesWhere(flags)
    decreases |flags|
  {
    if flags != [] {
      var n := |flags| - 1;
      var r0 := IndicesWhere(flags[..n]);
      IndicesWhereComplete(flags[..n]);
      var r := IndicesWhere(flags);
      assert r == r0 + (if flags[n] then [n] else []);
      forall i | 0 <= i < |flags| && flags[i]
        ensures i in r
      {
        if i < n {
          assert flags[..n][i] == flags[i];
        }
      }
    }
  }

  // ---------------------------------------------------------------------------
  // sort_by with a natural-number key

  /** The keys do not decrease along `xs`. */
  predicate SortedBy<T>(xs: seq<T>, key: T -> nat) {
    forall i, j :: 0 <= i < j < |xs| ==> key(xs[i]) <= key(xs[j])
  }

  /** The keys strictly increase along `xs`. */
  predicate StrictlySortedBy<T>(xs: seq<T>, key: T -> nat) {
    forall i, j :: 0 <= i < j < |xs| ==> key(xs[i]) < key(xs[j])
  }

  /** `x` placed before the first element of `xs` with a larger key. */
  function InsertBy<T>(xs: seq<T>, x: T, key: T -> nat): seq<T>
    decreases |xs|
  {
    if xs == [] then [x]
    else if key(x) < key(xs[0]) then [x] + xs
    else [xs[0]] + InsertBy(xs[1..], x, key)
  }

  lemma {:induction false} InsertByPermutation<T>(xs: seq<T>, x: T, key: T -> nat)
    ensures multiset(InsertBy(xs, x, key)) == multiset(xs) + multiset{x}
    decreases |xs|
  {
    if xs != [] && key(xs[0]) <= key(x) {
      InsertByPermutation(xs[1..], x, key);
      assert xs == [xs[0]] + xs[1..];
    }
  }

  /** Every element of the insertion is `x` or an element of `xs`. */
  lemma InsertByElements<T>(xs: seq<T>, x: T, key: T -> nat)
    ensures forall y :: y in InsertBy(xs, x, key) ==> y == x || y in xs
  {
    InsertByPermutation(xs, x, key);
    forall y | y in InsertBy(xs, x, key)
      ensures y == x || y in xs
    {
      assert y in multiset(InsertBy(xs, x, key));
    }
  }

  lemma {:induction false} InsertBySorted<T>(xs: seq<T>, x: T, key: T -> nat)
    requires SortedBy(xs, key)
    ensures SortedBy(InsertBy(xs, x, key), key)
    decreases |xs|
  {
    if xs != [] && key(xs[0]) <= key(x) {
      var t := InsertBy(xs[1..], x, key);
      InsertBySorted(xs[1..], x, key);
      InsertByElements(xs[1..], x, key);
      var r := [xs[0]] + t;
      forall i, j | 0 <= i < j < |r|
        ensures key(r[i]) <= key(r[j])
      {
        if i == 0 {
          assert r[j] in t;
        } else {
          assert r[i] == t[i - 1] && r[j] == t[j - 1];
        }
      }
    }
  }

  /** `sort_by(&key)`, as an insertion sort. Ruby leaves the order of
      elements of equal key unspecified; this one keeps their input order,
      and the properties used elsewhere hold for any order of ties (see
      `SortedPermutationUnique`). The result is ordered by key and holds the
      same elements. */
  function SortBy<T>(xs: seq<T>, key: T -> nat): (r: seq<T>)
    ensures SortedBy(r, key)
    ensures multiset(r) == multiset(xs)
    decreases |xs|
  {
    if xs == [] then []
    else
      var init, x := xs[..|xs| - 1], xs[|xs| - 1];
      var sorted := SortBy(init, key);
      InsertBySorted(sorted, x, key);
      InsertByPermutation(sorted, x, key);
      assert init + [x] == xs;
      InsertBy(sorted, x, key)
  }

  /** Input whose keys strictly increase comes back unchanged. */
  lemma {:induction false} SortByOfSorted<T>(xs: seq<T>, key: T -> nat)
    requires StrictlySortedBy(xs, key)
    ensures SortBy(xs, key) == xs
    decreases |xs|
  {
    if xs != [] {
      var init, x := xs[..|xs| - 1], xs[|xs| - 1];
      assert init + [x] == xs;
      StrictlySortedInit(init, x, key);
      SortByOfSorted(init, key);
      InsertLargest(init, x, key);
    }
  }

  lemma StrictlySortedInit<T>(init: seq<T>, x: T, key: T -> nat)
    requires StrictlySortedBy(init + [x], key)
    ensures StrictlySortedBy(init, key)
    ensures forall i :: 0 <= i < |init| ==> key(init[i]) <= key(x)
  {
    var xs := init + [x];
    forall i, j | 0 <= i < j < |init|
      ensures key(init[i]) < key(init[j])
    {
      assert init[i] == xs[i] && init[j] == xs[j];
    }
    forall i | 0 <= i < |init|
      ensures key(init[i]) <= key(x)
    {
      assert init[i] == xs[i] && x == xs[|init|];
    }
  }

  /** When the keys of `xs` strictly increase, `xs` is the only ordering of
      its elements by key: any sort, whatever it does with ties, gives it. */
  lemma {:induction false} SortedPermutationUnique<T>(xs: seq<T>, ys: seq<T>, key: T -> nat)
    requires StrictlySortedBy(xs, key) && SortedBy(ys, key)
    requires multiset(ys) == multiset(xs)
    ensures ys == xs
    decreases |xs|
  {
    PermutationLength(xs, ys);
    if xs != [] {
      SortedHeadsAgree(xs, ys, key);
      PermutationTails(xs, ys);
      StrictlySortedTail(xs, key);
      SortedTail(ys, key);
      SortedPermutationUnique(xs[1..], ys[1..], key);
      assert xs == [xs[0]] + xs[1..] && ys == [ys[0]] + ys[1..];
    }
  }

  lemma PermutationLength<T>(xs: seq<T>, ys: seq<T>)
    requires multiset(ys) == multiset(xs)
    ensures |ys| == |xs|
  {
    assert |ys| == |multiset(ys)| == |multiset(xs)| == |xs|;
  }

  lemma PermutationTails<T>(xs: seq<T>, ys: seq<T>)
    requires xs != [] && ys != [] && ys[0] == xs[0] && multiset(ys) == multiset(xs)
    ensures multiset(ys[1..]) == multiset(xs[1..])
  {
    MultisetTail(xs);
    MultisetTail(ys);
  }

  lemma MultisetTail<T>(xs: seq<T>)
    requires xs != []
    ensures multiset(xs[1..]) == multiset(xs) - multiset{xs[0]}
  {
    assert xs == [xs[0]] + xs[1..];
  }

  /** No value of `all` left out of `kept` has a smaller key than a kept one. */
  predicate KeepsSmallest<T(==)>(kept: seq<T>, all: seq<T>, key: T -> nat) {
    forall k, n :: 0 <= k < |kept| && n in all && n !in kept ==> key(kept[k]) <= key(n)
  }

  /** The first `n` of a sorted reordering of a duplicate-free list `u`:
      distinct values of `u`, none larger than a value of `all` left out,
      where `all` holds only values of `u`. */
  lemma SortedPrefix<T>(u: seq<T>, sorted: seq<T>, n: nat, all: seq<T>, key: T -> nat)
    requires NoDuplicates(u) && multiset(sorted) == multiset(u) && SortedBy(sorted, key)
    requires n <= |sorted| && forall x :: x in all ==> x in u
    ensures |sorted| == |u| && NoDuplicates(sorted[..n])
    ensures forall k :: 0 <= k < n ==> sorted[k] in u
    ensures KeepsSmallest(sorted[..n], all, key)
  {
    var kept := sorted[..n];
    PermutationLength(u, sorted);
    PermutationNoDuplicates(u, sorted);
    forall k | 0 <= k < n ensures sorted[k] in u {
      assert sorted[k] in multiset(u);
    }
    forall i, j | 0 <= i < j < n ensures kept[i] != kept[j] {
      assert kept[i] == sorted[i] && kept[j] == sorted[j];
    }
    forall k, x | 0 <= k < n && x in all && x !in kept
      ensures key(kept[k]) <= key(x)
    {
      assert x in multiset(sorted);
      var j :| 0 <= j < |sorted| && sorted[j] == x;
      assert kept[k] == sorted[k];
    }
  }

  /** A list without duplicates holds each value at most once. */
  lemma {:induction false} NoDuplicatesCount<T>(xs: seq<T>, v: T)
    requires NoDuplicates(xs)
    ensures multiset(xs)[v] <= 1
    decreases |xs|
  {
    if xs != [] {
      var tail := xs[1..];
      assert NoDuplicates(tail) by {
        forall i, j | 0 <= i < j < |tail| ensures tail[i] != tail[j] {
          assert tail[i] == xs[i + 1] && tail[j] == xs[j + 1];
        }
      }
      NoDuplicatesCount(tail, v);
      MultisetTail(xs);
      if v == xs[0] {
        assert v !in tail by {
          forall j | 0 <= j < |tail| ensures tail[j] != v { assert tail[j] == xs[j + 1]; }
        }
      }
    }
  }

  /** A value at two positions is held at least twice. */
  lemma RepeatedCount<T>(ys: seq<T>, i: nat, j: nat)
    requires i < j < |ys| && ys[i] == ys[j]
    ensures multiset(ys)[ys[j]] >= 2
  {
    assert ys == ys[..j] + [ys[j]] + ys[j + 1..];
    assert ys[..j][i] == ys[j];
  }

  /** Reordering a list without duplicates gives none. */
  lemma PermutationNoDuplicates<T>(xs: seq<T>, ys: seq<T>)
    requires multiset(ys) == multiset(xs) && NoDuplicates(xs)
    ensures NoDuplicates(ys)
  {
    forall i, j | 0 <= i < j < |ys| ensures ys[i] != ys[j] {
      if ys[i] == ys[j] {
        RepeatedCount(ys, i, j);
        NoDuplicatesCount(xs, ys[j]);
      }
    }
  }

  lemma StrictlySortedTail<T>(xs: seq<T>, key: T -> nat)
    requires xs != [] && StrictlySortedBy(xs, key)
    ensures StrictlySortedBy(xs[1..], key)
  {
    var xt := xs[1..];
    forall i, j | 0 <= i < j < |xt| ensures key(xt[i]) < key(xt[j]) {
      assert xt[i] == xs[i + 1] && xt[j] == xs[j + 1];
    }
  }

  lemma SortedTail<T>(ys: seq<T>, key: T -> nat)
    requires ys != [] && SortedBy(ys, key)
    ensures SortedBy(ys[1..], key)
  {
    var yt := ys[1..];
    forall i, j | 0 <= i < j < |yt| ensures key(yt[i]) <= key(yt[j]) {
      assert yt[i] == ys[i + 1] && yt[j] == ys[j + 1];
    }
  }

  lemma SortedHeadsAgree<T>(xs: seq<T>, ys: seq<T>, key: T -> nat)
    requires StrictlySortedBy(xs, key) && SortedBy(ys, key)
    requires multiset(ys) == multiset(xs) && xs != [] && ys != []
    ensures ys[0] == xs[0]
  {
    assert xs[0] in multiset(ys) && ys[0] in multiset(xs);
    var i :| 0 <= i < |ys| && ys[i] == xs[0];
    var j :| 0 <= j < |xs| && xs[j] == ys[0];
    assert key(ys[0]) <= key(xs[0]) by {
      if i > 0 {
        assert key(ys[0]) <= key(ys[i]);
      }
    }
    if j > 0 {
      assert key(xs[0]) < key(xs[j]);
    }
  }

  lemma {:induction false} InsertLargest<T>(xs: seq<T>, x: T, key: T -> nat)
    requires forall i :: 0 <= i < |xs| ==> key(xs[i]) <= key(x)
    ensures InsertBy(xs, x, key) == xs + [x]
    decreases |xs|
  {
    if xs != [] {
      InsertLargest(xs[1..], x, key);
      assert xs == [xs[0]] + xs[1..];
    }
  }

  // ---------------------------------------------------------------------------
  // map.with_index

  /** `xs.map.with_index(from) { |x, i| f(i, x) }` where `f` may raise: the
      first raise ends the map. */
  function MapWithIndex<T, U>(xs: seq<T>, from: nat, f: (nat, T) -> Result<U>): Result<seq<U>>
    decreases |xs|
  {
    if xs == [] then Ok([])
    else
      match f(from, xs[0])
      case Err(e) => Err(e)
      case Ok(y) =>
        match MapWithIndex(xs[1..], from + 1, f)
        case Err(e) => Err(e)
        case Ok(ys) => Ok([y] + ys)
  }

  /** The map succeeds exactly when every call does, and then element `k`
      is the value of the call on `xs[k]` numbered `from + k`. */
  lemma {:induction false} MapWithIndexSpec<T, U>(xs: seq<T>, from: nat, f: (nat, T) -> Result<U>)
    ensures MapWithIndex(xs, from, f).Ok? <==> forall k :: 0 <= k < |xs| ==> f(from + k, xs[k]).Ok?
    ensures MapWithIndex(xs, from, f).Ok? ==>
      var ys := MapWithIndex(xs, from, f).value;
      |ys| == |xs| && forall k :: 0 <= k < |xs| ==> ys[k] == f(from + k, xs[k]).value
    decreases |xs|
  {
    if xs != [] {
      MapWithIndexSpec(xs[1..], from + 1, f);
      assert forall k :: 1 <= k < |xs| ==> xs[1..][k - 1] == xs[k];
      if f(from, xs[0]).Ok? && MapWithIndex(xs[1..], from + 1, f).Err? {
        var k :| 0 <= k < |xs| - 1 && f(from + 1 + k, xs[1..][k]).Err?;
        assert f(from + (k + 1), xs[k + 1]).Err?;
      }
    }
  }

  /** When every call succeeds with the value wanted at its place, the map
      gives exactly those values. */
  lemma MapWithIndexOfAll<T, U>(xs: seq<T>, from: nat, f: (nat, T) -> Result<U>, ys: seq<U>)
    requires |ys| == |xs|
    requires forall k :: 0 <= k < |xs| ==> f(from + k, xs[k]) == Ok(ys[k])
    ensures MapWithIndex(xs, from, f) == Ok(ys)
  {
    MapWithIndexSpec(xs, from, f);
    assert forall k :: 0 <= k < |xs| ==> f(from + k, xs[k]).Ok?;
    assert MapWithIndex(xs, from, f).value == ys;
  }

  // ---------------------------------------------------------------------------
  // Leftmost search

  /** The first of `f(p)`, `f(p + 1)`, ..., `f(n - 1)` that holds a value:
      how an unanchored regular expression tries its start positions. */
  function FirstFrom<T>(f: nat -> Option<T>, p: nat, n: nat): Option<T>
    decreases n - p
  {
    if n <= p then None
    else if f(p).Some? then f(p)
    else FirstFrom(f, p + 1, n)
  }

  /** The search returns the value at a position where `f` holds one, and
      `f` holds none before it. */
  lemma {:induction false} FirstFromLeftmost<T>(f: nat -> Option<T>, p: nat, n: nat) returns (q: nat)
    requires FirstFrom(f, p, n).Some?
    ensures p <= q < n && f(q) == FirstFrom(f, p, n)
    ensures forall j :: p <= j < q ==> f(j).None?
    decreases n - p
  {
    if f(p).None? {
      q := FirstFromLeftmost(f, p + 1, n);
    } else {
      q := p;
    }
  }

  /** The search finds nothing exactly when `f` holds no value in the range. */
  lemma {:induction false} FirstFromNone<T>(f: nat -> Option<T>, p: nat, n: nat)
    ensures FirstFrom(f, p, n).None? <==> forall q :: p <= q < n ==> f(q).None?
    decreases n - p
  {
    if p < n && f(p).None? {
      FirstFromNone(f, p + 1, n);
    }
  }

  lemma FirstFromFound<T>(f: nat -> Option<T>, p: nat, n: nat)
    ensures FirstFrom(f, p, n).Some? ==> exists q :: p <= q < n && f(q) == FirstFrom(f, p, n)
  {
    if FirstFrom(f, p, n).Some? {
      var q := FirstFromLeftmost(f, p, n);
    }
  }
}
