/** The Python containers the modelled code leans on: `dict` with its insertion
    order, list slices with negative bounds, and the stable built-in sort. */
module PyCollections {

  datatype Option<+T> = None | Some(value: T)

  datatype Result<+T, +E> = Ok(value: T) | Err(error: E)

  function Min(a: int, b: int): int {
    if a <= b then a else b
  }

  /** The Python slice `s[:n]`; a negative `n` counts from the end. */
  function Take<T>(s: seq<T>, n: int): (r: seq<T>)
    ensures r <= s
    ensures 0 <= n ==> |r| == Min(n, |s|)
  {
    var stop := if n < 0 then n + |s| else n;
    if stop <= 0 then [] else if |s| <= stop then s else s[..stop]
  }

  /** The Python slice `s[n:]`; a negative `n` counts from the end. */
  function From<T>(s: seq<T>, n: int): (r: seq<T>)
    ensures |r| <= |s| && r == s[|s| - |r|..]
    ensures n < 0 ==> |r| == Min(-n, |s|)
  {
    var start := if n < 0 then n + |s| else n;
    if start <= 0 then s else if |s| <= start then [] else s[start..]
  }

  ghost predicate Distinct<T>(s: seq<T>) {
    forall i, j :: 0 <= i < j < |s| ==> s[i] != s[j]
  }

  function Filter<T>(s: seq<T>, keep: T -> bool): (r: seq<T>)
    ensures forall x :: x in r ==> x in s && keep(x)
    ensures forall x :: x in s && keep(x) ==> x in r
    ensures |r| <= |s|
  {
    if s == [] then [] else
      var rest := Filter(s[..|s| - 1], keep);
      assert s == s[..|s| - 1] + [s[|s| - 1]];
      if keep(s[|s| - 1]) then rest + [s[|s| - 1]] else rest
  }

  lemma {:induction false} FilterAppend<T>(a: seq<T>, b: seq<T>, keep: T -> bool)
    ensures Filter(a + b, keep) == Filter(a, keep) + Filter(b, keep)
  {
    if b == [] {
      assert a + b == a;
    } else {
      assert (a + b)[..|a + b| - 1] == a + b[..|b| - 1];
      FilterAppend(a, b[..|b| - 1], keep);
    }
  }

  lemma {:induction false} FilterAll<T>(s: seq<T>, keep: T -> bool)
    requires forall x :: x in s ==> keep(x)
    ensures Filter(s, keep) == s
  {
    if s != [] {
      FilterAll(s[..|s| - 1], keep);
    }
  }

  lemma {:induction false} FilterNone<T>(s: seq<T>, keep: T -> bool)
    requires forall x :: x in s ==> !keep(x)
    ensures Filter(s, keep) == []
  {
    if s != [] {
      FilterNone(s[..|s| - 1], keep);
    }
  }

  lemma {:induction false} FilterDistinct<T>(s: seq<T>, keep: T -> bool)
    requires Distinct(s)
    ensures Distinct(Filter(s, keep))
  {
    if s != [] {
      FilterDistinct(s[..|s| - 1], keep);
      var last := s[|s| - 1];
      assert last !in s[..|s| - 1];
    }
  }

  /** Each half of a duplicate-free list has what the other half lacks. */
  lemma DistinctHalves<T(!new)>(s: seq<T>, n: nat)
    requires Distinct(s) && n <= |s|
    ensures forall x :: x in s[n..] <==> x in s && x !in s[..n]
  {
    assert s == s[..n] + s[n..];
    forall x | x in s[n..] ensures x !in s[..n] {
      var j :| n <= j < |s| && s[j] == x;
    }
  }

  lemma SubsetSize<T>(a: set<T>, b: set<T>)
    requires a <= b
    ensures |a| <= |b|
    ensures |a| == |b| ==> a == b
  {
    assert b == a + (b - a);
  }

  /** The number of distinct entries equals the number of keys they list. */
  lemma {:induction false} DistinctCardinality<T>(s: seq<T>)
    requires Distinct(s)
    ensures |set x | x in s| == |s|
  {
    if s != [] {
      var init, last := s[..|s| - 1], s[|s| - 1];
      DistinctCardinality(init);
      assert last !in init;
      assert (set x | x in s) == (set x | x in init) + {last};
    } else {
      assert (set x | x in s) == {};
    }
  }

  /** A Python `dict`: `order` is the iteration order, which is the order of first
      insertion; overwriting a key keeps its place. */
  datatype Dict<K(==), V> = Dict(order: seq<K>, at: map<K, V>) {

    ghost predicate Wf() {
      && Distinct(order)
      && (forall k :: k in order ==> k in at)
      && (forall k :: k in at ==> k in order)
    }

    function Put(k: K, v: V): Dict<K, V> {
      Dict(if k in at then order else order + [k], at[k := v])
    }

    function Pop(k: K): Dict<K, V> {
      Dict(Filter(order, x => x != k), at - {k})
    }

    lemma PutWf(k: K, v: V)
      requires Wf()
      ensures Put(k, v).Wf()
    {
      if k !in at {
        assert k !in order;
      }
    }

    lemma PopWf(k: K)
      requires Wf()
      ensures Pop(k).Wf()
    {
      FilterDistinct(order, x => x != k);
    }
  }

  lemma StoreTwice<K, V>(m: map<K, V>, k: K, a: V, b: V)
    ensures m[k := a][k := b] == m[k := b]
  {
  }

  function EmptyDict<K, V>(): Dict<K, V> {
    Dict([], map[])
  }

  // ----- sorted(..., key=..., reverse=True): descending and stable

  ghost predicate Descending<T>(s: seq<T>, key: T -> real) {
    forall i, j :: 0 <= i < j < |s| ==> key(s[i]) >= key(s[j])
  }

  function InsertDescending<T>(s: seq<T>, x: T, key: T -> real): (r: seq<T>)
    ensures |r| == |s| + 1
  {
    if s == [] then [x]
    else if key(s[|s| - 1]) >= key(x) then s + [x]
    else InsertDescending(s[..|s| - 1], x, key) + [s[|s| - 1]]
  }

  function SortDescending<T>(s: seq<T>, key: T -> real): (r: seq<T>)
    ensures |r| == |s|
  {
    if s == [] then []
    else InsertDescending(SortDescending(s[..|s| - 1], key), s[|s| - 1], key)
  }

  lemma {:induction false} InsertDescendingPermutes<T>(s: seq<T>, x: T, key: T -> real)
    ensures multiset(InsertDescending(s, x, key)) == multiset(s) + multiset{x}
  {
    if s != [] && key(s[|s| - 1]) < key(x) {
      var init, last := s[..|s| - 1], s[|s| - 1];
      assert s == init + [last];
      InsertDescendingPermutes(init, x, key);
    }
  }

  lemma {:induction false} InsertDescendingOrders<T>(s: seq<T>, x: T, key: T -> real)
    requires Descending(s, key)
    ensures Descending(InsertDescending(s, x, key), key)
    ensures forall i :: 0 <= i <= |s| ==>
      InsertDescending(s, x, key)[i] == x || InsertDescending(s, x, key)[i] in s
  {
    if s != [] && key(s[|s| - 1]) < key(x) {
      InsertDescendingOrders(s[..|s| - 1], x, key);
    }
  }

  lemma {:induction false} SortDescendingSorts<T>(s: seq<T>, key: T -> real)
    ensures Descending(SortDescending(s, key), key)
    ensures multiset(SortDescending(s, key)) == multiset(s)
  {
    if s != [] {
      assert s == s[..|s| - 1] + [s[|s| - 1]];
      SortDescendingSorts(s[..|s| - 1], key);
      InsertDescendingOrders(SortDescending(s[..|s| - 1], key), s[|s| - 1], key);
      InsertDescendingPermutes(SortDescending(s[..|s| - 1], key), s[|s| - 1], key);
    }
  }

  lemma SortDescendingMembers<T>(s: seq<T>, key: T -> real)
    ensures forall x :: x in SortDescending(s, key) ==> x in s
    ensures forall x :: x in s ==> x in SortDescending(s, key)
  {
    SortDescendingSorts(s, key);
    forall x | x in SortDescending(s, key) ensures x in s {
      assert x in multiset(SortDescending(s, key));
    }
    forall x | x in s ensures x in SortDescending(s, key) {
      assert x in multiset(s);
    }
  }

  function WithKey<T>(key: T -> real, v: real): T -> bool {
    x => key(x) == v
  }

  function OnlyIf<T>(x: T, keep: T -> bool): seq<T> {
    if keep(x) then [x] else []
  }

  lemma FilterPush<T>(s: seq<T>, x: T, keep: T -> bool)
    ensures Filter(s + [x], keep) == Filter(s, keep) + OnlyIf(x, keep)
  {
    assert (s + [x])[..|s|] == s;
  }

  lemma Regroup<T>(a: seq<T>, b: seq<T>, c: seq<T>)
    ensures a + b + c == a + (b + c)
  {
  }

  lemma SwapEnds<T>(a: seq<T>, x: seq<T>, y: seq<T>)
    requires x == [] || y == []
    ensures a + x + y == a + y + x
  {
  }

  lemma {:induction false} InsertDescendingStable<T>(s: seq<T>, x: T, key: T -> real, v: real)
    ensures Filter(InsertDescending(s, x, key), WithKey(key, v)) == Filter(s, WithKey(key, v)) + OnlyIf(x, WithKey(key, v))
  {
    var same := WithKey(key, v);
    if s == [] || key(s[|s| - 1]) >= key(x) {
      FilterPush(s, x, same);
    } else {
      var init, last := s[..|s| - 1], s[|s| - 1];
      InsertDescendingStable(init, x, key, v);
      FilterPush(InsertDescending(init, x, key), last, same);
      SwapEnds(Filter(init, same), OnlyIf(x, same), OnlyIf(last, same));
    }
  }

  /** Entries with equal keys keep their relative order. */
  lemma {:induction false} SortDescendingStable<T>(s: seq<T>, key: T -> real, v: real)
    ensures Filter(SortDescending(s, key), WithKey(key, v)) == Filter(s, WithKey(key, v))
  {
    if s != [] {
      var init, last := s[..|s| - 1], s[|s| - 1];
      SortDescendingStable(init, key, v);
      InsertDescendingStable(SortDescending(init, key), last, key, v);
    }
  }

  /** A list already in descending order is left alone. */
  lemma {:induction false} SortDescendingIdentity<T>(s: seq<T>, key: T -> real)
    requires Descending(s, key)
    ensures SortDescending(s, key) == s
  {
    if s != [] {
      SortDescendingIdentity(s[..|s| - 1], key);
    }
  }

  lemma SameElements<T>(a: seq<T>, b: seq<T>)
    requires multiset(a) == multiset(b)
    ensures |a| == |b|
    ensures forall x :: x in a <==> x in b
  {
    assert |multiset(a)| == |a| && |multiset(b)| == |b|;
    forall x ensures x in a <==> x in b {
      assert x in a <==> x in multiset(a);
      assert x in b <==> x in multiset(b);
    }
  }

  lemma {:induction false} DistinctMultiplicity<T>(s: seq<T>)
    ensures Distinct(s) <==> forall x :: x in s ==> multiset(s)[x] == 1
  {
    if s != [] {
      var init, last := s[..|s| - 1], s[|s| - 1];
      assert s == init + [last];
      DistinctMultiplicity(init);
      if last in init {
        assert last in multiset(init);
        assert multiset(s)[last] >= 2;
        var i :| 0 <= i < |init| && init[i] == last;
        assert s[i] == s[|s| - 1];
      } else {
        assert last !in multiset(init);
        forall x | x in s ensures multiset(s)[x] == (if x == last then 1 else multiset(init)[x]) {
        }
        assert Distinct(s) <==> Distinct(init);
        assert forall x :: x in init ==> x in s && multiset(s)[x] == multiset(init)[x];
      }
    }
  }

  lemma PermutationDistinct<T>(a: seq<T>, b: seq<T>)
    requires multiset(a) == multiset(b) && Distinct(a)
    ensures Distinct(b)
  {
    SameElements(a, b);
    DistinctMultiplicity(a);
    DistinctMultiplicity(b);
  }
}
