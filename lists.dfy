/** Sequence operations shared by the components: `Array.prototype.filter`,
    first-seen de-duplication (`[...new Set(xs)]`), subsequences, and a
    stable insertion sort standing for `Array.prototype.sort`. Most are
    defined from the end of the sequence so that a loop that appends one
    element at a time matches them step by step. */
module Lists {

  function Filter<T(!new)>(s: seq<T>, p: T -> bool): (r: seq<T>)
    ensures |r| <= |s|
    ensures forall x :: x in r <==> x in s && p(x)
    ensures forall i :: 0 <= i < |r| ==> p(r[i])
    decreases |s|
  {
    if s == [] then []
    else
      var init := s[..|s| - 1];
      assert s == init + [s[|s| - 1]];
      Filter(init, p) + (if p(s[|s| - 1]) then [s[|s| - 1]] else [])
  }

  /** Extending the input by one element extends the result by that element
      when it satisfies `p`. */
  lemma FilterStep<T(!new)>(s: seq<T>, i: nat, p: T -> bool)
    requires i < |s|
    ensures Filter(s[..i + 1], p) == Filter(s[..i], p) + if p(s[i]) then [s[i]] else []
  {
    assert s[..i + 1][..i] == s[..i];
  }

  /** Splitting a predicate into two disjoint ones splits what it keeps. */
  lemma {:induction false} FilterDisjointUnion<T(!new)>(s: seq<T>, p: T -> bool, q: T -> bool, r: T -> bool)
    requires forall x :: p(x) == (q(x) || r(x))
    requires forall x :: !(q(x) && r(x))
    ensures multiset(Filter(s, p)) == multiset(Filter(s, q)) + multiset(Filter(s, r))
    decreases |s|
  {
    if s != [] {
      FilterDisjointUnion(s[..|s| - 1], p, q, r);
    }
  }

  /** `s.map(f)`. */
  function Map<T, U>(s: seq<T>, f: T -> U): (r: seq<U>)
    ensures |r| == |s|
    ensures forall i :: 0 <= i < |s| ==> r[i] == f(s[i])
    decreases |s|
  {
    if s == [] then [] else Map(s[..|s| - 1], f) + [f(s[|s| - 1])]
  }

  /** `g(0) + g(1) + ... + g(n - 1)`: what a loop over `0..n` that appends
      each block builds. */
  function Flatten<T>(n: nat, g: nat -> seq<T>): seq<T>
    decreases n
  {
    if n == 0 then [] else Flatten(n - 1, g) + g(n - 1)
  }

  /** An element is in the concatenation exactly when it is in a block. */
  lemma {:induction false} FlattenOrigin<T>(n: nat, g: nat -> seq<T>, x: T)
    ensures x in Flatten(n, g) <==> exists p :: 0 <= p < n && x in g(p)
    decreases n
  {
    if n > 0 {
      FlattenOrigin(n - 1, g, x);
    }
  }

  /** When every element of block `p` has block key `p` and the keys of
      each block ascend, the concatenation is ordered by block key first and
      by key within a block. */
  lemma {:induction false} FlattenOrdered<T>(n: nat, g: nat -> seq<T>, block: T -> int, key: T -> int)
    requires forall p, i :: 0 <= p < n && 0 <= i < |g(p)| ==> block(g(p)[i]) == p
    requires forall p, i, j :: 0 <= p < n && 0 <= i < j < |g(p)| ==> key(g(p)[i]) < key(g(p)[j])
    ensures forall i :: 0 <= i < |Flatten(n, g)| ==> 0 <= block(Flatten(n, g)[i]) < n
    ensures forall i, j :: 0 <= i < j < |Flatten(n, g)| ==>
      || block(Flatten(n, g)[i]) < block(Flatten(n, g)[j])
      || (block(Flatten(n, g)[i]) == block(Flatten(n, g)[j]) && key(Flatten(n, g)[i]) < key(Flatten(n, g)[j]))
    decreases n
  {
    if n > 0 {
      FlattenOrdered(n - 1, g, block, key);
      var a := Flatten(n - 1, g);
      var b := g(n - 1);
      var r := Flatten(n, g);
      assert r == a + b;
      forall i | 0 <= i < |r| ensures 0 <= block(r[i]) < n {
        if i < |a| {
          assert r[i] == a[i];
        } else {
          assert r[i] == b[i - |a|];
        }
      }
      forall i, j | 0 <= i < j < |r|
        ensures block(r[i]) < block(r[j]) || (block(r[i]) == block(r[j]) && key(r[i]) < key(r[j]))
      {
        if j < |a| {
          assert r[i] == a[i] && r[j] == a[j];
        } else if i < |a| {
          assert r[i] == a[i] && r[j] == b[j - |a|];
        } else {
          assert r[i] == b[i - |a|] && r[j] == b[j - |a|];
        }
      }
    }
  }

  /** When every element of block `p` has block key `p`, the block keys
      of the concatenation never decrease. */
  lemma {:induction false} FlattenBlocks<T>(n: nat, g: nat -> seq<T>, block: T -> int)
    requires forall p, i :: 0 <= p < n && 0 <= i < |g(p)| ==> block(g(p)[i]) == p
    ensures forall i :: 0 <= i < |Flatten(n, g)| ==> 0 <= block(Flatten(n, g)[i]) < n
    ensures forall i, j :: 0 <= i <= j < |Flatten(n, g)| ==> block(Flatten(n, g)[i]) <= block(Flatten(n, g)[j])
    decreases n
  {
    if n > 0 {
      FlattenBlocks(n - 1, g, block);
      var a := Flatten(n - 1, g);
      var b := g(n - 1);
      var r := Flatten(n, g);
      forall i | 0 <= i < |r| ensures 0 <= block(r[i]) < n {
        if i < |a| {
          assert r[i] == a[i];
        } else {
          assert r[i] == b[i - |a|];
        }
      }
      forall i, j | 0 <= i <= j < |r| ensures block(r[i]) <= block(r[j]) {
        if j < |a| {
          assert r[i] == a[i] && r[j] == a[j];
        } else if i < |a| {
          assert r[i] == a[i] && r[j] == b[j - |a|];
        } else {
          assert r[i] == b[i - |a|] && r[j] == b[j - |a|];
        }
      }
    }
  }

  /** When exactly the first element of each block is marked `first`, an
      element of the concatenation is marked exactly when it starts the
      sequence or its block key differs from the one before it. */
  lemma {:induction false} FlattenBoundaries<T>(n: nat, g: nat -> seq<T>, block: T -> int, first: T -> bool)
    requires forall p, i :: 0 <= p < n && 0 <= i < |g(p)| ==> block(g(p)[i]) == p
    requires forall p, i :: 0 <= p < n && 0 <= i < |g(p)| ==> (first(g(p)[i]) <==> i == 0)
    ensures Flatten(n, g) != [] ==> first(Flatten(n, g)[0])
    ensures forall i :: 0 < i < |Flatten(n, g)| ==>
      (first(Flatten(n, g)[i]) <==> block(Flatten(n, g)[i - 1]) != block(Flatten(n, g)[i]))
    decreases n
  {
    if n > 0 {
      FlattenBoundaries(n - 1, g, block, first);
      FlattenBlocks(n - 1, g, block);
      var a := Flatten(n - 1, g);
      var b := g(n - 1);
      var r := Flatten(n, g);
      assert r == a + b;
      if r != [] {
        if a == [] {
          assert r[0] == b[0];
        } else {
          assert r[0] == a[0];
        }
      }
      forall i | 0 < i < |r| ensures first(r[i]) <==> block(r[i - 1]) != block(r[i]) {
        if i < |a| {
          assert r[i] == a[i] && r[i - 1] == a[i - 1];
        } else if i == |a| {
          assert r[i] == b[0] && r[i - 1] == a[i - 1];
        } else {
          assert r[i] == b[i - |a|] && r[i - 1] == b[i - 1 - |a|];
        }
      }
    }
  }

  /** Concatenating empty blocks gives the empty sequence. */
  lemma {:induction false} FlattenEmpty<T>(n: nat, g: nat -> seq<T>)
    requires forall p :: 0 <= p < n ==> g(p) == []
    ensures Flatten(n, g) == []
    decreases n
  {
    if n > 0 {
      FlattenEmpty(n - 1, g);
    }
  }

  /** When all blocks but one are empty, the concatenation is that block. */
  lemma {:induction false} FlattenSingle<T>(n: nat, g: nat -> seq<T>, k: nat)
    requires k < n
    requires forall p :: 0 <= p < n && p != k ==> g(p) == []
    ensures Flatten(n, g) == g(k)
    decreases n
  {
    if k == n - 1 {
      FlattenEmpty(n - 1, g);
    } else {
      FlattenSingle(n - 1, g, k);
    }
  }

  lemma MapAppend<T, U>(a: seq<T>, b: seq<T>, f: T -> U)
    ensures Map(a + b, f) == Map(a, f) + Map(b, f)
  {
    var l := Map(a + b, f);
    assert forall i :: 0 <= i < |a| ==> l[i] == f(a[i]);
    assert forall i :: 0 <= i < |b| ==> l[|a| + i] == f(b[i]);
  }

  /** Mapping a concatenation maps each block. */
  lemma {:induction false} MapFlatten<T, U>(n: nat, g: nat -> seq<T>, f: T -> U, h: nat -> seq<U>)
    requires forall p :: 0 <= p < n ==> h(p) == Map(g(p), f)
    ensures Map(Flatten(n, g), f) == Flatten(n, h)
    decreases n
  {
    if n > 0 {
      MapFlatten(n - 1, g, f, h);
      MapAppend(Flatten(n - 1, g), g(n - 1), f);
    }
  }

  /** Filtering a concatenation filters each block. */
  lemma {:induction false} FilterFlatten<T(!new)>(n: nat, g: nat -> seq<T>, q: T -> bool, h: nat -> seq<T>)
    requires forall p :: 0 <= p < n ==> h(p) == Filter(g(p), q)
    ensures Filter(Flatten(n, g), q) == Flatten(n, h)
    decreases n
  {
    if n > 0 {
      FilterFlatten(n - 1, g, q, h);
      FilterAppend(Flatten(n - 1, g), g(n - 1), q);
    }
  }

  /** Filtering keeps every copy of an element that satisfies the predicate. */
  lemma {:induction false} FilterMultiplicity<T(!new)>(s: seq<T>, p: T -> bool, x: T)
    requires p(x)
    ensures multiset(Filter(s, p))[x] == multiset(s)[x]
    decreases |s|
  {
    if s != [] {
      var init := s[..|s| - 1];
      FilterMultiplicity(init, p, x);
      assert s == init + [s[|s| - 1]];
    }
  }

  lemma {:induction false} FilterAppend<T(!new)>(a: seq<T>, b: seq<T>, p: T -> bool)
    ensures Filter(a + b, p) == Filter(a, p) + Filter(b, p)
    decreases |b|
  {
    if b != [] {
      var b' := b[..|b| - 1];
      assert (a + b)[..|a + b| - 1] == a + b';
      FilterAppend(a, b', p);
    } else {
      assert a + b == a;
    }
  }

  lemma {:induction false} FilterKeepsAll<T(!new)>(s: seq<T>, p: T -> bool)
    requires forall i :: 0 <= i < |s| ==> p(s[i])
    ensures Filter(s, p) == s
    decreases |s|
  {
    if s != [] {
      FilterKeepsAll(s[..|s| - 1], p);
    }
  }

  lemma {:induction false} FilterNone<T(!new)>(s: seq<T>, p: T -> bool)
    requires forall x :: x in s ==> !p(x)
    ensures Filter(s, p) == []
    decreases |s|
  {
    if s != [] {
      FilterNone(s[..|s| - 1], p);
    }
  }

  lemma FilterIdempotent<T(!new)>(s: seq<T>, p: T -> bool)
    ensures Filter(Filter(s, p), p) == Filter(s, p)
  {
    FilterKeepsAll(Filter(s, p), p);
  }

  lemma {:induction false} FilterLength<T(!new)>(s: seq<T>, p: T -> bool)
    ensures |Filter(s, p)| == |s| <==> forall i :: 0 <= i < |s| ==> p(s[i])
    decreases |s|
  {
    if s != [] {
      var init := s[..|s| - 1];
      var last := s[|s| - 1];
      FilterLength(init, p);
      assert |Filter(s, p)| == |Filter(init, p)| + if p(last) then 1 else 0;
      assert forall i :: 0 <= i < |init| ==> init[i] == s[i];
    }
  }

  /** The number of elements of `s` that satisfy `p`. */
  function Count<T>(s: seq<T>, p: T -> bool): (n: nat)
    ensures n <= |s|
    decreases |s|
  {
    if s == [] then 0 else Count(s[..|s| - 1], p) + (if p(s[|s| - 1]) then 1 else 0)
  }

  /** Counting is filtering and taking the length. */
  lemma {:induction false} CountFilter<T(!new)>(s: seq<T>, p: T -> bool)
    ensures Count(s, p) == |Filter(s, p)|
    decreases |s|
  {
    if s != [] {
      CountFilter(s[..|s| - 1], p);
    }
  }

  /** One more element adds one to the count exactly when it satisfies `p`. */
  lemma CountStep<T>(s: seq<T>, i: nat, p: T -> bool)
    requires i < |s|
    ensures Count(s[..i + 1], p) == Count(s[..i], p) + if p(s[i]) then 1 else 0
  {
    assert s[..i + 1][..i] == s[..i];
  }

  /** `a` is obtained from `b` by deleting elements (matched greedily from the end). */
  predicate IsSubsequence<T(==)>(a: seq<T>, b: seq<T>)
    decreases |b|
  {
    if a == [] then true
    else if b == [] then false
    else if a[|a| - 1] == b[|b| - 1] then IsSubsequence(a[..|a| - 1], b[..|b| - 1])
    else IsSubsequence(a, b[..|b| - 1])
  }

  lemma {:induction false} FilterIsSubsequence<T(!new)>(s: seq<T>, p: T -> bool)
    ensures IsSubsequence(Filter(s, p), s)
    decreases |s|
  {
    if s != [] {
      var init := s[..|s| - 1];
      FilterIsSubsequence(init, p);
      if p(s[|s| - 1]) {
        var r := Filter(s, p);
        assert r[..|r| - 1] == Filter(init, p);
      } else {
        assert Filter(s, p) == Filter(init, p);
        SubsequenceDropLast(Filter(init, p), s);
      }
    }
  }

  /** Appending an element to `b` keeps `a` a subsequence of it. */
  lemma {:induction false} SubsequenceDropLast<T>(a: seq<T>, b: seq<T>)
    requires b != [] && IsSubsequence(a, b[..|b| - 1])
    ensures IsSubsequence(a, b)
    decreases |b|, 0
  {
    if a != [] && a[|a| - 1] == b[|b| - 1] {
      SubsequenceTrim(a, b[..|b| - 1]);
    }
  }

  /** Dropping the last element of a subsequence keeps it a subsequence. */
  lemma {:induction false} SubsequenceTrim<T>(a: seq<T>, b: seq<T>)
    requires a != [] && IsSubsequence(a, b)
    ensures IsSubsequence(a[..|a| - 1], b)
    decreases |b|, 1
  {
    var a' := a[..|a| - 1];
    var b' := b[..|b| - 1];
    if a[|a| - 1] != b[|b| - 1] {
      SubsequenceTrim(a, b');
    }
    SubsequenceDropLast(a', b);
  }

  predicate NoDuplicates<T(==)>(s: seq<T>) {
    forall i, j :: 0 <= i < j < |s| ==> s[i] != s[j]
  }

  /** `[...new Set(s)]`: the distinct elements of `s` in first-seen order. */
  function Distinct<T(==,!new)>(s: seq<T>): (r: seq<T>)
    ensures NoDuplicates(r)
    ensures forall x :: x in r <==> x in s
    ensures |r| <= |s|
    decreases |s|
  {
    if s == [] then []
    else
      var init := s[..|s| - 1];
      assert s == init + [s[|s| - 1]];
      var d := Distinct(init);
      if s[|s| - 1] in d then d else d + [s[|s| - 1]]
  }

  /** Two maps with the same keys and the same value at each key are equal. */
  lemma MapExtensional<K, V>(a: map<K, V>, b: map<K, V>)
    requires a.Keys == b.Keys
    requires forall k :: k in a ==> a[k] == b[k]
    ensures a == b
  {
  }

  /** One more element joins the distinct elements when it is new. */
  lemma DistinctSnoc<T(!new)>(s: seq<T>, x: T)
    ensures Distinct(s + [x]) == if x in Distinct(s) then Distinct(s) else Distinct(s) + [x]
  {
    assert (s + [x])[..|s|] == s;
  }

  lemma MapSnoc<T, U>(s: seq<T>, x: T, f: T -> U)
    ensures Map(s + [x], f) == Map(s, f) + [f(x)]
  {
    assert (s + [x])[..|s|] == s;
  }

  /** The position of the first occurrence of `x` in `s`. */
  function FirstIndex<T(==)>(s: seq<T>, x: T): (i: nat)
    requires x in s
    ensures i < |s| && s[i] == x
    ensures forall j :: 0 <= j < i ==> s[j] != x
  {
    if s[0] == x then 0 else 1 + FirstIndex(s[1..], x)
  }

  lemma {:induction false} FirstIndexAppend<T>(a: seq<T>, b: seq<T>, x: T)
    requires x in a
    ensures FirstIndex(a + b, x) == FirstIndex(a, x)
  {
    var i := FirstIndex(a, x);
    var k := FirstIndex(a + b, x);
    assert (a + b)[i] == x;
    assert k <= i;
  }

  /** `Distinct` keeps the elements in the order of their first occurrence. */
  lemma {:induction false} DistinctFirstSeenOrder<T(!new)>(s: seq<T>)
    ensures forall i, j :: 0 <= i < j < |Distinct(s)| ==>
      FirstIndex(s, Distinct(s)[i]) < FirstIndex(s, Distinct(s)[j])
    decreases |s|
  {
    if s != [] {
      var init := s[..|s| - 1];
      var x := s[|s| - 1];
      assert s == init + [x];
      DistinctFirstSeenOrder(init);
      DistinctSnoc(init, x);
      var d := Distinct(init);
      forall y | y in d ensures FirstIndex(s, y) == FirstIndex(init, y) {
        FirstIndexAppend(init, [x], y);
      }
      if x !in d {
        var r := Distinct(s);
        assert r == d + [x];
        assert FirstIndex(s, x) == |init|;
        forall i, j | 0 <= i < j < |r| ensures FirstIndex(s, r[i]) < FirstIndex(s, r[j]) {
          assert r[i] == d[i] && r[i] in d;
          if j < |d| {
            assert r[j] == d[j] && r[j] in d;
          }
        }
      }
    }
  }

  ghost predicate StrictOrder<T(!new)>(less: (T, T) -> bool) {
    && (forall a :: !less(a, a))
    && (forall a, b, c :: less(a, b) && less(b, c) ==> less(a, c))
  }

  /** No element is strictly less than one before it. */
  predicate Sorted<T>(s: seq<T>, less: (T, T) -> bool) {
    forall i, j :: 0 <= i < j < |s| ==> !less(s[j], s[i])
  }

  /** Places `x` before the first element it is strictly less than, so that
      it goes after every element equal to it. */
  function Insert<T(==,!new)>(x: T, s: seq<T>, less: (T, T) -> bool): (r: seq<T>)
    ensures |r| == |s| + 1
    ensures forall y :: y in r <==> y == x || y in s
    ensures NoDuplicates(s) && x !in s ==> NoDuplicates(r)
  {
    if s == [] then [x]
    else if less(x, s[0]) then [x] + s
    else
      assert s == [s[0]] + s[1..];
      assert NoDuplicates(s) ==> NoDuplicates(s[1..]) && s[0] !in s[1..];
      [s[0]] + Insert(x, s[1..], less)
  }

  /** Stable insertion sort: later elements go after earlier elements that are
      neither smaller nor larger, as in the stable `Array.prototype.sort`. */
  function InsertionSort<T(==,!new)>(s: seq<T>, less: (T, T) -> bool): (r: seq<T>)
    ensures |r| == |s|
    ensures forall y :: y in r <==> y in s
    ensures NoDuplicates(s) ==> NoDuplicates(r)
    decreases |s|
  {
    if s == [] then []
    else
      var init := s[..|s| - 1];
      assert s == init + [s[|s| - 1]];
      Insert(s[|s| - 1], InsertionSort(init, less), less)
  }

  lemma {:induction false} InsertSorted<T(!new)>(x: T, s: seq<T>, less: (T, T) -> bool)
    requires StrictOrder(less) && Sorted(s, less)
    ensures Sorted(Insert(x, s, less), less)
  {
    if s != [] && !less(x, s[0]) {
      var rest := s[1..];
      assert Sorted(rest, less) by {
        forall i, j | 0 <= i < j < |rest| ensures !less(rest[j], rest[i]) {
          assert rest[j] == s[j + 1] && rest[i] == s[i + 1];
        }
      }
      InsertSorted(x, rest, less);
      var r := Insert(x, s, less);
      forall i, j | 0 <= i < j < |r| ensures !less(r[j], r[i]) {
        if i == 0 {
          assert r[j] in Insert(x, rest, less);
        } else {
          assert r[i] == Insert(x, rest, less)[i - 1] && r[j] == Insert(x, rest, less)[j - 1];
        }
      }
    }
  }

  lemma {:induction false} InsertionSortSorted<T(!new)>(s: seq<T>, less: (T, T) -> bool)
    requires StrictOrder(less)
    ensures Sorted(InsertionSort(s, less), less)
    decreases |s|
  {
    if s != [] {
      InsertionSortSorted(s[..|s| - 1], less);
      InsertSorted(s[|s| - 1], InsertionSort(s[..|s| - 1], less), less);
    }
  }
}
