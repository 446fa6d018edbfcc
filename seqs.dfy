/** Array operations the data layer uses: `filter`, and the insertion-ordered
    `Set` that `Array.from(new Set(...))` turns back into a list. */
module Seqs {

  /** `a` is obtained from `b` by deleting elements: same relative order. */
  predicate IsSubsequence<T(==)>(a: seq<T>, b: seq<T>) {
    if a == [] then true
    else if b == [] then false
    else if a[0] == b[0] then IsSubsequence(a[1..], b[1..])
    else IsSubsequence(a, b[1..])
  }

  /** `xs.filter(p)`: the elements that satisfy `p`, in their original order. */
  function Filter<T>(xs: seq<T>, p: T -> bool): (r: seq<T>)
    ensures |r| <= |xs|
    ensures forall i :: 0 <= i < |r| ==> r[i] in xs && p(r[i])
    ensures forall i :: 0 <= i < |xs| && p(xs[i]) ==> xs[i] in r
    ensures IsSubsequence(r, xs)
  {
    if xs == [] then []
    else if p(xs[0]) then
      var rest := Filter(xs[1..], p);
      assert xs == [xs[0]] + xs[1..];
      [xs[0]] + rest
    else
      var rest := Filter(xs[1..], p);
      assert xs == [xs[0]] + xs[1..];
      assert rest != [] ==> rest[0] != xs[0] && IsSubsequence(rest, xs[1..]);
      rest
  }

  /** Filtering with a predicate every element satisfies keeps the list. */
  lemma {:induction false} FilterAll<T>(xs: seq<T>, p: T -> bool)
    requires forall i :: 0 <= i < |xs| ==> p(xs[i])
    ensures Filter(xs, p) == xs
  {
    if xs != [] {
      FilterAll(xs[1..], p);
      assert xs == [xs[0]] + xs[1..];
    }
  }

  /** The number of elements of `xs` that satisfy `p`. */
  function Count<T>(xs: seq<T>, p: T -> bool): nat {
    if xs == [] then 0 else (if p(xs[0]) then 1 else 0) + Count(xs[1..], p)
  }

  /** The filtered list holds exactly as many elements as satisfy `p`, so an
      element that occurs several times keeps all its occurrences. */
  lemma {:induction false} FilterLength<T>(xs: seq<T>, p: T -> bool)
    ensures |Filter(xs, p)| == Count(xs, p)
  {
    if xs != [] {
      FilterLength(xs[1..], p);
    }
  }

  /** `xs.forEach(x => f(x).forEach(...))` as one list: the lists `f` gives
      for each element, concatenated in order. */
  function FlatMap<A, B>(xs: seq<A>, f: A -> seq<B>): seq<B> {
    if xs == [] then [] else FlatMap(xs[..|xs| - 1], f) + f(xs[|xs| - 1])
  }

  /** An element is in the concatenation exactly when one of the lists holds it. */
  lemma {:induction false} FlatMapMembers<A, B>(xs: seq<A>, f: A -> seq<B>, y: B)
    ensures y in FlatMap(xs, f) <==> exists k :: 0 <= k < |xs| && y in f(xs[k])
  {
    if xs != [] {
      var p, last := xs[..|xs| - 1], xs[|xs| - 1];
      FlatMapMembers(p, f, y);
      assert FlatMap(xs, f) == FlatMap(p, f) + f(last);
      if y in f(last) {
        assert 0 <= |xs| - 1 < |xs| && y in f(xs[|xs| - 1]);
      } else if y in FlatMap(p, f) {
        var k :| 0 <= k < |p| && y in f(p[k]);
        assert xs[k] == p[k];
      } else {
        forall k | 0 <= k < |xs| ensures y !in f(xs[k]) {
          if k < |p| {
            assert xs[k] == p[k];
          }
        }
      }
    }
  }


  /** Extending the list by one element extends the concatenation by its list. */
  lemma FlatMapSnoc<A, B>(xs: seq<A>, f: A -> seq<B>, i: nat)
    requires i < |xs|
    ensures FlatMap(xs[..i + 1], f) == FlatMap(xs[..i], f) + f(xs[i])
  {
    assert xs[..i + 1][..i] == xs[..i];
  }

  predicate NoDuplicates<T(==)>(s: seq<T>) {
    forall i, j :: 0 <= i < j < |s| ==> s[i] != s[j]
  }

  /** Filtering a list without duplicates keeps it without duplicates. */
  lemma {:induction false} FilterNoDuplicates<T>(xs: seq<T>, p: T -> bool)
    requires NoDuplicates(xs)
    ensures NoDuplicates(Filter(xs, p))
  {
    if xs != [] {
      var tail := xs[1..];
      assert NoDuplicates(tail) by {
        forall i, j | 0 <= i < j < |tail| ensures tail[i] != tail[j] {
          assert tail[i] == xs[i + 1] && tail[j] == xs[j + 1];
        }
      }
      FilterNoDuplicates(tail, p);
      if p(xs[0]) {
        var rest := Filter(tail, p);
        assert xs[0] !in tail by {
          forall j | 0 <= j < |tail| ensures tail[j] != xs[0] {
            assert tail[j] == xs[j + 1];
          }
        }
        assert xs[0] !in rest;
        var r := [xs[0]] + rest;
        forall i, j | 0 <= i < j < |r| ensures r[i] != r[j] {
          if i == 0 {
            assert r[j] == rest[j - 1];
          } else {
            assert r[i] == rest[i - 1] && r[j] == rest[j - 1];
          }
        }
      }
    }
  }

  /** `set.add(x)` on an insertion-ordered set kept as a duplicate-free list. */
  function SetAdd<T(==)>(s: seq<T>, x: T): seq<T> {
    if x in s then s else s + [x]
  }

  /** `set.add(x)` makes `x` a member, keeps every member and adds nothing else. */
  lemma SetAddSpec<T>(s: seq<T>, x: T)
    ensures x in SetAdd(s, x)
    ensures forall y :: y in SetAdd(s, x) <==> y in s || y == x
    ensures NoDuplicates(s) ==> NoDuplicates(SetAdd(s, x))
  {
  }

  /** Adding every element of `xs` to an empty `Set`, then `Array.from`. */
  function Dedup<T(==)>(xs: seq<T>): (r: seq<T>)
    ensures forall i :: 0 <= i < |r| ==> r[i] in xs
  {
    if xs == [] then [] else SetAdd(Dedup(xs[..|xs| - 1]), xs[|xs| - 1])
  }

  /** The result holds each distinct element of `xs` exactly once. */
  lemma {:induction false} DedupSpec<T>(xs: seq<T>)
    ensures NoDuplicates(Dedup(xs))
    ensures forall y :: y in Dedup(xs) <==> y in xs
  {
    if xs != [] {
      var p, y := xs[..|xs| - 1], xs[|xs| - 1];
      DedupSpec(p);
      SetAddSpec(Dedup(p), y);
      assert xs == p + [y];
    }
  }

  /** Adding one more element to the `Set` is one `SetAdd`. */
  lemma DedupSnoc<T>(xs: seq<T>, y: T)
    ensures Dedup(xs + [y]) == SetAdd(Dedup(xs), y)
  {
    assert (xs + [y])[..|xs|] == xs;
  }

  /** `xs.forEach(x => set.add(x))` on a set that already holds `s`. */
  function AddAll<T(==)>(s: seq<T>, xs: seq<T>): seq<T> {
    if xs == [] then s else SetAdd(AddAll(s, xs[..|xs| - 1]), xs[|xs| - 1])
  }

  /** Adding a list to the `Set` built from `before` gives the `Set` built
      from both lists in turn. */
  lemma {:induction false} DedupAppend<T>(before: seq<T>, xs: seq<T>)
    ensures Dedup(before + xs) == AddAll(Dedup(before), xs)
  {
    if xs == [] {
      assert before + xs == before;
    } else {
      var p, y := xs[..|xs| - 1], xs[|xs| - 1];
      assert xs == p + [y];
      DedupAppend(before, p);
      DedupSnoc(before + p, y);
      AddAllSnoc(Dedup(before), p, y);
      assert before + xs == (before + p) + [y];
    }
  }

  /** Adding one more element after a list is one more `SetAdd`. */
  lemma AddAllSnoc<T>(s: seq<T>, xs: seq<T>, y: T)
    ensures AddAll(s, xs + [y]) == SetAdd(AddAll(s, xs), y)
  {
    assert (xs + [y])[..|xs|] == xs;
  }

  /** Position of the first occurrence of `x` in `xs`. */
  function FirstIndex<T(==)>(xs: seq<T>, x: T): (k: nat)
    requires x in xs
    ensures k < |xs| && xs[k] == x
    ensures forall i :: 0 <= i < k ==> xs[i] != x
  {
    if xs[0] == x then 0 else 1 + FirstIndex(xs[1..], x)
  }

  lemma {:induction false} FirstIndexAppend<T>(xs: seq<T>, y: T, x: T)
    requires x in xs
    ensures FirstIndex(xs + [y], x) == FirstIndex(xs, x)
  {
    var k := FirstIndex(xs, x);
    var k' := FirstIndex(xs + [y], x);
    assert (xs + [y])[k] == x;
    assert k' <= k;
    assert xs[k'] == x;
  }

  /** The deduplicated list orders its elements by where each first appears. */
  lemma {:induction false} DedupFirstAppearanceOrder<T>(xs: seq<T>)
    ensures forall i, j :: 0 <= i < j < |Dedup(xs)| ==>
      FirstIndex(xs, Dedup(xs)[i]) < FirstIndex(xs, Dedup(xs)[j])
  {
    if xs != [] {
      var p, y := xs[..|xs| - 1], xs[|xs| - 1];
      assert xs == p + [y];
      var dp := Dedup(p);
      DedupFirstAppearanceOrder(p);
      forall e | e in p ensures FirstIndex(xs, e) == FirstIndex(p, e) {
        FirstIndexAppend(p, y, e);
      }
      if y !in dp {
        DedupSpec(p);
        assert y !in p;
        assert FirstIndex(xs, y) == |p|;
        forall i | 0 <= i < |dp| ensures FirstIndex(xs, dp[i]) < |p| {
          assert dp[i] in p;
        }
      }
    }
  }

  /** A list without duplicates is its own deduplication. */
  lemma {:induction false} DedupOfDistinct<T>(xs: seq<T>)
    requires NoDuplicates(xs)
    ensures Dedup(xs) == xs
  {
    if xs != [] {
      var p := xs[..|xs| - 1];
      DedupOfDistinct(p);
      assert xs[|xs| - 1] !in p;
      assert xs == p + [xs[|xs| - 1]];
    }
  }
}
