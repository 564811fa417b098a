/** Order-preserving de-duplication: walk a list, keep an element only when no
    element with the same key was kept before. The planner's
    `_unique_keep_order` and the matcher's `seen_*` sets are both this. */
module Seqs {

  function Keys<T, K>(xs: seq<T>, key: T -> K): (ks: seq<K>)
    ensures |ks| == |xs|
    ensures forall i :: 0 <= i < |xs| ==> ks[i] == key(xs[i])
  {
    seq(|xs|, i requires 0 <= i < |xs| => key(xs[i]))
  }

  /** Index of the first element of `xs` whose key is `k`. */
  function FirstIndex<T, K(==)>(xs: seq<T>, key: T -> K, k: K): (i: nat)
    requires k in Keys(xs, key)
    ensures i < |xs| && key(xs[i]) == k
    ensures forall j :: 0 <= j < i ==> key(xs[j]) != k
  {
    if key(xs[0]) == k then 0
    else
      assert Keys(xs, key)[1..] == Keys(xs[1..], key);
      1 + FirstIndex(xs[1..], key, k)
  }

  /** Keeps the first element of each key, in input order. */
  function DedupBy<T, K(==)>(xs: seq<T>, key: T -> K): seq<T>
    decreases |xs|
  {
    if xs == [] then []
    else
      var kept := DedupBy(xs[..|xs| - 1], key);
      if key(xs[|xs| - 1]) in Keys(kept, key) then kept else kept + [xs[|xs| - 1]]
  }

  function Id<T>(x: T): T {
    x
  }

  /** `_unique_keep_order`: each value once, in first-occurrence order. */
  function Dedup<T(==)>(xs: seq<T>): seq<T> {
    DedupBy(xs, Id)
  }

  /** Index of the first occurrence of `x` in `xs`. */
  function Position<T(==)>(xs: seq<T>, x: T): (i: nat)
    requires x in xs
    ensures i < |xs| && xs[i] == x
    ensures forall j :: 0 <= j < i ==> xs[j] != x
  {
    assert Keys(xs, Id) == xs;
    FirstIndex(xs, Id, x)
  }

  lemma FirstIndexOfPrefix<T, K>(xs: seq<T>, n: nat, key: T -> K, k: K)
    requires n <= |xs|
    requires k in Keys(xs[..n], key)
    ensures k in Keys(xs, key)
    ensures FirstIndex(xs, key, k) == FirstIndex(xs[..n], key, k)
  {
    var i := FirstIndex(xs[..n], key, k);
    assert xs[..n][i] == xs[i];
    assert Keys(xs, key)[i] == k;
    var f := FirstIndex(xs, key, k);
    assert key(xs[i]) == k;
    assert key(xs[..n][f]) == key(xs[f]);
  }

  /** The three facts that pin DedupBy down: every kept element is the first
      input element with its key, kept elements appear in the order of those
      first occurrences (so keys are distinct), and every input key is kept. */
  lemma DedupBySpec<T, K>(xs: seq<T>, key: T -> K)
    ensures forall i :: 0 <= i < |DedupBy(xs, key)| ==>
      key(DedupBy(xs, key)[i]) in Keys(xs, key) &&
      DedupBy(xs, key)[i] == xs[FirstIndex(xs, key, key(DedupBy(xs, key)[i]))]
    ensures forall i, j :: 0 <= i < j < |DedupBy(xs, key)| ==>
      FirstIndex(xs, key, key(DedupBy(xs, key)[i])) < FirstIndex(xs, key, key(DedupBy(xs, key)[j]))
    ensures forall k :: k in Keys(xs, key) ==> k in Keys(DedupBy(xs, key), key)
    ensures forall k :: k in Keys(DedupBy(xs, key), key) ==> k in Keys(xs, key)
  {
    DedupByFirst(xs, key);
    DedupByOrdered(xs, key);
    DedupByKeys(xs, key);
  }

  lemma {:induction false} DedupByKeys<T, K>(xs: seq<T>, key: T -> K)
    ensures forall k :: k in Keys(xs, key) ==> k in Keys(DedupBy(xs, key), key)
    ensures forall k :: k in Keys(DedupBy(xs, key), key) ==> k in Keys(xs, key)
    decreases |xs|
  {
    if xs != [] {
      var n := |xs| - 1;
      var p, x := xs[..n], xs[n];
      var kept := DedupBy(p, key);
      DedupByKeys(p, key);
      assert xs == p + [x];
      assert Keys(xs, key) == Keys(p, key) + [key(x)];
      if key(x) !in Keys(kept, key) {
        assert DedupBy(xs, key) == kept + [x];
        assert Keys(kept + [x], key) == Keys(kept, key) + [key(x)];
      }
    }
  }

  lemma {:induction false} DedupByFirst<T, K>(xs: seq<T>, key: T -> K)
    ensures forall i :: 0 <= i < |DedupBy(xs, key)| ==>
      key(DedupBy(xs, key)[i]) in Keys(xs, key) &&
      DedupBy(xs, key)[i] == xs[FirstIndex(xs, key, key(DedupBy(xs, key)[i]))]
    decreases |xs|
  {
    if xs != [] {
      var n := |xs| - 1;
      var p, x := xs[..n], xs[n];
      var kept := DedupBy(p, key);
      var r := DedupBy(xs, key);
      DedupByFirst(p, key);
      forall i | 0 <= i < |kept|
        ensures key(kept[i]) in Keys(xs, key)
        ensures kept[i] == xs[FirstIndex(xs, key, key(kept[i]))]
      {
        FirstIndexOfPrefix(xs, n, key, key(kept[i]));
        assert p[FirstIndex(p, key, key(kept[i]))] == xs[FirstIndex(p, key, key(kept[i]))];
      }
      if key(x) !in Keys(kept, key) {
        DedupByLastStep(xs, key);
        assert r == kept + [x];
        forall i | 0 <= i < |r| ensures key(r[i]) in Keys(xs, key) && r[i] == xs[FirstIndex(xs, key, key(r[i]))] {
          if i < |kept| {
            assert r[i] == kept[i];
          } else {
            assert r[i] == x;
          }
        }
      }
    }
  }

  lemma {:induction false} DedupByOrdered<T, K>(xs: seq<T>, key: T -> K)
    ensures forall i :: 0 <= i < |DedupBy(xs, key)| ==> key(DedupBy(xs, key)[i]) in Keys(xs, key)
    ensures forall i, j :: 0 <= i < j < |DedupBy(xs, key)| ==>
      FirstIndex(xs, key, key(DedupBy(xs, key)[i])) < FirstIndex(xs, key, key(DedupBy(xs, key)[j]))
    decreases |xs|
  {
    if xs != [] {
      var n := |xs| - 1;
      var p, x := xs[..n], xs[n];
      var kept := DedupBy(p, key);
      var r := DedupBy(xs, key);
      DedupByOrdered(p, key);
      forall i | 0 <= i < |kept|
        ensures key(kept[i]) in Keys(xs, key)
        ensures FirstIndex(xs, key, key(kept[i])) == FirstIndex(p, key, key(kept[i])) < n
      {
        FirstIndexOfPrefix(xs, n, key, key(kept[i]));
      }
      if key(x) !in Keys(kept, key) {
        DedupByLastStep(xs, key);
        assert r == kept + [x];
        forall i, j | 0 <= i < j < |r|
          ensures key(r[i]) in Keys(xs, key) && key(r[j]) in Keys(xs, key)
          ensures FirstIndex(xs, key, key(r[i])) < FirstIndex(xs, key, key(r[j]))
        {
          assert r[i] == kept[i];
          if j < |kept| {
            assert r[j] == kept[j];
          } else {
            assert r[j] == x;
          }
        }
      }
    }
  }

  /** An element whose key is new is the first with that key. */
  lemma DedupByLastStep<T, K>(xs: seq<T>, key: T -> K)
    requires xs != []
    ensures var n := |xs| - 1;
      key(xs[n]) !in Keys(DedupBy(xs[..n], key), key) ==>
        key(xs[n]) in Keys(xs, key) && FirstIndex(xs, key, key(xs[n])) == n
  {
    var n := |xs| - 1;
    var p, x := xs[..n], xs[n];
    if key(x) !in Keys(DedupBy(p, key), key) {
      DedupByKeys(p, key);
      assert key(x) !in Keys(p, key);
      assert Keys(xs, key)[n] == key(x);
      forall j | 0 <= j < n ensures key(xs[j]) != key(x) {
        assert Keys(p, key)[j] == key(xs[j]);
      }
    }
  }


  /** Every value appears exactly once in `Dedup(xs)`, it holds nothing else,
      and the values keep the order of their first occurrences. */
  lemma DedupSpec<T>(xs: seq<T>)
    ensures forall x :: x in Dedup(xs) <==> x in xs
    ensures forall i, j :: 0 <= i < j < |Dedup(xs)| ==>
      Position(xs, Dedup(xs)[i]) < Position(xs, Dedup(xs)[j])
    ensures forall i, j :: 0 <= i < j < |Dedup(xs)| ==> Dedup(xs)[i] != Dedup(xs)[j]
  {
    DedupBySpec(xs, Id);
    var r := Dedup(xs);
    assert Keys(xs, Id) == xs;
    assert Keys(r, Id) == r;
  }

  /** One more element: it is kept iff its key is new. */
  lemma DedupByStep<T, K>(xs: seq<T>, x: T, key: T -> K)
    ensures DedupBy(xs + [x], key) ==
      if key(x) in Keys(DedupBy(xs, key), key) then DedupBy(xs, key) else DedupBy(xs, key) + [x]
  {
    assert (xs + [x])[..|xs|] == xs;
  }

  lemma KeysSnoc<T, K>(ys: seq<T>, y: T, key: T -> K)
    ensures Keys(ys + [y], key) == Keys(ys, key) + [key(y)]
  {
  }

  /** What callers need of `DedupBy`: it keeps only input elements, no two
      with the same key, and one for every key of the input. */
  lemma DedupByKeeps<T, K>(xs: seq<T>, key: T -> K)
    ensures forall y :: y in DedupBy(xs, key) ==> y in xs
    ensures forall i, j :: 0 <= i < j < |DedupBy(xs, key)| ==> key(DedupBy(xs, key)[i]) != key(DedupBy(xs, key)[j])
    ensures forall x :: x in xs ==> exists y :: y in DedupBy(xs, key) && key(y) == key(x)
  {
    var r := DedupBy(xs, key);
    DedupBySpec(xs, key);
    forall y | y in r ensures y in xs {
      var i :| 0 <= i < |r| && r[i] == y;
    }
    forall x | x in xs ensures exists y :: y in r && key(y) == key(x) {
      var i :| 0 <= i < |xs| && xs[i] == x;
      assert Keys(xs, key)[i] == key(x);
      assert key(x) in Keys(r, key);
      var j :| 0 <= j < |r| && Keys(r, key)[j] == key(x);
      assert r[j] in r;
    }
  }

  /** The elements of a non-empty sequence are those before its last one, and the last. */
  lemma InPrefixOrLast<T>(xs: seq<T>)
    requires xs != []
    ensures forall x :: x in xs <==> x in xs[..|xs| - 1] || x == xs[|xs| - 1]
  {
    assert xs == xs[..|xs| - 1] + [xs[|xs| - 1]];
  }

  /** A list comprehension `[x for x in xs if p(x)]`. */
  function Filter<T(!new)>(p: T -> bool, xs: seq<T>): (r: seq<T>)
    ensures |r| <= |xs|
    ensures forall x :: x in r <==> x in xs && p(x)
    decreases |xs|
  {
    if xs == [] then []
    else (if p(xs[0]) then [xs[0]] else []) + Filter(p, xs[1..])
  }

  /** Filtering a list extended by one element. */
  lemma {:induction false} FilterSnoc<T(!new)>(p: T -> bool, xs: seq<T>, x: T)
    ensures Filter(p, xs + [x]) == Filter(p, xs) + (if p(x) then [x] else [])
    decreases |xs|
  {
    if xs != [] {
      assert (xs + [x])[1..] == xs[1..] + [x];
      FilterSnoc(p, xs[1..], x);
    } else {
      assert [x][1..] == [];
    }
  }

  /** `x` is the first element of `xs` satisfying `p`. */
  predicate IsFirstWhere<T(==)>(xs: seq<T>, p: T -> bool, x: T) {
    exists i :: 0 <= i < |xs| && xs[i] == x && p(x) && forall j :: 0 <= j < i ==> !p(xs[j])
  }

  /** The head of a comprehension is the first element that qualifies. */
  lemma {:induction false} FilterFirst<T(!new)>(p: T -> bool, xs: seq<T>)
    ensures Filter(p, xs) != [] <==> exists i :: 0 <= i < |xs| && p(xs[i])
    ensures Filter(p, xs) != [] ==> IsFirstWhere(xs, p, Filter(p, xs)[0])
    decreases |xs|
  {
    if xs != [] {
      if !p(xs[0]) {
        FilterFirst(p, xs[1..]);
        if Filter(p, xs) != [] {
          var i :| 0 <= i < |xs[1..]| && xs[1..][i] == Filter(p, xs)[0] && p(xs[1..][i])
            && forall j :: 0 <= j < i ==> !p(xs[1..][j]);
          assert xs[i + 1] == Filter(p, xs)[0];
          forall j | 0 <= j < i + 1 ensures !p(xs[j]) {
            if j > 0 {
              assert xs[j] == xs[1..][j - 1];
            }
          }
        }
        forall i | 0 <= i < |xs| && p(xs[i]) ensures Filter(p, xs) != [] {
          assert xs[1..][i - 1] == xs[i];
        }
      } else {
        assert xs[0] == Filter(p, xs)[0];
      }
    }
  }

  /** Filtering twice is filtering once by both conditions. */
  lemma {:induction false} FilterFilter<T(!new)>(p: T -> bool, q: T -> bool, both: T -> bool, xs: seq<T>)
    requires forall x :: both(x) == (p(x) && q(x))
    ensures Filter(q, Filter(p, xs)) == Filter(both, xs)
    decreases |xs|
  {
    if xs != [] {
      FilterFilter(p, q, both, xs[1..]);
      var rest := Filter(p, xs[1..]);
      assert Filter(both, xs) == (if both(xs[0]) then [xs[0]] else []) + Filter(both, xs[1..]);
      if p(xs[0]) {
        assert Filter(p, xs) == [xs[0]] + rest;
        assert ([xs[0]] + rest)[1..] == rest;
        assert Filter(q, Filter(p, xs)) == (if q(xs[0]) then [xs[0]] else []) + Filter(q, rest);
      } else {
        assert Filter(p, xs) == rest;
      }
    }
  }

  /** Conditions that agree on the elements filter alike. */
  lemma {:induction false} FilterCongruent<T(!new)>(p: T -> bool, q: T -> bool, xs: seq<T>)
    requires forall i :: 0 <= i < |xs| ==> p(xs[i]) == q(xs[i])
    ensures Filter(p, xs) == Filter(q, xs)
    decreases |xs|
  {
    if xs != [] {
      assert forall i :: 0 <= i < |xs[1..]| ==> xs[1..][i] == xs[i + 1];
      FilterCongruent(p, q, xs[1..]);
    }
  }
}
