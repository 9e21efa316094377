/** Python's sorted(xs, key=f): an ascending sort that keeps equal keys in their original
    order.  It is given as the permutation of positions it applies, built by insertion. */
module Sorting {

  /** Position i comes before position j: a smaller key, or an equal key and an earlier
      position. */
  predicate Precedes(keys: seq<real>, i: nat, j: nat)
    requires i < |keys| && j < |keys|
  {
    keys[i] < keys[j] || (keys[i] == keys[j] && i < j)
  }

  predicate InBounds(keys: seq<real>, p: seq<nat>)
  {
    forall k :: 0 <= k < |p| ==> p[k] < |keys|
  }

  /** p lists positions in (key, position) order. */
  ghost predicate StablyOrdered(keys: seq<real>, p: seq<nat>)
    requires InBounds(keys, p)
  {
    forall a, b :: 0 <= a < b < |p| ==> Precedes(keys, p[a], p[b])
  }

  /** The positions 0, 1, ..., n-1. */
  function Range(n: nat): (r: seq<nat>)
    ensures |r| == n && forall k :: 0 <= k < n ==> r[k] == k
  {
    if n == 0 then [] else Range(n - 1) + [n - 1]
  }

  /** Puts position i after every listed position whose key is at most keys[i]. */
  function Insert(keys: seq<real>, p: seq<nat>, i: nat): (r: seq<nat>)
    requires i < |keys| && InBounds(keys, p)
    ensures InBounds(keys, r) && |r| == |p| + 1
  {
    if p == [] then [i]
    else if keys[p[0]] <= keys[i] then [p[0]] + Insert(keys, p[1..], i)
    else [i] + p
  }

  lemma {:induction false} InsertAddsOne(keys: seq<real>, p: seq<nat>, i: nat)
    requires i < |keys| && InBounds(keys, p)
    ensures multiset(Insert(keys, p, i)) == multiset(p) + multiset{i}
  {
    if p != [] && keys[p[0]] <= keys[i] {
      InsertAddsOne(keys, p[1..], i);
      assert p == [p[0]] + p[1..];
    }
  }

  lemma {:induction false} InsertMembers(keys: seq<real>, p: seq<nat>, i: nat, x: nat)
    requires i < |keys| && InBounds(keys, p)
    ensures x in Insert(keys, p, i) <==> x == i || x in p
  {
    if p != [] && keys[p[0]] <= keys[i] {
      InsertMembers(keys, p[1..], i, x);
      assert p == [p[0]] + p[1..];
    }
  }

  /** The order sorted() puts the first n positions in. */
  function SortedPositions(keys: seq<real>, n: nat): (p: seq<nat>)
    requires n <= |keys|
    ensures InBounds(keys, p) && |p| == n
  {
    if n == 0 then [] else Insert(keys, SortedPositions(keys, n - 1), n - 1)
  }

  lemma {:induction false} SortedPositionsBelow(keys: seq<real>, n: nat, x: nat)
    requires n <= |keys|
    ensures x in SortedPositions(keys, n) ==> x < n
  {
    if n > 0 {
      SortedPositionsBelow(keys, n - 1, x);
      InsertMembers(keys, SortedPositions(keys, n - 1), n - 1, x);
    }
  }

  /** The first n positions, each exactly once. */
  lemma {:induction false} SortedPositionsArePermutation(keys: seq<real>, n: nat)
    requires n <= |keys|
    ensures multiset(SortedPositions(keys, n)) == multiset(Range(n))
  {
    if n > 0 {
      var p, last: nat := SortedPositions(keys, n - 1), n - 1;
      SortedPositionsArePermutation(keys, last);
      InsertAddsOne(keys, p, last);
      assert SortedPositions(keys, n) == Insert(keys, p, last);
      assert multiset(Range(n)) == multiset(Range(last)) + multiset{last} by {
        assert Range(n) == Range(last) + [last];
      }
    }
  }

  /** The items at the listed positions. */
  function Pick<T>(items: seq<T>, p: seq<nat>): (r: seq<T>)
    requires forall k :: 0 <= k < |p| ==> p[k] < |items|
    ensures |r| == |p|
  {
    if p == [] then [] else [items[p[0]]] + Pick(items, p[1..])
  }

  lemma {:induction false} PickAt<T>(items: seq<T>, p: seq<nat>, k: nat)
    requires forall k :: 0 <= k < |p| ==> p[k] < |items|
    requires k < |p|
    ensures Pick(items, p)[k] == items[p[k]]
  {
    if k > 0 {
      PickAt(items, p[1..], k - 1);
    }
  }

  /** sorted(items, key=...) where keys[k] is the key of items[k]. */
  function StableSort<T>(items: seq<T>, keys: seq<real>): seq<T>
    requires |items| == |keys|
  {
    Pick(items, SortedPositions(keys, |keys|))
  }

  lemma {:induction false} InsertKeepsOrder(keys: seq<real>, p: seq<nat>, i: nat)
    requires i < |keys| && InBounds(keys, p) && StablyOrdered(keys, p)
    requires forall k :: 0 <= k < |p| ==> p[k] < i
    ensures StablyOrdered(keys, Insert(keys, p, i))
  {
    if p != [] && keys[p[0]] <= keys[i] {
      InsertKeepsOrder(keys, p[1..], i);
      var r := Insert(keys, p, i);
      var rest := Insert(keys, p[1..], i);
      assert r == [p[0]] + rest;
      forall b | 0 < b < |r| ensures Precedes(keys, r[0], r[b]) {
        InsertMembers(keys, p[1..], i, rest[b - 1]);
        if rest[b - 1] != i {
          var c :| 0 <= c < |p[1..]| && p[1..][c] == rest[b - 1];
          assert Precedes(keys, p[0], p[c + 1]);
        }
      }
    }
  }

  lemma {:induction false} SortedPositionsAreOrdered(keys: seq<real>, n: nat)
    requires n <= |keys|
    ensures StablyOrdered(keys, SortedPositions(keys, n))
  {
    if n > 0 {
      var p := SortedPositions(keys, n - 1);
      SortedPositionsAreOrdered(keys, n - 1);
      forall k | 0 <= k < |p| ensures p[k] < n - 1 {
        SortedPositionsBelow(keys, n - 1, p[k]);
      }
      InsertKeepsOrder(keys, p, n - 1);
    }
  }

  lemma {:induction false} PickOfInsert<T>(items: seq<T>, keys: seq<real>, p: seq<nat>, i: nat)
    requires |items| == |keys| && i < |keys| && InBounds(keys, p)
    ensures multiset(Pick(items, Insert(keys, p, i))) == multiset(Pick(items, p)) + multiset{items[i]}
  {
    if p != [] && keys[p[0]] <= keys[i] {
      PickOfInsert(items, keys, p[1..], i);
      assert Pick(items, Insert(keys, p, i)) == [items[p[0]]] + Pick(items, Insert(keys, p[1..], i));
      assert Pick(items, p) == [items[p[0]]] + Pick(items, p[1..]);
    } else if p != [] {
      assert Pick(items, Insert(keys, p, i)) == [items[i]] + Pick(items, p);
    }
  }

  lemma {:induction false} PickOfSortedPositions<T>(items: seq<T>, keys: seq<real>, n: nat)
    requires |items| == |keys| && n <= |keys|
    ensures multiset(Pick(items, SortedPositions(keys, n))) == multiset(items[..n])
  {
    if n > 0 {
      var p := SortedPositions(keys, n - 1);
      assert SortedPositions(keys, n) == Insert(keys, p, n - 1);
      PickOfSortedPositions(items, keys, n - 1);
      PickOfInsert(items, keys, p, n - 1);
      MultisetOfPrefix(items, n);
    }
  }

  lemma MultisetOfPrefix<T>(s: seq<T>, n: nat)
    requires 0 < n <= |s|
    ensures multiset(s[..n]) == multiset(s[..n - 1]) + multiset{s[n - 1]}
  {
    assert s[..n] == s[..n - 1] + [s[n - 1]];
  }

  /** sorted() returns a rearrangement of its input. */
  lemma StableSortPermutes<T>(items: seq<T>, keys: seq<real>)
    requires |items| == |keys|
    ensures multiset(StableSort(items, keys)) == multiset(items)
  {
    PickOfSortedPositions(items, keys, |keys|);
    assert items[..|keys|] == items;
  }

  /** The k-th item sorted() returns is the item at position SortedPositions(...)[k],
      and those positions are 0..n-1, each once, in (key, position) order: keys
      ascend, and equal keys keep their input order. */
  lemma StableSortIsStable<T>(items: seq<T>, keys: seq<real>)
    requires |items| == |keys|
    ensures var p := SortedPositions(keys, |keys|);
      && multiset(p) == multiset(Range(|keys|))
      && |StableSort(items, keys)| == |p| == |items|
      && (forall k :: 0 <= k < |p| ==> StableSort(items, keys)[k] == items[p[k]])
      && (forall a, b :: 0 <= a < b < |p| ==> keys[p[a]] <= keys[p[b]])
      && (forall a, b :: 0 <= a < b < |p| && keys[p[a]] == keys[p[b]] ==> p[a] < p[b])
  {
    var p := SortedPositions(keys, |keys|);
    SortedPositionsArePermutation(keys, |keys|);
    SortedPositionsAreOrdered(keys, |keys|);
    assert forall a, b :: 0 <= a < b < |p| ==> Precedes(keys, p[a], p[b]);
    forall k | 0 <= k < |p| ensures StableSort(items, keys)[k] == items[p[k]] {
      PickAt(items, p, k);
    }
  }
}
