/**
  The two building blocks of the chart aggregation: the `reduce` that sums
  amounts into an object keyed by bucket, modelled as an insertion-ordered
  sequence of (key, sum) pairs, and `Array.prototype.sort` with a numeric
  comparator, which is stable.
*/
module Buckets {

  function KeysOf<K>(s: seq<(K, int)>): (ks: seq<K>)
    ensures |ks| == |s|
    ensures forall i :: 0 <= i < |s| ==> ks[i] == s[i].0
  {
    seq(|s|, i requires 0 <= i < |s| => s[i].0)
  }

  /** Sum of all amounts. */
  function Sum<K>(s: seq<(K, int)>): int {
    if s == [] then 0 else Sum(s[..|s| - 1]) + s[|s| - 1].1
  }

  /** Sum of the amounts filed under key `k`. */
  function SumWhere<K(==)>(s: seq<(K, int)>, k: K): int {
    if s == [] then 0
    else SumWhere(s[..|s| - 1], k) + (if s[|s| - 1].0 == k then s[|s| - 1].1 else 0)
  }

  /** Position of the first `k` in `s`, or |s| when there is none. */
  function FirstIndex<T(==)>(s: seq<T>, k: T): (r: nat)
    ensures r <= |s|
    ensures r < |s| ==> s[r] == k
    ensures forall j :: 0 <= j < r ==> s[j] != k
    ensures k in s <==> r < |s|
  {
    if s == [] then 0 else if s[0] == k then 0 else 1 + FirstIndex(s[1..], k)
  }

  /** In a sequence without repeats, the first occurrence of an element is its only one. */
  lemma {:induction false} FirstIndexOfDistinct<T>(s: seq<T>, k: nat)
    requires k < |s|
    requires forall i, j :: 0 <= i < j < |s| ==> s[i] != s[j]
    ensures FirstIndex(s, s[k]) == k
  {
  }

  /** In a sequence without repeats, of two distinct elements the one at the higher position is found later. */
  lemma {:induction false} LaterIndex<T>(s: seq<T>, x: nat, y: nat)
    requires y <= x < |s| && s[x] != s[y]
    requires forall i, j :: 0 <= i < j < |s| ==> s[i] != s[j]
    ensures FirstIndex(s, s[x]) > FirstIndex(s, s[y])
  {
    FirstIndexOfDistinct(s, x);
    FirstIndexOfDistinct(s, y);
  }

  predicate UniqueKeys<K(==)>(b: seq<(K, int)>) {
    forall i, j :: 0 <= i < j < |b| ==> b[i].0 != b[j].0
  }

  /** `b` has a bucket for exactly the keys that occur in `entries`. */
  predicate SameKeys<K(==)>(b: seq<(K, int)>, entries: seq<(K, int)>) {
    && (forall i :: 0 <= i < |b| ==> b[i].0 in KeysOf(entries))
    && (forall j :: 0 <= j < |entries| ==> entries[j].0 in KeysOf(b))
  }

  /** Every bucket of `b` holds the sum of the amounts filed under its key. */
  predicate HoldsSums<K(==)>(b: seq<(K, int)>, entries: seq<(K, int)>) {
    forall i :: 0 <= i < |b| ==> b[i].1 == SumWhere(entries, b[i].0)
  }

  /** The buckets of `b` come in the order their keys first occur in `entries`. */
  predicate FirstSeenOrder<K(==)>(b: seq<(K, int)>, entries: seq<(K, int)>) {
    forall i, j :: 0 <= i < j < |b| ==>
      FirstIndex(KeysOf(entries), b[i].0) < FirstIndex(KeysOf(entries), b[j].0)
  }

  /** `b` is what grouping `entries` by key must give. */
  predicate Grouping<K(==)>(b: seq<(K, int)>, entries: seq<(K, int)>) {
    UniqueKeys(b) && SameKeys(b, entries) && HoldsSums(b, entries) && FirstSeenOrder(b, entries)
  }

  /** Sum of `f` over the elements of `s`, added left to right as `reduce` does. */
  function SumBy<T>(s: seq<T>, f: T -> int): int {
    if s == [] then 0 else SumBy(s[..|s| - 1], f) + f(s[|s| - 1])
  }

  lemma {:induction false} SumByConcat<T>(a: seq<T>, b: seq<T>, f: T -> int)
    ensures SumBy(a + b, f) == SumBy(a, f) + SumBy(b, f)
    decreases |b|
  {
    if b == [] {
      assert a + b == a;
    } else {
      assert (a + b)[..|a + b| - 1] == a + b[..|b| - 1];
      SumByConcat(a, b[..|b| - 1], f);
    }
  }

  /** A sum does not depend on the order of its terms. */
  lemma {:induction false} SumByPermutation<T>(a: seq<T>, b: seq<T>, f: T -> int)
    requires multiset(a) == multiset(b)
    ensures SumBy(a, f) == SumBy(b, f)
    decreases |a|
  {
    if a != [] {
      var x := a[|a| - 1];
      assert x in multiset(b);
      var k :| 0 <= k < |b| && b[k] == x;
      var rest := b[..k] + b[k + 1..];
      RemoveLast(a, b, k);
      SumByPermutation(a[..|a| - 1], rest, f);
      SumByRemove(b, k, f);
    }
  }

  /** Taking the last element off `a` and the same element off `b` keeps the multisets equal. */
  lemma {:induction false} RemoveLast<T>(a: seq<T>, b: seq<T>, k: nat)
    requires multiset(a) == multiset(b) && a != [] && k < |b| && b[k] == a[|a| - 1]
    ensures multiset(a[..|a| - 1]) == multiset(b[..k] + b[k + 1..])
  {
    var x := a[|a| - 1];
    var init, rest := a[..|a| - 1], b[..k] + b[k + 1..];
    assert a == init + [x];
    assert b == b[..k] + [x] + b[k + 1..];
    assert multiset(init) + multiset{x} == multiset(rest) + multiset{x};
    assert multiset(init) == multiset(init) + multiset{x} - multiset{x};
    assert multiset(rest) == multiset(rest) + multiset{x} - multiset{x};
  }

  /** Removing the element at `k` takes its term out of the sum. */
  lemma {:induction false} SumByRemove<T>(b: seq<T>, k: nat, f: T -> int)
    requires k < |b|
    ensures SumBy(b, f) == SumBy(b[..k] + b[k + 1..], f) + f(b[k])
  {
    var x := b[k];
    assert b == b[..k] + [x] + b[k + 1..];
    SumByConcat(b[..k] + [x], b[k + 1..], f);
    SumByConcat(b[..k], [x], f);
    SumByConcat(b[..k], b[k + 1..], f);
    assert SumBy([x], f) == f(x) by {
      assert [x][..0] == [];
    }
  }

  /** Summing `f` over `s` gives the sum of `acc` when they agree term by term. */
  lemma {:induction false} SumByMatches<T, K>(s: seq<T>, f: T -> int, acc: seq<(K, int)>)
    requires |s| == |acc|
    requires forall i :: 0 <= i < |s| ==> f(s[i]) == acc[i].1
    ensures SumBy(s, f) == Sum(acc)
  {
    if s != [] {
      SumByMatches(s[..|s| - 1], f, acc[..|acc| - 1]);
    }
  }

  /**
    One call of the accumulator callback: `if (acc[key]) acc[key] += amount
    else acc[key] = amount`. Reassigning an existing key keeps its place; a
    new key goes last.
  */
  function Accumulate<K(==)>(acc: seq<(K, int)>, key: K, amount: int): (r: seq<(K, int)>)
    ensures Sum(r) == Sum(acc) + amount
  {
    var i := FirstIndex(KeysOf(acc), key);
    if i < |acc| && acc[i].1 != 0 then
      SumUpdate(acc, i, (key, acc[i].1 + amount));
      acc[i := (key, acc[i].1 + amount)]
    else if i < |acc| then
      SumUpdate(acc, i, (key, amount));
      acc[i := (key, amount)]
    else
      AppendSums(acc, (key, amount));
      acc + [(key, amount)]
  }

  /** `entries.reduce(callback, {})`. */
  function GroupFold<K(==)>(entries: seq<(K, int)>): seq<(K, int)> {
    if entries == [] then []
    else
      var last := entries[|entries| - 1];
      Accumulate(GroupFold(entries[..|entries| - 1]), last.0, last.1)
  }

  /**
    The truthiness test makes no difference for numbers: a present key,
    whatever it holds (a falsy 0 included), ends up holding its old value
    plus the amount; an absent key is appended.
  */
  lemma {:induction false} AccumulateAdds<K>(acc: seq<(K, int)>, key: K, amount: int)
    ensures var i := FirstIndex(KeysOf(acc), key);
      && (i < |acc| ==> Accumulate(acc, key, amount) == acc[i := (key, acc[i].1 + amount)])
      && (i == |acc| ==> Accumulate(acc, key, amount) == acc + [(key, amount)])
  {
  }

  lemma {:induction false} SumUpdate<K>(s: seq<(K, int)>, i: nat, p: (K, int))
    requires i < |s|
    ensures Sum(s[i := p]) == Sum(s) - s[i].1 + p.1
  {
    if i < |s| - 1 {
      assert s[i := p][..|s| - 1] == s[..|s| - 1][i := p];
      SumUpdate(s[..|s| - 1], i, p);
    } else {
      assert s[i := p][..|s| - 1] == s[..|s| - 1];
    }
  }

  lemma {:induction false} AppendSums<K>(e: seq<(K, int)>, x: (K, int))
    ensures Sum(e + [x]) == Sum(e) + x.1
    ensures forall k :: SumWhere(e + [x], k) == SumWhere(e, k) + (if x.0 == k then x.1 else 0)
    ensures KeysOf(e + [x]) == KeysOf(e) + [x.0]
  {
    assert (e + [x])[..|e|] == e;
  }

  lemma {:induction false} FirstIndexAppend<T>(s: seq<T>, x: T, k: T)
    ensures k in s ==> FirstIndex(s + [x], k) == FirstIndex(s, k)
    ensures k !in s && k == x ==> FirstIndex(s + [x], k) == |s|
  {
    var r := FirstIndex(s, k);
    if k in s {
      assert (s + [x])[r] == k;
    }
  }

  lemma {:induction false} StepUnique<K>(acc: seq<(K, int)>, key: K, amount: int)
    requires UniqueKeys(acc)
    ensures UniqueKeys(Accumulate(acc, key, amount))
  {
    AccumulateAdds(acc, key, amount);
    var i := FirstIndex(KeysOf(acc), key);
    if i == |acc| {
      assert forall j :: 0 <= j < |acc| ==> acc[j].0 != key;
    }
  }

  lemma {:induction false} StepKeys<K>(acc: seq<(K, int)>, e: seq<(K, int)>, key: K, amount: int)
    requires SameKeys(acc, e)
    ensures SameKeys(Accumulate(acc, key, amount), e + [(key, amount)])
  {
    var acc' := Accumulate(acc, key, amount);
    var e' := e + [(key, amount)];
    AccumulateAdds(acc, key, amount);
    AppendSums(e, (key, amount));
    var i := FirstIndex(KeysOf(acc), key);
    if i < |acc| {
      assert KeysOf(acc') == KeysOf(acc);
    } else {
      assert KeysOf(acc') == KeysOf(acc) + [key];
    }
    forall j | 0 <= j < |e'|
      ensures e'[j].0 in KeysOf(acc')
    {
      if j < |e| {
        assert e'[j] == e[j];
      }
    }
  }

  lemma {:induction false} StepSums<K>(acc: seq<(K, int)>, e: seq<(K, int)>, key: K, amount: int)
    requires UniqueKeys(acc) && SameKeys(acc, e) && HoldsSums(acc, e)
    ensures HoldsSums(Accumulate(acc, key, amount), e + [(key, amount)])
  {
    AccumulateAdds(acc, key, amount);
    AppendSums(e, (key, amount));
    var i := FirstIndex(KeysOf(acc), key);
    if i == |acc| {
      assert key !in KeysOf(e);
      assert SumWhere(e, key) == 0 by {
        AbsentSum(e, key);
      }
    }
  }

  lemma {:induction false} AbsentSum<K>(e: seq<(K, int)>, k: K)
    requires k !in KeysOf(e)
    ensures SumWhere(e, k) == 0
  {
    if e != [] {
      assert KeysOf(e[..|e| - 1]) == KeysOf(e)[..|e| - 1];
      AbsentSum(e[..|e| - 1], k);
    }
  }

  lemma {:induction false} StepOrder<K>(acc: seq<(K, int)>, e: seq<(K, int)>, key: K, amount: int)
    requires SameKeys(acc, e) && FirstSeenOrder(acc, e)
    ensures FirstSeenOrder(Accumulate(acc, key, amount), e + [(key, amount)])
  {
    AccumulateAdds(acc, key, amount);
    OldKeysKeepIndex(acc, e, (key, amount));
    var i := FirstIndex(KeysOf(acc), key);
    if i < |acc| {
      OrderWhenPresent(acc, e, (key, amount), acc[i := (key, acc[i].1 + amount)], i);
    } else {
      OrderWhenAbsent(acc, e, (key, amount));
    }
  }

  /** Appending an entry leaves where the keys already bucketed were first seen. */
  lemma {:induction false} OldKeysKeepIndex<K>(acc: seq<(K, int)>, e: seq<(K, int)>, x: (K, int))
    requires SameKeys(acc, e)
    ensures forall j :: 0 <= j < |acc| ==>
      FirstIndex(KeysOf(e + [x]), acc[j].0) == FirstIndex(KeysOf(e), acc[j].0) < |e|
  {
    AppendSums(e, x);
    forall j | 0 <= j < |acc|
      ensures FirstIndex(KeysOf(e + [x]), acc[j].0) == FirstIndex(KeysOf(e), acc[j].0) < |e|
    {
      FirstIndexAppend(KeysOf(e), x.0, acc[j].0);
    }
  }

  lemma {:induction false} OrderWhenPresent<K>(acc: seq<(K, int)>, e: seq<(K, int)>, x: (K, int), acc': seq<(K, int)>, i: nat)
    requires FirstSeenOrder(acc, e)
    requires forall j :: 0 <= j < |acc| ==>
      FirstIndex(KeysOf(e + [x]), acc[j].0) == FirstIndex(KeysOf(e), acc[j].0)
    requires i < |acc| && acc[i].0 == x.0 && |acc'| == |acc| && acc'[i].0 == x.0
    requires forall j :: 0 <= j < |acc| && j != i ==> acc'[j] == acc[j]
    ensures FirstSeenOrder(acc', e + [x])
  {
    forall j | 0 <= j < |acc|
      ensures acc'[j].0 == acc[j].0
    {
    }
  }

  lemma {:induction false} OrderWhenAbsent<K>(acc: seq<(K, int)>, e: seq<(K, int)>, x: (K, int))
    requires SameKeys(acc, e) && FirstSeenOrder(acc, e)
    requires x.0 !in KeysOf(acc)
    requires forall j :: 0 <= j < |acc| ==>
      FirstIndex(KeysOf(e + [x]), acc[j].0) == FirstIndex(KeysOf(e), acc[j].0) < |e|
    ensures FirstSeenOrder(acc + [x], e + [x])
  {
    AppendSums(e, x);
    assert x.0 !in KeysOf(e);
    FirstIndexAppend(KeysOf(e), x.0, x.0);
    var acc' := acc + [x];
    forall j | 0 <= j < |acc|
      ensures acc'[j] == acc[j]
    {
    }
  }

  /** One callback step keeps the grouping invariant. */
  lemma {:induction false} AccumulateStep<K>(acc: seq<(K, int)>, e: seq<(K, int)>, x: (K, int))
    requires Grouping(acc, e)
    ensures Grouping(Accumulate(acc, x.0, x.1), e + [x])
  {
    assert x == (x.0, x.1);
    StepUnique(acc, x.0, x.1);
    StepKeys(acc, e, x.0, x.1);
    StepSums(acc, e, x.0, x.1);
    StepOrder(acc, e, x.0, x.1);
  }

  /** The fold groups its entries: one bucket per key, first-seen order, each holding its key's sum. */
  lemma {:induction false} GroupFoldGroups<K>(entries: seq<(K, int)>)
    ensures Grouping(GroupFold(entries), entries)
    ensures Sum(GroupFold(entries)) == Sum(entries)
  {
    if entries != [] {
      var init, last := entries[..|entries| - 1], entries[|entries| - 1];
      assert entries == init + [last];
      GroupFoldGroups(init);
      AccumulateStep(GroupFold(init), init, last);
    }
  }

  /** The `reduce` with its callback mutating the accumulator in place. */
  method GroupSums<K(==)>(entries: seq<(K, int)>) returns (acc: seq<(K, int)>)
    ensures acc == GroupFold(entries)
    ensures Grouping(acc, entries)
    ensures Sum(acc) == Sum(entries)
  {
    acc := [];
    for n := 0 to |entries|
      invariant acc == GroupFold(entries[..n])
    {
      var key, amount := entries[n].0, entries[n].1;
      assert entries[..n + 1][..n] == entries[..n];
      assert GroupFold(entries[..n + 1]) == Accumulate(acc, key, amount);
      var i := FirstIndex(KeysOf(acc), key);
      if i < |acc| && acc[i].1 != 0 {
        acc := acc[i := (key, acc[i].1 + amount)];
      } else if i < |acc| {
        acc := acc[i := (key, amount)];
      } else {
        acc := acc + [(key, amount)];
      }
    }
    assert entries[..|entries|] == entries;
    GroupFoldGroups(entries);
  }

  // ---------------------------------------------------------------------
  // Sorting

  predicate SortedBy<T>(s: seq<T>, key: T -> int) {
    forall i, j :: 0 <= i < j < |s| ==> key(s[i]) <= key(s[j])
  }

  /** The elements of `s` whose key is `v`, in their order in `s`. */
  function WithKey<T>(s: seq<T>, key: T -> int, v: int): seq<T> {
    if s == [] then []
    else WithKey(s[..|s| - 1], key, v) + (if key(s[|s| - 1]) == v then [s[|s| - 1]] else [])
  }

  /** Where `x` goes among sorted `r`: after every element whose key is not larger. */
  function InsertPos<T>(r: seq<T>, x: T, key: T -> int): (p: nat)
    ensures p <= |r|
  {
    if r == [] || key(r[0]) > key(x) then 0 else 1 + InsertPos(r[1..], x, key)
  }

  function Insert<T>(r: seq<T>, x: T, key: T -> int): seq<T> {
    var p := InsertPos(r, x, key);
    r[..p] + [x] + r[p..]
  }

  /** Insertion sort that inserts each element after the equal keys already placed. */
  function InsertionSort<T>(s: seq<T>, key: T -> int): seq<T> {
    if s == [] then [] else Insert(InsertionSort(s[..|s| - 1], key), s[|s| - 1], key)
  }

  lemma {:induction false} InsertPosSplit<T>(r: seq<T>, x: T, key: T -> int)
    requires SortedBy(r, key)
    ensures forall a :: 0 <= a < InsertPos(r, x, key) ==> key(r[a]) <= key(x)
    ensures forall a :: InsertPos(r, x, key) <= a < |r| ==> key(r[a]) > key(x)
  {
    if r != [] && key(r[0]) <= key(x) {
      InsertPosSplit(r[1..], x, key);
    }
  }

  lemma {:induction false} InsertSorted<T>(r: seq<T>, x: T, key: T -> int)
    requires SortedBy(r, key)
    ensures SortedBy(Insert(r, x, key), key)
  {
    InsertPosSplit(r, x, key);
  }

  lemma {:induction false} WithKeyConcat<T>(a: seq<T>, b: seq<T>, key: T -> int, v: int)
    ensures WithKey(a + b, key, v) == WithKey(a, key, v) + WithKey(b, key, v)
    decreases |b|
  {
    if b != [] {
      assert (a + b)[..|a + b| - 1] == a + b[..|b| - 1];
      WithKeyConcat(a, b[..|b| - 1], key, v);
    } else {
      assert a + b == a;
    }
  }

  lemma {:induction false} WithKeyAbove<T>(s: seq<T>, key: T -> int, v: int)
    requires forall a :: 0 <= a < |s| ==> key(s[a]) > v
    ensures WithKey(s, key, v) == []
  {
    if s != [] {
      WithKeyAbove(s[..|s| - 1], key, v);
    }
  }

  /** Inserting `x` puts it after every element of equal key and moves no other element past another. */
  lemma {:induction false} InsertWithKey<T>(r: seq<T>, x: T, key: T -> int, v: int)
    requires SortedBy(r, key)
    ensures WithKey(Insert(r, x, key), key, v) == WithKey(r, key, v) + WithKey([x], key, v)
  {
    var p := InsertPos(r, x, key);
    var lo, hi := r[..p], r[p..];
    assert Insert(r, x, key) == (lo + [x]) + hi;
    assert r == lo + hi;
    WithKeyConcat(lo + [x], hi, key, v);
    WithKeyConcat(lo, [x], key, v);
    WithKeyConcat(lo, hi, key, v);
    WithKeySingle(x, key, v);
    if key(x) == v {
      InsertTail(r, x, key);
    }
    SwapEmpty(WithKey(lo, key, v), WithKey([x], key, v), WithKey(hi, key, v));
  }

  /** When one of two appended pieces is empty, their order does not matter. */
  lemma {:induction false} SwapEmpty<T>(a: seq<T>, b: seq<T>, c: seq<T>)
    requires b == [] || c == []
    ensures (a + b) + c == (a + c) + b
  {
    if b == [] {
      assert a + b == a && (a + c) + b == a + c;
    } else {
      assert (a + b) + c == a + b && a + c == a;
    }
  }

  /** No element after the insertion point has the key of the inserted one. */
  lemma {:induction false} InsertTail<T>(r: seq<T>, x: T, key: T -> int)
    requires SortedBy(r, key)
    ensures WithKey(r[InsertPos(r, x, key)..], key, key(x)) == []
  {
    var p := InsertPos(r, x, key);
    InsertPosSplit(r, x, key);
    forall a | 0 <= a < |r| - p
      ensures key(r[p..][a]) > key(x)
    {
      assert r[p..][a] == r[p + a];
    }
    WithKeyAbove(r[p..], key, key(x));
  }

  lemma {:induction false} WithKeySingle<T>(x: T, key: T -> int, v: int)
    ensures WithKey([x], key, v) == (if key(x) == v then [x] else [])
  {
    assert [x][..0] == [];
  }

  /** The insertion sort is ascending by key. */
  lemma {:induction false} InsertionSortSorted<T>(s: seq<T>, key: T -> int)
    ensures SortedBy(InsertionSort(s, key), key)
  {
    if s != [] {
      InsertionSortSorted(s[..|s| - 1], key);
      InsertSorted(InsertionSort(s[..|s| - 1], key), s[|s| - 1], key);
    }
  }

  /** The insertion sort is a permutation of its input. */
  lemma {:induction false} InsertionSortPermutes<T>(s: seq<T>, key: T -> int)
    ensures multiset(InsertionSort(s, key)) == multiset(s)
  {
    if s != [] {
      var init, x := s[..|s| - 1], s[|s| - 1];
      InsertionSortPermutes(init, key);
      InsertPermutes(InsertionSort(init, key), x, key);
      assert s == init + [x];
    }
  }

  lemma {:induction false} InsertPermutes<T>(r: seq<T>, x: T, key: T -> int)
    ensures multiset(Insert(r, x, key)) == multiset(r) + multiset{x}
  {
    var p := InsertPos(r, x, key);
    assert r == r[..p] + r[p..];
    calc {
      multiset(Insert(r, x, key));
      multiset(r[..p] + [x] + r[p..]);
      multiset(r[..p]) + multiset{x} + multiset(r[p..]);
      multiset(r[..p] + r[p..]) + multiset{x};
    }
  }

  /** The insertion sort is stable: the elements of any one key keep their input order. */
  lemma {:induction false} InsertionSortStable<T>(s: seq<T>, key: T -> int, v: int)
    ensures WithKey(InsertionSort(s, key), key, v) == WithKey(s, key, v)
  {
    if s != [] {
      var init, x := s[..|s| - 1], s[|s| - 1];
      InsertionSortStable(init, key, v);
      InsertionSortSorted(init, key);
      InsertWithKey(InsertionSort(init, key), x, key, v);
      assert WithKey([x], key, v) == (if key(x) == v then [x] else []) by {
        assert [x][..0] == [];
      }
    }
  }

  lemma {:induction false} SortedFrom<T>(s: seq<T>, key: T -> int, y: T)
    requires y in InsertionSort(s, key)
    ensures exists k :: 0 <= k < |s| && s[k] == y
  {
    InsertionSortPermutes(s, key);
    assert y in multiset(s);
  }

  /** Sorting elements whose keys all differ gives strictly ascending keys. */
  lemma {:induction false} InsertionSortStrict<T>(s: seq<T>, key: T -> int)
    requires forall i, j :: 0 <= i < j < |s| ==> key(s[i]) != key(s[j])
    ensures forall i, j :: 0 <= i < j < |InsertionSort(s, key)| ==>
      key(InsertionSort(s, key)[i]) < key(InsertionSort(s, key)[j])
  {
    if s != [] {
      var init, x := s[..|s| - 1], s[|s| - 1];
      var r := InsertionSort(init, key);
      InsertionSortStrict(init, key);
      forall y | y in r
        ensures key(y) != key(x)
      {
        SortedFrom(init, key, y);
      }
      var p := InsertPos(r, x, key);
      var r' := r[..p] + [x] + r[p..];
      assert SortedBy(r, key);
      InsertPosSplit(r, x, key);
      forall i, j | 0 <= i < j < |r'|
        ensures key(r'[i]) < key(r'[j])
      {
        if j < p {
          assert r'[i] == r[i] && r'[j] == r[j];
        } else if i > p {
          assert r'[i] == r[i - 1] && r'[j] == r[j - 1];
        } else if i == p {
          assert r'[i] == x && r'[j] == r[j - 1];
        } else if j == p {
          assert r'[i] == r[i] && r'[j] == x && r[i] in r;
        } else {
          assert r'[i] == r[i] && r'[j] == r[j - 1];
        }
      }
      assert InsertionSort(s, key) == r';
    }
  }

  /** Elements with equal keys appear in ascending `rank`. */
  predicate TiesByRank<T>(r: seq<T>, key: T -> int, rank: T -> int) {
    forall i, j :: 0 <= i < j < |r| && key(r[i]) == key(r[j]) ==> rank(r[i]) < rank(r[j])
  }

  /**
    Stability seen through a rank: when the input is strictly ascending in
    `rank`, any two sorted elements with equal keys are still ascending in
    `rank`.
  */
  lemma {:induction false} InsertionSortKeepsRank<T>(s: seq<T>, key: T -> int, rank: T -> int)
    requires forall i, j :: 0 <= i < j < |s| ==> rank(s[i]) < rank(s[j])
    ensures TiesByRank(InsertionSort(s, key), key, rank)
  {
    if s != [] {
      var init, x := s[..|s| - 1], s[|s| - 1];
      var r := InsertionSort(init, key);
      InsertionSortKeepsRank(init, key, rank);
      InsertionSortSorted(init, key);
      forall y | y in r
        ensures rank(y) < rank(x)
      {
        SortedFrom(init, key, y);
      }
      InsertKeepsRank(r, x, key, rank);
    }
  }

  /** Inserting an element of a higher rank than all others after its equal keys keeps ties in rank order. */
  lemma {:induction false} InsertKeepsRank<T>(r: seq<T>, x: T, key: T -> int, rank: T -> int)
    requires SortedBy(r, key) && TiesByRank(r, key, rank)
    requires forall y :: y in r ==> rank(y) < rank(x)
    ensures TiesByRank(Insert(r, x, key), key, rank)
  {
    var p := InsertPos(r, x, key);
    var r' := r[..p] + [x] + r[p..];
    forall i, j | 0 <= i < j < |r'| && key(r'[i]) == key(r'[j])
      ensures rank(r'[i]) < rank(r'[j])
    {
      InsertedPairRank(r, x, key, rank, i, j);
    }
    assert Insert(r, x, key) == r';
  }

  /** One pair of positions of the inserted sequence, for InsertKeepsRank. */
  lemma {:induction false} InsertedPairRank<T>(r: seq<T>, x: T, key: T -> int, rank: T -> int, i: nat, j: nat)
    requires SortedBy(r, key) && TiesByRank(r, key, rank)
    requires forall y :: y in r ==> rank(y) < rank(x)
    requires i < j <= |r|
    requires var r' := r[..InsertPos(r, x, key)] + [x] + r[InsertPos(r, x, key)..];
      key(r'[i]) == key(r'[j])
    ensures var r' := r[..InsertPos(r, x, key)] + [x] + r[InsertPos(r, x, key)..];
      rank(r'[i]) < rank(r'[j])
  {
    var p := InsertPos(r, x, key);
    var r' := r[..p] + [x] + r[p..];
    InsertedAt(r, x, p, i);
    InsertedAt(r, x, p, j);
    if i == p {
      InsertPosSplit(r, x, key);
    } else if j == p {
      assert r[i] in r;
    } else {
      var i', j' := if i < p then i else i - 1, if j < p then j else j - 1;
      assert r'[i] == r[i'] && r'[j] == r[j'] && i' < j';
    }
  }

  /** Position `i` of `r` with `x` inserted at `p`. */
  lemma {:induction false} InsertedAt<T>(r: seq<T>, x: T, p: nat, i: nat)
    requires p <= |r| && i <= |r|
    ensures (r[..p] + [x] + r[p..])[i] == if i < p then r[i] else if i == p then x else r[i - 1]
  {
  }

  /**
    `sort` with the comparator `(a, b) => key(a) - key(b)`: ascending by
    key, a permutation of the input, and stable: the elements sharing a key
    keep their input order.
  */
  method StableSortBy<T>(s: seq<T>, key: T -> int) returns (r: seq<T>)
    ensures r == InsertionSort(s, key)
    ensures SortedBy(r, key)
    ensures multiset(r) == multiset(s)
    ensures forall v :: WithKey(r, key, v) == WithKey(s, key, v)
  {
    r := [];
    for n := 0 to |s|
      invariant r == InsertionSort(s[..n], key)
    {
      var x := s[n];
      var pos := 0;
      while pos < |r| && key(r[pos]) <= key(x)
        invariant pos <= |r|
        invariant InsertPos(r, x, key) == pos + InsertPos(r[pos..], x, key)
      {
        assert r[pos..][1..] == r[pos + 1..];
        pos := pos + 1;
      }
      assert s[..n + 1][..n] == s[..n];
      r := r[..pos] + [x] + r[pos..];
    }
    assert s[..|s|] == s;
    InsertionSortSorted(s, key);
    InsertionSortPermutes(s, key);
    forall v {
      InsertionSortStable(s, key, v);
    }
  }
}
