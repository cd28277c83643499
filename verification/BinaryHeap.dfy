/** The array heaps kept by the request scheduler and the task manager.

    `std::push_heap` and `std::pop_heap` are modelled by the algorithms every standard library
    uses: sift the new last element up; move the hole left by the front down to a leaf along the
    better children, drop the last element in it and sift that up again.  The functions work on the
    prefix `[0, m)` of a sequence, as the iterator pairs of the callers do, and on a snapshot of the
    elements' keys. */
module BinaryHeap {

  /** What an element is ordered by: first `major`, then `minor`. */
  datatype Key = Key(major: int, minor: real)

  predicate Before(a: Key, b: Key) {
    a.major < b.major || (a.major == b.major && a.minor < b.minor)
  }

  function Parent(i: int): int
    requires i > 0
  {
    (i - 1) / 2
  }

  /** The callers give every element a key; the total form keeps the definitions free of side
      conditions. */
  function KeyOf<T(==)>(keys: map<T, Key>, x: T): Key {
    if x in keys then keys[x] else Key(0, 0.0)
  }

  predicate EdgeOk<T(==)>(q: seq<T>, keys: map<T, Key>, i: int)
    requires 0 <= i < |q|
  {
    i > 0 ==> !Before(KeyOf(keys, q[i]), KeyOf(keys, q[Parent(i)]))
  }

  /** The prefix `[0, m)` of `q` is a heap: no element comes before its parent. */
  predicate IsHeap<T(==)>(q: seq<T>, keys: map<T, Key>, m: nat)
    requires m <= |q|
  {
    forall i | 0 <= i < m :: EdgeOk(q, keys, i)
  }

  function Swap<T>(q: seq<T>, i: nat, j: nat): (r: seq<T>)
    requires i < |q| && j < |q|
    ensures |r| == |q|
  {
    q[i := q[j]][j := q[i]]
  }

  function SiftUp<T(==)>(q: seq<T>, keys: map<T, Key>, i: nat): (r: seq<T>)
    requires i < |q|
    ensures |r| == |q|
    decreases i
  {
    if i > 0 && Before(KeyOf(keys, q[i]), KeyOf(keys, q[Parent(i)]))
    then SiftUp(Swap(q, i, Parent(i)), keys, Parent(i))
    else q
  }

  function BetterChild<T(==)>(q: seq<T>, keys: map<T, Key>, h: nat, m: nat): (c: nat)
    requires 2 * h + 1 < m <= |q|
    ensures c < m && c > 0 && Parent(c) == h
    ensures forall d | 0 < d < m && Parent(d) == h :: !Before(KeyOf(keys, q[d]), KeyOf(keys, q[c]))
  {
    if 2 * h + 2 < m && !Before(KeyOf(keys, q[2 * h + 1]), KeyOf(keys, q[2 * h + 2]))
    then 2 * h + 2
    else 2 * h + 1
  }

  /** Move the element at `h` down to a leaf of `[0, m)`, whatever its key, along the better
      children; the leaf it ends at is the second result. */
  function Sink<T(==)>(q: seq<T>, keys: map<T, Key>, h: nat, m: nat): (r: (seq<T>, nat))
    requires h < m <= |q|
    ensures |r.0| == |q| && r.1 < m
    decreases m - h
  {
    if 2 * h + 1 < m
    then var c := BetterChild(q, keys, h, m); Sink(Swap(q, h, c), keys, c, m)
    else (q, h)
  }

  lemma SinkStep<T>(q: seq<T>, keys: map<T, Key>, h: nat, m: nat)
    requires 2 * h + 1 < m <= |q|
    ensures var c := BetterChild(q, keys, h, m);
            Sink(q, keys, h, m) == Sink(Swap(q, h, c), keys, c, m)
  {
  }

  /** `std::pop_heap` on the whole of `q`: the front goes to the back, the rest is a heap again. */
  function PopHeap<T(==)>(q: seq<T>, keys: map<T, Key>): (r: seq<T>)
    requires |q| > 0
    ensures |r| == |q|
  {
    var m := |q| - 1;
    if m == 0 then q
    else
      var (s, leaf) := Sink(Swap(q, 0, m), keys, 0, m);
      SiftUp(s, keys, leaf)
  }

  lemma SwapPermutes<T>(q: seq<T>, i: nat, j: nat)
    requires i < |q| && j < |q|
    ensures multiset(Swap(q, i, j)) == multiset(q)
  {
  }

  lemma {:induction false} SiftUpPermutes<T>(q: seq<T>, keys: map<T, Key>, i: nat)
    requires i < |q|
    ensures multiset(SiftUp(q, keys, i)) == multiset(q)
    ensures SiftUp(q, keys, i)[i + 1..] == q[i + 1..]
    decreases i
  {
    if i > 0 && Before(KeyOf(keys, q[i]), KeyOf(keys, q[Parent(i)])) {
      var p := Parent(i);
      var s := Swap(q, i, p);
      SwapPermutes(q, i, p);
      SiftUpPermutes(s, keys, p);
      var r := SiftUp(s, keys, p);
      assert r[i + 1..] == r[p + 1..][i - p..];
      assert q[i + 1..] == s[p + 1..][i - p..];
    }
  }

  lemma {:induction false} SinkPermutes<T>(q: seq<T>, keys: map<T, Key>, h: nat, m: nat)
    requires h < m <= |q|
    ensures multiset(Sink(q, keys, h, m).0) == multiset(q)
    ensures Sink(q, keys, h, m).0[m..] == q[m..]
    decreases m - h
  {
    if 2 * h + 1 < m {
      var c := BetterChild(q, keys, h, m);
      SwapPermutes(q, h, c);
      SinkPermutes(Swap(q, h, c), keys, c, m);
      assert Swap(q, h, c)[m..] == q[m..];
    }
  }

  /** `std::pop_heap` only moves elements around, and puts the front last. */
  lemma PopHeapPermutes<T>(q: seq<T>, keys: map<T, Key>)
    requires |q| > 0
    ensures multiset(PopHeap(q, keys)) == multiset(q)
    ensures PopHeap(q, keys)[|q| - 1] == q[0]
  {
    var m := |q| - 1;
    if m > 0 {
      var s := Swap(q, 0, m);
      SwapPermutes(q, 0, m);
      SinkPermutes(s, keys, 0, m);
      var (t, leaf) := Sink(s, keys, 0, m);
      SiftUpPermutes(t, keys, leaf);
      assert SiftUp(t, keys, leaf)[leaf + 1..][m - leaf - 1] == t[leaf + 1..][m - leaf - 1];
      assert t[m..][0] == s[m..][0];
    }
  }

  /** Everything is in order except, possibly, that the element at `i` comes before its parent. */
  ghost predicate HeapButUp<T>(q: seq<T>, keys: map<T, Key>, i: nat, m: nat)
    requires i < m <= |q|
  {
    && (forall j | 0 <= j < m && j != i :: EdgeOk(q, keys, j))
    && (i > 0 ==> forall j | 0 < j < m && Parent(j) == i :: !Before(KeyOf(keys, q[j]), KeyOf(keys, q[Parent(i)])))
  }

  /** Everything is in order except, possibly, at the hole `h` and its children. */
  ghost predicate HeapButHole<T>(q: seq<T>, keys: map<T, Key>, h: nat, m: nat)
    requires h < m <= |q|
  {
    && (forall j | 0 < j < m && j != h && Parent(j) != h :: EdgeOk(q, keys, j))
    && (h > 0 ==> forall j | 0 < j < m && Parent(j) == h :: !Before(KeyOf(keys, q[j]), KeyOf(keys, q[Parent(h)])))
  }

  lemma {:induction false} SiftUpRestores<T>(q: seq<T>, keys: map<T, Key>, i: nat, m: nat)
    requires i < m <= |q|
    requires HeapButUp(q, keys, i, m)
    ensures IsHeap(SiftUp(q, keys, i), keys, m)
    decreases i
  {
    if i > 0 && Before(KeyOf(keys, q[i]), KeyOf(keys, q[Parent(i)])) {
      var p := Parent(i);
      var s := Swap(q, i, p);
      forall j | 0 <= j < m && j != p
        ensures EdgeOk(s, keys, j)
      {
        assert EdgeOk(q, keys, j) || j == i;
      }
      if p > 0 {
        assert EdgeOk(q, keys, p);
        forall j | 0 < j < m && Parent(j) == p
          ensures !Before(KeyOf(keys, s[j]), KeyOf(keys, s[Parent(p)]))
        {
          assert EdgeOk(q, keys, j) || j == i;
        }
      }
      SiftUpRestores(s, keys, p, m);
    } else {
      assert EdgeOk(q, keys, i);
    }
  }

  lemma {:induction false} SinkLeavesOneEdge<T>(q: seq<T>, keys: map<T, Key>, h: nat, m: nat)
    requires h < m <= |q|
    requires HeapButHole(q, keys, h, m)
    ensures HeapButUp(Sink(q, keys, h, m).0, keys, Sink(q, keys, h, m).1, m)
    decreases m - h
  {
    if 2 * h + 1 < m {
      var c := BetterChild(q, keys, h, m);
      var s := Swap(q, h, c);
      forall j | 0 < j < m && j != c && Parent(j) != c
        ensures EdgeOk(s, keys, j)
      {
        assert j == h || Parent(j) == h || EdgeOk(q, keys, j);
      }
      forall j | 0 < j < m && Parent(j) == c
        ensures !Before(KeyOf(keys, s[j]), KeyOf(keys, s[Parent(c)]))
      {
        assert EdgeOk(q, keys, j);
      }
      SinkLeavesOneEdge(s, keys, c, m);
    }
  }

  lemma PoppedRest<T>(q: seq<T>, keys: map<T, Key>)
    requires |q| > 0
    ensures multiset(PopHeap(q, keys)[..|q| - 1]) == multiset(q) - multiset{q[0]}
  {
    var r := PopHeap(q, keys);
    PopHeapPermutes(q, keys);
    assert r == r[..|q| - 1] + [q[0]];
  }

  lemma PoppedHeap<T>(q: seq<T>, keys: map<T, Key>)
    requires |q| > 1
    requires IsHeap(q, keys, |q|)
    ensures IsHeap(PopHeap(q, keys), keys, |q| - 1)
  {
    var m := |q| - 1;
    var s := Swap(q, 0, m);
    forall j | 0 < j < m && Parent(j) != 0
      ensures EdgeOk(s, keys, j)
    {
      assert EdgeOk(q, keys, j);
    }
    SinkLeavesOneEdge(s, keys, 0, m);
    SiftUpRestores(Sink(s, keys, 0, m).0, keys, Sink(s, keys, 0, m).1, m);
  }

  /** `std::pop_heap` keeps the heap order and removes exactly the front. */
  lemma PopHeapCorrect<T>(q: seq<T>, keys: map<T, Key>)
    requires |q| > 0
    requires IsHeap(q, keys, |q|)
    ensures IsHeap(PopHeap(q, keys), keys, |q| - 1)
    ensures multiset(PopHeap(q, keys)[..|q| - 1]) == multiset(q) - multiset{q[0]}
  {
    PoppedRest(q, keys);
    if |q| > 1 {
      PoppedHeap(q, keys);
    }
  }

  /** `std::push_heap` after `push_back`. */
  lemma PushHeapCorrect<T>(q: seq<T>, keys: map<T, Key>)
    requires |q| > 0
    requires IsHeap(q, keys, |q| - 1)
    ensures IsHeap(SiftUp(q, keys, |q| - 1), keys, |q|)
  {
    SiftUpRestores(q, keys, |q| - 1, |q|);
  }

  /** The front of a heap comes no later than any other element. */
  lemma {:induction false} FrontIsLeast<T>(q: seq<T>, keys: map<T, Key>, m: nat, i: nat)
    requires m <= |q| && i < m
    requires IsHeap(q, keys, m)
    ensures !Before(KeyOf(keys, q[i]), KeyOf(keys, q[0]))
    decreases i
  {
    if i > 0 {
      assert EdgeOk(q, keys, i);
      FrontIsLeast(q, keys, m, Parent(i));
    }
  }

  /** Lowering the key of the element at `index` and running `push_heap` on the prefix that ends
      there makes the *whole* array a heap under the lowered key. */
  lemma LoweredKeySiftsUp<T>(q: seq<T>, keys: map<T, Key>, index: nat, low: Key)
    requires index < |q|
    requires IsHeap(q, keys, |q|)
    requires forall i, j | 0 <= i < j < |q| :: q[i] != q[j]
    requires !Before(KeyOf(keys, q[index]), low)
    ensures var lowered := keys[q[index] := low];
            IsHeap(SiftUp(q, lowered, index), lowered, |q|)
  {
    var lowered := keys[q[index] := low];
    forall j | 0 <= j < |q| && j != index
      ensures EdgeOk(q, lowered, j)
    {
      assert EdgeOk(q, keys, j);
    }
    if index > 0 {
      forall j | 0 < j < |q| && Parent(j) == index
        ensures !Before(KeyOf(lowered, q[j]), KeyOf(lowered, q[Parent(index)]))
      {
        assert EdgeOk(q, keys, j) && EdgeOk(q, keys, index);
      }
    }
    SiftUpRestores(q, lowered, index, |q|);
  }

  /** A heap only depends on the keys of its own elements. */
  lemma HeapOfPrefix<T>(q: seq<T>, keys: map<T, Key>, m: nat, others: map<T, Key>)
    requires m <= |q| && IsHeap(q, keys, m)
    requires forall k | 0 <= k < m :: KeyOf(others, q[k]) == KeyOf(keys, q[k])
    ensures IsHeap(q[..m], others, m)
  {
    forall k | 0 <= k < m
      ensures EdgeOk(q[..m], others, k)
    {
      assert EdgeOk(q, keys, k);
    }
  }

  /** A key strictly below all others is at the front of any heap that holds it. */
  lemma StrictlyLeastIsFront<T>(q: seq<T>, keys: map<T, Key>, x: T)
    requires x in q
    requires IsHeap(q, keys, |q|)
    requires forall y | y in q && y != x :: Before(KeyOf(keys, x), KeyOf(keys, y))
    ensures q[0] == x
  {
    var i :| 0 <= i < |q| && q[i] == x;
    FrontIsLeast(q, keys, |q|, i);
    assert q[0] in q;
  }

  predicate Distinct<T(==)>(q: seq<T>) {
    forall i, j | 0 <= i < j < |q| :: q[i] != q[j]
  }

  lemma DistinctByMultiset<T>(q: seq<T>, r: seq<T>)
    requires Distinct(q) && multiset(q) == multiset(r)
    ensures Distinct(r)
  {
    forall i, j | 0 <= i < j < |r|
      ensures r[i] != r[j]
    {
      if r[i] == r[j] {
        assert r == r[..i] + [r[i]] + r[i + 1..j] + [r[j]] + r[j + 1..];
        assert multiset(r)[r[i]] >= 2;
        MultiplicityOne(q, r[i]);
      }
    }
  }

  lemma {:induction false} MultiplicityOne<T>(q: seq<T>, x: T)
    requires Distinct(q)
    ensures multiset(q)[x] <= 1
  {
    if q != [] {
      assert q == [q[0]] + q[1..];
      MultiplicityOne(q[1..], x);
      assert x in q[1..] ==> x != q[0];
    }
  }

  lemma InsertedLast<T>(q: seq<T>, keys: map<T, Key>, x: T)
    requires IsHeap(q, keys, |q|) && Distinct(q) && x !in q
    ensures var r := SiftUp(q + [x], keys, |q|);
            && IsHeap(r, keys, |r|) && Distinct(r) && multiset(r) == multiset(q) + multiset{x}
  {
    var longer := q + [x];
    assert longer[..|q|] == q;
    forall k | 0 <= k < |q|
      ensures EdgeOk(longer, keys, k)
    {
      assert EdgeOk(q, keys, k);
    }
    PushHeapCorrect(longer, keys);
    SiftUpPermutes(longer, keys, |q|);
    DistinctByMultiset(longer, SiftUp(longer, keys, |q|));
  }

  lemma FrontRemoved<T>(q: seq<T>, keys: map<T, Key>)
    requires |q| > 0 && IsHeap(q, keys, |q|) && Distinct(q)
    ensures var rest := PopHeap(q, keys)[..|q| - 1];
            && IsHeap(rest, keys, |rest|) && Distinct(rest)
            && multiset(rest) == multiset(q) - multiset{q[0]}
  {
    PopHeapCorrect(q, keys);
    PopHeapPermutes(q, keys);
    DistinctByMultiset(q, PopHeap(q, keys));
    HeapOfPrefix(PopHeap(q, keys), keys, |q| - 1, keys);
  }

  lemma OneLeft<T>(q: seq<T>, x: T, r: seq<T>)
    requires Distinct(q) && x in q && multiset(r) == multiset(q) - multiset{x}
    ensures forall y :: y in r <==> y in q && y != x
  {
    MultiplicityOne(q, x);
    forall y ensures y in r <==> y in q && y != x {
      assert y in r <==> y in multiset(r);
      assert y in q <==> y in multiset(q);
    }
  }

  lemma FrontGone<T>(q: seq<T>, keys: map<T, Key>, all: set<T>)
    requires |q| > 0 && IsHeap(q, keys, |q|) && Distinct(q)
    requires forall x | x in q :: x in all
    ensures var rest := PopHeap(q, keys)[..|q| - 1];
            && IsHeap(rest, keys, |rest|) && Distinct(rest)
            && (forall x | x in rest :: x in all)
            && (forall x :: x in rest <==> x in q && x != q[0])
            && multiset(rest) == multiset(q) - multiset{q[0]}
  {
    var rest := PopHeap(q, keys)[..|q| - 1];
    FrontRemoved(q, keys);
    OneLeft(q, q[0], rest);
    forall x | x in rest
      ensures x in all
    {
      assert x in multiset(rest);
      assert x in multiset(q);
    }
  }

  /** Removal from the middle of a heap: lower the key at `index`, `push_heap` the prefix that ends
      there, `pop_heap` the whole, drop the last. */
  function RemovedAt<T(==)>(q: seq<T>, keys: map<T, Key>, index: nat, low: Key): (r: seq<T>)
    requires index < |q|
    ensures |r| == |q| - 1
  {
    var lowered := keys[q[index] := low];
    PopHeap(SiftUp(q, lowered, index), lowered)[..|q| - 1]
  }

  lemma LoweredComesFirst<T>(q: seq<T>, keys: map<T, Key>, index: nat, low: Key)
    requires index < |q| && IsHeap(q, keys, |q|) && Distinct(q)
    requires forall k | 0 <= k < |q| :: Before(low, KeyOf(keys, q[k]))
    ensures SiftUp(q, keys[q[index] := low], index)[0] == q[index]
    ensures IsHeap(SiftUp(q, keys[q[index] := low], index), keys[q[index] := low], |q|)
    ensures multiset(SiftUp(q, keys[q[index] := low], index)) == multiset(q)
  {
    var lowered := keys[q[index] := low];
    LoweredKeySiftsUp(q, keys, index, low);
    SiftUpPermutes(q, lowered, index);
    var s := SiftUp(q, lowered, index);
    SameElements(q, s);
    forall y | y in s && y != q[index]
      ensures Before(KeyOf(lowered, q[index]), KeyOf(lowered, y))
    {
      assert y in multiset(s);
      assert y in multiset(q);
    }
    StrictlyLeastIsFront(s, lowered, q[index]);
  }

  /** Exactly the element at `index` is gone, and what is left is a heap under the keys as they
      were before its own was lowered. */
  lemma RemovalFromMiddle<T>(q: seq<T>, keys: map<T, Key>, index: nat, low: Key)
    requires index < |q| && IsHeap(q, keys, |q|) && Distinct(q)
    requires forall k | 0 <= k < |q| :: Before(low, KeyOf(keys, q[k]))
    ensures var rest := RemovedAt(q, keys, index, low);
            && IsHeap(rest, keys, |rest|) && Distinct(rest)
            && multiset(rest) == multiset(q) - multiset{q[index]}
  {
    var lowered := keys[q[index] := low];
    var s := SiftUp(q, lowered, index);
    LoweredComesFirst(q, keys, index, low);
    PopHeapCorrect(s, lowered);
    RestKeepsOtherKeys(q, s, keys, index, low);
  }

  lemma RestKeepsOtherKeys<T>(q: seq<T>, s: seq<T>, keys: map<T, Key>, index: nat, low: Key)
    requires index < |q| && Distinct(q) && |s| == |q| && multiset(s) == multiset(q) && s[0] == q[index]
    requires IsHeap(PopHeap(s, keys[q[index] := low]), keys[q[index] := low], |q| - 1)
    ensures var rest := PopHeap(s, keys[q[index] := low])[..|q| - 1];
            IsHeap(rest, keys, |rest|) && Distinct(rest)
  {
    var lowered := keys[q[index] := low];
    var p := PopHeap(s, lowered);
    PopHeapPermutes(s, lowered);
    DistinctByMultiset(q, p);
    forall k | 0 <= k < |q| - 1
      ensures KeyOf(keys, p[k]) == KeyOf(lowered, p[k])
    {
      assert p[k] != p[|q| - 1];
    }
    HeapOfPrefix(p, lowered, |q| - 1, keys);
  }

  lemma SameElements<T>(q: seq<T>, r: seq<T>)
    requires multiset(q) == multiset(r)
    ensures forall x :: x in q <==> x in r
  {
    forall x ensures x in q <==> x in r {
      assert x in q <==> x in multiset(q);
      assert x in r <==> x in multiset(r);
    }
  }

  /** The contract the standard gives for `push_heap` (the prefix becomes a heap, a permutation of
      what it was) would not be enough for a caller that works on a prefix: in this heap the prefix
      [0, 3) is rearranged into another heap, and the whole array is a heap no longer. */
  lemma PrefixContractIsNotEnough()
    ensures exists q: seq<nat>, r: seq<nat>, keys: map<nat, Key> :: RearrangedBadly(q, r, keys, 3)
  {
    var keys := map x: nat | x < 4 :: Key(x, 0.0);
    var q: seq<nat>, r: seq<nat> := [0, 1, 3, 2], [0, 3, 1, 2];
    assert forall k | 0 <= k < 4 :: EdgeOk(q, keys, k);
    assert forall k | 0 <= k < 3 :: EdgeOk(r, keys, k);
    assert !EdgeOk(r, keys, 3);
    assert multiset(r[..3]) == multiset(q[..3]) by {
      assert r[..3] == [0, 3, 1] && q[..3] == [0, 1, 3];
    }
    assert r[3..] == q[3..];
    assert RearrangedBadly(q, r, keys, 3);
  }

  ghost predicate RearrangedBadly(q: seq<nat>, r: seq<nat>, keys: map<nat, Key>, n: nat) {
    && n <= |q| == |r|
    && IsHeap(q, keys, |q|)
    && IsHeap(r, keys, n) && multiset(r[..n]) == multiset(q[..n]) && r[n..] == q[n..]
    && !IsHeap(r, keys, |r|)
  }
}
