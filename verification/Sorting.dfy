/** The ordered permutations that `std::sort`, `list::sort` and `list::merge` deliver. */
module Sorting {

  /** What a comparison needs so that "sorted" makes sense: any two elements compare, transitively. */
  ghost predicate TotalPreorder<T(!new)>(le: (T, T) -> bool) {
    && (forall x, y :: Comparable(le, x, y))
    && (forall x, y, z :: Chains(le, x, y, z))
  }

  ghost predicate Comparable<T>(le: (T, T) -> bool, x: T, y: T) {
    le(x, y) || le(y, x)
  }

  ghost predicate Chains<T>(le: (T, T) -> bool, x: T, y: T, z: T) {
    le(x, y) && le(y, z) ==> le(x, z)
  }

  ghost predicate Ordered<T>(le: (T, T) -> bool, s: seq<T>) {
    forall i, j :: 0 <= i < j < |s| ==> le(s[i], s[j])
  }

  ghost predicate NoDuplicates<T>(s: seq<T>) {
    forall i, j :: 0 <= i < j < |s| ==> s[i] != s[j]
  }

  /** `r` holds the elements of `s`, each as often, in an order `le` accepts. */
  ghost predicate SortedCopy<T>(le: (T, T) -> bool, s: seq<T>, r: seq<T>) {
    multiset(r) == multiset(s) && Ordered(le, r)
  }

  /** `std::sort`: it promises an ordered permutation, and nothing about the order of ties. */
  method Sort<T(!new)>(le: (T, T) -> bool, s: seq<T>) returns (r: seq<T>)
    requires TotalPreorder(le)
    ensures SortedCopy(le, s, r)
  {
    r := StableSort(le, s);
    StableIsSorted(le, s, r);
  }

  // ---------- stable sorting: list::sort and list::merge ----------

  /** Position `p` of `s` comes before position `q` in a stable sort: ties keep their order. */
  ghost predicate StablyBefore<T>(le: (T, T) -> bool, s: seq<T>, p: nat, q: nat) {
    p < |s| && q < |s| && le(s[p], s[q]) && (le(s[q], s[p]) ==> p < q)
  }

  /** `order` lists the positions of `s` as a stable sort arranges them. */
  ghost predicate StableOrder<T>(le: (T, T) -> bool, s: seq<T>, order: seq<nat>) {
    && PositionsIn(order, |s|) && (forall p: nat :: p < |s| ==> p in order)
    && Arranged(le, s, order)
  }

  ghost predicate PositionsIn(order: seq<nat>, n: nat) {
    forall i :: 0 <= i < |order| ==> order[i] < n
  }

  ghost predicate Arranged<T>(le: (T, T) -> bool, s: seq<T>, order: seq<nat>) {
    forall i, j :: 0 <= i < j < |order| ==> StablyBefore(le, s, order[i], order[j])
  }

  /** The elements of `s` in the given order. */
  ghost function Picked<T>(s: seq<T>, order: seq<nat>): (r: seq<T>)
    requires PositionsIn(order, |s|)
    ensures |r| == |order|
    ensures forall i :: 0 <= i < |order| ==> r[i] == s[order[i]]
  {
    seq(|order|, i requires 0 <= i < |order| => s[order[i]])
  }

  /** `r` is `s` in order, and ties are as in `s`. */
  ghost predicate StableSorted<T>(le: (T, T) -> bool, s: seq<T>, r: seq<T>) {
    exists order :: StableOrder(le, s, order) && r == Picked(s, order)
  }

  lemma StableIsSorted<T(!new)>(le: (T, T) -> bool, s: seq<T>, r: seq<T>)
    requires TotalPreorder(le) && StableSorted(le, s, r)
    ensures SortedCopy(le, s, r)
  {
    var order :| StableOrder(le, s, order) && r == Picked(s, order);
    StableOrderIsPermutation(le, s, order);
  }

  lemma StableOrderIsPermutation<T(!new)>(le: (T, T) -> bool, s: seq<T>, order: seq<nat>)
    requires TotalPreorder(le) && StableOrder(le, s, order)
    ensures SortedCopy(le, s, Picked(s, order)) && NoDuplicates(order)
  {
    var all: seq<nat> := seq(|s|, i requires 0 <= i < |s| => i);
    forall p: nat ensures p in order <==> p in all {
      if p < |s| {
        assert all[p] == p;
      }
    }
    SameMembersOnce(order, all);
    if s == [] {
      assert order == [] && Picked(s, order) == s;
    } else {
      var first := s[0];
      var at := (p: nat) => if p < |s| then s[p] else first;
      assert Map(at, order) == Picked(s, order);
      assert Map(at, all) == s;
      MapPermutation(at, order, all);
    }
  }

  /** Insertion sort, inserting from the back. */
  method StableSort<T(!new)>(le: (T, T) -> bool, s: seq<T>) returns (r: seq<T>)
    requires TotalPreorder(le)
    ensures StableSorted(le, s, r)
  {
    r := [];
    ghost var order: seq<nat> := [];
    for i := 0 to |s|
      invariant StableOrder(le, s[..i], order) && r == Picked(s[..i], order)
    {
      var k := |r|;
      while k > 0 && !le(r[k - 1], s[i])
        invariant 0 <= k <= |r|
        invariant forall j :: k <= j < |r| ==> !le(r[j], s[i])
      {
        k := k - 1;
      }
      StableInsert(le, s[..i], order, s[i], k);
      assert s[..i + 1] == s[..i] + [s[i]];
      r, order := InsertAt(r, k, s[i]), InsertAt(order, k, i);
    }
    assert s[..|s|] == s;
  }

  function InsertAt<T>(s: seq<T>, k: nat, x: T): (r: seq<T>)
    requires k <= |s|
    ensures |r| == |s| + 1
    ensures forall i :: 0 <= i < |r| ==> r[i] == if i < k then s[i] else if i == k then x else s[i - 1]
  {
    s[..k] + [x] + s[k..]
  }

  /** A further element goes behind every element it does not precede. */
  lemma StableInsert<T(!new)>(le: (T, T) -> bool, s: seq<T>, order: seq<nat>, x: T, k: nat)
    requires TotalPreorder(le) && StableOrder(le, s, order) && k <= |order|
    requires k > 0 ==> le(Picked(s, order)[k - 1], x)
    requires forall j :: k <= j < |order| ==> !le(Picked(s, order)[j], x)
    ensures StableOrder(le, s + [x], InsertAt(order, k, |s|))
    ensures Picked(s + [x], InsertAt(order, k, |s|)) == InsertAt(Picked(s, order), k, x)
  {
    var o := InsertAt(order, k, |s|);
    InsertPositions(order, |s|, k);
    forall i, j | 0 <= i < j < |o| ensures StablyBefore(le, s + [x], o[i], o[j]) {
      InsertedPair(le, s, order, x, k, i, j);
    }
    InsertPicked(s, order, x, k);
  }

  lemma InsertPicked<T>(s: seq<T>, order: seq<nat>, x: T, k: nat)
    requires PositionsIn(order, |s|) && k <= |order| && PositionsIn(InsertAt(order, k, |s|), |s| + 1)
    ensures Picked(s + [x], InsertAt(order, k, |s|)) == InsertAt(Picked(s, order), k, x)
  {
  }

  lemma InsertedElement(order: seq<nat>, x: nat, k: nat, i: nat)
    requires k <= |order| && i <= |order|
    ensures InsertAt(order, k, x)[i] == if i < k then order[i] else if i == k then x else order[i - 1]
  {
  }

  lemma InsertedPair<T(!new)>(le: (T, T) -> bool, s: seq<T>, order: seq<nat>, x: T, k: nat, i: nat, j: nat)
    requires TotalPreorder(le) && StableOrder(le, s, order) && k <= |order| && i < j <= |order|
    requires k > 0 ==> le(Picked(s, order)[k - 1], x)
    requires forall j :: k <= j < |order| ==> !le(Picked(s, order)[j], x)
    ensures StablyBefore(le, s + [x], InsertAt(order, k, |s|)[i], InsertAt(order, k, |s|)[j])
  {
    InsertedElement(order, |s|, k, i);
    InsertedElement(order, |s|, k, j);
    if j == k {
      InsertedAfter(le, s, order, x, k, i);
    } else if i == k {
      assert !le(Picked(s, order)[j - 1], x);
      InsertedBefore(le, s, order, x, j - 1);
    } else {
      KeptPair(le, s, order, x, if i < k then i else i - 1, if j < k then j else j - 1);
    }
  }

  lemma InsertedAfter<T(!new)>(le: (T, T) -> bool, s: seq<T>, order: seq<nat>, x: T, k: nat, i: nat)
    requires TotalPreorder(le) && StableOrder(le, s, order) && i < k <= |order| && le(s[order[k - 1]], x)
    ensures StablyBefore(le, s + [x], order[i], |s|)
  {
    if i < k - 1 {
      assert StablyBefore(le, s, order[i], order[k - 1]) && Chains(le, s[order[i]], s[order[k - 1]], x);
    }
  }

  lemma InsertedBefore<T(!new)>(le: (T, T) -> bool, s: seq<T>, order: seq<nat>, x: T, j: nat)
    requires TotalPreorder(le) && StableOrder(le, s, order) && j < |order| && !le(s[order[j]], x)
    ensures StablyBefore(le, s + [x], |s|, order[j])
  {
    assert Comparable(le, s[order[j]], x);
  }

  lemma KeptPair<T>(le: (T, T) -> bool, s: seq<T>, order: seq<nat>, x: T, i: nat, j: nat)
    requires StableOrder(le, s, order) && i < j < |order|
    ensures StablyBefore(le, s + [x], order[i], order[j])
  {
    assert StablyBefore(le, s, order[i], order[j]);
  }

  lemma InsertPositions(order: seq<nat>, n: nat, k: nat)
    requires k <= |order| && PositionsIn(order, n) && forall p: nat :: p < n ==> p in order
    ensures PositionsIn(InsertAt(order, k, n), n + 1)
    ensures forall p: nat :: p < n + 1 ==> p in InsertAt(order, k, n)
  {
    var o := InsertAt(order, k, n);
    forall p: nat | p < n + 1 ensures p in o {
      if p < n {
        assert p in order;
        var i :| 0 <= i < |order| && order[i] == p;
        assert o[if i < k then i else i + 1] == p;
      } else {
        assert o[k] == n;
      }
    }
  }

  /** `list::merge`: of two equal elements the one from the first list comes first. */
  method Merge<T(!new)>(le: (T, T) -> bool, a: seq<T>, b: seq<T>) returns (r: seq<T>)
    requires TotalPreorder(le) && Ordered(le, a) && Ordered(le, b)
    ensures StableSorted(le, a + b, r)
  {
    var i, j := 0, 0;
    r := [];
    ghost var order: seq<nat> := [];
    while i < |a| || j < |b|
      invariant i <= |a| && j <= |b|
      invariant Merging(le, a, b, i, j, order) && r == Picked(a + b, order)
      decreases |a| - i + |b| - j
    {
      if j == |b| || (i < |a| && le(a[i], b[j])) {
        MergeFirst(le, a, b, i, j, order);
        r, order, i := r + [a[i]], order + [i], i + 1;
      } else {
        MergeSecond(le, a, b, i, j, order);
        r, order, j := r + [b[j]], order + [|a| + j], j + 1;
      }
    }
  }

  /** What has been taken from the two lists, all of it preceding what is left. */
  ghost predicate Merging<T>(le: (T, T) -> bool, a: seq<T>, b: seq<T>, i: nat, j: nat, order: seq<nat>) {
    && PositionsIn(order, |a| + |b|) && (forall p: nat :: p in order <==> Taken(|a|, |b|, i, j, p))
    && Arranged(le, a + b, order)
    && (forall p: nat, q: nat :: p in order && q < |a| + |b| && q !in order ==> StablyBefore(le, a + b, p, q))
  }

  predicate Taken(m: nat, n: nat, i: nat, j: nat, p: nat) {
    p < i || m <= p < m + j
  }

  /** Moving the next position `c` to the output, when it precedes all others that are left. */
  lemma MergeStep<T>(le: (T, T) -> bool, a: seq<T>, b: seq<T>, i: nat, j: nat, order: seq<nat>,
                     c: nat, i': nat, j': nat)
    requires i <= |a| && j <= |b| && Merging(le, a, b, i, j, order) && c < |a| + |b| && c !in order
    requires forall p: nat :: Taken(|a|, |b|, i', j', p) <==> Taken(|a|, |b|, i, j, p) || p == c
    requires forall q: nat :: q < |a| + |b| && q != c && !Taken(|a|, |b|, i, j, q) ==> StablyBefore(le, a + b, c, q)
    ensures Merging(le, a, b, i', j', order + [c])
    ensures Picked(a + b, order + [c]) == Picked(a + b, order) + [(a + b)[c]]
  {
    var o := order + [c];
    forall k, l | 0 <= k < l < |o| ensures StablyBefore(le, a + b, o[k], o[l]) {
      assert o[k] == order[k] && order[k] in order;
    }
  }

  lemma MergeFirst<T(!new)>(le: (T, T) -> bool, a: seq<T>, b: seq<T>, i: nat, j: nat, order: seq<nat>)
    requires TotalPreorder(le) && Ordered(le, a) && Ordered(le, b) && i < |a| && j <= |b|
    requires Merging(le, a, b, i, j, order) && (j < |b| ==> le(a[i], b[j]))
    ensures Merging(le, a, b, i + 1, j, order + [i])
    ensures Picked(a + b, order + [i]) == Picked(a + b, order) + [a[i]]
  {
    forall q: nat | q < |a| + |b| && q != i && !Taken(|a|, |b|, i, j, q) ensures StablyBefore(le, a + b, i, q) {
      if q >= |a| {
        assert q - |a| == j || Chains(le, a[i], b[j], b[q - |a|]);
      }
    }
    MergeStep(le, a, b, i, j, order, i, i + 1, j);
  }

  lemma MergeSecond<T(!new)>(le: (T, T) -> bool, a: seq<T>, b: seq<T>, i: nat, j: nat, order: seq<nat>)
    requires TotalPreorder(le) && Ordered(le, a) && Ordered(le, b) && i <= |a| && j < |b|
    requires Merging(le, a, b, i, j, order) && (i < |a| ==> !le(a[i], b[j]))
    ensures Merging(le, a, b, i, j + 1, order + [|a| + j])
    ensures Picked(a + b, order + [|a| + j]) == Picked(a + b, order) + [b[j]]
  {
    var c := |a| + j;
    forall q: nat | q < |a| + |b| && q != c && !Taken(|a|, |b|, i, j, q) ensures StablyBefore(le, a + b, c, q) {
      if q < |a| {
        assert Comparable(le, a[i], b[j]);
        assert q == i || (Chains(le, b[j], a[i], a[q]) && Chains(le, a[i], a[q], b[j]));
      }
    }
    MergeStep(le, a, b, i, j, order, c, i, j + 1);
  }

  /** Merging the stable sorts of two lists gives the stable sort of their concatenation. */
  lemma StableCompose<T(!new)>(le: (T, T) -> bool, x: seq<T>, a: seq<T>, y: seq<T>, b: seq<T>, r: seq<T>)
    requires StableSorted(le, x, a) && StableSorted(le, y, b) && StableSorted(le, a + b, r)
    ensures StableSorted(le, x + y, r)
  {
    var ox :| StableOrder(le, x, ox) && a == Picked(x, ox);
    var oy :| StableOrder(le, y, oy) && b == Picked(y, oy);
    var o :| StableOrder(le, a + b, o) && r == Picked(a + b, o);
    var order := ComposeOrders(le, x, ox, y, oy, o);
  }

  lemma ComposeOrders<T(!new)>(le: (T, T) -> bool, x: seq<T>, ox: seq<nat>, y: seq<T>, oy: seq<nat>, o: seq<nat>)
    returns (order: seq<nat>)
    requires StableOrder(le, x, ox) && StableOrder(le, y, oy)
    requires StableOrder(le, Picked(x, ox) + Picked(y, oy), o)
    ensures StableOrder(le, x + y, order)
    ensures Picked(x + y, order) == Picked(Picked(x, ox) + Picked(y, oy), o)
  {
    var ab := Picked(x, ox) + Picked(y, oy);
    order := seq(|o|, i requires 0 <= i < |o| => Trace(|x|, ox, oy, o[i]));
    forall i | 0 <= i < |o| ensures o[i] < |ab| && order[i] < |x| + |y| && (x + y)[order[i]] == ab[o[i]] {
      TraceInRange(x, ox, y, oy, o[i]);
    }
    forall p: nat ensures p in order <==> p < |x| + |y| {
      if p < |x| + |y| {
        var k := Source(x, ox, y, oy, p);
        assert k in o;
        var i :| 0 <= i < |o| && o[i] == k;
        assert order[i] == p;
      }
    }
    forall i, j | 0 <= i < j < |order| ensures StablyBefore(le, x + y, order[i], order[j]) {
      assert StablyBefore(le, ab, o[i], o[j]);
      if le((x + y)[order[j]], (x + y)[order[i]]) {
        TraceMonotone(le, x, ox, y, oy, o[i], o[j]);
      }
    }
  }

  /** Position `k` of the two sorted lists together, traced back to the unsorted lists. */
  ghost function Trace(n: nat, ox: seq<nat>, oy: seq<nat>, k: nat): nat {
    if k < |ox| then ox[k] else if k - |ox| < |oy| then n + oy[k - |ox|] else 0
  }

  lemma TraceInRange<T>(x: seq<T>, ox: seq<nat>, y: seq<T>, oy: seq<nat>, k: nat)
    requires PositionsIn(ox, |x|) && PositionsIn(oy, |y|)
    requires k < |ox| + |oy|
    ensures Trace(|x|, ox, oy, k) < |x| + |y|
    ensures (x + y)[Trace(|x|, ox, oy, k)] == (Picked(x, ox) + Picked(y, oy))[k]
  {
  }

  lemma Source<T>(x: seq<T>, ox: seq<nat>, y: seq<T>, oy: seq<nat>, p: nat) returns (k: nat)
    requires (forall q: nat :: q < |x| ==> q in ox) && (forall q: nat :: q < |y| ==> q in oy)
    requires p < |x| + |y|
    ensures k < |ox| + |oy| && Trace(|x|, ox, oy, k) == p
  {
    if p < |x| {
      assert p in ox;
      k :| 0 <= k < |ox| && ox[k] == p;
    } else {
      assert p - |x| in oy;
      var l :| 0 <= l < |oy| && oy[l] == p - |x|;
      k := |ox| + l;
    }
  }

  lemma TraceMonotone<T>(le: (T, T) -> bool, x: seq<T>, ox: seq<nat>, y: seq<T>, oy: seq<nat>, k: nat, l: nat)
    requires StableOrder(le, x, ox) && StableOrder(le, y, oy)
    requires k < l < |ox| + |oy| && le((Picked(x, ox) + Picked(y, oy))[l], (Picked(x, ox) + Picked(y, oy))[k])
    ensures Trace(|x|, ox, oy, k) < Trace(|x|, ox, oy, l)
  {
    if l < |ox| {
      assert StablyBefore(le, x, ox[k], ox[l]);
    } else if k >= |ox| {
      assert StablyBefore(le, y, oy[k - |ox|], oy[l - |ox|]);
    }
  }

  // ---------- relabelled orders ----------

  ghost predicate Comes<T>(s: seq<T>, x: T, y: T) {
    exists i, j :: 0 <= i < j < |s| && s[i] == x && s[j] == y
  }

  /** Elements that the two lists show in opposite order carry the same label. */
  ghost predicate SwapsAgree<A(!new), B>(f: A -> B, s: seq<A>, t: seq<A>) {
    forall x, y :: Comes(s, x, y) && Comes(t, y, x) ==> f(x) == f(y)
  }

  /** Two arrangements that disagree only about elements of equal label show the same labels. */
  lemma {:induction false} SameLabels<A(!new), B>(f: A -> B, s: seq<A>, t: seq<A>)
    requires NoDuplicates(s) && NoDuplicates(t) && (forall x :: x in s <==> x in t) && SwapsAgree(f, s, t)
    ensures Map(f, s) == Map(f, t)
    decreases |s|
  {
    SameMembersOnce(s, t);
    SameMembers(s, t);
    if s != [] {
      var k := FirstIn(f, s, t);
      var s', t' := Without(s, 0), Without(t, k);
      RemoveBoth(s, 0, t, k);
      FewerSwaps(f, s, s', t, t');
      SameLabels(f, s', t');
      LabelsWithout(f, s, 0);
      LabelsWithout(f, t, k);
    }
  }

  /** Everything that stands before the first element in the other list has its label. */
  lemma FirstIn<A(!new), B>(f: A -> B, s: seq<A>, t: seq<A>) returns (k: nat)
    requires NoDuplicates(t) && (forall x :: x in s <==> x in t) && SwapsAgree(f, s, t) && s != []
    ensures k < |t| && t[k] == s[0] && forall i :: 0 <= i < k ==> f(t[i]) == f(t[k])
  {
    assert s[0] in t;
    k :| 0 <= k < |t| && t[k] == s[0];
    forall i | 0 <= i < k ensures f(t[i]) == f(t[k]) {
      SwappedWithFirst(f, s, t, k, i);
    }
  }

  lemma SwappedWithFirst<A(!new), B>(f: A -> B, s: seq<A>, t: seq<A>, k: nat, i: nat)
    requires NoDuplicates(t) && (forall x :: x in s <==> x in t) && SwapsAgree(f, s, t)
    requires s != [] && i < k < |t| && t[k] == s[0]
    ensures f(t[i]) == f(s[0])
  {
    assert t[i] in s;
    var m :| 0 <= m < |s| && s[m] == t[i];
    assert Comes(s, s[0], t[i]) && Comes(t, t[i], s[0]);
  }

  lemma FewerSwaps<A(!new), B>(f: A -> B, s: seq<A>, s': seq<A>, t: seq<A>, t': seq<A>)
    requires SwapsAgree(f, s, t)
    requires Embeds(s', s) && Embeds(t', t)
    ensures SwapsAgree(f, s', t')
  {
  }

  lemma LabelsWithout<A, B>(f: A -> B, t: seq<A>, k: nat)
    requires k < |t| && forall i :: 0 <= i < k ==> f(t[i]) == f(t[k])
    ensures Map(f, t) == [f(t[k])] + Map(f, Without(t, k))
  {
    var t' := Without(t, k);
    forall i | 0 <= i < |t| ensures Map(f, t)[i] == ([f(t[k])] + Map(f, t'))[i] {
      assert i > 0 ==> t'[i - 1] == if i <= k then t[i - 1] else t[i];
    }
  }

  ghost predicate Embeds<A(!new)>(s: seq<A>, t: seq<A>) {
    forall x, y :: Comes(s, x, y) ==> Comes(t, x, y)
  }

  lemma RemoveBoth<A(!new)>(s: seq<A>, j: nat, t: seq<A>, k: nat)
    requires NoDuplicates(s) && NoDuplicates(t) && (forall x :: x in s <==> x in t)
    requires j < |s| && k < |t| && s[j] == t[k]
    ensures NoDuplicates(Without(s, j)) && NoDuplicates(Without(t, k))
    ensures forall x :: x in Without(s, j) <==> x in Without(t, k)
    ensures Embeds(Without(s, j), s) && Embeds(Without(t, k), t)
  {
    RemoveOne(s, j);
    RemoveOne(t, k);
  }

  lemma RemoveOne<A(!new)>(t: seq<A>, k: nat)
    requires NoDuplicates(t) && k < |t|
    ensures NoDuplicates(Without(t, k)) && Embeds(Without(t, k), t)
    ensures forall x :: x in Without(t, k) <==> x in t && x != t[k]
  {
    var t' := Without(t, k);
    assert t == t[..k] + [t[k]] + t[k + 1..];
    forall i | 0 <= i < |t'| ensures t'[i] == t[if i < k then i else i + 1] {
    }
    forall x, y | Comes(t', x, y) ensures Comes(t, x, y) {
      var i, j :| 0 <= i < j < |t'| && t'[i] == x && t'[j] == y;
      assert t[if i < k then i else i + 1] == x && t[if j < k then j else j + 1] == y;
    }
  }

  // ---------- sequences as multisets ----------

  lemma SameMembers<T>(s: seq<T>, r: seq<T>)
    requires multiset(s) == multiset(r)
    ensures |s| == |r|
    ensures forall x :: x in s <==> x in r
  {
    assert |multiset(s)| == |multiset(r)|;
    forall x ensures x in s <==> x in r {
      assert x in s <==> x in multiset(s);
      assert x in r <==> x in multiset(r);
    }
  }

  /** Two lists without repetition that hold the same elements are permutations of each other. */
  lemma SameMembersOnce<T>(s: seq<T>, r: seq<T>)
    requires NoDuplicates(s) && NoDuplicates(r)
    requires forall x :: x in s <==> x in r
    ensures multiset(s) == multiset(r)
  {
    forall x ensures multiset(s)[x] == multiset(r)[x] {
      OccursOnce(s, x);
      OccursOnce(r, x);
    }
  }

  lemma {:induction false} OccursOnce<T>(s: seq<T>, x: T)
    requires NoDuplicates(s)
    ensures multiset(s)[x] == if x in s then 1 else 0
  {
    if s != [] {
      var last := |s| - 1;
      assert s == s[..last] + [s[last]];
      OccursOnce(s[..last], x);
    }
  }

  function Map<A, B>(f: A -> B, s: seq<A>): (r: seq<B>)
    ensures |r| == |s|
    ensures forall i :: 0 <= i < |s| ==> r[i] == f(s[i])
  {
    seq(|s|, i requires 0 <= i < |s| => f(s[i]))
  }

  function Without<T>(s: seq<T>, k: nat): (r: seq<T>)
    requires k < |s|
    ensures |r| == |s| - 1
  {
    s[..k] + s[k + 1..]
  }

  lemma WithoutOne<T>(s: seq<T>, k: nat)
    requires k < |s|
    ensures multiset(s) == multiset(Without(s, k)) + multiset{s[k]}
  {
    assert s == s[..k] + [s[k]] + s[k + 1..];
  }

  /** Mapping respects permutations. */
  lemma {:induction false} MapPermutation<A, B>(f: A -> B, s: seq<A>, r: seq<A>)
    requires multiset(s) == multiset(r)
    ensures multiset(Map(f, s)) == multiset(Map(f, r))
    decreases |s|
  {
    SameMembers(s, r);
    if s != [] {
      assert s[0] in r;
      var k :| 0 <= k < |r| && r[k] == s[0];
      WithoutOne(s, 0);
      WithoutOne(r, k);
      assert multiset(Without(s, 0)) == multiset(Without(r, k)) by {
        EqualRest(multiset(Without(s, 0)), multiset(Without(r, k)), s[0]);
      }
      MapPermutation(f, Without(s, 0), Without(r, k));
      WithoutOne(Map(f, s), 0);
      WithoutOne(Map(f, r), k);
      MapWithout(f, s, 0);
      MapWithout(f, r, k);
    }
  }

  lemma MapWithout<A, B>(f: A -> B, s: seq<A>, k: nat)
    requires k < |s|
    ensures Without(Map(f, s), k) == Map(f, Without(s, k))
  {
  }

  lemma EqualRest<T>(m: multiset<T>, n: multiset<T>, x: T)
    requires m + multiset{x} == n + multiset{x}
    ensures m == n
  {
    assert m == m + multiset{x} - multiset{x};
  }
}
