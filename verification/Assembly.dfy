/**
 Totals over index lists: the order of the parts does not matter, and the search over a list
 that covers every part finds a whole at least as good.
 */
module Assembly {
  import opened Sorting
  import opened Metrics
  import opened Combinations
  import opened Pruning

  /** The parts that an index list names. */
  function Pick<T>(list: seq<T>, s: Indices): (r: seq<T>)
    requires Within(s, 0, |list|)
  {
    seq(|s|, i requires 0 <= i < |s| => list[s[i]])
  }

  function Capacities<T>(f: T -> Figures, list: seq<T>): (r: seq<int>)
    ensures |r| == |list|
    ensures forall i :: 0 <= i < |list| ==> r[i] == f(list[i]).capacity
  {
    seq(|list|, i requires 0 <= i < |list| => f(list[i]).capacity)
  }

  lemma {:induction false} PickedCapacity<T>(f: T -> Figures, list: seq<T>, s: Indices)
    requires Within(s, 0, |list|)
    ensures CapacitySum(Capacities(f, list), s) == Total(Map(f, Pick(list, s))).capacity
  {
    if s != [] {
      PickedCapacity(f, list, s[1..]);
      var tail := Map(f, Pick(list, s[1..]));
      TotalInsert(tail, 0, f(list[s[0]]));
      assert Map(f, Pick(list, s)) == tail[..0] + [f(list[s[0]])] + tail[0..];
    }
  }

  // ---------- the order of the parts ----------

  function InsertPosition(x: nat, s: Indices): (k: nat)
    ensures k <= |s|
    ensures forall i :: 0 <= i < k ==> s[i] <= x
    ensures k < |s| ==> x < s[k]
  {
    if s == [] || x < s[0] then 0 else 1 + InsertPosition(x, s[1..])
  }

  /** An index list can be put in order without changing the parts or their total. */
  lemma {:induction false} Rearrange<T>(f: T -> Figures, list: seq<T>, w: Indices) returns (s: Indices)
    requires Within(w, 0, |list|)
    ensures |s| == |w| && NonDecreasing(s) && Within(s, 0, |list|)
    ensures multiset(s) == multiset(w)
    ensures Total(Map(f, Pick(list, s))) == Total(Map(f, Pick(list, w)))
  {
    s := w;
    if w != [] {
      var n := |w| - 1;
      var t := Rearrange(f, list, w[..n]);
      assert w[..n][..n] + [w[n]] + w[..n][n..] == w;
      InsertKeepsTotal(f, list, w[..n], n, w[n]);
      s := InsertIndex(f, list, t, w[n]);
      InsertAdds(w[..n], n, w[n]);
    }
  }

  lemma InsertIndex<T>(f: T -> Figures, list: seq<T>, t: Indices, x: nat) returns (s: Indices)
    requires Within(t, 0, |list|) && x < |list| && NonDecreasing(t)
    ensures |s| == |t| + 1 && NonDecreasing(s) && Within(s, 0, |list|)
    ensures multiset(s) == multiset(t) + multiset{x}
    ensures Total(Map(f, Pick(list, s))) == Plus(Total(Map(f, Pick(list, t))), f(list[x]))
  {
    var k := InsertPosition(x, t);
    s := t[..k] + [x] + t[k..];
    InsertAdds(t, k, x);
    InsertKeepsOrder(t, k, x);
    InsertKeepsTotal(f, list, t, k, x);
  }

  lemma InsertAdds(t: Indices, k: nat, x: nat)
    requires k <= |t|
    ensures multiset(t[..k] + [x] + t[k..]) == multiset(t) + multiset{x}
  {
    assert t == t[..k] + t[k..];
  }

  lemma InsertKeepsOrder(t: Indices, k: nat, x: nat)
    requires NonDecreasing(t) && k <= |t|
    requires forall i :: 0 <= i < k ==> t[i] <= x
    requires k < |t| ==> x < t[k]
    ensures NonDecreasing(t[..k] + [x] + t[k..])
  {
    forall i | k <= i < |t| ensures x <= t[i] {
      assert t[k] <= t[i];
    }
  }

  lemma InsertKeepsTotal<T>(f: T -> Figures, list: seq<T>, t: Indices, k: nat, x: nat)
    requires Within(t, 0, |list|) && k <= |t| && x < |list|
    ensures Within(t[..k] + [x] + t[k..], 0, |list|)
    ensures Total(Map(f, Pick(list, t[..k] + [x] + t[k..]))) ==
            Plus(Total(Map(f, Pick(list, t))), f(list[x]))
  {
    var fs := Map(f, Pick(list, t));
    TotalInsert(fs, k, f(list[x]));
    assert Map(f, Pick(list, t[..k] + [x] + t[k..])) == fs[..k] + [f(list[x])] + fs[k..];
  }

  // ---------- nothing better is lost ----------

  /** Positions in `list` of elements that beat the given parts one by one. */
  lemma {:induction false} CoverPositions<T>(o: Ranking, f: T -> Figures, list: seq<T>, ys: seq<Figures>)
    returns (w: Indices)
    requires forall y :: y in ys ==> Covered(o, f, list, y)
    ensures |w| == |ys| && Within(w, 0, |list|)
    ensures forall i :: 0 <= i < |ys| ==> Beats(o, f(list[w[i]]), ys[i])
  {
    w := [];
    if ys != [] {
      var n := |ys| - 1;
      w := CoverPositions(o, f, list, ys[..n]);
      assert ys[n] in ys;
      var x :| x in list && Beats(o, f(x), ys[n]);
      var k :| 0 <= k < |list| && list[k] == x;
      w := w + [k];
    }
  }

  /**
   If `list` covers each part of a whole with the target capacity, the search over `list`
   emits a whole that beats it.
   */
  lemma SearchBeats<T>(o: Ranking, f: T -> Figures, list: seq<T>, target: int, ys: seq<Figures>)
    returns (s: Indices)
    requires forall x :: x in list ==> f(x).capacity >= 0
    requires forall y :: y in ys ==> Covered(o, f, list, y)
    requires ys != [] && Total(ys).capacity == target
    ensures Within(s, 0, |list|)
    ensures s in SearchLists(Capacities(f, list), target, 0, |ys|)
    ensures Beats(o, Total(Map(f, Pick(list, s))), Total(ys))
  {
    var w := CoverPositions(o, f, list, ys);
    var xs := Map(f, Pick(list, w));
    TotalBeats(o, xs, ys);
    s := Rearrange(f, list, w);
    PickedCapacity(f, list, s);
    SearchExact(Capacities(f, list), target, |ys|);
  }

  /** Conversely, what the search emits is made of elements of `list` and meets the target. */
  lemma SearchSound<T>(f: T -> Figures, list: seq<T>, target: int, nb: nat, s: Indices)
    requires nb >= 1
    requires forall x :: x in list ==> f(x).capacity >= 0
    requires s in SearchLists(Capacities(f, list), target, 0, nb)
    ensures |s| == nb && Within(s, 0, |list|)
    ensures Total(Map(f, Pick(list, s))).capacity == target
  {
    SearchExact(Capacities(f, list), target, nb);
    PickedCapacity(f, list, s);
  }

  // ---------- what the recursions build ----------

  ghost predicate AllWithin(ls: seq<Indices>, n: nat) {
    forall i: nat {:trigger OneWithin(ls, i, n)} :: OneWithin(ls, i, n)
  }

  ghost predicate OneWithin(ls: seq<Indices>, i: nat, n: nat) {
    i < |ls| ==> Within(ls[i], 0, n)
  }

  lemma WithinJoin(pre: Indices, s: Indices, n: nat)
    requires Within(pre, 0, n) && Within(s, 0, n)
    ensures Within(pre + s, 0, n)
  {
  }

  /** What the recursions build: one object for each list, behind the common prefix `pre`. */
  function Assemble<T, R>(make: seq<T> -> R, list: seq<T>, pre: Indices, ls: seq<Indices>): (rs: seq<R>)
    requires Within(pre, 0, |list|) && AllWithin(ls, |list|)
  {
    seq(|ls|, i requires 0 <= i < |ls| =>
      assert OneWithin(ls, i, |list|);
      WithinJoin(pre, ls[i], |list|);
      make(Pick(list, pre + ls[i])))
  }

  lemma AssembleAt<T, R>(make: seq<T> -> R, list: seq<T>, ls: seq<Indices>, i: nat)
    requires AllWithin(ls, |list|) && i < |ls|
    ensures Within(ls[i], 0, |list|) && Assemble(make, list, [], ls)[i] == make(Pick(list, ls[i]))
  {
    assert OneWithin(ls, i, |list|);
    assert [] + ls[i] == ls[i];
  }

  lemma AssembleJoin<T, R>(make: seq<T> -> R, list: seq<T>, pre: Indices, a: seq<Indices>, b: seq<Indices>)
    requires Within(pre, 0, |list|) && AllWithin(a, |list|) && AllWithin(b, |list|)
    ensures AllWithin(a + b, |list|)
    ensures Assemble(make, list, pre, a + b) == Assemble(make, list, pre, a) + Assemble(make, list, pre, b)
  {
    JoinWithin(a, b, |list|);
  }

  lemma AssemblePrepend<T, R>(make: seq<T> -> R, list: seq<T>, pre: Indices, x: nat, ls: seq<Indices>)
    requires Within(pre, 0, |list|) && x < |list| && AllWithin(ls, |list|)
    ensures AllWithin(Prepend(x, ls), |list|) && Within(pre + [x], 0, |list|)
    ensures Assemble(make, list, pre, Prepend(x, ls)) == Assemble(make, list, pre + [x], ls)
  {
    WithinJoin(pre, [x], |list|);
    PrependWithin(x, ls, |list|);
    forall i | 0 <= i < |ls| ensures pre + Prepend(x, ls)[i] == pre + [x] + ls[i] {
    }
  }

  lemma PrependWithin(x: nat, ls: seq<Indices>, n: nat)
    requires x < n && AllWithin(ls, n)
    ensures AllWithin(Prepend(x, ls), n)
  {
    forall i: nat ensures OneWithin(Prepend(x, ls), i, n) {
      if i < |ls| {
        assert OneWithin(ls, i, n);
        WithinJoin([x], ls[i], n);
      }
    }
  }

  lemma AssembleSingle<T, R>(make: seq<T> -> R, list: seq<T>, pre: Indices)
    requires Within(pre, 0, |list|)
    ensures AllWithin([[]], |list|)
    ensures Assemble(make, list, pre, [[]]) == [make(Pick(list, pre))]
  {
    forall i: nat ensures OneWithin([[]], i, |list|) {
    }
    assert pre + [] == pre;
  }

  lemma ListsWithin(start: nat, n: nat, nb: nat)
    ensures AllWithin(Lists(start, n, nb), n)
  {
    var ls := Lists(start, n, nb);
    forall i: nat ensures OneWithin(ls, i, n) {
      if i < |ls| {
        ListsMember(start, n, nb, ls[i]);
      }
    }
  }

  lemma {:induction false} SearchWithin(caps: seq<int>, remaining: int, start: nat, nb: nat)
    requires nb >= 1
    ensures AllWithin(SearchLists(caps, remaining, start, nb), |caps|)
    decreases nb, |caps| - start, 1
  {
    if start < |caps| {
      SearchWithin(caps, remaining, start + 1, nb);
      BranchWithin(caps, remaining, start, nb);
      JoinWithin(SearchBranch(caps, remaining, start, nb), SearchLists(caps, remaining, start + 1, nb), |caps|);
    }
  }

  lemma {:induction false} BranchWithin(caps: seq<int>, remaining: int, start: nat, nb: nat)
    requires nb >= 1 && start < |caps|
    ensures AllWithin(SearchBranch(caps, remaining, start, nb), |caps|)
    decreases nb, |caps| - start, 0
  {
    if nb > 1 && caps[start] <= remaining {
      SearchWithin(caps, remaining - caps[start], start, nb - 1);
      PrependWithin(start, SearchLists(caps, remaining - caps[start], start, nb - 1), |caps|);
    } else {
      forall i: nat ensures OneWithin(SearchBranch(caps, remaining, start, nb), i, |caps|) {
      }
    }
  }

  lemma WithinMore(ls: seq<Indices>, n: nat, m: nat)
    requires AllWithin(ls, n) && n <= m
    ensures AllWithin(ls, m)
  {
    forall i: nat ensures OneWithin(ls, i, m) {
      assert OneWithin(ls, i, n);
    }
  }

  lemma JoinWithin(a: seq<Indices>, b: seq<Indices>, n: nat)
    requires AllWithin(a, n) && AllWithin(b, n)
    ensures AllWithin(a + b, n)
  {
    forall i: nat ensures OneWithin(a + b, i, n) {
      if i < |a| {
        assert OneWithin(a, i, n);
      } else if i < |a + b| {
        assert OneWithin(b, i - |a|, n);
      }
    }
  }

  /** What find_bobs_recursive builds behind the prefix `pre` with `nb` parts from start..n still to choose. */
  function BuiltFrom<T, R>(make: seq<T> -> R, list: seq<T>, pre: Indices, start: nat, n: nat, nb: nat): seq<R>
    requires Within(pre, 0, |list|) && n <= |list|
  {
    ListsWithin(start, n, nb);
    WithinMore(Lists(start, n, nb), n, |list|);
    Assemble(make, list, pre, Lists(start, n, nb))
  }

  lemma BuiltFromEnd<T, R>(make: seq<T> -> R, list: seq<T>, pre: Indices, i: nat, n: nat, nb: nat)
    requires Within(pre, 0, |list|) && n <= |list| && nb >= 1 && i >= n
    ensures BuiltFrom(make, list, pre, i, n, nb) == []
  {
  }

  /** One turn of its loop. */
  lemma BuiltFromStep<T, R>(make: seq<T> -> R, list: seq<T>, pre: Indices, i: nat, n: nat, nb: nat)
    requires Within(pre, 0, |list|) && i < n <= |list| && nb >= 1
    ensures Within(pre + [i], 0, |list|)
    ensures BuiltFrom(make, list, pre, i, n, nb) ==
            BuiltFrom(make, list, pre + [i], i, n, nb - 1) + BuiltFrom(make, list, pre, i + 1, n, nb)
  {
    ListsWithin(i, n, nb - 1);
    WithinMore(Lists(i, n, nb - 1), n, |list|);
    ListsWithin(i + 1, n, nb);
    WithinMore(Lists(i + 1, n, nb), n, |list|);
    AssemblePrepend(make, list, pre, i, Lists(i, n, nb - 1));
    AssembleJoin(make, list, pre, Prepend(i, Lists(i, n, nb - 1)), Lists(i + 1, n, nb));
  }

  /** The objects its last loop builds, one for each final position. */
  function BuiltLast<T, R>(make: seq<T> -> R, list: seq<T>, pre: Indices, i: nat, n: nat): seq<R>
    requires Within(pre, 0, |list|) && n <= |list|
    decreases n - i
  {
    if i >= n then []
    else
      WithinJoin(pre, [i], |list|);
      [make(Pick(list, pre + [i]))] + BuiltLast(make, list, pre, i + 1, n)
  }

  lemma {:induction false} BuiltLastIsBuiltFrom<T, R>(make: seq<T> -> R, list: seq<T>, pre: Indices, i: nat, n: nat)
    requires Within(pre, 0, |list|) && n <= |list|
    ensures BuiltFrom(make, list, pre, i, n, 1) == BuiltLast(make, list, pre, i, n)
    decreases n - i
  {
    if i < n {
      BuiltFromStep(make, list, pre, i, n, 1);
      AssembleSingle(make, list, pre + [i]);
      BuiltLastIsBuiltFrom(make, list, pre, i + 1, n);
    }
  }

  /** What find_mems_recursive builds. */
  function FoundFrom<T, R>(make: seq<T> -> R, list: seq<T>, pre: Indices,
                           caps: seq<int>, remaining: int, start: nat, nb: nat): seq<R>
    requires Within(pre, 0, |list|) && |caps| == |list| && nb >= 1
  {
    SearchWithin(caps, remaining, start, nb);
    Assemble(make, list, pre, SearchLists(caps, remaining, start, nb))
  }

  lemma FoundFromEnd<T, R>(make: seq<T> -> R, list: seq<T>, pre: Indices,
                           caps: seq<int>, remaining: int, i: nat, nb: nat)
    requires Within(pre, 0, |list|) && |caps| == |list| <= i && nb >= 1
    ensures FoundFrom(make, list, pre, caps, remaining, i, nb) == []
  {
  }

  /** One turn of its loops: a part that does not fit is passed over. */
  lemma FoundFromStep<T, R>(make: seq<T> -> R, list: seq<T>, pre: Indices,
                            caps: seq<int>, remaining: int, i: nat, nb: nat)
    requires Within(pre, 0, |list|) && i < |caps| == |list| && nb >= 1
    ensures Within(pre + [i], 0, |list|)
    ensures FoundFrom(make, list, pre, caps, remaining, i, nb) ==
            (if nb == 1 then (if caps[i] != remaining then [] else [make(Pick(list, pre + [i]))])
             else if caps[i] > remaining then []
             else FoundFrom(make, list, pre + [i], caps, remaining - caps[i], i, nb - 1))
            + FoundFrom(make, list, pre, caps, remaining, i + 1, nb)
  {
    WithinJoin(pre, [i], |list|);
    SearchWithin(caps, remaining, i + 1, nb);
    BranchWithin(caps, remaining, i, nb);
    AssembleJoin(make, list, pre, SearchBranch(caps, remaining, i, nb), SearchLists(caps, remaining, i + 1, nb));
    FoundBranch(make, list, pre, caps, remaining, i, nb);
  }

  lemma FoundBranch<T, R>(make: seq<T> -> R, list: seq<T>, pre: Indices,
                          caps: seq<int>, remaining: int, i: nat, nb: nat)
    requires Within(pre, 0, |list|) && Within(pre + [i], 0, |list|) && i < |list| == |caps| && nb >= 1
    ensures AllWithin(SearchBranch(caps, remaining, i, nb), |list|)
    ensures Assemble(make, list, pre, SearchBranch(caps, remaining, i, nb)) ==
            if nb == 1 then (if caps[i] != remaining then [] else [make(Pick(list, pre + [i]))])
            else if caps[i] > remaining then []
            else FoundFrom(make, list, pre + [i], caps, remaining - caps[i], i, nb - 1)
  {
    BranchWithin(caps, remaining, i, nb);
    if nb == 1 {
      AssembleSingle(make, list, pre + [i]);
      AssemblePrepend(make, list, pre, i, [[]]);
      PrependEmpty(i);
    } else if caps[i] <= remaining {
      SearchWithin(caps, remaining - caps[i], i, nb - 1);
      AssemblePrepend(make, list, pre, i, SearchLists(caps, remaining - caps[i], i, nb - 1));
    }
  }
}
