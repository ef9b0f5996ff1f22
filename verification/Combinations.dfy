/**
 The index lists behind find_bobs_recursive and find_mems_recursive: every way of choosing
 `nb` positions, repetition allowed and order ignored, and the search that keeps those whose
 capacities add up to a target.
 */
module Combinations {
  import opened BasicCircuit
  import opened Metrics
  import opened Sorting

  type Indices = seq<nat>

  function Prepend(x: nat, ls: seq<Indices>): (r: seq<Indices>) {
    seq(|ls|, i requires 0 <= i < |ls| => [x] + ls[i])
  }

  /** All choices of `nb` positions from start..n, in the order the backtracking emits them. */
  function Lists(start: nat, n: nat, nb: nat): seq<Indices>
    decreases nb, n - start
  {
    if nb == 0 then [[]]
    else if start >= n then []
    else Prepend(start, Lists(start, n, nb - 1)) + Lists(start + 1, n, nb)
  }

  ghost predicate NonDecreasing(s: Indices) {
    forall i, j :: 0 <= i < j < |s| ==> s[i] <= s[j]
  }

  ghost predicate Within(s: Indices, start: nat, n: nat) {
    forall i :: 0 <= i < |s| ==> start <= s[i] < n
  }

  predicate LexLess(s: Indices, t: Indices) {
    s != [] && t != [] && (s[0] < t[0] || (s[0] == t[0] && LexLess(s[1..], t[1..])))
  }

  ghost predicate LexIncreasing(ls: seq<Indices>) {
    forall i, j :: 0 <= i < j < |ls| ==> LexLess(ls[i], ls[j])
  }

  // ---------- the unrestricted enumeration ----------

  lemma PrependMember(x: nat, ls: seq<Indices>, s: Indices)
    ensures s in Prepend(x, ls) <==> s != [] && s[0] == x && s[1..] in ls
  {
    if s != [] && s[0] == x && s[1..] in ls {
      var i :| 0 <= i < |ls| && ls[i] == s[1..];
      assert Prepend(x, ls)[i] == s;
    }
  }

  /** The enumeration holds exactly the non-decreasing lists of length `nb` over start..n. */
  lemma {:induction false} ListsMember(start: nat, n: nat, nb: nat, s: Indices)
    ensures s in Lists(start, n, nb) <==> |s| == nb && NonDecreasing(s) && Within(s, start, n)
    decreases nb, n - start
  {
    if nb > 0 && start < n {
      PrependMember(start, Lists(start, n, nb - 1), s);
      ListsMember(start + 1, n, nb, s);
      if s != [] {
        ListsMember(start, n, nb - 1, s[1..]);
        ConsNonDecreasing(s, start, n);
      }
    } else if nb > 0 && s != [] {
      assert !(start <= s[0] < n);
    }
  }

  lemma ConsNonDecreasing(s: Indices, start: nat, n: nat)
    requires s != [] && start < n
    ensures NonDecreasing(s) && Within(s, start, n) <==>
            || (s[0] == start && NonDecreasing(s[1..]) && Within(s[1..], start, n))
            || (NonDecreasing(s) && Within(s, start + 1, n))
  {
    if s[0] == start && NonDecreasing(s[1..]) && Within(s[1..], start, n) {
      forall i, j | 0 <= i < j < |s| ensures s[i] <= s[j] {
        assert s[j] == s[1..][j - 1];
        assert i > 0 ==> s[i] == s[1..][i - 1];
      }
      forall i | 0 <= i < |s| ensures start <= s[i] < n {
        assert i > 0 ==> s[i] == s[1..][i - 1];
      }
    }
    if NonDecreasing(s) && Within(s, start, n) && s[0] != start {
      forall i | 0 <= i < |s| ensures start + 1 <= s[i] < n {
        assert s[0] <= s[i];
      }
    }
  }

  /** It emits them in strictly increasing lexicographic order. */
  lemma {:induction false} ListsIncreasing(start: nat, n: nat, nb: nat)
    ensures LexIncreasing(Lists(start, n, nb))
    decreases nb, n - start
  {
    if nb > 0 && start < n {
      var inner, rest := Lists(start, n, nb - 1), Lists(start + 1, n, nb);
      ListsIncreasing(start, n, nb - 1);
      ListsIncreasing(start + 1, n, nb);
      forall i, j | 0 <= i < |inner| && 0 <= j < |rest|
        ensures LexLess([start] + inner[i], rest[j])
      {
        ListsMember(start + 1, n, nb, rest[j]);
        assert rest[j] in rest;
      }
      IncreasingJoin(Prepend(start, inner), rest) by {
        forall i, j | 0 <= i < j < |inner| ensures LexLess([start] + inner[i], [start] + inner[j]) {
          assert ([start] + inner[i])[1..] == inner[i] && ([start] + inner[j])[1..] == inner[j];
        }
      }
    }
  }

  lemma IncreasingJoin(a: seq<Indices>, b: seq<Indices>)
    requires LexIncreasing(a) && LexIncreasing(b)
    requires forall i, j :: 0 <= i < |a| && 0 <= j < |b| ==> LexLess(a[i], b[j])
    ensures LexIncreasing(a + b)
  {
    var c := a + b;
    forall i, j | 0 <= i < j < |c| ensures LexLess(c[i], c[j]) {
      if j < |a| {
        assert c[i] == a[i] && c[j] == a[j];
      } else if i < |a| {
        assert c[i] == a[i] && c[j] == b[j - |a|];
      } else {
        assert c[i] == b[i - |a|] && c[j] == b[j - |a|];
      }
    }
  }

  lemma {:induction false} LexLessIrreflexive(s: Indices)
    ensures !LexLess(s, s)
  {
    if s != [] {
      LexLessIrreflexive(s[1..]);
    }
  }

  /** So nothing is emitted twice. */
  lemma IncreasingHasNoDuplicates(ls: seq<Indices>)
    requires LexIncreasing(ls)
    ensures NoDuplicates(ls)
  {
    forall i, j | 0 <= i < j < |ls| ensures ls[i] != ls[j] {
      LexLessIrreflexive(ls[i]);
    }
  }

  /** The number of lists is the number of multisets: C(n - start + nb - 1, nb). */
  lemma {:induction false} ListsCount(start: nat, n: nat, nb: nat)
    requires start <= n && start + 1 <= n + nb
    ensures |Lists(start, n, nb)| == Choose(n - start + nb - 1, nb)
    decreases nb, n - start
  {
    if nb > 0 && start < n {
      ListsCount(start, n, nb - 1);
      ListsCount(start + 1, n, nb);
    } else if nb > 0 {
      ChooseEdge(nb - 1, nb);
    }
  }

  // ---------- the search with a remaining capacity ----------

  function CapacitySum(caps: seq<int>, s: Indices): int
    requires Within(s, 0, |caps|)
  {
    if s == [] then 0 else caps[s[0]] + CapacitySum(caps, s[1..])
  }

  /** What find_mems_recursive emits: branches whose capacity exceeds the remainder are cut. */
  function SearchLists(caps: seq<int>, remaining: int, start: nat, nb: nat): seq<Indices>
    requires nb >= 1
    decreases nb, |caps| - start, 1
  {
    if start >= |caps| then []
    else SearchBranch(caps, remaining, start, nb) + SearchLists(caps, remaining, start + 1, nb)
  }

  /** The lists that begin with `start`. */
  function SearchBranch(caps: seq<int>, remaining: int, start: nat, nb: nat): seq<Indices>
    requires nb >= 1 && start < |caps|
    decreases nb, |caps| - start, 0
  {
    if nb == 1 then (if caps[start] != remaining then [] else [[start]])
    else if caps[start] > remaining then []
    else Prepend(start, SearchLists(caps, remaining - caps[start], start, nb - 1))
  }

  /** The plain filter that the search has to match. */
  ghost function Matching(caps: seq<int>, target: int, ls: seq<Indices>): seq<Indices> {
    if ls == [] then []
    else (if Within(ls[0], 0, |caps|) && CapacitySum(caps, ls[0]) == target then [ls[0]] else [])
         + Matching(caps, target, ls[1..])
  }

  lemma {:induction false} MatchingJoin(caps: seq<int>, target: int, a: seq<Indices>, b: seq<Indices>)
    ensures Matching(caps, target, a + b) == Matching(caps, target, a) + Matching(caps, target, b)
  {
    if a == [] {
      assert a + b == b;
    } else {
      assert (a + b)[1..] == a[1..] + b;
      MatchingJoin(caps, target, a[1..], b);
    }
  }

  lemma {:induction false} MatchingMember(caps: seq<int>, target: int, ls: seq<Indices>, s: Indices)
    ensures s in Matching(caps, target, ls) <==>
            s in ls && Within(s, 0, |caps|) && CapacitySum(caps, s) == target
  {
    if ls != [] {
      MatchingMember(caps, target, ls[1..], s);
      assert s in ls <==> s == ls[0] || s in ls[1..];
    }
  }

  lemma {:induction false} MatchingIncreasing(caps: seq<int>, target: int, ls: seq<Indices>)
    requires LexIncreasing(ls)
    ensures LexIncreasing(Matching(caps, target, ls))
  {
    if ls != [] {
      var rest := Matching(caps, target, ls[1..]);
      MatchingIncreasing(caps, target, ls[1..]);
      forall j | 0 <= j < |rest| ensures LexLess(ls[0], rest[j]) {
        MatchingMember(caps, target, ls[1..], rest[j]);
        var k :| 0 <= k < |ls[1..]| && ls[1..][k] == rest[j];
        assert ls[k + 1] == rest[j];
      }
      IncreasingJoin([ls[0]], rest);
    }
  }

  lemma {:induction false} CapacitySumNonnegative(caps: seq<int>, s: Indices)
    requires Within(s, 0, |caps|)
    requires forall i :: 0 <= i < |caps| ==> caps[i] >= 0
    ensures CapacitySum(caps, s) >= 0
  {
    if s != [] {
      CapacitySumNonnegative(caps, s[1..]);
    }
  }

  lemma {:induction false} MatchingPrepend(caps: seq<int>, target: int, x: nat, ls: seq<Indices>)
    requires x < |caps|
    ensures Matching(caps, target, Prepend(x, ls)) == Prepend(x, Matching(caps, target - caps[x], ls))
  {
    if ls != [] {
      var s := ls[0];
      MatchingPrepend(caps, target, x, ls[1..]);
      assert Prepend(x, ls)[0] == [x] + s && Prepend(x, ls)[1..] == Prepend(x, ls[1..]);
      MatchingHead(caps, target, x, s);
    }
  }

  lemma MatchingHead(caps: seq<int>, target: int, x: nat, s: Indices)
    requires x < |caps|
    ensures Within([x] + s, 0, |caps|) <==> Within(s, 0, |caps|)
    ensures Within(s, 0, |caps|) ==>
              (CapacitySum(caps, [x] + s) == target <==> CapacitySum(caps, s) == target - caps[x])
  {
    assert ([x] + s)[1..] == s;
    if Within([x] + s, 0, |caps|) {
      forall i | 0 <= i < |s| ensures s[i] < |caps| {
        assert ([x] + s)[i + 1] == s[i];
      }
    }
  }

  lemma {:induction false} MatchingNothing(caps: seq<int>, target: int, ls: seq<Indices>)
    requires forall i :: 0 <= i < |caps| ==> caps[i] >= 0
    requires target < 0
    ensures Matching(caps, target, ls) == []
  {
    if ls != [] {
      MatchingNothing(caps, target, ls[1..]);
      if Within(ls[0], 0, |caps|) {
        CapacitySumNonnegative(caps, ls[0]);
      }
    }
  }

  /** The search with cut branches equals filtering the whole enumeration, order included. */
  lemma {:induction false} SearchIsFilter(caps: seq<int>, remaining: int, start: nat, nb: nat)
    requires nb >= 1
    requires forall i :: 0 <= i < |caps| ==> caps[i] >= 0
    ensures SearchLists(caps, remaining, start, nb) == Matching(caps, remaining, Lists(start, |caps|, nb))
    decreases nb, |caps| - start
  {
    if start < |caps| {
      var ls := Lists(start, |caps|, nb - 1);
      SearchIsFilter(caps, remaining, start + 1, nb);
      if nb > 1 && caps[start] <= remaining {
        SearchIsFilter(caps, remaining - caps[start], start, nb - 1);
      }
      BranchIsFilter(caps, remaining, start, nb, ls);
      MatchingJoin(caps, remaining, Prepend(start, ls), Lists(start + 1, |caps|, nb));
    }
  }

  /** One branch: `start` in front of the lists `ls`. If it does not fit, none of them matches. */
  lemma BranchIsFilter(caps: seq<int>, remaining: int, start: nat, nb: nat, ls: seq<Indices>)
    requires nb >= 1 && start < |caps|
    requires forall i :: 0 <= i < |caps| ==> caps[i] >= 0
    requires nb == 1 ==> ls == [[]]
    requires nb > 1 && caps[start] <= remaining ==>
               SearchLists(caps, remaining - caps[start], start, nb - 1) == Matching(caps, remaining - caps[start], ls)
    ensures SearchBranch(caps, remaining, start, nb) == Matching(caps, remaining, Prepend(start, ls))
  {
    MatchingPrepend(caps, remaining, start, ls);
    if nb == 1 {
      MatchSingle(caps, remaining, start);
    } else if caps[start] > remaining {
      MatchingNothing(caps, remaining - caps[start], ls);
    }
  }

  lemma PrependEmpty(x: nat)
    ensures Prepend(x, [[]]) == [[x]]
  {
    var ls: seq<Indices> := [[]];
    assert [x] + ls[0] == [x];
  }

  lemma MatchSingle(caps: seq<int>, remaining: int, x: nat)
    requires x < |caps|
    ensures Prepend(x, Matching(caps, remaining - caps[x], [[]])) == if caps[x] != remaining then [] else [[x]]
  {
    var ls: seq<Indices> := [[]];
    assert ls[1..] == [] && Within(ls[0], 0, |caps|);
    assert Matching(caps, remaining - caps[x], ls) == if caps[x] != remaining then [] else ls;
    PrependEmpty(x);
  }

  /** Soundness, completeness and exactly-once for find_mems_recursive. */
  lemma SearchExact(caps: seq<int>, target: int, nb: nat)
    requires nb >= 1
    requires forall i :: 0 <= i < |caps| ==> caps[i] >= 0
    ensures forall s: Indices :: s in SearchLists(caps, target, 0, nb) <==>
              |s| == nb && NonDecreasing(s) && Within(s, 0, |caps|) && CapacitySum(caps, s) == target
    ensures LexIncreasing(SearchLists(caps, target, 0, nb))
    ensures NoDuplicates(SearchLists(caps, target, 0, nb))
  {
    SearchIsFilter(caps, target, 0, nb);
    ListsIncreasing(0, |caps|, nb);
    MatchingIncreasing(caps, target, Lists(0, |caps|, nb));
    IncreasingHasNoDuplicates(SearchLists(caps, target, 0, nb));
    forall s: Indices
      ensures s in SearchLists(caps, target, 0, nb) <==>
              |s| == nb && NonDecreasing(s) && Within(s, 0, |caps|) && CapacitySum(caps, s) == target
    {
      MatchingMember(caps, target, Lists(0, |caps|, nb), s);
      ListsMember(0, |caps|, nb, s);
    }
  }
}
