/**
 Keeping one candidate per capacity, and why nothing better is lost: whatever can be assembled
 from the full list is beaten by something assembled from the survivors.
 */
module Pruning {
  import opened Metrics
  import opened Sorting
  import opened Combinations

  // ---------- prune_channels and prune_bobs ----------

  /** `last_added` after the survivors `kept`; the initial -1 matches no capacity. */
  function LastAdded<T>(f: T -> Figures, kept: seq<T>): int {
    if kept == [] then -1 else f(kept[|kept| - 1]).capacity
  }

  function Prune<T>(f: T -> Figures, s: seq<T>): seq<T> {
    if s == [] then []
    else
      var kept := Prune(f, s[..|s| - 1]);
      var x := s[|s| - 1];
      if LastAdded(f, kept) != f(x).capacity then kept + [x] else kept
  }

  ghost predicate ByCapacity<T>(f: T -> Figures, s: seq<T>) {
    && (forall i :: 0 <= i < |s| ==> f(s[i]).capacity >= 0)
    && (forall i, j :: 0 <= i < j < |s| ==> f(s[i]).capacity <= f(s[j]).capacity)
  }

  ghost predicate StrictCapacities<T>(f: T -> Figures, s: seq<T>) {
    forall i, j :: 0 <= i < j < |s| ==> f(s[i]).capacity < f(s[j]).capacity
  }

  /** On a list grouped by capacity the survivors have strictly increasing capacities. */
  lemma {:induction false} PruneStrict<T>(f: T -> Figures, s: seq<T>)
    requires ByCapacity(f, s)
    ensures StrictCapacities(f, Prune(f, s))
    ensures forall x :: x in Prune(f, s) ==> x in s
    ensures s != [] ==> LastAdded(f, Prune(f, s)) == f(s[|s| - 1]).capacity
  {
    if s != [] {
      var n := |s| - 1;
      PruneStrict(f, s[..n]);
      SurvivorsBelow(f, s, Prune(f, s[..n]));
      forall x | x in Prune(f, s) ensures x in s {
        assert x == s[n] || x in s[..n];
      }
    }
  }

  /** Survivors so far stay below the next element if its capacity is new. */
  lemma SurvivorsBelow<T>(f: T -> Figures, s: seq<T>, kept: seq<T>)
    requires ByCapacity(f, s) && s != [] && forall x :: x in kept ==> x in s[..|s| - 1]
    requires |s| > 1 ==> LastAdded(f, kept) == f(s[|s| - 2]).capacity
    ensures |s| == 1 ==> kept == []
    ensures LastAdded(f, kept) != f(s[|s| - 1]).capacity ==>
              forall i :: 0 <= i < |kept| ==> f(kept[i]).capacity < f(s[|s| - 1]).capacity
  {
    var n := |s| - 1;
    if kept != [] {
      assert kept[0] in kept;
    }
    forall i | 0 <= i < |kept| && n > 0 ensures f(kept[i]).capacity <= f(s[n - 1]).capacity {
      assert kept[i] in kept;
      var j :| 0 <= j < n && s[j] == kept[i];
    }
  }

  ghost predicate FirstOfCapacity<T>(f: T -> Figures, s: seq<T>, k: nat) {
    k < |s| && forall i :: 0 <= i < k ==> f(s[i]).capacity != f(s[k]).capacity
  }

  /** Every position has a survivor of its capacity: the first position of that capacity. */
  lemma {:induction false} PruneKeepsFirst<T>(f: T -> Figures, s: seq<T>, i: nat) returns (k: nat)
    requires ByCapacity(f, s) && i < |s|
    ensures k <= i && FirstOfCapacity(f, s, k)
    ensures f(s[k]).capacity == f(s[i]).capacity && s[k] in Prune(f, s)
  {
    var n := |s| - 1;
    if i < n || (n > 0 && f(s[n - 1]).capacity == f(s[n]).capacity) {
      k := PruneKeepsFirst(f, s[..n], if i < n then i else n - 1);
      FirstOfPrefix(f, s, k);
    } else {
      k := n;
      LastStandsAlone(f, s);
    }
  }

  lemma FirstOfPrefix<T>(f: T -> Figures, s: seq<T>, k: nat)
    requires s != [] && k < |s| - 1
    requires FirstOfCapacity(f, s[..|s| - 1], k) && s[k] in Prune(f, s[..|s| - 1])
    ensures FirstOfCapacity(f, s, k) && s[k] in Prune(f, s)
  {
    forall i | 0 <= i < k ensures f(s[i]).capacity != f(s[k]).capacity {
      assert s[..|s| - 1][i] == s[i];
    }
  }

  lemma LastStandsAlone<T>(f: T -> Figures, s: seq<T>)
    requires s != [] && ByCapacity(f, s)
    requires |s| == 1 || f(s[|s| - 2]).capacity != f(s[|s| - 1]).capacity
    ensures FirstOfCapacity(f, s, |s| - 1) && s[|s| - 1] in Prune(f, s)
  {
    var n := |s| - 1;
    forall j | 0 <= j < n ensures f(s[j]).capacity != f(s[n]).capacity {
      assert j == n - 1 || f(s[j]).capacity <= f(s[n - 1]).capacity;
    }
    LastCapacity(f, s, n);
    assert Prune(f, s) == Prune(f, s[..n]) + [s[n]];
  }

  /** `last_added` holds the capacity of the element just passed. */
  lemma LastCapacity<T>(f: T -> Figures, s: seq<T>, n: nat)
    requires ByCapacity(f, s) && n <= |s|
    ensures LastAdded(f, Prune(f, s[..n])) == if n == 0 then -1 else f(s[n - 1]).capacity
  {
    ByCapacityPrefix(f, s, n);
    PruneStrict(f, s[..n]);
  }

  lemma ByCapacityPrefix<T>(f: T -> Figures, s: seq<T>, n: nat)
    requires ByCapacity(f, s) && n <= |s|
    ensures ByCapacity(f, s[..n])
  {
  }

  ghost predicate OrderedBy<T>(o: Ranking, f: T -> Figures, s: seq<T>) {
    forall i, j :: 0 <= i < j < |s| ==> Precedes(o, f(s[i]), f(s[j]))
  }

  ghost predicate ComparedBy<T>(o: Ranking, f: T -> Figures, s: seq<T>) {
    forall i, j :: 0 <= i < j < |s| ==> Compare(o, f(s[i]), f(s[j]))
  }

  ghost predicate PairwiseSeparated<T>(f: T -> Figures, s: seq<T>) {
    forall i, j :: 0 <= i < j < |s| ==> Separated(f(s[i]), f(s[j]))
  }

  /** Where the tolerance decides nothing, sorting by the comparison as written is sorting by the exact order. */
  lemma ComparedIsOrdered<T>(o: Ranking, f: T -> Figures, s: seq<T>)
    requires PairwiseSeparated(f, s)
    ensures ComparedBy(o, f, s) <==> OrderedBy(o, f, s)
  {
    forall i, j | 0 <= i < j < |s| ensures Compare(o, f(s[i]), f(s[j])) == Precedes(o, f(s[i]), f(s[j])) {
      assert Separated(f(s[i]), f(s[j]));
      CompareIsExactIffSeparated(f(s[i]), f(s[j]));
    }
  }

  /** `r` holds the elements of `s` in an order the comparison accepts, and the tolerance decides nothing. */
  ghost predicate ComparedCopy<T>(o: Ranking, f: T -> Figures, s: seq<T>, r: seq<T>) {
    multiset(r) == multiset(s) && PairwiseSeparated(f, r) && ComparedBy(o, f, r)
  }

  /** Some element of `list` has the capacity of `y` and is at least as good. */
  ghost predicate Covered<T>(o: Ranking, f: T -> Figures, list: seq<T>, y: Figures) {
    exists x :: x in list && Beats(o, f(x), y)
  }

  /** Pruning an ordered list leaves one candidate per capacity, the best of that capacity. */
  lemma PruneKeepsBest<T>(o: Ranking, f: T -> Figures, s: seq<T>)
    requires OrderedBy(o, f, s)
    requires forall x :: x in s ==> f(x).capacity >= 0
    ensures StrictCapacities(f, Prune(f, s))
    ensures forall x :: x in Prune(f, s) ==> x in s
    ensures forall x :: x in s ==> Covered(o, f, Prune(f, s), f(x))
  {
    SortedByCapacity(o, f, s);
    PruneStrict(f, s);
    forall x | x in s ensures Covered(o, f, Prune(f, s), f(x)) {
      var i :| 0 <= i < |s| && s[i] == x;
      SurvivorBeats(o, f, s, i);
    }
  }

  lemma SurvivorBeats<T>(o: Ranking, f: T -> Figures, s: seq<T>, i: nat)
    requires OrderedBy(o, f, s) && ByCapacity(f, s) && i < |s|
    ensures Covered(o, f, Prune(f, s), f(s[i]))
  {
    var k := PruneKeepsFirst(f, s, i);
    EarlierBeats(o, f, s, k, i);
  }

  lemma EarlierBeats<T>(o: Ranking, f: T -> Figures, s: seq<T>, k: nat, i: nat)
    requires OrderedBy(o, f, s) && k <= i < |s| && f(s[k]).capacity == f(s[i]).capacity
    ensures Beats(o, f(s[k]), f(s[i]))
  {
    assert k < i ==> Precedes(o, f(s[k]), f(s[i]));
  }

  lemma SortedByCapacity<T>(o: Ranking, f: T -> Figures, s: seq<T>)
    requires OrderedBy(o, f, s)
    requires forall x :: x in s ==> f(x).capacity >= 0
    ensures ByCapacity(f, s)
  {
    forall i, j | 0 <= i < j < |s| ensures f(s[i]).capacity <= f(s[j]).capacity {
      assert Precedes(o, f(s[i]), f(s[j]));
    }
  }
}
