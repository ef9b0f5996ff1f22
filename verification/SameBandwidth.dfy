/** The partition of find_all_bobs into runs of equal bandwidth, and the BoBs drawn from the runs. */
module SameBandwidth {
  import opened BasicCircuit
  import opened Sorting
  import opened Metrics
  import opened Combinations
  import opened Assembly

  ghost predicate Ascending(bws: seq<int>) {
    forall i, j :: 0 <= i < j < |bws| ==> bws[i] <= bws[j]
  }

  /** start_index and end_index cut the list into adjacent runs, and the bandwidth changes at each cut. */
  ghost predicate Runs(bws: seq<int>, starts: seq<nat>, ends: seq<nat>) {
    && RunsSoFar(bws, starts, ends)
    && |starts| >= 1 && starts[0] == 0 && ends[|ends| - 1] + 1 == |bws|
  }

  ghost predicate RunsSoFar(bws: seq<int>, starts: seq<nat>, ends: seq<nat>) {
    && |starts| == |ends|
    && (forall j: nat {:trigger Run(bws, starts, ends, j)} :: j < |starts| ==> Run(bws, starts, ends, j))
    && (forall j: nat {:trigger Cut(bws, starts, ends, j)} :: 0 < j < |starts| ==> Cut(bws, starts, ends, j))
  }

  /** One run: a stretch of equal bandwidths. */
  ghost predicate Run(bws: seq<int>, starts: seq<nat>, ends: seq<nat>, j: nat)
    requires j < |starts| == |ends|
  {
    && starts[j] <= ends[j] < |bws|
    && forall i :: starts[j] <= i <= ends[j] ==> bws[i] == bws[starts[j]]
  }

  /** Where one run ends the next begins, with another bandwidth. */
  ghost predicate Cut(bws: seq<int>, starts: seq<nat>, ends: seq<nat>, j: nat)
    requires 0 < j < |starts| <= |ends| + 1
  {
    && ends[j - 1] + 1 == starts[j] < |bws|
    && bws[ends[j - 1]] != bws[starts[j]]
  }

  /** The loop that fills start_index and end_index. */
  method FindRuns(bws: seq<int>) returns (starts: seq<nat>, ends: seq<nat>)
    requires bws != []
    ensures Runs(bws, starts, ends)
  {
    starts, ends := [0], [];
    var lastBw := bws[0];
    for i := 0 to |bws|
      invariant |starts| == |ends| + 1 && starts[0] == 0
      invariant starts[|ends|] < |bws| && (starts[|ends|] < i || (i == 0 && starts[|ends|] == 0))
      invariant lastBw == bws[starts[|ends|]]
      invariant forall k :: starts[|ends|] <= k < i ==> bws[k] == lastBw
      invariant RunsSoFar(bws, starts[..|ends|], ends)
      invariant |ends| > 0 ==> Cut(bws, starts, ends, |ends|)
    {
      if lastBw != bws[i] {
        CloseRun(bws, starts, ends, i - 1);
        ends := ends + [i - 1];
        starts := starts + [i];
        lastBw := bws[i];
      }
    }
    CloseRun(bws, starts, ends, |bws| - 1);
    ends := ends + [|bws| - 1];
  }

  lemma CloseRun(bws: seq<int>, starts: seq<nat>, ends: seq<nat>, last: nat)
    requires |starts| == |ends| + 1 && starts[|ends|] <= last < |bws|
    requires RunsSoFar(bws, starts[..|ends|], ends)
    requires |ends| > 0 ==> Cut(bws, starts, ends, |ends|)
    requires forall k :: starts[|ends|] <= k <= last ==> bws[k] == bws[starts[|ends|]]
    ensures RunsSoFar(bws, starts, ends + [last])
  {
    var n := |ends|;
    var ends' := ends + [last];
    forall j: nat | j < n + 1 ensures Run(bws, starts, ends', j) {
      if j < n {
        assert Run(bws, starts[..n], ends, j);
      }
    }
    forall j: nat | 0 < j < n + 1 ensures Cut(bws, starts, ends', j) {
      if j < n {
        assert Cut(bws, starts[..n], ends, j);
      } else {
        assert Cut(bws, starts, ends, n);
      }
    }
  }

  lemma RunsPrefix(bws: seq<int>, starts: seq<nat>, ends: seq<nat>, n: nat)
    requires RunsSoFar(bws, starts, ends) && n <= |starts|
    ensures RunsSoFar(bws, starts[..n], ends[..n])
  {
    forall j: nat | j < n ensures Run(bws, starts[..n], ends[..n], j) {
      assert Run(bws, starts, ends, j);
    }
    forall j: nat | 0 < j < n ensures Cut(bws, starts[..n], ends[..n], j) {
      assert Cut(bws, starts, ends, j);
    }
  }

  /** On a sorted list the bandwidth rises from run to run. */
  lemma {:induction false} RunsRise(bws: seq<int>, starts: seq<nat>, ends: seq<nat>, a: nat, b: nat)
    requires RunsSoFar(bws, starts, ends) && Ascending(bws) && a < b < |starts|
    ensures ends[a] < starts[b] <= ends[b] < |bws| && bws[ends[a]] < bws[starts[b]]
    decreases b
  {
    assert Cut(bws, starts, ends, b) && Run(bws, starts, ends, b) && Run(bws, starts, ends, b - 1);
    if a < b - 1 {
      RunsRise(bws, starts, ends, a, b - 1);
    }
  }

  /** Every bandwidth lies in one run: equal bandwidths never fall into different runs. */
  lemma OneRunPerBandwidth(bws: seq<int>, starts: seq<nat>, ends: seq<nat>, a: nat, b: nat, i: nat, j: nat)
    requires RunsSoFar(bws, starts, ends) && Ascending(bws) && a < |starts| && b < |starts|
    requires starts[a] <= i <= ends[a] && starts[b] <= j <= ends[b]
    ensures i < |bws| && j < |bws|
    ensures bws[i] == bws[j] <==> a == b
  {
    assert Run(bws, starts, ends, a) && Run(bws, starts, ends, b);
    if a < b {
      RunsRise(bws, starts, ends, a, b);
    } else if b < a {
      RunsRise(bws, starts, ends, b, a);
    }
  }

  /** Every position lies in some run. */
  lemma RunOf(bws: seq<int>, starts: seq<nat>, ends: seq<nat>, i: nat) returns (j: nat)
    requires Runs(bws, starts, ends) && i < |bws|
    ensures j < |starts| && starts[j] <= i <= ends[j]
  {
    j := |starts| - 1;
    while i < starts[j]
      invariant 0 <= j < |starts| && i <= ends[j]
      decreases j
    {
      assert Cut(bws, starts, ends, j);
      j := j - 1;
    }
  }

  // ---------- the lists drawn from the runs ----------

  function Flatten<T>(parts: seq<seq<T>>): seq<T> {
    if |parts| == 0 then [] else Flatten(parts[..|parts| - 1]) + parts[|parts| - 1]
  }

  lemma {:induction false} FlattenMember<T>(parts: seq<seq<T>>, x: T)
    ensures x in Flatten(parts) <==> exists j :: 0 <= j < |parts| && x in parts[j]
  {
    if |parts| > 0 {
      var n := |parts| - 1;
      FlattenMember(parts[..n], x);
      assert forall j :: 0 <= j < n ==> parts[..n][j] == parts[j];
    }
  }

  ghost predicate InSequence(a: seq<Indices>, b: seq<Indices>) {
    forall i, j :: 0 <= i < |a| && 0 <= j < |b| ==> LexLess(a[i], b[j])
  }

  lemma {:induction false} FlattenIncreasing(parts: seq<seq<Indices>>)
    requires forall j :: 0 <= j < |parts| ==> LexIncreasing(parts[j])
    requires forall r, n :: 0 <= r < n < |parts| ==> InSequence(parts[r], parts[n])
    ensures LexIncreasing(Flatten(parts))
  {
    if |parts| > 0 {
      var n := |parts| - 1;
      var a, b := Flatten(parts[..n]), parts[n];
      FlattenIncreasing(parts[..n]);
      forall i, j | 0 <= i < |a| && 0 <= j < |b| ensures LexLess(a[i], b[j]) {
        FlattenMember(parts[..n], a[i]);
        var r :| 0 <= r < n && a[i] in parts[r];
        var l :| 0 <= l < |parts[r]| && parts[r][l] == a[i];
        assert InSequence(parts[r], parts[n]);
      }
      IncreasingJoin(a, b);
    }
  }

  /** The calls of find_bobs_recursive, one for each run. */
  function Calls(starts: seq<nat>, ends: seq<nat>, k: nat): (parts: seq<seq<Indices>>)
    requires |starts| == |ends|
    ensures |parts| == |starts|
  {
    seq(|starts|, j requires 0 <= j < |starts| => Lists(starts[j], ends[j] + 1, k))
  }

  /** Their lists, run after run. */
  function RunLists(starts: seq<nat>, ends: seq<nat>, k: nat): seq<Indices>
    requires |starts| == |ends|
  {
    Flatten(Calls(starts, ends, k))
  }

  lemma RunListsStep(starts: seq<nat>, ends: seq<nat>, k: nat, i: nat)
    requires |starts| == |ends| && i < |starts|
    ensures RunLists(starts[..i + 1], ends[..i + 1], k) ==
            RunLists(starts[..i], ends[..i], k) + Lists(starts[i], ends[i] + 1, k)
  {
    assert Calls(starts[..i + 1], ends[..i + 1], k)[..i] == Calls(starts[..i], ends[..i], k);
  }

  ghost predicate EqualBandwidth(bws: seq<int>, s: Indices) {
    && Within(s, 0, |bws|)
    && forall i, j :: 0 <= i < j < |s| ==> bws[s[i]] == bws[s[j]]
  }

  /** The runs yield exactly the choices of `k` channels of one bandwidth. */
  lemma RunListsExact(bws: seq<int>, starts: seq<nat>, ends: seq<nat>, k: nat, s: Indices)
    requires Runs(bws, starts, ends) && Ascending(bws) && k >= 1
    ensures s in RunLists(starts, ends, k) <==> |s| == k && NonDecreasing(s) && EqualBandwidth(bws, s)
  {
    if s in RunLists(starts, ends, k) {
      RunListsSound(bws, starts, ends, k, s);
    }
    if |s| == k && NonDecreasing(s) && EqualBandwidth(bws, s) {
      RunListsComplete(bws, starts, ends, k, s);
    }
  }

  lemma RunListsSound(bws: seq<int>, starts: seq<nat>, ends: seq<nat>, k: nat, s: Indices)
    requires Runs(bws, starts, ends) && s in RunLists(starts, ends, k)
    ensures |s| == k && NonDecreasing(s) && EqualBandwidth(bws, s)
  {
    var j := ChosenInRun(starts, ends, k, s);
    WithinRun(bws, starts, ends, s, j);
  }

  lemma ChosenInRun(starts: seq<nat>, ends: seq<nat>, k: nat, s: Indices) returns (j: nat)
    requires |starts| == |ends| && s in RunLists(starts, ends, k)
    ensures |s| == k && NonDecreasing(s) && j < |starts| && Within(s, starts[j], ends[j] + 1)
  {
    j := CallOf(Calls(starts, ends, k), s);
    ListsMember(starts[j], ends[j] + 1, k, s);
  }

  lemma CallOf(parts: seq<seq<Indices>>, s: Indices) returns (j: nat)
    requires s in Flatten(parts)
    ensures j < |parts| && s in parts[j]
  {
    FlattenMember(parts, s);
    j :| 0 <= j < |parts| && s in parts[j];
  }

  lemma RunListsComplete(bws: seq<int>, starts: seq<nat>, ends: seq<nat>, k: nat, s: Indices)
    requires Runs(bws, starts, ends) && Ascending(bws) && k >= 1
    requires |s| == k && NonDecreasing(s) && EqualBandwidth(bws, s)
    ensures s in RunLists(starts, ends, k)
  {
    var j := CommonRun(bws, starts, ends, s);
    MemberOfRun(starts, ends, k, s, j);
  }

  lemma MemberOfRun(starts: seq<nat>, ends: seq<nat>, k: nat, s: Indices, j: nat)
    requires |starts| == |ends| && j < |starts|
    requires |s| == k && NonDecreasing(s) && Within(s, starts[j], ends[j] + 1)
    ensures s in RunLists(starts, ends, k)
  {
    ListsMember(starts[j], ends[j] + 1, k, s);
    assert s in Calls(starts, ends, k)[j];
    FlattenMember(Calls(starts, ends, k), s);
  }

  lemma WithinRun(bws: seq<int>, starts: seq<nat>, ends: seq<nat>, s: Indices, j: nat)
    requires RunsSoFar(bws, starts, ends) && j < |starts| && Within(s, starts[j], ends[j] + 1)
    ensures EqualBandwidth(bws, s)
  {
    assert Run(bws, starts, ends, j);
    forall i | 0 <= i < |s| ensures s[i] < |bws| && bws[s[i]] == bws[starts[j]] {
      assert starts[j] <= s[i] <= ends[j];
    }
  }

  lemma CommonRun(bws: seq<int>, starts: seq<nat>, ends: seq<nat>, s: Indices) returns (j: nat)
    requires Runs(bws, starts, ends) && Ascending(bws) && s != [] && EqualBandwidth(bws, s)
    ensures j < |starts| && Within(s, starts[j], ends[j] + 1)
  {
    j := RunOf(bws, starts, ends, s[0]);
    forall i | 0 <= i < |s| ensures starts[j] <= s[i] < ends[j] + 1 {
      var b := RunOf(bws, starts, ends, s[i]);
      OneRunPerBandwidth(bws, starts, ends, j, b, s[0], s[i]);
      assert i > 0 ==> bws[s[0]] == bws[s[i]];
    }
  }

  /** They come in strictly increasing order, so no BoB is generated twice. */
  lemma RunListsIncreasing(bws: seq<int>, starts: seq<nat>, ends: seq<nat>, k: nat)
    requires RunsSoFar(bws, starts, ends) && Ascending(bws) && k >= 1
    ensures LexIncreasing(RunLists(starts, ends, k))
  {
    var parts := Calls(starts, ends, k);
    forall j | 0 <= j < |parts| ensures LexIncreasing(parts[j]) {
      ListsIncreasing(starts[j], ends[j] + 1, k);
    }
    forall r, n | 0 <= r < n < |parts| ensures InSequence(parts[r], parts[n]) {
      RunsRise(bws, starts, ends, r, n);
      ListsInSequence(starts[r], ends[r] + 1, starts[n], ends[n] + 1, k);
    }
    FlattenIncreasing(parts);
  }

  lemma ListsInSequence(lo: nat, hi: nat, lo': nat, hi': nat, k: nat)
    requires k >= 1 && hi <= lo'
    ensures InSequence(Lists(lo, hi, k), Lists(lo', hi', k))
  {
    var a, b := Lists(lo, hi, k), Lists(lo', hi', k);
    forall i, j | 0 <= i < |a| && 0 <= j < |b| ensures LexLess(a[i], b[j]) {
      FirstOfList(lo, hi, k, a[i]);
      FirstOfList(lo', hi', k, b[j]);
    }
  }

  lemma FirstOfList(start: nat, n: nat, k: nat, s: Indices)
    requires k >= 1 && s in Lists(start, n, k)
    ensures s != [] && start <= s[0] < n
  {
    ListsMember(start, n, k, s);
  }

  /** The number of k-multisets over a run. */
  function RunChoices(start: nat, end: nat, k: nat): nat
    requires start <= end && k >= 1
  {
    Choose(end + 1 - start + k - 1, k)
  }

  function Multichoose(starts: seq<nat>, ends: seq<nat>, k: nat): nat
    requires |starts| == |ends| && k >= 1
    requires forall j :: 0 <= j < |starts| ==> starts[j] <= ends[j]
  {
    if starts == [] then 0
    else
      var n := |starts| - 1;
      Multichoose(starts[..n], ends[..n], k) + RunChoices(starts[n], ends[n], k)
  }

  lemma RunCount(start: nat, end: nat, k: nat)
    requires start <= end && k >= 1
    ensures |Lists(start, end + 1, k)| == RunChoices(start, end, k)
  {
    ListsCount(start, end + 1, k);
  }

  /** Their number: a run of length L contributes C(L + k - 1, k). */
  lemma {:induction false} RunListsCount(starts: seq<nat>, ends: seq<nat>, k: nat)
    requires |starts| == |ends| && k >= 1
    requires forall j :: 0 <= j < |starts| ==> starts[j] <= ends[j]
    ensures |RunLists(starts, ends, k)| == Multichoose(starts, ends, k)
  {
    if starts != [] {
      var n := |starts| - 1;
      RunListsCount(starts[..n], ends[..n], k);
      RunCount(starts[n], ends[n], k);
      RunListsStep(starts, ends, k, n);
      assert starts[..n + 1] == starts && ends[..n + 1] == ends;
    }
  }

  lemma {:induction false} RunListsWithin(bws: seq<int>, starts: seq<nat>, ends: seq<nat>, k: nat)
    requires RunsSoFar(bws, starts, ends)
    ensures AllWithin(RunLists(starts, ends, k), |bws|)
  {
    if starts != [] {
      var n := |starts| - 1;
      RunsPrefix(bws, starts, ends, n);
      assert Run(bws, starts, ends, n);
      RunListsWithin(bws, starts[..n], ends[..n], k);
      ListsWithin(starts[n], ends[n] + 1, k);
      WithinMore(Lists(starts[n], ends[n] + 1, k), ends[n] + 1, |bws|);
      RunListsStep(starts, ends, k, n);
      assert starts[..n + 1] == starts && ends[..n + 1] == ends;
      JoinWithin(RunLists(starts[..n], ends[..n], k), Lists(starts[n], ends[n] + 1, k), |bws|);
    } else {
      forall i: nat ensures OneWithin([], i, |bws|) {
      }
    }
  }
}
