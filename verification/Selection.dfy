/**
 The loops of `Ucache.cc` and `nuca.cc` that filter lists of candidates and pick the cheapest,
 erasing elements while they iterate.
 */
module Selection {
  import opened Sorting
  import opened Arrays

  datatype Option<+T> = None | Some(value: T)

  /** The user's weights and allowed deviations. */
  datatype Criteria = Criteria(
    delayWt: real, dynamicWt: real, leakageWt: real, cycleWt: real, areaWt: real,
    delayDev: real, dynamicDev: real, leakageDev: real, cycleDev: real, areaDev: real)

  /** check_uca_org, check_mem_org and check_nuca_org. */
  predicate Check(cr: Criteria, min: Pda, x: Pda)
    requires Positive(min)
  {
    if (x.delay - min.delay) * 100.0 / min.delay > cr.delayDev then false
    else if (x.dynamic - min.dynamic) / min.dynamic * 100.0 > cr.dynamicDev then false
    else if (x.leakage - min.leakage) / min.leakage * 100.0 > cr.leakageDev then false
    else if (x.cycle - min.cycle) / min.cycle * 100.0 > cr.cycleDev then false
    else if (x.area - min.area) / min.area * 100.0 > cr.areaDev then false
    else true
  }

  function WeightedCost(cr: Criteria, min: Pda, x: Pda): real
    requires Positive(min)
  {
    cr.delayWt * (x.delay / min.delay) + cr.cycleWt * (x.cycle / min.cycle) + cr.dynamicWt * (x.dynamic / min.dynamic)
    + cr.leakageWt * (x.leakage / min.leakage) + cr.areaWt * (x.area / min.area)
  }

  /** The energy-delay product of mode 1, and energy-delay-squared of mode 2. */
  function ProductCost(ed: int, min: Pda, x: Pda): real
    requires Positive(min)
  {
    if ed == 1 then (x.delay / min.delay) * (x.dynamic / min.dynamic)
    else (x.delay / min.delay) * (x.delay / min.delay) * (x.dynamic / min.dynamic)
  }

  /** A candidate that fails the check never undercuts the initial minimum. */
  function Effective<T>(ok: T -> bool, cost: T -> real): T -> real {
    x => if ok(x) then cost(x) else BIGNUM
  }

  // ---------- the first minimum ----------

  ghost predicate IsFirstBest<T>(s: seq<T>, eff: T -> real, k: nat) {
    && k < |s| && eff(s[k]) < BIGNUM
    && (forall j :: 0 <= j < |s| ==> eff(s[k]) <= eff(s[j]))
    && (forall j :: 0 <= j < k ==> eff(s[k]) < eff(s[j]))
  }

  /** `r` is the first of the cheapest elements; nothing is found if all cost BIGNUM or more. */
  ghost predicate FirstBest<T>(s: seq<T>, eff: T -> real, r: Option<T>) {
    match r
    case None => forall j :: 0 <= j < |s| ==> eff(s[j]) >= BIGNUM
    case Some(x) => exists k: nat :: IsFirstBest(s, eff, k) && s[k] == x
  }

  /** The running `min_cost`. */
  function MinCost<T>(eff: T -> real, r: Option<T>): real {
    match r
    case None => BIGNUM
    case Some(x) => eff(x)
  }

  /** The running result. */
  function Best<T>(eff: T -> real, s: seq<T>): Option<T> {
    if s == [] then None
    else
      var r := Best(eff, s[..|s| - 1]);
      if MinCost(eff, r) > eff(s[|s| - 1]) then Some(s[|s| - 1]) else r
  }

  /** The state of a scan that has looked at `s`. */
  ghost predicate BestSoFar<T>(eff: T -> real, s: seq<T>, res: Option<T>, minCost: real) {
    res == Best(eff, s) && minCost == MinCost(eff, res) <= BIGNUM
  }

  lemma BestStep<T>(eff: T -> real, s: seq<T>, x: T)
    ensures Best(eff, s + [x]) == if MinCost(eff, Best(eff, s)) > eff(x) then Some(x) else Best(eff, s)
  {
    assert (s + [x])[..|s|] == s;
  }

  /** Keeping a candidate only when it is strictly cheaper finds the first of the cheapest. */
  lemma {:induction false} BestIsFirstBest<T>(eff: T -> real, s: seq<T>)
    ensures FirstBest(s, eff, Best(eff, s))
    ensures MinCost(eff, Best(eff, s)) <= BIGNUM
  {
    if s != [] {
      var n := |s| - 1;
      BestIsFirstBest(eff, s[..n]);
      FirstBestStep(eff, s[..n], s[n], Best(eff, s[..n]));
      assert s == s[..n] + [s[n]];
    }
  }

  /** One more candidate, which wins only if it is strictly cheaper. */
  lemma FirstBestStep<T>(eff: T -> real, s: seq<T>, x: T, r: Option<T>)
    requires FirstBest(s, eff, r) && MinCost(eff, r) <= BIGNUM
    ensures FirstBest(s + [x], eff, if MinCost(eff, r) > eff(x) then Some(x) else r)
  {
    if MinCost(eff, r) > eff(x) {
      assert IsFirstBest(s + [x], eff, |s|);
    } else if r.Some? {
      var k: nat :| IsFirstBest(s, eff, k) && s[k] == r.value;
      assert IsFirstBest(s + [x], eff, k);
    }
  }

  // ---------- the weighted scan of find_optimal_uca ----------

  /** The head is erased when it fails the check and when it becomes the first minimum. */
  predicate UcaDropsHead<T>(ok: T -> bool, cost: T -> real, s: seq<T>) {
    s != [] && (!ok(s[0]) || cost(s[0]) < BIGNUM)
  }

  predicate NucaDropsHead<T>(ok: T -> bool, s: seq<T>) {
    s != [] && !ok(s[0])
  }

  /** The candidates looked at: stepping past an erased head passes over the second element. */
  function Visits<T>(s: seq<T>, dropsHead: bool): seq<T> {
    if dropsHead && |s| >= 2 then [s[0]] + s[2..] else s
  }

  /** What the scan of find_optimal_uca leaves of the elements it looks at: neither rejected nor a new minimum. */
  function UcaLeaves<T>(ok: T -> bool, cost: T -> real, s: seq<T>): seq<T> {
    if s == [] then []
    else
      var n := |s| - 1;
      UcaLeaves(ok, cost, s[..n])
      + if ok(s[n]) && MinCost(Effective(ok, cost), Best(Effective(ok, cost), s[..n])) <= cost(s[n]) then [s[n]] else []
  }

  function Filter<T>(keep: T -> bool, s: seq<T>): seq<T> {
    if s == [] then []
    else Filter(keep, s[..|s| - 1]) + if keep(s[|s| - 1]) then [s[|s| - 1]] else []
  }

  function Erase<T>(s: seq<T>, i: nat): (r: seq<T>)
    requires i < |s|
  {
    s[..i] + s[i + 1..]
  }

  /** A `std::list` of candidates. */
  class CandidateList<T> {
    var items: seq<T>

    constructor (s: seq<T>)
      ensures items == s
    {
      items := s;
    }

    /** The scan for `ed` 1 and 2. */
    method ScanProduct(cost: T -> real) returns (res: Option<T>)
      ensures FirstBest(items, cost, res)
    {
      res := None;
      var minCost := BIGNUM;
      for i := 0 to |items|
        invariant res == Best(cost, items[..i]) && minCost == MinCost(cost, res)
      {
        BestStep(cost, items[..i], items[i]);
        assert items[..i + 1] == items[..i] + [items[i]];
        if minCost > cost(items[i]) {
          minCost := cost(items[i]);
          res := Some(items[i]);
        }
      }
      assert items[..|items|] == items;
      BestIsFirstBest(cost, items);
    }

    /**
     The weighted scan of find_optimal_uca. Erasing steps back, except at the head of the list;
     incrementing the end iterator of an emptied list is taken to end the loop.
     */
    method ScanUca(ok: T -> bool, cost: T -> real) returns (res: Option<T>, ghost trail: seq<T>)
      modifies this
      ensures trail == Visits(old(items), UcaDropsHead(ok, cost, old(items)))
      ensures FirstBest(trail, Effective(ok, cost), res)
      ensures items == Passed(old(items), UcaDropsHead(ok, cost, old(items))) + UcaLeaves(ok, cost, trail)
    {
      ghost var all := items;
      ghost var eff := Effective(ok, cost);
      ghost var j := 0;
      ghost var drops := false;
      res, trail := None, [];
      var minCost := BIGNUM;
      var i := 0;
      while i < |items|
        invariant Scanning(all, drops, items, i, j, trail, UcaLeaves(ok, cost, trail))
        invariant j > 0 ==> drops == UcaDropsHead(ok, cost, all)
        invariant BestSoFar(eff, trail, res, minCost)
        decreases |all| - j
      {
        var x := items[i];
        UcaLeavesStep(ok, cost, trail, x);
        var erased;
        minCost, res, erased := JudgeUca(ok, cost, x, minCost, res, trail);
        ScanStep(all, drops, items, i, j, trail, erased, UcaLeaves(ok, cost, trail));
        trail := trail + [x];
        j := if i == 0 && erased then 2 else j + 1;
        drops := drops || (i == 0 && erased);
        if erased {
          items := Erase(items, i);
          if i != 0 {
            i := i - 1;
          }
        }
        i := i + 1;
      }
      ScanEnds(all, drops, items, i, j, trail, UcaLeaves(ok, cost, trail));
      BestIsFirstBest(eff, trail);
    }

    /** One candidate of find_optimal_uca: a rejected one and a new minimum are both erased. */
    method JudgeUca(ok: T -> bool, cost: T -> real, x: T, minCost: real, res: Option<T>, ghost trail: seq<T>)
      returns (minCost': real, res': Option<T>, erased: bool)
      requires BestSoFar(Effective(ok, cost), trail, res, minCost)
      ensures BestSoFar(Effective(ok, cost), trail + [x], res', minCost')
      ensures erased <==> !(ok(x) && minCost <= cost(x))
    {
      BestStep(Effective(ok, cost), trail, x);
      minCost', res', erased := minCost, res, true;
      if ok(x) {
        if minCost > cost(x) {
          minCost' := cost(x);
          res' := Some(x);
        } else {
          erased := false;
        }
      }
    }

    /** One candidate of find_optimal_nuca: only a rejected one is erased. */
    method JudgeNuca(ok: T -> bool, cost: T -> real, x: T, minCost: real, res: Option<T>, ghost trail: seq<T>)
      returns (minCost': real, res': Option<T>, erased: bool)
      requires BestSoFar(Effective(ok, cost), trail, res, minCost)
      ensures BestSoFar(Effective(ok, cost), trail + [x], res', minCost')
      ensures erased <==> !ok(x)
    {
      BestStep(Effective(ok, cost), trail, x);
      minCost', res', erased := minCost, res, !ok(x);
      if ok(x) {
        if minCost > cost(x) {
          minCost' := cost(x);
          res' := Some(x);
        }
      }
    }

    /** The weighted scan of find_optimal_nuca: only rejected candidates are erased. */
    method ScanNuca(ok: T -> bool, cost: T -> real) returns (res: Option<T>, ghost trail: seq<T>)
      modifies this
      ensures trail == Visits(old(items), NucaDropsHead(ok, old(items)))
      ensures FirstBest(trail, Effective(ok, cost), res)
      ensures items == Passed(old(items), NucaDropsHead(ok, old(items))) + Filter(ok, trail)
    {
      ghost var all := items;
      ghost var eff := Effective(ok, cost);
      ghost var j := 0;
      ghost var drops := false;
      res, trail := None, [];
      var minCost := BIGNUM;
      var i := 0;
      while i < |items|
        invariant Scanning(all, drops, items, i, j, trail, Filter(ok, trail))
        invariant j > 0 ==> drops == NucaDropsHead(ok, all)
        invariant BestSoFar(eff, trail, res, minCost)
        decreases |all| - j
      {
        var x := items[i];
        FilterStep(ok, trail, x);
        var erased;
        minCost, res, erased := JudgeNuca(ok, cost, x, minCost, res, trail);
        ScanStep(all, drops, items, i, j, trail, erased, Filter(ok, trail));
        trail := trail + [x];
        j := if i == 0 && erased then 2 else j + 1;
        drops := drops || (i == 0 && erased);
        if erased {
          items := Erase(items, i);
          if i != 0 {
            i := i - 1;
          }
        }
        i := i + 1;
      }
      ScanEnds(all, drops, items, i, j, trail, Filter(ok, trail));
      BestIsFirstBest(eff, trail);
    }

    /**
     filter_tag_arr: candidates are taken off the back; each is either deleted at once, or held
     until a cheaper one replaces it. False stands for the error exit.
     */
    method FilterTag(ok: T -> bool, cost: T -> real) returns (found: bool, ghost deleted: seq<T>)
      modifies this
      ensures found ==> |items| == 1 && LastBest(old(items), Effective(ok, cost), Some(items[0]))
      ensures !found ==> items == [] && LastBest(old(items), Effective(ok, cost), None)
      ensures multiset(deleted) + multiset(items) == multiset(old(items))
    {
      ghost var all := items;
      ghost var eff := Effective(ok, cost);
      var res: Option<T> := None;
      var least := BIGNUM;
      deleted := [];
      while items != []
        invariant items == all[..|items|]
        invariant res == BestFromBack(eff, all[|items|..]) && least == MinCost(eff, res)
        invariant multiset(deleted) + multiset(Held(res)) == multiset(all[|items|..])
        decreases |items|
      {
        var n := |items| - 1;
        var x := items[n];
        var c := if ok(x) then cost(x) else BIGNUM;
        TakeBack(all, n);
        DeleteOne(deleted, res, x, all[n + 1..]);
        if c < least {
          deleted := deleted + Held(res);
          least, res := c, Some(x);
        } else {
          deleted := deleted + [x];
        }
        items := items[..n];
      }
      assert all[0..] == all;
      BestFromBackIsLastBest(eff, all);
      found := res.Some?;
      items := Held(res);
    }

    /** filter_data_arr: the same erase-and-step-back idiom, but always stepping back. */
    method FilterData(keep: T -> bool)
      modifies this
      ensures items == Filter(keep, old(items))
    {
      ghost var all := items;
      ghost var j := 0;
      var i: int := 0;
      while i < |items|
        invariant 0 <= i <= |items| && j <= |all|
        invariant items[..i] == Filter(keep, all[..j]) && items[i..] == all[j..]
        decreases |all| - j
      {
        assert items[i] == all[j] && items[i + 1..] == all[j + 1..];
        assert all[..j + 1][..j] == all[..j];
        if !keep(items[i]) {
          items := Erase(items, i);
          i := i - 1;
        }
        i := i + 1;
        j := j + 1;
      }
      assert all[..j] == all && items[..i] == items;
    }
  }

  lemma TakeBack<T>(s: seq<T>, n: nat)
    requires n < |s|
    ensures s[n..] == [s[n]] + s[n + 1..] && s[n..][1..] == s[n + 1..]
    ensures s[..n + 1][..n] == s[..n]
  {
  }

  lemma DeleteOne<T>(deleted: seq<T>, res: Option<T>, x: T, rest: seq<T>)
    requires multiset(deleted) + multiset(Held(res)) == multiset(rest)
    ensures multiset(deleted + Held(res)) + multiset(Held(Some(x))) == multiset([x] + rest)
    ensures multiset(deleted + [x]) + multiset(Held(res)) == multiset([x] + rest)
  {
  }

  function Held<T>(r: Option<T>): seq<T> {
    match r
    case None => []
    case Some(x) => [x]
  }

  lemma FilterStep<T>(keep: T -> bool, s: seq<T>, x: T)
    ensures Filter(keep, s + [x]) == Filter(keep, s) + if keep(x) then [x] else []
  {
    assert (s + [x])[..|s|] == s;
  }

  lemma UcaLeavesStep<T>(ok: T -> bool, cost: T -> real, s: seq<T>, x: T)
    ensures UcaLeaves(ok, cost, s + [x]) ==
            UcaLeaves(ok, cost, s)
            + if ok(x) && MinCost(Effective(ok, cost), Best(Effective(ok, cost), s)) <= cost(x) then [x] else []
  {
    assert (s + [x])[..|s|] == s;
  }

  /** The element an erased head hides. */
  function Passed<T>(s: seq<T>, drops: bool): seq<T> {
    if drops && |s| >= 2 then [s[1]] else []
  }

  ghost predicate ScanState<T>(all: seq<T>, drops: bool, items: seq<T>, i: nat, j: nat, trail: seq<T>) {
    && (drops ==> i >= 1 && j >= 2)
    && (i > |items| ==> drops && |all| == 1 && items == [] && trail == all)
    && (i <= |items| ==> j <= |all| && items[i..] == all[j..] && trail == Visits(all[..j], drops))
  }

  lemma ScanAdvance<T>(all: seq<T>, drops: bool, items: seq<T>, i: nat, j: nat, trail: seq<T>, erased: bool)
    requires ScanState(all, drops, items, i, j, trail) && i < |items| && (j == 0 <==> i == 0) && (i == 0 ==> !drops)
    ensures var items' := if erased then Erase(items, i) else items;
            var i' := if erased && i != 0 then i else i + 1;
            var j' := if i == 0 && erased then 2 else j + 1;
            ScanState(all, drops || (i == 0 && erased), items', i', j', trail + [items[i]])
  {
    assert items[i] == all[j] && items[i + 1..] == all[j + 1..];
  }

  ghost predicate Scanning<T>(all: seq<T>, drops: bool, items: seq<T>, i: nat, j: nat, trail: seq<T>, left: seq<T>) {
    && (j == 0 <==> i == 0) && (j == 0 ==> !drops)
    && ScanState(all, drops, items, i, j, trail)
    && PrefixLeft(all, drops, items, i, left)
  }

  /** One turn of either scan. */
  lemma ScanStep<T>(all: seq<T>, drops: bool, items: seq<T>, i: nat, j: nat, trail: seq<T>, erased: bool, left: seq<T>)
    requires Scanning(all, drops, items, i, j, trail, left) && i < |items|
    ensures Scanning(all, drops || (i == 0 && erased), if erased then Erase(items, i) else items,
                     if erased && i != 0 then i else i + 1, if i == 0 && erased then 2 else j + 1,
                     trail + [items[i]], if erased then left else left + [items[i]])
    ensures j < |all| && items[i] == all[j]
  {
    ScanAdvance(all, drops, items, i, j, trail, erased);
    PrefixAdvance(all, drops, items, i, j, trail, erased, left);
  }

  /** What lies before the iterator: the hidden element, if any, and what the scan left. */
  ghost predicate PrefixLeft<T>(all: seq<T>, drops: bool, items: seq<T>, i: nat, left: seq<T>) {
    if i <= |items| then items[..i] == Passed(all, drops) + left else left == []
  }

  lemma PrefixAdvance<T>(all: seq<T>, drops: bool, items: seq<T>, i: nat, j: nat, trail: seq<T>, erased: bool,
                         left: seq<T>)
    requires ScanState(all, drops, items, i, j, trail) && i < |items| && (j == 0 <==> i == 0) && (i == 0 ==> !drops)
    requires PrefixLeft(all, drops, items, i, left)
    ensures var items' := if erased then Erase(items, i) else items;
            var i' := if erased && i != 0 then i else i + 1;
            PrefixLeft(all, drops || (i == 0 && erased), items', i', if erased then left else left + [items[i]])
  {
    if i == 0 {
      assert left == [];
      if erased && |all| >= 2 {
        assert Erase(items, 0) == all[1..];
      }
    } else if erased {
      assert Erase(items, i)[..i] == items[..i];
    } else {
      assert items[..i + 1] == items[..i] + [items[i]];
    }
  }

  lemma ScanEnds<T>(all: seq<T>, drops: bool, items: seq<T>, i: nat, j: nat, trail: seq<T>, left: seq<T>)
    requires ScanState(all, drops, items, i, j, trail) && i >= |items| && PrefixLeft(all, drops, items, i, left)
    requires (j == 0 ==> i == 0 && !drops)
    ensures trail == Visits(all, drops) && items == Passed(all, drops) + left
  {
    if i == |items| {
      assert all[j..] == [] && all[..j] == all && items[..i] == items;
    }
  }

  // ---------- what the scans amount to ----------

  lemma {:induction false} FilterMember<T>(keep: T -> bool, s: seq<T>, x: T)
    ensures x in Filter(keep, s) <==> x in s && keep(x)
  {
    if s != [] {
      var n := |s| - 1;
      FilterMember(keep, s[..n], x);
      assert s == s[..n] + [s[n]];
    }
  }

  /** `r` is a cheapest element of the list, if any costs less than BIGNUM. */
  ghost predicate Cheapest<T>(s: seq<T>, eff: T -> real, r: Option<T>) {
    match r
    case None => forall x :: x in s ==> eff(x) >= BIGNUM
    case Some(y) => y in s && eff(y) < BIGNUM && forall x :: x in s ==> eff(y) <= eff(x)
  }

  lemma FirstBestIsCheapest<T>(s: seq<T>, eff: T -> real, r: Option<T>)
    requires FirstBest(s, eff, r)
    ensures Cheapest(s, eff, r)
  {
    match r
    case None =>
    case Some(y) =>
      var k: nat :| IsFirstBest(s, eff, k) && s[k] == y;
  }

  lemma FirstBestUnique<T>(s: seq<T>, eff: T -> real, r: Option<T>, r': Option<T>)
    requires FirstBest(s, eff, r) && FirstBest(s, eff, r')
    ensures r == r'
  {
    if r.Some? && r'.Some? {
      var k: nat :| IsFirstBest(s, eff, k) && s[k] == r.value;
      var l: nat :| IsFirstBest(s, eff, l) && s[l] == r'.value;
      assert k == l;
    }
  }

  /** The second candidate is strictly the cheapest of all. */
  ghost predicate SecondIsBest<T>(s: seq<T>, eff: T -> real) {
    |s| >= 2 && eff(s[1]) < BIGNUM && forall j :: 0 <= j < |s| && j != 1 ==> eff(s[1]) < eff(s[j])
  }

  /**
   The scans find a cheapest candidate of the whole list, except that the second candidate is
   overlooked when the head is erased; that matters just when it is strictly the cheapest.
   */
  lemma ScanIsCheapestUnlessSecond<T>(s: seq<T>, eff: T -> real, dropsHead: bool, r: Option<T>)
    requires FirstBest(Visits(s, dropsHead), eff, r)
    ensures Cheapest(s, eff, r) <==> !(dropsHead && SecondIsBest(s, eff))
    ensures !dropsHead ==> FirstBest(s, eff, r)
  {
    var v := Visits(s, dropsHead);
    FirstBestIsCheapest(v, eff, r);
    if dropsHead && |s| >= 2 {
      VisitsMember(s, eff);
      assert s[1] in s;
      forall j | 0 <= j < |s| && j != 1 ensures s[j] in v {
        assert s[j] == if j == 0 then v[0] else v[j - 1];
      }
      if SecondIsBest(s, eff) {
        OverlookedSecond(s, eff, r);
      } else {
        SecondIsNoBetter(s, eff, r);
      }
    }
  }

  lemma VisitsMember<T>(s: seq<T>, eff: T -> real)
    requires |s| >= 2
    ensures forall x :: x in Visits(s, true) <==> x == s[0] || x in s[2..]
    ensures forall x :: x in s <==> x in Visits(s, true) || x == s[1]
  {
    assert s == [s[0]] + [s[1]] + s[2..];
  }

  lemma OverlookedSecond<T>(s: seq<T>, eff: T -> real, r: Option<T>)
    requires |s| >= 2 && Cheapest(Visits(s, true), eff, r) && SecondIsBest(s, eff)
    ensures !Cheapest(s, eff, r)
  {
    assert s[1] in s;
    if r.Some? {
      var v := Visits(s, true);
      var k :| 0 <= k < |v| && v[k] == r.value;
      assert v[k] == if k == 0 then s[0] else s[k + 1];
    }
  }

  lemma SecondIsNoBetter<T>(s: seq<T>, eff: T -> real, r: Option<T>)
    requires |s| >= 2 && Cheapest(Visits(s, true), eff, r) && !SecondIsBest(s, eff)
    ensures Cheapest(s, eff, r)
  {
    VisitsMember(s, eff);
    if eff(s[1]) < BIGNUM {
      var j :| 0 <= j < |s| && j != 1 && eff(s[j]) <= eff(s[1]);
      assert s[j] in Visits(s, true) by {
        assert s[j] == if j == 0 then Visits(s, true)[0] else Visits(s, true)[j - 1];
      }
    }
  }

  // ---------- filter_tag_arr ----------

  ghost predicate IsLastBest<T>(s: seq<T>, eff: T -> real, k: nat) {
    && k < |s| && eff(s[k]) < BIGNUM
    && (forall j :: 0 <= j < |s| ==> eff(s[k]) <= eff(s[j]))
    && (forall j :: k < j < |s| ==> eff(s[k]) < eff(s[j]))
  }

  /** `r` is the last of the cheapest elements. */
  ghost predicate LastBest<T>(s: seq<T>, eff: T -> real, r: Option<T>) {
    match r
    case None => forall j :: 0 <= j < |s| ==> eff(s[j]) >= BIGNUM
    case Some(x) => exists k: nat :: IsLastBest(s, eff, k) && s[k] == x
  }

  lemma LastBestUnique<T>(s: seq<T>, eff: T -> real, r: Option<T>, r': Option<T>)
    requires LastBest(s, eff, r) && LastBest(s, eff, r')
    ensures r == r'
  {
    if r.Some? && r'.Some? {
      var k: nat :| IsLastBest(s, eff, k) && s[k] == r.value;
      var l: nat :| IsLastBest(s, eff, l) && s[l] == r'.value;
      assert k == l;
    }
  }

  /** The running result when the elements are taken off the back. */
  function BestFromBack<T>(eff: T -> real, s: seq<T>): Option<T> {
    if s == [] then None
    else
      var r := BestFromBack(eff, s[1..]);
      if eff(s[0]) < MinCost(eff, r) then Some(s[0]) else r
  }

  /** The tag array that remains is the cheapest, and of several cheapest the one nearest the back. */
  lemma {:induction false} BestFromBackIsLastBest<T>(eff: T -> real, s: seq<T>)
    ensures LastBest(s, eff, BestFromBack(eff, s))
    ensures MinCost(eff, BestFromBack(eff, s)) <= BIGNUM
  {
    if s != [] {
      BestFromBackIsLastBest(eff, s[1..]);
      match BestFromBack(eff, s[1..])
      case None =>
        assert forall j :: 0 < j < |s| ==> eff(s[1..][j - 1]) == eff(s[j]);
        if eff(s[0]) < BIGNUM {
          assert IsLastBest(s, eff, 0);
        }
      case Some(y) =>
        var k: nat :| IsLastBest(s[1..], eff, k) && s[1..][k] == y;
        assert forall j :: 0 < j < |s| ==> eff(s[1..][j - 1]) == eff(s[j]);
        assert IsLastBest(s, eff, if eff(s[0]) < eff(y) then 0 else k + 1);
    }
  }
}
