/** The merged list of solve(): what it holds, and why the number of threads does not change it. */
module ThreadOrder {
  import opened BasicCircuit
  import opened Sorting
  import opened Arrays
  import opened SweepOrder
  import opened Sweep
  import opened Selection

  /** The order in which `n` threads, one after the other, deliver positions. */
  ghost predicate ByThread(n: nat, all: seq<Pos>)
    requires n > 0
  {
    forall i, j :: 0 <= i < j < |all| ==> Earlier(n, all[i], all[j])
  }

  predicate Earlier(n: nat, p: Pos, q: Pos)
    requires n > 0
  {
    p.iter % n < q.iter % n || (p.iter % n == q.iter % n && Before(p, q))
  }

  lemma ByThreadJoins(sp: Space, n: nat, t: nat, all: seq<Pos>, seen: seq<Pos>)
    requires WellFormed(sp) && t < n && CompleteUpTo(sp, n, t, all) && Share(sp, n, t, seen) && ByThread(n, all)
    ensures ByThread(n, all + seen)
  {
    var s := all + seen;
    forall i, j | 0 <= i < j < |s| ensures Earlier(n, s[i], s[j]) {
      if i < |all| {
        assert s[i] in all;
      }
      if j >= |all| {
        assert s[j] in seen;
      }
      if i >= |all| {
        assert s[i] in seen && Before(seen[i - |all|], seen[j - |all|]);
      }
    }
  }

  /** `arrays` is what `n` threads leave in the merged list: the stable sort of what they deliver in turn. */
  ghost predicate Merged(sp: Space, n: nat, arrays: seq<MemArray>)
    requires WellFormed(sp) && n > 0
  {
    exists all, order :: MergedFrom(sp, n, all, order, arrays)
  }

  ghost predicate MergedFrom(sp: Space, n: nat, all: seq<Pos>, order: seq<nat>, arrays: seq<MemArray>)
    requires WellFormed(sp) && n > 0
  {
    && Complete(sp, all) && ByThread(n, all)
    && StableOrder(NotAfter(), Recorded(sp, all), order)
    && arrays == Picked(Recorded(sp, all), order)
  }

  /** On any number of threads the merged list holds the array of every valid position, each as often, in order. */
  lemma MergedIsSorted(sp: Space, n: nat, arrays: seq<MemArray>, all: seq<Pos>)
    requires WellFormed(sp) && n > 0 && Merged(sp, n, arrays) && Complete(sp, all)
    ensures SortedCopy(NotAfter(), Recorded(sp, all), arrays)
  {
    NotAfterIsTotalPreorder();
    var mine, order :| MergedFrom(sp, n, mine, order, arrays);
    StableOrderIsPermutation(NotAfter(), Recorded(sp, mine), order);
    SweepsAgree(sp, mine, all);
    MapPermutation(Recorder(sp), mine, all);
  }

  lemma MergedMember(sp: Space, n: nat, arrays: seq<MemArray>, m: MemArray) returns (pos: Pos)
    requires WellFormed(sp) && n > 0 && Merged(sp, n, arrays) && m in arrays
    ensures InRange(sp, pos) && IsValid(sp, pos) && m == ArrayAt(sp, pos)
  {
    var all, order :| MergedFrom(sp, n, all, order, arrays);
    var i :| 0 <= i < |arrays| && arrays[i] == m;
    pos := all[order[i]];
    assert pos in all;
  }

  /** Arrays that lt does not separate are equal unless one thread finds both. */
  ghost predicate TiesAgree(sp: Space)
    requires WellFormed(sp)
  {
    forall p, q :: Tied(sp, p, q) && p.iter != q.iter ==> ArrayAt(sp, p) == ArrayAt(sp, q)
  }

  ghost predicate Tied(sp: Space, p: Pos, q: Pos)
    requires WellFormed(sp)
  {
    && InRange(sp, p) && IsValid(sp, p) && InRange(sp, q) && IsValid(sp, q)
    && SamePartition(ArrayAt(sp, p), ArrayAt(sp, q))
  }

  /** Then the merged list is the same, element for element, for any two numbers of threads. */
  lemma MergedAgree(sp: Space, n: nat, n': nat, arrays: seq<MemArray>, arrays': seq<MemArray>)
    requires WellFormed(sp) && n > 0 && n' > 0 && TiesAgree(sp)
    requires Merged(sp, n, arrays) && Merged(sp, n', arrays')
    ensures arrays == arrays'
  {
    var all, order :| MergedFrom(sp, n, all, order, arrays);
    var all', order' :| MergedFrom(sp, n', all', order', arrays');
    var s, t := Picked(all, order), Picked(all', order');
    PickedMembers(sp, all, order);
    PickedMembers(sp, all', order');
    assert Map(Recorder(sp), s) == arrays && Map(Recorder(sp), t) == arrays';
    forall p, q | Comes(s, p, q) && Comes(t, q, p) ensures Recorder(sp)(p) == Recorder(sp)(q) {
      SwappedPair(sp, n, all, order, n', all', order', p, q);
    }
    SameLabels(Recorder(sp), s, t);
  }

  lemma SwappedPair(sp: Space, n: nat, all: seq<Pos>, order: seq<nat>,
                    n': nat, all': seq<Pos>, order': seq<nat>, p: Pos, q: Pos)
    requires WellFormed(sp) && n > 0 && n' > 0 && TiesAgree(sp)
    requires Complete(sp, all) && ByThread(n, all) && StableOrder(NotAfter(), Recorded(sp, all), order)
    requires Complete(sp, all') && ByThread(n', all') && StableOrder(NotAfter(), Recorded(sp, all'), order')
    requires Comes(Picked(all, order), p, q) && Comes(Picked(all', order'), q, p)
    ensures Recorder(sp)(p) == Recorder(sp)(q)
  {
    SortedPair(sp, n, all, order, p, q);
    SortedPair(sp, n', all', order', q, p);
    assert Tied(sp, p, q);
  }

  lemma PickedMembers(sp: Space, all: seq<Pos>, order: seq<nat>)
    requires WellFormed(sp) && Complete(sp, all) && StableOrder(NotAfter(), Recorded(sp, all), order)
    ensures NoDuplicates(Picked(all, order))
    ensures forall pos :: pos in Picked(all, order) <==> InRange(sp, pos) && IsValid(sp, pos)
  {
    NotAfterIsTotalPreorder();
    StableOrderIsPermutation(NotAfter(), Recorded(sp, all), order);
    forall pos ensures pos in Picked(all, order) <==> pos in all {
      if pos in all {
        var k: nat :| k < |all| && all[k] == pos;
        assert k in order;
        var i :| 0 <= i < |order| && order[i] == k;
        assert Picked(all, order)[i] == pos;
      }
    }
  }

  /** Why one position stands before another in the sorted list. */
  lemma SortedPair(sp: Space, n: nat, all: seq<Pos>, order: seq<nat>, p: Pos, q: Pos)
    requires WellFormed(sp) && n > 0 && Complete(sp, all) && ByThread(n, all)
    requires StableOrder(NotAfter(), Recorded(sp, all), order) && Comes(Picked(all, order), p, q)
    ensures InRange(sp, p) && IsValid(sp, p) && InRange(sp, q) && IsValid(sp, q)
    ensures !Lt(ArrayAt(sp, q), ArrayAt(sp, p))
    ensures SamePartition(ArrayAt(sp, p), ArrayAt(sp, q)) ==> Earlier(n, p, q)
  {
    var s := Picked(all, order);
    var i, j :| 0 <= i < j < |s| && s[i] == p && s[j] == q;
    assert StablyBefore(NotAfter(), Recorded(sp, all), order[i], order[j]);
    assert p in all && q in all;
  }

  // ---------- when ties agree ----------

  /** calculate_time reports the degree of bitline multiplexing it was given. */
  ghost predicate KeepsNdcm(sp: Space) {
    forall pt: Point :: sp.evaluate(pt).Valid? ==> sp.evaluate(pt).degBlMuxing == pt.ndcm
  }

  /** Then tied positions have the same flat index, hence belong to the same thread. */
  lemma TiesShareIndex(sp: Space, p: Pos, q: Pos)
    requires WellFormed(sp) && KeepsNdcm(sp) && Tied(sp, p, q)
    ensures p.iter == q.iter
  {
    var b, m := Radix(sp.maxDataN), Radix(sp.maxColMux);
    var (x, y, z) := Decode(p.iter, b, m);
    var (x', y', z') := Decode(q.iter, b, m);
    Pow2Injective(x, x');
    Pow2Injective(y, y');
    Pow2Injective(z, z');
    EncodeDecode(p.iter, b, b, m);
    EncodeDecode(q.iter, b, b, m);
  }

  lemma KeepsNdcmTiesAgree(sp: Space)
    requires WellFormed(sp) && KeepsNdcm(sp)
    ensures TiesAgree(sp)
  {
    forall p, q | Tied(sp, p, q) ensures p.iter == q.iter {
      TiesShareIndex(sp, p, q);
    }
  }

  /** A degree of multiplexing that ignores Ndcm ties different wire types across threads. */
  lemma TiesAcrossWires(sp: Space, p: Pos, q: Pos)
    requires WellFormed(sp) && Tied(sp, p, q) && p.iter != q.iter && p.wt != q.wt
    ensures !TiesAgree(sp)
  {
    assert ArrayAt(sp, p).wt != ArrayAt(sp, q).wt;
  }

  /** As in DRAM tag arrays: the degree of multiplexing is 1 and Ndcm changes nothing. */
  function DramTags(): Space {
    Space(1.0, 1.0, 0, 1, 2, 2,
          (pt: Point) =>
            if pt.ndwl == 2 && pt.ndbl == 2 && pt.ndsam1 == 1 && pt.ndsam2 == 1
            then Valid(1, Measures(Pda(1.0, 1.0, 1.0, 1.0, 1.0), 1.0, 1.0, Stages(0.0, 0.0, 0.0)))
            else Invalid)
  }

  lemma DramTagShape()
    ensures WellFormed(DramTags()) && Radix(2) == 2 && Iterations(DramTags()) == 8
    ensures Pow2(0) == 1 && Pow2(1) == 2
  {
    assert Log2(2) == 1 + Log2(1) && Log2(1) == 0;
  }

  lemma DramTagAt(pos: Pos, z: nat)
    requires pos.a == 0 && pos.e1 == 0 && pos.e2 == 0 && 0 <= pos.wt <= 1 && z < 2 && pos.iter == 6 + z
    ensures WellFormed(DramTags()) && InRange(DramTags(), pos)
    ensures PointAt(DramTags(), pos) == Point(1.0, pos.wt, 2, 2, Pow2(z), 1, 1)
  {
    DramTagShape();
    DecodeEncode(1, 1, z, 2, 2);
    assert Encode(1, 1, z, 2, 2) == pos.iter;
  }

  lemma DramTagsNeedRows()
    ensures WellFormed(DramTags()) && NeedsRows(DramTags())
  {
    DramTagShape();
    DecodeEncode(0, 0, 0, 2, 2);
    forall pos | InRange(DramTags(), pos) && IsValid(DramTags(), pos) ensures pos.iter > 0 {
      assert PointAt(DramTags(), pos).ndbl == 2;
    }
  }

  /** Two such arrays with Ndcm 1 and 2 and different wires tie, so the order of the list depends on the threads. */
  lemma DramTagsDisagree()
    ensures WellFormed(DramTags()) && NeedsRows(DramTags()) && IgnoresNdcm(DramTags()) && !TiesAgree(DramTags())
  {
    DramTagShape();
    DramTagsNeedRows();
    var p, q := Pos(0, 0, 6, 0, 0), Pos(0, 1, 7, 0, 0);
    DramTagAt(p, 0);
    DramTagAt(q, 1);
    TiesAcrossWires(DramTags(), p, q);
  }

  // ---------- the last of the cheapest, when ties do not agree ----------

  /** calculate_time does not look at Ndcm at all. */
  ghost predicate IgnoresNdcm(sp: Space) {
    forall pt: Point, d: int :: sp.evaluate(pt.(ndcm := d)) == sp.evaluate(pt)
  }

  /** The position of `p` moved to the flat index of `q`. */
  function MovedTo(p: Pos, q: Pos): Pos { Pos(p.a, p.wt, q.iter, p.e1, p.e2) }

  /** A tied position can move to the other's flat index without a change of its array. */
  lemma MovedKeepsArray(sp: Space, p: Pos, q: Pos)
    requires WellFormed(sp) && IgnoresNdcm(sp) && Tied(sp, p, q)
    ensures InRange(sp, MovedTo(p, q)) && IsValid(sp, MovedTo(p, q))
    ensures ArrayAt(sp, MovedTo(p, q)) == ArrayAt(sp, p) && Tied(sp, MovedTo(p, q), q)
  {
    TiedShape(sp, p, q);
    var r := MovedTo(p, q);
    assert PointAt(sp, r) == PointAt(sp, p).(ndcm := PointAt(sp, q).ndcm);
  }

  lemma MergedHolds(sp: Space, n: nat, arrays: seq<MemArray>, pos: Pos)
    requires WellFormed(sp) && n > 0 && Merged(sp, n, arrays) && InRange(sp, pos) && IsValid(sp, pos)
    ensures ArrayAt(sp, pos) in arrays
  {
    var all, order :| MergedFrom(sp, n, all, order, arrays);
    PickedMembers(sp, all, order);
    var i :| 0 <= i < |order| && Picked(all, order)[i] == pos;
    assert arrays[i] == ArrayAt(sp, pos);
  }

  lemma SameMerged(sp: Space, n: nat, n': nat, arrays: seq<MemArray>, arrays': seq<MemArray>)
    requires WellFormed(sp) && n > 0 && n' > 0 && Merged(sp, n, arrays) && Merged(sp, n', arrays')
    ensures forall m :: m in arrays <==> m in arrays'
  {
    forall m ensures m in arrays <==> m in arrays' {
      if m in arrays {
        var pos := MergedMember(sp, n, arrays, m);
        MergedHolds(sp, n', arrays', pos);
      }
      if m in arrays' {
        var pos := MergedMember(sp, n', arrays', m);
        MergedHolds(sp, n, arrays, pos);
      }
    }
  }

  /** Behind every array stand the tied arrays of greater wire type, on any number of threads. */
  lemma GreaterWireIsLater(sp: Space, n: nat, arrays: seq<MemArray>, k: nat, m: MemArray) returns (j: nat)
    requires WellFormed(sp) && IgnoresNdcm(sp) && n > 0 && Merged(sp, n, arrays) && k < |arrays| && m in arrays
    requires SamePartition(arrays[k], m) && m.wt > arrays[k].wt
    ensures k < j < |arrays| && arrays[j] == m
  {
    var all, order :| MergedFrom(sp, n, all, order, arrays);
    PickedMembers(sp, all, order);
    var q := Picked(all, order)[k];
    assert q in Picked(all, order);
    var p := MergedMember(sp, n, arrays, m);
    assert Tied(sp, p, q);
    MovedKeepsArray(sp, p, q);
    j := IndexOf(Picked(all, order), MovedTo(p, q));
    if j < k {
      NotAfterGreaterWire(sp, n, all, order, j, k);
    }
  }

  lemma IndexOf<T>(s: seq<T>, x: T) returns (j: nat)
    requires x in s
    ensures j < |s| && s[j] == x
  {
    j :| 0 <= j < |s| && s[j] == x;
  }

  lemma NotAfterGreaterWire(sp: Space, n: nat, all: seq<Pos>, order: seq<nat>, j: nat, k: nat)
    requires WellFormed(sp) && n > 0 && Complete(sp, all) && ByThread(n, all)
    requires StableOrder(NotAfter(), Recorded(sp, all), order) && j < k < |order|
    requires Tied(sp, Picked(all, order)[j], Picked(all, order)[k])
    requires Picked(all, order)[j].iter == Picked(all, order)[k].iter
    ensures Picked(all, order)[j].wt <= Picked(all, order)[k].wt
  {
    var s := Picked(all, order);
    assert Comes(s, s[j], s[k]);
    SortedPair(sp, n, all, order, s[j], s[k]);
    TiedShape(sp, s[j], s[k]);
  }

  lemma MergedOrdered(sp: Space, n: nat, arrays: seq<MemArray>)
    requires WellFormed(sp) && n > 0 && Merged(sp, n, arrays)
    ensures Ordered(NotAfter(), arrays)
  {
    var all, order :| MergedFrom(sp, n, all, order, arrays);
    NotAfterIsTotalPreorder();
    StableOrderIsPermutation(NotAfter(), Recorded(sp, all), order);
  }

  /** Nothing that costs as little as the last of the cheapest stands behind it in the order. */
  lemma LastIsGreatest(arrays: seq<MemArray>, eff: MemArray -> real, k: nat, m: MemArray)
    requires Ordered(NotAfter(), arrays) && IsLastBest(arrays, eff, k) && m in arrays && eff(m) == eff(arrays[k])
    ensures !Lt(arrays[k], m)
  {
    var j :| 0 <= j < |arrays| && arrays[j] == m;
    if j < k {
      assert NotAfter()(arrays[j], arrays[k]);
    }
  }

  lemma MergedLastIsGreatest(sp: Space, n: nat, arrays: seq<MemArray>, eff: MemArray -> real, k: nat, m: MemArray)
    requires WellFormed(sp) && n > 0 && Merged(sp, n, arrays)
    requires IsLastBest(arrays, eff, k) && m in arrays && eff(m) == eff(arrays[k])
    ensures !Lt(arrays[k], m)
  {
    MergedOrdered(sp, n, arrays);
    LastIsGreatest(arrays, eff, k, m);
  }

  lemma LastHasGreatestWire(sp: Space, n: nat, arrays: seq<MemArray>, eff: MemArray -> real, k: nat, m: MemArray)
    requires WellFormed(sp) && IgnoresNdcm(sp) && n > 0 && Merged(sp, n, arrays) && IsLastBest(arrays, eff, k)
    requires m in arrays && eff(m) == eff(arrays[k]) && SamePartition(arrays[k], m)
    ensures m.wt <= arrays[k].wt
  {
    if m.wt > arrays[k].wt {
      var j := GreaterWireIsLater(sp, n, arrays, k, m);
    }
  }

  /** Partition and wire type determine the array. */
  lemma KindDeterminesArray(sp: Space, n: nat, arrays: seq<MemArray>, m: MemArray, m': MemArray)
    requires WellFormed(sp) && IgnoresNdcm(sp) && n > 0 && Merged(sp, n, arrays) && m in arrays && m' in arrays
    requires SameKind(m, m')
    ensures m == m'
  {
    var p := MergedMember(sp, n, arrays, m);
    var q := MergedMember(sp, n, arrays, m');
    MovedKeepsArray(sp, p, q);
    TiedShape(sp, p, q);
    assert MovedTo(p, q) == q;
  }

  /** So although the merged list depends on the number of threads, the last of its cheapest arrays does not. */
  lemma LastBestAgrees(sp: Space, n: nat, n': nat, arrays: seq<MemArray>, arrays': seq<MemArray>,
                       eff: MemArray -> real, r: Option<MemArray>, r': Option<MemArray>)
    requires WellFormed(sp) && IgnoresNdcm(sp) && n > 0 && n' > 0 && Merged(sp, n, arrays) && Merged(sp, n', arrays')
    requires LastBest(arrays, eff, r) && LastBest(arrays', eff, r')
    ensures r == r'
  {
    SameMerged(sp, n, n', arrays, arrays');
    if r.Some? {
      assert r.value in arrays';
    }
    if r'.Some? {
      assert r'.value in arrays;
    }
    if r.Some? && r'.Some? {
      var k: nat :| IsLastBest(arrays, eff, k) && arrays[k] == r.value;
      var l: nat :| IsLastBest(arrays', eff, l) && arrays'[l] == r'.value;
      SameLast(sp, n, n', arrays, arrays', eff, k, l);
    }
  }

  lemma SameLast(sp: Space, n: nat, n': nat, arrays: seq<MemArray>, arrays': seq<MemArray>, eff: MemArray -> real,
                 k: nat, l: nat)
    requires WellFormed(sp) && IgnoresNdcm(sp) && n > 0 && n' > 0 && Merged(sp, n, arrays) && Merged(sp, n', arrays')
    requires IsLastBest(arrays, eff, k) && IsLastBest(arrays', eff, l) && forall m :: m in arrays <==> m in arrays'
    ensures arrays[k] == arrays'[l]
  {
    var m, m' := arrays[k], arrays'[l];
    SameLeastCost(arrays, arrays', eff, k, l);
    MergedLastIsGreatest(sp, n, arrays, eff, k, m');
    MergedLastIsGreatest(sp, n', arrays', eff, l, m);
    LtIsStrictWeakOrder(m, m', m);
    LastHasGreatestWire(sp, n, arrays, eff, k, m');
    LastHasGreatestWire(sp, n', arrays', eff, l, m);
    KindDeterminesArray(sp, n, arrays, m, m');
  }

  lemma SameLeastCost(arrays: seq<MemArray>, arrays': seq<MemArray>, eff: MemArray -> real, k: nat, l: nat)
    requires IsLastBest(arrays, eff, k) && IsLastBest(arrays', eff, l) && forall m :: m in arrays <==> m in arrays'
    ensures arrays[k] in arrays' && arrays'[l] in arrays && eff(arrays[k]) == eff(arrays'[l])
  {
    assert arrays[k] in arrays && arrays'[l] in arrays';
  }

  // ---------- and when they do not ----------

  /** No valid partition has Ndwl = Ndbl = Ndcm = 1: calculate_time wants Ndbl to be 2 at least. */
  ghost predicate NeedsRows(sp: Space)
    requires WellFormed(sp)
  {
    forall pos :: InRange(sp, pos) && IsValid(sp, pos) ==> pos.iter > 0
  }

  /**
   With `lists(n)` the merged list of a run on n threads: all numbers of threads give the same list
   if and only if tied arrays of different flat index are equal.
   */
  lemma ThreadsAgreeIff(sp: Space, lists: nat -> seq<MemArray>)
    requires WellFormed(sp) && NeedsRows(sp)
    requires forall n: nat :: n > 0 ==> Merged(sp, n, lists(n))
    ensures TiesAgree(sp) <==> forall n: nat, n': nat :: n > 0 && n' > 0 ==> lists(n) == lists(n')
  {
    if TiesAgree(sp) {
      forall n: nat, n': nat | n > 0 && n' > 0 ensures lists(n) == lists(n') {
        MergedAgree(sp, n, n', lists(n), lists(n'));
      }
    }
    if forall n: nat, n': nat :: n > 0 && n' > 0 ==> lists(n) == lists(n') {
      forall p, q | Tied(sp, p, q) && p.iter != q.iter ensures ArrayAt(sp, p) == ArrayAt(sp, q) {
        var first, second := if p.iter < q.iter then p else q, if p.iter < q.iter then q else p;
        assert lists(first.iter) == lists(1) && lists(second.iter) == lists(1) && lists(second.iter + 1) == lists(1);
        TiedInAllRuns(sp, lists(1), first, second);
      }
    }
  }

  lemma TiedInAllRuns(sp: Space, arrays: seq<MemArray>, p: Pos, q: Pos)
    requires WellFormed(sp) && NeedsRows(sp) && Tied(sp, p, q) && 0 < p.iter < q.iter
    requires Merged(sp, 1, arrays) && Merged(sp, p.iter, arrays)
    requires Merged(sp, q.iter, arrays) && Merged(sp, q.iter + 1, arrays)
    ensures ArrayAt(sp, p) == ArrayAt(sp, q)
  {
    if p.wt == q.wt {
      var i := FirstOfKind(sp, arrays, p);
      var j := FirstOfKind(sp, arrays, q);
      assert i == j;
    } else {
      WiresAgree(sp, arrays, p, q);
    }
  }

  /** On one of the last two numbers of threads the order of their wires would be inverted. */
  lemma WiresAgree(sp: Space, arrays: seq<MemArray>, p: Pos, q: Pos)
    requires WellFormed(sp) && Tied(sp, p, q) && 0 < p.iter < q.iter && Merged(sp, 1, arrays)
    requires Merged(sp, q.iter, arrays) && Merged(sp, q.iter + 1, arrays)
    ensures p.wt == q.wt
  {
    Remainders(p.iter, q.iter);
    if p.wt < q.wt {
      WiresInverted(sp, q.iter, arrays, q, p);
    } else if p.wt > q.wt {
      WiresInverted(sp, q.iter + 1, arrays, p, q);
    }
  }

  lemma Remainders(i: nat, j: nat)
    requires 0 < i < j
    ensures j % j == 0 && i % j == i && i % (j + 1) == i && j % (j + 1) == j
  {
    DivMod(1, j, 0);
    DivMod(0, j, i);
    DivMod(0, j + 1, i);
    DivMod(0, j + 1, j);
  }

  /** Tied positions differ in flat index and wire type alone. */
  lemma TiedShape(sp: Space, p: Pos, q: Pos)
    requires WellFormed(sp) && Tied(sp, p, q)
    ensures p.a == q.a && p.e1 == q.e1 && p.e2 == q.e2
  {
    Pow2Injective(p.e1, q.e1);
    Pow2Injective(p.e2, q.e2);
    if p.a < q.a {
      NspdStrict(sp, p.a, q.a);
    } else if q.a < p.a {
      NspdStrict(sp, q.a, p.a);
    }
  }

  lemma NspdStrict(sp: Space, a: nat, b: nat)
    requires WellFormed(sp) && a < b
    ensures NspdAt(sp, a) < NspdAt(sp, b)
  {
    NspdMonotone(sp, a, b - 1);
  }

  /** On as many threads as its flat index, a position is the first of its partition and wire type. */
  lemma FirstOfKind(sp: Space, arrays: seq<MemArray>, q: Pos) returns (i: nat)
    requires WellFormed(sp) && NeedsRows(sp) && InRange(sp, q) && IsValid(sp, q)
    requires q.iter > 0 && Merged(sp, q.iter, arrays)
    ensures i < |arrays| && arrays[i] == ArrayAt(sp, q)
    ensures forall j :: 0 <= j < i ==> !SameKind(arrays[j], ArrayAt(sp, q))
  {
    var all, order :| MergedFrom(sp, q.iter, all, order, arrays);
    var s := Picked(all, order);
    PickedMembers(sp, all, order);
    i :| 0 <= i < |s| && s[i] == q;
    forall j | 0 <= j < i ensures !SameKind(arrays[j], ArrayAt(sp, q)) {
      assert Comes(s, s[j], q) && s[j] in s;
      SortedPair(sp, q.iter, all, order, s[j], q);
      if SameKind(arrays[j], ArrayAt(sp, q)) {
        NoneEarlier(sp, s[j], q);
      }
    }
  }

  predicate SameKind(m1: MemArray, m2: MemArray) {
    SamePartition(m1, m2) && m1.wt == m2.wt
  }

  lemma NoneEarlier(sp: Space, r: Pos, q: Pos)
    requires WellFormed(sp) && Tied(sp, r, q) && r.wt == q.wt && r.iter > 0 && q.iter > 0
    ensures !Earlier(q.iter, r, q)
  {
    TiedShape(sp, r, q);
    DivMod(1, q.iter, 0);
    if r.iter < q.iter {
      DivMod(0, q.iter, r.iter);
    }
  }

  /** One thread lists tied arrays by wire type; a list that shows a greater one first came from more. */
  lemma WiresInverted(sp: Space, n: nat, arrays: seq<MemArray>, p: Pos, q: Pos)
    requires WellFormed(sp) && n > 0 && Tied(sp, p, q) && p.wt > q.wt && p.iter % n < q.iter % n
    requires Merged(sp, n, arrays)
    ensures !Merged(sp, 1, arrays)
  {
    var i, j := InvertedPair(sp, n, arrays, p, q);
    if Merged(sp, 1, arrays) {
      WiresInOrder(sp, arrays, i, j);
    }
  }

  lemma WiresInOrder(sp: Space, arrays: seq<MemArray>, i: nat, j: nat)
    requires WellFormed(sp) && Merged(sp, 1, arrays) && i < j < |arrays| && SamePartition(arrays[i], arrays[j])
    ensures arrays[i].wt <= arrays[j].wt
  {
    var all, order :| MergedFrom(sp, 1, all, order, arrays);
    var s := Picked(all, order);
    assert Comes(s, s[i], s[j]);
    SortedPair(sp, 1, all, order, s[i], s[j]);
    TiedShape(sp, s[i], s[j]);
  }

  lemma InvertedPair(sp: Space, n: nat, arrays: seq<MemArray>, p: Pos, q: Pos) returns (i: nat, j: nat)
    requires WellFormed(sp) && n > 0 && Tied(sp, p, q) && p.iter % n < q.iter % n
    requires Merged(sp, n, arrays)
    ensures i < j < |arrays| && arrays[i] == ArrayAt(sp, p) && arrays[j] == ArrayAt(sp, q)
  {
    var all, order :| MergedFrom(sp, n, all, order, arrays);
    PickedMembers(sp, all, order);
    i := IndexOf(Picked(all, order), p);
    j := IndexOf(Picked(all, order), q);
    if j < i {
      NotEarlierThread(sp, n, all, order, j, i);
    }
  }

  /** Of tied positions, the one from the earlier thread comes first. */
  lemma NotEarlierThread(sp: Space, n: nat, all: seq<Pos>, order: seq<nat>, j: nat, i: nat)
    requires WellFormed(sp) && n > 0 && Complete(sp, all) && ByThread(n, all)
    requires StableOrder(NotAfter(), Recorded(sp, all), order) && j < i < |order|
    requires Tied(sp, Picked(all, order)[i], Picked(all, order)[j])
    ensures Picked(all, order)[j].iter % n <= Picked(all, order)[i].iter % n
  {
    var s := Picked(all, order);
    assert Comes(s, s[j], s[i]);
    SortedPair(sp, n, all, order, s[j], s[i]);
  }
}
