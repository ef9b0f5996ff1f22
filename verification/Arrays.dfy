/** Memory arrays, their order (`cacti_interface.cc`) and the running minima (`min_values_t`). */
module Arrays {
  import opened Sorting

  const BIGNUM: real := 1000000000000000000000000000000.0

  /** Delay, read energy, leakage, area and cycle time: what the searches compare. */
  datatype Pda = Pda(delay: real, dynamic: real, leakage: real, area: real, cycle: real)

  /** The delays around the output driver of a subarray, which a cache waits for in turn. */
  datatype Stages = Stages(senseampMux: real, beforeDriver: real, afterDriver: real)

  /** What calculate_time measures of one array. */
  datatype Measures = Measures(pda: Pda, height: real, width: real, stages: Stages)

  datatype MemArray = MemArray(
    ndwl: int, ndbl: int, nspd: real, degBlMuxing: int, ndsam1: int, ndsam2: int, wt: int,
    figures: Measures)

  function PdaOf(a: MemArray): Pda { a.figures.pda }

  // ---------- mem_array::lt ----------

  predicate Lt(m1: MemArray, m2: MemArray) {
    if m1.nspd < m2.nspd then true
    else if m1.nspd > m2.nspd then false
    else if m1.ndwl < m2.ndwl then true
    else if m1.ndwl > m2.ndwl then false
    else if m1.ndbl < m2.ndbl then true
    else if m1.ndbl > m2.ndbl then false
    else if m1.degBlMuxing < m2.degBlMuxing then true
    else if m1.degBlMuxing > m2.degBlMuxing then false
    else if m1.ndsam1 < m2.ndsam1 then true
    else if m1.ndsam1 > m2.ndsam1 then false
    else if m1.ndsam2 < m2.ndsam2 then true
    else false
  }

  /** Elements that lt does not separate. */
  predicate SamePartition(m1: MemArray, m2: MemArray) {
    && m1.nspd == m2.nspd && m1.ndwl == m2.ndwl && m1.ndbl == m2.ndbl
    && m1.degBlMuxing == m2.degBlMuxing && m1.ndsam1 == m2.ndsam1 && m1.ndsam2 == m2.ndsam2
  }

  /** lt is a strict weak order, whose ties are the arrays of equal partition. */
  lemma LtIsStrictWeakOrder(x: MemArray, y: MemArray, z: MemArray)
    ensures !Lt(x, x)
    ensures Lt(x, y) && Lt(y, z) ==> Lt(x, z)
    ensures !Lt(x, y) && !Lt(y, x) <==> SamePartition(x, y)
  {
  }

  /** What lt compares, first things first. */
  function Partitioning(m: MemArray): (s: seq<real>)
    ensures |s| == 6
  {
    [m.nspd, m.ndwl as real, m.ndbl as real, m.degBlMuxing as real, m.ndsam1 as real, m.ndsam2 as real]
  }

  /** lt is the lexicographic order, ascending: the first factor that differs is less. */
  lemma LtIsLexicographic(x: MemArray, y: MemArray)
    ensures Lt(x, y) <==>
            exists k :: 0 <= k < 6 && Partitioning(x)[k] < Partitioning(y)[k]
                        && forall i :: 0 <= i < k ==> Partitioning(x)[i] == Partitioning(y)[i]
  {
    var s, t := Partitioning(x), Partitioning(y);
    if Lt(x, y) {
      var k := FirstDifference(s, t);
      AgreeUpTo(s, t, k);
      assert s[k] < t[k];
    }
    forall k | 0 <= k < 6 && s[k] < t[k] && (forall i :: 0 <= i < k ==> s[i] == t[i]) ensures Lt(x, y) {
      AgreeUpTo(s, t, k);
    }
  }

  lemma AgreeUpTo(s: seq<real>, t: seq<real>, k: nat)
    requires |s| == |t| == 6 && k <= 6 && forall i :: 0 <= i < k ==> s[i] == t[i]
    ensures (k > 0 ==> s[0] == t[0]) && (k > 1 ==> s[1] == t[1]) && (k > 2 ==> s[2] == t[2])
    ensures (k > 3 ==> s[3] == t[3]) && (k > 4 ==> s[4] == t[4]) && (k > 5 ==> s[5] == t[5])
  {
  }

  lemma FirstDifference(s: seq<real>, t: seq<real>) returns (k: nat)
    requires |s| == |t|
    ensures k <= |s| && (forall i :: 0 <= i < k ==> s[i] == t[i]) && (k < |s| ==> s[k] != t[k])
  {
    k := 0;
    while k < |s| && s[k] == t[k]
      invariant k <= |s| && forall i :: 0 <= i < k ==> s[i] == t[i]
    {
      k := k + 1;
    }
  }

  function NotAfter(): (MemArray, MemArray) -> bool {
    (x: MemArray, y: MemArray) => !Lt(y, x)
  }

  /** So lists can be sorted and merged by it. */
  lemma NotAfterIsTotalPreorder()
    ensures TotalPreorder(NotAfter())
  {
    forall x, y ensures Comparable(NotAfter(), x, y) {
    }
    forall x, y, z ensures Chains(NotAfter(), x, y, z) {
    }
  }

  // ---------- running minima ----------

  function Least(x: real, y: real): real { if x > y then y else x }

  function MinPda(x: Pda, y: Pda): Pda {
    Pda(Least(x.delay, y.delay), Least(x.dynamic, y.dynamic), Least(x.leakage, y.leakage),
        Least(x.area, y.area), Least(x.cycle, y.cycle))
  }

  const BIG := Pda(BIGNUM, BIGNUM, BIGNUM, BIGNUM, BIGNUM)

  class MinValues {
    var min: Pda

    constructor ()
      ensures min == BIG
    {
      min := BIG;
    }

    /** Afterwards the minima are the greatest figures below both the old minima and `x`. */
    method Update(x: Pda)
      modifies this
      ensures forall z :: Below(z, min) <==> Below(z, old(min)) && Below(z, x)
      ensures min == MinPda(old(min), x)
    {
      min := Pda(if min.delay > x.delay then x.delay else min.delay,
                 if min.dynamic > x.dynamic then x.dynamic else min.dynamic,
                 if min.leakage > x.leakage then x.leakage else min.leakage,
                 if min.area > x.area then x.area else min.area,
                 if min.cycle > x.cycle then x.cycle else min.cycle);
    }
  }

  /** The minima after updates with every element, starting from BIGNUM. */
  function MinOver(xs: seq<Pda>): Pda {
    if xs == [] then BIG else MinPda(MinOver(xs[..|xs| - 1]), xs[|xs| - 1])
  }

  predicate Below(x: Pda, y: Pda) {
    x.delay <= y.delay && x.dynamic <= y.dynamic && x.leakage <= y.leakage && x.area <= y.area && x.cycle <= y.cycle
  }

  /** The minima are the greatest lower bound of the elements and BIGNUM. */
  lemma {:induction false} MinOverBounds(xs: seq<Pda>, z: Pda)
    ensures Below(z, MinOver(xs)) <==> Below(z, BIG) && forall x :: x in xs ==> Below(z, x)
  {
    if xs != [] {
      var n := |xs| - 1;
      MinOverBounds(xs[..n], z);
      assert xs == xs[..n] + [xs[n]];
      assert Below(z, MinOver(xs)) <==> Below(z, MinOver(xs[..n])) && Below(z, xs[n]);
      assert (forall x :: x in xs ==> Below(z, x)) <==> (forall x :: x in xs[..n] ==> Below(z, x)) && Below(z, xs[n]);
    }
  }

  /** They depend on which elements occur, not on their order or number. */
  lemma MinOverSameMembers(xs: seq<Pda>, ys: seq<Pda>)
    requires forall x :: x in xs <==> x in ys
    ensures MinOver(xs) == MinOver(ys)
  {
    MinOverBounds(xs, MinOver(xs));
    MinOverBounds(xs, MinOver(ys));
    MinOverBounds(ys, MinOver(xs));
    MinOverBounds(ys, MinOver(ys));
  }

  /** Reducing the minima of the parts gives the minima of the whole. */
  lemma {:induction false} MinOverJoin(xs: seq<Pda>, ys: seq<Pda>)
    ensures MinOver(xs + ys) == MinPda(MinOver(xs), MinOver(ys))
  {
    if ys == [] {
      assert xs + ys == xs;
      MinOverBounds(xs, MinOver(xs));
    } else {
      var n := |ys| - 1;
      assert (xs + ys)[..|xs| + n] == xs + ys[..n];
      MinOverJoin(xs, ys[..n]);
    }
  }

  /** The smallest delay, and the smallest energy, belong to some element unless all exceed BIGNUM. */
  lemma {:induction false} MinOverAttained(xs: seq<Pda>)
    requires xs != [] && forall x :: x in xs ==> x.delay < BIGNUM && x.dynamic < BIGNUM
    ensures exists x :: x in xs && x.delay == MinOver(xs).delay
    ensures exists x :: x in xs && x.dynamic == MinOver(xs).dynamic
  {
    var n := |xs| - 1;
    var last := xs[n];
    assert last in xs && xs == xs[..n] + [last];
    if n > 0 {
      MinOverAttained(xs[..n]);
      var d :| d in xs[..n] && d.delay == MinOver(xs[..n]).delay;
      var e :| e in xs[..n] && e.dynamic == MinOver(xs[..n]).dynamic;
      assert d in xs && e in xs;
    } else {
      assert MinOver(xs[..n]) == BIG;
      assert MinOver(xs) == MinPda(BIG, last);
    }
  }

  lemma PairMinimum(x: Pda, y: Pda)
    ensures MinOver([x, y]) == MinPda(MinPda(BIG, x), y)
  {
    assert [x][..0] == [];
    assert MinOver([x]) == MinPda(BIG, x);
    assert [x, y][..1] == [x];
  }

  lemma ThreeMinimum(x: Pda, y: Pda, z: Pda)
    ensures MinOver([x, y, z]) == MinPda(MinPda(MinPda(BIG, x), y), z)
  {
    PairMinimum(x, y);
    assert [x, y, z][..2] == [x, y];
  }

  predicate Positive(x: Pda) {
    x.delay > 0.0 && x.dynamic > 0.0 && x.leakage > 0.0 && x.area > 0.0 && x.cycle > 0.0
  }

  lemma {:induction false} MinOverPositive(xs: seq<Pda>)
    requires forall x :: x in xs ==> Positive(x)
    ensures Positive(MinOver(xs))
  {
    if xs != [] {
      assert xs[|xs| - 1] in xs;
      MinOverPositive(xs[..|xs| - 1]);
    }
  }
}
