/** calc_time_mt_wrapper and the part of solve that runs the threads and merges their results. */
module Sweep {
  import opened BasicCircuit
  import opened Sorting
  import opened Arrays
  import opened SweepOrder

  function Recorder(sp: Space): Pos -> MemArray
    requires WellFormed(sp)
  {
    pos => if IsValid(sp, pos) then ArrayAt(sp, pos) else SCRATCH
  }

  /** A freshly allocated `mem_array`. */
  const SCRATCH := MemArray(0, 0, 0.0, 0, 0, 0, 0, Measures(BIG, 0.0, 0.0, Stages(0.0, 0.0, 0.0)))

  /** The arrays recorded at the given positions. */
  function Recorded(sp: Space, seen: seq<Pos>): seq<MemArray>
    requires WellFormed(sp)
  {
    Map(Recorder(sp), seen)
  }

  function Pdas(arrays: seq<MemArray>): seq<Pda> { Map(PdaOf, arrays) }

  datatype ThreadState = ThreadState(dataArr: seq<MemArray>, tagArr: seq<MemArray>, dataMin: Pda, tagMin: Pda)

  /** The data one thread works on. */
  class CalcThread {
    const tid: nat
    const isTag: bool
    const fullyAssoc: bool
    var dataArr: seq<MemArray>
    var tagArr: seq<MemArray>
    const dataRes: MinValues
    const tagRes: MinValues

    constructor (tid: nat, isTag: bool, fullyAssoc: bool)
      ensures this.tid == tid && this.isTag == isTag && this.fullyAssoc == fullyAssoc
      ensures fresh(dataRes) && fresh(tagRes) && dataRes != tagRes
      ensures dataRes.min == BIG && tagRes.min == BIG
    {
      this.tid, this.isTag, this.fullyAssoc := tid, isTag, fullyAssoc;
      dataArr, tagArr := [], [];
      dataRes := new MinValues();
      tagRes := new MinValues();
    }

    predicate KeepsData() { !isTag || fullyAssoc }

    /** Both lists hold what was recorded at `seen`, then one scratch element; the minima are up to date. */
    ghost predicate Inv(sp: Space, seen: seq<Pos>)
      requires WellFormed(sp)
      reads this, dataRes, tagRes
    {
      dataRes != tagRes && ThreadState(dataArr, tagArr, dataRes.min, tagRes.min) == Expected(sp, seen)
    }

    ghost function Expected(sp: Space, seen: seq<Pos>): ThreadState
      requires WellFormed(sp)
    {
      var data := if KeepsData() then Recorded(sp, seen) else [];
      var tags := if isTag then Recorded(sp, seen) else [];
      ThreadState(data + [SCRATCH], tags + [SCRATCH], MinOver(Pdas(data)), MinOver(Pdas(tags)))
    }

    /** The body of the innermost loop. calculate_time fills the scratch element only if the partition is valid. */
    method TryPartition(sp: Space, ghost n: nat, pos: Pos, ghost seen: seq<Pos>) returns (ghost seen': seq<Pos>)
      requires WellFormed(sp) && n > 0 && Inv(sp, seen) && SweptTo(sp, n, tid, seen, pos)
      requires InRange(sp, pos) && pos.iter % n == tid
      modifies this, dataRes, tagRes
      ensures Inv(sp, seen') && SweptTo(sp, n, tid, seen', pos.(e2 := pos.e2 + 1))
    {
      SweptVisit(sp, n, tid, seen, pos);
      seen' := seen;
      var pt := PointAt(sp, pos);
      var ev := sp.evaluate(pt);
      if ev.Valid? {
        seen' := seen + [pos];
        RecordedAppend(sp, seen, pos);
        if isTag {
          FillTag(Record(pt, ev));
        }
        if !isTag || fullyAssoc {
          FillData(Record(pt, ev));
        }
      }
    }

    /** The scratch element is filled, entered into the minima and followed by a new one. */
    method FillTag(m: MemArray)
      requires tagArr != []
      modifies this`tagArr, tagRes
      ensures tagArr == old(tagArr)[..|old(tagArr)| - 1] + [m] + [SCRATCH]
      ensures tagRes.min == MinPda(old(tagRes.min), m.figures.pda)
    {
      tagArr := tagArr[|tagArr| - 1 := m];
      tagRes.Update(tagArr[|tagArr| - 1].figures.pda);
      tagArr := tagArr + [SCRATCH];
    }

    method FillData(m: MemArray)
      requires dataArr != []
      modifies this`dataArr, dataRes
      ensures dataArr == old(dataArr)[..|old(dataArr)| - 1] + [m] + [SCRATCH]
      ensures dataRes.min == MinPda(old(dataRes.min), m.figures.pda)
    {
      dataArr := dataArr[|dataArr| - 1 := m];
      dataRes.Update(dataArr[|dataArr| - 1].figures.pda);
      dataArr := dataArr + [SCRATCH];
    }

    /** The outer loop over Ndsam. */
    method SweepNdsam(sp: Space, ghost n: nat, a: nat, wt: int, iter: nat, ghost seen: seq<Pos>)
      returns (ghost seen': seq<Pos>)
      requires WellFormed(sp) && n > 0 && Inv(sp, seen) && SweptTo(sp, n, tid, seen, Pos(a, wt, iter, 0, 0))
      requires NspdAt(sp, a) <= sp.maxNspd && sp.wtMin <= wt <= sp.wtMax && iter < Iterations(sp) && iter % n == tid
      modifies this, dataRes, tagRes
      ensures Inv(sp, seen') && SweptTo(sp, n, tid, seen', Pos(a, wt, iter + 1, 0, 0))
    {
      seen' := seen;
      var ndsam1, e1 := 1, 0;
      while ndsam1 <= sp.maxColMux
        invariant ndsam1 == Pow2(e1)
        invariant Inv(sp, seen') && SweptTo(sp, n, tid, seen', Pos(a, wt, iter, e1, 0))
        decreases sp.maxColMux - e1
      {
        seen' := SweepNdsam2(sp, n, Pos(a, wt, iter, e1, 0), seen');
        ndsam1, e1 := ndsam1 * 2, e1 + 1;
      }
      SkipOuter(sp, n, tid, seen', Pos(a, wt, iter, e1, 0));
    }

    /** The inner loop over Ndsam. */
    method SweepNdsam2(sp: Space, ghost n: nat, start: Pos, ghost seen: seq<Pos>) returns (ghost seen': seq<Pos>)
      requires WellFormed(sp) && n > 0 && Inv(sp, seen) && SweptTo(sp, n, tid, seen, start)
      requires InRange(sp, start) && start.iter % n == tid && start.e2 == 0
      modifies this, dataRes, tagRes
      ensures Inv(sp, seen') && SweptTo(sp, n, tid, seen', start.(e1 := start.e1 + 1))
    {
      seen' := seen;
      var ndsam2, e2 := 1, 0;
      while ndsam2 <= sp.maxColMux
        invariant ndsam2 == Pow2(e2)
        invariant Inv(sp, seen') && SweptTo(sp, n, tid, seen', start.(e2 := e2))
        decreases sp.maxColMux - e2
      {
        StaysInRange(sp, start, e2);
        seen' := TryPartition(sp, n, start.(e2 := e2), seen');
        ndsam2, e2 := ndsam2 * 2, e2 + 1;
      }
      SkipInner(sp, n, tid, seen', start.(e2 := e2));
    }

    /** The strided loop over the flat index. */
    method SweepIterations(sp: Space, n: nat, a: nat, wt: int, ghost seen: seq<Pos>) returns (ghost seen': seq<Pos>)
      requires WellFormed(sp) && tid < n && Inv(sp, seen) && SweptTo(sp, n, tid, seen, Pos(a, wt, 0, 0, 0))
      requires NspdAt(sp, a) <= sp.maxNspd && sp.wtMin <= wt <= sp.wtMax
      modifies this, dataRes, tagRes
      ensures Inv(sp, seen') && SweptTo(sp, n, tid, seen', Pos(a, wt + 1, 0, 0, 0))
    {
      seen' := seen;
      var niter := Iterations(sp);
      var iter := tid;
      SkipToFirst(sp, n, tid, seen', a, wt);
      while iter < niter
        invariant iter % n == tid
        invariant Inv(sp, seen') && SweptTo(sp, n, tid, seen', Pos(a, wt, iter, 0, 0))
      {
        seen' := SweepNdsam(sp, n, a, wt, iter, seen');
        SkipStride(sp, n, tid, seen', a, wt, iter);
        iter := iter + n;
      }
      SkipIterations(sp, n, tid, seen', a, wt, iter);
    }

    /** The loop over wire types. */
    method SweepWires(sp: Space, n: nat, a: nat, ghost seen: seq<Pos>) returns (ghost seen': seq<Pos>)
      requires WellFormed(sp) && tid < n && Inv(sp, seen) && SweptTo(sp, n, tid, seen, Pos(a, sp.wtMin, 0, 0, 0))
      requires NspdAt(sp, a) <= sp.maxNspd
      modifies this, dataRes, tagRes
      ensures Inv(sp, seen') && SweptTo(sp, n, tid, seen', Pos(a + 1, sp.wtMin, 0, 0, 0))
    {
      seen' := seen;
      var wt := sp.wtMin;
      while wt <= sp.wtMax
        invariant wt >= sp.wtMin
        invariant Inv(sp, seen') && SweptTo(sp, n, tid, seen', Pos(a, wt, 0, 0, 0))
      {
        seen' := SweepIterations(sp, n, a, wt, seen');
        wt := wt + 1;
      }
      SkipWires(sp, n, tid, seen', a, wt);
    }

    /** The whole wrapper: at the end both scratch elements are dropped. */
    method Run(sp: Space, n: nat) returns (ghost seen: seq<Pos>)
      requires WellFormed(sp) && tid < n && dataRes != tagRes && dataRes.min == BIG && tagRes.min == BIG
      modifies this, dataRes, tagRes
      ensures Share(sp, n, tid, seen)
      ensures dataArr == (if !isTag || fullyAssoc then Recorded(sp, seen) else [])
      ensures tagArr == (if isTag then Recorded(sp, seen) else [])
      ensures dataRes.min == MinOver(Pdas(dataArr)) && tagRes.min == MinOver(Pdas(tagArr))
    {
      dataArr, tagArr := [SCRATCH], [SCRATCH];
      seen := [];
      assert Inv(sp, seen);
      NothingBefore(sp, n, tid);
      seen := SweepNspd(sp, n);
      dataArr := dataArr[..|dataArr| - 1];
      tagArr := tagArr[..|tagArr| - 1];
    }

    /** The outermost loop. */
    method SweepNspd(sp: Space, n: nat) returns (ghost seen: seq<Pos>)
      requires WellFormed(sp) && tid < n && Inv(sp, []) && SweptTo(sp, n, tid, [], Pos(0, sp.wtMin, 0, 0, 0))
      modifies this, dataRes, tagRes
      ensures Inv(sp, seen) && Share(sp, n, tid, seen)
    {
      seen := [];
      var nspd, a := sp.nspdMin, 0;
      ghost var bound := NspdBound(sp);
      while nspd <= sp.maxNspd
        invariant a <= bound && nspd == NspdAt(sp, a)
        invariant Inv(sp, seen) && SweptTo(sp, n, tid, seen, Pos(a, sp.wtMin, 0, 0, 0))
        decreases bound - a
      {
        NspdGrows(sp, a, bound);
        seen := SweepWires(sp, n, a, seen);
        nspd, a := nspd * 2.0, a + 1;
      }
      SweptAll(sp, n, tid, seen, a);
    }
  }

  lemma StaysInRange(sp: Space, start: Pos, e2: nat)
    requires WellFormed(sp) && InRange(sp, start) && Pow2(e2) <= sp.maxColMux
    ensures InRange(sp, start.(e2 := e2))
  {
  }

  lemma RecordedAppend(sp: Space, seen: seq<Pos>, pos: Pos)
    requires WellFormed(sp) && IsValid(sp, pos)
    ensures Recorded(sp, seen + [pos]) == Recorded(sp, seen) + [ArrayAt(sp, pos)]
    ensures MinOver(Pdas(Recorded(sp, seen + [pos]))) ==
            MinPda(MinOver(Pdas(Recorded(sp, seen))), ArrayAt(sp, pos).figures.pda)
  {
    var xs := Pdas(Recorded(sp, seen + [pos]));
    assert xs[..|seen|] == Pdas(Recorded(sp, seen));
  }

  // ---------- passing over positions that do not exist ----------

  lemma SkipInner(sp: Space, n: nat, tid: nat, seen: seq<Pos>, c: Pos)
    requires WellFormed(sp) && n > 0 && SweptTo(sp, n, tid, seen, c) && Pow2(c.e2) > sp.maxColMux
    ensures SweptTo(sp, n, tid, seen, Pos(c.a, c.wt, c.iter, c.e1 + 1, 0))
  {
    forall pos | Takes(sp, n, tid, pos) ensures pos.e2 < c.e2 {
      PowerBelow(pos.e2, c.e2, sp.maxColMux);
    }
    SweptMove(sp, n, tid, seen, c, Pos(c.a, c.wt, c.iter, c.e1 + 1, 0));
  }

  lemma SkipOuter(sp: Space, n: nat, tid: nat, seen: seq<Pos>, c: Pos)
    requires WellFormed(sp) && n > 0 && SweptTo(sp, n, tid, seen, c) && Pow2(c.e1) > sp.maxColMux && c.e2 == 0
    ensures SweptTo(sp, n, tid, seen, Pos(c.a, c.wt, c.iter + 1, 0, 0))
  {
    forall pos | Takes(sp, n, tid, pos) ensures pos.e1 < c.e1 {
      PowerBelow(pos.e1, c.e1, sp.maxColMux);
    }
    SweptMove(sp, n, tid, seen, c, Pos(c.a, c.wt, c.iter + 1, 0, 0));
  }

  lemma PowerBelow(e: nat, d: nat, limit: nat)
    requires Pow2(e) <= limit < Pow2(d)
    ensures e < d
  {
    if d < e {
      Pow2Monotone(d, e);
    }
  }

  lemma SkipToFirst(sp: Space, n: nat, tid: nat, seen: seq<Pos>, a: nat, wt: int)
    requires WellFormed(sp) && tid < n && SweptTo(sp, n, tid, seen, Pos(a, wt, 0, 0, 0))
    ensures SweptTo(sp, n, tid, seen, Pos(a, wt, tid, 0, 0)) && tid % n == tid
  {
    DivMod(0, n, tid);
    forall pos | Takes(sp, n, tid, pos) ensures pos.iter >= tid {
      assert pos.iter < n ==> pos.iter % n == pos.iter by {
        if pos.iter < n {
          DivMod(0, n, pos.iter);
        }
      }
    }
    SweptMove(sp, n, tid, seen, Pos(a, wt, 0, 0, 0), Pos(a, wt, tid, 0, 0));
  }

  lemma SkipStride(sp: Space, n: nat, tid: nat, seen: seq<Pos>, a: nat, wt: int, iter: nat)
    requires WellFormed(sp) && tid < n && iter % n == tid && SweptTo(sp, n, tid, seen, Pos(a, wt, iter + 1, 0, 0))
    ensures SweptTo(sp, n, tid, seen, Pos(a, wt, iter + n, 0, 0)) && (iter + n) % n == tid
  {
    forall pos | Takes(sp, n, tid, pos) ensures !(iter < pos.iter < iter + n) {
      if iter < pos.iter < iter + n {
        StrideSkipsNothing(iter, pos.iter, n);
      }
    }
    StrideKeepsRemainder(iter, n);
    SweptMove(sp, n, tid, seen, Pos(a, wt, iter + 1, 0, 0), Pos(a, wt, iter + n, 0, 0));
  }

  lemma SkipIterations(sp: Space, n: nat, tid: nat, seen: seq<Pos>, a: nat, wt: int, iter: nat)
    requires WellFormed(sp) && n > 0 && iter >= Iterations(sp) && SweptTo(sp, n, tid, seen, Pos(a, wt, iter, 0, 0))
    ensures SweptTo(sp, n, tid, seen, Pos(a, wt + 1, 0, 0, 0))
  {
    SweptMove(sp, n, tid, seen, Pos(a, wt, iter, 0, 0), Pos(a, wt + 1, 0, 0, 0));
  }

  lemma SkipWires(sp: Space, n: nat, tid: nat, seen: seq<Pos>, a: nat, wt: int)
    requires WellFormed(sp) && n > 0 && wt > sp.wtMax && SweptTo(sp, n, tid, seen, Pos(a, wt, 0, 0, 0))
    ensures SweptTo(sp, n, tid, seen, Pos(a + 1, sp.wtMin, 0, 0, 0))
  {
    SweptMove(sp, n, tid, seen, Pos(a, wt, 0, 0, 0), Pos(a + 1, sp.wtMin, 0, 0, 0));
  }

  lemma NothingBefore(sp: Space, n: nat, tid: nat)
    requires WellFormed(sp) && n > 0
    ensures SweptTo(sp, n, tid, [], Pos(0, sp.wtMin, 0, 0, 0))
  {
    var start := Pos(0, sp.wtMin, 0, 0, 0);
    forall pos ensures Accounted(sp, n, tid, [], start, pos) {
    }
  }

  lemma {:induction false} NspdMonotone(sp: Space, a: nat, b: nat)
    requires WellFormed(sp) && a <= b
    ensures 0.0 < NspdAt(sp, a) <= NspdAt(sp, b)
    decreases b
  {
    if a < b {
      NspdMonotone(sp, a, b - 1);
    } else if a > 0 {
      NspdMonotone(sp, a - 1, a - 1);
    }
  }

  lemma NspdGrows(sp: Space, a: nat, b: nat)
    requires WellFormed(sp) && NspdAt(sp, a) <= sp.maxNspd < NspdAt(sp, b)
    ensures a < b
  {
    if b <= a {
      NspdMonotone(sp, b, a);
    }
  }

  lemma {:induction false} NspdIsPower(sp: Space, a: nat)
    ensures NspdAt(sp, a) == sp.nspdMin * Pow2(a) as real
  {
    if a > 0 {
      NspdIsPower(sp, a - 1);
      DoubledProduct(NspdAt(sp, a - 1), sp.nspdMin, Pow2(a - 1), Pow2(a));
    }
  }

  lemma DoubledProduct(y: real, x: real, p: nat, q: nat)
    requires y == x * p as real && q == 2 * p
    ensures y * 2.0 == x * q as real
  {
    var r := p as real;
    assert q as real == r + r;
    assert x * (r + r) == x * r + x * r;
  }

  /** Doubling Nspd passes any limit. */
  lemma NspdBound(sp: Space) returns (b: nat)
    requires WellFormed(sp)
    ensures sp.maxNspd < NspdAt(sp, b)
  {
    b := PowerAbove(sp.maxNspd / sp.nspdMin);
    Exceeds(sp.nspdMin, sp.maxNspd / sp.nspdMin, Pow2(b) as real);
    DivideBack(sp.nspdMin, sp.maxNspd);
    NspdIsPower(sp, b);
  }

  lemma PowerAbove(q: real) returns (b: nat)
    ensures Pow2(b) as real > q
  {
    b := if q < 0.0 then 0 else q.Floor + 1;
    assert Pow2(b) > b;
  }

  lemma DivideBack(x: real, m: real)
    requires x > 0.0
    ensures x * (m / x) == m
  {
  }

  lemma Exceeds(x: real, q: real, p: real)
    requires x > 0.0 && p > q
    ensures x * p > x * q
  {
    assert x * (p - q) > 0.0;
  }

  lemma SweptAll(sp: Space, n: nat, tid: nat, seen: seq<Pos>, a: nat)
    requires WellFormed(sp) && n > 0 && sp.maxNspd < NspdAt(sp, a)
    requires SweptTo(sp, n, tid, seen, Pos(a, sp.wtMin, 0, 0, 0))
    ensures Share(sp, n, tid, seen)
  {
    forall pos ensures pos in seen <==> Takes(sp, n, tid, pos) {
      assert Accounted(sp, n, tid, seen, Pos(a, sp.wtMin, 0, 0, 0), pos);
      if Takes(sp, n, tid, pos) {
        NspdGrows(sp, pos.a, a);
      }
    }
  }
}
