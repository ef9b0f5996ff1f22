/** Which partitions the sweep tries, in terms of the limits alone. */
module Partitions {
  import opened BasicCircuit
  import opened Sorting
  import opened Arrays
  import opened SweepOrder
  import opened Sweep
  import opened ThreadOrder

  ghost predicate PowerUpTo(v: int, limit: nat) {
    v <= limit && exists k: nat :: v == Pow2(k)
  }

  ghost predicate NspdWithin(sp: Space, nspd: real) {
    nspd <= sp.maxNspd && exists a: nat :: nspd == sp.nspdMin * Pow2(a) as real
  }

  /** Nspd is a doubling of its minimum, the other factors are powers of two; all keep within the limits. */
  ghost predicate WithinLimits(sp: Space, pt: Point) {
    && NspdWithin(sp, pt.nspd)
    && sp.wtMin <= pt.wt <= sp.wtMax
    && PowerUpTo(pt.ndwl, sp.maxDataN) && PowerUpTo(pt.ndbl, sp.maxDataN) && PowerUpTo(pt.ndcm, sp.maxColMux)
    && PowerUpTo(pt.ndsam1, sp.maxColMux) && PowerUpTo(pt.ndsam2, sp.maxColMux)
  }

  /** What calculate_time makes of a partition. */
  function Evaluated(sp: Space): Point -> MemArray {
    (pt: Point) =>
      match sp.evaluate(pt)
      case Invalid => SCRATCH
      case Valid(degree, figures) =>
        MemArray(pt.ndwl, pt.ndbl, pt.nspd, degree, pt.ndsam1, pt.ndsam2, pt.wt, figures)
  }

  /** `arrays` holds what calculate_time makes of the partitions it accepts, all within the limits, each once. */
  ghost predicate Tabulates(sp: Space, points: seq<Point>, arrays: seq<MemArray>) {
    && NoDuplicates(points)
    && (forall pt :: pt in points <==> WithinLimits(sp, pt) && sp.evaluate(pt).Valid?)
    && multiset(arrays) == multiset(Map(Evaluated(sp), points))
  }

  // ---------- positions and partitions ----------

  lemma PowerInRadix(x: nat, limit: nat)
    requires limit >= 1
    ensures x < Radix(limit) <==> Pow2(x) <= limit
  {
    Log2Bounds(limit);
    if x < Log2(limit) {
      Pow2Monotone(x, Log2(limit));
    } else if Log2(limit) < x {
      Pow2Monotone(Log2(limit), x);
    }
  }

  lemma NspdAtIsWithin(sp: Space, a: nat)
    ensures NspdAt(sp, a) <= sp.maxNspd ==> NspdWithin(sp, NspdAt(sp, a))
  {
    NspdIsPower(sp, a);
  }

  lemma NspdExponent(sp: Space, nspd: real) returns (a: nat)
    requires NspdWithin(sp, nspd)
    ensures NspdAt(sp, a) == nspd
  {
    a :| nspd == sp.nspdMin * Pow2(a) as real;
    NspdIsPower(sp, a);
  }

  lemma DigitsWithin(sp: Space, iter: nat)
    requires WellFormed(sp) && iter < Iterations(sp)
    ensures var (x, y, z) := Decode(iter, Radix(sp.maxDataN), Radix(sp.maxColMux));
            x < Radix(sp.maxDataN) && y < Radix(sp.maxDataN) && z < Radix(sp.maxColMux)
  {
    EncodeDecode(iter, Radix(sp.maxDataN), Radix(sp.maxDataN), Radix(sp.maxColMux));
  }

  lemma InRangeIsWithin(sp: Space, pos: Pos)
    requires WellFormed(sp) && InRange(sp, pos)
    ensures WithinLimits(sp, PointAt(sp, pos))
  {
    var (x, y, z) := Decode(pos.iter, Radix(sp.maxDataN), Radix(sp.maxColMux));
    DigitsWithin(sp, pos.iter);
    PowerInRadix(x, sp.maxDataN);
    PowerInRadix(y, sp.maxDataN);
    PowerInRadix(z, sp.maxColMux);
    NspdAtIsWithin(sp, pos.a);
  }

  lemma ExponentUpTo(v: int, limit: nat) returns (k: nat)
    requires limit >= 1 && PowerUpTo(v, limit)
    ensures v == Pow2(k) && k < Radix(limit)
  {
    k :| v == Pow2(k);
    PowerInRadix(k, limit);
  }

  lemma PositionOf(sp: Space, pt: Point) returns (pos: Pos)
    requires WellFormed(sp) && WithinLimits(sp, pt)
    ensures InRange(sp, pos) && PointAt(sp, pos) == pt
  {
    var a := NspdExponent(sp, pt.nspd);
    var x := ExponentUpTo(pt.ndwl, sp.maxDataN);
    var y := ExponentUpTo(pt.ndbl, sp.maxDataN);
    var z := ExponentUpTo(pt.ndcm, sp.maxColMux);
    var e1 := ExponentUpTo(pt.ndsam1, sp.maxColMux);
    var e2 := ExponentUpTo(pt.ndsam2, sp.maxColMux);
    var iter := IndexOfDigits(sp, x, y, z);
    pos := Pos(a, pt.wt, iter, e1, e2);
  }

  lemma IndexOfDigits(sp: Space, x: nat, y: nat, z: nat) returns (iter: nat)
    requires WellFormed(sp) && x < Radix(sp.maxDataN) && y < Radix(sp.maxDataN) && z < Radix(sp.maxColMux)
    ensures iter < Iterations(sp) && Decode(iter, Radix(sp.maxDataN), Radix(sp.maxColMux)) == (x, y, z)
  {
    iter := Encode(x, y, z, Radix(sp.maxDataN), Radix(sp.maxColMux));
    DecodeEncode(x, y, z, Radix(sp.maxDataN), Radix(sp.maxColMux));
    EncodeDecode(iter, Radix(sp.maxDataN), Radix(sp.maxDataN), Radix(sp.maxColMux));
  }

  lemma PositionsDiffer(sp: Space, p: Pos, q: Pos)
    requires WellFormed(sp) && PointAt(sp, p) == PointAt(sp, q)
    ensures p == q
  {
    var b, m := Radix(sp.maxDataN), Radix(sp.maxColMux);
    var d, e := Decode(p.iter, b, m), Decode(q.iter, b, m);
    Pow2Injective(d.0, e.0);
    Pow2Injective(d.1, e.1);
    Pow2Injective(d.2, e.2);
    EncodeDecode(p.iter, b, b, m);
    EncodeDecode(q.iter, b, b, m);
    Pow2Injective(p.e1, q.e1);
    Pow2Injective(p.e2, q.e2);
    NspdInjective(sp, p.a, q.a);
  }

  lemma NspdInjective(sp: Space, a: nat, b: nat)
    requires WellFormed(sp) && NspdAt(sp, a) == NspdAt(sp, b)
    ensures a == b
  {
    if a < b {
      NspdStrict(sp, a, b);
    } else if b < a {
      NspdStrict(sp, b, a);
    }
  }

  // ---------- the merged list ----------

  function PointsAt(sp: Space): Pos -> Point
    requires WellFormed(sp)
  {
    (pos: Pos) => PointAt(sp, pos)
  }

  /** The partitions at all valid positions. */
  lemma PointsOfSweep(sp: Space, all: seq<Pos>)
    requires WellFormed(sp) && Complete(sp, all)
    ensures Tabulates(sp, Map(PointsAt(sp), all), Recorded(sp, all))
  {
    var points := Map(PointsAt(sp), all);
    forall i, j | 0 <= i < j < |points| ensures points[i] != points[j] {
      if points[i] == points[j] {
        PositionsDiffer(sp, all[i], all[j]);
      }
    }
    forall pt ensures pt in points <==> WithinLimits(sp, pt) && sp.evaluate(pt).Valid? {
      PointOfSweep(sp, all, pt);
    }
    assert Recorded(sp, all) == Map(Evaluated(sp), points) by {
      RecordedAreEvaluated(sp, all);
    }
  }

  lemma PointOfSweep(sp: Space, all: seq<Pos>, pt: Point)
    requires WellFormed(sp) && Complete(sp, all)
    ensures pt in Map(PointsAt(sp), all) <==> WithinLimits(sp, pt) && sp.evaluate(pt).Valid?
  {
    var points := Map(PointsAt(sp), all);
    if pt in points {
      var i :| 0 <= i < |all| && points[i] == pt;
      assert all[i] in all;
      InRangeIsWithin(sp, all[i]);
    }
    if WithinLimits(sp, pt) && sp.evaluate(pt).Valid? {
      var pos := PositionOf(sp, pt);
      assert IsValid(sp, pos);
      var i :| 0 <= i < |all| && all[i] == pos;
      assert points[i] == pt;
    }
  }

  lemma RecordedAreEvaluated(sp: Space, all: seq<Pos>)
    requires WellFormed(sp) && Complete(sp, all)
    ensures Recorded(sp, all) == Map(Evaluated(sp), Map(PointsAt(sp), all))
  {
    forall i | 0 <= i < |all| ensures Recorder(sp)(all[i]) == Evaluated(sp)(PointsAt(sp)(all[i])) {
      assert all[i] in all;
    }
  }

  /** On any number of threads the sweep tries every partition within the limits, once, and no other. */
  lemma MergedTabulates(sp: Space, n: nat, arrays: seq<MemArray>) returns (points: seq<Point>)
    requires WellFormed(sp) && n > 0 && Merged(sp, n, arrays)
    ensures Tabulates(sp, points, arrays)
  {
    var all, order :| MergedFrom(sp, n, all, order, arrays);
    MergedIsSorted(sp, n, arrays, all);
    PointsOfSweep(sp, all);
    points := Map(PointsAt(sp), all);
  }

  /** An accepted partition within the limits is in the list, with its own factors and figures. */
  lemma EveryPartitionIsTried(sp: Space, n: nat, arrays: seq<MemArray>, pt: Point)
    requires WellFormed(sp) && n > 0 && Merged(sp, n, arrays) && WithinLimits(sp, pt) && sp.evaluate(pt).Valid?
    ensures exists m: MemArray :: m in arrays && m.figures == sp.evaluate(pt).figures
              && m.degBlMuxing == sp.evaluate(pt).degBlMuxing && m.nspd == pt.nspd && m.wt == pt.wt
              && m.ndwl == pt.ndwl && m.ndbl == pt.ndbl && m.ndsam1 == pt.ndsam1 && m.ndsam2 == pt.ndsam2
  {
    var points := MergedTabulates(sp, n, arrays);
    var i :| 0 <= i < |points| && points[i] == pt;
    var m := Map(Evaluated(sp), points)[i];
    SameMembers(arrays, Map(Evaluated(sp), points));
    assert m in arrays;
  }

  /** And whatever is in the list comes from such a partition. */
  lemma EveryArrayIsAPartition(sp: Space, n: nat, arrays: seq<MemArray>, m: MemArray) returns (pt: Point)
    requires WellFormed(sp) && n > 0 && Merged(sp, n, arrays) && m in arrays
    ensures WithinLimits(sp, pt) && sp.evaluate(pt) == Valid(m.degBlMuxing, m.figures)
    ensures m.nspd == pt.nspd && m.wt == pt.wt && m.ndwl == pt.ndwl && m.ndbl == pt.ndbl
    ensures m.ndsam1 == pt.ndsam1 && m.ndsam2 == pt.ndsam2
  {
    var points := MergedTabulates(sp, n, arrays);
    var all := Map(Evaluated(sp), points);
    SameMembers(arrays, all);
    var i :| 0 <= i < |all| && all[i] == m;
    pt := points[i];
    assert pt in points;
  }
}
