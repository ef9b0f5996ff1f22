/** How far the results of solve() can be from the optimum over all valid partitions. */
module UcaLimits {
  import opened BasicCircuit
  import opened Sorting
  import opened Arrays
  import opened SweepOrder
  import opened Sweep
  import opened ThreadOrder
  import opened Selection
  import opened Costs
  import opened UcaSolve

  // ---------- scaling ----------

  /** Scaling by the minima does not change which of two organisations is cheaper. */
  lemma ScalingKeepsOrder(ed: int, min: Pda, x: UcaOrg, y: UcaOrg)
    requires Positive(min) && (ed == 1 || ed == 2)
    ensures ByProduct(ed, min)(x) <= ByProduct(ed, min)(y) <==> RawProduct(ed, x.pda) <= RawProduct(ed, y.pda)
  {
    ProductIsScaled(ed, min, x.pda);
    ProductIsScaled(ed, min, y.pda);
    DivideMonotone(RawProduct(ed, x.pda), RawProduct(ed, y.pda), RawProduct(ed, min));
  }

  // ---------- when the filter before the selection costs nothing ----------

  /** The product of no organisation, of a deleted data array or not, is less than that of `u`. */
  ghost predicate OptimalOverAll(p: Partner, arrays: seq<MemArray>, ed: int, u: UcaOrg) {
    forall m :: m in arrays ==> RawProduct(ed, u.pda) <= RawProduct(ed, OrgPdaOf(p, m))
  }

  /** An array of least product is not among those that filter_data_arr deletes. */
  ghost predicate KeepsLeast(p: Partner, arrays: seq<MemArray>, ed: int) {
    exists k :: KeptLeast(p, arrays, ed, k)
  }

  ghost predicate KeptLeast(p: Partner, arrays: seq<MemArray>, ed: int, k: MemArray) {
    && Positive(MinOver(Pdas(arrays))) && k in arrays && !FarOff(MinOver(Pdas(arrays)), k)
    && OptimalOverAll(p, arrays, ed, OrgWith(p)(k))
  }

  /** In modes 1 and 2 the result is optimal over all arrays just when one of least product is kept. */
  lemma FilterKeepsOptimumIff(p: Partner, arrays: seq<MemArray>, ed: int, cr: Criteria, r: Option<UcaOrg>)
    requires (ed == 1 || ed == 2) && Outcome(p, arrays, ed, cr, r) && r.Some?
    ensures OptimalOverAll(p, arrays, ed, r.value) <==> KeepsLeast(p, arrays, ed)
  {
    var orgs := Organisations(p, arrays);
    FirstBestIsCheapest(orgs, ByProduct(ed, MinOver(Map(OrgPda, orgs))), r);
    if OptimalOverAll(p, arrays, ed, r.value) {
      OrgMember(p, arrays, r.value);
      var k :| k in arrays && Near(MinOver(Pdas(arrays)))(k) && OrgWith(p)(k) == r.value;
      assert KeptLeast(p, arrays, ed, k);
    }
    forall k | KeptLeast(p, arrays, ed, k) ensures OptimalOverAll(p, arrays, ed, r.value) {
      CheaperThanKept(p, arrays, ed, cr, r, k);
    }
  }

  lemma CheaperThanKept(p: Partner, arrays: seq<MemArray>, ed: int, cr: Criteria, r: Option<UcaOrg>, k: MemArray)
    requires (ed == 1 || ed == 2) && Outcome(p, arrays, ed, cr, r) && r.Some?
    requires k in arrays && !FarOff(MinOver(Pdas(arrays)), k)
    ensures RawProduct(ed, r.value.pda) <= RawProduct(ed, OrgPdaOf(p, k))
  {
    var orgs := Organisations(p, arrays);
    var min := MinOver(Map(OrgPda, orgs));
    FirstBestIsCheapest(orgs, ByProduct(ed, min), r);
    OrgMember(p, arrays, OrgWith(p)(k));
    ScalingKeepsOrder(ed, min, r.value, OrgWith(p)(k));
  }

  /** The same of a run of solve(), over all valid partitions. */
  lemma SolveFindsOptimumIff(job: Job, n: nat, p: Partner, arrays: seq<MemArray>, all: seq<Pos>, r: Option<UcaOrg>)
    requires JobWellFormed(job) && n > 0 && (job.ed == 1 || job.ed == 2) && Complete(job.space, all)
    requires SolutionWith(job, n, Some(p), arrays, r) && r.Some?
    ensures OptimalOverAll(p, Recorded(job.space, all), job.ed, r.value) <==>
            KeepsLeast(p, Recorded(job.space, all), job.ed)
  {
    var recorded := Recorded(job.space, all);
    FilterKeepsOptimumIff(p, arrays, job.ed, job.cr, r);
    MergedIsSorted(job.space, n, arrays, all);
    SameMembers(recorded, arrays);
    SamePdas(recorded, arrays);
    forall k ensures KeptLeast(p, recorded, job.ed, k) <==> KeptLeast(p, arrays, job.ed, k) {
    }
  }

  // ---------- a bound within which it costs nothing ----------

  /** More than half above both minima is more than so much above the product of the minima. */
  function FilterBound(ed: int): real { if ed == 1 then 2.25 else 3.375 }

  lemma ProductsGrow(a: real, b: real, x: real, y: real)
    requires a > x >= 0.0 && b > y >= 0.0
    ensures a * b > x * y
  {
    assert a * b - x * y == (a - x) * b + x * (b - y);
  }

  lemma FarOffIsDear(ed: int, min: Pda, m: MemArray)
    requires Positive(min) && (ed == 1 || ed == 2) && FarOff(min, m)
    ensures RawProduct(ed, m.figures.pda) > FilterBound(ed) * RawProduct(ed, min)
  {
    var d, e, x, y := min.delay, min.dynamic, m.figures.pda.delay, m.figures.pda.dynamic;
    HalfAbove(x, d);
    HalfAbove(y, e);
    ProductsGrow(x, y, 1.5 * d, 1.5 * e);
    PositiveFactor(1.5 * d, 1.5 * e);
    ProductsGrow(x, x * y, 1.5 * d, 1.5 * d * (1.5 * e));
    ScaledProducts(d, e);
  }

  lemma HalfAbove(x: real, d: real)
    requires d > 0.0 && (x - d) / d > 0.5
    ensures x > 1.5 * d > 0.0
  {
    assert (x - d) / d * d == x - d;
    assert (x - d) / d * d > 0.5 * d by { PositiveFactor((x - d) / d - 0.5, d); }
  }

  lemma ScaledProducts(d: real, e: real)
    ensures 1.5 * d * (1.5 * e) == 2.25 * Raw(1, d, e)
    ensures 1.5 * d * (1.5 * d * (1.5 * e)) == 3.375 * Raw(2, d, e)
  {
    assert 1.5 * d * (1.5 * e) == 2.25 * (d * e);
    assert 1.5 * d * (2.25 * (d * e)) == 3.375 * (d * (d * e));
  }

  /** For plain arrays, if some kept array has a product within the bound, the result is optimal over all arrays. */
  lemma FilterIsHarmlessWithin(arrays: seq<MemArray>, ed: int, cr: Criteria, r: Option<UcaOrg>, kept: MemArray)
    requires (ed == 1 || ed == 2) && Outcome(NoTag, arrays, ed, cr, r) && r.Some?
    requires kept in arrays && !FarOff(MinOver(Pdas(arrays)), kept)
    requires RawProduct(ed, kept.figures.pda) <= FilterBound(ed) * RawProduct(ed, MinOver(Pdas(arrays)))
    ensures OptimalOverAll(NoTag, arrays, ed, r.value)
  {
    CheaperThanKept(NoTag, arrays, ed, cr, r, kept);
    forall m | m in arrays ensures RawProduct(ed, r.value.pda) <= RawProduct(ed, OrgPdaOf(NoTag, m)) {
      if FarOff(MinOver(Pdas(arrays)), m) {
        FarOffIsDear(ed, MinOver(Pdas(arrays)), m);
      } else {
        CheaperThanKept(NoTag, arrays, ed, cr, r, m);
      }
    }
  }

  // ---------- runs on three partitions ----------

  /** Three valid partitions: two rows of subarrays, and two, four or eight columns. */
  function ThreePartitions(a: Measures, b: Measures, c: Measures): Space {
    Space(1.0, 1.0, 0, 0, 8, 1, (pt: Point) => if pt.ndbl == 2 then Columns(pt, a, b, c) else Invalid)
  }

  function Columns(pt: Point, a: Measures, b: Measures, c: Measures): Evaluation {
    if pt.ndwl == 2 then Valid(pt.ndcm, a)
    else if pt.ndwl == 4 then Valid(pt.ndcm, b)
    else if pt.ndwl == 8 then Valid(pt.ndcm, c)
    else Invalid
  }

  function Partition(ndwl: int, m: Measures): MemArray { MemArray(ndwl, 2, 1.0, 1, 1, 1, 0, m) }

  function PartitionAt(x: nat): Pos { Pos(0, 0, 4 * x + 1, 0, 0) }

  lemma ThreePartitionsShape(a: Measures, b: Measures, c: Measures)
    ensures var sp := ThreePartitions(a, b, c);
            WellFormed(sp) && Radix(8) == 4 && Radix(1) == 1 && Iterations(sp) == 16
    ensures Pow2(0) == 1 && Pow2(1) == 2 && Pow2(2) == 4 && Pow2(3) == 8
  {
    assert Log2(8) == 1 + Log2(4) && Log2(4) == 1 + Log2(2) && Log2(2) == 1 + Log2(1) && Log2(1) == 0;
  }

  /** The partition at the position with the given digits. */
  lemma PointOfDigits(sp: Space, x: nat, y: nat, z: nat, b: nat, m: nat, iter: nat)
    requires WellFormed(sp) && Radix(sp.maxDataN) == b && Radix(sp.maxColMux) == m
    requires y < b && z < m && iter == Encode(x, y, z, b, m)
    ensures PointAt(sp, Pos(0, 0, iter, 0, 0)) == Point(sp.nspdMin, 0, Pow2(x), Pow2(y), Pow2(z), 1, 1)
  {
    DecodeEncode(x, y, z, b, m);
  }

  lemma PartitionPoint(a: Measures, b: Measures, c: Measures, x: nat)
    requires 1 <= x <= 3
    ensures var sp := ThreePartitions(a, b, c);
            WellFormed(sp) && PointAt(sp, PartitionAt(x)) == Point(1.0, 0, Pow2(x), 2, 1, 1, 1)
  {
    ThreePartitionsShape(a, b, c);
    assert Encode(x, 1, 0, 4, 1) == 4 * x + 1;
    PointOfDigits(ThreePartitions(a, b, c), x, 1, 0, 4, 1, 4 * x + 1);
  }

  lemma PartitionIsValid(a: Measures, b: Measures, c: Measures, x: nat)
    requires 1 <= x <= 3
    ensures var sp, m := ThreePartitions(a, b, c), if x == 1 then a else if x == 2 then b else c;
            && WellFormed(sp) && InRange(sp, PartitionAt(x)) && IsValid(sp, PartitionAt(x))
            && ArrayAt(sp, PartitionAt(x)) == Partition(Pow2(x), m)
  {
    ThreePartitionsShape(a, b, c);
    PartitionPoint(a, b, c, x);
    PartitionFigures(Point(1.0, 0, Pow2(x), 2, 1, 1, 1), a, b, c, x);
  }

  lemma PartitionFigures(pt: Point, a: Measures, b: Measures, c: Measures, x: nat)
    requires 1 <= x <= 3 && pt == Point(1.0, 0, Pow2(x), 2, 1, 1, 1)
    ensures var m := if x == 1 then a else if x == 2 then b else c;
            && Columns(pt, a, b, c) == Valid(1, m)
            && Record(pt, Valid(1, m)) == Partition(Pow2(x), m)
  {
    assert Pow2(1) == 2 && Pow2(2) == 4 && Pow2(3) == 8;
  }

  lemma NoOtherPartition(a: Measures, b: Measures, c: Measures, pos: Pos)
    requires WellFormed(ThreePartitions(a, b, c))
    requires InRange(ThreePartitions(a, b, c), pos) && IsValid(ThreePartitions(a, b, c), pos)
    ensures pos in [PartitionAt(1), PartitionAt(2), PartitionAt(3)]
  {
    var x := ColumnsOf(a, b, c, pos);
    assert x == 1 || x == 2 || x == 3;
  }

  lemma ColumnsOf(a: Measures, b: Measures, c: Measures, pos: Pos) returns (x: nat)
    requires WellFormed(ThreePartitions(a, b, c))
    requires InRange(ThreePartitions(a, b, c), pos) && IsValid(ThreePartitions(a, b, c), pos)
    ensures 1 <= x <= 3 && pos == PartitionAt(x)
  {
    ThreePartitionsShape(a, b, c);
    var (x', y, z) := Decode(pos.iter, 4, 1);
    EncodeDecode(pos.iter, 4, 4, 1);
    Pow2Injective(y, 1);
    assert 1 <= x' <= 3;
    assert pos.iter == (x' * 4 + y) * 1 + z;
    if pos.a > 0 {
      NspdStrict(ThreePartitions(a, b, c), 0, pos.a);
    }
    assert Pow2(pos.e1) > pos.e1 && Pow2(pos.e2) > pos.e2;
    x := x';
  }

  lemma ThreeAreComplete(a: Measures, b: Measures, c: Measures)
    ensures var sp, all := ThreePartitions(a, b, c), [PartitionAt(1), PartitionAt(2), PartitionAt(3)];
            && WellFormed(sp) && Complete(sp, all)
            && Recorded(sp, all) == [Partition(2, a), Partition(4, b), Partition(8, c)]
  {
    ThreePartitionsShape(a, b, c);
    PartitionIsValid(a, b, c, 1);
    PartitionIsValid(a, b, c, 2);
    PartitionIsValid(a, b, c, 3);
    RecordedTriple(ThreePartitions(a, b, c), PartitionAt(1), PartitionAt(2), PartitionAt(3));
    ThreePositions(a, b, c);
  }

  lemma ThreePositions(a: Measures, b: Measures, c: Measures)
    requires WellFormed(ThreePartitions(a, b, c))
    ensures Complete(ThreePartitions(a, b, c), [PartitionAt(1), PartitionAt(2), PartitionAt(3)])
  {
    PartitionIsValid(a, b, c, 1);
    PartitionIsValid(a, b, c, 2);
    PartitionIsValid(a, b, c, 3);
    forall pos | InRange(ThreePartitions(a, b, c), pos) && IsValid(ThreePartitions(a, b, c), pos)
      ensures pos in [PartitionAt(1), PartitionAt(2), PartitionAt(3)]
    {
      NoOtherPartition(a, b, c, pos);
    }
    TripleIsComplete(ThreePartitions(a, b, c), PartitionAt(1), PartitionAt(2), PartitionAt(3));
  }

  lemma TripleIsComplete(sp: Space, p: Pos, q: Pos, r: Pos)
    requires WellFormed(sp) && p != q && p != r && q != r
    requires InRange(sp, p) && IsValid(sp, p) && InRange(sp, q) && IsValid(sp, q) && InRange(sp, r) && IsValid(sp, r)
    requires forall pos :: InRange(sp, pos) && IsValid(sp, pos) ==> pos in [p, q, r]
    ensures Complete(sp, [p, q, r])
  {
  }

  lemma RecordedTriple(sp: Space, p: Pos, q: Pos, r: Pos)
    requires WellFormed(sp) && IsValid(sp, p) && IsValid(sp, q) && IsValid(sp, r)
    ensures Recorded(sp, [p, q, r]) == [ArrayAt(sp, p), ArrayAt(sp, q), ArrayAt(sp, r)]
  {
  }

  /** On any number of threads the merged list shows the three in order of their columns. */
  lemma ThreeMerged(a: Measures, b: Measures, c: Measures, n: nat, arrays: seq<MemArray>)
    requires WellFormed(ThreePartitions(a, b, c)) && n > 0 && Merged(ThreePartitions(a, b, c), n, arrays)
    ensures arrays == [Partition(2, a), Partition(4, b), Partition(8, c)]
  {
    ThreeAreComplete(a, b, c);
    MergedIsSorted(ThreePartitions(a, b, c), n, arrays, [PartitionAt(1), PartitionAt(2), PartitionAt(3)]);
    SortedTripleIsUnique(Partition(2, a), Partition(4, b), Partition(8, c), arrays);
  }

  lemma SortedTripleIsUnique(x: MemArray, y: MemArray, z: MemArray, arrays: seq<MemArray>)
    requires Lt(x, y) && Lt(y, z) && Lt(x, z) && SortedCopy(NotAfter(), [x, y, z], arrays)
    ensures arrays == [x, y, z]
  {
    SameMembers([x, y, z], arrays);
    FirstInOrder(arrays, x);
    LastInOrder(arrays, z);
    assert y in arrays && arrays == [arrays[0], arrays[1], arrays[2]];
  }

  lemma FirstInOrder(arrays: seq<MemArray>, x: MemArray)
    requires x in arrays && Ordered(NotAfter(), arrays) && forall m :: m in arrays && m != x ==> Lt(x, m)
    ensures arrays[0] == x
  {
    var i :| 0 <= i < |arrays| && arrays[i] == x;
    assert arrays[0] in arrays && (i > 0 ==> NotAfter()(arrays[0], arrays[i]));
  }

  lemma LastInOrder(arrays: seq<MemArray>, z: MemArray)
    requires z in arrays && Ordered(NotAfter(), arrays) && forall m :: m in arrays && m != z ==> Lt(m, z)
    ensures arrays[|arrays| - 1] == z
  {
    var n := |arrays| - 1;
    var i :| 0 <= i < |arrays| && arrays[i] == z;
    assert arrays[n] in arrays && (i < n ==> NotAfter()(arrays[i], arrays[n]));
  }

  function PlainJob(ed: int, cr: Criteria, a: Measures, b: Measures, c: Measures): Job {
    Job(ThreePartitions(a, b, c), false, None, ed, cr)
  }

  lemma PlainSolution(ed: int, cr: Criteria, a: Measures, b: Measures, c: Measures, n: nat, r: Option<UcaOrg>)
    requires JobWellFormed(PlainJob(ed, cr, a, b, c)) && n > 0 && Solution(PlainJob(ed, cr, a, b, c), n, r)
    ensures Outcome(NoTag, [Partition(2, a), Partition(4, b), Partition(8, c)], ed, cr, r)
  {
    var p, arrays :| SolutionWith(PlainJob(ed, cr, a, b, c), n, p, arrays, r);
    ThreeMerged(a, b, c, n, arrays);
  }

  lemma FilterThree<T>(keep: T -> bool, x: T, y: T, z: T)
    requires keep(x) && keep(y)
    ensures Filter(keep, [x, y, z]) == if keep(z) then [x, y, z] else [x, y]
  {
    FilterStep(keep, [], x);
    FilterStep(keep, [x], y);
    FilterStep(keep, [x, y], z);
    assert [] + [x] == [x] && [x] + [y] == [x, y] && [x, y] + [z] == [x, y, z];
  }

  const ONES := Pda(1.0, 1.0, 1.0, 1.0, 1.0)

  // ---------- a run in which the filter deletes the optimum ----------

  function Trade(delay: real, dynamic: real): Measures {
    Measures(Pda(delay, dynamic, 1.0, 1.0, 1.0), 1.0, 1.0, Stages(0.0, 0.0, 0.0))
  }

  const FAST := Trade(1.0, 100.0)
  const THRIFTY := Trade(100.0, 1.0)
  const BALANCED := Trade(1.6, 1.6)

  function LosingArrays(): seq<MemArray> { [Partition(2, FAST), Partition(4, THRIFTY), Partition(8, BALANCED)] }

  lemma LosingMinimum()
    ensures MinOver(Pdas(LosingArrays())) == ONES
  {
    ThreeMinimum(FAST.pda, THRIFTY.pda, BALANCED.pda);
    assert Pdas(LosingArrays()) == [FAST.pda, THRIFTY.pda, BALANCED.pda];
  }

  lemma LosingFilter()
    ensures MinOver(Pdas(LosingArrays())) == ONES
    ensures Filter(Near(ONES), LosingArrays()) == [Partition(2, FAST), Partition(4, THRIFTY)]
  {
    LosingMinimum();
    FilterThree(Near(ONES), Partition(2, FAST), Partition(4, THRIFTY), Partition(8, BALANCED));
  }

  /** On any number of threads mode 1 returns an organisation of product 100, though 2.56 was available. */
  lemma SolveLosesOptimum(cr: Criteria, n: nat, r: Option<UcaOrg>)
    requires JobWellFormed(PlainJob(1, cr, FAST, THRIFTY, BALANCED)) && n > 0
    requires Solution(PlainJob(1, cr, FAST, THRIFTY, BALANCED), n, r)
    ensures r == Some(OrgWith(NoTag)(Partition(2, FAST))) && RawProduct(1, r.value.pda) == 100.0
    ensures RawProduct(1, OrgPdaOf(NoTag, Partition(8, BALANCED))) == 2.56
    ensures !OptimalOverAll(NoTag, LosingArrays(), 1, r.value)
  {
    PlainSolution(1, cr, FAST, THRIFTY, BALANCED, n, r);
    LosingOutcome(cr, r);
    assert Partition(8, BALANCED) in LosingArrays();
  }

  lemma LosingOutcome(cr: Criteria, r: Option<UcaOrg>)
    requires Outcome(NoTag, LosingArrays(), 1, cr, r)
    ensures r == Some(OrgWith(NoTag)(Partition(2, FAST)))
  {
    LosingFilter();
    var x, y := OrgWith(NoTag)(Partition(2, FAST)), OrgWith(NoTag)(Partition(4, THRIFTY));
    assert Organisations(NoTag, LosingArrays()) == [x, y];
    PairMinimum(x.pda, y.pda);
    assert Map(OrgPda, [x, y]) == [x.pda, y.pda];
    FirstOfTwo(x, y, r);
  }

  lemma FirstOfTwo(x: UcaOrg, y: UcaOrg, r: Option<UcaOrg>)
    requires ByProduct(1, ONES)(x) == 100.0 && ByProduct(1, ONES)(y) == 100.0
    requires FirstBest([x, y], ByProduct(1, ONES), r)
    ensures r == Some(x)
  {
    assert IsFirstBest([x, y], ByProduct(1, ONES), 0);
    FirstBestUnique([x, y], ByProduct(1, ONES), r, Some(x));
  }

  lemma TradesArePhysical(cr: Criteria)
    ensures JobWellFormed(PlainJob(1, cr, FAST, THRIFTY, BALANCED))
  {
    ThreePartitionsShape(FAST, THRIFTY, BALANCED);
  }

  // ---------- a run in which the weighted scan overlooks the cheapest ----------

  function Uniform(v: real): Measures {
    Measures(Pda(v, v, v, v, v), v, 1.0, Stages(0.0, 0.0, 0.0))
  }

  const DEARER := Partition(2, Uniform(1.2))
  const CHEAPER := Partition(4, Uniform(1.0))
  const DEAREST := Partition(8, Uniform(1.3))

  const LENIENT := Criteria(1.0, 1.0, 1.0, 1.0, 1.0, 1000.0, 1000.0, 1000.0, 1000.0, 1000.0)

  function WeightedJob(): Job { PlainJob(0, LENIENT, Uniform(1.2), Uniform(1.0), Uniform(1.3)) }

  lemma UniformsArePhysical()
    ensures JobWellFormed(WeightedJob()) && KeepsNdcm(WeightedJob().space)
  {
    ThreePartitionsShape(Uniform(1.2), Uniform(1.0), Uniform(1.3));
  }

  /** `r` is within all limits, and so is a cheaper organisation that reaches the selection with it. */
  ghost predicate OverlooksCheaper(r: Option<UcaOrg>) {
    && Positive(MinOver(Pdas([DEARER, CHEAPER, DEAREST])))
    && var orgs := Organisations(NoTag, [DEARER, CHEAPER, DEAREST]);
       var min, cheaper := MinOver(Map(OrgPda, orgs)), OrgWith(NoTag)(CHEAPER);
       && Positive(min) && r == Some(OrgWith(NoTag)(DEARER)) && cheaper in orgs && HidesBest(orgs, 0, LENIENT, min)
       && Admissible(LENIENT, min)(r.value) && Admissible(LENIENT, min)(cheaper)
       && Weighted(LENIENT, min)(cheaper) < Weighted(LENIENT, min)(r.value)
  }

  /** On any number of threads solve() returns the dearer organisation, although both are within all limits. */
  lemma WeightedSolveOverlooksSecond(n: nat, r: Option<UcaOrg>)
    requires JobWellFormed(WeightedJob()) && n > 0 && Solution(WeightedJob(), n, r)
    ensures r == Some(OrgWith(NoTag)(DEARER)) && OverlooksCheaper(r)
  {
    PlainSolution(0, LENIENT, Uniform(1.2), Uniform(1.0), Uniform(1.3), n, r);
    WeightedOutcome(r);
  }

  lemma WeightedOrganisations()
    ensures MinOver(Pdas([DEARER, CHEAPER, DEAREST])) == ONES
    ensures Organisations(NoTag, [DEARER, CHEAPER, DEAREST]) ==
            [OrgWith(NoTag)(DEARER), OrgWith(NoTag)(CHEAPER), OrgWith(NoTag)(DEAREST)]
    ensures MinOver(Map(OrgPda, Organisations(NoTag, [DEARER, CHEAPER, DEAREST]))) == ONES
  {
    var s := [DEARER, CHEAPER, DEAREST];
    ThreeMinimum(DEARER.figures.pda, CHEAPER.figures.pda, DEAREST.figures.pda);
    assert Pdas(s) == [DEARER.figures.pda, CHEAPER.figures.pda, DEAREST.figures.pda];
    FilterThree(Near(ONES), DEARER, CHEAPER, DEAREST);
    var orgs := Organisations(NoTag, s);
    ThreeMinimum(orgs[0].pda, orgs[1].pda, orgs[2].pda);
    assert Map(OrgPda, orgs) == [orgs[0].pda, orgs[1].pda, orgs[2].pda];
  }

  lemma WeightedOutcome(r: Option<UcaOrg>)
    requires Outcome(NoTag, [DEARER, CHEAPER, DEAREST], 0, LENIENT, r)
    ensures OverlooksCheaper(r)
  {
    WeightedOrganisations();
    WeightedTriple(Organisations(NoTag, [DEARER, CHEAPER, DEAREST]), r);
  }

  lemma WeightedTriple(orgs: seq<UcaOrg>, r: Option<UcaOrg>)
    requires orgs == [OrgWith(NoTag)(DEARER), OrgWith(NoTag)(CHEAPER), OrgWith(NoTag)(DEAREST)]
    requires Chosen(orgs, 0, LENIENT, ONES, r)
    ensures r == Some(orgs[0]) && HidesBest(orgs, 0, LENIENT, ONES)
    ensures Admissible(LENIENT, ONES)(orgs[0]) && Admissible(LENIENT, ONES)(orgs[1])
    ensures Weighted(LENIENT, ONES)(orgs[1]) < Weighted(LENIENT, ONES)(orgs[0])
  {
    forall i | 0 <= i < 3 ensures Check(LENIENT, ONES, orgs[i].pda) {
    }
    assert WeightedCost(LENIENT, ONES, orgs[0].pda) == 6.0;
    assert WeightedCost(LENIENT, ONES, orgs[1].pda) == 5.0;
    assert WeightedCost(LENIENT, ONES, orgs[2].pda) == 6.5;
    assert Visits(orgs, true) == [orgs[0], orgs[2]];
    assert IsFirstBest([orgs[0], orgs[2]], Effective(Admissible(LENIENT, ONES), Weighted(LENIENT, ONES)), 0);
    var eff := Effective(Admissible(LENIENT, ONES), Weighted(LENIENT, ONES));
    FirstBestUnique([orgs[0], orgs[2]], eff, r, Some(orgs[0]));
  }
}
