/** The traversal loops of `htree2.cc`, with the wire model abstracted to functions of the length. */
module Htree {
  import opened BasicCircuit

  /**
   What a wire of the given length adds: delay and read energy, and for a bundle of so many wires the
   search energy and the leakage of both kinds.
   */
  datatype WireModel = WireModel(
    delay: real -> real,
    dynamic: real -> real,
    search: (real, nat) -> real,
    leakage: (real, nat) -> real,
    gateLeakage: (real, nat) -> real)

  datatype TreeKind = TreeKind(uca: bool, search: bool)

  // ---------- what is left to traverse ----------

  /** Horizontal and vertical links to go, and the lengths of the next ones. */
  datatype Rest = Rest(h: nat, v: nat, len: real, ht: real)

  predicate Finished(r: Rest) { r.h == 0 && r.v == 0 }

  datatype Branch = Horizontal | Both | Vertical

  /** Which links the next iteration takes. */
  function NextBranch(r: Rest): Branch
    requires !Finished(r)
  {
    if r.h > r.v then Horizontal else if r.v > 0 && r.h > 0 then Both else Vertical
  }

  /** What that iteration leaves. */
  function NextRest(r: Rest): Rest
    requires !Finished(r)
  {
    match NextBranch(r)
    case Horizontal => Rest(r.h - 1, r.v, r.len / 2.0, r.ht)
    case Both => Rest(r.h - 1, r.v - 1, r.len / 2.0, r.ht / 2.0)
    case Vertical => Rest(r.h, r.v - 1, r.len, r.ht / 2.0)
  }

  function Max(x: nat, y: nat): nat { if x < y then y else x }

  // ---------- bandwidth ----------

  /** The factor by which the wire bandwidth still grows. */
  function Growth(k: TreeKind, h: nat, v: nat): (g: nat)
    ensures g >= 1
  {
    if k.search then (if k.uca then Pow2(Max(h, v)) else Pow2(h + v))
    else if k.uca then 1 else Pow2(v)
  }

  /** Whether the bandwidth doubles at the first level of an iteration. */
  predicate Doubles(k: TreeKind, b: Branch) {
    (!k.uca && b == Vertical) || k.search
  }

  /** The bandwidth after the first level of an iteration. */
  function Widened(k: TreeKind, b: Branch, bw: nat): nat {
    if Doubles(k, b) then bw * 2 else bw
  }

  /** The bandwidth an iteration leaves; the second level is one of both links only. */
  function NextBw(k: TreeKind, b: Branch, bw: nat): nat {
    if b == Both && !k.uca then Widened(k, b, bw) * 2 else Widened(k, b, bw)
  }

  /** The bandwidth an iteration leaves, and what growth then remains, make up what there was. */
  lemma GrowthCarry(k: TreeKind, r: Rest, bw: nat)
    requires !Finished(r)
    ensures bw * Growth(k, r.h, r.v) == NextBw(k, NextBranch(r), bw) * Growth(k, NextRest(r).h, NextRest(r).v)
  {
    var g := Growth(k, NextRest(r).h, NextRest(r).v);
    if NextBranch(r) == Both && k.search && !k.uca {
      assert Pow2(r.h + r.v) == 2 * Pow2(r.h + r.v - 1) && Pow2(r.h + r.v - 1) == 2 * Pow2(r.h - 1 + (r.v - 1));
      Doubled(bw, 4, g);
    } else {
      Doubled(bw, 2, g);
    }
  }

  lemma Doubled(bw: nat, f: nat, g: nat)
    ensures bw * (f * g) == bw * f * g
  {
  }

  // ---------- what single wires add up to ----------

  /** f(x) + f(x / 2) + ... over `n` halvings. */
  function HalvingSum(f: real -> real, x: real, n: nat): real
    decreases n
  {
    if n == 0 then 0.0 else f(x) + HalvingSum(f, x / 2.0, n - 1)
  }

  /** The sum is over f(x / 2^k) for k below n. */
  lemma {:induction false} HalvingSumTerms(f: real -> real, x: real, n: nat)
    ensures HalvingSum(f, x, n + 1) == HalvingSum(f, x, n) + f(x / Pow2(n) as real)
    decreases n
  {
    if n > 0 {
      HalvingSumTerms(f, x / 2.0, n - 1);
      NextLength(x, n - 1);
    } else {
      WholeLength(x);
    }
  }

  lemma WholeLength(x: real)
    ensures x / Pow2(0) as real == x
  {
    assert Pow2(0) as real == 1.0;
  }

  lemma NextLength(x: real, i: nat)
    ensures x / 2.0 / Pow2(i) as real == x / Pow2(i + 1) as real
  {
    HalfThenDivide(x, Pow2(i) as real, Pow2(i + 1) as real);
  }

  lemma HalfThenDivide(x: real, d: real, e: real)
    requires d > 0.0 && e == 2.0 * d
    ensures x / 2.0 / d == x / e
  {
    var q := x / 2.0 / d;
    assert q * d == x / 2.0;
    assert q * e == 2.0 * (q * d);
  }

  /** What the links contribute over the whole tree: all horizontal links and all vertical ones. */
  function LinkTotal(f: real -> real, r: Rest): real {
    HalvingSum(f, r.len, r.h) + HalvingSum(f, r.ht, r.v)
  }

  /** What one iteration contributes to that. */
  function Added(f: real -> real, r: Rest): real
    requires !Finished(r)
  {
    match NextBranch(r)
    case Horizontal => f(r.len)
    case Both => f(r.len) + f(r.ht)
    case Vertical => f(r.ht)
  }

  lemma LinkTotalStep(f: real -> real, r: Rest)
    requires !Finished(r)
    ensures LinkTotal(f, r) == Added(f, r) + LinkTotal(f, NextRest(r))
  {
  }

  // ---------- what bundles of wires add up to ----------

  /** What a bundle adds by its length and bandwidth; `twice` says that one of the second level is entered twice. */
  datatype Load = Load(each: (real, nat) -> real, twice: bool)

  function Count(twice: bool, x: real): real { if twice then x + x else x }

  /** What the bundles of one iteration add. */
  function AddedBundles(k: TreeKind, g: Load, r: Rest, bw: nat): real
    requires !Finished(r)
  {
    match NextBranch(r)
    case Horizontal => g.each(r.len, bw)
    case Both => g.each(r.len, bw) + Count(g.twice, g.each(r.ht, Widened(k, Both, bw)))
    case Vertical => g.each(r.ht, bw)
  }

  /** What all bundles add from here on. */
  function Carried(k: TreeKind, g: Load, r: Rest, bw: nat): real
    decreases r.h + r.v
  {
    if Finished(r) then 0.0
    else AddedBundles(k, g, r, bw) + Carried(k, g, NextRest(r), NextBw(k, NextBranch(r), bw))
  }

  // ---------- the same as a sum over the links ----------

  /** f(0) + ... + f(n - 1). */
  function Sum(f: nat -> real, n: nat): real {
    if n == 0 then 0.0 else Sum(f, n - 1) + f(n - 1)
  }

  function Beyond(i: nat, d: nat): nat { if i > d then i - d else 0 }

  function One(b: bool): nat { if b then 1 else 0 }

  /**
   How often the bandwidth has doubled when it reaches the i-th horizontal link: at every link of a
   search tree, and, within a bank, at every link that a vertical one has preceded.
   */
  function HorizontalDoublings(k: TreeKind, r: Rest, i: nat): nat {
    (if k.search then i else 0) + (if k.uca then 0 else Beyond(i, Beyond(r.h, r.v)))
  }

  /**
   And when it reaches the i-th vertical link, which follows a horizontal one while there are any
   left; the last vertical links come alone.
   */
  function VerticalDoublings(k: TreeKind, r: Rest, i: nat): nat {
    if i < r.h then (if k.search then Beyond(r.h, r.v) + i + 1 else 0) + (if k.uca then 0 else i)
    else (if k.search then r.h else 0) + (if k.uca then 0 else r.h) + (if k.search || !k.uca then i - r.h else 0)
  }

  function HorizontalTerm(k: TreeKind, g: Load, r: Rest, bw: nat): nat -> real {
    (i: nat) => g.each(r.len / Pow2(i) as real, bw * Pow2(HorizontalDoublings(k, r, i)))
  }

  /** A vertical link that follows a horizontal one is of second level. */
  function VerticalTerm(k: TreeKind, g: Load, r: Rest, bw: nat): nat -> real {
    (i: nat) => Count(g.twice && i < r.h, g.each(r.ht / Pow2(i) as real, bw * Pow2(VerticalDoublings(k, r, i))))
  }

  function Horizontals(k: TreeKind, g: Load, r: Rest, bw: nat): real { Sum(HorizontalTerm(k, g, r, bw), r.h) }

  function Verticals(k: TreeKind, g: Load, r: Rest, bw: nat): real { Sum(VerticalTerm(k, g, r, bw), r.v) }

  /** The sum over all links of what a bundle of its length and bandwidth adds. */
  function LinkSum(k: TreeKind, g: Load, r: Rest, bw: nat): real {
    Horizontals(k, g, r, bw) + Verticals(k, g, r, bw)
  }

  lemma {:induction false} SumShift(f: nat -> real, g: nat -> real, n: nat)
    requires forall i: nat :: i < n ==> f(i + 1) == g(i)
    ensures Sum(f, n + 1) == f(0) + Sum(g, n)
  {
    if n > 0 {
      SumShift(f, g, n - 1);
      assert f(n - 1 + 1) == g(n - 1);
    }
  }

  lemma {:induction false} SumSame(f: nat -> real, g: nat -> real, n: nat)
    requires forall i: nat :: i < n ==> f(i) == g(i)
    ensures Sum(f, n) == Sum(g, n)
  {
    if n > 0 {
      SumSame(f, g, n - 1);
    }
  }

  /** How often the bandwidth doubles in an iteration. */
  function NextDoublings(k: TreeKind, b: Branch): nat {
    if b == Both then One(k.search) + One(!k.uca) else One(Doubles(k, b))
  }

  lemma NextBwIsPower(k: TreeKind, b: Branch, bw: nat)
    ensures NextBw(k, b, bw) == bw * Pow2(NextDoublings(k, b))
    ensures Widened(k, b, bw) == bw * Pow2(One(Doubles(k, b)))
  {
    assert Pow2(0) == 1 && Pow2(1) == 2 && Pow2(2) == 4;
  }

  /** Doubling `e` times now and `d` times later. */
  lemma MoreDoublings(bw: nat, wide: nat, e: nat, d: nat)
    requires wide == bw * Pow2(e)
    ensures wide * Pow2(d) == bw * Pow2(d + e)
  {
    Pow2Add(e, d);
    Regrouped(bw, Pow2(e), Pow2(d), Pow2(d + e));
  }

  lemma Regrouped(x: nat, y: nat, z: nat, yz: nat)
    requires yz == y * z
    ensures x * y * z == x * yz
  {
  }

  // how the terms of the whole tree and of what remains after one iteration correspond

  lemma NextHorizontal(k: TreeKind, g: Load, r: Rest, q: Rest, bw: nat, wide: nat, e: nat, i: nat)
    requires wide == bw * Pow2(e) && q.len == r.len / 2.0
    requires HorizontalDoublings(k, r, i + 1) == HorizontalDoublings(k, q, i) + e
    ensures HorizontalTerm(k, g, r, bw)(i + 1) == HorizontalTerm(k, g, q, wide)(i)
  {
    NextLength(r.len, i);
    MoreDoublings(bw, wide, e, HorizontalDoublings(k, q, i));
  }

  lemma NextVertical(k: TreeKind, g: Load, r: Rest, q: Rest, bw: nat, wide: nat, e: nat, i: nat)
    requires wide == bw * Pow2(e) && q.ht == r.ht / 2.0 && (i + 1 < r.h <==> i < q.h)
    requires VerticalDoublings(k, r, i + 1) == VerticalDoublings(k, q, i) + e
    ensures VerticalTerm(k, g, r, bw)(i + 1) == VerticalTerm(k, g, q, wide)(i)
  {
    NextLength(r.ht, i);
    MoreDoublings(bw, wide, e, VerticalDoublings(k, q, i));
  }

  lemma SameVertical(k: TreeKind, g: Load, r: Rest, q: Rest, bw: nat, wide: nat, e: nat, i: nat)
    requires wide == bw * Pow2(e) && q.ht == r.ht && (i < r.h <==> i < q.h)
    requires VerticalDoublings(k, r, i) == VerticalDoublings(k, q, i) + e
    ensures VerticalTerm(k, g, r, bw)(i) == VerticalTerm(k, g, q, wide)(i)
  {
    MoreDoublings(bw, wide, e, VerticalDoublings(k, q, i));
  }

  lemma FirstHorizontal(k: TreeKind, g: Load, r: Rest, bw: nat)
    ensures HorizontalTerm(k, g, r, bw)(0) == g.each(r.len, bw)
  {
    WholeLength(r.len);
    assert Pow2(0) == 1;
  }

  lemma FirstVertical(k: TreeKind, g: Load, r: Rest, bw: nat)
    ensures r.h == 0 ==> VerticalTerm(k, g, r, bw)(0) == g.each(r.ht, bw)
    ensures 0 < r.h <= r.v ==> VerticalTerm(k, g, r, bw)(0) == Count(g.twice, g.each(r.ht, Widened(k, Both, bw)))
  {
    WholeLength(r.ht);
    if r.h == 0 {
      assert VerticalDoublings(k, r, 0) == 0 && bw * Pow2(0) == bw;
    } else if r.h <= r.v {
      NextBwIsPower(k, Both, bw);
      assert VerticalDoublings(k, r, 0) == One(k.search);
    }
  }

  lemma VerticalDoublingsStep(k: TreeKind, r: Rest, i: nat)
    requires r.v > 0 && r.h <= r.v
    ensures VerticalDoublings(k, r, i + 1) == VerticalDoublings(k, NextRest(r), i) + NextDoublings(k, NextBranch(r))
  {
  }

  lemma HorizontalDoublingsStep(k: TreeKind, r: Rest, i: nat)
    requires r.h > 0
    ensures HorizontalDoublings(k, r, i + 1) == HorizontalDoublings(k, NextRest(r), i) + NextDoublings(k, NextBranch(r))
  {
  }

  /** The horizontal links, when one of them is taken. */
  lemma HorizontalsStep(k: TreeKind, g: Load, r: Rest, q: Rest, bw: nat, wide: nat)
    requires r.h > 0 && q == NextRest(r) && wide == NextBw(k, NextBranch(r), bw)
    ensures Horizontals(k, g, r, bw) == g.each(r.len, bw) + Horizontals(k, g, q, wide)
  {
    var e := NextDoublings(k, NextBranch(r));
    NextBwIsPower(k, NextBranch(r), bw);
    forall i: nat | i < q.h ensures HorizontalTerm(k, g, r, bw)(i + 1) == HorizontalTerm(k, g, q, wide)(i) {
      HorizontalDoublingsStep(k, r, i);
      NextHorizontal(k, g, r, q, bw, wide, e, i);
    }
    SumShift(HorizontalTerm(k, g, r, bw), HorizontalTerm(k, g, q, wide), q.h);
    FirstHorizontal(k, g, r, bw);
  }

  /** The vertical links, when one of them is taken. */
  lemma VerticalsStep(k: TreeKind, g: Load, r: Rest, q: Rest, bw: nat, wide: nat)
    requires r.v > 0 && r.h <= r.v && q == NextRest(r) && wide == NextBw(k, NextBranch(r), bw)
    ensures Verticals(k, g, r, bw) == VerticalTerm(k, g, r, bw)(0) + Verticals(k, g, q, wide)
  {
    var e := NextDoublings(k, NextBranch(r));
    NextBwIsPower(k, NextBranch(r), bw);
    forall i: nat | i < q.v ensures VerticalTerm(k, g, r, bw)(i + 1) == VerticalTerm(k, g, q, wide)(i) {
      VerticalDoublingsStep(k, r, i);
      NextVertical(k, g, r, q, bw, wide, e, i);
    }
    SumShift(VerticalTerm(k, g, r, bw), VerticalTerm(k, g, q, wide), q.v);
  }

  /** And when none is taken. */
  lemma VerticalsKept(k: TreeKind, g: Load, r: Rest, q: Rest, bw: nat, wide: nat)
    requires r.h > r.v && q == NextRest(r) && wide == NextBw(k, Horizontal, bw)
    ensures Verticals(k, g, r, bw) == Verticals(k, g, q, wide)
  {
    NextBwIsPower(k, Horizontal, bw);
    forall i: nat | i < r.v ensures VerticalTerm(k, g, r, bw)(i) == VerticalTerm(k, g, q, wide)(i) {
      SameVertical(k, g, r, q, bw, wide, NextDoublings(k, Horizontal), i);
    }
    SumSame(VerticalTerm(k, g, r, bw), VerticalTerm(k, g, q, wide), r.v);
  }

  lemma LinkSumStep(k: TreeKind, g: Load, r: Rest, q: Rest, bw: nat, wide: nat)
    requires !Finished(r) && q == NextRest(r) && wide == NextBw(k, NextBranch(r), bw)
    ensures LinkSum(k, g, r, bw) == AddedBundles(k, g, r, bw) + LinkSum(k, g, q, wide)
  {
    match NextBranch(r)
    case Horizontal =>
      HorizontalsStep(k, g, r, q, bw, wide);
      VerticalsKept(k, g, r, q, bw, wide);
    case Both =>
      HorizontalsStep(k, g, r, q, bw, wide);
      VerticalsStep(k, g, r, q, bw, wide);
      FirstVertical(k, g, r, bw);
    case Vertical =>
      VerticalsStep(k, g, r, q, bw, wide);
      FirstVertical(k, g, r, bw);
  }

  /** The accumulation is the sum over the links. */
  lemma {:induction false} CarriedIsLinkSum(k: TreeKind, g: Load, r: Rest, bw: nat)
    ensures Carried(k, g, r, bw) == LinkSum(k, g, r, bw)
    decreases r.h + r.v
  {
    if !Finished(r) {
      var q, wide := NextRest(r), NextBw(k, NextBranch(r), bw);
      CarriedIsLinkSum(k, g, q, wide);
      LinkSumStep(k, g, r, q, bw, wide);
    }
  }

  // ---------- running totals ----------

  /** What a traversal accumulates. */
  datatype Sums = Sums(bw: nat, delay: real, read: real, search: real, leak: real, gateLeak: real)

  /** The totals after a first-level wire. */
  function AfterFirst(k: TreeKind, w: WireModel, s: Sums, length: real, b: Branch): Sums {
    Sums(Widened(k, b, s.bw), s.delay + w.delay(length), s.read + w.dynamic(length),
         s.search + w.search(length, s.bw),
         s.leak + w.leakage(length, s.bw), s.gateLeak + w.gateLeakage(length, s.bw))
  }

  /** And after a second-level wire, whose leakage is entered twice in either kind of tree. */
  function AfterSecond(k: TreeKind, w: WireModel, s: Sums, length: real): Sums {
    Sums(if k.uca then s.bw else s.bw * 2, s.delay + w.delay(length), s.read + w.dynamic(length),
         s.search + w.search(length, s.bw),
         s.leak + Count(true, w.leakage(length, s.bw)), s.gateLeak + Count(true, w.gateLeakage(length, s.bw)))
  }

  /** The totals after one iteration. */
  function NextSums(k: TreeKind, w: WireModel, s: Sums, r: Rest): Sums
    requires !Finished(r)
  {
    match NextBranch(r)
    case Horizontal => AfterFirst(k, w, s, r.len, Horizontal)
    case Both => AfterSecond(k, w, AfterFirst(k, w, s, r.len, Both), r.ht)
    case Vertical => AfterFirst(k, w, s, r.ht, Vertical)
  }

  function SearchLoad(w: WireModel): Load { Load(w.search, false) }

  function LeakLoad(w: WireModel): Load { Load(w.leakage, true) }

  function GateLeakLoad(w: WireModel): Load { Load(w.gateLeakage, true) }

  /** The totals to expect once the remaining links are done. */
  function Expected(k: TreeKind, w: WireModel, s: Sums, r: Rest): Sums {
    Sums(s.bw * Growth(k, r.h, r.v),
         s.delay + LinkTotal(w.delay, r),
         s.read + LinkTotal(w.dynamic, r),
         s.search + Carried(k, SearchLoad(w), r, s.bw),
         s.leak + Carried(k, LeakLoad(w), r, s.bw),
         s.gateLeak + Carried(k, GateLeakLoad(w), r, s.bw))
  }

  /** The totals of a whole tree, link by link. */
  function WholeTree(k: TreeKind, w: WireModel, init: nat, r: Rest): Sums {
    Sums(init * Growth(k, r.h, r.v),
         LinkTotal(w.delay, r),
         LinkTotal(w.dynamic, r),
         LinkSum(k, SearchLoad(w), r, init),
         LinkSum(k, LeakLoad(w), r, init),
         LinkSum(k, GateLeakLoad(w), r, init))
  }

  lemma ExpectedAtStart(k: TreeKind, w: WireModel, s: Sums, t: Sums, r: Rest)
    requires s == Sums(s.bw, 0.0, 0.0, 0.0, 0.0, 0.0) && t == Expected(k, w, s, r)
    ensures t == WholeTree(k, w, s.bw, r)
  {
    CarriedIsLinkSum(k, SearchLoad(w), r, s.bw);
    CarriedIsLinkSum(k, LeakLoad(w), r, s.bw);
    CarriedIsLinkSum(k, GateLeakLoad(w), r, s.bw);
  }

  lemma NextSumsAdd(k: TreeKind, w: WireModel, s: Sums, r: Rest)
    requires !Finished(r)
    ensures NextSums(k, w, s, r) ==
            Sums(NextBw(k, NextBranch(r), s.bw), s.delay + Added(w.delay, r), s.read + Added(w.dynamic, r),
                 s.search + AddedBundles(k, SearchLoad(w), r, s.bw),
                 s.leak + AddedBundles(k, LeakLoad(w), r, s.bw),
                 s.gateLeak + AddedBundles(k, GateLeakLoad(w), r, s.bw))
  {
  }

  /** An iteration keeps the expected totals. */
  lemma IterationKeepsTotals(k: TreeKind, w: WireModel, s: Sums, r: Rest)
    requires !Finished(r)
    ensures Expected(k, w, NextSums(k, w, s, r), NextRest(r)) == Expected(k, w, s, r)
  {
    NextSumsAdd(k, w, s, r);
    GrowthCarry(k, r, s.bw);
    LinkTotalStep(w.delay, r);
    LinkTotalStep(w.dynamic, r);
  }

  // ---------- search energy against read energy ----------

  /** What every wire adds, for all wires of a bundle. */
  function AllBits(bits: nat, each: real): real { each * bits as real }

  /** The search energy of a bundle is the read energy of its wires, as the traversals compute it. */
  ghost predicate SearchesByRead(w: WireModel) {
    forall x: real, bw: nat :: w.search(x, bw) == AllBits(bw, w.dynamic(x))
  }

  /** out_htree weighs the search energy by the initial bandwidth, in_htree by the bandwidth reached. */
  function Weighed(w: WireModel, init: nat, broadcast: bool): WireModel {
    if broadcast then w else w.(search := (x: real, bw: nat) => w.search(x, init))
  }

  /** Bundles that weigh the same at any bandwidth add up link by link. */
  lemma {:induction false} CarriedAtAnyBandwidth(k: TreeKind, g: Load, f: real -> real, r: Rest, bw: nat)
    requires !g.twice && forall x: real, b: nat :: g.each(x, b) == f(x)
    ensures Carried(k, g, r, bw) == LinkTotal(f, r)
    decreases r.h + r.v
  {
    if !Finished(r) {
      CarriedAtAnyBandwidth(k, g, f, NextRest(r), NextBw(k, NextBranch(r), bw));
      LinkTotalStep(f, r);
    }
  }

  /** Bundles that weigh more from some bandwidth on make a heavier tree. */
  lemma {:induction false} CarriedMonotone(k: TreeKind, g: Load, l: Load, r: Rest, bw: nat, floor: nat)
    requires !g.twice && !l.twice && bw >= floor
    requires forall x: real, b: nat :: b >= floor ==> g.each(x, b) >= l.each(x, b)
    ensures Carried(k, g, r, bw) >= Carried(k, l, r, bw)
    decreases r.h + r.v
  {
    if !Finished(r) {
      CarriedMonotone(k, g, l, NextRest(r), NextBw(k, NextBranch(r), bw), floor);
    }
  }

  /** Between banks, outside search trees, the bandwidth never grows. */
  lemma {:induction false} CarriedBetweenBanks(k: TreeKind, g: Load, l: Load, r: Rest, bw: nat)
    requires k.uca && !k.search && g.twice == l.twice && forall x :: g.each(x, bw) == l.each(x, bw)
    ensures Carried(k, g, r, bw) == Carried(k, l, r, bw)
    decreases r.h + r.v
  {
    if !Finished(r) {
      CarriedBetweenBanks(k, g, l, NextRest(r), bw);
    }
  }

  lemma AllBitsAdds(bits: nat, x: real, y: real)
    ensures AllBits(bits, x + y) == AllBits(bits, x) + AllBits(bits, y)
  {
  }

  lemma {:induction false} HalvingSumOfAllBits(f: real -> real, g: real -> real, x: real, n: nat, bits: nat)
    requires forall y :: g(y) == AllBits(bits, f(y))
    ensures HalvingSum(g, x, n) == AllBits(bits, HalvingSum(f, x, n))
    decreases n
  {
    if n > 0 {
      HalvingSumOfAllBits(f, g, x / 2.0, n - 1, bits);
      AllBitsAdds(bits, f(x), HalvingSum(f, x / 2.0, n - 1));
    }
  }

  lemma LinkTotalOfAllBits(f: real -> real, g: real -> real, r: Rest, bits: nat)
    requires forall y :: g(y) == AllBits(bits, f(y))
    ensures LinkTotal(g, r) == AllBits(bits, LinkTotal(f, r))
  {
    HalvingSumOfAllBits(f, g, r.len, r.h, bits);
    HalvingSumOfAllBits(f, g, r.ht, r.v, bits);
    AllBitsAdds(bits, HalvingSum(f, r.len, r.h), HalvingSum(f, r.ht, r.v));
  }

  function BitsOf(w: WireModel, bits: nat): real -> real { (x: real) => AllBits(bits, w.dynamic(x)) }

  lemma OutputSearch(k: TreeKind, w: WireModel, init: nat, r: Rest)
    requires SearchesByRead(w)
    ensures LinkSum(k, SearchLoad(Weighed(w, init, false)), r, init) == AllBits(init, LinkTotal(w.dynamic, r))
  {
    var g, f := SearchLoad(Weighed(w, init, false)), BitsOf(w, init);
    CarriedIsLinkSum(k, g, r, init);
    CarriedAtAnyBandwidth(k, g, f, r, init);
    LinkTotalOfAllBits(w.dynamic, f, r, init);
  }

  lemma HeavierLoad(d: real, init: nat, bw: nat)
    requires d >= 0.0 && bw >= init
    ensures AllBits(bw, d) >= AllBits(init, d)
  {
  }

  lemma InputSearchCovers(k: TreeKind, w: WireModel, init: nat, r: Rest)
    requires SearchesByRead(w) && forall x :: w.dynamic(x) >= 0.0
    ensures LinkSum(k, SearchLoad(w), r, init) >= LinkSum(k, SearchLoad(Weighed(w, init, false)), r, init)
  {
    var g, l := SearchLoad(w), SearchLoad(Weighed(w, init, false));
    CarriedIsLinkSum(k, g, r, init);
    CarriedIsLinkSum(k, l, r, init);
    forall x: real, b: nat | b >= init ensures g.each(x, b) >= l.each(x, b) {
      HeavierLoad(w.dynamic(x), init, b);
    }
    CarriedMonotone(k, g, l, r, init, init);
  }

  lemma InputSearchBetweenBanks(k: TreeKind, w: WireModel, init: nat, r: Rest)
    requires k.uca && !k.search
    ensures LinkSum(k, SearchLoad(w), r, init) == LinkSum(k, SearchLoad(Weighed(w, init, false)), r, init)
  {
    var g, l := SearchLoad(w), SearchLoad(Weighed(w, init, false));
    CarriedIsLinkSum(k, g, r, init);
    CarriedIsLinkSum(k, l, r, init);
    CarriedBetweenBanks(k, g, l, r, init);
  }

  /**
   The search energy of an output tree is the read energy of all its initial bits. That of an input
   tree is never less, and no more between banks.
   */
  lemma SearchEnergy(k: TreeKind, w: WireModel, init: nat, broadcast: bool, r: Rest, s: Sums)
    requires SearchesByRead(w) && s == WholeTree(k, Weighed(w, init, broadcast), init, r)
    ensures !broadcast || (k.uca && !k.search) ==> s.search == AllBits(init, s.read)
    ensures (forall x :: w.dynamic(x) >= 0.0) ==> s.search >= AllBits(init, s.read)
  {
    OutputSearch(k, w, init, r);
    if broadcast && k.uca && !k.search {
      InputSearchBetweenBanks(k, w, init, r);
    }
    if broadcast && forall x :: w.dynamic(x) >= 0.0 {
      InputSearchCovers(k, w, init, r);
    }
  }

  // ---------- the traversals ----------

  class Tree {
    const kind: TreeKind
    const wire: WireModel
    const initWireBw: nat
    var wireBw: nat
    var areaH: real
    var areaW: real
    var wireDelay: real
    var readDynamic: real
    var searchDynamic: real
    var leakage: real
    var gateLeakage: real

    constructor (kind: TreeKind, wire: WireModel, bits: nat)
      ensures this.kind == kind && this.wire == wire && initWireBw == bits && wireBw == bits
    {
      this.kind, this.wire, initWireBw, wireBw := kind, wire, bits, bits;
      areaH, areaW := 0.0, 0.0;
      wireDelay, readDynamic, searchDynamic, leakage, gateLeakage := 0.0, 0.0, 0.0, 0.0, 0.0;
    }

    /** The running totals. */
    function State(): Sums
      reads this
    {
      Sums(wireBw, wireDelay, readDynamic, searchDynamic, leakage, gateLeakage)
    }

    ghost function Final(w: WireModel, r: Rest): Sums
      reads this
    {
      Expected(kind, w, State(), r)
    }

    /** The results a traversal promises: area, and the totals of all links, whatever the shape of the tree. */
    ghost predicate Traversed(broadcast: bool, ndwl: nat, ndbl: nat, lenTemp: real, htTemp: real)
      requires ndwl >= 2 && ndbl >= 2
      reads this
    {
      && areaH == htTemp * 2.0 && areaW == lenTemp * 2.0
      && State() == WholeTree(kind, Weighed(wire, initWireBw, broadcast), initWireBw,
                              Rest(Log2(ndwl / 2), Log2(ndbl / 2), lenTemp, htTemp / 2.0))
    }

    /** Delay and energies of one wire; `w` is the wire model with its search energy weighed for the traversal. */
    method AddWire(w: WireModel, length: real)
      modifies this`wireDelay, this`readDynamic, this`searchDynamic
      ensures wireDelay == old(wireDelay) + w.delay(length)
      ensures readDynamic == old(readDynamic) + w.dynamic(length)
      ensures searchDynamic == old(searchDynamic) + w.search(length, wireBw)
    {
      wireDelay := wireDelay + w.delay(length);
      readDynamic := readDynamic + w.dynamic(length);
      searchDynamic := searchDynamic + w.search(length, wireBw);
    }

    method AddLeakage(w: WireModel, length: real)
      modifies this`leakage, this`gateLeakage
      ensures leakage == old(leakage) + w.leakage(length, wireBw)
      ensures gateLeakage == old(gateLeakage) + w.gateLeakage(length, wireBw)
    {
      leakage := leakage + w.leakage(length, wireBw);
      gateLeakage := gateLeakage + w.gateLeakage(length, wireBw);
    }

    /** The wire of the first level. */
    method FirstWire(w: WireModel, length: real, b: Branch)
      modifies this`wireDelay, this`readDynamic, this`searchDynamic, this`leakage, this`gateLeakage, this`wireBw
      ensures State() == AfterFirst(kind, w, old(State()), length, b)
    {
      AddWire(w, length);
      AddLeakage(w, length);
      if (!kind.uca && b == Vertical) || kind.search {
        wireBw := wireBw * 2;
      }
    }

    /** The wire of the second level. */
    method SecondWire(w: WireModel, length: real)
      modifies this`wireDelay, this`readDynamic, this`searchDynamic, this`leakage, this`gateLeakage, this`wireBw
      ensures State() == AfterSecond(kind, w, old(State()), length)
    {
      AddWire(w, length);
      AddLeakage(w, length);
      if kind.uca {
        AddLeakage(w, length);
      } else {
        AddLeakage(w, length);
        wireBw := wireBw * 2;
      }
    }

    /** One iteration of either loop. */
    method Level(w: WireModel, h: nat, v: nat, len: real, ht: real)
      returns (h': nat, v': nat, len': real, ht': real)
      requires h > 0 || v > 0
      modifies this`wireDelay, this`readDynamic, this`searchDynamic, this`leakage, this`gateLeakage, this`wireBw
      ensures State() == NextSums(kind, w, old(State()), Rest(h, v, len, ht))
      ensures Rest(h', v', len', ht') == NextRest(Rest(h, v, len, ht))
    {
      if h > v {
        FirstWire(w, len, Horizontal);
        len', ht', h', v' := len / 2.0, ht, h - 1, v;
      } else if v > 0 && h > 0 {
        FirstWire(w, len, Both);
        SecondWire(w, ht);
        len', ht', h', v' := len / 2.0, ht / 2.0, h - 1, v - 1;
      } else {
        assert h == 0;
        FirstWire(w, ht, Vertical);
        len', ht', h', v' := len, ht / 2.0, h, v - 1;
      }
    }

    /** The loop; in_htree and out_htree differ only in the search energy of a bundle. */
    method Traverse(w: WireModel, h0: nat, v0: nat, len0: real, ht0: real) returns (ghost iterations: nat)
      modifies this`wireDelay, this`readDynamic, this`searchDynamic, this`leakage, this`gateLeakage, this`wireBw
      ensures State() == old(Final(w, Rest(h0, v0, len0, ht0)))
      ensures iterations == Max(h0, v0)
    {
      var h, v, len, ht := h0, v0, len0, ht0;
      iterations := 0;
      while v > 0 || h > 0
        invariant Final(w, Rest(h, v, len, ht)) == old(Final(w, Rest(h0, v0, len0, ht0)))
        invariant iterations + Max(h, v) == Max(h0, v0)
        decreases h + v
      {
        iterations := iterations + 1;
        IterationKeepsTotals(kind, w, State(), Rest(h, v, len, ht));
        h, v, len, ht := Level(w, h, v, len, ht);
      }
    }

    method Start(lenTemp: real, htTemp: real)
      modifies this
      ensures areaH == htTemp * 2.0 && areaW == lenTemp * 2.0
      ensures State() == Sums(old(wireBw), 0.0, 0.0, 0.0, 0.0, 0.0)
    {
      areaH, areaW := htTemp * 2.0, lenTemp * 2.0;
      wireDelay, readDynamic, searchDynamic, leakage, gateLeakage := 0.0, 0.0, 0.0, 0.0, 0.0;
    }

    /** The loop from the start, and its totals link by link. */
    method Run(w: WireModel, h: nat, v: nat, lenTemp: real, htTemp: real) returns (ghost iterations: nat)
      requires wireBw == initWireBw
      modifies this
      ensures areaH == htTemp * 2.0 && areaW == lenTemp * 2.0 && iterations == Max(h, v)
      ensures State() == WholeTree(kind, w, initWireBw, Rest(h, v, lenTemp, htTemp / 2.0))
    {
      Start(lenTemp, htTemp);
      ghost var start := State();
      iterations := Traverse(w, h, v, lenTemp, htTemp / 2.0);
      ExpectedAtStart(kind, w, start, State(), Rest(h, v, lenTemp, htTemp / 2.0));
    }

    /** in_htree: search data is broadcast, so its energy grows with the bandwidth reached. */
    method InHtree(ndwl: nat, ndbl: nat, lenTemp: real, htTemp: real) returns (ghost iterations: nat)
      requires ndwl >= 2 && ndbl >= 2 && wireBw == initWireBw
      modifies this
      ensures Traversed(true, ndwl, ndbl, lenTemp, htTemp)
      ensures iterations == Max(Log2(ndwl / 2), Log2(ndbl / 2))
    {
      var h := ComputeLog2(ndwl / 2);
      var v := ComputeLog2(ndbl / 2);
      iterations := Run(Weighed(wire, initWireBw, true), h, v, lenTemp, htTemp);
    }

    /** out_htree: every link carries the initial bandwidth's worth of search energy. */
    method OutHtree(ndwl: nat, ndbl: nat, lenTemp: real, htTemp: real) returns (ghost iterations: nat)
      requires ndwl >= 2 && ndbl >= 2 && wireBw == initWireBw
      modifies this
      ensures Traversed(false, ndwl, ndbl, lenTemp, htTemp)
      ensures iterations == Max(Log2(ndwl / 2), Log2(ndbl / 2))
    {
      var h := ComputeLog2(ndwl / 2);
      var v := ComputeLog2(ndbl / 2);
      iterations := Run(Weighed(wire, initWireBw, false), h, v, lenTemp, htTemp);
    }
  }

  /**
   In an output tree, and between banks, all bits are searched at the energy of reading them; an
   input tree takes no less.
   */
  lemma SearchAgainstRead(t: Tree, broadcast: bool, ndwl: nat, ndbl: nat, lenTemp: real, htTemp: real)
    requires ndwl >= 2 && ndbl >= 2 && SearchesByRead(t.wire) && t.Traversed(broadcast, ndwl, ndbl, lenTemp, htTemp)
    ensures !broadcast || (t.kind.uca && !t.kind.search) ==> t.searchDynamic == AllBits(t.initWireBw, t.readDynamic)
    ensures (forall x :: t.wire.dynamic(x) >= 0.0) ==> t.searchDynamic >= AllBits(t.initWireBw, t.readDynamic)
  {
    SearchEnergy(t.kind, t.wire, t.initWireBw, broadcast,
                 Rest(Log2(ndwl / 2), Log2(ndbl / 2), lenTemp, htTemp / 2.0), t.State());
  }

  /** An input and an output tree of equal parameters agree in area, bandwidth, wire delay, read energy and leakage. */
  lemma TraversalsAgree(t: Tree, u: Tree, ndwl: nat, ndbl: nat, lenTemp: real, htTemp: real)
    requires ndwl >= 2 && ndbl >= 2
    requires t.kind == u.kind && t.wire == u.wire && t.initWireBw == u.initWireBw
    requires t.Traversed(true, ndwl, ndbl, lenTemp, htTemp) && u.Traversed(false, ndwl, ndbl, lenTemp, htTemp)
    ensures t.areaH == u.areaH && t.areaW == u.areaW && t.wireBw == u.wireBw
    ensures t.wireDelay == u.wireDelay && t.readDynamic == u.readDynamic
    ensures t.leakage == u.leakage && t.gateLeakage == u.gateLeakage
  {
    assert t.State().leak == u.State().leak;
  }

  // ---------- the totals, link by link ----------

  /** `s` is `t` with one more wire in front, whose leakage is entered `times` times. */
  ghost predicate OneMore(w: WireModel, s: Sums, t: Sums, length: real, bw: nat, times: real) {
    && s.bw == t.bw && s.delay == w.delay(length) + t.delay && s.read == w.dynamic(length) + t.read
    && s.search == w.search(length, bw) + t.search
    && s.leak == times * w.leakage(length, bw) + t.leak
    && s.gateLeak == times * w.gateLeakage(length, bw) + t.gateLeak
  }

  lemma NothingLeft(k: TreeKind, w: WireModel, bw: nat, r: Rest)
    requires Finished(r)
    ensures WholeTree(k, w, bw, r) == Sums(bw, 0.0, 0.0, 0.0, 0.0, 0.0)
  {
    assert Growth(k, 0, 0) == 1;
  }

  /** `s` is `t` with the links of one iteration in front. */
  ghost predicate Preceded(k: TreeKind, w: WireModel, r: Rest, bw: nat, s: Sums, t: Sums)
    requires !Finished(r)
  {
    s == Sums(t.bw, Added(w.delay, r) + t.delay, Added(w.dynamic, r) + t.read,
              AddedBundles(k, SearchLoad(w), r, bw) + t.search,
              AddedBundles(k, LeakLoad(w), r, bw) + t.leak,
              AddedBundles(k, GateLeakLoad(w), r, bw) + t.gateLeak)
  }

  lemma WholeTreeStep(k: TreeKind, w: WireModel, bw: nat, r: Rest) returns (s: Sums, t: Sums)
    requires !Finished(r)
    ensures s == WholeTree(k, w, bw, r) && t == WholeTree(k, w, NextBw(k, NextBranch(r), bw), NextRest(r))
    ensures Preceded(k, w, r, bw, s, t)
  {
    var q, wide := NextRest(r), NextBw(k, NextBranch(r), bw);
    s, t := WholeTree(k, w, bw, r), WholeTree(k, w, wide, q);
    GrowthCarry(k, r, bw);
    LinkTotalStep(w.delay, r);
    LinkTotalStep(w.dynamic, r);
    LinkSumStep(k, SearchLoad(w), r, q, bw, wide);
    LinkSumStep(k, LeakLoad(w), r, q, bw, wide);
    LinkSumStep(k, GateLeakLoad(w), r, q, bw, wide);
  }

  lemma OneLink(k: TreeKind, w: WireModel, r: Rest, bw: nat, s: Sums, t: Sums)
    requires !Finished(r) && NextBranch(r) != Both && Preceded(k, w, r, bw, s, t)
    ensures OneMore(w, s, t, if r.h > 0 then r.len else r.ht, bw, 1.0)
  {
  }

  lemma TwoLinks(k: TreeKind, w: WireModel, r: Rest, bw: nat, s: Sums, t: Sums) returns (m: Sums)
    requires 0 < r.h <= r.v && Preceded(k, w, r, bw, s, t)
    ensures OneMore(w, s, m, r.len, bw, 1.0) && OneMore(w, m, t, r.ht, if k.search then 2 * bw else bw, 2.0)
  {
    var mid := Widened(k, Both, bw);
    m := Sums(t.bw, w.delay(r.ht) + t.delay, w.dynamic(r.ht) + t.read, w.search(r.ht, mid) + t.search,
              2.0 * w.leakage(r.ht, mid) + t.leak, 2.0 * w.gateLeakage(r.ht, mid) + t.gateLeak);
  }

  /** More horizontal links left: one of them comes first. Only a search tree carries more behind it. */
  lemma HorizontalFirst(k: TreeKind, w: WireModel, bw: nat, h: nat, v: nat, len: real, ht: real)
    returns (s: Sums, t: Sums)
    requires h > v
    ensures s == WholeTree(k, w, bw, Rest(h, v, len, ht))
    ensures t == WholeTree(k, w, if k.search then 2 * bw else bw, Rest(h - 1, v, len / 2.0, ht))
    ensures OneMore(w, s, t, len, bw, 1.0)
  {
    HorizontalBranch(k, bw, h, v, len, ht);
    s, t := WholeTreeStep(k, w, bw, Rest(h, v, len, ht));
    OneLink(k, w, Rest(h, v, len, ht), bw, s, t);
  }

  lemma HorizontalBranch(k: TreeKind, bw: nat, h: nat, v: nat, len: real, ht: real)
    requires h > v
    ensures var r := Rest(h, v, len, ht);
            && NextBranch(r) == Horizontal && NextRest(r) == Rest(h - 1, v, len / 2.0, ht)
            && NextBw(k, Horizontal, bw) == if k.search then 2 * bw else bw
  {
  }

  /** Vertical links alone: one comes first. Behind it a bank carries twice as much, and so does a search tree. */
  lemma VerticalFirst(k: TreeKind, w: WireModel, bw: nat, v: nat, len: real, ht: real) returns (s: Sums, t: Sums)
    requires v > 0
    ensures s == WholeTree(k, w, bw, Rest(0, v, len, ht))
    ensures t == WholeTree(k, w, if k.uca && !k.search then bw else 2 * bw, Rest(0, v - 1, len, ht / 2.0))
    ensures OneMore(w, s, t, ht, bw, 1.0)
  {
    s, t := WholeTreeStep(k, w, bw, Rest(0, v, len, ht));
    OneLink(k, w, Rest(0, v, len, ht), bw, s, t);
  }

  /** Otherwise a horizontal link comes first and a vertical one second, whose leakage is entered twice. */
  lemma BothFirst(k: TreeKind, w: WireModel, bw: nat, h: nat, v: nat, len: real, ht: real)
    returns (s: Sums, m: Sums, t: Sums)
    requires 0 < h <= v
    ensures var mid := if k.search then 2 * bw else bw;
            && s == WholeTree(k, w, bw, Rest(h, v, len, ht))
            && t == WholeTree(k, w, if k.uca then mid else 2 * mid, Rest(h - 1, v - 1, len / 2.0, ht / 2.0))
            && OneMore(w, s, m, len, bw, 1.0) && OneMore(w, m, t, ht, mid, 2.0)
  {
    BothBranch(k, bw, h, v, len, ht);
    s, t := WholeTreeStep(k, w, bw, Rest(h, v, len, ht));
    m := TwoLinks(k, w, Rest(h, v, len, ht), bw, s, t);
  }

  lemma BothBranch(k: TreeKind, bw: nat, h: nat, v: nat, len: real, ht: real)
    requires 0 < h <= v
    ensures var r, mid := Rest(h, v, len, ht), if k.search then 2 * bw else bw;
            && NextBranch(r) == Both && NextRest(r) == Rest(h - 1, v - 1, len / 2.0, ht / 2.0)
            && NextBw(k, Both, bw) == if k.uca then mid else 2 * mid
  {
  }

  /** A tree of one horizontal and one vertical link, as for four by four arrays. */
  lemma OneLinkEach(t: Tree, broadcast: bool, ndwl: nat, ndbl: nat, len: real, ht: real)
    requires ndwl >= 2 && ndbl >= 2 && t.Traversed(broadcast, ndwl, ndbl, len, ht)
    requires Log2(ndwl / 2) == 1 && Log2(ndbl / 2) == 1
    ensures var w, bw := t.wire, t.initWireBw;
            var mid := if t.kind.search then 2 * bw else bw;
            && t.areaH == 2.0 * ht && t.areaW == 2.0 * len && t.wireBw == (if t.kind.uca then mid else 2 * mid)
            && t.wireDelay == w.delay(len) + w.delay(ht / 2.0)
            && t.readDynamic == w.dynamic(len) + w.dynamic(ht / 2.0)
            && t.searchDynamic == w.search(len, bw) + w.search(ht / 2.0, if broadcast then mid else bw)
            && t.leakage == w.leakage(len, bw) + 2.0 * w.leakage(ht / 2.0, mid)
            && t.gateLeakage == w.gateLeakage(len, bw) + 2.0 * w.gateLeakage(ht / 2.0, mid)
  {
    var w, n := Weighed(t.wire, t.initWireBw, broadcast), Log2(ndwl / 2);
    var s := TraversedLinks(t, broadcast, ndwl, ndbl, len, ht, n);
    TwoLinkTree(t.kind, w, t.initWireBw, n, len, ht / 2.0, s);
    WeighedWires(t.wire, t.initWireBw, broadcast);
  }

  lemma TraversedLinks(t: Tree, broadcast: bool, ndwl: nat, ndbl: nat, len: real, ht: real, n: nat) returns (s: Sums)
    requires ndwl >= 2 && ndbl >= 2 && t.Traversed(broadcast, ndwl, ndbl, len, ht)
    requires n == Log2(ndwl / 2) == Log2(ndbl / 2)
    ensures t.areaH == 2.0 * ht && t.areaW == 2.0 * len
    ensures s == Sums(t.wireBw, t.wireDelay, t.readDynamic, t.searchDynamic, t.leakage, t.gateLeakage)
    ensures s == WholeTree(t.kind, Weighed(t.wire, t.initWireBw, broadcast), t.initWireBw, Rest(n, n, len, ht / 2.0))
  {
    s := t.State();
  }

  lemma WeighedWires(w: WireModel, init: nat, broadcast: bool)
    ensures var w' := Weighed(w, init, broadcast);
            && w'.delay == w.delay && w'.dynamic == w.dynamic
            && w'.leakage == w.leakage && w'.gateLeakage == w.gateLeakage
            && forall x: real, bw: nat :: w'.search(x, bw) == w.search(x, if broadcast then bw else init)
  {
  }

  lemma TwoLinkTree(k: TreeKind, w: WireModel, bw: nat, n: nat, len: real, ht: real, s: Sums)
    requires n == 1 && s == WholeTree(k, w, bw, Rest(n, n, len, ht))
    ensures var mid := if k.search then 2 * bw else bw;
            s == Sums(if k.uca then mid else 2 * mid, w.delay(len) + w.delay(ht), w.dynamic(len) + w.dynamic(ht),
                      w.search(len, bw) + w.search(ht, mid),
                      w.leakage(len, bw) + 2.0 * w.leakage(ht, mid),
                      w.gateLeakage(len, bw) + 2.0 * w.gateLeakage(ht, mid))
  {
    var mid := if k.search then 2 * bw else bw;
    var s', m, t := BothFirst(k, w, bw, n, n, len, ht);
    NothingLeft(k, w, if k.uca then mid else 2 * mid, Rest(n - 1, n - 1, len / 2.0, ht / 2.0));
  }

  /** A tree of one link: horizontal for arrays side by side, vertical, and half as long, for arrays in a column. */
  lemma OneLinkOnly(t: Tree, broadcast: bool, ndwl: nat, ndbl: nat, len: real, ht: real)
    requires ndwl >= 2 && ndbl >= 2 && t.Traversed(broadcast, ndwl, ndbl, len, ht)
    ensures Log2(ndwl / 2) == 1 && Log2(ndbl / 2) == 0 ==> t.wireDelay == t.wire.delay(len)
    ensures Log2(ndwl / 2) == 0 && Log2(ndbl / 2) == 1 ==> t.wireDelay == t.wire.delay(ht / 2.0)
  {
    WeighedWires(t.wire, t.initWireBw, broadcast);
    OneHalving(t.wire.delay, len);
    OneHalving(t.wire.delay, ht / 2.0);
  }

  lemma OneHalving(f: real -> real, x: real)
    ensures HalvingSum(f, x, 1) == f(x) && HalvingSum(f, x, 0) == 0.0
  {
  }

  /**
   For powers of two a tree within a bank ends with a bundle for each pair of rows, or, if it searches, for each
   pair of rows and columns. Between banks the bandwidth grows in a search tree alone, at every iteration.
   */
  lemma FinalBandwidth(t: Tree, broadcast: bool, h: nat, v: nat, len: real, ht: real)
    requires t.Traversed(broadcast, Pow2(h + 1), Pow2(v + 1), len, ht)
    ensures !t.kind.uca && !t.kind.search ==> t.wireBw == t.initWireBw * (Pow2(v + 1) / 2)
    ensures !t.kind.uca && t.kind.search ==> t.wireBw == t.initWireBw * ((Pow2(h + 1) / 2) * (Pow2(v + 1) / 2))
    ensures t.kind.uca && !t.kind.search ==> t.wireBw == t.initWireBw
    ensures t.kind.uca && t.kind.search ==> t.wireBw == t.initWireBw * (Pow2(if h > v then h + 1 else v + 1) / 2)
  {
    HalfPower(h);
    HalfPower(v);
    Pow2Add(h, v);
  }

  lemma HalfPower(n: nat)
    ensures Pow2(n + 1) / 2 == Pow2(n) && Log2(Pow2(n)) == n
  {
    Log2IsFloor(Pow2(n), n);
  }
}
