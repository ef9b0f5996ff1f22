/** What the costs and the check of the selection loops mean for the figures themselves. */
module Costs {
  import opened Arrays
  import opened Selection

  // ---------- the products that modes 1 and 2 minimise ----------

  /** The product that modes 1 and 2 minimise, before scaling. */
  function RawProduct(ed: int, x: Pda): real { Raw(ed, x.delay, x.dynamic) }

  function Raw(ed: int, d: real, e: real): real {
    if ed == 1 then d * e else d * (d * e)
  }

  lemma ProductQuotient(a: real, p: real, b: real, q: real)
    requires p > 0.0 && q > 0.0
    ensures p * q > 0.0 && (a / p) * (b / q) == (a * b) / (p * q)
  {
    var x, y := a / p, b / q;
    assert x * p == a && y * q == b;
    assert (x * y) * (p * q) == (x * p) * (y * q);
  }

  lemma ProductIsScaled(ed: int, min: Pda, x: Pda)
    requires Positive(min) && (ed == 1 || ed == 2)
    ensures RawProduct(ed, min) > 0.0 && ProductCost(ed, min, x) == RawProduct(ed, x) / RawProduct(ed, min)
  {
    if ed == 1 {
      EnergyDelayIsScaled(min, x);
    } else {
      EnergyDelaySquaredIsScaled(min, x);
    }
  }

  lemma EnergyDelayIsScaled(min: Pda, x: Pda)
    requires Positive(min)
    ensures RawProduct(1, min) > 0.0 && ProductCost(1, min, x) == RawProduct(1, x) / RawProduct(1, min)
  {
    ProductQuotient(x.delay, min.delay, x.dynamic, min.dynamic);
  }

  lemma EnergyDelaySquaredIsScaled(min: Pda, x: Pda)
    requires Positive(min)
    ensures RawProduct(2, min) > 0.0 && ProductCost(2, min, x) == RawProduct(2, x) / RawProduct(2, min)
  {
    RawQuotient(x.delay, min.delay, x.dynamic, min.dynamic);
    TimesAssociates(x.delay / min.delay, x.delay / min.delay, x.dynamic / min.dynamic);
  }

  lemma TimesAssociates(x: real, y: real, z: real)
    ensures x * y * z == x * (y * z)
  {
  }

  lemma RawPositive(p: real, q: real)
    requires p > 0.0 && q > 0.0
    ensures Raw(2, p, q) > 0.0
  {
    PositiveFactor(p, q);
    PositiveFactor(p, p * q);
  }

  lemma RawQuotient(a: real, p: real, b: real, q: real)
    requires p > 0.0 && q > 0.0
    ensures Raw(2, p, q) > 0.0 && (a / p) * ((a / p) * (b / q)) == Raw(2, a, b) / Raw(2, p, q)
  {
    RawPositive(p, q);
    ProductQuotient(a, p, b, q);
    ProductQuotient(a, p, a * b, p * q);
  }

  lemma DivideMonotone(a: real, b: real, p: real)
    requires p > 0.0
    ensures a <= b <==> a / p <= b / p
  {
    assert a / p * p == a && b / p * p == b;
    if a > b {
      assert a / p > b / p by { Larger(a / p, b / p, p); }
    }
  }

  lemma Larger(x: real, y: real, p: real)
    requires p > 0.0 && x * p > y * p
    ensures x > y
  {
  }

  lemma PositiveFactor(a: real, b: real)
    requires a > 0.0 && b > 0.0
    ensures a * b > 0.0
  {
  }

  /** Mode 1 orders by energy times delay, mode 2 by energy times delay squared. */
  lemma ProductInFigures(ed: int, min: Pda, x: Pda, y: Pda)
    requires Positive(min)
    ensures ed == 1 ==>
              (ProductCost(ed, min, x) <= ProductCost(ed, min, y) <==> x.delay * x.dynamic <= y.delay * y.dynamic)
    ensures ed == 2 ==>
              (ProductCost(ed, min, x) <= ProductCost(ed, min, y) <==>
               x.delay * (x.delay * x.dynamic) <= y.delay * (y.delay * y.dynamic))
  {
    if ed == 1 || ed == 2 {
      ProductIsScaled(ed, min, x);
      ProductIsScaled(ed, min, y);
      DivideMonotone(RawProduct(ed, x), RawProduct(ed, y), RawProduct(ed, min));
    }
  }

  // ---------- the check ----------

  lemma ShareInPercent(x: real, m: real, dev: real)
    requires m > 0.0
    ensures (x - m) * 100.0 / m > dev <==> 100.0 * x > (100.0 + dev) * m
    ensures (x - m) / m * 100.0 > dev <==> 100.0 * x > (100.0 + dev) * m
  {
    var q := (x - m) / m;
    assert q * m == x - m;
    assert (x - m) * 100.0 / m == q * 100.0;
    ScaledComparison(q * 100.0, dev, m);
  }

  lemma ScaledComparison(a: real, b: real, m: real)
    requires m > 0.0
    ensures a > b <==> a * m > b * m
  {
  }

  /** A candidate passes just when no figure exceeds its minimum by more than the allowed percentage. */
  lemma CheckInFigures(cr: Criteria, min: Pda, x: Pda)
    requires Positive(min)
    ensures Check(cr, min, x) <==>
            && 100.0 * x.delay <= (100.0 + cr.delayDev) * min.delay
            && 100.0 * x.dynamic <= (100.0 + cr.dynamicDev) * min.dynamic
            && 100.0 * x.leakage <= (100.0 + cr.leakageDev) * min.leakage
            && 100.0 * x.cycle <= (100.0 + cr.cycleDev) * min.cycle
            && 100.0 * x.area <= (100.0 + cr.areaDev) * min.area
  {
    ShareInPercent(x.delay, min.delay, cr.delayDev);
    ShareInPercent(x.dynamic, min.dynamic, cr.dynamicDev);
    ShareInPercent(x.leakage, min.leakage, cr.leakageDev);
    ShareInPercent(x.cycle, min.cycle, cr.cycleDev);
    ShareInPercent(x.area, min.area, cr.areaDev);
  }

  // ---------- the weighted cost ----------

  lemma WeightedShare(w: real, a: real, b: real, m: real)
    requires m > 0.0
    ensures w * (b / m) - w * (a / m) == w * ((b - a) / m)
    ensures w > 0.0 && a < b ==> w * (a / m) < w * (b / m)
    ensures w == 0.0 ==> w * (a / m) == w * (b / m)
  {
    assert b / m - a / m == (b - a) / m;
    if w > 0.0 && a < b {
      assert (b - a) / m > 0.0;
    }
  }

  lemma WholeShare(w: real, m: real)
    requires m > 0.0
    ensures w * (m / m) == w
  {
    assert m / m == 1.0;
  }

  /** The minima themselves cost the sum of all weights. */
  lemma CostOfMinima(cr: Criteria, min: Pda)
    requires Positive(min)
    ensures WeightedCost(cr, min, min) == cr.delayWt + cr.dynamicWt + cr.leakageWt + cr.cycleWt + cr.areaWt
  {
    WholeShare(cr.delayWt, min.delay);
    WholeShare(cr.dynamicWt, min.dynamic);
    WholeShare(cr.leakageWt, min.leakage);
    WholeShare(cr.cycleWt, min.cycle);
    WholeShare(cr.areaWt, min.area);
  }

  // Raising one figure by a share of its minimum raises the cost by that share of the weight of this figure. So
  // the cost rises strictly if the weight is positive, and not at all if it is zero.

  lemma CostOfDelay(cr: Criteria, min: Pda, x: Pda, v: real)
    requires Positive(min)
    ensures var y := x.(delay := v);
            && WeightedCost(cr, min, y) - WeightedCost(cr, min, x) == cr.delayWt * ((v - x.delay) / min.delay)
            && (cr.delayWt > 0.0 && x.delay < v ==> WeightedCost(cr, min, x) < WeightedCost(cr, min, y))
            && (cr.delayWt == 0.0 ==> WeightedCost(cr, min, x) == WeightedCost(cr, min, y))
  {
    WeightedShare(cr.delayWt, x.delay, v, min.delay);
  }

  lemma CostOfEnergy(cr: Criteria, min: Pda, x: Pda, v: real)
    requires Positive(min)
    ensures var y := x.(dynamic := v);
            && WeightedCost(cr, min, y) - WeightedCost(cr, min, x) == cr.dynamicWt * ((v - x.dynamic) / min.dynamic)
            && (cr.dynamicWt > 0.0 && x.dynamic < v ==> WeightedCost(cr, min, x) < WeightedCost(cr, min, y))
            && (cr.dynamicWt == 0.0 ==> WeightedCost(cr, min, x) == WeightedCost(cr, min, y))
  {
    WeightedShare(cr.dynamicWt, x.dynamic, v, min.dynamic);
  }

  lemma CostOfLeakage(cr: Criteria, min: Pda, x: Pda, v: real)
    requires Positive(min)
    ensures var y := x.(leakage := v);
            && WeightedCost(cr, min, y) - WeightedCost(cr, min, x) == cr.leakageWt * ((v - x.leakage) / min.leakage)
            && (cr.leakageWt > 0.0 && x.leakage < v ==> WeightedCost(cr, min, x) < WeightedCost(cr, min, y))
            && (cr.leakageWt == 0.0 ==> WeightedCost(cr, min, x) == WeightedCost(cr, min, y))
  {
    WeightedShare(cr.leakageWt, x.leakage, v, min.leakage);
  }

  lemma CostOfCycle(cr: Criteria, min: Pda, x: Pda, v: real)
    requires Positive(min)
    ensures var y := x.(cycle := v);
            && WeightedCost(cr, min, y) - WeightedCost(cr, min, x) == cr.cycleWt * ((v - x.cycle) / min.cycle)
            && (cr.cycleWt > 0.0 && x.cycle < v ==> WeightedCost(cr, min, x) < WeightedCost(cr, min, y))
            && (cr.cycleWt == 0.0 ==> WeightedCost(cr, min, x) == WeightedCost(cr, min, y))
  {
    WeightedShare(cr.cycleWt, x.cycle, v, min.cycle);
  }

  lemma CostOfArea(cr: Criteria, min: Pda, x: Pda, v: real)
    requires Positive(min)
    ensures var y := x.(area := v);
            && WeightedCost(cr, min, y) - WeightedCost(cr, min, x) == cr.areaWt * ((v - x.area) / min.area)
            && (cr.areaWt > 0.0 && x.area < v ==> WeightedCost(cr, min, x) < WeightedCost(cr, min, y))
            && (cr.areaWt == 0.0 ==> WeightedCost(cr, min, x) == WeightedCost(cr, min, y))
  {
    WeightedShare(cr.areaWt, x.area, v, min.area);
  }

  /** Where one weight alone is positive, its figure is no more in `x` than in `y`. */
  ghost predicate LessByOnlyWeight(cr: Criteria, x: Pda, y: Pda) {
    && (cr.delayWt > 0.0 && cr.dynamicWt == cr.leakageWt == cr.cycleWt == cr.areaWt == 0.0 ==> x.delay <= y.delay)
    && (cr.dynamicWt > 0.0 && cr.delayWt == cr.leakageWt == cr.cycleWt == cr.areaWt == 0.0 ==> x.dynamic <= y.dynamic)
    && (cr.leakageWt > 0.0 && cr.delayWt == cr.dynamicWt == cr.cycleWt == cr.areaWt == 0.0 ==> x.leakage <= y.leakage)
    && (cr.cycleWt > 0.0 && cr.delayWt == cr.dynamicWt == cr.leakageWt == cr.areaWt == 0.0 ==> x.cycle <= y.cycle)
    && (cr.areaWt > 0.0 && cr.delayWt == cr.dynamicWt == cr.leakageWt == cr.cycleWt == 0.0 ==> x.area <= y.area)
  }

  lemma OnlyWeightDecides(cr: Criteria, min: Pda, x: Pda, y: Pda)
    requires Positive(min) && WeightedCost(cr, min, x) <= WeightedCost(cr, min, y)
    ensures LessByOnlyWeight(cr, x, y)
  {
    WeightedShare(cr.delayWt, y.delay, x.delay, min.delay);
    WeightedShare(cr.dynamicWt, y.dynamic, x.dynamic, min.dynamic);
    WeightedShare(cr.leakageWt, y.leakage, x.leakage, min.leakage);
    WeightedShare(cr.cycleWt, y.cycle, x.cycle, min.cycle);
    WeightedShare(cr.areaWt, y.area, x.area, min.area);
  }

  // ---------- what the scans return ----------

  /** `cost` and `ok` weigh and check the figures that `f` reads off a candidate. */
  ghost predicate Weighs<T(!new)>(f: T -> Pda, cr: Criteria, min: Pda, ok: T -> bool, cost: T -> real)
    requires Positive(min)
  {
    forall x: T :: cost(x) == WeightedCost(cr, min, f(x)) && ok(x) == Check(cr, min, f(x))
  }

  /** The result passes the check, and no admissible candidate looked at has less of the only figure weighed. */
  lemma LeastAdmissible<T(!new)>(f: T -> Pda, cr: Criteria, min: Pda, ok: T -> bool, cost: T -> real,
                                 looked: seq<T>, r: T, u: T)
    requires Positive(min) && Weighs(f, cr, min, ok, cost)
    requires Cheapest(looked, Effective(ok, cost), Some(r)) && u in looked && ok(u)
    ensures ok(r) && LessByOnlyWeight(cr, f(r), f(u))
  {
    OnlyWeightDecides(cr, min, f(r), f(u));
  }
}
