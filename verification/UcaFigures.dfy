/** The answer of solve() in terms of the figures of the arrays it is made of. */
module UcaFigures {
  import opened Sorting
  import opened Arrays
  import opened SweepOrder
  import opened Sweep
  import opened ThreadOrder
  import opened Selection
  import opened Costs
  import opened UcaSolve

  // ---------- the figures of one organisation ----------

  /** `z` is the greater of the two. */
  ghost predicate Greater(z: real, x: real, y: real) {
    z >= x && z >= y && (z == x || z == y)
  }

  /** A plain array: its own figures, and the area of its sides. */
  ghost predicate PlainFigures(u: Pda, d: Measures) {
    && u.delay == d.pda.delay && u.dynamic == d.pda.dynamic && u.leakage == d.pda.leakage && u.cycle == d.pda.cycle
    && u.area == d.height * d.width
  }

  /** A cache waits for both arrays, for one after the other, or for the way select in the middle of the data array. */
  ghost predicate CacheDelay(access: Access, delay: real, t: Measures, d: Measures) {
    && (access == Fast ==> Greater(delay, t.pda.delay, d.pda.delay))
    && (access == Sequential ==> delay - d.pda.delay == t.pda.delay)
    && (access == Normal ==>
          Greater(delay - d.stages.afterDriver, t.pda.delay + d.stages.senseampMux, d.stages.beforeDriver))
  }

  /** Energies add up, the arrays lie side by side, and the slower one sets the cycle time. */
  ghost predicate CacheFigures(access: Access, u: Pda, t: Measures, d: Measures) {
    && CacheDelay(access, u.delay, t, d)
    && u.dynamic - d.pda.dynamic == t.pda.dynamic && u.leakage - d.pda.leakage == t.pda.leakage
    && Greater(u.cycle, t.pda.cycle, d.pda.cycle)
    && exists height: real :: Greater(height, t.height, d.height) && u.area == height * (t.width + d.width)
  }

  lemma OrgFigures(p: Partner, d: MemArray)
    ensures p.NoTag? ==> PlainFigures(OrgPdaOf(p, d), d.figures)
    ensures p.Tag? ==> CacheFigures(p.access, OrgPdaOf(p, d), p.tag.figures, d.figures)
  {
    if p.Tag? {
      var t := p.tag.figures;
      assert Greater(Max(t.height, d.figures.height), t.height, d.figures.height);
    }
  }

  // ---------- the organisation that solve() returns ----------

  /** `u` combines a swept data array with a swept tag array, if the job asks for tags. */
  ghost predicate Combines(job: Job, n: nat, u: UcaOrg)
    requires JobWellFormed(job) && n > 0
  {
    && (exists arrays :: Merged(job.space, n, arrays) && u.data in arrays)
    && match job.tags
       case None => PlainFigures(u.pda, u.data.figures)
       case Some(side) =>
         && u.partner.Tag? && u.partner.access == side.access
         && (exists tags :: Merged(side.space, n, tags) && u.partner.tag in tags)
         && CacheFigures(side.access, u.pda, u.partner.tag.figures, u.data.figures)
  }

  lemma ResultIsOrganisation(p: Partner, arrays: seq<MemArray>, ed: int, cr: Criteria, u: UcaOrg)
    requires Outcome(p, arrays, ed, cr, Some(u))
    ensures u in Organisations(p, arrays) && u.data in arrays && u == OrgWith(p)(u.data)
  {
    var orgs := Organisations(p, arrays);
    var min := MinOver(Map(OrgPda, orgs));
    if ed == 1 || ed == 2 {
      FirstBestIsCheapest(orgs, ByProduct(ed, min), Some(u));
    } else {
      var ok, cost := Admissible(cr, min), Weighted(cr, min);
      FirstBestIsCheapest(Visits(orgs, UcaDropsHead(ok, cost, orgs)), Effective(ok, cost), Some(u));
    }
    OrgMember(p, arrays, u);
  }

  /** What solve() returns has the figures that find_delay, find_energy, find_area and find_cyc promise. */
  lemma ResultCombines(job: Job, n: nat, u: UcaOrg)
    requires JobWellFormed(job) && n > 0 && Solution(job, n, Some(u))
    ensures Combines(job, n, u)
  {
    var p, arrays :| SolutionWith(job, n, p, arrays, Some(u));
    ResultIsOrganisation(p.value, arrays, job.ed, job.cr, u);
    OrgFigures(p.value, u.data);
    if job.tags.Some? {
      TagIsSwept(job, n, p.value);
    }
  }

  lemma TagIsSwept(job: Job, n: nat, p: Partner)
    requires JobWellFormed(job) && n > 0 && job.tags.Some? && Partnered(job, n, Some(p))
    ensures p.Tag? && p.access == job.tags.value.access
    ensures exists tags :: Merged(job.tags.value.space, n, tags) && p.tag in tags
  {
    var side := job.tags.value;
    var tags :| Merged(side.space, n, tags) && TagLeft(tags, side.access, job.cr, Some(p));
    assert p.tag in tags;
  }

  // ---------- the filter ----------

  /** An array is deleted just when it is more than half above the least delay and above the least energy. */
  lemma DeletedInFigures(arrays: seq<MemArray>, m: MemArray)
    requires (forall x :: x in arrays ==> Physical(x)) && m in arrays
    ensures Positive(MinOver(Pdas(arrays)))
    ensures m !in Filter(Near(MinOver(Pdas(arrays))), arrays) <==>
            && (exists x :: x in arrays && m.figures.pda.delay > 1.5 * x.figures.pda.delay)
            && (exists x :: x in arrays && m.figures.pda.dynamic > 1.5 * x.figures.pda.dynamic)
  {
    PhysicalMinimum(arrays);
    var min := MinOver(Pdas(arrays));
    FilterMember(Near(min), arrays, m);
    FarOffInFigures(min, m);
    LeastAttained(arrays);
    forall x | x in arrays ensures min.delay <= x.figures.pda.delay && min.dynamic <= x.figures.pda.dynamic {
      PdaMember(arrays, x.figures.pda);
      MinOverBounds(Pdas(arrays), min);
    }
  }

  lemma FarOffInFigures(min: Pda, m: MemArray)
    requires Positive(min)
    ensures FarOff(min, m) <==>
            m.figures.pda.delay > 1.5 * min.delay && m.figures.pda.dynamic > 1.5 * min.dynamic
  {
    HalfMore(m.figures.pda.delay, min.delay);
    HalfMore(m.figures.pda.dynamic, min.dynamic);
  }

  lemma HalfMore(x: real, m: real)
    requires m > 0.0
    ensures (x - m) / m > 0.5 <==> x > 1.5 * m
  {
    ScaledComparison((x - m) / m, 0.5, m);
  }

  lemma LeastAttained(arrays: seq<MemArray>)
    requires arrays != [] && forall x :: x in arrays ==> Physical(x)
    ensures exists x :: x in arrays && x.figures.pda.delay == MinOver(Pdas(arrays)).delay
    ensures exists x :: x in arrays && x.figures.pda.dynamic == MinOver(Pdas(arrays)).dynamic
  {
    var xs := Pdas(arrays);
    forall x | x in xs ensures x.delay < BIGNUM && x.dynamic < BIGNUM {
      PdaMember(arrays, x);
    }
    MinOverAttained(xs);
    var d :| d in xs && d.delay == MinOver(xs).delay;
    var e :| e in xs && e.dynamic == MinOver(xs).dynamic;
    PdaMember(arrays, d);
    PdaMember(arrays, e);
  }

  // ---------- the selection ----------

  /** Modes 1 and 2: least energy times delay, or times delay squared, of the organisations that reach the selection. */
  lemma LeastProduct(orgs: seq<UcaOrg>, ed: int, cr: Criteria, min: Pda, r: UcaOrg, u: UcaOrg)
    requires Positive(min) && Chosen(orgs, ed, cr, min, Some(r)) && u in orgs
    ensures ed == 1 ==> r.pda.delay * r.pda.dynamic <= u.pda.delay * u.pda.dynamic
    ensures ed == 2 ==> r.pda.delay * (r.pda.delay * r.pda.dynamic) <= u.pda.delay * (u.pda.delay * u.pda.dynamic)
  {
    if ed == 1 || ed == 2 {
      FirstBestIsCheapest(orgs, ByProduct(ed, min), Some(r));
      ProductInFigures(ed, min, r.pda, u.pda);
    }
  }

  /** Weighted: of the admissible organisations looked at, none has less of the only figure weighed. */
  lemma LeastWeighted(orgs: seq<UcaOrg>, ed: int, cr: Criteria, min: Pda, r: UcaOrg, u: UcaOrg)
    requires Positive(min) && Chosen(orgs, ed, cr, min, Some(r)) && ed != 1 && ed != 2
    requires u in Visits(orgs, UcaDropsHead(Admissible(cr, min), Weighted(cr, min), orgs)) && Admissible(cr, min)(u)
    ensures Admissible(cr, min)(r) && LessByOnlyWeight(cr, r.pda, u.pda)
  {
    var ok, cost := Admissible(cr, min), Weighted(cr, min);
    var looked := Visits(orgs, UcaDropsHead(ok, cost, orgs));
    FirstBestIsCheapest(looked, Effective(ok, cost), Some(r));
    LeastAdmissible(OrgPda, cr, min, ok, cost, looked, r, u);
  }

  /** The same of the tag array that filter_tag_arr leaves, over all tag arrays. */
  lemma LeastTag(tags: seq<MemArray>, access: Access, cr: Criteria, p: Partner, u: MemArray)
    requires TagLeft(tags, access, cr, Some(p)) && u in tags
    requires TagAdmissible(cr, MinOver(Pdas(tags)))(u)
    ensures p.Tag? && TagAdmissible(cr, MinOver(Pdas(tags)))(p.tag)
    ensures LessByOnlyWeight(cr, p.tag.figures.pda, u.figures.pda)
  {
    var min := MinOver(Pdas(tags));
    var ok, cost := TagAdmissible(cr, min), TagWeighted(cr, min);
    var k: nat :| IsLastBest(tags, Effective(ok, cost), k) && tags[k] == p.tag;
    LeastAdmissible(PdaOf, cr, min, ok, cost, tags, p.tag, u);
  }
}
