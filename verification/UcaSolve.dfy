/** solve(): threads, merge, filters, pairing of tag and data arrays, selection. */
module UcaSolve {
  import opened Sorting
  import opened Arrays
  import opened SweepOrder
  import opened Sweep
  import opened ThreadOrder
  import opened Partitions
  import opened Selection

  /** When the data array of a cache is looked up: together with the tags, after them, or waiting for the way select. */
  datatype Access = Fast | Sequential | Normal

  /** What a data array is combined with: nothing in a plain RAM, a CAM or a fully associative cache. */
  datatype Partner = NoTag | Tag(tag: MemArray, access: Access)

  datatype UcaOrg = UcaOrg(partner: Partner, data: MemArray, pda: Pda)

  /** What one run of solve() is asked for; `tags` only for caches with a separate tag array. */
  datatype Job = Job(space: Space, fullyAssoc: bool, tags: Option<TagSide>, ed: int, cr: Criteria)

  datatype TagSide = TagSide(space: Space, access: Access)

  function Max(x: real, y: real): real { if x > y then x else y }

  /** find_delay */
  function AccessTime(p: Partner, d: MemArray): real {
    var data := d.figures;
    match p
    case NoTag => data.pda.delay
    case Tag(t, Fast) => Max(t.figures.pda.delay, data.pda.delay)
    case Tag(t, Sequential) => t.figures.pda.delay + data.pda.delay
    case Tag(t, Normal) =>
      Max(t.figures.pda.delay + data.stages.senseampMux, data.stages.beforeDriver) + data.stages.afterDriver
  }

  /** find_delay, find_energy, find_area and find_cyc. */
  function OrgPdaOf(p: Partner, d: MemArray): Pda {
    var data := d.figures;
    match p
    case NoTag =>
      Pda(AccessTime(p, d), data.pda.dynamic, data.pda.leakage, data.height * data.width, data.pda.cycle)
    case Tag(t, _) =>
      var tag := t.figures;
      Pda(AccessTime(p, d), data.pda.dynamic + tag.pda.dynamic, data.pda.leakage + tag.pda.leakage,
          Max(tag.height, data.height) * (tag.width + data.width), Max(tag.pda.cycle, data.pda.cycle))
  }

  function OrgWith(p: Partner): MemArray -> UcaOrg {
    (d: MemArray) => UcaOrg(p, d, OrgPdaOf(p, d))
  }

  function OrgPda(u: UcaOrg): Pda { u.pda }

  /** The test of filter_data_arr: more than half above the minimum in delay and in energy. */
  predicate FarOff(min: Pda, m: MemArray)
    requires Positive(min)
  {
    && (m.figures.pda.delay - min.delay) / min.delay > 0.5
    && (m.figures.pda.dynamic - min.dynamic) / min.dynamic > 0.5
  }

  function Near(min: Pda): MemArray -> bool
    requires Positive(min)
  {
    (m: MemArray) => !FarOff(min, m)
  }

  function ByProduct(ed: int, min: Pda): UcaOrg -> real
    requires Positive(min)
  {
    (u: UcaOrg) => ProductCost(ed, min, u.pda)
  }

  function Weighted(cr: Criteria, min: Pda): UcaOrg -> real
    requires Positive(min)
  {
    (u: UcaOrg) => WeightedCost(cr, min, u.pda)
  }

  function Admissible(cr: Criteria, min: Pda): UcaOrg -> bool
    requires Positive(min)
  {
    (u: UcaOrg) => Check(cr, min, u.pda)
  }

  function TagAdmissible(cr: Criteria, min: Pda): MemArray -> bool
    requires Positive(min)
  {
    (m: MemArray) => Check(cr, min, m.figures.pda)
  }

  function TagWeighted(cr: Criteria, min: Pda): MemArray -> real
    requires Positive(min)
  {
    (m: MemArray) => WeightedCost(cr, min, m.figures.pda)
  }

  /** Measures that a circuit can have. */
  predicate Physical(m: MemArray) {
    var f := m.figures;
    && Positive(f.pda) && f.pda.delay < BIGNUM && f.pda.dynamic < BIGNUM
    && f.height > 0.0 && f.width > 0.0 && f.stages.senseampMux >= 0.0 && f.stages.afterDriver >= 0.0
  }

  ghost predicate PhysicalSpace(sp: Space) {
    forall pt: Point :: sp.evaluate(pt).Valid? ==> Physical(Record(pt, sp.evaluate(pt)))
  }

  lemma TimesPositive(x: real, y: real)
    requires x > 0.0 && y > 0.0
    ensures x * y > 0.0
  {
  }

  lemma OrgPositive(p: Partner, d: MemArray)
    requires Physical(d) && (p.Tag? ==> Physical(p.tag))
    ensures Positive(OrgPdaOf(p, d))
  {
    match p
    case NoTag => TimesPositive(d.figures.height, d.figures.width);
    case Tag(t, _) => TimesPositive(Max(t.figures.height, d.figures.height), t.figures.width + d.figures.width);
  }

  // ---------- the filter keeps something ----------

  lemma NotFarOff(min: Pda, m: MemArray)
    requires Positive(min) && (m.figures.pda.delay == min.delay || m.figures.pda.dynamic == min.dynamic)
    ensures !FarOff(min, m)
  {
  }

  lemma PdaMember(arrays: seq<MemArray>, x: Pda)
    ensures x in Pdas(arrays) <==> exists m :: m in arrays && m.figures.pda == x
  {
    if x in Pdas(arrays) {
      var i :| 0 <= i < |arrays| && Pdas(arrays)[i] == x;
      assert arrays[i] in arrays;
    }
    forall m | m in arrays && m.figures.pda == x ensures x in Pdas(arrays) {
      var i :| 0 <= i < |arrays| && arrays[i] == m;
      assert Pdas(arrays)[i] == x;
    }
  }

  lemma PhysicalMinimum(arrays: seq<MemArray>)
    requires forall m :: m in arrays ==> Physical(m)
    ensures Positive(MinOver(Pdas(arrays)))
  {
    forall x | x in Pdas(arrays) ensures Positive(x) {
      PdaMember(arrays, x);
    }
    MinOverPositive(Pdas(arrays));
  }

  /** An array of least delay and an array of least energy pass the filter. */
  lemma FilterKeepsWitnesses(arrays: seq<MemArray>)
    requires arrays != [] && forall m :: m in arrays ==> Physical(m)
    ensures var min := MinOver(Pdas(arrays));
            && Positive(min)
            && (exists m :: m in Filter(Near(min), arrays) && m.figures.pda.delay == min.delay)
            && (exists m :: m in Filter(Near(min), arrays) && m.figures.pda.dynamic == min.dynamic)
  {
    PhysicalMinimum(arrays);
    var xs, min := Pdas(arrays), MinOver(Pdas(arrays));
    forall x | x in xs ensures x.delay < BIGNUM && x.dynamic < BIGNUM {
      PdaMember(arrays, x);
    }
    MinOverAttained(xs);
    var d :| d in xs && d.delay == min.delay;
    var e :| e in xs && e.dynamic == min.dynamic;
    var m := NearWitness(min, arrays, d);
    var l := NearWitness(min, arrays, e);
  }

  lemma NearWitness(min: Pda, arrays: seq<MemArray>, x: Pda) returns (m: MemArray)
    requires Positive(min) && x in Pdas(arrays) && (x.delay == min.delay || x.dynamic == min.dynamic)
    ensures m in Filter(Near(min), arrays) && m.figures.pda == x
  {
    PdaMember(arrays, x);
    m :| m in arrays && m.figures.pda == x;
    NotFarOff(min, m);
    FilterMember(Near(min), arrays, m);
  }

  // ---------- the right answers ----------

  /** The organisations that reach find_optimal_uca. */
  function Organisations(p: Partner, arrays: seq<MemArray>): seq<UcaOrg>
    requires Positive(MinOver(Pdas(arrays)))
  {
    Map(OrgWith(p), Filter(Near(MinOver(Pdas(arrays))), arrays))
  }

  /** What find_optimal_uca selects: the first of the cheapest, but weighted it never looks behind an erased head. */
  ghost predicate Chosen(orgs: seq<UcaOrg>, ed: int, cr: Criteria, min: Pda, r: Option<UcaOrg>)
    requires Positive(min)
  {
    if ed == 1 || ed == 2 then FirstBest(orgs, ByProduct(ed, min), r)
    else
      var ok, cost := Admissible(cr, min), Weighted(cr, min);
      FirstBest(Visits(orgs, UcaDropsHead(ok, cost, orgs)), Effective(ok, cost), r)
  }

  /** The cost each mode minimises; an organisation outside the limits counts as BIGNUM when weighted. */
  function Target(ed: int, cr: Criteria, min: Pda): UcaOrg -> real
    requires Positive(min)
  {
    if ed == 1 || ed == 2 then ByProduct(ed, min) else Effective(Admissible(cr, min), Weighted(cr, min))
  }

  /** The second organisation is strictly the cheapest of all, and the weighted scan erases the head. */
  ghost predicate HidesBest(orgs: seq<UcaOrg>, ed: int, cr: Criteria, min: Pda)
    requires Positive(min)
  {
    && ed != 1 && ed != 2
    && UcaDropsHead(Admissible(cr, min), Weighted(cr, min), orgs) && SecondIsBest(orgs, Target(ed, cr, min))
  }

  /** The result is a cheapest organisation of the whole list, but for that one case. */
  ghost predicate MissesSecondOnly(orgs: seq<UcaOrg>, ed: int, cr: Criteria, min: Pda, r: Option<UcaOrg>)
    requires Positive(min)
  {
    Cheapest(orgs, Target(ed, cr, min), r) <==> !HidesBest(orgs, ed, cr, min)
  }

  lemma ChosenMissesSecondOnly(orgs: seq<UcaOrg>, ed: int, cr: Criteria, min: Pda, r: Option<UcaOrg>)
    requires Positive(min) && Chosen(orgs, ed, cr, min, r)
    ensures MissesSecondOnly(orgs, ed, cr, min, r)
  {
    if ed == 1 || ed == 2 {
      FirstBestIsCheapest(orgs, ByProduct(ed, min), r);
    } else {
      var drops := UcaDropsHead(Admissible(cr, min), Weighted(cr, min), orgs);
      ScanIsCheapestUnlessSecond(orgs, Target(ed, cr, min), drops, r);
    }
  }

  /** `r` is selected among the data arrays that pass the filter, each combined with `p`. */
  ghost predicate Outcome(p: Partner, arrays: seq<MemArray>, ed: int, cr: Criteria, r: Option<UcaOrg>) {
    && Positive(MinOver(Pdas(arrays)))
    && var orgs := Organisations(p, arrays);
       && Positive(MinOver(Map(OrgPda, orgs)))
       && Chosen(orgs, ed, cr, MinOver(Map(OrgPda, orgs)), r)
  }

  /** `p` is what filter_tag_arr leaves: the last of the cheapest admissible tag arrays, or nothing. */
  ghost predicate TagLeft(tags: seq<MemArray>, access: Access, cr: Criteria, p: Option<Partner>) {
    && Positive(MinOver(Pdas(tags)))
    && var min := MinOver(Pdas(tags));
       var eff := Effective(TagAdmissible(cr, min), TagWeighted(cr, min));
       match p
       case None => LastBest(tags, eff, None)
       case Some(q) => q.Tag? && q.access == access && LastBest(tags, eff, Some(q.tag))
  }

  ghost predicate JobWellFormed(job: Job) {
    && WellFormed(job.space) && PhysicalSpace(job.space)
    && (job.tags.Some? ==> WellFormed(job.tags.value.space) && PhysicalSpace(job.tags.value.space))
  }

  ghost predicate Partnered(job: Job, n: nat, p: Option<Partner>)
    requires JobWellFormed(job) && n > 0
  {
    match job.tags
    case None => p == Some(NoTag)
    case Some(side) => exists tags :: Merged(side.space, n, tags) && TagLeft(tags, side.access, job.cr, p)
  }

  /** `r` is the answer of solve() on `n` threads; None stands for its error exits. */
  ghost predicate Solution(job: Job, n: nat, r: Option<UcaOrg>)
    requires JobWellFormed(job) && n > 0
  {
    exists p, arrays :: SolutionWith(job, n, p, arrays, r)
  }

  ghost predicate SolutionWith(job: Job, n: nat, p: Option<Partner>, arrays: seq<MemArray>, r: Option<UcaOrg>)
    requires JobWellFormed(job) && n > 0
  {
    && Merged(job.space, n, arrays) && Partnered(job, n, p)
    && if p.None? then r == None else Outcome(p.value, arrays, job.ed, job.cr, r)
  }

  /** What solve() returns is a cheapest organisation of those that reach the selection, unless the second is hidden. */
  lemma OutcomeIsCheapestIff(p: Partner, arrays: seq<MemArray>, ed: int, cr: Criteria, r: Option<UcaOrg>)
    requires Outcome(p, arrays, ed, cr, r)
    ensures var orgs := Organisations(p, arrays);
            var min := MinOver(Map(OrgPda, orgs));
            Positive(min) && (Cheapest(orgs, Target(ed, cr, min), r) <==> !HidesBest(orgs, ed, cr, min))
  {
    var orgs := Organisations(p, arrays);
    ChosenMissesSecondOnly(orgs, ed, cr, MinOver(Map(OrgPda, orgs)), r);
  }

  // ---------- the number of threads does not matter ----------

  lemma ChosenUnique(orgs: seq<UcaOrg>, ed: int, cr: Criteria, min: Pda, r: Option<UcaOrg>, r': Option<UcaOrg>)
    requires Positive(min) && Chosen(orgs, ed, cr, min, r) && Chosen(orgs, ed, cr, min, r')
    ensures r == r'
  {
    if ed == 1 || ed == 2 {
      FirstBestUnique(orgs, ByProduct(ed, min), r, r');
    } else {
      var ok, cost := Admissible(cr, min), Weighted(cr, min);
      FirstBestUnique(Visits(orgs, UcaDropsHead(ok, cost, orgs)), Effective(ok, cost), r, r');
    }
  }

  lemma PartnerUnique(job: Job, n: nat, n': nat, p: Option<Partner>, p': Option<Partner>)
    requires JobWellFormed(job) && n > 0 && n' > 0 && Partnered(job, n, p) && Partnered(job, n', p')
    requires job.tags.Some? ==> TiesAgree(job.tags.value.space) || IgnoresNdcm(job.tags.value.space)
    ensures p == p'
  {
    match job.tags
    case None =>
    case Some(side) =>
      var tags :| Merged(side.space, n, tags) && TagLeft(tags, side.access, job.cr, p);
      var tags' :| Merged(side.space, n', tags') && TagLeft(tags', side.access, job.cr, p');
      TagUnique(side, job.cr, n, n', tags, tags', p, p');
  }

  lemma TagUnique(side: TagSide, cr: Criteria, n: nat, n': nat, tags: seq<MemArray>, tags': seq<MemArray>,
                  p: Option<Partner>, p': Option<Partner>)
    requires WellFormed(side.space) && n > 0 && n' > 0 && Merged(side.space, n, tags) && Merged(side.space, n', tags')
    requires TiesAgree(side.space) || IgnoresNdcm(side.space)
    requires TagLeft(tags, side.access, cr, p) && TagLeft(tags', side.access, cr, p')
    ensures p == p'
  {
    SameMerged(side.space, n, n', tags, tags');
    SamePdas(tags, tags');
    var min := MinOver(Pdas(tags));
    var eff := Effective(TagAdmissible(cr, min), TagWeighted(cr, min));
    if TiesAgree(side.space) {
      MergedAgree(side.space, n, n', tags, tags');
      LastBestUnique(tags, eff, TagOf(p), TagOf(p'));
    } else {
      LastBestAgrees(side.space, n, n', tags, tags', eff, TagOf(p), TagOf(p'));
    }
  }

  lemma SamePdas(arrays: seq<MemArray>, other: seq<MemArray>)
    requires forall m :: m in arrays <==> m in other
    ensures MinOver(Pdas(arrays)) == MinOver(Pdas(other))
  {
    forall x ensures x in Pdas(arrays) <==> x in Pdas(other) {
      PdaMember(arrays, x);
      PdaMember(other, x);
    }
    MinOverSameMembers(Pdas(arrays), Pdas(other));
  }

  function TagOf(p: Option<Partner>): Option<MemArray> {
    if p.Some? && p.value.Tag? then Some(p.value.tag) else None
  }

  /**
   In every mode, weighted or not, with or without a tag array, solve() returns the same organisation
   on any two numbers of threads, provided that tied arrays agree. For tags it is also enough that
   they do not depend on Ndcm: the list then varies, its last cheapest element does not.
   */
  lemma ThreadCountIsIrrelevant(job: Job, n: nat, n': nat, r: Option<UcaOrg>, r': Option<UcaOrg>)
    requires JobWellFormed(job) && n > 0 && n' > 0
    requires TiesAgree(job.space)
    requires job.tags.Some? ==> TiesAgree(job.tags.value.space) || IgnoresNdcm(job.tags.value.space)
    requires Solution(job, n, r) && Solution(job, n', r')
    ensures r == r'
  {
    var p, arrays :| SolutionWith(job, n, p, arrays, r);
    var p', arrays' :| SolutionWith(job, n', p', arrays', r');
    PartnerUnique(job, n, n', p, p');
    MergedAgree(job.space, n, n', arrays, arrays');
    if p.Some? {
      var orgs := Organisations(p.value, arrays);
      ChosenUnique(orgs, job.ed, job.cr, MinOver(Map(OrgPda, orgs)), r, r');
    }
  }

  /**
   calculate_time is always of one of these kinds: it reports Ndcm as the degree of multiplexing (a
   CAM, a fully associative array and a DRAM data array admit only 1), or, for DRAM tags, ignores it.
   So the number of threads never matters.
   */
  lemma AnswersAgree(job: Job, n: nat, n': nat, r: Option<UcaOrg>, r': Option<UcaOrg>)
    requires JobWellFormed(job) && n > 0 && n' > 0 && KeepsNdcm(job.space)
    requires job.tags.Some? ==> KeepsNdcm(job.tags.value.space) || IgnoresNdcm(job.tags.value.space)
    requires Solution(job, n, r) && Solution(job, n', r')
    ensures r == r'
  {
    KeepsNdcmTiesAgree(job.space);
    if job.tags.Some? && KeepsNdcm(job.tags.value.space) {
      KeepsNdcmTiesAgree(job.tags.value.space);
    }
    ThreadCountIsIrrelevant(job, n, n', r, r');
  }

  // ---------- without the proviso, the cost at least does not depend on it ----------

  lemma OrgMember(p: Partner, arrays: seq<MemArray>, u: UcaOrg)
    requires Positive(MinOver(Pdas(arrays)))
    ensures u in Organisations(p, arrays) <==>
            exists m :: m in arrays && Near(MinOver(Pdas(arrays)))(m) && OrgWith(p)(m) == u
  {
    var near := Near(MinOver(Pdas(arrays)));
    var kept := Filter(near, arrays);
    if u in Organisations(p, arrays) {
      var i :| 0 <= i < |kept| && OrgWith(p)(kept[i]) == u;
      FilterMember(near, arrays, kept[i]);
    }
    forall m | m in arrays && near(m) && OrgWith(p)(m) == u ensures u in Organisations(p, arrays) {
      FilterMember(near, arrays, m);
      var i :| 0 <= i < |kept| && kept[i] == m;
      assert Organisations(p, arrays)[i] == u;
    }
  }

  lemma OrgMinimum(p: Partner, arrays: seq<MemArray>)
    requires (forall m :: m in arrays ==> Physical(m)) && (p.Tag? ==> Physical(p.tag))
    ensures Positive(MinOver(Pdas(arrays)))
    ensures Positive(MinOver(Map(OrgPda, Organisations(p, arrays))))
  {
    PhysicalMinimum(arrays);
    var orgs := Organisations(p, arrays);
    forall x | x in Map(OrgPda, orgs) ensures Positive(x) {
      var i :| 0 <= i < |orgs| && orgs[i].pda == x;
      assert orgs[i] in orgs;
      OrgMember(p, arrays, orgs[i]);
      OrgPositive(p, orgs[i].data);
    }
    MinOverPositive(Map(OrgPda, orgs));
  }

  lemma SameOrganisations(p: Partner, arrays: seq<MemArray>, other: seq<MemArray>)
    requires forall m :: m in arrays <==> m in other
    requires Positive(MinOver(Pdas(arrays)))
    ensures MinOver(Pdas(arrays)) == MinOver(Pdas(other))
    ensures forall u :: u in Organisations(p, arrays) <==> u in Organisations(p, other)
    ensures MinOver(Map(OrgPda, Organisations(p, arrays))) == MinOver(Map(OrgPda, Organisations(p, other)))
  {
    SamePdas(arrays, other);
    forall u ensures u in Organisations(p, arrays) <==> u in Organisations(p, other) {
      OrgMember(p, arrays, u);
      OrgMember(p, other, u);
    }
    SameMappedMembers(OrgPda, Organisations(p, arrays), Organisations(p, other));
    SameMappedMembers(OrgPda, Organisations(p, other), Organisations(p, arrays));
    MinOverSameMembers(Map(OrgPda, Organisations(p, arrays)), Map(OrgPda, Organisations(p, other)));
  }

  lemma SameMappedMembers<A, B>(f: A -> B, s: seq<A>, t: seq<A>)
    requires forall x :: x in s ==> x in t
    ensures forall y :: y in Map(f, s) ==> y in Map(f, t)
  {
    forall y | y in Map(f, s) ensures y in Map(f, t) {
      var i :| 0 <= i < |s| && Map(f, s)[i] == y;
      assert s[i] in s;
      var j :| 0 <= j < |t| && t[j] == s[i];
      assert Map(f, t)[j] == y;
    }
  }

  /** The cost that energy-delay modes 1 and 2 compare, relative to the minima over the organisations. */
  ghost predicate SameCost(p: Partner, arrays: seq<MemArray>, ed: int, r: Option<UcaOrg>, r': Option<UcaOrg>) {
    && Positive(MinOver(Pdas(arrays)))
    && var min := MinOver(Map(OrgPda, Organisations(p, arrays)));
       Positive(min) && (r.Some? <==> r'.Some?) && MinCost(ByProduct(ed, min), r) == MinCost(ByProduct(ed, min), r')
  }

  /** Whatever order the arrays arrive in, the organisations selected by an energy-delay product cost the same. */
  lemma CostIsOrderIndependent(p: Partner, arrays: seq<MemArray>, other: seq<MemArray>, ed: int, cr: Criteria,
                               r: Option<UcaOrg>, r': Option<UcaOrg>)
    requires (ed == 1 || ed == 2) && forall m :: m in arrays <==> m in other
    requires Outcome(p, arrays, ed, cr, r) && Outcome(p, other, ed, cr, r')
    ensures SameCost(p, arrays, ed, r, r')
  {
    SameOrganisations(p, arrays, other);
    var min := MinOver(Map(OrgPda, Organisations(p, arrays)));
    FirstBestIsCheapest(Organisations(p, arrays), ByProduct(ed, min), r);
    FirstBestIsCheapest(Organisations(p, other), ByProduct(ed, min), r');
  }

  /** Plain arrays, energy-delay product: no assumption about ties is needed. */
  lemma ThreadCountKeepsCost(job: Job, n: nat, n': nat, all: seq<Pos>, r: Option<UcaOrg>, r': Option<UcaOrg>)
    requires JobWellFormed(job) && n > 0 && n' > 0 && job.tags.None? && (job.ed == 1 || job.ed == 2)
    requires Complete(job.space, all) && Solution(job, n, r) && Solution(job, n', r')
    ensures SameCost(NoTag, Recorded(job.space, all), job.ed, r, r')
  {
    var arrays := PlainOutcome(job, n, all, r);
    var arrays' := PlainOutcome(job, n', all, r');
    CostIsOrderIndependent(NoTag, arrays, arrays', job.ed, job.cr, r, r');
    SameOrganisations(NoTag, arrays, Recorded(job.space, all));
  }

  lemma PlainOutcome(job: Job, n: nat, all: seq<Pos>, r: Option<UcaOrg>) returns (arrays: seq<MemArray>)
    requires JobWellFormed(job) && n > 0 && job.tags.None? && Complete(job.space, all) && Solution(job, n, r)
    ensures Outcome(NoTag, arrays, job.ed, job.cr, r)
    ensures forall m :: m in arrays <==> m in Recorded(job.space, all)
  {
    var p;
    p, arrays :| SolutionWith(job, n, p, arrays, r);
    MergedIsSorted(job.space, n, arrays, all);
    SameMembers(Recorded(job.space, all), arrays);
  }

  // ---------- the program ----------

  /** Starts and joins the threads, merges their sorted lists and reduces their minima. */
  method SweepAll(sp: Space, n: nat, isTag: bool, fullyAssoc: bool) returns (arrays: seq<MemArray>, least: Pda)
    requires WellFormed(sp) && n > 0
    ensures Merged(sp, n, arrays) && least == MinOver(Pdas(arrays))
    ensures exists points :: Tabulates(sp, points, arrays)
  {
    NotAfterIsTotalPreorder();
    ghost var all: seq<Pos> := [];
    arrays := [];
    assert StableOrder(NotAfter(), Recorded(sp, all), []) && arrays == Picked(Recorded(sp, all), []);
    var min := new MinValues();
    for t := 0 to n
      invariant fresh(min) && CompleteUpTo(sp, n, t, all) && ByThread(n, all)
      invariant StableSorted(NotAfter(), Recorded(sp, all), arrays)
      invariant min.min == MinOver(Pdas(Recorded(sp, all)))
    {
      var thread := new CalcThread(t, isTag, fullyAssoc);
      ghost var seen := thread.Run(sp, n);
      var sorted := StableSort(NotAfter(), if isTag then thread.tagArr else thread.dataArr);
      StableIsSorted(NotAfter(), Recorded(sp, all), arrays);
      StableIsSorted(NotAfter(), Recorded(sp, seen), sorted);
      var merged := Merge(NotAfter(), arrays, sorted);
      min.Update(if isTag then thread.tagRes.min else thread.dataRes.min);
      StableCompose(NotAfter(), Recorded(sp, all), arrays, Recorded(sp, seen), sorted, merged);
      arrays := merged;
      JoinThread(sp, all, seen);
      ShareJoins(sp, n, t, all, seen);
      ByThreadJoins(sp, n, t, all, seen);
      all := all + seen;
    }
    SharesAreComplete(sp, n, all);
    ghost var order :| StableOrder(NotAfter(), Recorded(sp, all), order) && arrays == Picked(Recorded(sp, all), order);
    assert MergedFrom(sp, n, all, order, arrays);
    MergedIsSorted(sp, n, arrays, all);
    MapPermutation(PdaOf, arrays, Recorded(sp, all));
    SameMembers(Pdas(arrays), Pdas(Recorded(sp, all)));
    MinOverSameMembers(Pdas(arrays), Pdas(Recorded(sp, all)));
    least := min.min;
    ghost var points := MergedTabulates(sp, n, arrays);
  }

  lemma JoinThread(sp: Space, all: seq<Pos>, seen: seq<Pos>)
    requires WellFormed(sp)
    ensures Recorded(sp, all + seen) == Recorded(sp, all) + Recorded(sp, seen)
    ensures MinOver(Pdas(Recorded(sp, all + seen))) ==
            MinPda(MinOver(Pdas(Recorded(sp, all))), MinOver(Pdas(Recorded(sp, seen))))
  {
    assert Recorded(sp, all + seen) == Recorded(sp, all) + Recorded(sp, seen);
    assert Pdas(Recorded(sp, all + seen)) == Pdas(Recorded(sp, all)) + Pdas(Recorded(sp, seen));
    MinOverJoin(Pdas(Recorded(sp, all)), Pdas(Recorded(sp, seen)));
  }

  lemma MergedPhysical(sp: Space, n: nat, arrays: seq<MemArray>)
    requires WellFormed(sp) && PhysicalSpace(sp) && n > 0 && Merged(sp, n, arrays)
    ensures forall m :: m in arrays ==> Physical(m)
  {
    forall m | m in arrays ensures Physical(m) {
      var pos := MergedMember(sp, n, arrays, m);
    }
  }

  /** A freshly constructed `uca_org_t`. */
  const EMPTY_ORG := UcaOrg(NoTag, SCRATCH, BIG)

  /**
   One organisation for each remaining data array, with the minima over all of them. The list always
   ends with one element more, which is filled next and dropped at last.
   */
  method BuildOrganisations(p: Partner, arrays: seq<MemArray>) returns (orgs: seq<UcaOrg>, cacheMin: Pda)
    ensures orgs == Map(OrgWith(p), arrays) && cacheMin == MinOver(Map(OrgPda, orgs))
  {
    orgs := [EMPTY_ORG];
    var min := new MinValues();
    for i := 0 to |arrays|
      invariant fresh(min)
      invariant orgs == Map(OrgWith(p), arrays[..i]) + [EMPTY_ORG]
      invariant min.min == MinOver(Map(OrgPda, Map(OrgWith(p), arrays[..i])))
    {
      var org := UcaOrg(p, arrays[i], OrgPdaOf(p, arrays[i]));
      assert Map(OrgWith(p), arrays[..i + 1]) == Map(OrgWith(p), arrays[..i]) + [org];
      assert Map(OrgPda, Map(OrgWith(p), arrays[..i + 1]))[..i] == Map(OrgPda, Map(OrgWith(p), arrays[..i]));
      orgs := orgs[|orgs| - 1 := org];
      min.Update(org.pda);
      orgs := orgs + [EMPTY_ORG];
    }
    orgs := orgs[..|orgs| - 1];
    cacheMin := min.min;
  }

  /** find_optimal_uca; None stands for its error exits. */
  method FindOptimalUca(list: CandidateList<UcaOrg>, ed: int, cr: Criteria, min: Pda) returns (res: Option<UcaOrg>)
    requires Positive(min)
    modifies list
    ensures Chosen(old(list.items), ed, cr, min, res)
    ensures MissesSecondOnly(old(list.items), ed, cr, min, res)
    ensures ed == 1 || ed == 2 ==> list.items == old(list.items)
  {
    if |list.items| == 0 {
      res := None;
    } else if ed == 1 || ed == 2 {
      res := list.ScanProduct(ByProduct(ed, min));
    } else {
      ghost var trail;
      res, trail := list.ScanUca(Admissible(cr, min), Weighted(cr, min));
    }
    ChosenMissesSecondOnly(old(list.items), ed, cr, min, res);
  }

  /** filter_tag_arr: one tag array is kept, every other one is deleted once. False stands for its error exits. */
  method FilterTagArr(list: CandidateList<MemArray>, cr: Criteria, min: Pda)
    returns (found: bool, ghost deleted: seq<MemArray>)
    requires Positive(min)
    modifies list
    ensures found ==> |list.items| == 1
    ensures !found ==> list.items == []
    ensures LastBest(old(list.items), Effective(TagAdmissible(cr, min), TagWeighted(cr, min)),
                     if found then Some(list.items[0]) else None)
    ensures multiset(deleted) + multiset(list.items) == multiset(old(list.items))
  {
    found, deleted := list.FilterTag(TagAdmissible(cr, min), TagWeighted(cr, min));
  }

  /** The sweep over tag arrays, and what is left of it. */
  method FindPartner(job: Job, n: nat) returns (p: Option<Partner>)
    requires JobWellFormed(job) && n > 0
    ensures Partnered(job, n, p)
    ensures p.Some? && p.value.Tag? ==> Physical(p.value.tag)
  {
    match job.tags
    case None => p := Some(NoTag);
    case Some(side) =>
      var tags, tMin := SweepAll(side.space, n, true, false);
      MergedPhysical(side.space, n, tags);
      PhysicalMinimum(tags);
      var list := new CandidateList(tags);
      var found;
      ghost var deleted;
      found, deleted := FilterTagArr(list, job.cr, tMin);
      p := if found then Some(Tag(list.items[0], side.access)) else None;
      assert TagLeft(tags, side.access, job.cr, p);
      assert found ==> list.items[0] in tags;
  }

  /** solve() */
  method Solve(job: Job, n: nat) returns (res: Option<UcaOrg>)
    requires JobWellFormed(job) && n > 0
    ensures Solution(job, n, res)
  {
    var p := FindPartner(job, n);
    var arrays, dMin := SweepAll(job.space, n, false, job.fullyAssoc);
    MergedPhysical(job.space, n, arrays);
    if p.None? {
      res := None;
    } else {
      OrgMinimum(p.value, arrays);
      var list := new CandidateList(arrays);
      list.FilterData(Near(dMin));
      var orgs, cacheMin := BuildOrganisations(p.value, list.items);
      var solutions := new CandidateList(orgs);
      res := FindOptimalUca(solutions, job.ed, job.cr, cacheMin);
    }
    assert SolutionWith(job, n, p, arrays, res);
  }
}
