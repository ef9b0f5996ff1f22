/**
 In the same-bandwidth mode the pruning of channels can lose the optimum, and even the only
 solution. Exactly when it does not, and an input on which it does.
 */
module SameBandwidthLoss {
  import opened Metrics
  import opened Sorting
  import opened Combinations
  import opened Pruning
  import opened Assembly
  import opened Channels
  import opened ChannelSearch
  import opened MemCadSpec

  /** A BoB that the mode would admit if nothing were pruned. */
  ghost predicate Unpruned(p: Params, cs: seq<Channel>) {
    |cs| == p.numChannelsPerBob && OneBandwidth(cs) && forall c :: c in cs ==> Offered(p, c)
  }

  ghost predicate SameCapacities(cs: seq<Channel>, ds: seq<Channel>) {
    |cs| == |ds| && forall i :: 0 <= i < |cs| ==> cs[i].figures.capacity == ds[i].figures.capacity
  }

  /** The channels of `cs` have survivors that run at one bandwidth. */
  ghost predicate Recovered(p: Params, channels: seq<Channel>, cs: seq<Channel>) {
    exists ds :: Allowed(p, channels, ds) && SameCapacities(cs, ds)
  }

  function BobParts(alt: seq<seq<Channel>>): (ys: seq<Figures>) {
    Map(BobFigures, Map(MakesBob(), alt))
  }

  function MakesBob(): seq<Channel> -> Bob { cs => BobOf(cs) }

  /** A memory of unpruned same-bandwidth BoBs that meets the target. */
  ghost predicate SameBandwidthDesign(p: Params, alt: seq<seq<Channel>>) {
    && |alt| == p.numBobs && (forall cs :: cs in alt ==> Unpruned(p, cs))
    && Total(BobParts(alt)).capacity == p.capacity
  }

  /** A memory that meets the target with BoBs of surviving channels. */
  ghost predicate SurvivorDesign(p: Params, channels: seq<Channel>, alt: seq<seq<Channel>>) {
    && |alt| == p.numBobs && (forall cs :: cs in alt ==> Allowed(p, channels, cs))
    && Total(BobParts(alt)).capacity == p.capacity
  }

  function ChannelSum(cs: seq<Channel>): int {
    if cs == [] then 0 else ChannelSum(cs[..|cs| - 1]) + cs[|cs| - 1].figures.capacity
  }

  /** Enough channels on offer, of any bandwidths, meet the target together. */
  ghost predicate ChannelsMeet(p: Params, w: seq<Channel>) {
    && |w| == p.numBobs * p.numChannelsPerBob && (forall c :: c in w ==> Offered(p, c))
    && ChannelSum(w) == p.capacity
  }

  // ---------- a memory is found just when the survivors can make one ----------

  lemma CoveredPartsBeaten(p: Params, bobs: seq<Bob>, memories: seq<Memory>, alt: seq<seq<Channel>>)
    requires MemoriesFound(p, bobs, memories)
    requires |alt| == p.numBobs && Total(BobParts(alt)).capacity == p.capacity
    requires forall cs :: cs in alt ==> Covered(p.ranking, BobFigures, bobs, BobOf(cs).figures)
    ensures HeadBeats(p, memories, Total(BobParts(alt)))
  {
    var ys := BobParts(alt);
    forall y | y in ys ensures Covered(p.ranking, BobFigures, bobs, y) {
      var i :| 0 <= i < |alt| && ys[i] == y;
      assert alt[i] in alt;
    }
    assert CoveredWhole(p, bobs, ys);
  }

  /** The pruning of BoBs is harmless in every mode: what it may lose was lost with the channels. */
  lemma BobPruningLossless(p: Params, channels: seq<Channel>, bobs: seq<Bob>, memories: seq<Memory>,
                           alt: seq<seq<Channel>>)
    requires BobsFound(p, channels, bobs) && MemoriesFound(p, bobs, memories) && SurvivorDesign(p, channels, alt)
    ensures HeadBeats(p, memories, Total(BobParts(alt)))
  {
    CoveredPartsBeaten(p, bobs, memories, alt);
  }

  function ChannelsOf(): Bob -> seq<Channel> { (b: Bob) => b.channels }

  /** Every memory found is such a design. */
  lemma FoundIsSurvivorDesign(p: Params, channels: seq<Channel>, bobs: seq<Bob>, m: Memory)
    returns (alt: seq<seq<Channel>>)
    requires BobsFound(p, channels, bobs) && MemoryMadeOf(p, bobs, m)
    ensures SurvivorDesign(p, channels, alt) && m.figures == Total(BobParts(alt))
  {
    alt := Map(ChannelsOf(), m.bobs);
    forall i | 0 <= i < |m.bobs| ensures m.bobs[i] == BobOf(alt[i]) && Allowed(p, channels, alt[i]) {
      assert m.bobs[i] in m.bobs;
    }
    assert Map(MakesBob(), alt) == m.bobs;
  }

  /** In every mode: the first memory beats `y` just when some memory of surviving channels does. */
  lemma HeadBeatsIff(p: Params, channels: seq<Channel>, bobs: seq<Bob>, memories: seq<Memory>, y: Figures)
    requires BobsFound(p, channels, bobs) && MemoriesFound(p, bobs, memories)
    ensures HeadBeats(p, memories, y) <==>
            exists alt :: SurvivorDesign(p, channels, alt) && Beats(p.ranking, Total(BobParts(alt)), y)
  {
    if HeadBeats(p, memories, y) {
      assert memories[0] in memories;
      var alt := FoundIsSurvivorDesign(p, channels, bobs, memories[0]);
    }
    forall alt | SurvivorDesign(p, channels, alt) && Beats(p.ranking, Total(BobParts(alt)), y)
      ensures HeadBeats(p, memories, y)
    {
      BobPruningLossless(p, channels, bobs, memories, alt);
      BeatsIsPreorder(p.ranking, memories[0].figures, Total(BobParts(alt)), y);
    }
  }

  /** In every mode: some memory is found just when surviving channels can make one. */
  lemma FoundIffSurvivorsMeet(p: Params, channels: seq<Channel>, bobs: seq<Bob>, memories: seq<Memory>)
    requires BobsFound(p, channels, bobs) && MemoriesFound(p, bobs, memories)
    ensures memories != [] <==> exists alt :: SurvivorDesign(p, channels, alt)
  {
    if memories != [] {
      assert memories[0] in memories;
      var alt := FoundIsSurvivorDesign(p, channels, bobs, memories[0]);
    }
    forall alt | SurvivorDesign(p, channels, alt) ensures memories != [] {
      BobPruningLossless(p, channels, bobs, memories, alt);
    }
  }

  // ---------- without pruning, bandwidths are no obstacle ----------

  /** Every channel on offer is also on offer at the lowest bandwidth. */
  lemma SlowTwin(p: Params, c: Channel) returns (d: Channel)
    requires Offered(p, c)
    ensures Offered(p, d) && d.figures.capacity == c.figures.capacity && d.figures.bandwidth == BandwidthLoad(p.io, 0)
  {
    var k: Candidate :| Qualifies(p, k) && c == Build(p, k);
    var slow := k.(bw := 0);
    assert Qualifies(p, slow);
    d := Build(p, slow);
  }

  lemma {:induction false} SlowTwins(p: Params, cs: seq<Channel>) returns (ds: seq<Channel>)
    requires forall c :: c in cs ==> Offered(p, c)
    ensures SameCapacities(cs, ds)
    ensures forall d :: d in ds ==> Offered(p, d) && d.figures.bandwidth == BandwidthLoad(p.io, 0)
  {
    ds := [];
    if cs != [] {
      var n := |cs| - 1;
      ds := SlowTwins(p, cs[..n]);
      var d := SlowTwin(p, cs[n]);
      ds := ds + [d];
    }
  }

  lemma {:induction false} SameCapacitySums(cs: seq<Channel>, ds: seq<Channel>)
    requires SameCapacities(cs, ds)
    ensures ChannelSum(cs) == ChannelSum(ds)
  {
    if cs != [] {
      SameCapacitySums(cs[..|cs| - 1], ds[..|cs| - 1]);
    }
  }

  lemma {:induction false} ChannelSumJoin(u: seq<Channel>, v: seq<Channel>)
    ensures ChannelSum(u + v) == ChannelSum(u) + ChannelSum(v)
  {
    if v == [] {
      assert u + v == u;
    } else {
      var n := |v| - 1;
      assert (u + v)[..|u| + n] == u + v[..n];
      ChannelSumJoin(u, v[..n]);
    }
  }

  lemma {:induction false} ChannelSumIsTotal(cs: seq<Channel>)
    ensures ChannelSum(cs) == Total(Map(ChannelFigures, cs)).capacity
  {
    if cs != [] {
      var n := |cs| - 1;
      ChannelSumIsTotal(cs[..n]);
      assert Map(ChannelFigures, cs)[..n] == Map(ChannelFigures, cs[..n]);
    }
  }

  function BobSum(alt: seq<seq<Channel>>): int {
    if alt == [] then 0 else BobSum(alt[..|alt| - 1]) + ChannelSum(alt[|alt| - 1])
  }

  lemma {:induction false} BobSumIsTotal(alt: seq<seq<Channel>>)
    ensures BobSum(alt) == Total(BobParts(alt)).capacity
  {
    if alt != [] {
      var n := |alt| - 1;
      BobSumIsTotal(alt[..n]);
      ChannelSumIsTotal(alt[n]);
      assert BobParts(alt)[..n] == BobParts(alt[..n]);
    }
  }

  /** n * k, counted group by group. */
  function InGroups(n: nat, k: nat): nat {
    if n == 0 then 0 else InGroups(n - 1, k) + k
  }

  lemma {:induction false} InGroupsIsProduct(n: nat, k: nat)
    ensures InGroups(n, k) == n * k
  {
    if n > 0 {
      InGroupsIsProduct(n - 1, k);
      assert n * k == (n - 1) * k + k;
    }
  }

  /** The channels of `w`, at the lowest bandwidth, make `n` BoBs. */
  lemma {:induction false} Group(p: Params, w: seq<Channel>, n: nat) returns (alt: seq<seq<Channel>>)
    requires |w| == InGroups(n, p.numChannelsPerBob) && forall c :: c in w ==> Offered(p, c)
    ensures |alt| == n && (forall cs :: cs in alt ==> Unpruned(p, cs)) && BobSum(alt) == ChannelSum(w)
    decreases n
  {
    alt := [];
    if n > 0 {
      var k := |w| - p.numChannelsPerBob;
      var u, v := w[..k], w[k..];
      assert w == u + v;
      var before := Group(p, u, n - 1);
      var ds := SlowBob(p, v);
      ChannelSumJoin(u, v);
      alt := before + [ds];
      assert alt[..n - 1] == before;
    }
  }

  lemma SlowBob(p: Params, cs: seq<Channel>) returns (ds: seq<Channel>)
    requires |cs| == p.numChannelsPerBob && forall c :: c in cs ==> Offered(p, c)
    ensures Unpruned(p, ds) && ChannelSum(ds) == ChannelSum(cs)
  {
    ds := SlowTwins(p, cs);
    assert forall i :: 0 <= i < |ds| ==> ds[i] in ds;
    SameCapacitySums(cs, ds);
  }

  /** All channels of a design in one list. */
  lemma {:induction false} Ungroup(p: Params, alt: seq<seq<Channel>>) returns (w: seq<Channel>)
    requires forall cs :: cs in alt ==> Unpruned(p, cs)
    ensures |w| == InGroups(|alt|, p.numChannelsPerBob) && (forall c :: c in w ==> Offered(p, c))
    ensures ChannelSum(w) == BobSum(alt)
  {
    w := [];
    if alt != [] {
      var n := |alt| - 1;
      var before := Ungroup(p, alt[..n]);
      assert alt[n] in alt;
      ChannelSumJoin(before, alt[n]);
      w := before + alt[n];
    }
  }

  /** A same-bandwidth memory could be built just when enough channels on offer meet the target. */
  lemma DesignIffChannelsMeet(p: Params)
    ensures (exists alt :: SameBandwidthDesign(p, alt)) <==> exists w :: ChannelsMeet(p, w)
  {
    InGroupsIsProduct(p.numBobs, p.numChannelsPerBob);
    forall alt | SameBandwidthDesign(p, alt) ensures exists w :: ChannelsMeet(p, w) {
      var w := Ungroup(p, alt);
      BobSumIsTotal(alt);
      assert ChannelsMeet(p, w);
    }
    forall w | ChannelsMeet(p, w) ensures exists alt :: SameBandwidthDesign(p, alt) {
      var alt := Group(p, w, p.numBobs);
      BobSumIsTotal(alt);
      assert SameBandwidthDesign(p, alt);
    }
  }

  lemma SurvivorsAreOffered(p: Params, channels: seq<Channel>, alt: seq<seq<Channel>>)
    requires !p.mirrorInBob && BestChannels(p, channels) && SurvivorDesign(p, channels, alt)
    ensures SameBandwidthDesign(p, alt)
  {
    forall cs | cs in alt ensures Unpruned(p, cs) {
      assert Allowed(p, channels, cs);
    }
  }

  /**
   When a same-bandwidth memory is found whenever one could be built: just when, as soon as channels
   on offer meet the target at all, surviving channels meet it in groups of one bandwidth.
   */
  lemma FindsWheneverPossibleIff(p: Params, channels: seq<Channel>, bobs: seq<Bob>, memories: seq<Memory>)
    requires !p.mirrorInBob && BestChannels(p, channels) && BobsFound(p, channels, bobs)
    requires MemoriesFound(p, bobs, memories)
    ensures (memories != [] <==> exists alt :: SameBandwidthDesign(p, alt)) <==>
            ((exists w :: ChannelsMeet(p, w)) ==> exists alt :: SurvivorDesign(p, channels, alt))
  {
    DesignIffChannelsMeet(p);
    FoundIffSurvivorsMeet(p, channels, bobs, memories);
    forall alt | SurvivorDesign(p, channels, alt) ensures SameBandwidthDesign(p, alt) {
      SurvivorsAreOffered(p, channels, alt);
    }
  }

  // ---------- when the optimum is found ----------

  /** The first memory is a best one of all same-bandwidth memories that could be built. */
  ghost predicate SameBandwidthOptimum(p: Params, memories: seq<Memory>) {
    && (memories != [] <==> exists alt :: SameBandwidthDesign(p, alt))
    && (memories != [] ==> exists alt :: SameBandwidthDesign(p, alt) && memories[0].figures == Total(BobParts(alt)))
    && (forall alt :: SameBandwidthDesign(p, alt) ==> HeadBeats(p, memories, Total(BobParts(alt))))
  }

  /** Where it is, it has the least cost, the most bandwidth or the least energy of them all, as ranked. */
  lemma SameBandwidthHeadInFigures(p: Params, memories: seq<Memory>, alt: seq<seq<Channel>>)
    requires SameBandwidthOptimum(p, memories) && SameBandwidthDesign(p, alt)
    ensures memories != []
    ensures p.ranking.first == Cost ==> memories[0].figures.cost <= Total(BobParts(alt)).cost
    ensures p.ranking.first == Bandwidth ==> memories[0].figures.bandwidth >= Total(BobParts(alt)).bandwidth
    ensures p.ranking.first == Energy ==> memories[0].figures.energy <= Total(BobParts(alt)).energy
    ensures HeadLeads(p, memories, Total(BobParts(alt)))
  {
    BeatingHeadLeads(p, memories, Total(BobParts(alt)));
  }

  /** Some memory of surviving channels is at least as good as this one. */
  ghost predicate Rebuilt(p: Params, channels: seq<Channel>, alt: seq<seq<Channel>>) {
    exists other :: SurvivorDesign(p, channels, other)
      && Beats(p.ranking, Total(BobParts(other)), Total(BobParts(alt)))
  }

  /** The optimum is found just when every memory can be equalled with surviving channels. */
  lemma OptimumIff(p: Params, channels: seq<Channel>, bobs: seq<Bob>, memories: seq<Memory>)
    requires !p.mirrorInBob && BestChannels(p, channels) && BobsFound(p, channels, bobs)
    requires MemoriesFound(p, bobs, memories)
    ensures SameBandwidthOptimum(p, memories) <==>
            forall alt :: SameBandwidthDesign(p, alt) ==> Rebuilt(p, channels, alt)
  {
    forall alt | SameBandwidthDesign(p, alt)
      ensures HeadBeats(p, memories, Total(BobParts(alt))) <==> Rebuilt(p, channels, alt)
    {
      HeadBeatsIff(p, channels, bobs, memories, Total(BobParts(alt)));
    }
    if memories != [] {
      assert memories[0] in memories;
      var alt := FoundIsSurvivorDesign(p, channels, bobs, memories[0]);
      SurvivorsAreOffered(p, channels, alt);
    }
  }

  /** Survivors of the channels of `cs`, one by one. */
  lemma {:induction false} Survivors(p: Params, channels: seq<Channel>, cs: seq<Channel>) returns (ds: seq<Channel>)
    requires forall c :: c in cs ==> Covered(p.ranking, ChannelFigures, channels, c.figures)
    ensures |ds| == |cs| && SameCapacities(cs, ds) && forall d :: d in ds ==> d in channels
    ensures forall i :: 0 <= i < |cs| ==> Beats(p.ranking, ds[i].figures, cs[i].figures)
  {
    ds := [];
    if cs != [] {
      var n := |cs| - 1;
      ds := Survivors(p, channels, cs[..n]);
      assert cs[n] in cs;
      var d :| d in channels && Beats(p.ranking, ChannelFigures(d), cs[n].figures);
      ds := ds + [d];
    }
  }

  /** Survivors of given capacities are unique, so they are as good as any channels of those capacities. */
  lemma RecoveredBeat(p: Params, channels: seq<Channel>, cs: seq<Channel>, ds: seq<Channel>)
    requires BestChannels(p, channels) && SameCapacities(cs, ds)
    requires (forall c :: c in cs ==> Offered(p, c)) && (forall d :: d in ds ==> d in channels)
    ensures forall i :: 0 <= i < |cs| ==> Beats(p.ranking, ds[i].figures, cs[i].figures)
  {
    forall i | 0 <= i < |cs| ensures Beats(p.ranking, ds[i].figures, cs[i].figures) {
      assert cs[i] in cs && ds[i] in ds;
      var d :| d in channels && Beats(p.ranking, ChannelFigures(d), cs[i].figures);
      assert d == ds[i];
    }
  }

  lemma RecoveredCovered(p: Params, channels: seq<Channel>, bobs: seq<Bob>, cs: seq<Channel>)
    requires !p.mirrorInBob && BestChannels(p, channels) && BobsFound(p, channels, bobs)
    requires Unpruned(p, cs) && Recovered(p, channels, cs)
    ensures Covered(p.ranking, BobFigures, bobs, BobOf(cs).figures)
  {
    var ds: seq<Channel> :| Allowed(p, channels, ds) && SameCapacities(cs, ds);
    RecoveredBeat(p, channels, cs, ds);
    TotalBeats(p.ranking, Map(ChannelFigures, ds), Map(ChannelFigures, cs));
    CoveredThrough(p.ranking, BobFigures, bobs, BobOf(ds).figures, BobOf(cs).figures);
  }

  /** A memory each of whose BoBs has survivors of one bandwidth is beaten by the first memory found. */
  lemma RecoveredDesignBeaten(p: Params, channels: seq<Channel>, bobs: seq<Bob>, memories: seq<Memory>,
                              alt: seq<seq<Channel>>)
    requires !p.mirrorInBob && BestChannels(p, channels) && BobsFound(p, channels, bobs)
    requires MemoriesFound(p, bobs, memories)
    requires SameBandwidthDesign(p, alt) && forall cs :: cs in alt ==> Recovered(p, channels, cs)
    ensures HeadBeats(p, memories, Total(BobParts(alt)))
  {
    forall cs | cs in alt ensures Covered(p.ranking, BobFigures, bobs, BobOf(cs).figures) {
      RecoveredCovered(p, channels, bobs, cs);
    }
    CoveredPartsBeaten(p, bobs, memories, alt);
  }

  lemma AllRecoveredOptimum(p: Params, channels: seq<Channel>, bobs: seq<Bob>, memories: seq<Memory>)
    requires !p.mirrorInBob && BestChannels(p, channels) && BobsFound(p, channels, bobs)
    requires MemoriesFound(p, bobs, memories)
    requires forall cs :: Unpruned(p, cs) ==> Recovered(p, channels, cs)
    ensures SameBandwidthOptimum(p, memories)
  {
    forall alt | SameBandwidthDesign(p, alt) ensures Rebuilt(p, channels, alt) {
      RecoveredDesignBeaten(p, channels, bobs, memories, alt);
      HeadBeatsIff(p, channels, bobs, memories, Total(BobParts(alt)));
    }
    OptimumIff(p, channels, bobs, memories);
  }

  /** With one channel per BoB nothing is ever lost. */
  lemma SingleChannelLossless(p: Params, channels: seq<Channel>, bobs: seq<Bob>, memories: seq<Memory>)
    requires !p.mirrorInBob && p.numChannelsPerBob <= 1 && BestChannels(p, channels)
    requires BobsFound(p, channels, bobs) && MemoriesFound(p, bobs, memories)
    ensures SameBandwidthOptimum(p, memories)
  {
    forall cs | Unpruned(p, cs) ensures Recovered(p, channels, cs) {
      var ds := Survivors(p, channels, cs);
      assert Allowed(p, channels, ds);
    }
    AllRecoveredOptimum(p, channels, bobs, memories);
  }

  /** With more, every BoB has survivors of one bandwidth just when all survivors share one. */
  lemma OneBandwidthIffRecovered(p: Params, channels: seq<Channel>)
    requires !p.mirrorInBob && p.numChannelsPerBob >= 2 && BestChannels(p, channels)
    ensures OneBandwidth(channels) <==> forall cs :: Unpruned(p, cs) ==> Recovered(p, channels, cs)
  {
    if OneBandwidth(channels) {
      forall cs | Unpruned(p, cs) ensures Recovered(p, channels, cs) {
        SharedBandwidthRecovers(p, channels, cs);
      }
    }
    if forall cs :: Unpruned(p, cs) ==> Recovered(p, channels, cs) {
      forall i, j | 0 <= i < j < |channels| ensures channels[i].figures.bandwidth == channels[j].figures.bandwidth {
        PairRecovered(p, channels, channels[i], channels[j]);
      }
    }
  }

  lemma SharedBandwidthRecovers(p: Params, channels: seq<Channel>, cs: seq<Channel>)
    requires !p.mirrorInBob && BestChannels(p, channels) && OneBandwidth(channels) && Unpruned(p, cs)
    ensures Recovered(p, channels, cs)
  {
    var ds := Survivors(p, channels, cs);
    forall i, j | 0 <= i < j < |ds| ensures ds[i].figures.bandwidth == ds[j].figures.bandwidth {
      assert ds[i] in ds && ds[j] in ds;
      var k :| 0 <= k < |channels| && channels[k] == ds[i];
      var l :| 0 <= l < |channels| && channels[l] == ds[j];
      assert k < l || l < k || k == l;
    }
    assert Allowed(p, channels, ds);
  }

  lemma PairRecovered(p: Params, channels: seq<Channel>, x: Channel, y: Channel)
    requires !p.mirrorInBob && p.numChannelsPerBob >= 2 && BestChannels(p, channels)
    requires forall cs :: Unpruned(p, cs) ==> Recovered(p, channels, cs)
    requires x in channels && y in channels
    ensures x.figures.bandwidth == y.figures.bandwidth
  {
    var a := SlowTwin(p, x);
    var b := SlowTwin(p, y);
    var cs := FirstAndRest(p, a, b);
    var ds: seq<Channel> :| Allowed(p, channels, ds) && SameCapacities(cs, ds);
    assert ds[0] in ds && ds[1] in ds;
    assert ds[0] == x && ds[1] == y;
  }

  lemma FirstAndRest(p: Params, a: Channel, b: Channel) returns (cs: seq<Channel>)
    requires p.numChannelsPerBob >= 2 && Offered(p, a) && Offered(p, b)
    requires a.figures.bandwidth == b.figures.bandwidth
    ensures Unpruned(p, cs) && cs[0] == a && cs[1] == b
  {
    cs := seq(p.numChannelsPerBob, i => if i == 0 then a else b);
  }

  // ---------- the same conditions in terms of the parameters alone ----------

  /** A channel on offer that no channel on offer of its capacity surpasses. */
  ghost predicate BestOffer(p: Params, c: Channel) {
    && Offered(p, c)
    && forall d :: Offered(p, d) && d.figures.capacity == c.figures.capacity ==> Beats(p.ranking, c.figures, d.figures)
  }

  /** A memory that meets the target with BoBs of best offers, each BoB of one bandwidth. */
  ghost predicate BestDesign(p: Params, alt: seq<seq<Channel>>) {
    && |alt| == p.numBobs && (forall cs :: cs in alt ==> BestBob(p, cs))
    && Total(BobParts(alt)).capacity == p.capacity
  }

  ghost predicate BestBob(p: Params, cs: seq<Channel>) {
    |cs| == p.numChannelsPerBob && OneBandwidth(cs) && forall c :: c in cs ==> BestOffer(p, c)
  }

  predicate RanksBandwidth(o: Ranking) {
    o.first == Bandwidth || o.second == Bandwidth || o.third == Bandwidth
  }

  /** If bandwidth is ranked, best offers of one capacity run at one bandwidth. */
  lemma BestOffersAgree(p: Params, c: Channel, d: Channel)
    requires RanksBandwidth(p.ranking) && BestOffer(p, c) && BestOffer(p, d)
    requires c.figures.capacity == d.figures.capacity
    ensures c.figures.bandwidth == d.figures.bandwidth
  {
    assert Beats(p.ranking, c.figures, d.figures) && Beats(p.ranking, d.figures, c.figures);
  }

  lemma SurvivorIsBestOffer(p: Params, channels: seq<Channel>, c: Channel)
    requires BestChannels(p, channels) && c in channels
    ensures BestOffer(p, c)
  {
    forall d | Offered(p, d) && d.figures.capacity == c.figures.capacity
      ensures Beats(p.ranking, c.figures, d.figures)
    {
      var x :| x in channels && Beats(p.ranking, ChannelFigures(x), d.figures);
      assert x == c;
    }
  }

  /** The survivors of best offers of one bandwidth run at one bandwidth, too, and are as good. */
  lemma SurvivingBob(p: Params, channels: seq<Channel>, cs: seq<Channel>) returns (ds: seq<Channel>)
    requires !p.mirrorInBob && RanksBandwidth(p.ranking) && BestChannels(p, channels) && BestBob(p, cs)
    ensures Allowed(p, channels, ds) && Beats(p.ranking, BobOf(ds).figures, BobOf(cs).figures)
  {
    ds := Survivors(p, channels, cs);
    forall i | 0 <= i < |ds| ensures ds[i].figures.bandwidth == cs[i].figures.bandwidth {
      assert ds[i] in ds && cs[i] in cs;
      SurvivorIsBestOffer(p, channels, ds[i]);
      BestOffersAgree(p, ds[i], cs[i]);
    }
    TotalBeats(p.ranking, Map(ChannelFigures, ds), Map(ChannelFigures, cs));
  }

  lemma {:induction false} SurvivingBobs(p: Params, channels: seq<Channel>, alt: seq<seq<Channel>>)
    returns (other: seq<seq<Channel>>)
    requires !p.mirrorInBob && RanksBandwidth(p.ranking) && BestChannels(p, channels)
    requires forall cs :: cs in alt ==> BestBob(p, cs)
    ensures |other| == |alt| && forall ds :: ds in other ==> Allowed(p, channels, ds)
    ensures forall i :: 0 <= i < |alt| ==> Beats(p.ranking, BobOf(other[i]).figures, BobOf(alt[i]).figures)
  {
    other := [];
    if alt != [] {
      var n := |alt| - 1;
      assert alt[n] in alt;
      var before := SurvivingBobs(p, channels, alt[..n]);
      var ds := SurvivingBob(p, channels, alt[n]);
      other := before + [ds];
    }
  }

  /** Best offers and survivors make memories of equal merit. */
  lemma BestDesignSurvives(p: Params, channels: seq<Channel>, alt: seq<seq<Channel>>) returns (other: seq<seq<Channel>>)
    requires !p.mirrorInBob && RanksBandwidth(p.ranking) && BestChannels(p, channels) && BestDesign(p, alt)
    ensures SurvivorDesign(p, channels, other) && Beats(p.ranking, Total(BobParts(other)), Total(BobParts(alt)))
  {
    other := SurvivingBobs(p, channels, alt);
    TotalBeats(p.ranking, BobParts(other), BobParts(alt));
  }

  lemma SurvivorDesignIsBest(p: Params, channels: seq<Channel>, alt: seq<seq<Channel>>)
    requires !p.mirrorInBob && BestChannels(p, channels) && SurvivorDesign(p, channels, alt)
    ensures BestDesign(p, alt)
  {
    forall cs, c | cs in alt && c in cs ensures BestOffer(p, c) {
      assert Allowed(p, channels, cs);
      SurvivorIsBestOffer(p, channels, c);
    }
    forall cs | cs in alt ensures BestBob(p, cs) {
      assert Allowed(p, channels, cs);
    }
  }

  /** If bandwidth is ranked: a memory is found just when best offers, in groups of one bandwidth, meet the target. */
  lemma FoundIffBestOffersMeet(p: Params, channels: seq<Channel>, bobs: seq<Bob>, memories: seq<Memory>)
    requires !p.mirrorInBob && RanksBandwidth(p.ranking) && BestChannels(p, channels)
    requires BobsFound(p, channels, bobs) && MemoriesFound(p, bobs, memories)
    ensures memories != [] <==> exists alt :: BestDesign(p, alt)
  {
    FoundIffSurvivorsMeet(p, channels, bobs, memories);
    forall alt | SurvivorDesign(p, channels, alt) ensures BestDesign(p, alt) {
      SurvivorDesignIsBest(p, channels, alt);
    }
    forall alt | BestDesign(p, alt) ensures exists other :: SurvivorDesign(p, channels, other) {
      var other := BestDesignSurvives(p, channels, alt);
    }
  }

  /** Hence one is found whenever one exists just when, as soon as any channels on offer meet the target, these do. */
  lemma FindsWheneverPossibleIffBest(p: Params, channels: seq<Channel>, bobs: seq<Bob>, memories: seq<Memory>)
    requires !p.mirrorInBob && RanksBandwidth(p.ranking) && BestChannels(p, channels)
    requires BobsFound(p, channels, bobs) && MemoriesFound(p, bobs, memories)
    ensures (memories != [] <==> exists alt :: SameBandwidthDesign(p, alt)) <==>
            ((exists w :: ChannelsMeet(p, w)) ==> exists alt :: BestDesign(p, alt))
  {
    FindsWheneverPossibleIff(p, channels, bobs, memories);
    FoundIffSurvivorsMeet(p, channels, bobs, memories);
    FoundIffBestOffersMeet(p, channels, bobs, memories);
  }

  /** Some memory of best offers, in groups of one bandwidth, is at least as good as this one. */
  ghost predicate Equalled(p: Params, alt: seq<seq<Channel>>) {
    exists best :: BestDesign(p, best) && Beats(p.ranking, Total(BobParts(best)), Total(BobParts(alt)))
  }

  lemma RebuiltIffEqualled(p: Params, channels: seq<Channel>, alt: seq<seq<Channel>>)
    requires !p.mirrorInBob && RanksBandwidth(p.ranking) && BestChannels(p, channels)
    ensures Rebuilt(p, channels, alt) <==> Equalled(p, alt)
  {
    if Rebuilt(p, channels, alt) {
      var other :| SurvivorDesign(p, channels, other) && Beats(p.ranking, Total(BobParts(other)), Total(BobParts(alt)));
      SurvivorDesignIsBest(p, channels, other);
    }
    if Equalled(p, alt) {
      var best :| BestDesign(p, best) && Beats(p.ranking, Total(BobParts(best)), Total(BobParts(alt)));
      var other := BestDesignSurvives(p, channels, best);
      BeatsIsPreorder(p.ranking, Total(BobParts(other)), Total(BobParts(best)), Total(BobParts(alt)));
    }
  }

  /** If bandwidth is ranked: the optimum is found just when best offers, in one-bandwidth groups, equal all designs. */
  lemma OptimumIffBest(p: Params, channels: seq<Channel>, bobs: seq<Bob>, memories: seq<Memory>)
    requires !p.mirrorInBob && RanksBandwidth(p.ranking) && BestChannels(p, channels)
    requires BobsFound(p, channels, bobs) && MemoriesFound(p, bobs, memories)
    ensures SameBandwidthOptimum(p, memories) <==> forall alt :: SameBandwidthDesign(p, alt) ==> Equalled(p, alt)
  {
    OptimumIff(p, channels, bobs, memories);
    forall alt ensures Rebuilt(p, channels, alt) <==> Equalled(p, alt) {
      RebuiltIffEqualled(p, channels, alt);
    }
  }

  // ---------- an input on which the only solutions are lost ----------

  /** DDR3 unbuffered DIMMs, 36 GB on one BoB of two channels of one bandwidth, default ranking. */
  function Lossy(energy: (Dimm, nat, int, int) -> real): Params {
    Params(DDR3, 36, 1, 2, false, true, Ranking(Cost, Bandwidth, Energy), JustUdimm, false, 800, energy)
  }

  lemma LossyCandidate(p: Params, k: Candidate)
    requires p == Lossy(p.energy) && Qualifies(p, k)
    ensures k.t == 2 && !k.lowPower && k.d1 <= k.d2 <= k.d3 <= 2 && 1 <= k.d3
    ensures Build(p, k).figures.capacity == Size(k)
    ensures Build(p, k).figures.bandwidth == BandwidthLoad(DDR3, k.bw) && k.bw + Count(k.d1, k.d2, k.d3) <= 4
    ensures Build(p, k).figures.cost == SlotPrice(p, 2, k.d1) + SlotPrice(p, 2, k.d2) + SlotPrice(p, 2, k.d3)
  {
    SlotsAreTableSizes(k);
    SlotPrices(p, k);
    BandwidthLimit(p, k);
  }

  /** The survivors of 12 and 16 GB run at 667 MHz or more, those of 20 and 24 GB below. */
  lemma LossySurvivor(p: Params, channels: seq<Channel>, x: Channel)
    requires p == Lossy(p.energy) && BestChannels(p, channels) && x in channels
    ensures x.figures.capacity in {4, 8, 12, 16, 20, 24}
    ensures x.figures.capacity == 12 || x.figures.capacity == 16 ==> x.figures.bandwidth >= 667
    ensures x.figures.capacity == 20 || x.figures.capacity == 24 ==> x.figures.bandwidth < 667
  {
    var k: Candidate :| Qualifies(p, k) && x == Build(p, k);
    LossyCandidate(p, k);
    if Size(k) == 12 {
      LossyRival(p, channels, x, Candidate(0, 1, 2, 2, 2, false));
    } else if Size(k) == 16 {
      LossyRival(p, channels, x, Candidate(0, 2, 2, 2, 2, false));
    }
  }

  lemma LossyRival(p: Params, channels: seq<Channel>, x: Channel, k: Candidate)
    requires p == Lossy(p.energy) && BestChannels(p, channels) && x in channels
    requires k == Candidate(0, 1, 2, 2, 2, false) || k == Candidate(0, 2, 2, 2, 2, false)
    requires x.figures.capacity == Size(k)
    ensures x.figures.cost <= SlotPrice(p, 2, k.d2) + SlotPrice(p, 2, k.d3)
    ensures x.figures.cost == SlotPrice(p, 2, k.d2) + SlotPrice(p, 2, k.d3) ==> x.figures.bandwidth >= 667
  {
    BwIndexInvertsTable(DDR3, 2, 0);
    assert Qualifies(p, k);
    LossyCandidate(p, k);
    assert Offered(p, Build(p, k));
    var d :| d in channels && Beats(p.ranking, ChannelFigures(d), Build(p, k).figures);
    assert d == x;
  }

  /** An unpruned solution exists (4 + 4 + 8 GB and 4 + 8 + 8 GB at 533 MHz), yet the search finds none. */
  lemma LossyInput(p: Params, channels: seq<Channel>, bobs: seq<Bob>, memories: seq<Memory>)
    requires p == Lossy(p.energy) && BestChannels(p, channels) && BobsFound(p, channels, bobs)
    requires MemoriesFound(p, bobs, memories)
    ensures memories == []
    ensures exists alt :: SameBandwidthDesign(p, alt)
  {
    LossyDesign(p);
    if memories != [] {
      assert memories[0] in memories;
      LossyMemory(p, channels, bobs, memories[0]);
    }
  }

  lemma LossyMemory(p: Params, channels: seq<Channel>, bobs: seq<Bob>, m: Memory)
    requires p == Lossy(p.energy) && BestChannels(p, channels) && BobsFound(p, channels, bobs)
    ensures !MemoryMadeOf(p, bobs, m)
  {
    if |m.bobs| == 1 && m.bobs[0] in bobs {
      LossyBob(p, channels, m.bobs[0]);
      assert Map(BobFigures, m.bobs) == [m.bobs[0].figures];
      SingleTotal(m.bobs[0].figures);
    } else if |m.bobs| == 1 {
      assert m.bobs[0] in m.bobs;
    }
  }

  lemma SingleTotal(x: Figures)
    ensures Total([x]) == x
  {
    assert [x][..0] == [];
  }

  lemma PairTotal(x: Figures, y: Figures)
    ensures Total([x, y]) == Plus(x, y)
  {
    SingleTotal(x);
    assert [x, y][..1] == [x];
  }

  lemma LossyBob(p: Params, channels: seq<Channel>, b: Bob)
    requires p == Lossy(p.energy) && BestChannels(p, channels)
    requires b == BobOf(b.channels) && Allowed(p, channels, b.channels)
    ensures b.figures.capacity != 36
  {
    var x, y := b.channels[0], b.channels[1];
    assert x in b.channels && y in b.channels;
    assert Map(ChannelFigures, b.channels) == [x.figures, y.figures];
    PairTotal(x.figures, y.figures);
    LossySurvivor(p, channels, x);
    LossySurvivor(p, channels, y);
  }

  lemma LossyDesign(p: Params)
    requires p == Lossy(p.energy)
    ensures exists alt :: SameBandwidthDesign(p, alt)
  {
    var k, l := Candidate(1, 1, 2, 2, 1, false), Candidate(1, 2, 2, 2, 1, false);
    BwIndexInvertsTable(DDR3, 1, 0);
    assert Qualifies(p, k) && Qualifies(p, l);
    LossyCandidate(p, k);
    LossyCandidate(p, l);
    var x, y := Build(p, k), Build(p, l);
    var cs := [x, y];
    assert Offered(p, x) && Offered(p, y);
    assert Unpruned(p, cs);
    assert Map(ChannelFigures, cs) == [x.figures, y.figures];
    PairTotal(x.figures, y.figures);
    assert BobParts([cs]) == [BobOf(cs).figures];
    SingleTotal(BobOf(cs).figures);
    assert SameBandwidthDesign(p, [cs]);
  }
}
