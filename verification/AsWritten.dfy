/** Whole runs of the search with the comparisons as they stand in `memcad.cc`, tolerance included. */
module AsWritten {
  import opened Metrics
  import opened Sorting
  import opened Combinations
  import opened Pruning
  import opened Assembly
  import opened Channels
  import opened ChannelSearch
  import opened SameBandwidth
  import opened MemCadSpec
  import opened SameBandwidthLoss

  /**
   One run: the candidates collected, the three lists as they stand after their sorts, and the
   channels as regrouped between the first two.
   */
  datatype Trail = Trail(
    found: seq<Candidate>, channels: seq<Channel>,
    regrouped: seq<Channel>, starts: seq<nat>, ends: seq<nat>,
    bobs: seq<Bob>, memories: seq<Memory>)

  /** Mirroring leaves the channels in place; otherwise they are put into runs of one bandwidth. */
  ghost predicate Regrouped(p: Params, kept: seq<Channel>, channels: seq<Channel>, starts: seq<nat>, ends: seq<nat>) {
    if p.mirrorInBob then channels == kept
    else
      && multiset(channels) == multiset(kept) && Ascending(Bandwidths(channels))
      && Runs(Bandwidths(channels), starts, ends)
      && AllWithin(RunLists(starts, ends, p.numChannelsPerBob), |channels|)
  }

  /** The BoBs generated, before sorting. */
  ghost function Generated(p: Params, channels: seq<Channel>, starts: seq<nat>, ends: seq<nat>): seq<Bob>
    requires !p.mirrorInBob ==>
               |starts| == |ends| && AllWithin(RunLists(starts, ends, p.numChannelsPerBob), |channels|)
  {
    if p.mirrorInBob then Map(Mirror(p.numChannelsPerBob), channels)
    else Assemble(BobOf, channels, [], RunLists(starts, ends, p.numChannelsPerBob))
  }

  /** Each sort permutes what the stage before has left. */
  ghost predicate IsRun(p: Params, t: Trail)
    requires p.numBobs >= 1
  {
    && Covers(p, t.found, LAST_RANK) && multiset(t.channels) == multiset(BuildAll(p, t.found))
    && Regrouped(p, Prune(ChannelFigures, t.channels), t.regrouped, t.starts, t.ends)
    && multiset(t.bobs) == multiset(Generated(p, t.regrouped, t.starts, t.ends))
    && multiset(t.memories) == multiset(Combined(p, Prune(BobFigures, t.bobs)))
  }

  /** The three lists are in the exact order. */
  ghost predicate InOrder(p: Params, t: Trail) {
    && OrderedBy(p.ranking, ChannelFigures, t.channels)
    && OrderedBy(p.ranking, BobFigures, t.bobs)
    && OrderedBy(p.ranking, MemoryFigures, t.memories)
  }

  /** The comparison as written accepts the three lists. */
  ghost predicate Compared(p: Params, t: Trail) {
    && ComparedBy(p.ranking, ChannelFigures, t.channels)
    && ComparedBy(p.ranking, BobFigures, t.bobs)
    && ComparedBy(p.ranking, MemoryFigures, t.memories)
  }

  /** The tolerance decides nothing on them. */
  ghost predicate AllSeparated(t: Trail) {
    && PairwiseSeparated(ChannelFigures, t.channels)
    && PairwiseSeparated(BobFigures, t.bobs)
    && PairwiseSeparated(MemoryFigures, t.memories)
  }

  lemma ComparedIffInOrder(p: Params, t: Trail)
    requires AllSeparated(t)
    ensures Compared(p, t) <==> InOrder(p, t)
  {
    ComparedIsOrdered(p.ranking, ChannelFigures, t.channels);
    ComparedIsOrdered(p.ranking, BobFigures, t.bobs);
    ComparedIsOrdered(p.ranking, MemoryFigures, t.memories);
  }

  // ---------- what a run delivers ----------

  /** What each stage of the run has left. */
  ghost predicate Delivered(p: Params, t: Trail) {
    && BestChannels(p, t.regrouped)
    && BobsFound(p, t.regrouped, Prune(BobFigures, t.bobs))
    && MemoriesFound(p, Prune(BobFigures, t.bobs), t.memories)
  }

  predicate Admissible(p: Params) {
    && p.numBobs >= 1 && p.numChannelsPerBob <= MAX_NUM_CHANNELS_PER_BOB
    && (p.mirrorInBob || p.numChannelsPerBob >= 1)
  }

  lemma RegroupedAreBest(p: Params, t: Trail)
    requires p.numBobs >= 1 && IsRun(p, t) && OrderedBy(p.ranking, ChannelFigures, t.channels)
    ensures BestChannels(p, t.regrouped)
  {
    SameMembers(BuildAll(p, t.found), t.channels);
    PrunedChannelsAreBest(p, t.found, BuildAll(p, t.found), t.channels);
    BestChannelsReordered(p, Prune(ChannelFigures, t.channels), t.regrouped);
  }

  lemma PrunedBobsAreFound(p: Params, t: Trail)
    requires Admissible(p) && IsRun(p, t) && OrderedBy(p.ranking, BobFigures, t.bobs)
    requires forall c :: c in t.regrouped ==> c.figures.capacity >= 0
    ensures BobsFound(p, t.regrouped, Prune(BobFigures, t.bobs))
  {
    var kept, generated := Prune(BobFigures, t.bobs), Generated(p, t.regrouped, t.starts, t.ends);
    SameMembers(generated, t.bobs);
    if p.mirrorInBob {
      MirrorBobsAreSound(p, t.regrouped);
      PruneKeepsBest(p.ranking, BobFigures, t.bobs);
      MirrorBobsFound(p, t.regrouped, kept);
    } else {
      RunBobsAreSound(p, t.regrouped, t.starts, t.ends);
      PruneKeepsBest(p.ranking, BobFigures, t.bobs);
      SameBandwidthBobsFound(p, t.regrouped, t.starts, t.ends, kept);
    }
  }

  lemma StagesDeliver(p: Params, t: Trail)
    requires Admissible(p) && IsRun(p, t) && InOrder(p, t)
    ensures Delivered(p, t)
  {
    RegroupedAreBest(p, t);
    OfferedCapacities(p, t.regrouped);
    PrunedBobsAreFound(p, t);
    SortedMemoriesFound(p, Prune(BobFigures, t.bobs), t.memories);
  }

  /** In mirror mode a run with the comparison as written ends in the optimum. */
  lemma MirrorLosslessAsWritten(p: Params, t: Trail)
    requires p.mirrorInBob && Admissible(p)
    requires IsRun(p, t) && Compared(p, t) && AllSeparated(t)
    ensures MirrorOptimum(p, t.memories)
  {
    ComparedIffInOrder(p, t);
    StagesDeliver(p, t);
    MirrorLossless(p, t.regrouped, Prune(BobFigures, t.bobs), t.memories);
  }

  /** The exact conditions of the same-bandwidth mode, for a run with the comparison as written. */
  lemma SameBandwidthAsWritten(p: Params, t: Trail)
    requires !p.mirrorInBob && Admissible(p)
    requires IsRun(p, t) && Compared(p, t) && AllSeparated(t)
    ensures t.memories != [] <==> exists alt :: SurvivorDesign(p, t.regrouped, alt)
    ensures SameBandwidthOptimum(p, t.memories) <==>
            forall alt :: SameBandwidthDesign(p, alt) ==> Rebuilt(p, t.regrouped, alt)
    ensures RanksBandwidth(p.ranking) ==>
              && (t.memories != [] <==> exists alt :: BestDesign(p, alt))
              && (SameBandwidthOptimum(p, t.memories) <==>
                  forall alt :: SameBandwidthDesign(p, alt) ==> Equalled(p, alt))
    ensures p.numChannelsPerBob == 1 ==> SameBandwidthOptimum(p, t.memories)
  {
    ComparedIffInOrder(p, t);
    StagesDeliver(p, t);
    DeliveredConditions(p, t.regrouped, Prune(BobFigures, t.bobs), t.memories);
  }

  lemma DeliveredConditions(p: Params, channels: seq<Channel>, bobs: seq<Bob>, memories: seq<Memory>)
    requires !p.mirrorInBob && BestChannels(p, channels) && BobsFound(p, channels, bobs)
    requires MemoriesFound(p, bobs, memories)
    ensures memories != [] <==> exists alt :: SurvivorDesign(p, channels, alt)
    ensures SameBandwidthOptimum(p, memories) <==>
            forall alt :: SameBandwidthDesign(p, alt) ==> Rebuilt(p, channels, alt)
    ensures RanksBandwidth(p.ranking) ==>
              && (memories != [] <==> exists alt :: BestDesign(p, alt))
              && (SameBandwidthOptimum(p, memories) <==>
                  forall alt :: SameBandwidthDesign(p, alt) ==> Equalled(p, alt))
    ensures p.numChannelsPerBob == 1 ==> SameBandwidthOptimum(p, memories)
  {
    FoundIffSurvivorsMeet(p, channels, bobs, memories);
    OptimumIff(p, channels, bobs, memories);
    if RanksBandwidth(p.ranking) {
      FoundIffBestOffersMeet(p, channels, bobs, memories);
      OptimumIffBest(p, channels, bobs, memories);
    }
    if p.numChannelsPerBob == 1 {
      SingleChannelLossless(p, channels, bobs, memories);
    }
  }

  // ---------- parameters with which the tolerance never decides ----------

  /** The energy depends on nothing. */
  ghost predicate Flat(p: Params) {
    forall dimm, n, bandwidth, capacity, dimm', n', bandwidth', capacity' ::
      p.energy(dimm, n, bandwidth, capacity) == p.energy(dimm', n', bandwidth', capacity')
  }

  ghost predicate OneEnergy<T>(f: T -> Figures, s: seq<T>) {
    forall x, y :: x in s && y in s ==> f(x).energy == f(y).energy
  }

  lemma OneEnergySeparates<T>(f: T -> Figures, s: seq<T>, r: seq<T>)
    requires multiset(r) == multiset(s) && OneEnergy(f, s)
    ensures PairwiseSeparated(f, r)
  {
    SameMembers(r, s);
    forall i, j | 0 <= i < j < |r| ensures Separated(f(r[i]), f(r[j])) {
      assert r[i] in s && r[j] in s;
    }
  }

  lemma {:induction false} EqualTotals(xs: seq<Figures>, ys: seq<Figures>)
    requires |xs| == |ys| && forall i :: 0 <= i < |xs| ==> xs[i].energy == ys[i].energy
    ensures Total(xs).energy == Total(ys).energy
  {
    if xs != [] {
      EqualTotals(xs[..|xs| - 1], ys[..|ys| - 1]);
    }
  }

  lemma PartsOfOneEnergy<T>(f: T -> Figures, list: seq<T>, xs: seq<T>, ys: seq<T>)
    requires OneEnergy(f, list) && |xs| == |ys|
    requires (forall x :: x in xs ==> x in list) && forall y :: y in ys ==> y in list
    ensures Total(Map(f, xs)).energy == Total(Map(f, ys)).energy
  {
    forall i | 0 <= i < |xs| ensures Map(f, xs)[i].energy == Map(f, ys)[i].energy {
      assert xs[i] in xs && ys[i] in ys;
    }
    EqualTotals(Map(f, xs), Map(f, ys));
  }

  lemma FlatChannels(p: Params, channels: seq<Channel>)
    requires Flat(p) && forall c :: c in channels ==> Offered(p, c)
    ensures OneEnergy(ChannelFigures, channels)
  {
    forall c, d | c in channels && d in channels ensures c.figures.energy == d.figures.energy {
      var k: Candidate :| Qualifies(p, k) && c == Build(p, k);
      var l: Candidate :| Qualifies(p, l) && d == Build(p, l);
    }
  }

  lemma FlatBobs(p: Params, channels: seq<Channel>, bobs: seq<Bob>)
    requires OneEnergy(ChannelFigures, channels)
    requires forall b :: b in bobs ==> b == BobOf(b.channels) && Allowed(p, channels, b.channels)
    ensures OneEnergy(BobFigures, bobs)
  {
    forall b, b' | b in bobs && b' in bobs ensures b.figures.energy == b'.figures.energy {
      AllowedIsBuilt(p, channels, b.channels);
      AllowedIsBuilt(p, channels, b'.channels);
      PartsOfOneEnergy(ChannelFigures, channels, b.channels, b'.channels);
    }
  }

  lemma FlatMemories(p: Params, bobs: seq<Bob>, memories: seq<Memory>)
    requires OneEnergy(BobFigures, bobs) && forall m :: m in memories ==> MemoryMadeOf(p, bobs, m)
    ensures OneEnergy(MemoryFigures, memories)
  {
    forall m, m' | m in memories && m' in memories ensures m.figures.energy == m'.figures.energy {
      PartsOfOneEnergy(BobFigures, bobs, m.bobs, m'.bobs);
    }
  }

  lemma GeneratedAreAllowed(p: Params, t: Trail)
    requires Admissible(p) && IsRun(p, t) && forall c :: c in t.regrouped ==> c.figures.capacity >= 0
    ensures forall b :: b in t.bobs ==> b == BobOf(b.channels) && Allowed(p, t.regrouped, b.channels)
  {
    SameMembers(Generated(p, t.regrouped, t.starts, t.ends), t.bobs);
    if p.mirrorInBob {
      MirrorBobsAreSound(p, t.regrouped);
    } else {
      RunBobsAreSound(p, t.regrouped, t.starts, t.ends);
    }
  }

  /** With a constant energy a sorted run is a run with the comparison as written. */
  lemma FlatRunIsCompared(p: Params, t: Trail)
    requires Admissible(p) && Flat(p) && IsRun(p, t) && InOrder(p, t)
    ensures AllSeparated(t) && Compared(p, t)
  {
    StagesDeliver(p, t);
    OfferedCapacities(p, t.regrouped);
    CollectedExactlyOnce(p, t.found);
    FlatChannels(p, BuildAll(p, t.found));
    OneEnergySeparates(ChannelFigures, BuildAll(p, t.found), t.channels);
    FlatChannels(p, t.regrouped);
    GeneratedAreAllowed(p, t);
    FlatBobs(p, t.regrouped, t.bobs);
    OneEnergySeparates(BobFigures, t.bobs, t.bobs);
    FlatKept(p, t);
    OneEnergySeparates(MemoryFigures, t.memories, t.memories);
    ComparedIffInOrder(p, t);
  }

  lemma FlatKept(p: Params, t: Trail)
    requires Delivered(p, t) && OneEnergy(ChannelFigures, t.regrouped)
    ensures OneEnergy(MemoryFigures, t.memories)
  {
    FlatBobs(p, t.regrouped, Prune(BobFigures, t.bobs));
    FlatMemories(p, Prune(BobFigures, t.bobs), t.memories);
  }
}
