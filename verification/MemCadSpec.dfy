/** What the stages of `memcad.cc` deliver, and why the stages together lose nothing in mirror mode. */
module MemCadSpec {
  import opened Metrics
  import opened Sorting
  import opened Combinations
  import opened Pruning
  import opened Assembly
  import opened Channels
  import opened ChannelSearch
  import opened SameBandwidth

  // ---------- channels ----------

  /** The channels that the enumeration collects before pruning. */
  ghost predicate Offered(p: Params, c: Channel) {
    exists k: Candidate :: Qualifies(p, k) && c == Build(p, k)
  }

  /** What find_all_channels delivers: for every capacity on offer one channel, a best one. */
  ghost predicate BestChannels(p: Params, channels: seq<Channel>) {
    && (forall c, d :: c in channels && d in channels && c.figures.capacity == d.figures.capacity ==> c == d)
    && (forall c :: c in channels ==> Offered(p, c))
    && (forall c :: Offered(p, c) ==> Covered(p.ranking, ChannelFigures, channels, c.figures))
  }

  lemma BuildIsGenuine(p: Params, k: Candidate)
    requires k.d1 < 6 && k.d2 < 6 && k.d3 < 6 && k.bw < 4
    ensures Genuine(p, Build(p, k)) && Build(p, k).figures.capacity >= 0
  {
    SlotsAreTableSizes(k);
    assert Builds(p, Build(p, k), Slots(k));
  }

  lemma BuiltIsGenuine(p: Params, found: seq<Candidate>, c: Channel)
    requires Covers(p, found, LAST_RANK) && c in BuildAll(p, found)
    ensures Genuine(p, c) && c.figures.capacity >= 0 && Offered(p, c)
  {
    var i :| 0 <= i < |found| && BuildAll(p, found)[i] == c;
    assert found[i] in found;
    BuildIsGenuine(p, found[i]);
  }

  lemma OfferedCapacities(p: Params, channels: seq<Channel>)
    requires forall c :: c in channels ==> Offered(p, c)
    ensures forall c :: c in channels ==> c.figures.capacity >= 0
  {
    forall c | c in channels ensures c.figures.capacity >= 0 {
      var k: Candidate :| Qualifies(p, k) && c == Build(p, k);
      BuildIsGenuine(p, k);
    }
  }

  /** The enumeration collects every channel on offer, and nothing else, exactly once. */
  lemma CollectedExactlyOnce(p: Params, found: seq<Candidate>)
    requires Covers(p, found, LAST_RANK)
    ensures NoDuplicates(BuildAll(p, found))
    ensures forall c :: c in BuildAll(p, found) <==> Offered(p, c)
  {
    var raw := BuildAll(p, found);
    forall i, j | 0 <= i < j < |raw| ensures raw[i] != raw[j] {
      assert found[i] in found && found[j] in found;
      if raw[i] == raw[j] {
        BuildIsInjective(p, found[i], found[j]);
      }
    }
    forall c ensures c in raw <==> Offered(p, c) {
      if c in raw {
        BuiltIsGenuine(p, found, c);
      }
      if Offered(p, c) {
        OfferedIsCollected(p, found, c);
      }
    }
  }

  lemma OfferedIsCollected(p: Params, found: seq<Candidate>, c: Channel)
    requires Covers(p, found, LAST_RANK) && Offered(p, c)
    ensures c in BuildAll(p, found)
  {
    var k: Candidate :| Qualifies(p, k) && c == Build(p, k);
    AllRanks(p, found, k);
    var i :| 0 <= i < |found| && found[i] == k;
    assert BuildAll(p, found)[i] == c;
  }

  lemma BestChannelsReordered(p: Params, best: seq<Channel>, channels: seq<Channel>)
    requires BestChannels(p, best) && multiset(channels) == multiset(best)
    ensures BestChannels(p, channels)
  {
    SameMembers(channels, best);
    forall c | Offered(p, c) ensures Covered(p.ranking, ChannelFigures, channels, c.figures) {
      var x :| x in best && Beats(p.ranking, ChannelFigures(x), c.figures);
      assert x in channels;
    }
  }

  lemma PrunedChannelsAreBest(p: Params, found: seq<Candidate>, raw: seq<Channel>, sorted: seq<Channel>)
    requires Covers(p, found, LAST_RANK) && raw == BuildAll(p, found)
    requires (forall c :: c in sorted <==> c in raw) && OrderedBy(p.ranking, ChannelFigures, sorted)
    ensures StrictCapacities(ChannelFigures, Prune(ChannelFigures, sorted))
    ensures BestChannels(p, Prune(ChannelFigures, sorted))
  {
    CollectedExactlyOnce(p, found);
    OfferedCapacities(p, sorted);
    PrunedOffersAreBest(p, sorted);
  }

  lemma PrunedOffersAreBest(p: Params, sorted: seq<Channel>)
    requires forall c :: c in sorted <==> Offered(p, c)
    requires OrderedBy(p.ranking, ChannelFigures, sorted) && forall c :: c in sorted ==> c.figures.capacity >= 0
    ensures StrictCapacities(ChannelFigures, Prune(ChannelFigures, sorted))
    ensures BestChannels(p, Prune(ChannelFigures, sorted))
  {
    PruneKeepsBest(p.ranking, ChannelFigures, sorted);
    StrictMeansOnePerCapacity(ChannelFigures, Prune(ChannelFigures, sorted));
  }

  lemma StrictMeansOnePerCapacity<T>(f: T -> Figures, s: seq<T>)
    requires StrictCapacities(f, s)
    ensures forall x, y :: x in s && y in s && f(x).capacity == f(y).capacity ==> x == y
  {
    forall x, y | x in s && y in s && f(x).capacity == f(y).capacity ensures x == y {
      var i :| 0 <= i < |s| && s[i] == x;
      var j :| 0 <= j < |s| && s[j] == y;
      assert !(i < j) && !(j < i);
    }
  }

  lemma AllRanks(p: Params, found: seq<Candidate>, k: Candidate)
    requires Covers(p, found, LAST_RANK) && Qualifies(p, k)
    ensures k in found
  {
  }

  // ---------- BoBs ----------

  /** What find_all_bobs keeps of the BoBs it generated: for every capacity, a best one. */
  ghost predicate BestBobs(p: Params, generated: seq<Bob>, kept: seq<Bob>) {
    && StrictCapacities(BobFigures, kept)
    && (forall b :: b in kept ==> b in generated && b.figures.capacity >= 0)
    && (forall b :: b in generated ==> Covered(p.ranking, BobFigures, kept, b.figures))
  }

  function Bandwidths(channels: seq<Channel>): (bws: seq<int>)
    ensures |bws| == |channels|
  {
    seq(|channels|, i requires 0 <= i < |channels| => channels[i].figures.bandwidth)
  }

  function Mirror(n: nat): Channel -> Bob {
    c => BobOf(Repeat(c, n))
  }

  ghost predicate OneBandwidth(cs: seq<Channel>) {
    forall i, j :: 0 <= i < j < |cs| ==> cs[i].figures.bandwidth == cs[j].figures.bandwidth
  }

  /** The channel lists that the user's mode admits as a BoB. */
  ghost predicate Allowed(p: Params, channels: seq<Channel>, cs: seq<Channel>) {
    if p.mirrorInBob then exists c :: c in channels && cs == Repeat(c, p.numChannelsPerBob)
    else |cs| == p.numChannelsPerBob && OneBandwidth(cs) && forall c :: c in cs ==> c in channels
  }

  /** Only admitted BoBs are kept, and every admitted BoB is beaten by one that is kept. */
  ghost predicate BobsFound(p: Params, channels: seq<Channel>, bobs: seq<Bob>) {
    && StrictCapacities(BobFigures, bobs)
    && (forall b :: b in bobs ==> b == BobOf(b.channels) && Allowed(p, channels, b.channels) && b.figures.capacity >= 0)
    && (forall cs :: Allowed(p, channels, cs) ==> Covered(p.ranking, BobFigures, bobs, BobOf(cs).figures))
  }

  lemma BobCapacity(cs: seq<Channel>)
    requires forall c :: c in cs ==> c.figures.capacity >= 0
    ensures BobOf(cs).figures.capacity >= 0
  {
    TotalCapacityNonnegative(Map(ChannelFigures, cs));
  }

  lemma RepeatMember<T>(x: T, n: nat)
    ensures forall y :: y in Repeat(x, n) ==> y == x
  {
  }

  lemma MirrorBobsFound(p: Params, channels: seq<Channel>, bobs: seq<Bob>)
    requires p.mirrorInBob
    requires BestBobs(p, Map(Mirror(p.numChannelsPerBob), channels), bobs)
    ensures BobsFound(p, channels, bobs)
  {
    var generated := Map(Mirror(p.numChannelsPerBob), channels);
    forall b | b in bobs ensures b == BobOf(b.channels) && Allowed(p, channels, b.channels) {
      var i :| 0 <= i < |generated| && generated[i] == b;
      assert channels[i] in channels && b.channels == Repeat(channels[i], p.numChannelsPerBob);
    }
    forall cs | Allowed(p, channels, cs) ensures Covered(p.ranking, BobFigures, bobs, BobOf(cs).figures) {
      var c :| c in channels && cs == Repeat(c, p.numChannelsPerBob);
      var i :| 0 <= i < |channels| && channels[i] == c;
      assert generated[i] == BobOf(cs) && generated[i] in generated;
    }
  }

  /** A BoB as the mode admits it. */
  ghost predicate SoundBob(p: Params, channels: seq<Channel>, b: Bob) {
    && b == BobOf(b.channels) && Allowed(p, channels, b.channels)
    && |b.channels| <= MAX_NUM_CHANNELS_PER_BOB && b.figures.capacity >= 0
  }

  lemma MirrorBobsAreSound(p: Params, channels: seq<Channel>)
    requires p.mirrorInBob && p.numChannelsPerBob <= MAX_NUM_CHANNELS_PER_BOB
    requires forall c :: c in channels ==> c.figures.capacity >= 0
    ensures forall b :: b in Map(Mirror(p.numChannelsPerBob), channels) ==> SoundBob(p, channels, b)
  {
    var generated := Map(Mirror(p.numChannelsPerBob), channels);
    forall b | b in generated ensures SoundBob(p, channels, b) {
      var i :| 0 <= i < |generated| && generated[i] == b;
      RepeatMember(channels[i], p.numChannelsPerBob);
      assert channels[i] in channels;
      BobCapacity(Repeat(channels[i], p.numChannelsPerBob));
    }
  }

  // the same-bandwidth branch

  lemma RunBobsAreSound(p: Params, channels: seq<Channel>, starts: seq<nat>, ends: seq<nat>)
    requires !p.mirrorInBob && p.numChannelsPerBob <= MAX_NUM_CHANNELS_PER_BOB
    requires Runs(Bandwidths(channels), starts, ends)
    requires AllWithin(RunLists(starts, ends, p.numChannelsPerBob), |channels|)
    requires forall c :: c in channels ==> c.figures.capacity >= 0
    ensures forall b :: b in Assemble(BobOf, channels, [], RunLists(starts, ends, p.numChannelsPerBob)) ==>
              SoundBob(p, channels, b)
  {
    var ls := RunLists(starts, ends, p.numChannelsPerBob);
    var generated := Assemble(BobOf, channels, [], ls);
    forall b | b in generated ensures SoundBob(p, channels, b) {
      var i :| 0 <= i < |ls| && generated[i] == b;
      AssembleAt(BobOf, channels, ls, i);
      assert ls[i] in ls;
      RunListIsAllowed(p, channels, starts, ends, ls[i]);
      BobCapacity(b.channels);
    }
  }

  lemma SameBandwidthBobsFound(p: Params, channels: seq<Channel>, starts: seq<nat>, ends: seq<nat>, bobs: seq<Bob>)
    requires !p.mirrorInBob && p.numChannelsPerBob >= 1
    requires Ascending(Bandwidths(channels)) && Runs(Bandwidths(channels), starts, ends)
    requires AllWithin(RunLists(starts, ends, p.numChannelsPerBob), |channels|)
    requires BestBobs(p, Assemble(BobOf, channels, [], RunLists(starts, ends, p.numChannelsPerBob)), bobs)
    ensures BobsFound(p, channels, bobs)
  {
    var ls := RunLists(starts, ends, p.numChannelsPerBob);
    var generated := Assemble(BobOf, channels, [], ls);
    forall b | b in bobs ensures b == BobOf(b.channels) && Allowed(p, channels, b.channels) {
      var i :| 0 <= i < |generated| && generated[i] == b;
      AssembleAt(BobOf, channels, ls, i);
      assert ls[i] in ls;
      RunListIsAllowed(p, channels, starts, ends, ls[i]);
    }
    forall cs | Allowed(p, channels, cs) ensures Covered(p.ranking, BobFigures, bobs, BobOf(cs).figures) {
      var s := RunListFor(channels, starts, ends, cs);
      var i :| 0 <= i < |ls| && ls[i] == s;
      AssembleAt(BobOf, channels, ls, i);
      assert generated[i] in generated;
    }
  }

  lemma RunListIsAllowed(p: Params, channels: seq<Channel>, starts: seq<nat>, ends: seq<nat>, s: Indices)
    requires !p.mirrorInBob && Runs(Bandwidths(channels), starts, ends)
    requires s in RunLists(starts, ends, p.numChannelsPerBob)
    ensures Within(s, 0, |channels|) && Allowed(p, channels, Pick(channels, s))
  {
    RunListsSound(Bandwidths(channels), starts, ends, p.numChannelsPerBob, s);
    PickOneBandwidth(channels, s);
  }

  /** The BoBs of the first `i` runs. */
  function BuiltFromRuns(channels: seq<Channel>, starts: seq<nat>, ends: seq<nat>, nb: nat, i: nat): seq<Bob>
    requires i <= |starts| == |ends| && forall j :: 0 <= j < |ends| ==> ends[j] < |channels|
  {
    if i == 0 then []
    else BuiltFromRuns(channels, starts, ends, nb, i - 1)
         + BuiltFrom(BobOf, channels, [], starts[i - 1], ends[i - 1] + 1, nb)
  }

  lemma {:induction false} RunsAreAssembled(channels: seq<Channel>, starts: seq<nat>, ends: seq<nat>, nb: nat, i: nat)
    requires i <= |starts| == |ends| && forall j :: 0 <= j < |ends| ==> ends[j] < |channels|
    ensures AllWithin(RunLists(starts[..i], ends[..i], nb), |channels|)
    ensures BuiltFromRuns(channels, starts, ends, nb, i) ==
            Assemble(BobOf, channels, [], RunLists(starts[..i], ends[..i], nb))
  {
    if i > 0 {
      RunsAreAssembled(channels, starts, ends, nb, i - 1);
      EnumerateRun(channels, starts, ends, nb, i - 1);
    } else {
      forall j: nat ensures OneWithin([], j, |channels|) {
      }
    }
  }

  /** One turn of the loop over the runs. */
  lemma EnumerateRun(channels: seq<Channel>, starts: seq<nat>, ends: seq<nat>, nb: nat, i: nat)
    requires i < |starts| == |ends| && ends[i] < |channels|
    requires AllWithin(RunLists(starts[..i], ends[..i], nb), |channels|)
    ensures AllWithin(RunLists(starts[..i + 1], ends[..i + 1], nb), |channels|)
    ensures Assemble(BobOf, channels, [], RunLists(starts[..i + 1], ends[..i + 1], nb)) ==
            Assemble(BobOf, channels, [], RunLists(starts[..i], ends[..i], nb))
            + BuiltFrom(BobOf, channels, [], starts[i], ends[i] + 1, nb)
  {
    RunListsStep(starts, ends, nb, i);
    EnumerateMore(channels, RunLists(starts[..i], ends[..i], nb), starts[i], ends[i] + 1, nb);
  }

  lemma EnumerateMore(channels: seq<Channel>, ls: seq<Indices>, lo: nat, hi: nat, nb: nat)
    requires hi <= |channels| && AllWithin(ls, |channels|)
    ensures AllWithin(ls + Lists(lo, hi, nb), |channels|)
    ensures Assemble(BobOf, channels, [], ls + Lists(lo, hi, nb)) ==
            Assemble(BobOf, channels, [], ls) + BuiltFrom(BobOf, channels, [], lo, hi, nb)
  {
    ListsWithin(lo, hi, nb);
    WithinMore(Lists(lo, hi, nb), hi, |channels|);
    AssembleJoin(BobOf, channels, [], ls, Lists(lo, hi, nb));
  }

  lemma RunEnds(bws: seq<int>, starts: seq<nat>, ends: seq<nat>)
    requires RunsSoFar(bws, starts, ends)
    ensures forall j :: 0 <= j < |ends| ==> ends[j] < |bws|
  {
    forall j | 0 <= j < |ends| ensures ends[j] < |bws| {
      assert Run(bws, starts, ends, j);
    }
  }

  lemma PickOneBandwidth(channels: seq<Channel>, s: Indices)
    requires EqualBandwidth(Bandwidths(channels), s)
    ensures OneBandwidth(Pick(channels, s)) && forall c :: c in Pick(channels, s) ==> c in channels
  {
    var bws := Bandwidths(channels);
    forall i, j | 0 <= i < j < |s| ensures channels[s[i]].figures.bandwidth == channels[s[j]].figures.bandwidth {
      assert bws[s[i]] == bws[s[j]];
    }
  }

  /** Any choice of channels of one bandwidth is generated, up to the order of the channels. */
  lemma RunListFor(channels: seq<Channel>, starts: seq<nat>, ends: seq<nat>, cs: seq<Channel>) returns (s: Indices)
    requires Ascending(Bandwidths(channels)) && Runs(Bandwidths(channels), starts, ends)
    requires cs != [] && OneBandwidth(cs) && forall c :: c in cs ==> c in channels
    ensures s in RunLists(starts, ends, |cs|) && Within(s, 0, |channels|)
    ensures BobOf(Pick(channels, s)).figures == BobOf(cs).figures
  {
    var w := Positions(channels, cs);
    assert Pick(channels, w) == cs;
    s := Rearrange(ChannelFigures, channels, w);
    SameMembers(s, w);
    forall i | 0 <= i < |s| ensures Bandwidths(channels)[s[i]] == cs[0].figures.bandwidth {
      assert s[i] in s;
      var j :| 0 <= j < |w| && w[j] == s[i];
      assert channels[w[j]] == cs[j];
      assert j > 0 ==> cs[0].figures.bandwidth == cs[j].figures.bandwidth;
    }
    RunListsComplete(Bandwidths(channels), starts, ends, |cs|, s);
  }

  lemma {:induction false} Positions<T>(list: seq<T>, xs: seq<T>) returns (w: Indices)
    requires forall x :: x in xs ==> x in list
    ensures |w| == |xs| && Within(w, 0, |list|)
    ensures forall i :: 0 <= i < |xs| ==> list[w[i]] == xs[i]
  {
    w := [];
    for i := 0 to |xs|
      invariant |w| == i && Within(w, 0, |list|)
      invariant forall j :: 0 <= j < i ==> list[w[j]] == xs[j]
    {
      assert xs[i] in list;
      var k :| 0 <= k < |list| && list[k] == xs[i];
      w := w + [k];
    }
  }

  // ---------- memories ----------

  /**
   Every memory found is made of the given BoBs and has the target capacity, and the first one is
   at least as good as any whole whose parts the BoBs cover.
   */
  ghost predicate MemoriesFound(p: Params, bobs: seq<Bob>, memories: seq<Memory>) {
    && (forall m :: m in memories ==> MemoryMadeOf(p, bobs, m))
    && (forall ys: seq<Figures> :: CoveredWhole(p, bobs, ys) ==> HeadBeats(p, memories, Total(ys)))
  }

  /** Parts covered by the BoBs that together have the target capacity. */
  ghost predicate CoveredWhole(p: Params, bobs: seq<Bob>, ys: seq<Figures>) {
    && |ys| == p.numBobs && Total(ys).capacity == p.capacity
    && forall y :: y in ys ==> Covered(p.ranking, BobFigures, bobs, y)
  }

  ghost predicate MemoryMadeOf(p: Params, bobs: seq<Bob>, m: Memory) {
    && m == MemoryOf(m.bobs) && |m.bobs| == p.numBobs && m.figures.capacity == p.capacity
    && forall b :: b in m.bobs ==> b in bobs
  }

  ghost predicate HeadBeats(p: Params, memories: seq<Memory>, y: Figures) {
    memories != [] && Beats(p.ranking, memories[0].figures, y)
  }

  /** The memories generated, before sorting. */
  ghost function Combined(p: Params, bobs: seq<Bob>): seq<Memory>
    requires p.numBobs >= 1
  {
    FoundFrom(MemoryOf, bobs, [], Capacities(BobFigures, bobs), p.capacity, 0, p.numBobs)
  }

  lemma SortedMemoriesFound(p: Params, bobs: seq<Bob>, memories: seq<Memory>)
    requires p.numBobs >= 1 && forall b :: b in bobs ==> b.figures.capacity >= 0
    requires OrderedBy(p.ranking, MemoryFigures, memories)
    requires multiset(memories) == multiset(Combined(p, bobs))
    ensures MemoriesFound(p, bobs, memories)
  {
    var ls := SearchLists(Capacities(BobFigures, bobs), p.capacity, 0, p.numBobs);
    SearchWithin(Capacities(BobFigures, bobs), p.capacity, 0, p.numBobs);
    SameMembers(memories, Assemble(MemoryOf, bobs, [], ls));
    forall m | m in memories ensures MemoryMadeOf(p, bobs, m) {
      AssembledMemory(p, bobs, m);
    }
    forall ys: seq<Figures> | CoveredWhole(p, bobs, ys) ensures HeadBeats(p, memories, Total(ys)) {
      var m := BetterMemory(p, bobs, ys);
      HeadBeatsMember(p, bobs, memories, m);
      BeatsIsPreorder(p.ranking, memories[0].figures, m.figures, Total(ys));
    }
  }

  lemma AssembledMemory(p: Params, bobs: seq<Bob>, m: Memory)
    requires p.numBobs >= 1 && forall b :: b in bobs ==> b.figures.capacity >= 0
    requires AllWithin(SearchLists(Capacities(BobFigures, bobs), p.capacity, 0, p.numBobs), |bobs|)
    requires m in Assemble(MemoryOf, bobs, [], SearchLists(Capacities(BobFigures, bobs), p.capacity, 0, p.numBobs))
    ensures MemoryMadeOf(p, bobs, m)
  {
    var ls := SearchLists(Capacities(BobFigures, bobs), p.capacity, 0, p.numBobs);
    var i :| 0 <= i < |ls| && Assemble(MemoryOf, bobs, [], ls)[i] == m;
    AssembleAt(MemoryOf, bobs, ls, i);
    assert ls[i] in ls;
    SearchSound(BobFigures, bobs, p.capacity, p.numBobs, ls[i]);
  }

  lemma BetterMemory(p: Params, bobs: seq<Bob>, ys: seq<Figures>) returns (m: Memory)
    requires p.numBobs >= 1 && forall b :: b in bobs ==> b.figures.capacity >= 0
    requires AllWithin(SearchLists(Capacities(BobFigures, bobs), p.capacity, 0, p.numBobs), |bobs|)
    requires CoveredWhole(p, bobs, ys)
    ensures m in Assemble(MemoryOf, bobs, [], SearchLists(Capacities(BobFigures, bobs), p.capacity, 0, p.numBobs))
    ensures Beats(p.ranking, m.figures, Total(ys))
  {
    var ls := SearchLists(Capacities(BobFigures, bobs), p.capacity, 0, p.numBobs);
    var s := SearchBeats(p.ranking, BobFigures, bobs, p.capacity, ys);
    var i :| 0 <= i < |ls| && ls[i] == s;
    AssembleAt(MemoryOf, bobs, ls, i);
    m := Assemble(MemoryOf, bobs, [], ls)[i];
  }

  lemma HeadBeatsMember(p: Params, bobs: seq<Bob>, memories: seq<Memory>, m: Memory)
    requires OrderedBy(p.ranking, MemoryFigures, memories) && m in memories
    requires forall m :: m in memories ==> MemoryMadeOf(p, bobs, m)
    ensures HeadBeats(p, memories, m.figures)
  {
    var j :| 0 <= j < |memories| && memories[j] == m;
    assert memories[0] in memories;
    if j > 0 {
      assert Precedes(p.ranking, MemoryFigures(memories[0]), MemoryFigures(memories[j]));
    } else {
      BeatsIsPreorder(p.ranking, m.figures, m.figures, m.figures);
    }
  }

  // ---------- nothing is lost in mirror mode ----------

  /** The BoBs that mirror the given channels. */
  function MirrorParts(p: Params, alt: seq<Channel>): (ys: seq<Figures>) {
    Map(BobFigures, Map(Mirror(p.numChannelsPerBob), alt))
  }

  /** A memory built without any pruning: one channel on offer for each BoB, mirrored. */
  ghost predicate MirrorDesign(p: Params, alt: seq<Channel>) {
    && |alt| == p.numBobs && (forall c :: c in alt ==> Offered(p, c))
    && Total(MirrorParts(p, alt)).capacity == p.capacity
  }

  lemma {:induction false} RepeatTotal(c: Channel, n: nat)
    ensures BobOf(Repeat(c, n)).figures == Multiple(n, c.figures)
  {
    var fs := Map(ChannelFigures, Repeat(c, n));
    if n > 0 {
      RepeatTotal(c, n - 1);
      assert fs[..n - 1] == Map(ChannelFigures, Repeat(c, n - 1)) && fs[n - 1] == c.figures;
      MultipleNext(n - 1, c.figures);
    } else {
      assert fs == [];
      MultipleNext(0, c.figures);
    }
  }

  /** Mirroring on `n` channels takes n times the capacity, cost, bandwidth and energy. */
  lemma {:induction false} MirrorTotal(p: Params, alt: seq<Channel>)
    ensures Total(MirrorParts(p, alt)) == Multiple(p.numChannelsPerBob, Total(Map(ChannelFigures, alt)))
  {
    var n, fs, ys := p.numChannelsPerBob, Map(ChannelFigures, alt), MirrorParts(p, alt);
    if alt != [] {
      var k := |alt| - 1;
      MirrorTotal(p, alt[..k]);
      RepeatTotal(alt[k], n);
      assert fs[..k] == Map(ChannelFigures, alt[..k]) && ys[..k] == MirrorParts(p, alt[..k]);
      MultiplePlus(n, Total(fs[..k]), fs[k]);
    } else {
      MultiplePlus(n, ZERO, ZERO);
    }
  }

  /** How every memory found is built: so many BoBs of so many channels on offer, equal or of equal bandwidth. */
  lemma MemoryIsBuilt(p: Params, channels: seq<Channel>, bobs: seq<Bob>, memories: seq<Memory>, m: Memory)
    requires BestChannels(p, channels) && BobsFound(p, channels, bobs) && MemoriesFound(p, bobs, memories)
    requires m in memories
    ensures |m.bobs| == p.numBobs && m.figures.capacity == p.capacity
    ensures m.figures == Total(Map(BobFigures, m.bobs))
    ensures forall b :: b in m.bobs ==>
              && |b.channels| == p.numChannelsPerBob && b.figures == Total(Map(ChannelFigures, b.channels))
              && (forall c :: c in b.channels ==> Offered(p, c))
              && (forall c, d :: c in b.channels && d in b.channels ==>
                    if p.mirrorInBob then c == d else c.figures.bandwidth == d.figures.bandwidth)
  {
    forall b | b in m.bobs
      ensures |b.channels| == p.numChannelsPerBob && b.figures == Total(Map(ChannelFigures, b.channels))
      ensures forall c :: c in b.channels ==> Offered(p, c)
      ensures forall c, d :: c in b.channels && d in b.channels ==>
                if p.mirrorInBob then c == d else c.figures.bandwidth == d.figures.bandwidth
    {
      assert b in bobs;
      AllowedIsBuilt(p, channels, b.channels);
    }
  }

  lemma AllowedIsBuilt(p: Params, channels: seq<Channel>, cs: seq<Channel>)
    requires Allowed(p, channels, cs)
    ensures |cs| == p.numChannelsPerBob && forall c :: c in cs ==> c in channels
    ensures forall c, d :: c in cs && d in cs ==>
              if p.mirrorInBob then c == d else c.figures.bandwidth == d.figures.bandwidth
  {
    if p.mirrorInBob {
      var c :| c in channels && cs == Repeat(c, p.numChannelsPerBob);
      RepeatMember(c, p.numChannelsPerBob);
    } else {
      forall c, d | c in cs && d in cs ensures c.figures.bandwidth == d.figures.bandwidth {
        var i :| 0 <= i < |cs| && cs[i] == c;
        var j :| 0 <= j < |cs| && cs[j] == d;
        assert i < j || j < i || i == j;
      }
    }
  }

  lemma RepeatBeats(o: Ranking, x: Channel, y: Channel, n: nat)
    requires Beats(o, x.figures, y.figures)
    ensures Beats(o, BobOf(Repeat(x, n)).figures, BobOf(Repeat(y, n)).figures)
  {
    var xs, ys := Map(ChannelFigures, Repeat(x, n)), Map(ChannelFigures, Repeat(y, n));
    RepeatMember(x, n);
    RepeatMember(y, n);
    forall i | 0 <= i < n ensures Beats(o, xs[i], ys[i]) {
      assert Repeat(x, n)[i] in Repeat(x, n) && Repeat(y, n)[i] in Repeat(y, n);
    }
    TotalBeats(o, xs, ys);
  }

  lemma CoveredThrough<T>(o: Ranking, f: T -> Figures, list: seq<T>, y: Figures, z: Figures)
    requires Covered(o, f, list, y) && Beats(o, y, z)
    ensures Covered(o, f, list, z)
  {
    var x :| x in list && Beats(o, f(x), y);
    BeatsIsPreorder(o, f(x), y, z);
  }

  lemma MirrorPartCovered(p: Params, channels: seq<Channel>, bobs: seq<Bob>, y: Channel)
    requires p.mirrorInBob && BobsFound(p, channels, bobs)
    requires Covered(p.ranking, ChannelFigures, channels, y.figures)
    ensures Covered(p.ranking, BobFigures, bobs, BobOf(Repeat(y, p.numChannelsPerBob)).figures)
  {
    var c :| c in channels && Beats(p.ranking, ChannelFigures(c), y.figures);
    var cs := Repeat(c, p.numChannelsPerBob);
    assert Allowed(p, channels, cs);
    RepeatBeats(p.ranking, c, y, p.numChannelsPerBob);
    CoveredThrough(p.ranking, BobFigures, bobs, BobOf(cs).figures, BobOf(Repeat(y, p.numChannelsPerBob)).figures);
  }

  /** The memory the search puts first beats every memory that could be built without pruning. */
  lemma MirrorHeadBeatsAll(p: Params, channels: seq<Channel>, bobs: seq<Bob>, memories: seq<Memory>, alt: seq<Channel>)
    requires p.mirrorInBob && BestChannels(p, channels) && BobsFound(p, channels, bobs)
    requires MemoriesFound(p, bobs, memories) && MirrorDesign(p, alt)
    ensures HeadBeats(p, memories, Total(MirrorParts(p, alt)))
  {
    var ys := MirrorParts(p, alt);
    forall y | y in ys ensures Covered(p.ranking, BobFigures, bobs, y) {
      var i :| 0 <= i < |alt| && ys[i] == y;
      assert alt[i] in alt;
      MirrorPartCovered(p, channels, bobs, alt[i]);
    }
    assert CoveredWhole(p, bobs, ys);
  }

  /** And it is itself one of them. */
  lemma MirrorHeadIsDesign(p: Params, channels: seq<Channel>, bobs: seq<Bob>, m: Memory) returns (alt: seq<Channel>)
    requires p.mirrorInBob && BestChannels(p, channels) && BobsFound(p, channels, bobs)
    requires MemoryMadeOf(p, bobs, m)
    ensures MirrorDesign(p, alt) && m.figures == Total(MirrorParts(p, alt))
  {
    alt := MirrorSources(p, channels, m.bobs);
    assert MirrorParts(p, alt) == Map(BobFigures, m.bobs);
  }

  lemma {:induction false} MirrorSources(p: Params, channels: seq<Channel>, bs: seq<Bob>) returns (alt: seq<Channel>)
    requires p.mirrorInBob
    requires forall b :: b in bs ==> b == BobOf(b.channels) && Allowed(p, channels, b.channels)
    ensures |alt| == |bs| && forall c :: c in alt ==> c in channels
    ensures forall i :: 0 <= i < |bs| ==> bs[i] == BobOf(Repeat(alt[i], p.numChannelsPerBob))
  {
    alt := [];
    if bs != [] {
      var n := |bs| - 1;
      alt := MirrorSources(p, channels, bs[..n]);
      assert bs[n] in bs;
      var c :| c in channels && bs[n].channels == Repeat(c, p.numChannelsPerBob);
      alt := alt + [c];
    }
  }

  /**
   Staged pruning loses nothing in mirror mode: a memory is found just when some unpruned design
   meets the target, the first memory found is such a design, and it beats all of them.
   */
  lemma MirrorLossless(p: Params, channels: seq<Channel>, bobs: seq<Bob>, memories: seq<Memory>)
    requires p.mirrorInBob && BestChannels(p, channels) && BobsFound(p, channels, bobs)
    requires MemoriesFound(p, bobs, memories)
    ensures MirrorOptimum(p, memories)
  {
    forall alt | MirrorDesign(p, alt) ensures HeadBeats(p, memories, Total(MirrorParts(p, alt))) {
      MirrorHeadBeatsAll(p, channels, bobs, memories, alt);
    }
    if memories != [] {
      assert memories[0] in memories;
      var alt := MirrorHeadIsDesign(p, channels, bobs, memories[0]);
    }
  }

  /** In the metric ranked first the first memory is no worse than `y`; in the next, among equals. */
  ghost predicate HeadLeads(p: Params, memories: seq<Memory>, y: Figures) {
    && memories != []
    && var x, o := memories[0].figures, p.ranking;
       && x.capacity == y.capacity == p.capacity && AtLeast(o.first, x, y)
       && (AtLeast(o.first, y, x) ==> AtLeast(o.second, x, y))
       && (AtLeast(o.first, y, x) && AtLeast(o.second, y, x) ==> AtLeast(o.third, x, y))
  }

  lemma BeatingHeadLeads(p: Params, memories: seq<Memory>, y: Figures)
    requires HeadBeats(p, memories, y) && y.capacity == p.capacity
    ensures HeadLeads(p, memories, y)
  {
    BeatsInFigures(p.ranking, memories[0].figures, y);
  }

  /** In mirror mode: the least cost, the most bandwidth or the least energy of all designs, as ranked. */
  lemma MirrorHeadInFigures(p: Params, memories: seq<Memory>, alt: seq<Channel>)
    requires MirrorOptimum(p, memories) && MirrorDesign(p, alt)
    ensures memories != []
    ensures p.ranking.first == Cost ==> memories[0].figures.cost <= Total(MirrorParts(p, alt)).cost
    ensures p.ranking.first == Bandwidth ==> memories[0].figures.bandwidth >= Total(MirrorParts(p, alt)).bandwidth
    ensures p.ranking.first == Energy ==> memories[0].figures.energy <= Total(MirrorParts(p, alt)).energy
    ensures HeadLeads(p, memories, Total(MirrorParts(p, alt)))
  {
    BeatingHeadLeads(p, memories, Total(MirrorParts(p, alt)));
  }

  ghost predicate MirrorOptimum(p: Params, memories: seq<Memory>) {
    && (memories != [] <==> exists alt :: MirrorDesign(p, alt))
    && (memories != [] ==> exists alt :: MirrorDesign(p, alt) && memories[0].figures == Total(MirrorParts(p, alt)))
    && (forall alt :: MirrorDesign(p, alt) ==> HeadBeats(p, memories, Total(MirrorParts(p, alt))))
  }
}
