/** The three-stage search of `memcad.cc`: channels, then BoBs, then memories. */
module MemCad {
  import opened Metrics
  import opened Sorting
  import opened Combinations
  import opened Pruning
  import opened Assembly
  import opened Channels
  import opened ChannelSearch
  import opened SameBandwidth
  import opened MemCadSpec
  import opened Offers
  import opened SameBandwidthLoss
  import opened AsWritten

  /** The `list<int>` that the recursions push to and pop from. */
  class IndexList {
    var items: Indices

    constructor ()
      ensures items == []
    {
      items := [];
    }

    method PushBack(i: nat)
      modifies this
      ensures items == old(items) + [i]
    {
      items := items + [i];
    }

    method PopBack()
      requires items != []
      modifies this
      ensures items == old(items)[..|old(items)| - 1]
    {
      items := items[..|items| - 1];
    }
  }

  /** `sort(..., compare_...)`: some permutation in the order that the comparison stands for. */
  method SortByFigures<T(!new)>(o: Ranking, f: T -> Figures, s: seq<T>) returns (r: seq<T>)
    ensures multiset(r) == multiset(s) && OrderedBy(o, f, r)
    ensures PairwiseSeparated(f, r) ==> ComparedBy(o, f, r)
    ensures forall x :: x in r <==> x in s
  {
    ByFiguresIsTotalPreorder(o, f);
    r := Sort((x: T, y: T) => Precedes(o, f(x), f(y)), s);
    SameMembers(r, s);
    if PairwiseSeparated(f, r) {
      ComparedIsOrdered(o, f, r);
    }
  }

  // ---------- the search ----------

  class Search {
    var channels: seq<Channel>
    var bobs: seq<Bob>
    var memories: seq<Memory>

    constructor ()
      ensures channels == [] && bobs == [] && memories == []
    {
      channels, bobs, memories := [], [], [];
    }

    // ----- find_all_channels -----

    /** Builds one channel and keeps it if its cost is finite. */
    method Consider(p: Params, k: Candidate, ghost found: seq<Candidate>) returns (ghost found': seq<Candidate>)
      requires Covers(p, found, Rank(k)) && channels == BuildAll(p, found)
      requires k.d1 < 6 && k.d2 < 6 && k.d3 < 6 && k.t < 3 && k.bw < 4
      requires Qualifies(p, k) <==> Priced(p, k.t, k.d1) && Priced(p, k.t, k.d2) && Priced(p, k.t, k.d3)
      modifies this`channels
      ensures Covers(p, found', Rank(k) + 1) && channels == BuildAll(p, found')
    {
      SlotsAreTableSizes(k);
      var c := MakeChannel(p, Slots(k), BandwidthLoad(p.io, k.bw), DimmType(k.t), k.lowPower);
      FiniteCost(p, k);
      if c.figures.cost < INF {
        CoversAdd(p, found, k);
        channels := channels + [c];
        found' := found + [k];
      } else {
        SkipOne(p, found, k);
        found' := found;
      }
    }

    /** The bandwidth loop for one DIMM type. */
    method ConsiderType(p: Params, d1: nat, d2: nat, d3: nat, t: nat, ghost found: seq<Candidate>)
      returns (ghost found': seq<Candidate>)
      requires d1 <= d2 <= d3 < 6 && t < 3 && (d3 == 0 ==> t == 0)
      requires DimmSize(d1) + DimmSize(d2) + DimmSize(d3) <= p.capacity && ModelAllows(p.dimmModel, t)
      requires Covers(p, found, Rank(Candidate(d1, d2, d3, t, 0, false))) && channels == BuildAll(p, found)
      modifies this`channels
      ensures Covers(p, found', Rank(Candidate(d1, d2, d3, t, 4, false))) && channels == BuildAll(p, found')
    {
      found' := found;
      var maxIndex := MaxIndex(p, Count(d1, d2, d3));
      var bw := 0;
      while bw <= maxIndex
        invariant bw <= maxIndex + 1
        invariant Covers(p, found', Rank(Candidate(d1, d2, d3, t, bw, false))) && channels == BuildAll(p, found')
      {
        found' := Consider(p, Candidate(d1, d2, d3, t, bw, false), found');
        if d3 == 0 || !p.lowPowerPermitted {
          SkipOne(p, found', Candidate(d1, d2, d3, t, bw, true));
        } else {
          found' := Consider(p, Candidate(d1, d2, d3, t, bw, true), found');
        }
        bw := bw + 1;
      }
      SkipBandwidths(p, found', d1, d2, d3, t, bw);
    }

    /** The three nested loops over DIMM sizes. */
    method GenerateChannels(p: Params) returns (ghost found: seq<Candidate>)
      modifies this`channels
      ensures Covers(p, found, LAST_RANK) && channels == BuildAll(p, found)
      ensures forall c :: c in channels <==> Bare(p, c) || exists dimms :: Stocked(p, c, dimms)
    {
      channels := [];
      found := [];
      for d1 := 0 to 6
        invariant Covers(p, found, CellRank(d1, 0, 0, 0)) && channels == BuildAll(p, found)
      {
        SkipRows(p, found, d1);
        for d2 := d1 to 6
          invariant Covers(p, found, CellRank(d1, d2, 0, 0)) && channels == BuildAll(p, found)
        {
          SkipColumns(p, found, d1, d2);
          for d3 := d2 to 6
            invariant Covers(p, found, CellRank(d1, d2, d3, 0)) && channels == BuildAll(p, found)
          {
            found := ConsiderCombination(p, d1, d2, d3, found);
          }
        }
      }
      CollectedAreStocked(p, found);
    }

    /** The body of the innermost loop. */
    method ConsiderCombination(p: Params, d1: nat, d2: nat, d3: nat, ghost found: seq<Candidate>)
      returns (ghost found': seq<Candidate>)
      requires d1 <= d2 <= d3 < 6
      requires Covers(p, found, CellRank(d1, d2, d3, 0)) && channels == BuildAll(p, found)
      modifies this`channels
      ensures Covers(p, found', CellRank(d1, d2, d3, 3)) && channels == BuildAll(p, found')
    {
      var size := DimmSize(d1) + DimmSize(d2) + DimmSize(d3);
      if size > p.capacity {
        SkipType(p, found, d1, d2, d3, 0);
        SkipType(p, found, d1, d2, d3, 1);
        SkipType(p, found, d1, d2, d3, 2);
        found' := found;
        return;
      }
      found' := ConsiderLrdimm(p, d1, d2, d3, found);
      var goOn;
      goOn, found' := ConsiderOther(p, d1, d2, d3, 1, JustRdimm, found');
      if !goOn {
        SkipType(p, found', d1, d2, d3, 2);
        return;
      }
      goOn, found' := ConsiderOther(p, d1, d2, d3, 2, JustUdimm, found');
    }

    /** The LRDIMM block, with its guard in parentheses. */
    method ConsiderLrdimm(p: Params, d1: nat, d2: nat, d3: nat, ghost found: seq<Candidate>)
      returns (ghost found': seq<Candidate>)
      requires d1 <= d2 <= d3 < 6 && DimmSize(d1) + DimmSize(d2) + DimmSize(d3) <= p.capacity
      requires Covers(p, found, CellRank(d1, d2, d3, 0)) && channels == BuildAll(p, found)
      modifies this`channels
      ensures Covers(p, found', CellRank(d1, d2, d3, 1)) && channels == BuildAll(p, found')
    {
      if (p.dimmModel == JustLrdimm || p.dimmModel == AllDimms)
         && Priced(p, 0, d1) && Priced(p, 0, d2) && Priced(p, 0, d3)
      {
        found' := ConsiderType(p, d1, d2, d3, 0, found);
      } else {
        SkipType(p, found, d1, d2, d3, 0);
        found' := found;
      }
    }

    /**
     The RDIMM and UDIMM blocks, where `&&` binds tighter than `||`: the prices guard only the
     mode with all types. An empty channel ends the turn of the loop.
     */
    method ConsiderOther(p: Params, d1: nat, d2: nat, d3: nat, t: nat, just: DimmModel, ghost found: seq<Candidate>)
      returns (goOn: bool, ghost found': seq<Candidate>)
      requires d1 <= d2 <= d3 < 6 && DimmSize(d1) + DimmSize(d2) + DimmSize(d3) <= p.capacity
      requires (t == 1 && just == JustRdimm) || (t == 2 && just == JustUdimm)
      requires Covers(p, found, CellRank(d1, d2, d3, t)) && channels == BuildAll(p, found)
      modifies this`channels
      ensures Covers(p, found', CellRank(d1, d2, d3, t + 1)) && channels == BuildAll(p, found')
      ensures !goOn ==> d3 == 0
    {
      goOn, found' := true, found;
      if p.dimmModel == just
         || (p.dimmModel == AllDimms && Priced(p, t, d1) && Priced(p, t, d2) && Priced(p, t, d3))
      {
        if DimmSize(d1) + DimmSize(d2) + DimmSize(d3) == 0 {
          SkipType(p, found, d1, d2, d3, t);
          goOn := false;
          return;
        }
        found' := ConsiderType(p, d1, d2, d3, t, found);
      } else {
        SkipType(p, found, d1, d2, d3, t);
      }
    }

    method PruneChannels(p: Params)
      requires forall c :: c in channels ==> Genuine(p, c)
      modifies this`channels
      ensures channels == Prune(ChannelFigures, old(channels))
    {
      var temp: seq<Channel> := [];
      var lastAdded := -1;
      for i := 0 to |channels|
        invariant channels == old(channels)
        invariant temp == Prune(ChannelFigures, channels[..i])
        invariant lastAdded == LastAdded(ChannelFigures, temp)
      {
        assert channels[..i + 1][..i] == channels[..i];
        if lastAdded != channels[i].figures.capacity {
          var copy := CloneChannel(p, channels[i]);
          temp := temp + [copy];
          lastAdded := channels[i].figures.capacity;
        }
      }
      assert channels[..|channels|] == channels;
      channels := temp;
    }

    method FindAllChannels(p: Params) returns (ghost found: seq<Candidate>, ghost sorted: seq<Channel>)
      modifies this`channels
      ensures Covers(p, found, LAST_RANK) && multiset(sorted) == multiset(BuildAll(p, found))
      ensures OrderedBy(p.ranking, ChannelFigures, sorted) && channels == Prune(ChannelFigures, sorted)
      ensures StrictCapacities(ChannelFigures, channels) && BestChannels(p, channels)
    {
      found := GenerateChannels(p);
      ghost var raw := channels;
      channels := SortByFigures(p.ranking, ChannelFigures, channels);
      forall c | c in channels ensures Genuine(p, c) {
        assert c in raw;
        BuiltIsGenuine(p, found, c);
      }
      sorted := channels;
      PruneChannels(p);
      PrunedChannelsAreBest(p, found, raw, sorted);
    }

    // ----- find_all_bobs -----

    method GenerateMirrorBobs(p: Params)
      requires p.numChannelsPerBob <= MAX_NUM_CHANNELS_PER_BOB
      modifies this`bobs
      ensures bobs == Map(Mirror(p.numChannelsPerBob), channels)
    {
      bobs := [];
      for i := 0 to |channels|
        invariant bobs == Map(Mirror(p.numChannelsPerBob), channels[..i])
      {
        var copies: seq<Channel> := [];
        for j := 0 to p.numChannelsPerBob
          invariant copies == Repeat(channels[i], j)
        {
          copies := copies + [channels[i]];
        }
        var bob := MakeBob(copies);
        bobs := bobs + [bob];
      }
      assert channels[..|channels|] == channels;
    }

    /** Collects the channels on the list and appends their BoB. */
    method EmitBob(index: IndexList)
      requires Within(index.items, 0, |channels|) && |index.items| <= MAX_NUM_CHANNELS_PER_BOB
      modifies this`bobs
      ensures bobs == old(bobs) + [BobOf(Pick(channels, index.items))]
    {
      var temp: seq<Channel> := [];
      for j := 0 to |index.items|
        invariant temp == Pick(channels, index.items)[..j]
      {
        temp := temp + [channels[index.items[j]]];
      }
      assert temp == Pick(channels, index.items);
      var bob := MakeBob(temp);
      bobs := bobs + [bob];
    }

    method FindBobsRecursive(start: nat, end: int, nb: nat, index: IndexList)
      requires nb >= 1 && -1 <= end < |channels|
      requires Within(index.items, 0, |channels|) && |index.items| + nb <= MAX_NUM_CHANNELS_PER_BOB
      modifies this`bobs, index
      ensures index.items == old(index.items)
      ensures bobs == old(bobs) + BuiltFrom(BobOf, channels, old(index.items), start, end + 1, nb)
      decreases nb, 1
    {
      if nb == 1 {
        BuiltLastIsBuiltFrom(BobOf, channels, index.items, start, end + 1);
        FindLastChannels(start, end, index);
        return;
      }
      ghost var pre, all := index.items, bobs + BuiltFrom(BobOf, channels, index.items, start, end + 1, nb);
      var i := start;
      while i <= end
        invariant i >= start && index.items == pre
        invariant bobs + BuiltFrom(BobOf, channels, pre, i, end + 1, nb) == all
      {
        FindBobsWith(i, end, nb, index);
        i := i + 1;
      }
      BuiltFromEnd(BobOf, channels, pre, i, end + 1, nb);
    }

    /** The body of the loop for the other channels. */
    method FindBobsWith(i: nat, end: int, nb: nat, index: IndexList)
      requires nb >= 2 && i <= end < |channels|
      requires Within(index.items, 0, |channels|) && |index.items| + nb <= MAX_NUM_CHANNELS_PER_BOB
      modifies this`bobs, index
      ensures index.items == old(index.items)
      ensures bobs + BuiltFrom(BobOf, channels, old(index.items), i + 1, end + 1, nb) ==
              old(bobs) + BuiltFrom(BobOf, channels, old(index.items), i, end + 1, nb)
      decreases nb, 0
    {
      BuiltFromStep(BobOf, channels, index.items, i, end + 1, nb);
      index.PushBack(i);
      FindBobsRecursive(i, end, nb - 1, index);
      index.PopBack();
    }

    /** The body of the loop for the last channel. */
    method EmitBobWith(i: nat, index: IndexList)
      requires Within(index.items + [i], 0, |channels|) && |index.items| < MAX_NUM_CHANNELS_PER_BOB
      modifies this`bobs, index
      ensures index.items == old(index.items)
      ensures bobs == old(bobs) + [BobOf(Pick(channels, index.items + [i]))]
    {
      index.PushBack(i);
      EmitBob(index);
      index.PopBack();
    }

    /** The loop for the last channel. */
    method FindLastChannels(start: nat, end: int, index: IndexList)
      requires -1 <= end < |channels|
      requires Within(index.items, 0, |channels|) && |index.items| < MAX_NUM_CHANNELS_PER_BOB
      modifies this`bobs, index
      ensures index.items == old(index.items)
      ensures bobs == old(bobs) + BuiltLast(BobOf, channels, old(index.items), start, end + 1)
    {
      ghost var pre := index.items;
      var i := start;
      while i <= end
        invariant i >= start && index.items == pre
        invariant bobs + BuiltLast(BobOf, channels, pre, i, end + 1)
                  == old(bobs) + BuiltLast(BobOf, channels, pre, start, end + 1)
      {
        WithinJoin(pre, [i], |channels|);
        EmitBobWith(i, index);
        i := i + 1;
      }
    }

    /** The same-bandwidth branch: the channels are regrouped by bandwidth, and each run is enumerated. */
    method GenerateSameBandwidthBobs(p: Params) returns (ghost starts: seq<nat>, ghost ends: seq<nat>)
      requires channels != [] && 1 <= p.numChannelsPerBob <= MAX_NUM_CHANNELS_PER_BOB
      modifies this`channels, this`bobs
      ensures multiset(channels) == multiset(old(channels)) && Ascending(Bandwidths(channels))
      ensures Runs(Bandwidths(channels), starts, ends)
      ensures AllWithin(RunLists(starts, ends, p.numChannelsPerBob), |channels|)
      ensures bobs == Assemble(BobOf, channels, [], RunLists(starts, ends, p.numChannelsPerBob))
    {
      var slower := (x: Channel, y: Channel) => x.figures.bandwidth <= y.figures.bandwidth;
      assert TotalPreorder(slower) by {
        forall x, y ensures Comparable(slower, x, y) {
        }
        forall x, y, z ensures Chains(slower, x, y, z) {
        }
      }
      channels := Sort(slower, channels);
      SameMembers(channels, old(channels));
      var startIndex, endIndex := FindRuns(Bandwidths(channels));
      starts, ends := startIndex, endIndex;
      bobs := [];
      var index := new IndexList();
      RunListsWithin(Bandwidths(channels), starts, ends, p.numChannelsPerBob);
      EnumerateRuns(p.numChannelsPerBob, startIndex, endIndex, index);
    }

    method EnumerateRuns(nb: nat, startIndex: seq<nat>, endIndex: seq<nat>, index: IndexList)
      requires 1 <= nb <= MAX_NUM_CHANNELS_PER_BOB && RunsSoFar(Bandwidths(channels), startIndex, endIndex)
      requires index.items == [] && bobs == []
      modifies this`bobs, index
      ensures AllWithin(RunLists(startIndex, endIndex, nb), |channels|)
      ensures bobs == Assemble(BobOf, channels, [], RunLists(startIndex, endIndex, nb))
    {
      RunEnds(Bandwidths(channels), startIndex, endIndex);
      for i := 0 to |startIndex|
        invariant index.items == []
        invariant bobs == BuiltFromRuns(channels, startIndex, endIndex, nb, i)
      {
        FindBobsRecursive(startIndex[i], endIndex[i], nb, index);
      }
      assert startIndex[..|startIndex|] == startIndex && endIndex[..|endIndex|] == endIndex;
      RunsAreAssembled(channels, startIndex, endIndex, nb, |startIndex|);
    }

    method PruneBobs()
      requires forall b :: b in bobs ==> b == BobOf(b.channels) && |b.channels| <= MAX_NUM_CHANNELS_PER_BOB
      modifies this`bobs
      ensures bobs == Prune(BobFigures, old(bobs))
    {
      var temp: seq<Bob> := [];
      var lastAdded := -1;
      for i := 0 to |bobs|
        invariant bobs == old(bobs)
        invariant temp == Prune(BobFigures, bobs[..i])
        invariant lastAdded == LastAdded(BobFigures, temp)
      {
        assert bobs[..i + 1][..i] == bobs[..i];
        if lastAdded != bobs[i].figures.capacity {
          var copy := CloneBob(bobs[i]);
          temp := temp + [copy];
          lastAdded := bobs[i].figures.capacity;
        }
      }
      assert bobs[..|bobs|] == bobs;
      bobs := temp;
    }

    /** The end of find_all_bobs: sorting and pruning keep a best BoB of every capacity. */
    method SortAndPruneBobs(p: Params) returns (ghost sorted: seq<Bob>)
      requires forall b :: b in bobs ==> b == BobOf(b.channels) && |b.channels| <= MAX_NUM_CHANNELS_PER_BOB
      requires forall b :: b in bobs ==> b.figures.capacity >= 0
      modifies this`bobs
      ensures multiset(sorted) == multiset(old(bobs)) && OrderedBy(p.ranking, BobFigures, sorted)
      ensures bobs == Prune(BobFigures, sorted) && BestBobs(p, old(bobs), bobs)
    {
      bobs := SortByFigures(p.ranking, BobFigures, bobs);
      sorted := bobs;
      PruneKeepsBest(p.ranking, BobFigures, bobs);
      PruneBobs();
    }

    /** The third mode, neither mirrored nor of one bandwidth, fails an assertion in the source. */
    method FindAllBobs(p: Params) returns (ghost starts: seq<nat>, ghost ends: seq<nat>, ghost sorted: seq<Bob>)
      requires p.numChannelsPerBob <= MAX_NUM_CHANNELS_PER_BOB
      requires p.mirrorInBob || (p.sameBwInBob && channels != [] && p.numChannelsPerBob >= 1)
      requires forall c :: c in channels ==> c.figures.capacity >= 0
      modifies this`channels, this`bobs
      ensures Regrouped(p, old(channels), channels, starts, ends)
      ensures multiset(sorted) == multiset(Generated(p, channels, starts, ends))
      ensures OrderedBy(p.ranking, BobFigures, sorted) && bobs == Prune(BobFigures, sorted)
      ensures BobsFound(p, channels, bobs)
    {
      starts, ends := [], [];
      if p.mirrorInBob {
        GenerateMirrorBobs(p);
        MirrorBobsAreSound(p, channels);
        sorted := SortAndPruneBobs(p);
        MirrorBobsFound(p, channels, bobs);
      } else {
        starts, ends := GenerateSameBandwidthBobs(p);
        SameMembers(channels, old(channels));
        RunBobsAreSound(p, channels, starts, ends);
        sorted := SortAndPruneBobs(p);
        SameBandwidthBobsFound(p, channels, starts, ends, bobs);
      }
    }

    // ----- find_all_memories -----

    method EmitMemory(index: IndexList)
      requires Within(index.items, 0, |bobs|) && |index.items| <= MAX_NUM_BOBS
      modifies this`memories
      ensures memories == old(memories) + [MemoryOf(Pick(bobs, index.items))]
    {
      var temp: seq<Bob> := [];
      for j := 0 to |index.items|
        invariant temp == Pick(bobs, index.items)[..j]
      {
        temp := temp + [bobs[index.items[j]]];
      }
      assert temp == Pick(bobs, index.items);
      var memory := MakeMemory(temp);
      memories := memories + [memory];
    }

    method FindMemsRecursive(remaining: int, start: nat, nb: nat, index: IndexList)
      requires nb >= 1
      requires Within(index.items, 0, |bobs|) && |index.items| + nb <= MAX_NUM_BOBS
      modifies this`memories, index
      ensures index.items == old(index.items)
      ensures memories == old(memories)
                + FoundFrom(MemoryOf, bobs, old(index.items), Capacities(BobFigures, bobs), remaining, start, nb)
      decreases nb
    {
      if nb == 1 {
        FindLastBobs(remaining, start, nb, index);
        return;
      }
      ghost var pre, caps := index.items, Capacities(BobFigures, bobs);
      var i := start;
      while i < |bobs|
        invariant index.items == pre
        invariant memories + FoundFrom(MemoryOf, bobs, pre, caps, remaining, i, nb)
                  == old(memories) + FoundFrom(MemoryOf, bobs, pre, caps, remaining, start, nb)
      {
        FoundFromStep(MemoryOf, bobs, pre, caps, remaining, i, nb);
        i := i + 1;
        if bobs[i - 1].figures.capacity > remaining {
          continue;
        }
        var newRemaining := remaining - bobs[i - 1].figures.capacity;
        index.PushBack(i - 1);
        FindMemsRecursive(newRemaining, i - 1, nb - 1, index);
        index.PopBack();
      }
      FoundFromEnd(MemoryOf, bobs, pre, caps, remaining, i, nb);
    }

    /** The loop for the last BoB, which must fit exactly. */
    method FindLastBobs(remaining: int, start: nat, ghost nb: nat, index: IndexList)
      requires nb == 1 && Within(index.items, 0, |bobs|) && |index.items| < MAX_NUM_BOBS
      modifies this`memories, index
      ensures index.items == old(index.items)
      ensures memories == old(memories)
                + FoundFrom(MemoryOf, bobs, old(index.items), Capacities(BobFigures, bobs), remaining, start, nb)
    {
      ghost var pre, caps := index.items, Capacities(BobFigures, bobs);
      var i := start;
      while i < |bobs|
        invariant index.items == pre
        invariant memories + FoundFrom(MemoryOf, bobs, pre, caps, remaining, i, nb)
                  == old(memories) + FoundFrom(MemoryOf, bobs, pre, caps, remaining, start, nb)
      {
        FoundFromStep(MemoryOf, bobs, pre, caps, remaining, i, nb);
        i := i + 1;
        if bobs[i - 1].figures.capacity != remaining {
          continue;
        }
        index.PushBack(i - 1);
        EmitMemory(index);
        index.PopBack();
      }
      FoundFromEnd(MemoryOf, bobs, pre, caps, remaining, i, nb);
    }

    method FindAllMemories(p: Params) returns (found: bool)
      requires 1 <= p.numBobs <= MAX_NUM_BOBS
      modifies this`memories
      requires forall b :: b in bobs ==> b.figures.capacity >= 0
      ensures found <==> memories != []
      ensures MemoriesFound(p, bobs, memories)
      ensures OrderedBy(p.ranking, MemoryFigures, memories)
      ensures multiset(memories) == multiset(Combined(p, bobs))
    {
      memories := [];
      var index := new IndexList();
      FindMemsRecursive(p.capacity, 0, p.numBobs, index);
      memories := SortByFigures(p.ranking, MemoryFigures, memories);
      SortedMemoriesFound(p, bobs, memories);
      found := |memories| != 0;
    }

    // ----- solve_memcad -----

    /**
     In mirror mode the first memory listed is optimal over all unpruned designs. In same-bandwidth
     mode one is found just when best offers, in groups of one bandwidth, meet the target, and it is
     optimal just when they equal every design; that needs a ranking with bandwidth. Without, the same
     holds of the surviving channels. With one channel per BoB it is always optimal. The trail is the
     run itself; where the tolerance decides nothing, the comparisons as written accept it.
     */
    method SolveMemcad(p: Params) returns (found: bool, ghost t: Trail)
      requires p.numChannelsPerBob <= MAX_NUM_CHANNELS_PER_BOB && 1 <= p.numBobs <= MAX_NUM_BOBS
      requires p.mirrorInBob || (p.sameBwInBob && p.numChannelsPerBob >= 1 && exists c :: Offered(p, c))
      modifies this
      ensures found <==> memories != []
      ensures IsRun(p, t) && InOrder(p, t) && Delivered(p, t)
      ensures t.regrouped == channels && Prune(BobFigures, t.bobs) == bobs && t.memories == memories
      ensures (AllSeparated(t) ==> Compared(p, t)) && (Flat(p) ==> AllSeparated(t))
      ensures p.mirrorInBob ==> MirrorOptimum(p, memories)
      ensures !p.mirrorInBob ==>
                (SameBandwidthOptimum(p, memories) <==>
                 forall alt :: SameBandwidthDesign(p, alt) ==> Rebuilt(p, channels, alt))
      ensures !p.mirrorInBob && RanksBandwidth(p.ranking) ==>
                && (found <==> exists alt :: BestDesign(p, alt))
                && (SameBandwidthOptimum(p, memories) <==>
                    forall alt :: SameBandwidthDesign(p, alt) ==> Equalled(p, alt))
      ensures !p.mirrorInBob && p.numChannelsPerBob == 1 ==> SameBandwidthOptimum(p, memories)
    {
      ghost var candidates, sorted := FindAllChannels(p);
      OfferedCapacities(p, channels);
      assert channels != [] || p.mirrorInBob;
      ghost var starts, ends, sortedBobs := FindAllBobs(p);
      found := FindAllMemories(p);
      t := Trail(candidates, sorted, channels, starts, ends, sortedBobs, memories);
      StagesDeliver(p, t);
      if p.mirrorInBob {
        MirrorLossless(p, channels, bobs, memories);
      } else {
        DeliveredConditions(p, channels, bobs, memories);
      }
      if AllSeparated(t) {
        ComparedIffInOrder(p, t);
      } else if Flat(p) {
        FlatRunIsCompared(p, t);
      }
    }
  }
}
