/** The channels that find_all_channels collects, in terms of DIMM sizes, types and bandwidths alone. */
module Offers {
  import opened BasicCircuit
  import opened Metrics
  import opened Channels
  import opened ChannelSearch
  import opened MemCadSpec

  // ---------- what is on sale ----------

  /** The sizes in which each type of DIMM has a price. */
  ghost predicate SizeSold(dimm: Dimm, d: int) {
    && (d == 4 || d == 8 || d == 16 || d == 32 || d == 64)
    && (dimm == UDIMM ==> d <= 8) && (dimm == RDIMM ==> d <= 32) && (dimm == LRDIMM ==> d >= 16)
  }

  ghost predicate TypeWanted(p: Params, dimm: Dimm) {
    && (p.dimmModel == JustUdimm ==> dimm == UDIMM)
    && (p.dimmModel == JustRdimm ==> dimm == RDIMM)
    && (p.dimmModel == JustLrdimm ==> dimm == LRDIMM)
  }

  /** A channel of `n` DIMMs runs at the frequencies of its standard; the second and third DIMM cost one each. */
  ghost predicate FrequencyAllowed(io: IoType, n: nat, f: int) {
    && (io == DDR3 ==>
          (f == 400 || f == 533 || f == 667 || f == 800) && (n == 2 ==> f <= 667) && (n == 3 ==> f <= 533))
    && (io == DDR4 ==>
          (f == 800 || f == 933 || f == 1066 || f == 1200) && (n == 2 ==> f <= 1066) && (n == 3 ==> f <= 933))
  }

  /** One to three DIMMs of one type, within the capacity, at a frequency they can run at. */
  ghost predicate Stocked(p: Params, c: Channel, dimms: seq<int>) {
    && 1 <= |dimms| <= 3 && (forall i :: 0 <= i < |dimms| ==> SizeSold(c.dimm, dimms[i]))
    && Sum(dimms) <= p.capacity && TypeWanted(p, c.dimm)
    && FrequencyAllowed(p.io, |dimms|, c.figures.bandwidth) && (c.lowPower ==> p.lowPowerPermitted)
    && c == ChannelOf(p, dimms, c.figures.bandwidth, c.dimm, c.lowPower)
  }

  /** The lowest frequency of the standard, or one whose next lower is below the value read past the row. */
  ghost predicate BareEntry(p: Params, f: int, b: nat) {
    b < 4 && f == BandwidthLoad(p.io, b) && (b == 0 || BandwidthLoad(p.io, b - 1) < p.pastRow)
  }

  /** A channel without DIMMs, which only the first type block collects. */
  ghost predicate Bare(p: Params, c: Channel) {
    && p.capacity >= 0 && (p.dimmModel == JustLrdimm || p.dimmModel == AllDimms)
    && (exists b: nat :: BareEntry(p, c.figures.bandwidth, b))
    && c == ChannelOf(p, [], c.figures.bandwidth, LRDIMM, false)
  }

  // ---------- channels of equal DIMMs are equal ----------

  lemma EqualHistograms(p: Params, s: seq<int>, t: seq<int>, bandwidth: int, dimm: Dimm, lowPower: bool)
    requires Fits(s) && TableSizes(s) && Fits(t) && TableSizes(t) && Histogram(s) == Histogram(t)
    ensures ChannelOf(p, s, bandwidth, dimm, lowPower) == ChannelOf(p, t, bandwidth, dimm, lowPower)
  {
    WeighIsBinwise(PriceOfBin(p.io, dimm), s);
    WeighIsBinwise(PriceOfBin(p.io, dimm), t);
    WeighIsBinwise(SizeWeight(), s);
    WeighIsBinwise(SizeWeight(), t);
    WeighIsBinwise(UnitWeight(), s);
    WeighIsBinwise(UnitWeight(), t);
    RoundedCapacity(s);
    RoundedCapacity(t);
    InstalledWeight(s);
    InstalledWeight(t);
  }

  /** The position of a size in the table of the loops. */
  function SizeIndex(d: int): nat {
    if d == 4 then 1 else if d == 8 then 2 else if d == 16 then 3 else if d == 32 then 4 else if d == 64 then 5 else 0
  }

  /** The three loop positions for up to three DIMMs, in the order given. */
  function IndicesOf(dimms: seq<int>): (r: (nat, nat, nat))
    requires |dimms| <= 3
    ensures r.0 < 6 && r.1 < 6 && r.2 < 6
  {
    (if |dimms| >= 3 then SizeIndex(dimms[2]) else 0,
     if |dimms| >= 2 then SizeIndex(dimms[1]) else 0,
     if |dimms| >= 1 then SizeIndex(dimms[0]) else 0)
  }

  function Placed(dimms: seq<int>, t: nat, bw: nat, lowPower: bool): Candidate
    requires |dimms| <= 3
  {
    var (i, j, k) := IndicesOf(dimms);
    Candidate(i, j, k, t, bw, lowPower)
  }

  lemma SizeOfIndex(dimm: Dimm, d: int)
    requires SizeSold(dimm, d)
    ensures DimmSize(SizeIndex(d)) == d && SizeIndex(d) >= 1 && 4 <= d < 128 && BinOf(d) == SizeIndex(d) - 1
    ensures d == BinSize(BinOf(d))
  {
    BinSizes();
  }

  lemma StockedSizes(dimm: Dimm, dimms: seq<int>)
    requires forall i :: 0 <= i < |dimms| ==> SizeSold(dimm, dimms[i])
    ensures Fits(dimms) && TableSizes(dimms)
  {
    forall i | 0 <= i < |dimms| ensures 4 <= dimms[i] < 128 && dimms[i] == BinSize(BinOf(dimms[i])) {
      SizeOfIndex(dimm, dimms[i]);
    }
  }

  /** Listing the DIMMs backwards behind empty slots keeps the histogram. */
  lemma PlacedHistogram(dimm: Dimm, dimms: seq<int>, c: Candidate)
    requires |dimms| <= 3 && forall i :: 0 <= i < |dimms| ==> SizeSold(dimm, dimms[i])
    requires c == Placed(dimms, c.t, c.bw, c.lowPower)
    ensures Fits(dimms) && Fits(Slots(c)) && Histogram(dimms) == Histogram(Slots(c))
  {
    StockedSizes(dimm, dimms);
    SlotsAreTableSizes(c);
    forall bin: nat | bin < 5 ensures Tally(dimms, bin) == Tally(Slots(c), bin) {
      TallyBackwards(dimm, dimms, c, bin);
    }
  }

  lemma TallyBackwards(dimm: Dimm, dimms: seq<int>, c: Candidate, bin: nat)
    requires |dimms| <= 3 && Fits(dimms) && Fits(Slots(c)) && forall i :: 0 <= i < |dimms| ==> SizeSold(dimm, dimms[i])
    requires c == Placed(dimms, c.t, c.bw, c.lowPower)
    ensures Tally(dimms, bin) == Tally(Slots(c), bin)
  {
    TallyThree(DimmSize(c.d1), DimmSize(c.d2), DimmSize(c.d3), bin);
    forall i | 0 <= i < |dimms| ensures DimmSize(SizeIndex(dimms[i])) == dimms[i] {
      SizeOfIndex(dimm, dimms[i]);
    }
    TallyFew(dimms, bin);
    TallyEmptySlot(bin);
  }

  lemma TallyEmptySlot(bin: nat)
    ensures Fits([0]) && Tally([0], bin) == 0
  {
    assert [0][..0] == [];
  }

  lemma TallyFew(dimms: seq<int>, bin: nat)
    requires Fits(dimms) && |dimms| <= 3
    ensures |dimms| == 0 ==> Tally(dimms, bin) == 0
    ensures |dimms| == 1 ==> Tally(dimms, bin) == Tally([dimms[0]], bin)
    ensures |dimms| == 2 ==> Tally(dimms, bin) == Tally([dimms[0]], bin) + Tally([dimms[1]], bin)
    ensures |dimms| == 3 ==>
              Tally(dimms, bin) == Tally([dimms[0]], bin) + Tally([dimms[1]], bin) + Tally([dimms[2]], bin)
  {
    if |dimms| == 1 {
      assert dimms == [dimms[0]];
    } else if |dimms| == 2 {
      assert dimms[..1] == [dimms[0]] && [dimms[0]][..0] == [] == [dimms[1]][..0];
    } else if |dimms| == 3 {
      assert dimms == [dimms[0], dimms[1], dimms[2]];
      TallyThree(dimms[0], dimms[1], dimms[2], bin);
    }
  }

  // ---------- every channel of the stock is collected ----------

  lemma SortedCandidate(c: Candidate) returns (k: Candidate)
    requires c.d1 < 6 && c.d2 < 6 && c.d3 < 6
    ensures k.d1 <= k.d2 <= k.d3 < 6 && k.t == c.t && k.bw == c.bw && k.lowPower == c.lowPower
    ensures forall d :: Hits(k, d) == Hits(c, d)
    ensures Size(k) == Size(c) && Count(k.d1, k.d2, k.d3) == Count(c.d1, c.d2, c.d3)
  {
    var a, b, d := c.d1, c.d2, c.d3;
    if a > b {
      a, b := b, a;
    }
    if b > d {
      b, d := d, b;
    }
    if a > b {
      a, b := b, a;
    }
    k := Candidate(a, b, d, c.t, c.bw, c.lowPower);
  }

  lemma SameHistogram(c: Candidate, k: Candidate)
    requires c.d1 < 6 && c.d2 < 6 && c.d3 < 6 && k.d1 < 6 && k.d2 < 6 && k.d3 < 6
    requires forall d :: Hits(k, d) == Hits(c, d)
    ensures Fits(Slots(c)) && Fits(Slots(k)) && Histogram(Slots(k)) == Histogram(Slots(c))
  {
    SlotTally(c);
    SlotTally(k);
    forall bin: nat | bin < 5 ensures Histogram(Slots(k))[bin] == Histogram(Slots(c))[bin] {
      assert Hits(k, bin + 1) == Hits(c, bin + 1);
    }
  }

  function TypeCode(dimm: Dimm): nat {
    match dimm
    case LRDIMM => 0
    case RDIMM => 1
    case UDIMM => 2
  }

  lemma PricedIffSold(p: Params, dimm: Dimm, d: nat)
    requires 0 < d < 6
    ensures DimmType(TypeCode(dimm)) == dimm
    ensures Priced(p, TypeCode(dimm), d) <==> SizeSold(dimm, DimmSize(d))
  {
  }

  lemma FrequencyEntry(p: Params, n: nat, f: int) returns (b: nat)
    requires 1 <= n <= 3 && FrequencyAllowed(p.io, n, f)
    ensures b < 4 && f == BandwidthLoad(p.io, b) && b <= MaxIndex(p, n)
  {
    b := BwIndex(p.io, f);
    BwIndexInvertsTable(p.io, 4 - n, f);
  }

  lemma EntryAllowed(p: Params, n: nat, b: nat)
    requires 1 <= n <= 3 && b < 4
    ensures FrequencyAllowed(p.io, n, BandwidthLoad(p.io, b)) <==> b <= MaxIndex(p, n)
  {
    BwIndexInvertsTable(p.io, 4 - n, 0);
  }

  lemma StockedQualifies(p: Params, c: Channel, dimms: seq<int>) returns (k: Candidate)
    requires Stocked(p, c, dimms)
    ensures Qualifies(p, k) && c == Build(p, k)
  {
    var b := FrequencyEntry(p, |dimms|, c.figures.bandwidth);
    var placed := Placed(dimms, TypeCode(c.dimm), b, c.lowPower);
    k := SortedCandidate(placed);
    PlacedSize(c.dimm, dimms, placed);
    PlacedPriced(p, c.dimm, dimms, placed);
    SortedPriced(p, placed, k);
    SortedBuild(p, c.dimm, dimms, placed, k);
  }

  lemma SortedPriced(p: Params, c: Candidate, k: Candidate)
    requires k.t == c.t && forall d :: Hits(k, d) == Hits(c, d)
    requires Priced(p, c.t, c.d1) && Priced(p, c.t, c.d2) && Priced(p, c.t, c.d3)
    ensures Priced(p, k.t, k.d1) && Priced(p, k.t, k.d2) && Priced(p, k.t, k.d3)
  {
    assert Hits(k, k.d1) > 0 && Hits(k, k.d2) > 0 && Hits(k, k.d3) > 0;
    assert Hits(c, k.d1) > 0 && Hits(c, k.d2) > 0 && Hits(c, k.d3) > 0;
  }

  lemma SortedBuild(p: Params, dimm: Dimm, dimms: seq<int>, c: Candidate, k: Candidate)
    requires 1 <= |dimms| <= 3 && forall i :: 0 <= i < |dimms| ==> SizeSold(dimm, dimms[i])
    requires c == Placed(dimms, TypeCode(dimm), c.bw, c.lowPower) && c.bw < 4
    requires k == Candidate(k.d1, k.d2, k.d3, c.t, c.bw, c.lowPower) && k.d1 < 6 && k.d2 < 6 && k.d3 < 6
    requires forall d :: Hits(k, d) == Hits(c, d)
    ensures Fits(dimms) && Build(p, k) == ChannelOf(p, dimms, BandwidthLoad(p.io, c.bw), dimm, c.lowPower)
  {
    PlacedHistogram(dimm, dimms, c);
    SameHistogram(c, k);
    StockedSizes(dimm, dimms);
    SlotsAreTableSizes(k);
    PricedIffSold(p, dimm, 1);
    EqualHistograms(p, dimms, Slots(k), BandwidthLoad(p.io, c.bw), dimm, c.lowPower);
  }

  lemma PlacedSize(dimm: Dimm, dimms: seq<int>, c: Candidate)
    requires 1 <= |dimms| <= 3 && forall i :: 0 <= i < |dimms| ==> SizeSold(dimm, dimms[i])
    requires c == Placed(dimms, c.t, c.bw, c.lowPower)
    ensures Size(c) == Sum(dimms) && Count(c.d1, c.d2, c.d3) == |dimms| && c.d3 > 0
  {
    SumFew(dimms);
    forall i | 0 <= i < |dimms| ensures DimmSize(SizeIndex(dimms[i])) == dimms[i] && SizeIndex(dimms[i]) >= 1 {
      SizeOfIndex(dimm, dimms[i]);
    }
  }

  lemma SumFew(dimms: seq<int>)
    requires |dimms| <= 3
    ensures |dimms| == 1 ==> Sum(dimms) == dimms[0]
    ensures |dimms| == 2 ==> Sum(dimms) == dimms[0] + dimms[1]
    ensures |dimms| == 3 ==> Sum(dimms) == dimms[0] + dimms[1] + dimms[2]
  {
    if |dimms| == 1 {
      assert dimms[..0] == [];
    } else if |dimms| == 2 {
      assert dimms[..1] == [dimms[0]] && [dimms[0]][..0] == [];
    } else if |dimms| == 3 {
      assert dimms[..2] == [dimms[0], dimms[1]] && dimms[..2][..1] == [dimms[0]] && [dimms[0]][..0] == [];
    }
  }

  lemma PlacedPriced(p: Params, dimm: Dimm, dimms: seq<int>, c: Candidate)
    requires 1 <= |dimms| <= 3 && forall i :: 0 <= i < |dimms| ==> SizeSold(dimm, dimms[i])
    requires c == Placed(dimms, TypeCode(dimm), c.bw, c.lowPower)
    ensures DimmType(c.t) == dimm && Priced(p, c.t, c.d1) && Priced(p, c.t, c.d2) && Priced(p, c.t, c.d3)
  {
    forall i | 0 <= i < |dimms| ensures Priced(p, c.t, SizeIndex(dimms[i])) {
      SizeOfIndex(dimm, dimms[i]);
      PricedIffSold(p, dimm, SizeIndex(dimms[i]));
    }
  }

  // ---------- and nothing else ----------

  /** The DIMMs of a candidate, largest first. */
  function DimmsOf(k: Candidate): (dimms: seq<int>)
    requires k.d1 <= k.d2 <= k.d3 < 6
  {
    if k.d1 > 0 then [DimmSize(k.d3), DimmSize(k.d2), DimmSize(k.d1)]
    else if k.d2 > 0 then [DimmSize(k.d3), DimmSize(k.d2)]
    else if k.d3 > 0 then [DimmSize(k.d3)]
    else []
  }

  lemma DimmsAreSold(p: Params, k: Candidate)
    requires Qualifies(p, k)
    ensures |DimmsOf(k)| == Count(k.d1, k.d2, k.d3)
    ensures forall i :: 0 <= i < |DimmsOf(k)| ==> SizeSold(DimmType(k.t), DimmsOf(k)[i])
    ensures k == Placed(DimmsOf(k), k.t, k.bw, k.lowPower)
  {
    assert k.t == TypeCode(DimmType(k.t));
    if k.d1 > 0 {
      PricedIffSold(p, DimmType(k.t), k.d1);
    }
    if k.d2 > 0 {
      PricedIffSold(p, DimmType(k.t), k.d2);
    }
    if k.d3 > 0 {
      PricedIffSold(p, DimmType(k.t), k.d3);
    }
  }

  lemma QualifiesIsStocked(p: Params, k: Candidate)
    requires Qualifies(p, k) && k.d3 > 0
    ensures Stocked(p, Build(p, k), DimmsOf(k))
  {
    var dimms := DimmsOf(k);
    DimmsAreSold(p, k);
    PlacedHistogram(DimmType(k.t), dimms, k);
    PlacedSize(DimmType(k.t), dimms, k);
    StockedSizes(DimmType(k.t), dimms);
    SlotsAreTableSizes(k);
    EqualHistograms(p, dimms, Slots(k), BandwidthLoad(p.io, k.bw), DimmType(k.t), k.lowPower);
    EntryAllowed(p, |dimms|, k.bw);
  }

  // ---------- channels without DIMMs ----------

  lemma BareIndex(p: Params, b: nat)
    requires b < 4
    ensures b <= MaxIndex(p, 0) <==> b == 0 || BandwidthLoad(p.io, b - 1) < p.pastRow
  {
  }

  lemma EmptySlots(k: Candidate)
    requires k.d1 == k.d2 == k.d3 == 0
    ensures Fits([]) && TableSizes([]) && Fits(Slots(k)) && TableSizes(Slots(k)) && Histogram(Slots(k)) == Histogram([])
    ensures Size(k) == 0
  {
    SlotsAreTableSizes(k);
    SlotTally(k);
    assert Histogram(Slots(k)) == Histogram([]);
  }

  lemma BareBuild(p: Params, k: Candidate)
    requires k == Candidate(0, 0, 0, 0, k.bw, false) && k.bw < 4
    ensures Build(p, k) == ChannelOf(p, [], BandwidthLoad(p.io, k.bw), LRDIMM, false)
  {
    EmptySlots(k);
    EqualHistograms(p, [], Slots(k), BandwidthLoad(p.io, k.bw), LRDIMM, false);
  }

  lemma QualifiesIsBare(p: Params, k: Candidate)
    requires Qualifies(p, k) && k.d3 == 0
    ensures Bare(p, Build(p, k))
  {
    BareBuild(p, k);
    BareIndex(p, k.bw);
    assert BareEntry(p, BandwidthLoad(p.io, k.bw), k.bw);
  }

  lemma BareQualifies(p: Params, c: Channel) returns (k: Candidate)
    requires Bare(p, c)
    ensures Qualifies(p, k) && c == Build(p, k)
  {
    var b: nat :| BareEntry(p, c.figures.bandwidth, b);
    k := Candidate(0, 0, 0, 0, b, false);
    BareBuild(p, k);
    BareIndex(p, b);
  }

  // ---------- what is collected ----------

  /** A channel is on offer just when it can be stocked, or is bare. */
  lemma OfferedIffStocked(p: Params, c: Channel)
    ensures Offered(p, c) <==> Bare(p, c) || exists dimms :: Stocked(p, c, dimms)
  {
    if Offered(p, c) {
      var k: Candidate :| Qualifies(p, k) && c == Build(p, k);
      if k.d3 == 0 {
        QualifiesIsBare(p, k);
      } else {
        QualifiesIsStocked(p, k);
      }
    }
    if Bare(p, c) {
      var k := BareQualifies(p, c);
    }
    forall dimms | Stocked(p, c, dimms) ensures Offered(p, c) {
      var k := StockedQualifies(p, c, dimms);
    }
  }

  /** Only DIMMs of the wanted type are bought. */
  lemma OfferedType(p: Params, c: Channel)
    requires Offered(p, c)
    ensures p.dimmModel == JustUdimm ==> c.dimm == UDIMM
    ensures p.dimmModel == JustRdimm ==> c.dimm == RDIMM
    ensures p.dimmModel == JustLrdimm ==> c.dimm == LRDIMM
  {
    OfferedIffStocked(p, c);
  }

  /** What the tables charge for the sizes on sale. */
  lemma PriceList()
    ensures Price(DDR3, UDIMM, BinOf(4)) == 40.38 && Price(DDR3, UDIMM, BinOf(8)) == 76.13
    ensures Price(DDR3, RDIMM, BinOf(4)) == 42.24 && Price(DDR3, RDIMM, BinOf(8)) == 64.17
    ensures Price(DDR3, RDIMM, BinOf(16)) == 122.6 && Price(DDR3, RDIMM, BinOf(32)) == 304.3
    ensures Price(DDR3, LRDIMM, BinOf(16)) == 211.3 && Price(DDR3, LRDIMM, BinOf(32)) == 287.5
    ensures Price(DDR3, LRDIMM, BinOf(64)) == 1079.5
    ensures Price(DDR4, UDIMM, BinOf(4)) == 25.99 && Price(DDR4, UDIMM, BinOf(8)) == 45.99
    ensures Price(DDR4, RDIMM, BinOf(4)) == 32.99 && Price(DDR4, RDIMM, BinOf(8)) == 60.45
    ensures Price(DDR4, RDIMM, BinOf(16)) == 126.0 && Price(DDR4, RDIMM, BinOf(32)) == 296.3
    ensures Price(DDR4, LRDIMM, BinOf(16)) == 278.99 && Price(DDR4, LRDIMM, BinOf(32)) == 333.0
    ensures Price(DDR4, LRDIMM, BinOf(64)) == 1474.0
  {
    BinSizes();
  }

  function PriceOf(p: Params, dimm: Dimm, d: int): real
    requires 4 <= d < 128
  {
    Price(p.io, dimm, BinOf(d))
  }

  /** The figures of a stocked channel: its DIMMs, their capacities and prices, and the energy of all of them. */
  lemma StockedFigures(p: Params, c: Channel, dimms: seq<int>)
    requires Stocked(p, c, dimms)
    ensures forall i :: 0 <= i < |dimms| ==> 4 <= dimms[i] < 128
    ensures c.numDimms == |dimms| && c.figures.capacity == Sum(dimms)
    ensures c.figures.energy == p.energy(c.dimm, |dimms|, c.figures.bandwidth, Sum(dimms))
    ensures |c.histogram| == 5 && forall bin: nat :: bin < 5 ==> c.histogram[bin] == multiset(dimms)[4 * Pow2(bin)]
    ensures |dimms| == 1 ==> Sum(dimms) == dimms[0] && c.figures.cost == PriceOf(p, c.dimm, dimms[0])
    ensures |dimms| == 2 ==>
              && Sum(dimms) == dimms[0] + dimms[1]
              && c.figures.cost == PriceOf(p, c.dimm, dimms[0]) + PriceOf(p, c.dimm, dimms[1])
    ensures |dimms| == 3 ==>
              && Sum(dimms) == dimms[0] + dimms[1] + dimms[2]
              && c.figures.cost ==
                 PriceOf(p, c.dimm, dimms[0]) + PriceOf(p, c.dimm, dimms[1]) + PriceOf(p, c.dimm, dimms[2])
  {
    StockedSizes(c.dimm, dimms);
    forall i | 0 <= i < |dimms| ensures 4 <= dimms[i] < 128 {
      SizeOfIndex(c.dimm, dimms[i]);
    }
    SumFew(dimms);
    WeighFew(PriceOfBin(p.io, c.dimm), dimms);
    InstalledAll(dimms);
    forall bin: nat | bin < 5 ensures Tally(dimms, bin) == multiset(dimms)[4 * Pow2(bin)] {
      TallyCounts(dimms, bin);
    }
  }

  lemma {:induction false} TallyCounts(dimms: seq<int>, bin: nat)
    requires Fits(dimms) && TableSizes(dimms) && bin < 5 && forall i :: 0 <= i < |dimms| ==> dimms[i] != 0
    ensures Tally(dimms, bin) == multiset(dimms)[4 * Pow2(bin)]
  {
    if dimms != [] {
      var n := |dimms| - 1;
      TallyCounts(dimms[..n], bin);
      assert dimms == dimms[..n] + [dimms[n]];
      BinOfSize(bin);
    }
  }

  lemma WeighFew(w: nat -> real, dimms: seq<int>)
    requires Fits(dimms) && |dimms| <= 3 && forall i :: 0 <= i < |dimms| ==> 4 <= dimms[i] < 128
    ensures |dimms| == 1 ==> Weigh(w, dimms) == w(BinOf(dimms[0]))
    ensures |dimms| == 2 ==> Weigh(w, dimms) == w(BinOf(dimms[0])) + w(BinOf(dimms[1]))
    ensures |dimms| == 3 ==> Weigh(w, dimms) == w(BinOf(dimms[0])) + w(BinOf(dimms[1])) + w(BinOf(dimms[2]))
  {
    if |dimms| == 1 {
      assert dimms[..0] == [];
    } else if |dimms| == 2 {
      assert dimms[..1] == [dimms[0]] && [dimms[0]][..0] == [];
    } else if |dimms| == 3 {
      assert dimms[..2] == [dimms[0], dimms[1]] && dimms[..2][..1] == [dimms[0]] && [dimms[0]][..0] == [];
    }
  }

  lemma {:induction false} InstalledAll(dimms: seq<int>)
    requires forall i :: 0 <= i < |dimms| ==> dimms[i] != 0
    ensures Installed(dimms) == |dimms|
  {
    if dimms != [] {
      InstalledAll(dimms[..|dimms| - 1]);
    }
  }

  /** The enumeration collects all of these, and nothing else. */
  lemma CollectedAreStocked(p: Params, found: seq<Candidate>)
    requires Covers(p, found, LAST_RANK)
    ensures forall c :: c in BuildAll(p, found) <==> Bare(p, c) || exists dimms :: Stocked(p, c, dimms)
  {
    CollectedExactlyOnce(p, found);
    forall c ensures c in BuildAll(p, found) <==> Bare(p, c) || exists dimms :: Stocked(p, c, dimms) {
      OfferedIffStocked(p, c);
    }
  }
}
