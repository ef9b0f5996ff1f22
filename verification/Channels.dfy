/** The configurations of `memcad_parameters.cc`: tables, constructors and clones. */
module Channels {
  import opened Sorting
  import opened BasicCircuit
  import opened Metrics

  datatype IoType = DDR3 | DDR4

  datatype Dimm = UDIMM | RDIMM | LRDIMM

  datatype DimmModel = JustUdimm | JustRdimm | JustLrdimm | AllDimms

  /**
   The user's parameters. `energy` stands for calc_power, a table lookup on the DIMM type, the
   number of DIMMs, the bandwidth and the capacity; `pastRow` for the value that lies behind the
   last entry of a bandwidth row, which channels without DIMMs read.
   */
  datatype Params = Params(
    io: IoType,
    capacity: int,
    numBobs: nat,
    numChannelsPerBob: nat,
    mirrorInBob: bool,
    sameBwInBob: bool,
    ranking: Ranking,
    dimmModel: DimmModel,
    lowPowerPermitted: bool,
    pastRow: int,
    energy: (Dimm, nat, int, int) -> real)

  const DIMM_PER_CHANNEL := 3
  const MAX_NUM_CHANNELS_PER_BOB := 2
  const MAX_NUM_BOBS := 6
  const INF: real := 9999999.0

  // ---------- tables ----------

  function BandwidthLoad(io: IoType, b: nat): int
    requires b < 4
  {
    match io
    case DDR3 => if b == 0 then 400 else if b == 1 then 533 else if b == 2 then 667 else 800
    case DDR4 => if b == 0 then 800 else if b == 1 then 933 else if b == 2 then 1066 else 1200
  }

  function PriceRow(a: real, b: real, c: real, d: real, e: real, bin: nat): real {
    if bin == 0 then a else if bin == 1 then b else if bin == 2 then c else if bin == 3 then d else e
  }

  function Price(io: IoType, dimm: Dimm, bin: nat): real {
    match (io, dimm)
    case (DDR3, UDIMM) => PriceRow(40.38, 76.13, INF, INF, INF, bin)
    case (DDR3, RDIMM) => PriceRow(42.24, 64.17, 122.6, 304.3, INF, bin)
    case (DDR3, LRDIMM) => PriceRow(INF, INF, 211.3, 287.5, 1079.5, bin)
    case (DDR4, UDIMM) => PriceRow(25.99, 45.99, INF, INF, INF, bin)
    case (DDR4, RDIMM) => PriceRow(32.99, 60.45, 126.0, 296.3, INF, bin)
    case (DDR4, LRDIMM) => PriceRow(INF, INF, 278.99, 333.0, 1474.0, bin)
  }

  function BwIndex(io: IoType, bandwidth: int): (i: nat)
    ensures i < 4
  {
    match io
    case DDR3 => if bandwidth <= 400 then 0 else if bandwidth <= 533 then 1 else if bandwidth <= 667 then 2 else 3
    case DDR4 => if bandwidth <= 800 then 0 else if bandwidth <= 933 then 1 else if bandwidth <= 1066 then 2 else 3
  }

  /** bw_index finds the entry of the table it reads, and is the least entry that is fast enough. */
  lemma BwIndexInvertsTable(io: IoType, b: nat, bandwidth: int)
    requires b < 4
    ensures BwIndex(io, BandwidthLoad(io, b)) == b
    ensures bandwidth <= BandwidthLoad(io, 3) ==>
              (BwIndex(io, bandwidth) <= b <==> bandwidth <= BandwidthLoad(io, b))
  {
  }

  // ---------- channels ----------

  datatype Channel = Channel(
    dimm: Dimm,
    lowPower: bool,
    numDimms: nat,
    histogram: seq<nat>,
    figures: Figures)

  function ChannelFigures(c: Channel): Figures { c.figures }

  /** The DIMM capacities the constructor can place in its five bins; 0 is an empty slot. */
  predicate Fits(dimms: seq<int>) {
    forall i :: 0 <= i < |dimms| ==> dimms[i] == 0 || 4 <= dimms[i] < 128
  }

  /** The bin `(int)(log2(d + 0.1)) - 2` of a DIMM. */
  function BinOf(d: int): (bin: nat)
    requires 4 <= d < 128
    ensures bin < 5
  {
    BinRange(d);
    Log2(d) - 2
  }

  lemma BinRange(d: int)
    requires 4 <= d < 128
    ensures 2 <= Log2(d) < 7
  {
    Log2IsFloor(d, Log2(d));
    assert Pow2(1) == 2 && Pow2(2) == 4 && Pow2(3) == 8 && Pow2(4) == 16 && Pow2(5) == 32 && Pow2(6) == 64;
    if Log2(d) >= 7 {
      Pow2Monotone(6, Log2(d));
    }
  }

  function BinSize(bin: nat): int { 4 * Pow2(bin) }

  /** How many DIMMs fall in a bin. */
  function Tally(dimms: seq<int>, bin: nat): nat
    requires Fits(dimms)
  {
    if dimms == [] then 0
    else
      var d := dimms[|dimms| - 1];
      Tally(dimms[..|dimms| - 1], bin) + if d != 0 && BinOf(d) == bin then 1 else 0
  }

  function Histogram(dimms: seq<int>): (h: seq<nat>)
    requires Fits(dimms)
    ensures |h| == 5
  {
    seq(5, bin requires 0 <= bin < 5 => Tally(dimms, bin))
  }

  function Installed(dimms: seq<int>): nat {
    if dimms == [] then 0
    else Installed(dimms[..|dimms| - 1]) + if dimms[|dimms| - 1] != 0 then 1 else 0
  }

  function Sum(dimms: seq<int>): int {
    if dimms == [] then 0 else Sum(dimms[..|dimms| - 1]) + dimms[|dimms| - 1]
  }

  /** The sum over the installed DIMMs of a weight that depends on the bin alone. */
  function Weigh(w: nat -> real, dimms: seq<int>): real
    requires Fits(dimms)
  {
    if dimms == [] then 0.0
    else
      var d := dimms[|dimms| - 1];
      Weigh(w, dimms[..|dimms| - 1]) + if d == 0 then 0.0 else w(BinOf(d))
  }

  function PriceOfBin(io: IoType, dimm: Dimm): nat -> real {
    (bin: nat) => Price(io, dimm, bin)
  }

  /** The channel with the given DIMMs: its price is the price of its DIMMs, one by one. */
  function ChannelOf(p: Params, dimms: seq<int>, bandwidth: int, dimm: Dimm, lowPower: bool): Channel
    requires Fits(dimms)
  {
    Channel(dimm, lowPower, Installed(dimms), Histogram(dimms),
            Figures(Sum(dimms), Weigh(PriceOfBin(p.io, dimm), dimms), bandwidth,
                    p.energy(dimm, Installed(dimms), bandwidth, Sum(dimms))))
  }

  /** The same sum taken bin by bin over a histogram. */
  function WeighBins(w: nat -> real, h: seq<nat>, k: nat): real
    requires k <= |h|
  {
    if k == 0 then 0.0 else WeighBins(w, h, k - 1) + h[k - 1] as real * w(k - 1)
  }

  lemma {:induction false} WeighBump(w: nat -> real, h: seq<nat>, g: seq<nat>, bin: nat, k: nat)
    requires |h| == |g| && bin < |h| && k <= |h|
    requires forall i :: 0 <= i < |h| ==> g[i] == h[i] + if i == bin then 1 else 0
    ensures WeighBins(w, g, k) == WeighBins(w, h, k) + if bin < k then w(bin) else 0.0
  {
    if k > 0 {
      WeighBump(w, h, g, bin, k - 1);
      assert (h[k - 1] + 1) as real * w(k - 1) == h[k - 1] as real * w(k - 1) + w(k - 1);
    }
  }

  lemma {:induction false} WeighNothing(w: nat -> real, h: seq<nat>, k: nat)
    requires k <= |h| && forall i :: 0 <= i < |h| ==> h[i] == 0
    ensures WeighBins(w, h, k) == 0.0
  {
    if k > 0 {
      WeighNothing(w, h, k - 1);
    }
  }

  /** Summing bin by bin, as the constructor does for the price, is summing DIMM by DIMM. */
  lemma {:induction false} WeighIsBinwise(w: nat -> real, dimms: seq<int>)
    requires Fits(dimms)
    ensures Weigh(w, dimms) == WeighBins(w, Histogram(dimms), 5)
  {
    if dimms == [] {
      WeighNothing(w, Histogram(dimms), 5);
    } else {
      var n := |dimms| - 1;
      var d := dimms[n];
      WeighIsBinwise(w, dimms[..n]);
      if d != 0 {
        WeighBump(w, Histogram(dimms[..n]), Histogram(dimms), BinOf(d), 5);
      } else {
        assert Histogram(dimms) == Histogram(dimms[..n]);
      }
    }
  }

  /** What one DIMM adds. */
  lemma HistogramStep(dimms: seq<int>, i: nat)
    requires Fits(dimms) && i < |dimms|
    ensures var d, before, after := dimms[i], dimms[..i], dimms[..i + 1];
            && Installed(after) == Installed(before) + (if d == 0 then 0 else 1)
            && Sum(after) == Sum(before) + d
            && (d == 0 ==> Histogram(after) == Histogram(before))
            && (d != 0 ==> Histogram(after) == Histogram(before)[BinOf(d) := Histogram(before)[BinOf(d)] + 1])
  {
    assert dimms[..i + 1][..i] == dimms[..i];
  }

  /** The constructor of channel_conf; its assertions are the preconditions. */
  method MakeChannel(p: Params, dimms: seq<int>, bandwidth: int, dimm: Dimm, lowPower: bool) returns (c: Channel)
    requires |dimms| <= DIMM_PER_CHANNEL && Fits(dimms)
    ensures c == ChannelOf(p, dimms, bandwidth, dimm, lowPower)
  {
    var numDimms, capacity, histogram := CountDimms(dimms);
    var cost := PriceHistogram(PriceOfBin(p.io, dimm), histogram);
    WeighIsBinwise(PriceOfBin(p.io, dimm), dimms);
    c := Channel(dimm, lowPower, numDimms, histogram,
                 Figures(capacity, cost, bandwidth, p.energy(dimm, numDimms, bandwidth, capacity)));
  }

  /** The constructor's first loop. */
  method CountDimms(dimms: seq<int>) returns (numDimms: nat, capacity: int, histogram: seq<nat>)
    requires Fits(dimms)
    ensures numDimms == Installed(dimms) && capacity == Sum(dimms) && histogram == Histogram(dimms)
  {
    numDimms, capacity, histogram := 0, 0, [0, 0, 0, 0, 0];
    for i := 0 to |dimms|
      invariant Fits(dimms[..i])
      invariant numDimms == Installed(dimms[..i]) && capacity == Sum(dimms[..i])
      invariant histogram == Histogram(dimms[..i])
    {
      HistogramStep(dimms, i);
      if dimms[i] == 0 {
        continue;
      }
      var bin := BinOf(dimms[i]);
      histogram := histogram[bin := histogram[bin] + 1];
      numDimms := numDimms + 1;
      capacity := capacity + dimms[i];
    }
    assert dimms[..|dimms|] == dimms;
  }

  /** The constructor's second loop. */
  method PriceHistogram(price: nat -> real, histogram: seq<nat>) returns (cost: real)
    ensures cost == WeighBins(price, histogram, |histogram|)
  {
    cost := 0.0;
    for i := 0 to |histogram|
      invariant cost == WeighBins(price, histogram, i)
    {
      cost := cost + histogram[i] as real * price(i);
    }
  }

  // ---------- clone ----------

  /** The DIMMs that `clone` reads off a histogram. */
  function Expand(h: seq<nat>, k: nat): (dimms: seq<int>)
    requires k <= |h|
  {
    if k == 0 then [] else Expand(h, k - 1) + Repeat(BinSize(k - 1), h[k - 1])
  }

  function Repeat<T>(x: T, n: nat): (r: seq<T>)
    ensures |r| == n
  {
    if n == 0 then [] else Repeat(x, n - 1) + [x]
  }

  lemma BinOfSize(bin: nat)
    requires bin < 5
    ensures 4 <= BinSize(bin) < 128 && BinOf(BinSize(bin)) == bin
  {
    assert Pow2(1) == 2 && Pow2(2) == 4 && Pow2(3) == 8 && Pow2(4) == 16;
    assert Pow2(bin + 2) == BinSize(bin);
    Log2IsFloor(BinSize(bin), bin + 2);
  }

  lemma RepeatGrows(pre: seq<int>, d: int, n: nat)
    requires n > 0
    ensures var all := pre + Repeat(d, n);
            |all| == |pre| + n && all[|all| - 1] == d && all[..|all| - 1] == pre + Repeat(d, n - 1)
  {
  }

  lemma {:induction false} ExpandRepeats(h: seq<nat>, k: nat, pre: seq<int>, n: nat)
    requires |h| == 5 && k < 5 && Fits(pre)
    ensures Fits(pre + Repeat(BinSize(k), n))
    ensures forall bin: nat :: Tally(pre + Repeat(BinSize(k), n), bin) ==
                               Tally(pre, bin) + if bin == k then n else 0
  {
    BinOfSize(k);
    if n == 0 {
      assert pre + Repeat(BinSize(k), 0) == pre;
    } else {
      ExpandRepeats(h, k, pre, n - 1);
      RepeatGrows(pre, BinSize(k), n);
      var all := pre + Repeat(BinSize(k), n);
      forall bin: nat ensures Tally(all, bin) == Tally(pre, bin) + if bin == k then n else 0 {
      }
    }
  }

  /** Expanding a histogram and tallying again gives the histogram back. */
  lemma {:induction false} ExpandTally(h: seq<nat>, k: nat)
    requires |h| == 5 && k <= 5
    ensures Fits(Expand(h, k))
    ensures forall bin :: 0 <= bin < 5 ==> Tally(Expand(h, k), bin) == if bin < k then h[bin] else 0
  {
    if k > 0 {
      ExpandTally(h, k - 1);
      ExpandRepeats(h, k - 1, Expand(h, k - 1), h[k - 1]);
    }
  }

  /** Every DIMM has one of the sizes of its bin. */
  predicate TableSizes(dimms: seq<int>)
    requires Fits(dimms)
  {
    forall i :: 0 <= i < |dimms| ==> dimms[i] == 0 || dimms[i] == BinSize(BinOf(dimms[i]))
  }

  lemma BinRoundsDown(d: int)
    requires 4 <= d < 128
    ensures BinSize(BinOf(d)) <= d
  {
    var k := BinOf(d);
    Log2IsFloor(d, k + 2);
    assert Pow2(k + 2) == 2 * Pow2(k + 1) == BinSize(k);
  }

  lemma {:induction false} RoundedCapacity(dimms: seq<int>)
    requires Fits(dimms)
    ensures Weigh(SizeWeight(), dimms) <= Sum(dimms) as real
    ensures Weigh(SizeWeight(), dimms) == Sum(dimms) as real <==> TableSizes(dimms)
  {
    if dimms != [] {
      var n := |dimms| - 1;
      RoundedCapacity(dimms[..n]);
      if dimms[n] != 0 {
        BinRoundsDown(dimms[n]);
      }
      assert TableSizes(dimms) <==> TableSizes(dimms[..n]) && (dimms[n] == 0 || dimms[n] == BinSize(BinOf(dimms[n])));
    }
  }

  function SizeWeight(): nat -> real { (bin: nat) => BinSize(bin) as real }

  function UnitWeight(): nat -> real { (bin: nat) => 1.0 }

  lemma {:induction false} InstalledWeight(dimms: seq<int>)
    requires Fits(dimms)
    ensures Weigh(UnitWeight(), dimms) == Installed(dimms) as real
    ensures Installed(dimms) <= |dimms|
  {
    if dimms != [] {
      InstalledWeight(dimms[..|dimms| - 1]);
    }
  }

  lemma {:induction false} ExpandHasNoGaps(h: seq<nat>, k: nat)
    requires |h| == 5 && k <= 5
    ensures Fits(Expand(h, k)) && TableSizes(Expand(h, k)) && Installed(Expand(h, k)) == |Expand(h, k)|
  {
    ExpandTally(h, k);
    if k > 0 {
      ExpandHasNoGaps(h, k - 1);
      RepeatHasNoGaps(Expand(h, k - 1), k - 1, h[k - 1]);
    }
  }

  lemma {:induction false} RepeatHasNoGaps(pre: seq<int>, k: nat, n: nat)
    requires k < 5 && Fits(pre) && TableSizes(pre) && Installed(pre) == |pre|
    ensures Fits(pre + Repeat(BinSize(k), n)) && TableSizes(pre + Repeat(BinSize(k), n))
    ensures Installed(pre + Repeat(BinSize(k), n)) == |pre| + n
  {
    BinOfSize(k);
    if n == 0 {
      assert pre + Repeat(BinSize(k), 0) == pre;
    } else {
      RepeatHasNoGaps(pre, k, n - 1);
      RepeatGrows(pre, BinSize(k), n);
      assert pre + Repeat(BinSize(k), n) == (pre + Repeat(BinSize(k), n - 1)) + [BinSize(k)];
    }
  }

  /** The clone agrees with the original in everything but, possibly, capacity and energy. */
  lemma CloneKeepsBins(p: Params, dimms: seq<int>, dimm: Dimm)
    requires Fits(dimms)
    ensures var copy := Expand(Histogram(dimms), 5);
            && Fits(copy) && TableSizes(copy)
            && |copy| <= |dimms|
            && Histogram(copy) == Histogram(dimms)
            && Installed(copy) == Installed(dimms)
            && Weigh(PriceOfBin(p.io, dimm), copy) == Weigh(PriceOfBin(p.io, dimm), dimms)
            && Sum(copy) as real == Weigh(SizeWeight(), dimms)
  {
    var h := Histogram(dimms);
    var copy := Expand(h, 5);
    ExpandTally(h, 5);
    ExpandHasNoGaps(h, 5);
    assert Histogram(copy) == h;
    WeighIsBinwise(PriceOfBin(p.io, dimm), copy);
    WeighIsBinwise(PriceOfBin(p.io, dimm), dimms);
    WeighIsBinwise(SizeWeight(), copy);
    WeighIsBinwise(SizeWeight(), dimms);
    WeighIsBinwise(UnitWeight(), copy);
    WeighIsBinwise(UnitWeight(), dimms);
    RoundedCapacity(copy);
    InstalledWeight(copy);
    InstalledWeight(dimms);
  }

  /** Cloning is a round trip just when every DIMM has a table size. */
  lemma CloneRoundTrip(p: Params, dimms: seq<int>, bandwidth: int, dimm: Dimm, lowPower: bool)
    requires Fits(dimms)
    ensures Fits(Expand(Histogram(dimms), 5))
    ensures (ChannelOf(p, Expand(Histogram(dimms), 5), bandwidth, dimm, lowPower)
             == ChannelOf(p, dimms, bandwidth, dimm, lowPower)) <==> TableSizes(dimms)
  {
    CloneKeepsBins(p, dimms, dimm);
    RoundedCapacity(dimms);
  }

  /** The channels that the constructor builds from DIMMs of the table. */
  ghost predicate Genuine(p: Params, c: Channel) {
    exists dimms: seq<int> :: Builds(p, c, dimms)
  }

  ghost predicate Builds(p: Params, c: Channel, dimms: seq<int>) {
    && Fits(dimms) && TableSizes(dimms) && |dimms| <= DIMM_PER_CHANNEL
    && c == ChannelOf(p, dimms, c.figures.bandwidth, c.dimm, c.lowPower)
  }

  /** `clone(channel_conf*)`. */
  method CloneChannel(p: Params, origin: Channel) returns (c: Channel)
    requires Genuine(p, origin)
    ensures c == origin
  {
    ghost var dimms :| Builds(p, origin, dimms);
    CloneKeepsBins(p, dimms, origin.dimm);
    CloneRoundTrip(p, dimms, origin.figures.bandwidth, origin.dimm, origin.lowPower);
    var temp := ListDimms(origin.histogram);
    c := MakeChannel(p, temp, origin.figures.bandwidth, origin.dimm, origin.lowPower);
  }

  /** The loops of `clone` that turn a histogram into a list of DIMMs. */
  method ListDimms(histogram: seq<nat>) returns (temp: seq<int>)
    requires |histogram| == 5
    ensures temp == Expand(histogram, 5)
  {
    temp := [];
    var size := 4;
    for i := 0 to 5
      invariant size == BinSize(i)
      invariant temp == Expand(histogram, i)
    {
      for j := 0 to histogram[i]
        invariant temp == Expand(histogram, i) + Repeat(size, j)
      {
        temp := temp + [size];
      }
      size := size * 2;
    }
  }

  // ---------- BoBs and memories ----------

  datatype Bob = Bob(channels: seq<Channel>, figures: Figures)

  datatype Memory = Memory(bobs: seq<Bob>, figures: Figures)

  function BobFigures(b: Bob): Figures { b.figures }

  function MemoryFigures(m: Memory): Figures { m.figures }

  function BobOf(channels: seq<Channel>): Bob {
    Bob(channels, Total(Map(ChannelFigures, channels)))
  }

  function MemoryOf(bobs: seq<Bob>): Memory {
    Memory(bobs, Total(Map(BobFigures, bobs)))
  }

  /** The constructor of bob_conf. */
  method MakeBob(channels: seq<Channel>) returns (b: Bob)
    requires |channels| <= MAX_NUM_CHANNELS_PER_BOB
    ensures b == BobOf(channels)
  {
    var placed: seq<Channel> := [];
    var sum := ZERO;
    ghost var fs := Map(ChannelFigures, channels);
    for i := 0 to |channels|
      invariant placed == channels[..i]
      invariant sum == Total(fs[..i])
    {
      assert fs[..i + 1][..i] == fs[..i];
      placed := placed + [channels[i]];
      sum := Plus(sum, channels[i].figures);
    }
    assert fs[..|channels|] == fs;
    b := Bob(placed, sum);
  }

  /** `clone(bob_conf*)`: the occupied slots, which come first, are collected again. */
  method CloneBob(origin: Bob) returns (b: Bob)
    requires |origin.channels| <= MAX_NUM_CHANNELS_PER_BOB && origin == BobOf(origin.channels)
    ensures b == origin
  {
    var temp: seq<Channel> := [];
    for i := 0 to MAX_NUM_CHANNELS_PER_BOB
      invariant temp == origin.channels[..if i < |origin.channels| then i else |origin.channels|]
    {
      if i >= |origin.channels| {
        break;
      }
      temp := temp + [origin.channels[i]];
    }
    assert temp == origin.channels;
    b := MakeBob(temp);
  }

  /** The constructor of memory_conf. */
  method MakeMemory(bobs: seq<Bob>) returns (m: Memory)
    requires |bobs| <= MAX_NUM_BOBS
    ensures m == MemoryOf(bobs)
  {
    var placed: seq<Bob> := [];
    var sum := ZERO;
    ghost var fs := Map(BobFigures, bobs);
    for i := 0 to |bobs|
      invariant placed == bobs[..i]
      invariant sum == Total(fs[..i])
    {
      assert fs[..i + 1][..i] == fs[..i];
      placed := placed + [bobs[i]];
      sum := Plus(sum, bobs[i].figures);
    }
    assert fs[..|bobs|] == fs;
    m := Memory(placed, sum);
  }
}
