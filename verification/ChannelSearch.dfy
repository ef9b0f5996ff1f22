/** The enumeration in find_all_channels, before sorting and pruning. */
module ChannelSearch {
  import opened Metrics
  import opened Sorting
  import opened Channels

  /**
   A candidate as the loops meet it: three positions in the size table, the DIMM type in the
   order tried (0 LRDIMM, 1 RDIMM, 2 UDIMM), the bandwidth entry and the low-power flag.
   */
  datatype Candidate = Candidate(d1: nat, d2: nat, d3: nat, t: nat, bw: nat, lowPower: bool)

  function DimmSize(d: nat): int {
    if d == 0 then 0 else if d == 1 then 4 else if d == 2 then 8 else if d == 3 then 16 else if d == 4 then 32 else 64
  }

  function DimmType(t: nat): Dimm {
    if t == 0 then LRDIMM else if t == 1 then RDIMM else UDIMM
  }

  function Size(k: Candidate): int { DimmSize(k.d1) + DimmSize(k.d2) + DimmSize(k.d3) }

  function Count(d1: nat, d2: nat, d3: nat): (n: nat)
    ensures n <= 3
  {
    (if d1 > 0 then 1 else 0) + (if d2 > 0 then 1 else 0) + (if d3 > 0 then 1 else 0)
  }

  function Slots(k: Candidate): (dimms: seq<int>) {
    [DimmSize(k.d1), DimmSize(k.d2), DimmSize(k.d3)]
  }

  lemma SlotsAreTableSizes(k: Candidate)
    ensures Fits(Slots(k)) && TableSizes(Slots(k))
    ensures Sum(Slots(k)) == Size(k) && Installed(Slots(k)) == Count(k.d1, k.d2, k.d3)
  {
    SizeIsTableSize(k.d1);
    SizeIsTableSize(k.d2);
    SizeIsTableSize(k.d3);
    SlotSums(k);
  }

  lemma SizeIsTableSize(d: nat)
    ensures DimmSize(d) == 0 || (4 <= DimmSize(d) < 128 && DimmSize(d) == BinSize(BinOf(DimmSize(d))))
  {
    BinSizes();
  }

  lemma BinSizes()
    ensures BinSize(0) == 4 && BinSize(1) == 8 && BinSize(2) == 16 && BinSize(3) == 32 && BinSize(4) == 64
    ensures BinOf(4) == 0 && BinOf(8) == 1 && BinOf(16) == 2 && BinOf(32) == 3 && BinOf(64) == 4
  {
    BinOfSize(0);
    BinOfSize(1);
    BinOfSize(2);
    BinOfSize(3);
    BinOfSize(4);
  }

  lemma SlotSums(k: Candidate)
    ensures Sum(Slots(k)) == Size(k) && Installed(Slots(k)) == Count(k.d1, k.d2, k.d3)
  {
    var a, b, c := DimmSize(k.d1), DimmSize(k.d2), DimmSize(k.d3);
    assert Slots(k)[..2] == [a, b] && [a, b][..1] == [a] && [a][..0] == [];
    assert Sum([a]) == a && Sum([a, b]) == a + b;
    assert Installed([a]) == (if a != 0 then 1 else 0);
    assert Installed([a, b]) == (if a != 0 then 1 else 0) + (if b != 0 then 1 else 0);
  }

  function Build(p: Params, k: Candidate): Channel
    requires k.bw < 4
  {
    SlotsAreTableSizes(k);
    ChannelOf(p, Slots(k), BandwidthLoad(p.io, k.bw), DimmType(k.t), k.lowPower)
  }

  // ---------- which candidates qualify ----------

  predicate ModelAllows(model: DimmModel, t: nat) {
    model == AllDimms || model == (if t == 0 then JustLrdimm else if t == 1 then JustRdimm else JustUdimm)
  }

  /** `bw_index(io, bandwidth_load[io][4 - n])`; with no DIMM the read runs past the row. */
  function MaxIndex(p: Params, n: nat): (i: nat)
    requires n <= 3
    ensures i < 4
  {
    BwIndex(p.io, if n == 0 then p.pastRow else BandwidthLoad(p.io, 4 - n))
  }

  predicate Priced(p: Params, t: nat, d: nat) {
    d == 0 || Price(p.io, DimmType(t), d - 1) < INF
  }

  /** The candidates that find_all_channels is meant to collect. */
  predicate Qualifies(p: Params, k: Candidate) {
    && k.d1 <= k.d2 <= k.d3 < 6 && k.t < 3 && k.bw < 4
    && Size(k) <= p.capacity
    && ModelAllows(p.dimmModel, k.t)
    && Priced(p, k.t, k.d1) && Priced(p, k.t, k.d2) && Priced(p, k.t, k.d3)
    && k.bw <= MaxIndex(p, Count(k.d1, k.d2, k.d3))
    && (k.lowPower ==> p.lowPowerPermitted)
    && (k.d3 == 0 ==> k.t == 0 && !k.lowPower)
  }

  /** More DIMMs on the channel, fewer bandwidths: with n >= 1 DIMMs the entry is at most 4 - n. */
  lemma BandwidthLimit(p: Params, k: Candidate)
    requires Qualifies(p, k) && k.d3 > 0
    ensures k.bw + Count(k.d1, k.d2, k.d3) <= 4
  {
    BwIndexInvertsTable(p.io, 4 - Count(k.d1, k.d2, k.d3), 0);
  }

  /** The final test on the cost makes the guards on the single DIMMs redundant. */
  lemma FiniteCost(p: Params, k: Candidate)
    requires k.d1 < 6 && k.d2 < 6 && k.d3 < 6 && k.bw < 4
    ensures Build(p, k).figures.cost < INF <==> Priced(p, k.t, k.d1) && Priced(p, k.t, k.d2) && Priced(p, k.t, k.d3)
  {
    SlotPrices(p, k);
    PriceRange(p, k.t, k.d1);
    PriceRange(p, k.t, k.d2);
    PriceRange(p, k.t, k.d3);
  }

  lemma PriceRange(p: Params, t: nat, d: nat)
    requires d < 6
    ensures 0.0 <= SlotPrice(p, t, d) && (Priced(p, t, d) <==> SlotPrice(p, t, d) < 2000.0)
    ensures !Priced(p, t, d) ==> SlotPrice(p, t, d) >= INF
  {
  }

  function SlotPrice(p: Params, t: nat, d: nat): real {
    if d == 0 then 0.0 else Price(p.io, DimmType(t), d - 1)
  }

  lemma SlotPrices(p: Params, k: Candidate)
    requires k.d1 < 6 && k.d2 < 6 && k.d3 < 6
    ensures Fits(Slots(k))
    ensures Weigh(PriceOfBin(p.io, DimmType(k.t)), Slots(k)) ==
            SlotPrice(p, k.t, k.d1) + SlotPrice(p, k.t, k.d2) + SlotPrice(p, k.t, k.d3)
  {
    SlotsAreTableSizes(k);
    BinSizes();
    var a, b, c := DimmSize(k.d1), DimmSize(k.d2), DimmSize(k.d3);
    var w := PriceOfBin(p.io, DimmType(k.t));
    assert Slots(k)[..2] == [a, b] && [a, b][..1] == [a] && [a][..0] == [];
    SlotBin(k.d1);
    SlotBin(k.d2);
    SlotBin(k.d3);
    assert Weigh(w, [a]) == SlotPrice(p, k.t, k.d1);
    assert Weigh(w, [a, b]) == SlotPrice(p, k.t, k.d1) + SlotPrice(p, k.t, k.d2);
  }

  lemma SlotBin(d: nat)
    requires d < 6
    ensures d == 0 <==> DimmSize(d) == 0
    ensures d > 0 ==> 4 <= DimmSize(d) < 128 && BinOf(DimmSize(d)) == d - 1
  {
    BinSizes();
  }

  // ---------- the order of the loops ----------

  function Rank(k: Candidate): int {
    ((((k.d1 * 6 + k.d2) * 6 + k.d3) * 3 + k.t) * 4 + k.bw) * 2 + if k.lowPower then 1 else 0
  }

  /** `found` lists the qualifying candidates of rank below `limit`, each once, in loop order. */
  ghost predicate Covers(p: Params, found: seq<Candidate>, limit: int) {
    && (forall i, j :: 0 <= i < j < |found| ==> Rank(found[i]) < Rank(found[j]))
    && (forall k: Candidate :: k in found <==> Qualifies(p, k) && Rank(k) < limit)
  }

  lemma CoversAdd(p: Params, found: seq<Candidate>, k: Candidate)
    requires Covers(p, found, Rank(k)) && Qualifies(p, k)
    ensures Covers(p, found + [k], Rank(k) + 1)
  {
    forall c: Candidate
      ensures c in found + [k] <==> Qualifies(p, c) && Rank(c) < Rank(k) + 1
    {
      if Qualifies(p, c) && Rank(c) == Rank(k) {
        RankIsInjective(c, k);
      }
    }
    forall i | 0 <= i < |found| ensures Rank(found[i]) < Rank(k) {
      assert found[i] in found;
    }
  }

  lemma RankIsInjective(c: Candidate, k: Candidate)
    requires c.d2 < 6 && c.d3 < 6 && c.t < 3 && c.bw < 4
    requires k.d2 < 6 && k.d3 < 6 && k.t < 3 && k.bw < 4
    requires Rank(c) == Rank(k)
    ensures c == k
  {
    var c1, k1 := c.d1 * 6 + c.d2, k.d1 * 6 + k.d2;
    var c2, k2 := c1 * 6 + c.d3, k1 * 6 + k.d3;
    var c3, k3 := c2 * 3 + c.t, k2 * 3 + k.t;
    var c4, k4 := c3 * 4 + c.bw, k3 * 4 + k.bw;
    assert c4 == k4 && c.lowPower == k.lowPower;
    assert c3 == k3 && c.bw == k.bw;
    assert c2 == k2 && c.t == k.t;
    assert c1 == k1 && c.d3 == k.d3;
  }

  lemma CoversSkip(p: Params, found: seq<Candidate>, limit: int, limit': int)
    requires Covers(p, found, limit) && limit <= limit'
    requires forall k: Candidate :: Qualifies(p, k) ==> !(limit <= Rank(k) < limit')
    ensures Covers(p, found, limit')
  {
  }

  /** The rank of the first candidate of a combination and type. */
  function CellRank(d1: nat, d2: nat, d3: nat, t: nat): int {
    (((d1 * 6 + d2) * 6 + d3) * 3 + t) * 8
  }

  const LAST_RANK := 5184

  /** The loops may reach a candidate of this combination and type that qualifies. */
  predicate Open(p: Params, d1: nat, d2: nat, d3: nat, t: nat) {
    && DimmSize(d1) + DimmSize(d2) + DimmSize(d3) <= p.capacity && ModelAllows(p.dimmModel, t)
    && Priced(p, t, d1) && Priced(p, t, d2) && Priced(p, t, d3)
    && (d3 == 0 ==> t == 0)
  }

  /** A combination and type that is not open can be passed over. */
  lemma SkipType(p: Params, found: seq<Candidate>, d1: nat, d2: nat, d3: nat, t: nat)
    requires d2 < 6 && d3 < 6 && t < 3 && !Open(p, d1, d2, d3, t)
    requires Covers(p, found, CellRank(d1, d2, d3, t))
    ensures Covers(p, found, CellRank(d1, d2, d3, t + 1))
  {
    var lo, hi := CellRank(d1, d2, d3, t), CellRank(d1, d2, d3, t + 1);
    forall c: Candidate | Qualifies(p, c) ensures !(lo <= Rank(c) < hi) {
      if lo <= Rank(c) < hi {
        CombinationDigits(c, d1, d2, d3);
        QualifiesIsOpen(p, c);
      }
    }
    CoversSkip(p, found, lo, hi);
  }

  lemma QualifiesIsOpen(p: Params, c: Candidate)
    requires Qualifies(p, c)
    ensures Open(p, c.d1, c.d2, c.d3, c.t)
  {
  }

  lemma CombinationDigits(c: Candidate, d1: nat, d2: nat, d3: nat)
    requires c.d2 < 6 && c.d3 < 6 && c.t < 3 && c.bw < 4 && d2 < 6 && d3 < 6
    requires CellRank(d1, d2, d3, 0) <= Rank(c) < CellRank(d1, d2, d3, 3)
    ensures c.d1 == d1 && c.d2 == d2 && c.d3 == d3
    ensures CellRank(d1, d2, d3, c.t) <= Rank(c) < CellRank(d1, d2, d3, c.t + 1)
  {
    var c1, k1 := c.d1 * 6 + c.d2, d1 * 6 + d2;
    var c2, k2 := c1 * 6 + c.d3, k1 * 6 + d3;
    assert c2 == k2;
    assert c1 == k1 && c.d3 == d3;
  }

  /** The second size starts at the first. */
  lemma SkipRows(p: Params, found: seq<Candidate>, d1: nat)
    requires d1 < 6 && Covers(p, found, CellRank(d1, 0, 0, 0))
    ensures Covers(p, found, CellRank(d1, d1, 0, 0))
  {
    var lo, hi := CellRank(d1, 0, 0, 0), CellRank(d1, d1, 0, 0);
    forall c: Candidate | Qualifies(p, c) ensures !(lo <= Rank(c) < hi) {
      if lo <= Rank(c) < hi {
        RowDigits(c, d1);
      }
    }
    CoversSkip(p, found, lo, hi);
  }

  lemma RowDigits(c: Candidate, d1: nat)
    requires c.d2 < 6 && c.d3 < 6 && c.t < 3 && c.bw < 4 && d1 < 6
    requires CellRank(d1, 0, 0, 0) <= Rank(c) < CellRank(d1, d1, 0, 0)
    ensures c.d1 == d1 && c.d2 < d1
  {
    var c1 := c.d1 * 6 + c.d2;
    assert d1 * 6 <= c1 < d1 * 6 + d1;
  }

  /** The third size starts at the second. */
  lemma SkipColumns(p: Params, found: seq<Candidate>, d1: nat, d2: nat)
    requires d1 <= d2 < 6 && Covers(p, found, CellRank(d1, d2, 0, 0))
    ensures Covers(p, found, CellRank(d1, d2, d2, 0))
  {
    var lo, hi := CellRank(d1, d2, 0, 0), CellRank(d1, d2, d2, 0);
    forall c: Candidate | Qualifies(p, c) ensures !(lo <= Rank(c) < hi) {
      if lo <= Rank(c) < hi {
        ColumnDigits(c, d1, d2);
      }
    }
    CoversSkip(p, found, lo, hi);
  }

  lemma ColumnDigits(c: Candidate, d1: nat, d2: nat)
    requires c.d2 < 6 && c.d3 < 6 && c.t < 3 && c.bw < 4 && d2 < 6
    requires CellRank(d1, d2, 0, 0) <= Rank(c) < CellRank(d1, d2, d2, 0)
    ensures c.d1 == d1 && c.d2 == d2 && c.d3 < d2
  {
    var c1, k1 := c.d1 * 6 + c.d2, d1 * 6 + d2;
    var c2 := c1 * 6 + c.d3;
    assert k1 * 6 <= c2 < k1 * 6 + d2;
    assert c1 == k1;
  }

  lemma SkipOne(p: Params, found: seq<Candidate>, k: Candidate)
    requires Covers(p, found, Rank(k)) && !Qualifies(p, k)
    requires k.d2 < 6 && k.d3 < 6 && k.t < 3 && k.bw < 4
    ensures Covers(p, found, Rank(k) + 1)
  {
    forall c: Candidate | Qualifies(p, c) ensures !(Rank(k) <= Rank(c) < Rank(k) + 1) {
      if Rank(c) == Rank(k) {
        RankIsInjective(c, k);
      }
    }
    CoversSkip(p, found, Rank(k), Rank(k) + 1);
  }

  lemma SkipBandwidths(p: Params, found: seq<Candidate>, d1: nat, d2: nat, d3: nat, t: nat, bw: nat)
    requires d2 < 6 && d3 < 6 && t < 3 && MaxIndex(p, Count(d1, d2, d3)) < bw <= 4
    requires Covers(p, found, Rank(Candidate(d1, d2, d3, t, bw, false)))
    ensures Covers(p, found, Rank(Candidate(d1, d2, d3, t, 4, false)))
  {
    var lo, hi := Rank(Candidate(d1, d2, d3, t, bw, false)), Rank(Candidate(d1, d2, d3, t, 4, false));
    forall c: Candidate | Qualifies(p, c) ensures !(lo <= Rank(c) < hi) {
      if lo <= Rank(c) < hi {
        RankDigits(c, d1, d2, d3, t);
      }
    }
    CoversSkip(p, found, lo, hi);
  }

  /** The ranks of one combination and type are eight consecutive numbers. */
  lemma RankDigits(c: Candidate, d1: nat, d2: nat, d3: nat, t: nat)
    requires c.d2 < 6 && c.d3 < 6 && c.t < 3 && c.bw < 4 && d2 < 6 && d3 < 6 && t < 3
    requires Rank(Candidate(d1, d2, d3, t, 0, false)) <= Rank(c) < Rank(Candidate(d1, d2, d3, t, 4, false))
    ensures c.d1 == d1 && c.d2 == d2 && c.d3 == d3 && c.t == t
  {
    var c1, k1 := c.d1 * 6 + c.d2, d1 * 6 + d2;
    var c2, k2 := c1 * 6 + c.d3, k1 * 6 + d3;
    var c3, k3 := c2 * 3 + c.t, k2 * 3 + t;
    assert c3 == k3;
    assert c2 == k2 && c.t == t;
    assert c1 == k1 && c.d3 == d3;
  }

  /** No two collected channels are equal. */
  lemma BuildIsInjective(p: Params, c: Candidate, k: Candidate)
    requires Qualifies(p, c) && Qualifies(p, k) && Build(p, c) == Build(p, k)
    ensures c == k
  {
    SlotsAreTableSizes(c);
    SlotsAreTableSizes(k);
    SlotTally(c);
    SlotTally(k);
    BwIndexInvertsTable(p.io, c.bw, 0);
    BwIndexInvertsTable(p.io, k.bw, 0);
    var h, g := Histogram(Slots(c)), Histogram(Slots(k));
    assert h == g;
    SortedTriple(c, k, h);
  }

  function Hits(k: Candidate, d: nat): nat {
    (if k.d1 == d then 1 else 0) + (if k.d2 == d then 1 else 0) + (if k.d3 == d then 1 else 0)
  }

  lemma SlotTally(k: Candidate)
    requires k.d1 < 6 && k.d2 < 6 && k.d3 < 6
    ensures Fits(Slots(k))
    ensures forall bin :: 0 <= bin < 5 ==> Histogram(Slots(k))[bin] == Hits(k, bin + 1)
  {
    SlotsAreTableSizes(k);
    forall bin: nat | bin < 5 ensures Histogram(Slots(k))[bin] == Hits(k, bin + 1) {
      SlotTallyAt(k, bin);
    }
  }

  lemma SlotTallyAt(k: Candidate, bin: nat)
    requires k.d1 < 6 && k.d2 < 6 && k.d3 < 6 && Fits(Slots(k)) && bin < 5
    ensures Tally(Slots(k), bin) == Hits(k, bin + 1)
  {
    SlotBin(k.d1);
    SlotBin(k.d2);
    SlotBin(k.d3);
    TallyThree(DimmSize(k.d1), DimmSize(k.d2), DimmSize(k.d3), bin);
  }

  lemma TallyThree(a: int, b: int, c: int, bin: nat)
    requires Fits([a]) && Fits([b]) && Fits([c]) && Fits([a, b, c])
    ensures Tally([a, b, c], bin) == Tally([a], bin) + Tally([b], bin) + Tally([c], bin)
  {
    assert [a, b, c][..2] == [a, b] && [a, b][..1] == [a] && [a][..0] == [] == [b][..0] == [c][..0];
  }

  lemma SortedTriple(c: Candidate, k: Candidate, h: seq<nat>)
    requires c.d1 <= c.d2 <= c.d3 < 6 && k.d1 <= k.d2 <= k.d3 < 6
    requires |h| == 5 && forall bin :: 0 <= bin < 5 ==> h[bin] == Hits(c, bin + 1) && h[bin] == Hits(k, bin + 1)
    ensures c.d1 == k.d1 && c.d2 == k.d2 && c.d3 == k.d3
  {
    HitsTotal(c);
    HitsTotal(k);
    forall d: nat | d < 6 ensures Hits(c, d) == Hits(k, d) {
      assert d > 0 ==> h[d - 1] == Hits(c, d);
      assert h[0] + h[1] + h[2] + h[3] + h[4] + Hits(c, 0) == 3;
    }
    OuterHits(c, k);
    assert Hits(c, c.d2) == Hits(k, c.d2);
  }

  lemma HitsTotal(c: Candidate)
    requires c.d1 < 6 && c.d2 < 6 && c.d3 < 6
    ensures Hits(c, 0) + Hits(c, 1) + Hits(c, 2) + Hits(c, 3) + Hits(c, 4) + Hits(c, 5) == 3
  {
  }

  lemma OuterHits(c: Candidate, k: Candidate)
    requires c.d1 <= c.d2 <= c.d3 < 6 && k.d1 <= k.d2 <= k.d3 < 6
    requires forall d: nat :: d < 6 ==> Hits(c, d) == Hits(k, d)
    ensures c.d1 == k.d1 && c.d3 == k.d3
  {
    assert Hits(c, k.d1) > 0 && Hits(c, k.d3) > 0;
    assert Hits(k, c.d1) > 0 && Hits(k, c.d3) > 0;
  }

  // ---------- the channels of a list of candidates ----------

  function BuildAll(p: Params, found: seq<Candidate>): (cs: seq<Channel>)
    requires forall k :: k in found ==> k.bw < 4
  {
    seq(|found|, i requires 0 <= i < |found| => assert found[i] in found; Build(p, found[i]))
  }
}
