/** The grid search, the bank size bound and the selection of `nuca.cc`. */
module Nuca {
  import opened BasicCircuit
  import opened Sorting
  import opened Arrays
  import opened Selection
  import opened Costs

  // ---------- the grid search of sim_nuca ----------

  /** What the search reads: hop latencies in cycles, the router's delay, the bank's cycles, and the bank count. */
  datatype Grid = Grid(bankCount: nat, verHopLat: int, horHopLat: int, routerDelay: real, bankCycles: int)

  /** `c` columns tile the banks. */
  predicate Tiles(g: Grid, c: nat) {
    0 < c <= g.bankCount && g.bankCount % c == 0
  }

  /** The latency of a tiling in closed form, with r rows and c columns. */
  function AccessLatency(g: Grid, r: nat, c: nat): real {
    (g.verHopLat * (r - 1) + g.horHopLat * (c - 1)) as real
    + g.routerDelay * (r + c) as real + g.bankCycles as real
  }

  lemma TriangleStep(m: int)
    ensures (m + 1) * m == m * (m - 1) + 2 * m
  {
  }

  /** The two inner loops: the hops and latencies summed over all banks of an r by c grid. */
  method SumHops(g: Grid, r: nat, c: nat) returns (hops: int, hhops: int, vhops: int, lat: int)
    ensures 2 * hhops == r * (c * (c - 1))
    ensures 2 * vhops == c * (r * (r + 1))
    ensures hops == hhops + vhops
    ensures lat == g.verHopLat * (vhops - r * c) + g.horHopLat * hhops
  {
    hops, hhops, vhops, lat := 0, 0, 0, 0;
    var i := 0;
    while i < r
      invariant 0 <= i <= r
      invariant 2 * hhops == i * (c * (c - 1))
      invariant 2 * vhops == c * (i * (i + 1))
      invariant hops == hhops + vhops
      invariant lat == g.verHopLat * (vhops - i * c) + g.horHopLat * hhops
    {
      ghost var h0, v0 := hhops, vhops;
      hops, hhops, vhops, lat := SumRow(g, i, c, hops, hhops, vhops, lat);
      RowStep(i, c);
      LatencyStep(g.verHopLat, g.horHopLat, i, c, v0, vhops, h0, hhops);
      i := i + 1;
    }
  }

  lemma LatencyStep(ver: int, hor: int, i: nat, c: nat, v0: int, v1: int, h0: int, h1: int)
    requires v1 == v0 + c * (i + 1)
    ensures ver * (v1 - (i + 1) * c) == ver * (v0 - i * c) + ver * (c * i)
    ensures hor * h1 == hor * h0 + hor * (h1 - h0)
  {
    assert v1 - (i + 1) * c == (v0 - i * c) + c * i;
  }

  lemma RowStep(i: nat, c: nat)
    ensures (i + 1) * (c * (c - 1)) == i * (c * (c - 1)) + c * (c - 1)
    ensures c * ((i + 1) * (i + 2)) == c * (i * (i + 1)) + 2 * (c * (i + 1))
    ensures (i + 1) * c == i * c + c
  {
    assert (i + 1) * (i + 2) == i * (i + 1) + 2 * (i + 1);
  }

  /** One row: bank (i, j) is i + 1 vertical and j horizontal hops away. */
  method SumRow(g: Grid, i: nat, c: nat, hops0: int, hhops0: int, vhops0: int, lat0: int)
    returns (hops: int, hhops: int, vhops: int, lat: int)
    ensures 2 * hhops == 2 * hhops0 + c * (c - 1)
    ensures vhops == vhops0 + c * (i + 1)
    ensures hops - hops0 == hhops - hhops0 + vhops - vhops0
    ensures lat == lat0 + g.verHopLat * (c * i) + g.horHopLat * (hhops - hhops0)
  {
    hops, hhops, vhops, lat := hops0, hhops0, vhops0, lat0;
    var j := 0;
    while j < c
      invariant 0 <= j <= c
      invariant 2 * hhops == 2 * hhops0 + j * (j - 1)
      invariant vhops == vhops0 + j * (i + 1)
      invariant hops - hops0 == hhops - hhops0 + vhops - vhops0
      invariant lat == lat0 + g.verHopLat * (j * i) + g.horHopLat * (hhops - hhops0)
    {
      var currHop := i + 1;
      currHop := currHop + j;
      TriangleStep(j);
      BankStep(g.verHopLat, g.horHopLat, i, j, hhops - hhops0);
      hhops := hhops + j;
      vhops := vhops + (i + 1);
      lat := lat + (i * g.verHopLat + j * g.horHopLat);
      hops := hops + currHop;
      j := j + 1;
    }
  }

  lemma BankStep(ver: int, hor: int, i: nat, j: nat, h: int)
    ensures (j + 1) * (i + 1) == j * (i + 1) + (i + 1)
    ensures ver * ((j + 1) * i) == ver * (j * i) + i * ver
    ensures hor * (h + j) == hor * h + j * hor
  {
    assert (j + 1) * i == j * i + i;
  }

  /** The averages in closed form: half of r + c hops, and half of ver (r - 1) + hor (c - 1) cycles. */
  lemma AveragesInClosedForm(g: Grid, r: nat, c: nat, hops: int, hhops: int, vhops: int, lat: int)
    requires r * c == g.bankCount > 0
    requires 2 * hhops == r * (c * (c - 1)) && 2 * vhops == c * (r * (r + 1)) && hops == hhops + vhops
    requires lat == g.verHopLat * (vhops - r * c) + g.horHopLat * hhops
    ensures 2.0 * (hops as real / g.bankCount as real) == (r + c) as real
    ensures 2.0 * (lat as real / g.bankCount as real) == (g.verHopLat * (r - 1) + g.horHopLat * (c - 1)) as real
  {
    var n := g.bankCount;
    HopSums(r, c, hhops, vhops);
    assert 2 * lat == g.verHopLat * (2 * (vhops - n)) + g.horHopLat * (2 * hhops);
    LatencySum(g.verHopLat, g.horHopLat, n, r, c);
    Average(hops, r + c, n);
    Average(lat, g.verHopLat * (r - 1) + g.horHopLat * (c - 1), n);
  }

  lemma HopSums(r: nat, c: nat, hhops: int, vhops: int)
    requires 2 * hhops == r * (c * (c - 1)) && 2 * vhops == c * (r * (r + 1))
    ensures 2 * hhops == r * c * (c - 1)
    ensures 2 * (vhops - r * c) == r * c * (r - 1)
    ensures 2 * (hhops + vhops) == r * c * (r + c)
  {
    assert c * (r * (r + 1)) == r * c * (r + 1);
    assert r * c * (r + 1) == r * c * (r - 1) + 2 * (r * c);
    assert r * c * (r + c) == r * c * (c - 1) + r * c * (r + 1);
  }

  lemma LatencySum(ver: int, hor: int, n: nat, r: int, c: int)
    ensures ver * (n * (r - 1)) + hor * (n * (c - 1)) == n * (ver * (r - 1) + hor * (c - 1))
  {
    assert ver * (n * (r - 1)) == n * (ver * (r - 1));
    assert hor * (n * (c - 1)) == n * (hor * (c - 1));
  }

  lemma Average(total: int, twice: int, n: nat)
    requires n > 0 && 2 * total == n * twice
    ensures 2.0 * (total as real / n as real) == twice as real
  {
    assert 2.0 * total as real == n as real * twice as real;
  }

  /**
   What the closed form charges: the router twice and the bank for one bank alone; for a further row a vertical
   hop and a router, for a further column a horizontal hop and a router.
   */
  lemma LatencyGrows(g: Grid, r: nat, c: nat)
    requires r >= 1 && c >= 1
    ensures AccessLatency(g, 1, 1) == 2.0 * g.routerDelay + g.bankCycles as real
    ensures AccessLatency(g, r + 1, c) == AccessLatency(g, r, c) + g.verHopLat as real + g.routerDelay
    ensures AccessLatency(g, r, c + 1) == AccessLatency(g, r, c) + g.horHopLat as real + g.routerDelay
  {
    assert g.verHopLat * r == g.verHopLat * (r - 1) + g.verHopLat;
    assert g.horHopLat * c == g.horHopLat * (c - 1) + g.horHopLat;
    OneMoreRouter(g.routerDelay, r + c);
  }

  lemma OneMoreRouter(x: real, n: nat)
    ensures x * (n + 1) as real == x * n as real + x
  {
    assert (n + 1) as real == n as real + 1.0;
  }

  /** The recorded optimum after looking at `visited`: strictly better ones replace it. */
  ghost predicate GridBest(f: nat -> real, start: real, visited: seq<nat>, acclat: real, cols: nat) {
    if forall c :: c in visited ==> f(c) >= start then acclat == start
    else
      && cols in visited && acclat == f(cols) < start
      && forall c :: c in visited ==> acclat <= f(c) && (c < cols ==> acclat < f(c))
  }

  /** The latency of the tiling with `c` columns. */
  function Latency(g: Grid): nat -> real {
    (c: nat) => if Tiles(g, c) then AccessLatency(g, g.bankCount / c, c) else 0.0
  }

  /** `visited` holds the tilings with fewer than `limit` columns, in ascending order. */
  ghost predicate TilingsBelow(g: Grid, visited: seq<nat>, limit: nat) {
    && (forall i, j :: 0 <= i < j < |visited| ==> visited[i] < visited[j])
    && (forall c: nat :: c in visited <==> Tiles(g, c) && c < limit)
  }

  /**
   The loop over column counts. It starts from the optimum recorded before (INF or BIGNUM) and
   visits exactly the divisors of the bank count.
   */
  method GridSearch(g: Grid, start: real, rows0: nat, cols0: nat)
    returns (acclat: real, rows: nat, cols: nat, ghost visited: seq<nat>)
    ensures TilingsBelow(g, visited, g.bankCount + 1)
    ensures GridBest(Latency(g), start, visited, acclat, cols)
    ensures if acclat == start then rows == rows0 && cols == cols0 else Tiles(g, cols) && rows == g.bankCount / cols
  {
    acclat, rows, cols, visited := start, rows0, cols0, [];
    var c := 1;
    while c <= g.bankCount
      invariant 1 <= c
      invariant TilingsBelow(g, visited, c)
      invariant GridBest(Latency(g), start, visited, acclat, cols)
      invariant acclat <= start
      invariant if acclat == start then rows == rows0 && cols == cols0 else Tiles(g, cols) && rows == g.bankCount / cols
    {
      c := NextDivisor(g, c, visited);
      var r, currAcclat := MeasureGrid(g, c);
      TilingsStep(g, visited, c);
      GridStep(Latency(g), start, visited, acclat, cols, c);
      if currAcclat < acclat {
        acclat, rows, cols := currAcclat, r, c;
      }
      visited := visited + [c];
      c := c + 1;
    }
  }

  /** The latency of one grid, computed bank by bank. */
  method MeasureGrid(g: Grid, c: nat) returns (r: nat, currAcclat: real)
    requires Tiles(g, c)
    ensures r == g.bankCount / c && currAcclat == Latency(g)(c)
  {
    r := g.bankCount / c;
    Quotient(g.bankCount, c);
    var hops, hhops, vhops, lat := SumHops(g, r, c);
    AveragesInClosedForm(g, r, c, hops, hhops, vhops, lat);
    var avgLat := lat as real / g.bankCount as real;
    var avgHop := hops as real / g.bankCount as real;
    currAcclat := 2.0 * avgLat + 2.0 * (g.routerDelay * avgHop) + g.bankCycles as real;
    LatencyFromAverages(g, r, c, avgLat, avgHop);
  }

  lemma LatencyFromAverages(g: Grid, r: nat, c: nat, avgLat: real, avgHop: real)
    requires 2.0 * avgHop == (r + c) as real
    requires 2.0 * avgLat == (g.verHopLat * (r - 1) + g.horHopLat * (c - 1)) as real
    ensures 2.0 * avgLat + 2.0 * (g.routerDelay * avgHop) + g.bankCycles as real == AccessLatency(g, r, c)
  {
    assert 2.0 * (g.routerDelay * avgHop) == g.routerDelay * (2.0 * avgHop);
  }

  lemma Quotient(n: nat, c: nat)
    requires c > 0 && n % c == 0
    ensures n / c * c == n
  {
  }

  /** The inner `while` that steps to the next divisor. */
  method NextDivisor(g: Grid, c0: nat, ghost visited: seq<nat>) returns (c: nat)
    requires 1 <= c0 <= g.bankCount && TilingsBelow(g, visited, c0)
    ensures c0 <= c && Tiles(g, c) && TilingsBelow(g, visited, c)
  {
    c := c0;
    assert g.bankCount % g.bankCount == 0;
    while g.bankCount % c != 0
      invariant c0 <= c <= g.bankCount && TilingsBelow(g, visited, c)
      decreases g.bankCount - c
    {
      c := c + 1;
    }
  }

  lemma TilingsStep(g: Grid, visited: seq<nat>, c: nat)
    requires TilingsBelow(g, visited, c) && Tiles(g, c)
    ensures TilingsBelow(g, visited + [c], c + 1)
    ensures forall d :: d in visited ==> d < c
  {
    assert forall i :: 0 <= i < |visited| ==> visited[i] in visited;
  }

  lemma GridStep(f: nat -> real, start: real, visited: seq<nat>, acclat: real, cols: nat, c: nat)
    requires GridBest(f, start, visited, acclat, cols) && acclat <= start
    requires forall d :: d in visited ==> d < c
    ensures f(c) < acclat ==> GridBest(f, start, visited + [c], f(c), c)
    ensures f(c) >= acclat ==> GridBest(f, start, visited + [c], acclat, cols)
  {
    assert c in visited + [c];
    assert forall d :: d in visited + [c] <==> d in visited || d == c;
  }

  /** So the recorded grid is the fastest factorisation of the bank count, with the fewest columns among equals. */
  lemma GridOptimum(g: Grid, start: real, visited: seq<nat>, acclat: real, rows: nat, cols: nat, r: nat, c: nat)
    requires TilingsBelow(g, visited, g.bankCount + 1) && GridBest(Latency(g), start, visited, acclat, cols)
    requires acclat != start ==> Tiles(g, cols) && rows == g.bankCount / cols
    requires r * c == g.bankCount > 0 && AccessLatency(g, r, c) < start
    ensures rows * cols == g.bankCount
    ensures AccessLatency(g, rows, cols) == acclat <= AccessLatency(g, r, c)
    ensures AccessLatency(g, r, c) == acclat ==> cols <= c
  {
    FactorTiles(g, r, c);
    assert c in visited && Latency(g)(c) < start;
    assert cols in visited;
    Quotient(g.bankCount, cols);
  }

  lemma FactorTiles(g: Grid, r: nat, c: nat)
    requires r * c == g.bankCount > 0
    ensures Tiles(g, c) && g.bankCount / c == r
  {
    if r == 0 || c == 0 {
      NoBanks(r, c);
    }
    ExactQuotient(r, c);
    assert c * r == r * c;
    if c > g.bankCount {
      LessTimes(0, r, c);
    }
    ExactRemainder(r, c);
  }

  lemma NoBanks(r: nat, c: nat)
    requires r == 0 || c == 0
    ensures r * c == 0
  {
  }

  lemma ExactRemainder(q: nat, c: nat)
    requires c > 0
    ensures q * c % c == 0
  {
    ExactQuotient(q, c);
    assert q * c == c * (q * c / c) + q * c % c;
  }

  // ---------- the lower bound on the bank size ----------

  class BankSize {
    var minBanksize: nat

    constructor ()
      ensures minBanksize == 65536
    {
      minBanksize := 65536;
    }

    /** error_checking admits powers of two only; for them the loop ends, having doubled assoc / 2 times over. */
    method ScaleForAssociativity(assoc: nat)
      requires assoc > 2 ==> IsPow2(assoc)
      modifies this
      ensures minBanksize == if assoc > 2 then old(minBanksize) * (assoc / 2) else old(minBanksize)
    {
      if assoc > 2 {
        ghost var k := ExponentOf(assoc);
        ghost var j := 1;
        var i := 2;
        while i != assoc
          invariant 1 <= j <= k && i == Pow2(j)
          invariant minBanksize == old(minBanksize) * Pow2(j - 1)
          decreases k - j
        {
          if j == k {
            assert false;
          }
          DoubleFactor(old(minBanksize), j);
          minBanksize := minBanksize * 2;
          i := i * 2;
          j := j + 1;
        }
        Pow2Injective(j, k);
      }
    }
  }

  lemma ExponentOf(assoc: nat) returns (k: nat)
    requires assoc > 2 && IsPow2(assoc)
    ensures k >= 2 && assoc == Pow2(k)
  {
    IsPow2Correct(assoc);
    k :| assoc == Pow2(k);
    assert Pow2(0) == 1 && Pow2(1) == 2;
  }

  lemma DoubleFactor(m: nat, j: nat)
    requires j >= 1
    ensures m * Pow2(j - 1) * 2 == m * Pow2(j)
  {
  }

  /** The loop variable of `while (i != assoc)` after so many turns. */
  function AfterTurns(turns: nat): nat {
    if turns == 0 then 2 else AfterTurns(turns - 1) * 2
  }

  lemma {:induction false} AfterTurnsIsPower(turns: nat)
    ensures AfterTurns(turns) == Pow2(turns + 1)
  {
    if turns > 0 {
      AfterTurnsIsPower(turns - 1);
    }
  }

  /** The loop ends just when is_pow2 accepts `assoc`; for any other value above 2 it runs on for ever. */
  lemma BankLoopEnds(assoc: nat)
    requires assoc > 2
    ensures (exists turns: nat :: AfterTurns(turns) == assoc) <==> IsPow2(assoc)
  {
    IsPow2Correct(assoc);
    if IsPow2(assoc) {
      var k := ExponentOf(assoc);
      AfterTurnsIsPower(k - 1);
    }
    forall turns: nat | AfterTurns(turns) == assoc ensures IsPow2(assoc) {
      AfterTurnsIsPower(turns);
    }
  }

  // ---------- find_optimal_nuca ----------

  datatype NucaOrg = NucaOrg(bankCount: nat, router: nat, rows: nat, columns: nat, pda: Pda)

  function NucaProduct(ed: int, min: Pda): NucaOrg -> real
    requires Positive(min)
  {
    (n: NucaOrg) => ProductCost(ed, min, n.pda)
  }

  function NucaWeighted(cr: Criteria, min: Pda): NucaOrg -> real
    requires Positive(min)
  {
    (n: NucaOrg) => WeightedCost(cr, min, n.pda)
  }

  function NucaAdmissible(cr: Criteria, min: Pda): NucaOrg -> bool
    requires Positive(min)
  {
    (n: NucaOrg) => Check(cr, min, n.pda)
  }

  /** With positive minima; the repair of a zero leakage minimum is then never taken. */
  method FindOptimalNuca(list: CandidateList<NucaOrg>, ed: int, cr: Criteria, min: Pda)
    returns (res: Option<NucaOrg>, ghost trail: seq<NucaOrg>)
    requires Positive(min)
    modifies list
    ensures ed == 1 || ed == 2 ==>
              list.items == old(list.items) && FirstBest(old(list.items), NucaProduct(ed, min), res)
    ensures ed != 1 && ed != 2 ==>
              var ok, cost := NucaAdmissible(cr, min), NucaWeighted(cr, min);
              && trail == Visits(old(list.items), NucaDropsHead(ok, old(list.items)))
              && FirstBest(trail, Effective(ok, cost), res)
              && list.items == Passed(old(list.items), NucaDropsHead(ok, old(list.items))) + Filter(ok, trail)
    ensures ed != 1 && ed != 2 ==>
              var ok, eff := NucaAdmissible(cr, min), Effective(NucaAdmissible(cr, min), NucaWeighted(cr, min));
              Cheapest(old(list.items), eff, res) <==>
              !(NucaDropsHead(ok, old(list.items)) && SecondIsBest(old(list.items), eff))
  {
    trail := [];
    if ed == 1 || ed == 2 {
      res := list.ScanProduct(NucaProduct(ed, min));
    } else {
      res, trail := list.ScanNuca(NucaAdmissible(cr, min), NucaWeighted(cr, min));
      ScanIsCheapestUnlessSecond(old(list.items), Effective(NucaAdmissible(cr, min), NucaWeighted(cr, min)),
                                 NucaDropsHead(NucaAdmissible(cr, min), old(list.items)), res);
    }
  }

  /** Modes 1 and 2: the least energy times delay, or times delay squared, of all organisations. */
  lemma NucaLeastProduct(orgs: seq<NucaOrg>, ed: int, min: Pda, r: NucaOrg, u: NucaOrg)
    requires Positive(min) && FirstBest(orgs, NucaProduct(ed, min), Some(r)) && u in orgs
    ensures ed == 1 ==> r.pda.delay * r.pda.dynamic <= u.pda.delay * u.pda.dynamic
    ensures ed == 2 ==> r.pda.delay * (r.pda.delay * r.pda.dynamic) <= u.pda.delay * (u.pda.delay * u.pda.dynamic)
  {
    FirstBestIsCheapest(orgs, NucaProduct(ed, min), Some(r));
    ProductInFigures(ed, min, r.pda, u.pda);
  }

  /** Weighted: of the admissible organisations looked at, none has less of the only figure weighed. */
  lemma NucaLeastWeighted(looked: seq<NucaOrg>, cr: Criteria, min: Pda, r: NucaOrg, u: NucaOrg)
    requires Positive(min) && FirstBest(looked, Effective(NucaAdmissible(cr, min), NucaWeighted(cr, min)), Some(r))
    requires u in looked && NucaAdmissible(cr, min)(u)
    ensures NucaAdmissible(cr, min)(r) && LessByOnlyWeight(cr, r.pda, u.pda)
  {
    FirstBestIsCheapest(looked, Effective(NucaAdmissible(cr, min), NucaWeighted(cr, min)), Some(r));
    LeastAdmissible(NucaPda, cr, min, NucaAdmissible(cr, min), NucaWeighted(cr, min), looked, r, u);
  }

  function SingleBank(router: nat, v: real): NucaOrg { NucaOrg(1, router, 1, 1, Pda(v, v, v, v, v)) }

  function NucaPda(n: NucaOrg): Pda { n.pda }

  /**
   One bank count and wire type with the three routers: a rejected first organisation hides the only
   admissible one, and nothing is returned.
   */
  lemma RejectedHeadHidesSecond(cr: Criteria, s: seq<NucaOrg>, r: Option<NucaOrg>)
    requires cr == Criteria(1.0, 1.0, 1.0, 1.0, 1.0, 50.0, 50.0, 50.0, 50.0, 50.0)
    requires s == [SingleBank(0, 2.0), SingleBank(1, 1.0), SingleBank(2, 2.0)]
    requires FirstBest(Visits(s, NucaDropsHead(NucaAdmissible(cr, s[1].pda), s)),
                       Effective(NucaAdmissible(cr, s[1].pda), NucaWeighted(cr, s[1].pda)), r)
    ensures MinOver(Map(NucaPda, s)) == s[1].pda
    ensures r == None && NucaAdmissible(cr, s[1].pda)(s[1])
  {
    var min := s[1].pda;
    assert !Check(cr, min, s[0].pda) && Check(cr, min, s[1].pda) && !Check(cr, min, s[2].pda);
    assert Visits(s, true) == [s[0], s[2]];
    ThreeMinimum(s[0].pda, s[1].pda, s[2].pda);
    assert Map(NucaPda, s) == [s[0].pda, s[1].pda, s[2].pda];
  }
}
