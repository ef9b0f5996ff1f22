/** The figures that channels, BoBs and memories carry, and the orders `memcad.cc` puts on them. */
module Metrics {
  import opened Sorting

  datatype Metric = Cost | Bandwidth | Energy

  /** The user's ranking of the metrics; nothing stops a metric from appearing twice. */
  datatype Ranking = Ranking(first: Metric, second: Metric, third: Metric)

  datatype Figures = Figures(capacity: int, cost: real, bandwidth: int, energy: real)

  const ZERO := Figures(0, 0.0, 0, 0.0)

  const EPS: real := 0.0000001

  function Plus(x: Figures, y: Figures): Figures {
    Figures(x.capacity + y.capacity, x.cost + y.cost, x.bandwidth + y.bandwidth, x.energy + y.energy)
  }

  // ---------- the comparison as written ----------

  function Abs(x: real): real { if x < 0.0 then -x else x }

  /** The test that guards each `return` in compare_channels, compare_bobs and compare_memories. */
  predicate Differ(m: Metric, x: Figures, y: Figures) {
    match m
    case Cost => x.cost != y.cost
    case Bandwidth => x.bandwidth != y.bandwidth
    case Energy => Abs(x.energy - y.energy) > EPS
  }

  /** The value each `return` delivers: cheaper, faster or thriftier comes first. */
  predicate Better(m: Metric, x: Figures, y: Figures) {
    match m
    case Cost => x.cost < y.cost
    case Bandwidth => x.bandwidth > y.bandwidth
    case Energy => x.energy < y.energy
  }

  /** The comparison the three `compare_*` functions share, tolerance and final `return true` included. */
  predicate Compare(o: Ranking, x: Figures, y: Figures) {
    if x.capacity != y.capacity then x.capacity < y.capacity
    else if Differ(o.first, x, y) then Better(o.first, x, y)
    else if Differ(o.second, x, y) then Better(o.second, x, y)
    else if Differ(o.third, x, y) then Better(o.third, x, y)
    else true
  }

  // ---------- the order it stands for ----------

  function Key(m: Metric, x: Figures): real {
    match m
    case Cost => x.cost
    case Bandwidth => -(x.bandwidth as real)
    case Energy => x.energy
  }

  /** Lexicographic comparison of the ranked metrics, without tolerance. */
  predicate NoWorse(o: Ranking, x: Figures, y: Figures) {
    || Key(o.first, x) < Key(o.first, y)
    || (Key(o.first, x) == Key(o.first, y) &&
        (|| Key(o.second, x) < Key(o.second, y)
         || (Key(o.second, x) == Key(o.second, y) && Key(o.third, x) <= Key(o.third, y))))
  }

  /** Capacity first, then the ranked metrics. */
  predicate Precedes(o: Ranking, x: Figures, y: Figures) {
    x.capacity < y.capacity || (x.capacity == y.capacity && NoWorse(o, x, y))
  }

  /** Same capacity and at least as good. */
  predicate Beats(o: Ranking, x: Figures, y: Figures) {
    x.capacity == y.capacity && NoWorse(o, x, y)
  }

  /** The tolerance is harmless for this pair. */
  predicate Separated(x: Figures, y: Figures) {
    x.capacity == y.capacity ==> x.energy == y.energy || Abs(x.energy - y.energy) > EPS
  }

  /** The code's comparison is the exact order under every ranking just when the tolerance is harmless. */
  lemma CompareIsExactIffSeparated(x: Figures, y: Figures)
    ensures Separated(x, y) <==>
            forall o: Ranking :: Compare(o, x, y) == Precedes(o, x, y) && Compare(o, y, x) == Precedes(o, y, x)
  {
    var e := Ranking(Energy, Energy, Energy);
    if !Separated(x, y) {
      assert Compare(e, x, y) && Compare(e, y, x);
      assert !(Precedes(e, x, y) && Precedes(e, y, x));
    }
  }

  /** The comparison answers true on equal figures, so it is not a strict order; and ties do not chain. */
  lemma CompareIsNoStrictOrder(o: Ranking, x: Figures)
    ensures Compare(o, x, x)
    ensures exists a, b, c: Figures ::
              && Compare(Ranking(Energy, Energy, Energy), c, b)
              && Compare(Ranking(Energy, Energy, Energy), b, a)
              && !Compare(Ranking(Energy, Energy, Energy), c, a)
  {
    var e := Ranking(Energy, Energy, Energy);
    var a := ZERO;
    var b := a.(energy := EPS);
    var c := a.(energy := 2.0 * EPS);
    assert Compare(e, c, b) && Compare(e, b, a) && !Compare(e, c, a);
  }

  // ---------- what the ranking means for the figures themselves ----------

  /** By this metric `x` is at least as good: no dearer, no slower, no hungrier. */
  ghost predicate AtLeast(m: Metric, x: Figures, y: Figures) {
    && (m == Cost ==> x.cost <= y.cost)
    && (m == Bandwidth ==> x.bandwidth >= y.bandwidth)
    && (m == Energy ==> x.energy <= y.energy)
  }

  /** A metric counts only among figures equal in the metrics ranked before it. */
  lemma BeatsInFigures(o: Ranking, x: Figures, y: Figures)
    ensures Beats(o, x, y) <==>
            && x.capacity == y.capacity && AtLeast(o.first, x, y)
            && (AtLeast(o.first, y, x) ==> AtLeast(o.second, x, y))
            && (AtLeast(o.first, y, x) && AtLeast(o.second, y, x) ==> AtLeast(o.third, x, y))
    ensures Beats(o, x, y) && o.first == Cost ==> x.cost <= y.cost
    ensures Beats(o, x, y) && o.first == Bandwidth ==> x.bandwidth >= y.bandwidth
    ensures Beats(o, x, y) && o.first == Energy ==> x.energy <= y.energy
  {
  }

  /**
   The comparison as written, on the figures: less capacity first; then the first metric decides, if
   the energies differ by more than the tolerance or the other figures at all; else the next one.
   */
  lemma CompareInFigures(o: Ranking, x: Figures, y: Figures)
    ensures x.capacity != y.capacity ==> (Compare(o, x, y) <==> x.capacity < y.capacity)
    ensures x.capacity == y.capacity ==>
              && (o.first == Cost && x.cost != y.cost ==> (Compare(o, x, y) <==> x.cost < y.cost))
              && (o.first == Bandwidth && x.bandwidth != y.bandwidth ==>
                    (Compare(o, x, y) <==> x.bandwidth > y.bandwidth))
              && (o.first == Energy && (x.energy > y.energy + 0.0000001 || x.energy < y.energy - 0.0000001) ==>
                    (Compare(o, x, y) <==> x.energy < y.energy))
    ensures (&& (o.first == Cost ==> x.cost == y.cost) && (o.first == Bandwidth ==> x.bandwidth == y.bandwidth)
             && (o.first == Energy ==> y.energy - 0.0000001 <= x.energy <= y.energy + 0.0000001)) ==>
              (Compare(o, x, y) <==> Compare(Ranking(o.second, o.third, o.first), x, y))
    ensures (&& x.capacity == y.capacity && x.cost == y.cost && x.bandwidth == y.bandwidth
             && y.energy - 0.0000001 <= x.energy <= y.energy + 0.0000001) ==>
              Compare(o, x, y)
  {
  }

  lemma BeatsIsPreorder(o: Ranking, x: Figures, y: Figures, z: Figures)
    ensures Beats(o, x, x)
    ensures Beats(o, x, y) && Beats(o, y, z) ==> Beats(o, x, z)
  {
  }

  /** The exact order is total and transitive, which is what a sort needs. */
  lemma ByFiguresIsTotalPreorder<T(!new)>(o: Ranking, f: T -> Figures)
    ensures TotalPreorder((x: T, y: T) => Precedes(o, f(x), f(y)))
  {
    var le := (x: T, y: T) => Precedes(o, f(x), f(y));
    forall x, y ensures Comparable(le, x, y) {
    }
    forall x, y, z ensures Chains(le, x, y, z) {
    }
  }

  /** Lexicographic order is compatible with addition: better parts make a better whole. */
  lemma BeatsAdds(o: Ranking, x: Figures, y: Figures, x': Figures, y': Figures)
    requires Beats(o, x, y) && Beats(o, x', y')
    ensures Beats(o, Plus(x, x'), Plus(y, y'))
  {
    KeyAdds(o.first, x, x');
    KeyAdds(o.first, y, y');
    KeyAdds(o.second, x, x');
    KeyAdds(o.second, y, y');
    KeyAdds(o.third, x, x');
    KeyAdds(o.third, y, y');
  }

  lemma KeyAdds(m: Metric, x: Figures, y: Figures)
    ensures Key(m, Plus(x, y)) == Key(m, x) + Key(m, y)
  {
  }

  // ---------- totals ----------

  /** What the constructors of bob_conf and memory_conf add up. */
  function Total(xs: seq<Figures>): Figures {
    if xs == [] then ZERO else Plus(Total(xs[..|xs| - 1]), xs[|xs| - 1])
  }

  /** Every figure of a whole is the sum of that figure over its parts. */
  lemma TotalInFigures(xs: seq<Figures>, x: Figures)
    ensures Total([]) == Figures(0, 0.0, 0, 0.0)
    ensures Total(xs + [x]).capacity == Total(xs).capacity + x.capacity
    ensures Total(xs + [x]).cost == Total(xs).cost + x.cost
    ensures Total(xs + [x]).bandwidth == Total(xs).bandwidth + x.bandwidth
    ensures Total(xs + [x]).energy == Total(xs).energy + x.energy
  {
    assert (xs + [x])[..|xs|] == xs;
  }

  /** The figures of `n` equal parts. */
  function Multiple(n: nat, x: Figures): Figures {
    Figures(n * x.capacity, n as real * x.cost, n * x.bandwidth, n as real * x.energy)
  }

  lemma MultipleNext(n: nat, x: Figures)
    ensures Multiple(0, x) == ZERO && Multiple(n + 1, x) == Plus(Multiple(n, x), x)
  {
    var k := n as real;
    assert (n + 1) as real == k + 1.0;
    assert (k + 1.0) * x.cost == k * x.cost + x.cost && (k + 1.0) * x.energy == k * x.energy + x.energy;
  }

  lemma MultiplePlus(n: nat, x: Figures, y: Figures)
    ensures Multiple(n, Plus(x, y)) == Plus(Multiple(n, x), Multiple(n, y)) && Multiple(n, ZERO) == ZERO
  {
    var k := n as real;
    assert k * (x.cost + y.cost) == k * x.cost + k * y.cost;
    assert k * (x.energy + y.energy) == k * x.energy + k * y.energy;
    assert n * (x.capacity + y.capacity) == n * x.capacity + n * y.capacity;
    assert n * (x.bandwidth + y.bandwidth) == n * x.bandwidth + n * y.bandwidth;
  }

  /** Replacing every part by one that beats it gives a total that beats the old total. */
  lemma {:induction false} TotalBeats(o: Ranking, xs: seq<Figures>, ys: seq<Figures>)
    requires |xs| == |ys|
    requires forall i :: 0 <= i < |xs| ==> Beats(o, xs[i], ys[i])
    ensures Beats(o, Total(xs), Total(ys))
  {
    if xs != [] {
      var n := |xs| - 1;
      TotalBeats(o, xs[..n], ys[..n]);
      BeatsAdds(o, Total(xs[..n]), Total(ys[..n]), xs[n], ys[n]);
    }
  }

  lemma {:induction false} TotalInsert(xs: seq<Figures>, k: nat, x: Figures)
    requires k <= |xs|
    ensures Total(xs[..k] + [x] + xs[k..]) == Plus(Total(xs), x)
  {
    var all := xs[..k] + [x] + xs[k..];
    if k == |xs| {
      assert all[..|xs|] == xs;
    } else {
      var n := |xs| - 1;
      TotalInsert(xs[..n], k, x);
      assert all[..n + 1] == xs[..n][..k] + [x] + xs[..n][k..];
    }
  }

  lemma {:induction false} TotalCapacityNonnegative(xs: seq<Figures>)
    requires forall x :: x in xs ==> x.capacity >= 0
    ensures Total(xs).capacity >= 0
  {
    if xs != [] {
      assert xs[|xs| - 1] in xs;
      TotalCapacityNonnegative(xs[..|xs| - 1]);
    }
  }
}
