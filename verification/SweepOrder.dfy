/** The index space of calc_time_mt_wrapper: its decoding, its order, and its division among threads. */
module SweepOrder {
  import opened BasicCircuit
  import opened Sorting
  import opened Arrays

  /** One partition handed to calculate_time. */
  datatype Point = Point(nspd: real, wt: int, ndwl: int, ndbl: int, ndcm: int, ndsam1: int, ndsam2: int)

  /** What calculate_time reports for a valid partition. */
  datatype Evaluation = Invalid | Valid(degBlMuxing: int, figures: Measures)

  /** The limits of the search, and calculate_time as an arbitrary pure function. */
  datatype Space = Space(
    nspdMin: real, maxNspd: real, wtMin: int, wtMax: int,
    maxDataN: nat, maxColMux: nat,
    evaluate: Point -> Evaluation)

  predicate WellFormed(sp: Space) {
    sp.nspdMin > 0.0 && sp.maxDataN >= 1 && sp.maxColMux >= 1
  }

  // ---------- decoding the flat index ----------

  /** The three digits of `iter`, most significant first. */
  function Decode(iter: nat, b: nat, m: nat): (nat, nat, nat)
    requires b > 0 && m > 0
  {
    (iter / Times(b, m), (iter / m) % b, iter % m)
  }

  function Times(b: nat, m: nat): (r: nat)
    requires b > 0 && m > 0
    ensures r > 0
  {
    assert b * m >= 1 * m by { TimesMonotone(1, b, m); }
    b * m
  }

  lemma TimesMonotone(x: nat, y: nat, m: nat)
    requires x <= y
    ensures x * m <= y * m
  {
    assert y * m == x * m + (y - x) * m;
  }

  function Encode(x: nat, y: nat, z: nat, b: nat, m: nat): nat {
    (x * b + y) * m + z
  }

  lemma DivMod(q: nat, m: nat, z: nat)
    requires z < m
    ensures (q * m + z) / m == q && (q * m + z) % m == z
  {
    var d := (q * m + z) / m;
    assert q * m + z == d * m + (q * m + z) % m;
    if d < q {
      LessTimes(d, q, m);
    } else if q < d {
      LessTimes(q, d, m);
    }
  }

  lemma Regroup(x: nat, y: nat, b: nat, m: nat)
    ensures (x * b + y) * m == x * (b * m) + y * m
  {
    MulAssociates(x, b, m);
  }

  /** Two digits below the leading one leave less than the product of their radices. */
  lemma LowDigits(y: nat, z: nat, b: nat, m: nat)
    requires y < b && z < m
    ensures y * m + z < Times(b, m)
  {
    LessTimes(y, b, m);
  }

  lemma DecodeEncodeLeading(x: nat, y: nat, z: nat, b: nat, m: nat)
    requires y < b && z < m
    ensures Encode(x, y, z, b, m) / Times(b, m) == x
  {
    Regroup(x, y, b, m);
    LowDigits(y, z, b, m);
    DivMod(x, Times(b, m), y * m + z);
  }

  /** The decoding is a bijection between the flat indices and the triples of digits. */
  lemma DecodeEncode(x: nat, y: nat, z: nat, b: nat, m: nat)
    requires y < b && z < m
    ensures Decode(Encode(x, y, z, b, m), b, m) == (x, y, z)
  {
    DivMod(x * b + y, m, z);
    DivMod(x, b, y);
    DecodeEncodeLeading(x, y, z, b, m);
  }

  lemma EncodeDecode(iter: nat, w: nat, b: nat, m: nat)
    requires b > 0 && m > 0
    ensures var (x, y, z) := Decode(iter, b, m);
            y < b && z < m && Encode(x, y, z, b, m) == iter && (iter < w * b * m <==> x < w)
  {
    var d := Digits(iter, b, m);
    var x, y, z := d.0, d.1, d.2;
    DecodeEncode(x, y, z, b, m);
    Regroup(x, y, b, m);
    LowDigits(y, z, b, m);
    LeadingDigit(x, w, Times(b, m), y * m + z);
    MulAssociates(w, b, m);
  }

  /** The digits found by dividing twice. */
  lemma Digits(iter: nat, b: nat, m: nat) returns (d: (nat, nat, nat))
    requires b > 0 && m > 0
    ensures d.1 < b && d.2 < m && Encode(d.0, d.1, d.2, b, m) == iter
  {
    d := ((iter / m) / b, (iter / m) % b, iter % m);
    Quotient(iter, m);
    Quotient(iter / m, b);
  }

  lemma Quotient(n: nat, m: nat)
    requires m > 0
    ensures n / m * m + n % m == n
  {
  }

  lemma LeadingDigit(x: nat, w: nat, r: nat, rest: nat)
    requires rest < r
    ensures x * r + rest < w * r <==> x < w
  {
    if x < w {
      LessTimes(x, w, r);
    } else {
      TimesMonotone(w, x, r);
    }
  }

  /** The loop `for (iter = tid; iter < niter; iter += nthreads)` comes to `iter`. */
  ghost predicate Strides(tid: nat, nthreads: nat, iter: nat) {
    exists j: nat :: iter == j * nthreads + tid
  }

  /** Every triple belongs to exactly one index, and exactly one thread comes to that index. */
  lemma ThreadOfTriple(x: nat, y: nat, z: nat, w: nat, b: nat, m: nat, nthreads: nat)
    requires x < w && y < b && z < m && nthreads > 0
    ensures exists iter: nat ::
              && iter < w * b * m && Decode(iter, b, m) == (x, y, z)
              && (forall other: nat :: Decode(other, b, m) == (x, y, z) ==> other == iter)
              && (forall tid: nat :: tid < nthreads ==> (Strides(tid, nthreads, iter) <==> tid == iter % nthreads))
  {
    var iter := Encode(x, y, z, b, m);
    DecodeEncode(x, y, z, b, m);
    EncodeDecode(iter, w, b, m);
    forall other: nat | Decode(other, b, m) == (x, y, z) ensures other == iter {
      EncodeDecode(other, w, b, m);
    }
    forall tid: nat | tid < nthreads ensures Strides(tid, nthreads, iter) <==> tid == iter % nthreads {
      StridesByRemainder(tid, nthreads, iter);
    }
  }

  lemma StridesByRemainder(tid: nat, nthreads: nat, iter: nat)
    requires tid < nthreads
    ensures Strides(tid, nthreads, iter) <==> tid == iter % nthreads
  {
    assert iter == iter / nthreads * nthreads + iter % nthreads;
    forall j: nat | iter == j * nthreads + tid ensures tid == iter % nthreads {
      DivMod(j, nthreads, tid);
    }
  }

  // ---------- positions ----------

  /** Where the nested loops stand: doublings of Nspd, wire type, flat index, doublings of Ndsam. */
  datatype Pos = Pos(a: nat, wt: int, iter: nat, e1: nat, e2: nat)

  function Radix(maxN: nat): nat
    requires maxN >= 1
  {
    Log2(maxN) + 1
  }

  function Iterations(sp: Space): nat
    requires WellFormed(sp)
  {
    Radix(sp.maxDataN) * Radix(sp.maxDataN) * Radix(sp.maxColMux)
  }

  /** Nspd after `a` doublings. */
  function NspdAt(sp: Space, a: nat): real {
    if a == 0 then sp.nspdMin else NspdAt(sp, a - 1) * 2.0
  }

  function PointAt(sp: Space, pos: Pos): Point
    requires WellFormed(sp)
  {
    var (x, y, z) := Decode(pos.iter, Radix(sp.maxDataN), Radix(sp.maxColMux));
    Point(NspdAt(sp, pos.a), pos.wt, Pow2(x), Pow2(y), Pow2(z), Pow2(pos.e1), Pow2(pos.e2))
  }

  function Record(pt: Point, ev: Evaluation): MemArray
    requires ev.Valid?
  {
    MemArray(pt.ndwl, pt.ndbl, pt.nspd, ev.degBlMuxing, pt.ndsam1, pt.ndsam2, pt.wt, ev.figures)
  }

  predicate IsValid(sp: Space, pos: Pos)
    requires WellFormed(sp)
  {
    sp.evaluate(PointAt(sp, pos)).Valid?
  }

  /** The array recorded for a valid position. */
  function ArrayAt(sp: Space, pos: Pos): MemArray
    requires WellFormed(sp) && IsValid(sp, pos)
  {
    Record(PointAt(sp, pos), sp.evaluate(PointAt(sp, pos)))
  }

  predicate InRange(sp: Space, pos: Pos)
    requires WellFormed(sp)
  {
    && NspdAt(sp, pos.a) <= sp.maxNspd
    && sp.wtMin <= pos.wt <= sp.wtMax
    && pos.iter < Iterations(sp)
    && Pow2(pos.e1) <= sp.maxColMux && Pow2(pos.e2) <= sp.maxColMux
  }

  /** The order in which the nested loops meet the positions. */
  predicate Before(p: Pos, q: Pos) {
    || p.a < q.a
    || (p.a == q.a &&
        (|| p.wt < q.wt
         || (p.wt == q.wt &&
             (|| p.iter < q.iter
              || (p.iter == q.iter && (p.e1 < q.e1 || (p.e1 == q.e1 && p.e2 < q.e2)))))))
  }

  /** Thread `tid` of `n` looks at this position, and calculate_time accepts it. */
  predicate Takes(sp: Space, n: nat, tid: nat, pos: Pos)
    requires WellFormed(sp) && n > 0
  {
    InRange(sp, pos) && pos.iter % n == tid && IsValid(sp, pos)
  }

  /** `seen` lists what the thread takes before `cursor`, each position once, in loop order. */
  ghost predicate SweptTo(sp: Space, n: nat, tid: nat, seen: seq<Pos>, cursor: Pos)
    requires WellFormed(sp) && n > 0
  {
    && LoopOrdered(seen)
    && (forall pos {:trigger Accounted(sp, n, tid, seen, cursor, pos)} :: Accounted(sp, n, tid, seen, cursor, pos))
  }

  ghost predicate LoopOrdered(seen: seq<Pos>) {
    forall i, j :: 0 <= i < j < |seen| ==> Before(seen[i], seen[j])
  }

  ghost predicate Accounted(sp: Space, n: nat, tid: nat, seen: seq<Pos>, cursor: Pos, pos: Pos)
    requires WellFormed(sp) && n > 0
  {
    pos in seen <==> Takes(sp, n, tid, pos) && Before(pos, cursor)
  }

  /** The whole share of a thread. */
  ghost predicate Share(sp: Space, n: nat, tid: nat, seen: seq<Pos>)
    requires WellFormed(sp) && n > 0
  {
    && LoopOrdered(seen)
    && (forall pos :: pos in seen <==> Takes(sp, n, tid, pos))
  }

  lemma SweptMove(sp: Space, n: nat, tid: nat, seen: seq<Pos>, c: Pos, d: Pos)
    requires WellFormed(sp) && n > 0 && SweptTo(sp, n, tid, seen, c)
    requires forall pos :: Takes(sp, n, tid, pos) ==> (Before(pos, c) <==> Before(pos, d))
    ensures SweptTo(sp, n, tid, seen, d)
  {
    forall pos ensures Accounted(sp, n, tid, seen, d, pos) {
      assert Accounted(sp, n, tid, seen, c, pos);
    }
  }

  /** One turn of the innermost loop. */
  lemma SweptVisit(sp: Space, n: nat, tid: nat, seen: seq<Pos>, c: Pos)
    requires WellFormed(sp) && n > 0 && SweptTo(sp, n, tid, seen, c)
    requires InRange(sp, c) && c.iter % n == tid
    ensures SweptTo(sp, n, tid, if IsValid(sp, c) then seen + [c] else seen, c.(e2 := c.e2 + 1))
  {
    var next := c.(e2 := c.e2 + 1);
    var seen' := if IsValid(sp, c) then seen + [c] else seen;
    forall pos: Pos ensures Accounted(sp, n, tid, seen', next, pos) {
      assert Accounted(sp, n, tid, seen, c, pos);
      assert Before(pos, next) <==> Before(pos, c) || pos == c;
    }
    forall i | 0 <= i < |seen| ensures Before(seen[i], c) {
      assert Accounted(sp, n, tid, seen, c, seen[i]);
    }
  }

  /** Strides of `n` starting at the thread's number meet every index that leaves that remainder. */
  lemma StrideSkipsNothing(i: nat, j: nat, n: nat)
    requires n > 0 && i < j < i + n
    ensures i % n != j % n
  {
    var q, z := i / n, i % n;
    assert i == q * n + z;
    if z == j % n {
      var r := j / n;
      assert j == r * n + z;
      SameRemainder(q, r, z, n);
    }
  }

  lemma StrideKeepsRemainder(i: nat, n: nat)
    requires n > 0
    ensures (i + n) % n == i % n
  {
    var q, z := i / n, i % n;
    assert i == q * n + z;
    NextStride(q, z, n);
  }

  lemma NextStride(q: nat, z: nat, n: nat)
    requires z < n
    ensures (q * n + z + n) % n == z
  {
    DivMod(q + 1, n, z);
    assert (q + 1) * n == q * n + n;
  }

  lemma SameRemainder(q: nat, r: nat, z: nat, n: nat)
    ensures !(q * n + z < r * n + z < q * n + z + n)
  {
    if q < r {
      LessTimes(q, r, n);
    } else {
      TimesMonotone(r, q, n);
    }
  }

  // ---------- all threads together ----------

  /** Every valid position of the space, once. */
  ghost predicate Complete(sp: Space, all: seq<Pos>)
    requires WellFormed(sp)
  {
    NoDuplicates(all) && forall pos :: pos in all <==> InRange(sp, pos) && IsValid(sp, pos)
  }

  ghost predicate CompleteUpTo(sp: Space, n: nat, t: nat, all: seq<Pos>)
    requires WellFormed(sp) && n > 0
  {
    NoDuplicates(all) && forall pos :: pos in all <==> InRange(sp, pos) && IsValid(sp, pos) && pos.iter % n < t
  }

  lemma BeforeIsStrict(seen: seq<Pos>)
    requires LoopOrdered(seen)
    ensures NoDuplicates(seen)
  {
  }

  /** Adding the share of the next thread. */
  lemma ShareJoins(sp: Space, n: nat, t: nat, all: seq<Pos>, seen: seq<Pos>)
    requires WellFormed(sp) && t < n && CompleteUpTo(sp, n, t, all) && Share(sp, n, t, seen)
    ensures CompleteUpTo(sp, n, t + 1, all + seen)
  {
    BeforeIsStrict(seen);
    forall i, j | 0 <= i < |all| && 0 <= j < |seen| ensures all[i] != seen[j] {
      assert all[i] in all && seen[j] in seen;
    }
  }

  /** The shares of all threads hold every valid position exactly once. */
  lemma SharesAreComplete(sp: Space, n: nat, all: seq<Pos>)
    requires WellFormed(sp) && n > 0 && CompleteUpTo(sp, n, n, all)
    ensures Complete(sp, all)
  {
  }

  /** So however many threads sweep, they record the same positions, up to order. */
  lemma SweepsAgree(sp: Space, all: seq<Pos>, other: seq<Pos>)
    requires WellFormed(sp) && Complete(sp, all) && Complete(sp, other)
    ensures multiset(all) == multiset(other)
  {
    SameMembersOnce(all, other);
  }
}
