// The two searches of tools/decision_metrics.py over the reals: golden-section search for
// the temperature (72-93) and bisection for the exact binomial interval (151-174).
module Calibration {
  import opened Arithmetic

  const STEPS: nat := 70
  const HALVINGS: nat := 65

  function Pow(x: real, n: nat): real
    decreases n
  {
    if n == 0 then 1.0 else x * Pow(x, n - 1)
  }

  // ---- the golden section --------------------------------------------------------------

  /** The positive root of r * r == 1 - r. */
  predicate Golden(r: real) { 0.0 < r && r * r == 1.0 - r }

  lemma GoldenIs(r: real)
    requires Golden(r)
    ensures 0.6 < r < 0.62
  {
    if r <= 0.6 {
      Squares(r, 0.6);
    } else if r >= 0.62 {
      Squares(0.62, r);
    }
  }

  lemma Squares(x: real, y: real)
    requires 0.0 < x <= y
    ensures x * x <= y * y
  {
    if x < y {
      RealMul(x, x, y);
      RealMul(y, x, y);
    }
  }

  /** Both probes stand at the golden positions of the bracket. */
  predicate Probes(r: real, lower: real, upper: real, a: real, b: real) {
    && lower < upper
    && a == upper - r * (upper - lower)
    && b == lower + r * (upper - lower)
  }

  lemma ProbesInside(r: real, lower: real, upper: real, a: real, b: real)
    requires Golden(r) && Probes(r, lower, upper, a, b)
    ensures lower < a < b < upper
  {
    GoldenIs(r);
    Part(upper - lower, r);
    hide Golden;
    Inside(lower, upper, r * (upper - lower), a, b);
  }

  lemma Inside(lower: real, upper: real, part: real, a: real, b: real)
    requires a == upper - part && b == lower + part && 0.5 * (upper - lower) < part < upper - lower
    ensures lower < a < b < upper
  {
  }

  lemma Part(w: real, r: real)
    requires w > 0.0 && 0.6 < r < 0.62
    ensures 0.5 * w < r * w < w
  {
    RealMul(w, r, 1.0);
    RealMul(w, 0.5, r);
  }

  lemma Scaled(w: real, p: real, q: real)
    requires w > 0.0 && 0.0 < p <= q
    ensures 0.0 < p * w <= q * w
  {
    RealMul(w, 0.0, p);
    if p < q {
      RealMul(w, p, q);
    }
  }

  /** Dropping the part right of b, or left of a, leaves the other probe in place. */
  lemma ProbesStep(r: real, lower: real, upper: real, a: real, b: real)
    requires Golden(r) && Probes(r, lower, upper, a, b)
    ensures b - lower == r * (upper - lower) && a == lower + r * (b - lower)
    ensures upper - a == r * (upper - lower) && b == upper - r * (upper - a)
  {
    var w := upper - lower;
    assert r * (r * w) == (1.0 - r) * w by {
      Associate(r, r, w);
    }
    assert (1.0 - r) * w == w - r * w;
  }

  lemma Associate(x: real, y: real, z: real)
    ensures x * (y * z) == (x * y) * z
  {
  }

  /** A loss that falls strictly up to m and rises strictly after it. */
  ghost predicate Unimodal(loss: real -> real, lo: real, hi: real, m: real) {
    && lo <= m <= hi
    && (forall x, y :: lo <= x < y <= m ==> loss(x) > loss(y))
    && forall x, y :: m <= x < y <= hi ==> loss(x) < loss(y)
  }

  /** Comparing the probes tells on which side the minimiser is. */
  lemma Side(loss: real -> real, lo: real, hi: real, m: real, a: real, b: real)
    requires Unimodal(loss, lo, hi, m) && lo <= a < b <= hi
    ensures loss(a) < loss(b) ==> m <= b
    ensures loss(a) >= loss(b) ==> a <= m
  {
  }

  ghost predicate KeepsMinimiser(loss: real -> real, lo: real, hi: real, lower: real, upper: real) {
    forall m :: Unimodal(loss, lo, hi, m) ==> lower <= m <= upper
  }

  lemma StillKeeps(loss: real -> real, lo: real, hi: real, lower: real, upper: real, a: real, b: real)
    requires KeepsMinimiser(loss, lo, hi, lower, upper) && lo <= lower <= a < b <= upper <= hi
    ensures loss(a) < loss(b) ==> KeepsMinimiser(loss, lo, hi, lower, b)
    ensures loss(a) >= loss(b) ==> KeepsMinimiser(loss, lo, hi, a, upper)
  {
    forall m | Unimodal(loss, lo, hi, m)
      ensures loss(a) < loss(b) ==> m <= b
      ensures loss(a) >= loss(b) ==> a <= m
    {
      Side(loss, lo, hi, m, a, b);
    }
  }

  /** Everything the search keeps after n steps. */
  ghost predicate Searching(loss: real -> real, r: real, lo: real, hi: real, n: nat, lower: real, upper: real,
      a: real, b: real) {
    && lo <= lower && upper <= hi
    && Probes(r, lower, upper, a, b)
    && upper - lower == Pow(r, n) * (hi - lo)
    && KeepsMinimiser(loss, lo, hi, lower, upper)
  }

  lemma SearchStarts(loss: real -> real, r: real, lo: real, hi: real)
    requires lo < hi
    ensures Searching(loss, r, lo, hi, 0, lo, hi, hi - r * (hi - lo), lo + r * (hi - lo))
  {
  }

  lemma SearchSteps(loss: real -> real, r: real, lo: real, hi: real, n: nat, lower: real, upper: real, a: real, b: real)
    requires Golden(r) && Searching(loss, r, lo, hi, n, lower, upper, a, b)
    ensures loss(a) < loss(b) ==> Searching(loss, r, lo, hi, n + 1, lower, b, b - r * (b - lower), a)
    ensures loss(a) >= loss(b) ==> Searching(loss, r, lo, hi, n + 1, a, upper, b, a + r * (upper - a))
  {
    ProbesInside(r, lower, upper, a, b);
    ProbesStep(r, lower, upper, a, b);
    StillKeeps(loss, lo, hi, lower, upper, a, b);
    hide KeepsMinimiser, Golden;
    Associate(r, Pow(r, n), hi - lo);
    assert Pow(r, n + 1) == r * Pow(r, n);
  }

  /** The candidate with the least loss, the smallest of those with equal loss. */
  function Best(loss: real -> real, xs: seq<real>): (x: real)
    requires xs != []
    ensures x in xs && forall y <- xs :: loss(x) < loss(y) || (loss(x) == loss(y) && x <= y)
    decreases |xs|
  {
    if |xs| == 1 then xs[0]
    else
      var x := Best(loss, xs[1..]);
      assert forall y <- xs :: y == xs[0] || y in xs[1..];
      if loss(xs[0]) < loss(x) || (loss(xs[0]) == loss(x) && xs[0] <= x) then xs[0] else x
  }

  method FitTemperature(loss: real -> real, r: real, lo: real, hi: real)
    returns (best: real, logT: real, ghost lower: real, ghost upper: real)
    requires Golden(r) && lo < 0.0 < hi
    ensures lo <= logT <= hi && best == loss(logT)
    ensures best <= loss(0.0) && best <= loss(lo) && best <= loss(hi) && best <= loss((lower + upper) / 2.0)
    ensures lo <= lower <= upper <= hi && upper - lower == Width(r, STEPS, hi - lo)
    ensures KeepsMinimiser(loss, lo, hi, lower, upper)
  {
    hide Pow, Golden, KeepsMinimiser, Searching, Width, Best;
    var l, u := lo, hi;
    var a, b := u - r * (u - l), l + r * (u - l);
    var fa, fb := loss(a), loss(b);
    SearchStarts(loss, r, lo, hi);
    for n := 0 to STEPS
      invariant Searching(loss, r, lo, hi, n, l, u, a, b)
      invariant fa == loss(a) && fb == loss(b)
    {
      SearchSteps(loss, r, lo, hi, n, l, u, a, b);
      if fa < fb {
        u, b, fb := b, a, fa;
        a := u - r * (u - l);
        fa := loss(a);
      } else {
        l, a, fa := a, b, fb;
        b := l + r * (u - l);
        fb := loss(b);
      }
    }
    lower, upper := l, u;
    SearchEnds(loss, r, lo, hi, l, u, a, b);
    var candidates := [lo, hi, 0.0, (l + u) / 2.0];
    logT := Best(loss, candidates);
    best := loss(logT);
    BestOfFour(loss, lo, hi, 0.0, (l + u) / 2.0);
  }

  lemma BestOfFour(loss: real -> real, x: real, y: real, z: real, w: real)
    ensures var best := Best(loss, [x, y, z, w]);
            && best in [x, y, z, w]
            && loss(best) <= loss(x) && loss(best) <= loss(y) && loss(best) <= loss(z) && loss(best) <= loss(w)
  {
    var xs := [x, y, z, w];
    assert x in xs && y in xs && z in xs && w in xs;
    hide Best;
    var best := Best(loss, xs);
  }

  lemma SearchEnds(loss: real -> real, r: real, lo: real, hi: real, l: real, u: real, a: real, b: real)
    requires Searching(loss, r, lo, hi, STEPS, l, u, a, b)
    ensures lo <= l < u <= hi && u - l == Width(r, STEPS, hi - lo) && KeepsMinimiser(loss, lo, hi, l, u)
  {
    hide Pow, KeepsMinimiser;
  }

  lemma {:induction false} PowFive(r: real, n: nat)
    requires Golden(r)
    ensures 0.0 < Pow(r, 5 * n) <= Pow(0.1, n)
    decreases n
  {
    if n == 0 {
    } else {
      PowFive(r, n - 1);
      GoldenIs(r);
      FifthPower(r, Pow(r, 5 * (n - 1)));
      var q := Pow(r, 5 * (n - 1));
      PowUnfold(r, 5 * (n - 1));
      hide Pow, Golden;
      assert Pow(r, 5 * n) == (5.0 * r - 3.0) * q;
      RealMul(q, 0.0, 5.0 * r - 3.0);
      RealMul(q, 5.0 * r - 3.0, 0.1);
      PowOne(0.1, n);
    }
  }

  lemma PowOne(x: real, n: nat)
    requires n > 0
    ensures Pow(x, n) == x * Pow(x, n - 1)
  {
  }

  lemma PowUnfold(r: real, k: nat)
    ensures Pow(r, k + 5) == r * (r * (r * (r * (r * Pow(r, k)))))
  {
    PowOne(r, k + 5);
    PowOne(r, k + 4);
    PowOne(r, k + 3);
    PowOne(r, k + 2);
    PowOne(r, k + 1);
  }

  /** Five steps shrink the bracket to less than a tenth: r to the fifth is 5 r - 3. */
  lemma FifthPower(r: real, q: real)
    requires Golden(r)
    ensures r * (r * (r * (r * (r * q)))) == (5.0 * r - 3.0) * q
  {
    Twice(r, q);
    Twice(r, r * q);
    Twice(r, r * (r * q));
    Twice(r, r * (r * (r * q)));
  }

  lemma Twice(r: real, q: real)
    requires Golden(r)
    ensures r * (r * q) == q - r * q
  {
    Associate(r, r, q);
  }

  /** A length after n steps. */
  function Width(r: real, n: nat, w: real): real { Pow(r, n) * w }

  lemma FiveTenth(r: real, n: nat, steps: nat, w: real)
    requires Golden(r) && steps == 5 * n && w > 0.0
    ensures 0.0 < Width(r, steps, w) <= Width(0.1, n, w)
  {
    PowFive(r, n);
    hide Pow, Golden;
    Scaled(w, Pow(r, steps), Pow(0.1, n));
  }

  /** The middle of the final bracket is within 10^-14 of the search width of the minimiser
      of any unimodal loss. */
  lemma MinimiserFound(loss: real -> real, r: real, lo: real, hi: real, lower: real, upper: real, m: real)
    requires Golden(r) && lo < hi && upper - lower == Width(r, STEPS, hi - lo)
    requires KeepsMinimiser(loss, lo, hi, lower, upper) && Unimodal(loss, lo, hi, m)
    ensures m - Width(0.1, 14, hi - lo) <= (lower + upper) / 2.0 <= m + Width(0.1, 14, hi - lo)
  {
    FiveTenth(r, 14, STEPS, hi - lo);
    hide Pow, Golden, Unimodal, Width;
    assert lower <= m <= upper;
  }

  // ---- the bisection ---------------------------------------------------------------------

  function Half(n: nat): (w: real)
    ensures w > 0.0
    decreases n
  {
    if n == 0 then 1.0 else Half(n - 1) / 2.0
  }

  /** P(X <= k) as a function of p: 1 at 0, 0 at 1, and never rising between. */
  ghost predicate Falling(cdf: real -> real) {
    && cdf(0.0) == 1.0 && cdf(1.0) == 0.0
    && forall p, q :: 0.0 <= p <= q <= 1.0 ==> cdf(p) >= cdf(q)
  }

  /** The place where a falling function drops to the level, to a distance: above it
      everywhere further left, at most it everywhere further right. */
  ghost predicate DropsAt(cdf: real -> real, level: real, x: real, distance: real) {
    && 0.0 <= x <= 1.0
    && (forall p :: 0.0 <= p <= x - distance ==> cdf(p) > level)
    && forall p :: x + distance <= p <= 1.0 ==> cdf(p) <= level
  }

  /** The middle of the bracket that n halvings leave of [lo, hi]. */
  function Bisected(cdf: real -> real, level: real, lo: real, hi: real, n: nat): real
    decreases n
  {
    var mid := (lo + hi) / 2.0;
    if n == 0 then mid
    else if cdf(mid) > level then Bisected(cdf, level, mid, hi, n - 1)
    else Bisected(cdf, level, lo, mid, n - 1)
  }

  method Bisect(cdf: real -> real, level: real) returns (x: real)
    requires Falling(cdf) && 0.0 <= level < 1.0
    ensures x == Bisected(cdf, level, 0.0, 1.0, HALVINGS)
    ensures DropsAt(cdf, level, x, Half(HALVINGS + 1))
  {
    hide Half, DropsAt, Bisected;
    var lo, hi := 0.0, 1.0;
    HalfNone();
    for n := 0 to HALVINGS
      invariant 0.0 <= lo <= hi <= 1.0 && hi - lo == Half(n)
      invariant cdf(lo) > level && cdf(hi) <= level
      invariant Bisected(cdf, level, lo, hi, HALVINGS - n) == Bisected(cdf, level, 0.0, 1.0, HALVINGS)
    {
      var mid := (lo + hi) / 2.0;
      HalfOne(n);
      BisectedOne(cdf, level, lo, hi, HALVINGS - n);
      if cdf(mid) > level {
        lo := mid;
      } else {
        hi := mid;
      }
    }
    x := (lo + hi) / 2.0;
    HalfOne(HALVINGS);
    BisectedOne(cdf, level, lo, hi, 0);
    Bracketed(cdf, level, lo, hi);
  }

  lemma BisectedOne(cdf: real -> real, level: real, lo: real, hi: real, n: nat)
    ensures var mid := (lo + hi) / 2.0;
      Bisected(cdf, level, lo, hi, n)
      == if n == 0 then mid
         else if cdf(mid) > level then Bisected(cdf, level, mid, hi, n - 1)
         else Bisected(cdf, level, lo, mid, n - 1)
  {
  }

  lemma HalfNone()
    ensures Half(0) == 1.0
  {
  }

  lemma HalfOne(n: nat)
    ensures Half(n + 1) == Half(n) / 2.0
  {
  }

  lemma Bracketed(cdf: real -> real, level: real, lo: real, hi: real)
    requires Falling(cdf) && 0.0 <= lo <= hi <= 1.0 && cdf(lo) > level && cdf(hi) <= level
    ensures DropsAt(cdf, level, (lo + hi) / 2.0, (hi - lo) / 2.0)
  {
    forall p | 0.0 <= p <= (lo + hi) / 2.0 - (hi - lo) / 2.0
      ensures cdf(p) > level
    {
      assert p <= lo;
    }
    forall p | (lo + hi) / 2.0 + (hi - lo) / 2.0 <= p <= 1.0
      ensures cdf(p) <= level
    {
      assert hi <= p;
    }
  }

  lemma {:induction false} BisectedInside(cdf: real -> real, level: real, lo: real, hi: real, n: nat)
    requires lo <= hi
    ensures lo <= Bisected(cdf, level, lo, hi, n) <= hi
    decreases n
  {
    if n == 0 {
    } else {
      var mid := (lo + hi) / 2.0;
      BisectedInside(cdf, level, mid, hi, n - 1);
      BisectedInside(cdf, level, lo, mid, n - 1);
    }
  }

  /** Of two searches in one bracket, the one with the larger function and the lower level
      never ends further left: both halve the same grid, and part for good at the first
      middle they judge differently. */
  lemma {:induction false} InOrder(f: real -> real, g: real -> real, a: real, b: real, lo: real, hi: real, n: nat)
    requires 0.0 <= lo <= hi <= 1.0 && b <= a
    requires forall p :: 0.0 <= p <= 1.0 ==> f(p) <= g(p)
    ensures Bisected(f, a, lo, hi, n) <= Bisected(g, b, lo, hi, n)
    decreases n
  {
    if n == 0 {
    } else {
      var mid := (lo + hi) / 2.0;
      assert f(mid) <= g(mid);
      InOrder(f, g, a, b, mid, hi, n - 1);
      InOrder(f, g, a, b, lo, mid, n - 1);
      BisectedInside(f, a, lo, mid, n - 1);
      BisectedInside(g, b, mid, hi, n - 1);
    }
  }

  // ---- where the bisection ends -----------------------------------------------------------

  /** Halving part i of the k-th grid gives parts 2 * i and 2 * i + 1 of the next. */
  lemma Halved(i: nat, k: nat)
    ensures (2 * i) as real * Half(k + 1) == i as real * Half(k)
    ensures (2 * i + 1) as real * Half(k + 1) == (i as real * Half(k) + (i + 1) as real * Half(k)) / 2.0
    ensures (2 * i + 2) as real * Half(k + 1) == (i + 1) as real * Half(k)
  {
    HalfOne(k);
  }

  /** The search ends in the middle of a part of the last grid. */
  lemma {:induction false} EndsInPart(cdf: real -> real, level: real, lo: real, hi: real, i: nat, k: nat, n: nat)
    returns (j: nat, left: real, right: real)
    requires lo == i as real * Half(k) && hi == (i + 1) as real * Half(k) && cdf(lo) > level >= cdf(hi)
    ensures left == j as real * Half(k + n) && right == (j + 1) as real * Half(k + n) && lo <= left <= right <= hi
    ensures cdf(left) > level >= cdf(right)
    ensures Bisected(cdf, level, lo, hi, n) == (left + right) / 2.0
    decreases n
  {
    hide Half, Bisected;
    Halved(i, k);
    var mid := (lo + hi) / 2.0;
    BisectedOne(cdf, level, lo, hi, n);
    if n == 0 {
      j, left, right := i, lo, hi;
    } else if cdf(mid) > level {
      j, left, right := EndsInPart(cdf, level, mid, hi, 2 * i + 1, k + 1, n - 1);
    } else {
      j, left, right := EndsInPart(cdf, level, lo, mid, 2 * i, k + 1, n - 1);
    }
  }

  /** 2^65 */
  const PARTS: nat := 36893488147419103232

  /** The function drops to the level in part j of 2^65 equal parts of [0, 1]. */
  ghost predicate DropsIn(cdf: real -> real, level: real, j: nat) {
    j < PARTS && cdf(j as real / PARTS as real) > level >= cdf((j + 1) as real / PARTS as real)
  }

  lemma ThirteenTimes(n: nat)
    ensures Half(n + 13) == Half(n) / 8192.0
  {
    hide Half;
    HalfOne(n); HalfOne(n + 1); HalfOne(n + 2); HalfOne(n + 3); HalfOne(n + 4); HalfOne(n + 5); HalfOne(n + 6);
    HalfOne(n + 7); HalfOne(n + 8); HalfOne(n + 9); HalfOne(n + 10); HalfOne(n + 11); HalfOne(n + 12);
  }

  lemma PartIs()
    ensures Half(HALVINGS) == 1.0 / PARTS as real
  {
    hide Half;
    HalfNone();
    ThirteenTimes(0);
    ThirteenTimes(13);
    ThirteenTimes(26);
    ThirteenTimes(39);
    ThirteenTimes(52);
  }

  /** A falling function drops in one part only. */
  lemma OnePart(cdf: real -> real, level: real, i: nat, j: nat)
    requires Falling(cdf) && DropsIn(cdf, level, i) && j < PARTS && i != j
    ensures !DropsIn(cdf, level, j)
  {
    if i < j {
      OnGrid(i + 1, j);
      assert cdf((i + 1) as real / PARTS as real) >= cdf(j as real / PARTS as real);
    } else {
      OnGrid(j + 1, i);
      assert cdf((j + 1) as real / PARTS as real) >= cdf(i as real / PARTS as real);
    }
  }

  lemma OnGrid(i: nat, j: nat)
    requires i <= j <= PARTS
    ensures 0.0 <= i as real / PARTS as real <= j as real / PARTS as real <= 1.0
  {
  }

  /** Where the search ends: in the middle of the one of 2^65 parts in which the function drops. */
  lemma BisectedExactly(cdf: real -> real, level: real, j: nat)
    requires Falling(cdf) && 0.0 <= level < 1.0 && j < PARTS
    ensures Bisected(cdf, level, 0.0, 1.0, HALVINGS) == (2 * j + 1) as real / (2 * PARTS) as real
       <==> DropsIn(cdf, level, j)
  {
    hide Bisected, Half, Falling, DropsIn;
    var i := EndPart(cdf, level);
    if i != j {
      OnePart(cdf, level, i, j);
      assert (2 * i + 1) as real != (2 * j + 1) as real;
    }
  }

  lemma EndPart(cdf: real -> real, level: real) returns (i: nat)
    requires Falling(cdf) && 0.0 <= level < 1.0
    ensures DropsIn(cdf, level, i)
    ensures Bisected(cdf, level, 0.0, 1.0, HALVINGS) == (2 * i + 1) as real / (2 * PARTS) as real
  {
    hide Bisected, Half;
    HalfNone();
    PartIs();
    var left, right;
    i, left, right := EndsInPart(cdf, level, 0.0, 1.0, 0, 0, HALVINGS);
    assert left == i as real / PARTS as real && right == (i + 1) as real / PARTS as real;
  }

  /** More successes are at least as likely not to be exceeded. */
  ghost predicate Cumulative(cdf: int -> real -> real, n: nat) {
    forall i, j, p :: 0 <= i <= j < n && 0.0 <= p <= 1.0 ==> cdf(i)(p) <= cdf(j)(p)
  }

  /** The interval of k successes in n, with P(X <= k) given. */
  method ExactInterval(n: nat, k: nat, cdf: int -> real -> real, alpha: real) returns (lower: real, upper: real)
    requires k <= n && 0.0 < alpha < 1.0
    requires (forall j :: 0 <= j < n ==> Falling(cdf(j))) && Cumulative(cdf, n)
    ensures k == 0 ==> lower == 0.0
    ensures k == n ==> upper == 1.0
    ensures k > 0 ==> DropsAt(cdf(k - 1), 1.0 - alpha / 2.0, lower, Half(HALVINGS + 1))
    ensures k < n ==> DropsAt(cdf(k), alpha / 2.0, upper, Half(HALVINGS + 1))
    ensures 0.0 <= lower <= upper <= 1.0
  {
    hide Falling, DropsAt, Bisected;
    lower, upper := 0.0, 1.0;
    if k > 0 {
      lower := Bisect(cdf(k - 1), 1.0 - alpha / 2.0);
      BisectedInside(cdf(k - 1), 1.0 - alpha / 2.0, 0.0, 1.0, HALVINGS);
    }
    if k < n {
      upper := Bisect(cdf(k), alpha / 2.0);
      BisectedInside(cdf(k), alpha / 2.0, 0.0, 1.0, HALVINGS);
      if k > 0 {
        InOrder(cdf(k - 1), cdf(k), 1.0 - alpha / 2.0, alpha / 2.0, 0.0, 1.0, HALVINGS);
      }
    }
  }
}
