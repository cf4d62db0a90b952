// The distribution-free interval of tools/bench_revision_ab.py: which order statistics
// bound the median, counted over all sign patterns, and what a verdict means.
module MedianInterval {
  import opened Arithmetic
  import opened Results
  import opened Sorting

  const COVERAGE := 0.95
  const MIN_CYCLES: nat := 6

  // ---- binomial counts ------------------------------------------------------------------

  function Comb(n: nat, k: nat): nat
    decreases n
  {
    if k == 0 then 1 else if n == 0 then 0 else Comb(n - 1, k - 1) + Comb(n - 1, k)
  }

  function Pow2(n: nat): (p: nat)
    ensures p > 0
    decreases n
  {
    if n == 0 then 1 else 2 * Pow2(n - 1)
  }

  /** The sum of the first k coefficients. */
  function Below(n: nat, k: nat): nat
    decreases k
  {
    if k == 0 then 0 else Below(n, k - 1) + Comb(n, k - 1)
  }

  lemma {:induction false} CombBeyond(n: nat, k: nat)
    requires k > n
    ensures Comb(n, k) == 0
    decreases n
  {
    if n == 0 {
    } else {
      CombBeyond(n - 1, k - 1);
      CombBeyond(n - 1, k);
    }
  }

  lemma {:induction false} CombSymmetric(n: nat, k: nat)
    requires k <= n
    ensures Comb(n, k) == Comb(n, n - k)
    decreases n
  {
    if k == 0 {
      CombDiagonal(n);
    } else if k == n {
      CombDiagonal(n);
    } else {
      CombSymmetric(n - 1, k - 1);
      CombSymmetric(n - 1, k);
    }
  }

  lemma {:induction false} CombDiagonal(n: nat)
    ensures Comb(n, n) == 1
    decreases n
  {
    if n == 0 {
    } else {
      CombDiagonal(n - 1);
      CombBeyond(n - 1, n);
    }
  }

  // ---- sign patterns ----------------------------------------------------------------------

  function Ones(p: seq<bool>): nat
    decreases |p|
  {
    if p == [] then 0 else Ones(p[1..]) + if p[0] then 1 else 0
  }

  /** All sign patterns of n cycles. */
  function Patterns(n: nat): set<seq<bool>>
    decreases n
  {
    if n == 0 then {[]} else Prefixed(true, Patterns(n - 1)) + Prefixed(false, Patterns(n - 1))
  }

  function Prefixed(b: bool, s: set<seq<bool>>): set<seq<bool>> { set p <- s :: [b] + p }

  lemma {:induction false} InPatterns(n: nat, p: seq<bool>)
    ensures p in Patterns(n) <==> |p| == n
    decreases n
  {
    if n == 0 {
    } else {
      if |p| == n {
        InPatterns(n - 1, p[1..]);
        assert p == [p[0]] + p[1..];
        assert p in Prefixed(p[0], Patterns(n - 1));
      }
      if p in Patterns(n) {
        var q :| q in Patterns(n - 1) && (p == [true] + q || p == [false] + q);
        InPatterns(n - 1, q);
      }
    }
  }

  lemma {:induction false} PrefixedSize(b: bool, s: set<seq<bool>>)
    ensures |Prefixed(b, s)| == |s|
    decreases |s|
  {
    if s != {} {
      var p :| p in s;
      PrefixedSize(b, s - {p});
      forall q <- Prefixed(b, s - {p})
        ensures q != [b] + p
      {
        assert ([b] + p)[1..] == p;
        var r :| r in s - {p} && q == [b] + r;
        assert q[1..] == r;
      }
      assert Prefixed(b, s) == Prefixed(b, s - {p}) + {[b] + p};
    }
  }

  lemma {:induction false} PatternsSize(n: nat)
    ensures |Patterns(n)| == Pow2(n)
    decreases n
  {
    if n == 0 {
    } else {
      var rest := Patterns(n - 1);
      PatternsSize(n - 1);
      PrefixedSize(true, rest);
      PrefixedSize(false, rest);
      PrefixedApart(rest, rest);
    }
  }

  lemma PrefixedApart(a: set<seq<bool>>, b: set<seq<bool>>)
    ensures Prefixed(true, a) !! Prefixed(false, b)
  {
    forall p | p in Prefixed(true, a)
      ensures p !in Prefixed(false, b)
    {
      assert p[0];
    }
  }

  /** The patterns with exactly j ones. */
  function WithOnes(n: nat, j: nat): set<seq<bool>> { set p <- Patterns(n) | Ones(p) == j }

  lemma {:induction false} WithOnesSize(n: nat, j: nat)
    ensures |WithOnes(n, j)| == Comb(n, j)
    decreases n
  {
    hide Ones, Patterns, WithOnes, Prefixed;
    if n == 0 {
      NoCycles(j);
    } else {
      WithOnesSize(n - 1, j);
      PrefixedSize(false, WithOnes(n - 1, j));
      if j == 0 {
        SplitNoOnes(n);
      } else {
        WithOnesSize(n - 1, j - 1);
        PrefixedSize(true, WithOnes(n - 1, j - 1));
        PrefixedApart(WithOnes(n - 1, j - 1), WithOnes(n - 1, j));
        SplitOnes(n, j);
      }
    }
  }

  lemma NoCycles(j: nat)
    ensures |WithOnes(0, j)| == Comb(0, j)
  {
    assert WithOnes(0, j) == if j == 0 then {[]} else {};
  }

  lemma OnesPrefixed(b: bool, p: seq<bool>)
    ensures Ones([b] + p) == Ones(p) + if b then 1 else 0
  {
    assert ([b] + p)[1..] == p;
  }

  lemma SplitOnes(n: nat, j: nat)
    requires n > 0 && j > 0
    ensures WithOnes(n, j) == Prefixed(true, WithOnes(n - 1, j - 1)) + Prefixed(false, WithOnes(n - 1, j))
  {
    var split := Prefixed(true, WithOnes(n - 1, j - 1)) + Prefixed(false, WithOnes(n - 1, j));
    forall p | p in Patterns(n)
      ensures p in WithOnes(n, j) <==> p in split
    {
      var b, q := Tail(n, p);
      OnesPrefixed(b, q);
      SplitIs(b, q, WithOnes(n - 1, j - 1), WithOnes(n - 1, j));
    }
  }

  lemma SplitNoOnes(n: nat)
    requires n > 0
    ensures WithOnes(n, 0) == Prefixed(false, WithOnes(n - 1, 0))
  {
    forall p | p in Patterns(n)
      ensures p in WithOnes(n, 0) <==> p in Prefixed(false, WithOnes(n - 1, 0))
    {
      var b, q := Tail(n, p);
      OnesPrefixed(b, q);
      SplitIs(b, q, {}, WithOnes(n - 1, 0));
      assert Prefixed(true, {}) == {};
    }
  }

  lemma Tail(n: nat, p: seq<bool>) returns (b: bool, q: seq<bool>)
    requires n > 0 && p in Patterns(n)
    ensures p == [b] + q && q in Patterns(n - 1)
  {
    InPatterns(n, p);
    b, q := p[0], p[1..];
    InPatterns(n - 1, q);
  }

  lemma SplitIs(b: bool, q: seq<bool>, on: set<seq<bool>>, off: set<seq<bool>>)
    ensures [b] + q in Prefixed(true, on) + Prefixed(false, off) <==> if b then q in on else q in off
  {
    assert ([b] + q)[1..] == q && ([b] + q)[0] == b;
    forall r: seq<bool>, c: bool
      ensures ([c] + r)[1..] == r && ([c] + r)[0] == c
    {
    }
  }

  /** Fewer than k ones. */
  function Few(n: nat, k: nat): set<seq<bool>> { set p <- Patterns(n) | Ones(p) < k }

  /** More than n - k ones. */
  function Many(n: nat, k: nat): set<seq<bool>>
    requires k <= n
  {
    set p <- Patterns(n) | Ones(p) > n - k
  }

  /** The patterns for which the k-th smallest and k-th largest miss the median. */
  function Uncovered(n: nat, k: nat): set<seq<bool>>
    requires k <= n
  {
    set p <- Patterns(n) | Ones(p) < k || Ones(p) > n - k
  }

  lemma {:induction false} FewSize(n: nat, k: nat)
    ensures |Few(n, k)| == Below(n, k)
    decreases k
  {
    if k == 0 {
      assert Few(n, k) == {};
    } else {
      FewSize(n, k - 1);
      WithOnesSize(n, k - 1);
      assert Few(n, k) == Few(n, k - 1) + WithOnes(n, k - 1);
    }
  }

  lemma {:induction false} OnesBounded(p: seq<bool>)
    ensures Ones(p) <= |p|
    decreases |p|
  {
    if p == [] {
    } else {
      OnesBounded(p[1..]);
    }
  }

  lemma {:induction false} ManySize(n: nat, k: nat)
    requires k <= n
    ensures |Many(n, k)| == Below(n, k)
    decreases k
  {
    if k == 0 {
      forall p | p in Patterns(n)
        ensures Ones(p) <= n
      {
        InPatterns(n, p);
        OnesBounded(p);
      }
      assert Many(n, k) == {};
    } else {
      ManySize(n, k - 1);
      WithOnesSize(n, n - k + 1);
      CombSymmetric(n, k - 1);
      assert Many(n, k) == Many(n, k - 1) + WithOnes(n, n - k + 1);
    }
  }

  /** The uncovered patterns are twice the lower tail. */
  lemma UncoveredSize(n: nat, k: nat)
    requires 2 * k <= n
    ensures |Uncovered(n, k)| == 2 * Below(n, k)
  {
    hide Below, Ones, Patterns;
    FewSize(n, k);
    ManySize(n, k);
    assert Uncovered(n, k) == Few(n, k) + Many(n, k);
  }

  // ---- the rank -----------------------------------------------------------------------------

  /** At least 95 in 100 of all sign patterns are covered. */
  predicate Covers(n: nat, k: nat)
    requires k <= n
  {
    100 * (|Patterns(n)| - |Uncovered(n, k)|) >= 95 * |Patterns(n)|
  }

  ghost predicate IsRank(n: nat, rank: Option<nat>) {
    match rank
    case None => forall k :: 1 <= k <= n / 2 ==> !Covers(n, k)
    case Some(r) => 1 <= r <= n / 2 && Covers(n, r) && forall k :: r < k <= n / 2 ==> !Covers(n, k)
  }

  lemma CoversIf(n: nat, k: nat)
    requires 2 * k <= n
    ensures Covers(n, k) <==> 40 * Below(n, k) <= Pow2(n)
  {
    hide Below, Pow2, Patterns, Uncovered;
    PatternsSize(n);
    UncoveredSize(n, k);
  }

  lemma InReals(below: nat, all: nat)
    requires all > 0
    ensures 1.0 - 2.0 * (below as real) / (all as real) < COVERAGE <==> 40 * below > all
  {
    RatioIs(2.0 * (below as real), all as real, 0.05);
  }

  lemma {:induction false} BelowGrows(n: nat, j: nat, k: nat)
    requires j <= k
    ensures Below(n, j) <= Below(n, k)
    decreases k
  {
    if j < k {
      BelowGrows(n, j, k - 1);
    }
  }

  method IntervalRank(n: nat) returns (rank: Option<nat>)
    ensures IsRank(n, rank)
  {
    hide Below, Comb, Pow2, Covers;
    var below := 0;
    rank := None;
    BelowNone(n);
    for k := 1 to n / 2 + 1
      invariant below == Below(n, k - 1)
      invariant if k == 1 then rank == None else rank == Some(k - 1) && Covers(n, k - 1)
    {
      BelowOne(n, k);
      below := below + Comb(n, k - 1);
      InReals(below, Pow2(n));
      CoversIf(n, k);
      if 1.0 - 2.0 * (below as real) / (Pow2(n) as real) < COVERAGE {
        NoneFurther(n, k);
        return;
      }
      rank := Some(k);
    }
  }

  lemma BelowNone(n: nat)
    ensures Below(n, 0) == 0
  {
  }

  lemma BelowOne(n: nat, k: nat)
    requires k > 0
    ensures Below(n, k) == Below(n, k - 1) + Comb(n, k - 1)
  {
  }

  lemma NoneFurther(n: nat, k: nat)
    requires 2 * k <= n && !Covers(n, k)
    ensures forall j :: k <= j <= n / 2 ==> !Covers(n, j)
  {
    hide Below, Pow2, Covers;
    CoversIf(n, k);
    forall j | k <= j <= n / 2
      ensures !Covers(n, j)
    {
      CoversIf(n, j);
      BelowGrows(n, k, j);
    }
  }

  lemma {:induction false} Pow2Grows(n: nat)
    requires n >= 6
    ensures Pow2(n) >= 64
    decreases n
  {
    if n > 6 {
      Pow2Grows(n - 1);
    } else {
      Pow2Small(n);
    }
  }

  lemma Pow2Small(n: nat)
    ensures n <= 5 ==> Pow2(n) <= 32
    ensures n == 6 ==> Pow2(n) == 64
  {
    assert Pow2(3) == 8;
    assert Pow2(4) == 16 && Pow2(5) == 32 && Pow2(6) == 64;
  }

  /** There is a rank exactly from six cycles on, the number a report requires. */
  lemma RankExists(n: nat, rank: Option<nat>)
    requires IsRank(n, rank)
    ensures rank.Some? <==> n >= MIN_CYCLES
  {
    hide Below, Pow2, Covers;
    if n >= 6 {
      Pow2Grows(n);
      BelowFirst(n);
      CoversIf(n, 1);
    } else {
      Pow2Small(n);
      forall k | 1 <= k <= n / 2
        ensures !Covers(n, k)
      {
        CoversIf(n, k);
        BelowFirst(n);
        BelowGrows(n, 1, k);
      }
    }
  }

  lemma BelowFirst(n: nat)
    ensures Below(n, 1) == 1
  {
    assert Below(n, 0) == 0;
  }

  // ---- order statistics -----------------------------------------------------------------------

  predicate AtMost(x: real, y: real) { x <= y }

  predicate Sorted(s: seq<real>) { forall i, j :: 0 <= i < j < |s| ==> s[i] <= s[j] }

  /** How many values are below, and above, a point. */
  function NBelow(xs: seq<real>, m: real): nat
    decreases |xs|
  {
    if xs == [] then 0 else NBelow(xs[..|xs| - 1], m) + if xs[|xs| - 1] < m then 1 else 0
  }

  function NAbove(xs: seq<real>, m: real): nat
    decreases |xs|
  {
    if xs == [] then 0 else NAbove(xs[..|xs| - 1], m) + if xs[|xs| - 1] > m then 1 else 0
  }

  lemma CountLast(s: seq<real>, x: real, m: real)
    ensures NBelow(s + [x], m) == NBelow(s, m) + if x < m then 1 else 0
    ensures NAbove(s + [x], m) == NAbove(s, m) + if x > m then 1 else 0
  {
    assert (s + [x])[..|s|] == s;
  }

  lemma {:induction false} InsertCounts(s: seq<real>, x: real, m: real)
    ensures NBelow(Insert(s, x, AtMost), m) == NBelow(s, m) + if x < m then 1 else 0
    ensures NAbove(Insert(s, x, AtMost), m) == NAbove(s, m) + if x > m then 1 else 0
    decreases |s|
  {
    hide NBelow, NAbove;
    if s == [] || s[|s| - 1] <= x {
      CountLast(s, x, m);
    } else {
      var front, last := s[..|s| - 1], s[|s| - 1];
      InsertCounts(front, x, m);
      CountLast(front, last, m);
      CountLast(Insert(front, x, AtMost), last, m);
      assert s == front + [last];
    }
  }

  lemma SortIs(xs: seq<real>)
    ensures Sorted(Sort(xs, AtMost)) && |Sort(xs, AtMost)| == |xs|
  {
    hide Sort;
    SortKeeps(xs, AtMost);
    SortOrdered(xs, AtMost);
    var s := Sort(xs, AtMost);
    forall i, j | 0 <= i < j < |s|
      ensures s[i] <= s[j]
    {
      assert AtMost(s[i], s[j]);
    }
  }

  /** Sorting keeps the counts. */
  lemma {:induction false} SortCounts(xs: seq<real>, m: real)
    ensures NBelow(Sort(xs, AtMost), m) == NBelow(xs, m) && NAbove(Sort(xs, AtMost), m) == NAbove(xs, m)
    decreases |xs|
  {
    hide Insert;
    if xs == [] {
    } else {
      SortCounts(xs[..|xs| - 1], m);
      InsertCounts(Sort(xs[..|xs| - 1], AtMost), xs[|xs| - 1], m);
    }
  }

  lemma {:induction false} NoneAbove(s: seq<real>, m: real)
    requires forall x <- s :: x <= m
    ensures NAbove(s, m) == 0
    decreases |s|
  {
    if s == [] {
    } else {
      assert s[|s| - 1] in s;
      var front := s[..|s| - 1];
      forall i | 0 <= i < |front|
        ensures front[i] <= m
      {
        assert front[i] == s[i] && s[i] in s;
      }
      NoneAbove(s[..|s| - 1], m);
    }
  }

  lemma {:induction false} AllBelow(s: seq<real>, m: real)
    requires forall x <- s :: x < m
    ensures NBelow(s, m) == |s|
    decreases |s|
  {
    if s == [] {
    } else {
      assert s[|s| - 1] in s;
      var front := s[..|s| - 1];
      forall i | 0 <= i < |front|
        ensures front[i] < m
      {
        assert front[i] == s[i] && s[i] in s;
      }
      AllBelow(s[..|s| - 1], m);
    }
  }

  lemma {:induction false} CountsBounded(s: seq<real>, m: real)
    ensures NBelow(s, m) + NAbove(s, m) <= |s|
    ensures m !in s ==> NBelow(s, m) + NAbove(s, m) == |s|
    decreases |s|
  {
    if s == [] {
    } else {
      CountsBounded(s[..|s| - 1], m);
    }
  }

  /** The j-th value of a sorted list is below m exactly when more than j values are. */
  lemma {:induction false} OrderBelow(s: seq<real>, m: real, j: nat)
    requires Sorted(s) && j < |s|
    ensures s[j] < m <==> NBelow(s, m) > j
    decreases |s|
  {
    var front, last := s[..|s| - 1], s[|s| - 1];
    if last < m {
      AllBelow(s, m);
    } else if j < |s| - 1 {
      OrderBelow(front, m, j);
    } else {
      CountsBounded(front, m);
    }
  }

  lemma {:induction false} OrderAbove(s: seq<real>, m: real, j: nat)
    requires Sorted(s) && j < |s|
    ensures s[j] > m <==> NAbove(s, m) >= |s| - j
    decreases |s|
  {
    var front, last := s[..|s| - 1], s[|s| - 1];
    if last <= m {
      NoneAbove(s, m);
    } else if j < |s| - 1 {
      OrderAbove(front, m, j);
    }
  }

  // ---- the interval ------------------------------------------------------------------------------

  /** Which cycles came out below m, in the order they were run. */
  function Signs(xs: seq<real>, m: real): seq<bool>
    decreases |xs|
  {
    if xs == [] then [] else [xs[|xs| - 1] < m] + Signs(xs[..|xs| - 1], m)
  }

  lemma {:induction false} SignsOnes(xs: seq<real>, m: real)
    ensures |Signs(xs, m)| == |xs| && Ones(Signs(xs, m)) == NBelow(xs, m)
    decreases |xs|
  {
    hide Ones;
    if xs != [] {
      SignsOnes(xs[..|xs| - 1], m);
      OnesPrefixed(xs[|xs| - 1] < m, Signs(xs[..|xs| - 1], m));
    } else {
      OnesNone();
    }
  }

  lemma OnesNone()
    ensures Ones([]) == 0
  {
  }

  /** The interval misses a point exactly when more than n - k values lie on one side of it.
      It misses only on the uncovered patterns, on all of them unless the point is itself a
      value, and those are at most 5 in 100. */
  lemma MissesExactly(xs: seq<real>, k: nat, m: real)
    requires IsRank(|xs|, Some(k))
    ensures |Sort(xs, AtMost)| == |xs|
    ensures var misses := !(Sort(xs, AtMost)[k - 1] <= m <= Sort(xs, AtMost)[|xs| - k]);
      && (misses <==> NBelow(xs, m) > |xs| - k || NAbove(xs, m) > |xs| - k)
      && (misses ==> Signs(xs, m) in Uncovered(|xs|, k))
      && (m !in xs ==> (misses <==> Signs(xs, m) in Uncovered(|xs|, k)))
    ensures 100 * |Uncovered(|xs|, k)| <= 5 * |Patterns(|xs|)|
  {
    hide Sort, Ones, Signs, NBelow, NAbove, Patterns;
    var n := |xs|;
    SortIs(xs);
    SortCounts(xs, m);
    OrderAbove(Sort(xs, AtMost), m, k - 1);
    OrderBelow(Sort(xs, AtMost), m, n - k);
    CountsBounded(xs, m);
    SignsOnes(xs, m);
    InPatterns(n, Signs(xs, m));
  }

  // ---- a report's row ---------------------------------------------------------------------------------

  datatype Pair = Pair(base: real, variant: real)

  datatype Change = Change(ratio: real, low: real, high: real, faster: nat, cycles: nat)

  datatype Verdict = Faster | Slower | WithinNoise

  predicate Timed(pairs: seq<Pair>) { forall p <- pairs :: p.base > 0.0 && p.variant > 0.0 }

  function Ratios(pairs: seq<Pair>): (xs: seq<real>)
    requires Timed(pairs)
    ensures |xs| == |pairs|
    decreases |pairs|
  {
    if pairs == [] then [] else Ratios(pairs[..|pairs| - 1]) + [pairs[|pairs| - 1].variant / pairs[|pairs| - 1].base]
  }

  /** The cycles the variant won. */
  function Won(pairs: seq<Pair>): nat
    decreases |pairs|
  {
    if pairs == [] then 0
    else Won(pairs[..|pairs| - 1]) + if pairs[|pairs| - 1].variant < pairs[|pairs| - 1].base then 1 else 0
  }

  function Lost(pairs: seq<Pair>): nat
    decreases |pairs|
  {
    if pairs == [] then 0
    else Lost(pairs[..|pairs| - 1]) + if pairs[|pairs| - 1].variant > pairs[|pairs| - 1].base then 1 else 0
  }

  function Median(s: seq<real>): real
    requires s != []
  {
    if |s| % 2 == 1 then s[|s| / 2] else (s[|s| / 2 - 1] + s[|s| / 2]) / 2.0
  }

  /** Of sorted values: twice the median is the sum of the two in the middle, which are one when
      their number is odd. */
  lemma MedianIs(s: seq<real>)
    requires s != []
    ensures 2.0 * Median(s) == s[(|s| - 1) / 2] + s[|s| / 2]
  {
    assert (|s| - 1) / 2 == if |s| % 2 == 1 then |s| / 2 else |s| / 2 - 1;
  }

  predicate IsChange(pairs: seq<Pair>, k: nat, c: Change)
    requires Timed(pairs) && 1 <= k <= |pairs| / 2
  {
    var s := Sort(Ratios(pairs), AtMost);
    && |s| == |pairs|
    && c.ratio == Median(s) && c.low == s[k - 1] && c.high == s[|s| - k]
    && c.faster == Won(pairs) && c.cycles == |pairs|
  }

  method PairedChange(pairs: seq<Pair>) returns (change: Result<Change, nat>, ghost rank: Option<nat>)
    requires Timed(pairs)
    ensures IsRank(|pairs|, rank)
    ensures change.Err? <==> |pairs| < MIN_CYCLES
    ensures change.Err? ==> change.error == |pairs|
    ensures change.Ok? ==> rank.Some? && IsChange(pairs, rank.value, change.value)
  {
    hide Sort, Ratios, Won, Median, Covers;
    var s := Sort(Ratios(pairs), AtMost);
    SortIs(Ratios(pairs));
    var k := IntervalRank(|s|);
    rank := k;
    RankExists(|pairs|, rank);
    if k.None? {
      return Err(|pairs|), rank;
    }
    change := Ok(Change(Median(s), s[k.value - 1], s[|s| - k.value], Won(pairs), |pairs|));
  }

  function VerdictOf(c: Change): Verdict {
    if c.high < 1.0 then Faster else if c.low > 1.0 then Slower else WithinNoise
  }

  lemma {:induction false} WonBelow(pairs: seq<Pair>)
    requires Timed(pairs)
    ensures NBelow(Ratios(pairs), 1.0) == Won(pairs) && NAbove(Ratios(pairs), 1.0) == Lost(pairs)
    decreases |pairs|
  {
    if pairs == [] {
    } else {
      var last := pairs[|pairs| - 1];
      var front := pairs[..|pairs| - 1];
      WonBelow(front);
      RatioIs(last.variant, last.base, 1.0);
      hide NBelow, NAbove;
      CountLast(Ratios(front), last.variant / last.base, 1.0);
    }
  }

  /** The reported median lies within the reported interval. */
  lemma MedianInside(pairs: seq<Pair>, k: nat, c: Change)
    requires Timed(pairs) && 1 <= k <= |pairs| / 2 && IsChange(pairs, k, c)
    ensures c.low <= c.ratio <= c.high
  {
    hide Sort, Ratios;
    SortIs(Ratios(pairs));
  }

  /** "Faster" says that all but rank - 1 cycles were won, a count at least as extreme as
      which at most 1 in 40 sign patterns has; "slower" says the same of the lost ones. */
  lemma VerdictExactly(pairs: seq<Pair>, k: nat, c: Change)
    requires Timed(pairs) && IsRank(|pairs|, Some(k)) && IsChange(pairs, k, c)
    ensures VerdictOf(c) == Faster <==> c.faster >= c.cycles - k + 1
    ensures VerdictOf(c) == Slower <==> Lost(pairs) >= c.cycles - k + 1
    ensures 40 * |Many(|pairs|, k)| <= |Patterns(|pairs|)|
  {
    hide Sort, Ratios, Won, Lost, NBelow, NAbove, Below, Patterns, Median, Covers;
    var n := |pairs|;
    var xs := Ratios(pairs);
    SortIs(xs);
    SortCounts(xs, 1.0);
    WonBelow(pairs);
    OrderBelow(Sort(xs, AtMost), 1.0, n - k);
    OrderAbove(Sort(xs, AtMost), 1.0, k - 1);
    CountsBounded(xs, 1.0);
    CoversIf(n, k);
    PatternsSize(n);
    ManySize(n, k);
  }
}
