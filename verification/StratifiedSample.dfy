// The largest-remainder sample of tools/decision_dataset.py (123-147): quotas that sum
// to the sample size, and a selection that meets every quota.
module StratifiedSample {
  import opened Lists
  import opened Arithmetic
  import opened Questions
  import opened Results
  import opened Sorting

  // ---- the quotas -----------------------------------------------------------------------------

  function Floor(rows: seq<Row>, total: nat): string -> nat
    requires rows != []
  {
    s => total * |Of(rows, s)| / |rows|
  }

  function Rest(rows: seq<Row>, total: nat): string -> nat
    requires rows != []
  {
    s => total * |Of(rows, s)| % |rows|
  }

  function Fraction(rows: seq<Row>, total: nat): string -> nat
    requires rows != []
  {
    s => if Rest(rows, total)(s) > 0 then 1 else 0
  }

  /** The slots left after the floors. */
  function Left(rows: seq<Row>, total: nat): int
    requires rows != []
  {
    total - Sum(Subjects(rows), Floor(rows, total))
  }

  lemma {:induction false} RestsBelow(ss: seq<string>, rows: seq<Row>, total: nat)
    requires rows != []
    ensures Sum(ss, Rest(rows, total)) <= (|rows| - 1) * Sum(ss, Fraction(rows, total))
    decreases |ss|
  {
    if ss == [] {
    } else {
      RestsBelow(ss[..|ss| - 1], rows, total);
      Distribute(|rows| - 1, Sum(ss[..|ss| - 1], Fraction(rows, total)), Fraction(rows, total)(ss[|ss| - 1]));
    }
  }

  lemma {:induction false} SharesSplit(ss: seq<string>, rows: seq<Row>, total: nat)
    requires rows != []
    ensures total * Sum(ss, Size(rows)) == |rows| * Sum(ss, Floor(rows, total)) + Sum(ss, Rest(rows, total))
    decreases |ss|
  {
    if ss == [] {
    } else {
      var front, last := ss[..|ss| - 1], ss[|ss| - 1];
      SharesSplit(front, rows, total);
      FloorAndRest(total * |Of(rows, last)|, |rows|);
      hide Of;
      SplitStep(total, Sum(front, Size(rows)), |Of(rows, last)|, |rows|, Sum(front, Floor(rows, total)),
                total * |Of(rows, last)| / |rows|, Sum(front, Rest(rows, total)), total * |Of(rows, last)| % |rows|);
    }
  }

  lemma FloorAndRest(x: nat, n: nat)
    requires n > 0
    ensures x == n * (x / n) + x % n
  {
  }

  lemma SplitStep(t: nat, a: nat, z: nat, n: nat, f: nat, g: nat, r: nat, q: nat)
    requires t * a == n * f + r && t * z == n * g + q
    ensures t * (a + z) == n * (f + g) + (r + q)
  {
    Distribute(t, a, z);
    Distribute(n, f, g);
  }

  /** The remainders pay for the slots left, so there are no more slots than subjects with a
      remainder. */
  lemma LeftBounds(rows: seq<Row>, total: nat)
    requires rows != []
    ensures |rows| * Left(rows, total) == Sum(Subjects(rows), Rest(rows, total))
    ensures 0 <= Left(rows, total) <= Sum(Subjects(rows), Fraction(rows, total))
  {
    hide Sum, Rest, Fraction, Floor, Size, Of, Subjects;
    var ss := Subjects(rows);
    assert Sum(ss, Size(rows)) == |rows| by {
      SubjectsAre(rows);
      SubjectIsListed(rows);
      SizesSum(rows, ss);
    }
    SharesSplit(ss, rows, total);
    RestsBelow(ss, rows, total);
  }

  /** By falling remainder, and by the subject's hash where they are equal. */
  function ByRest(rows: seq<Row>, total: nat, hash: string -> int): (string, string) -> bool
    requires rows != []
  {
    (s, t) => Rest(rows, total)(s) > Rest(rows, total)(t)
           || (Rest(rows, total)(s) == Rest(rows, total)(t) && hash(s) <= hash(t))
  }

  function Order(rows: seq<Row>, total: nat, hash: string -> int): seq<string>
    requires rows != []
  {
    Sort(Subjects(rows), ByRest(rows, total, hash))
  }

  lemma ByRestTotal(rows: seq<Row>, total: nat, hash: string -> int)
    requires rows != []
    ensures TotalOrder(ByRest(rows, total, hash))
  {
    hide Rest;
  }

  /** The order lists every subject once. */
  lemma OrderIs(rows: seq<Row>, total: nat, hash: string -> int)
    requires rows != []
    ensures Ordered(Order(rows, total, hash), ByRest(rows, total, hash))
    ensures Distinct(Order(rows, total, hash))
    ensures forall s :: s in Order(rows, total, hash) <==> s in Subjects(rows)
    ensures forall f :: Sum(Order(rows, total, hash), f) == Sum(Subjects(rows), f)
  {
    hide Sort, Subjects, Of, ByRest, Distinct, Ordered, TotalOrder, Sum;
    var ss := Subjects(rows);
    var o := Order(rows, total, hash);
    SubjectsAre(rows);
    ByRestTotal(rows, total, hash);
    SortOrdered(ss, ByRest(rows, total, hash));
    SortKeeps(ss, ByRest(rows, total, hash));
    SamePermutation(ss, o);
    forall f
      ensures Sum(o, f) == Sum(ss, f)
    {
      SumSort(ss, ByRest(rows, total, hash), f);
    }
  }

  lemma {:induction false} SumPrefix(ss: seq<string>, i: nat, f: string -> nat)
    requires i <= |ss| && (forall s <- ss :: f(s) <= 1) && forall j :: i <= j < |ss| ==> f(ss[j]) == 0
    ensures Sum(ss, f) <= i
    decreases |ss|
  {
    if ss == [] {
    } else {
      var front := ss[..|ss| - 1];
      assert forall s <- front :: s in ss;
      SumPrefix(front, if i < |ss| then i else i - 1, f);
    }
  }

  lemma {:induction false} SumAtMost(ss: seq<string>, f: string -> nat)
    requires forall s <- ss :: f(s) <= 1
    ensures Sum(ss, f) <= |ss|
    decreases |ss|
  {
    SumPrefix(ss, |ss|, f);
  }

  /** Every subject that gets a slot left over has a remainder. */
  lemma BumpedHaveRest(rows: seq<Row>, total: nat, hash: string -> int, i: nat)
    requires rows != [] && i < Left(rows, total)
    ensures Left(rows, total) <= |Order(rows, total, hash)|
    ensures Rest(rows, total)(Order(rows, total, hash)[i]) > 0
  {
    hide Sum, Order, Subjects, Left, Distinct, Floor;
    var o := Order(rows, total, hash);
    OrderIs(rows, total, hash);
    LeftBounds(rows, total);
    SumAtMost(o, Fraction(rows, total));
    if Rest(rows, total)(o[i]) == 0 {
      forall j | i <= j < |o|
        ensures Fraction(rows, total)(o[j]) == 0
      {
        assert i < j ==> ByRest(rows, total, hash)(o[i], o[j]);
      }
      SumPrefix(o, i, Fraction(rows, total));
    }
  }

  /** The subjects that get one slot more than their floor. */
  function Bumped(rows: seq<Row>, total: nat, hash: string -> int): seq<string>
    requires rows != []
  {
    LeftFits(rows, total, hash);
    Order(rows, total, hash)[..Left(rows, total)]
  }

  lemma LeftFits(rows: seq<Row>, total: nat, hash: string -> int)
    requires rows != []
    ensures 0 <= Left(rows, total) <= |Order(rows, total, hash)|
  {
    LeftBounds(rows, total);
    if Left(rows, total) > 0 {
      BumpedHaveRest(rows, total, hash, 0);
    }
  }

  function Quota(rows: seq<Row>, total: nat, hash: string -> int): string -> nat
    requires rows != []
  {
    var floor, extra := Floor(rows, total), Indicator(Bumped(rows, total, hash));
    s => floor(s) + extra(s)
  }

  /** The quotas sum to the sample size. */
  lemma QuotasSum(rows: seq<Row>, total: nat, hash: string -> int)
    requires rows != []
    ensures Sum(Subjects(rows), Quota(rows, total, hash)) == total
  {
    hide Sum, Order, Subjects, Floor, Indicator, Distinct;
    var ss := Subjects(rows);
    var o := Order(rows, total, hash);
    var extra := Indicator(Bumped(rows, total, hash));
    OrderIs(rows, total, hash);
    LeftFits(rows, total, hash);
    SumFirst(o, Left(rows, total), |o|);
    assert o[..|o|] == o;
    SumPlus(ss, Floor(rows, total), extra);
    SumSame(ss, Quota(rows, total, hash), s => Floor(rows, total)(s) + extra(s));
  }

  lemma BumpedRest(rows: seq<Row>, total: nat, hash: string -> int, s: string)
    requires rows != [] && s in Bumped(rows, total, hash)
    ensures total * |Of(rows, s)| % |rows| > 0
  {
    hide Order, Of, Left;
    LeftFits(rows, total, hash);
    var bumped := Bumped(rows, total, hash);
    var i :| 0 <= i < |bumped| && bumped[i] == s;
    BumpedHaveRest(rows, total, hash, i);
  }

  lemma QuotaParts(rows: seq<Row>, total: nat, hash: string -> int, s: string)
    requires rows != []
    ensures Quota(rows, total, hash)(s) == total * |Of(rows, s)| / |rows| + if s in Bumped(rows, total, hash) then 1
            else 0
  {
    hide Bumped, Of;
  }

  /** Each quota is within one of the subject's exact share, and no more than its questions. */
  lemma QuotaIsFair(rows: seq<Row>, total: nat, hash: string -> int, s: string)
    requires 0 < total <= |rows|
    ensures |rows| * Quota(rows, total, hash)(s) < total * |Of(rows, s)| + |rows|
    ensures total * |Of(rows, s)| < |rows| * Quota(rows, total, hash)(s) + |rows|
    ensures Quota(rows, total, hash)(s) <= |Of(rows, s)|
  {
    hide *;
    assert rows != [];
    var z := |Of(rows, s)|;
    var more: nat := if s in Bumped(rows, total, hash) then 1 else 0;
    if s in Bumped(rows, total, hash) {
      BumpedRest(rows, total, hash, s);
    }
    QuotaParts(rows, total, hash, s);
    FloorAndRest(total * z, |rows|);
    Share(|rows|, total, z, total * z / |rows|, total * z % |rows|, more);
  }

  lemma Share(n: nat, total: nat, z: nat, f: nat, r: nat, more: nat)
    requires 0 < total <= n && total * z == n * f + r && r < n && more <= 1 && (more == 1 ==> r > 0)
    ensures n * (f + more) < total * z + n && total * z < n * (f + more) + n && f + more <= z
  {
    MulMonotonic(z, total, n);
    Distribute(n, f, more);
    if f > z {
      MulMonotonic(n, z + 1, f);
    }
  }

  /** The extra slots went to the largest remainders. */
  lemma LargestRests(rows: seq<Row>, total: nat, hash: string -> int, s: string, t: string)
    requires rows != []
    requires s in Bumped(rows, total, hash) && t in Subjects(rows) && t !in Bumped(rows, total, hash)
    ensures var p, q := total * |Of(rows, s)| % |rows|, total * |Of(rows, t)| % |rows|;
      p > q || (p == q && hash(s) <= hash(t))
  {
    hide Left, Subjects, Sum, Distinct, Of;
    OrderIs(rows, total, hash);
    LeftFits(rows, total, hash);
    var o := Order(rows, total, hash);
    hide Order;
    assert t in o;
    var i :| 0 <= i < |Bumped(rows, total, hash)| && Bumped(rows, total, hash)[i] == s;
    var j :| 0 <= j < |o| && o[j] == t;
    assert o[i] == s;
  }

  // ---- the selection ---------------------------------------------------------------------------

  /** The first questions of a group, or all of them. */
  function First(group: seq<Row>, hash: Row -> int, k: nat): seq<Row> {
    var sorted := Sort(group, ByHash(hash));
    if k <= |sorted| then sorted[..k] else sorted
  }

  function Selected(names: seq<string>, rows: seq<Row>, hash: Row -> int, q: string -> nat): seq<Row>
    decreases |names|
  {
    if names == [] then []
    else
      var last := names[|names| - 1];
      Selected(names[..|names| - 1], rows, hash, q) + First(Of(rows, last), hash, q(last))
  }

  lemma FirstIs(rows: seq<Row>, s: string, hash: Row -> int, k: nat)
    ensures AllOf(First(Of(rows, s), hash, k), s)
    ensures k <= |Of(rows, s)| ==> |First(Of(rows, s), hash, k)| == k
  {
    hide Of, Sort;
    var group := Of(rows, s);
    OfIsPure(rows, s);
    SortKeeps(group, ByHash(hash));
    var sorted := Sort(group, ByHash(hash));
    forall r <- sorted
      ensures r.subject == s
    {
      assert r in multiset(sorted);
      assert r in multiset(group);
      assert r in group;
    }
  }

  /** Of every subject the selection has the first questions of its group by their hash, as
      many as its quota, and no others. */
  lemma {:induction false} SelectedOf(names: seq<string>, rows: seq<Row>, hash: Row -> int, q: string -> nat, s: string)
    requires Distinct(names)
    ensures Of(Selected(names, rows, hash, q), s) == if s in names then First(Of(rows, s), hash, q(s)) else []
    decreases |names|
  {
    hide First;
    if names == [] {
    } else {
      hide Of;
      var front, last := names[..|names| - 1], names[|names| - 1];
      SelectedOf(front, rows, hash, q, s);
      OfAppend(Selected(front, rows, hash, q), First(Of(rows, last), hash, q(last)), s);
      FirstIs(rows, last, hash, q(last));
      OfPure(First(Of(rows, last), hash, q(last)), last, s);
      LastOnly(names, s);
    }
  }

  lemma {:induction false} SelectedSize(names: seq<string>, rows: seq<Row>, hash: Row -> int, q: string -> nat)
    requires forall s <- names :: q(s) <= |Of(rows, s)|
    ensures |Selected(names, rows, hash, q)| == Sum(names, q)
    decreases |names|
  {
    hide First, Of;
    if names == [] {
    } else {
      var front, last := names[..|names| - 1], names[|names| - 1];
      assert last in names && forall s <- front :: s in names;
      SelectedSize(front, rows, hash, q);
      FirstIs(rows, last, hash, q(last));
    }
  }

  /** Of a group the questions with the smallest hashes are taken, in the order of their hashes. */
  lemma FirstExactly(group: seq<Row>, hash: Row -> int, k: nat) returns (rest: seq<Row>)
    requires k <= |group|
    ensures var first := First(group, hash, k);
      && |first| == k && multiset(first) + multiset(rest) == multiset(group)
      && (forall a, b :: 0 <= a < b < k ==> hash(first[a]) <= hash(first[b]))
      && forall r <- first, t <- rest :: hash(r) <= hash(t)
  {
    hide Sort;
    SortKeeps(group, ByHash(hash));
    SortOrdered(group, ByHash(hash));
    var sorted := Sort(group, ByHash(hash));
    rest := sorted[k..];
    assert sorted == sorted[..k] + rest;
    forall r <- sorted[..k], t <- rest
      ensures hash(r) <= hash(t)
    {
      var a :| 0 <= a < k && sorted[a] == r;
      var b :| 0 <= b < |rest| && rest[b] == t;
      assert sorted[k + b] == t;
    }
  }

  /** The selection goes subject by subject, in the order of the names. */
  lemma {:induction false} SelectedInOrder(names: seq<string>, rows: seq<Row>, hash: Row -> int, q: string -> nat,
                                           rank: string -> int)
    requires Ordered(names, ByName(rank))
    ensures InBlocks(Selected(names, rows, hash, q), names, rank)
    decreases |names|
  {
    hide InBlocks, First, AllOf;
    if names == [] {
      NoBlocks(rank);
    } else {
      var front, last := names[..|names| - 1], names[|names| - 1];
      SelectedInOrder(front, rows, hash, q, rank);
      FirstIs(rows, last, hash, q(last));
      assert names == front + [last];
      forall s <- front
        ensures rank(s) <= rank(last)
      {
        var i :| 0 <= i < |front| && front[i] == s;
        assert names[i] == s;
      }
      BlocksThen(Selected(front, rows, hash, q), front, rank, First(Of(rows, last), hash, q(last)), last);
    }
  }

  // ---- the sampler -----------------------------------------------------------------------------------

  ghost predicate IsSample(rows: seq<Row>, total: nat, subjectHash: string -> int, rowHash: Row -> int,
                           rank: string -> int, selected: seq<Row>, quota: map<string, nat>)
  {
    && 0 < total <= |rows|
    && (forall s :: s in quota <==> s in Subjects(rows))
    && (forall s <- quota :: quota[s] == Quota(rows, total, subjectHash)(s))
    && selected == Selected(Sort(Subjects(rows), ByName(rank)), rows, rowHash, Quota(rows, total, subjectHash))
  }

  /** Exactly `total` questions are selected, of each subject as many as its quota says, and
      the first ones of its group. */
  lemma SampleIs(rows: seq<Row>, total: nat, subjectHash: string -> int, rowHash: Row -> int, rank: string -> int,
                 selected: seq<Row>, quota: map<string, nat>)
    requires IsSample(rows, total, subjectHash, rowHash, rank, selected, quota)
    ensures |selected| == total
    ensures forall s <- quota ::
      |Of(selected, s)| == quota[s] && Of(selected, s) == First(Of(rows, s), rowHash, quota[s])
    ensures forall s :: s !in quota ==> Of(selected, s) == []
    ensures forall i, j :: 0 <= i < j < |selected| ==> rank(selected[i].subject) <= rank(selected[j].subject)
  {
    hide Sort, Of, Sum, First, Quota, Subjects, Selected, Distinct;
    SortOrdered(Subjects(rows), ByName(rank));
    SelectedInOrder(Sort(Subjects(rows), ByName(rank)), rows, rowHash, Quota(rows, total, subjectHash), rank);
    var names := Sort(Subjects(rows), ByName(rank));
    var q := Quota(rows, total, subjectHash);
    SubjectsAre(rows);
    SortKeeps(Subjects(rows), ByName(rank));
    SamePermutation(Subjects(rows), names);
    SumSort(Subjects(rows), ByName(rank), q);
    QuotasSum(rows, total, subjectHash);
    forall s: string
      ensures q(s) <= |Of(rows, s)|
      ensures |First(Of(rows, s), rowHash, q(s))| == q(s)
      ensures Of(selected, s) == if s in names then First(Of(rows, s), rowHash, q(s)) else []
    {
      QuotaIsFair(rows, total, subjectHash, s);
      FirstIs(rows, s, rowHash, q(s));
      SelectedOf(names, rows, rowHash, q, s);
    }
    SelectedSize(names, rows, rowHash, q);
  }

  function Lookup(m: map<string, nat>): string -> nat { s => if s in m then m[s] else 0 }

  method Quotas(rows: seq<Row>, total: nat, grouped: map<string, seq<Row>>, subjects: seq<string>, hash: string -> int)
    returns (quota: map<string, nat>)
    requires 0 < total <= |rows| && subjects == Subjects(rows)
    requires forall s :: s in grouped <==> s in subjects
    requires forall s <- grouped :: grouped[s] == Of(rows, s)
    ensures forall s :: s in quota <==> s in subjects
    ensures forall s <- quota :: quota[s] == Quota(rows, total, hash)(s)
  {
    hide Of, Subjects, Sum, Distinct, Sort;
    quota := map s <- grouped :: total * |grouped[s]| / |rows|;
    var order := Sort(subjects, ByRest(rows, total, hash));
    SumSame(subjects, Lookup(quota), Floor(rows, total));
    var left := total - Sum(subjects, Lookup(quota));
    LeftFits(rows, total, hash);
    OrderIs(rows, total, hash);
    ghost var floors := quota;
    for i := 0 to left
      invariant forall s :: s in quota <==> s in subjects
      invariant forall s <- quota :: quota[s] == floors[s] + Indicator(order[..i])(s)
    {
      FirstOnce(order, i);
      assert order[i] in order;
      quota := quota[order[i] := quota[order[i]] + 1];
    }
    forall s <- quota
      ensures quota[s] == Quota(rows, total, hash)(s)
    {
      QuotaParts(rows, total, hash, s);
    }
  }

  lemma FirstOnce(order: seq<string>, i: nat)
    requires Distinct(order) && i < |order|
    ensures order[i] !in order[..i]
    ensures forall s :: s in order[..i + 1] <==> s in order[..i] || s == order[i]
  {
    assert order[..i + 1] == order[..i] + [order[i]];
  }

  method SelectStratified(rows: seq<Row>, total: int, subjectHash: string -> int, rowHash: Row -> int,
      rank: string -> int)
    returns (sample: Result<(seq<Row>, map<string, nat>), string>)
    ensures sample.Err? <==> !(0 < total <= |rows|)
    ensures sample.Ok? ==> IsSample(rows, total, subjectHash, rowHash, rank, sample.value.0, sample.value.1)
  {
    hide Of, Subjects, Quota, Sort, First;
    if !(0 < total <= |rows|) {
      return Err("sample size must be within the population");
    }
    var grouped, subjects := Group(rows);
    var quota := Quotas(rows, total, grouped, subjects, subjectHash);
    var names := Sort(subjects, ByName(rank));
    SortKeeps(subjects, ByName(rank));
    SubjectsAre(rows);
    SamePermutation(subjects, names);
    var selected := [];
    ghost var q := Quota(rows, total, subjectHash);
    for i := 0 to |names|
      invariant selected == Selected(names[..i], rows, rowHash, q)
    {
      assert names[..i + 1][..i] == names[..i];
      assert names[i] in names;
      selected := selected + First(grouped[names[i]], rowHash, quota[names[i]]);
    }
    assert names[..|names|] == names;
    sample := Ok((selected, quota));
  }
}
