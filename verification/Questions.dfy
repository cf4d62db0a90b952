// The questions of tools/decision_dataset.py, grouped by subject.
module Questions {
  import opened Lists
  import opened Sorting

  datatype Source = Dev | Validation | Test

  /** A question: where it stood in which source, its subject, its question id and the text
      of its right answer. */
  datatype Row = Row(source: Source, index: nat, subject: string, id: int, gold: string)

  // ---- sums ---------------------------------------------------------------------------

  function Sum(ss: seq<string>, f: string -> nat): nat
    decreases |ss|
  {
    if ss == [] then 0 else Sum(ss[..|ss| - 1], f) + f(ss[|ss| - 1])
  }

  lemma {:induction false} SumInsert(ss: seq<string>, x: string, le: (string, string) -> bool, f: string -> nat)
    ensures Sum(Insert(ss, x, le), f) == Sum(ss, f) + f(x)
    decreases |ss|
  {
    if ss == [] || le(ss[|ss| - 1], x) {
    } else {
      SumInsert(ss[..|ss| - 1], x, le, f);
    }
  }

  /** A sum does not depend on the order. */
  lemma {:induction false} SumSort(ss: seq<string>, le: (string, string) -> bool, f: string -> nat)
    ensures Sum(Sort(ss, le), f) == Sum(ss, f)
    decreases |ss|
  {
    hide Insert;
    if ss == [] {
    } else {
      SumSort(ss[..|ss| - 1], le, f);
      SumInsert(Sort(ss[..|ss| - 1], le), ss[|ss| - 1], le, f);
    }
  }

  lemma {:induction false} SumSame(ss: seq<string>, f: string -> nat, g: string -> nat)
    requires forall s <- ss :: f(s) == g(s)
    ensures Sum(ss, f) == Sum(ss, g)
    decreases |ss|
  {
    if ss == [] {
    } else {
      assert forall s <- ss[..|ss| - 1] :: s in ss;
      SumSame(ss[..|ss| - 1], f, g);
    }
  }

  lemma {:induction false} SumPlus(ss: seq<string>, f: string -> nat, g: string -> nat)
    ensures Sum(ss, s => f(s) + g(s)) == Sum(ss, f) + Sum(ss, g)
    decreases |ss|
  {
    if ss == [] {
    } else {
      SumPlus(ss[..|ss| - 1], f, g);
    }
  }

  lemma Distribute(c: int, a: int, b: int)
    ensures c * (a + b) == c * a + c * b
  {
  }

  function Indicator(chosen: seq<string>): string -> nat { s => if s in chosen then 1 else 0 }

  /** Among distinct names the first k are k. */
  lemma {:induction false} SumFirst(ss: seq<string>, k: nat, n: nat)
    requires Distinct(ss) && n <= |ss| && k <= |ss|
    ensures Sum(ss[..n], Indicator(ss[..k])) == if n <= k then n else k
    decreases n
  {
    if n == 0 {
    } else {
      SumFirst(ss, k, n - 1);
      assert ss[..n][..n - 1] == ss[..n - 1];
      if n <= k {
        assert ss[..k][n - 1] == ss[n - 1];
      } else {
        assert ss[n - 1] !in ss[..k];
      }
    }
  }

  // ---- groups -----------------------------------------------------------------------------

  function Of(rows: seq<Row>, s: string): seq<Row>
    decreases |rows|
  {
    if rows == [] then []
    else Of(rows[..|rows| - 1], s) + if rows[|rows| - 1].subject == s then [rows[|rows| - 1]] else []
  }

  /** The subjects in the order of their first question. */
  function Subjects(rows: seq<Row>): seq<string>
    decreases |rows|
  {
    if rows == [] then []
    else
      var before := Subjects(rows[..|rows| - 1]);
      if rows[|rows| - 1].subject in before then before else before + [rows[|rows| - 1].subject]
  }

  lemma {:induction false} SubjectsAre(rows: seq<Row>)
    ensures Distinct(Subjects(rows))
    ensures forall s :: s in Subjects(rows) <==> Of(rows, s) != []
    decreases |rows|
  {
    if rows == [] {
    } else {
      SubjectsAre(rows[..|rows| - 1]);
    }
  }

  function Size(rows: seq<Row>): string -> nat { s => |Of(rows, s)| }

  lemma {:induction false} SumBump(ss: seq<string>, x: string, f: string -> nat, g: string -> nat)
    requires Distinct(ss) && forall s <- ss :: g(s) == f(s) + if s == x then 1 else 0
    ensures Sum(ss, g) == Sum(ss, f) + if x in ss then 1 else 0
    decreases |ss|
  {
    if ss == [] {
    } else {
      var front := ss[..|ss| - 1];
      assert forall s <- front :: s in ss;
      SumBump(front, x, f, g);
      assert x in ss <==> x in front || x == ss[|ss| - 1];
    }
  }

  /** Over distinct names that include every subject, the group sizes sum to the population. */
  lemma {:induction false} SizesSum(rows: seq<Row>, ss: seq<string>)
    requires Distinct(ss) && forall r <- rows :: r.subject in ss
    ensures Sum(ss, Size(rows)) == |rows|
    decreases |rows|
  {
    if rows == [] {
      SumZero(ss, Size(rows));
    } else {
      var front := rows[..|rows| - 1];
      assert forall r <- front :: r in rows;
      SizesSum(front, ss);
      SumBump(ss, rows[|rows| - 1].subject, Size(front), Size(rows));
    }
  }

  lemma {:induction false} SumZero(ss: seq<string>, f: string -> nat)
    requires forall s <- ss :: f(s) == 0
    ensures Sum(ss, f) == 0
    decreases |ss|
  {
    if ss == [] {
    } else {
      assert forall s <- ss[..|ss| - 1] :: s in ss;
      SumZero(ss[..|ss| - 1], f);
    }
  }

  lemma {:induction false} SubjectIsListed(rows: seq<Row>)
    ensures forall r <- rows :: r.subject in Subjects(rows)
    decreases |rows|
  {
    if rows == [] {
    } else {
      SubjectIsListed(rows[..|rows| - 1]);
      forall r <- rows
        ensures r.subject in Subjects(rows)
      {
        assert r in rows[..|rows| - 1] || r == rows[|rows| - 1];
      }
    }
  }

  // ---- orders -------------------------------------------------------------------------

  function ByHash(hash: Row -> int): (Row, Row) -> bool { (a, b) => hash(a) <= hash(b) }

  function ByName(rank: string -> int): (string, string) -> bool { (s, t) => rank(s) <= rank(t) }

  lemma {:induction false} Multiplicity(ss: seq<string>)
    ensures Distinct(ss) <==> forall s <- ss :: multiset(ss)[s] == 1
    decreases |ss|
  {
    if ss == [] {
    } else {
      var front, last := ss[..|ss| - 1], ss[|ss| - 1];
      Multiplicity(front);
      FrontAndLast(ss);
      assert last in front ==> last in multiset(front);
      if Distinct(ss) {
        assert last !in front;
        assert forall s <- ss :: s in front || s == last;
      } else if Distinct(front) {
        assert last in front && multiset(ss)[last] >= 2;
      } else {
        var s :| s in front && multiset(front)[s] != 1;
        assert s in multiset(front);
        assert s in ss && multiset(ss)[s] >= 2;
      }
    }
  }

  lemma SamePermutation(a: seq<string>, b: seq<string>)
    requires multiset(a) == multiset(b) && Distinct(a)
    ensures Distinct(b) && forall s :: s in b <==> s in a
  {
    Multiplicity(a);
    Multiplicity(b);
    hide Distinct;
    forall s
      ensures s in b <==> s in a
    {
      assert s in a <==> s in multiset(a);
      assert s in b <==> s in multiset(b);
    }
  }

  // ---- selections by subject ----------------------------------------------------------

  lemma {:induction false} OfAppend(a: seq<Row>, b: seq<Row>, s: string)
    ensures Of(a + b, s) == Of(a, s) + Of(b, s)
    decreases |b|
  {
    if b == [] {
      assert a + b == a;
    } else {
      assert (a + b)[..|a + b| - 1] == a + b[..|b| - 1];
      OfAppend(a, b[..|b| - 1], s);
    }
  }

  predicate AllOf(rows: seq<Row>, s: string) { forall r <- rows :: r.subject == s }

  lemma {:induction false} OfIsPure(rows: seq<Row>, s: string)
    ensures AllOf(Of(rows, s), s)
    decreases |rows|
  {
    if rows == [] {
    } else {
      OfIsPure(rows[..|rows| - 1], s);
    }
  }

  lemma {:induction false} OfPure(rows: seq<Row>, s: string, t: string)
    requires AllOf(rows, s)
    ensures Of(rows, t) == if s == t then rows else []
    decreases |rows|
  {
    if rows == [] {
    } else {
      var front := rows[..|rows| - 1];
      assert forall r <- front :: r in rows;
      OfPure(front, s, t);
      assert rows[|rows| - 1] in rows;
      assert rows == front + [rows[|rows| - 1]];
    }
  }

  lemma LastOnly(names: seq<string>, s: string)
    requires names != [] && Distinct(names)
    ensures s in names <==> s in names[..|names| - 1] || s == names[|names| - 1]
    ensures names[|names| - 1] !in names[..|names| - 1]
  {
  }

  // ---- grouping --------------------------------------------------------------------------

  method Group(rows: seq<Row>) returns (grouped: map<string, seq<Row>>, subjects: seq<string>)
    ensures subjects == Subjects(rows)
    ensures forall s :: s in grouped <==> s in subjects
    ensures forall s <- grouped :: grouped[s] == Of(rows, s)
  {
    hide Distinct;
    grouped, subjects := map[], [];
    for i := 0 to |rows|
      invariant subjects == Subjects(rows[..i])
      invariant forall s :: s in grouped <==> s in subjects
      invariant forall s <- grouped :: grouped[s] == Of(rows[..i], s)
    {
      var s := rows[i].subject;
      assert rows[..i + 1][..i] == rows[..i];
      SubjectsAre(rows[..i]);
      if s !in grouped {
        grouped := grouped[s := []];
        subjects := subjects + [s];
      }
      grouped := grouped[s := grouped[s] + [rows[i]]];
    }
    assert rows[..|rows|] == rows;
  }

  // ---- blocks by subject -----------------------------------------------------------------

  /** Rows of the names in order, each name's together. */
  ghost predicate InBlocks(d: seq<Row>, names: seq<string>, rank: string -> int) {
    && (forall r <- d :: r.subject in names)
    && forall i, j :: 0 <= i < j < |d| ==> rank(d[i].subject) <= rank(d[j].subject)
  }

  lemma BlocksThen(d: seq<Row>, names: seq<string>, rank: string -> int, block: seq<Row>, last: string)
    requires InBlocks(d, names, rank) && AllOf(block, last) && forall s <- names :: rank(s) <= rank(last)
    ensures InBlocks(d + block, names + [last], rank)
  {
    forall i | 0 <= i < |d + block|
      ensures (d + block)[i].subject in if i < |d| then names else [last]
    {
      assert i < |d| ==> (d + block)[i] in d;
      assert i >= |d| ==> (d + block)[i] in block;
    }
  }

  lemma NoBlocks(rank: string -> int)
    ensures InBlocks([], [], rank)
  {
  }
}
