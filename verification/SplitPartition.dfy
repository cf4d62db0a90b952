// The leak-free splits of tools/decision_dataset.py (42-102): which questions are
// prepared, where they go, and that no key is in two splits.
module SplitPartition {
  import opened Lists
  import opened Questions
  import opened Results
  import opened Sorting

  datatype Reason = ConflictingAnnotation | EarlierSplitOverlap | WithinSplitDuplicate

  datatype Error =
    | PolicyRequired
    | ConflictInExemplars
    | ExclusionRequired(row: Row, reason: Reason)
    | SeparationFailed

  datatype Excluded = Excluded(row: Row, reason: Reason)

  datatype Splits = Splits(development: seq<Row>, calibration: seq<Row>, test: seq<Row>)

  datatype Prepared = Prepared(splits: Splits, fewShots: map<string, seq<Row>>, excluded: seq<Excluded>)

  // ---- keys and conflicts -----------------------------------------------------------

  function Keys(rows: seq<Row>): set<int> { set r <- rows :: r.id }

  /** The keys annotated with two different answers. */
  function Conflicts(rows: seq<Row>): set<int> {
    set r <- rows, t <- rows | r.id == t.id && r.gold != t.gold :: r.id
  }

  /** Why a row after some others of its split is not prepared. */
  function Why(before: seq<Row>, row: Row, conflicts: set<int>, reserved: set<int>): Option<Reason> {
    if row.id in conflicts then Some(ConflictingAnnotation)
    else if row.id in reserved then Some(EarlierSplitOverlap)
    else if row.id in Keys(before) then Some(WithinSplitDuplicate)
    else None
  }

  function Kept(rows: seq<Row>, conflicts: set<int>, reserved: set<int>): seq<Row>
    decreases |rows|
  {
    if rows == [] then []
    else
      var front, last := rows[..|rows| - 1], rows[|rows| - 1];
      Kept(front, conflicts, reserved) + if Why(front, last, conflicts, reserved).None? then [last] else []
  }

  function Dropped(rows: seq<Row>, conflicts: set<int>, reserved: set<int>): seq<Excluded>
    decreases |rows|
  {
    if rows == [] then []
    else
      var front, last := rows[..|rows| - 1], rows[|rows| - 1];
      var why := Why(front, last, conflicts, reserved);
      Dropped(front, conflicts, reserved) + if why.Some? then [Excluded(last, why.value)] else []
  }

  function RowsOf(excluded: seq<Excluded>): seq<Row>
    decreases |excluded|
  {
    if excluded == [] then [] else RowsOf(excluded[..|excluded| - 1]) + [excluded[|excluded| - 1].row]
  }

  predicate NoRepeats(rows: seq<Row>) { forall i, j :: 0 <= i < j < |rows| ==> rows[i].id != rows[j].id }

  /** A kept row is conflict-free, not reserved, and the first of its key. */
  lemma {:induction false} KeptIs(rows: seq<Row>, conflicts: set<int>, reserved: set<int>)
    ensures NoRepeats(Kept(rows, conflicts, reserved))
    ensures Keys(Kept(rows, conflicts, reserved)) <= Keys(rows)
    ensures Keys(Kept(rows, conflicts, reserved)) !! (conflicts + reserved)
    decreases |rows|
  {
    if rows == [] {
    } else {
      var front, last := rows[..|rows| - 1], rows[|rows| - 1];
      KeptIs(front, conflicts, reserved);
      assert forall r <- front :: r in rows;
      var kept := Kept(front, conflicts, reserved);
      forall r <- kept
        ensures r.id in Keys(front)
      {
        assert r.id in Keys(kept);
      }
    }
  }

  lemma RowsOne(excluded: seq<Excluded>, e: Excluded)
    ensures RowsOf(excluded + [e]) == RowsOf(excluded) + [e.row]
  {
    assert (excluded + [e])[..|excluded|] == excluded;
  }

  /** Two lists share out a third. */
  ghost predicate Share(a: seq<Row>, b: seq<Row>, all: seq<Row>) { multiset(a) + multiset(b) == multiset(all) }

  lemma ShareNone()
    ensures Share([], [], [])
  {
  }

  lemma ShareOne(a: seq<Row>, b: seq<Row>, all: seq<Row>, x: Row)
    requires Share(a, b, all)
    ensures Share(a + [x], b, all + [x]) && Share(a, b + [x], all + [x])
  {
    assert multiset(all + [x]) == multiset(all) + multiset{x};
    assert multiset(a + [x]) == multiset(a) + multiset{x};
    assert multiset(b + [x]) == multiset(b) + multiset{x};
  }

  lemma KeptStep(front: seq<Row>, last: Row, conflicts: set<int>, reserved: set<int>)
    ensures Why(front, last, conflicts, reserved).None? ==>
              && Kept(front + [last], conflicts, reserved) == Kept(front, conflicts, reserved) + [last]
              && Dropped(front + [last], conflicts, reserved) == Dropped(front, conflicts, reserved)
    ensures Why(front, last, conflicts, reserved).Some? ==>
              && Kept(front + [last], conflicts, reserved) == Kept(front, conflicts, reserved)
              && Dropped(front + [last], conflicts, reserved)
                 == Dropped(front, conflicts, reserved) + [Excluded(last, Why(front, last, conflicts, reserved).value)]
  {
    hide Why;
    assert (front + [last])[..|front|] == front;
  }

  /** Every row is kept or dropped, and none twice. */
  lemma {:induction false} KeptOrDropped(rows: seq<Row>, conflicts: set<int>, reserved: set<int>)
    ensures Share(Kept(rows, conflicts, reserved), RowsOf(Dropped(rows, conflicts, reserved)), rows)
    decreases |rows|
  {
    hide Why, Share, Kept, Dropped, RowsOf;
    if rows == [] {
      CleanNone(rows, conflicts, reserved);
      RowsNone();
      ShareNone();
    } else {
      var front, last := rows[..|rows| - 1], rows[|rows| - 1];
      assert rows == front + [last];
      KeptOrDropped(front, conflicts, reserved);
      KeptStep(front, last, conflicts, reserved);
      ShareOne(Kept(front, conflicts, reserved), RowsOf(Dropped(front, conflicts, reserved)), front, last);
      var why := Why(front, last, conflicts, reserved);
      if why.Some? {
        RowsOne(Dropped(front, conflicts, reserved), Excluded(last, why.value));
      }
    }
  }

  lemma RowsNone()
    ensures RowsOf([]) == []
  {
  }

  method Clean(rows: seq<Row>, conflicts: set<int>, reserved: set<int>, reject: bool, excluded: seq<Excluded>)
    returns (cleaned: seq<Row>, excluded': seq<Excluded>, error: Option<Error>)
    ensures error.Some? <==> reject && Dropped(rows, conflicts, reserved) != []
    ensures error.Some? ==>
      var first := Dropped(rows, conflicts, reserved)[0];
      error.value == ExclusionRequired(first.row, first.reason)
    ensures error.None? ==>
      cleaned == Kept(rows, conflicts, reserved) && excluded' == excluded + Dropped(rows, conflicts, reserved)
  {
    hide Keys, Dropped, Kept;
    var used: set<int> := {};
    cleaned, excluded' := [], excluded;
    CleanNone(rows, conflicts, reserved);
    for i := 0 to |rows|
      invariant used == Keys(rows[..i])
      invariant cleaned == Kept(rows[..i], conflicts, reserved)
      invariant excluded' == excluded + Dropped(rows[..i], conflicts, reserved)
      invariant reject ==> Dropped(rows[..i], conflicts, reserved) == []
    {
      var key := rows[i].id;
      CleanOne(rows, conflicts, reserved, i);
      KeptStep(rows[..i], rows[i], conflicts, reserved);
      var reason := if key in conflicts then Some(ConflictingAnnotation)
                    else if key in reserved then Some(EarlierSplitOverlap)
                    else if key in used then Some(WithinSplitDuplicate) else None;
      used := used + {key};
      if reason.Some? {
        if reject {
          FirstDropped(rows, conflicts, reserved, i + 1);
          error := Some(ExclusionRequired(rows[i], reason.value));
          return;
        }
        excluded' := excluded' + [Excluded(rows[i], reason.value)];
      } else {
        cleaned := cleaned + [rows[i]];
      }
    }
    assert rows[..|rows|] == rows;
    error := None;
  }

  lemma CleanNone(rows: seq<Row>, conflicts: set<int>, reserved: set<int>)
    ensures Keys(rows[..0]) == {} && Kept(rows[..0], conflicts, reserved) == []
            && Dropped(rows[..0], conflicts, reserved) == []
  {
  }

  lemma CleanOne(rows: seq<Row>, conflicts: set<int>, reserved: set<int>, i: nat)
    requires i < |rows|
    ensures rows[..i + 1] == rows[..i] + [rows[i]]
    ensures Keys(rows[..i + 1]) == Keys(rows[..i]) + {rows[i].id}
  {
  }

  lemma {:induction false} FirstDropped(rows: seq<Row>, conflicts: set<int>, reserved: set<int>, i: nat)
    requires i <= |rows| && Dropped(rows[..i], conflicts, reserved) != []
    ensures Dropped(rows, conflicts, reserved) != []
    ensures Dropped(rows, conflicts, reserved)[0] == Dropped(rows[..i], conflicts, reserved)[0]
    decreases |rows| - i
  {
    hide Why, Keys;
    if i == |rows| {
      assert rows[..i] == rows;
    } else {
      CleanOne(rows, conflicts, reserved, i);
      KeptStep(rows[..i], rows[i], conflicts, reserved);
      FirstDropped(rows, conflicts, reserved, i + 1);
    }
  }

  // ---- development and calibration ------------------------------------------------------

  /** The rows at even, and at odd, places. */
  function Evens(rows: seq<Row>): seq<Row>
    decreases |rows|
  {
    if rows == [] then []
    else Evens(rows[..|rows| - 1]) + if (|rows| - 1) % 2 == 0 then [rows[|rows| - 1]] else []
  }

  function Odds(rows: seq<Row>): seq<Row>
    decreases |rows|
  {
    if rows == [] then []
    else Odds(rows[..|rows| - 1]) + if (|rows| - 1) % 2 == 0 then [] else [rows[|rows| - 1]]
  }

  lemma EvensStep(front: seq<Row>, last: Row)
    ensures |front| % 2 == 0 ==> Evens(front + [last]) == Evens(front) + [last] && Odds(front + [last]) == Odds(front)
    ensures |front| % 2 == 1 ==> Evens(front + [last]) == Evens(front) && Odds(front + [last]) == Odds(front) + [last]
  {
    assert (front + [last])[..|front|] == front;
  }

  lemma EvensNone()
    ensures Evens([]) == [] && Odds([]) == []
  {
  }

  lemma {:induction false} EvensAndOdds(rows: seq<Row>)
    ensures Share(Evens(rows), Odds(rows), rows)
    ensures |Evens(rows)| == |Odds(rows)| + |rows| % 2
    decreases |rows|
  {
    hide Share, Evens, Odds;
    if rows == [] {
      EvensNone();
      ShareNone();
    } else {
      var front, last := rows[..|rows| - 1], rows[|rows| - 1];
      assert rows == front + [last];
      EvensAndOdds(front);
      EvensStep(front, last);
      ShareOne(Evens(front), Odds(front), front, last);
    }
  }

  function Group(rows: seq<Row>, hash: Row -> int, s: string): seq<Row> { Sort(Of(rows, s), ByHash(hash)) }

  function Development(names: seq<string>, rows: seq<Row>, hash: Row -> int): seq<Row>
    decreases |names|
  {
    if names == [] then []
    else Development(names[..|names| - 1], rows, hash) + Evens(Group(rows, hash, names[|names| - 1]))
  }

  function Calibration(names: seq<string>, rows: seq<Row>, hash: Row -> int): seq<Row>
    decreases |names|
  {
    if names == [] then []
    else Calibration(names[..|names| - 1], rows, hash) + Odds(Group(rows, hash, names[|names| - 1]))
  }

  method Alternate(rows: seq<Row>) returns (development: seq<Row>, calibration: seq<Row>)
    ensures development == Evens(rows) && calibration == Odds(rows)
  {
    development, calibration := [], [];
    for i := 0 to |rows|
      invariant development == Evens(rows[..i]) && calibration == Odds(rows[..i])
    {
      assert rows[..i + 1][..i] == rows[..i];
      if i % 2 == 0 {
        development := development + [rows[i]];
      } else {
        calibration := calibration + [rows[i]];
      }
    }
    assert rows[..|rows|] == rows;
  }

  // ---- what sharing out keeps ----------------------------------------------------------------

  lemma TwoPlaces(rows: seq<Row>, i: nat, j: nat)
    requires i < j < |rows| && rows[i] == rows[j]
    ensures multiset(rows)[rows[i]] >= 2
  {
    assert rows == rows[..j] + rows[j..];
    assert rows[i] in rows[..j] && rows[j] in rows[j..];
    assert multiset(rows) == multiset(rows[..j]) + multiset(rows[j..]);
    assert rows[i] in multiset(rows[..j]) && rows[j] in multiset(rows[j..]);
  }

  lemma {:induction false} OneEach(rows: seq<Row>, r: Row)
    requires NoRepeats(rows)
    ensures multiset(rows)[r] <= 1
    decreases |rows|
  {
    if rows == [] {
    } else {
      var front, last := rows[..|rows| - 1], rows[|rows| - 1];
      OneEach(front, r);
      FrontAndLast(rows);
      assert r in multiset(front) <==> r in front;
    }
  }

  lemma SameRow(rows: seq<Row>, r: Row, t: Row)
    requires NoRepeats(rows) && r in rows && t in rows && r.id == t.id
    ensures r == t
  {
  }

  lemma InShare(a: seq<Row>, b: seq<Row>, all: seq<Row>, r: Row)
    requires Share(a, b, all) && (r in a || r in b)
    ensures r in all
  {
    assert r in multiset(a) || r in multiset(b);
    assert r in multiset(all);
  }

  /** Sharing out rows without repeats gives two lists without repeats and without a common key. */
  lemma SharedApart(a: seq<Row>, b: seq<Row>, all: seq<Row>)
    requires Share(a, b, all) && NoRepeats(all)
    ensures NoRepeats(a) && Keys(a) !! Keys(b) && Keys(a) <= Keys(all)
  {
    hide NoRepeats;
    forall r, t | r in a && t in b
      ensures r.id != t.id && r.id in Keys(all)
    {
      InShare(a, b, all, r);
      InShare(a, b, all, t);
      OneEach(all, r);
      assert r in multiset(a) && t in multiset(b);
      if r.id == t.id {
        SameRow(all, r, t);
      }
    }
    forall r <- a
      ensures r.id in Keys(all)
    {
      InShare(a, b, all, r);
    }
    SharedOnce(a, b, all);
  }

  lemma SharedOnce(a: seq<Row>, b: seq<Row>, all: seq<Row>)
    requires Share(a, b, all) && NoRepeats(all)
    ensures NoRepeats(a)
  {
    forall i, j | 0 <= i < j < |a|
      ensures a[i].id != a[j].id
    {
      InShare(a, b, all, a[i]);
      InShare(a, b, all, a[j]);
      OneEach(all, a[i]);
      if a[i].id == a[j].id {
        SameRow(all, a[i], a[j]);
        TwoPlaces(a, i, j);
      }
    }
  }

  // ---- every cleaned row goes to one of the two ---------------------------------------------------

  function Groups(names: seq<string>, rows: seq<Row>, hash: Row -> int): seq<Row>
    decreases |names|
  {
    if names == [] then [] else Groups(names[..|names| - 1], rows, hash) + Group(rows, hash, names[|names| - 1])
  }

  lemma {:induction false} OfCount(rows: seq<Row>, s: string, r: Row)
    ensures multiset(Of(rows, s))[r] == if r.subject == s then multiset(rows)[r] else 0
    decreases |rows|
  {
    if rows == [] {
    } else {
      OfCount(rows[..|rows| - 1], s, r);
      FrontAndLast(rows);
    }
  }

  lemma {:induction false} GroupsCount(names: seq<string>, rows: seq<Row>, hash: Row -> int, r: Row)
    requires Distinct(names)
    ensures multiset(Groups(names, rows, hash))[r] == if r.subject in names then multiset(rows)[r] else 0
    decreases |names|
  {
    if names == [] {
    } else {
      var front, last := names[..|names| - 1], names[|names| - 1];
      GroupsCount(front, rows, hash, r);
      SortKeeps(Of(rows, last), ByHash(hash));
      OfCount(rows, last, r);
      LastOnly(names, r.subject);
      hide Of, Sort, Distinct;
      assert multiset(Groups(names, rows, hash)) == multiset(Groups(front, rows, hash))
          + multiset(Group(rows, hash, last));
    }
  }

  /** The groups of all subjects are the rows, rearranged. */
  lemma GroupsAreAll(names: seq<string>, rows: seq<Row>, hash: Row -> int)
    requires Distinct(names) && forall r <- rows :: r.subject in names
    ensures multiset(Groups(names, rows, hash)) == multiset(rows)
  {
    hide Groups, Distinct;
    forall r: Row
      ensures multiset(Groups(names, rows, hash))[r] == multiset(rows)[r]
    {
      GroupsCount(names, rows, hash, r);
      if r.subject !in names {
        assert r !in rows;
      }
    }
  }

  lemma ShareTwo(a: seq<Row>, b: seq<Row>, x: seq<Row>, c: seq<Row>, d: seq<Row>, y: seq<Row>)
    requires Share(a, b, x) && Share(c, d, y)
    ensures Share(a + c, b + d, x + y)
  {
    assert multiset(a + c) == multiset(a) + multiset(c);
    assert multiset(b + d) == multiset(b) + multiset(d);
    assert multiset(x + y) == multiset(x) + multiset(y);
  }

  lemma {:induction false} AlternateShares(names: seq<string>, rows: seq<Row>, hash: Row -> int)
    ensures Share(Development(names, rows, hash), Calibration(names, rows, hash), Groups(names, rows, hash))
    decreases |names|
  {
    hide Share, Group;
    if names == [] {
      ShareNone();
    } else {
      var front, last := names[..|names| - 1], names[|names| - 1];
      AlternateShares(front, rows, hash);
      EvensAndOdds(Group(rows, hash, last));
      hide Evens, Odds;
      ShareTwo(Development(front, rows, hash), Calibration(front, rows, hash), Groups(front, rows, hash),
               Evens(Group(rows, hash, last)), Odds(Group(rows, hash, last)), Group(rows, hash, last));
    }
  }

  lemma AllNames(rows: seq<Row>, rank: string -> int)
    ensures Distinct(Names(rows, rank))
    ensures forall s :: s in Names(rows, rank) <==> s in Subjects(rows)
    ensures forall r <- rows :: r.subject in Names(rows, rank)
  {
    hide Sort, Subjects, Distinct;
    SubjectsAre(rows);
    SubjectIsListed(rows);
    SortKeeps(Subjects(rows), ByName(rank));
    SamePermutation(Subjects(rows), Names(rows, rank));
  }

  function Names(rows: seq<Row>, rank: string -> int): seq<string> { Sort(Subjects(rows), ByName(rank)) }

  /** Development and calibration share out the cleaned rows. */
  lemma DevelopmentShares(rows: seq<Row>, hash: Row -> int, rank: string -> int)
    ensures Share(Development(Names(rows, rank), rows, hash), Calibration(Names(rows, rank), rows, hash), rows)
  {
    hide Development, Calibration, Names, Distinct;
    AllNames(rows, rank);
    AlternateShares(Names(rows, rank), rows, hash);
    GroupsAreAll(Names(rows, rank), rows, hash);
  }

  lemma {:induction false} PartsArePure(rows: seq<Row>, s: string)
    requires AllOf(rows, s)
    ensures AllOf(Evens(rows), s) && AllOf(Odds(rows), s)
    decreases |rows|
  {
    if rows == [] {
    } else {
      var front := rows[..|rows| - 1];
      assert rows[|rows| - 1] in rows && forall r <- front :: r in rows;
      PartsArePure(front, s);
    }
  }

  lemma GroupIsPure(rows: seq<Row>, hash: Row -> int, s: string)
    ensures AllOf(Group(rows, hash, s), s)
  {
    hide Of, Sort;
    OfIsPure(rows, s);
    SortKeeps(Of(rows, s), ByHash(hash));
    forall r <- Group(rows, hash, s)
      ensures r.subject == s
    {
      assert r in multiset(Group(rows, hash, s));
      assert r in multiset(Of(rows, s));
      assert r in Of(rows, s);
    }
  }

  lemma {:induction false} SubjectParts(names: seq<string>, rows: seq<Row>, hash: Row -> int, s: string)
    requires Distinct(names)
    ensures Of(Development(names, rows, hash), s) == if s in names then Evens(Group(rows, hash, s)) else []
    ensures Of(Calibration(names, rows, hash), s) == if s in names then Odds(Group(rows, hash, s)) else []
    decreases |names|
  {
    hide Group, Evens, Odds;
    if names == [] {
    } else {
      hide Of;
      var front, last := names[..|names| - 1], names[|names| - 1];
      var group := Group(rows, hash, last);
      SubjectParts(front, rows, hash, s);
      GroupIsPure(rows, hash, last);
      PartsArePure(group, last);
      OfAppend(Development(front, rows, hash), Evens(group), s);
      OfAppend(Calibration(front, rows, hash), Odds(group), s);
      OfPure(Evens(group), last, s);
      OfPure(Odds(group), last, s);
      LastOnly(names, s);
    }
  }

  /** Per subject development has as many questions as calibration, or one more. */
  lemma Balanced(rows: seq<Row>, hash: Row -> int, rank: string -> int, s: string)
    ensures 0 <= |Of(Development(Names(rows, rank), rows, hash),
            s)| - |Of(Calibration(Names(rows, rank), rows, hash), s)| <= 1
  {
    hide Development, Calibration, Names, Distinct, Group, Of, Evens, Odds;
    AllNames(rows, rank);
    SubjectParts(Names(rows, rank), rows, hash, s);
    EvensAndOdds(Group(rows, hash, s));
  }

  // ---- the partition ---------------------------------------------------------------------------------

  ghost predicate IsPartition(dev: seq<Row>, validation: seq<Row>, test: seq<Row>, hash: Row -> int,
      rank: string -> int,
                              p: Prepared)
  {
    var conflicts := Conflicts(dev + validation + test);
    var cleaned := Kept(validation, conflicts, Keys(dev));
    var reserved := Keys(dev) + Keys(validation);
    && p.splits.development == Development(Names(cleaned, rank), cleaned, hash)
    && p.splits.calibration == Calibration(Names(cleaned, rank), cleaned, hash)
    && p.splits.test == Kept(test, conflicts, reserved)
    && p.excluded == Dropped(validation, conflicts, Keys(dev)) + Dropped(test, conflicts, reserved)
    && (forall s :: s in p.fewShots <==> s in Subjects(dev))
    && forall s <- p.fewShots :: p.fewShots[s] == Of(dev, s)
  }

  /** No key is in two splits or twice in one, and none is an exemplar's. */
  lemma SplitsAreSeparate(dev: seq<Row>, validation: seq<Row>, test: seq<Row>, hash: Row -> int, rank: string -> int,
      p: Prepared)
    requires IsPartition(dev, validation, test, hash, rank, p)
    ensures NoRepeats(p.splits.development) && NoRepeats(p.splits.calibration) && NoRepeats(p.splits.test)
    ensures Keys(p.splits.development) !! Keys(p.splits.calibration) !! Keys(p.splits.test) !! Keys(dev)
  {
    hide Kept, Dropped, Development, Calibration, Names, Of, Subjects, Share, NoRepeats, Conflicts, Keys;
    var conflicts := Conflicts(dev + validation + test);
    var cleaned := Kept(validation, conflicts, Keys(dev));
    var d, c, t := p.splits.development, p.splits.calibration, p.splits.test;
    KeptIs(validation, conflicts, Keys(dev));
    KeptIs(test, conflicts, Keys(dev) + Keys(validation));
    DevelopmentShares(cleaned, hash, rank);
    SharedApart(d, c, cleaned);
    ShareSwap(d, c, cleaned);
    SharedApart(c, d, cleaned);
  }

  lemma ShareSwap(a: seq<Row>, b: seq<Row>, all: seq<Row>)
    requires Share(a, b, all)
    ensures Share(b, a, all)
  {
  }

  lemma {:induction false} RowsAppend(a: seq<Excluded>, b: seq<Excluded>)
    ensures RowsOf(a + b) == RowsOf(a) + RowsOf(b)
    decreases |b|
  {
    if b == [] {
      assert a + b == a;
    } else {
      assert (a + b)[..|a + b| - 1] == a + b[..|b| - 1];
      RowsAppend(a, b[..|b| - 1]);
    }
  }

  /** Every validation and every test row is prepared or excluded, exactly once. */
  lemma EachRowOnce(dev: seq<Row>, validation: seq<Row>, test: seq<Row>, hash: Row -> int, rank: string -> int,
      p: Prepared)
    requires IsPartition(dev, validation, test, hash, rank, p)
    ensures multiset(p.splits.development) + multiset(p.splits.calibration) + multiset(p.splits.test)
            + multiset(RowsOf(p.excluded))
         == multiset(validation) + multiset(test)
  {
    hide Kept, Dropped, Development, Calibration, Names, Of, Subjects, RowsOf, Conflicts, Keys;
    var conflicts := Conflicts(dev + validation + test);
    var reserved := Keys(dev) + Keys(validation);
    var cleaned := Kept(validation, conflicts, Keys(dev));
    DevelopmentShares(cleaned, hash, rank);
    KeptOrDropped(validation, conflicts, Keys(dev));
    KeptOrDropped(test, conflicts, reserved);
    RowsAppend(Dropped(validation, conflicts, Keys(dev)), Dropped(test, conflicts, reserved));
  }

  /** The answers seen for each key of some rows. */
  function Golds(rows: seq<Row>, key: int): set<string> { set r <- rows | r.id == key :: r.gold }

  lemma GoldsOne(rows: seq<Row>, r: Row, key: int)
    ensures Golds(rows + [r], key) == Golds(rows, key) + if r.id == key then {r.gold} else {}
    ensures Keys(rows + [r]) == Keys(rows) + {r.id}
  {
    assert forall t <- rows + [r] :: t in rows || t == r;
    assert r in rows + [r] && forall t <- rows :: t in rows + [r];
  }

  lemma TwoGolds(rows: seq<Row>, key: int)
    ensures key in Conflicts(rows) <==> |Golds(rows, key)| > 1
  {
    var golds := Golds(rows, key);
    if key in Conflicts(rows) {
      var r, t :| r in rows && t in rows && r.id == t.id == key && r.gold != t.gold;
      assert {r.gold, t.gold} <= golds;
      Subset({r.gold, t.gold}, golds);
    }
    if |golds| > 1 {
      var a :| a in golds;
      assert golds - {a} != {} by {
        assert golds - {a} == {} ==> golds == {a};
      }
      var b :| b in golds - {a};
    }
  }

  lemma Subset(a: set<string>, b: set<string>)
    requires a <= b
    ensures |a| <= |b|
  {
    assert b == a + (b - a);
  }

  method FindConflicts(rows: seq<Row>) returns (conflicts: set<int>)
    ensures conflicts == Conflicts(rows)
  {
    hide Golds, Conflicts, Keys;
    var golds: map<int, set<string>> := map[];
    NoGolds();
    for i := 0 to |rows|
      invariant forall k :: k in golds <==> k in Keys(rows[..i])
      invariant forall k <- golds :: golds[k] == Golds(rows[..i], k)
      invariant forall k :: k !in golds ==> Golds(rows[..i], k) == {}
    {
      assert rows[..i + 1] == rows[..i] + [rows[i]];
      forall k: int
        ensures Golds(rows[..i + 1], k) == Golds(rows[..i], k) + if rows[i].id == k then {rows[i].gold} else {}
        ensures Keys(rows[..i + 1]) == Keys(rows[..i]) + {rows[i].id}
      {
        GoldsOne(rows[..i], rows[i], k);
      }
      var key := rows[i].id;
      golds := golds[key := (if key in golds then golds[key] else {}) + {rows[i].gold}];
    }
    assert rows[..|rows|] == rows;
    conflicts := set k <- golds | |golds[k]| > 1;
    forall k: int
      ensures k in conflicts <==> k in Conflicts(rows)
    {
      TwoGolds(rows, k);
    }
  }

  lemma NoGolds()
    ensures Keys([]) == {} && forall k :: Golds([], k) == {}
  {
  }

  predicate Overlaps(sets: seq<set<int>>) {
    exists i, j :: 0 <= i < j < |sets| && sets[i] * sets[j] != {}
  }

  lemma DisjointIs(a: set<int>, b: set<int>)
    ensures a * b == {} <==> a !! b
  {
    forall x: int
      ensures x in a * b <==> x in a && x in b
    {
    }
    if a * b == {} {
      forall x <- a
        ensures x !in b
      {
        assert x in a * b <==> x in b;
      }
    }
  }

  method Spread(cleaned: seq<Row>, hash: Row -> int, rank: string -> int)
    returns (development: seq<Row>, calibration: seq<Row>)
    ensures development == Development(Names(cleaned, rank), cleaned, hash)
    ensures calibration == Calibration(Names(cleaned, rank), cleaned, hash)
  {
    hide Of, Subjects, Evens, Odds, Distinct;
    var grouped, subjects := Questions.Group(cleaned);
    var names := Sort(subjects, ByName(rank));
    AllNames(cleaned, rank);
    hide Sort;
    development, calibration := [], [];
    for i := 0 to |names|
      invariant development == Development(names[..i], cleaned, hash)
      invariant calibration == Calibration(names[..i], cleaned, hash)
    {
      assert names[..i + 1][..i] == names[..i];
      assert names[i] in names;
      var evens, odds := Alternate(Sort(grouped[names[i]], ByHash(hash)));
      development, calibration := development + evens, calibration + odds;
    }
    assert names[..|names|] == names;
  }

  method FewShots(dev: seq<Row>, conflicts: set<int>) returns (shots: Result<map<string, seq<Row>>, Error>)
    ensures shots.Err? <==> Keys(dev) * conflicts != {}
    ensures shots.Err? ==> shots.error == ConflictInExemplars
    ensures shots.Ok? ==> forall s :: s in shots.value <==> s in Subjects(dev)
    ensures shots.Ok? ==> forall s <- shots.value :: shots.value[s] == Of(dev, s)
  {
    hide Subjects, Of, Distinct;
    for i := 0 to |dev|
      invariant forall r <- dev[..i] :: r.id !in conflicts
    {
      assert dev[..i + 1] == dev[..i] + [dev[i]];
      if dev[i].id in conflicts {
        assert dev[i].id in Keys(dev) * conflicts;
        return Err(ConflictInExemplars);
      }
    }
    assert dev[..|dev|] == dev;
    var grouped, subjects := Questions.Group(dev);
    shots := Ok(grouped);
  }

  method Partition(dev: seq<Row>, validation: seq<Row>, test: seq<Row>, policy: string, hash: Row -> int,
      rank: string -> int)
    returns (p: Result<Prepared, Error>)
    ensures p.Ok? ==> IsPartition(dev, validation, test, hash, rank, p.value)
    ensures p.Ok? <==>
            && (policy == "exclude" || (policy == "reject" && Excludes(dev, validation, test) == []))
            && Keys(dev) !! Conflicts(dev + validation + test)
    ensures p.Err? ==> Refused(dev, validation, test, policy, p.error) && p.error != SeparationFailed
  {
    hide Keys, Conflicts, Kept, Dropped, Of, Subjects, Development, Calibration, Names, NoRepeats;
    if policy != "reject" && policy != "exclude" {
      return Err(PolicyRequired);
    }
    var conflicts := FindConflicts(dev + validation + test);
    var shots := FewShots(dev, conflicts);
    if shots.Err? {
      return Err(shots.error);
    }
    DisjointIs(Keys(dev), conflicts);
    var reserved := Keys(dev);
    var cleaned, excluded, error := Clean(validation, conflicts, reserved, policy == "reject", []);
    if error.Some? {
      return Err(error.value);
    }
    reserved := reserved + Keys(validation);
    var tests;
    tests, excluded, error := Clean(test, conflicts, reserved, policy == "reject", excluded);
    if error.Some? {
      return Err(error.value);
    }
    var development, calibration := Spread(cleaned, hash, rank);
    var result := Prepared(Splits(development, calibration, tests), shots.value, excluded);
    assert [] + Dropped(validation, conflicts, Keys(dev)) == Dropped(validation, conflicts, Keys(dev));
    SplitsAreSeparate(dev, validation, test, hash, rank, result);
    var sets := [Keys(development), Keys(calibration), Keys(tests)];
    p := if Overlaps(sets) then Err(SeparationFailed) else Ok(result);
  }

  /** What the policy would exclude, in the order it is found. */
  function Excludes(dev: seq<Row>, validation: seq<Row>, test: seq<Row>): seq<Excluded> {
    var conflicts := Conflicts(dev + validation + test);
    Dropped(validation, conflicts, Keys(dev)) + Dropped(test, conflicts, Keys(dev) + Keys(validation))
  }

  /** Why a partition is refused. */
  predicate Refused(dev: seq<Row>, validation: seq<Row>, test: seq<Row>, policy: string, e: Error) {
    if policy != "reject" && policy != "exclude" then e == PolicyRequired
    else if Keys(dev) * Conflicts(dev + validation + test) != {} then e == ConflictInExemplars
    else
      var found := Excludes(dev, validation, test);
      found != [] && e == ExclusionRequired(found[0].row, found[0].reason)
  }

  // ---- the splits, row by row --------------------------------------------------------------------------

  /** Why row i is not prepared: two of all rows answer its question differently; or it is
      among the reserved ones; or it was in its split before. */
  ghost function ReasonOf(all: seq<Row>, taken: seq<Row>, rows: seq<Row>, i: nat): Option<Reason>
    requires i < |rows|
  {
    var key := rows[i].id;
    if exists a, b :: 0 <= a < b < |all| && all[a].id == key && all[b].id == key && all[a].gold != all[b].gold then
      Some(ConflictingAnnotation)
    else if exists a :: 0 <= a < |taken| && taken[a].id == key then Some(EarlierSplitOverlap)
    else if exists j :: 0 <= j < i && rows[j].id == key then Some(WithinSplitDuplicate)
    else None
  }

  /** The rows before place n with nothing against them. */
  ghost function Good(all: seq<Row>, taken: seq<Row>, rows: seq<Row>, n: nat): set<nat> {
    set i: nat | i < n && i < |rows| && ReasonOf(all, taken, rows, i).None?
  }

  lemma WhyIs(all: seq<Row>, taken: seq<Row>, rows: seq<Row>, i: nat)
    requires i < |rows|
    ensures Why(rows[..i], rows[i], Conflicts(all), Keys(taken)) == ReasonOf(all, taken, rows, i)
  {
    var key := rows[i].id;
    if key in Conflicts(all) {
      var r, t :| r in all && t in all && r.id == t.id == key && r.gold != t.gold;
      var a :| 0 <= a < |all| && all[a] == r;
      var b :| 0 <= b < |all| && all[b] == t;
      assert a < b || b < a;
    }
    if key in Keys(rows[..i]) {
      var r :| r in rows[..i] && r.id == key;
      var j :| 0 <= j < i && rows[..i][j] == r;
      assert rows[j].id == key;
    }
    if j :| 0 <= j < i && rows[j].id == key {
      assert rows[..i][j] in rows[..i];
    }
  }

  lemma GoodNext(all: seq<Row>, taken: seq<Row>, rows: seq<Row>, n: nat)
    requires n < |rows|
    ensures |Good(all, taken, rows, 0)| == 0
    ensures |Good(all, taken, rows, n + 1)| ==
            |Good(all, taken, rows, n)| + if ReasonOf(all, taken, rows, n).None? then 1 else 0
  {
    hide ReasonOf;
    assert Good(all, taken, rows, 0) == {};
    if ReasonOf(all, taken, rows, n).None? {
      assert Good(all, taken, rows, n + 1) == Good(all, taken, rows, n) + {n};
    } else {
      assert Good(all, taken, rows, n + 1) == Good(all, taken, rows, n);
    }
  }

  /** The first n rows: so many good ones are kept, the others are dropped. */
  lemma {:induction false} CleanCounts(all: seq<Row>, taken: seq<Row>, rows: seq<Row>, n: nat)
    requires n <= |rows|
    ensures |Kept(rows[..n], Conflicts(all), Keys(taken))| == |Good(all, taken, rows, n)| <= n
    ensures |Dropped(rows[..n], Conflicts(all), Keys(taken))| == n - |Good(all, taken, rows, n)|
    decreases n
  {
    hide Conflicts, Keys, Why, ReasonOf, Good, Kept, Dropped;
    if n == 0 {
      CleanNone(rows, Conflicts(all), Keys(taken));
      NoGood(all, taken, rows);
    } else {
      CleanCounts(all, taken, rows, n - 1);
      GoodNext(all, taken, rows, n - 1);
      WhyIs(all, taken, rows, n - 1);
      KeptStep(rows[..n - 1], rows[n - 1], Conflicts(all), Keys(taken));
      assert rows[..n] == rows[..n - 1] + [rows[n - 1]];
    }
  }

  lemma NoGood(all: seq<Row>, taken: seq<Row>, rows: seq<Row>)
    ensures |Good(all, taken, rows, 0)| == 0
  {
    assert Good(all, taken, rows, 0) == {};
  }

  lemma {:induction false} CleanGrows(rows: seq<Row>, conflicts: set<int>, reserved: set<int>, i: nat, n: nat)
    requires i <= n <= |rows|
    ensures Kept(rows[..i], conflicts, reserved) <= Kept(rows[..n], conflicts, reserved)
    ensures Dropped(rows[..i], conflicts, reserved) <= Dropped(rows[..n], conflicts, reserved)
    decreases n - i
  {
    hide Why, Keys, Kept, Dropped;
    if i < n {
      CleanGrows(rows, conflicts, reserved, i, n - 1);
      assert rows[..n] == rows[..n - 1] + [rows[n - 1]];
      KeptStep(rows[..n - 1], rows[n - 1], conflicts, reserved);
    }
  }

  /** Each row of a split is where it belongs: kept, after the good ones before it, or dropped with its reason. */
  lemma CleanExactly(all: seq<Row>, taken: seq<Row>, rows: seq<Row>, i: nat)
    requires i < |rows|
    ensures var kept, dropped := Kept(rows, Conflicts(all), Keys(taken)), Dropped(rows, Conflicts(all), Keys(taken));
      var good, why := |Good(all, taken, rows, i)|, ReasonOf(all, taken, rows, i);
      && good <= i
      && |kept| == |Good(all, taken, rows, |rows|)| && |dropped| == |rows| - |kept|
      && (why.None? ==> good < |kept| && kept[good] == rows[i])
      && (why.Some? ==> i - good < |dropped| && dropped[i - good] == Excluded(rows[i], why.value))
  {
    hide Conflicts, Keys, Why, ReasonOf, Good, Kept, Dropped;
    var conflicts, reserved := Conflicts(all), Keys(taken);
    assert rows[..|rows|] == rows;
    CleanCounts(all, taken, rows, i);
    CleanCounts(all, taken, rows, |rows|);
    WhyIs(all, taken, rows, i);
    KeptStep(rows[..i], rows[i], conflicts, reserved);
    assert rows[..i + 1] == rows[..i] + [rows[i]];
    CleanGrows(rows, conflicts, reserved, i + 1, |rows|);
  }

  /** Alternation by place. */
  lemma {:induction false} EvensAre(rows: seq<Row>, k: nat)
    ensures |Evens(rows)| == (|rows| + 1) / 2 && |Odds(rows)| == |rows| / 2
    ensures 2 * k < |rows| ==> Evens(rows)[k] == rows[2 * k]
    ensures 2 * k + 1 < |rows| ==> Odds(rows)[k] == rows[2 * k + 1]
    decreases |rows|
  {
    if rows == [] {
    } else {
      EvensAre(rows[..|rows| - 1], k);
    }
  }

  lemma KeysAppend(a: seq<Row>, b: seq<Row>)
    ensures Keys(a + b) == Keys(a) + Keys(b)
  {
    assert forall r :: r in a + b <==> r in a || r in b;
  }

  /** A partition, question by question: the test rows and the exclusions are those of each
      split, with the keys of the earlier ones reserved; the validation rows of a subject that
      are kept go, in the order of their hashes, by turns to development and calibration. */
  lemma SplitsExactly(dev: seq<Row>, validation: seq<Row>, test: seq<Row>, hash: Row -> int, rank: string -> int,
      p: Prepared, s: string, k: nat)
    requires IsPartition(dev, validation, test, hash, rank, p)
    ensures var all := dev + validation + test;
      var cleaned := Kept(validation, Conflicts(all), Keys(dev));
      var group := Sort(Of(cleaned, s), ByHash(hash));
      && p.splits.test == Kept(test, Conflicts(all), Keys(dev + validation))
      && p.excluded ==
           Dropped(validation, Conflicts(all), Keys(dev)) + Dropped(test, Conflicts(all), Keys(dev + validation))
      && (forall a, b :: 0 <= a < b < |group| ==> hash(group[a]) <= hash(group[b]))
      && multiset(group) == multiset(Of(cleaned, s))
      && |Of(p.splits.development, s)| == (|group| + 1) / 2 && |Of(p.splits.calibration, s)| == |group| / 2
      && (2 * k < |group| ==> Of(p.splits.development, s)[k] == group[2 * k])
      && (2 * k + 1 < |group| ==> Of(p.splits.calibration, s)[k] == group[2 * k + 1])
  {
    hide Kept, Dropped, Development, Calibration, Names, Of, Subjects, Evens, Odds, Conflicts, Keys, Distinct, Sort;
    var cleaned := Kept(validation, Conflicts(dev + validation + test), Keys(dev));
    KeysAppend(dev, validation);
    AllNames(cleaned, rank);
    SubjectParts(Names(cleaned, rank), cleaned, hash, s);
    SubjectsAre(cleaned);
    EvensAre(Group(cleaned, hash, s), k);
    SortKeeps(Of(cleaned, s), ByHash(hash));
    SortOrdered(Of(cleaned, s), ByHash(hash));
  }

  /** Both splits go subject by subject, in the order of the names. */
  lemma {:induction false} SubjectsInOrder(names: seq<string>, rows: seq<Row>, hash: Row -> int, rank: string -> int)
    requires Ordered(names, ByName(rank))
    ensures InBlocks(Development(names, rows, hash), names, rank)
    ensures InBlocks(Calibration(names, rows, hash), names, rank)
    decreases |names|
  {
    hide InBlocks, Group, AllOf;
    if names == [] {
      NoBlocks(rank);
    } else {
      var front, last := names[..|names| - 1], names[|names| - 1];
      SubjectsInOrder(front, rows, hash, rank);
      GroupIsPure(rows, hash, last);
      PartsArePure(Group(rows, hash, last), last);
      assert names == front + [last];
      forall s <- front
        ensures rank(s) <= rank(last)
      {
        var i :| 0 <= i < |front| && front[i] == s;
        assert names[i] == s;
      }
      BlocksThen(Development(front, rows, hash), front, rank, Evens(Group(rows, hash, last)), last);
      BlocksThen(Calibration(front, rows, hash), front, rank, Odds(Group(rows, hash, last)), last);
    }
  }
}
