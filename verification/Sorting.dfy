// Stable sorting by an order, as Python's sorted does it.
module Sorting {
  ghost predicate TotalOrder<T(!new)>(le: (T, T) -> bool) {
    && (forall x, y :: le(x, y) || le(y, x))
    && forall x, y, z :: le(x, y) && le(y, z) ==> le(x, z)
  }

  ghost predicate Ordered<T>(s: seq<T>, le: (T, T) -> bool) {
    forall i, j :: 0 <= i < j < |s| ==> le(s[i], s[j])
  }

  function Insert<T>(s: seq<T>, x: T, le: (T, T) -> bool): seq<T>
    decreases |s|
  {
    if s == [] || le(s[|s| - 1], x) then s + [x] else Insert(s[..|s| - 1], x, le) + [s[|s| - 1]]
  }

  function Sort<T>(xs: seq<T>, le: (T, T) -> bool): seq<T>
    decreases |xs|
  {
    if xs == [] then [] else Insert(Sort(xs[..|xs| - 1], le), xs[|xs| - 1], le)
  }

  lemma FrontAndLast<T>(s: seq<T>)
    requires s != []
    ensures s == s[..|s| - 1] + [s[|s| - 1]]
    ensures multiset(s) == multiset(s[..|s| - 1]) + multiset{s[|s| - 1]}
  {
    assert s == s[..|s| - 1] + [s[|s| - 1]];
  }

  lemma {:induction false} InsertKeeps<T>(s: seq<T>, x: T, le: (T, T) -> bool)
    ensures multiset(Insert(s, x, le)) == multiset(s) + multiset{x} && |Insert(s, x, le)| == |s| + 1
    decreases |s|
  {
    if s != [] && !le(s[|s| - 1], x) {
      FrontAndLast(s);
      InsertKeeps(s[..|s| - 1], x, le);
    }
  }

  /** Sorting is a rearrangement. */
  lemma {:induction false} SortKeeps<T>(xs: seq<T>, le: (T, T) -> bool)
    ensures multiset(Sort(xs, le)) == multiset(xs) && |Sort(xs, le)| == |xs|
    decreases |xs|
  {
    hide Insert;
    if xs == [] {
    } else {
      FrontAndLast(xs);
      SortKeeps(xs[..|xs| - 1], le);
      InsertKeeps(Sort(xs[..|xs| - 1], le), xs[|xs| - 1], le);
    }
  }

  ghost predicate AllBefore<T>(s: seq<T>, last: T, le: (T, T) -> bool) {
    forall i :: 0 <= i < |s| ==> le(s[i], last)
  }

  lemma BeforeLast<T>(s: seq<T>, last: T, x: T, le: (T, T) -> bool)
    requires AllBefore(s, last, le) && le(x, last)
    ensures AllBefore(Insert(s, x, le), last, le)
  {
    InsertKeeps(s, x, le);
    var t := Insert(s, x, le);
    hide Insert;
    forall i | 0 <= i < |t|
      ensures le(t[i], last)
    {
      assert t[i] in multiset(t);
      if t[i] != x {
        assert t[i] in multiset(s);
        assert t[i] in s;
      }
    }
  }

  lemma {:induction false} InsertOrdered<T(!new)>(s: seq<T>, x: T, le: (T, T) -> bool)
    requires TotalOrder(le) && Ordered(s, le)
    ensures Ordered(Insert(s, x, le), le)
    decreases |s|
  {
    if s == [] {
    } else if le(s[|s| - 1], x) {
      forall i | 0 <= i < |s|
        ensures le(s[i], x)
      {
        if i < |s| - 1 {
          assert le(s[i], s[|s| - 1]);
        }
      }
    } else {
      var front, last := s[..|s| - 1], s[|s| - 1];
      InsertOrdered(front, x, le);
      assert le(x, last);
      BeforeLast(front, last, x, le);
    }
  }

  lemma {:induction false} SortOrdered<T(!new)>(xs: seq<T>, le: (T, T) -> bool)
    requires TotalOrder(le)
    ensures Ordered(Sort(xs, le), le)
    decreases |xs|
  {
    hide Insert, TotalOrder, Ordered;
    if xs != [] {
      SortOrdered(xs[..|xs| - 1], le);
      InsertOrdered(Sort(xs[..|xs| - 1], le), xs[|xs| - 1], le);
    } else {
      OrderedNone<T>(le);
    }
  }

  lemma OrderedNone<T>(le: (T, T) -> bool)
    ensures Ordered([], le)
  {
  }

  // ---- stability ----------------------------------------------------------------------

  /** The elements that tie with a, in order. */
  function Ties<T>(s: seq<T>, le: (T, T) -> bool, a: T): seq<T>
    decreases |s|
  {
    if s == [] then []
    else Ties(s[..|s| - 1], le, a) + if le(s[|s| - 1], a) && le(a, s[|s| - 1]) then [s[|s| - 1]] else []
  }

  lemma TiesOne<T>(s: seq<T>, x: T, le: (T, T) -> bool, a: T)
    ensures Ties(s + [x], le, a) == Ties(s, le, a) + if le(x, a) && le(a, x) then [x] else []
  {
    assert (s + [x])[..|s|] == s;
  }

  lemma {:induction false} InsertStable<T(!new)>(s: seq<T>, x: T, le: (T, T) -> bool, a: T)
    requires TotalOrder(le)
    ensures Ties(Insert(s, x, le), le, a) == Ties(s + [x], le, a)
    decreases |s|
  {
    hide Ties;
    if s != [] && !le(s[|s| - 1], x) {
      var front, last := s[..|s| - 1], s[|s| - 1];
      InsertStable(front, x, le, a);
      FrontAndLast(s);
      TiesOne(Insert(front, x, le), last, le, a);
      TiesOne(front, x, le, a);
      TiesOne(front, last, le, a);
      TiesOne(s, x, le, a);
    }
  }

  /** Elements that tie stay in their order. */
  lemma {:induction false} SortStable<T(!new)>(xs: seq<T>, le: (T, T) -> bool, a: T)
    requires TotalOrder(le)
    ensures Ties(Sort(xs, le), le, a) == Ties(xs, le, a)
    decreases |xs|
  {
    hide Insert, TotalOrder;
    if xs == [] {
    } else {
      var front, last := xs[..|xs| - 1], xs[|xs| - 1];
      SortStable(front, le, a);
      InsertStable(Sort(front, le), last, le, a);
      TiesOne(Sort(front, le), last, le, a);
    }
  }
}
