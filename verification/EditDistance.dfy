// The word-level edit distance of tools/eval_audio_wer.py: two rolling rows against
// the recursive definition, the least cost of an edit script, and the metric laws.
module EditDistance {
  import opened Arithmetic
  import opened Results

  function Differ<T(==)>(x: T, y: T): nat { if x != y then 1 else 0 }

  function Front<T>(s: seq<T>): seq<T>
    requires s != []
  {
    s[..|s| - 1]
  }

  function Last<T>(s: seq<T>): T
    requires s != []
  {
    s[|s| - 1]
  }

  /** The recursive Levenshtein distance. */
  function Lev<T(==)>(a: seq<T>, b: seq<T>): nat
    decreases |a| + |b|
  {
    if a == [] then |b|
    else if b == [] then |a|
    else Min(Min(Lev(Front(a), b) + 1, Lev(a, Front(b)) + 1), Lev(Front(a), Front(b)) + Differ(Last(a), Last(b)))
  }

  lemma LevUnfold<T>(x: seq<T>, y: seq<T>, up: nat, left: nat, diagonal: nat)
    requires x != [] && y != []
    requires up == Lev(Front(x), y) && left == Lev(x, Front(y)) && diagonal == Lev(Front(x), Front(y))
    ensures Lev(x, y) == Min(Min(up + 1, left + 1), diagonal + Differ(Last(x), Last(y)))
  {
    hide Min, Differ, Front, Last;
  }

  lemma FrontOfPrefix<T>(a: seq<T>, i: nat)
    requires 0 < i <= |a|
    ensures a[..i] != [] && Front(a[..i]) == a[..i - 1] && Last(a[..i]) == a[i - 1]
  {
  }

  lemma LevStep<T>(a: seq<T>, b: seq<T>, i: nat, j: nat)
    requires 0 < i <= |a| && 0 < j <= |b|
    ensures Lev(a[..i], b[..j])
         == Min(Min(Lev(a[..i - 1], b[..j]) + 1, Lev(a[..i], b[..j - 1]) + 1),
                Lev(a[..i - 1], b[..j - 1]) + Differ(a[i - 1], b[j - 1]))
  {
    hide *;
    FrontOfPrefix(a, i);
    FrontOfPrefix(b, j);
    LevUnfold(a[..i], b[..j], Lev(a[..i - 1], b[..j]), Lev(a[..i], b[..j - 1]), Lev(a[..i - 1], b[..j - 1]));
  }

  lemma LevBase<T>(a: seq<T>, b: seq<T>, i: nat)
    requires i <= |a|
    ensures Lev(a[..i], b[..0]) == i
  {
  }

  /** A row of the table: the distances of one list from every prefix of b. */
  ghost predicate IsRow<T>(row: seq<nat>, a: seq<T>, i: nat, b: seq<T>, n: nat)
    requires i <= |a| && n <= |b| + 1
  {
    && |row| == n
    && forall j :: 0 <= j < n ==> row[j] == Lev(a[..i], b[..j])
  }

  method EditDistance<T(==)>(a: seq<T>, b: seq<T>) returns (d: nat)
    ensures d == Lev(a, b)
  {
    hide Lev;
    var prev: seq<nat> := FirstRow(a, b);
    for i := 1 to |a| + 1
      invariant IsRow(prev, a, i - 1, b, |b| + 1)
    {
      prev := NextRow(a, i, b, prev);
    }
    d := prev[|prev| - 1];
    assert a[..|a|] == a && b[..|b|] == b;
  }

  /** The row of the empty list, the plain range of counts. */
  method FirstRow<T>(a: seq<T>, b: seq<T>) returns (row: seq<nat>)
    ensures IsRow(row, a, 0, b, |b| + 1)
  {
    row := seq(|b| + 1, j => j);
  }

  /** The inner loop: from the row before word i to the row after it. */
  method NextRow<T(==)>(a: seq<T>, i: nat, b: seq<T>, prev: seq<nat>) returns (cur: seq<nat>)
    requires 0 < i <= |a|
    requires IsRow(prev, a, i - 1, b, |b| + 1)
    ensures IsRow(cur, a, i, b, |b| + 1)
  {
    hide Lev;
    LevBase(a, b, i);
    cur := [i];
    for j := 1 to |b| + 1
      invariant IsRow(cur, a, i, b, j)
    {
      LevStep(a, b, i, j);
      cur := cur + [Min(Min(prev[j] + 1, cur[j - 1] + 1), prev[j - 1] + Differ(a[i - 1], b[j - 1]))];
    }
  }

  // ---- edit scripts -------------------------------------------------------------

  datatype Edit<T> = Keep | Replace(with: T) | Insert(new': T) | Delete

  /** What a script makes of a word list, one edit per place in order; None if it does not fit. */
  function Apply<T>(script: seq<Edit<T>>, a: seq<T>): Option<seq<T>>
    decreases |script|
  {
    if script == [] then if a == [] then Some([]) else None
    else
      var e := Last(script);
      if !e.Insert? && a == [] then None
      else
        match Apply(Front(script), if e.Insert? then a else Front(a))
        case None => None
        case Some(b) => Some(Extended(e, a, b))
  }

  /** What the last edit makes of the words made so far. */
  function Extended<T>(e: Edit<T>, a: seq<T>, b: seq<T>): seq<T>
    requires !e.Insert? ==> a != []
  {
    match e
    case Keep => b + [Last(a)]
    case Replace(x) => b + [x]
    case Insert(x) => b + [x]
    case Delete => b
  }

  function Cost<T>(script: seq<Edit<T>>): nat {
    if script == [] then 0 else Cost(Front(script)) + if Last(script).Keep? then 0 else 1
  }

  lemma {:induction false} NoCheaperScript<T>(script: seq<Edit<T>>, a: seq<T>, b: seq<T>)
    requires Apply(script, a) == Some(b)
    ensures Lev(a, b) <= Cost(script)
    decreases |script|
  {
    if script == [] {
    } else {
      var e := Last(script);
      var a' := if e.Insert? then a else Front(a);
      var b' := Apply(Front(script), a').value;
      NoCheaperScript(Front(script), a', b');
      assert !e.Delete? ==> Front(b) == b';
    }
  }

  /** One more edit at the end of a script. */
  lemma {:induction false} AppendEdit<T>(script: seq<Edit<T>>, e: Edit<T>, a: seq<T>)
    requires !e.Insert? ==> a != []
    requires Apply(script, if e.Insert? then a else Front(a)).Some?
    ensures Apply(script + [e], a)
         == Some(Extended(e, a, Apply(script, if e.Insert? then a else Front(a)).value))
    ensures Cost(script + [e]) == Cost(script) + if e.Keep? then 0 else 1
  {
    assert Front(script + [e]) == script && Last(script + [e]) == e;
  }

  lemma Rejoin<T>(b: seq<T>)
    requires b != []
    ensures Front(b) + [Last(b)] == b
  {
  }

  /** A script of exactly that cost. */
  lemma {:induction false} BestScript<T>(a: seq<T>, b: seq<T>) returns (script: seq<Edit<T>>)
    ensures Apply(script, a) == Some(b) && Cost(script) == Lev(a, b)
    decreases |a| + |b|
  {
    hide Apply, Cost;
    if a == [] && b == [] {
      script := EmptyScript(a, b);
    } else if a == [] || (b != [] && Lev(a, b) == Lev(a, Front(b)) + 1) {
      script := BestScript(a, Front(b));
      AppendEdit(script, Insert(Last(b)), a);
      Rejoin(b);
      script := script + [Insert(Last(b))];
    } else if b == [] || Lev(a, b) == Lev(Front(a), b) + 1 {
      script := BestScript(Front(a), b);
      AppendEdit(script, Delete, a);
      script := script + [Delete];
    } else {
      script := BestScript(Front(a), Front(b));
      var e := if Last(a) == Last(b) then Keep else Replace(Last(b));
      AppendEdit(script, e, a);
      Rejoin(b);
      script := script + [e];
    }
  }

  lemma EmptyScript<T>(a: seq<T>, b: seq<T>) returns (script: seq<Edit<T>>)
    requires a == [] && b == []
    ensures Apply(script, a) == Some(b) && Cost(script) == Lev(a, b)
  {
    script := [];
  }

  /** The distance is the least cost over all edit scripts. */
  lemma LeastCost<T>(a: seq<T>, b: seq<T>)
    ensures exists s: seq<Edit<T>> :: Apply(s, a) == Some(b) && Cost(s) == Lev(a, b)
    ensures forall s: seq<Edit<T>> :: Apply(s, a) == Some(b) ==> Lev(a, b) <= Cost(s)
  {
    var s := BestScript(a, b);
    forall s: seq<Edit<T>> | Apply(s, a) == Some(b)
      ensures Lev(a, b) <= Cost(s)
    {
      NoCheaperScript(s, a, b);
    }
  }

  // ---- a metric -------------------------------------------------------------------

  lemma {:induction false} Symmetric<T>(a: seq<T>, b: seq<T>)
    ensures Lev(a, b) == Lev(b, a)
    decreases |a| + |b|
  {
    if a != [] && b != [] {
      Symmetric(Front(a), b);
      Symmetric(a, Front(b));
      Symmetric(Front(a), Front(b));
    }
  }

  lemma {:induction false} ZeroOnEqual<T>(a: seq<T>)
    ensures Lev(a, a) == 0
    decreases |a|
  {
    if a == [] {
    } else {
      ZeroOnEqual(Front(a));
    }
  }

  lemma {:induction false} ZeroOnlyOnEqual<T>(a: seq<T>, b: seq<T>)
    ensures Lev(a, b) == 0 <==> a == b
    decreases |a|
  {
    if a == b {
      ZeroOnEqual(a);
    } else if a != [] && b != [] {
      ZeroOnlyOnEqual(Front(a), Front(b));
      assert a == Front(a) + [Last(a)] && b == Front(b) + [Last(b)];
    }
  }

  /** Between the length difference and the longer length. */
  lemma {:induction false} Bounds<T>(a: seq<T>, b: seq<T>)
    ensures |a| - |b| <= Lev(a, b) && |b| - |a| <= Lev(a, b)
    ensures Lev(a, b) <= |a| || Lev(a, b) <= |b|
    decreases |a| + |b|
  {
    if a != [] && b != [] {
      Bounds(Front(a), b);
      Bounds(a, Front(b));
      Bounds(Front(a), Front(b));
    }
  }

  lemma {:induction false} Triangle<T>(a: seq<T>, b: seq<T>, c: seq<T>)
    ensures Lev(a, c) <= Lev(a, b) + Lev(b, c)
    decreases |a| + |b| + |c|
  {
    if a == [] || b == [] || c == [] {
      Bounds(a, c);
      Bounds(a, b);
      Bounds(b, c);
    } else {
      Triangle(Front(a), b, c);
      Triangle(a, b, Front(c));
      Triangle(a, Front(b), c);
      Triangle(a, Front(b), Front(c));
      Triangle(Front(a), Front(b), c);
      Triangle(Front(a), Front(b), Front(c));
    }
  }
}
