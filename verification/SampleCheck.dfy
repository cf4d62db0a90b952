// The check of a benchmark's samples in tools/bench_decision.py (94-150): every sample once
// and in its place, sound numbers, and implementations that agree.
module SampleCheck {
  import opened Results
  import opened ModeRotation

  const DENSE := "decision_dense"
  const SCORED := "scorealt_dense"
  const SELECTED := "decision_selected"

  /** What the check needs of a case: its prompt's length, its candidates, the right one. */
  datatype Case = Case(prompt: nat, candidates: seq<nat>, target: Option<nat>)

  /** Numbers that are not finite are None. */
  datatype Answer =
    | Scores(best: int, logits: seq<Option<real>>, probabilities: seq<Option<real>>)
    | Tokens(ids: seq<nat>)

  datatype Instruments = Instruments(rows: int, readback: int, head: real)

  datatype Record = Record(place: Sample, elapsed: Option<real>, prompt: nat, candidates: nat, answer: Answer,
                           instruments: Option<Instruments>)

  predicate Decides(mode: string) { mode == DENSE || mode == SCORED || mode == SELECTED }

  // ---- one sample -------------------------------------------------------------------

  function Abs(x: real): real { if x < 0.0 then -x else x }

  function Larger(x: real, y: real): real { if x < y then y else x }

  predicate Close(a: real, b: real, rel: real, abs: real) {
    Abs(a - b) <= Larger(rel * Larger(Abs(a), Abs(b)), abs)
  }

  function Total(ps: seq<Option<real>>): real
    decreases |ps|
  {
    if ps == [] then 0.0 else Total(ps[..|ps| - 1]) + if ps[|ps| - 1].Some? then ps[|ps| - 1].value else 0.0
  }

  predicate IsScore(l: Option<real>) { l.Some? }

  predicate IsProbability(p: Option<real>) { p.Some? && 0.0 <= p.value <= 1.0 }

  /** One score and one probability for each candidate, the best among them, and the
      probabilities sum to one. */
  predicate ScoresOk(a: Answer, n: nat) {
    && a.Scores? && 0 <= a.best < n && |a.logits| == n && |a.probabilities| == n
    && (forall l <- a.logits :: IsScore(l))
    && (forall p <- a.probabilities :: IsProbability(p))
    && Close(Total(a.probabilities), 1.0, 0.000000001, 0.000000000001)
  }

  /** A positive latency, the case's own input, and numbers that make sense. */
  predicate Sound(r: Record, cases: seq<Case>) {
    && r.place.index < |cases|
    && r.elapsed.Some? && r.elapsed.value > 0.0
    && r.prompt == cases[r.place.index].prompt && r.candidates == |cases[r.place.index].candidates|
    && if Decides(r.place.mode) then ScoresOk(r.answer, |cases[r.place.index].candidates|) else r.answer.Tokens?
  }

  function IndexOf(xs: seq<nat>, x: nat): Option<nat>
    decreases |xs|
  {
    if xs == [] then None
    else if xs[0] == x then Some(0)
    else
      match IndexOf(xs[1..], x)
      case None => None
      case Some(i) => Some(i + 1)
  }

  /** The candidate an answer names: the best one, or the first token if it is one. */
  function Named(a: Answer, c: Case): Option<nat> {
    match a
    case Scores(best, _, _) => if best < 0 then None else Some(best)
    case Tokens(ids) => if ids == [] then None else IndexOf(c.candidates, ids[0])
  }

  function Correct(r: Record, c: Case): Option<bool> {
    if c.target.None? then None else Some(Named(r.answer, c) == c.target)
  }

  // ---- samples of one trial -----------------------------------------------------------

  type Trial = (nat, nat)

  function TrialOf(r: Record): Trial { (r.place.index, r.place.trial) }

  /** The first decision among the first n samples of a trial. */
  function FirstOf(records: seq<Record>, n: nat, of: Trial): Option<Record>
    requires n <= |records|
  {
    if n == 0 then None
    else if FirstOf(records, n - 1, of).Some? then FirstOf(records, n - 1, of)
    else if Decides(records[n - 1].place.mode) && TrialOf(records[n - 1]) == of then Some(records[n - 1])
    else None
  }

  predicate Near(a: Option<real>, b: Option<real>) {
    a.Some? && b.Some? && Close(a.value, b.value, 0.000001, 0.000001)
  }

  predicate AllNear(xs: seq<Option<real>>, ys: seq<Option<real>>) {
    forall i :: 0 <= i < |xs| && i < |ys| ==> Near(xs[i], ys[i])
  }

  /** The same best candidate, and nearly the same numbers. */
  predicate Agrees(first: Answer, a: Answer) {
    && first.Scores? && a.Scores? && a.best == first.best
    && AllNear(a.logits + a.probabilities, first.logits + first.probabilities)
  }

  predicate AgreesAt(records: seq<Record>, j: nat)
    requires j < |records|
  {
    var first := FirstOf(records, j, TrialOf(records[j]));
    Decides(records[j].place.mode) && first.Some? ==> Agrees(first.value.answer, records[j].answer)
  }

  /** Every decision agrees with the first of its trial. */
  ghost predicate Consistent(records: seq<Record>) {
    forall j :: 0 <= j < |records| ==> AgreesAt(records, j)
  }

  predicate Within12(a: Option<real>, b: Option<real>) {
    a.Some? && b.Some? && Abs(a.value - b.value) <= 0.000000000001
  }

  predicate AllWithin12(xs: seq<Option<real>>, ys: seq<Option<real>>) {
    forall i :: 0 <= i < |xs| && i < |ys| ==> Within12(xs[i], ys[i])
  }

  /** Selected rows give the dense numbers exactly, and say how they were obtained. */
  predicate Matches(dense: Record, r: Record) {
    && dense.answer.Scores? && r.answer.Scores?
    && r.answer.logits == dense.answer.logits && r.answer.best == dense.answer.best
    && AllWithin12(r.answer.probabilities, dense.answer.probabilities)
    && r.instruments.Some?
    && r.instruments.value.rows >= r.candidates
    && r.instruments.value.readback >= r.instruments.value.rows * 4
    && r.instruments.value.head > 0.0
  }

  predicate DenseOf(d: Record, of: Trial) { d.place.mode == DENSE && TrialOf(d) == of }

  /** Every sample of selected rows matches a dense one of its trial. */
  ghost predicate Matched(records: seq<Record>) {
    forall r <- records :: r.place.mode == SELECTED ==> exists d <- records :: DenseOf(d, TrialOf(r)) && Matches(d, r)
  }

  function Places(records: seq<Record>): (places: seq<Sample>)
    ensures |places| == |records|
    ensures forall i :: 0 <= i < |records| ==> places[i] == records[i].place
  {
    seq(|records|, i requires 0 <= i < |records| => records[i].place)
  }

  // ---- the check --------------------------------------------------------------------------

  datatype CheckError =
    | UnexpectedOrDuplicate
    | InvalidPhaseOrLatency
    | ChangedGeometry
    | InvalidResult
    | Disagree
    | SelectedDisagree
    | Incomplete

  /** What the places of the samples must be. */
  ghost predicate Placed(places: seq<Sample>, expected: set<Key>, warmup: nat) {
    && Keys(places) <= expected && NoRepeat(places)
    && forall s <- places :: s.phase == PhaseOf(s.trial, warmup)
  }

  lemma PlacedOne(places: seq<Sample>, i: nat, expected: set<Key>, warmup: nat)
    requires i < |places| && Placed(places[..i], expected, warmup)
    ensures Placed(places[..i + 1], expected, warmup)
       <==> && KeyOf(places[i]) in expected && KeyOf(places[i]) !in Keys(places[..i])
            && places[i].phase == PhaseOf(places[i].trial, warmup)
    ensures Keys(places[..i + 1]) == Keys(places[..i]) + {KeyOf(places[i])}
  {
    hide PhaseOf;
    var before, after := places[..i], places[..i + 1];
    assert after == before + [places[i]];
    assert places[i] in after && after[i] == places[i];
    if KeyOf(places[i]) !in Keys(before) && NoRepeat(before) {
      assert forall j :: 0 <= j < i ==> before[j] in before && after[j] == before[j];
    }
  }

  lemma {:induction false} PlacedPrefix(places: seq<Sample>, i: nat, expected: set<Key>, warmup: nat)
    requires i <= |places| && Placed(places, expected, warmup)
    ensures Placed(places[..i], expected, warmup)
  {
    hide PhaseOf, KeyOf;
    var before := places[..i];
    assert forall s <- before :: s in places;
    assert forall j :: 0 <= j < i ==> before[j] == places[j];
  }

  lemma PlacedIsComplete(places: seq<Sample>, cases: nat, modes: seq<string>, warmup: nat, repeats: nat)
    ensures IsComplete(places, cases, modes, warmup, repeats)
       <==> && Placed(places, ExpectedKeys(cases, modes, 1 + warmup + repeats), warmup)
            && Keys(places) == ExpectedKeys(cases, modes, 1 + warmup + repeats)
  {
    hide PhaseOf, NoRepeat;
    var trials := 1 + warmup + repeats;
    var expected := ExpectedKeys(cases, modes, trials);
    forall k
      ensures k in expected <==> Expected(k, cases, modes, trials)
    {
      assert Expected(k, cases, modes, trials) ==> k == Key(k.index, k.mode, k.trial);
    }
    hide ExpectedKeys, Expected;
    assert forall s <- places :: KeyOf(s) in Keys(places);
  }

  /** The numbers of one sample, in the order they are looked at. */
  method CheckNumbers(r: Record, cases: seq<Case>) returns (error: Option<CheckError>)
    requires r.place.index < |cases|
    ensures error.None? <==> Sound(r, cases)
  {
    hide ScoresOk;
    var c := cases[r.place.index];
    if r.elapsed.None? || r.elapsed.value <= 0.0 {
      return Some(InvalidPhaseOrLatency);
    }
    if r.prompt != c.prompt || r.candidates != |c.candidates| {
      return Some(ChangedGeometry);
    }
    if Decides(r.place.mode) {
      return if ScoresOk(r.answer, |c.candidates|) then None else Some(InvalidResult);
    }
    error := if r.answer.Tokens? then None else Some(InvalidResult);
  }

  /** The first pass: places, numbers, and agreement with the first decision of the trial. */
  method FirstPass(records: seq<Record>, cases: seq<Case>, expected: set<Key>, warmup: nat)
    returns (error: Option<CheckError>, got: set<Key>, correct: seq<Option<bool>>)
    requires forall k <- expected :: k.index < |cases|
    ensures error.None?
       <==> Placed(Places(records), expected, warmup) && AllSound(records, cases) && Consistent(records)
    ensures error.None? ==> got == Keys(Places(records)) && |correct| == |records|
    ensures error.None? ==> forall i :: 0 <= i < |records| ==>
      records[i].place.index < |cases| && correct[i] == Correct(records[i], cases[records[i].place.index])
  {
    hide Placed, Keys, PhaseOf, Sound, AgreesAt, Agrees, Correct, FirstOf, TrialOf;
    got, correct := {}, [];
    var places := Places(records);
    var reference: map<Trial, Record> := map[];
    NonePlaced(expected, warmup);
    NoFirst(records);
    for i := 0 to |records|
      invariant got == Keys(places[..i]) && Placed(places[..i], expected, warmup)
      invariant forall j :: 0 <= j < i ==> Sound(records[j], cases) && AgreesAt(records, j)
      invariant IsReference(reference, records, i)
      invariant |correct| == i
      invariant forall j :: 0 <= j < i ==>
        records[j].place.index < |cases| && correct[j] == Correct(records[j], cases[records[j].place.index])
    {
      var r := records[i];
      PlacedOne(places, i, expected, warmup);
      if KeyOf(r.place) !in expected || KeyOf(r.place) in got || r.place.phase != PhaseOf(r.place.trial, warmup) {
        NotPlaced(places, i + 1, expected, warmup);
        error := Some(if KeyOf(r.place) !in expected
            || KeyOf(r.place) in got then UnexpectedOrDuplicate else InvalidPhaseOrLatency);
        return;
      }
      got := got + {KeyOf(r.place)};
      error := CheckNumbers(r, cases);
      if error.Some? {
        return;
      }
      AgreesIs(records, i, reference);
      if Decides(r.place.mode) && TrialOf(r) in reference && !Agrees(reference[TrialOf(r)].answer, r.answer) {
        return Some(Disagree), got, correct;
      }
      ReferenceOne(reference, records, i);
      if Decides(r.place.mode) && TrialOf(r) !in reference {
        reference := reference[TrialOf(r) := r];
      }
      correct := correct + [Correct(r, cases[r.place.index])];
    }
    assert places[..|records|] == places;
    error := None;
  }

  ghost predicate AllSound(records: seq<Record>, cases: seq<Case>) {
    forall j :: 0 <= j < |records| ==> Sound(records[j], cases)
  }

  lemma NonePlaced(expected: set<Key>, warmup: nat)
    ensures Placed([], expected, warmup) && Keys([]) == {}
  {
  }

  lemma NotPlaced(places: seq<Sample>, i: nat, expected: set<Key>, warmup: nat)
    requires i <= |places| && !Placed(places[..i], expected, warmup)
    ensures !Placed(places, expected, warmup)
  {
    hide Placed;
    if Placed(places, expected, warmup) {
      PlacedPrefix(places, i, expected, warmup);
    }
  }

  /** The map holds the first decision of every trial so far. */
  ghost predicate IsReference(reference: map<Trial, Record>, records: seq<Record>, n: nat)
    requires n <= |records|
  {
    forall q :: FirstOf(records, n, q) == if q in reference then Some(reference[q]) else None
  }

  lemma NoFirst(records: seq<Record>)
    ensures IsReference(map[], records, 0)
  {
  }

  lemma AgreesIs(records: seq<Record>, i: nat, reference: map<Trial, Record>)
    requires i < |records| && IsReference(reference, records, i)
    ensures var q := TrialOf(records[i]);
      AgreesAt(records, i)
      <==> (Decides(records[i].place.mode) && q in reference ==> Agrees(reference[q].answer, records[i].answer))
  {
    hide Decides, Agrees, FirstOf;
    assert FirstOf(records, i, TrialOf(records[i])).Some? <==> TrialOf(records[i]) in reference;
  }

  lemma ReferenceOne(reference: map<Trial, Record>, records: seq<Record>, i: nat)
    requires i < |records| && IsReference(reference, records, i)
    ensures var (q, r) := (TrialOf(records[i]), records[i]);
      IsReference(if Decides(r.place.mode) && q !in reference then reference[q := r] else reference, records, i + 1)
  {
    hide Decides;
    forall q
      ensures FirstOf(records, i + 1, q)
           == if FirstOf(records, i, q).Some? then FirstOf(records, i, q)
              else if Decides(records[i].place.mode) && TrialOf(records[i]) == q then Some(records[i]) else None
    {
    }
  }

  /** The second pass: selected rows against the dense sample of their trial. */
  method SecondPass(records: seq<Record>) returns (error: Option<CheckError>)
    requires NoRepeat(Places(records))
    ensures error.None? <==> Matched(records)
  {
    hide Matches, TrialOf;
    var dense: map<Trial, Record> := map[];
    for i := 0 to |records|
      invariant forall q :: q in dense ==> dense[q] in records[..i] && DenseOf(dense[q], q)
      invariant forall d <- records[..i] :: d.place.mode == DENSE ==> TrialOf(d) in dense
    {
      assert records[..i + 1] == records[..i] + [records[i]];
      if records[i].place.mode == DENSE {
        dense := dense[TrialOf(records[i]) := records[i]];
      }
    }
    assert records[..|records|] == records;
    for i := 0 to |records|
      invariant forall r <- records[..i] :: r.place.mode == SELECTED ==>
        exists d <- records :: DenseOf(d, TrialOf(r)) && Matches(d, r)
    {
      var r := records[i];
      assert records[..i + 1] == records[..i] + [r];
      if r.place.mode == SELECTED {
        if TrialOf(r) !in dense || !Matches(dense[TrialOf(r)], r) {
          if d :| d in records && DenseOf(d, TrialOf(r)) && Matches(d, r) {
            OneDense(records, d, dense[TrialOf(r)], TrialOf(r));
          }
          assert r in records;
          return Some(SelectedDisagree);
        }
        assert DenseOf(dense[TrialOf(r)], TrialOf(r)) && dense[TrialOf(r)] in records;
      }
    }
    error := None;
  }

  /** A trial has one dense sample. */
  lemma OneDense(records: seq<Record>, a: Record, b: Record, of: Trial)
    requires NoRepeat(Places(records)) && a in records && b in records && DenseOf(a, of) && DenseOf(b, of)
    ensures a == b
  {
    var i :| 0 <= i < |records| && records[i] == a;
    var j :| 0 <= j < |records| && records[j] == b;
    var places := Places(records);
    assert KeyOf(places[i]) == KeyOf(places[j]);
  }

  /** The whole check, which also says of every sample whether it names the right candidate. */
  method EnrichAndCheck(records: seq<Record>, cases: seq<Case>, modes: seq<string>, warmup: nat, repeats: nat)
    returns (error: Option<CheckError>, correct: seq<Option<bool>>)
    ensures error.None?
       <==> && IsComplete(Places(records), |cases|, modes, warmup, repeats)
            && AllSound(records, cases) && Consistent(records) && Matched(records)
    ensures error.None? ==> |correct| == |records| && forall i :: 0 <= i < |records| ==>
      records[i].place.index < |cases| && correct[i] == Correct(records[i], cases[records[i].place.index])
  {
    hide AllSound, Consistent, Matched, Keys, Correct;
    var expected := ExpectedKeys(|cases|, modes, 1 + warmup + repeats);
    PlacedIsComplete(Places(records), |cases|, modes, warmup, repeats);
    var got;
    error, got, correct := FirstPass(records, cases, expected, warmup);
    if error.Some? {
      return;
    }
    error := SecondPass(records);
    if error.Some? {
      return;
    }
    error := if got != expected then Some(Incomplete) else None;
  }

  // ---- what the comparisons mean -----------------------------------------------------------

  lemma {:induction false} TotalAppend(a: seq<Option<real>>, b: seq<Option<real>>)
    ensures Total(a + b) == Total(a) + Total(b)
    decreases |b|
  {
    if b == [] {
      assert a + b == a;
    } else {
      assert (a + b)[..|a + b| - 1] == a + b[..|b| - 1];
      TotalAppend(a, b[..|b| - 1]);
    }
  }

  /** A sum of probabilities counts as one when it is no more than one part in a thousand
      million of the larger away from it. */
  lemma SumsToOne(s: real)
    ensures Close(s, 1.0, 0.000000001, 0.000000000001) <==> s >= 0.999999999 && 0.999999999 * s <= 1.0
  {
  }

  /** Two scores are near when they differ by a millionth, or by a millionth of either. */
  lemma NearExactly(a: real, b: real)
    ensures Near(Some(a), Some(b))
       <==> var d := if a < b then b - a else a - b;
            || 1000000.0 * d <= 1.0
            || 1000000.0 * d <= a || 1000000.0 * d <= -a || 1000000.0 * d <= b || 1000000.0 * d <= -b
  {
  }

  /** The sum that must be one: over parts, and of one number. */
  lemma TotalIs(a: seq<Option<real>>, b: seq<Option<real>>, x: real)
    ensures Total(a + b) == Total(a) + Total(b) && Total([Some(x)]) == x
  {
    TotalAppend(a, b);
    assert [Some(x)][..0] == [];
  }

  /** A sample of a known case is refused exactly when its latency is not positive, its input is
      not the case's, or its answer is not what its mode gives: tokens, or for the three deciding
      modes a best candidate, a score for each and probabilities that sum to one. */
  lemma SoundExactly(r: Record, cases: seq<Case>)
    requires r.place.index < |cases|
    ensures var c, a := cases[r.place.index], r.answer;
      var n, decides := |c.candidates|, r.place.mode in ["decision_dense", "scorealt_dense", "decision_selected"];
      !Sound(r, cases)
      <==> || r.elapsed == None || r.elapsed.value <= 0.0
           || r.prompt != c.prompt || r.candidates != n
           || (!decides && a.Scores?)
           || (decides && (|| a.Tokens? || a.best < 0 || a.best >= n || |a.logits| != n || |a.probabilities| != n
                           || None in a.logits
                           || (exists p <- a.probabilities :: p == None || p.value < 0.0 || p.value > 1.0)
                           || Total(a.probabilities) < 0.999999999
                           || 0.999999999 * Total(a.probabilities) > 1.0))
  {
    hide Close, Total;
    if r.answer.Scores? {
      SumsToOne(Total(r.answer.probabilities));
    }
  }

  /** Two numbers that count as different: not both finite, or more than a millionth apart and
      more than a millionth of either. */
  predicate Apart(a: Option<real>, b: Option<real>) {
    || a == None || b == None
    || var d := 1000000.0 * if a.value < b.value then b.value - a.value else a.value - b.value;
       d > 1.0 && d > a.value && d > -a.value && d > b.value && d > -b.value
  }

  /** Two decisions over the same candidates agree exactly when they name the same best one and no
      score and no probability of the one is apart from that of the other. */
  lemma AgreesExactly(first: Answer, a: Answer)
    requires first.Scores? && a.Scores? && |first.probabilities| == |a.probabilities|
    requires |first.logits| == |a.logits|
    ensures Agrees(first, a)
       <==> && a.best == first.best
            && (forall i :: 0 <= i < |a.logits| ==> !Apart(first.logits[i], a.logits[i]))
            && forall i :: 0 <= i < |a.probabilities| ==> !Apart(first.probabilities[i], a.probabilities[i])
  {
    hide AllNear, Apart;
    AllNearAppend(a.logits, a.probabilities, first.logits, first.probabilities);
    AllNearIs(a.logits, first.logits);
    AllNearIs(a.probabilities, first.probabilities);
  }

  lemma AllNearAppend(a: seq<Option<real>>, b: seq<Option<real>>, x: seq<Option<real>>, y: seq<Option<real>>)
    requires |a| == |x| && |b| == |y|
    ensures AllNear(a + b, x + y) <==> AllNear(a, x) && AllNear(b, y)
  {
    hide Near;
    if AllNear(a + b, x + y) {
      forall i | 0 <= i < |b|
        ensures Near(b[i], y[i])
      {
        assert (a + b)[|a| + i] == b[i] && (x + y)[|a| + i] == y[i];
      }
      forall i | 0 <= i < |a|
        ensures Near(a[i], x[i])
      {
        assert (a + b)[i] == a[i] && (x + y)[i] == x[i];
      }
    }
  }

  lemma AllNearIs(a: seq<Option<real>>, x: seq<Option<real>>)
    requires |a| == |x|
    ensures AllNear(a, x) <==> forall i :: 0 <= i < |a| ==> !Apart(x[i], a[i])
  {
    hide Near, Apart;
    forall i | 0 <= i < |a|
      ensures Near(a[i], x[i]) <==> !Apart(x[i], a[i])
    {
      NearIs(a[i], x[i]);
    }
  }

  lemma NearIs(a: Option<real>, b: Option<real>)
    ensures Near(a, b) <==> !Apart(b, a)
  {
    if a.Some? && b.Some? {
      hide Near;
      NearExactly(a.value, b.value);
    }
  }

  /** Two probabilities that are not both finite, or more than 10^-12 apart. */
  predicate Off(a: Option<real>, b: Option<real>) {
    a == None || b == None || 1000000000000.0 * (a.value - b.value) > 1.0 || 1000000000000.0 * (b.value - a.value) > 1.0
  }

  /** A sample of selected rows over the same candidates matches a dense one exactly when scores and
      best are equal, no probability is more than 10^-12 off, and its instruments show a row for
      each candidate, four bytes read back for each row, and time in the head. */
  lemma MatchesExactly(dense: Record, r: Record)
    requires dense.answer.Scores? && r.answer.Scores?
    requires |dense.answer.probabilities| == |r.answer.probabilities|
    ensures var a, b := r.answer, dense.answer;
      Matches(dense, r)
      <==> && a.logits == b.logits && a.best == b.best
           && (forall i :: 0 <= i < |a.probabilities| ==> !Off(a.probabilities[i], b.probabilities[i]))
           && r.instruments.Some?
           && var got := r.instruments.value;
              got.rows >= r.candidates && got.readback >= 4 * got.rows && got.head > 0.0
  {
    hide Off, Within12;
    var ps, qs := r.answer.probabilities, dense.answer.probabilities;
    forall i | 0 <= i < |ps|
      ensures Within12(ps[i], qs[i]) <==> !Off(ps[i], qs[i])
    {
      Within12Is(ps[i], qs[i]);
    }
  }

  lemma Within12Is(a: Option<real>, b: Option<real>)
    ensures Within12(a, b) <==> !Off(a, b)
  {
  }

  /** The modes compared: selected rows against the dense decision of the same case and trial. */
  lemma DenseOfIs(d: Record, r: Record)
    ensures DenseOf(d, TrialOf(r))
       <==> d.place.mode == "decision_dense" && d.place.index == r.place.index && d.place.trial == r.place.trial
  {
  }

  lemma {:induction false} IndexIs(xs: seq<nat>, x: nat, i: nat)
    ensures IndexOf(xs, x) == Some(i) <==> i < |xs| && xs[i] == x && forall k :: 0 <= k < i ==> xs[k] != x
    decreases |xs|
  {
    if xs == [] {
    } else if xs[0] != x && i > 0 {
      IndexIs(xs[1..], x, i - 1);
      assert forall k :: 0 < k < |xs| ==> xs[k] == xs[1..][k - 1];
    }
  }

  /** A sample of a case with a known answer is right when its best candidate is the answer, or
      its first token is that candidate and no earlier one. */
  lemma CorrectExactly(r: Record, c: Case, t: nat)
    ensures c.target == Some(t) ==> (Correct(r, c) == Some(true)
       <==> match r.answer
            case Scores(best, _, _) => best == t
            case Tokens(ids) =>
              ids != [] && t < |c.candidates| && c.candidates[t] == ids[0]
              && forall k :: 0 <= k < t ==> c.candidates[k] != ids[0])
    ensures Correct(r, c).Some? <==> c.target.Some?
  {
    hide IndexOf;
    if r.answer.Tokens? && r.answer.ids != [] {
      IndexIs(c.candidates, r.answer.ids[0], t);
    }
  }

  /** Sample i is the first of its trial before n whose mode decides. */
  ghost predicate FirstAt(records: seq<Record>, n: nat, of: Trial, i: nat) {
    && i < n <= |records| && Decides(records[i].place.mode) && TrialOf(records[i]) == of
    && forall k :: 0 <= k < i ==> !(Decides(records[k].place.mode) && TrialOf(records[k]) == of)
  }

  lemma {:induction false} FirstOfIs(records: seq<Record>, n: nat, of: Trial, i: nat)
    requires n <= |records|
    ensures FirstAt(records, n, of, i) ==> FirstOf(records, n, of) == Some(records[i])
    ensures FirstOf(records, n, of).Some? ==>
      exists k: nat :: FirstAt(records, n, of, k) && FirstOf(records, n, of) == Some(records[k])
    decreases n
  {
    hide Decides, TrialOf;
    if n > 0 {
      FirstOfIs(records, n - 1, of, i);
      if FirstOf(records, n - 1, of).Some? {
        var k: nat :| FirstAt(records, n - 1, of, k) && FirstOf(records, n - 1, of) == Some(records[k]);
        assert FirstAt(records, n, of, k);
      } else {
        forall k | 0 <= k < n - 1
          ensures !(Decides(records[k].place.mode) && TrialOf(records[k]) == of)
        {
          NoneBefore(records, n - 1, of, k);
        }
        if FirstOf(records, n, of).Some? {
          assert FirstAt(records, n, of, n - 1);
        }
      }
    }
  }

  lemma {:induction false} NoneBefore(records: seq<Record>, n: nat, of: Trial, k: nat)
    requires k < n <= |records| && FirstOf(records, n, of).None?
    ensures !(Decides(records[k].place.mode) && TrialOf(records[k]) == of)
    decreases n
  {
    hide Decides, TrialOf;
    if k < n - 1 {
      NoneBefore(records, n - 1, of, k);
    }
  }
}
