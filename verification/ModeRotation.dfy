// The rotation of the benchmark modes in tools/bench_decision.c (251-345), and that its
// samples are those tools/bench_decision.py (94-107) demands.
module ModeRotation {
  import opened Lists
  import opened Arithmetic

  datatype Phase = First | Warmup | Warm

  /** A sample's place: its case, mode, trial, position within the trial, and phase. */
  datatype Sample = Sample(index: nat, mode: string, trial: nat, order: nat, phase: Phase)

  datatype Key = Key(index: nat, mode: string, trial: nat)

  function PhaseOf(trial: nat, warmup: nat): Phase {
    if trial == 0 then First else if trial <= warmup then Warmup else Warm
  }

  function KeyOf(s: Sample): Key { Key(s.index, s.mode, s.trial) }

  // ---- the rotation ----------------------------------------------------------------

  function Turn(x: int, n: nat): (m: nat)
    requires n > 0
    ensures m < n
  {
    x % n
  }

  function ModeAt(active: seq<string>, index: nat, trial: nat, position: nat): string
    requires active != []
  {
    active[Turn(position + trial + index, |active|)]
  }

  lemma Turned(x: int, k: int, n: nat, m: nat)
    requires m < n && x == k * n + m
    ensures Turn(x, n) == m
  {
    DivIs(x, n, k, m);
  }

  lemma TurnIs(x: int, n: nat) returns (k: int)
    requires n > 0
    ensures x == k * n + Turn(x, n)
  {
    k := x / n;
  }

  /** Within n places after a shift every turn comes up once. */
  lemma PlaceOf(n: nat, shift: nat, m: nat) returns (p: nat)
    requires m < n
    ensures p < n && Turn(p + shift, n) == m
  {
    p := Turn(m - shift, n);
    var k := TurnIs(m - shift, n);
    Turned(p + shift, -k, n, m);
  }

  lemma SameShift(n: nat, shift: nat, p: nat, q: nat)
    requires p < n && q < n && Turn(p + shift, n) == Turn(q + shift, n)
    ensures p == q
  {
    hide Turn;
    var a := TurnIs(p + shift, n);
    var b := TurnIs(q + shift, n);
    if p < q {
      Turned(q - p, b - a, n, 0);
      Turned(q - p, 0, n, q - p);
    } else {
      Turned(p - q, a - b, n, 0);
      Turned(p - q, 0, n, p - q);
    }
  }

  ghost predicate OnlyPosition(active: seq<string>, index: nat, trial: nat, mode: string, p: nat)
    requires active != []
  {
    p < |active| && ModeAt(active, index, trial, p) == mode
    && forall q :: 0 <= q < |active| && ModeAt(active, index, trial, q) == mode ==> q == p
  }

  lemma SameTurn(active: seq<string>, a: nat, b: nat)
    requires Distinct(active) && a < |active| && b < |active| && active[a] == active[b]
    ensures a == b
  {
  }

  /** In every trial every mode runs at exactly one position. */
  lemma OncePerTrial(active: seq<string>, index: nat, trial: nat, mode: string)
    requires Distinct(active) && mode in active
    ensures exists p :: OnlyPosition(active, index, trial, mode, p)
  {
    hide Turn, Distinct;
    var n := |active|;
    var m :| 0 <= m < n && active[m] == mode;
    var p := PlaceOf(n, trial + index, m);
    assert p + trial + index == p + (trial + index);
    forall q | 0 <= q < n && ModeAt(active, index, trial, q) == mode
      ensures q == p
    {
      assert q + trial + index == q + (trial + index);
      SameTurn(active, Turn(q + trial + index, n), m);
      SameShift(n, trial + index, q, p);
    }
    assert OnlyPosition(active, index, trial, mode, p);
  }

  ghost predicate OnlyTrial(active: seq<string>, index: nat, start: nat, position: nat, mode: string, t: nat)
    requires active != []
  {
    start <= t < start + |active| && ModeAt(active, index, t, position) == mode
    && forall u :: start <= u < start + |active| && ModeAt(active, index, u, position) == mode ==> u == t
  }

  /** Over any |active| trials in a row every mode runs exactly once at every position. */
  lemma OncePerPosition(active: seq<string>, index: nat, start: nat, position: nat, mode: string)
    requires Distinct(active) && mode in active && position < |active|
    ensures exists t :: OnlyTrial(active, index, start, position, mode, t)
  {
    hide Turn, Distinct;
    var n := |active|;
    var m :| 0 <= m < n && active[m] == mode;
    var shift := position + start + index;
    var p := PlaceOf(n, shift, m);
    assert position + (start + p) + index == p + shift;
    forall u | start <= u < start + n && ModeAt(active, index, u, position) == mode
      ensures u == start + p
    {
      assert position + u + index == (u - start) + shift;
      SameTurn(active, Turn(position + u + index, n), m);
      SameShift(n, shift, u - start, p);
    }
    assert OnlyTrial(active, index, start, position, mode, start + p);
  }

  // ---- the samples of a run ------------------------------------------------------------

  function SampleAt(active: seq<string>, warmup: nat, index: nat, trial: nat, position: nat): Sample
    requires active != []
  {
    Sample(index, ModeAt(active, index, trial, position), trial, position, PhaseOf(trial, warmup))
  }

  /** The samples of the first n positions of a trial, of the first n trials, of the first n cases. */
  function TrialSamples(active: seq<string>, warmup: nat, index: nat, trial: nat, n: nat): seq<Sample>
    requires active != []
    decreases n
  {
    if n == 0 then []
    else TrialSamples(active, warmup, index, trial, n - 1) + [SampleAt(active, warmup, index, trial, n - 1)]
  }

  function CaseSamples(active: seq<string>, warmup: nat, index: nat, n: nat): seq<Sample>
    requires active != []
    decreases n
  {
    if n == 0 then []
    else CaseSamples(active, warmup, index, n - 1) + TrialSamples(active, warmup, index, n - 1, |active|)
  }

  function RunSamples(active: seq<string>, warmup: nat, trials: nat, n: nat): seq<Sample>
    requires active != []
    decreases n
  {
    if n == 0 then [] else RunSamples(active, warmup, trials, n - 1) + CaseSamples(active, warmup, n - 1, trials)
  }

  method EmitTrial(active: seq<string>, warmup: nat, index: nat, trial: nat) returns (samples: seq<Sample>)
    requires active != []
    ensures samples == TrialSamples(active, warmup, index, trial, |active|)
  {
    samples := [];
    var phase := if trial == 0 then First else if trial <= warmup then Warmup else Warm;
    for position := 0 to |active|
      invariant samples == TrialSamples(active, warmup, index, trial, position)
    {
      var mode := active[(position + trial + index) % |active|];
      samples := samples + [Sample(index, mode, trial, position, phase)];
    }
  }

  method Emit(active: seq<string>, cases: nat, warmup: nat, repeats: nat) returns (samples: seq<Sample>)
    requires active != []
    ensures samples == RunSamples(active, warmup, 1 + warmup + repeats, cases)
  {
    samples := [];
    for index := 0 to cases
      invariant samples == RunSamples(active, warmup, 1 + warmup + repeats, index)
    {
      var ofCase: seq<Sample> := [];
      for trial := 0 to 1 + warmup + repeats
        invariant ofCase == CaseSamples(active, warmup, index, trial)
      {
        var ofTrial := EmitTrial(active, warmup, index, trial);
        ofCase := ofCase + ofTrial;
      }
      samples := samples + ofCase;
    }
  }

  // ---- what the writer demands ------------------------------------------------------------

  predicate Expected(k: Key, cases: nat, modes: seq<string>, trials: nat) {
    k.index < cases && k.mode in modes && k.trial < trials
  }

  /** Every expected key exactly once, no other, and each with its phase. */
  ghost predicate IsComplete(samples: seq<Sample>, cases: nat, modes: seq<string>, warmup: nat, repeats: nat) {
    && (forall s <- samples ::
          Expected(KeyOf(s), cases, modes, 1 + warmup + repeats) && s.phase == PhaseOf(s.trial, warmup))
    && NoRepeat(samples)
    && forall k :: Expected(k, cases, modes, 1 + warmup + repeats) ==> k in Keys(samples)
  }

  predicate NoRepeat(samples: seq<Sample>) {
    forall i, j :: 0 <= i < j < |samples| ==> KeyOf(samples[i]) != KeyOf(samples[j])
  }

  function Keys(samples: seq<Sample>): set<Key> { set s <- samples :: KeyOf(s) }

  function ExpectedKeys(cases: nat, modes: seq<string>, trials: nat): set<Key> {
    set i: nat, mode, t: nat | i < cases && mode in modes && t < trials :: Key(i, mode, t)
  }

  // ---- the run passes the check ---------------------------------------------------------------

  predicate Within(samples: seq<Sample>, active: seq<string>, warmup: nat) {
    forall s <- samples :: s.mode in active && s.phase == PhaseOf(s.trial, warmup)
  }

  lemma SampleWithin(active: seq<string>, warmup: nat, index: nat, trial: nat, p: nat)
    requires active != []
    ensures var s := SampleAt(active, warmup, index, trial, p); s.mode in active && s.phase == PhaseOf(s.trial, warmup)
  {
    hide Turn, PhaseOf;
  }

  lemma WithinOneMore(samples: seq<Sample>, s: Sample, active: seq<string>, warmup: nat)
    requires Within(samples, active, warmup) && s.mode in active && s.phase == PhaseOf(s.trial, warmup)
    ensures Within(samples + [s], active, warmup)
  {
    hide PhaseOf;
  }

  lemma {:induction false} TrialIs(active: seq<string>, warmup: nat, index: nat, trial: nat, n: nat)
    requires active != [] && Distinct(active) && n <= |active|
    ensures Within(TrialSamples(active, warmup, index, trial, n), active, warmup)
    ensures |TrialSamples(active, warmup, index, trial, n)| == n
    ensures forall p :: 0 <= p < n ==>
      TrialSamples(active, warmup, index, trial, n)[p] == SampleAt(active, warmup, index, trial, p)
    decreases n
  {
    hide SampleAt, Distinct, PhaseOf, Within;
    if n == 0 {
      NothingYet(active, warmup);
    } else {
      TrialIs(active, warmup, index, trial, n - 1);
      SampleWithin(active, warmup, index, trial, n - 1);
      WithinOneMore(TrialSamples(active, warmup, index, trial, n - 1), SampleAt(active, warmup, index, trial, n - 1),
                    active, warmup);
    }
  }

  ghost predicate IsTrial(samples: seq<Sample>, active: seq<string>, warmup: nat, index: nat, trial: nat) {
    && active != [] && |samples| == |active|
    && forall p :: 0 <= p < |active| ==> samples[p] == SampleAt(active, warmup, index, trial, p)
  }

  lemma TrialNoRepeat(samples: seq<Sample>, active: seq<string>, warmup: nat, index: nat, trial: nat)
    requires IsTrial(samples, active, warmup, index, trial) && Distinct(active)
    ensures NoRepeat(samples)
  {
    hide ModeAt, PhaseOf, Distinct;
    forall i, j | 0 <= i < j < |samples|
      ensures KeyOf(samples[i]) != KeyOf(samples[j])
    {
      OncePerTrialUnique(active, index, trial, i, j);
      assert samples[i] == SampleAt(active, warmup, index, trial, i);
      assert samples[j] == SampleAt(active, warmup, index, trial, j);
    }
  }

  lemma TrialHas(samples: seq<Sample>, active: seq<string>, warmup: nat, index: nat, trial: nat, mode: string)
    requires IsTrial(samples, active, warmup, index, trial) && Distinct(active) && mode in active
    ensures Key(index, mode, trial) in Keys(samples)
  {
    OncePerTrial(active, index, trial, mode);
    hide ModeAt, PhaseOf, Distinct;
    var p: nat :| OnlyPosition(active, index, trial, mode, p);
    assert samples[p] in samples && samples[p] == SampleAt(active, warmup, index, trial, p);
    assert KeyOf(samples[p]) == Key(index, mode, trial);
  }

  lemma TrialOnce(active: seq<string>, warmup: nat, index: nat, trial: nat)
    requires active != [] && Distinct(active)
    ensures NoRepeat(TrialSamples(active, warmup, index, trial, |active|))
    ensures forall mode <- active :: Key(index, mode,
            trial) in Keys(TrialSamples(active, warmup, index, trial, |active|))
    ensures forall s <- TrialSamples(active, warmup, index, trial, |active|) :: s.index == index && s.trial == trial
  {
    var samples := TrialSamples(active, warmup, index, trial, |active|);
    TrialIs(active, warmup, index, trial, |active|);
    assert IsTrial(samples, active, warmup, index, trial);
    hide IsTrial, TrialSamples, NoRepeat, Keys, Distinct;
    TrialNoRepeat(samples, active, warmup, index, trial);
    forall mode <- active
      ensures Key(index, mode, trial) in Keys(samples)
    {
      TrialHas(samples, active, warmup, index, trial, mode);
    }
  }

  lemma OncePerTrialUnique(active: seq<string>, index: nat, trial: nat, i: nat, j: nat)
    requires Distinct(active) && i < j < |active|
    ensures ModeAt(active, index, trial, i) != ModeAt(active, index, trial, j)
  {
    hide Turn, Distinct;
    assert i + trial + index == i + (trial + index) && j + trial + index == j + (trial + index);
    if ModeAt(active, index, trial, i) == ModeAt(active, index, trial, j) {
      SameTurn(active, Turn(i + trial + index, |active|), Turn(j + trial + index, |active|));
      SameShift(|active|, trial + index, i, j);
    }
  }

  lemma NoRepeatJoin(a: seq<Sample>, b: seq<Sample>)
    requires NoRepeat(a) && NoRepeat(b) && Keys(a) !! Keys(b)
    ensures NoRepeat(a + b) && Keys(a + b) == Keys(a) + Keys(b)
  {
    forall i, j | 0 <= i < j < |a + b|
      ensures KeyOf((a + b)[i]) != KeyOf((a + b)[j])
    {
      if i < |a| <= j {
        assert a[i] in a && b[j - |a|] in b;
        assert KeyOf(a[i]) in Keys(a) && KeyOf(b[j - |a|]) in Keys(b);
      }
    }
    assert forall s <- a + b :: s in a || s in b;
    assert (forall s <- a :: s in a + b) && forall s <- b :: s in a + b;
  }

  lemma WithinBoth(a: seq<Sample>, b: seq<Sample>, active: seq<string>, warmup: nat)
    requires Within(a, active, warmup) && Within(b, active, warmup)
    ensures Within(a + b, active, warmup)
  {
  }

  predicate OfCase(samples: seq<Sample>, index: nat, trials: nat) {
    forall s <- samples :: s.index == index && s.trial < trials
  }

  lemma {:induction false} CaseOnce(active: seq<string>, warmup: nat, index: nat, n: nat)
    requires active != [] && Distinct(active)
    ensures NoRepeat(CaseSamples(active, warmup, index, n))
            && Within(CaseSamples(active, warmup, index, n), active, warmup)
    ensures OfCase(CaseSamples(active, warmup, index, n), index, n)
    ensures forall mode <- active, t: nat | t < n :: Key(index, mode, t) in Keys(CaseSamples(active, warmup, index, n))
    decreases n
  {
    hide TrialSamples, Distinct, NoRepeat, Within, PhaseOf;
    if n > 0 {
      var before := CaseSamples(active, warmup, index, n - 1);
      var last := TrialSamples(active, warmup, index, n - 1, |active|);
      CaseOnce(active, warmup, index, n - 1);
      TrialOnce(active, warmup, index, n - 1);
      TrialIs(active, warmup, index, n - 1, |active|);
      NoRepeatJoin(before, last);
      WithinBoth(before, last, active, warmup);
    } else {
      NothingYet(active, warmup);
    }
  }

  lemma NothingYet(active: seq<string>, warmup: nat)
    ensures NoRepeat([]) && Within([], active, warmup)
  {
  }

  predicate OfCases(samples: seq<Sample>, cases: nat, trials: nat) {
    forall s <- samples :: s.index < cases && s.trial < trials
  }

  lemma {:induction false} RunOnce(active: seq<string>, warmup: nat, trials: nat, n: nat)
    requires active != [] && Distinct(active)
    ensures NoRepeat(RunSamples(active, warmup, trials, n))
            && Within(RunSamples(active, warmup, trials, n), active, warmup)
    ensures OfCases(RunSamples(active, warmup, trials, n), n, trials)
    ensures forall i: nat, mode, t: nat | i < n && mode in active && t < trials ::
              Key(i, mode, t) in Keys(RunSamples(active, warmup, trials, n))
    decreases n
  {
    hide CaseSamples, Distinct, NoRepeat, Within, PhaseOf;
    if n > 0 {
      var before := RunSamples(active, warmup, trials, n - 1);
      var last := CaseSamples(active, warmup, n - 1, trials);
      RunOnce(active, warmup, trials, n - 1);
      CaseOnce(active, warmup, n - 1, trials);
      NoRepeatJoin(before, last);
      WithinBoth(before, last, active, warmup);
    } else {
      NothingYet(active, warmup);
    }
  }

  /** Whatever the modes, cases and trials, the driver's samples are exactly those the
      checker demands. */
  lemma RunPasses(active: seq<string>, cases: nat, warmup: nat, repeats: nat)
    requires active != [] && Distinct(active)
    ensures IsComplete(RunSamples(active, warmup, 1 + warmup + repeats, cases), cases, active, warmup, repeats)
  {
    hide RunSamples, Distinct, NoRepeat, PhaseOf;
    RunOnce(active, warmup, 1 + warmup + repeats, cases);
    var samples := RunSamples(active, warmup, 1 + warmup + repeats, cases);
    forall k | Expected(k, cases, active, 1 + warmup + repeats)
      ensures k in Keys(samples)
    {
      assert k == Key(k.index, k.mode, k.trial);
    }
  }

  // ---- the order of the run --------------------------------------------------------------------

  /** The first trial of the first case runs the modes in order; every later trial, and every
      later case, starts one mode further on. */
  lemma RotationExactly(active: seq<string>, index: nat, trial: nat, p: nat)
    requires active != []
    ensures p < |active| ==> ModeAt(active, 0, 0, p) == active[p]
    ensures ModeAt(active, index, trial + 1, p) == ModeAt(active, index, trial, p + 1)
    ensures ModeAt(active, index + 1, trial, p) == ModeAt(active, index, trial, p + 1)
    ensures ModeAt(active, index, trial, p + |active|) == ModeAt(active, index, trial, p)
  {
    var n := |active|;
    if p < n {
      Turned(p + 0 + 0, 0, n, p);
    }
    hide Turn;
    var k := TurnIs(p + trial + index, n);
    Turned(p + n + trial + index, k + 1, n, Turn(p + trial + index, n));
  }

  lemma {:induction false} TrialSampleAt(active: seq<string>, warmup: nat, index: nat, trial: nat, n: nat, p: nat)
    requires active != [] && p < n
    ensures |TrialSamples(active, warmup, index, trial, n)| == n
    ensures TrialSamples(active, warmup, index, trial, n)[p] == SampleAt(active, warmup, index, trial, p)
    decreases n
  {
    hide SampleAt;
    if p < n - 1 {
      TrialSampleAt(active, warmup, index, trial, n - 1, p);
    } else if n > 1 {
      TrialSampleAt(active, warmup, index, trial, n - 1, 0);
    }
  }

  lemma {:induction false} CaseSampleAt(active: seq<string>, warmup: nat, index: nat, n: nat, trial: nat, p: nat)
    requires active != [] && p < |active|
    ensures |CaseSamples(active, warmup, index, n)| == n * |active|
    ensures trial < n ==> trial * |active| + p < n * |active|
    ensures trial < n ==>
      CaseSamples(active, warmup, index, n)[trial * |active| + p] == SampleAt(active, warmup, index, trial, p)
    decreases n
  {
    hide TrialSamples, SampleAt;
    if n > 0 {
      CaseSampleAt(active, warmup, index, n - 1, trial, p);
      TrialSampleAt(active, warmup, index, n - 1, |active|, p);
      assert n * |active| == (n - 1) * |active| + |active|;
    }
  }

  predicate StandsAt(samples: seq<Sample>, k: nat, s: Sample) { k < |samples| && samples[k] == s }

  lemma AtEnd(before: seq<Sample>, last: seq<Sample>, k: nat, s: Sample)
    ensures StandsAt(before, k, s) ==> StandsAt(before + last, k, s)
    ensures StandsAt(last, k, s) ==> StandsAt(before + last, |before| + k, s)
  {
  }

  /** The run goes case by case, trial by trial, position by position: `each` samples a case,
      of which number q is that of a trial and position. */
  lemma {:induction false} RunSampleAt(active: seq<string>, warmup: nat, trials: nat, n: nat, index: nat, trial: nat,
                                       p: nat, each: nat, q: nat)
    requires active != [] && p < |active| && trial < trials
    requires each == trials * |active| && q == trial * |active| + p
    ensures |RunSamples(active, warmup, trials, n)| == n * each
    ensures index < n ==>
      StandsAt(RunSamples(active, warmup, trials, n), index * each + q,
               Sample(index, ModeAt(active, index, trial, p), trial, p,
                      if trial == 0 then First else if trial <= warmup then Warmup else Warm))
    decreases n
  {
    hide CaseSamples, ModeAt, StandsAt;
    if n > 0 {
      var before, last := RunSamples(active, warmup, trials, n - 1), CaseSamples(active, warmup, n - 1, trials);
      RunSampleAt(active, warmup, trials, n - 1, index, trial, p, each, q);
      LastCase(active, warmup, trials, n - 1, trial, p, each, q);
      OneMore(n - 1, each);
      var s := SampleAt(active, warmup, index, trial, p);
      AtEnd(before, last, index * each + q, s);
      AtEnd(before, last, q, s);
    }
  }

  lemma LastCase(active: seq<string>, warmup: nat, trials: nat, index: nat, trial: nat, p: nat, each: nat, q: nat)
    requires active != [] && p < |active| && trial < trials
    requires each == trials * |active| && q == trial * |active| + p
    ensures |CaseSamples(active, warmup, index, trials)| == each
    ensures StandsAt(CaseSamples(active, warmup, index, trials), q, SampleAt(active, warmup, index, trial, p))
  {
    hide CaseSamples, SampleAt;
    CaseSampleAt(active, warmup, index, trials, trial, p);
  }

  lemma OneMore(n: nat, each: nat)
    ensures (n + 1) * each == n * each + each
  {
  }
}
