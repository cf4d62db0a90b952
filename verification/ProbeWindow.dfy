// Which answer probes of a case fit the window of tools/bench_reasoning_batch.c: what the
// arguments and the case decide before a run, whatever the model then answers.
module ProbeWindow {
  import opened Arithmetic
  import opened ReasoningRuns
  import opened ReasoningSession

  /** The best of n candidates has probability 1/n at least: below that every probe exits. */
  predicate AlwaysExits(c: Config, it: Item) {
    c.tau > 0.0 && it.cand != [] && c.tau * |it.cand| as real <= 1.0
  }

  /** The last position at which a run of the case can be probed. */
  function LastProbe(c: Config, it: Item): nat
    requires c.cap > 0 && c.interval > 0
  {
    if AlwaysExits(c, it) && c.interval < c.cap then c.interval else (c.cap - 1) / c.interval * c.interval
  }

  /** The probe names known candidates and fits the window also at its last position. */
  ghost predicate ShapeFits(c: Config, it: Item, window: nat)
    requires c.cap > 0
  {
    c.interval > 0 ==> CandidatesKnown(c.m, it) && |it.ids| + LastProbe(c, it) + |it.probe| <= window
  }

  // ---- no probe is later ----------------------------------------------------------------

  lemma ExitsWhenDue(c: Config, it: Item, gen: seq<Token>)
    requires IsExp(c.m) && AlwaysExits(c, it)
    ensures Confident(c, ProbeAt(c, it, gen))
  {
    hide TopProbability, IsExp;
    var logits := ProbeAt(c, it, gen).logits;
    TopBounds(c.m, logits);
    var n := |it.cand| as real;
    assert |logits| == |it.cand|;
    if TopProbability(c.m, logits) < c.tau {
      RealMul(n, TopProbability(c.m, logits), c.tau);
    }
  }

  lemma DueAtMost(c: Config, it: Item, n: nat)
    requires ProbeDue(c, n) && n < c.cap
    requires AlwaysExits(c, it) ==> n <= c.interval
    ensures n <= LastProbe(c, it)
  {
    LastMultiple(n, c.cap - 1, c.interval);
    if c.interval >= c.cap && n > 0 {
      LastMultiple(c.interval, n, c.interval);
    }
  }

  /** A first probe is due only when the quotient grows. */
  lemma NotDueBefore(c: Config, n: nat)
    requires ProbeDue(c, n) && n > 0
    ensures c.interval <= n
  {
    if n < c.interval {
      DivIs(n, c.interval, 0, n);
    }
  }

  lemma {:induction false} PositionsBelow(c: Config, it: Item, gen: seq<Token>, probes: seq<Probe>)
    requires IsExp(c.m) && c.interval > 0 && |gen| < c.cap
    requires AlwaysExits(c, it) ==> |gen| < c.interval
    ensures var ps := Continue(c, it, gen, probes).probes;
      |probes| <= |ps| && forall i :: |probes| <= i < |ps| ==> ps[i].pos <= LastProbe(c, it)
    decreases c.cap - |gen|
  {
    hide IsExp, AlwaysExits, LastProbe, ProbeDue, Confident, ProbeOf;
    var t := NextToken(c, it, gen);
    var g := gen + [t];
    var st := AfterToken(c, it, gen, probes, t);
    if t == c.m.eos || |g| == c.cap {
    } else if !ProbeDue(c, |g|) {
      if AlwaysExits(c, it) && |g| == c.interval {
        IntervalIsDue(c);
      }
      PositionsBelow(c, it, g, probes);
    } else {
      DueAtMost(c, it, |g|);
      var p := ProbeAt(c, it, g);
      PosOfProbe(c, it, g);
      if AlwaysExits(c, it) {
        ExitsWhenDue(c, it, g);
      } else if !Confident(c, p) {
        PositionsBelow(c, it, g, probes + [p]);
        ProbesExtend(c, it, g, probes + [p]);
      }
    }
  }

  lemma IntervalIsDue(c: Config)
    requires c.interval > 0
    ensures ProbeDue(c, c.interval) && ProbeDue(c, 0)
  {
    DivIs(c.interval, c.interval, 1, 0);
  }

  lemma PosOfProbe(c: Config, it: Item, gen: seq<Token>)
    ensures ProbeAt(c, it, gen).pos == |gen|
  {
  }

  /** If the shape fits, every probe of the case does, whatever the model answers. */
  lemma ShapeSuffices(c: Config, it: Item, window: nat, i: nat)
    requires c.cap > 0 && IsExp(c.m) && ShapeFits(c, it, window)
    requires i < |Alone(c, it).probes|
    ensures c.interval > 0
    ensures CandidatesKnown(c.m, it) && |it.ids| + Alone(c, it).probes[i].pos + |it.probe| <= window
  {
    hide IsExp, AlwaysExits, CandidatesKnown;
    if c.interval == 0 {
      NoProbes(c, it, [], []);
      assert false;
    } else {
      var first := FirstProbes(c, it);
      PositionsBelow(c, it, [], first);
      ProbesExtend(c, it, [], first);
    }
  }

  lemma {:induction false} NoProbes(c: Config, it: Item, gen: seq<Token>, probes: seq<Probe>)
    requires c.interval == 0 && |gen| < c.cap
    ensures Continue(c, it, gen, probes).probes == probes
    decreases c.cap - |gen|
  {
    var st := AfterToken(c, it, gen, probes, NextToken(c, it, gen));
    if st.Going? {
      NoProbes(c, it, st.gen, st.probes);
    }
  }

  // ---- and one can be as late -------------------------------------------------------------

  /** A model that never ends and prefers no candidate. */
  function Stubborn(m: Model): Model {
    m.(next := (n: nat, h: History) => if m.eos == 0 then 1 else 0, logit := (h: History, t: Token) => 0.0)
  }

  lemma {:induction false} MassOfZeros(m: Model, logits: seq<real>)
    requires IsExp(m) && forall i :: 0 <= i < |logits| ==> logits[i] == 0.0
    ensures Mass(m, logits, 0.0) == |logits| as real
    decreases |logits|
  {
    if logits == [] {
    } else {
      MassOfZeros(m, logits[..|logits| - 1]);
    }
  }

  lemma StubbornDoubts(c: Config, it: Item, gen: seq<Token>)
    requires IsExp(c.m) && c.m == Stubborn(c.m) && !AlwaysExits(c, it)
    ensures !Confident(c, ProbeAt(c, it, gen))
  {
    hide Mass, Best;
    var logits := ProbeAt(c, it, gen).logits;
    assert |logits| == |it.cand|;
    if c.tau > 0.0 && logits != [] {
      MassOfZeros(c.m, logits);
      var n := |it.cand| as real;
      assert TopProbability(c.m, logits) == 1.0 / n;
      RatioIs(1.0, n, c.tau);
    }
  }

  /** The run of a stubborn model is probed at every due position up to the last. */
  lemma {:induction false} StubbornReaches(c: Config, it: Item, gen: seq<Token>, probes: seq<Probe>) returns (i: nat)
    requires IsExp(c.m) && c.m == Stubborn(c.m) && c.cap > 0 && c.interval > 0
    requires |gen| < LastProbe(c, it) < c.cap
    ensures i < |Continue(c, it, gen, probes).probes| && Continue(c, it, gen, probes).probes[i].pos == LastProbe(c, it)
    decreases c.cap - |gen|
  {
    hide IsExp, AlwaysExits, LastProbe, ProbeDue, Confident, ProbeOf;
    var t := NextToken(c, it, gen);
    var g := gen + [t];
    assert t != c.m.eos;
    if |g| == LastProbe(c, it) {
      LastIsDue(c, it);
      i := |probes|;
      var p := ProbeAt(c, it, g);
      PosOfProbe(c, it, g);
      if !Confident(c, p) {
        ProbesExtend(c, it, g, probes + [p]);
      }
    } else {
      GoesOn(c, it, g);
      var ps := if ProbeDue(c, |g|) then probes + [ProbeAt(c, it, g)] else probes;
      i := StubbornReaches(c, it, g, ps);
    }
  }

  lemma LastIsDue(c: Config, it: Item)
    requires c.cap > 0 && c.interval > 0
    ensures ProbeDue(c, LastProbe(c, it)) && LastProbe(c, it) < c.cap
  {
    hide AlwaysExits;
    IntervalIsDue(c);
    LastMultiple(0, c.cap - 1, c.interval);
  }

  lemma GoesOn(c: Config, it: Item, g: seq<Token>)
    requires IsExp(c.m) && c.m == Stubborn(c.m) && c.cap > 0 && c.interval > 0
    requires 0 < |g| < LastProbe(c, it)
    ensures ProbeDue(c, |g|) ==> !Confident(c, ProbeAt(c, it, g))
  {
    hide IsExp, AlwaysExits, ProbeDue, Confident, ProbeOf;
    if ProbeDue(c, |g|) {
      NotDueBefore(c, |g|);
      if AlwaysExits(c, it) {
        LastMultiple(0, c.cap - 1, c.interval);
        assert false;
      }
      StubbornDoubts(c, it, g);
    }
  }

  /** If the shape does not fit, the run of a stubborn model has a probe that cannot be made. */
  lemma ShapeNeeded(c: Config, it: Item, window: nat) returns (i: nat)
    requires c.cap > 0 && IsExp(c.m) && !ShapeFits(c, it, window)
    ensures var d := c.(m := Stubborn(c.m));
      && i < |Alone(d, it).probes|
      && !(CandidatesKnown(c.m, it) && |it.ids| + Alone(d, it).probes[i].pos + |it.probe| <= window)
  {
    hide IsExp, AlwaysExits, LastProbe, ProbeOf;
    var d := c.(m := Stubborn(c.m));
    StubbornIsLike(c, it);
    LastIsDue(c, it);
    ProbesExtend(d, it, [], FirstProbes(d, it));
    i := 0;
    PosOfProbe(d, it, []);
    assert Alone(d, it).probes[0] == ProbeAt(d, it, []);
    if LastProbe(c, it) > 0 && CandidatesKnown(c.m, it) {
      i := StubbornReaches(d, it, [], FirstProbes(d, it));
    }
  }

  lemma StubbornIsLike(c: Config, it: Item)
    requires c.cap > 0 && c.interval > 0
    ensures var d := c.(m := Stubborn(c.m));
      && (IsExp(c.m) ==> IsExp(d.m)) && d.m == Stubborn(d.m) && LastProbe(d, it) == LastProbe(c, it)
  {
  }
}
