// What one case of tools/bench_reasoning_batch.c generates when it runs alone: the
// greedy tokens, the answer probes and the stop reason, as functions of the case.
// A session is its token history; a decode step of size n appends `next(n, history)`.
module ReasoningRuns {
  import opened Arithmetic

  type Token = nat
  type History = seq<Token>

  /** The model: the token a step of a batch of n appends, the logit of a token after a
      history, the vocabulary size, the end-of-sequence token, and exp. */
  datatype Model = Model(next: (nat, History) -> Token, logit: (History, Token) -> real, vocab: nat, eos: Token,
                         exp: real -> real)

  datatype Item = Item(ids: seq<Token>, nCut: nat, cand: seq<Token>, probe: seq<Token>)

  /** `size` is the batch size whose step decides the tokens; tau 0 never exits early. */
  datatype Config = Config(m: Model, size: nat, cap: nat, interval: nat, tau: real)

  datatype Probe = Probe(pos: nat, logits: seq<real>)

  datatype Stop = Eos | Limit | EarlyExit(answer: nat)

  datatype Sample = Sample(gen: seq<Token>, stop: Stop, probes: seq<Probe>)

  // ---- the candidates' top softmax probability ---------------------------------

  /** The first index with the largest logit. */
  function Best(logits: seq<real>): (b: nat)
    requires logits != []
    ensures b < |logits|
  {
    if |logits| == 1 then 0
    else
      var k := |logits| - 1;
      var b := Best(logits[..k]);
      if logits[k] > logits[b] then k else b
  }

  lemma {:induction false} BestIsFirstMaximum(logits: seq<real>, i: nat)
    requires i < |logits|
    ensures logits[i] <= logits[Best(logits)]
    ensures i < Best(logits) ==> logits[i] < logits[Best(logits)]
    decreases |logits|
  {
    var k := |logits| - 1;
    if k == 0 {
    } else {
      if i < k {
        BestIsFirstMaximum(logits[..k], i);
      } else {
        assert Best(logits[..k]) < k;
      }
    }
  }

  /** Sum of exp(l - top) over the logits. */
  function Mass(m: Model, logits: seq<real>, top: real): real {
    if logits == [] then 0.0
    else Mass(m, logits[..|logits| - 1], top) + m.exp(logits[|logits| - 1] - top)
  }

  /** What the probabilities need of exp. */
  ghost predicate IsExp(m: Model) {
    && m.exp(0.0) == 1.0
    && (forall x :: m.exp(x) > 0.0)
    && (forall x :: x <= 0.0 ==> m.exp(x) <= 1.0)
  }

  /** The mass is at least that of each logit, and at most their number when none is larger. */
  lemma {:induction false} MassBounds(m: Model, logits: seq<real>, top: real, i: nat)
    requires IsExp(m)
    ensures Mass(m, logits, top) >= 0.0
    ensures i < |logits| ==> Mass(m, logits, top) >= m.exp(logits[i] - top)
    ensures (forall k :: 0 <= k < |logits| ==> logits[k] <= top) ==> Mass(m, logits, top) <= |logits| as real
    decreases |logits|
  {
    if logits == [] {
    } else {
      MassBounds(m, logits[..|logits| - 1], top, i);
    }
  }

  /** The mass around the best logit is between 1 and the number of logits. */
  lemma MassAtBest(m: Model, logits: seq<real>)
    requires IsExp(m) && logits != []
    ensures 1.0 <= Mass(m, logits, logits[Best(logits)]) <= |logits| as real
  {
    hide Mass, Best;
    var b := Best(logits);
    forall i | 0 <= i < |logits|
      ensures logits[i] <= logits[b]
    {
      BestIsFirstMaximum(logits, i);
    }
    MassBounds(m, logits, logits[b], b);
    assert logits[b] - logits[b] == 0.0;
  }

  /** The probability of the best candidate: exp(0) over the mass. */
  function TopProbability(m: Model, logits: seq<real>): real
    requires logits != []
  {
    var mass := Mass(m, logits, logits[Best(logits)]);
    if mass == 0.0 then 0.0 else 1.0 / mass
  }

  /** The softmax probability of the best of n candidates is at least 1/n and at most 1. */
  lemma TopBounds(m: Model, logits: seq<real>)
    requires IsExp(m) && logits != []
    ensures 0.0 < TopProbability(m, logits) <= 1.0 && 1.0 <= TopProbability(m, logits) * |logits| as real
    ensures Mass(m, logits, logits[Best(logits)]) != 0.0
  {
    hide Mass, Best;
    MassAtBest(m, logits);
    Reciprocal(Mass(m, logits, logits[Best(logits)]), |logits| as real);
  }

  // ---- the softmax law ----------------------------------------------------------------

  /** The share of the best of some logits, by three rules: it is 1 alone, one more logit that
      is not larger adds its exp to the reciprocal, and the order does not matter. */
  lemma AloneIsSure(m: Model, x: real)
    requires IsExp(m)
    ensures TopProbability(m, [x]) == 1.0
  {
    assert [x][..0] == [];
    assert x - x == 0.0;
    assert Mass(m, [x], x) == Mass(m, [x][..0], x) + m.exp(x - x);
  }

  lemma OneMoreLogit(m: Model, logits: seq<real>, x: real)
    requires IsExp(m) && logits != [] && x <= logits[Best(logits)]
    ensures TopProbability(m, logits) > 0.0 && TopProbability(m, logits + [x]) > 0.0
    ensures 1.0 / TopProbability(m, logits + [x]) == 1.0 / TopProbability(m, logits) + m.exp(x - logits[Best(logits)])
  {
    hide Mass, Best, IsExp, TopProbability;
    var more := logits + [x];
    BestOfMore(logits, x);
    MassOfMore(m, logits, x, logits[Best(logits)]);
    ShareOf(m, logits);
    ShareOf(m, more);
  }

  lemma ShareOf(m: Model, logits: seq<real>)
    requires IsExp(m) && logits != []
    ensures TopProbability(m, logits) > 0.0
    ensures 1.0 / TopProbability(m, logits) == Mass(m, logits, logits[Best(logits)])
  {
    hide Mass, Best, IsExp;
    MassAtBest(m, logits);
    TwiceReciprocal(Mass(m, logits, logits[Best(logits)]));
  }

  lemma TwiceReciprocal(x: real)
    requires x >= 1.0
    ensures 1.0 / x > 0.0 && 1.0 / (1.0 / x) == x
  {
    var y := 1.0 / x;
    assert y * x == 1.0;
  }

  lemma BestOfMore(logits: seq<real>, x: real)
    requires logits != []
    ensures (logits + [x])[..|logits|] == logits
    ensures x <= logits[Best(logits)] ==> Best(logits + [x]) == Best(logits)
    ensures x > logits[Best(logits)] ==> Best(logits + [x]) == |logits|
  {
    assert (logits + [x])[..|logits|] == logits;
  }

  lemma MassOfMore(m: Model, logits: seq<real>, x: real, top: real)
    ensures Mass(m, logits + [x], top) == Mass(m, logits, top) + m.exp(x - top)
  {
    assert (logits + [x])[..|logits|] == logits;
  }

  lemma {:induction false} MassOfBoth(m: Model, a: seq<real>, b: seq<real>, top: real)
    ensures Mass(m, a + b, top) == Mass(m, a, top) + Mass(m, b, top)
    decreases |b|
  {
    if b == [] {
      assert a + b == a;
    } else {
      var front, x := b[..|b| - 1], b[|b| - 1];
      assert a + b == (a + front) + [x];
      MassOfMore(m, a + front, x, top);
      MassOfBoth(m, a, front, top);
    }
  }

  lemma {:induction false} MassInAnyOrder(m: Model, a: seq<real>, b: seq<real>, top: real)
    requires multiset(a) == multiset(b)
    ensures Mass(m, a, top) == Mass(m, b, top)
    decreases |a|
  {
    hide Mass;
    if a == [] {
      assert |multiset(b)| == |b| && multiset(a) == multiset{};
    } else {
      var x := a[|a| - 1];
      assert a == a[..|a| - 1] + [x];
      assert x in multiset(b);
      var i :| 0 <= i < |b| && b[i] == x;
      var rest := b[..i] + b[i + 1..];
      assert b == b[..i] + ([x] + b[i + 1..]);
      assert multiset(rest) == multiset(b) - multiset{x} && multiset(a[..|a| - 1]) == multiset(a) - multiset{x};
      MassInAnyOrder(m, a[..|a| - 1], rest, top);
      MassOfMore(m, a[..|a| - 1], x, top);
      MassOfBoth(m, b[..i], [x] + b[i + 1..], top);
      MassOfBoth(m, [x], b[i + 1..], top);
      MassOfBoth(m, b[..i], b[i + 1..], top);
      MassOfBoth(m, [], [x], top);
      MassOfMore(m, [], x, top);
      NoMass(m, top);
      assert [] + [x] == [x];
    }
  }

  lemma NoMass(m: Model, top: real)
    ensures Mass(m, [], top) == 0.0
  {
  }

  lemma InAnyOrder(m: Model, a: seq<real>, b: seq<real>)
    requires a != [] && b != [] && multiset(a) == multiset(b)
    ensures a[Best(a)] == b[Best(b)] && TopProbability(m, a) == TopProbability(m, b)
  {
    hide Best, Mass;
    SameBest(a, b);
    SameBest(b, a);
    MassInAnyOrder(m, a, b, a[Best(a)]);
  }

  lemma SameBest(a: seq<real>, b: seq<real>)
    requires a != [] && b != [] && multiset(a) == multiset(b)
    ensures a[Best(a)] <= b[Best(b)]
  {
    hide Best;
    var x := a[Best(a)];
    assert x in multiset(a) && x in multiset(b);
    var i :| 0 <= i < |b| && b[i] == x;
    BestIsFirstMaximum(b, i);
  }

  method ComputeTopProbability(m: Model, logits: seq<real>) returns (p: real, arg: nat)
    requires logits != [] && IsExp(m)
    ensures arg == Best(logits) && p == TopProbability(m, logits)
    ensures 0.0 < p <= 1.0
    ensures forall i :: 0 <= i < |logits| ==> logits[i] <= logits[arg]
  {
    var best := 0;
    for i := 1 to |logits|
      invariant best < i && best == Best(logits[..i])
    {
      assert logits[..i + 1][..i] == logits[..i];
      best := if logits[i] > logits[best] then i else best;
    }
    assert logits[..|logits|] == logits;
    var total := 0.0;
    for i := 0 to |logits|
      invariant total == Mass(m, logits[..i], logits[best])
    {
      assert logits[..i + 1][..i] == logits[..i];
      total := total + m.exp(logits[i] - logits[best]);
    }
    TopBounds(m, logits);
    arg := best;
    p := 1.0 / total;
    forall i | 0 <= i < |logits|
      ensures logits[i] <= logits[arg]
    {
      BestIsFirstMaximum(logits, i);
    }
  }

  // ---- one case alone ------------------------------------------------------------

  /** The candidates' logits after a history and the probe tokens. */
  function ProbeOf(m: Model, h: History, it: Item, pos: nat): Probe {
    Probe(pos, seq(|it.cand|, i requires 0 <= i < |it.cand| => m.logit(h + it.probe, it.cand[i])))
  }

  /** The probe after the prompt and the tokens so far. */
  function ProbeAt(c: Config, it: Item, gen: seq<Token>): Probe { ProbeOf(c.m, it.ids + gen, it, |gen|) }

  predicate ProbeDue(c: Config, n: nat) { c.interval > 0 && n % c.interval == 0 }

  predicate Confident(c: Config, p: Probe) {
    c.tau > 0.0 && p.logits != [] && TopProbability(c.m, p.logits) >= c.tau
  }

  /** A case after some tokens: still running with its tokens and probes, or finished. */
  datatype Status = Going(gen: seq<Token>, probes: seq<Probe>) | Finished(sample: Sample)

  /** One more token, with the stop rules and the probe after it. */
  function AfterToken(c: Config, it: Item, gen: seq<Token>, probes: seq<Probe>, t: Token): Status {
    var g := gen + [t];
    if t == c.m.eos || |g| == c.cap then Finished(Sample(g, if t == c.m.eos then Eos else Limit, probes))
    else if !ProbeDue(c, |g|) then Going(g, probes)
    else
      var p := ProbeAt(c, it, g);
      if Confident(c, p) then Finished(Sample(g, EarlyExit(Best(p.logits)), probes + [p]))
      else Going(g, probes + [p])
  }

  function NextToken(c: Config, it: Item, gen: seq<Token>): Token { c.m.next(c.size, it.ids + gen) }

  function Continue(c: Config, it: Item, gen: seq<Token>, probes: seq<Probe>): Sample
    requires |gen| < c.cap
    decreases c.cap - |gen|
  {
    match AfterToken(c, it, gen, probes, NextToken(c, it, gen))
    case Finished(s) => s
    case Going(g, ps) => Continue(c, it, g, ps)
  }

  function FirstProbes(c: Config, it: Item): seq<Probe> {
    if c.interval > 0 then [ProbeAt(c, it, [])] else []
  }

  /** What the case generates from a fresh session that holds nothing but its prompt. */
  function Alone(c: Config, it: Item): Sample
    requires c.cap > 0
  {
    Continue(c, it, [], FirstProbes(c, it))
  }

  /** The tokens follow greedily from the prompt, at most `cap` of them, and stop at the first
      end-of-sequence token. */
  lemma {:induction false} AloneIsGreedy(c: Config, it: Item, gen: seq<Token>, probes: seq<Probe>)
    requires |gen| < c.cap
    ensures var s := Continue(c, it, gen, probes);
      && |gen| < |s.gen| <= c.cap && s.gen[..|gen|] == gen
      && (forall i :: |gen| <= i < |s.gen| ==> s.gen[i] == c.m.next(c.size, it.ids + s.gen[..i]))
      && (forall i :: |gen| <= i < |s.gen| - 1 ==> s.gen[i] != c.m.eos)
      && (s.stop.Eos? <==> s.gen[|s.gen| - 1] == c.m.eos)
      && (s.stop.Limit? ==> |s.gen| == c.cap)
    decreases c.cap - |gen|
  {
    var t := NextToken(c, it, gen);
    var g := gen + [t];
    assert g[..|gen|] == gen;
    if t == c.m.eos || |g| == c.cap {
      assert g == g[..|g|];
    } else {
      var ps := if ProbeDue(c, |g|) then probes + [ProbeAt(c, it, g)] else probes;
      if ProbeDue(c, |g|) && Confident(c, ProbeAt(c, it, g)) {
      } else {
        AloneIsGreedy(c, it, g, ps);
        var s := Continue(c, it, g, ps);
        assert s.gen[..|gen|] == s.gen[..|g|][..|gen|];
      }
    }
  }

  /** Probes are only added: what was recorded stays a prefix. */
  lemma {:induction false} ProbesExtend(c: Config, it: Item, gen: seq<Token>, probes: seq<Probe>)
    requires |gen| < c.cap
    ensures probes <= Continue(c, it, gen, probes).probes
    decreases c.cap - |gen|
  {
    var st := AfterToken(c, it, gen, probes, NextToken(c, it, gen));
    if st.Going? {
      ProbesExtend(c, it, st.gen, st.probes);
    }
  }

  /** The probe at a position of some tokens: the candidates' logits after the prompt, the
      tokens so far and the probe tokens. */
  ghost predicate ProbedAt(c: Config, it: Item, gen: seq<Token>, p: Probe, n: nat) {
    && n <= |gen| && p.pos == n && |p.logits| == |it.cand|
    && forall i :: 0 <= i < |it.cand| ==> p.logits[i] == c.m.logit(it.ids + gen[..n] + it.probe, it.cand[i])
  }

  /** Probes at the multiples of the interval up to n, and no others. */
  ghost predicate ProbedUpTo(c: Config, it: Item, gen: seq<Token>, probes: seq<Probe>, n: nat) {
    && (c.interval == 0 ==> probes == [])
    && (c.interval > 0 ==>
          && |probes| == n / c.interval + 1
          && forall k :: 0 <= k < |probes| ==> ProbedAt(c, it, gen, probes[k], k * c.interval))
  }

  lemma ProbedPrefix(c: Config, it: Item, gen: seq<Token>, full: seq<Token>, p: Probe, n: nat)
    requires gen <= full && ProbedAt(c, it, gen, p, n)
    ensures ProbedAt(c, it, full, p, n)
  {
    assert full[..n] == gen[..n];
  }

  lemma ProbedStays(c: Config, it: Item, gen: seq<Token>, full: seq<Token>, probes: seq<Probe>, n: nat)
    requires gen <= full && ProbedUpTo(c, it, gen, probes, n)
    ensures ProbedUpTo(c, it, full, probes, n)
  {
    hide ProbedAt;
    forall k | c.interval > 0 && 0 <= k < |probes|
      ensures ProbedAt(c, it, full, probes[k], k * c.interval)
    {
      ProbedPrefix(c, it, gen, full, probes[k], k * c.interval);
    }
  }

  lemma ProbedNext(c: Config, it: Item, gen: seq<Token>, probes: seq<Probe>)
    requires gen != [] && ProbedUpTo(c, it, gen[..|gen| - 1], probes, |gen| - 1)
    ensures ProbedUpTo(c, it, gen, if ProbeDue(c, |gen|) then probes + [ProbeAt(c, it, gen)] else probes, |gen|)
  {
    hide ProbedAt, ProbeOf;
    var n := |gen|;
    ProbedStays(c, it, gen[..n - 1], gen, probes, n - 1);
    if c.interval > 0 {
      DivNext(c.interval, n - 1);
      if ProbeDue(c, n) {
        Multiple(n, c.interval);
        ProbedHere(c, it, gen);
      }
    }
  }

  lemma Multiple(n: nat, d: nat)
    requires d > 0 && n % d == 0
    ensures n / d * d == n
  {
  }

  lemma ProbedHere(c: Config, it: Item, gen: seq<Token>)
    ensures ProbedAt(c, it, gen, ProbeAt(c, it, gen), |gen|)
  {
    assert gen[..|gen|] == gen;
  }

  lemma {:induction false} ProbesExactlyFrom(c: Config, it: Item, gen: seq<Token>, probes: seq<Probe>)
    requires |gen| < c.cap && ProbedUpTo(c, it, gen, probes, |gen|)
    ensures var s := Continue(c, it, gen, probes);
      s.gen != [] && ProbedUpTo(c, it, s.gen, s.probes, if s.stop.EarlyExit? then |s.gen| else |s.gen| - 1)
    decreases c.cap - |gen|
  {
    hide ProbedUpTo, ProbeOf, TopProbability, Best;
    var t := NextToken(c, it, gen);
    var g := gen + [t];
    assert g[..|g| - 1] == gen;
    ProbedNext(c, it, g, probes);
    if t == c.m.eos || |g| == c.cap {
      ProbedStays(c, it, gen, g, probes, |gen|);
    } else {
      var st := AfterToken(c, it, gen, probes, t);
      if st.Going? {
        ProbesExactlyFrom(c, it, g, st.probes);
      }
    }
  }

  /** A case alone is probed before its first token and after every interval of tokens it goes
      on from or exits early at; each probe holds the model's logits there. */
  lemma ProbesExactly(c: Config, it: Item)
    requires c.cap > 0
    ensures var s := Alone(c, it);
      s.gen != [] && ProbedUpTo(c, it, s.gen, s.probes, if s.stop.EarlyExit? then |s.gen| else |s.gen| - 1)
  {
    hide Continue, ProbedAt, ProbeOf;
    if c.interval > 0 {
      DivIs(0, c.interval, 0, 0);
      ProbedHere(c, it, []);
    }
    ProbesExactlyFrom(c, it, [], FirstProbes(c, it));
  }

  /** An early exit only truncates: without it the same case generates on, token for token and
      probe for probe. */
  lemma {:induction false} EarlyExitTruncates(c: Config, it: Item, gen: seq<Token>, probes: seq<Probe>)
    requires |gen| < c.cap
    ensures var (s, full) := (Continue(c, it, gen, probes), Continue(c.(tau := 0.0), it, gen, probes));
      && s.gen <= full.gen && s.probes <= full.probes
      && (!s.stop.EarlyExit? ==> s == full)
    decreases c.cap - |gen|
  {
    var c0 := c.(tau := 0.0);
    var t := NextToken(c, it, gen);
    var st := AfterToken(c, it, gen, probes, t);
    var st0 := AfterToken(c0, it, gen, probes, t);
    if st.Going? {
      EarlyExitTruncates(c, it, st.gen, st.probes);
    } else if st0.Going? {
      AloneIsGreedy(c0, it, st0.gen, st0.probes);
      ProbesExtend(c0, it, st0.gen, st0.probes);
    }
  }

  /** The case's run without early exits is probed after n tokens, and the best candidate then
      has a share of at least tau. */
  ghost predicate ExitsAt(c: Config, it: Item, full: seq<Token>, n: nat) {
    && 0 < n < |full| && c.interval > 0 && n % c.interval == 0
    && c.tau > 0.0 && it.cand != []
    && TopProbability(c.m, ProbeAt(c, it, full[..n]).logits) >= c.tau
  }

  /** No exit is due from here on before n. */
  ghost predicate NoExit(c: Config, it: Item, full: seq<Token>, from: nat, n: nat) {
    forall k :: from < k < n ==> !ExitsAt(c, it, full, k)
  }

  lemma {:induction false} ExitsExactlyFrom(c: Config, it: Item, gen: seq<Token>, probes: seq<Probe>)
    requires |gen| < c.cap
    ensures var (s, full) := (Continue(c, it, gen, probes), Continue(c.(tau := 0.0), it, gen, probes).gen);
      && gen <= full && |gen| < |s.gen| <= |full| && s.gen == full[..|s.gen|]
      && NoExit(c, it, full, |gen|, |s.gen|)
      && (s.stop.EarlyExit? <==> ExitsAt(c, it, full, |s.gen|))
      && (s.stop.EarlyExit? ==> s.stop.answer == Best(ProbeAt(c, it, s.gen).logits))
      && (!s.stop.EarlyExit? ==> s.gen == full)
    decreases c.cap - |gen|
  {
    hide Best, TopProbability, ProbeOf, NextToken;
    var c0 := c.(tau := 0.0);
    var t := NextToken(c, it, gen);
    NextWithoutTau(c, it, gen);
    var g := gen + [t];
    var full := Continue(c0, it, gen, probes).gen;
    if t == c.m.eos || |g| == c.cap {
      assert g == g[..|g|];
    } else {
      var ps := if ProbeDue(c, |g|) then probes + [ProbeAt(c, it, g)] else probes;
      GreedyStep(c0, it, gen, probes, ps);
      AloneIsGreedy(c0, it, g, ps);
      assert full[..|g|] == g;
      ExitIs(c, it, full, g);
      if !(ProbeDue(c, |g|) && Confident(c, ProbeAt(c, it, g))) {
        ExitsExactlyFrom(c, it, g, ps);
        assert !ExitsAt(c, it, full, |g|);
      }
    }
  }

  lemma NextWithoutTau(c: Config, it: Item, gen: seq<Token>)
    ensures NextToken(c.(tau := 0.0), it, gen) == NextToken(c, it, gen)
  {
  }

  /** Without early exits a case goes on after every token but its last. */
  lemma GreedyStep(c: Config, it: Item, gen: seq<Token>, probes: seq<Probe>, ps: seq<Probe>)
    requires |gen| + 1 < c.cap && c.tau == 0.0 && NextToken(c, it, gen) != c.m.eos
    requires var g := gen + [NextToken(c, it, gen)];
      ps == if ProbeDue(c, |g|) then probes + [ProbeAt(c, it, g)] else probes
    ensures Continue(c, it, gen, probes) == Continue(c, it, gen + [NextToken(c, it, gen)], ps)
  {
  }

  lemma ExitIs(c: Config, it: Item, full: seq<Token>, g: seq<Token>)
    requires 0 < |g| < |full| && full[..|g|] == g
    ensures ExitsAt(c, it, full, |g|) <==> ProbeDue(c, |g|) && Confident(c, ProbeAt(c, it, g))
  {
    hide TopProbability;
    assert |ProbeAt(c, it, g).logits| == |it.cand|;
  }

  /** A case exits early exactly when, in its run without early exits, some probe after a token
      gives its best candidate a share of at least tau: at the first such probe, with that
      candidate, and with the tokens up to there. */
  lemma ExitsExactly(c: Config, it: Item)
    requires c.cap > 0
    ensures var (s, full) := (Alone(c, it), Alone(c.(tau := 0.0), it).gen);
      && (s.stop.EarlyExit? <==> exists n :: ExitsAt(c, it, full, n))
      && (s.stop.EarlyExit? ==>
            && ExitsAt(c, it, full, |s.gen|) && NoExit(c, it, full, 0, |s.gen|)
            && s.gen == full[..|s.gen|] && s.stop.answer == Best(ProbeAt(c, it, s.gen).logits))
      && (!s.stop.EarlyExit? ==> s.gen == full)
  {
    hide Continue, ExitsAt, Best, ProbeOf;
    var c0 := c.(tau := 0.0);
    assert FirstProbes(c0, it) == FirstProbes(c, it);
    ExitsExactlyFrom(c, it, [], FirstProbes(c, it));
    var (s, full) := (Alone(c, it), Alone(c0, it).gen);
    if n :| ExitsAt(c, it, full, n) && !s.stop.EarlyExit? {
      ExitWithin(c, it, full, n);
    }
  }

  lemma ExitWithin(c: Config, it: Item, full: seq<Token>, n: nat)
    requires ExitsAt(c, it, full, n)
    ensures 0 < n < |full|
  {
  }

  /** With tau 0 nothing exits early. */
  lemma {:induction false} NoEarlyExit(c: Config, it: Item, gen: seq<Token>, probes: seq<Probe>)
    requires |gen| < c.cap && c.tau == 0.0
    ensures !Continue(c, it, gen, probes).stop.EarlyExit?
    decreases c.cap - |gen|
  {
    var st := AfterToken(c, it, gen, probes, NextToken(c, it, gen));
    if st.Going? {
      NoEarlyExit(c, it, st.gen, st.probes);
    }
  }

  /** The step does not depend on how many sessions share it. */
  ghost predicate SizeIndependent(m: Model) {
    forall n, k, h :: m.next(n, h) == m.next(k, h)
  }

  lemma {:induction false} SizeDoesNotMatter(c: Config, it: Item, gen: seq<Token>, probes: seq<Probe>, n: nat)
    requires |gen| < c.cap && SizeIndependent(c.m)
    ensures Continue(c.(size := n), it, gen, probes) == Continue(c, it, gen, probes)
    decreases c.cap - |gen|
  {
    var st := AfterToken(c, it, gen, probes, NextToken(c, it, gen));
    assert NextToken(c.(size := n), it, gen) == NextToken(c, it, gen);
    assert AfterToken(c.(size := n), it, gen, probes, NextToken(c, it, gen)) == st;
    if st.Going? {
      SizeDoesNotMatter(c, it, st.gen, st.probes, n);
    }
  }
}
