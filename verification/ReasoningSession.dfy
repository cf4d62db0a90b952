// A geist session as the reasoning drivers use it (include/geist_util.h): its state
// is its token history, limited by a window. The answer probe of both drivers and
// the single-session driver of tools/bench_reasoning_probe.c.
module ReasoningSession {
  import opened Results
  import opened ReasoningRuns
  import opened Arithmetic

  class Session {
    const window: nat
    var hist: History

    constructor (window: nat)
      ensures this.window == window && hist == []
    {
      this.window := window;
      hist := [];
    }

    method Reset()
      modifies this
      ensures hist == []
    {
      hist := [];
    }

    /** Appends the tokens, or refuses and changes nothing when they do not fit. */
    method Prefill(ids: seq<Token>) returns (ok: bool)
      modifies this
      ensures ok <==> |old(hist)| + |ids| <= window
      ensures hist == if ok then old(hist) + ids else old(hist)
    {
      ok := |hist| + |ids| <= window;
      if ok {
        hist := hist + ids;
      }
    }

    /** The image of the complete state. */
    method Snapshot() returns (image: History)
      ensures image == hist
    {
      image := hist;
    }

    /** The session becomes the image, whatever it was. Bytes that are no complete image for
        this model and session (None), or one that needs a larger window, are refused and
        change nothing; a transfer that fails leaves the session reset. */
    method Restore(image: Option<History>, transferred: bool) returns (ok: bool)
      modifies this
      ensures ok <==> image.Some? && |image.value| <= window && transferred
      ensures image.None? || |image.value| > window ==> hist == old(hist)
      ensures image.Some? && |image.value| <= window ==> hist == if transferred then image.value else []
    {
      if image.None? || |image.value| > window {
        return false;
      }
      ok := transferred;
      hist := if transferred then image.value else [];
    }

    /** One step of a batch of n: a full context refuses and changes nothing. */
    method DecodeStep(m: Model, n: nat) returns (ok: bool, t: Token)
      modifies this
      ensures ok <==> |old(hist)| < window
      ensures ok ==> t == m.next(n, old(hist)) && hist == old(hist) + [t]
      ensures !ok ==> hist == old(hist)
    {
      ok := |hist| < window;
      t := m.next(n, hist);
      if ok {
        hist := hist + [t];
      }
    }
  }

  ghost predicate CandidatesKnown(m: Model, it: Item) {
    forall i :: 0 <= i < |it.cand| ==> it.cand[i] < m.vocab
  }

  /** The candidates' logits after the probe tokens. The session is left as it was found, also
      when the probe does not fit or names an unknown candidate. */
  method ProbeOnce(m: Model, s: Session, it: Item, pos: nat) returns (ok: bool, p: Probe)
    modifies s
    ensures s.hist == old(s.hist)
    ensures ok <==> |old(s.hist)| + |it.probe| <= s.window && CandidatesKnown(m, it)
    ensures ok ==> p == ProbeOf(m, old(s.hist), it, pos)
  {
    var image := s.Snapshot();
    ok := s.Prefill(it.probe);
    var logits: seq<real> := [];
    var i := 0;
    while ok && i < |it.cand|
      invariant 0 <= i <= |it.cand|
      invariant s.hist == if |image| + |it.probe| <= s.window then image + it.probe else image
      invariant ok <==> |image| + |it.probe| <= s.window && forall k :: 0 <= k < i ==> it.cand[k] < m.vocab
      invariant ok ==> |logits| == i && forall k :: 0 <= k < i ==> logits[k] == m.logit(image + it.probe, it.cand[k])
      decreases |it.cand| - i, ok
    {
      if it.cand[i] >= m.vocab {
        assert !(forall k :: 0 <= k < i + 1 ==> it.cand[k] < m.vocab);
        ok := false;
      } else {
        logits := logits + [m.logit(s.hist, it.cand[i])];
      }
      i := i + 1;
    }
    var restored := s.Restore(Some(image), true);
    p := Probe(pos, logits);
  }

  /** How many probes were made before the one at n, or at n itself when none is due there. */
  function ProbesBefore(interval: nat, n: nat): nat {
    if interval == 0 then 0 else n / interval + if n % interval == 0 then 0 else 1
  }

  /** How many probes the buffer of the single-session driver is allocated for. */
  function ProbeRoom(interval: nat, cap: nat): nat
    requires cap > 0
  {
    cap / (if interval > 0 then interval else cap) + 2
  }

  /** Makes the probe that is due, if one is, and appends it to the buffer. */
  method ProbeIfDue(c: Config, s: Session, it: Item, ghost gen: seq<Token>, n: nat, probes: array<Probe>, count: nat)
    returns (ok: bool, after: nat)
    requires n == |gen| < c.cap && s.hist == it.ids + gen && |s.hist| + |it.probe| <= s.window
    requires count == ProbesBefore(c.interval, n) && probes.Length == ProbeRoom(c.interval, c.cap)
             && count <= probes.Length
    modifies s, probes
    ensures s.hist == old(s.hist)
    ensures ok <==> !ProbeDue(c, n) || CandidatesKnown(c.m, it)
    ensures ok ==> after == ProbesBefore(c.interval, n + 1) <= probes.Length
    ensures ok ==> probes[..after] == WithDue(c, it, gen, old(probes[..count]))
  {
    hide ProbesBefore, ProbeRoom, ProbeOf;
    ProbesGoOn(c, n);
    ok, after := true, count;
    if c.interval > 0 && n % c.interval == 0 {
      var p;
      ok, p := ProbeOnce(c.m, s, it, n);
      if ok {
        ProbeHasRoom(c, n);
        probes[count] := p;
        after := count + 1;
      }
    }
  }

  /** The single-session driver: a probe before the first step and before every `interval`-th.
      Tokens and probes go into buffers of the allocated sizes. */
  method GenerateProbed(c: Config, s: Session, it: Item) returns (ok: bool, sample: Sample)
    requires c.size == 1 && c.tau == 0.0 && c.cap > 0
    requires |it.probe| <= 64 && |it.ids| + c.cap + 64 <= s.window
    modifies s
    ensures ok <==> c.interval == 0 || CandidatesKnown(c.m, it)
    ensures ok ==> sample == Alone(c, it)
  {
    hide Alone, Continue, ProbesBefore, ProbeRoom, ProbeDue, WithDue, CandidatesKnown;
    var gen := new Token[c.cap];
    var probes := new Probe[ProbeRoom(c.interval, c.cap)](_ => Probe(0, []));
    s.Reset();
    ok := s.Prefill(it.ids);
    var nGen, nProbes: nat := 0, 0;
    assert it.ids + gen[..nGen] == it.ids;
    StartsAlone(c, it, gen[..nGen], probes[..nProbes]);
    while true
      invariant nGen < c.cap && s.hist == it.ids + gen[..nGen]
      invariant nProbes == ProbesBefore(c.interval, nGen) <= probes.Length
      invariant Alone(c, it) == Continue(c, it, gen[..nGen], WithDue(c, it, gen[..nGen], probes[..nProbes]))
      invariant nGen > 0 ==> c.interval == 0 || CandidatesKnown(c.m, it)
      decreases c.cap - nGen
    {
      ok, nProbes := ProbeIfDue(c, s, it, gen[..nGen], nGen, probes, nProbes);
      if !ok {
        DueMeans(c, nGen);
        sample := Sample(gen[..nGen], Limit, []);
        return;
      }
      ContinueOnce(c, it, gen[..nGen], probes[..nProbes]);
      ghost var g := gen[..nGen];
      assert it.ids + (g + [NextToken(c, it, g)]) == (it.ids + g) + [NextToken(c, it, g)];
      ok, gen[nGen] := s.DecodeStep(c.m, 1);
      nGen := nGen + 1;
      assert gen[..nGen] == g + [gen[nGen - 1]];
      if gen[nGen - 1] == c.m.eos || nGen == c.cap {
        sample := Sample(gen[..nGen], if gen[nGen - 1] == c.m.eos then Eos else Limit, probes[..nProbes]);
        return;
      }
    }
  }

  lemma DueMeans(c: Config, n: nat)
    ensures ProbeDue(c, n) ==> c.interval > 0
  {
  }

  /** The probes made, with the one due now. */
  function WithDue(c: Config, it: Item, gen: seq<Token>, probes: seq<Probe>): seq<Probe> {
    if ProbeDue(c, |gen|) then probes + [ProbeAt(c, it, gen)] else probes
  }

  lemma StartsAlone(c: Config, it: Item, gen: seq<Token>, probes: seq<Probe>)
    requires c.cap > 0 && gen == [] && probes == []
    ensures Alone(c, it) == Continue(c, it, gen, WithDue(c, it, gen, probes)) && ProbesBefore(c.interval, 0) == 0
    ensures c.interval > 0 <==> ProbeDue(c, 0)
  {
    assert WithDue(c, it, gen, probes) == FirstProbes(c, it);
  }

  /** Without early exits, one more token and the probe due after it. */
  lemma ContinueOnce(c: Config, it: Item, gen: seq<Token>, probes: seq<Probe>)
    requires |gen| < c.cap && c.tau == 0.0
    ensures var t := NextToken(c, it, gen);
      var g := gen + [t];
      Continue(c, it, gen, probes)
      == if t == c.m.eos || |g| == c.cap then Sample(g, if t == c.m.eos then Eos else Limit, probes)
         else Continue(c, it, g, WithDue(c, it, g, probes))
  {
  }

  /** A probe that is due has room in its buffer. */
  lemma ProbeHasRoom(c: Config, n: nat)
    requires n < c.cap && ProbeDue(c, n)
    ensures c.interval > 0 && ProbesBefore(c.interval, n) < ProbeRoom(c.interval, c.cap)
  {
    DivMonotonic(n, c.cap, c.interval);
  }

  lemma ProbesGoOn(c: Config, n: nat)
    requires n < c.cap
    ensures ProbesBefore(c.interval, n + 1) == ProbesBefore(c.interval, n) + (if ProbeDue(c, n) then 1 else 0)
    ensures ProbesBefore(c.interval, n + 1) <= ProbeRoom(c.interval, c.cap)
  {
    if c.interval > 0 {
      DivNext(c.interval, n);
      DivMonotonic(n, c.cap, c.interval);
    }
  }
}
