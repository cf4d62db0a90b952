// The continuous-batching driver of tools/bench_reasoning_batch.c: slots refilled as
// cases finish, one prefix image shared by consecutive cases, padding that keeps the
// batch size constant, and answer probes between steps.
module ReasoningBatch {
  import opened Results
  import opened ReasoningRuns
  import opened ReasoningSession
  import opened CaseAccounting
  import opened Arithmetic
  import opened ProbeWindow

  const MAX_BATCH := 8

  /** The arguments and the cases read from the wire. */
  datatype Job = Job(c: Config, items: seq<Item>, promptCap: nat, pad: bool) {
    function Window(): nat { promptCap + c.cap + 2 }

    ghost predicate Valid() {
      && c.cap > 0 && 1 <= c.size <= MAX_BATCH && items != []
      && (forall i :: 0 <= i < |items| ==>
            0 < |items[i].ids| <= promptCap && items[i].nCut < |items[i].ids|
                && (c.interval > 0 ==> items[i].cand != []))
      && IsExp(c.m)
      && (pad || SizeIndependent(c.m))
    }

    /** A probe at this position fits the window and names known candidates. */
    ghost predicate Fits(it: Item, p: Probe) {
      |it.ids| + p.pos + |it.probe| <= Window() && CandidatesKnown(c.m, it)
    }

    ghost predicate ProbesFit(it: Item, ps: seq<Probe>) {
      forall i :: 0 <= i < |ps| ==> Fits(it, ps[i])
    }

    ghost predicate CaseFits(it: Item)
      requires c.cap > 0
    {
      ProbesFit(it, Alone(c, it).probes)
    }

    /** The same, decided by the arguments and the case alone. */
    ghost predicate ShapeFits(it: Item)
      requires c.cap > 0
    {
      ProbeWindow.ShapeFits(c, it, Window())
    }

    /** A slot and the history of its session, between two steps. */
    ghost predicate SlotOk(s: Slot, h: History, next: nat)
      requires Valid()
    {
      if s.active then
        && s.live && s.item < next <= |items| && |s.gen| < c.cap && |s.bySize| == MAX_BATCH + 1
        && h == items[s.item].ids + s.gen
        && Continue(c, items[s.item], s.gen, s.probes) == Alone(c, items[s.item])
        && Sum(s.bySize) == |s.gen|
        && ProbesFit(items[s.item], s.probes)
        && |s.probes| == (if c.interval > 0 then 1 + |s.gen| / c.interval else 0)
      else
        s.live ==> pad && s.item < |items| && |h| + 2 <= Window()
    }

    ghost predicate EmissionOk(e: Emission)
      requires Valid()
    {
      && e.item < |items|
      && e.sample == Alone(c, items[e.item])
      && Sum(e.bySize) == |e.sample.gen|
      && CaseFits(items[e.item])
    }
  }

  lemma AfterProbe(c: Config, it: Item, gen: seq<Token>, probes: seq<Probe>, t: Token)
    requires t != c.m.eos && |gen| + 1 != c.cap && ProbeDue(c, |gen| + 1)
    ensures var g := gen + [t];
      var p := ProbeAt(c, it, g);
      AfterToken(c, it, gen, probes, t) ==
      if Confident(c, p) then Finished(Sample(g, EarlyExit(Best(p.logits)), probes + [p])) else Going(g, probes + [p])
  {
  }

  /** A probe that falls due is one of the case's probes. */
  lemma DueProbeRecorded(j: Job, s: Slot, h: History, next: nat, t: Token)
    requires j.Valid() && j.SlotOk(s, h, next) && s.active
    requires t == NextToken(j.c, j.items[s.item], s.gen) && t != j.c.m.eos && |s.gen| + 1 < j.c.cap
    requires ProbeDue(j.c, |s.gen| + 1)
    requires !j.Fits(j.items[s.item], ProbeAt(j.c, j.items[s.item], s.gen + [t]))
    ensures !j.CaseFits(j.items[s.item])
  {
    var it := j.items[s.item];
    var p := ProbeAt(j.c, it, s.gen + [t]);
    var st := AfterToken(j.c, it, s.gen, s.probes, t);
    if st.Going? {
      ProbesExtend(j.c, it, st.gen, st.probes);
    }
    assert Alone(j.c, it).probes[|s.probes|] == p;
  }

  /** A running slot after a token, its probes included. */
  lemma GrownSlotOk(j: Job, s: Slot, h: History, next: nat, t: Token, n: nat)
    requires j.Valid() && j.SlotOk(s, h, next) && s.active && n <= MAX_BATCH
    requires t == NextToken(j.c, j.items[s.item], s.gen) && t != j.c.m.eos && |s.gen| + 1 < j.c.cap
    requires ProbeDue(j.c, |s.gen| + 1) ==>
               var p := ProbeAt(j.c, j.items[s.item], s.gen + [t]); j.Fits(j.items[s.item], p) && !Confident(j.c, p)
    ensures var g := s.gen + [t];
      var ps := if ProbeDue(j.c, |g|) then s.probes + [ProbeAt(j.c, j.items[s.item], g)] else s.probes;
      j.SlotOk(s.(gen := g, bySize := s.bySize[n := s.bySize[n] + 1], probes := ps), h + [t], next)
  {
    SumUpdate(s.bySize, n, s.bySize[n] + 1);
    assert h + [t] == j.items[s.item].ids + (s.gen + [t]);
    if j.c.interval > 0 {
      DivNext(j.c.interval, |s.gen|);
    }
  }

  /** A case that goes on after a token, with the probes it then has. */
  lemma GoesOnOk(j: Job, s: Slot, h: History, next: nat, t: Token, n: nat, probes: seq<Probe>)
    requires j.Valid() && j.SlotOk(s, h, next) && s.active && n <= MAX_BATCH
    requires t == NextToken(j.c, j.items[s.item], s.gen)
    requires AfterToken(j.c, j.items[s.item], s.gen, s.probes, t) == Going(s.gen + [t], probes)
    requires j.ProbesFit(j.items[s.item], probes)
    ensures |s.gen| + 1 < j.c.cap
    ensures j.SlotOk(s.(gen := s.gen + [t], bySize := s.bySize[n := s.bySize[n] + 1], probes := probes), h + [t], next)
  {
    hide Continue, Alone, Confident, ProbeAt, IsExp;
    if ProbeDue(j.c, |s.gen| + 1) {
      assert probes[|s.probes|] == ProbeAt(j.c, j.items[s.item], s.gen + [t]);
    }
    GrownSlotOk(j, s, h, next, t, n);
  }

  lemma ActiveIsLive(j: Job, s: Slot, h: History, next: nat)
    requires j.Valid() && j.SlotOk(s, h, next)
    ensures s.active ==> s.live
  {
  }

  /** A session between two steps has room for a token. */
  lemma RoomLeft(j: Job, s: Slot, h: History, next: nat)
    requires j.Valid() && j.SlotOk(s, h, next) && (s.active || s.live)
    ensures |h| < j.Window()
  {
  }

  /** The token of a step of n is the case's next one: n is the configured size, or does not matter. */
  lemma StepIsNext(j: Job, s: Slot, h: History, next: nat, n: nat)
    requires j.Valid() && j.SlotOk(s, h, next) && (j.pad ==> n == j.c.size)
    ensures s.active ==> s.item < |j.items| && j.c.m.next(n, h) == NextToken(j.c, j.items[s.item], s.gen)
  {
  }

  lemma WorkIsNatural(j: Job, slots: seq<Slot>, next: nat)
    requires next <= |j.items|
    ensures Work(j, slots, next) >= 0
  {
    hide BudgetOf;
    MulMonotonic(j.c.cap, 0, |j.items| - next);
  }

  /** What the last token of a case emits. */
  lemma LastTokenOk(j: Job, s: Slot, h: History, next: nat, t: Token, n: nat, sample: Sample)
    requires j.Valid() && j.SlotOk(s, h, next) && s.active && n <= MAX_BATCH
    requires t == NextToken(j.c, j.items[s.item], s.gen)
    requires AfterToken(j.c, j.items[s.item], s.gen, s.probes, t) == Finished(sample)
    requires j.ProbesFit(j.items[s.item], sample.probes)
    ensures j.EmissionOk(Emission(s.item, sample, s.bySize[n := s.bySize[n] + 1]))
    ensures |sample.gen| == |s.gen| + 1
    ensures j.SlotOk(s.(active := false, live := j.pad), h + [t], next)
  {
    SumUpdate(s.bySize, n, s.bySize[n] + 1);
  }

  ghost function NewSlot(j: Job, item: nat): Slot
    requires item < |j.items|
  {
    Slot(true, true, item, [], seq(MAX_BATCH + 1, _ => 0), FirstProbes(j.c, j.items[item]))
  }

  lemma NewSlotOk(j: Job, item: nat)
    requires j.Valid() && item < |j.items|
    requires j.c.interval == 0 || j.Fits(j.items[item], ProbeAt(j.c, j.items[item], []))
    ensures j.SlotOk(NewSlot(j, item), j.items[item].ids, item + 1)
  {
    SumZeros(MAX_BATCH + 1);
    assert j.items[item].ids + [] == j.items[item].ids;
  }

  lemma TakenKeepsSlot(j: Job, s: Slot, h: History, next: nat)
    requires j.Valid() && j.SlotOk(s, h, next) && next < |j.items|
    ensures j.SlotOk(s, h, next + 1)
  {
  }

  /** The first probe is one of the case's probes. */
  lemma FirstProbeRecorded(j: Job, it: Item)
    requires j.Valid() && j.c.interval > 0 && !j.Fits(it, ProbeAt(j.c, it, []))
    ensures !j.CaseFits(it)
  {
    ProbesExtend(j.c, it, [], FirstProbes(j.c, it));
    assert Alone(j.c, it).probes[0] == ProbeAt(j.c, it, []);
  }

  // ---- the books, on values ---------------------------------------------------------

  /** Where the cases are, what was emitted for them, and how many tokens that makes, in all and
      by the size of the step. */
  ghost predicate Counts(j: Job, slots: seq<Slot>, next: nat, es: seq<Emission>, tokens: int, made: seq<int>)
    requires j.Valid()
  {
    && Accounted(slots, next, es)
    && (forall i :: 0 <= i < |es| ==> j.EmissionOk(es[i]))
    && tokens == EmittedTokens(es) + PendingTokens(slots)
    && |made| == MAX_BATCH + 1 && BySizes(slots, es, made)
  }

  /** The token budget of the waiting and the active cases. */
  ghost function Work(j: Job, slots: seq<Slot>, next: nat): int {
    (|j.items| - next) * j.c.cap + BudgetOf(j.c.cap, slots)
  }

  /** The tokens booked, less some that a step of n is ahead of the books. */
  function Less(made: seq<int>, n: nat, ahead: int): seq<int> {
    if n < |made| then made[n := made[n] - ahead] else made
  }

  lemma LessBack(made: seq<int>, n: nat, ahead: int)
    ensures Less(Less(made, n, -ahead), n, ahead) == made
  {
  }

  lemma LessOne(made: seq<int>, n: nat, ahead: int)
    ensures Less(Less(made, n, ahead), n, -1) == Less(made, n, ahead - 1)
  {
  }

  lemma LessNone(made: seq<int>, n: nat)
    ensures Less(made, n, 0) == made
  {
  }

  lemma CountsTake(j: Job, slots: seq<Slot>, next: nat, es: seq<Emission>, tokens: int, made: seq<int>, b: nat)
    requires j.Valid() && Counts(j, slots, next, es, tokens, made)
    requires b < |slots| && !slots[b].active && next < |j.items|
    ensures var after := slots[b := NewSlot(j, next)];
      Counts(j, after, next + 1, es, tokens, made) && Work(j, after, next + 1) == Work(j, slots, next)
  {
    hide Accounted, PendingTokens, BudgetOf, BySizes;
    SizesStay(slots, es, made, b, NewSlot(j, next));
    TakeCase(slots, next, es, b, NewSlot(j, next));
    PendingUpdate(slots, b, NewSlot(j, next));
    BudgetUpdate(j.c.cap, slots, b, NewSlot(j, next));
    assert (|j.items| - next) * j.c.cap == (|j.items| - next - 1) * j.c.cap + j.c.cap;
  }

  /** A token for a case that goes on. */
  lemma CountsGrow(j: Job, slots: seq<Slot>, next: nat, es: seq<Emission>, tokens: int, made: seq<int>, b: nat,
                   s: Slot, n: nat)
    requires j.Valid() && Counts(j, slots, next, es, tokens, made)
    requires b < |slots| && n <= MAX_BATCH < |slots[b].bySize|
    requires s.bySize == slots[b].bySize[n := slots[b].bySize[n] + 1]
    requires slots[b].active && s.active && s.item == slots[b].item
    requires |s.gen| == |slots[b].gen| + 1 <= j.c.cap
    ensures var after := slots[b := s];
      Counts(j, after, next, es, tokens + 1, Less(made, n, -1)) && Work(j, after, next) < Work(j, slots, next)
  {
    hide Accounted, PendingTokens, BudgetOf, BySizes;
    SizesGrow(slots, es, made, b, s, n);
    SameCase(slots, next, es, b, s);
    PendingUpdate(slots, b, s);
    BudgetUpdate(j.c.cap, slots, b, s);
  }

  /** The last token of a case. */
  lemma CountsEmit(j: Job, slots: seq<Slot>, next: nat, es: seq<Emission>, tokens: int, made: seq<int>, b: nat,
                   s: Slot, e: Emission, n: nat)
    requires j.Valid() && Counts(j, slots, next, es, tokens, made)
    requires b < |slots| && n <= MAX_BATCH < |slots[b].bySize|
    requires e.bySize == slots[b].bySize[n := slots[b].bySize[n] + 1]
    requires slots[b].active && !s.active && |slots[b].gen| < j.c.cap
    requires e.item == slots[b].item && j.EmissionOk(e) && |e.sample.gen| == |slots[b].gen| + 1
    ensures var after := slots[b := s];
      Counts(j, after, next, es + [e], tokens + 1, Less(made, n, -1)) && Work(j, after, next) < Work(j, slots, next)
  {
    hide Accounted, PendingTokens, BudgetOf, BySizes;
    SizesEmit(slots, es, made, b, s, e, n);
    EmitCase(slots, next, es, b, s, e);
    PendingUpdate(slots, b, s);
    BudgetUpdate(j.c.cap, slots, b, s);
    EmittedAppend(es, e);
  }

  /** Padding does not touch the books. */
  lemma CountsPad(j: Job, slots: seq<Slot>, next: nat, es: seq<Emission>, tokens: int, made: seq<int>, b: nat, s: Slot)
    requires j.Valid() && Counts(j, slots, next, es, tokens, made)
    requires b < |slots| && !slots[b].active && !s.active
    ensures var after := slots[b := s];
      Counts(j, after, next, es, tokens, made) && Work(j, after, next) == Work(j, slots, next)
  {
    hide Accounted, PendingTokens, BudgetOf, BySizes;
    SizesStay(slots, es, made, b, s);
    SameCase(slots, next, es, b, s);
    PendingUpdate(slots, b, s);
    BudgetUpdate(j.c.cap, slots, b, s);
  }

  lemma AllDone(j: Job, slots: seq<Slot>, next: nat, es: seq<Emission>, tokens: int, made: seq<int>)
    requires j.Valid() && Counts(j, slots, next, es, tokens, made)
    requires forall b :: 0 <= b < |slots| ==> !slots[b].active
    ensures |es| == next && (forall k: nat :: k < next <==> k in EmittedItems(es))
    ensures (forall i :: 0 <= i < |es| ==> j.EmissionOk(es[i])) && tokens == EmittedTokens(es)
    ensures |made| == MAX_BATCH + 1 && forall n :: 0 <= n <= MAX_BATCH ==> made[n] == EmittedAt(es, n)
    ensures forall k :: 0 <= k < next && k < |j.items| ==> j.CaseFits(j.items[k])
  {
    hide Accounted, EmittedItems, PendingTokens, Job.EmissionOk, PendingAt, EmittedAt;
    forall n: nat
      ensures PendingAt(slots, n) == 0
    {
      NothingHeld(slots, n);
    }
    assert forall s <- slots :: !s.active;
    AllEmitted(slots, next, es);
    NothingPending(slots);
    forall k | 0 <= k < next && k < |j.items|
      ensures j.CaseFits(j.items[k])
    {
      EmittedFits(j, es, k);
    }
  }

  lemma EmittedFits(j: Job, es: seq<Emission>, k: nat)
    requires j.Valid() && k in EmittedItems(es) && k < |j.items|
    requires forall i :: 0 <= i < |es| ==> j.EmissionOk(es[i])
    ensures j.CaseFits(j.items[k])
  {
    var i :| 0 <= i < |es| && es[i].item == k;
    assert j.EmissionOk(es[i]);
  }

  ghost predicate InRange(slots: seq<Slot>, idx: seq<nat>) {
    forall d <- idx :: d < |slots|
  }

  /** The members of a step that hold a case. */
  ghost function Real(slots: seq<Slot>, idx: seq<nat>): nat
    requires InRange(slots, idx)
  {
    if idx == [] then 0
    else
      assert idx[0] in idx && forall b <- idx[1..] :: b in idx;
      (if slots[idx[0]].active then 1 else 0) + Real(slots, idx[1..])
  }

  lemma {:induction false} RealAppend(slots: seq<Slot>, idx: seq<nat>, b: nat)
    requires InRange(slots, idx) && b < |slots|
    ensures InRange(slots, idx + [b])
    ensures Real(slots, idx + [b]) == Real(slots, idx) + if slots[b].active then 1 else 0
    decreases |idx|
  {
    if idx == [] {
      assert idx + [b] == [b] && [b][1..] == [];
    } else {
      assert forall d <- idx[1..] :: d in idx;
      assert (idx + [b])[1..] == idx[1..] + [b];
      RealAppend(slots, idx[1..], b);
    }
  }

  lemma {:induction false} RealKept(slots: seq<Slot>, idx: seq<nat>, b: nat, s: Slot)
    requires InRange(slots, idx) && b < |slots| && b !in idx
    ensures InRange(slots[b := s], idx) && Real(slots[b := s], idx) == Real(slots, idx)
    decreases |idx|
  {
    if idx == [] {
    } else {
      assert idx[0] in idx && forall d <- idx[1..] :: d in idx;
      RealKept(slots, idx[1..], b, s);
    }
  }

  lemma RealFirst(slots: seq<Slot>, idx: seq<nat>, k: nat)
    requires k < |idx| && InRange(slots, idx)
    requires forall i, j :: 0 <= i < j < |idx| ==> idx[i] != idx[j]
    ensures InRange(slots, idx[k..]) && InRange(slots, idx[k + 1..]) && idx[k] < |slots| && idx[k] !in idx[k + 1..]
    ensures Real(slots, idx[k..]) == Real(slots, idx[k + 1..]) + if slots[idx[k]].active then 1 else 0
  {
    assert idx[k..][1..] == idx[k + 1..];
    assert forall d <- idx[k..] :: d in idx;
    assert idx[k] in idx;
    assert InRange(slots, idx[k + 1..]) by {
      var rest := idx[k + 1..];
      assert forall d <- rest :: d in idx;
    }
  }

  lemma RealNone(slots: seq<Slot>)
    ensures Real(slots, []) == 0
  {
  }

  /** The per-size step counts. */
  ghost predicate StepsOk(j: Job, bySize: seq<nat>, steps: nat) {
    |bySize| == MAX_BATCH + 1 && j.c.size <= MAX_BATCH && Sum(bySize) == steps && (j.pad ==> bySize[j.c.size] == steps)
  }

  /** Without padding a step of n makes n tokens; with it all tokens are made at the full size. */
  ghost predicate MadeOk(j: Job, bySize: seq<nat>, made: seq<int>, tokens: int) {
    && |made| == |bySize| == MAX_BATCH + 1
    && forall k :: 0 <= k <= MAX_BATCH ==>
      made[k] == if !j.pad then k * bySize[k] else if k == j.c.size then tokens else 0
  }

  lemma TokensMade(j: Job, bySize: seq<nat>, made: seq<int>, tokens: int, n: nat, cases: int)
    requires MadeOk(j, bySize, made, tokens) && n <= MAX_BATCH && if j.pad then n == j.c.size else cases == n
    ensures MadeOk(j, bySize[n := bySize[n] + 1], Less(made, n, -cases), tokens + cases)
  {
    if !j.pad {
      assert n * (bySize[n] + 1) == n * bySize[n] + n;
    }
  }

  lemma {:induction false} AllReal(slots: seq<Slot>, idx: seq<nat>)
    requires InRange(slots, idx) && forall b <- idx :: slots[b].active
    ensures Real(slots, idx) == |idx|
    decreases |idx|
  {
    if idx == [] {
    } else {
      assert idx[0] in idx && forall b <- idx[1..] :: b in idx;
      AllReal(slots, idx[1..]);
    }
  }

  lemma StepTaken(j: Job, bySize: seq<nat>, steps: nat, n: nat)
    requires StepsOk(j, bySize, steps) && n <= MAX_BATCH && (j.pad ==> n == j.c.size)
    ensures StepsOk(j, bySize[n := bySize[n] + 1], steps + 1)
  {
    SumUpdate(bySize, n, bySize[n] + 1);
  }

  lemma BooksStart(j: Job, slots: seq<Slot>)
    requires j.Valid() && forall s <- slots :: !s.active
    ensures var zeros := seq(MAX_BATCH + 1, _ => 0);
      Counts(j, slots, 0, [], 0, zeros) && StepsOk(j, zeros, 0) && MadeOk(j, zeros, zeros, 0)
  {
    NothingMade(slots, seq(MAX_BATCH + 1, _ => 0));
    SumZeros(MAX_BATCH + 1);
    NothingPending(slots);
  }

  class Driver {
    const job: Job
    const sess: seq<Session>
    const prep: Session
    const slots: array<Slot>
    const stepsBySize: array<nat>
    var next: nat
    var steps: nat
    var tokens: nat
    /** The tokens made by the steps of each size. */
    ghost var made: seq<int>
    var cached: Option<nat>
    var image: History
    var emitted: seq<Emission>

    // ---- state --------------------------------------------------------------------

    /** What never changes: one session per slot, all distinct, each with the window. */
    ghost predicate Fixed() {
      && job.Valid()
      && |sess| == slots.Length == job.c.size && stepsBySize.Length == MAX_BATCH + 1
      && (forall b, d :: 0 <= b < d < |sess| ==> sess[b] != sess[d])
      && prep !in sess && prep.window == job.Window()
      && (forall b :: 0 <= b < |sess| ==> sess[b].window == job.Window())
    }

    ghost predicate SlotAt(b: nat)
      requires Fixed() && b < slots.Length
      reads this, slots, sess[b]
    {
      job.SlotOk(slots[b], sess[b].hist, next)
    }

    ghost predicate SlotsOk()
      requires Fixed()
      reads this, slots, sess
    {
      next <= |job.items| && forall b :: 0 <= b < slots.Length ==> SlotAt(b)
    }

    /** The image is always the state after the cached case's first n_cut tokens. */
    ghost predicate CacheOk()
      requires Fixed()
      reads this
    {
      cached.Some? ==>
        cached.value < |job.items| && image == job.items[cached.value].ids[..job.items[cached.value].nCut]
    }

    ghost predicate Valid()
      reads this, slots, sess, stepsBySize
    {
      && Fixed() && SlotsOk() && CacheOk()
      && Counts(job, slots[..], next, emitted, tokens, made)
      && StepsOk(job, stepsBySize[..], steps) && MadeOk(job, stepsBySize[..], made, tokens)
    }

    /** The books, when so many tokens of a step of n are in the totals and not in the slots yet. */
    ghost predicate Behind(n: nat, ahead: int)
      requires Fixed()
      reads this, slots
    {
      Counts(job, slots[..], next, emitted, tokens - ahead, Less(made, n, ahead))
    }

    ghost function WorkLeft(): int
      reads this, slots
    {
      Work(job, slots[..], next)
    }

    constructor (job: Job, sess: seq<Session>, prep: Session)
      requires job.Valid() && |sess| == job.c.size
      requires forall b, d :: 0 <= b < d < |sess| ==> sess[b] != sess[d]
      requires prep !in sess && prep.window == job.Window()
      requires forall b :: 0 <= b < |sess| ==> sess[b].window == job.Window()
      ensures Valid() && fresh(slots) && fresh(stepsBySize)
      ensures this.job == job && this.sess == sess && this.prep == prep
      ensures emitted == [] && next == 0
    {
      this.job, this.sess, this.prep := job, sess, prep;
      slots := new Slot[|sess|](_ => FREE_SLOT);
      stepsBySize := new nat[MAX_BATCH + 1](_ => 0);
      next, steps, tokens, cached, image, emitted := 0, 0, 0, None, [], [];
      made := seq(MAX_BATCH + 1, _ => 0);
      new;
      hide Counts, StepsOk, MadeOk;
      assert stepsBySize[..] == seq(MAX_BATCH + 1, _ => 0);
      BooksStart(job, slots[..]);
    }

    // ---- filling --------------------------------------------------------------------

    /** The prefix image for a case: kept when the cached case starts with the same tokens. */
    method PreparePrefix()
      requires Fixed() && CacheOk() && next < |job.items| && job.items[next].nCut > 0
      modifies this`cached, this`image, prep
      ensures CacheOk() && image == job.items[next].ids[..job.items[next].nCut]
    {
      var it := job.items[next];
      if cached.None? || job.items[cached.value].nCut != it.nCut
         || job.items[cached.value].ids[..it.nCut] != it.ids[..it.nCut] {
        prep.Reset();
        var ok := prep.Prefill(it.ids[..it.nCut]);
        assert prep.hist == it.ids[..it.nCut];
        image := prep.Snapshot();
        cached := Some(next);
      }
    }

    /** The session of a slot holds exactly the next case's prompt, by way of the image or not. */
    method LoadPrompt(b: nat)
      requires Fixed() && CacheOk() && next < |job.items| && b < |sess|
      modifies this`cached, this`image, prep, sess[b]
      ensures CacheOk() && sess[b].hist == job.items[next].ids
    {
      var it := job.items[next];
      if it.nCut > 0 {
        PreparePrefix();
        var restored := sess[b].Restore(Some(image), true);
      } else {
        sess[b].Reset();
      }
      var ok := sess[b].Prefill(it.ids[it.nCut..]);
      assert it.ids[..it.nCut] + it.ids[it.nCut..] == it.ids;
    }

    /** Takes the next case into a free slot, with its first probe. */
    method FillSlot(b: nat) returns (ok: bool)
      requires Valid() && b < slots.Length && !slots[b].active && next < |job.items|
      modifies this`cached, this`image, this`next, slots, prep, sess[b]
      ensures ok ==> Valid() && next == old(next) + 1 && slots[..] == old(slots[..])[b := NewSlot(job, old(next))]
      ensures ok ==> WorkLeft() == old(WorkLeft())
      ensures !ok ==> !job.CaseFits(job.items[old(next)])
    {
      hide Counts, Work, StepsOk, MadeOk, Job.SlotOk, Job.CaseFits;
      var it := job.items[next];
      ghost var before := slots[..];
      CountsTake(job, before, next, emitted, tokens, made, b);
      LoadPrompt(b);
      var probes: seq<Probe> := [];
      ok := true;
      assert it.ids + [] == it.ids;
      if job.c.interval > 0 {
        var p;
        ok, p := ProbeOnce(job.c.m, sess[b], it, 0);
        if !ok {
          FirstProbeRecorded(job, it);
          return;
        }
        probes := [p];
      }
      NewSlotOk(job, next);
      slots[b] := Slot(true, true, next, [], seq(MAX_BATCH + 1, _ => 0), probes);
      assert slots[..] == before[b := NewSlot(job, next)];
      next := next + 1;
      forall d | 0 <= d < slots.Length
        ensures SlotAt(d)
      {
        if d != b {
          assert slots[d] == before[d] && sess[d] != sess[b] && old(SlotAt(d));
          TakenKeepsSlot(job, before[d], sess[d].hist, old(next));
        }
      }
    }

    ghost predicate SomeCaseDoesNotFit()
      requires Fixed()
    {
      exists i :: 0 <= i < |job.items| && !job.CaseFits(job.items[i])
    }

    /** Gives every free slot a case, as long as cases wait. */
    method Fill() returns (ok: bool)
      requires Valid()
      modifies this`cached, this`image, this`next, slots, prep, sess
      ensures ok ==> Valid() && WorkLeft() == old(WorkLeft())
      ensures ok ==> next == |job.items| || forall b :: 0 <= b < slots.Length ==> slots[b].active
      ensures !ok ==> SomeCaseDoesNotFit()
    {
      hide Counts, Work, StepsOk, MadeOk;
      ok := true;
      var b := 0;
      while b < slots.Length && next < |job.items|
        invariant 0 <= b <= slots.Length && Valid() && WorkLeft() == old(WorkLeft())
        invariant forall d :: 0 <= d < b ==> slots[d].active
      {
        if !slots[b].active {
          ok := FillSlot(b);
          if !ok {
            return;
          }
        }
        b := b + 1;
      }
    }

    /** Pad mode with no case waiting: spare slots decode the first case's prompt. */
    method PadSlots()
      requires Valid() && job.pad && next == |job.items|
      modifies slots, sess
      ensures Valid() && WorkLeft() == old(WorkLeft())
      ensures forall b :: 0 <= b < slots.Length ==> Padded(old(slots[b]), old(sess[b].hist), slots[b], sess[b].hist)
    {
      hide Counts, Work, StepsOk, MadeOk;
      for b := 0 to slots.Length
        invariant Valid() && WorkLeft() == old(WorkLeft())
        invariant forall d :: 0 <= d < b ==> Padded(old(slots[d]), old(sess[d].hist), slots[d], sess[d].hist)
        invariant forall d :: b <= d < slots.Length ==> slots[d] == old(slots[d]) && sess[d].hist == old(sess[d].hist)
      {
        if !slots[b].live {
          assert SlotAt(b);
          PadSlot(b);
        }
      }
    }

    /** A live slot stays as it is; a spare one is live on the first case's prompt. */
    ghost predicate Padded(before: Slot, h: History, after: Slot, h': History)
      requires Fixed()
    {
      if before.live then after == before && h' == h
      else after == before.(live := true, active := false, item := 0) && h' == job.items[0].ids
    }

    method PadSlot(b: nat)
      requires Valid() && job.pad && b < slots.Length && !slots[b].active
      modifies slots, sess[b]
      ensures Valid() && WorkLeft() == old(WorkLeft())
      ensures slots[b] == old(slots[b]).(live := true, active := false, item := 0) && sess[b].hist == job.items[0].ids
      ensures forall d :: 0 <= d < slots.Length && d != b ==> slots[d] == old(slots[d])
    {
      hide Counts, Work, StepsOk, MadeOk;
      ghost var before := slots[..];
      sess[b].Reset();
      var ok := sess[b].Prefill(job.items[0].ids);
      slots[b] := slots[b].(live := true, active := false, item := 0);
      assert slots[..] == before[b := slots[b]];
      CountsPad(job, before, next, emitted, tokens, made, b, slots[b]);
      assert job.SlotOk(slots[b], sess[b].hist, next);
      forall d | 0 <= d < slots.Length
        ensures SlotAt(d)
      {
        if d != b {
          assert slots[d] == before[d] && sess[d] != sess[b] && old(SlotAt(d));
        }
      }
    }

    ghost predicate Steps(s: Slot) { if job.pad then s.live else s.active }

    /** The slots that take part in the next step, in order, and how many hold a case. */
    ghost predicate Members(idx: seq<nat>)
      reads this, slots
    {
      && (forall k :: 0 <= k < |idx| ==> idx[k] < slots.Length && Steps(slots[idx[k]]))
      && (forall k, l :: 0 <= k < l < |idx| ==> idx[k] != idx[l])
      && (forall b :: 0 <= b < slots.Length && Steps(slots[b]) ==> b in idx)
    }

    method Collect() returns (idx: seq<nat>, nReal: nat)
      requires forall b :: 0 <= b < slots.Length && slots[b].active ==> slots[b].live
      ensures Members(idx) && |idx| <= slots.Length && InRange(slots[..], idx)
      ensures nReal == Real(slots[..], idx)
      ensures nReal == 0 <==> forall b :: 0 <= b < slots.Length ==> !slots[b].active
      ensures (forall b :: 0 <= b < slots.Length ==> Steps(slots[b])) ==> |idx| == slots.Length
    {
      hide Real;
      RealNone(slots[..]);
      idx, nReal := [], 0;
      for b := 0 to slots.Length
        invariant |idx| <= b
        invariant forall k :: 0 <= k < |idx| ==> idx[k] < b && Steps(slots[idx[k]])
        invariant forall k, l :: 0 <= k < l < |idx| ==> idx[k] != idx[l]
        invariant forall d :: 0 <= d < b && Steps(slots[d]) ==> d in idx
        invariant InRange(slots[..], idx) && nReal == Real(slots[..], idx)
        invariant nReal == 0 <==> forall d :: 0 <= d < b ==> !slots[d].active
        invariant (forall d :: 0 <= d < b ==> Steps(slots[d])) ==> |idx| == b
      {
        if slots[b].active {
          nReal := nReal + 1;
        }
        if if job.pad then slots[b].live else slots[b].active {
          RealAppend(slots[..], idx, b);
          idx := idx + [b];
        }
      }
    }

    // ---- one batched step ---------------------------------------------------------------

    /** The batched step: a full context refuses the whole call and changes nothing. */
    method DecodeBatch(idx: seq<nat>) returns (ok: bool, out: seq<Token>)
      requires Fixed() && (forall k :: 0 <= k < |idx| ==> idx[k] < |sess|)
      requires forall k, l :: 0 <= k < l < |idx| ==> idx[k] != idx[l]
      modifies sess
      ensures ok <==> forall k :: 0 <= k < |idx| ==> |old(sess[idx[k]].hist)| < job.Window()
      ensures ok ==> |out| == |idx| && forall k :: 0 <= k < |idx| ==>
        out[k] == job.c.m.next(|idx|, old(sess[idx[k]].hist)) && sess[idx[k]].hist == old(sess[idx[k]].hist) + [out[k]]
      ensures forall b :: 0 <= b < |sess| && (!ok || b !in idx) ==> sess[b].hist == old(sess[b].hist)
    {
      out := [];
      ok := true;
      for k := 0 to |idx|
        invariant ok <==> forall l :: 0 <= l < k ==> |sess[idx[l]].hist| < job.Window()
      {
        ok := ok && |sess[idx[k]].hist| < job.Window();
      }
      if !ok {
        return;
      }
      for k := 0 to |idx|
        invariant |out| == k
        invariant forall l :: 0 <= l < k ==>
          out[l] == job.c.m.next(|idx|, old(sess[idx[l]].hist))
              && sess[idx[l]].hist == old(sess[idx[l]].hist) + [out[l]]
        invariant forall b :: 0 <= b < |sess| && b !in idx[..k] ==> sess[b].hist == old(sess[b].hist)
      {
        assert idx[k] !in idx[..k];
        var stepped, t := sess[idx[k]].DecodeStep(job.c.m, |idx|);
        out := out + [t];
        assert idx[..k + 1] == idx[..k] + [idx[k]];
        forall l | 0 <= l < k
          ensures sess[idx[l]] != sess[idx[k]]
        {
        }
      }
      assert idx[..|idx|] == idx;
    }

    /** A slot whose session is one token ahead of it. */
    ghost predicate Ahead(b: nat, t: Token)
      requires Fixed() && b < slots.Length
      reads this, slots, sess[b]
    {
      && sess[b].hist != [] && sess[b].hist[|sess[b].hist| - 1] == t
      && job.SlotOk(slots[b], sess[b].hist[..|sess[b].hist| - 1], next)
      && (slots[b].active ==> t == NextToken(job.c, job.items[slots[b].item], slots[b].gen))
    }

    /** Padding stays inside its window: its prompt starts over when the window is nearly full. */
    method KeepPadding(b: nat, t: Token)
      requires Fixed() && next <= |job.items| && b < slots.Length && Ahead(b, t) && !slots[b].active && Steps(slots[b])
      modifies sess[b]
      ensures SlotAt(b)
      ensures sess[b].hist == if |old(sess[b].hist)| + 2 >= job.Window() then job.items[slots[b].item].ids
              else old(sess[b].hist)
    {
      if |sess[b].hist| + 2 >= job.Window() {
        sess[b].Reset();
        var ok := sess[b].Prefill(job.items[slots[b].item].ids);
      }
    }

    method Emit(b: nat, n: nat, t: Token, sample: Sample, ghost ahead: int)
      requires Fixed() && next <= |job.items| && b < slots.Length && Ahead(b, t) && slots[b].active && n <= MAX_BATCH
      requires AfterToken(job.c, job.items[slots[b].item], slots[b].gen, slots[b].probes, t) == Finished(sample)
      requires job.ProbesFit(job.items[slots[b].item], sample.probes)
      requires Behind(n, ahead)
      modifies this`emitted, slots
      ensures |old(slots[b].gen)| < job.c.cap
      ensures SlotAt(b) && !slots[b].active
      ensures forall d :: 0 <= d < slots.Length && d != b ==> slots[d] == old(slots[d])
      ensures Behind(n, ahead - 1) && WorkLeft() < old(WorkLeft())
    {
      hide Counts, Work;
      ghost var before := slots[..];
      var sl := slots[b];
      var h := sess[b].hist;
      assert h[..|h| - 1] + [t] == h;
      LastTokenOk(job, sl, h[..|h| - 1], next, t, n, sample);
      var e := Emission(sl.item, sample, sl.bySize[n := sl.bySize[n] + 1]);
      slots[b] := sl.(active := false, live := job.pad);
      assert slots[..] == before[b := slots[b]];
      CountsEmit(job, before, next, emitted, tokens - ahead, Less(made, n, ahead), b, slots[b], e, n);
      LessOne(made, n, ahead);
      emitted := emitted + [e];
    }

    method Grow(b: nat, n: nat, t: Token, probes: seq<Probe>, ghost ahead: int)
      requires Fixed() && next <= |job.items| && b < slots.Length && Ahead(b, t) && slots[b].active && n <= MAX_BATCH
      requires AfterToken(job.c, job.items[slots[b].item], slots[b].gen, slots[b].probes, t) ==
               Going(slots[b].gen + [t], probes)
      requires job.ProbesFit(job.items[slots[b].item], probes)
      requires Behind(n, ahead)
      modifies slots
      ensures |old(slots[b].gen)| < job.c.cap
      ensures SlotAt(b) && slots[b].active && slots[b].gen == old(slots[b].gen) + [t] && slots[b].probes == probes
      ensures forall d :: 0 <= d < slots.Length && d != b ==> slots[d] == old(slots[d])
      ensures Behind(n, ahead - 1) && WorkLeft() < old(WorkLeft())
    {
      hide Counts, Work, AfterToken, IsExp, Job.ProbesFit, NextToken, Continue, Alone;
      ghost var before := slots[..];
      var sl := slots[b];
      var h := sess[b].hist;
      assert h[..|h| - 1] + [t] == h;
      GoesOnOk(job, sl, h[..|h| - 1], next, t, n, probes);
      slots[b] := sl.(gen := sl.gen + [t], bySize := sl.bySize[n := sl.bySize[n] + 1], probes := probes);
      assert slots[..] == before[b := slots[b]];
      CountsGrow(job, before, next, emitted, tokens - ahead, Less(made, n, ahead), b, slots[b], n);
      LessOne(made, n, ahead);
    }

    /** What the program does with one member's token after a step of n: stop, probe, or go on. */
    method SettleOne(b: nat, n: nat, t: Token, ghost ahead: int) returns (ok: bool)
      requires Fixed() && next <= |job.items| && b < slots.Length && Ahead(b, t) && slots[b].active && n <= MAX_BATCH
      requires Behind(n, ahead)
      modifies this`emitted, slots, sess[b]
      ensures ok ==> SlotAt(b)
      ensures forall d :: 0 <= d < slots.Length && d != b ==> slots[d] == old(slots[d])
      ensures ok ==> Behind(n, ahead - 1) && WorkLeft() < old(WorkLeft())
      ensures !ok ==> SomeCaseDoesNotFit()
    {
      hide Counts, Work, WorkLeft, IsExp, Continue, Alone, Confident, SomeCaseDoesNotFit;
      var sl := slots[b];
      var it := job.items[sl.item];
      var g := sl.gen + [t];
      ghost var h := sess[b].hist;
      assert h == h[..|h| - 1] + [t] == it.ids + g;
      ok := true;
      if t == job.c.m.eos || |g| == job.c.cap {
        Emit(b, n, t, Sample(g, if t == job.c.m.eos then Eos else Limit, sl.probes), ahead);
        return;
      }
      if job.c.interval == 0 || |g| % job.c.interval != 0 {
        Grow(b, n, t, sl.probes, ahead);
        return;
      }
      ok := ProbeAndSettle(b, n, t, ahead);
    }

    method ProbeAndSettle(b: nat, n: nat, t: Token, ghost ahead: int) returns (ok: bool)
      requires Fixed() && next <= |job.items| && b < slots.Length && Ahead(b, t) && slots[b].active && n <= MAX_BATCH
      requires t != job.c.m.eos && |slots[b].gen| + 1 < job.c.cap && ProbeDue(job.c, |slots[b].gen| + 1)
      requires Behind(n, ahead)
      modifies this`emitted, slots, sess[b]
      ensures |old(slots[b].gen)| < job.c.cap && |old(slots[b].probes)| < job.c.cap / job.c.interval + 2
      ensures sess[b].hist == old(sess[b].hist)
      ensures ok ==> SlotAt(b)
      ensures forall d :: 0 <= d < slots.Length && d != b ==> slots[d] == old(slots[d])
      ensures ok ==> Behind(n, ahead - 1) && WorkLeft() < old(WorkLeft())
      ensures !ok ==> SomeCaseDoesNotFit()
    {
      hide Counts, Work, Continue, Alone, Best, TopProbability, AfterToken;
      var sl := slots[b];
      var it := job.items[sl.item];
      var g := sl.gen + [t];
      ghost var h := sess[b].hist[..|sess[b].hist| - 1];
      assert sess[b].hist == h + [t] == it.ids + g;
      DivMonotonic(|sl.gen|, job.c.cap, job.c.interval);
      var p;
      ok, p := ProbeOnce(job.c.m, sess[b], it, |g|);
      if !ok {
        DueProbeRecorded(job, sl, h, next, t);
        return;
      }
      assert sess[b].hist[..|sess[b].hist| - 1] == h;
      Decide(b, n, t, p, ahead);
    }

    /** Exit early when the best candidate is likely enough, else go on. */
    method Decide(b: nat, n: nat, t: Token, p: Probe, ghost ahead: int)
      requires Fixed() && next <= |job.items| && b < slots.Length && Ahead(b, t) && slots[b].active && n <= MAX_BATCH
      requires t != job.c.m.eos && |slots[b].gen| + 1 < job.c.cap && ProbeDue(job.c, |slots[b].gen| + 1)
      requires p == ProbeAt(job.c, job.items[slots[b].item], slots[b].gen + [t])
      requires job.Fits(job.items[slots[b].item], p)
      requires Behind(n, ahead)
      modifies this`emitted, slots
      ensures SlotAt(b)
      ensures forall d :: 0 <= d < slots.Length && d != b ==> slots[d] == old(slots[d])
      ensures Behind(n, ahead - 1) && WorkLeft() < old(WorkLeft())
    {
      hide Counts, Work, Continue, Alone, Best, TopProbability, AfterToken;
      var sl := slots[b];
      AfterProbe(job.c, job.items[sl.item], sl.gen, sl.probes, t);
      var exit := false;
      if job.c.tau > 0.0 {
        var top, arg := ComputeTopProbability(job.c.m, p.logits);
        exit := top >= job.c.tau;
        if exit {
          Emit(b, n, t, Sample(sl.gen + [t], EarlyExit(arg), sl.probes + [p]), ahead);
        }
      }
      if !exit {
        Grow(b, n, t, sl.probes + [p], ahead);
      }
    }

    /** The members from k on are one token ahead, all other slots are between two steps. */
    ghost predicate Settling(idx: seq<nat>, out: seq<Token>, k: nat)
      requires Fixed() && k <= |idx| == |out|
      reads this, slots, sess
    {
      && next <= |job.items|
      && (forall l :: 0 <= l < |idx| ==> idx[l] < slots.Length)
      && (forall l, m :: 0 <= l < m < |idx| ==> idx[l] != idx[m])
      && (forall l :: 0 <= l < k ==> SlotAt(idx[l]))
      && (forall l :: k <= l < |idx| ==> Ahead(idx[l], out[l]) && Steps(slots[idx[l]]))
      && forall b :: 0 <= b < slots.Length && b !in idx ==> SlotAt(b)
    }

    lemma SettlingStarts(idx: seq<nat>, out: seq<Token>)
      requires Fixed() && next <= |job.items| && Members(idx) && |idx| == |out|
      requires forall k :: 0 <= k < |idx| ==> Ahead(idx[k], out[k])
      requires forall b :: 0 <= b < slots.Length && b !in idx ==> SlotAt(b)
      ensures Settling(idx, out, 0)
    {
      hide Ahead, SlotAt;
    }

    /** Every member of the step settles its token; the step's real tokens are in the books after. */
    method Settle(idx: seq<nat>, out: seq<Token>) returns (ok: bool)
      requires Fixed() && |idx| <= MAX_BATCH && |out| == |idx| && InRange(slots[..], idx)
      requires Settling(idx, out, 0) && forall k :: 0 <= k < |idx| ==> idx[k] < slots.Length
      requires Behind(|idx|, Real(slots[..], idx))
      modifies this`emitted, slots, sess
      ensures ok ==> SlotsOk() && Counts(job, slots[..], next, emitted, tokens, made)
      ensures ok ==> if old(Real(slots[..], idx)) > 0 then WorkLeft() < old(WorkLeft())
                     else WorkLeft() == old(WorkLeft())
      ensures !ok ==> SomeCaseDoesNotFit()
    {
      hide Counts, Work, Real, Settling, InRange, SomeCaseDoesNotFit, WorkLeft, SlotAt;
      ok := true;
      ghost var total, work := Real(slots[..], idx), WorkLeft();
      assert idx[0..] == idx;
      for k := 0 to |idx|
        invariant Settling(idx, out, k)
        invariant InRange(slots[..], idx) && InRange(slots[..], idx[k..]) && Real(slots[..], idx[k..]) <= total
        invariant Behind(|idx|, Real(slots[..], idx[k..]))
        invariant if Real(slots[..], idx[k..]) < total then WorkLeft() < work else WorkLeft() == work
      {
        ok := SettleNext(idx, out, k);
        if !ok {
          return;
        }
      }
      assert idx[|idx|..] == [];
      RealNone(slots[..]);
      LessNone(made, |idx|);
      AllSettled(idx, out);
    }

    lemma AllSettled(idx: seq<nat>, out: seq<Token>)
      requires Fixed() && |idx| == |out| && Settling(idx, out, |idx|)
      ensures SlotsOk()
    {
      hide SlotAt;
      forall b | 0 <= b < slots.Length
        ensures SlotAt(b)
      {
        if b in idx {
          var l :| 0 <= l < |idx| && idx[l] == b;
          assert SlotAt(idx[l]);
        }
      }
    }

    /** Member k settles, and the other slots stay as they are. */
    method SettleNext(idx: seq<nat>, out: seq<Token>, k: nat) returns (ok: bool)
      requires Fixed() && |idx| <= MAX_BATCH && |out| == |idx| && k < |idx|
      requires Settling(idx, out, k)
      requires InRange(slots[..], idx) && InRange(slots[..], idx[k..])
      requires Behind(|idx|, Real(slots[..], idx[k..]))
      modifies this`emitted, slots, sess[idx[k]]
      ensures ok ==> Settling(idx, out, k + 1)
      ensures InRange(slots[..], idx) && InRange(slots[..], idx[k + 1..])
      ensures Real(slots[..], idx[k + 1..]) <= old(Real(slots[..], idx[k..]))
      ensures ok ==> Behind(|idx|, Real(slots[..], idx[k + 1..]))
      ensures ok ==> if Real(slots[..], idx[k + 1..]) < old(Real(slots[..], idx[k..])) then WorkLeft() < old(WorkLeft())
                     else WorkLeft() == old(WorkLeft())
      ensures !ok ==> SomeCaseDoesNotFit()
    {
      hide Counts, Work, Real, Job.SlotOk, Job.Valid, SomeCaseDoesNotFit, NextToken, WorkLeft, InRange;
      ok := SettleMember(idx, out, k);
    }

    /** Member k of the step, padding or not. */
    method SettleMember(idx: seq<nat>, out: seq<Token>, k: nat) returns (ok: bool)
      requires Fixed() && next <= |job.items| && |idx| <= MAX_BATCH && |out| == |idx| && k < |idx|
      requires InRange(slots[..], idx) && InRange(slots[..], idx[k..])
      requires forall i, j :: 0 <= i < j < |idx| ==> idx[i] != idx[j]
      requires idx[k] < slots.Length && Ahead(idx[k], out[k]) && Steps(slots[idx[k]])
      requires Behind(|idx|, Real(slots[..], idx[k..]))
      modifies this`emitted, slots, sess[idx[k]]
      ensures ok ==> SlotAt(idx[k])
      ensures forall d :: 0 <= d < slots.Length && d != idx[k] ==> slots[d] == old(slots[d])
      ensures InRange(slots[..], idx) && InRange(slots[..], idx[k + 1..])
      ensures Real(slots[..], idx[k + 1..]) <= old(Real(slots[..], idx[k..]))
      ensures ok ==> Behind(|idx|, Real(slots[..], idx[k + 1..]))
      ensures ok ==> if Real(slots[..], idx[k + 1..]) < old(Real(slots[..], idx[k..])) then WorkLeft() < old(WorkLeft())
                     else WorkLeft() == old(WorkLeft())
      ensures !ok ==> SomeCaseDoesNotFit()
    {
      hide Counts, Work, Real;
      ghost var before := slots[..];
      RealFirst(before, idx, k);
      ok := true;
      if !slots[idx[k]].active {
        KeepPadding(idx[k], out[k]);
      } else {
        ok := SettleOne(idx[k], |idx|, out[k], Real(before, idx[k..]));
      }
      assert slots[..] == before[idx[k] := slots[idx[k]]];
      RealKept(before, idx[k + 1..], idx[k], slots[idx[k]]);
    }

    // ---- the whole run --------------------------------------------------------------------

    /** Every session of the step has room, and its member is one token ahead afterwards. */
    method StepMembers(idx: seq<nat>) returns (out: seq<Token>)
      requires Fixed() && SlotsOk() && Members(idx) && (job.pad ==> |idx| == job.c.size)
      modifies sess
      ensures |out| == |idx| && forall k :: 0 <= k < |idx| ==> Ahead(idx[k], out[k])
      ensures forall b :: 0 <= b < slots.Length && b !in idx ==> SlotAt(b)
    {
      hide Job.SlotOk;
      forall k | 0 <= k < |idx|
        ensures |sess[idx[k]].hist| < job.Window()
      {
        assert SlotAt(idx[k]);
        RoomLeft(job, slots[idx[k]], sess[idx[k]].hist, next);
      }
      var ok;
      ok, out := DecodeBatch(idx);
      forall k | 0 <= k < |idx|
        ensures Ahead(idx[k], out[k])
      {
        assert old(SlotAt(idx[k]));
        StepIsNext(job, slots[idx[k]], old(sess[idx[k]].hist), next, |idx|);
        assert sess[idx[k]].hist[..|sess[idx[k]].hist| - 1] == old(sess[idx[k]].hist);
      }
      forall b | 0 <= b < slots.Length && b !in idx
        ensures SlotAt(b)
      {
        assert old(SlotAt(b));
      }
    }

    /** One round: refill, pad, step, settle. `done` when nothing was left to step. */
    method Round() returns (ok: bool, done: bool)
      requires Valid()
      modifies this, slots, sess, prep, stepsBySize
      ensures ok ==> Valid()
      ensures ok && !done ==> WorkLeft() < old(WorkLeft())
      ensures ok && done ==> next == |job.items| && forall b :: 0 <= b < slots.Length ==> !slots[b].active
      ensures !ok ==> SomeCaseDoesNotFit()
    {
      hide Counts, Work, StepsOk, MadeOk, Real, Job.SlotOk;
      done := false;
      ok := Fill();
      if !ok {
        return;
      }
      if job.pad && next == |job.items| {
        PadSlots();
      }
      forall b | 0 <= b < slots.Length && slots[b].active
        ensures slots[b].live
      {
        assert SlotAt(b);
        ActiveIsLive(job, slots[b], sess[b].hist, next);
      }
      var idx, nReal := Collect();
      if nReal == 0 && next == |job.items| {
        done := true;
        return;
      }
      assert next < |job.items| ==> slots[0].active;
      assert job.pad ==> forall b :: 0 <= b < slots.Length ==> Steps(slots[b]);
      ok := StepAndSettle(idx, nReal);
    }

    /** Without padding every member holds a case. */
    lemma NoPadding(idx: seq<nat>)
      requires Members(idx) && InRange(slots[..], idx)
      ensures !job.pad ==> Real(slots[..], idx) == |idx|
    {
      if !job.pad {
        AllReal(slots[..], idx);
      }
    }

    /** Books a step of n with so many real members, whose tokens are not in the slots yet. */
    method Book(n: nat, nReal: nat)
      requires Fixed() && Counts(job, slots[..], next, emitted, tokens, made)
      requires StepsOk(job, stepsBySize[..], steps) && MadeOk(job, stepsBySize[..], made, tokens)
      requires n <= MAX_BATCH && if job.pad then n == job.c.size else nReal == n
      modifies this`steps, this`tokens, this`made, stepsBySize
      ensures Behind(n, nReal)
      ensures StepsOk(job, stepsBySize[..], steps) && MadeOk(job, stepsBySize[..], made, tokens)
    {
      hide Counts, StepsOk, MadeOk, Less, Job.Valid;
      ghost var sizes, before, cases: int := stepsBySize[..], made, nReal;
      StepTaken(job, sizes, steps, n);
      TokensMade(job, sizes, made, tokens, n, cases);
      steps, tokens := steps + 1, tokens + nReal;
      stepsBySize[n] := stepsBySize[n] + 1;
      made := Less(made, n, -cases);
      LessBack(before, n, cases);
      assert stepsBySize[..] == sizes[n := sizes[n] + 1];
    }

    method StepAndSettle(idx: seq<nat>, nReal: nat) returns (ok: bool)
      requires Valid() && Members(idx) && |idx| <= slots.Length && InRange(slots[..], idx)
      requires nReal == Real(slots[..], idx) > 0 && (job.pad ==> |idx| == job.c.size)
      modifies this, slots, sess, stepsBySize
      ensures ok ==> Valid() && WorkLeft() < old(WorkLeft())
      ensures next == old(next)
      ensures !ok ==> SomeCaseDoesNotFit()
    {
      hide Counts, Work, StepsOk, MadeOk, Less, Real, Job.SlotOk, Settling, InRange;
      NoPadding(idx);
      var out := StepMembers(idx);
      Book(|idx|, nReal);
      SettlingStarts(idx, out);
      ok := Settle(idx, out);
    }

    /** Runs until every case has its sample. It stops early only when some case, run alone, has
        a probe that does not fit its window or names an unknown candidate. */
    method Run() returns (ok: bool)
      requires Valid()
      modifies this, slots, sess, prep, stepsBySize
      ensures ok <==> !SomeCaseDoesNotFit()
      ensures ok ==>
        && |emitted| == |job.items| && (forall k: nat :: k < |job.items| <==> k in EmittedItems(emitted))
        && (forall i :: 0 <= i < |emitted| ==> job.EmissionOk(emitted[i]))
        && tokens == EmittedTokens(emitted)
        && StepsOk(job, stepsBySize[..], steps)
        && forall k :: 0 <= k <= MAX_BATCH ==>
          EmittedAt(emitted, k) == if !job.pad then k * stepsBySize[k] else if k == job.c.size then tokens else 0
    {
      hide Counts, Work, StepsOk, Job.SlotOk, EmittedAt;
      var done := false;
      ok := true;
      while !done
        invariant ok && Valid()
        invariant done ==> next == |job.items| && forall b :: 0 <= b < slots.Length ==> !slots[b].active
        decreases !done, WorkLeft()
      {
        WorkIsNatural(job, slots[..], next);
        ok, done := Round();
        if !ok {
          return;
        }
      }
      AllDone(job, slots[..], next, emitted, tokens, made);
    }
  }

  // ---- which cases fit ----------------------------------------------------------------------

  /** The same vocabulary and end of sequence; what the model answers may be anything. */
  ghost predicate Like(m: Model, n: Model) { IsExp(m) && m.vocab == n.vocab && m.eos == n.eos }

  ghost function With(j: Job, m: Model): Job { j.(c := j.c.(m := m)) }

  lemma ShapeFitsAll(j: Job, it: Item)
    requires j.c.cap > 0 && IsExp(j.c.m) && j.ShapeFits(it)
    ensures j.CaseFits(it)
  {
    hide ProbeWindow.ShapeFits, Alone, IsExp;
    var ps := Alone(j.c, it).probes;
    forall i | 0 <= i < |ps|
      ensures j.Fits(it, ps[i])
    {
      ShapeSuffices(j.c, it, j.Window(), i);
    }
  }

  lemma ShapeFailsOne(j: Job, it: Item)
    requires j.c.cap > 0 && IsExp(j.c.m) && !j.ShapeFits(it)
    ensures !With(j, Stubborn(j.c.m)).CaseFits(it)
  {
    hide ProbeWindow.ShapeFits, Alone, IsExp;
    var i := ShapeNeeded(j.c, it, j.Window());
    assert !With(j, Stubborn(j.c.m)).Fits(it, Alone(With(j, Stubborn(j.c.m)).c, it).probes[i]);
  }

  /** The arguments and the case decide it: its probes fit with every model of the vocabulary
      exactly when its last possible probe does. */
  lemma ShapeDecides(j: Job, it: Item)
    requires j.c.cap > 0 && IsExp(j.c.m)
    ensures j.ShapeFits(it) <==> forall m :: Like(m, j.c.m) ==> With(j, m).CaseFits(it)
  {
    hide Job.CaseFits, IsExp;
    if j.ShapeFits(it) {
      forall m | Like(m, j.c.m)
        ensures With(j, m).CaseFits(it)
      {
        SameShape(j, it, m);
        ShapeFitsAll(With(j, m), it);
      }
    } else {
      ShapeFailsOne(j, it);
      StubbornIsExp(j.c.m);
      assert Like(Stubborn(j.c.m), j.c.m);
    }
  }

  lemma SameShape(j: Job, it: Item, m: Model)
    requires j.c.cap > 0 && m.vocab == j.c.m.vocab
    ensures With(j, m).ShapeFits(it) <==> j.ShapeFits(it)
  {
  }

  lemma StubbornIsExp(m: Model)
    requires IsExp(m)
    ensures IsExp(Stubborn(m)) && SizeIndependent(Stubborn(m))
  {
  }

  const OVERRUN_ITEM := Item([0], 0, [0], [0, 0, 0, 0, 0])

  /** A model that always answers 1. */
  const STEADY := Model((n: nat, h: History) => 1, (h: History, t: Token) => 0.0, 2, 0, (x: real) => 1.0)

  const OVERRUN := Job(Config(STEADY, 1, 4, 1, 0.0), [OVERRUN_ITEM], 1, false)

  /** A job the driver accepts and then gives up in the middle: the first probe of its only
      case fits the window, but not the one after three tokens. */
  lemma ProbeOverruns()
    ensures var j := With(OVERRUN, Stubborn(STEADY));
      && j.Valid() && j.items == [OVERRUN_ITEM]
      && j.Fits(OVERRUN_ITEM, ProbeAt(j.c, OVERRUN_ITEM, []))
      && !j.CaseFits(OVERRUN_ITEM)
  {
    hide Alone, Job.CaseFits;
    assert IsExp(STEADY);
    StubbornIsExp(STEADY);
    assert LastProbe(OVERRUN.c, OVERRUN_ITEM) == 3;
    ShapeFailsOne(OVERRUN, OVERRUN_ITEM);
  }

  lemma FitsIs(j: Job, it: Item, p: Probe)
    ensures j.Fits(it, p) <==> |it.ids| + p.pos + |it.probe| <= j.promptCap + j.c.cap + 2
                               && forall t <- it.cand :: t < j.c.m.vocab
  {
    if forall t <- it.cand :: t < j.c.m.vocab {
      assert forall i :: 0 <= i < |it.cand| ==> it.cand[i] in it.cand;
    }
  }

  /** A case fits when each of its probes does, by their lengths: the window is two tokens longer
      than prompt and cap. */
  lemma CaseFitsIs(j: Job, it: Item)
    requires j.c.cap > 0
    ensures j.CaseFits(it) <==> forall p <- Alone(j.c, it).probes ::
              && |it.ids| + p.pos + |it.probe| <= j.promptCap + j.c.cap + 2
              && forall t <- it.cand :: t < j.c.m.vocab
  {
    hide Alone, Job.Fits;
    var ps := Alone(j.c, it).probes;
    forall p <- ps
      ensures j.Fits(it, p) <==> |it.ids| + p.pos + |it.probe| <= j.promptCap + j.c.cap + 2
                                 && forall t <- it.cand :: t < j.c.m.vocab
    {
      FitsIs(j, it, p);
    }
    if forall p <- ps :: j.Fits(it, p) {
      assert j.CaseFits(it) by {
        assert forall i :: 0 <= i < |ps| ==> ps[i] in ps;
      }
    } else {
      var i :| 0 <= i < |ps| && !j.Fits(it, ps[i]);
    }
  }

  /** All cases together: each case has exactly one sample, the one it has alone, for every batch
      size, with or without padding, prefix image and probes; unless some probe cannot be made. */
  method RunJob(job: Job) returns (ok: bool, emitted: seq<Emission>, tokens: nat, steps: nat, bySize: seq<nat>)
    requires job.Valid()
    ensures ok <==> forall i :: 0 <= i < |job.items| ==> forall p <- Alone(job.c, job.items[i]).probes ::
      && |job.items[i].ids| + p.pos + |job.items[i].probe| <= job.promptCap + job.c.cap + 2
      && forall t <- job.items[i].cand :: t < job.c.m.vocab
    ensures (forall i :: 0 <= i < |job.items| ==> job.ShapeFits(job.items[i])) ==> ok
    ensures ok ==> |emitted| == |job.items| && forall k: nat :: k < |job.items| <==> k in EmittedItems(emitted)
    ensures ok ==> forall i :: 0 <= i < |emitted| ==>
      && emitted[i].item < |job.items|
      && emitted[i].sample == Alone(job.c, job.items[emitted[i].item])
      && Sum(emitted[i].bySize) == |emitted[i].sample.gen|
    ensures ok ==> tokens == EmittedTokens(emitted)
    ensures ok ==> Sum(bySize) == steps && |bySize| == MAX_BATCH + 1 && (job.pad ==> bySize[job.c.size] == steps)
    ensures ok ==> forall k :: 0 <= k <= MAX_BATCH ==>
      EmittedAt(emitted, k) == if !job.pad then k * bySize[k] else if k == job.c.size then tokens else 0
  {
    hide Continue, Alone, Counts, EmittedItems, EmittedTokens, EmittedAt;
    var sess: seq<Session> := [];
    while |sess| < job.c.size
      invariant |sess| <= job.c.size
      invariant forall b, d :: 0 <= b < d < |sess| ==> sess[b] != sess[d]
      invariant forall b :: 0 <= b < |sess| ==> fresh(sess[b]) && sess[b].window == job.Window()
    {
      var s := new Session(job.Window());
      sess := sess + [s];
    }
    var prep := new Session(job.Window());
    var d := new Driver(job, sess, prep);
    ok := d.Run();
    forall i | 0 <= i < |job.items| && job.ShapeFits(job.items[i])
      ensures job.CaseFits(job.items[i])
    {
      ShapeFitsAll(job, job.items[i]);
    }
    forall i | 0 <= i < |job.items|
      ensures job.CaseFits(job.items[i]) <==> forall p <- Alone(job.c, job.items[i]).probes ::
                && |job.items[i].ids| + p.pos + |job.items[i].probe| <= job.promptCap + job.c.cap + 2
                && forall t <- job.items[i].cand :: t < job.c.m.vocab
    {
      CaseFitsIs(job, job.items[i]);
    }
    emitted, tokens, steps, bySize := d.emitted, d.tokens, d.steps, d.stepsBySize[..];
  }

  /** Against the single-session driver: the same tokens and probes, cut short by an early exit only. */
  lemma BatchedVersusSingle(j: Job, it: Item)
    requires j.Valid() && SizeIndependent(j.c.m)
    ensures var (s, single) := (Alone(j.c, it), Alone(j.c.(size := 1, tau := 0.0), it));
      s.gen <= single.gen && s.probes <= single.probes && (!s.stop.EarlyExit? ==> s == single)
  {
    EarlyExitTruncates(j.c, it, [], FirstProbes(j.c, it));
    SizeDoesNotMatter(j.c.(tau := 0.0), it, [], FirstProbes(j.c, it), 1);
  }
}
