// Where the cases of tools/bench_reasoning_batch.c are while it runs: each is waiting,
// in one slot, or emitted; and the token totals over slots and emitted samples.
module CaseAccounting {
  import opened ReasoningRuns

  /** A slot holds a case (`active`) or steps as padding (`live` only). `bySize[n]` counts the
      tokens that steps of n sessions produced for the case. */
  datatype Slot = Slot(active: bool, live: bool, item: nat, gen: seq<Token>, bySize: seq<nat>, probes: seq<Probe>)

  datatype Emission = Emission(item: nat, sample: Sample, bySize: seq<nat>)

  const FREE_SLOT := Slot(false, false, 0, [], [], [])

  function Sum(xs: seq<nat>): nat {
    if xs == [] then 0 else xs[0] + Sum(xs[1..])
  }

  lemma {:induction false} SumUpdate(xs: seq<nat>, i: nat, v: nat)
    requires i < |xs|
    ensures Sum(xs[i := v]) == Sum(xs) - xs[i] + v
    decreases |xs|
  {
    if i == 0 {
      assert xs[0 := v][1..] == xs[1..];
    } else {
      assert xs[i := v][1..] == xs[1..][i - 1 := v];
      SumUpdate(xs[1..], i - 1, v);
    }
  }

  lemma {:induction false} SumZeros(n: nat)
    ensures Sum(seq(n, _ => 0)) == 0
  {
    if n == 0 {
    } else {
      assert seq(n, _ => 0)[1..] == seq(n - 1, _ => 0);
      SumZeros(n - 1);
    }
  }

  // ---- which case is where ---------------------------------------------------------

  ghost function EmittedItems(es: seq<Emission>): set<nat> {
    set i | 0 <= i < |es| :: es[i].item
  }

  ghost function ActiveItems(slots: seq<Slot>): set<nat> {
    set b | 0 <= b < |slots| && slots[b].active :: slots[b].item
  }

  ghost function Below(n: nat): (r: set<nat>)
    ensures forall k: nat :: k in r <==> k < n
    ensures |r| == n
  {
    if n == 0 then {} else Below(n - 1) + {n - 1}
  }

  /** Every case taken so far is emitted once or in exactly one slot. */
  ghost predicate Accounted(slots: seq<Slot>, next: nat, es: seq<Emission>) {
    && EmittedItems(es) + ActiveItems(slots) == Below(next)
    && EmittedItems(es) !! ActiveItems(slots)
    && (forall i, j :: 0 <= i < j < |es| ==> es[i].item != es[j].item)
    && (forall b, d :: 0 <= b < d < |slots| && slots[b].active && slots[d].active ==> slots[b].item != slots[d].item)
  }

  lemma ActivePut(slots: seq<Slot>, b: nat, s: Slot)
    requires b < |slots| && !slots[b].active && s.active
    ensures ActiveItems(slots[b := s]) == ActiveItems(slots) + {s.item}
  {
    var after := slots[b := s];
    assert after[b].item in ActiveItems(after);
    forall d | 0 <= d < |slots| && slots[d].active
      ensures slots[d].item in ActiveItems(after)
    {
      assert after[d] == slots[d];
    }
  }

  lemma ActiveDrop(slots: seq<Slot>, b: nat, s: Slot)
    requires b < |slots| && slots[b].active && !s.active
    requires forall d :: 0 <= d < |slots| && d != b && slots[d].active ==> slots[d].item != slots[b].item
    ensures ActiveItems(slots[b := s]) == ActiveItems(slots) - {slots[b].item}
  {
    var after := slots[b := s];
    forall d | 0 <= d < |slots| && d != b && slots[d].active
      ensures slots[d].item in ActiveItems(after)
    {
      assert after[d] == slots[d];
    }
  }

  lemma EmittedAdd(es: seq<Emission>, e: Emission)
    ensures EmittedItems(es + [e]) == EmittedItems(es) + {e.item}
  {
    var after := es + [e];
    assert after[|es|].item in EmittedItems(after);
    forall i | 0 <= i < |es|
      ensures es[i].item in EmittedItems(after)
    {
      assert after[i] == es[i];
    }
  }

  lemma ItemsIn(slots: seq<Slot>, es: seq<Emission>)
    ensures forall d :: 0 <= d < |slots| && slots[d].active ==> slots[d].item in ActiveItems(slots)
    ensures forall i :: 0 <= i < |es| ==> es[i].item in EmittedItems(es)
  {
  }

  lemma TakeCase(slots: seq<Slot>, next: nat, es: seq<Emission>, b: nat, s: Slot)
    requires Accounted(slots, next, es) && b < |slots| && !slots[b].active && s.active && s.item == next
    ensures Accounted(slots[b := s], next + 1, es)
  {
    hide ActiveItems, EmittedItems;
    ActivePut(slots, b, s);
    ItemsIn(slots, es);
    assert next !in EmittedItems(es) + ActiveItems(slots);
  }

  lemma EmitCase(slots: seq<Slot>, next: nat, es: seq<Emission>, b: nat, s: Slot, e: Emission)
    requires Accounted(slots, next, es) && b < |slots| && slots[b].active && !s.active && e.item == slots[b].item
    ensures Accounted(slots[b := s], next, es + [e])
  {
    hide ActiveItems, EmittedItems;
    ActiveDrop(slots, b, s);
    EmittedAdd(es, e);
    ItemsIn(slots, es);
  }

  /** The slot's case, activity and place are the same: nothing moves. */
  lemma SameCase(slots: seq<Slot>, next: nat, es: seq<Emission>, b: nat, s: Slot)
    requires Accounted(slots, next, es) && b < |slots|
    requires s.active == slots[b].active && (s.active ==> s.item == slots[b].item)
    ensures Accounted(slots[b := s], next, es)
  {
    var after := slots[b := s];
    forall d | 0 <= d < |slots|
      ensures after[d].active == slots[d].active && (after[d].active ==> after[d].item == slots[d].item)
    {
    }
    assert ActiveItems(after) == ActiveItems(slots);
  }

  /** At the end no slot is active: every case has been emitted, and none twice. */
  lemma AllEmitted(slots: seq<Slot>, n: nat, es: seq<Emission>)
    requires Accounted(slots, n, es) && forall s <- slots :: !s.active
    ensures |es| == n && forall k: nat :: k < n <==> k in EmittedItems(es)
  {
    assert ActiveItems(slots) == {};
    assert EmittedItems(es) == Below(n);
    DistinctCount(es);
  }

  lemma {:induction false} DistinctCount(es: seq<Emission>)
    requires forall i, j :: 0 <= i < j < |es| ==> es[i].item != es[j].item
    ensures |EmittedItems(es)| == |es|
    decreases |es|
  {
    if es == [] {
    } else {
      var k := |es| - 1;
      var init := es[..k];
      DistinctCount(init);
      assert es == init + [es[k]];
      assert EmittedItems(es) == EmittedItems(init) + {es[k].item};
      assert es[k].item !in EmittedItems(init);
    }
  }

  // ---- token totals ------------------------------------------------------------------

  ghost function EmittedTokens(es: seq<Emission>): nat {
    if es == [] then 0 else EmittedTokens(es[..|es| - 1]) + |es[|es| - 1].sample.gen|
  }

  ghost function Pending(s: Slot): nat { if s.active then |s.gen| else 0 }

  ghost function PendingTokens(slots: seq<Slot>): nat {
    Sum(seq(|slots|, i requires 0 <= i < |slots| => Pending(slots[i])))
  }

  /** The tokens a slot's case may still generate. */
  ghost function Budget(cap: nat, s: Slot): nat { if s.active && |s.gen| <= cap then cap - |s.gen| else 0 }

  ghost function BudgetOf(cap: nat, slots: seq<Slot>): nat {
    Sum(seq(|slots|, i requires 0 <= i < |slots| => Budget(cap, slots[i])))
  }

  lemma PendingUpdate(slots: seq<Slot>, b: nat, s: Slot)
    requires b < |slots|
    ensures PendingTokens(slots[b := s]) == PendingTokens(slots) - Pending(slots[b]) + Pending(s)
  {
    var xs := seq(|slots|, i requires 0 <= i < |slots| => Pending(slots[i]));
    var after := slots[b := s];
    SumUpdate(xs, b, Pending(s));
    assert seq(|after|, i requires 0 <= i < |after| => Pending(after[i])) == xs[b := Pending(s)];
  }

  lemma BudgetUpdate(cap: nat, slots: seq<Slot>, b: nat, s: Slot)
    requires b < |slots|
    ensures BudgetOf(cap, slots[b := s]) == BudgetOf(cap, slots) - Budget(cap, slots[b]) + Budget(cap, s)
  {
    var xs := seq(|slots|, i requires 0 <= i < |slots| => Budget(cap, slots[i]));
    var after := slots[b := s];
    SumUpdate(xs, b, Budget(cap, s));
    assert seq(|after|, i requires 0 <= i < |after| => Budget(cap, after[i])) == xs[b := Budget(cap, s)];
  }

  lemma NothingPending(slots: seq<Slot>)
    requires forall b :: 0 <= b < |slots| ==> !slots[b].active
    ensures PendingTokens(slots) == 0 && Accounted(slots, 0, [])
  {
    SumZeros(|slots|);
    assert seq(|slots|, i requires 0 <= i < |slots| => Pending(slots[i])) == seq(|slots|, _ => 0);
  }

  lemma EmittedAppend(es: seq<Emission>, e: Emission)
    ensures EmittedTokens(es + [e]) == EmittedTokens(es) + |e.sample.gen|
  {
    assert (es + [e])[..|es|] == es;
  }

  // ---- token totals by the size of the step ----------------------------------------------

  function At(bySize: seq<nat>, n: nat): nat { if n < |bySize| then bySize[n] else 0 }

  /** The tokens that steps of n sessions produced, over the emitted and over the running cases. */
  ghost function EmittedAt(es: seq<Emission>, n: nat): nat {
    if es == [] then 0 else EmittedAt(es[..|es| - 1], n) + At(es[|es| - 1].bySize, n)
  }

  ghost function HeldAt(s: Slot, n: nat): nat { if s.active then At(s.bySize, n) else 0 }

  ghost function PendingAt(slots: seq<Slot>, n: nat): nat {
    Sum(seq(|slots|, i requires 0 <= i < |slots| => HeldAt(slots[i], n)))
  }

  /** The tokens booked at each size. */
  ghost predicate BySizes(slots: seq<Slot>, es: seq<Emission>, made: seq<int>) {
    forall n :: 0 <= n < |made| ==> made[n] == EmittedAt(es, n) + PendingAt(slots, n)
  }

  lemma PendingAtUpdate(slots: seq<Slot>, b: nat, s: Slot, n: nat)
    requires b < |slots|
    ensures PendingAt(slots[b := s], n) == PendingAt(slots, n) - HeldAt(slots[b], n) + HeldAt(s, n)
  {
    var xs := seq(|slots|, i requires 0 <= i < |slots| => HeldAt(slots[i], n));
    var after := slots[b := s];
    SumUpdate(xs, b, HeldAt(s, n));
    assert seq(|after|, i requires 0 <= i < |after| => HeldAt(after[i], n)) == xs[b := HeldAt(s, n)];
  }

  lemma EmittedAtAppend(es: seq<Emission>, e: Emission, n: nat)
    ensures EmittedAt(es + [e], n) == EmittedAt(es, n) + At(e.bySize, n)
  {
    assert (es + [e])[..|es|] == es;
  }

  /** A slot without tokens replaces one without a case, or tokens stay what they are. */
  lemma SizesStay(slots: seq<Slot>, es: seq<Emission>, made: seq<int>, b: nat, s: Slot)
    requires BySizes(slots, es, made) && b < |slots|
    requires forall n: nat :: HeldAt(slots[b], n) == HeldAt(s, n)
    ensures BySizes(slots[b := s], es, made)
  {
    hide PendingAt, HeldAt, EmittedAt;
    forall n | 0 <= n < |made|
      ensures PendingAt(slots[b := s], n) == PendingAt(slots, n)
    {
      PendingAtUpdate(slots, b, s, n);
    }
  }

  /** One more token of a case, made by a step of n. */
  lemma SizesGrow(slots: seq<Slot>, es: seq<Emission>, made: seq<int>, b: nat, s: Slot, n: nat)
    requires BySizes(slots, es, made) && b < |slots| && slots[b].active && s.active
    requires n < |slots[b].bySize| && s.bySize == slots[b].bySize[n := slots[b].bySize[n] + 1] && n < |made|
    ensures BySizes(slots[b := s], es, made[n := made[n] + 1])
  {
    hide PendingAt, EmittedAt;
    forall k | 0 <= k < |made|
      ensures PendingAt(slots[b := s], k) == PendingAt(slots, k) + if k == n then 1 else 0
    {
      PendingAtUpdate(slots, b, s, k);
    }
  }

  /** The last token of a case. */
  lemma SizesEmit(slots: seq<Slot>, es: seq<Emission>, made: seq<int>, b: nat, s: Slot, e: Emission, n: nat)
    requires BySizes(slots, es, made) && b < |slots| && slots[b].active && !s.active
    requires n < |slots[b].bySize| && e.bySize == slots[b].bySize[n := slots[b].bySize[n] + 1] && n < |made|
    ensures BySizes(slots[b := s], es + [e], made[n := made[n] + 1])
  {
    hide PendingAt, EmittedAt;
    forall k | 0 <= k < |made|
      ensures EmittedAt(es + [e], k) + PendingAt(slots[b := s], k)
           == EmittedAt(es, k) + PendingAt(slots, k) + if k == n then 1 else 0
    {
      PendingAtUpdate(slots, b, s, k);
      EmittedAtAppend(es, e, k);
    }
  }

  lemma NothingMade(slots: seq<Slot>, made: seq<int>)
    requires (forall b :: 0 <= b < |slots| ==> !slots[b].active) && forall n :: 0 <= n < |made| ==> made[n] == 0
    ensures BySizes(slots, [], made)
  {
    forall n | 0 <= n < |made|
      ensures PendingAt(slots, n) == 0
    {
      NothingHeld(slots, n);
    }
  }

  lemma NothingHeld(slots: seq<Slot>, n: nat)
    requires forall b :: 0 <= b < |slots| ==> !slots[b].active
    ensures PendingAt(slots, n) == 0
  {
    SumZeros(|slots|);
    assert seq(|slots|, i requires 0 <= i < |slots| => HeldAt(slots[i], n)) == seq(|slots|, _ => 0);
  }
}
