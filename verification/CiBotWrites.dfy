// Exactly when the bot does what: for every answer of the server and every state of the
// tables, the writes of each step of a poll, what the tables remember of them, and that
// one run, one step or one pull request does not stand in the way of another.
module CiBotWrites {
  import opened Results
  import opened CiBotSpec
  import opened CiBotJobs
  import opened CiBotRules

  // ---- a run ---------------------------------------------------------------------------

  ghost predicate SomeHeld(jobs: seq<JobRead>) { exists j <- jobs :: j.failed && IsHeld(j) }

  /** What the bot decides about a run with failed jobs: leave one alone that waits for a
      human; send back an accepted one with a real failure; rerun what infrastructure broke. */
  ghost function DecisionOn(s: State, pr: Pr, jobs: seq<JobRead>, key: RunKey): Decision {
    if SomeHeld(jobs) then LeftHeld
    else if SomeGenuine(jobs) then (if pr.accepted then SentBack else LeftFailing)
    else if Reruns(s, key) < 2 then Reran
    else Exhausted
  }

  /** The writes the decision needs went through, or there are none to make. */
  predicate Done(dry: bool, d: Decision, info: RunInfo) {
    match d
    case Reran => dry || info.rerun.Returned?
    case SentBack => dry || (Posts(info.back) && info.back.status.Returned?)
    case _ => true
  }

  /** The run is to be decided: settled and not decided before. */
  ghost predicate Due(s: State, pr: Pr, r: RunRead, at: Attempt) {
    Settled(pr, r) && Concerns(pr, r, at) && at !in s.seen
  }

  lemma CasesOn(s: State, pr: Pr, r: RunRead, verdicts: seq<Kind>)
    requires Judged(pr, r, verdicts)
    ensures var jobs := r.info.value.jobs.value;
      && (SomeHeld(jobs) <==> Held in verdicts)
      && (SomeGenuine(jobs) <==> Held !in verdicts && Genuine in verdicts)
      && (AllLost(jobs) <==> !SomeHeld(jobs) && !SomeGenuine(jobs))
  {
    hide Verdicts, IsHeld, IsInfra, IsGenuine, IsUnread;
    var jobs := r.info.value.jobs.value;
    VerdictsAre(jobs);
    KindsApart(jobs);
    OnlyKinds(pr, r, verdicts);
  }

  lemma NotDue(dry: bool, s: State, pr: Pr, r: RunRead, at: Attempt)
    requires Concerns(pr, r, at) && !Due(s, pr, r, at)
    ensures CiRun(dry, s, pr, r).acts == [] && CiRun(dry, s, pr, r).state == s
  {
    hide Verdicts, Settled, Decide, AttemptOf, Concerns;
    ConcernsIs(pr, r, at);
    JudgedIs(pr, r);
    if Finished(pr, r) && r.info.value.jobs.Some? && Verdicts(r.info.value.jobs.value).Some? {
      var verdicts := Verdicts(r.info.value.jobs.value).value;
      assert verdicts != [] ==> Judged(pr, r, verdicts);
    }
  }

  lemma DueRun(dry: bool, s: State, pr: Pr, r: RunRead, at: Attempt) returns (verdicts: seq<Kind>)
    requires Due(s, pr, r, at)
    ensures Judged(pr, r, verdicts) && CiRun(dry, s, pr, r) == Decide(dry, s, pr, at, verdicts, r.info.value)
  {
    hide Verdicts, Settled, Decide, AttemptOf, Concerns;
    ConcernsIs(pr, r, at);
    JudgedIs(pr, r);
    verdicts :| Judged(pr, r, verdicts);
  }

  /** The tables after a decision whose writes went through. */
  function Decidedly(s: State, at: Attempt, d: Decision): State {
    s.(seen := s.seen[at := d],
       reruns := if d == Reran then s.reruns[at.run := Reruns(s, at.run) + 1] else s.reruns)
  }

  /** The same in terms of the verdicts. */
  function DecisionBy(s: State, pr: Pr, verdicts: seq<Kind>, key: RunKey): Decision {
    if Held in verdicts then LeftHeld
    else if Genuine in verdicts then (if pr.accepted then SentBack else LeftFailing)
    else if Reruns(s, key) < 2 then Reran
    else Exhausted
  }

  lemma DecideIs(dry: bool, s: State, pr: Pr, at: Attempt, verdicts: seq<Kind>, info: RunInfo, d: Decision)
    requires d == DecisionBy(s, pr, verdicts, at.run)
    ensures var next := Decide(dry, s, pr, at, verdicts, info);
      && (next.raised <==> !Done(dry, d, info))
      && next.state == if Done(dry, d, info) then Decidedly(s, at, d) else s
  {
    hide SendBackActs, Reruns;
    SendBackReports(at, info.back, at);
  }

  /** What the tables remember of a run: the decision, once its writes went through, and
      the rerun; nothing of a run that is not due, or whose writes did not. */
  lemma DecidedExactly(dry: bool, s: State, pr: Pr, r: RunRead, at: Attempt)
    requires Concerns(pr, r, at)
    ensures CiRun(dry, s, pr, r).state ==
            if Due(s, pr, r, at) && Done(dry, DecisionOn(s, pr, r.info.value.jobs.value, at.run), r.info.value)
            then Decidedly(s, at, DecisionOn(s, pr, r.info.value.jobs.value, at.run))
            else s
  {
    hide Verdicts, Settled, SomeHeld, SomeGenuine, AllLost, Concerns, Decide, CiRun, Done, Decidedly;
    if Due(s, pr, r, at) {
      var verdicts := DueRun(dry, s, pr, r, at);
      CasesOn(s, pr, r, verdicts);
      DecideIs(dry, s, pr, at, verdicts, r.info.value, DecisionOn(s, pr, r.info.value.jobs.value, at.run));
    } else {
      NotDue(dry, s, pr, r, at);
    }
  }

  /** A run's step raises, and so is read again, when the run cannot be read, its jobs cannot,
      a log its verdict needs cannot, or a write of the decision does not go through. */
  lemma RaisesExactly(dry: bool, s: State, pr: Pr, r: RunRead, at: Attempt)
    requires Concerns(pr, r, at)
    ensures var info := r.info.value;
      CiRun(dry, s, pr, r).raised
      <==> && info.completed && info.head == pr.head && at !in s.seen
           && (|| info.jobs == None
               || (exists j <- info.jobs.value :: j.failed && IsUnread(j))
               || (Settled(pr, r) && !Done(dry, DecisionOn(s, pr, info.jobs.value, at.run), info)))
  {
    hide Verdicts, SomeHeld, SomeGenuine, AllLost, Concerns, IsUnread, AttemptOf, Decide, Done, Decidedly;
    ConcernsIs(pr, r, at);
    if Due(s, pr, r, at) {
      var verdicts := DueRun(dry, s, pr, r, at);
      CasesOn(s, pr, r, verdicts);
      DecideIs(dry, s, pr, at, verdicts, r.info.value, DecisionOn(s, pr, r.info.value.jobs.value, at.run));
    } else if r.info.value.jobs.Some? {
      VerdictsAre(r.info.value.jobs.value);
    }
  }

  /** A send-back cancels the auto-merge, reports and labels, each once the one before went through. */
  lemma SentBackExactly(dry: bool, s: State, pr: Pr, r: RunRead, at: Attempt)
    requires Concerns(pr, r, at)
    ensures var back := r.info.value.back;
      var sent := !dry && Due(s, pr, r, at) && SomeGenuine(r.info.value.jobs.value) && pr.accepted;
      && (Cancelled(at) in CiRun(dry, s, pr, r).acts <==> sent && back.cancel.Returned?)
      && (Reported(at) in CiRun(dry, s, pr, r).acts <==> sent && Posts(back))
      && (Labelled(at) in CiRun(dry, s, pr, r).acts <==> sent && Posts(back) && back.status.Returned?)
  {
    hide Verdicts, Settled, SomeHeld, SomeGenuine, AllLost, Concerns, SendBackActs;
    if Due(s, pr, r, at) {
      var verdicts := DueRun(dry, s, pr, r, at);
      CasesOn(s, pr, r, verdicts);
      SendBackWrites(at, r.info.value.back);
    } else {
      NotDue(dry, s, pr, r, at);
    }
  }

  lemma SendBackWrites(at: Attempt, b: SendBack)
    ensures var acts := SendBackActs(at, b).0;
      && (Cancelled(at) in acts <==> b.cancel.Returned?)
      && (Reported(at) in acts <==> Posts(b))
      && (Labelled(at) in acts <==> Posts(b) && b.status.Returned?)
      && InOrder(acts) && forall a <- acts :: a in [Cancelled(at), Reported(at), Labelled(at)]
  {
  }

  /** The place of a write of a run among its writes. */
  function Rank(a: Act): int {
    match a
    case Cancelled(_) => 1
    case Reported(_) => 2
    case Labelled(_) => 3
    case Rerun(_, _) => 3
    case Decided(_) => 4
    case _ => 0
  }

  /** The label that starts the fix job comes after the report the job reads; no write comes twice. */
  ghost predicate InOrder(acts: seq<Act>) { forall i, j :: 0 <= i < j < |acts| ==> Rank(acts[i]) < Rank(acts[j]) }

  lemma WritesInOrder(dry: bool, s: State, pr: Pr, r: RunRead)
    ensures InOrder(CiRun(dry, s, pr, r).acts)
  {
    hide Verdicts, SendBackActs, InOrder;
    NoOrder();
    if r.info.Some? {
      var at := AttemptOf(pr, r);
      SendBackWrites(at, r.info.value.back);
      DecidedLast(SendBackActs(at, r.info.value.back).0, at);
      DecidedLast([], at);
      DecidedLast([Rerun(at.run, at.number)], at);
    }
  }

  lemma NoOrder()
    ensures InOrder([])
    ensures forall a: Act :: InOrder([a])
  {
  }

  lemma DecidedLast(acts: seq<Act>, at: Attempt)
    requires InOrder(acts) && forall a <- acts :: Rank(a) < 4
    ensures InOrder(acts + [Decided(at)])
  {
  }

  /** The runs are read in order up to the first whose step raises. */
  lemma {:induction false} RunsAppend(dry: bool, s: State, pr: Pr, a: seq<RunRead>, b: seq<RunRead>)
    ensures var first := CiRuns(dry, s, pr, a);
      CiRuns(dry, s, pr, a + b) == if first.raised then first else After(first.acts, CiRuns(dry, first.state, pr, b))
    ensures |b| == 1 ==> CiRuns(dry, s, pr, b) == CiRun(dry, s, pr, b[0])
    decreases |a|
  {
    hide CiRun;
    if |b| == 1 {
      var one := CiRun(dry, s, pr, b[0]);
      assert b[1..] == [] && one.acts + [] == one.acts;
    }
    if a == [] {
      assert a + b == b;
      var all := CiRuns(dry, s, pr, b);
      assert [] + all.acts == all.acts;
    } else {
      assert (a + b)[1..] == a[1..] + b && (a + b)[0] == a[0];
      var first := CiRun(dry, s, pr, a[0]);
      if !first.raised {
        RunsAppend(dry, first.state, pr, a[1..], b);
        var rest := CiRuns(dry, first.state, pr, a[1..]);
        var last := CiRuns(dry, rest.state, pr, b);
        assert first.acts + (rest.acts + last.acts) == (first.acts + rest.acts) + last.acts;
      }
    }
  }

  /** A run that cannot be read ends the pull request's first step: what the runs before it did
      stays done, and the runs after it wait for the next poll. */
  lemma UnreadableEnds(dry: bool, s: State, pr: Pr, a: seq<RunRead>, r: RunRead, b: seq<RunRead>)
    requires r.info == None
    ensures var (first, all) := (CiRuns(dry, s, pr, a), CiRuns(dry, s, pr, a + ([r] + b)));
      all.raised && all.acts == first.acts && all.state == first.state
  {
    RunsAppend(dry, s, pr, a, [r] + b);
    assert ([r] + b)[0] == r;
    var first := CiRuns(dry, s, pr, a);
    assert first.acts + [] == first.acts;
  }

  /** A rerun is asked for exactly when every failed job of a finished, undecided attempt
      died of infrastructure and the run has reruns left. */
  lemma RerunExactly(dry: bool, s: State, pr: Pr, r: RunRead, key: RunKey, n: nat)
    requires r.info.Some?
    ensures Rerun(key, n) in CiRun(dry, s, pr, r).acts
       <==> && !dry
            && Concerns(pr, r, Attempt(key, n))
            && Attempt(key, n) !in s.seen
            && Settled(pr, r) && AllLost(r.info.value.jobs.value)
            && Reruns(s, key) < RERUN_MAX
            && r.info.value.rerun.Returned?
  {
    hide Verdicts, SendBackActs, Settled, AllLost, Concerns, AttemptOf;
    JudgedIs(pr, r);
    ConcernsIs(pr, r, Attempt(key, n));
    if Finished(pr, r) && r.info.value.jobs.Some? && Verdicts(r.info.value.jobs.value).Some? {
      var verdicts := Verdicts(r.info.value.jobs.value).value;
      if verdicts != [] {
        OnlyKinds(pr, r, verdicts);
      }
      if Rerun(key, n) in SendBackActs(AttemptOf(pr, r), r.info.value.back).0 {
        SendBackIs(AttemptOf(pr, r), r.info.value.back, Rerun(key, n));
        assert false;
      }
      assert verdicts != [] ==> Judged(pr, r, verdicts);
    }
  }

  // ---- a rebase ---------------------------------------------------------------------------

  /** The rebase is tried: this head and base are new to the bot, and the head is still the listed one. */
  predicate Tried(s: State, pr: Pr, b: RebaseRead, key: RebaseKey) {
    KeyIs(pr, b, key) && key !in s.rebased && b.current == Some(true)
  }

  /** The comment is on the pull request already, or is written now; a dry run only says so. */
  predicate Noted(dry: bool, s: State, key: NoteKey, read: NoteRead) {
    key in s.commented || (read.marked.Some? && (read.marked.value || dry || read.post.Returned?))
  }

  /** The comment is written now. */
  predicate Notes(dry: bool, s: State, key: NoteKey, read: NoteRead) {
    !dry && key !in s.commented && read.marked == Some(false) && read.post.Returned?
  }

  /** How a tried rebase ends. */
  predicate EndsAs(dry: bool, s: State, pr: Pr, b: RebaseRead, out: Outcome) {
    match out
    case WasUpToDate => b.trial.UpToDate?
    case Conflicts => b.trial.Conflicting? && Noted(dry, s, NoteKey(pr.tag, ConflictNote), b.note)
    case Denied =>
      b.trial.Rebases? && b.commits.Some? && !Rewritable(pr, b.commits.value)
      && Noted(dry, s, NoteKey(pr.tag, NeedsLabel), b.note)
    case Dry => b.trial.Rebases? && b.commits.Some? && Rewritable(pr, b.commits.value) && dry
    case WasPushed => b.trial.Rebases? && b.commits.Some? && Rewritable(pr, b.commits.value) && !dry && b.push.Returned?
    case Moved => false
  }

  lemma CommentIs(dry: bool, s: State, key: NoteKey, read: NoteRead)
    ensures var c := CommentOnce(dry, s, key, read);
      && c.acts == (if Notes(dry, s, key, read) then [Commented(key)] else [])
      && (c.raised <==> !Noted(dry, s, key, read))
      && c.state == if key !in s.commented && Noted(dry, s, key, read)
                    then s.(commented := s.commented[key := true]) else s
  {
  }

  /** A tried rebase either raised, for want of any end, or ended and is remembered. */
  ghost predicate EndsSo(dry: bool, s: State, pr: Pr, b: RebaseRead, key: RebaseKey, r: Rebased) {
    if r.step.raised then r.step.state == s && forall out :: !EndsAs(dry, s, pr, b, out)
    else
      && EndsAs(dry, s, pr, b, r.outcome)
      && r.step.state == s.(rebased := s.rebased[key := r.outcome], commented := r.step.state.commented)
  }

  /** Its one write is the push, or the comment that explains why there is none. */
  ghost predicate WritesSo(dry: bool, s: State, pr: Pr, b: RebaseRead, key: RebaseKey, acts: seq<Act>) {
    acts == if EndsAs(dry, s, pr, b, WasPushed) then [Pushed(key)]
            else if Explains(pr, b, ConflictNote) && Notes(dry, s, NoteKey(pr.tag, ConflictNote), b.note)
            then [Commented(NoteKey(pr.tag, ConflictNote))]
            else if Explains(pr, b, NeedsLabel) && Notes(dry, s, NoteKey(pr.tag, NeedsLabel), b.note)
            then [Commented(NoteKey(pr.tag, NeedsLabel))]
            else []
  }

  lemma ConflictEnds(dry: bool, s: State, pr: Pr, b: RebaseRead, key: RebaseKey)
    requires b.trial.Conflicting?
    ensures EndsSo(dry, s, pr, b, key, TrialOf(dry, s, pr, b, key))
    ensures WritesSo(dry, s, pr, b, key, TrialOf(dry, s, pr, b, key).step.acts)
  {
    hide CommentOnce, MayRewrite, Rewritable, Noted, Notes;
    CommentIs(dry, s, NoteKey(pr.tag, ConflictNote), b.note);
  }

  lemma DeniedEnds(dry: bool, s: State, pr: Pr, b: RebaseRead, key: RebaseKey)
    requires b.trial.Rebases? && (b.commits.Some? ==> !Rewritable(pr, b.commits.value))
    ensures EndsSo(dry, s, pr, b, key, TrialOf(dry, s, pr, b, key))
    ensures WritesSo(dry, s, pr, b, key, TrialOf(dry, s, pr, b, key).step.acts)
  {
    hide CommentOnce, MayRewrite, Rewritable, Noted, Notes;
    if b.commits.Some? {
      RewritableIs(pr, b.commits.value);
      CommentIs(dry, s, NoteKey(pr.tag, NeedsLabel), b.note);
    }
  }

  lemma PushEnds(dry: bool, s: State, pr: Pr, b: RebaseRead, key: RebaseKey)
    requires b.trial.Rebases? && b.commits.Some? && Rewritable(pr, b.commits.value)
    ensures EndsSo(dry, s, pr, b, key, TrialOf(dry, s, pr, b, key))
    ensures WritesSo(dry, s, pr, b, key, TrialOf(dry, s, pr, b, key).step.acts)
  {
    hide CommentOnce, MayRewrite, Rewritable, Noted, Notes;
    RewritableIs(pr, b.commits.value);
  }

  lemma OtherEnds(dry: bool, s: State, pr: Pr, b: RebaseRead, key: RebaseKey)
    requires b.trial.UpToDate? || b.trial.TrialBroken?
    ensures EndsSo(dry, s, pr, b, key, TrialOf(dry, s, pr, b, key))
    ensures WritesSo(dry, s, pr, b, key, TrialOf(dry, s, pr, b, key).step.acts)
  {
  }

  /** A rebase is tried once for a head and a base: it pushes when the branch is the bot's to
      rewrite, and else says once why it does not. One that ended is remembered with its end,
      one that raised is tried again. */
  lemma RebaseExactly(dry: bool, s: State, pr: Pr, b: RebaseRead, key: RebaseKey)
    requires KeyIs(pr, b, key)
    ensures var r := Rebase(dry, s, pr, b);
      if Tried(s, pr, b, key) then EndsSo(dry, s, pr, b, key, r) && WritesSo(dry, s, pr, b, key, r.step.acts)
      else
        && r.step.state == s && r.step.acts == []
        && (r.step.raised <==> key !in s.rebased && b.current == None)
        && (!r.step.raised ==> r.outcome == if key in s.rebased then s.rebased[key] else Moved)
  {
    hide TrialOf, KeyIs, EndsSo, WritesSo, Rewritable;
    KeyOf(pr, b, key);
    if b.trial.Conflicting? {
      ConflictEnds(dry, s, pr, b, key);
    } else if !b.trial.Rebases? {
      OtherEnds(dry, s, pr, b, key);
    } else if b.commits.Some? && Rewritable(pr, b.commits.value) {
      PushEnds(dry, s, pr, b, key);
    } else {
      DeniedEnds(dry, s, pr, b, key);
    }
  }

  /** Without a base the rebase raises. */
  lemma NoBase(dry: bool, s: State, pr: Pr, b: RebaseRead)
    requires b.onto == None
    ensures Rebase(dry, s, pr, b).step == Step(s, [], true)
  {
  }

  // ---- dependencies -----------------------------------------------------------------------

  /** All dependencies were read as merged, and nothing was scheduled for them before. */
  predicate Ready(s: State, pr: Pr) {
    pr.deps != [] && (forall k :: 0 <= k < |pr.deps| ==> pr.deps[k] == Some(Merged)) && pr.tag !in s.automerge
  }

  /** All were read, and one of them was closed unmerged. */
  predicate HopeLost(pr: Pr) { None !in pr.deps && Some(ClosedUnmerged) in pr.deps }

  predicate AsksToMerge(pr: Pr) { !pr.agentHead && (pr.asksLabel || (pr.asksBody && !pr.declines)) }

  /** The rebase ended, now or before, with the listed head still in place and no conflict. */
  predicate LeavesHead(dry: bool, s: State, pr: Pr, b: RebaseRead, key: RebaseKey) {
    if key in s.rebased then s.rebased[key] in {WasUpToDate, Denied, Dry}
    else
      && Tried(s, pr, b, key)
      && (EndsAs(dry, s, pr, b, WasUpToDate) || EndsAs(dry, s, pr, b, Denied) || EndsAs(dry, s, pr, b, Dry))
  }

  /** The rebase pushed, now or before: the listed head is gone. */
  predicate MovesHead(dry: bool, s: State, pr: Pr, b: RebaseRead, key: RebaseKey) {
    if key in s.rebased then s.rebased[key] == WasPushed else Tried(s, pr, b, key) && EndsAs(dry, s, pr, b, WasPushed)
  }

  lemma EndIs(dry: bool, s: State, pr: Pr, b: RebaseRead, key: RebaseKey)
    requires KeyIs(pr, b, key)
    ensures var r := Rebase(dry, s, pr, b);
      && (LeavesHead(dry, s, pr, b, key) <==> !r.step.raised && r.outcome !in {WasPushed, Conflicts, Moved})
      && (MovesHead(dry, s, pr, b, key) <==> !r.step.raised && r.outcome.WasPushed?)
  {
    hide Rebase, KeyIs, Noted, Notes, Rewritable, WritesSo;
    RebaseExactly(dry, s, pr, b, key);
    var r := Rebase(dry, s, pr, b);
    if Tried(s, pr, b, key) && !r.step.raised {
      OneEnd(dry, s, pr, b, r.outcome);
    }
  }

  lemma OneEnd(dry: bool, s: State, pr: Pr, b: RebaseRead, out: Outcome)
    requires EndsAs(dry, s, pr, b, out)
    ensures forall other :: EndsAs(dry, s, pr, b, other) ==> other == out
  {
    hide Noted, Rewritable;
  }

  /** The dependency step writes its comment when a dependency was closed unmerged; when all
      are merged, it rebases and, if that leaves the head, enables auto-merge for who asks. */
  lemma DepsExactly(dry: bool, s: State, pr: Pr, key: RebaseKey)
    requires KeyIs(pr, pr.afterDeps, key)
    ensures var note := NoteKey(pr.tag, DepClosed);
      var merges := Ready(s, pr) && LeavesHead(dry, s, pr, pr.afterDeps, key) && AsksToMerge(pr);
      DepsStep(dry, s, pr).step.acts ==
      if HopeLost(pr) then (if Notes(dry, s, note, pr.closedNote) then [Commented(note)] else [])
      else if Ready(s, pr) then
        Rebase(dry, s, pr, pr.afterDeps).step.acts
        + if merges && !dry && pr.merge.Returned? then [AutoMerge(pr.tag)] else []
      else []
  {
    hide DepStates, Rebase, CommentOnce, KeyIs, LeavesHead, Notes, Noted;
    AllMerged(pr.deps);
    DepStatesAre(pr.deps);
    EndIs(dry, s, pr, pr.afterDeps, key);
    CommentIs(dry, s, NoteKey(pr.tag, DepClosed), pr.closedNote);
  }

  /** It remembers an auto-merge that was enabled or scheduled before, or that nobody asked
      for; not one that raised, which is asked for again. */
  lemma MergeEnteredExactly(dry: bool, s: State, pr: Pr, key: RebaseKey)
    requires KeyIs(pr, pr.afterDeps, key)
    ensures pr.tag in DepsStep(dry, s, pr).step.state.automerge
       <==> || pr.tag in s.automerge
            || (&& Ready(s, pr) && LeavesHead(dry, s, pr, pr.afterDeps, key)
                && (AsksToMerge(pr) ==> dry || pr.merge.Returned? || pr.merge.Scheduled?))
  {
    hide DepStates, Rebase, CommentOnce, KeyIs, LeavesHead;
    AllMerged(pr.deps);
    DepStatesAre(pr.deps);
    EndIs(dry, s, pr, pr.afterDeps, key);
    CommentKeepsMerges(dry, s, NoteKey(pr.tag, DepClosed), pr.closedNote);
    RebaseKeepsMerges(dry, s, pr, pr.afterDeps);
  }

  /** A failure report is posted exactly when a finished, undecided attempt of an accepted
      pull request has a real failure and is not held, and the server takes the report;
      the attempt then stays undecided exactly when the label write after it fails. */
  lemma ReportExactly(dry: bool, s: State, pr: Pr, r: RunRead, at: Attempt)
    requires r.info.Some?
    ensures Reported(at) in CiRun(dry, s, pr, r).acts
       <==> && !dry
            && Concerns(pr, r, at)
            && at !in s.seen
            && Settled(pr, r) && SomeGenuine(r.info.value.jobs.value)
            && pr.accepted
            && Posts(r.info.value.back)
    ensures Reported(at) in CiRun(dry, s, pr, r).acts
       ==> (at !in CiRun(dry, s, pr, r).state.seen <==> !r.info.value.back.status.Returned?)
  {
    hide Verdicts, SendBackActs, Settled, SomeGenuine, Concerns, AttemptOf;
    JudgedIs(pr, r);
    ConcernsIs(pr, r, at);
    if Finished(pr, r) && r.info.value.jobs.Some? && Verdicts(r.info.value.jobs.value).Some? {
      var verdicts := Verdicts(r.info.value.jobs.value).value;
      assert verdicts != [] ==> Judged(pr, r, verdicts);
      SendBackReports(AttemptOf(pr, r), r.info.value.back, at);
    }
  }

  lemma SendBackReports(of: Attempt, b: SendBack, at: Attempt)
    ensures Reported(at) in SendBackActs(of, b).0 <==> of == at && Posts(b)
    ensures SendBackActs(of, b).1 <==> !Posts(b) || !b.status.Returned?
  {
  }

  // ---- nothing stands in the way ------------------------------------------------------------

  predicate Same<K(==), V(==)>(m: map<K, V>, n: map<K, V>, k: K) {
    (k in m <==> k in n) && (k in m ==> m[k] == n[k])
  }

  /** The tables agree on the runs of a pull request. */
  ghost predicate SameRuns(s: State, t: State, tag: Tag) {
    && (forall k: RunKey :: k.tag == tag ==> Same(s.reruns, t.reruns, k))
    && (forall k: Attempt :: k.run.tag == tag ==> Same(s.seen, t.seen, k))
  }

  /** The tables agree on its rebases, comments and auto-merge. */
  ghost predicate SameRest(s: State, t: State, tag: Tag) {
    && (forall k: RebaseKey :: k.tag == tag ==> Same(s.rebased, t.rebased, k))
    && (forall k: NoteKey :: k.tag == tag ==> Same(s.commented, t.commented, k))
    && Same(s.automerge, t.automerge, tag)
  }

  lemma SameRunsAt(s: State, t: State, at: Attempt)
    requires SameRuns(s, t, at.run.tag)
    ensures Reruns(s, at.run) == Reruns(t, at.run) && (at in s.seen <==> at in t.seen)
  {
    assert Same(s.reruns, t.reruns, at.run) && Same(s.seen, t.seen, at);
  }

  /** Entering the same on both sides, or something on one side for another pull request, keeps the tables alike. */
  lemma EnterDecision(s: State, t: State, at: Attempt, d: Decision, tag: Tag)
    requires SameRuns(s, t, tag)
    ensures SameRuns(s.(seen := s.seen[at := d]), t.(seen := t.seen[at := d]), tag)
    ensures at.run.tag != tag ==> SameRuns(s, t.(seen := t.seen[at := d]), tag)
  {
  }

  lemma EnterRerun(s: State, t: State, key: RunKey, n: nat, tag: Tag)
    requires SameRuns(s, t, tag)
    ensures SameRuns(s.(reruns := s.reruns[key := n]), t.(reruns := t.reruns[key := n]), tag)
    ensures key.tag != tag ==> SameRuns(s, t.(reruns := t.reruns[key := n]), tag)
  {
  }

  lemma EnterEither(s: State, t: State, at: Attempt, d: Decision, tag: Tag)
    requires SameRuns(s, t, tag) && (at.run.tag == tag ==> Reruns(s, at.run) == Reruns(t, at.run))
    ensures SameRuns(Decidedly(s, at, d), Decidedly(t, at, d), tag)
    ensures at.run.tag != tag ==> SameRuns(s, Decidedly(t, at, d), tag)
  {
    hide SameRuns, Reruns;
    var n := Reruns(t, at.run) + 1;
    EnterDecision(s, t, at, d, tag);
    EnterRerun(s.(seen := s.seen[at := d]), t.(seen := t.seen[at := d]), at.run, n, tag);
    if at.run.tag != tag {
      EnterRerun(s, t.(seen := t.seen[at := d]), at.run, n, tag);
      EnterElsewhere(s, at, d, t, tag);
    }
  }

  lemma EnterElsewhere(s: State, at: Attempt, d: Decision, t: State, tag: Tag)
    requires SameRuns(s, t, tag) && at.run.tag != tag
    ensures SameRuns(Decidedly(s, at, d), Decidedly(t, at, d), tag)
  {
  }

  lemma DecideAlone(dry: bool, s: State, t: State, pr: Pr, at: Attempt, verdicts: seq<Kind>, info: RunInfo)
    requires SameRuns(s, t, at.run.tag)
    ensures var a, b := Decide(dry, s, pr, at, verdicts, info), Decide(dry, t, pr, at, verdicts, info);
      a.acts == b.acts && (a.raised <==> b.raised) && SameRuns(a.state, b.state, at.run.tag)
  {
    hide SendBackActs, SameRuns, Reruns, Done, Decidedly;
    SameRunsAt(s, t, at);
    var d := DecisionBy(s, pr, verdicts, at.run);
    DecideIs(dry, s, pr, at, verdicts, info, d);
    DecideIs(dry, t, pr, at, verdicts, info, d);
    EnterEither(s, t, at, d, at.run.tag);
  }

  lemma CiRunAlone(dry: bool, s: State, t: State, pr: Pr, r: RunRead)
    requires SameRuns(s, t, pr.tag)
    ensures var a, b := CiRun(dry, s, pr, r), CiRun(dry, t, pr, r);
      a.acts == b.acts && (a.raised <==> b.raised) && SameRuns(a.state, b.state, pr.tag)
  {
    hide Verdicts, Decide, Finished, SameRuns;
    if r.info.Some? {
      var at := AttemptOf(pr, r);
      SameRunsAt(s, t, at);
      if r.info.value.jobs.Some? && Verdicts(r.info.value.jobs.value).Some? {
        DecideAlone(dry, s, t, pr, at, Verdicts(r.info.value.jobs.value).value, r.info.value);
      }
    }
  }

  lemma CiRunKeeps(dry: bool, s: State, pr: Pr, r: RunRead, tag: Tag)
    ensures var t := CiRun(dry, s, pr, r).state;
      t == s.(reruns := t.reruns, seen := t.seen) && (tag != pr.tag ==> SameRuns(s, t, tag))
  {
    hide Verdicts, Decide, Finished, SameRuns, Decidedly, Done;
    Unchanged(s, tag);
    if r.info.Some? && r.info.value.jobs.Some? && Verdicts(r.info.value.jobs.value).Some? {
      var at, verdicts := AttemptOf(pr, r), Verdicts(r.info.value.jobs.value).value;
      var d := DecisionBy(s, pr, verdicts, at.run);
      DecideIs(dry, s, pr, at, verdicts, r.info.value, d);
      EnterEither(s, s, at, d, tag);
      DecidedlyIs(s, at, d);
    }
  }

  lemma DecidedlyIs(s: State, at: Attempt, d: Decision)
    ensures var t := Decidedly(s, at, d); t == s.(reruns := t.reruns, seen := t.seen)
  {
  }

  lemma {:induction false} CiRunsAlone(dry: bool, s: State, t: State, pr: Pr, runs: seq<RunRead>)
    requires SameRuns(s, t, pr.tag)
    ensures var a, b := CiRuns(dry, s, pr, runs), CiRuns(dry, t, pr, runs);
      a.acts == b.acts && (a.raised <==> b.raised) && SameRuns(a.state, b.state, pr.tag)
    decreases |runs|
  {
    hide CiRun, SameRuns;
    if runs == [] {
    } else {
      CiRunAlone(dry, s, t, pr, runs[0]);
      CiRunsAlone(dry, CiRun(dry, s, pr, runs[0]).state, CiRun(dry, t, pr, runs[0]).state, pr, runs[1..]);
    }
  }

  lemma {:induction false} CiRunsKeep(dry: bool, s: State, pr: Pr, runs: seq<RunRead>, tag: Tag)
    ensures var t := CiRuns(dry, s, pr, runs).state;
      t == s.(reruns := t.reruns, seen := t.seen) && (tag != pr.tag ==> SameRuns(s, t, tag))
    decreases |runs|
  {
    hide CiRun, SameRuns;
    if runs == [] {
      Unchanged(s, tag);
    } else {
      var u := CiRun(dry, s, pr, runs[0]).state;
      CiRunKeeps(dry, s, pr, runs[0], tag);
      CiRunsKeep(dry, u, pr, runs[1..], tag);
      if tag != pr.tag {
        SameThen(s, u, CiRuns(dry, u, pr, runs[1..]).state, tag);
      }
    }
  }

  lemma Unchanged(s: State, tag: Tag)
    ensures SameRuns(s, s, tag) && SameRest(s, s, tag)
  {
  }

  lemma SameThen(s: State, t: State, u: State, tag: Tag)
    ensures SameRuns(s, t, tag) && SameRuns(t, u, tag) ==> SameRuns(s, u, tag)
    ensures SameRest(s, t, tag) && SameRest(t, u, tag) ==> SameRest(s, u, tag)
  {
  }

  /** Entering the same on both sides, or something on one side for another pull request, keeps the tables alike. */
  lemma EnterRebase(s: State, t: State, key: RebaseKey, out: Outcome, tag: Tag)
    requires SameRest(s, t, tag)
    ensures SameRest(s.(rebased := s.rebased[key := out]), t.(rebased := t.rebased[key := out]), tag)
    ensures key.tag != tag ==> SameRest(s, t.(rebased := t.rebased[key := out]), tag)
  {
  }

  lemma EnterNote(s: State, t: State, key: NoteKey, tag: Tag)
    requires SameRest(s, t, tag)
    ensures SameRest(s.(commented := s.commented[key := true]), t.(commented := t.commented[key := true]), tag)
    ensures key.tag != tag ==> SameRest(s, t.(commented := t.commented[key := true]), tag)
  {
  }

  lemma EnterMerge(s: State, t: State, key: Tag, asked: bool, tag: Tag)
    requires SameRest(s, t, tag)
    ensures SameRest(s.(automerge := s.automerge[key := asked]), t.(automerge := t.automerge[key := asked]), tag)
    ensures key != tag ==> SameRest(s, t.(automerge := t.automerge[key := asked]), tag)
  {
  }

  lemma SameRestAt(s: State, t: State, key: RebaseKey, note: NoteKey)
    ensures SameRest(s, t, key.tag) ==> Same(s.rebased, t.rebased, key)
    ensures SameRest(s, t, note.tag) ==> Same(s.commented, t.commented, note)
  {
  }

  lemma CommentAlone(dry: bool, s: State, t: State, key: NoteKey, read: NoteRead)
    requires SameRest(s, t, key.tag)
    ensures var x, y := CommentOnce(dry, s, key, read), CommentOnce(dry, t, key, read);
      x.acts == y.acts && (x.raised <==> y.raised) && SameRest(x.state, y.state, key.tag)
  {
    hide SameRest;
    SameRestAt(s, t, RebaseKey(key.tag, "", ""), key);
    EnterNote(s, t, key, key.tag);
  }

  lemma CommentKeeps(dry: bool, s: State, key: NoteKey, read: NoteRead, tag: Tag)
    ensures var t := CommentOnce(dry, s, key, read).state;
      t == s.(commented := t.commented) && (tag != key.tag ==> SameRest(s, t, tag))
  {
    hide SameRest;
    Unchanged(s, tag);
    EnterNote(s, s, key, tag);
  }

  lemma RecordAlone(x: Step, y: Step, key: RebaseKey, out: Outcome, tag: Tag)
    requires x.acts == y.acts && (x.raised <==> y.raised) && SameRest(x.state, y.state, tag)
    ensures var a, b := Record(x, key, out), Record(y, key, out);
      a.step.acts == b.step.acts && (a.step.raised <==> b.step.raised) && a.outcome == b.outcome
      && SameRest(a.step.state, b.step.state, tag)
  {
    hide SameRest;
    EnterRebase(x.state, y.state, key, out, tag);
  }

  lemma TrialAlone(dry: bool, s: State, t: State, pr: Pr, b: RebaseRead, key: RebaseKey)
    requires SameRest(s, t, pr.tag)
    ensures var x, y := TrialOf(dry, s, pr, b, key), TrialOf(dry, t, pr, b, key);
      && x.step.acts == y.step.acts && (x.step.raised <==> y.step.raised) && x.outcome == y.outcome
      && SameRest(x.step.state, y.step.state, pr.tag)
  {
    hide MayRewrite, CommentOnce, SameRest, Record;
    var conflict, label' := NoteKey(pr.tag, ConflictNote), NoteKey(pr.tag, NeedsLabel);
    CommentAlone(dry, s, t, conflict, b.note);
    CommentAlone(dry, s, t, label', b.note);
    RecordAlone(CommentOnce(dry, s, conflict, b.note), CommentOnce(dry, t, conflict, b.note), key, Conflicts, pr.tag);
    RecordAlone(CommentOnce(dry, s, label', b.note), CommentOnce(dry, t, label', b.note), key, Denied, pr.tag);
    RecordAlone(Step(s, [], false), Step(t, [], false), key, WasUpToDate, pr.tag);
    RecordAlone(Step(s, [], false), Step(t, [], false), key, Dry, pr.tag);
    RecordAlone(Step(s, [Pushed(key)], false), Step(t, [Pushed(key)], false), key, WasPushed, pr.tag);
  }

  lemma RebaseAlone(dry: bool, s: State, t: State, pr: Pr, b: RebaseRead)
    requires SameRest(s, t, pr.tag)
    ensures var x, y := Rebase(dry, s, pr, b), Rebase(dry, t, pr, b);
      && x.step.acts == y.step.acts && (x.step.raised <==> y.step.raised) && x.outcome == y.outcome
      && SameRest(x.step.state, y.step.state, pr.tag)
  {
    hide TrialOf, SameRest;
    if b.onto.Some? {
      var key := RebaseKey(pr.tag, Short(pr.head), Short(b.onto.value));
      SameRestAt(s, t, key, NoteKey(pr.tag, NeedsLabel));
      TrialAlone(dry, s, t, pr, b, key);
    }
  }

  lemma RebaseKeeps(dry: bool, s: State, pr: Pr, b: RebaseRead, tag: Tag)
    ensures var t := Rebase(dry, s, pr, b).step.state;
      t == s.(rebased := t.rebased, commented := t.commented) && (tag != pr.tag ==> SameRest(s, t, tag))
  {
    hide MayRewrite, CommentOnce, SameRest, Record;
    Unchanged(s, tag);
    if b.onto.Some? {
      var key := RebaseKey(pr.tag, Short(pr.head), Short(b.onto.value));
      var conflict := CommentOnce(dry, s, NoteKey(pr.tag, ConflictNote), b.note);
      var label' := CommentOnce(dry, s, NoteKey(pr.tag, NeedsLabel), b.note);
      CommentKeeps(dry, s, NoteKey(pr.tag, ConflictNote), b.note, tag);
      CommentKeeps(dry, s, NoteKey(pr.tag, NeedsLabel), b.note, tag);
      RecordKeeps(s, conflict, key, Conflicts, tag);
      RecordKeeps(s, label', key, Denied, tag);
      RecordKeeps(s, Step(s, [], false), key, WasUpToDate, tag);
      RecordKeeps(s, Step(s, [], false), key, Dry, tag);
      RecordKeeps(s, Step(s, [Pushed(key)], false), key, WasPushed, tag);
    }
  }

  lemma RecordKeeps(s: State, x: Step, key: RebaseKey, out: Outcome, tag: Tag)
    requires key.tag != tag ==> SameRest(s, x.state, tag)
    ensures var t := Record(x, key, out).step.state;
      t == x.state.(rebased := t.rebased) && (key.tag != tag ==> SameRest(s, t, tag))
  {
    hide SameRest;
    if key.tag != tag {
      EnterRebase(s, x.state, key, out, tag);
    }
  }

  lemma ScheduleAlone(dry: bool, s: State, t: State, pr: Pr)
    requires SameRest(s, t, pr.tag)
    ensures var x, y := Schedule(dry, s, pr), Schedule(dry, t, pr);
      x.acts == y.acts && (x.raised <==> y.raised) && SameRest(x.state, y.state, pr.tag)
  {
    hide SameRest, WantsAutomerge;
    EnterMerge(s, t, pr.tag, true, pr.tag);
    EnterMerge(s, t, pr.tag, false, pr.tag);
  }

  lemma DepsAlone(dry: bool, s: State, t: State, pr: Pr)
    requires SameRest(s, t, pr.tag)
    ensures var x, y := DepsStep(dry, s, pr), DepsStep(dry, t, pr);
      && x.step.acts == y.step.acts && (x.step.raised <==> y.step.raised) && x.outcome == y.outcome
      && SameRest(x.step.state, y.step.state, pr.tag)
  {
    hide Rebase, CommentOnce, DepStates, Schedule, SameRest;
    RebaseAlone(dry, s, t, pr, pr.afterDeps);
    ScheduleAlone(dry, Rebase(dry, s, pr, pr.afterDeps).step.state, Rebase(dry, t, pr, pr.afterDeps).step.state, pr);
    CommentAlone(dry, s, t, NoteKey(pr.tag, DepClosed), pr.closedNote);
    MergesAlike(s, t, pr.tag);
  }

  lemma MergesAlike(s: State, t: State, tag: Tag)
    requires SameRest(s, t, tag)
    ensures tag in s.automerge <==> tag in t.automerge
  {
  }

  lemma DepsKeep(dry: bool, s: State, pr: Pr, tag: Tag)
    ensures var t := DepsStep(dry, s, pr).step.state;
      t == s.(rebased := t.rebased, commented := t.commented, automerge := t.automerge)
      && (tag != pr.tag ==> SameRest(s, t, tag))
  {
    hide Rebase, CommentOnce, DepStates, Schedule, SameRest;
    Unchanged(s, tag);
    RebaseKeeps(dry, s, pr, pr.afterDeps, tag);
    CommentKeeps(dry, s, NoteKey(pr.tag, DepClosed), pr.closedNote, tag);
    ScheduleKeeps(dry, s, Rebase(dry, s, pr, pr.afterDeps).step.state, pr, tag);
  }

  lemma ScheduleKeeps(dry: bool, s: State, u: State, pr: Pr, tag: Tag)
    requires tag != pr.tag ==> SameRest(s, u, tag)
    ensures var t := Schedule(dry, u, pr).state;
      t == u.(automerge := t.automerge) && (tag != pr.tag ==> SameRest(s, t, tag))
  {
    hide SameRest, WantsAutomerge;
    if tag != pr.tag {
      EnterMerge(s, u, pr.tag, true, tag);
      EnterMerge(s, u, pr.tag, false, tag);
    }
  }

  /** The three steps do not stand in each other's way: whatever the first does or raises, the
      second works from the same tables; the last is left out only after a push. */
  lemma StepsExactly(dry: bool, s: State, pr: Pr, key: RebaseKey)
    requires KeyIs(pr, pr.afterDeps, key)
    ensures var deps := DepsStep(dry, s, pr);
      PrSteps(dry, s, pr).acts ==
      Ci(dry, s, pr).acts + deps.step.acts
      + if !pr.unmergeable || (Ready(s, pr) && MovesHead(dry, s, pr, pr.afterDeps, key)) then []
        else Rebase(dry, deps.step.state, pr, pr.afterConflict).step.acts
  {
    hide Ci, DepsStep, Rebase, SameRest, KeyIs, MovesHead;
    var ci, deps := Ci(dry, s, pr), DepsStep(dry, s, pr);
    CiLeavesRest(dry, s, pr);
    DepsAlone(dry, s, ci.state, pr);
    RebaseAlone(dry, deps.step.state, DepsStep(dry, ci.state, pr).step.state, pr, pr.afterConflict);
    DepsPush(dry, s, pr, key);
  }

  lemma CiLeavesRest(dry: bool, s: State, pr: Pr)
    ensures SameRest(s, Ci(dry, s, pr).state, pr.tag)
  {
    hide CiRuns;
    if pr.runs.Some? {
      CiRunsKeep(dry, s, pr, pr.runs.value, pr.tag);
    }
  }

  lemma DepsPush(dry: bool, s: State, pr: Pr, key: RebaseKey)
    requires KeyIs(pr, pr.afterDeps, key)
    ensures var deps := DepsStep(dry, s, pr);
      !deps.step.raised && deps.outcome.WasPushed?
      <==> Ready(s, pr) && MovesHead(dry, s, pr, pr.afterDeps, key)
  {
    hide DepStates, Rebase, CommentOnce, KeyIs, MovesHead;
    AllMerged(pr.deps);
    DepStatesAre(pr.deps);
    EndIs(dry, s, pr, pr.afterDeps, key);
  }

  lemma PrAlone(dry: bool, s: State, t: State, pr: Pr)
    requires SameRuns(s, t, pr.tag) && SameRest(s, t, pr.tag)
    ensures PrSteps(dry, s, pr).acts == PrSteps(dry, t, pr).acts
  {
    hide CiRuns, DepsStep, Rebase, SameRest, SameRuns;
    if pr.runs.Some? {
      CiRunsAlone(dry, s, t, pr, pr.runs.value);
    }
    var u, v := Ci(dry, s, pr).state, Ci(dry, t, pr).state;
    CiLeavesRest(dry, s, pr);
    CiLeavesRest(dry, t, pr);
    SameBack(s, u, pr.tag);
    SameThen(u, s, t, pr.tag);
    SameThen(u, t, v, pr.tag);
    DepsAlone(dry, u, v, pr);
    RebaseAlone(dry, DepsStep(dry, u, pr).step.state, DepsStep(dry, v, pr).step.state, pr, pr.afterConflict);
  }

  lemma SameBack(s: State, t: State, tag: Tag)
    requires SameRest(s, t, tag)
    ensures SameRest(t, s, tag)
  {
  }

  lemma PrKeeps(dry: bool, s: State, pr: Pr, tag: Tag)
    requires tag != pr.tag
    ensures SameRuns(s, PrSteps(dry, s, pr).state, tag) && SameRest(s, PrSteps(dry, s, pr).state, tag)
  {
    hide CiRuns, DepsStep, Rebase;
    var u := Ci(dry, s, pr).state;
    if pr.runs.Some? {
      CiRunsKeep(dry, s, pr, pr.runs.value, tag);
    }
    var v := DepsStep(dry, u, pr).step.state;
    DepsKeep(dry, u, pr, tag);
    RebaseKeeps(dry, v, pr, pr.afterConflict, tag);
  }

  lemma {:induction false} EachAlone(dry: bool, s: State, t: State, prs: seq<Pr>)
    requires forall i, j :: 0 <= i < j < |prs| ==> prs[i].tag != prs[j].tag
    requires forall pr <- prs :: SameRuns(s, t, pr.tag) && SameRest(s, t, pr.tag)
    ensures AllPrs(dry, t, prs).acts == Flat(seq(|prs|, i requires 0 <= i < |prs| => PrSteps(dry, s, prs[i]).acts))
    decreases |prs|
  {
    hide PrSteps, SameRuns, SameRest;
    var parts := seq(|prs|, i requires 0 <= i < |prs| => PrSteps(dry, s, prs[i]).acts);
    if prs == [] {
    } else {
      var u, rest := PrSteps(dry, t, prs[0]).state, prs[1..];
      PrAlone(dry, s, t, prs[0]);
      forall pr <- rest
        ensures SameRuns(s, u, pr.tag) && SameRest(s, u, pr.tag)
      {
        PrKeeps(dry, t, prs[0], pr.tag);
        SameThen(s, t, u, pr.tag);
      }
      EachAlone(dry, s, u, rest);
      assert parts[1..] == seq(|rest|, i requires 0 <= i < |rest| => PrSteps(dry, s, rest[i]).acts);
    }
  }

  /** What a pull request makes the bot write in a poll does not depend on the others: the
      writes of a poll are those of each one alone, from the tables at the start of the poll. */
  lemma EachPrAlone(dry: bool, s: State, poll: Poll)
    requires forall i, j :: 0 <= i < j < |Listed(poll.lists)| ==> Listed(poll.lists)[i].tag != Listed(poll.lists)[j].tag
    ensures var prs := Listed(poll.lists);
      Tick(dry, s, poll).acts == Flat(seq(|prs|, i requires 0 <= i < |prs| => PrSteps(dry, s, prs[i]).acts))
  {
    hide AllPrs, PrSteps, SameRuns, SameRest;
    forall pr <- Listed(poll.lists)
      ensures SameRuns(s, s, pr.tag) && SameRest(s, s, pr.tag)
    {
      Unchanged(s, pr.tag);
    }
    EachAlone(dry, s, s, Listed(poll.lists));
  }
}
