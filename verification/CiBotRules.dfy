// What the bot promises over every sequence of polls: how often it may do a thing at
// most, and what it must have read before it does it.
module CiBotRules {
  import opened Results
  import opened CiBotSpec
  import opened CiBotJobs

  // ---- how often --------------------------------------------------------------------

  /** The things the bot does: reruns of a run, decisions on an attempt, the label and the
      failure report of an attempt it sends back, comments of a kind, pushes of a head onto
      a base, auto-merges of a pull request. */
  datatype Subject =
    | OfRun(run: RunKey)
    | OfAttempt(attempt: Attempt)
    | OfLabel(attempt: Attempt)
    | OfReport(attempt: Attempt)
    | OfNote(note: NoteKey)
    | OfPush(branch: RebaseKey)
    | OfMerge(pr: Tag)

  function Limit(x: Subject): nat { if x.OfRun? then RERUN_MAX else 1 }

  function TagOf(x: Subject): Tag {
    match x
    case OfRun(key) => key.tag
    case OfAttempt(at) => at.run.tag
    case OfLabel(at) => at.run.tag
    case OfReport(at) => at.run.tag
    case OfNote(key) => key.tag
    case OfPush(key) => key.tag
    case OfMerge(tag) => tag
  }

  function One(a: Act, x: Subject): nat {
    match a
    case Rerun(key, _) => if x == OfRun(key) then 1 else 0
    case Decided(at) => if x == OfAttempt(at) then 1 else 0
    case Labelled(at) => if x == OfLabel(at) then 1 else 0
    case Reported(at) => if x == OfReport(at) then 1 else 0
    case Commented(key) => if x == OfNote(key) then 1 else 0
    case Pushed(key) => if x == OfPush(key) then 1 else 0
    case AutoMerge(tag) => if x == OfMerge(tag) then 1 else 0
    case _ => 0
  }

  /** How often a list of writes does one thing. */
  function Count(acts: seq<Act>, x: Subject): nat
    decreases |acts|
  {
    if acts == [] then 0 else One(acts[0], x) + Count(acts[1..], x)
  }

  /** How often the tables say it was done. */
  function Spent(s: State, x: Subject): nat {
    match x
    case OfRun(key) => Reruns(s, key)
    case OfAttempt(at) => if at in s.seen then 1 else 0
    case OfLabel(at) => if at in s.seen then 1 else 0
    case OfReport(at) => if at in s.seen then 1 else 0
    case OfNote(key) => if key in s.commented then 1 else 0
    case OfPush(key) => if key in s.rebased then 1 else 0
    case OfMerge(tag) => if tag in s.automerge then 1 else 0
  }

  predicate PaysFor(s: State, acts: seq<Act>, t: State, x: Subject) {
    || x.OfReport?
    || (&& Spent(s, x) + Count(acts, x) <= Spent(t, x)
        && (Spent(s, x) <= Limit(x) ==> Spent(t, x) <= Limit(x)))
  }

  /** Every write but a report is entered in the tables, and no table goes over its limit. */
  ghost predicate Pays(s: State, acts: seq<Act>, t: State) {
    forall x :: PaysFor(s, acts, t, x)
  }

  lemma {:induction false} CountAppend(a: seq<Act>, b: seq<Act>, x: Subject)
    ensures Count(a + b, x) == Count(a, x) + Count(b, x)
    decreases |a|
  {
    if a == [] {
      assert a + b == b;
    } else {
      assert (a + b)[1..] == a[1..] + b;
      CountAppend(a[1..], b, x);
    }
  }

  lemma PaysNothing(s: State)
    ensures Pays(s, [], s)
  {
  }

  lemma PaysThen(s: State, a: seq<Act>, t: State, b: seq<Act>, u: State)
    requires Pays(s, a, t) && Pays(t, b, u)
    ensures Pays(s, a + b, u)
  {
    hide Spent, Count, Limit;
    forall x: Subject
      ensures PaysFor(s, a + b, u, x)
    {
      assert PaysFor(s, a, t, x) && PaysFor(t, b, u, x);
      CountAppend(a, b, x);
    }
  }

  lemma PaysDecision(s: State, at: Attempt, d: Decision)
    requires at !in s.seen
    ensures Pays(s, [Decided(at)], s.(seen := s.seen[at := d]))
  {
    var t := s.(seen := s.seen[at := d]);
    forall x: Subject
      ensures PaysFor(s, [Decided(at)], t, x)
    {
    }
  }

  lemma PaysRerun(s: State, key: RunKey, n: nat, dry: bool)
    requires Reruns(s, key) < RERUN_MAX
    ensures Pays(s, if dry then [] else [Rerun(key, n)], s.(reruns := s.reruns[key := Reruns(s, key) + 1]))
  {
    var t := s.(reruns := s.reruns[key := Reruns(s, key) + 1]);
    forall x: Subject
      ensures PaysFor(s, [], t, x) && PaysFor(s, [Rerun(key, n)], t, x)
    {
    }
  }

  lemma PaysNote(s: State, key: NoteKey, silent: bool)
    requires key !in s.commented
    ensures Pays(s, if silent then [] else [Commented(key)], s.(commented := s.commented[key := true]))
  {
    var t := s.(commented := s.commented[key := true]);
    forall x: Subject
      ensures PaysFor(s, [], t, x) && PaysFor(s, [Commented(key)], t, x)
    {
    }
  }

  lemma PaysRebase(s: State, key: RebaseKey, out: Outcome, silent: bool)
    requires key !in s.rebased
    ensures Pays(s, if silent then [] else [Pushed(key)], s.(rebased := s.rebased[key := out]))
  {
    var t := s.(rebased := s.rebased[key := out]);
    forall x: Subject
      ensures PaysFor(s, [], t, x) && PaysFor(s, [Pushed(key)], t, x)
    {
    }
  }

  lemma PaysMerge(s: State, tag: Tag, asked: bool, silent: bool)
    requires tag !in s.automerge
    ensures Pays(s, if silent then [] else [AutoMerge(tag)], s.(automerge := s.automerge[tag := asked]))
  {
    var t := s.(automerge := s.automerge[tag := asked]);
    forall x: Subject
      ensures PaysFor(s, [], t, x) && PaysFor(s, [AutoMerge(tag)], t, x)
    {
    }
  }

  /** The report was posted, whether or not the label then was written. */
  predicate Posts(b: SendBack) { (b.cancel.Returned? || b.cancel.Absent?) && b.report.Returned? }

  /** A send-back reports at most once, and labels exactly when nothing raised. */
  lemma SendBackCounts(at: Attempt, b: SendBack, x: Subject)
    ensures Count(SendBackActs(at, b).0, x)
         == if x == OfReport(at) && Posts(b) then 1 else if x == OfLabel(at) && Posts(b)
             && b.status.Returned? then 1 else 0
    ensures SendBackActs(at, b).1 <==> !Posts(b) || !b.status.Returned?
  {
    CountAppend([Cancelled(at)], [Reported(at)], x);
    CountAppend([Reported(at)], [Labelled(at)], x);
    CountAppend([Cancelled(at)], [Reported(at), Labelled(at)], x);
    assert [Reported(at)] + [Labelled(at)] == [Reported(at), Labelled(at)];
    assert [] + [Reported(at)] == [Reported(at)];
    assert [] + [Reported(at), Labelled(at)] == [Reported(at), Labelled(at)];
  }

  /** A send-back that raised has done nothing the tables limit. */
  lemma RaisedSendBackPays(s: State, at: Attempt, b: SendBack)
    requires SendBackActs(at, b).1
    ensures Pays(s, SendBackActs(at, b).0, s)
  {
    hide SendBackActs, Spent, Count;
    forall x: Subject
      ensures PaysFor(s, SendBackActs(at, b).0, s, x)
    {
      SendBackCounts(at, b, x);
    }
  }

  /** One that did not is entered as a decision, which pays for its label. */
  lemma SendBackPays(s: State, at: Attempt, b: SendBack)
    requires at !in s.seen && !SendBackActs(at, b).1
    ensures Pays(s, SendBackActs(at, b).0 + [Decided(at)], s.(seen := s.seen[at := SentBack]))
  {
    hide SendBackActs;
    var t := s.(seen := s.seen[at := SentBack]);
    var acts := SendBackActs(at, b).0;
    forall x: Subject
      ensures PaysFor(s, acts + [Decided(at)], t, x)
    {
      SendBackCounts(at, b, x);
      CountAppend(acts, [Decided(at)], x);
    }
  }

  lemma SettlePays(s: State, t: State, at: Attempt, d: Decision, acts: seq<Act>)
    requires Pays(s, acts, t) && at !in t.seen
    ensures Pays(s, Settle(t, at, d, acts).acts, Settle(t, at, d, acts).state)
  {
    hide Pays;
    PaysDecision(t, at, d);
    PaysThen(s, acts, t, [Decided(at)], t.(seen := t.seen[at := d]));
  }

  lemma DecidePays(dry: bool, s: State, pr: Pr, at: Attempt, verdicts: seq<Kind>, info: RunInfo)
    requires at !in s.seen
    ensures Pays(s, Decide(dry, s, pr, at, verdicts, info).acts, Decide(dry, s, pr, at, verdicts, info).state)
  {
    hide Pays, SendBackActs;
    PaysNothing(s);
    if SendBackActs(at, info.back).1 {
      RaisedSendBackPays(s, at, info.back);
    } else {
      SendBackPays(s, at, info.back);
    }
    SettlePays(s, s, at, LeftHeld, []);
    SettlePays(s, s, at, LeftFailing, []);
    SettlePays(s, s, at, SentBack, []);
    SettlePays(s, s, at, Exhausted, []);
    if Reruns(s, at.run) < RERUN_MAX {
      PaysRerun(s, at.run, at.number, dry);
      var spent := s.(reruns := s.reruns[at.run := Reruns(s, at.run) + 1]);
      SettlePays(s, spent, at, Reran, if dry then [] else [Rerun(at.run, at.number)]);
    }
  }

  ghost predicate StepPays(s: State, step: Step) { Pays(s, step.acts, step.state) }

  lemma CiRunPays(dry: bool, s: State, pr: Pr, r: RunRead)
    ensures StepPays(s, CiRun(dry, s, pr, r))
  {
    hide Pays, Decide, Verdicts;
    PaysNothing(s);
    if Finished(pr, r) && AttemptOf(pr, r) !in s.seen && r.info.value.jobs.Some? {
      var verdicts := Verdicts(r.info.value.jobs.value);
      if verdicts.Some? {
        DecidePays(dry, s, pr, AttemptOf(pr, r), verdicts.value, r.info.value);
      }
    }
  }

  lemma {:induction false} CiRunsPay(dry: bool, s: State, pr: Pr, runs: seq<RunRead>)
    ensures StepPays(s, CiRuns(dry, s, pr, runs))
    decreases |runs|
  {
    hide Pays, CiRun;
    if runs == [] {
      PaysNothing(s);
    } else {
      var first := CiRun(dry, s, pr, runs[0]);
      CiRunPays(dry, s, pr, runs[0]);
      if !first.raised {
        var rest := CiRuns(dry, first.state, pr, runs[1..]);
        CiRunsPay(dry, first.state, pr, runs[1..]);
        PaysThen(s, first.acts, first.state, rest.acts, rest.state);
      }
    }
  }

  lemma CiPays(dry: bool, s: State, pr: Pr)
    ensures StepPays(s, Ci(dry, s, pr))
  {
    hide Pays, CiRuns;
    PaysNothing(s);
    if pr.runs.Some? {
      CiRunsPay(dry, s, pr, pr.runs.value);
    }
  }

  lemma CommentPays(dry: bool, s: State, key: NoteKey, read: NoteRead)
    ensures StepPays(s, CommentOnce(dry, s, key, read))
    ensures CommentOnce(dry, s, key, read).state.rebased == s.rebased
  {
    hide Pays;
    PaysNothing(s);
    if key !in s.commented {
      PaysNote(s, key, true);
      PaysNote(s, key, false);
    }
  }

  /** A comment and then the entry of the outcome. */
  lemma RecordPays(s: State, step: Step, key: RebaseKey, out: Outcome)
    requires StepPays(s, step) && key !in step.state.rebased
    ensures StepPays(s, Record(step, key, out).step)
  {
    hide Pays;
    PaysRebase(step.state, key, out, true);
    PaysThen(s, step.acts, step.state, [], step.state.(rebased := step.state.rebased[key := out]));
    assert step.acts + [] == step.acts;
  }

  lemma TrialPays(dry: bool, s: State, pr: Pr, b: RebaseRead, key: RebaseKey)
    requires key !in s.rebased
    ensures StepPays(s, TrialOf(dry, s, pr, b, key).step)
  {
    hide Pays, CommentOnce, MayRewrite, Record;
    PaysNothing(s);
    var conflict := CommentOnce(dry, s, NoteKey(pr.tag, ConflictNote), b.note);
    var label' := CommentOnce(dry, s, NoteKey(pr.tag, NeedsLabel), b.note);
    CommentPays(dry, s, NoteKey(pr.tag, ConflictNote), b.note);
    CommentPays(dry, s, NoteKey(pr.tag, NeedsLabel), b.note);
    RecordPays(s, conflict, key, Conflicts);
    RecordPays(s, label', key, Denied);
    RecordPays(s, Step(s, [], false), key, WasUpToDate);
    RecordPays(s, Step(s, [], false), key, Dry);
    PushPays(s, key);
  }

  lemma PushPays(s: State, key: RebaseKey)
    requires key !in s.rebased
    ensures StepPays(s, Record(Step(s, [Pushed(key)], false), key, WasPushed).step)
  {
    PaysRebase(s, key, WasPushed, false);
  }

  lemma RebasePays(dry: bool, s: State, pr: Pr, b: RebaseRead)
    ensures StepPays(s, Rebase(dry, s, pr, b).step)
  {
    hide Pays, TrialOf;
    PaysNothing(s);
    if b.onto.Some? {
      var key := RebaseKey(pr.tag, Short(pr.head), Short(b.onto.value));
      if key !in s.rebased {
        TrialPays(dry, s, pr, b, key);
      }
    }
  }

  lemma RebaseKeepsMerges(dry: bool, s: State, pr: Pr, b: RebaseRead)
    ensures Rebase(dry, s, pr, b).step.state.automerge == s.automerge
  {
    hide CommentOnce, MayRewrite;
    CommentKeepsMerges(dry, s, NoteKey(pr.tag, ConflictNote), b.note);
    CommentKeepsMerges(dry, s, NoteKey(pr.tag, NeedsLabel), b.note);
  }

  lemma CommentKeepsMerges(dry: bool, s: State, key: NoteKey, read: NoteRead)
    ensures CommentOnce(dry, s, key, read).state.automerge == s.automerge
  {
  }

  lemma SchedulePays(dry: bool, s: State, pr: Pr)
    requires pr.tag !in s.automerge
    ensures StepPays(s, Schedule(dry, s, pr))
  {
    hide Pays;
    PaysNothing(s);
    PaysMerge(s, pr.tag, false, true);
    PaysMerge(s, pr.tag, true, true);
    PaysMerge(s, pr.tag, true, false);
  }

  lemma AfterDepsPays(dry: bool, s: State, pr: Pr)
    requires pr.tag !in s.automerge
    ensures StepPays(s, AfterDeps(dry, s, pr).step)
  {
    hide Pays, Rebase, Schedule;
    var r := Rebase(dry, s, pr, pr.afterDeps);
    RebasePays(dry, s, pr, pr.afterDeps);
    RebaseKeepsMerges(dry, s, pr, pr.afterDeps);
    var t := Schedule(dry, r.step.state, pr);
    SchedulePays(dry, r.step.state, pr);
    PaysThen(s, r.step.acts, r.step.state, t.acts, t.state);
  }

  lemma DepsPays(dry: bool, s: State, pr: Pr)
    ensures StepPays(s, DepsStep(dry, s, pr).step)
  {
    hide Pays, AfterDeps, CommentOnce, DepStates;
    PaysNothing(s);
    CommentPays(dry, s, NoteKey(pr.tag, DepClosed), pr.closedNote);
    if pr.tag !in s.automerge {
      AfterDepsPays(dry, s, pr);
    }
  }

  lemma PrPays(dry: bool, s: State, pr: Pr)
    ensures StepPays(s, PrSteps(dry, s, pr))
  {
    hide Pays, Ci, DepsStep, Rebase;
    var ci := Ci(dry, s, pr);
    CiPays(dry, s, pr);
    var deps := DepsStep(dry, ci.state, pr);
    DepsPays(dry, ci.state, pr);
    PaysThen(s, ci.acts, ci.state, deps.step.acts, deps.step.state);
    PaysNothing(deps.step.state);
    RebasePays(dry, deps.step.state, pr, pr.afterConflict);
    var last := ConflictStep(dry, deps.step.state, pr).step;
    PaysThen(s, ci.acts + deps.step.acts, deps.step.state, last.acts, last.state);
  }

  lemma {:induction false} AllPay(dry: bool, s: State, prs: seq<Pr>)
    ensures StepPays(s, AllPrs(dry, s, prs))
    decreases |prs|
  {
    hide Pays, PrSteps;
    if prs == [] {
      PaysNothing(s);
    } else {
      var first := PrSteps(dry, s, prs[0]);
      PrPays(dry, s, prs[0]);
      var rest := AllPrs(dry, first.state, prs[1..]);
      AllPay(dry, first.state, prs[1..]);
      PaysThen(s, first.acts, first.state, rest.acts, rest.state);
    }
  }

  // ---- over every run -----------------------------------------------------------------------

  /** A poll that read every list and did not see the pull request: its entries are dropped. */
  predicate Drops(poll: Poll, tag: Tag) {
    forall l <- poll.lists :: l.Some? && forall pr <- l.value :: pr.tag != tag
  }

  /** One of the lists that could be read names the pull request. */
  predicate Names(poll: Poll, pr: Pr) { exists l <- poll.lists :: l.Some? && pr in l.value }

  lemma {:induction false} ListedAre(lists: seq<Option<seq<Pr>>>, pr: Pr)
    ensures pr in Listed(lists) <==> exists l <- lists :: l.Some? && pr in l.value
    decreases |lists|
  {
    if lists == [] {
    } else {
      ListedAre(lists[1..], pr);
      assert forall l :: l in lists <==> l == lists[0] || l in lists[1..];
    }
  }

  lemma DropsIs(poll: Poll, tag: Tag)
    ensures Drops(poll, tag) <==> Complete(poll) && tag !in Tags(Listed(poll.lists))
  {
    hide Listed;
    if Complete(poll) {
      forall pr: Pr
        ensures pr in Listed(poll.lists) <==> Names(poll, pr)
      {
        ListedAre(poll.lists, pr);
      }
      assert tag in Tags(Listed(poll.lists)) <==> exists pr <- Listed(poll.lists) :: pr.tag == tag;
    }
  }

  function TimesDropped(polls: seq<Poll>, tag: Tag): nat
    decreases |polls|
  {
    if polls == [] then 0 else (if Drops(polls[0], tag) then 1 else 0) + TimesDropped(polls[1..], tag)
  }

  lemma ForgetSpent(s: State, tags: set<Tag>, x: Subject)
    ensures Spent(Forget(s, tags), x) == if TagOf(x) in tags then Spent(s, x) else 0
  {
  }

  lemma TickPays(dry: bool, s: State, poll: Poll, x: Subject)
    requires !x.OfReport? && Spent(s, x) <= Limit(x)
    ensures Spent(s, x) + Count(Tick(dry, s, poll).acts, x)
         <= (if Drops(poll, TagOf(x)) then Limit(x) else Spent(Tick(dry, s, poll).state, x))
    ensures Spent(Tick(dry, s, poll).state, x) <= Limit(x)
  {
    hide AllPrs, Listed, Spent, Count, Limit, Forget, Tags, Complete, TagOf, Drops;
    DropsIs(poll, TagOf(x));
    var prs := Listed(poll.lists);
    var all := AllPrs(dry, s, prs);
    AllPay(dry, s, prs);
    assert PaysFor(s, all.acts, all.state, x);
    ForgetSpent(all.state, Tags(prs), x);
  }

  lemma {:induction false} LimitedPay(dry: bool, s: State, polls: seq<Poll>, x: Subject)
    requires !x.OfReport? && Spent(s, x) <= Limit(x)
    ensures Spent(s, x) + Count(Polls(dry, s, polls).acts, x) <= Limit(x) + Limit(x) * TimesDropped(polls, TagOf(x))
    decreases |polls|
  {
    hide Tick, Spent, Count, Limit, Drops, TagOf;
    if polls != [] {
      var first := Tick(dry, s, polls[0]);
      var rest := Polls(dry, first.state, polls[1..]);
      TickPays(dry, s, polls[0], x);
      LimitedPay(dry, first.state, polls[1..], x);
      CountAppend(first.acts, rest.acts, x);
      var d := TimesDropped(polls[1..], TagOf(x));
      if Drops(polls[0], TagOf(x)) {
        assert Limit(x) * (d + 1) == Limit(x) * d + Limit(x);
      }
    } else {
      NoActs(x);
    }
  }

  lemma NoActs(x: Subject)
    ensures Count([], x) == 0
  {
  }

  // ---- failure reports ----------------------------------------------------------------------

  /** The verdicts on a finished run with failed jobs. */
  predicate Judged(pr: Pr, r: RunRead, verdicts: seq<Kind>) {
    && Finished(pr, r)
    && r.info.value.jobs.Some?
    && Verdicts(r.info.value.jobs.value) == Some(verdicts)
    && verdicts != []
  }

  predicate Fails(verdicts: seq<Kind>) { Genuine in verdicts && Held !in verdicts }

  predicate AllInfra(verdicts: seq<Kind>) { forall k <- verdicts :: k.Infra? }

  /** A hash shortened to its first twelve characters. */
  predicate Abbreviates(k: Sha, h: Sha) { k <= h && |k| == if |h| < 12 then |h| else 12 }

  /** The attempt a run read is about. */
  predicate Concerns(pr: Pr, r: RunRead, at: Attempt) {
    && r.info.Some? && at.number == r.info.value.attempt
    && at.run.tag == pr.tag && at.run.run == r.id && Abbreviates(at.run.head, pr.head)
  }

  lemma ConcernsIs(pr: Pr, r: RunRead, at: Attempt)
    ensures Concerns(pr, r, at) <==> r.info.Some? && AttemptOf(pr, r) == at
  {
    ShortIs(pr.head, at.run.head);
  }

  lemma ShortIs(h: Sha, k: Sha)
    ensures Abbreviates(k, h) <==> k == Short(h)
  {
    if k <= h {
      assert k == h[..|k|];
    }
  }

  /** A completed run of the present head with failed jobs, none of which needs a log that could not be read. */
  ghost predicate Settled(pr: Pr, r: RunRead) {
    && r.info.Some? && r.info.value.completed && r.info.value.head == pr.head
    && r.info.value.jobs.Some?
    && (exists j <- r.info.value.jobs.value :: j.failed)
    && forall j <- r.info.value.jobs.value :: j.failed ==> !IsUnread(j)
  }

  /** All failed jobs died of infrastructure. */
  ghost predicate AllLost(jobs: seq<JobRead>) { forall j <- jobs :: j.failed ==> IsInfra(j) }

  /** Some failed job is a failure of the change, and none waits for a human. */
  ghost predicate SomeGenuine(jobs: seq<JobRead>) {
    && (exists j <- jobs :: j.failed && IsGenuine(j))
    && forall j <- jobs :: j.failed ==> !IsHeld(j)
  }

  /** The verdicts of a run are those of its jobs. */
  lemma JudgedIs(pr: Pr, r: RunRead)
    ensures Settled(pr, r) <==> exists verdicts :: Judged(pr, r, verdicts)
    ensures forall verdicts :: Judged(pr, r, verdicts) ==>
      && (AllInfra(verdicts) <==> AllLost(r.info.value.jobs.value))
      && (Fails(verdicts) <==> SomeGenuine(r.info.value.jobs.value))
  {
    hide Verdicts, IsHeld, IsInfra, IsGenuine, IsUnread;
    if Finished(pr, r) && r.info.value.jobs.Some? {
      var jobs := r.info.value.jobs.value;
      VerdictsAre(jobs);
      KindsApart(jobs);
      if Verdicts(jobs).Some? && Verdicts(jobs).value != [] {
        var verdicts := Verdicts(jobs).value;
        assert Judged(pr, r, verdicts);
        assert AllInfra(verdicts) <==> Held !in verdicts && Genuine !in verdicts && AskLogs !in verdicts;
      }
    }
  }

  /** A job has one of the four shapes. */
  lemma KindsApart(jobs: seq<JobRead>)
    ensures forall j <- jobs :: IsInfra(j) <==> !IsHeld(j) && !IsGenuine(j) && !IsUnread(j)
    ensures forall j <- jobs :: IsHeld(j) ==> !IsGenuine(j)
  {
    hide Lost, StopsAtHold;
    forall j <- jobs
      ensures IsInfra(j) <==> !IsHeld(j) && !IsGenuine(j) && !IsUnread(j)
    {
      assert j.logs == Found || j.logs == NotFound || j.logs == Unreadable;
    }
  }

  /** The server takes the report of a send-back and then refuses its label. */
  predicate LosesLabel(b: SendBack) { Posts(b) && !b.status.Returned? }

  /** This read sends the attempt back, if it is undecided, and loses its label. */
  ghost predicate LeavesUnlabelled(pr: Pr, r: RunRead, at: Attempt) {
    && Settled(pr, r) && Concerns(pr, r, at)
    && SomeGenuine(r.info.value.jobs.value)
    && pr.accepted
    && LosesLabel(r.info.value.back)
  }

  ghost function UnlabelledRuns(pr: Pr, runs: seq<RunRead>, at: Attempt): nat
    decreases |runs|
  {
    if runs == [] then 0 else (if LeavesUnlabelled(pr, runs[0], at) then 1 else 0) + UnlabelledRuns(pr, runs[1..], at)
  }

  ghost function UnlabelledIn(pr: Pr, at: Attempt): nat {
    if pr.runs.None? then 0 else UnlabelledRuns(pr, pr.runs.value, at)
  }

  ghost function UnlabelledPrs(prs: seq<Pr>, at: Attempt): nat
    decreases |prs|
  {
    if prs == [] then 0 else UnlabelledIn(prs[0], at) + UnlabelledPrs(prs[1..], at)
  }

  /** How many reads over the polls could report an attempt and lose its label. */
  ghost function Unlabelled(polls: seq<Poll>, at: Attempt): nat
    decreases |polls|
  {
    if polls == [] then 0 else UnlabelledPrs(Listed(polls[0].lists), at) + Unlabelled(polls[1..], at)
  }

  /** All reports but so many are followed by their label. */
  predicate ReportsFit(acts: seq<Act>, at: Attempt, lost: nat) {
    Count(acts, OfReport(at)) <= Count(acts, OfLabel(at)) + lost
  }

  predicate Silent(acts: seq<Act>) { forall a <- acts :: !a.Reported? }

  lemma ReportsFitThen(a: seq<Act>, b: seq<Act>, at: Attempt, m: nat, n: nat)
    requires ReportsFit(a, at, m) && ReportsFit(b, at, n)
    ensures ReportsFit(a + b, at, m + n)
  {
    hide Count;
    CountAppend(a, b, OfReport(at));
    CountAppend(a, b, OfLabel(at));
  }

  lemma {:induction false} SilentFits(acts: seq<Act>, at: Attempt)
    requires Silent(acts)
    ensures ReportsFit(acts, at, 0)
    decreases |acts|
  {
    if acts == [] {
    } else {
      SilentFits(acts[1..], at);
    }
  }

  lemma SettleReports(s: State, at: Attempt, d: Decision, acts: seq<Act>, x: Subject)
    requires !x.OfAttempt?
    ensures Count(Settle(s, at, d, acts).acts, x) == Count(acts, x)
  {
    CountAppend(acts, [Decided(at)], x);
  }

  lemma DecideReports(dry: bool, s: State, pr: Pr, at: Attempt, verdicts: seq<Kind>, info: RunInfo, of: Attempt)
    ensures ReportsFit(Decide(dry, s, pr, at, verdicts, info).acts, of,
                       if of == at && Fails(verdicts) && pr.accepted && LosesLabel(info.back) then 1 else 0)
  {
    hide SendBackActs;
    if Fails(verdicts) && pr.accepted && !dry {
      var acts := SendBackActs(at, info.back).0;
      SendBackCounts(at, info.back, OfReport(of));
      SendBackCounts(at, info.back, OfLabel(of));
      SettleReports(s, at, SentBack, acts, OfReport(of));
      SettleReports(s, at, SentBack, acts, OfLabel(of));
    } else {
      SilentFits(Decide(dry, s, pr, at, verdicts, info).acts, of);
    }
  }

  lemma CiRunReports(dry: bool, s: State, pr: Pr, r: RunRead, at: Attempt)
    ensures ReportsFit(CiRun(dry, s, pr, r).acts, at, if LeavesUnlabelled(pr, r, at) then 1 else 0)
  {
    hide Decide, Verdicts, ReportsFit, LosesLabel, Settled, SomeGenuine;
    JudgedIs(pr, r);
    SilentFits([], at);
    NoMore(at);
    if Finished(pr, r) && r.info.value.jobs.Some? && Verdicts(r.info.value.jobs.value).Some? {
      DecideReports(dry, s, pr, AttemptOf(pr, r), Verdicts(r.info.value.jobs.value).value, r.info.value, at);
    }
  }

  lemma NoMore(at: Attempt)
    ensures forall n: nat :: ReportsFit([], at, n)
  {
  }

  lemma {:induction false} CiRunsReports(dry: bool, s: State, pr: Pr, runs: seq<RunRead>, at: Attempt)
    ensures ReportsFit(CiRuns(dry, s, pr, runs).acts, at, UnlabelledRuns(pr, runs, at))
    decreases |runs|
  {
    hide CiRun, LeavesUnlabelled, Count;
    if runs == [] {
      NoMore(at);
    } else {
      var first := CiRun(dry, s, pr, runs[0]);
      CiRunReports(dry, s, pr, runs[0], at);
      if !first.raised {
        var rest := CiRuns(dry, first.state, pr, runs[1..]);
        CiRunsReports(dry, first.state, pr, runs[1..], at);
        ReportsFitThen(first.acts, rest.acts, at,
                       if LeavesUnlabelled(pr, runs[0], at) then 1 else 0, UnlabelledRuns(pr, runs[1..], at));
      }
    }
  }

  lemma RebaseSilent(dry: bool, s: State, pr: Pr, b: RebaseRead)
    ensures Silent(Rebase(dry, s, pr, b).step.acts)
  {
    hide MayRewrite;
  }

  lemma DepsSilent(dry: bool, s: State, pr: Pr)
    ensures Silent(DepsStep(dry, s, pr).step.acts)
  {
    hide Rebase, DepStates, WantsAutomerge;
    RebaseSilent(dry, s, pr, pr.afterDeps);
  }

  lemma PrReports(dry: bool, s: State, pr: Pr, at: Attempt)
    ensures ReportsFit(PrSteps(dry, s, pr).acts, at, UnlabelledIn(pr, at))
  {
    hide DepsStep, Rebase, CiRuns, UnlabelledRuns, ReportsFit;
    NoMore(at);
    if pr.runs.Some? {
      CiRunsReports(dry, s, pr, pr.runs.value, at);
    }
    var ci := Ci(dry, s, pr);
    var deps := DepsStep(dry, ci.state, pr);
    DepsSilent(dry, ci.state, pr);
    SilentFits(deps.step.acts, at);
    ReportsFitThen(ci.acts, deps.step.acts, at, UnlabelledIn(pr, at), 0);
    var last := ConflictStep(dry, deps.step.state, pr).step;
    RebaseSilent(dry, deps.step.state, pr, pr.afterConflict);
    SilentFits(last.acts, at);
    ReportsFitThen(ci.acts + deps.step.acts, last.acts, at, UnlabelledIn(pr, at), 0);
  }

  lemma {:induction false} PrsReports(dry: bool, s: State, prs: seq<Pr>, at: Attempt)
    ensures ReportsFit(AllPrs(dry, s, prs).acts, at, UnlabelledPrs(prs, at))
    decreases |prs|
  {
    hide PrSteps, UnlabelledIn, ReportsFit;
    if prs == [] {
      NoMore(at);
    } else {
      var first := PrSteps(dry, s, prs[0]);
      var rest := AllPrs(dry, first.state, prs[1..]);
      PrReports(dry, s, prs[0], at);
      PrsReports(dry, first.state, prs[1..], at);
      ReportsFitThen(first.acts, rest.acts, at, UnlabelledIn(prs[0], at), UnlabelledPrs(prs[1..], at));
    }
  }

  /** Over any polls, all reports of an attempt are labelled but those whose label was lost. */
  lemma {:induction false} PollsReport(dry: bool, s: State, polls: seq<Poll>, at: Attempt)
    ensures ReportsFit(Polls(dry, s, polls).acts, at, Unlabelled(polls, at))
    decreases |polls|
  {
    hide AllPrs, UnlabelledPrs, ReportsFit, Listed, Forget, Complete;
    if polls == [] {
      NoMore(at);
    } else {
      var first := Tick(dry, s, polls[0]);
      var rest := Polls(dry, first.state, polls[1..]);
      PrsReports(dry, s, Listed(polls[0].lists), at);
      PollsReport(dry, first.state, polls[1..], at);
      ReportsFitThen(first.acts, rest.acts, at, UnlabelledPrs(Listed(polls[0].lists), at), Unlabelled(polls[1..], at));
    }
  }

  // ---- how often, over every run -------------------------------------------------------------

  /** The reports beyond the limit: one for each lost label. */
  ghost function LostLabels(polls: seq<Poll>, x: Subject): nat {
    if x.OfReport? then Unlabelled(polls, x.attempt) else 0
  }

  /** The limit of a thing over any polls: once for the start and once for every complete
      poll that misses its pull request, and for a report one more for every lost label. */
  ghost function Allowed(polls: seq<Poll>, x: Subject): nat {
    Limit(x) + Limit(x) * TimesDropped(polls, TagOf(x)) + LostLabels(polls, x)
  }

  /** Over any polls with any answers, from any tables within their limits: each thing is
      done at most its limit of times, once more so often for every complete poll that
      misses its pull request, and a report once more for every label lost after it. */
  lemma PollsPay(dry: bool, s: State, polls: seq<Poll>, x: Subject)
    requires Spent(s, x) <= Limit(x)
    ensures Spent(s, x) + Count(Polls(dry, s, polls).acts, x) <= Allowed(polls, x)
  {
    hide Polls, Count, TimesDropped, Unlabelled;
    if x.OfReport? {
      PollsReport(dry, s, polls, x.attempt);
      LimitedPay(dry, s, polls, OfLabel(x.attempt));
    } else {
      LimitedPay(dry, s, polls, x);
    }
  }

  /** Starting with empty tables: a pull request that no complete poll misses has each thing
      done at most its limit of times, and a report once more for every lost label. */
  lemma Limits(dry: bool, polls: seq<Poll>, x: Subject)
    requires forall poll <- polls :: !Drops(poll, TagOf(x))
    ensures Count(Polls(dry, EMPTY, polls).acts, x) <= Limit(x) + LostLabels(polls, x)
  {
    hide Polls, Drops, Count, LostLabels;
    PollsPay(dry, EMPTY, polls, x);
    NeverDropped(polls, TagOf(x));
  }

  lemma {:induction false} NeverDropped(polls: seq<Poll>, tag: Tag)
    requires forall poll <- polls :: !Drops(poll, tag)
    ensures TimesDropped(polls, tag) == 0
    decreases |polls|
  {
    hide Drops;
    if polls == [] {
    } else {
      NeverDropped(polls[1..], tag);
    }
  }

  // ---- only with cause -------------------------------------------------------------------------

  ghost predicate SomeRun(pr: Pr, at: Attempt, good: seq<JobRead> -> bool) {
    && pr.runs.Some?
    && exists r <- pr.runs.value ::
         Settled(pr, r) && good(r.info.value.jobs.value) && Concerns(pr, r, at)
  }

  /** The branch lives in the repository, and carries the label or only commits of bots
      beside merges. */
  predicate Rewritable(pr: Pr, commits: seq<Commit>) {
    && pr.sameRepo
    && (pr.rebaseLabel || exists k :: 0 <= k < |commits| && commits[k].parents <= 1)
    && (pr.rebaseLabel || forall k :: 0 <= k < |commits| && commits[k].parents <= 1 ==> commits[k].byBot)
  }

  lemma RewritableIs(pr: Pr, commits: seq<Commit>)
    ensures Rewritable(pr, commits) <==> MayRewrite(pr, commits)
  {
    if k :| 0 <= k < |commits| && commits[k].parents <= 1 {
      assert commits[k] in commits;
    }
  }

  /** The head and the base the read is about. */
  predicate KeyIs(pr: Pr, b: RebaseRead, key: RebaseKey) {
    && key.tag == pr.tag && Abbreviates(key.head, pr.head)
    && b.onto.Some? && Abbreviates(key.onto, b.onto.value)
  }

  lemma KeyOf(pr: Pr, b: RebaseRead, key: RebaseKey)
    ensures KeyIs(pr, b, key) <==> b.onto.Some? && key == RebaseKey(pr.tag, Short(pr.head), Short(b.onto.value))
  {
    ShortIs(pr.head, key.head);
    if b.onto.Some? {
      ShortIs(b.onto.value, key.onto);
    }
  }

  /** The rebase that was read applies cleanly, the head is still the listed one, and the
      branch is the bot's to rewrite. */
  predicate MayPush(pr: Pr, b: RebaseRead, key: RebaseKey) {
    && KeyIs(pr, b, key) && b.current == Some(true) && b.trial.Rebases?
    && b.commits.Some? && Rewritable(pr, b.commits.value)
  }

  predicate Explains(pr: Pr, b: RebaseRead, note: Note) {
    match note
    case ConflictNote => b.trial.Conflicting?
    case NeedsLabel => b.trial.Rebases? && b.commits.Some? && !Rewritable(pr, b.commits.value)
    case DepClosed => Some(ClosedUnmerged) in pr.deps
  }

  /** What must have been read of a pull request before a write to it. */
  ghost predicate Justified(dry: bool, pr: Pr, a: Act) {
    && (dry ==> a.Decided?)
    && match a
       case Rerun(key, n) => SomeRun(pr, Attempt(key, n), AllLost)
       case Decided(at) => SomeRun(pr, at, jobs => true)
       case Cancelled(at) => pr.accepted && SomeRun(pr, at, SomeGenuine)
       case Reported(at) => pr.accepted && SomeRun(pr, at, SomeGenuine)
       case Labelled(at) => pr.accepted && SomeRun(pr, at, SomeGenuine)
       case Commented(key) =>
         key.tag == pr.tag && (Explains(pr, pr.afterDeps, key.note) || Explains(pr, pr.afterConflict, key.note))
       case Pushed(key) => MayPush(pr, pr.afterDeps, key) || MayPush(pr, pr.afterConflict, key)
       case AutoMerge(tag) =>
         && tag == pr.tag && !pr.agentHead && (pr.asksLabel || (pr.asksBody && !pr.declines))
         && pr.deps != [] && forall d <- pr.deps :: d == Some(Merged)
  }

  ghost predicate AllJustified(dry: bool, pr: Pr, acts: seq<Act>) {
    forall a <- acts :: Justified(dry, pr, a)
  }

  lemma SendBackIs(at: Attempt, b: SendBack, a: Act)
    requires a in SendBackActs(at, b).0
    ensures a in [Cancelled(at), Reported(at), Labelled(at)]
  {
  }

  lemma OnlyKinds(pr: Pr, r: RunRead, verdicts: seq<Kind>)
    requires Judged(pr, r, verdicts)
    ensures Held !in verdicts && Genuine !in verdicts ==> AllInfra(verdicts)
  {
    hide Verdicts;
    VerdictsAre(r.info.value.jobs.value);
  }

  lemma DecideJustified(dry: bool, s: State, pr: Pr, r: RunRead, verdicts: seq<Kind>)
    requires pr.runs.Some? && r in pr.runs.value
    requires Judged(pr, r, verdicts)
    ensures AllJustified(dry, pr, Decide(dry, s, pr, AttemptOf(pr, r), verdicts, r.info.value).acts)
  {
    hide SendBackActs, Verdicts, Reruns;
    var at := AttemptOf(pr, r);
    JudgedIs(pr, r);
    OnlyKinds(pr, r, verdicts);
    assert SomeRun(pr, at, jobs => true);
    forall a <- Decide(dry, s, pr, at, verdicts, r.info.value).acts
      ensures Justified(dry, pr, a)
    {
      if a != Decided(at) {
        if Genuine in verdicts {
          SendBackIs(at, r.info.value.back, a);
          assert SomeRun(pr, at, SomeGenuine);
        } else {
          assert SomeRun(pr, at, AllLost);
        }
      }
    }
  }

  lemma CiRunJustified(dry: bool, s: State, pr: Pr, r: RunRead)
    requires pr.runs.Some? && r in pr.runs.value
    ensures AllJustified(dry, pr, CiRun(dry, s, pr, r).acts)
  {
    hide Verdicts, Decide, Justified;
    if Finished(pr, r) && r.info.value.jobs.Some? && Verdicts(r.info.value.jobs.value).Some? {
      var verdicts := Verdicts(r.info.value.jobs.value).value;
      if verdicts != [] {
        DecideJustified(dry, s, pr, r, verdicts);
      }
    }
  }

  lemma {:induction false} CiRunsJustified(dry: bool, s: State, pr: Pr, runs: seq<RunRead>)
    requires pr.runs.Some? && forall r <- runs :: r in pr.runs.value
    ensures AllJustified(dry, pr, CiRuns(dry, s, pr, runs).acts)
    decreases |runs|
  {
    hide CiRun, Justified;
    if runs == [] {
    } else {
      var first := CiRun(dry, s, pr, runs[0]);
      CiRunJustified(dry, s, pr, runs[0]);
      if !first.raised {
        CiRunsJustified(dry, first.state, pr, runs[1..]);
      }
    }
  }

  lemma CiJustified(dry: bool, s: State, pr: Pr)
    ensures AllJustified(dry, pr, Ci(dry, s, pr).acts)
  {
    hide CiRuns, Justified;
    if pr.runs.Some? {
      CiRunsJustified(dry, s, pr, pr.runs.value);
    }
  }

  lemma CommentActs(dry: bool, s: State, key: NoteKey, read: NoteRead, a: Act)
    requires a in CommentOnce(dry, s, key, read).acts
    ensures a == Commented(key) && !dry
  {
  }

  lemma RebaseJustified(dry: bool, s: State, pr: Pr, b: RebaseRead)
    requires b == pr.afterDeps || b == pr.afterConflict
    ensures AllJustified(dry, pr, Rebase(dry, s, pr, b).step.acts)
  {
    hide CommentOnce, MayRewrite, Rewritable, KeyIs;
    forall a <- Rebase(dry, s, pr, b).step.acts
      ensures Justified(dry, pr, a)
    {
      KeyOf(pr, b, RebaseKey(pr.tag, Short(pr.head), Short(b.onto.value)));
      if b.commits.Some? {
        RewritableIs(pr, b.commits.value);
      }
      if b.trial.Conflicting? {
        CommentActs(dry, s, NoteKey(pr.tag, ConflictNote), b.note, a);
      } else if !MayRewrite(pr, b.commits.value) {
        CommentActs(dry, s, NoteKey(pr.tag, NeedsLabel), b.note, a);
      }
    }
  }

  lemma {:induction false} DepStatesAre(deps: seq<Option<DepState>>)
    ensures DepStates(deps).Some? <==> None !in deps
    ensures DepStates(deps).Some? ==> forall d :: d in DepStates(deps).value <==> Some(d) in deps
    decreases |deps|
  {
    if deps == [] {
    } else {
      DepStatesAre(deps[1..]);
      assert deps == [deps[0]] + deps[1..];
    }
  }

  lemma AllMerged(deps: seq<Option<DepState>>)
    ensures (DepStates(deps).Some? && ClosedUnmerged !in DepStates(deps).value && Waiting !in DepStates(deps).value)
       <==> forall d <- deps :: d == Some(Merged)
  {
    hide DepStates;
    DepStatesAre(deps);
    if DepStates(deps).Some? && ClosedUnmerged !in DepStates(deps).value && Waiting !in DepStates(deps).value {
      forall d <- deps
        ensures d == Some(Merged)
      {
        match d {
          case None =>
          case Some(state) =>
            assert state in DepStates(deps).value;
            assert state == Merged || state == ClosedUnmerged || state == Waiting;
        }
      }
    }
  }

  lemma AfterDepsJustified(dry: bool, s: State, pr: Pr)
    requires pr.deps != [] && forall d <- pr.deps :: d == Some(Merged)
    ensures AllJustified(dry, pr, AfterDeps(dry, s, pr).step.acts)
  {
    hide Rebase;
    var r := Rebase(dry, s, pr, pr.afterDeps);
    RebaseJustified(dry, s, pr, pr.afterDeps);
    var t := Schedule(dry, r.step.state, pr);
    assert AllJustified(dry, pr, t.acts);
  }

  lemma DepsJustified(dry: bool, s: State, pr: Pr)
    ensures AllJustified(dry, pr, DepsStep(dry, s, pr).step.acts)
  {
    hide AfterDeps, DepStates, CommentOnce;
    AllMerged(pr.deps);
    DepStatesAre(pr.deps);
    if pr.deps != [] && DepStates(pr.deps).Some? {
      if ClosedUnmerged in DepStates(pr.deps).value {
        forall a <- DepsStep(dry, s, pr).step.acts
          ensures Justified(dry, pr, a)
        {
          CommentActs(dry, s, NoteKey(pr.tag, DepClosed), pr.closedNote, a);
        }
      } else if Waiting !in DepStates(pr.deps).value {
        AfterDepsJustified(dry, s, pr);
      }
    }
  }

  lemma PrJustified(dry: bool, s: State, pr: Pr)
    ensures AllJustified(dry, pr, PrSteps(dry, s, pr).acts)
  {
    hide Ci, DepsStep, Rebase, Justified;
    var ci := Ci(dry, s, pr);
    CiJustified(dry, s, pr);
    var deps := DepsStep(dry, ci.state, pr);
    DepsJustified(dry, ci.state, pr);
    RebaseJustified(dry, deps.step.state, pr, pr.afterConflict);
  }

  lemma {:induction false} AllPrsJustified(dry: bool, s: State, prs: seq<Pr>, a: Act)
    requires a in AllPrs(dry, s, prs).acts
    ensures exists pr <- prs :: Justified(dry, pr, a)
    decreases |prs|
  {
    hide PrSteps, Justified;
    var first := PrSteps(dry, s, prs[0]);
    if a in first.acts {
      PrJustified(dry, s, prs[0]);
      assert Justified(dry, prs[0], a);
    } else {
      AllPrsJustified(dry, first.state, prs[1..], a);
      var pr :| pr in prs[1..] && Justified(dry, pr, a);
      assert pr in prs;
    }
  }

  /** The writes of each poll. */
  function PollActs(dry: bool, s: State, polls: seq<Poll>): seq<seq<Act>>
    decreases |polls|
  {
    if polls == [] then []
    else [Tick(dry, s, polls[0]).acts] + PollActs(dry, Tick(dry, s, polls[0]).state, polls[1..])
  }

  function Flat(parts: seq<seq<Act>>): seq<Act>
    decreases |parts|
  {
    if parts == [] then [] else parts[0] + Flat(parts[1..])
  }

  lemma {:induction false} PollActsAre(dry: bool, s: State, polls: seq<Poll>)
    ensures |PollActs(dry, s, polls)| == |polls|
    ensures Flat(PollActs(dry, s, polls)) == Polls(dry, s, polls).acts
    decreases |polls|
  {
    hide Tick;
    if polls == [] {
    } else {
      var first := Tick(dry, s, polls[0]);
      PollActsAre(dry, first.state, polls[1..]);
      var all := PollActs(dry, s, polls);
      assert all[0] == first.acts && all[1..] == PollActs(dry, first.state, polls[1..]);
    }
  }

  /** Over any polls with any answers, whatever the tables held: every write of a poll was
      justified by what the same poll read of its pull request. */
  lemma {:induction false} OnlyWithCause(dry: bool, s: State, polls: seq<Poll>, i: nat, a: Act)
    requires i < |polls| && |PollActs(dry, s, polls)| == |polls| && a in PollActs(dry, s, polls)[i]
    ensures exists pr :: Names(polls[i], pr) && Justified(dry, pr, a)
    decreases i
  {
    hide AllPrs, Justified, Forget, Complete, Listed;
    var first := Tick(dry, s, polls[0]);
    if i == 0 {
      AllPrsJustified(dry, s, Listed(polls[0].lists), a);
      var pr :| pr in Listed(polls[0].lists) && Justified(dry, pr, a);
      ListedAre(polls[0].lists, pr);
    } else {
      PollActsAre(dry, first.state, polls[1..]);
      OnlyWithCause(dry, first.state, polls[1..], i - 1, a);
    }
  }

  /** Every write of every poll was justified by what the same poll read. */
  ghost predicate Caused(dry: bool, parts: seq<seq<Act>>, polls: seq<Poll>) {
    && |parts| == |polls|
    && forall i, a | 0 <= i < |polls| && a in parts[i] :: exists pr :: Names(polls[i], pr) && Justified(dry, pr, a)
  }

  /** What a bot that starts with empty tables promises over any polls. */
  lemma Promises(dry: bool, polls: seq<Poll>)
    ensures forall x: Subject :: Count(Polls(dry, EMPTY, polls).acts, x) <= Allowed(polls, x)
    ensures Caused(dry, PollActs(dry, EMPTY, polls), polls)
  {
    hide Polls, PollActs, Count, Justified, Allowed;
    forall x: Subject
      ensures Count(Polls(dry, EMPTY, polls).acts, x) <= Allowed(polls, x)
    {
      PollsPay(dry, EMPTY, polls, x);
    }
    PollActsAre(dry, EMPTY, polls);
    forall i: nat, a | i < |polls| && a in PollActs(dry, EMPTY, polls)[i]
      ensures exists pr :: Names(polls[i], pr) && Justified(dry, pr, a)
    {
      OnlyWithCause(dry, EMPTY, polls, i, a);
    }
  }

  // ---- where the rules end -------------------------------------------------------------------------

  /** A pull request with one run, all of whose failures are infrastructure. */
  predicate OnlyInfra(pr: Pr, r: RunRead, at: Attempt) {
    && pr.runs == Some([r])
    && Finished(pr, r) && at == AttemptOf(pr, r)
    && r.info.value.jobs.Some?
    && Verdicts(r.info.value.jobs.value) == Some([Infra])
    && r.info.value.rerun.Returned?
    && pr.deps == [] && !pr.unmergeable
  }

  /** One more rerun, entered in both tables. */
  function OneMore(s: State, at: Attempt): Step {
    Step(s.(reruns := s.reruns[at.run := Reruns(s, at.run) + 1], seen := s.seen[at := Reran]),
         [Rerun(at.run, at.number), Decided(at)], false)
  }

  predicate Open(s: State, at: Attempt) { at !in s.seen && Reruns(s, at.run) < RERUN_MAX }

  lemma InfraRun(s: State, pr: Pr, r: RunRead, at: Attempt)
    requires OnlyInfra(pr, r, at) && Open(s, at)
    ensures CiRun(false, s, pr, r) == OneMore(s, at)
  {
    hide Verdicts, SendBackActs;
    assert [Rerun(at.run, at.number)] + [Decided(at)] == [Rerun(at.run, at.number), Decided(at)];
  }

  lemma InfraSteps(s: State, pr: Pr, r: RunRead, at: Attempt)
    requires OnlyInfra(pr, r, at) && Open(s, at)
    ensures PrSteps(false, s, pr) == OneMore(s, at)
  {
    hide CiRun, Verdicts;
    InfraRun(s, pr, r, at);
    var one := OneMore(s, at);
    assert [r][1..] == [];
    assert one.acts + [] == one.acts;
    assert CiRuns(false, s, pr, [r]) == After(one.acts, CiRuns(false, one.state, pr, []));
    assert CiRuns(false, s, pr, [r]) == one;
    assert PrSteps(false, s, pr) == Step(one.state, one.acts + [] + [], false);
  }

  lemma OneMoreCounts(s: State, at: Attempt)
    ensures Count(OneMore(s, at).acts, OfRun(at.run)) == 1
  {
    CountAppend([Rerun(at.run, at.number)], [Decided(at)], OfRun(at.run));
    assert [Rerun(at.run, at.number)] + [Decided(at)] == OneMore(s, at).acts;
  }

  lemma OnePr(s: State, pr: Pr)
    ensures Tick(false, s, Poll([Some([pr])]))
         == Step(Forget(PrSteps(false, s, pr).state, {pr.tag}), PrSteps(false, s, pr).acts, false)
    ensures !Drops(Poll([Some([pr])]), pr.tag)
  {
    hide PrSteps, Forget;
    assert [Some([pr])][1..] == [];
    assert Listed([Some([pr])]) == [pr];
    assert pr in [pr];
    assert Tags([pr]) == {pr.tag};
    var one := PrSteps(false, s, pr);
    assert [pr][1..] == [];
    assert AllPrs(false, s, [pr]) == After(one.acts, AllPrs(false, one.state, []));
    assert one.acts + [] == one.acts;
  }

  lemma InfraTick(s: State, pr: Pr, r: RunRead, at: Attempt)
    requires OnlyInfra(pr, r, at) && Open(s, at)
    ensures Count(Tick(false, s, Poll([Some([pr])])).acts, OfRun(at.run)) == 1
    ensures Reruns(Tick(false, s, Poll([Some([pr])])).state, at.run) == Reruns(s, at.run) + 1
    ensures forall a: Attempt :: a in Tick(false, s, Poll([Some([pr])])).state.seen ==> a == at || a in s.seen
    ensures !Drops(Poll([Some([pr])]), at.run.tag)
  {
    hide PrSteps, Tick, Drops, Count;
    InfraSteps(s, pr, r, at);
    OnePr(s, pr);
    OneMoreCounts(s, at);
  }

  lemma EmptyTick(s: State, tag: Tag)
    ensures Tick(false, s, Poll([Some([])])).acts == []
    ensures forall x: Subject :: Spent(Tick(false, s, Poll([Some([])])).state, x) == 0
    ensures Drops(Poll([Some([])]), tag)
  {
    var nobody: seq<Pr> := [];
    assert [Some(nobody)][1..] == [] && [Some(nobody)][0].value == [];
    assert Listed([Some(nobody)]) == [];
    forall x: Subject
      ensures Spent(Tick(false, s, Poll([Some([])])).state, x) == 0
    {
      ForgetSpent(s, Tags([]), x);
    }
  }

  lemma PollsCons(s: State, first: Poll, rest: seq<Poll>, x: Subject)
    ensures Count(Polls(false, s, [first] + rest).acts, x)
         == Count(Tick(false, s, first).acts, x) + Count(Polls(false, Tick(false, s, first).state, rest).acts, x)
    ensures TimesDropped([first] + rest, TagOf(x)) == (if Drops(first, TagOf(x)) then 1 else 0)
            + TimesDropped(rest, TagOf(x))
  {
    hide Tick, Drops, Count;
    var polls := [first] + rest;
    assert polls[1..] == rest && polls[0] == first;
    CountAppend(Tick(false, s, first).acts, Polls(false, Tick(false, s, first).state, rest).acts, x);
  }

  /** The poll that sees one pull request, before some others. */
  function Seeing(pr: Pr, rest: seq<Poll>): seq<Poll> { [Poll([Some([pr])])] + rest }

  /** Two polls rerun a run twice, on two attempts. */
  lemma TwoReruns(s: State, pr: Pr, r: RunRead, at: Attempt, pr': Pr, r': RunRead, at': Attempt, rest: seq<Poll>)
    returns (t: State)
    requires OnlyInfra(pr, r, at) && OnlyInfra(pr', r', at') && at.run == at'.run && at != at'
    requires at !in s.seen && at' !in s.seen && Reruns(s, at.run) == 0
    ensures Count(Polls(false, s, Seeing(pr, Seeing(pr', rest))).acts, OfRun(at.run))
         == RERUN_MAX + Count(Polls(false, t, rest).acts, OfRun(at.run))
    ensures TimesDropped(Seeing(pr, Seeing(pr', rest)), at.run.tag) == TimesDropped(rest, at.run.tag)
  {
    hide Tick, Polls, Drops, Count, OnlyInfra, TimesDropped;
    var x := OfRun(at.run);
    var one := Poll([Some([pr])]);
    var two := Poll([Some([pr'])]);
    InfraTick(s, pr, r, at);
    PollsCons(s, one, Seeing(pr', rest), x);
    var u := Tick(false, s, one).state;
    InfraTick(u, pr', r', at');
    PollsCons(u, two, rest, x);
    t := Tick(false, u, two).state;
  }

  /** The bound of the run theorem is reached: one complete poll without the pull request
      and its run is rerun twice as often. */
  lemma DroppedRunsAgain(pr: Pr, r: RunRead, at: Attempt, pr': Pr, r': RunRead, at': Attempt)
    requires OnlyInfra(pr, r, at) && OnlyInfra(pr', r', at') && at.run == at'.run && at != at'
    ensures exists polls ::
              TimesDropped(polls, at.run.tag) == 1
                  && Count(Polls(false, EMPTY, polls).acts, OfRun(at.run)) == 2 * RERUN_MAX
  {
    hide Tick, Drops, Count, OnlyInfra;
    var x := OfRun(at.run);
    var gone := Poll([Some([])]);
    var again := Seeing(pr, Seeing(pr', []));
    var polls := Seeing(pr, Seeing(pr', [gone] + again));
    var t := TwoReruns(EMPTY, pr, r, at, pr', r', at', [gone] + again);
    EmptyTick(t, at.run.tag);
    PollsCons(t, gone, again, x);
    var u := Tick(false, t, gone).state;
    assert Spent(u, x) == 0 && Spent(u, OfAttempt(at)) == 0 && Spent(u, OfAttempt(at')) == 0;
    var v := TwoReruns(u, pr, r, at, pr', r', at', []);
    NoActs(x);
  }

  // ---- runs in which the bounds are reached -----------------------------------------------

  const AGAIN := RebaseRead(None, None, TrialBroken, None, Broken, NoteRead(None, Broken))

  /** An open, accepted, mergeable pull request without dependencies, and its one run. */
  function Only(r: RunRead): Pr {
    Pr("repo#1", "head", true, false, false, false, false, true, false, false, Some([r]), [], NoteRead(None, Broken),
       AGAIN, Broken, AGAIN)
  }

  function RunOf(attempt: nat, job: JobRead, status: Reply): RunRead {
    RunRead(7, Some(RunInfo(true, "head", attempt, Some([job]), Returned, SendBack(Absent, Returned, status))))
  }

  /** A job that died before its first step, and one whose only step failed. */
  const DEAD := JobRead(Job([], None, false), true, Found)

  const BROKEN := JobRead(Job([JobStep(1, Failure, false, false)], None, false), true, Found)

  const RUN := RunKey("repo#1", 7, "head")

  lemma DeadIsInfra()
    ensures Verdicts([DEAD]) == Some([Infra])
  {
    var jobs := [DEAD];
    assert jobs[1..] == [] && [Infra] + [] == [Infra];
    assert Verdict(DEAD) == Some(Infra);
    assert Verdicts(jobs[1..]) == Some([]);
    assert Verdicts(jobs) == Some([Infra] + []);
  }

  lemma BrokenIsGenuine()
    ensures Verdicts([BROKEN]) == Some([Genuine])
  {
    var jobs := [BROKEN];
    assert jobs[1..] == [] && [Genuine] + [] == [Genuine];
    var steps := BROKEN.job.steps;
    assert FirstFailed(steps) == Some(steps[0]);
    assert Verdict(BROKEN) == Some(Genuine);
    assert Verdicts(jobs[1..]) == Some([]);
    assert Verdicts(jobs) == Some([Genuine] + []);
  }

  /** One complete poll without a pull request, and its run was rerun four times. */
  lemma RerunFourTimes()
    ensures exists polls :: TimesDropped(polls, RUN.tag) == 1 && Count(Polls(false, EMPTY, polls).acts, OfRun(RUN)) == 4
  {
    hide Verdicts, Polls, Count, TimesDropped;
    DeadIsInfra();
    var one := RunOf(1, DEAD, Returned);
    var two := RunOf(2, DEAD, Returned);
    DroppedRunsAgain(Only(one), one, Attempt(RUN, 1), Only(two), two, Attempt(RUN, 2));
  }

  const SENT := Attempt(RUN, 1)

  /** The poll that reads the real failure, with this answer to the label write. */
  function Failing(status: Reply): Poll { Poll([Some([Only(RunOf(1, BROKEN, status))])]) }

  /** So many polls that lose the label, then one that does not. */
  function Losing(n: nat): seq<Poll> {
    if n == 0 then [Failing(Returned)] else [Failing(Broken)] + Losing(n - 1)
  }

  lemma FailingRun(s: State, status: Reply)
    requires SENT !in s.seen
    ensures var r := RunOf(1, BROKEN, status);
            CiRun(false, s, Only(r), r) == if status.Returned?
                then Settle(s, SENT, SentBack, [Reported(SENT), Labelled(SENT)])
                                           else Step(s, [Reported(SENT)], true)
    ensures LeavesUnlabelled(Only(RunOf(1, BROKEN, status)), RunOf(1, BROKEN, status), SENT) <==> !status.Returned?
  {
    hide Verdicts, Settle, Settled, SomeGenuine;
    BrokenIsGenuine();
    JudgedIs(Only(RunOf(1, BROKEN, status)), RunOf(1, BROKEN, status));
    assert Judged(Only(RunOf(1, BROKEN, status)), RunOf(1, BROKEN, status), [Genuine]);
    assert [] + [Reported(SENT)] == [Reported(SENT)];
    assert [] + [Reported(SENT), Labelled(SENT)] == [Reported(SENT), Labelled(SENT)];
  }

  lemma FailingSteps(s: State, status: Reply)
    requires SENT !in s.seen
    ensures var pr := Only(RunOf(1, BROKEN, status));
            && Count(PrSteps(false, s, pr).acts, OfReport(SENT)) == 1
            && (SENT in PrSteps(false, s, pr).state.seen <==> status.Returned?)
            && UnlabelledIn(pr, SENT) == if status.Returned? then 0 else 1
  {
    hide CiRun, Verdicts, Count, LeavesUnlabelled;
    var r := RunOf(1, BROKEN, status);
    FailingRun(s, status);
    FailingCounts(s);
    assert [r][1..] == [];
    var one := CiRun(false, s, Only(r), r);
    assert one.acts + [] == one.acts;
    assert UnlabelledRuns(Only(r), [], SENT) == 0;
    assert CiRuns(false, one.state, Only(r), []) == Step(one.state, [], false);
    assert CiRuns(false, s, Only(r), [r]) == one;
    assert PrSteps(false, s, Only(r)).acts == one.acts + [] + [];
  }

  lemma FailingCounts(s: State)
    ensures Count([Reported(SENT)], OfReport(SENT)) == 1
    ensures Count(Settle(s, SENT, SentBack, [Reported(SENT), Labelled(SENT)]).acts, OfReport(SENT)) == 1
  {
    CountAppend([Reported(SENT)], [Labelled(SENT)], OfReport(SENT));
    assert [Reported(SENT)] + [Labelled(SENT)] == [Reported(SENT), Labelled(SENT)];
    SettleReports(s, SENT, SentBack, [Reported(SENT), Labelled(SENT)], OfReport(SENT));
  }

  lemma FailingTick(s: State, status: Reply)
    requires SENT !in s.seen
    ensures var poll := Failing(status);
            && Count(Tick(false, s, poll).acts, OfReport(SENT)) == 1
            && (SENT in Tick(false, s, poll).state.seen <==> status.Returned?)
            && UnlabelledPrs(Listed(poll.lists), SENT) == (if status.Returned? then 0 else 1)
            && !Drops(poll, RUN.tag)
  {
    hide PrSteps, Tick, Drops, Count, UnlabelledIn;
    var pr := Only(RunOf(1, BROKEN, status));
    FailingSteps(s, status);
    OnePr(s, pr);
    assert [Some([pr])][1..] == [] && [pr][1..] == [];
    assert Listed([Some([pr])]) == [pr];
    assert UnlabelledPrs([], SENT) == 0;
  }

  /** The bound on reports is reached for every number of lost labels: so many polls whose
      label write fails, each after its report, and one more report with its label. */
  lemma {:induction false} ReportRepeats(s: State, n: nat)
    requires SENT !in s.seen
    ensures Count(Polls(false, s, Losing(n)).acts, OfReport(SENT)) == 1 + n
    ensures Unlabelled(Losing(n), SENT) == n && TimesDropped(Losing(n), RUN.tag) == 0
    decreases n
  {
    hide Tick, Drops, Count, Failing, UnlabelledPrs, Listed;
    var x := OfReport(SENT);
    if n == 0 {
      FailingTick(s, Returned);
      PollsCons(s, Failing(Returned), [], x);
      UnlabelledCons(Failing(Returned), []);
      assert [Failing(Returned)] + [] == [Failing(Returned)];
      NoActs(x);
    } else {
      FailingTick(s, Broken);
      PollsCons(s, Failing(Broken), Losing(n - 1), x);
      UnlabelledCons(Failing(Broken), Losing(n - 1));
      ReportRepeats(Tick(false, s, Failing(Broken)).state, n - 1);
    }
  }

  lemma UnlabelledCons(first: Poll, rest: seq<Poll>)
    ensures Unlabelled([first] + rest, SENT) == UnlabelledPrs(Listed(first.lists), SENT) + Unlabelled(rest, SENT)
  {
    assert ([first] + rest)[1..] == rest;
  }

  /** In particular two polls, the first of which loses the label, report one attempt twice. */
  lemma ReportedTwice()
    ensures Count(Polls(false, EMPTY, [Failing(Broken), Failing(Returned)]).acts, OfReport(SENT)) == 2
  {
    hide Polls, Count, Failing;
    var one: nat := 1;
    ReportRepeats(EMPTY, one);
    assert Losing(one) == [Failing(Broken)] + Losing(one - 1);
    assert [Failing(Broken)] + [Failing(Returned)] == [Failing(Broken), Failing(Returned)];
  }
}
