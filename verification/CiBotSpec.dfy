// The rules of scripts/ci-bot.py as one function per step: what a poll does to the
// bot's five state tables and which writes reach the server, for arbitrary answers of
// the server and of git. CiBot.dfy proves the bot's methods against these functions.
module CiBotSpec {
  import opened Results

  const RERUN_MAX: nat := 2
  const INFRA_MAX_SECONDS := 300.0

  type Sha = string

  type Tag = string

  // ---- what one poll reads --------------------------------------------------------

  datatype Conclusion = Success | Failure | Skipped | Other

  /** One step of a job: `hold` and `setup` say whether its name is the hold step's or a setup step's. */
  datatype JobStep = JobStep(number: nat, conclusion: Conclusion, hold: bool, setup: bool)

  /** A job, its steps in the order of their numbers. */
  datatype Job = Job(steps: seq<JobStep>, seconds: Option<real>, zombie: bool)

  datatype Logs = Found | NotFound | Unreadable

  datatype JobRead = JobRead(job: Job, failed: bool, logs: Logs)

  /** How a write ended: it returned, or it raised with status 404, 409 or anything else. */
  datatype Reply = Returned | Absent | Scheduled | Broken

  datatype SendBack = SendBack(cancel: Reply, report: Reply, status: Reply)

  datatype RunInfo = RunInfo(completed: bool, head: Sha, attempt: nat, jobs: Option<seq<JobRead>>, rerun: Reply,
      back: SendBack)

  /** A run behind a failing status; None when reading it raised. */
  datatype RunRead = RunRead(id: nat, info: Option<RunInfo>)

  datatype DepState = Merged | ClosedUnmerged | Waiting

  datatype Trial = UpToDate | Conflicting | Rebases | TrialBroken

  datatype Commit = Commit(parents: nat, byBot: bool)

  datatype NoteRead = NoteRead(marked: Option<bool>, post: Reply)

  datatype RebaseRead = RebaseRead(onto: Option<Sha>, current: Option<bool>, trial: Trial,
                                   commits: Option<seq<Commit>>, push: Reply, note: NoteRead)

  /** Everything a poll reads about one open pull request; None where the read raised. */
  datatype Pr = Pr(tag: Tag, head: Sha, accepted: bool, agentHead: bool, asksLabel: bool, asksBody: bool,
      declines: bool,
                   sameRepo: bool, rebaseLabel: bool, unmergeable: bool, runs: Option<seq<RunRead>>,
                   deps: seq<Option<DepState>>, closedNote: NoteRead, afterDeps: RebaseRead, merge: Reply,
                   afterConflict: RebaseRead)

  /** One list per repository; None when listing it raised. */
  datatype Poll = Poll(lists: seq<Option<seq<Pr>>>)

  // ---- what the bot remembers and does -----------------------------------------------

  datatype RunKey = RunKey(tag: Tag, run: nat, head: Sha)

  datatype Attempt = Attempt(run: RunKey, number: nat)

  datatype RebaseKey = RebaseKey(tag: Tag, head: Sha, onto: Sha)

  datatype Note = ConflictNote | NeedsLabel | DepClosed

  datatype NoteKey = NoteKey(tag: Tag, note: Note)

  datatype Decision = LeftHeld | LeftFailing | SentBack | Exhausted | Reran

  datatype Outcome = WasPushed | Dry | WasUpToDate | Conflicts | Denied | Moved

  datatype State = State(reruns: map<RunKey, nat>, seen: map<Attempt, Decision>, rebased: map<RebaseKey, Outcome>,
                         commented: map<NoteKey, bool>, automerge: map<Tag, bool>)

  const EMPTY := State(map[], map[], map[], map[], map[])

  datatype Act =
    | Rerun(run: RunKey, attempt: nat)
    | Decided(attemptOf: Attempt)
    | Cancelled(attemptOf: Attempt)
    | Reported(attemptOf: Attempt)
    | Labelled(attemptOf: Attempt)
    | Commented(key: NoteKey)
    | Pushed(branch: RebaseKey)
    | AutoMerge(tag: Tag)

  /** The end of a step: the tables, what was done, and whether it raised. */
  datatype Step = Step(state: State, acts: seq<Act>, raised: bool)

  /** The end of a rebase or of a step that may rebase. */
  datatype Rebased = Rebased(step: Step, outcome: Outcome)

  function Short(sha: Sha): Sha { if |sha| > 12 then sha[..12] else sha }

  // ---- rule 1 and 4: continuous integration ----------------------------------------------

  datatype Kind = Held | Infra | Genuine | AskLogs

  function FirstFailed(steps: seq<JobStep>): Option<JobStep>
    decreases |steps|
  {
    if steps == [] then None
    else if steps[0].conclusion.Failure? then Some(steps[0])
    else FirstFailed(steps[1..])
  }

  predicate AllFailed(steps: seq<JobStep>) { forall s <- steps :: s.conclusion.Failure? }

  predicate CleanBefore(steps: seq<JobStep>, first: JobStep) {
    forall s <- steps :: s.number < first.number ==> s.conclusion.Success? || s.conclusion.Skipped?
  }

  predicate DiedInSetup(job: Job, first: JobStep) {
    && first.setup
    && CleanBefore(job.steps, first)
    && ((job.seconds.Some? && job.seconds.value < INFRA_MAX_SECONDS) || job.zombie)
  }

  function Classify(job: Job, logsFound: Option<bool>): Kind {
    var first := FirstFailed(job.steps);
    if first.Some? && first.value.hold then Held
    else if first.None? && (job.steps == [] || !job.steps[0].conclusion.Success?) then Infra
    else if |job.steps| > 1 && AllFailed(job.steps) then Infra
    else if first.Some? && DiedInSetup(job, first.value) then Infra
    else if logsFound.None? then AskLogs
    else if !logsFound.value then Infra
    else Genuine
  }

  /** The verdict on one job, looking its log up only when the job itself does not settle it. */
  function Verdict(j: JobRead): Option<Kind> {
    var kind := Classify(j.job, None);
    if !kind.AskLogs? then Some(kind)
    else if j.logs.Unreadable? then None
    else Some(Classify(j.job, Some(j.logs.Found?)))
  }

  /** The verdicts on the failed jobs, in order; None when a log could not be read. */
  function Verdicts(jobs: seq<JobRead>): Option<seq<Kind>>
    decreases |jobs|
  {
    if jobs == [] then Some([])
    else if !jobs[0].failed then Verdicts(jobs[1..])
    else
      match Verdict(jobs[0])
      case None => None
      case Some(kind) =>
        match Verdicts(jobs[1..])
        case None => None
        case Some(rest) => Some([kind] + rest)
  }

  function Reruns(s: State, key: RunKey): nat { if key in s.reruns then s.reruns[key] else 0 }

  function Settle(s: State, at: Attempt, d: Decision, acts: seq<Act>): Step {
    Step(s.(seen := s.seen[at := d]), acts + [Decided(at)], false)
  }

  /** Cancel the auto-merge, post the report, and only then the label; the first raise stops it. */
  function SendBackActs(at: Attempt, b: SendBack): (seq<Act>, bool) {
    if !b.cancel.Returned? && !b.cancel.Absent? then ([], true)
    else
      var cancelled := if b.cancel.Returned? then [Cancelled(at)] else [];
      if !b.report.Returned? then (cancelled, true)
      else if !b.status.Returned? then (cancelled + [Reported(at)], true)
      else (cancelled + [Reported(at), Labelled(at)], false)
  }

  function Decide(dry: bool, s: State, pr: Pr, at: Attempt, verdicts: seq<Kind>, info: RunInfo): Step {
    if Held in verdicts then Settle(s, at, LeftHeld, [])
    else if Genuine in verdicts then
      if !pr.accepted then Settle(s, at, LeftFailing, [])
      else if dry then Settle(s, at, SentBack, [])
      else
        var (acts, raised) := SendBackActs(at, info.back);
        if raised then Step(s, acts, true) else Settle(s, at, SentBack, acts)
    else if Reruns(s, at.run) >= RERUN_MAX then Settle(s, at, Exhausted, [])
    else if !dry && !info.rerun.Returned? then Step(s, [], true)
    else
      var spent := s.(reruns := s.reruns[at.run := Reruns(s, at.run) + 1]);
      Settle(spent, at, Reran, if dry then [] else [Rerun(at.run, at.number)])
  }

  function AttemptOf(pr: Pr, r: RunRead): Attempt
    requires r.info.Some?
  {
    Attempt(RunKey(pr.tag, r.id, Short(pr.head)), r.info.value.attempt)
  }

  /** A completed run of the pull request's present head. */
  predicate Finished(pr: Pr, r: RunRead) {
    r.info.Some? && r.info.value.completed && r.info.value.head == pr.head
  }

  function CiRun(dry: bool, s: State, pr: Pr, r: RunRead): Step {
    if r.info.None? then Step(s, [], true)
    else if !Finished(pr, r) || AttemptOf(pr, r) in s.seen then Step(s, [], false)
    else if r.info.value.jobs.None? then Step(s, [], true)
    else
      match Verdicts(r.info.value.jobs.value)
      case None => Step(s, [], true)
      case Some(verdicts) =>
        if verdicts == [] then Step(s, [], false)
        else Decide(dry, s, pr, AttemptOf(pr, r), verdicts, r.info.value)
  }

  function After(acts: seq<Act>, next: Step): Step { next.(acts := acts + next.acts) }

  function CiRuns(dry: bool, s: State, pr: Pr, runs: seq<RunRead>): Step
    decreases |runs|
  {
    if runs == [] then Step(s, [], false)
    else
      var first := CiRun(dry, s, pr, runs[0]);
      if first.raised then first
      else After(first.acts, CiRuns(dry, first.state, pr, runs[1..]))
  }

  function Ci(dry: bool, s: State, pr: Pr): Step {
    if pr.runs.None? then Step(s, [], true) else CiRuns(dry, s, pr, pr.runs.value)
  }

  // ---- comments and rebases -----------------------------------------------------------------

  function CommentOnce(dry: bool, s: State, key: NoteKey, read: NoteRead): Step {
    if key in s.commented then Step(s, [], false)
    else if read.marked.None? then Step(s, [], true)
    else if read.marked.value || dry then Step(s.(commented := s.commented[key := true]), [], false)
    else if !read.post.Returned? then Step(s, [], true)
    else Step(s.(commented := s.commented[key := true]), [Commented(key)], false)
  }

  predicate MayRewrite(pr: Pr, commits: seq<Commit>) {
    && pr.sameRepo
    && (pr.rebaseLabel || ((exists c <- commits :: c.parents < 2) && forall c <- commits :: c.parents < 2 ==> c.byBot))
  }

  function Record(step: Step, key: RebaseKey, out: Outcome): Rebased {
    if step.raised then Rebased(step, out)
    else Rebased(step.(state := step.state.(rebased := step.state.rebased[key := out])), out)
  }

  function TrialOf(dry: bool, s: State, pr: Pr, b: RebaseRead, key: RebaseKey): Rebased {
    match b.trial
    case TrialBroken => Rebased(Step(s, [], true), Moved)
    case UpToDate => Record(Step(s, [], false), key, WasUpToDate)
    case Conflicting => Record(CommentOnce(dry, s, NoteKey(pr.tag, ConflictNote), b.note), key, Conflicts)
    case Rebases =>
      if b.commits.None? then Rebased(Step(s, [], true), Moved)
      else if !MayRewrite(pr, b.commits.value) then
        Record(CommentOnce(dry, s, NoteKey(pr.tag, NeedsLabel), b.note), key, Denied)
      else if dry then Record(Step(s, [], false), key, Dry)
      else if !b.push.Returned? then Rebased(Step(s, [], true), Moved)
      else Record(Step(s, [Pushed(key)], false), key, WasPushed)
  }

  function Rebase(dry: bool, s: State, pr: Pr, b: RebaseRead): Rebased {
    if b.onto.None? then Rebased(Step(s, [], true), Moved)
    else
      var key := RebaseKey(pr.tag, Short(pr.head), Short(b.onto.value));
      if key in s.rebased then Rebased(Step(s, [], false), s.rebased[key])
      else if b.current.None? then Rebased(Step(s, [], true), Moved)
      else if !b.current.value then Rebased(Step(s, [], false), Moved)
      else TrialOf(dry, s, pr, b, key)
  }

  function ConflictStep(dry: bool, s: State, pr: Pr): Rebased {
    if pr.unmergeable then Rebase(dry, s, pr, pr.afterConflict) else Rebased(Step(s, [], false), Moved)
  }

  // ---- dependent merges ------------------------------------------------------------------------

  /** The states read for the dependencies; None when one read raised. */
  function DepStates(deps: seq<Option<DepState>>): Option<seq<DepState>>
    decreases |deps|
  {
    if deps == [] then Some([])
    else if deps[0].None? then None
    else
      match DepStates(deps[1..])
      case None => None
      case Some(rest) => Some([deps[0].value] + rest)
  }

  predicate WantsAutomerge(pr: Pr) {
    !pr.agentHead && (pr.asksLabel || (pr.asksBody && !pr.declines))
  }

  function Schedule(dry: bool, s: State, pr: Pr): Step {
    if !WantsAutomerge(pr) then Step(s.(automerge := s.automerge[pr.tag := false]), [], false)
    else if !dry && !pr.merge.Returned? && !pr.merge.Scheduled? then Step(s, [], true)
    else
      Step(s.(automerge := s.automerge[pr.tag := true]), if !dry
          && pr.merge.Returned? then [AutoMerge(pr.tag)] else [], false)
  }

  function AfterDeps(dry: bool, s: State, pr: Pr): Rebased {
    var r := Rebase(dry, s, pr, pr.afterDeps);
    if r.step.raised || r.outcome.WasPushed? || r.outcome.Conflicts? || r.outcome.Moved? then r
    else Rebased(After(r.step.acts, Schedule(dry, r.step.state, pr)), r.outcome)
  }

  function DepsStep(dry: bool, s: State, pr: Pr): Rebased {
    if pr.deps == [] then Rebased(Step(s, [], false), Moved)
    else
      match DepStates(pr.deps)
      case None => Rebased(Step(s, [], true), Moved)
      case Some(states) =>
        if ClosedUnmerged in states then
          Rebased(CommentOnce(dry, s, NoteKey(pr.tag, DepClosed), pr.closedNote), Moved)
        else if Waiting in states || pr.tag in s.automerge then Rebased(Step(s, [], false), Moved)
        else AfterDeps(dry, s, pr)
  }

  // ---- a poll -------------------------------------------------------------------------------------

  /** The three steps for one pull request: a raise ends only its own step, a push ends all. */
  function PrSteps(dry: bool, s: State, pr: Pr): Step {
    var ci := Ci(dry, s, pr);
    var deps := DepsStep(dry, ci.state, pr);
    var so := ci.acts + deps.step.acts;
    if !deps.step.raised && deps.outcome.WasPushed? then Step(deps.step.state, so, false)
    else
      var last := ConflictStep(dry, deps.step.state, pr).step;
      Step(last.state, so + last.acts, false)
  }

  function AllPrs(dry: bool, s: State, prs: seq<Pr>): Step
    decreases |prs|
  {
    if prs == [] then Step(s, [], false)
    else
      var first := PrSteps(dry, s, prs[0]);
      After(first.acts, AllPrs(dry, first.state, prs[1..]))
  }

  /** The pull requests of every list that could be read, in order. */
  function Listed(lists: seq<Option<seq<Pr>>>): seq<Pr>
    decreases |lists|
  {
    if lists == [] then []
    else (if lists[0].Some? then lists[0].value else []) + Listed(lists[1..])
  }

  predicate Complete(poll: Poll) { forall l <- poll.lists :: l.Some? }

  function Tags(prs: seq<Pr>): set<Tag> { set pr <- prs :: pr.tag }

  /** Only the entries of the given pull requests. */
  function Forget(s: State, tags: set<Tag>): State {
    State(map k <- s.reruns | k.tag in tags :: s.reruns[k],
          map k <- s.seen | k.run.tag in tags :: s.seen[k],
          map k <- s.rebased | k.tag in tags :: s.rebased[k],
          map k <- s.commented | k.tag in tags :: s.commented[k],
          map k <- s.automerge | k in tags :: s.automerge[k])
  }

  function Tick(dry: bool, s: State, poll: Poll): Step {
    var prs := Listed(poll.lists);
    var all := AllPrs(dry, s, prs);
    Step(if Complete(poll) then Forget(all.state, Tags(prs)) else all.state, all.acts, false)
  }

  function Polls(dry: bool, s: State, polls: seq<Poll>): Step
    decreases |polls|
  {
    if polls == [] then Step(s, [], false)
    else
      var first := Tick(dry, s, polls[0]);
      After(first.acts, Polls(dry, first.state, polls[1..]))
  }
}
