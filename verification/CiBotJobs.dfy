// When a failed job counts as held, as lost to infrastructure, and as a failure of the
// change (scripts/ci-bot.py, 98-125): stated by its steps, its duration and its log.
module CiBotJobs {
  import opened Results
  import opened CiBotSpec

  // ---- the shapes of a failed job -------------------------------------------------------

  /** Step i failed, and none before it. */
  predicate FirstFails(steps: seq<JobStep>, i: int) {
    0 <= i < |steps| && steps[i].conclusion == Failure && forall k :: 0 <= k < i ==> steps[k].conclusion != Failure
  }

  predicate NoneFails(steps: seq<JobStep>) { forall k :: 0 <= k < |steps| ==> steps[k].conclusion != Failure }

  /** It stopped at the step that waits for a human. */
  ghost predicate StopsAtHold(job: Job) {
    exists i :: FirstFails(job.steps, i) && job.steps[i].hold
  }

  /** It never got to its steps: none failed, and the first did not succeed. */
  predicate NeverStarted(job: Job) {
    NoneFails(job.steps) && (job.steps == [] || job.steps[0].conclusion != Success)
  }

  /** The runner lost it: more than one step, and all of them failed. */
  predicate LostByRunner(job: Job) {
    |job.steps| > 1 && forall k :: 0 <= k < |job.steps| ==> job.steps[k].conclusion == Failure
  }

  /** It took less than five minutes, or ended in the server's sweep. */
  predicate Brief(job: Job) { job.zombie || (job.seconds.Some? && job.seconds.value < 300.0) }

  /** Setting up failed early, after steps that all went well or were skipped. */
  ghost predicate DiedInEarlySetup(job: Job) {
    exists i :: FirstFails(job.steps, i) && job.steps[i].setup && Brief(job)
      && forall k :: 0 <= k < |job.steps| && job.steps[k].number < job.steps[i].number ==>
           job.steps[k].conclusion == Success || job.steps[k].conclusion == Skipped
  }

  /** What its steps alone show to be infrastructure. */
  ghost predicate Lost(job: Job) { NeverStarted(job) || LostByRunner(job) || DiedInEarlySetup(job) }

  ghost predicate IsHeld(j: JobRead) { StopsAtHold(j.job) }

  ghost predicate IsInfra(j: JobRead) { !StopsAtHold(j.job) && (Lost(j.job) || j.logs == NotFound) }

  /** It has a log and none of the shapes. */
  ghost predicate IsGenuine(j: JobRead) { !StopsAtHold(j.job) && !Lost(j.job) && j.logs == Found }

  /** Only its log could tell, and the log could not be read. */
  ghost predicate IsUnread(j: JobRead) { !StopsAtHold(j.job) && !Lost(j.job) && j.logs == Unreadable }

  // ---- the verdicts say which -----------------------------------------------------------------

  lemma {:induction false} FirstFailedIs(steps: seq<JobStep>) returns (i: int)
    ensures FirstFailed(steps).None? <==> NoneFails(steps)
    ensures FirstFailed(steps).Some? ==> FirstFails(steps, i) && steps[i] == FirstFailed(steps).value
    decreases |steps|
  {
    i := -1;
    if steps == [] {
    } else if steps[0].conclusion.Failure? {
      i := 0;
      assert FirstFails(steps, 0);
    } else {
      var rest := steps[1..];
      i := FirstFailedIs(rest);
      i := i + 1;
      assert forall k :: 0 <= k < |rest| ==> rest[k] == steps[k + 1];
      assert forall k :: 1 <= k < |steps| ==> steps[k] == rest[k - 1];
    }
  }

  lemma OneFirst(steps: seq<JobStep>, i: int, k: int)
    requires FirstFails(steps, i) && FirstFails(steps, k)
    ensures i == k
  {
  }

  /** The shapes in terms of the first failed step, where there is one. */
  lemma ShapesAt(job: Job)
    ensures FirstFailed(job.steps).None? ==> !StopsAtHold(job) && !DiedInEarlySetup(job) && NoneFails(job.steps)
    ensures FirstFailed(job.steps).Some? ==>
      var first := FirstFailed(job.steps).value;
      && (StopsAtHold(job) <==> first.hold)
      && (DiedInEarlySetup(job) <==> DiedInSetup(job, first))
      && !NoneFails(job.steps)
    ensures LostByRunner(job) <==> |job.steps| > 1 && AllFailed(job.steps)
  {
    var i := FirstFailedIs(job.steps);
    if FirstFailed(job.steps).Some? {
      forall k | FirstFails(job.steps, k)
        ensures k == i
      {
        OneFirst(job.steps, i, k);
      }
      CleanIs(job.steps, job.steps[i]);
    }
  }

  lemma CleanIs(steps: seq<JobStep>, first: JobStep)
    ensures CleanBefore(steps, first)
       <==> forall k :: 0 <= k < |steps| && steps[k].number < first.number ==>
              steps[k].conclusion == Success || steps[k].conclusion == Skipped
  {
  }

  /** A job is judged by its shape: held, infrastructure, genuine, or not at all for want of its log. */
  lemma VerdictIs(j: JobRead)
    ensures Verdict(j) == Some(Held) <==> IsHeld(j)
    ensures Verdict(j) == Some(Infra) <==> IsInfra(j)
    ensures Verdict(j) == Some(Genuine) <==> IsGenuine(j)
    ensures Verdict(j) == None <==> IsUnread(j)
    ensures Verdict(j) != Some(AskLogs)
  {
    hide FirstFailed, AllFailed, DiedInSetup, StopsAtHold, DiedInEarlySetup, LostByRunner, NoneFails;
    ShapesAt(j.job);
  }

  /** So are the failed jobs of a run: some log is missing, or each verdict is that of a job. */
  lemma {:induction false} VerdictsAre(jobs: seq<JobRead>)
    ensures Verdicts(jobs) == None <==> exists j <- jobs :: j.failed && IsUnread(j)
    ensures Verdicts(jobs).Some? ==>
      && (Held in Verdicts(jobs).value <==> exists j <- jobs :: j.failed && IsHeld(j))
      && (Infra in Verdicts(jobs).value <==> exists j <- jobs :: j.failed && IsInfra(j))
      && (Genuine in Verdicts(jobs).value <==> exists j <- jobs :: j.failed && IsGenuine(j))
      && AskLogs !in Verdicts(jobs).value
      && (Verdicts(jobs).value == [] <==> forall j <- jobs :: !j.failed)
    decreases |jobs|
  {
    hide IsHeld, IsInfra, IsGenuine, IsUnread, Verdict;
    if jobs == [] {
    } else {
      var rest := jobs[1..];
      VerdictsAre(rest);
      VerdictIs(jobs[0]);
      assert jobs[0] in jobs && forall j :: j in jobs <==> j == jobs[0] || j in rest;
    }
  }
}
