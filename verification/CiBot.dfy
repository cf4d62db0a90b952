// The bot of scripts/ci-bot.py: an object whose methods update its five tables and
// write to the server, each proved against its rule in CiBotSpec.dfy. The writes that
// took effect are kept in a ghost history.
module CiBot {
  import opened Results
  import opened CiBotSpec
  import opened CiBotRules

  class Bot {
    const dry: bool
    var reruns: map<RunKey, nat>
    var seen: map<Attempt, Decision>
    var rebased: map<RebaseKey, Outcome>
    var commented: map<NoteKey, bool>
    var automerge: map<Tag, bool>
    ghost var history: seq<Act>

    ghost function Tables(): State
      reads this
    {
      State(reruns, seen, rebased, commented, automerge)
    }

    /** From the tables and history at its start, the method did exactly this step. */
    ghost predicate Did(before: seq<Act>, step: Step, raised: bool)
      reads this
    {
      && Tables() == step.state
      && history == before + step.acts
      && raised == step.raised
    }

    constructor (dry: bool)
      ensures this.dry == dry && Tables() == EMPTY && history == []
    {
      this.dry := dry;
      reruns, seen, rebased, commented, automerge := map[], map[], map[], map[], map[];
      history := [];
    }

    ghost method Write(a: Act)
      modifies this`history
      ensures history == old(history) + [a]
    {
      history := history + [a];
    }

    // ---- continuous integration ----------------------------------------------------

    /** The verdicts on the failed jobs; raises at the first log that cannot be read. */
    method Judge(jobs: seq<JobRead>) returns (verdicts: seq<Kind>, raised: bool)
      ensures Verdicts(jobs) == if raised then None else Some(verdicts)
    {
      hide Verdict;
      verdicts := [];
      assert jobs[0..] == jobs;
      BehindNone(Verdicts(jobs));
      for i := 0 to |jobs|
        invariant Verdicts(jobs) == Behind(verdicts, Verdicts(jobs[i..]))
      {
        assert jobs[i..][1..] == jobs[i + 1..];
        if jobs[i].failed {
          var kind := Verdict(jobs[i]);
          if kind.None? {
            return verdicts, true;
          }
          BehindOne(verdicts, kind.value, Verdicts(jobs[i + 1..]));
          verdicts := verdicts + [kind.value];
        }
      }
      raised := false;
      assert verdicts + [] == verdicts;
    }

    method SendBackPr(at: Attempt, b: SendBack) returns (raised: bool)
      modifies this`history
      ensures !dry ==> history == old(history) + SendBackActs(at, b).0 && raised == SendBackActs(at, b).1
      ensures dry ==> history == old(history) && !raised
    {
      if dry {
        return false;
      }
      if !b.cancel.Returned? && !b.cancel.Absent? {
        return true;
      }
      if b.cancel.Returned? {
        Write(Cancelled(at));
      }
      if !b.report.Returned? {
        return true;
      }
      Write(Reported(at));
      if !b.status.Returned? {
        return true;
      }
      Write(Labelled(at));
      assert [Reported(at)] + [Labelled(at)] == [Reported(at), Labelled(at)];
      raised := false;
    }

    /** The decision on one attempt, with the writes it takes; the first raise stops it. */
    method Choose(pr: Pr, at: Attempt, verdicts: seq<Kind>, info: RunInfo)
      returns (decision: Decision, raised: bool, ghost acts: seq<Act>)
      modifies this
      ensures history == old(history) + acts
      ensures Decide(dry, old(Tables()), pr, at, verdicts, info)
           == if raised then Step(Tables(), acts, true) else Settle(Tables(), at, decision, acts)
    {
      hide SendBackActs, Settle;
      decision, raised, acts := LeftHeld, false, [];
      var done := if at.run in reruns then reruns[at.run] else 0;
      if Held in verdicts {
      } else if Genuine in verdicts {
        decision := LeftFailing;
        if pr.accepted {
          decision := SentBack;
          acts := if dry then [] else SendBackActs(at, info.back).0;
          raised := SendBackPr(at, info.back);
        }
      } else if done >= RERUN_MAX {
        decision := Exhausted;
      } else if !dry && !info.rerun.Returned? {
        raised := true;
      } else {
        if !dry {
          acts := [Rerun(at.run, at.number)];
          Write(Rerun(at.run, at.number));
        }
        reruns := reruns[at.run := done + 1];
        decision := Reran;
      }
    }

    method DecideAttempt(pr: Pr, at: Attempt, verdicts: seq<Kind>, info: RunInfo) returns (raised: bool)
      modifies this
      ensures Did(old(history), Decide(dry, old(Tables()), pr, at, verdicts, info), raised)
    {
      hide Decide;
      ghost var before := history;
      var decision;
      ghost var acts;
      decision, raised, acts := Choose(pr, at, verdicts, info);
      if raised {
        return;
      }
      assert (before + acts) + [Decided(at)] == before + (acts + [Decided(at)]);
      seen := seen[at := decision];
      Write(Decided(at));
    }

    method DecideRun(pr: Pr, r: RunRead) returns (raised: bool)
      modifies this
      ensures Did(old(history), CiRun(dry, old(Tables()), pr, r), raised)
    {
      hide Verdicts, Decide;
      if r.info.None? {
        return true;
      }
      var info := r.info.value;
      if !info.completed || info.head != pr.head {
        return false;
      }
      var at := AttemptOf(pr, r);
      if at in seen {
        return false;
      }
      if info.jobs.None? {
        return true;
      }
      var verdicts;
      verdicts, raised := Judge(info.jobs.value);
      if raised {
        return true;
      }
      if verdicts == [] {
        return false;
      }
      raised := DecideAttempt(pr, at, verdicts, info);
    }

    method CiOf(pr: Pr) returns (raised: bool)
      modifies this
      ensures Did(old(history), Ci(dry, old(Tables()), pr), raised)
    {
      hide CiRun, CiRuns, After;
      if pr.runs.None? {
        return true;
      }
      var runs := pr.runs.value;
      ghost var done: seq<Act> := [];
      assert runs[0..] == runs;
      AfterNone(CiRuns(dry, Tables(), pr, runs));
      for i := 0 to |runs|
        invariant history == old(history) + done
        invariant CiRuns(dry, old(Tables()), pr, runs) == After(done, CiRuns(dry, Tables(), pr, runs[i..]))
      {
        assert runs[i..][1..] == runs[i + 1..];
        ghost var step := CiRun(dry, Tables(), pr, runs[i]);
        CiRunsHead(dry, Tables(), pr, runs[i..]);
        raised := DecideRun(pr, runs[i]);
        if raised {
          AfterIs(done, step);
          return true;
        }
        AfterTwice(done, step.acts, CiRuns(dry, Tables(), pr, runs[i + 1..]), done + step.acts);
        done := done + step.acts;
      }
      raised := false;
      CiRunsNone(dry, Tables(), pr);
      AfterIs(done, Step(Tables(), [], false));
    }

    // ---- comments and rebases ---------------------------------------------------------

    method Comment(key: NoteKey, read: NoteRead) returns (raised: bool)
      modifies this
      ensures Did(old(history), CommentOnce(dry, old(Tables()), key, read), raised)
    {
      if key in commented {
        return false;
      }
      if read.marked.None? {
        return true;
      }
      if !read.marked.value && !dry {
        if !read.post.Returned? {
          return true;
        }
        Write(Commented(key));
      }
      commented := commented[key := true];
      raised := false;
    }

    /** The part after the head was found unmoved: the trial, the right to push, the push. */
    method Try(pr: Pr, b: RebaseRead, key: RebaseKey) returns (out: Outcome, raised: bool)
      modifies this
      ensures Did(old(history), TrialOf(dry, old(Tables()), pr, b, key).step, raised)
      ensures out == TrialOf(dry, old(Tables()), pr, b, key).outcome
    {
      hide CommentOnce, MayRewrite;
      raised := false;
      match b.trial {
        case TrialBroken =>
          return Moved, true;
        case UpToDate =>
          out := WasUpToDate;
        case Conflicting =>
          out := Conflicts;
          raised := Comment(NoteKey(pr.tag, ConflictNote), b.note);
        case Rebases =>
          if b.commits.None? {
            return Moved, true;
          }
          if !MayRewrite(pr, b.commits.value) {
            out := Denied;
            raised := Comment(NoteKey(pr.tag, NeedsLabel), b.note);
          } else if dry {
            out := Dry;
          } else {
            if !b.push.Returned? {
              return Moved, true;
            }
            Write(Pushed(key));
            out := WasPushed;
          }
      }
      if raised {
        return;
      }
      rebased := rebased[key := out];
    }

    method RebasePr(pr: Pr, b: RebaseRead) returns (out: Outcome, raised: bool)
      modifies this
      ensures Did(old(history), Rebase(dry, old(Tables()), pr, b).step, raised)
      ensures out == Rebase(dry, old(Tables()), pr, b).outcome
    {
      hide TrialOf;
      if b.onto.None? {
        return Moved, true;
      }
      var key := RebaseKey(pr.tag, Short(pr.head), Short(b.onto.value));
      if key in rebased {
        return rebased[key], false;
      }
      if b.current.None? {
        return Moved, true;
      }
      if !b.current.value {
        return Moved, false;
      }
      out, raised := Try(pr, b, key);
    }

    method ConflictOf(pr: Pr) returns (pushed: bool, raised: bool)
      modifies this
      ensures Did(old(history), ConflictStep(dry, old(Tables()), pr).step, raised)
      ensures pushed == ConflictStep(dry, old(Tables()), pr).outcome.WasPushed?
    {
      hide Rebase;
      if !pr.unmergeable {
        return false, false;
      }
      var out;
      out, raised := RebasePr(pr, pr.afterConflict);
      pushed := out.WasPushed?;
    }

    // ---- dependent merges ----------------------------------------------------------------

    /** Reads the dependencies and sorts out the unmerged ones; raises at the first failing read. */
    method ReadDeps(deps: seq<Option<DepState>>) returns (waiting: seq<nat>, closed: seq<nat>, raised: bool)
      ensures raised <==> DepStates(deps).None?
      ensures !raised ==> (waiting != [] <==> Waiting in DepStates(deps).value)
      ensures !raised ==> (closed != [] <==> ClosedUnmerged in DepStates(deps).value)
    {
      hide DepStates;
      DepStatesAre(deps);
      waiting, closed := [], [];
      for i := 0 to |deps|
        invariant None !in deps[..i]
        invariant waiting != [] <==> Some(Waiting) in deps[..i]
        invariant closed != [] <==> Some(ClosedUnmerged) in deps[..i]
      {
        assert deps[..i + 1] == deps[..i] + [deps[i]];
        if deps[i].None? {
          return waiting, closed, true;
        }
        if deps[i].value.ClosedUnmerged? {
          closed := closed + [i];
        } else if deps[i].value.Waiting? {
          waiting := waiting + [i];
        }
      }
      assert deps[..|deps|] == deps;
      raised := false;
    }

    method DepsOf(pr: Pr) returns (pushed: bool, raised: bool)
      modifies this
      ensures Did(old(history), DepsStep(dry, old(Tables()), pr).step, raised)
      ensures !raised ==> pushed == DepsStep(dry, old(Tables()), pr).outcome.WasPushed?
    {
      hide DepStates, AfterDeps, CommentOnce;
      if pr.deps == [] {
        return false, false;
      }
      var waiting, closed;
      waiting, closed, raised := ReadDeps(pr.deps);
      if raised {
        return false, true;
      }
      if closed != [] {
        raised := Comment(NoteKey(pr.tag, DepClosed), pr.closedNote);
        return false, raised;
      }
      if waiting != [] || pr.tag in automerge {
        return false, false;
      }
      pushed, raised := MergeReady(pr);
    }

    /** All dependencies are merged and nothing was scheduled before. */
    method MergeReady(pr: Pr) returns (pushed: bool, raised: bool)
      modifies this
      ensures Did(old(history), AfterDeps(dry, old(Tables()), pr).step, raised)
      ensures !raised ==> pushed == AfterDeps(dry, old(Tables()), pr).outcome.WasPushed?
    {
      hide Rebase, WantsAutomerge;
      var out;
      out, raised := RebasePr(pr, pr.afterDeps);
      if raised || out.WasPushed? {
        return true, raised;
      }
      if out.Conflicts? || out.Moved? {
        return false, false;
      }
      if !WantsAutomerge(pr) {
        automerge := automerge[pr.tag := false];
        return false, false;
      }
      if !dry {
        if !pr.merge.Returned? && !pr.merge.Scheduled? {
          return false, true;
        }
        if pr.merge.Returned? {
          Write(AutoMerge(pr.tag));
        }
      }
      automerge := automerge[pr.tag := true];
      return false, false;
    }

    // ---- a poll -----------------------------------------------------------------------------

    /** The three steps in their order, until one pushed; a raise ends only its own step. */
    method Handle(pr: Pr)
      modifies this
      ensures Did(old(history), PrSteps(dry, old(Tables()), pr), false)
    {
      hide Ci, DepsStep, ConflictStep, Tables;
      ghost var s, before := Tables(), history;
      var pushed;
      var raised := CiOf(pr);
      ghost var first := Ci(dry, s, pr);
      assert Tables() == first.state && history == before + first.acts;
      pushed, raised := DepsOf(pr);
      ghost var deps := DepsStep(dry, first.state, pr);
      assert (before + first.acts) + deps.step.acts == before + (first.acts + deps.step.acts);
      if !raised && pushed {
        return;
      }
      pushed, raised := ConflictOf(pr);
      ghost var last := ConflictStep(dry, deps.step.state, pr).step;
      assert (before + (first.acts + deps.step.acts)) + last.acts
          == before + ((first.acts + deps.step.acts) + last.acts);
    }

    method HandleAll(prs: seq<Pr>)
      modifies this
      ensures Did(old(history), AllPrs(dry, old(Tables()), prs), false)
    {
      hide PrSteps, AllPrs, After;
      ghost var done: seq<Act> := [];
      assert prs[0..] == prs;
      AfterNone(AllPrs(dry, Tables(), prs));
      for i := 0 to |prs|
        invariant history == old(history) + done
        invariant AllPrs(dry, old(Tables()), prs) == After(done, AllPrs(dry, Tables(), prs[i..]))
      {
        assert prs[i..][1..] == prs[i + 1..];
        ghost var step := PrSteps(dry, Tables(), prs[i]);
        AllPrsHead(dry, Tables(), prs[i..]);
        Handle(prs[i]);
        AfterTwice(done, step.acts, AllPrs(dry, Tables(), prs[i + 1..]), done + step.acts);
        done := done + step.acts;
      }
      NoPrs(dry, Tables());
      AfterIs(done, Step(Tables(), [], false));
    }

    /** The pull requests of every list that could be read; whether all could, and their tags. */
    method HandleLists(lists: seq<Option<seq<Pr>>>) returns (tags: set<Tag>, listed: bool)
      modifies this
      ensures Did(old(history), AllPrs(dry, old(Tables()), Listed(lists)), false)
      ensures listed <==> Complete(Poll(lists))
      ensures tags == Tags(Listed(lists))
    {
      hide AllPrs, After, Listed, Tags, Tables;
      tags, listed := {}, true;
      ghost var done: seq<Act> := [];
      assert lists[0..] == lists;
      AfterNone(AllPrs(dry, Tables(), Listed(lists)));
      ListedNone();
      for i := 0 to |lists|
        invariant listed <==> forall k :: 0 <= k < i ==> lists[k].Some?
        invariant tags == Tags(Listed(lists[..i]))
        invariant history == old(history) + done
        invariant AllPrs(dry, old(Tables()), Listed(lists)) == After(done, AllPrs(dry, Tables(), Listed(lists[i..])))
      {
        assert lists[..i + 1] == lists[..i] + [lists[i]];
        HandledMore(dry, Tables(), lists, i, done);
        if lists[i].None? {
          listed := false;
        } else {
          var prs := lists[i].value;
          ghost var step := AllPrs(dry, Tables(), prs);
          HandleAll(prs);
          tags := tags + set pr <- prs :: pr.tag;
          done := done + step.acts;
        }
      }
      assert lists[..|lists|] == lists && lists[|lists|..] == [];
      NoPrs(dry, Tables());
      AfterIs(done, Step(Tables(), [], false));
    }

    method TickOnce(poll: Poll)
      modifies this
      ensures Did(old(history), Tick(dry, old(Tables()), poll), false)
    {
      hide AllPrs, Listed, Tags;
      var tags, listed := HandleLists(poll.lists);
      if listed {
        reruns := map k <- reruns | k.tag in tags :: reruns[k];
        seen := map k <- seen | k.run.tag in tags :: seen[k];
        rebased := map k <- rebased | k.tag in tags :: rebased[k];
        commented := map k <- commented | k.tag in tags :: commented[k];
        automerge := map k <- automerge | k in tags :: automerge[k];
      }
    }

    /** The service over any finite stretch of polls; a new bot stays within every limit
        and writes nothing but what the poll it writes in has read a reason for. */
    method Serve(polls: seq<Poll>)
      modifies this
      ensures Did(old(history), Polls(dry, old(Tables()), polls), false)
      ensures old(Tables()) == EMPTY && old(history) == []
          ==> && (forall x: Subject :: Count(history, x) <= Allowed(polls, x))
              && history == Flat(PollActs(dry, EMPTY, polls))
              && Caused(dry, PollActs(dry, EMPTY, polls), polls)
    {
      hide Tick, After, Polls, PollActs, Flat, Count, Allowed, Caused;
      ghost var done: seq<Act> := [];
      assert polls[0..] == polls;
      AfterNone(Polls(dry, Tables(), polls));
      for i := 0 to |polls|
        invariant history == old(history) + done
        invariant Polls(dry, old(Tables()), polls) == After(done, Polls(dry, Tables(), polls[i..]))
      {
        assert polls[i..][1..] == polls[i + 1..];
        ghost var step := Tick(dry, Tables(), polls[i]);
        PollsHead(dry, Tables(), polls[i..]);
        TickOnce(polls[i]);
        AfterTwice(done, step.acts, Polls(dry, Tables(), polls[i + 1..]), done + step.acts);
        done := done + step.acts;
      }
      NoPolls(dry, Tables());
      AfterIs(done, Step(Tables(), [], false));
      Promises(dry, polls);
      PollActsAre(dry, EMPTY, polls);
      assert [] + Polls(dry, EMPTY, polls).acts == Polls(dry, EMPTY, polls).acts;
    }
  }

  // ---- helpers of the loops ---------------------------------------------------------------

  function Behind(front: seq<Kind>, rest: Option<seq<Kind>>): Option<seq<Kind>> {
    if rest.None? then None else Some(front + rest.value)
  }

  lemma BehindNone(rest: Option<seq<Kind>>)
    ensures Behind([], rest) == rest
  {
    if rest.Some? {
      assert [] + rest.value == rest.value;
    }
  }

  lemma BehindOne(front: seq<Kind>, kind: Kind, rest: Option<seq<Kind>>)
    ensures Behind(front, Behind([kind], rest)) == Behind(front + [kind], rest)
  {
    if rest.Some? {
      assert front + ([kind] + rest.value) == (front + [kind]) + rest.value;
    }
  }

  lemma AfterTwice(a: seq<Act>, b: seq<Act>, next: Step, both: seq<Act>)
    requires both == a + b
    ensures After(a, After(b, next)) == After(both, next)
  {
    assert a + (b + next.acts) == (a + b) + next.acts;
  }

  lemma AfterIs(a: seq<Act>, next: Step)
    ensures After(a, next) == Step(next.state, a + next.acts, next.raised)
  {
  }

  lemma AfterNone(next: Step)
    ensures After([], next) == next
  {
    assert [] + next.acts == next.acts;
  }

  lemma CiRunsHead(dry: bool, s: State, pr: Pr, runs: seq<RunRead>)
    requires runs != []
    ensures CiRuns(dry, s, pr, runs)
         == if CiRun(dry, s, pr, runs[0]).raised then CiRun(dry, s, pr, runs[0])
            else After(CiRun(dry, s, pr, runs[0]).acts, CiRuns(dry, CiRun(dry, s, pr, runs[0]).state, pr, runs[1..]))
  {
    hide CiRun, After;
  }

  lemma CiRunsNone(dry: bool, s: State, pr: Pr)
    ensures CiRuns(dry, s, pr, []) == Step(s, [], false)
  {
  }

  lemma AllPrsHead(dry: bool, s: State, prs: seq<Pr>)
    requires prs != []
    ensures AllPrs(dry, s, prs)
         == After(PrSteps(dry, s, prs[0]).acts, AllPrs(dry, PrSteps(dry, s, prs[0]).state, prs[1..]))
  {
    hide PrSteps, After;
  }

  lemma PollsHead(dry: bool, s: State, polls: seq<Poll>)
    requires polls != []
    ensures Polls(dry, s, polls)
         == After(Tick(dry, s, polls[0]).acts, Polls(dry, Tick(dry, s, polls[0]).state, polls[1..]))
  {
    hide Tick, After;
  }

  lemma NoPolls(dry: bool, s: State)
    ensures Polls(dry, s, []) == Step(s, [], false)
  {
  }

  lemma ListedHead(lists: seq<Option<seq<Pr>>>)
    requires lists != []
    ensures Listed(lists) == if lists[0].Some? then lists[0].value + Listed(lists[1..]) else Listed(lists[1..])
  {
    assert [] + Listed(lists[1..]) == Listed(lists[1..]);
  }

  lemma ListedNone()
    ensures Listed([]) == [] && Tags([]) == {}
  {
  }

  lemma TagsAppend(a: seq<Pr>, b: seq<Pr>)
    ensures Tags(a + b) == Tags(a) + Tags(b)
    ensures Tags(b) == set pr <- b :: pr.tag
  {
  }

  lemma NoPrs(dry: bool, s: State)
    ensures AllPrs(dry, s, []) == Step(s, [], false)
  {
  }

  lemma {:induction false} AllPrsAppend(dry: bool, s: State, a: seq<Pr>, b: seq<Pr>)
    ensures AllPrs(dry, s, a + b) == After(AllPrs(dry, s, a).acts, AllPrs(dry, AllPrs(dry, s, a).state, b))
    decreases |a|
  {
    hide PrSteps;
    if a == [] {
      assert a + b == b;
    } else {
      assert (a + b)[1..] == a[1..] + b;
      var first := PrSteps(dry, s, a[0]);
      AllPrsAppend(dry, first.state, a[1..], b);
      var rest := AllPrs(dry, first.state, a[1..]);
      AfterTwice(first.acts, rest.acts, AllPrs(dry, rest.state, b), first.acts + rest.acts);
    }
  }

  /** What the next list, read or not, adds. */
  lemma HandledMore(dry: bool, s: State, lists: seq<Option<seq<Pr>>>, i: nat, done: seq<Act>)
    requires i < |lists|
    ensures lists[i].None? ==>
      Tags(Listed(lists[..i + 1])) == Tags(Listed(lists[..i])) && Listed(lists[i..]) == Listed(lists[i + 1..])
    ensures lists[i].Some? ==>
      var step := AllPrs(dry, s, lists[i].value);
      && Tags(Listed(lists[..i + 1])) == Tags(Listed(lists[..i])) + (set pr <- lists[i].value :: pr.tag)
      && After(done, AllPrs(dry, s, Listed(lists[i..])))
         == After(done + step.acts, AllPrs(dry, step.state, Listed(lists[i + 1..])))
  {
    hide AllPrs, After, Listed, Tags;
    assert lists[i..][1..] == lists[i + 1..];
    assert lists[..i + 1] == lists[..i] + [lists[i]];
    ListedOneMore(lists[..i], lists[i]);
    ListedHead(lists[i..]);
    if lists[i].None? {
      assert Listed(lists[..i]) + [] == Listed(lists[..i]);
    } else {
      var prs, rest := lists[i].value, Listed(lists[i + 1..]);
      var step := AllPrs(dry, s, prs);
      AllPrsAppend(dry, s, prs, rest);
      TagsAppend(Listed(lists[..i]), prs);
      AfterTwice(done, step.acts, AllPrs(dry, step.state, rest), done + step.acts);
    }
  }

  lemma {:induction false} ListedOneMore(lists: seq<Option<seq<Pr>>>, last: Option<seq<Pr>>)
    ensures Listed(lists + [last]) == Listed(lists) + if last.Some? then last.value else []
    decreases |lists|
  {
    if lists == [] {
      assert lists + [last] == [last] && [last][1..] == [];
    } else {
      assert (lists + [last])[1..] == lists[1..] + [last];
      ListedOneMore(lists[1..], last);
      var head := if lists[0].Some? then lists[0].value else [];
      var tail := if last.Some? then last.value else [];
      assert head + (Listed(lists[1..]) + tail) == (head + Listed(lists[1..])) + tail;
    }
  }
}
