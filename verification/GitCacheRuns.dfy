// What scripts/git-cache.py does not promise: when exactly a request can be served an old
// mirror, what a True without a mirror means, and runs from the start that show both and
// an unfair lock.
module GitCacheRuns {
  import opened Results
  import opened GitCache

  // ---- playing runs -------------------------------------------------------------------

  /** The event leads from one state to the other. */
  predicate Goes(s: State, e: Event, t: State) { Enabled(s, e) && Apply(s, e) == t }

  /** The run leads from one state to the other. */
  ghost predicate Leads(s: State, run: seq<Event>, t: State) { Playable(s, run) && Play(s, run) == t }

  lemma NoRun(s: State)
    ensures Leads(s, [], s)
  {
  }

  lemma OneEvent(s: State, e: Event, t: State)
    requires Goes(s, e, t)
    ensures Leads(s, [e], t)
  {
    assert [e][1..] == [];
  }

  lemma {:induction false} Then(s: State, a: seq<Event>, t: State, b: seq<Event>, u: State)
    requires Leads(s, a, t) && Leads(t, b, u)
    ensures Leads(s, a + b, u)
    decreases |a|
  {
    hide Apply, Enabled;
    if a == [] {
      assert a + b == b;
    } else {
      assert (a + b)[1..] == a[1..] + b;
      Then(Apply(s, a[0]), a[1..], t, b, u);
    }
  }

  lemma TwoEvents(s: State, a: Event, t: State, b: Event, u: State)
    requires Goes(s, a, t) && Goes(t, b, u)
    ensures Leads(s, [a, b], u)
  {
    hide Goes, Leads;
    OneEvent(s, a, t);
    OneEvent(t, b, u);
    Then(s, [a], t, [b], u);
    assert [a] + [b] == [a, b];
  }

  // ---- pieces of runs --------------------------------------------------------------------

  /** Request r in another phase, relying on a fetch. */
  function Became(s: State, r: nat, p: Phase, cover: Option<nat>): State
    requires r < |s.requests|
  {
    SetRequest(s, r, s.requests[r].(phase := p, cover := cover))
  }

  /** Request r waits for its repository's lock. */
  ghost predicate Waits(s: State, r: nat, l: nat) {
    r < |s.requests| && s.requests[r].phase.Waiting? && s.requests[r].lock == Some(l)
  }

  lemma FindsLock(s: State, r: nat)
    requires r < |s.requests| && s.requests[r].phase.Asked? && s.requests[r].repo in s.locks
    ensures Goes(s, Thread(r, FindLock),
                 SetRequest(s, r, s.requests[r].(lock := Some(s.locks[s.requests[r].repo]), phase := Waiting)))
  {
  }

  function Passes(r: nat): seq<Event> { [Thread(r, Acquire)] + [Thread(r, Skip), Thread(r, Release)] }

  /** A waiting request finds the lock free and its arrival covered by the last fetch. */
  lemma WaiterPasses(s: State, r: nat, l: nat)
    requires Waits(s, r, l) && l !in s.holder
    requires var x := RepoAt(s, s.requests[r].repo); x.fetches != [] && Covered(x, s.requests[r].askedAt)
    ensures Leads(s, Passes(r), Became(s, r, Done(true), Some(|RepoAt(s, s.requests[r].repo).fetches| - 1)))
  {
    var t := Became(s, r, Holding, s.requests[r].cover).(holder := s.holder[l := r]);
    assert Goes(s, Thread(r, Acquire), t);
    OneEvent(s, Thread(r, Acquire), t);
    HolderPasses(t, r, l);
    var u := Became(s, r, Done(true), Some(|RepoAt(s, s.requests[r].repo).fetches| - 1));
    assert Became(t, r, Done(true), u.requests[r].cover).requests == u.requests;
    assert s.holder[l := r] - {l} == s.holder;
    Then(s, [Thread(r, Acquire)], t, [Thread(r, Skip), Thread(r, Release)], u);
  }

  lemma HolderPasses(s: State, r: nat, l: nat)
    requires r < |s.requests| && s.requests[r].phase.Holding? && s.requests[r].lock == Some(l)
    requires var x := RepoAt(s, s.requests[r].repo); x.fetches != [] && Covered(x, s.requests[r].askedAt)
    ensures Leads(s, [Thread(r, Skip), Thread(r, Release)],
                  Became(s, r, Done(true),
                      Some(|RepoAt(s, s.requests[r].repo).fetches| - 1)).(holder := s.holder - {l}))
  {
    hide Leads;
    var k := Some(|RepoAt(s, s.requests[r].repo).fetches| - 1);
    var t := Became(s, r, Leaving(true), k);
    var u := Became(s, r, Done(true), k).(holder := s.holder - {l});
    assert t.requests[r := u.requests[r]] == u.requests;
    TwoEvents(s, Thread(r, Skip), t, Thread(r, Release), u);
  }

  function Ends(r: nat, ok: bool): seq<Event> { [Thread(r, EndFetch(ok, false)), Thread(r, Release)] }

  /** A fetch ends, with or without success, and its request leaves. */
  function Ended(s: State, r: nat, ok: bool, l: nat): State
    requires r < |s.requests|
    requires var x := RepoAt(s, s.requests[r].repo);
      x.fetches != [] && Last(x).outcome.Running? && (ok ==> Last(x).outcome.read.Some?)
  {
    var d := s.requests[r].repo;
    var x := RepoAt(s, d);
    var y := Finished(x, ok, false);
    Became(SetRepo(s, d, y), r, Done(ok || y.mirror.Some?), Some(|x.fetches| - 1)).(holder := s.holder - {l})
  }

  lemma FetcherEnds(s: State, r: nat, ok: bool, l: nat)
    requires r < |s.requests| && s.requests[r].phase.Fetching? && s.requests[r].lock == Some(l)
    requires var x := RepoAt(s, s.requests[r].repo);
      x.fetches != [] && Last(x).outcome.Running? && (ok ==> Last(x).outcome.read.Some?)
    ensures Leads(s, Ends(r, ok), Ended(s, r, ok, l))
  {
    hide Leads, Finished;
    var d := s.requests[r].repo;
    var x := RepoAt(s, d);
    var y := Finished(x, ok, false);
    var t := Became(SetRepo(s, d, y), r, Leaving(ok || y.mirror.Some?), Some(|x.fetches| - 1));
    var u := Ended(s, r, ok, l);
    assert t.requests[r := u.requests[r]] == u.requests;
    TwoEvents(s, Thread(r, EndFetch(ok, false)), t, Thread(r, Release), u);
  }

  function Begins(r: nat): seq<Event> { [Thread(r, Acquire), Thread(r, StartFetch)] }

  /** A request takes the free lock and starts a fetch. */
  function Begun(s: State, r: nat, l: nat): State
    requires r < |s.requests|
  {
    var q := s.requests[r];
    var x := RepoAt(s, q.repo);
    var y := x.(stamp := Some(s.now), fetches := x.fetches + [Fetch(r, q.askedAt, s.now, x.up, Running(None))]);
    Became(SetRepo(s, q.repo, y), r, Fetching, q.cover).(holder := s.holder[l := r])
  }

  lemma WaiterBegins(s: State, r: nat, l: nat)
    requires Waits(s, r, l) && l !in s.holder && !Covered(RepoAt(s, s.requests[r].repo), s.requests[r].askedAt)
    ensures Leads(s, Begins(r), Begun(s, r, l))
  {
    hide Leads, Covered;
    var t := Became(s, r, Holding, s.requests[r].cover).(holder := s.holder[l := r]);
    var u := Begun(s, r, l);
    assert t.requests[r := u.requests[r]] == u.requests;
    TwoEvents(s, Thread(r, Acquire), t, Thread(r, StartFetch), u);
  }

  // ---- what a later state keeps -------------------------------------------------------------

  /** A fetch as it is later: what it had read stays, and what it reads later is at least as
      new as upstream was. */
  ghost predicate Evolved(f: Fetch, g: Fetch, up: Version) {
    && g.start == f.start
    && match f.outcome
       case Running(None) =>
         (g.outcome.Running? && g.outcome.read.Some? ==> g.outcome.read.value >= up)
             && (g.outcome.Succeeded? ==> g.outcome.got >= up)
       case Running(Some(v)) => g.outcome == f.outcome || g.outcome == Succeeded(v) || g.outcome == Failed
       case _ => g.outcome == f.outcome
  }

  ghost predicate Later(x: Repo, y: Repo) {
    && |x.fetches| <= |y.fetches| && x.up <= y.up
    && forall i :: 0 <= i < |x.fetches| ==> Evolved(x.fetches[i], y.fetches[i], x.up)
  }

  lemma LaterThen(x: Repo, y: Repo, z: Repo)
    requires Later(x, y) && Later(y, z)
    ensures Later(x, z)
  {
    forall i | 0 <= i < |x.fetches|
      ensures Evolved(x.fetches[i], z.fetches[i], x.up)
    {
      assert Evolved(x.fetches[i], y.fetches[i], x.up) && Evolved(y.fetches[i], z.fetches[i], y.up);
    }
  }

  /** What a request was when it asked. */
  predicate SameAsker(q: Request, p: Request) {
    p.repo == q.repo && p.askedAt == q.askedAt && p.upAtAsk == q.upAtAsk && p.before == q.before
  }

  lemma LaterReads(x: Repo)
    requires x.fetches != [] && Last(x).outcome == Running(None)
    ensures Later(x, WithLast(x, Running(Some(x.up))))
  {
  }

  lemma LaterEnds(x: Repo, ok: bool, partly: bool)
    requires x.fetches != [] && Last(x).outcome.Running? && (ok || partly ==> Last(x).outcome.read.Some?)
    requires Last(x).outcome.read.Some? || !ok
    ensures Later(x, Finished(x, ok, partly))
  {
  }

  lemma LaterStarts(x: Repo, stamp: Option<Time>, f: Fetch)
    ensures Later(x, x.(stamp := stamp, fetches := x.fetches + [f]))
  {
  }

  lemma LaterAdvances(x: Repo)
    ensures Later(x, x.(up := x.up + 1))
  {
  }

  lemma StepLater(s: State, e: Event, d: Name)
    requires Enabled(s, e)
    ensures Later(RepoAt(s, d), RepoAt(Apply(s, e), d))
  {
    hide Later, Finished, WithLast, Covered;
    var x := RepoAt(s, d);
    LaterSame(x);
    LaterAdvances(x);
    if e.Thread? && s.requests[e.r].repo == d {
      var q := s.requests[e.r];
      if e.action.FetchReads? {
        LaterReads(x);
      } else if e.action.EndFetch? {
        LaterEnds(x, e.action.ok, e.action.partly);
      } else if e.action.StartFetch? {
        LaterStarts(x, Some(s.now), Fetch(e.r, q.askedAt, s.now, x.up, Running(None)));
      }
    }
  }

  lemma StepAskers(s: State, e: Event, r: nat)
    requires Enabled(s, e) && r < |s.requests|
    ensures r < |Apply(s, e).requests| && SameAsker(s.requests[r], Apply(s, e).requests[r])
  {
    hide CanDo, Act, SameAsker;
    SameAsSelf(s.requests[r]);
    if e.Thread? {
      ActAsker(s, e.r, e.action, r);
    }
  }

  lemma SameAsSelf(q: Request)
    ensures SameAsker(q, q)
  {
  }

  lemma ActAsker(s: State, h: nat, a: Action, r: nat)
    requires Enabled(s, Thread(h, a)) && r < |s.requests|
    ensures r < |Act(s, h, a).requests| && SameAsker(s.requests[r], Act(s, h, a).requests[r])
  {
    hide Finished, WithLast, Covered;
    match a
    case FindLock =>
    case Acquire =>
    case Skip =>
    case StartFetch =>
    case FetchReads =>
    case EndFetch(_, _) =>
    case Release =>
  }

  lemma {:induction false} RunLater(s: State, run: seq<Event>, d: Name, r: nat)
    requires Playable(s, run) && r < |s.requests|
    ensures Later(RepoAt(s, d), RepoAt(Play(s, run), d))
    ensures r < |Play(s, run).requests| && SameAsker(s.requests[r], Play(s, run).requests[r])
    decreases |run|
  {
    hide Apply, Enabled, Later;
    if run == [] {
      LaterSame(RepoAt(s, d));
    } else {
      var t := Apply(s, run[0]);
      StepLater(s, run[0], d);
      StepAskers(s, run[0], r);
      RunLater(t, run[1..], d, r);
      LaterThen(RepoAt(s, d), RepoAt(t, d), RepoAt(Play(s, run), d));
    }
  }

  lemma LaterSame(x: Repo)
    ensures Later(x, x)
  {
  }

  // ---- the locks of the repositories -----------------------------------------------------------

  /** Each repository has its own lock, and one that was fetched has one. */
  ghost predicate OwnLocks(s: State) {
    && (forall d :: d in s.locks ==> s.locks[d] < s.nextLock)
    && (forall c, d :: c in s.locks && d in s.locks && s.locks[c] == s.locks[d] ==> c == d)
    && forall d :: RepoAt(s, d).fetches != [] ==> d in s.locks
  }

  lemma FindLockOwn(s: State, r: nat)
    requires OwnLocks(s) && Enabled(s, Thread(r, FindLock))
    ensures OwnLocks(Act(s, r, FindLock))
  {
    var d := s.requests[r].repo;
    var t := Act(s, r, FindLock);
    assert t.locks == if d in s.locks then s.locks else s.locks[d := s.nextLock];
    assert forall c :: RepoAt(t, c) == RepoAt(s, c);
  }

  /** The other steps leave the locks, and fetch only for a request that has found its own. */
  lemma StepOwnLocks(s: State, e: Event)
    requires Inv(s) && OwnLocks(s) && Enabled(s, e)
    ensures OwnLocks(Apply(s, e))
  {
    hide Inv, LockOk;
    if e.Thread? && e.action.FindLock? {
      FindLockOwn(s, e.r);
    } else {
      if e.Thread? {
        LockFound(s, e.r);
      }
      OthersOwn(s, e);
    }
  }

  lemma LockFound(s: State, r: nat)
    requires Inv(s) && r < |s.requests|
    ensures !s.requests[r].phase.Asked? ==> s.requests[r].repo in s.locks
  {
    assert LockOk(s, r);
  }

  lemma OthersOwn(s: State, e: Event)
    requires OwnLocks(s) && Enabled(s, e) && !(e.Thread? && e.action.FindLock?)
    requires e.Thread? && !s.requests[e.r].phase.Asked? ==> s.requests[e.r].repo in s.locks
    ensures OwnLocks(Apply(s, e))
  {
    hide Finished, WithLast, Covered;
    var t := Apply(s, e);
    assert t.locks == s.locks && t.nextLock == s.nextLock;
    forall d | RepoAt(t, d).fetches != []
      ensures d in t.locks
    {
      assert RepoAt(s, d).fetches != [] || (e.Thread? && s.requests[e.r].repo == d);
    }
  }

  lemma {:induction false} RunOwnLocks(s: State, run: seq<Event>)
    requires Inv(s) && OwnLocks(s) && Playable(s, run)
    ensures OwnLocks(Play(s, run))
    decreases |run|
  {
    hide Apply, Enabled, Inv, OwnLocks;
    if run == [] {
    } else {
      StepOwnLocks(s, run[0]);
      StepKeeps(s, run[0]);
      RunOwnLocks(Apply(s, run[0]), run[1..]);
    }
  }

  // ---- exactly when a request is served an old mirror --------------------------------------------

  /** The request returned, covered by a successful fetch, and the mirror lacks what upstream
      had when it asked. */
  ghost predicate ServedStale(s: State, r: nat) {
    && r < |s.requests| && s.requests[r].phase.Done? && s.requests[r].cover.Some?
    && var x := RepoAt(s, s.requests[r].repo);
       && s.requests[r].cover.value < |x.fetches| && x.fetches[s.requests[r].cover.value].outcome.Succeeded?
       && x.mirror.Some? && x.mirror.value < s.requests[r].upAtAsk
  }

  /** What the last fetch has read so far. */
  function HasRead(o: Outcome): Option<Version> {
    match o
    case Running(read) => read
    case Succeeded(got) => Some(got)
    case Failed => None
  }

  /** The last fetch carries the present clock reading and has read a version that upstream
      has left behind. */
  predicate TiedBehind(x: Repo, now: Time) {
    && x.fetches != [] && Last(x).start == now
    && HasRead(Last(x).outcome).Some? && HasRead(Last(x).outcome).value < x.up
  }

  /** The next event is the request's arrival, and some schedule serves it an old mirror. */
  ghost predicate StaleAfter(s: State, d: Name, more: seq<Event>) {
    Playable(s, [Ask(d)] + more) && ServedStale(Play(s, [Ask(d)] + more), |s.requests|)
  }

  lemma StaleIsTied(s: State, d: Name, more: seq<Event>)
    requires Inv(s) && StaleAfter(s, d, more)
    ensures TiedBehind(RepoAt(s, d), s.now)
  {
    hide Inv, Later, RequestOk, FetchOk, RepoOk;
    var r := |s.requests|;
    var u := Apply(s, Ask(d));
    assert ([Ask(d)] + more)[1..] == more;
    var t := Play(u, more);
    StepKeeps(s, Ask(d));
    RunKeeps(u, more);
    RunLater(u, more, d, r);
    var x, y, q := RepoAt(s, d), RepoAt(t, d), t.requests[r];
    assert RepoAt(u, d) == x && u.requests[r] == Request(d, s.now, x.up, |x.fetches|, None, None, Asked);
    InvAt(s, d);
    InvAt(t, d);
    RequestAt(t, r);
    CoverIsTied(s.now, t.now, x, y, q);
  }

  lemma InvAt(s: State, d: Name)
    requires Inv(s)
    ensures RepoOk(s.now, RepoAt(s, d))
  {
  }

  lemma RequestAt(s: State, r: nat)
    requires Inv(s) && r < |s.requests|
    ensures RequestOk(s.now, RepoAt(s, s.requests[r].repo), s.requests[r])
  {
  }

  lemma CoverIsTied(now: Time, later: Time, x: Repo, y: Repo, q: Request)
    requires RepoOk(now, x) && RepoOk(later, y) && Later(x, y) && RequestOk(later, y, q)
    requires q.askedAt == now && q.upAtAsk == x.up && q.before == |x.fetches|
    requires q.cover.Some? && q.cover.value < |y.fetches| && y.fetches[q.cover.value].outcome.Succeeded?
    requires y.mirror.Some? && y.mirror.value < x.up
    ensures TiedBehind(x, now)
  {
    var k := q.cover.value;
    assert FetchOk(later, y, k);
    assert k < |x.fetches|;
    assert Evolved(x.fetches[k], y.fetches[k], x.up) && FetchOk(now, x, k);
    LastStarts(now, x, k);
  }

  /** Only the last fetch can carry the present clock reading. */
  lemma LastStarts(now: Time, x: Repo, k: nat)
    requires RepoOk(now, x) && k < |x.fetches| && x.fetches[k].start == now
    ensures k == |x.fetches| - 1
  {
    var n := |x.fetches| - 1;
    assert FetchOk(now, x, n);
    assert k < n ==> Ordered(x, k, n);
  }

  /** The holder of the lock, if any, leaves it within two events, and the last fetch ends
      well: what it has read is in the mirror. */
  ghost predicate Cleared(s: State, t: State, d: Name) {
    && t.now == s.now && t.locks == s.locks && d in t.locks && t.locks[d] !in t.holder
    && |t.requests| == |s.requests|
    && (forall r :: 0 <= r < |s.requests| && s.requests[r].phase.Asked? ==> t.requests[r] == s.requests[r])
    && var (x, y) := (RepoAt(s, d), RepoAt(t, d));
       && y.up == x.up && |y.fetches| == |x.fetches| && y.fetches != [] && x.fetches != []
       && y.stamp == x.stamp && HasRead(Last(y).outcome) == HasRead(Last(x).outcome)
       && Last(y).outcome.Succeeded? && y.mirror == HasRead(Last(y).outcome)
  }

  lemma StampOfLast(s: State, d: Name)
    requires Inv(s) && RepoAt(s, d).fetches != []
    ensures RepoAt(s, d).stamp == Some(Last(RepoAt(s, d)).start)
  {
    InvAt(s, d);
  }

  lemma LockClears(s: State, d: Name) returns (run: seq<Event>, t: State)
    requires Inv(s) && OwnLocks(s) && TiedBehind(RepoAt(s, d), s.now)
    requires Last(RepoAt(s, d)).outcome.Succeeded? ==> RepoAt(s, d).mirror == HasRead(Last(RepoAt(s, d)).outcome)
    ensures Leads(s, run, t) && Cleared(s, t, d)
  {
    hide Leads, RequestOk, Locks, RepoOk;
    var l := s.locks[d];
    var x := RepoAt(s, d);
    StampOfLast(s, d);
    if l !in s.holder {
      run, t := [], s;
      NoRun(s);
      NoneRunning(s, d);
    } else {
      var h := s.holder[l];
      HolderOfLock(s, d);
      var q := s.requests[h];
      if q.phase.Fetching? {
        run, t := Ends(h, true), Ended(s, h, true, l);
        FetcherEnds(s, h, true, l);
      } else if q.phase.Holding? {
        HolderPasses(s, h, l);
        run := [Thread(h, Skip), Thread(h, Release)];
        t := Became(s, h, Done(true), Some(|x.fetches| - 1)).(holder := s.holder - {l});
      } else {
        run := [Thread(h, Release)];
        t := Became(s, h, Done(q.phase.served), q.cover).(holder := s.holder - {l});
        OneEvent(s, run[0], t);
      }
    }
  }

  lemma NoneRunning(s: State, d: Name)
    requires Inv(s) && d in s.locks && s.locks[d] !in s.holder && RepoAt(s, d).fetches != []
    ensures !Last(RepoAt(s, d)).outcome.Running?
  {
    assert RunningOk(s, d);
    var a := Last(RepoAt(s, d)).asker;
    assert a < |s.requests| ==> LockOk(s, a);
  }

  /** Who holds a repository's lock uses that repository; only it can be fetching. */
  lemma HolderOfLock(s: State, d: Name)
    requires Inv(s) && OwnLocks(s) && d in s.locks && s.locks[d] in s.holder && RepoAt(s, d).fetches != []
    requires RepoAt(s, d).stamp == Some(s.now)
    ensures var h := s.holder[s.locks[d]];
      && h < |s.requests| && HasLock(s.requests[h].phase) && s.requests[h].repo == d
      && s.requests[h].lock == Some(s.locks[d])
      && (Last(RepoAt(s, d)).outcome.Running? <==> s.requests[h].phase.Fetching?)
      && s.requests[h].askedAt <= s.now
  {
    var h := s.holder[s.locks[d]];
    assert HolderOk(s, s.locks[d]) && LockOk(s, h);
    assert RequestOk(s.now, RepoAt(s, s.requests[h].repo), s.requests[h]);
    if Last(RepoAt(s, d)).outcome.Running? {
      assert RunningOk(s, d);
      OneHolder(s, h, Last(RepoAt(s, d)).asker);
    }
  }

  /** A successful last fetch put in the mirror what it read. */
  ghost predicate MirrorIsRead(x: Repo) {
    x.fetches != [] && Last(x).outcome.Succeeded? ==> x.mirror == Some(Last(x).outcome.got)
  }

  lemma {:induction false} RunMirrors(s: State, run: seq<Event>, d: Name)
    requires Playable(s, run) && MirrorIsRead(RepoAt(s, d))
    ensures MirrorIsRead(RepoAt(Play(s, run), d))
    decreases |run|
  {
    hide Apply, Enabled;
    if run == [] {
    } else {
      StepMirrors(s, run[0], d);
      RunMirrors(Apply(s, run[0]), run[1..], d);
    }
  }

  lemma StepMirrors(s: State, e: Event, d: Name)
    requires Enabled(s, e) && MirrorIsRead(RepoAt(s, d))
    ensures MirrorIsRead(RepoAt(Apply(s, e), d))
  {
  }

  lemma TiedIsStale(s: State, d: Name) returns (more: seq<Event>)
    requires Inv(s) && OwnLocks(s) && MirrorIsRead(RepoAt(s, d)) && TiedBehind(RepoAt(s, d), s.now)
    ensures StaleAfter(s, d, more)
  {
    hide Inv, OwnLocks, Leads, Passes;
    var r := |s.requests|;
    var t := Apply(s, Ask(d));
    OneEvent(s, Ask(d), t);
    StepKeeps(s, Ask(d));
    StepOwnLocks(s, Ask(d));
    InvAt(s, d);
    var some, u := LockClears(t, d);
    var l := u.locks[d];
    var v := SetRequest(u, r, u.requests[r].(lock := Some(l), phase := Waiting));
    FindsLock(u, r);
    OneEvent(u, Thread(r, FindLock), v);
    WaiterPasses(v, r, l);
    var w := Became(v, r, Done(true), Some(|RepoAt(v, d).fetches| - 1));
    Then(u, [Thread(r, FindLock)], v, Passes(r), w);
    var rest := [Thread(r, FindLock)] + Passes(r);
    Then(t, some, u, rest, w);
    more := some + rest;
    Then(s, [Ask(d)], t, more, w);
    LeadsIs(s, [Ask(d)] + more, w);
    assert ServedStale(w, r);
  }

  lemma LeadsIs(s: State, run: seq<Event>, t: State)
    requires Leads(s, run, t)
    ensures Playable(s, run) && Play(s, run) == t
  {
  }

  /** After every run, exactly: the request that asks next can return with an old mirror, covered
      by a successful fetch, if and only if the last fetch carries the present clock reading and
      has read, done or not, a version older than upstream's. */
  lemma StaleExactly(run: seq<Event>, d: Name)
    requires Playable(INITIALLY, run)
    ensures var s := Play(INITIALLY, run);
      TiedBehind(RepoAt(s, d), s.now) <==> exists more :: StaleAfter(s, d, more)
  {
    hide Play, Playable, Inv, OwnLocks, StaleAfter;
    var s := Play(INITIALLY, run);
    Reached(run);
    StartIsOk();
    StartOwnsLocks();
    RunOwnLocks(INITIALLY, run);
    RunMirrors(INITIALLY, run, d);
    if TiedBehind(RepoAt(s, d), s.now) {
      var more := TiedIsStale(s, d);
    }
    if more :| StaleAfter(s, d, more) {
      StaleIsTied(s, d, more);
    }
  }

  lemma StartOwnsLocks()
    ensures OwnLocks(INITIALLY)
  {
  }

  // ---- a True without a mirror --------------------------------------------------------------------

  /** Who started a fetch has gone past waiting. */
  ghost predicate Started(s: State, d: Name) {
    forall i :: 0 <= i < |RepoAt(s, d).fetches| ==> StartedAt(s, RepoAt(s, d).fetches[i].asker)
  }

  predicate StartedAt(s: State, a: nat) {
    a < |s.requests| && (s.requests[a].phase.Fetching? || s.requests[a].phase.Leaving? || s.requests[a].phase.Done?)
  }

  /** A request told True by its own fetch has a mirror. */
  ghost predicate OwnFetchServes(s: State, r: nat)
    requires r < |s.requests|
  {
    var q := s.requests[r];
    var x := RepoAt(s, q.repo);
    (&& (q.phase.Leaving? || q.phase.Done?) && q.phase.served
     && q.cover.Some? && q.cover.value < |x.fetches| && x.fetches[q.cover.value].asker == r)
    ==> x.mirror.Some?
  }

  ghost predicate Served(s: State) {
    (forall d :: Started(s, d)) && forall r :: 0 <= r < |s.requests| ==> OwnFetchServes(s, r)
  }

  /** Fetches keep their starters, and a mirror stays. */
  ghost predicate KeepsStarters(x: Repo, y: Repo) {
    && |x.fetches| <= |y.fetches|
    && (forall i :: 0 <= i < |x.fetches| ==> y.fetches[i].asker == x.fetches[i].asker)
    && (x.mirror.Some? ==> y.mirror.Some?)
  }

  /** Of the request that acts and its repository: what the step adds. */
  ghost predicate ActsOn(s: State, t: State, r: nat)
    requires r < |s.requests| && |t.requests| == |s.requests|
  {
    var d := s.requests[r].repo;
    && KeepsStarters(RepoAt(s, d), RepoAt(t, d)) && t.requests[r].repo == d
    && (forall i :: |RepoAt(s, d).fetches| <= i < |RepoAt(t, d).fetches| ==> RepoAt(t, d).fetches[i].asker == r)
    && (|RepoAt(t, d).fetches| > |RepoAt(s, d).fetches| ==> StartedAt(t, r))
    && (StartedAt(s, r) ==> StartedAt(t, r))
    && OwnFetchServes(t, r)
    && (forall c :: c != d ==> RepoAt(t, c) == RepoAt(s, c))
    && forall i :: 0 <= i < |s.requests| && i != r ==> t.requests[i] == s.requests[i]
  }

  lemma ActIs(s: State, r: nat, a: Action)
    requires Served(s) && Inv(s) && Enabled(s, Thread(r, a))
    ensures |Act(s, r, a).requests| == |s.requests| && ActsOn(s, Act(s, r, a), r)
  {
    hide Inv, Covered, RequestOk;
    assert Started(s, s.requests[r].repo) && OwnFetchServes(s, r);
    CoverInRange(s, r);
  }

  lemma CoverInRange(s: State, r: nat)
    requires Inv(s) && r < |s.requests|
    ensures s.requests[r].cover.Some? ==> s.requests[r].cover.value < |RepoAt(s, s.requests[r].repo).fetches|
  {
    RequestAt(s, r);
  }

  lemma ActServed(s: State, t: State, r: nat)
    requires Served(s) && Inv(s) && r < |s.requests| && |t.requests| == |s.requests| && ActsOn(s, t, r)
    ensures Served(t)
  {
    hide Inv;
    forall d
      ensures Started(t, d)
    {
      assert Started(s, d);
    }
    forall i | 0 <= i < |t.requests|
      ensures OwnFetchServes(t, i)
    {
      assert OwnFetchServes(s, i);
      RequestAt(s, i);
    }
  }

  lemma StepServed(s: State, e: Event)
    requires Served(s) && Inv(s) && Enabled(s, e)
    ensures Served(Apply(s, e))
  {
    if e.Thread? {
      hide Served, Inv, Act, ActsOn;
      ActIs(s, e.r, e.action);
      ActServed(s, Act(s, e.r, e.action), e.r);
    } else {
      hide Inv;
      OthersServed(s, e);
    }
  }

  lemma OthersServed(s: State, e: Event)
    requires Served(s) && !e.Thread?
    ensures Served(Apply(s, e))
  {
    var t := Apply(s, e);
    forall d
      ensures Started(t, d)
    {
      assert Started(s, d);
      assert RepoAt(t, d).fetches == RepoAt(s, d).fetches;
      assert forall a :: StartedAt(s, a) ==> StartedAt(t, a);
    }
    forall i | 0 <= i < |t.requests|
      ensures OwnFetchServes(t, i)
    {
      if i < |s.requests| {
        assert OwnFetchServes(s, i);
      }
    }
  }

  lemma {:induction false} RunServed(s: State, run: seq<Event>)
    requires Inv(s) && Served(s) && Playable(s, run)
    ensures Served(Play(s, run))
    decreases |run|
  {
    hide Apply, Enabled, Inv, Served;
    if run == [] {
    } else {
      StepServed(s, run[0]);
      StepKeeps(s, run[0]);
      RunServed(Apply(s, run[0]), run[1..]);
    }
  }

  /** In every run: a request told True while its repository has no mirror was covered by a
      failed fetch that another request started, and no fetch of the repository succeeded. */
  lemma TrueWithoutMirror(run: seq<Event>, r: nat)
    requires Playable(INITIALLY, run) && r < |Play(INITIALLY, run).requests|
    requires var s := Play(INITIALLY, run);
      s.requests[r].phase == Done(true) && RepoAt(s, s.requests[r].repo).mirror.None?
    ensures var s := Play(INITIALLY, run);
      var x, k := RepoAt(s, s.requests[r].repo), s.requests[r].cover;
      && k.Some? && k.value < |x.fetches| && x.fetches[k.value].outcome.Failed? && x.fetches[k.value].asker != r
      && forall i :: 0 <= i < |x.fetches| ==> !x.fetches[i].outcome.Succeeded?
  {
    hide Play, Playable, Inv, Started;
    var s := Play(INITIALLY, run);
    Reached(run);
    StartIsOk();
    StartServed();
    RunServed(INITIALLY, run);
    RequestAt(s, r);
    InvAt(s, s.requests[r].repo);
    assert OwnFetchServes(s, r);
    var x := RepoAt(s, s.requests[r].repo);
    forall i | 0 <= i < |x.fetches|
      ensures !x.fetches[i].outcome.Succeeded?
    {
      assert FetchOk(s.now, x, i);
    }
  }

  lemma StartServed()
    ensures Served(INITIALLY)
  {
  }

  // ---- exactly when a request is refused -------------------------------------------------------------

  /** Event i of the run is the failing end of r's own fetch, and its repository has no mirror. */
  ghost predicate FailsBare(run: seq<Event>, i: int, r: nat) {
    && 0 <= i < |run| && Playable(INITIALLY, run[..i]) && run[i] == Thread(r, EndFetch(false, false))
    && var s := Play(INITIALLY, run[..i]);
       r < |s.requests| && RepoAt(s, s.requests[r].repo).mirror.None?
  }

  predicate Returning(s: State, r: nat) {
    r < |s.requests| && (s.requests[r].phase.Leaving? || s.requests[r].phase.Done?)
  }

  predicate Refused(s: State, r: nat) { Returning(s, r) && !s.requests[r].phase.served }

  /** One step refuses a request only by the failing end of its fetch without a mirror. */
  lemma StepRefuses(s: State, e: Event, r: nat)
    requires Enabled(s, e)
    ensures Refused(Apply(s, e), r)
       <==> || Refused(s, r)
            || (&& r < |s.requests| && e == Thread(r, EndFetch(false, false))
                && RepoAt(s, s.requests[r].repo).mirror.None?)
  {
    hide Covered;
    if e.Thread? && e.r < |s.requests| && e.r != r {
      assert r < |s.requests| ==> Apply(s, e).requests[r] == s.requests[r];
    }
  }

  lemma {:induction false} LastEvent(s: State, run: seq<Event>)
    requires Playable(s, run) && run != []
    ensures var front := run[..|run| - 1];
      Playable(s, front) && Enabled(Play(s, front), run[|run| - 1])
      && Play(s, run) == Apply(Play(s, front), run[|run| - 1])
    decreases |run|
  {
    hide Apply, Enabled;
    var front := run[..|run| - 1];
    if |run| == 1 {
      assert front == [] && run[1..] == [];
    } else {
      assert run[1..][..|run| - 2] == front[1..];
      LastEvent(Apply(s, run[0]), run[1..]);
    }
  }

  /** In every run: a request is refused, at its return or on its way, exactly when its own fetch
      failed and no mirror stood when that fetch ended. */
  lemma {:induction false} RefusedExactly(run: seq<Event>, r: nat)
    requires Playable(INITIALLY, run)
    ensures Refused(Play(INITIALLY, run), r) <==> exists i :: FailsBare(run, i, r)
    decreases |run|
  {
    hide Playable, Play, Apply, Enabled;
    if run == [] {
      NothingRefused(run, r);
    } else {
      var front, n := run[..|run| - 1], |run| - 1;
      LastEvent(INITIALLY, run);
      RefusedExactly(front, r);
      StepRefuses(Play(INITIALLY, front), run[n], r);
      forall i
        ensures FailsBare(run, i, r) <==> FailsBare(front, i, r) || (i == n && FailsBare(run, n, r))
      {
        if 0 <= i < n {
          assert run[..i] == front[..i];
        }
      }
      var here := Play(INITIALLY, front);
      assert FailsBare(run, n, r)
        <==> && run[n] == Thread(r, EndFetch(false, false))
             && r < |here.requests| && RepoAt(here, here.requests[r].repo).mirror.None?;
    }
  }

  lemma NothingRefused(run: seq<Event>, r: nat)
    requires run == []
    ensures Playable(INITIALLY, run) && !Refused(Play(INITIALLY, run), r) && !exists i :: FailsBare(run, i, r)
  {
  }

  /** So a request that asks when its repository has a mirror is served, once it is done. */
  lemma MirrorServes(before: seq<Event>, d: Name, after: seq<Event>)
    requires Playable(INITIALLY, before) && Playable(INITIALLY, before + ([Ask(d)] + after))
    requires RepoAt(Play(INITIALLY, before), d).mirror.Some?
    ensures var t := Play(INITIALLY, before + ([Ask(d)] + after));
      var r := |Play(INITIALLY, before).requests|;
      r < |t.requests| && (t.requests[r].phase.Done? ==> t.requests[r].phase == Done(true))
  {
    hide Playable, Play, Apply, Enabled;
    var run := before + ([Ask(d)] + after);
    var s := Play(INITIALLY, before);
    var r := |s.requests|;
    RefusedExactly(run, r);
    assert run[..|run|] == run;
    AskedIn(before, d, after, run, |run|);
    if i :| FailsBare(run, i, r) {
      AskedIn(before, d, after, run, i);
    }
  }

  /** At every point of the run after the ask the request is there, and the mirror still is. */
  lemma AskedIn(before: seq<Event>, d: Name, after: seq<Event>, run: seq<Event>, i: nat)
    requires run == before + ([Ask(d)] + after) && i <= |run|
    requires Playable(INITIALLY, before) && Playable(INITIALLY, run[..i])
    requires RepoAt(Play(INITIALLY, before), d).mirror.Some?
    ensures var s := Play(INITIALLY, before);
      var t := Play(INITIALLY, run[..i]);
      && (i <= |before| ==> |t.requests| <= |s.requests|)
      && (i > |before| ==>
            |s.requests| < |t.requests| && t.requests[|s.requests|].repo == d && RepoAt(t, d).mirror.Some?)
  {
    hide Playable, Play, Apply, Enabled;
    var s := Play(INITIALLY, before);
    if i <= |before| {
      assert run[..i] == before[..i] && before == before[..i] + before[i..];
      Splits(INITIALLY, before[..i], before[i..]);
      Stays(Play(INITIALLY, before[..i]), before[i..], d);
    } else {
      var more := after[..i - |before| - 1];
      assert run[..i] == before + ([Ask(d)] + more);
      Splits(INITIALLY, before, [Ask(d)] + more);
      AskStays(s, d, more);
    }
  }

  lemma AskStays(s: State, d: Name, more: seq<Event>)
    requires Playable(s, [Ask(d)] + more) && RepoAt(s, d).mirror.Some?
    ensures var t := Play(s, [Ask(d)] + more);
      |s.requests| < |t.requests| && t.requests[|s.requests|].repo == d && RepoAt(t, d).mirror.Some?
  {
    assert ([Ask(d)] + more)[1..] == more;
    var u := Apply(s, Ask(d));
    hide Playable, Play, Apply, Enabled;
    Stays(u, more, d);
    RunLater(u, more, d, |s.requests|);
  }

  lemma {:induction false} Splits(s: State, a: seq<Event>, b: seq<Event>)
    requires Playable(s, a + b)
    ensures Playable(s, a) && Playable(Play(s, a), b) && Play(s, a + b) == Play(Play(s, a), b)
    decreases |a|
  {
    hide Apply, Enabled;
    if a == [] {
      assert a + b == b;
    } else {
      assert (a + b)[1..] == a[1..] + b;
      Splits(Apply(s, a[0]), a[1..], b);
    }
  }

  /** Requests and mirrors stay. */
  lemma {:induction false} Stays(s: State, run: seq<Event>, d: Name)
    requires Playable(s, run)
    ensures |s.requests| <= |Play(s, run).requests|
    ensures RepoAt(s, d).mirror.Some? ==> RepoAt(Play(s, run), d).mirror.Some?
    decreases |run|
  {
    hide Apply, Enabled;
    if run == [] {
    } else {
      StepStays(s, run[0], d);
      Stays(Apply(s, run[0]), run[1..], d);
    }
  }

  lemma StepStays(s: State, e: Event, d: Name)
    requires Enabled(s, e)
    ensures |s.requests| <= |Apply(s, e).requests|
    ensures RepoAt(s, d).mirror.Some? ==> RepoAt(Apply(s, e), d).mirror.Some?
  {
    hide Apply, Enabled, RepoAt, Pending;
    MoreRequests(s, e);
    StepReads(s, e, d);
  }

  lemma MoreRequests(s: State, e: Event)
    requires Enabled(s, e)
    ensures |s.requests| <= |Apply(s, e).requests|
  {
  }

  // ---- which version the mirror holds ----------------------------------------------------------------

  /** The event is a thread's, and its request is for the repository. */
  predicate ActsFor(s: State, e: Event, d: Name) { e.Thread? && e.r < |s.requests| && s.requests[e.r].repo == d }

  /** The version upstream had when a fetch of the repository last read it. */
  ghost function LastRead(run: seq<Event>, d: Name): Option<Version>
    requires Playable(INITIALLY, run)
    decreases |run|
  {
    if run == [] then None
    else
      LastEvent(INITIALLY, run);
      var front, e := run[..|run| - 1], run[|run| - 1];
      var s := Play(INITIALLY, front);
      if ActsFor(s, e, d) && e.action.FetchReads? then Some(RepoAt(s, d).up) else LastRead(front, d)
  }

  /** The version read by the last fetch of the repository that ended well, or failed after it
      had updated the mirror. */
  ghost function Brought(run: seq<Event>, d: Name): Option<Version>
    requires Playable(INITIALLY, run)
    decreases |run|
  {
    if run == [] then None
    else
      LastEvent(INITIALLY, run);
      var front, e := run[..|run| - 1], run[|run| - 1];
      if ActsFor(Play(INITIALLY, front), e, d) && e.action.EndFetch? && (e.action.ok || e.action.partly)
      then LastRead(front, d) else Brought(front, d)
  }

  /** What a running fetch has read. */
  function Pending(x: Repo): Option<Version> {
    if x.fetches != [] && Last(x).outcome.Running? then Last(x).outcome.read else None
  }

  lemma StepReads(s: State, e: Event, d: Name)
    requires Enabled(s, e)
    ensures var (x, y) := (RepoAt(s, d), RepoAt(Apply(s, e), d));
      && y.mirror == (if ActsFor(s, e, d) && e.action.EndFetch? && (e.action.ok || e.action.partly)
                      then Pending(x) else x.mirror)
      && (ActsFor(s, e, d) && e.action.EndFetch? && (e.action.ok || e.action.partly) ==> Pending(x).Some?)
      && (Pending(y).Some? ==>
            Pending(y) == if ActsFor(s, e, d) && e.action.FetchReads? then Some(x.up) else Pending(x))
  {
  }

  /** In every run: the mirror holds the version upstream had when it was read by the last fetch
      that brought one. */
  lemma {:induction false} MirrorExactly(run: seq<Event>, d: Name)
    requires Playable(INITIALLY, run)
    ensures var x := RepoAt(Play(INITIALLY, run), d);
      x.mirror == Brought(run, d) && (Pending(x).Some? ==> Pending(x) == LastRead(run, d))
    decreases |run|
  {
    hide Playable, Apply, Enabled, RepoAt, Pending, ActsFor;
    if run == [] {
      NothingYet(d);
    } else {
      var front := run[..|run| - 1];
      LastEvent(INITIALLY, run);
      MirrorExactly(front, d);
      StepReads(Play(INITIALLY, front), run[|run| - 1], d);
    }
  }

  lemma NothingYet(d: Name)
    ensures RepoAt(INITIALLY, d).mirror == None && Pending(RepoAt(INITIALLY, d)) == None
  {
  }

  // ---- from the start -----------------------------------------------------------------------------

  /** A request that asked when the repository was new, in a later phase. */
  function Early(d: Name, p: Phase): Request { Request(d, 0, 0, 0, Some(0), None, p) }

  /** Some requests have asked for a new repository and found its lock. */
  function Locked(d: Name, requests: seq<Request>): State { State(0, map[], map[d := 0], 1, map[], requests) }

  function OneWaits(d: Name): seq<Event> { [Ask(d), Thread(0, FindLock)] }

  lemma OneWaiting(d: Name)
    ensures Leads(INITIALLY, OneWaits(d), Locked(d, [Early(d, Waiting)]))
  {
    hide Leads;
    var s := State(0, map[], map[], 0, map[], [Early(d, Asked).(lock := None)]);
    TwoEvents(INITIALLY, Ask(d), s, Thread(0, FindLock), Locked(d, [Early(d, Waiting)]));
  }

  /** Then a second request asks, and its lock is there. */
  function AlsoWaits(d: Name, r: nat): seq<Event> { [Ask(d), Thread(r, FindLock)] }

  /** The state with one more request, waiting for its lock. */
  function OneMore(s: State, d: Name): State
    requires d in s.locks
  {
    var x := RepoAt(s, d);
    s.(requests := s.requests + [Request(d, s.now, x.up, |x.fetches|, Some(s.locks[d]), None, Waiting)])
  }

  lemma AlsoWaiting(s: State, d: Name)
    requires d in s.locks
    ensures Leads(s, AlsoWaits(d, |s.requests|), OneMore(s, d))
  {
    hide Leads;
    var r := |s.requests|;
    var t := Apply(s, Ask(d));
    assert t.requests[r := OneMore(s, d).requests[r]] == OneMore(s, d).requests;
    TwoEvents(s, Ask(d), t, Thread(r, FindLock), OneMore(s, d));
  }

  /** Two wait, the clock moves on, and the first clones in vain; then the second is served. */
  function CloneFails(d: Name): seq<Event> {
    OneWaits(d) + (AlsoWaits(d, 1) + ([Tick(1)] + (Begins(0) + (Ends(0, false) + Passes(1)))))
  }

  /** From the start: a request that waited for a clone which then fails is told True although
      there is no mirror at all, for the stamp is written before the fetch. */
  lemma FailedFetchLetsWaiterThrough(d: Name)
    ensures Playable(INITIALLY, CloneFails(d))
    ensures var t := Play(INITIALLY, CloneFails(d));
      1 < |t.requests| && t.requests[1].phase == Done(true) && RepoAt(t, t.requests[1].repo).mirror.None?
  {
    hide Leads;
    OneWaiting(d);
    var s1 := Locked(d, [Early(d, Waiting)]);
    AlsoWaiting(s1, d);
    var s2 := OneMore(s1, d);
    var s3 := s2.(now := 1);
    OneEvent(s2, Tick(1), s3);
    WaiterBegins(s3, 0, 0);
    var s4 := Begun(s3, 0, 0);
    FetcherEnds(s4, 0, false, 0);
    var s5 := Ended(s4, 0, false, 0);
    WaiterPasses(s5, 1, 0);
    var s6 := Became(s5, 1, Done(true), Some(0));
    Then(s4, Ends(0, false), s5, Passes(1), s6);
    Then(s3, Begins(0), s4, Ends(0, false) + Passes(1), s6);
    Then(s2, [Tick(1)], s3, Begins(0) + (Ends(0, false) + Passes(1)), s6);
    Then(s1, AlsoWaits(d, 1), s2, [Tick(1)] + (Begins(0) + (Ends(0, false) + Passes(1))), s6);
    Then(INITIALLY, OneWaits(d), s1, AlsoWaits(d, 1) + ([Tick(1)] + (Begins(0) + (Ends(0, false) + Passes(1)))), s6);
    LeadsIs(INITIALLY, CloneFails(d), s6);
  }

  /** A waiting request fetches, and all goes well. */
  function Fetches(r: nat): seq<Event> { Begins(r) + ([Thread(r, FetchReads)] + Ends(r, true)) }

  function Fetched(s: State, r: nat): State
    requires r < |s.requests|
  {
    var q := s.requests[r];
    var x := RepoAt(s, q.repo);
    var f := Fetch(r, q.askedAt, s.now, x.up, Succeeded(x.up));
    Became(SetRepo(s, q.repo, Repo(x.up, Some(x.up), Some(s.now), x.fetches + [f])), r, Done(true), Some(|x.fetches|))
  }

  lemma WaiterFetches(s: State, r: nat, l: nat)
    requires Waits(s, r, l) && l !in s.holder && !Covered(RepoAt(s, s.requests[r].repo), s.requests[r].askedAt)
    ensures Leads(s, Fetches(r), Fetched(s, r))
  {
    hide Leads;
    var d := s.requests[r].repo;
    var x := RepoAt(s, d);
    WaiterBegins(s, r, l);
    var t := Begun(s, r, l);
    var f := Fetch(r, s.requests[r].askedAt, s.now, x.up, Running(None));
    var g := f.(outcome := Running(Some(x.up)));
    var u := SetRepo(t, d, RepoAt(t, d).(fetches := x.fetches + [g]));
    assert (x.fetches + [f])[|x.fetches| := g] == x.fetches + [g];
    OneEvent(t, Thread(r, FetchReads), u);
    FetcherEnds(u, r, true, l);
    FetchedIs(s, r, l, u);
    Then(t, [Thread(r, FetchReads)], u, Ends(r, true), Fetched(s, r));
    Then(s, Begins(r), t, [Thread(r, FetchReads)] + Ends(r, true), Fetched(s, r));
  }

  lemma FetchedIs(s: State, r: nat, l: nat, u: State)
    requires r < |s.requests| && l !in s.holder
    requires var d := s.requests[r].repo;
      var x := RepoAt(s, d);
      var g := Fetch(r, s.requests[r].askedAt, s.now, x.up, Running(Some(x.up)));
      u == SetRepo(Begun(s, r, l), d, RepoAt(Begun(s, r, l), d).(fetches := x.fetches + [g]))
    ensures Ended(u, r, true, l) == Fetched(s, r)
  {
    var d := s.requests[r].repo;
    var x := RepoAt(s, d);
    var g := Fetch(r, s.requests[r].askedAt, s.now, x.up, Running(Some(x.up)));
    var h := g.(outcome := Succeeded(x.up));
    assert (x.fetches + [g])[|x.fetches| := h] == x.fetches + [h];
    assert s.holder[l := r] - {l} == s.holder;
    assert Ended(u, r, true, l).requests == Fetched(s, r).requests;
    assert Ended(u, r, true, l).repos == Fetched(s, r).repos;
  }

  /** One request clones; upstream moves on, and the next asks within the same clock reading. */
  function AsksInTie(d: Name): seq<Event> {
    OneWaits(d) + (Fetches(0) + ([UpstreamAdvance(d)] + (AlsoWaits(d, 1) + Passes(1))))
  }

  /** From the start: with a tied clock `>=` lets a request through that asked after the fetch
      began and upstream moved on. It is served the older mirror, covered by that fetch. */
  lemma TieServesStale(d: Name)
    ensures Playable(INITIALLY, AsksInTie(d)) && ServedStale(Play(INITIALLY, AsksInTie(d)), 1)
  {
    hide Leads;
    OneWaiting(d);
    var s1 := Locked(d, [Early(d, Waiting)]);
    WaiterFetches(s1, 0, 0);
    var s2 := Fetched(s1, 0);
    var s3 := SetRepo(s2, d, RepoAt(s2, d).(up := 1));
    OneEvent(s2, UpstreamAdvance(d), s3);
    AlsoWaiting(s3, d);
    var s4 := OneMore(s3, d);
    WaiterPasses(s4, 1, 0);
    var s5 := Became(s4, 1, Done(true), Some(0));
    Then(s3, AlsoWaits(d, 1), s4, Passes(1), s5);
    Then(s2, [UpstreamAdvance(d)], s3, AlsoWaits(d, 1) + Passes(1), s5);
    Then(s1, Fetches(0), s2, [UpstreamAdvance(d)] + (AlsoWaits(d, 1) + Passes(1)), s5);
    Then(INITIALLY, OneWaits(d), s1, Fetches(0) + ([UpstreamAdvance(d)] + (AlsoWaits(d, 1) + Passes(1))), s5);
    LeadsIs(INITIALLY, AsksInTie(d), s5);
  }

  // ---- the lock is not fair --------------------------------------------------------------------------

  /** Request 0 waits for the free lock, and no fetch and no arrival is later than now. */
  ghost predicate Overlooked(s: State, d: Name) {
    && d in s.locks && s.locks[d] !in s.holder
    && Waits(s, 0, s.locks[d]) && s.requests[0].repo == d
    && (RepoAt(s, d).stamp.Some? ==> RepoAt(s, d).stamp.value <= s.now)
    && forall r :: 0 <= r < |s.requests| ==> s.requests[r].askedAt <= s.now
  }

  /** The clock moves on; a new request asks, takes the lock, fetches and returns. */
  function Overtakes(d: Name, r: nat): seq<Event> { [Tick(1)] + (AlsoWaits(d, r) + Fetches(r)) }

  lemma OvertakenOnce(s: State, d: Name) returns (t: State)
    requires Overlooked(s, d)
    ensures Leads(s, Overtakes(d, |s.requests|), t) && Overlooked(t, d)
    ensures t.now == s.now + 1 && |t.requests| == |s.requests| + 1 && t.requests[..|s.requests|] == s.requests
    ensures t.requests[|s.requests|].phase == Done(true) && t.requests[|s.requests|].askedAt == t.now
  {
    hide Leads;
    var r := |s.requests|;
    var s1 := s.(now := s.now + 1);
    OneEvent(s, Tick(1), s1);
    AlsoWaiting(s1, d);
    var s2 := OneMore(s1, d);
    WaiterFetches(s2, r, s.locks[d]);
    t := Fetched(s2, r);
    Then(s1, AlsoWaits(d, r), s2, Fetches(r), t);
    Then(s, [Tick(1)], s1, AlsoWaits(d, r) + Fetches(r), t);
  }

  /** The requests from n on are answered, and each asked later than all before it. */
  ghost predicate Answered(requests: seq<Request>, n: nat) {
    && (forall i :: n <= i < |requests| ==> requests[i].phase == Done(true))
    && forall i, j :: 0 <= i < j && n <= j < |requests| ==> requests[i].askedAt < requests[j].askedAt
  }

  lemma {:induction false} OvertakenFrom(s: State, d: Name, n: nat) returns (run: seq<Event>, t: State)
    requires Overlooked(s, d)
    ensures Leads(s, run, t) && Overlooked(t, d)
    ensures |t.requests| == |s.requests| + n && Answered(t.requests, |s.requests|)
    decreases n
  {
    hide Leads;
    if n == 0 {
      run, t := [], s;
      NoRun(s);
    } else {
      var some, u := OvertakenFrom(s, d, n - 1);
      t := OvertakenOnce(u, d);
      run := some + Overtakes(d, |u.requests|);
      Then(s, some, u, Overtakes(d, |u.requests|), t);
      assert forall i :: 0 <= i < |u.requests| ==> t.requests[i] == t.requests[..|u.requests|][i];
    }
  }

  /** No bound on the wait: for every n there is a run in which n requests, each asking at a
      later clock reading than all before it, are answered, and the first still waits. */
  lemma WaiterOvertaken(d: Name, n: nat) returns (run: seq<Event>)
    ensures Playable(INITIALLY, run)
    ensures var t := Play(INITIALLY, run);
      |t.requests| == 1 + n && t.requests[0].phase.Waiting? && Answered(t.requests, 1)
  {
    hide Leads;
    OneWaiting(d);
    var s := Locked(d, [Early(d, Waiting)]);
    var more, t := OvertakenFrom(s, d, n);
    run := OneWaits(d) + more;
    Then(INITIALLY, OneWaits(d), s, more, t);
    LeadsIs(INITIALLY, run, t);
  }
}
