// The shared upstream fetch of scripts/git-cache.py: `refresh` run by any number
// of request threads over any number of repositories, as a state machine whose
// steps are the thread's actions, the clock and the upstream server.
module GitCache {
  import opened Results

  type Name = string
  type Time = nat
  /** Upstream's history of one repository: later versions contain earlier ones. */
  type Version = nat

  // ---- state -----------------------------------------------------------------

  /** `Running(read)`: what the fetch has read from upstream so far. */
  datatype Outcome = Running(read: Option<Version>) | Succeeded(got: Version) | Failed

  /** One upstream fetch or clone. `asker`, `asked` are the request that started it and
      when that one arrived; `upAtStart` is upstream's version when it started. */
  datatype Fetch = Fetch(asker: nat, asked: Time, start: Time, upAtStart: Version, outcome: Outcome)

  /** `stamp` is the repository's entry in LAST_FETCH_START; `fetches` is the history. */
  datatype Repo = Repo(up: Version, mirror: Option<Version>, stamp: Option<Time>, fetches: seq<Fetch>)

  datatype Phase = Asked | Waiting | Holding | Fetching | Leaving(served: bool) | Done(served: bool)

  /** A request thread. `upAtAsk` and `before` record upstream's version and the number of
      fetches begun when it asked; `cover` is the fetch it relies on. */
  datatype Request = Request(repo: Name, askedAt: Time, upAtAsk: Version, before: nat,
                             lock: Option<nat>, cover: Option<nat>, phase: Phase)

  datatype State = State(now: Time, repos: map<Name, Repo>, locks: map<Name, nat>, nextLock: nat,
                         holder: map<nat, nat>, requests: seq<Request>)

  const NEW_REPO := Repo(0, None, None, [])
  const INITIALLY := State(0, map[], map[], 0, map[], [])

  function RepoAt(s: State, d: Name): Repo {
    if d in s.repos then s.repos[d] else NEW_REPO
  }

  // ---- steps -----------------------------------------------------------------

  /** The actions of a request thread after it has asked; `partly` says whether a failed
      fetch had already updated the mirror. */
  datatype Action =
    | FindLock
    | Acquire
    | Skip
    | StartFetch
    | FetchReads
    | EndFetch(ok: bool, partly: bool)
    | Release

  datatype Event =
    | Tick(elapsed: nat)
    | UpstreamAdvance(d: Name)
    | Ask(d: Name)
    | Thread(r: nat, action: Action)

  function Last(x: Repo): Fetch
    requires x.fetches != []
  {
    x.fetches[|x.fetches| - 1]
  }

  /** A fetch that began at or after the request's arrival: LAST_FETCH_START >= asked_at. */
  predicate Covered(x: Repo, askedAt: Time) {
    x.stamp.Some? && x.stamp.value >= askedAt
  }

  /** Whether a request can do an action, with its repository as it is. */
  predicate CanDo(q: Request, x: Repo, holder: map<nat, nat>, a: Action) {
    match a
    case FindLock => q.phase.Asked?
    case Acquire => q.phase.Waiting? && q.lock.Some? && q.lock.value !in holder
    case Skip => q.phase.Holding? && Covered(x, q.askedAt)
    case StartFetch => q.phase.Holding? && !Covered(x, q.askedAt)
    case FetchReads => q.phase.Fetching? && x.fetches != [] && Last(x).outcome == Running(None)
    case EndFetch(ok, partly) =>
      q.phase.Fetching? && x.fetches != [] && Last(x).outcome.Running? &&
      (ok || partly ==> Last(x).outcome.read.Some?) && (partly ==> x.mirror.Some?)
    case Release => q.phase.Leaving? && q.lock.Some?
  }

  predicate Enabled(s: State, e: Event) {
    e.Thread? ==> e.r < |s.requests| &&
                  CanDo(s.requests[e.r], RepoAt(s, s.requests[e.r].repo), s.holder, e.action)
  }

  function WithLast(x: Repo, o: Outcome): Repo
    requires x.fetches != []
  {
    x.(fetches := x.fetches[|x.fetches| - 1 := Last(x).(outcome := o)])
  }

  function Finished(x: Repo, ok: bool, partly: bool): Repo
    requires x.fetches != [] && Last(x).outcome.Running? && (ok || partly ==> Last(x).outcome.read.Some?)
  {
    var read := Last(x).outcome.read;
    if ok then WithLast(x, Succeeded(read.value)).(mirror := read)
    else WithLast(x, Failed).(mirror := if partly then read else x.mirror)
  }

  function SetRepo(s: State, d: Name, x: Repo): State { s.(repos := s.repos[d := x]) }

  function SetRequest(s: State, r: nat, q: Request): State
    requires r < |s.requests|
  {
    s.(requests := s.requests[r := q])
  }

  function Act(s: State, r: nat, a: Action): State
    requires Enabled(s, Thread(r, a))
  {
    var q := s.requests[r];
    var d := q.repo;
    var x := RepoAt(s, d);
    match a
    case FindLock =>
      // LOCKS.setdefault under LOCKS_GUARD
      var t := if d in s.locks then s else s.(locks := s.locks[d := s.nextLock], nextLock := s.nextLock + 1);
      SetRequest(t, r, q.(lock := Some(t.locks[d]), phase := Waiting))
    case Acquire => SetRequest(s, r, q.(phase := Holding)).(holder := s.holder[q.lock.value := r])
    case Skip =>
      SetRequest(s, r, q.(phase := Leaving(true), cover := if x.fetches == [] then None else Some(|x.fetches| - 1)))
    case StartFetch =>
      var f := Fetch(r, q.askedAt, s.now, x.up, Running(None));
      SetRequest(SetRepo(s, d, x.(stamp := Some(s.now), fetches := x.fetches + [f])), r, q.(phase := Fetching))
    case FetchReads => SetRepo(s, d, WithLast(x, Running(Some(x.up))))
    case EndFetch(ok, partly) =>
      var y := Finished(x, ok, partly);
      SetRequest(SetRepo(s, d, y), r, q.(phase := Leaving(ok || y.mirror.Some?), cover := Some(|x.fetches| - 1)))
    case Release => SetRequest(s, r, q.(phase := Done(q.phase.served))).(holder := s.holder - {q.lock.value})
  }

  function Apply(s: State, e: Event): State
    requires Enabled(s, e)
  {
    match e
    case Tick(elapsed) => s.(now := s.now + elapsed)
    case UpstreamAdvance(d) => SetRepo(s, d, RepoAt(s, d).(up := RepoAt(s, d).up + 1))
    case Ask(d) =>
      var x := RepoAt(s, d);
      s.(requests := s.requests + [Request(d, s.now, x.up, |x.fetches|, None, None, Asked)])
    case Thread(r, a) => Act(s, r, a)
  }

  predicate Playable(s: State, run: seq<Event>)
    decreases |run|
  {
    run != [] ==> Enabled(s, run[0]) && Playable(Apply(s, run[0]), run[1..])
  }

  function Play(s: State, run: seq<Event>): State
    requires Playable(s, run)
    decreases |run|
  {
    if run == [] then s else Play(Apply(s, run[0]), run[1..])
  }

  // ---- the invariant ---------------------------------------------------------

  ghost predicate FetchOk(now: Time, x: Repo, i: nat)
    requires i < |x.fetches|
  {
    var f := x.fetches[i];
    && f.asked <= f.start <= now && f.upAtStart <= x.up
    && match f.outcome
       case Running(read) =>
         && i == |x.fetches| - 1
         && (x.mirror.Some? ==> x.mirror.value <= f.upAtStart)
         && (read.Some? ==> f.upAtStart <= read.value <= x.up)
       case Succeeded(got) => f.upAtStart <= got && x.mirror.Some? && got <= x.mirror.value
       case Failed => true
  }

  /** Fetch j was started by a request that asked after fetch i < j began. */
  ghost predicate Ordered(x: Repo, i: nat, j: nat)
    requires i < j < |x.fetches|
  {
    x.fetches[i].start < x.fetches[j].asked && x.fetches[i].upAtStart <= x.fetches[j].upAtStart
  }

  ghost predicate RepoOk(now: Time, x: Repo) {
    && (forall i :: 0 <= i < |x.fetches| ==> FetchOk(now, x, i))
    && (forall i, j :: 0 <= i < j < |x.fetches| ==> Ordered(x, i, j))
    && x.stamp == (if x.fetches == [] then None else Some(Last(x).start))
    && (x.mirror.Some? ==> x.mirror.value <= x.up)
  }

  /** What a request knows about the fetches of its repository. */
  ghost predicate RequestOk(now: Time, x: Repo, q: Request) {
    && q.askedAt <= now && q.upAtAsk <= x.up && q.before <= |x.fetches|
    && (forall i :: 0 <= i < q.before ==> x.fetches[i].start <= q.askedAt)
    && (forall i :: q.before <= i < |x.fetches| ==> q.upAtAsk <= x.fetches[i].upAtStart)
    && (q.cover.Some? ==>
          && q.cover.value < |x.fetches| && q.askedAt <= x.fetches[q.cover.value].start
          && !x.fetches[q.cover.value].outcome.Running?)
    && (q.phase.Leaving? || q.phase.Done? ==>
          && q.cover.Some?
          && (!q.phase.served ==> x.fetches[q.cover.value].outcome.Failed?))
  }

  predicate HasLock(p: Phase) { p.Holding? || p.Fetching? || p.Leaving? }

  ghost predicate LockOk(s: State, r: nat)
    requires r < |s.requests|
  {
    var q := s.requests[r];
    && (!q.phase.Asked? ==> q.repo in s.locks && q.lock == Some(s.locks[q.repo]))
    && (HasLock(q.phase) ==> q.lock.value in s.holder && s.holder[q.lock.value] == r)
    && (q.phase.Fetching? ==> var x := RepoAt(s, q.repo);
          x.fetches != [] && Last(x).outcome.Running? && Last(x).asker == r && Last(x).asked == q.askedAt)
  }

  ghost predicate HolderOk(s: State, l: nat)
    requires l in s.holder
  {
    var r := s.holder[l];
    r < |s.requests| && HasLock(s.requests[r].phase) && s.requests[r].lock == Some(l)
  }

  ghost predicate RunningOk(s: State, d: Name) {
    var x := RepoAt(s, d);
    x.fetches != [] && Last(x).outcome.Running? ==>
      var a := Last(x).asker;
      a < |s.requests| && s.requests[a].phase.Fetching? && s.requests[a].repo == d
  }

  ghost predicate Data(s: State) {
    && (forall d :: RepoOk(s.now, RepoAt(s, d)))
    && (forall r :: 0 <= r < |s.requests| ==> RequestOk(s.now, RepoAt(s, s.requests[r].repo), s.requests[r]))
  }

  ghost predicate Locks(s: State) {
    && (forall r :: 0 <= r < |s.requests| ==> LockOk(s, r))
    && (forall l :: l in s.holder ==> HolderOk(s, l))
    && (forall d :: RunningOk(s, d))
  }

  ghost predicate Inv(s: State) {
    Data(s) && Locks(s)
  }

  /** How a repository may change while a request looks on. */
  ghost predicate Grows(x: Repo, y: Repo) {
    && |x.fetches| <= |y.fetches| && x.up <= y.up
    && (forall i :: 0 <= i < |x.fetches| ==>
          && y.fetches[i].start == x.fetches[i].start
          && (y.fetches[i].outcome == x.fetches[i].outcome || x.fetches[i].outcome.Running?)
          && y.fetches[i].upAtStart == x.fetches[i].upAtStart)
    && (forall i :: |x.fetches| <= i < |y.fetches| ==> x.up <= y.fetches[i].upAtStart)
  }

  lemma RequestKept(now: Time, later: Time, x: Repo, y: Repo, q: Request)
    requires RequestOk(now, x, q) && Grows(x, y) && now <= later
    ensures RequestOk(later, y, q)
  {
  }

  lemma RepoLater(now: Time, later: Time, x: Repo)
    requires RepoOk(now, x) && now <= later
    ensures RepoOk(later, x)
  {
    forall i | 0 <= i < |x.fetches|
      ensures FetchOk(later, x, i)
    {
      assert FetchOk(now, x, i);
    }
  }

  lemma RepoAdvances(now: Time, x: Repo)
    requires RepoOk(now, x)
    ensures RepoOk(now, x.(up := x.up + 1)) && Grows(x, x.(up := x.up + 1))
  {
    var y := x.(up := x.up + 1);
    forall i | 0 <= i < |y.fetches|
      ensures FetchOk(now, y, i)
    {
      assert FetchOk(now, x, i);
    }
    forall i, j | 0 <= i < j < |y.fetches|
      ensures Ordered(y, i, j)
    {
      assert Ordered(x, i, j);
    }
  }

  lemma RepoStarts(now: Time, x: Repo, r: nat, asked: Time)
    requires RepoOk(now, x) && !Covered(x, asked) && asked <= now
    requires x.fetches != [] ==> !Last(x).outcome.Running?
    ensures var y := x.(stamp := Some(now), fetches := x.fetches + [Fetch(r, asked, now, x.up, Running(None))]);
      RepoOk(now, y) && Grows(x, y)
  {
    var y := x.(stamp := Some(now), fetches := x.fetches + [Fetch(r, asked, now, x.up, Running(None))]);
    forall i | 0 <= i < |y.fetches|
      ensures FetchOk(now, y, i)
    {
      if i < |x.fetches| {
        assert FetchOk(now, x, i);
      }
    }
    forall i, j | 0 <= i < j < |y.fetches|
      ensures Ordered(y, i, j)
    {
      assert FetchOk(now, x, i);
      if j < |x.fetches| {
        assert Ordered(x, i, j);
      } else if i < |x.fetches| - 1 {
        assert Ordered(x, i, |x.fetches| - 1) && FetchOk(now, x, |x.fetches| - 1);
      }
    }
  }

  lemma RepoReads(now: Time, x: Repo)
    requires RepoOk(now, x) && x.fetches != [] && Last(x).outcome.Running?
    ensures var y := WithLast(x, Running(Some(x.up))); RepoOk(now, y) && Grows(x, y)
  {
    var y := WithLast(x, Running(Some(x.up)));
    forall i | 0 <= i < |y.fetches|
      ensures FetchOk(now, y, i)
    {
      assert FetchOk(now, x, i);
    }
    forall i, j | 0 <= i < j < |y.fetches|
      ensures Ordered(y, i, j)
    {
      assert Ordered(x, i, j);
    }
  }

  lemma RepoFinishes(now: Time, x: Repo, ok: bool, partly: bool)
    requires RepoOk(now, x) && x.fetches != [] && Last(x).outcome.Running?
    requires ok || partly ==> Last(x).outcome.read.Some?
    requires partly ==> x.mirror.Some?
    ensures var y := Finished(x, ok, partly);
      RepoOk(now, y) && Grows(x, y) && (x.mirror.Some? ==> y.mirror.Some? && x.mirror.value <= y.mirror.value)
  {
    var y := Finished(x, ok, partly);
    assert FetchOk(now, x, |x.fetches| - 1);
    forall i | 0 <= i < |y.fetches|
      ensures FetchOk(now, y, i)
    {
      assert FetchOk(now, x, i);
    }
    forall i, j | 0 <= i < j < |y.fetches|
      ensures Ordered(y, i, j)
    {
      assert Ordered(x, i, j);
    }
  }

  // ---- every step keeps the invariant -----------------------------------------

  /** Only repository d and request r have changed. */
  lemma DataKept(s: State, t: State, r: nat, d: Name, y: Repo, q: Request)
    requires Data(s) && t.now == s.now && r < |s.requests|
    requires forall c :: RepoAt(t, c) == if c == d then y else RepoAt(s, c)
    requires t.requests == s.requests[r := q] && q.repo == s.requests[r].repo == d
    requires RepoOk(s.now, y) && Grows(RepoAt(s, d), y) && RequestOk(s.now, y, q)
    ensures Data(t)
  {
    hide RepoOk, RequestOk;
    forall i | 0 <= i < |t.requests|
      ensures RequestOk(t.now, RepoAt(t, t.requests[i].repo), t.requests[i])
    {
      if i != r {
        assert RequestOk(s.now, RepoAt(s, s.requests[i].repo), s.requests[i]);
        if s.requests[i].repo == d {
          RequestKept(s.now, s.now, RepoAt(s, d), y, s.requests[i]);
        }
      }
    }
  }

  /** The holder of a repository's lock is alone in using it. */
  lemma HolderIsAlone(s: State, r: nat)
    requires Locks(s) && r < |s.requests| && HasLock(s.requests[r].phase) && !s.requests[r].phase.Fetching?
    ensures var x := RepoAt(s, s.requests[r].repo); x.fetches != [] ==> !Last(x).outcome.Running?
  {
    var d := s.requests[r].repo;
    var x := RepoAt(s, d);
    var a := if x.fetches != [] && Last(x).asker < |s.requests| then Last(x).asker else r;
    assert RunningOk(s, d) && LockOk(s, r) && LockOk(s, a);
  }

  /** An action keeps the request's own repository and the request in order. */
  lemma ActOwn(s: State, r: nat, a: Action)
    requires Inv(s) && Enabled(s, Thread(r, a))
    ensures var t := Act(s, r, a);
      var d := s.requests[r].repo;
      RepoOk(s.now, RepoAt(t, d)) && Grows(RepoAt(s, d), RepoAt(t, d)) && RequestOk(s.now, RepoAt(t, d), t.requests[r])
  {
    hide RepoOk, Locks, Grows, RequestOk, Finished, WithLast, Covered;
    var q := s.requests[r];
    var x := RepoAt(s, q.repo);
    assert RequestOk(s.now, x, q);
    assert RepoOk(s.now, x);
    if a.FindLock? || a.Acquire? || a.Release? {
      GrowsSame(x);
      HandedOver(s.now, x, q, Act(s, r, a).requests[r]);
    } else if a.StartFetch? {
      HolderIsAlone(s, r);
      AskedBefore(s.now, x, q);
      RepoStarts(s.now, x, r, q.askedAt);
      RequestKept(s.now, s.now, x, RepoAt(Act(s, r, a), q.repo), q);
      StillFetching(s.now, RepoAt(Act(s, r, a), q.repo), q);
    } else if a.FetchReads? {
      RepoReads(s.now, x);
      RequestKept(s.now, s.now, x, RepoAt(Act(s, r, a), q.repo), q);
    } else if a.EndFetch? {
      EndFetchData(s, r, a.ok, a.partly);
    } else {
      HolderIsAlone(s, r);
      GrowsSame(x);
      SkipCovers(s.now, x, q);
    }
  }

  lemma AskedBefore(now: Time, x: Repo, q: Request)
    requires RequestOk(now, x, q)
    ensures q.askedAt <= now
  {
  }

  lemma GrowsSame(x: Repo)
    ensures Grows(x, x)
  {
  }

  /** A request that changed only its lock and its phase, before it relied on a fetch or after. */
  lemma HandedOver(now: Time, x: Repo, q: Request, p: Request)
    requires RequestOk(now, x, q) && p == q.(lock := p.lock, phase := p.phase)
    requires !p.phase.Leaving? && (p.phase.Done? ==> q.phase.Leaving? && p.phase.served == q.phase.served)
    ensures RequestOk(now, x, p)
  {
  }

  /** The same of one that began a fetch or is in it. */
  lemma StillFetching(now: Time, x: Repo, q: Request)
    requires RequestOk(now, x, q)
    ensures RequestOk(now, x, q.(phase := Fetching))
  {
  }

  lemma ActData(s: State, r: nat, a: Action)
    requires Inv(s) && Enabled(s, Thread(r, a))
    ensures Data(Act(s, r, a))
  {
    hide RepoOk, RequestOk, Locks, Grows;
    var t := Act(s, r, a);
    var d := s.requests[r].repo;
    ActOwn(s, r, a);
    DataKept(s, t, r, d, RepoAt(t, d), t.requests[r]);
  }

  lemma SkipCovers(now: Time, x: Repo, q: Request)
    requires RepoOk(now, x) && RequestOk(now, x, q) && Covered(x, q.askedAt)
    requires x.fetches != [] ==> !Last(x).outcome.Running?
    ensures x.fetches != [] && RequestOk(now, x, q.(phase := Leaving(true), cover := Some(|x.fetches| - 1)))
  {
  }

  lemma EndFetchData(s: State, r: nat, ok: bool, partly: bool)
    requires Inv(s) && Enabled(s, Thread(r, EndFetch(ok, partly)))
    ensures var t := Act(s, r, EndFetch(ok, partly));
      var d := s.requests[r].repo;
      var y := RepoAt(t, d);
      RepoOk(s.now, y) && Grows(RepoAt(s, d), y) && RequestOk(s.now, y, t.requests[r])
  {
    var q := s.requests[r];
    var x := RepoAt(s, q.repo);
    assert RequestOk(s.now, x, q) && RepoOk(s.now, x) && LockOk(s, r);
    hide RequestOk, RepoOk, Grows, LockOk, Data, Locks, Finished;
    RepoFinishes(s.now, x, ok, partly);
    RequestKept(s.now, s.now, x, Finished(x, ok, partly), q);
    CoverEnds(s.now, x, q, ok, partly);
  }

  /** The fetch a request has just finished covers it. */
  lemma CoverEnds(now: Time, x: Repo, q: Request, ok: bool, partly: bool)
    requires RepoOk(now, x) && x.fetches != [] && Last(x).outcome.Running? && Last(x).asked == q.askedAt
    requires ok || partly ==> Last(x).outcome.read.Some?
    requires RequestOk(now, Finished(x, ok, partly), q)
    ensures var y := Finished(x, ok, partly);
      RequestOk(now, y, q.(phase := Leaving(ok || y.mirror.Some?), cover := Some(|x.fetches| - 1)))
  {
    assert FetchOk(now, x, |x.fetches| - 1);
  }

  /** Two requests inside the same repository's lock are one. */
  lemma OneHolder(s: State, r: nat, i: nat)
    requires Locks(s) && r < |s.requests| && i < |s.requests|
    requires HasLock(s.requests[r].phase) && HasLock(s.requests[i].phase) && s.requests[i].repo == s.requests[r].repo
    ensures r == i
  {
    assert LockOk(s, r) && LockOk(s, i);
  }

  lemma FindLockLocks(s: State, r: nat)
    requires Locks(s) && Enabled(s, Thread(r, FindLock))
    ensures Locks(Act(s, r, FindLock))
  {
    var t := Act(s, r, FindLock);
    forall i | 0 <= i < |t.requests|
      ensures LockOk(t, i)
    {
      assert LockOk(s, i);
    }
    forall l | l in t.holder
      ensures HolderOk(t, l)
    {
      assert HolderOk(s, l);
    }
    forall d
      ensures RunningOk(t, d)
    {
      assert RunningOk(s, d);
    }
  }

  /** Acquire, Skip and Release: only the request's phase and the holder of its lock change. */
  lemma HandoverLocks(s: State, r: nat, a: Action)
    requires Locks(s) && Enabled(s, Thread(r, a)) && (a.Acquire? || a.Skip? || a.Release?)
    ensures Locks(Act(s, r, a))
  {
    var t := Act(s, r, a);
    assert LockOk(s, r);
    forall i | 0 <= i < |t.requests|
      ensures LockOk(t, i)
    {
      assert LockOk(s, i);
    }
    forall l | l in t.holder
      ensures HolderOk(t, l)
    {
      if l in s.holder {
        assert HolderOk(s, l);
      }
    }
    forall d
      ensures RunningOk(t, d)
    {
      assert RunningOk(s, d);
    }
  }

  /** StartFetch, FetchReads and EndFetch: the last fetch of the request's repository changes. */
  lemma FetchLocks(s: State, r: nat, a: Action)
    requires Locks(s) && Enabled(s, Thread(r, a)) && (a.StartFetch? || a.FetchReads? || a.EndFetch?)
    ensures Locks(Act(s, r, a))
  {
    var t := Act(s, r, a);
    var d := s.requests[r].repo;
    assert LockOk(s, r);
    forall i | 0 <= i < |t.requests|
      ensures LockOk(t, i)
    {
      assert LockOk(s, i);
      if i != r && s.requests[i].phase.Fetching? && s.requests[i].repo == d {
        OneHolder(s, r, i);
      }
    }
    forall l | l in t.holder
      ensures HolderOk(t, l)
    {
      assert HolderOk(s, l);
    }
    forall c
      ensures RunningOk(t, c)
    {
      assert RunningOk(s, c);
      if c != d {
        assert RepoAt(t, c) == RepoAt(s, c);
      }
    }
  }

  lemma StepKeeps(s: State, e: Event)
    requires Inv(s) && Enabled(s, e)
    ensures Inv(Apply(s, e))
  {
    var t := Apply(s, e);
    match e
    case Tick(elapsed) => TickKeeps(s, elapsed);
    case UpstreamAdvance(d) => AdvanceKeeps(s, d);
    case Ask(d) => AskKeeps(s, d);
    case Thread(r, a) =>
      ActData(s, r, a);
      if a.FindLock? {
        FindLockLocks(s, r);
      } else if a.Acquire? || a.Skip? || a.Release? {
        HandoverLocks(s, r, a);
      } else {
        FetchLocks(s, r, a);
      }
  }

  lemma TickKeeps(s: State, elapsed: nat)
    requires Inv(s)
    ensures Inv(Apply(s, Tick(elapsed)))
  {
    var t := Apply(s, Tick(elapsed));
    forall d
      ensures RepoOk(t.now, RepoAt(t, d)) && RunningOk(t, d)
    {
      RepoLater(s.now, t.now, RepoAt(s, d));
      assert RunningOk(s, d);
    }
    forall i | 0 <= i < |t.requests|
      ensures RequestOk(t.now, RepoAt(t, t.requests[i].repo), t.requests[i]) && LockOk(t, i)
    {
      var x := RepoAt(s, s.requests[i].repo);
      assert Grows(x, x);
      RequestKept(s.now, t.now, x, x, s.requests[i]);
      assert LockOk(s, i);
    }
    forall l | l in t.holder
      ensures HolderOk(t, l)
    {
      assert HolderOk(s, l);
    }
  }

  lemma AdvanceKeeps(s: State, c: Name)
    requires Inv(s)
    ensures Inv(Apply(s, UpstreamAdvance(c)))
  {
    hide Data, Locks;
    AdvanceData(s, c);
    AdvanceLocks(s, c);
  }

  lemma AdvanceData(s: State, c: Name)
    requires Data(s)
    ensures Data(Apply(s, UpstreamAdvance(c)))
  {
    var t := Apply(s, UpstreamAdvance(c));
    RepoAdvances(s.now, RepoAt(s, c));
    hide RepoOk, RequestOk, Grows;
    forall d
      ensures RepoOk(t.now, RepoAt(t, d))
    {
      assert RepoOk(s.now, RepoAt(s, d));
    }
    forall i | 0 <= i < |t.requests|
      ensures RequestOk(t.now, RepoAt(t, t.requests[i].repo), t.requests[i])
    {
      var d := s.requests[i].repo;
      assert RequestOk(s.now, RepoAt(s, d), s.requests[i]);
      if d == c {
        RequestKept(s.now, s.now, RepoAt(s, c), RepoAt(t, c), s.requests[i]);
      }
    }
  }

  lemma AdvanceLocks(s: State, c: Name)
    requires Locks(s)
    ensures Locks(Apply(s, UpstreamAdvance(c)))
  {
    var t := Apply(s, UpstreamAdvance(c));
    forall d
      ensures RunningOk(t, d)
    {
      assert RunningOk(s, d);
    }
    forall i | 0 <= i < |t.requests|
      ensures LockOk(t, i)
    {
      assert LockOk(s, i);
    }
    forall l | l in t.holder
      ensures HolderOk(t, l)
    {
      assert HolderOk(s, l);
    }
  }

  lemma AskKeeps(s: State, c: Name)
    requires Inv(s)
    ensures Inv(Apply(s, Ask(c)))
  {
    var t := Apply(s, Ask(c));
    forall d
      ensures RepoOk(t.now, RepoAt(t, d)) && RunningOk(t, d)
    {
      assert RepoOk(s.now, RepoAt(s, d)) && RunningOk(s, d);
    }
    forall i | 0 <= i < |s.requests|
      ensures RequestOk(t.now, RepoAt(t, t.requests[i].repo), t.requests[i]) && LockOk(t, i)
    {
      assert RequestOk(s.now, RepoAt(s, s.requests[i].repo), s.requests[i]) && LockOk(s, i);
    }
    NewRequestOk(s.now, RepoAt(s, c), c);
    forall l | l in t.holder
      ensures HolderOk(t, l)
    {
      assert HolderOk(s, l);
    }
  }

  lemma NewRequestOk(now: Time, x: Repo, c: Name)
    requires RepoOk(now, x)
    ensures RequestOk(now, x, Request(c, now, x.up, |x.fetches|, None, None, Asked))
  {
    forall k | 0 <= k < |x.fetches|
      ensures x.fetches[k].start <= now
    {
      assert FetchOk(now, x, k);
    }
  }

  lemma {:induction false} RunKeeps(s: State, run: seq<Event>)
    requires Inv(s) && Playable(s, run)
    ensures Inv(Play(s, run))
    decreases |run|
  {
    if run == [] {
    } else {
      StepKeeps(s, run[0]);
      RunKeeps(Apply(s, run[0]), run[1..]);
    }
  }

  lemma Reached(run: seq<Event>)
    requires Playable(INITIALLY, run)
    ensures Inv(Play(INITIALLY, run))
  {
    RunKeeps(INITIALLY, run);
  }

  // ---- results ------------------------------------------------------------------

  /** Request i is inside a fetch of repository d. */
  predicate Fetches(s: State, i: int, d: Name) {
    0 <= i < |s.requests| && s.requests[i].repo == d && s.requests[i].phase.Fetching?
  }

  /** In every run at most one thread fetches a repository, and at most one of its fetches runs. */
  lemma OneFetchAtATime(run: seq<Event>, d: Name)
    requires Playable(INITIALLY, run)
    ensures var s := Play(INITIALLY, run);
      && (forall i, j :: Fetches(s, i, d) && Fetches(s, j, d) ==> i == j)
      && (forall k :: 0 <= k < |RepoAt(s, d).fetches| && RepoAt(s, d).fetches[k].outcome.Running? ==>
            k == |RepoAt(s, d).fetches| - 1)
  {
    var s := Play(INITIALLY, run);
    Reached(run);
    forall i, j | Fetches(s, i, d) && Fetches(s, j, d)
      ensures i == j
    {
      OneHolder(s, i, j);
    }
    var x := RepoAt(s, d);
    forall k | 0 <= k < |x.fetches| && x.fetches[k].outcome.Running?
      ensures k == |x.fetches| - 1
    {
      assert FetchOk(s.now, x, k);
    }
  }

  /** No fetch begun before the request asked shows the very clock reading of its arrival. */
  ghost predicate Untied(x: Repo, q: Request) {
    0 < q.before <= |x.fetches| ==> x.fetches[q.before - 1].start < q.askedAt
  }

  /** A request that returns after a successful covering fetch finds a mirror at least as new
      as upstream was when it asked, then and ever after. */
  lemma Fresh(run: seq<Event>, r: nat)
    requires Playable(INITIALLY, run)
    requires var s := Play(INITIALLY, run);
      r < |s.requests| && s.requests[r].phase.Done? && Untied(RepoAt(s, s.requests[r].repo), s.requests[r])
    ensures var s := Play(INITIALLY, run);
      var q, x := s.requests[r], RepoAt(s, s.requests[r].repo);
      && q.cover.Some? && q.cover.value < |x.fetches| && q.askedAt <= x.fetches[q.cover.value].start
      && (x.fetches[q.cover.value].outcome.Succeeded? ==>
            q.phase.served && x.mirror.Some? && q.upAtAsk <= x.mirror.value)
      && (!q.phase.served ==> x.fetches[q.cover.value].outcome.Failed?)
  {
    var s := Play(INITIALLY, run);
    Reached(run);
    var q, x := s.requests[r], RepoAt(s, s.requests[r].repo);
    assert RequestOk(s.now, x, q);
    var k := q.cover.value;
    assert FetchOk(s.now, x, k);
    if k < q.before - 1 {
      assert FetchOk(s.now, x, q.before - 1) && Ordered(x, k, q.before - 1);
    }
  }

  /** Every fetch after the first was started by a request that asked after the previous one
      began; so requests that all asked by time T cause at most one fetch that starts at or after T. */
  lemma FetchesShared(run: seq<Event>, d: Name, T: Time)
    requires Playable(INITIALLY, run)
    ensures var fs := RepoAt(Play(INITIALLY, run), d).fetches;
      && (forall i, j :: 0 <= i < j < |fs| ==> fs[i].start < fs[j].asked)
      && (forall i, j :: 0 <= i < |fs| && 0 <= j < |fs| ==>
            fs[i].asked <= T <= fs[i].start && fs[j].asked <= T <= fs[j].start ==> i == j)
  {
    var s := Play(INITIALLY, run);
    Reached(run);
    var x := RepoAt(s, d);
    assert RepoOk(s.now, x);
    forall i, j | 0 <= i < j < |x.fetches|
      ensures x.fetches[i].start < x.fetches[j].asked
    {
      assert Ordered(x, i, j);
    }
  }

  /** Each repository has a lock of its own. */
  ghost predicate LocksApart(s: State) {
    && (forall d :: d in s.locks ==> s.locks[d] < s.nextLock)
    && forall d, e :: d in s.locks && e in s.locks && s.locks[d] == s.locks[e] ==> d == e
  }

  lemma StaysApart(s: State, e: Event)
    requires LocksApart(s) && Enabled(s, e)
    ensures LocksApart(Apply(s, e))
  {
    hide CanDo, Finished, WithLast;
  }

  lemma {:induction false} RunApart(s: State, run: seq<Event>)
    requires LocksApart(s) && Playable(s, run)
    ensures LocksApart(Play(s, run))
    decreases |run|
  {
    hide Apply, LocksApart;
    if run == [] {
    } else {
      StaysApart(s, run[0]);
      RunApart(Apply(s, run[0]), run[1..]);
    }
  }

  /** While a request is unanswered some request for the same repository can act: neither a
      fetch nor the lock of another repository holds it up. */
  lemma NoDeadlock(run: seq<Event>, r: nat)
    requires Playable(INITIALLY, run)
    requires r < |Play(INITIALLY, run).requests| && !Play(INITIALLY, run).requests[r].phase.Done?
    ensures var s := Play(INITIALLY, run);
      exists i: nat, a ::
        i < |s.requests| && s.requests[i].repo == s.requests[r].repo && Enabled(s, Thread(i, a))
  {
    hide LockOk, HolderOk, Enabled, Data;
    var s := Play(INITIALLY, run);
    Reached(run);
    RunApart(INITIALLY, run);
    var i := SameRepoActs(s, r);
    var a :| Enabled(s, Thread(i, a));
  }

  lemma SameRepoActs(s: State, r: nat) returns (i: nat)
    requires Locks(s) && LocksApart(s) && r < |s.requests| && !s.requests[r].phase.Done?
    ensures i < |s.requests| && s.requests[i].repo == s.requests[r].repo && exists a :: Enabled(s, Thread(i, a))
  {
    hide Covered;
    assert LockOk(s, r);
    var q := s.requests[r];
    i := r;
    if q.phase.Waiting? && q.lock.value in s.holder {
      i := s.holder[q.lock.value];
      assert HolderOk(s, q.lock.value) && LockOk(s, i);
      InsideCanAct(s, i);
    } else if HasLock(q.phase) {
      InsideCanAct(s, r);
    } else if q.phase.Asked? {
      assert Enabled(s, Thread(r, FindLock));
    } else {
      assert Enabled(s, Thread(r, Acquire));
    }
  }

  lemma InsideCanAct(s: State, h: nat)
    requires h < |s.requests| && LockOk(s, h) && HasLock(s.requests[h].phase)
    ensures exists a :: Enabled(s, Thread(h, a))
  {
    if Enabled(s, Thread(h, Skip)) || Enabled(s, Thread(h, StartFetch)) || Enabled(s, Thread(h, Release)) {
    } else {
      assert Enabled(s, Thread(h, EndFetch(false, false)));
    }
  }

  /** The actions a request has left at most. */
  ghost function Left(s: State, r: nat): nat
    requires r < |s.requests|
  {
    var q := s.requests[r];
    match q.phase
    case Asked => 6
    case Waiting => 5
    case Holding => 4
    case Fetching => if CanDo(q, RepoAt(s, q.repo), s.holder, FetchReads) then 3 else 2
    case Leaving(_) => 1
    case Done(_) => 0
  }

  /** Every action uses up one of its request's and none of another's. */
  lemma ActionUsesUp(s: State, r: nat, a: Action, i: nat)
    requires Inv(s) && Enabled(s, Thread(r, a)) && i < |s.requests|
    ensures var t := Act(s, r, a);
      && |t.requests| == |s.requests|
      && (if i == r then Left(t, i) < Left(s, i) else Left(t, i) == Left(s, i))
  {
    if i == r {
      assert LockOk(s, r);
      OwnLeft(s, r, a);
    } else {
      if HasLock(s.requests[r].phase) && s.requests[i].phase.Fetching? && s.requests[i].repo == s.requests[r].repo {
        OneHolder(s, r, i);
      }
      OtherLeft(s, r, a, i);
    }
  }

  lemma OwnLeft(s: State, r: nat, a: Action)
    requires Enabled(s, Thread(r, a))
    ensures var t := Act(s, r, a); |t.requests| == |s.requests| && Left(t, r) < Left(s, r)
  {
    hide Covered;
  }

  /** Another request's actions are touched only by a fetch of its own repository. */
  lemma OtherLeft(s: State, r: nat, a: Action, i: nat)
    requires Enabled(s, Thread(r, a)) && i < |s.requests| && i != r
    requires !(HasLock(s.requests[r].phase) && s.requests[i].phase.Fetching?
             && s.requests[i].repo == s.requests[r].repo)
    ensures var t := Act(s, r, a); |t.requests| == |s.requests| && Left(t, i) == Left(s, i)
  {
    hide Covered, Finished, WithLast;
  }

  /** The actions the first n requests have left at most. */
  ghost function AllLeft(s: State, n: nat): nat
    requires n <= |s.requests|
  {
    if n == 0 then 0 else AllLeft(s, n - 1) + Left(s, n - 1)
  }

  function Asks(run: seq<Event>): nat
    decreases |run|
  {
    if run == [] then 0 else (if run[0].Ask? then 1 else 0) + Asks(run[1..])
  }

  function Actions(run: seq<Event>): nat
    decreases |run|
  {
    if run == [] then 0 else (if run[0].Thread? then 1 else 0) + Actions(run[1..])
  }

  lemma {:induction false} SameLeft(s: State, t: State, n: nat)
    requires n <= |s.requests| && n <= |t.requests|
    requires forall i :: 0 <= i < n ==> Left(s, i) == Left(t, i)
    ensures AllLeft(s, n) == AllLeft(t, n)
  {
    hide Left;
    if n == 0 {
    } else {
      SameLeft(s, t, n - 1);
    }
  }

  lemma {:induction false} LessLeft(s: State, t: State, r: nat, n: nat)
    requires r < n <= |s.requests| && n <= |t.requests|
    requires forall i :: 0 <= i < n ==> if i == r then Left(t, i) < Left(s, i) else Left(s, i) == Left(t, i)
    ensures AllLeft(t, n) < AllLeft(s, n)
  {
    hide Left;
    if n == r + 1 {
      SameLeft(s, t, r);
    } else {
      LessLeft(s, t, r, n - 1);
    }
  }

  /** An ask brings six actions, a thread's action uses one up, other events none. */
  lemma StepUses(s: State, e: Event)
    requires Inv(s) && Enabled(s, e)
    ensures var t := Apply(s, e);
      AllLeft(t, |t.requests|) + (if e.Thread? then 1 else 0) <= AllLeft(s, |s.requests|) + if e.Ask? then 6 else 0
  {
    hide Inv, AllLeft;
    var t := Apply(s, e);
    var n := |s.requests|;
    if e.Thread? {
      forall i | 0 <= i < n
        ensures if i == e.r then Left(t, i) < Left(s, i) else Left(s, i) == Left(t, i)
      {
        ActionUsesUp(s, e.r, e.action, i);
      }
      ActionUsesUp(s, e.r, e.action, e.r);
      LessLeft(s, t, e.r, n);
    } else {
      OthersUseNone(s, e);
      SameLeft(s, t, n);
      AllLeftAsked(t, n);
    }
  }

  lemma OthersUseNone(s: State, e: Event)
    requires !e.Thread?
    ensures var t := Apply(s, e);
      && (if e.Ask? then |t.requests| == |s.requests| + 1 && t.requests[|s.requests|].phase.Asked?
          else |t.requests| == |s.requests|)
      && forall i :: 0 <= i < |s.requests| ==> Left(s, i) == Left(t, i)
  {
  }

  lemma AllLeftAsked(t: State, n: nat)
    requires n < |t.requests| ==> t.requests[n].phase.Asked?
    ensures n < |t.requests| ==> AllLeft(t, n + 1) == AllLeft(t, n) + 6
  {
  }

  lemma {:induction false} RunUses(s: State, run: seq<Event>)
    requires Inv(s) && Playable(s, run)
    ensures var t := Play(s, run);
      AllLeft(t, |t.requests|) + Actions(run) <= AllLeft(s, |s.requests|) + 6 * Asks(run)
    decreases |run|
  {
    hide Inv, AllLeft, Apply;
    if run == [] {
    } else {
      StepUses(s, run[0]);
      StepKeeps(s, run[0]);
      RunUses(Apply(s, run[0]), run[1..]);
    }
  }

  lemma StartIsOk()
    ensures Inv(INITIALLY)
  {
  }

  /** In every run the threads act at most six times for each request that asked, and they
      can go no further exactly when every request is answered. */
  lemma ActionsRunOut(run: seq<Event>)
    requires Playable(INITIALLY, run)
    ensures Actions(run) <= 6 * Asks(run)
    ensures (forall i, a :: !Enabled(Play(INITIALLY, run), Thread(i, a)))
       <==> forall r :: 0 <= r < |Play(INITIALLY, run).requests| ==> Play(INITIALLY, run).requests[r].phase.Done?
  {
    hide Inv, Play, Playable;
    StartIsOk();
    RunUses(INITIALLY, run);
    assert AllLeft(INITIALLY, 0) == 0;
    Reached(run);
    var s := Play(INITIALLY, run);
    if r :| 0 <= r < |s.requests| && !s.requests[r].phase.Done? {
      NoDeadlock(run, r);
    }
  }
}
