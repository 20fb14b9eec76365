/**
 The protocol does not wedge: locks are held only by live requests, some request can always go on,
 and every step of a request brings the store nearer to having served them all.
 */
module StoreProgress {
  import opened Wrappers
  import opened ChunkPlan
  import opened Hashing
  import opened FileStorage
  import opened StoreProtocol
  import opened StoreSafety

  // ---- Who holds what

  /** Past the point where the digest lock was taken. */
  predicate Keyed(p: Proc) {
    || p.PubKeyed? || p.PubFound? || p.PubAbsent? || p.PubStatted? || p.PubPromoted? || p.PubInserted?
    || p.DelKeyed? || p.DelDecided? || p.GcKeyed? || p.GcChecked?
  }

  predicate AwaitsKey(p: Proc) {
    p.PubMerged? || p.DelRead? || p.GcWaiting?
  }

  /** The dataset whose row a request has locked. */
  function LockedRow(p: Proc): Option<DatasetId> {
    match p
    case Cleanup(_, _) => None
    case GcWaiting(_) => None
    case GcKeyed(_) => None
    case GcChecked(_, _) => None
    case _ => Some(p.ds)
  }

  /** Every lock is held by a live request at a point where it needs it. */
  ghost predicate LocksLive(s: State) {
    && (forall k | k in s.keys :: s.keys[k] in s.procs && Keyed(s.procs[s.keys[k]]))
    && (forall ds | ds in s.rows :: s.rows[ds] in s.procs && LockedRow(s.procs[s.rows[ds]]) == Some(ds))
  }

  /** A request may move to a point that needs the locks it holds. */
  lemma GotoLive(s: State, t: State, pid: Pid, p: Proc)
    requires LocksLive(s) && pid in s.procs && LockedRow(p) == LockedRow(s.procs[pid])
    requires Keyed(s.procs[pid]) ==> Keyed(p)
    requires t.procs == s.procs[pid := p] && t.rows == s.rows && t.keys == s.keys
    ensures LocksLive(t)
  {
  }

  lemma TakeKeyLive(env: Env, s: State, t: State, pid: Pid, sha: Digest, p: Proc)
    requires LocksLive(s) && pid in s.procs && LockedRow(p) == LockedRow(s.procs[pid]) && Keyed(p)
    requires TakeKey(env, s, pid, sha, p) == Some(t)
    ensures LocksLive(t)
  {
  }

  lemma ReleaseLive(s: State, t: State, pid: Pid)
    requires LocksLive(s)
    requires t.procs == Release(s, pid).procs && t.rows == Release(s, pid).rows && t.keys == Release(s, pid).keys
    ensures LocksLive(t)
  {
  }

  lemma UploadLive(env: Env, s: State, t: State, pid: Pid)
    requires LocksLive(s) && pid in s.procs && StepUpload(env, s, pid) == Some(t)
    ensures LocksLive(t)
  {
    if pid in t.procs {
      GotoLive(s, t, pid, t.procs[pid]);
    } else {
      ReleaseLive(s, t, pid);
    }
  }

  lemma PublishLive(env: Env, s: State, t: State, pid: Pid)
    requires LocksLive(s) && pid in s.procs && StepPublish(env, s, pid) == Some(t)
    ensures LocksLive(t)
  {
    if s.procs[pid].PubMerged? {
      var ds := s.procs[pid].ds;
      TakeKeyLive(env, s, t, pid, s.db.datasets[ds].sha, PubKeyed(ds));
    } else {
      PublishMoves(env, s, t, pid);
      if pid in t.procs {
        GotoLive(s, t, pid, t.procs[pid]);
      } else {
        ReleaseLive(s, t, pid);
      }
    }
  }

  /** A step keeps all locks of a request, or releases them with it. */
  ghost predicate KeepsOrReleases(s: State, t: State, pid: Pid)
    requires pid in s.procs
  {
    if pid in t.procs then
      && t.procs == s.procs[pid := t.procs[pid]] && t.rows == s.rows && t.keys == s.keys
      && LockedRow(t.procs[pid]) == LockedRow(s.procs[pid]) && (Keyed(s.procs[pid]) ==> Keyed(t.procs[pid]))
    else
      t.procs == Release(s, pid).procs && t.rows == Release(s, pid).rows && t.keys == Release(s, pid).keys
  }

  lemma MergingMoves(env: Env, s: State, t: State, pid: Pid)
    requires pid in s.procs && StepPublish(env, s, pid) == Some(t) && s.procs[pid].PubMerging?
    ensures KeepsOrReleases(s, t, pid)
  {
  }

  lemma CommittingMoves(env: Env, s: State, t: State, pid: Pid)
    requires pid in s.procs && StepPublish(env, s, pid) == Some(t)
    requires s.procs[pid].PubFound? || s.procs[pid].PubInserted?
    ensures KeepsOrReleases(s, t, pid)
  {
    assert pid !in t.procs;
  }

  lemma KeyedMoves(env: Env, s: State, t: State, pid: Pid)
    requires pid in s.procs && StepPublish(env, s, pid) == Some(t) && Keyed(s.procs[pid])
    requires !s.procs[pid].PubFound? && !s.procs[pid].PubInserted?
    ensures KeepsOrReleases(s, t, pid)
  {
    assert pid in t.procs;
  }

  lemma PublishMoves(env: Env, s: State, t: State, pid: Pid)
    requires pid in s.procs && StepPublish(env, s, pid) == Some(t) && !s.procs[pid].PubMerged?
    ensures KeepsOrReleases(s, t, pid)
  {
    match s.procs[pid]
    case PubMerging(_, _) => MergingMoves(env, s, t, pid);
    case PubFound(_, _) => CommittingMoves(env, s, t, pid);
    case PubInserted(_, _) => CommittingMoves(env, s, t, pid);
    case _ => KeyedMoves(env, s, t, pid);
  }

  /** A deletion that has committed holds nothing. */
  lemma CommittedLive(s: State, t: State, pid: Pid, p: Proc)
    requires LocksLive(s)
    requires t.procs == Release(s, pid).procs[pid := p]
    requires t.rows == Release(s, pid).rows && t.keys == Release(s, pid).keys
    ensures LocksLive(t)
  {
  }

  lemma DeleteLive(env: Env, s: State, t: State, pid: Pid)
    requires LocksLive(s) && pid in s.procs && StepDelete(env, s, pid) == Some(t)
    ensures LocksLive(t)
  {
    match s.procs[pid]
    case DelLocked(_) =>
      if t.procs[pid].Cleanup? {
        CommittedLive(s, t, pid, t.procs[pid]);
      } else {
        GotoLive(s, t, pid, t.procs[pid]);
      }
    case DelRead(ds, id, sha) => TakeKeyLive(env, s, t, pid, sha, DelKeyed(ds, id, sha));
    case DelKeyed(_, _, _) => GotoLive(s, t, pid, t.procs[pid]);
    case DelDecided(_, _, _, _) => CommittedLive(s, t, pid, t.procs[pid]);
    case Cleanup(_, gc) =>
      if gc.Some? {
        GotoLive(s, t, pid, t.procs[pid]);
      } else {
        ReleaseLive(s, t, pid);
      }
  }

  lemma GcLive(env: Env, s: State, t: State, pid: Pid)
    requires LocksLive(s) && pid in s.procs && StepGc(env, s, pid) == Some(t)
    ensures LocksLive(t)
  {
    match s.procs[pid]
    case GcWaiting(sha) => TakeKeyLive(env, s, t, pid, sha, GcKeyed(sha));
    case GcKeyed(_) => GotoLive(s, t, pid, t.procs[pid]);
    case GcChecked(_, _) => ReleaseLive(s, t, pid);
  }

  lemma AdvanceLive(env: Env, s: State, t: State, pid: Pid)
    requires LocksLive(s) && Next(env, s, Advance(pid)) == Some(t)
    ensures LocksLive(t)
  {
    if StepUpload(env, s, pid).Some? {
      UploadLive(env, s, t, pid);
    } else if StepPublish(env, s, pid).Some? {
      PublishLive(env, s, t, pid);
    } else if StepDelete(env, s, pid).Some? {
      DeleteLive(env, s, t, pid);
    } else {
      GcLive(env, s, t, pid);
    }
  }

  lemma StartLive(env: Env, s: State, t: State, e: Event)
    requires LocksLive(s) && (e.BeginUpload? || e.BeginPublish? || e.BeginDelete?) && StartStep(env, s, e) == Some(t)
    ensures LocksLive(t)
  {
  }

  lemma NextLive(env: Env, s: State, t: State, e: Event)
    requires LocksLive(s) && Next(env, s, e) == Some(t)
    ensures LocksLive(t)
  {
    match e
    case Advance(pid) => AdvanceLive(env, s, t, pid);
    case Abort(pid) => ReleaseLive(s, t, pid);
    case BeginUpload(_, _, _, _) => StartLive(env, s, t, e);
    case BeginPublish(_, _) => StartLive(env, s, t, e);
    case BeginDelete(_, _, _) => StartLive(env, s, t, e);
    case _ =>
  }

  /** In every reachable state no lock has leaked. */
  lemma {:induction false} RunLive(env: Env, trace: seq<State>, events: seq<Event>, i: nat)
    requires Run(env, trace, events) && i < |trace|
    ensures LocksLive(trace[i])
  {
    if i == 0 {
    } else {
      RunLive(env, trace, events, i - 1);
      NextLive(env, trace[i - 1], trace[i], events[i - 1]);
    }
  }

  // ---- Somebody can go on

  lemma AnyStepAdvances(env: Env, s: State, pid: Pid)
    requires pid in s.procs
    ensures Next(env, s, Advance(pid)).Some? <==>
      || StepUpload(env, s, pid).Some? || StepPublish(env, s, pid).Some?
      || StepDelete(env, s, pid).Some? || StepGc(env, s, pid).Some?
  {
  }

  predicate Uploads(p: Proc) {
    p.UpLocked? || p.UpWritten?
  }

  predicate Publishes(p: Proc) {
    || p.PubMerging? || p.PubMerged? || p.PubKeyed? || p.PubFound? || p.PubAbsent? || p.PubStatted?
    || p.PubPromoted? || p.PubInserted?
  }

  predicate Deletes(p: Proc) {
    p.DelLocked? || p.DelRead? || p.DelKeyed? || p.DelDecided? || p.Cleanup?
  }

  lemma GoesOn(env: Env, s: State, pid: Pid)
    requires pid in s.procs && ProcOk(env, s, pid) && ReferencesExact(s.db)
    requires AwaitsKey(s.procs[pid]) ==> s.keys == map[]
    ensures Next(env, s, Advance(pid)).Some?
  {
    AnyStepAdvances(env, s, pid);
    if Uploads(s.procs[pid]) {
      UploaderGoesOn(env, s, pid);
    } else if Publishes(s.procs[pid]) {
      PublisherGoesOn(env, s, pid);
    } else if Deletes(s.procs[pid]) {
      DeleterGoesOn(env, s, pid);
    } else {
      CollectorGoesOn(env, s, pid);
    }
  }

  lemma UploaderGoesOn(env: Env, s: State, pid: Pid)
    requires pid in s.procs && Uploads(s.procs[pid])
    ensures StepUpload(env, s, pid).Some?
  {
  }

  lemma CollectorGoesOn(env: Env, s: State, pid: Pid)
    requires pid in s.procs && (s.procs[pid].GcWaiting? ==> s.keys == map[])
    requires !Uploads(s.procs[pid]) && !Publishes(s.procs[pid]) && !Deletes(s.procs[pid])
    ensures StepGc(env, s, pid).Some?
  {
  }

  lemma DeleterGoesOn(env: Env, s: State, pid: Pid)
    requires pid in s.procs && ProcOk(env, s, pid) && ReferencesExact(s.db)
    requires AwaitsKey(s.procs[pid]) ==> s.keys == map[]
    requires Deletes(s.procs[pid])
    ensures StepDelete(env, s, pid).Some?
  {
    if s.procs[pid].DelLocked? && s.db.datasets[s.procs[pid].ds].fileId.Some? {
      assert Refers(s.db, s.procs[pid].ds, s.db.datasets[s.procs[pid].ds].fileId.value);
    }
  }

  lemma PublisherGoesOn(env: Env, s: State, pid: Pid)
    requires pid in s.procs && ProcOk(env, s, pid)
    requires AwaitsKey(s.procs[pid]) ==> s.keys == map[]
    requires Publishes(s.procs[pid])
    ensures StepPublish(env, s, pid).Some?
  {
  }

  /**
   Row locks come first and the digest lock last, so requests never wait for each other in a circle:
   while requests are in progress, one of them can take its next step.
   */
  lemma SomeoneGoesOn(env: Env, s: State) returns (pid: Pid)
    requires Inv(env, s) && LocksLive(s) && s.procs != map[]
    ensures pid in s.procs && Next(env, s, Advance(pid)).Some?
  {
    if q :| q in s.procs && !AwaitsKey(s.procs[q]) {
      pid := q;
    } else {
      pid :| pid in s.procs;
      NoKeyHeld(s);
    }
    assert ProcOk(env, s, pid);
    GoesOn(env, s, pid);
  }

  lemma NoKeyHeld(s: State)
    requires LocksLive(s) && forall q | q in s.procs :: AwaitsKey(s.procs[q])
    ensures s.keys == map[]
  {
    forall k
      ensures k !in s.keys
    {
      assert k in s.keys ==> Keyed(s.procs[s.keys[k]]);
    }
  }

  /** In every reachable state with requests in progress some request can take its next step. */
  lemma NeverWedged(env: Env, trace: seq<State>, events: seq<Event>, i: nat) returns (pid: Pid)
    requires Run(env, trace, events) && i < |trace| && trace[i].procs != map[]
    ensures pid in trace[i].procs && Next(env, trace[i], Advance(pid)).Some?
  {
    RunInvariant(env, trace, events, i);
    RunLive(env, trace, events, i);
    pid := SomeoneGoesOn(env, trace[i]);
  }

  // ---- Every step counts

  /** A bound on the steps a request has left. */
  function StepsLeft(db: Db, p: Proc): nat {
    match p
    case UpLocked(_, _, _) => 2
    case UpWritten(_, _, _) => 1
    case PubMerging(ds, n) =>
      7 + if ds in db.datasets && n < db.datasets[ds].count then db.datasets[ds].count - n else 0
    case PubMerged(_) => 6
    case PubKeyed(_) => 5
    case PubAbsent(_) => 4
    case PubStatted(_, _) => 3
    case PubPromoted(_) => 2
    case PubFound(_, _) => 1
    case PubInserted(_, _) => 1
    case DelLocked(_) => 8
    case DelRead(_, _, _) => 7
    case DelKeyed(_, _, _) => 6
    case DelDecided(_, _, _, _) => 5
    case Cleanup(_, _) => 4
    case GcWaiting(_) => 3
    case GcKeyed(_) => 2
    case GcChecked(_, _) => 1
  }

  ghost function Work(db: Db, procs: map<Pid, Proc>, pids: set<Pid>): nat
    requires pids <= procs.Keys
  {
    if pids == {} then 0
    else
      var p :| p in pids;
      StepsLeft(db, procs[p]) + Work(db, procs, pids - {p})
  }

  lemma {:induction false} WorkSplit(db: Db, procs: map<Pid, Proc>, pids: set<Pid>, p: Pid)
    requires pids <= procs.Keys && p in pids
    ensures Work(db, procs, pids) == StepsLeft(db, procs[p]) + Work(db, procs, pids - {p})
    decreases pids
  {
    var q :| q in pids && Work(db, procs, pids) == StepsLeft(db, procs[q]) + Work(db, procs, pids - {q});
    if q == p {
    } else {
      WorkSplit(db, procs, pids - {q}, p);
      WorkSplit(db, procs, pids - {p}, q);
      assert pids - {q} - {p} == pids - {p} - {q};
    }
  }

  /** Requests that stand still have no more to do than before. */
  lemma {:induction false} WorkOfOthers(a: Db, b: Db, before: map<Pid, Proc>, after: map<Pid, Proc>, pids: set<Pid>)
    requires pids <= before.Keys && pids <= after.Keys
    requires forall q | q in pids :: after[q] == before[q] && StepsLeft(b, after[q]) <= StepsLeft(a, before[q])
    ensures Work(b, after, pids) <= Work(a, before, pids)
    decreases pids
  {
    if pids == {} {
    } else {
      var p :| p in pids;
      WorkSplit(a, before, pids, p);
      WorkSplit(b, after, pids, p);
      WorkOfOthers(a, b, before, after, pids - {p});
    }
  }

  /** What one step leaves: the others where they were, and the one that moved with less to do. */
  ghost predicate Nearer(s: State, t: State, pid: Pid) {
    && t.procs.Keys <= s.procs.Keys && s.procs.Keys - {pid} <= t.procs.Keys
    && (forall q | q in s.procs && q != pid :: t.procs[q] == s.procs[q])
    && SameCounts(s.db, t.db)
    && (pid in t.procs ==> pid in s.procs && StepsLeft(t.db, t.procs[pid]) < StepsLeft(s.db, s.procs[pid]))
  }

  lemma UploadNearer(env: Env, s: State, t: State, pid: Pid)
    requires pid in s.procs && StepUpload(env, s, pid) == Some(t)
    ensures Nearer(s, t, pid)
  {
  }

  /** Nothing happened to the datasets that remain, as far as their chunk counts go. */
  ghost predicate SameCounts(a: Db, b: Db) {
    forall ds | ds in b.datasets :: ds in a.datasets && b.datasets[ds].count == a.datasets[ds].count
  }

  lemma MergingNearer(env: Env, s: State, t: State, pid: Pid)
    requires pid in s.procs && StepPublish(env, s, pid) == Some(t) && s.procs[pid].PubMerging?
    ensures Nearer(s, t, pid)
  {
    assert t.db == s.db;
  }

  /** The steps between merge and commit. */
  lemma WaitingNearer(env: Env, s: State, t: State, pid: Pid)
    requires pid in s.procs && StepPublish(env, s, pid) == Some(t) && !s.procs[pid].PubMerging?
    requires !s.procs[pid].PubFound? && !s.procs[pid].PubInserted?
    ensures Nearer(s, t, pid)
  {
    if s.procs[pid].PubMerged? {
      assert t.procs == s.procs[pid := PubKeyed(s.procs[pid].ds)];
    }
    assert t.db == s.db && pid in t.procs && t.procs == s.procs[pid := t.procs[pid]];
  }

  lemma CommitNearer(env: Env, s: State, t: State, pid: Pid)
    requires pid in s.procs && StepPublish(env, s, pid) == Some(t)
    requires s.procs[pid].PubFound? || s.procs[pid].PubInserted?
    ensures Nearer(s, t, pid)
  {
    assert t.procs == s.procs - {pid} && SameCounts(s.db, t.db);
  }

  lemma PublishNearer(env: Env, s: State, t: State, pid: Pid)
    requires pid in s.procs && StepPublish(env, s, pid) == Some(t)
    ensures Nearer(s, t, pid)
  {
    match s.procs[pid]
    case PubMerging(_, _) => MergingNearer(env, s, t, pid);
    case PubFound(_, _) => CommitNearer(env, s, t, pid);
    case PubInserted(_, _) => CommitNearer(env, s, t, pid);
    case _ => WaitingNearer(env, s, t, pid);
  }

  lemma DeletingNearer(env: Env, s: State, t: State, pid: Pid)
    requires pid in s.procs && StepDelete(env, s, pid) == Some(t)
    requires s.procs[pid].DelRead? || s.procs[pid].DelKeyed?
    ensures Nearer(s, t, pid)
  {
    assert t.db == s.db && pid in t.procs && t.procs == s.procs[pid := t.procs[pid]];
  }

  lemma UnlinkingNearer(env: Env, s: State, t: State, pid: Pid)
    requires pid in s.procs && StepDelete(env, s, pid) == Some(t)
    requires s.procs[pid].DelLocked? || s.procs[pid].DelDecided?
    ensures Nearer(s, t, pid)
  {
    assert pid in t.procs && t.procs == s.procs[pid := t.procs[pid]];
  }

  lemma CleaningNearer(env: Env, s: State, t: State, pid: Pid)
    requires pid in s.procs && StepDelete(env, s, pid) == Some(t) && s.procs[pid].Cleanup?
    ensures Nearer(s, t, pid)
  {
    assert t.db == s.db;
  }

  lemma DeleteNearer(env: Env, s: State, t: State, pid: Pid)
    requires pid in s.procs && StepDelete(env, s, pid) == Some(t)
    ensures Nearer(s, t, pid)
  {
    match s.procs[pid]
    case Cleanup(_, _) => CleaningNearer(env, s, t, pid);
    case DelLocked(_) => UnlinkingNearer(env, s, t, pid);
    case DelDecided(_, _, _, _) => UnlinkingNearer(env, s, t, pid);
    case _ => DeletingNearer(env, s, t, pid);
  }

  lemma GcNearer(env: Env, s: State, t: State, pid: Pid)
    requires pid in s.procs && StepGc(env, s, pid) == Some(t)
    ensures Nearer(s, t, pid)
  {
  }

  /** Every step of a request lowers the work left over all requests, so steps alone cannot go on forever. */
  lemma AdvanceLowersWork(env: Env, s: State, t: State, pid: Pid)
    requires Next(env, s, Advance(pid)) == Some(t)
    ensures Work(t.db, t.procs, t.procs.Keys) < Work(s.db, s.procs, s.procs.Keys)
  {
    if StepUpload(env, s, pid).Some? {
      UploadNearer(env, s, t, pid);
    } else if StepPublish(env, s, pid).Some? {
      PublishNearer(env, s, t, pid);
    } else if StepDelete(env, s, pid).Some? {
      DeleteNearer(env, s, t, pid);
    } else {
      GcNearer(env, s, t, pid);
    }
    NearerIsLess(s, t, pid);
  }

  lemma NearerIsLess(s: State, t: State, pid: Pid)
    requires Nearer(s, t, pid) && pid in s.procs
    ensures Work(t.db, t.procs, t.procs.Keys) < Work(s.db, s.procs, s.procs.Keys)
  {
    var others := s.procs.Keys - {pid};
    WorkSplit(s.db, s.procs, s.procs.Keys, pid);
    WorkOfOthers(s.db, t.db, s.procs, t.procs, others);
    if pid in t.procs {
      assert t.procs.Keys - {pid} == others;
      WorkSplit(t.db, t.procs, t.procs.Keys, pid);
    } else {
      assert t.procs.Keys == others;
    }
  }

  /** Steps of requests, one after the other, from one state to another. */
  ghost predicate Advances(env: Env, s: State, pids: seq<Pid>, t: State)
    decreases |pids|
  {
    if pids == [] then s == t
    else
      var next := Next(env, s, Advance(pids[0]));
      next.Some? && Advances(env, next.value, pids[1..], t)
  }

  /** From any state of the invariant all requests in progress can be brought to their end. */
  lemma {:induction false} AllCanFinish(env: Env, s: State) returns (pids: seq<Pid>, t: State)
    requires Inv(env, s) && LocksLive(s)
    ensures Advances(env, s, pids, t) && t.procs == map[] && |pids| <= Work(s.db, s.procs, s.procs.Keys)
    decreases Work(s.db, s.procs, s.procs.Keys)
  {
    if s.procs == map[] {
      pids, t := [], s;
    } else {
      var pid := SomeoneGoesOn(env, s);
      var next := Next(env, s, Advance(pid)).value;
      NextKeeps(env, s, Advance(pid), next);
      NextLive(env, s, next, Advance(pid));
      AdvanceLowersWork(env, s, next, pid);
      var rest;
      rest, t := AllCanFinish(env, next);
      pids := [pid] + rest;
      assert pids[0] == pid && pids[1..] == rest;
    }
  }
}
