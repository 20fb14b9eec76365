/** What clients and operators may rely on about leases. */
module LeasingTheorems {
  import opened Wrappers
  import opened Leasing
  import opened LeasingSafety

  // ---- At every commit

  /** Allocation and sessions agree, address by address, and only usable unreserved addresses are given out. */
  lemma AllocatedMeansHeld(env: Env, db: Db, a: nat)
    requires Reached(env, db) && a < |db.addresses|
    ensures db.addresses[a].status.Allocated? <==> exists i :: Holds(db.leases, i, a)
    ensures forall i, j | Holds(db.leases, i, a) && Holds(db.leases, j, a) :: i == j
    ensures db.addresses[a].status.Allocated? ==> db.addresses[a].kind.Usable? && !db.addresses[a].reserved
  {
    ReachedInv(env, db);
    assert db.addresses[a].status.Allocated? <==> Held(db.leases, a);
  }

  ghost function AllocatedIn(db: Db, pool: nat): set<nat> {
    set a | 0 <= a < |db.addresses| && db.addresses[a].pool == pool && db.addresses[a].status.Allocated?
  }

  ghost function ActiveIn(env: Env, db: Db, pool: nat): set<nat> {
    set i | 0 <= i < |db.leases| && db.leases[i].active && db.leases[i].point in env.points
      && env.points[db.leases[i].point].pool == pool
  }

  /** A pool has as many allocated addresses as its access points have active sessions. */
  lemma PoolBalance(env: Env, db: Db, pool: nat)
    requires Reached(env, db)
    ensures |AllocatedIn(db, pool)| == |ActiveIn(env, db, pool)|
  {
    ReachedInv(env, db);
    var active := ActiveIn(env, db, pool);
    forall a | a in AllocatedIn(db, pool)
      ensures exists i :: i in active && db.leases[i].address == a
    {
      assert Held(db.leases, a);
      var i: nat :| Holds(db.leases, i, a);
      assert LeaseOk(env, db.devices, db.addresses, db.leases[i], i);
      assert i in active;
    }
    forall i | i in active
      ensures db.leases[i].address in AllocatedIn(db, pool)
    {
      assert LeaseOk(env, db.devices, db.addresses, db.leases[i], i);
      assert Holds(db.leases, i, db.leases[i].address);
    }
    SameSize(db.leases, active, AllocatedIn(db, pool));
  }

  lemma {:induction false} SameSize(leases: seq<Lease>, rows: set<nat>, addresses: set<nat>)
    requires forall i | i in rows :: i < |leases| && leases[i].address in addresses
    requires forall i, j | i in rows && j in rows && i != j :: leases[i].address != leases[j].address
    requires forall a | a in addresses :: exists i :: i in rows && leases[i].address == a
    ensures |rows| == |addresses|
  {
    if rows == {} {
      assert addresses == {};
    } else {
      var i :| i in rows;
      forall a | a in addresses - {leases[i].address}
        ensures exists j :: j in rows - {i} && leases[j].address == a
      {
        var j :| j in rows && leases[j].address == a;
        assert j in rows - {i};
      }
      SameSize(leases, rows - {i}, addresses - {leases[i].address});
    }
  }

  ghost function TerminationsOf(terminations: seq<Termination>, i: nat): set<nat> {
    set t | 0 <= t < |terminations| && terminations[t].lease == i
  }

  /** A session is closed by exactly one termination record; an active one has none. */
  lemma ClosedOnce(env: Env, db: Db, i: nat)
    requires Reached(env, db) && i < |db.leases|
    ensures |TerminationsOf(db.terminations, i)| == if db.leases[i].active then 0 else 1
  {
    ReachedInv(env, db);
    if db.leases[i].active {
      assert !Terminated(db.terminations, i);
      assert TerminationsOf(db.terminations, i) == {};
    } else {
      var t :| 0 <= t < |db.terminations| && db.terminations[t].lease == i;
      assert TerminationsOf(db.terminations, i) == {t};
    }
  }

  /** A device has at most one active session, with its strictly largest generation; a revoked device has none. */
  lemma NewestOnly(env: Env, db: Db, i: nat)
    requires Reached(env, db) && Active(db.leases, i)
    ensures forall j | 0 <= j < |db.leases| && j != i && db.leases[j].device == db.leases[i].device ::
              !db.leases[j].active && db.leases[j].generation < db.leases[i].generation
    ensures db.leases[i].device in db.devices && !db.devices[db.leases[i].device].revoked
  {
    ReachedInv(env, db);
    assert LeaseOk(env, db.devices, db.addresses, db.leases[i], i);
  }

  lemma WithinCapacity(env: Env, db: Db, point: PointId)
    requires Reached(env, db) && point in env.points
    ensures |ActiveAt(db.leases, point)| <= env.points[point].capacity
  {
    ReachedInv(env, db);
  }

  // ---- Connecting

  ghost predicate Establishes(env: Env, db: Db, dev: DeviceId, point: PointId, key: string, locked: set<nat>,
      random: string, now: int) {
    var r := Connect(env, db, dev, point, key, locked, random, now);
    r.Ok? && !r.value.reused
  }

  lemma EstablishedLeases(env: Env, db: Db, dev: DeviceId, point: PointId, key: string, locked: set<nat>,
      random: string, now: int)
    returns (a: nat, l: Lease)
    requires Inv(env, db) && Establishes(env, db, dev, point, key, locked, random, now)
    ensures point in env.points && Lowest(db.addresses, env.points[point].pool, locked) == Some(a)
    ensures l == NewLease(env, db, dev, point, key, a, random, now)
    ensures var c := Connect(env, db, dev, point, key, locked, random, now).value;
            && c.db.leases == ReleaseCurrent(db, dev, Reconnect).leases + [l]
            && c.lease == |db.leases| == |ReleaseCurrent(db, dev, Reconnect).leases|
            && c.reconnected == Current(db.leases, dev).Some? && c.token == Token(env, c.lease, key, random)
    ensures Current(db.leases, dev).Some? ==> db.leases[Current(db.leases, dev).value].address != a
  {
    a := Lowest(db.addresses, env.points[point].pool, locked).value;
    l := NewLease(env, db, dev, point, key, a, random, now);
    EstablishIs(env, db, dev, point, key, a, random, now);
  }

  lemma ClearedLeases(db: Db, dev: DeviceId)
    requires TerminationsOk(db.leases, db.terminations)
    ensures var after := ReleaseCurrent(db, dev, Reconnect).leases;
            && |after| == |db.leases|
            && forall i | 0 <= i < |db.leases| ::
                 after[i] == if Some(i) == Current(db.leases, dev) then db.leases[i].(active := false) else db.leases[i]
  {
    if Current(db.leases, dev).Some? {
      ReleaseCurrentIs(db, dev, Reconnect);
    }
  }

  /** A connection that is not a replay makes one new session, at the lowest address it may take. */
  lemma ConnectMakesOne(env: Env, db: Db, dev: DeviceId, point: PointId, key: string, locked: set<nat>, random: string,
      now: int)
    requires Inv(env, db) && Establishes(env, db, dev, point, key, locked, random, now)
    ensures var c := Connect(env, db, dev, point, key, locked, random, now).value;
            && c.lease == |db.leases| && |c.db.leases| == |db.leases| + 1
            && c.reconnected == Current(db.leases, dev).Some?
            && ActiveFor(c.db.leases, c.lease, dev) && c.db.leases[c.lease].point == point
            && Some(c.db.leases[c.lease].address) == Lowest(db.addresses, env.points[point].pool, locked)
  {
    var a, l := EstablishedLeases(env, db, dev, point, key, locked, random, now);
  }

  /** It ends the device's old session, if there is one, and leaves every other session as it was. */
  lemma ConnectEndsOne(env: Env, db: Db, dev: DeviceId, point: PointId, key: string, locked: set<nat>, random: string,
      now: int)
    requires Inv(env, db) && Establishes(env, db, dev, point, key, locked, random, now)
    ensures var after := Connect(env, db, dev, point, key, locked, random, now).value.db.leases;
            && |after| == |db.leases| + 1
            && forall i | 0 <= i < |db.leases| ::
                 after[i] == if Some(i) == Current(db.leases, dev) then db.leases[i].(active := false) else db.leases[i]
  {
    var a, l := EstablishedLeases(env, db, dev, point, key, locked, random, now);
    ClearedLeases(db, dev);
  }

  /** The new session has a generation above all the device has had, and another address than the one given up. */
  lemma ConnectMovesOn(env: Env, db: Db, dev: DeviceId, point: PointId, key: string, locked: set<nat>, random: string,
      now: int)
    requires Inv(env, db) && Establishes(env, db, dev, point, key, locked, random, now)
    ensures var c := Connect(env, db, dev, point, key, locked, random, now).value;
            c.db.leases != [] &&
            var l := c.db.leases[|c.db.leases| - 1];
            && (forall i | 0 <= i < |db.leases| && db.leases[i].device == dev :: db.leases[i].generation < l.generation)
            && (Current(db.leases, dev).Some? ==> db.leases[Current(db.leases, dev).value].address != l.address)
  {
    var a, l := EstablishedLeases(env, db, dev, point, key, locked, random, now);
    GenerationAbove(db, dev);
  }

  lemma GenerationAbove(db: Db, dev: DeviceId)
    requires TerminationsOk(db.leases, db.terminations)
    ensures forall i | 0 <= i < |db.leases| && db.leases[i].device == dev ::
              db.leases[i].generation <= LastGeneration(ReleaseCurrent(db, dev, Reconnect).leases, dev)
  {
    ClearedLeases(db, dev);
    var cleared := ReleaseCurrent(db, dev, Reconnect).leases;
    forall i | 0 <= i < |db.leases| && db.leases[i].device == dev
      ensures db.leases[i].generation <= LastGeneration(cleared, dev)
    {
      assert cleared[i].generation == db.leases[i].generation && cleared[i].device == dev;
    }
  }

  /**
   A connection is refused for want of room exactly when the point is full of other devices, whatever
   the device holds itself.
   */
  lemma FullMeansOthers(env: Env, db: Db, dev: DeviceId, point: PointId, key: string, locked: set<nat>, random: string,
      now: int)
    requires Inv(env, db)
    requires dev in db.devices && !db.devices[dev].revoked
    requires point in env.points && env.points[point].tenant == db.devices[dev].tenant
    requires !Replays(db, dev, point, key)
    ensures Connect(env, db, dev, point, key, locked, random, now) == Err(CapacityExceeded)
       <==> |OthersAt(db.leases, point, dev)| == env.points[point].capacity
    ensures Connect(env, db, dev, point, key, locked, random, now) == Err(PoolExhausted)
       <==> |OthersAt(db.leases, point, dev)| < env.points[point].capacity
            && forall a: nat :: !Assignable(db.addresses, a, env.points[point].pool, locked)
    ensures Connect(env, db, dev, point, key, locked, random, now) != Err(LeaseConflict)
  {
    SubsetSize(OthersAt(db.leases, point, dev), ActiveAt(db.leases, point));
    var a := Lowest(db.addresses, env.points[point].pool, locked);
    if a.Some? {
      EstablishIs(env, db, dev, point, key, a.value, random, now);
    }
  }

  /** The token a connection returns is the one its session accepts, replayed or not. */
  lemma TokenIsAccepted(env: Env, db: Db, dev: DeviceId, point: PointId, key: string, locked: set<nat>, random: string,
      now: int, later: int)
    requires Inv(env, db)
    requires Connect(env, db, dev, point, key, locked, random, now).Ok?
    ensures var c := Connect(env, db, dev, point, key, locked, random, now).value;
            && c.lease < |c.db.leases|
            && Heartbeat(env, c.db, dev, c.lease, c.db.leases[c.lease].generation, c.token, later).Ok?
  {
    if Replays(db, dev, point, key) {
      var i := Current(db.leases, dev).value;
      assert LeaseOk(env, db.devices, db.addresses, db.leases[i], i);
    } else {
      ConnectMakesOne(env, db, dev, point, key, locked, random, now);
      var a := Lowest(db.addresses, env.points[point].pool, locked).value;
      EstablishIs(env, db, dev, point, key, a, random, now);
    }
  }

  /**
   A connect with a key, retried at any later time while its session is still the device's current
   one, returns the same session and token and changes nothing.
   */
  lemma RetryReplays(env: Env, db: Db, dev: DeviceId, point: PointId, key: string, locked: set<nat>, random: string,
      now: int, ops: seq<Op>, locked2: set<nat>, random2: string, now2: int)
    requires Inv(env, db) && key != ""
    requires Connect(env, db, dev, point, key, locked, random, now).Ok?
    requires var c := Connect(env, db, dev, point, key, locked, random, now).value;
             Current(Run(env, c.db, ops).leases, dev) == Some(c.lease)
    ensures var c := Connect(env, db, dev, point, key, locked, random, now).value;
            var after := Run(env, c.db, ops);
            Connect(env, after, dev, point, key, locked2, random2, now2) ==
              Ok(Connected(after, c.lease, c.token, false, true))
  {
    var c := Connect(env, db, dev, point, key, locked, random, now).value;
    ConnectKeeps(env, db, dev, point, key, locked, random, now);
    ConnectedRow(env, db, dev, point, key, locked, random, now);
    RunKeeps(env, c.db, ops);
    RunLasts(env, c.db, ops);
    var after := Run(env, c.db, ops);
    assert Lasts(c.db.leases, after.leases);
    assert LeaseOk(env, after.devices, after.addresses, after.leases[c.lease], c.lease);
    CurrentIsOpen(env, after, dev, c.lease);
  }

  lemma ConnectedRow(env: Env, db: Db, dev: DeviceId, point: PointId, key: string, locked: set<nat>, random: string,
      now: int)
    requires Inv(env, db) && key != ""
    requires Connect(env, db, dev, point, key, locked, random, now).Ok?
    ensures var c := Connect(env, db, dev, point, key, locked, random, now).value;
            && c.lease < |c.db.leases| && c.token == env.derive(c.lease, key)
            && c.db.leases[c.lease].key == key && c.db.leases[c.lease].point == point
  {
    if !Replays(db, dev, point, key) {
      ConnectMakesOne(env, db, dev, point, key, locked, random, now);
      var a := Lowest(db.addresses, env.points[point].pool, locked).value;
      EstablishIs(env, db, dev, point, key, a, random, now);
    }
  }

  lemma CurrentIsOpen(env: Env, db: Db, dev: DeviceId, i: nat)
    requires Inv(env, db) && Current(db.leases, dev) == Some(i)
    ensures dev in db.devices && !db.devices[dev].revoked
    ensures db.leases[i].point in env.points && env.points[db.leases[i].point].tenant == db.devices[dev].tenant
  {
    assert LeaseOk(env, db.devices, db.addresses, db.leases[i], i);
  }

  // ---- What later operations leave alone

  /** Sessions are never dropped or rewritten, apart from heartbeats and closing; a closed one never changes again. */
  ghost predicate Lasts(before: seq<Lease>, after: seq<Lease>) {
    && |before| <= |after|
    && (forall i | 0 <= i < |before| :: Remains(before[i], after[i]))
  }

  ghost predicate Remains(before: Lease, after: Lease) {
    if before.active then after == before.(active := after.active, beat := after.beat) else after == before
  }

  lemma ReleaseLasts(db: Db, i: nat, reason: Reason)
    requires i < |db.leases|
    ensures Lasts(db.leases, ReleaseOnce(db, i, reason).leases)
  {
  }

  lemma {:induction false} ReleaseEachLasts(db: Db, rows: seq<nat>)
    requires forall t | 0 <= t < |rows| :: rows[t] < |db.leases|
    ensures Lasts(db.leases, ReleaseEach(db, rows).leases)
    decreases |rows|
  {
    if rows == [] {
    } else {
      var next := ReleaseOnce(db, rows[0], HeartbeatTimeout);
      ReleaseLasts(db, rows[0], HeartbeatTimeout);
      ReleaseEachLasts(next, rows[1..]);
      LastsTrans(db.leases, next.leases, ReleaseEach(db, rows).leases);
    }
  }

  lemma StepLasts(env: Env, db: Db, op: Op)
    ensures Lasts(db.leases, Step(env, db, op).leases)
  {
    if op.DoSweep? {
      StaleReleasable(db.leases, op.cutoff, op.locked);
      ReleaseEachLasts(db, StaleRows(db.leases, op.cutoff, op.locked));
    }
  }

  lemma {:induction false} RunLasts(env: Env, db: Db, ops: seq<Op>)
    ensures Lasts(db.leases, Run(env, db, ops).leases)
    decreases |ops|
  {
    if ops == [] {
    } else {
      var next := Step(env, db, ops[0]);
      StepLasts(env, db, ops[0]);
      RunLasts(env, next, ops[1..]);
      LastsTrans(db.leases, next.leases, Run(env, db, ops).leases);
    }
  }

  lemma LastsTrans(a: seq<Lease>, b: seq<Lease>, c: seq<Lease>)
    requires Lasts(a, b) && Lasts(b, c)
    ensures Lasts(a, c)
  {
    forall i | 0 <= i < |a|
      ensures Remains(a[i], c[i])
    {
      assert Remains(a[i], b[i]) && Remains(b[i], c[i]);
    }
  }

  /** Over any run a closed session stays exactly as it is: nothing reopens or extends it. */
  lemma ClosedForever(env: Env, db: Db, ops: seq<Op>, i: nat)
    requires i < |db.leases| && !db.leases[i].active
    ensures i < |Run(env, db, ops).leases| && Run(env, db, ops).leases[i] == db.leases[i]
  {
    RunLasts(env, db, ops);
    assert Remains(db.leases[i], Run(env, db, ops).leases[i]);
  }

  /**
   A heartbeat or a close acts on the session it names or on none, and only if that has the
   generation given. For any but the newest generation of its device it changes nothing.
   */
  lemma OnlyTheNamed(env: Env, db: Db, dev: DeviceId, i: nat, generation: int, token: string, now: int)
    requires Inv(env, db)
    ensures var beaten := Step(env, db, DoHeartbeat(dev, i, generation, token, now));
            OnlyAt(db.leases, beaten.leases, i) && (generation != LastGeneration(db.leases, dev) ==> beaten == db)
    ensures var closed := Step(env, db, DoClose(dev, i, generation, token));
            OnlyAt(db.leases, closed.leases, i) && (generation != LastGeneration(db.leases, dev) ==> closed == db)
  {
    HeartbeatActsOn(env, db, dev, i, generation, token, now);
    CloseActsOn(env, db, dev, i, generation, token);
  }

  /** No session but the one numbered `i` differs. */
  ghost predicate OnlyAt(before: seq<Lease>, after: seq<Lease>, i: nat) {
    |after| == |before| && forall j | 0 <= j < |before| && j != i :: after[j] == before[j]
  }

  lemma HeartbeatActsOn(env: Env, db: Db, dev: DeviceId, i: nat, generation: int, token: string, now: int)
    requires GenerationsOk(db.leases)
    ensures var after := Step(env, db, DoHeartbeat(dev, i, generation, token, now));
            OnlyAt(db.leases, after.leases, i) && (generation != LastGeneration(db.leases, dev) ==> after == db)
  {
    if Named(env, db, dev, i, generation, token).None? && generation != LastGeneration(db.leases, dev) {
      OldIsClosed(db.leases, i);
    }
  }

  lemma CloseActsOn(env: Env, db: Db, dev: DeviceId, i: nat, generation: int, token: string)
    requires GenerationsOk(db.leases)
    ensures var after := Step(env, db, DoClose(dev, i, generation, token));
            OnlyAt(db.leases, after.leases, i) && (generation != LastGeneration(db.leases, dev) ==> after == db)
  {
    if Named(env, db, dev, i, generation, token).None? && generation != LastGeneration(db.leases, dev) {
      OldIsClosed(db.leases, i);
    }
  }

  lemma OldIsClosed(leases: seq<Lease>, i: nat)
    requires GenerationsOk(leases) && i < |leases| && leases[i].generation != LastGeneration(leases, leases[i].device)
    ensures !leases[i].active
  {
  }

  // ---- Revocation

  /** Until it is reinstated a revoked device stays revoked and has no active session. */
  lemma {:induction false} RevokedStaysOut(env: Env, db: Db, dev: DeviceId, ops: seq<Op>)
    requires Inv(env, db) && dev in db.devices && db.devices[dev].revoked
    requires forall k | 0 <= k < |ops| :: !(ops[k].DoReinstate? && ops[k].dev == dev)
    ensures var later := Run(env, db, ops);
            && dev in later.devices && later.devices[dev].revoked
            && Current(later.leases, dev).None?
    decreases |ops|
  {
    if ops == [] {
      RevokedHasNone(env, db, dev);
    } else {
      StepKeeps(env, db, ops[0]);
      StepRevoked(env, db, dev, ops[0]);
      RevokedStaysOut(env, Step(env, db, ops[0]), dev, ops[1..]);
    }
  }

  lemma RevokedHasNone(env: Env, db: Db, dev: DeviceId)
    requires DevicesOk(env, db) && dev in db.devices && db.devices[dev].revoked
    ensures Current(db.leases, dev).None?
  {
    forall i | 0 <= i < |db.leases|
      ensures !ActiveFor(db.leases, i, dev)
    {
      assert LeaseOk(env, db.devices, db.addresses, db.leases[i], i);
    }
  }

  lemma {:induction false} ReleaseEachDevices(db: Db, rows: seq<nat>)
    requires forall t | 0 <= t < |rows| :: rows[t] < |db.leases|
    ensures ReleaseEach(db, rows).devices == db.devices
    decreases |rows|
  {
    if rows == [] {
    } else {
      ReleaseEachDevices(ReleaseOnce(db, rows[0], HeartbeatTimeout), rows[1..]);
    }
  }

  lemma StepRevoked(env: Env, db: Db, dev: DeviceId, op: Op)
    requires dev in db.devices && db.devices[dev].revoked && !(op.DoReinstate? && op.dev == dev)
    ensures var next := Step(env, db, op);
            dev in next.devices && next.devices[dev].revoked
  {
    if op.DoSweep? {
      StaleReleasable(db.leases, op.cutoff, op.locked);
      ReleaseEachDevices(db, StaleRows(db.leases, op.cutoff, op.locked));
    }
  }

  /** A revocation takes effect at once: the device is revoked, its credential replaced, its session ended. */
  lemma RevokeEnds(env: Env, db: Db, dev: DeviceId, random: string)
    requires Inv(env, db) && dev in db.devices
    ensures var next := Step(env, db, DoRevoke(dev, random));
            && dev in next.devices && next.devices[dev].revoked && Current(next.leases, dev).None?
            && (!db.devices[dev].revoked ==> next.devices[dev].credential == env.hash(random))
  {
    ClearKeeps(env, db, dev, DeviceRevoked);
  }

  // ---- Sweeping

  /** A heartbeat keeps its session from every sweep with a cutoff not after it. */
  lemma HeartbeatProtects(env: Env, db: Db, dev: DeviceId, i: nat, generation: int, token: string, now: int,
      cutoff: int, locked: set<nat>)
    requires Inv(env, db) && Heartbeat(env, db, dev, i, generation, token, now).Ok? && cutoff <= now
    ensures var beaten := Heartbeat(env, db, dev, i, generation, token, now).value;
            && i < |beaten.leases| && |Sweep(beaten, cutoff, locked).leases| == |beaten.leases|
            && Sweep(beaten, cutoff, locked).leases[i] == beaten.leases[i] && beaten.leases[i].active
  {
    BeatKeeps(env, db, i, now);
    SweepExact(env, Heartbeat(env, db, dev, i, generation, token, now).value, cutoff, locked);
  }

  lemma {:induction false} ReleaseEachExact(env: Env, db: Db, rows: seq<nat>)
    requires Inv(env, db) && Releasable(db.leases, rows)
    ensures ClosesExactly(db.leases, ReleaseEach(db, rows).leases, rows)
    ensures |ReleaseEach(db, rows).terminations| == |db.terminations| + |rows|
    decreases |rows|
  {
    if rows == [] {
    } else {
      ReleaseKeeps(env, db, rows[0], HeartbeatTimeout);
      RestReleasable(db.leases, rows);
      var next := ReleaseOnce(db, rows[0], HeartbeatTimeout);
      ReleaseEachExact(env, next, rows[1..]);
      ClosesOneMore(db.leases, ReleaseEach(db, rows).leases, rows);
    }
  }

  /** Exactly the sessions listed were closed. */
  ghost predicate ClosesExactly(before: seq<Lease>, after: seq<Lease>, rows: seq<nat>) {
    && |after| == |before|
    && (forall i | 0 <= i < |before| :: after[i] == if i in rows then before[i].(active := false) else before[i])
  }

  lemma ClosesOneMore(before: seq<Lease>, after: seq<Lease>, rows: seq<nat>)
    requires rows != [] && rows[0] < |before|
    requires ClosesExactly(Closed(before, rows[0]), after, rows[1..])
    ensures ClosesExactly(before, after, rows)
  {
    assert rows == [rows[0]] + rows[1..];
  }

  /** A sweep closes the stale sessions nobody else holds, each with one new record, and no other. */
  lemma SweepExact(env: Env, db: Db, cutoff: int, locked: set<nat>)
    requires Inv(env, db)
    ensures var after := Sweep(db, cutoff, locked);
            && |after.leases| == |db.leases|
            && |after.terminations| == |db.terminations| + |StaleRows(db.leases, cutoff, locked)|
            && forall i | 0 <= i < |db.leases| ::
                 after.leases[i] == if Stale(db.leases, i, cutoff, locked) then db.leases[i].(active := false)
                   else db.leases[i]
  {
    StaleReleasable(db.leases, cutoff, locked);
    ReleaseEachExact(env, db, StaleRows(db.leases, cutoff, locked));
  }

  /** A sweep that meets no locks leaves no stale session. */
  lemma SweepLeavesNoneStale(env: Env, db: Db, cutoff: int, i: nat)
    requires Inv(env, db)
    ensures !Stale(Sweep(db, cutoff, {}).leases, i, cutoff, {})
  {
    SweepExact(env, db, cutoff, {});
  }
}
