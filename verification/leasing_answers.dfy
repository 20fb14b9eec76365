/** What each lease operation accepts, and what it leaves behind. */
module LeasingAnswers {
  import opened Wrappers
  import opened Leasing
  import opened LeasingSafety
  import opened LeasingTheorems

  // ---- Ending a session

  /** The session has one new record, of this reason, is closed and its address free; nothing else differs. */
  ghost predicate EndedFor(db: Db, after: Db, i: nat, reason: Reason)
    requires i < |db.leases|
  {
    var a := db.leases[i].address;
    && a < |db.addresses|
    && after == Db(db.addresses[a := db.addresses[a].(status := Free)], db.devices,
                   db.leases[i := db.leases[i].(active := false)], db.terminations + [Termination(i, reason)])
  }

  lemma ReleaseEnds(db: Db, i: nat, reason: Reason)
    requires AddressesOk(db.addresses, db.leases) && TerminationsOk(db.leases, db.terminations) && Active(db.leases, i)
    ensures EndedFor(db, ReleaseOnce(db, i, reason), i, reason)
  {
    assert Holds(db.leases, i, db.leases[i].address);
  }

  // ---- Heartbeats and closing

  /** The device's own session, with the generation and the token it was given. */
  ghost predicate Rightful(env: Env, db: Db, dev: DeviceId, i: nat, generation: int, token: string) {
    && dev in db.devices && i < |db.leases| && db.leases[i].device == dev
    && db.leases[i].generation == generation && db.leases[i].token == env.hash(token)
  }

  /**
   A close is accepted exactly from the session's own device with its generation and token. It ends an
   active session, with its only record, and changes nothing when the session was closed before.
   */
  lemma CloseIff(env: Env, db: Db, dev: DeviceId, i: nat, generation: int, token: string)
    requires Inv(env, db)
    ensures var r := Close(env, db, dev, i, generation, token);
            && (r.Ok? <==> Rightful(env, db, dev, i, generation, token))
            && (r.Ok? ==> if db.leases[i].active then EndedFor(db, r.value, i, ClientClose) else r.value == db)
            && (r.Ok? ==> !Active(r.value.leases, i) && |TerminationsOf(r.value.terminations, i)| == 1)
  {
    var r := Close(env, db, dev, i, generation, token);
    if r.Ok? {
      if db.leases[i].active {
        ReleaseEnds(db, i, ClientClose);
        ReleaseKeeps(env, db, i, ClientClose);
      }
      ClosedHasOne(r.value, i);
    }
  }

  lemma ClosedHasOne(db: Db, i: nat)
    requires TerminationsOk(db.leases, db.terminations) && i < |db.leases| && !db.leases[i].active
    ensures |TerminationsOf(db.terminations, i)| == 1
  {
    var t :| 0 <= t < |db.terminations| && db.terminations[t].lease == i;
    assert TerminationsOf(db.terminations, i) == {t};
  }

  /** A heartbeat is accepted exactly from an active session's own device, and sets the time of its beat alone. */
  lemma HeartbeatIff(env: Env, db: Db, dev: DeviceId, i: nat, generation: int, token: string, now: int)
    ensures var r := Heartbeat(env, db, dev, i, generation, token, now);
            && (r.Ok? <==> Rightful(env, db, dev, i, generation, token) && db.leases[i].active)
            && (r.Ok? ==> r.value == db.(leases := db.leases[i := db.leases[i].(beat := now)]))
  {
  }

  // ---- Connecting

  /** The device's active session was made with this key at this point. */
  ghost predicate MadeWith(db: Db, i: nat, dev: DeviceId, point: PointId, key: string) {
    ActiveFor(db.leases, i, dev) && key != "" && db.leases[i].key == key && db.leases[i].point == point
  }

  ghost predicate Room(env: Env, db: Db, dev: DeviceId, point: PointId, locked: set<nat>)
    requires point in env.points
  {
    && |OthersAt(db.leases, point, dev)| < env.points[point].capacity
    && exists a: nat :: Assignable(db.addresses, a, env.points[point].pool, locked)
  }

  lemma ReplaysIff(env: Env, db: Db, dev: DeviceId, point: PointId, key: string)
    requires Inv(env, db)
    ensures Replays(db, dev, point, key) <==> exists i: nat :: MadeWith(db, i, dev, point, key)
  {
    if i: nat :| MadeWith(db, i, dev, point, key) {
      var j := Current(db.leases, dev).value;
      assert ActiveFor(db.leases, j, dev);
      OneActive(db.leases, i, j);
    }
    if Replays(db, dev, point, key) {
      assert MadeWith(db, Current(db.leases, dev).value, dev, point, key);
    }
  }

  lemma OneActive(leases: seq<Lease>, i: nat, j: nat)
    requires GenerationsOk(leases) && Active(leases, i) && Active(leases, j) && leases[i].device == leases[j].device
    ensures i == j
  {
  }

  /**
   A connection succeeds exactly for a known device that is not revoked, at a point of its own tenant, if the
   device's session was made with the same key there, or if the point has room besides the other devices and
   an address that may be taken. In the first case it is that session, and nothing changes.
   */
  lemma ConnectIff(env: Env, db: Db, dev: DeviceId, point: PointId, key: string, locked: set<nat>, random: string,
      now: int)
    requires Inv(env, db)
    ensures var r := Connect(env, db, dev, point, key, locked, random, now);
            && (r.Ok? <==>
                  && dev in db.devices && !db.devices[dev].revoked
                  && point in env.points && env.points[point].tenant == db.devices[dev].tenant
                  && ((exists i: nat :: MadeWith(db, i, dev, point, key)) || Room(env, db, dev, point, locked)))
            && (r.Ok? && r.value.reused ==> MadeWith(db, r.value.lease, dev, point, key) && r.value.db == db)
            && (r.Ok? && !r.value.reused ==> !exists i: nat :: MadeWith(db, i, dev, point, key))
  {
    ReplaysIff(env, db, dev, point, key);
    if point in env.points {
      RoomIff(env, db, dev, point, key, locked, random, now);
    }
  }

  lemma RoomIff(env: Env, db: Db, dev: DeviceId, point: PointId, key: string, locked: set<nat>, random: string,
      now: int)
    requires Inv(env, db) && point in env.points
    ensures var a := Lowest(db.addresses, env.points[point].pool, locked);
            && (Room(env, db, dev, point, locked) <==> !Crowded(env, db, dev, point) && a.Some?)
            && (a.Some? ==> var r := Establish(env, db, dev, point, key, a.value, random, now);
                            r.Ok? && !r.value.reused)
  {
    var a := Lowest(db.addresses, env.points[point].pool, locked);
    if a.Some? {
      EstablishIs(env, db, dev, point, key, a.value, random, now);
    }
  }

  /** The tables after a connection: the old session ended for the reconnection, then the new one with its address. */
  lemma ConnectLeaves(env: Env, db: Db, dev: DeviceId, point: PointId, key: string, locked: set<nat>, random: string,
      now: int)
    requires Inv(env, db) && Establishes(env, db, dev, point, key, locked, random, now)
    ensures var c := Connect(env, db, dev, point, key, locked, random, now).value;
            var current := Current(db.leases, dev);
            && c.db.devices == db.devices && c.lease < |c.db.leases|
            && c.db.leases[c.lease].beat == now && c.db.leases[c.lease].key == key
            && |c.db.addresses| == |db.addresses|
            && (forall a | 0 <= a < |db.addresses| :: c.db.addresses[a] ==
                  if a == c.db.leases[c.lease].address then db.addresses[a].(status := Allocated)
                  else if current.Some? && a == db.leases[current.value].address then db.addresses[a].(status := Free)
                  else db.addresses[a])
            && c.db.terminations == db.terminations
                 + if current.Some? then [Termination(current.value, Reconnect)] else []
  {
    var a := Lowest(db.addresses, env.points[point].pool, locked).value;
    EstablishIs(env, db, dev, point, key, a, random, now);
    ClearedIs(db, dev, Reconnect);
    InsertedRows(db, ReleaseCurrent(db, dev, Reconnect), Current(db.leases, dev),
      NewLease(env, db, dev, point, key, a, random, now));
  }

  lemma InsertedRows(db: Db, cleared: Db, current: Option<nat>, l: Lease)
    requires l.address < |db.addresses| == |cleared.addresses|
    requires match current
             case Some(i) => i < |db.leases| && EndedFor(db, cleared, i, Reconnect) && db.leases[i].address != l.address
             case None => cleared == db
    ensures var after := Inserted(cleared, l);
            && after.devices == db.devices && |after.leases| == |db.leases| + 1 && after.leases[|db.leases|] == l
            && |after.addresses| == |db.addresses|
            && (forall a | 0 <= a < |db.addresses| :: after.addresses[a] ==
                  if a == l.address then db.addresses[a].(status := Allocated)
                  else if current.Some? && a == db.leases[current.value].address then db.addresses[a].(status := Free)
                  else db.addresses[a])
            && after.terminations == db.terminations
                 + if current.Some? then [Termination(current.value, Reconnect)] else []
  {
  }

  lemma ClearedIs(db: Db, dev: DeviceId, reason: Reason)
    requires AddressesOk(db.addresses, db.leases) && TerminationsOk(db.leases, db.terminations)
    ensures var cleared := ReleaseCurrent(db, dev, reason);
            match Current(db.leases, dev)
            case Some(i) => EndedFor(db, cleared, i, reason)
            case None => cleared == db
  {
    if Current(db.leases, dev).Some? {
      ReleaseEnds(db, Current(db.leases, dev).value, reason);
    }
  }

  // ---- Credentials

  /** Revoking any known device ends its session, and replaces the credential of one not revoked before. */
  lemma RevokeLeaves(env: Env, db: Db, dev: DeviceId, random: string)
    requires Inv(env, db)
    ensures var r := Revoke(env, db, dev, random);
            var current := Current(db.leases, dev);
            && (r.Ok? <==> dev in db.devices)
            && (r.Ok? ==> r.value.devices == if db.devices[dev].revoked then db.devices else
                  db.devices[dev := Device(db.devices[dev].tenant, true, env.hash(random))])
            && (r.Ok? && current.Some? ==>
                  EndedFor(db, r.value.(devices := db.devices), current.value, DeviceRevoked))
            && (r.Ok? && current.None? ==> r.value.(devices := db.devices) == db)
  {
    ClearedIs(db, dev, DeviceRevoked);
  }

  /** After a reinstatement the device holds a new credential and may connect wherever there is room. */
  lemma ReinstatedMayConnect(env: Env, db: Db, dev: DeviceId, random: string, point: PointId, key: string,
      locked: set<nat>, token: string, now: int)
    requires Inv(env, db) && dev in db.devices
    ensures var next := Step(env, db, DoReinstate(dev, random));
            && next == db.(devices := db.devices[dev := Device(db.devices[dev].tenant, false, env.hash(random))])
            && (point in env.points && env.points[point].tenant == db.devices[dev].tenant
                && Room(env, db, dev, point, locked) ==>
                  Connect(env, next, dev, point, key, locked, token, now).Ok?)
  {
    StepKeeps(env, db, DoReinstate(dev, random));
    ConnectIff(env, Step(env, db, DoReinstate(dev, random)), dev, point, key, locked, token, now);
  }

  /** A new credential is given exactly to a device that is not revoked, and changes nothing else. */
  lemma ReissueIff(env: Env, db: Db, dev: DeviceId, random: string)
    ensures var r := Reissue(env, db, dev, random);
            && (r.Ok? <==> dev in db.devices && !db.devices[dev].revoked)
            && (r.Ok? ==> r.value == db.(devices := db.devices[dev := Device(db.devices[dev].tenant, false,
                  env.hash(random))]))
  {
  }

  // ---- Sweeping

  function Timeouts(rows: seq<nat>): (r: seq<Termination>)
    ensures |r| == |rows| && forall k | 0 <= k < |r| :: r[k] == Termination(rows[k], HeartbeatTimeout)
  {
    seq(|rows|, k requires 0 <= k < |rows| => Termination(rows[k], HeartbeatTimeout))
  }

  lemma FirstTimeout(terminations: seq<Termination>, rows: seq<nat>)
    requires rows != []
    ensures terminations + [Termination(rows[0], HeartbeatTimeout)] + Timeouts(rows[1..])
         == terminations + Timeouts(rows)
  {
    assert Timeouts(rows) == [Termination(rows[0], HeartbeatTimeout)] + Timeouts(rows[1..]);
  }

  lemma ReleaseRecords(db: Db, i: nat, reason: Reason)
    requires TerminationsOk(db.leases, db.terminations) && Active(db.leases, i)
    ensures var after := ReleaseOnce(db, i, reason);
            && after.terminations == db.terminations + [Termination(i, reason)] && after.leases == Closed(db.leases, i)
            && TerminationsOk(after.leases, after.terminations)
  {
    ReleaseTerminations(db.leases, db.terminations, i, reason);
  }

  lemma {:induction false} ReleaseEachRecords(db: Db, rows: seq<nat>)
    requires TerminationsOk(db.leases, db.terminations) && Releasable(db.leases, rows)
    ensures ReleaseEach(db, rows).terminations == db.terminations + Timeouts(rows)
    decreases |rows|
  {
    if rows == [] {
    } else {
      ReleaseRecords(db, rows[0], HeartbeatTimeout);
      RestReleasable(db.leases, rows);
      ReleaseEachRecords(ReleaseOnce(db, rows[0], HeartbeatTimeout), rows[1..]);
      FirstTimeout(db.terminations, rows);
    }
  }

  /** A sweep records a timeout for each session it closes, in the order of their numbers. */
  lemma SweepRecords(env: Env, db: Db, cutoff: int, locked: set<nat>)
    requires Inv(env, db)
    ensures Sweep(db, cutoff, locked).terminations == db.terminations + Timeouts(StaleRows(db.leases, cutoff, locked))
  {
    StaleReleasable(db.leases, cutoff, locked);
    ReleaseEachRecords(db, StaleRows(db.leases, cutoff, locked));
  }
}
