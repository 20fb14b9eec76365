/** What every run of lease operations keeps. */
module LeasingSafety {
  import opened Wrappers
  import opened Leasing

  // ---- The invariant

  ghost predicate Holds(leases: seq<Lease>, i: nat, a: nat) {
    Active(leases, i) && leases[i].address == a
  }

  ghost predicate Held(leases: seq<Lease>, a: nat) {
    exists i :: Holds(leases, i, a)
  }

  /** An address is allocated exactly when an active session holds it, and never by two. */
  ghost predicate AddressesOk(addresses: seq<Address>, leases: seq<Lease>) {
    && (forall i: nat | Active(leases, i) :: leases[i].address < |addresses|)
    && (forall a | 0 <= a < |addresses| :: addresses[a].status.Allocated? <==> Held(leases, a))
    && (forall i: nat, j: nat | Active(leases, i) && Active(leases, j) && i != j ::
      leases[i].address != leases[j].address)
    && (forall a | 0 <= a < |addresses| && addresses[a].status.Allocated? ::
      addresses[a].kind.Usable? && !addresses[a].reserved)
  }

  /** A session is closed exactly when it has a termination row, and it never has two. */
  ghost predicate TerminationsOk(leases: seq<Lease>, terminations: seq<Termination>) {
    && (forall t | 0 <= t < |terminations| :: terminations[t].lease < |leases|)
    && (forall s, t | 0 <= s < t < |terminations| :: terminations[s].lease != terminations[t].lease)
    && (forall i | 0 <= i < |leases| :: leases[i].active <==> !Terminated(terminations, i))
  }

  /** A device's generations rise with its sessions, and only the last may be active. */
  ghost predicate GenerationsOk(leases: seq<Lease>) {
    && (forall i | 0 <= i < |leases| :: leases[i].generation >= 1)
    && (forall i, j | 0 <= i < j < |leases| && leases[i].device == leases[j].device ::
          leases[i].generation < leases[j].generation && !leases[i].active)
  }

  ghost predicate DevicesOk(env: Env, db: Db) {
    forall i | 0 <= i < |db.leases| :: LeaseOk(env, db.devices, db.addresses, db.leases[i], i)
  }

  ghost predicate LeaseOk(env: Env, devices: map<DeviceId, Device>, addresses: seq<Address>, l: Lease, i: nat) {
    && l.device in devices && l.point in env.points && l.address < |addresses|
    && env.points[l.point].tenant == devices[l.device].tenant
    && addresses[l.address].pool == env.points[l.point].pool
    && (l.active ==> !devices[l.device].revoked)
    && (l.key != "" ==> l.token == env.hash(env.derive(i, l.key)))
  }

  ghost predicate CapacityOk(env: Env, leases: seq<Lease>) {
    forall p | p in env.points :: |ActiveAt(leases, p)| <= env.points[p].capacity
  }

  ghost predicate Inv(env: Env, db: Db) {
    && AddressesOk(db.addresses, db.leases)
    && TerminationsOk(db.leases, db.terminations)
    && GenerationsOk(db.leases)
    && DevicesOk(env, db)
    && CapacityOk(env, db.leases)
  }

  /** No sessions yet, every address free. */
  ghost predicate Fresh(db: Db) {
    && db.leases == [] && db.terminations == []
    && forall a | 0 <= a < |db.addresses| :: db.addresses[a].status.Free?
  }

  lemma FreshInv(env: Env, db: Db)
    requires Fresh(db)
    ensures Inv(env, db)
  {
    forall p | p in env.points
      ensures |ActiveAt(db.leases, p)| == 0
    {
      assert ActiveAt(db.leases, p) == {};
    }
  }

  lemma SubsetSize(a: set<nat>, b: set<nat>)
    requires a <= b
    ensures |a| <= |b|
  {
    assert b == a + (b - a);
  }

  // ---- Releasing

  ghost function Closed(leases: seq<Lease>, i: nat): seq<Lease>
    requires i < |leases|
  {
    leases[i := leases[i].(active := false)]
  }

  lemma ReleaseAddresses(addresses: seq<Address>, leases: seq<Lease>, i: nat)
    requires AddressesOk(addresses, leases) && Active(leases, i)
    ensures AddressesOk(Freed(addresses, leases[i].address), Closed(leases, i))
  {
    var after, freed, a := Closed(leases, i), Freed(addresses, leases[i].address), leases[i].address;
    assert Holds(leases, i, a);
    forall b | 0 <= b < |addresses|
      ensures freed[b].status.Allocated? <==> Held(after, b)
    {
      if b == a {
        assert forall j :: !Holds(after, j, a);
      } else {
        assert forall j :: Holds(after, j, b) <==> Holds(leases, j, b);
      }
    }
  }

  lemma ReleaseTerminations(leases: seq<Lease>, terminations: seq<Termination>, i: nat, reason: Reason)
    requires TerminationsOk(leases, terminations) && Active(leases, i)
    ensures TerminationsOk(Closed(leases, i), terminations + [Termination(i, reason)])
  {
    var longer := terminations + [Termination(i, reason)];
    TerminatedMore(terminations, i, reason);
    assert !Terminated(terminations, i);
  }

  lemma TerminatedMore(terminations: seq<Termination>, i: nat, reason: Reason)
    ensures forall j ::
      Terminated(terminations + [Termination(i, reason)], j) <==> Terminated(terminations, j) || j == i
  {
    var longer := terminations + [Termination(i, reason)];
    assert longer[|terminations|].lease == i;
    forall j | Terminated(terminations, j)
      ensures Terminated(longer, j)
    {
      var t :| 0 <= t < |terminations| && terminations[t].lease == j;
      assert longer[t].lease == j;
    }
  }

  lemma ReleaseCapacity(env: Env, leases: seq<Lease>, i: nat)
    requires CapacityOk(env, leases) && i < |leases|
    ensures CapacityOk(env, Closed(leases, i))
  {
    forall p | p in env.points
      ensures |ActiveAt(Closed(leases, i), p)| <= env.points[p].capacity
    {
      SubsetSize(ActiveAt(Closed(leases, i), p), ActiveAt(leases, p));
    }
  }

  ghost function Released(db: Db, i: nat, reason: Reason): Db
    requires i < |db.leases|
  {
    db.(terminations := db.terminations + [Termination(i, reason)], leases := Closed(db.leases, i),
        addresses := Freed(db.addresses, db.leases[i].address))
  }

  lemma ReleaseDevices(env: Env, db: Db, i: nat, reason: Reason)
    requires DevicesOk(env, db) && Active(db.leases, i)
    ensures DevicesOk(env, Released(db, i, reason))
  {
    var after := Released(db, i, reason);
    forall j | 0 <= j < |after.leases|
      ensures LeaseOk(env, after.devices, after.addresses, after.leases[j], j)
    {
      assert LeaseOk(env, db.devices, db.addresses, db.leases[j], j);
    }
  }

  lemma ReleaseGenerations(leases: seq<Lease>, i: nat)
    requires GenerationsOk(leases) && i < |leases|
    ensures GenerationsOk(Closed(leases, i))
  {
  }

  lemma ReleaseKeeps(env: Env, db: Db, i: nat, reason: Reason)
    requires Inv(env, db) && Active(db.leases, i)
    ensures Inv(env, ReleaseOnce(db, i, reason))
    ensures ReleaseOnce(db, i, reason) == Released(db, i, reason)
  {
    ReleaseAddresses(db.addresses, db.leases, i);
    ReleaseTerminations(db.leases, db.terminations, i, reason);
    ReleaseGenerations(db.leases, i);
    ReleaseDevices(env, db, i, reason);
    ReleaseCapacity(env, db.leases, i);
  }

  // ---- Connecting

  /** With its generations rising, a device has no other active session than its current one. */
  lemma CurrentUnique(leases: seq<Lease>, dev: DeviceId)
    requires GenerationsOk(leases)
    ensures forall i: nat | ActiveFor(leases, i, dev) :: Current(leases, dev) == Some(i)
  {
    forall i: nat | ActiveFor(leases, i, dev)
      ensures Current(leases, dev) == Some(i)
    {
      var j := Current(leases, dev).value;
      OneActive(leases, dev, i, j);
    }
  }

  lemma OneActive(leases: seq<Lease>, dev: DeviceId, i: nat, j: nat)
    requires GenerationsOk(leases) && ActiveFor(leases, i, dev) && ActiveFor(leases, j, dev)
    ensures i == j
  {
  }

  /** Inserting a session for a device without one, at an address nobody holds. */
  lemma InsertAddresses(addresses: seq<Address>, leases: seq<Lease>, a: nat, l: Lease)
    requires AddressesOk(addresses, leases)
    requires a < |addresses| && !addresses[a].status.Allocated? && addresses[a].kind.Usable? && !addresses[a].reserved
    requires l.active && l.address == a
    ensures AddressesOk(addresses[a := addresses[a].(status := Allocated)], leases + [l])
  {
    var after, taken := leases + [l], addresses[a := addresses[a].(status := Allocated)];
    forall b | 0 <= b < |addresses|
      ensures taken[b].status.Allocated? <==> Held(after, b)
    {
      if b == a {
        assert Holds(after, |leases|, a);
      } else {
        assert forall j :: Holds(after, j, b) <==> Holds(leases, j, b);
      }
    }
    forall i: nat | Active(leases, i)
      ensures leases[i].address != a
    {
      assert Holds(leases, i, leases[i].address);
    }
  }

  lemma InsertGenerations(leases: seq<Lease>, l: Lease)
    requires GenerationsOk(leases)
    requires Current(leases, l.device).None? && l.generation == LastGeneration(leases, l.device) + 1
    ensures GenerationsOk(leases + [l])
  {
    var after := leases + [l];
    forall i, j | 0 <= i < j < |after| && after[i].device == after[j].device
      ensures after[i].generation < after[j].generation && !after[i].active
    {
      if j == |leases| {
        assert !ActiveFor(leases, i, l.device);
      } else {
        assert leases[i].device == leases[j].device;
      }
    }
  }

  lemma InsertCapacity(env: Env, leases: seq<Lease>, l: Lease)
    requires CapacityOk(env, leases) && Current(leases, l.device).None?
    requires l.point in env.points && |OthersAt(leases, l.point, l.device)| < env.points[l.point].capacity
    ensures CapacityOk(env, leases + [l])
  {
    var after := leases + [l];
    forall p | p in env.points
      ensures |ActiveAt(after, p)| <= env.points[p].capacity
    {
      if p == l.point {
        forall i | i in ActiveAt(after, p)
          ensures i in OthersAt(leases, p, l.device) + {|leases|}
        {
          assert !ActiveFor(leases, i, l.device);
        }
        SubsetSize(ActiveAt(after, p), OthersAt(leases, p, l.device) + {|leases|});
      } else {
        assert ActiveAt(after, p) == ActiveAt(leases, p);
      }
    }
  }

  lemma InsertTerminations(leases: seq<Lease>, terminations: seq<Termination>, l: Lease)
    requires TerminationsOk(leases, terminations) && l.active
    ensures TerminationsOk(leases + [l], terminations)
  {
  }

  ghost predicate Admitted(env: Env, db: Db, l: Lease) {
    && l.active && l.point in env.points && l.device in db.devices && !db.devices[l.device].revoked
    && env.points[l.point].tenant == db.devices[l.device].tenant
    && Current(db.leases, l.device).None?
    && l.generation == LastGeneration(db.leases, l.device) + 1
    && |OthersAt(db.leases, l.point, l.device)| < env.points[l.point].capacity
    && (l.key != "" ==> l.token == env.hash(env.derive(|db.leases|, l.key)))
    && l.address < |db.addresses|
    && var a := db.addresses[l.address];
       !a.status.Allocated? && a.kind.Usable? && !a.reserved && a.pool == env.points[l.point].pool
  }

  ghost function Inserted(db: Db, l: Lease): Db
    requires l.address < |db.addresses|
  {
    db.(leases := db.leases + [l],
      addresses := db.addresses[l.address := db.addresses[l.address].(status := Allocated)])
  }

  lemma InsertKeeps(env: Env, db: Db, l: Lease)
    requires Inv(env, db) && Admitted(env, db, l)
    ensures Inv(env, Inserted(db, l))
  {
    InsertAddresses(db.addresses, db.leases, l.address, l);
    InsertTerminations(db.leases, db.terminations, l);
    InsertGenerations(db.leases, l);
    InsertCapacity(env, db.leases, l);
    InsertDevices(env, db, l);
  }

  lemma InsertDevices(env: Env, db: Db, l: Lease)
    requires DevicesOk(env, db) && Admitted(env, db, l)
    ensures DevicesOk(env, Inserted(db, l))
  {
    var after := Inserted(db, l);
    forall i | 0 <= i < |after.leases|
      ensures LeaseOk(env, after.devices, after.addresses, after.leases[i], i)
    {
      assert i < |db.leases| ==> LeaseOk(env, db.devices, db.addresses, db.leases[i], i);
    }
  }

  lemma ClosedNone(leases: seq<Lease>, dev: DeviceId)
    requires GenerationsOk(leases) && Current(leases, dev).Some?
    ensures Current(Closed(leases, Current(leases, dev).value), dev).None?
  {
    CurrentUnique(leases, dev);
    var after := Closed(leases, Current(leases, dev).value);
    assert forall i: nat :: ActiveFor(after, i, dev) ==> ActiveFor(leases, i, dev);
    assert forall i: nat :: !ActiveFor(after, i, dev);
  }

  /** Clearing the device's session. */
  lemma ClearKeeps(env: Env, db: Db, dev: DeviceId, reason: Reason)
    requires Inv(env, db)
    ensures Inv(env, ReleaseCurrent(db, dev, reason))
    ensures Current(ReleaseCurrent(db, dev, reason).leases, dev).None?
  {
    var current := Current(db.leases, dev);
    if current.Some? {
      ClosedNone(db.leases, dev);
      ReleaseKeeps(env, db, current.value, reason);
    }
  }

  ghost predicate RowsOk(db: Db) {
    && AddressesOk(db.addresses, db.leases)
    && TerminationsOk(db.leases, db.terminations)
    && GenerationsOk(db.leases)
  }

  lemma ReleaseCurrentIs(db: Db, dev: DeviceId, reason: Reason)
    requires TerminationsOk(db.leases, db.terminations) && Current(db.leases, dev).Some?
    ensures var i := Current(db.leases, dev).value;
            ReleaseCurrent(db, dev, reason) ==
              db.(terminations := db.terminations + [Termination(i, reason)], leases := Closed(db.leases, i),
                  addresses := Freed(db.addresses, db.leases[i].address))
  {
  }

  lemma TakeThenFree(addresses: seq<Address>, a: nat, b: nat)
    requires a != b && a < |addresses|
    ensures var taken := addresses[a].(status := Allocated);
            Freed(addresses[a := taken], b) == Freed(addresses, b)[a := taken]
    ensures Freed(addresses, b)[a] == addresses[a]
  {
  }

  /**
   The address is taken before the old one is freed, so they differ; otherwise the order of the two
   makes no difference.
   */
  lemma EstablishIs(env: Env, db: Db, dev: DeviceId, point: PointId, key: string, a: nat, random: string, now: int)
    requires RowsOk(db) && a < |db.addresses| && db.addresses[a].status.Free?
    ensures var cleared := ReleaseCurrent(db, dev, Reconnect);
            && a < |cleared.addresses| && cleared.addresses[a] == db.addresses[a] && |cleared.leases| == |db.leases|
            && cleared.devices == db.devices
            && Establish(env, db, dev, point, key, a, random, now)
               == Ok(Connected(Inserted(cleared, NewLease(env, db, dev, point, key, a, random, now)), |db.leases|,
                               Token(env, |db.leases|, key, random), Current(db.leases, dev).Some?, false))
    ensures Current(db.leases, dev).Some? ==> db.leases[Current(db.leases, dev).value].address != a
  {
    var current := Current(db.leases, dev);
    if current.Some? {
      var held := db.leases[current.value].address;
      assert Holds(db.leases, current.value, held);
      ReleaseCurrentIs(db, dev, Reconnect);
      TakeThenRelease(db, dev, a);
      ClosedNone(db.leases, dev);
    }
  }

  lemma TakeThenRelease(db: Db, dev: DeviceId, a: nat)
    requires TerminationsOk(db.leases, db.terminations) && Current(db.leases, dev).Some?
    requires a < |db.addresses| && db.leases[Current(db.leases, dev).value].address != a
    ensures var taken := db.addresses[a].(status := Allocated);
            var cleared := ReleaseCurrent(db, dev, Reconnect);
            && a < |cleared.addresses| && cleared.addresses[a] == db.addresses[a]
            && ReleaseCurrent(db.(addresses := db.addresses[a := taken]), dev, Reconnect) ==
              cleared.(addresses := cleared.addresses[a := taken])
  {
    ReleaseCurrentIs(db, dev, Reconnect);
    ReleaseCurrentIs(db.(addresses := db.addresses[a := db.addresses[a].(status := Allocated)]), dev, Reconnect);
    TakeThenFree(db.addresses, a, db.leases[Current(db.leases, dev).value].address);
  }

  ghost function NewLease(env: Env, db: Db, dev: DeviceId, point: PointId, key: string, a: nat, random: string,
      now: int): Lease {
    Lease(dev, point, a, LastGeneration(ReleaseCurrent(db, dev, Reconnect).leases, dev) + 1, true,
          env.hash(Token(env, |db.leases|, key, random)), key, now)
  }

  lemma ClearedRoom(env: Env, db: Db, dev: DeviceId, point: PointId)
    requires point in env.points && !Crowded(env, db, dev, point)
    ensures |OthersAt(ReleaseCurrent(db, dev, Reconnect).leases, point, dev)| < env.points[point].capacity
  {
    var current := Current(db.leases, dev);
    assert OthersAt(ReleaseCurrent(db, dev, Reconnect).leases, point, dev) == OthersAt(db.leases, point, dev);
  }

  lemma ConnectKeeps(env: Env, db: Db, dev: DeviceId, point: PointId, key: string, locked: set<nat>, random: string,
      now: int)
    requires Inv(env, db)
    requires Connect(env, db, dev, point, key, locked, random, now).Ok?
    ensures Inv(env, Connect(env, db, dev, point, key, locked, random, now).value.db)
  {
    if !Replays(db, dev, point, key) {
      var a := Lowest(db.addresses, env.points[point].pool, locked).value;
      EstablishIs(env, db, dev, point, key, a, random, now);
      ClearKeeps(env, db, dev, Reconnect);
      ClearedRoom(env, db, dev, point);
      InsertKeeps(env, ReleaseCurrent(db, dev, Reconnect), NewLease(env, db, dev, point, key, a, random, now));
    }
  }

  // ---- The other operations

  lemma BeatKeeps(env: Env, db: Db, i: nat, now: int)
    requires Inv(env, db) && Active(db.leases, i)
    ensures Inv(env, db.(leases := db.leases[i := db.leases[i].(beat := now)]))
  {
    var after := db.leases[i := db.leases[i].(beat := now)];
    BeatAddresses(db.addresses, db.leases, i, now);
    assert GenerationsOk(after);
    assert TerminationsOk(after, db.terminations);
    forall p | p in env.points
      ensures |ActiveAt(after, p)| <= env.points[p].capacity
    {
      assert ActiveAt(after, p) == ActiveAt(db.leases, p);
    }
    BeatDevices(env, db, i, now);
  }

  lemma BeatAddresses(addresses: seq<Address>, leases: seq<Lease>, i: nat, now: int)
    requires AddressesOk(addresses, leases) && Active(leases, i)
    ensures AddressesOk(addresses, leases[i := leases[i].(beat := now)])
  {
    var after := leases[i := leases[i].(beat := now)];
    assert forall j, a :: Holds(after, j, a) <==> Holds(leases, j, a);
    forall a | 0 <= a < |addresses|
      ensures Held(after, a) <==> Held(leases, a)
    {
    }
  }

  lemma BeatDevices(env: Env, db: Db, i: nat, now: int)
    requires DevicesOk(env, db) && Active(db.leases, i)
    ensures DevicesOk(env, db.(leases := db.leases[i := db.leases[i].(beat := now)]))
  {
    assert LeaseOk(env, db.devices, db.addresses, db.leases[i], i);
  }

  /** Credentials and the revoked flag change freely, as long as a revoked device has no session. */
  lemma DeviceKeeps(env: Env, db: Db, dev: DeviceId, revoked: bool, credential: string)
    requires Inv(env, db) && dev in db.devices
    requires revoked ==> Current(db.leases, dev).None?
    ensures Inv(env, db.(devices := db.devices[dev := db.devices[dev].(revoked := revoked, credential := credential)]))
  {
    var after := db.(devices := db.devices[dev := db.devices[dev].(revoked := revoked, credential := credential)]);
    forall i | 0 <= i < |db.leases|
      ensures LeaseOk(env, after.devices, after.addresses, after.leases[i], i)
    {
      assert LeaseOk(env, db.devices, db.addresses, db.leases[i], i);
      assert Current(db.leases, dev).None? ==> !ActiveFor(db.leases, i, dev);
    }
  }

  lemma RevokeKeeps(env: Env, db: Db, dev: DeviceId, random: string)
    requires Inv(env, db) && dev in db.devices
    ensures Inv(env, Revoke(env, db, dev, random).value)
  {
    var cleared := ReleaseCurrent(db, dev, DeviceRevoked);
    ClearKeeps(env, db, dev, DeviceRevoked);
    if !db.devices[dev].revoked {
      DeviceKeeps(env, cleared, dev, true, env.hash(random));
    }
  }

  ghost predicate Releasable(leases: seq<Lease>, rows: seq<nat>) {
    && (forall t | 0 <= t < |rows| :: Active(leases, rows[t]))
    && (forall s, t | 0 <= s < t < |rows| :: rows[s] < rows[t])
  }

  lemma RestReleasable(leases: seq<Lease>, rows: seq<nat>)
    requires Releasable(leases, rows) && rows != []
    ensures Releasable(Closed(leases, rows[0]), rows[1..])
  {
  }

  lemma StaleReleasable(leases: seq<Lease>, cutoff: int, locked: set<nat>)
    ensures Releasable(leases, StaleRows(leases, cutoff, locked))
  {
    var rows := StaleRows(leases, cutoff, locked);
    forall t | 0 <= t < |rows|
      ensures Active(leases, rows[t])
    {
      assert rows[t] in rows;
    }
  }

  lemma {:induction false} ReleaseEachKeeps(env: Env, db: Db, rows: seq<nat>)
    requires Inv(env, db) && Releasable(db.leases, rows)
    ensures Inv(env, ReleaseEach(db, rows))
    decreases |rows|
  {
    if rows == [] {
    } else {
      ReleaseKeeps(env, db, rows[0], HeartbeatTimeout);
      RestReleasable(db.leases, rows);
      ReleaseEachKeeps(env, ReleaseOnce(db, rows[0], HeartbeatTimeout), rows[1..]);
    }
  }

  lemma SweepKeeps(env: Env, db: Db, cutoff: int, locked: set<nat>)
    requires Inv(env, db)
    ensures Inv(env, Sweep(db, cutoff, locked))
  {
    StaleReleasable(db.leases, cutoff, locked);
    ReleaseEachKeeps(env, db, StaleRows(db.leases, cutoff, locked));
  }

  // ---- Runs

  lemma StepKeeps(env: Env, db: Db, op: Op)
    requires Inv(env, db)
    ensures Inv(env, Step(env, db, op))
  {
    if Attempt(env, db, op).Ok? {
      match op
      case DoConnect(dev, point, key, locked, random, now) =>
        ConnectKeeps(env, db, dev, point, key, locked, random, now);
      case DoHeartbeat(_, i, _, _, now) => BeatKeeps(env, db, i, now);
      case DoClose(_, i, _, _) =>
        if db.leases[i].active {
          ReleaseKeeps(env, db, i, ClientClose);
        }
      case DoRevoke(dev, random) => RevokeKeeps(env, db, dev, random);
      case DoReissue(dev, random) => DeviceKeeps(env, db, dev, false, env.hash(random));
      case DoReinstate(dev, random) => DeviceKeeps(env, db, dev, false, env.hash(random));
      case DoSweep(cutoff, locked) => SweepKeeps(env, db, cutoff, locked);
    }
  }

  lemma {:induction false} RunKeeps(env: Env, db: Db, ops: seq<Op>)
    requires Inv(env, db)
    ensures Inv(env, Run(env, db, ops))
    decreases |ops|
  {
    if ops == [] {
    } else {
      StepKeeps(env, db, ops[0]);
      RunKeeps(env, Step(env, db, ops[0]), ops[1..]);
    }
  }

  ghost predicate Reached(env: Env, db: Db) {
    exists start, ops :: Fresh(start) && db == Run(env, start, ops)
  }

  lemma ReachedInv(env: Env, db: Db)
    requires Reached(env, db)
    ensures Inv(env, db)
  {
    var start, ops :| Fresh(start) && db == Run(env, start, ops);
    FreshInv(env, start);
    RunKeeps(env, start, ops);
  }
}
