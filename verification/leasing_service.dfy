/** The lease tables as the service updates them, a transaction at a time. */
module LeasingServices {
  import opened Wrappers
  import opened Leasing
  import opened LeasingSafety

  class LeaseStore {
    const env: Env
    var addresses: seq<Address>
    var devices: map<DeviceId, Device>
    var leases: seq<Lease>
    var terminations: seq<Termination>

    constructor (env: Env, addresses: seq<Address>, devices: map<DeviceId, Device>)
      requires forall a | 0 <= a < |addresses| :: addresses[a].status.Free?
      ensures this.env == env && State() == Db(addresses, devices, [], []) && Valid()
    {
      this.env, this.addresses, this.devices := env, addresses, devices;
      leases, terminations := [], [];
      new;
      FreshInv(env, State());
    }

    lemma NotTerminated(db: Db, i: nat)
      requires TerminationsOk(db.leases, db.terminations) && Active(db.leases, i)
      ensures !Terminated(db.terminations, i)
    {
    }

    function State(): Db
      reads this
    {
      Db(addresses, devices, leases, terminations)
    }

    ghost predicate Valid()
      reads this
    {
      Inv(env, State())
    }

    method Restore(db: Db)
      modifies this
      ensures State() == db
    {
      addresses, devices, leases, terminations := db.addresses, db.devices, db.leases, db.terminations;
    }

    // ---- Inside a transaction

    /** Insert the termination row and free the lease; false when the row was already there. */
    method Release(i: nat, reason: Reason) returns (released: bool)
      requires i < |leases|
      modifies this
      ensures State() == ReleaseOnce(old(State()), i, reason)
      ensures released == !Terminated(old(terminations), i)
    {
      if Terminated(terminations, i) {
        return false;
      }
      terminations := terminations + [Termination(i, reason)];
      var a := leases[i].address;
      leases := leases[i := leases[i].(active := false)];
      if a < |addresses| && addresses[a].status.Allocated? {
        addresses := addresses[a := addresses[a].(status := Free)];
      }
      released := true;
    }

    method ReleaseActive(dev: DeviceId, reason: Reason)
      modifies this
      ensures State() == ReleaseCurrent(old(State()), dev, reason)
    {
      var active := Current(leases, dev);
      if active.Some? {
        var _ := Release(active.value, reason);
      }
    }

    /** Reserve the lowest free address of a pool among those nobody else holds. */
    method AllocateAddress(pool: nat, locked: set<nat>) returns (r: Option<nat>)
      modifies this`addresses
      ensures r == Lowest(old(addresses), pool, locked)
      ensures addresses == if r.Some? then old(addresses)[r.value := old(addresses)[r.value].(status := Allocated)]
        else old(addresses)
    {
      r := None;
      var a := 0;
      while a < |addresses|
        invariant 0 <= a <= |addresses|
        invariant r == Lowest(addresses[..a], pool, locked)
      {
        var before := addresses[..a];
        assert addresses[..a + 1][..a] == before;
        assert Assignable(addresses[..a + 1], a, pool, locked) == Assignable(addresses, a, pool, locked);
        if Assignable(addresses, a, pool, locked) && (r.None? || addresses[a].ip < addresses[r.value].ip) {
          r := Some(a);
        }
        a := a + 1;
      }
      assert addresses[..a] == addresses;
      if r.Some? {
        addresses := addresses[r.value := addresses[r.value].(status := Allocated)];
      }
    }

    // ---- Transactions

    method Connect(dev: DeviceId, point: PointId, key: string, locked: set<nat>, random: string, now: int)
      returns (r: Result<(nat, string), Error>)
      requires Valid()
      modifies this
      ensures Valid() && State() == Step(env, old(State()), DoConnect(dev, point, key, locked, random, now))
      ensures match Leasing.Connect(env, old(State()), dev, point, key, locked, random, now)
              case Ok(c) => r == Ok((c.lease, c.token))
              case Err(e) => r == Err(e)
    {
      ghost var op := DoConnect(dev, point, key, locked, random, now);
      ghost var before := State();
      r := Attempt(dev, point, key, locked, random, now);
      StepKeeps(env, before, op);
    }

    method Attempt(dev: DeviceId, point: PointId, key: string, locked: set<nat>, random: string, now: int)
      returns (r: Result<(nat, string), Error>)
      modifies this
      ensures State() == Step(env, old(State()), DoConnect(dev, point, key, locked, random, now))
      ensures match Leasing.Connect(env, old(State()), dev, point, key, locked, random, now)
              case Ok(c) => r == Ok((c.lease, c.token))
              case Err(e) => r == Err(e)
    {
      if dev !in devices {
        return Err(DeviceNotFound);
      }
      if devices[dev].revoked {
        return Err(RevokedDevice);
      }
      if point !in env.points {
        return Err(PointNotFound);
      }
      if env.points[point].tenant != devices[dev].tenant {
        return Err(CrossTenant);
      }
      var active := Current(leases, dev);
      if active.Some? && key != "" && leases[active.value].key == key && leases[active.value].point == point {
        return Ok((active.value, env.derive(active.value, key)));
      }
      if CountOthers(leases, point, dev) >= env.points[point].capacity {
        return Err(CapacityExceeded);
      }
      var before := State();
      var address := AllocateAddress(env.points[point].pool, locked);
      if address.None? {
        return Err(PoolExhausted);
      }
      r := Insert(before, dev, point, key, address.value, random, now);
    }

    /** End the old session and insert the new one at the address taken. */
    method Insert(before: Db, dev: DeviceId, point: PointId, key: string, a: nat, random: string, now: int)
      returns (r: Result<(nat, string), Error>)
      requires a < |before.addresses|
      requires State() == before.(addresses := before.addresses[a := before.addresses[a].(status := Allocated)])
      modifies this
      ensures match Establish(env, before, dev, point, key, a, random, now)
              case Ok(c) => r == Ok((c.lease, c.token)) && State() == c.db
              case Err(e) => r == Err(e) && State() == before
    {
      ReleaseActive(dev, Reconnect);
      if Current(leases, dev).Some? {
        Restore(before);
        return Err(LeaseConflict);
      }
      var i := |before.leases|;
      var token := Token(env, i, key, random);
      leases := leases + [Lease(dev, point, a, LastGeneration(leases, dev) + 1, true, env.hash(token), key, now)];
      r := Ok((i, token));
    }

    method Heartbeat(dev: DeviceId, i: nat, generation: int, token: string, now: int) returns (r: Option<Error>)
      requires Valid()
      modifies this
      ensures Valid() && State() == Step(env, old(State()), DoHeartbeat(dev, i, generation, token, now))
      ensures r == Failure(Leasing.Heartbeat(env, old(State()), dev, i, generation, token, now))
    {
      StepKeeps(env, State(), DoHeartbeat(dev, i, generation, token, now));
      r := Named(env, State(), dev, i, generation, token);
      if r.Some? {
        return;
      }
      if !leases[i].active {
        return Some(LeaseClosed);
      }
      leases := leases[i := leases[i].(beat := now)];
    }

    method Close(dev: DeviceId, i: nat, generation: int, token: string) returns (r: Option<Error>)
      requires Valid()
      modifies this
      ensures Valid() && State() == Step(env, old(State()), DoClose(dev, i, generation, token))
      ensures r == Failure(Leasing.Close(env, old(State()), dev, i, generation, token))
    {
      StepKeeps(env, State(), DoClose(dev, i, generation, token));
      r := Named(env, State(), dev, i, generation, token);
      if r.None? && leases[i].active {
        var _ := Release(i, ClientClose);
      }
    }

    method Revoke(dev: DeviceId, random: string) returns (r: Option<Error>)
      requires Valid()
      modifies this
      ensures Valid() && State() == Step(env, old(State()), DoRevoke(dev, random))
      ensures r == Failure(Leasing.Revoke(env, old(State()), dev, random))
    {
      ghost var before := State();
      r := EndAccess(dev, random);
      StepKeeps(env, before, DoRevoke(dev, random));
    }

    method EndAccess(dev: DeviceId, random: string) returns (r: Option<Error>)
      modifies this
      ensures State() == Step(env, old(State()), DoRevoke(dev, random))
      ensures r == Failure(Leasing.Revoke(env, old(State()), dev, random))
    {
      if dev !in devices {
        return Some(DeviceNotFound);
      }
      ReleaseActive(dev, DeviceRevoked);
      if !devices[dev].revoked {
        devices := devices[dev := devices[dev].(revoked := true, credential := env.hash(random))];
      }
      r := None;
    }

    method Reissue(dev: DeviceId, random: string) returns (r: Option<Error>)
      requires Valid()
      modifies this
      ensures Valid() && State() == Step(env, old(State()), DoReissue(dev, random))
      ensures r == Failure(Leasing.Reissue(env, old(State()), dev, random))
    {
      StepKeeps(env, State(), DoReissue(dev, random));
      if dev !in devices {
        return Some(DeviceNotFound);
      }
      if devices[dev].revoked {
        return Some(RevokedDevice);
      }
      devices := devices[dev := devices[dev].(credential := env.hash(random))];
      r := None;
    }

    method Reinstate(dev: DeviceId, random: string) returns (r: Option<Error>)
      requires Valid()
      modifies this
      ensures Valid() && State() == Step(env, old(State()), DoReinstate(dev, random))
      ensures r == Failure(Leasing.Reinstate(env, old(State()), dev, random))
    {
      StepKeeps(env, State(), DoReinstate(dev, random));
      if dev !in devices {
        return Some(DeviceNotFound);
      }
      devices := devices[dev := devices[dev].(revoked := false, credential := env.hash(random))];
      r := None;
    }

    /** Release the first of the rows left. */
    method ReleaseStale(i: nat, ghost rows: seq<nat>) returns (released: bool)
      requires TerminationsOk(leases, terminations) && Releasable(leases, rows) && rows != [] && rows[0] == i
      modifies this
      ensures released && TerminationsOk(leases, terminations) && Releasable(leases, rows[1..])
      ensures State() == ReleaseOnce(old(State()), i, HeartbeatTimeout)
    {
      ReleaseTerminations(leases, terminations, i, HeartbeatTimeout);
      RestReleasable(leases, rows);
      NotTerminated(State(), i);
      released := Release(i, HeartbeatTimeout);
    }

    /** Release stale sessions; the count is of those this call released. */
    method Sweep(cutoff: int, locked: set<nat>) returns (released: nat)
      requires Valid()
      modifies this
      ensures Valid() && State() == Step(env, old(State()), DoSweep(cutoff, locked))
      ensures released == |StaleRows(old(leases), cutoff, locked)|
    {
      ghost var before := State();
      released := ReleaseStaleRows(cutoff, locked);
      StepKeeps(env, before, DoSweep(cutoff, locked));
    }

    method ReleaseStaleRows(cutoff: int, locked: set<nat>) returns (released: nat)
      requires TerminationsOk(leases, terminations)
      modifies this
      ensures State() == Step(env, old(State()), DoSweep(cutoff, locked))
      ensures released == |StaleRows(old(leases), cutoff, locked)|
    {
      StaleReleasable(leases, cutoff, locked);
      released := ReleaseAll(StaleRows(leases, cutoff, locked));
    }

    method ReleaseAll(stale: seq<nat>) returns (released: nat)
      requires TerminationsOk(leases, terminations) && Releasable(leases, stale)
      modifies this
      ensures State() == ReleaseEach(old(State()), stale)
      ensures released == |stale|
    {
      ghost var before := State();
      released := 0;
      var t := 0;
      while t < |stale|
        invariant 0 <= t <= |stale| && released == t
        invariant TerminationsOk(leases, terminations) && Releasable(leases, stale[t..])
        invariant ReleaseEach(before, stale) == ReleaseEach(State(), stale[t..])
      {
        assert stale[t..][0] == stale[t] && stale[t..][1..] == stale[t + 1..];
        var first := ReleaseStale(stale[t], stale[t..]);
        released := released + if first then 1 else 0;
        t := t + 1;
      }
    }
  }
}
