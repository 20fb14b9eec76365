/** Address leases: what one transaction does to the tables. */
module Leasing {
  import opened Wrappers

  type DeviceId = nat
  type PointId = nat

  datatype Kind = Usable | Network | Broadcast
  datatype AddressStatus = Free | Allocated | Released
  datatype Address = Address(pool: nat, ip: int, kind: Kind, reserved: bool, status: AddressStatus)
  datatype Point = Point(tenant: nat, pool: nat, capacity: nat)
  datatype Device = Device(tenant: nat, revoked: bool, credential: string)

  /** A session row; an absent idempotency key is "", since an empty key never replays. */
  datatype Lease = Lease(device: DeviceId, point: PointId, address: nat, generation: int, active: bool,
                         token: string, key: string, beat: int)

  datatype Reason = ClientClose | HeartbeatTimeout | DeviceRevoked | Reconnect
  datatype Termination = Termination(lease: nat, reason: Reason)

  /** Addresses, sessions and terminations are numbered in the order of their rows. */
  datatype Db = Db(addresses: seq<Address>, devices: map<DeviceId, Device>, leases: seq<Lease>,
    terminations: seq<Termination>)

  /** The access points, which do not change, the token hash, and tokens derived from a session and a key. */
  datatype Env = Env(points: map<PointId, Point>, hash: string -> string, derive: (nat, string) -> string)

  datatype Error =
    | DeviceNotFound | RevokedDevice | PointNotFound | CrossTenant | CapacityExceeded | PoolExhausted
    | LeaseConflict | SessionNotFound | InvalidToken | StaleGeneration | LeaseClosed

  datatype Connected = Connected(db: Db, lease: nat, token: string, reconnected: bool, reused: bool)

  // ---- Reading

  predicate Active(leases: seq<Lease>, i: nat) {
    i < |leases| && leases[i].active
  }

  predicate ActiveFor(leases: seq<Lease>, i: nat, dev: DeviceId) {
    Active(leases, i) && leases[i].device == dev
  }

  /** The active session of a device. */
  function Current(leases: seq<Lease>, dev: DeviceId): (r: Option<nat>)
    ensures r.Some? ==> ActiveFor(leases, r.value, dev)
    ensures r.None? ==> forall i: nat :: !ActiveFor(leases, i, dev)
  {
    if leases == [] then None
    else
      var last := |leases| - 1;
      if leases[last].active && leases[last].device == dev then Some(last)
      else
        var r := Current(leases[..last], dev);
        assert forall i: nat | ActiveFor(leases, i, dev) :: i < last && ActiveFor(leases[..last], i, dev);
        r
  }

  /** Other devices' active sessions at an access point. */
  ghost function OthersAt(leases: seq<Lease>, point: PointId, dev: DeviceId): set<nat> {
    set i | 0 <= i < |leases| && leases[i].active && leases[i].point == point && leases[i].device != dev
  }

  ghost function ActiveAt(leases: seq<Lease>, point: PointId): set<nat> {
    set i | 0 <= i < |leases| && leases[i].active && leases[i].point == point
  }

  /** Rows an allocation may take; `locked` are those another transaction holds. */
  predicate Assignable(addresses: seq<Address>, a: nat, pool: nat, locked: set<nat>) {
    && a < |addresses| && a !in locked
    && addresses[a].pool == pool && addresses[a].kind.Usable? && !addresses[a].reserved && addresses[a].status.Free?
  }

  /** The lowest assignable address. */
  function Lowest(addresses: seq<Address>, pool: nat, locked: set<nat>): (r: Option<nat>)
    ensures r.Some? ==> Assignable(addresses, r.value, pool, locked)
    ensures r.Some? ==> forall a: nat | Assignable(addresses, a, pool, locked) ::
      addresses[r.value].ip <= addresses[a].ip
    ensures r.None? ==> forall a: nat :: !Assignable(addresses, a, pool, locked)
  {
    if addresses == [] then None
    else
      var last := |addresses| - 1;
      var rest := addresses[..last];
      var r := Lowest(rest, pool, locked);
      assert forall a: nat | a < last :: Assignable(addresses, a, pool, locked) == Assignable(rest, a, pool, locked);
      if !Assignable(addresses, last, pool, locked) then r
      else if r.None? || addresses[last].ip < addresses[r.value].ip then Some(last)
      else r
  }

  /** The largest generation a device has had, or 0. */
  function LastGeneration(leases: seq<Lease>, dev: DeviceId): (g: int)
    ensures g >= 0
    ensures forall i | 0 <= i < |leases| && leases[i].device == dev :: leases[i].generation <= g
    ensures g == 0 || exists i :: 0 <= i < |leases| && leases[i].device == dev && leases[i].generation == g
  {
    if leases == [] then 0
    else
      var last := |leases| - 1;
      var g := LastGeneration(leases[..last], dev);
      if leases[last].device == dev && leases[last].generation > g then leases[last].generation else g
  }

  predicate Terminated(terminations: seq<Termination>, i: nat) {
    exists t :: 0 <= t < |terminations| && terminations[t].lease == i
  }

  // ---- Changing

  /** Free an allocated address. */
  function Freed(addresses: seq<Address>, a: nat): (r: seq<Address>)
    ensures |r| == |addresses|
  {
    if a < |addresses| && addresses[a].status.Allocated? then addresses[a := addresses[a].(status := Free)]
      else addresses
  }

  /** Terminate a session unless its termination row is already there. */
  function ReleaseOnce(db: Db, i: nat, reason: Reason): Db
    requires i < |db.leases|
  {
    if Terminated(db.terminations, i) then db
    else
      db.(terminations := db.terminations + [Termination(i, reason)],
          leases := db.leases[i := db.leases[i].(active := false)],
          addresses := Freed(db.addresses, db.leases[i].address))
  }

  function ReleaseCurrent(db: Db, dev: DeviceId, reason: Reason): Db {
    match Current(db.leases, dev)
    case Some(i) => ReleaseOnce(db, i, reason)
    case None => db
  }

  predicate Replays(db: Db, dev: DeviceId, point: PointId, key: string) {
    var current := Current(db.leases, dev);
    current.Some? && key != "" && db.leases[current.value].key == key && db.leases[current.value].point == point
  }

  function Token(env: Env, i: nat, key: string, random: string): string {
    if key != "" then env.derive(i, key) else random
  }

  /** Take an address, terminate the device's old session, and insert the new one. */
  function Establish(env: Env, db: Db, dev: DeviceId, point: PointId, key: string, a: nat, random: string,
      now: int): Result<Connected, Error>
    requires a < |db.addresses|
  {
    var taken := db.(addresses := db.addresses[a := db.addresses[a].(status := Allocated)]);
    var cleared := ReleaseCurrent(taken, dev, Reconnect);
    // the partial unique index on active sessions
    if Current(cleared.leases, dev).Some? then Err(LeaseConflict)
    else
      var i := |db.leases|;
      var token := Token(env, i, key, random);
      var lease := Lease(dev, point, a, LastGeneration(cleared.leases, dev) + 1, true, env.hash(token), key, now);
      Ok(Connected(cleared.(leases := cleared.leases + [lease]), i, token, Current(db.leases, dev).Some?, false))
  }

  function Connect(env: Env, db: Db, dev: DeviceId, point: PointId, key: string, locked: set<nat>, random: string,
      now: int): Result<Connected, Error> {
    if dev !in db.devices then Err(DeviceNotFound)
    else if db.devices[dev].revoked then Err(RevokedDevice)
    else if point !in env.points then Err(PointNotFound)
    else if env.points[point].tenant != db.devices[dev].tenant then Err(CrossTenant)
    else if Replays(db, dev, point, key) then
      var i := Current(db.leases, dev).value;
      Ok(Connected(db, i, env.derive(i, key), false, true))
    else if Crowded(env, db, dev, point) then Err(CapacityExceeded)
    else
      match Lowest(db.addresses, env.points[point].pool, locked)
      case None => Err(PoolExhausted)
      case Some(a) => Establish(env, db, dev, point, key, a, random, now)
  }

  function CountOthers(leases: seq<Lease>, point: PointId, dev: DeviceId): (n: nat)
    ensures n == |OthersAt(leases, point, dev)|
  {
    if leases == [] then 0
    else
      var last := |leases| - 1;
      var rest := leases[..last];
      var l := leases[last];
      assert OthersAt(leases, point, dev) ==
        OthersAt(rest, point, dev) + if l.active && l.point == point && l.device != dev then {last} else {};
      CountOthers(rest, point, dev) + if l.active && l.point == point && l.device != dev then 1 else 0
  }

  predicate Crowded(env: Env, db: Db, dev: DeviceId, point: PointId)
    requires point in env.points
  {
    CountOthers(db.leases, point, dev) >= env.points[point].capacity
  }

  /** The checks a heartbeat and a close make of the lease they name. */
  function Named(env: Env, db: Db, dev: DeviceId, i: nat, generation: int, token: string): (r: Option<Error>)
    ensures r.None? ==> dev in db.devices && i < |db.leases|
    ensures r.None? ==> db.leases[i].device == dev && db.leases[i].generation == generation
  {
    if dev !in db.devices then Some(DeviceNotFound)
    else if i >= |db.leases| || db.leases[i].device != dev then Some(SessionNotFound)
    else if db.leases[i].token != env.hash(token) then Some(InvalidToken)
    else if db.leases[i].generation != generation then Some(StaleGeneration)
    else None
  }

  function Heartbeat(env: Env, db: Db, dev: DeviceId, i: nat, generation: int, token: string,
      now: int): Result<Db, Error> {
    match Named(env, db, dev, i, generation, token)
    case Some(e) => Err(e)
    case None =>
      if !db.leases[i].active then Err(LeaseClosed)
      else Ok(db.(leases := db.leases[i := db.leases[i].(beat := now)]))
  }

  function Close(env: Env, db: Db, dev: DeviceId, i: nat, generation: int, token: string): Result<Db, Error> {
    match Named(env, db, dev, i, generation, token)
    case Some(e) => Err(e)
    case None => Ok(if db.leases[i].active then ReleaseOnce(db, i, ClientClose) else db)
  }

  /** End the device's session and make its credential useless. */
  function Revoke(env: Env, db: Db, dev: DeviceId, random: string): Result<Db, Error> {
    if dev !in db.devices then Err(DeviceNotFound)
    else
      var cleared := ReleaseCurrent(db, dev, DeviceRevoked);
      if db.devices[dev].revoked then Ok(cleared)
      else Ok(cleared.(devices := db.devices[dev := db.devices[dev].(revoked := true, credential := env.hash(random))]))
  }

  function Reissue(env: Env, db: Db, dev: DeviceId, random: string): Result<Db, Error> {
    if dev !in db.devices then Err(DeviceNotFound)
    else if db.devices[dev].revoked then Err(RevokedDevice)
    else Ok(db.(devices := db.devices[dev := db.devices[dev].(credential := env.hash(random))]))
  }

  function Reinstate(env: Env, db: Db, dev: DeviceId, random: string): Result<Db, Error> {
    if dev !in db.devices then Err(DeviceNotFound)
    else Ok(db.(devices := db.devices[dev := db.devices[dev].(revoked := false, credential := env.hash(random))]))
  }

  predicate Stale(leases: seq<Lease>, i: nat, cutoff: int, locked: set<nat>) {
    Active(leases, i) && leases[i].beat < cutoff && i !in locked
  }

  /** The stale sessions, except those another transaction holds. */
  function StaleRows(leases: seq<Lease>, cutoff: int, locked: set<nat>): (r: seq<nat>)
    ensures forall i: nat :: i in r <==> Stale(leases, i, cutoff, locked)
    ensures forall s, t | 0 <= s < t < |r| :: r[s] < r[t]
  {
    if leases == [] then []
    else
      var last := |leases| - 1;
      var rest := StaleRows(leases[..last], cutoff, locked);
      assert forall i: nat | i < last :: Stale(leases, i, cutoff, locked) == Stale(leases[..last], i, cutoff, locked);
      assert forall s | 0 <= s < |rest| :: Stale(leases[..last], rest[s], cutoff, locked);
      if Stale(leases, last, cutoff, locked) then rest + [last] else rest
  }

  function ReleaseEach(db: Db, rows: seq<nat>): Db
    requires forall t | 0 <= t < |rows| :: rows[t] < |db.leases|
    decreases |rows|
  {
    if rows == [] then db else ReleaseEach(ReleaseOnce(db, rows[0], HeartbeatTimeout), rows[1..])
  }

  function Sweep(db: Db, cutoff: int, locked: set<nat>): Db {
    var rows := StaleRows(db.leases, cutoff, locked);
    assert forall t | 0 <= t < |rows| :: rows[t] in rows;
    ReleaseEach(db, rows)
  }

  // ---- Runs

  datatype Op =
    | DoConnect(dev: DeviceId, point: PointId, key: string, locked: set<nat>, random: string, now: int)
    | DoHeartbeat(dev: DeviceId, lease: nat, generation: int, token: string, now: int)
    | DoClose(dev: DeviceId, lease: nat, generation: int, token: string)
    | DoRevoke(dev: DeviceId, random: string)
    | DoReissue(dev: DeviceId, random: string)
    | DoReinstate(dev: DeviceId, random: string)
    | DoSweep(cutoff: int, locked: set<nat>)

  function Attempt(env: Env, db: Db, op: Op): Result<Db, Error> {
    match op
    case DoConnect(dev, point, key, locked, random, now) =>
      (match Connect(env, db, dev, point, key, locked, random, now)
       case Ok(c) => Ok(c.db)
       case Err(e) => Err(e))
    case DoHeartbeat(dev, i, generation, token, now) => Heartbeat(env, db, dev, i, generation, token, now)
    case DoClose(dev, i, generation, token) => Close(env, db, dev, i, generation, token)
    case DoRevoke(dev, random) => Revoke(env, db, dev, random)
    case DoReissue(dev, random) => Reissue(env, db, dev, random)
    case DoReinstate(dev, random) => Reinstate(env, db, dev, random)
    case DoSweep(cutoff, locked) => Ok(Sweep(db, cutoff, locked))
  }

  /** A failed transaction is rolled back. */
  function Step(env: Env, db: Db, op: Op): Db {
    match Attempt(env, db, op)
    case Ok(after) => after
    case Err(_) => db
  }

  function Run(env: Env, db: Db, ops: seq<Op>): Db
    decreases |ops|
  {
    if ops == [] then db else Run(env, Step(env, db, ops[0]), ops[1..])
  }
}
