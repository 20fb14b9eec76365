/**
 The consent event store of one organization: an immutable event log, and a mutable table of
 current consent states that every write maintains incrementally. Operations are functions from
 the committed tables to the committed tables; an `Err` outcome means the transaction rolled back.
 */
module Consent {
  import opened Wrappers

  type SubjectRef = string
  type Pseudonym = string
  type PurposeKey = string
  type EventKey = string
  type Id = nat
  type Time = int

  datatype Action = Grant | Withdrawal

  /** One row of the append-only history. */
  datatype Event = Event(
    id: Id, pseudonym: Pseudonym, purpose: PurposeKey, action: Action, sequence: nat,
    policyVersion: Option<nat>, expiresAt: Option<Time>, at: Time)

  /** One row of the projection, keyed by subject and purpose ids. */
  datatype StateRow = StateRow(
    granted: bool, version: nat, policyVersionId: Option<Id>,
    grantedEvent: Option<Id>, grantedSequence: Option<nat>, grantedAt: Option<Time>, expiresAt: Option<Time>,
    withdrawnEvent: Option<Id>, withdrawnSequence: Option<nat>, withdrawnAt: Option<Time>,
    updatedAt: Time)

  datatype Subject = Subject(id: Id, pseudonym: Pseudonym)

  /** A write request. Its canonical form is its fingerprint: equal fingerprints mean equal payloads. */
  datatype Payload = Payload(
    action: Action, subject: SubjectRef, purpose: PurposeKey, expectedVersion: int,
    policyVersion: Option<nat>, expiresAt: Option<Time>)

  datatype Verdict = NoRecord | ActiveGrant | Expired | Withdrawn

  datatype View = View(valid: bool, verdict: Verdict, stateVersion: Option<nat>)

  /** The response of a successful write, stored for replay. */
  datatype Answer = Answer(view: View, sequence: nat, action: Action, policyVersionId: Option<Id>)

  /** The idempotency row of an event key. Erasure blanks the answer and keeps the row. */
  datatype Receipt = Receipt(subject: Option<Id>, fingerprint: Payload, answer: Option<Answer>, erased: bool, event: Id)

  datatype Db = Db(
    purposes: map<PurposeKey, Id>, policies: map<Id, Id>, versions: map<(Id, nat), Id>,
    subjects: map<SubjectRef, Subject>, states: map<(Id, Id), StateRow>,
    events: seq<Event>, receipts: map<EventKey, Receipt>, nextId: Id)

  datatype Error =
    | SubjectErased | IdempotencyMismatch | PurposeNotFound | VersionConflict | AlreadyExpired
    | UnknownPolicyVersion | NoConsent | AlreadyWithdrawn | BatchTooLarge | DuplicateInBatch
    | SubjectNotFound | PurposeExists

  /** A request with what the server adds to it: the clock and the pseudonym a new subject would get. */
  datatype Request = Request(key: EventKey, payload: Payload, now: Time, salted: Pseudonym)

  datatype Outcome = Outcome(answer: Option<Answer>, replayed: bool)

  const EMPTY := Db(map[], map[], map[], map[], map[], [], map[], 0)

  // ---- The log

  /** The history of one subject incarnation and purpose, in commit order. */
  function LogOf(events: seq<Event>, p: Pseudonym, k: PurposeKey): (log: seq<Event>)
    ensures forall e | e in log :: e in events && e.pseudonym == p && e.purpose == k
  {
    if events == [] then []
    else
      var init := LogOf(events[..|events| - 1], p, k);
      var e := events[|events| - 1];
      if e.pseudonym == p && e.purpose == k then init + [e] else init
  }

  function MaxSequence(log: seq<Event>): nat {
    if log == [] then 0
    else
      var m := MaxSequence(log[..|log| - 1]);
      var e := log[|log| - 1];
      if e.sequence > m then e.sequence else m
  }

  // ---- Writing one event

  const NEW_ROW := StateRow(false, 0, None, None, None, None, None, None, None, None, 0)

  /** The projection row after the write path has applied `e`, with `pv` the resolved policy version row. */
  function Incremented(row: StateRow, e: Event, pv: Option<Id>): StateRow {
    var r := if e.action == Grant
      then row.(granted := true, policyVersionId := pv, grantedEvent := Some(e.id),
                grantedSequence := Some(e.sequence), grantedAt := Some(e.at), expiresAt := e.expiresAt,
                withdrawnEvent := None, withdrawnSequence := None, withdrawnAt := None)
      else row.(granted := false, withdrawnEvent := Some(e.id),
                withdrawnSequence := Some(e.sequence), withdrawnAt := Some(e.at));
    r.(version := row.version + 1, updatedAt := e.at)
  }

  function StateView(row: Option<StateRow>, now: Time): View {
    match row
    case None => View(false, NoRecord, None)
    case Some(r) =>
      var expired := r.granted && r.expiresAt.Some? && r.expiresAt.value <= now;
      if r.granted && !expired then View(true, ActiveGrant, Some(r.version))
      else if expired then View(false, Expired, Some(r.version))
      else View(false, Withdrawn, Some(r.version))
  }

  function ResolveVersion(db: Db, purpose: Id, version: Option<nat>): Option<Id> {
    if version.Some? && purpose in db.policies && (db.policies[purpose], version.value) in db.versions
    then Some(db.versions[(db.policies[purpose], version.value)])
    else None
  }

  function SubjectFor(db: Db, ref: SubjectRef, salted: Pseudonym): Subject {
    if ref in db.subjects then db.subjects[ref] else Subject(db.nextId, salted)
  }

  function RowFor(db: Db, key: (Id, Id)): Option<StateRow> {
    if key in db.states then Some(db.states[key]) else None
  }

  /** The checks between finding the subject and appending the event. */
  function Refusal(db: Db, q: Payload, row: Option<StateRow>, purpose: Id, now: Time): Option<Error> {
    if (if row.Some? then row.value.version else 0) != q.expectedVersion then Some(VersionConflict)
    else match q.action
      case Grant =>
        if q.expiresAt.Some? && q.expiresAt.value <= now then Some(AlreadyExpired)
        else if ResolveVersion(db, purpose, q.policyVersion).None? then Some(UnknownPolicyVersion)
        else None
      case Withdrawal =>
        if row.None? then Some(NoConsent)
        else if !row.value.granted then Some(AlreadyWithdrawn)
        else None
  }

  function NewEvent(db: Db, q: Payload, s: Subject, now: Time): Event {
    Event(db.nextId + 1, s.pseudonym, q.purpose, q.action,
          MaxSequence(LogOf(db.events, s.pseudonym, q.purpose)) + 1,
          q.policyVersion, if q.action == Grant then q.expiresAt else None, now)
  }

  function WriteEvent(db: Db, r: Request): Result<(Db, Outcome), Error> {
    var q := r.payload;
    if r.key in db.receipts then
      var prior := db.receipts[r.key];
      if prior.erased then Err(SubjectErased)
      else if prior.fingerprint != q then Err(IdempotencyMismatch)
      else Ok((db, Outcome(prior.answer, true)))
    else if q.purpose !in db.purposes then Err(PurposeNotFound)
    else
      var purpose := db.purposes[q.purpose];
      var s := SubjectFor(db, q.subject, r.salted);
      var row := RowFor(db, (s.id, purpose));
      var refusal := Refusal(db, q, row, purpose, r.now);
      if refusal.Some? then Err(refusal.value)
      else
        var pv := if q.action == Grant then ResolveVersion(db, purpose, q.policyVersion) else None;
        var e := NewEvent(db, q, s, r.now);
        var row' := Incremented(if row.Some? then row.value else NEW_ROW, e, pv);
        var answer := Some(Answer(StateView(Some(row'), r.now), e.sequence, e.action, pv));
        Ok((db.(subjects := db.subjects[q.subject := s],
                states := db.states[(s.id, purpose) := row'],
                events := db.events + [e],
                receipts := db.receipts[r.key := Receipt(Some(s.id), q, answer, false, e.id)],
                nextId := db.nextId + 2),
            Outcome(answer, false)))
  }

  // ---- The other operations

  const MAX_BATCH := 500

  /** Applies the items one by one from index `i`; `seen` are the event keys already in the batch. */
  function WriteAll(db: Db, items: seq<Request>, i: nat, seen: set<EventKey>): Result<(Db, seq<Outcome>), Error>
    requires i <= |items|
    decreases |items| - i
  {
    if i == |items| then Ok((db, []))
    else if items[i].key in seen then Err(DuplicateInBatch)
    else match WriteEvent(db, items[i])
      case Err(e) => Err(e)
      case Ok((db', outcome)) =>
        match WriteAll(db', items, i + 1, seen + {items[i].key})
        case Err(e) => Err(e)
        case Ok((final, outcomes)) => Ok((final, [outcome] + outcomes))
  }

  function BatchImport(db: Db, items: seq<Request>): Result<(Db, seq<Outcome>), Error> {
    if |items| > MAX_BATCH then Err(BatchTooLarge) else WriteAll(db, items, 0, {})
  }

  function Imported(outcomes: seq<Outcome>): nat {
    if outcomes == [] then 0 else (if outcomes[0].replayed then 0 else 1) + Imported(outcomes[1..])
  }

  function Erased(r: Receipt, subject: Id): Receipt {
    if r.subject == Some(subject) then r.(subject := None, answer := None, erased := true) else r
  }

  function DeleteSubject(db: Db, ref: SubjectRef): Result<Db, Error> {
    if ref !in db.subjects then Err(SubjectNotFound)
    else
      var id := db.subjects[ref].id;
      Ok(db.(subjects := db.subjects - {ref},
             states := map k | k in db.states && k.0 != id :: db.states[k],
             receipts := map k | k in db.receipts :: Erased(db.receipts[k], id)))
  }

  function CreatePurpose(db: Db, key: PurposeKey): Result<Db, Error> {
    if key in db.purposes then Err(PurposeExists)
    else Ok(db.(purposes := db.purposes[key := db.nextId], nextId := db.nextId + 1))
  }

  ghost function LastVersion(db: Db, policy: Id): (last: nat)
    ensures forall v | (policy, v) in db.versions :: v <= last
    ensures last == 0 || (policy, last) in db.versions
  {
    var published := set k | k in db.versions && k.0 == policy :: k.1;
    assert forall v: nat | (policy, v) in db.versions :: (policy, v).1 in published;
    Greatest(published)
  }

  ghost function Greatest(s: set<nat>): (m: nat)
    ensures forall v | v in s :: v <= m
    ensures m == 0 || m in s
  {
    if s == {} then 0
    else
      var x :| x in s;
      var m := Greatest(s - {x});
      assert forall v | v in s :: v == x || v in s - {x};
      if x > m then x else m
  }

  ghost function PublishPolicy(db: Db, key: PurposeKey): Result<Db, Error> {
    if key !in db.purposes then Err(PurposeNotFound)
    else
      var purpose := db.purposes[key];
      var policy := if purpose in db.policies then db.policies[purpose] else db.nextId;
      Ok(db.(policies := db.policies[purpose := policy],
             versions := db.versions[(policy, LastVersion(db, policy) + 1) := db.nextId + 1],
             nextId := db.nextId + 2))
  }

  function VerifyConsent(db: Db, ref: SubjectRef, key: PurposeKey, now: Time): Result<View, Error> {
    if key !in db.purposes then Err(PurposeNotFound)
    else
      var row := if ref in db.subjects then RowFor(db, (db.subjects[ref].id, db.purposes[key])) else None;
      Ok(StateView(row, now))
  }

  // ---- Rebuilding the projection

  /** A purpose is materialised only once it has a policy. */
  predicate Mapped(db: Db, k: PurposeKey) {
    k in db.purposes && db.purposes[k] in db.policies
  }

  ghost predicate Live(db: Db, p: Pseudonym) {
    exists ref :: ref in db.subjects && db.subjects[ref].pseudonym == p
  }

  /** The id of the live subject with pseudonym `p`. */
  ghost function SubjectId(db: Db, p: Pseudonym): Id
    requires Live(db, p)
  {
    var ref :| ref in db.subjects && db.subjects[ref].pseudonym == p;
    db.subjects[ref].id
  }

  /** One history row applied by the rebuild; the policy version is looked up by number. */
  function Replayed(db: Db, row: StateRow, e: Event): StateRow
    requires Mapped(db, e.purpose)
  {
    var r := match e.action
      case Grant =>
        row.(granted := true, policyVersionId := ResolveVersion(db, db.purposes[e.purpose], e.policyVersion),
             grantedEvent := Some(e.id), grantedSequence := Some(e.sequence), grantedAt := Some(e.at),
             expiresAt := e.expiresAt, withdrawnEvent := None, withdrawnSequence := None, withdrawnAt := None)
      case Withdrawal =>
        row.(granted := false, withdrawnEvent := Some(e.id), withdrawnSequence := Some(e.sequence),
             withdrawnAt := Some(e.at));
    r.(version := r.version + 1, updatedAt := e.at)
  }

  /** The rows built by replaying `order` from an empty table; erased subjects and unmapped purposes are skipped. */
  ghost function Replay(db: Db, order: seq<Event>): map<(Id, Id), StateRow> {
    if order == [] then map[]
    else
      var rows := Replay(db, order[..|order| - 1]);
      var e := order[|order| - 1];
      if !Live(db, e.pseudonym) || !Mapped(db, e.purpose) then rows
      else
        var key := (SubjectId(db, e.pseudonym), db.purposes[e.purpose]);
        rows[key := Replayed(db, if key in rows then rows[key] else NEW_ROW, e)]
  }

  /** What ORDER BY (pseudonym, purpose, sequence) guarantees: all rows, and sequences rise within a key. */
  ghost predicate ReplayOrder(events: seq<Event>, order: seq<Event>) {
    multiset(order) == multiset(events) && RisingByKey(order)
  }

  ghost predicate RisingByKey(order: seq<Event>) {
    forall i, j | 0 <= i < j < |order| && order[i].pseudonym == order[j].pseudonym
                  && order[i].purpose == order[j].purpose :: order[i].sequence <= order[j].sequence
  }
}
