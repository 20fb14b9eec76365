/** What a write accepts, records and changes, told by the request and the history alone. */
module ConsentWrites {
  import opened Wrappers
  import opened Consent
  import opened ConsentLog
  import opened ConsentRuns

  /** The history of a subject and purpose; a subject that is not registered has none. */
  function History(db: Db, ref: SubjectRef, k: PurposeKey): seq<Event> {
    if ref in db.subjects then LogOf(db.events, db.subjects[ref].pseudonym, k) else []
  }

  ghost predicate Published(db: Db, k: PurposeKey, version: Option<nat>) {
    Mapped(db, k) && version.Some? && (db.policies[db.purposes[k]], version.value) in db.versions
  }

  ghost predicate Unexpired(expiresAt: Option<Time>, now: Time) {
    expiresAt.None? || expiresAt.value > now
  }

  /** The last event is a grant, expired or not. */
  ghost predicate Granted(log: seq<Event>) {
    log != [] && log[|log| - 1].action == Grant
  }

  /** A request under a new key that is not refused. */
  ghost predicate Acceptable(db: Db, q: Payload, now: Time) {
    var log := History(db, q.subject, q.purpose);
    && q.purpose in db.purposes && q.expectedVersion == |log|
    && if q.action == Grant then Unexpired(q.expiresAt, now) && Published(db, q.purpose, q.policyVersion)
       else Granted(log)
  }

  /** The same request again, its subject not erased since. */
  ghost predicate Repeats(db: Db, r: Request)
    requires r.key in db.receipts
  {
    !db.receipts[r.key].erased && db.receipts[r.key].fingerprint == r.payload
  }

  ghost predicate Summary(row: Option<StateRow>, log: seq<Event>) {
    && (row.Some? <==> log != [])
    && (row.Some? ==> row.value.version == |log| && (row.value.granted <==> Granted(log)))
  }

  lemma RowSummary(db: Db, ref: SubjectRef, k: PurposeKey, salted: Pseudonym)
    requires Inv(db) && k in db.purposes
    ensures Summary(RowFor(db, (SubjectFor(db, ref, salted).id, db.purposes[k])), History(db, ref, k))
  {
    if ref in db.subjects && Mapped(db, k) {
      assert RowOk(db, ref, k);
      FoldSummary(db, History(db, ref, k));
    } else {
      if ref in db.subjects {
        UnmappedLog(db, db.subjects[ref].pseudonym, k);
      }
      NoRow(db, ref, k, salted);
    }
  }

  lemma NoRow(db: Db, ref: SubjectRef, k: PurposeKey, salted: Pseudonym)
    requires Inv(db) && k in db.purposes && (ref !in db.subjects || !Mapped(db, k))
    ensures (SubjectFor(db, ref, salted).id, db.purposes[k]) !in db.states
  {
    forall key | key in db.states
      ensures key != (SubjectFor(db, ref, salted).id, db.purposes[k])
    {
      assert HasOwner(db, key);
      var other, o :| Owns(db, other, o, key);
    }
  }

  lemma RefusalIff(db: Db, q: Payload, row: Option<StateRow>, now: Time)
    requires q.purpose in db.purposes && Summary(row, History(db, q.subject, q.purpose))
    ensures Refusal(db, q, row, db.purposes[q.purpose], now).None? <==> Acceptable(db, q, now)
  {
  }

  /**
   A request under a new key is accepted exactly when it names the length of the history as the version,
   and grants a published version before it expires, or withdraws what was last granted. Under a key
   that was used it is answered exactly when it is the same request and its subject was not erased.
   */
  lemma WriteIff(db: Db, r: Request)
    requires Inv(db)
    ensures WriteEvent(db, r).Ok? <==> if r.key in db.receipts then Repeats(db, r) else Acceptable(db, r.payload, r.now)
  {
    var q := r.payload;
    if r.key !in db.receipts && q.purpose in db.purposes {
      RowSummary(db, q.subject, q.purpose, r.salted);
      RefusalIff(db, q, RowFor(db, (SubjectFor(db, q.subject, r.salted).id, db.purposes[q.purpose])), r.now);
    }
  }

  // ---- What is recorded

  /** The event a request stands for, as number `n` of its history. */
  ghost predicate Records(e: Event, r: Request, p: Pseudonym, n: nat) {
    var q := r.payload;
    && e.pseudonym == p && e.purpose == q.purpose && e.action == q.action && e.sequence == n
    && e.policyVersion == q.policyVersion && e.at == r.now
    && e.expiresAt == if q.action == Grant then q.expiresAt else None
  }

  ghost predicate Accepted(db: Db, r: Request) {
    && Inv(db) && Unused(db, r.salted) && r.key !in db.receipts && Acceptable(db, r.payload, r.now)
  }

  /** An accepted write adds one event to the log, and it says what the request says. */
  lemma WriteRecords(db: Db, r: Request)
    requires Accepted(db, r)
    ensures WriteEvent(db, r).Ok? && !WriteEvent(db, r).value.1.replayed
    ensures var t := WriteEvent(db, r).value.0;
            var log := History(db, r.payload.subject, r.payload.purpose);
            && |t.events| == |db.events| + 1 && t.events[..|db.events|] == db.events
            && r.payload.subject in t.subjects
            && var p := t.subjects[r.payload.subject].pseudonym;
               && p == (if r.payload.subject in db.subjects then db.subjects[r.payload.subject].pseudonym else r.salted)
               && Records(t.events[|db.events|], r, p, |log| + 1)
               && History(t, r.payload.subject, r.payload.purpose) == log + [t.events[|db.events|]]
  {
    WriteIff(db, r);
    var w := WriteAppends(db, r);
    var t := WriteEvent(db, r).value.0;
    AppendLog(db.events, w.event, w.subject.pseudonym, w.event.purpose);
    HistoryIsLog(db, r);
    MaxOfNumbered(LogOf(db.events, w.subject.pseudonym, w.event.purpose));
    assert t.events[..|db.events|] == db.events;
  }

  /** The history is the log under the pseudonym the write will use. */
  lemma HistoryIsLog(db: Db, r: Request)
    requires EventsOk(db) && Unused(db, r.salted)
    ensures var p := SubjectFor(db, r.payload.subject, r.salted).pseudonym;
            && History(db, r.payload.subject, r.payload.purpose) == LogOf(db.events, p, r.payload.purpose)
            && Numbered(LogOf(db.events, p, r.payload.purpose))
  {
    if r.payload.subject !in db.subjects {
      UnusedLog(db.events, r.salted, r.payload.purpose);
    }
  }

  // ---- What verification says afterwards

  /** What verification answers at a time when `q` is the last of `n` events. */
  function Afterwards(q: Payload, n: nat, at: Time): View {
    if q.action == Withdrawal then View(false, Withdrawn, Some(n))
    else if q.expiresAt.Some? && q.expiresAt.value <= at then View(false, Expired, Some(n))
    else View(true, ActiveGrant, Some(n))
  }

  lemma ViewAfter(row: Option<StateRow>, e: Event, pv: Option<Id>, q: Payload, log: seq<Event>, at: Time)
    requires Summary(row, log)
    requires e.action == q.action && (q.action == Grant ==> e.expiresAt == q.expiresAt)
    ensures StateView(Some(Incremented(if row.Some? then row.value else NEW_ROW, e, pv)), at) ==
      Afterwards(q, |log| + 1, at)
  {
  }

  /**
   After an accepted grant its subject's consent is valid until it expires, after an accepted withdrawal it
   is withdrawn, at whatever time one asks.
   */
  lemma WriteVerifies(db: Db, r: Request, at: Time)
    requires Accepted(db, r)
    ensures WriteEvent(db, r).Ok?
    ensures VerifyConsent(WriteEvent(db, r).value.0, r.payload.subject, r.payload.purpose, at) ==
      Ok(Afterwards(r.payload, |History(db, r.payload.subject, r.payload.purpose)| + 1, at))
  {
    WriteIff(db, r);
    var q := r.payload;
    var w := WriteAppends(db, r);
    RowSummary(db, q.subject, q.purpose, r.salted);
    ViewAfter(w.row, w.event, w.pv, q, History(db, q.subject, q.purpose), at);
  }

  /** The row of a published version. */
  function VersionRow(db: Db, k: PurposeKey, version: nat): Id
    requires Mapped(db, k) && (db.policies[db.purposes[k]], version) in db.versions
  {
    db.versions[(db.policies[db.purposes[k]], version)]
  }

  /** The answer is what verification says at the time of the write, with the version granted. */
  lemma WriteAnswers(db: Db, r: Request)
    requires Accepted(db, r)
    ensures WriteEvent(db, r).Ok?
    ensures var q := r.payload;
            var n := |History(db, q.subject, q.purpose)| + 1;
            WriteEvent(db, r).value.1 == Outcome(Some(Answer(Afterwards(q, n, r.now), n, q.action,
              if q.action == Grant then Some(VersionRow(db, q.purpose, q.policyVersion.value)) else None)), false)
  {
    WriteIff(db, r);
    var q := r.payload;
    var pv := AnswerParts(db, r);
    var s := SubjectFor(db, q.subject, r.salted);
    RowSummary(db, q.subject, q.purpose, r.salted);
    HistoryIsLog(db, r);
    MaxOfNumbered(History(db, q.subject, q.purpose));
    ViewAfter(RowFor(db, (s.id, db.purposes[q.purpose])), NewEvent(db, q, s, r.now), pv, q,
      History(db, q.subject, q.purpose), r.now);
  }

  lemma AnswerParts(db: Db, r: Request) returns (pv: Option<Id>)
    requires WriteEvent(db, r).Ok? && r.key !in db.receipts
    ensures r.payload.purpose in db.purposes
    ensures pv == if r.payload.action == Grant
      then ResolveVersion(db, db.purposes[r.payload.purpose], r.payload.policyVersion) else None
    ensures var q := r.payload;
            var s := SubjectFor(db, q.subject, r.salted);
            var row := RowFor(db, (s.id, db.purposes[q.purpose]));
            var e := NewEvent(db, q, s, r.now);
            var after := Incremented(if row.Some? then row.value else NEW_ROW, e, pv);
            WriteEvent(db, r).value.1 ==
              Outcome(Some(Answer(StateView(Some(after), r.now), e.sequence, e.action, pv)), false)
  {
    pv := if r.payload.action == Grant
      then ResolveVersion(db, db.purposes[r.payload.purpose], r.payload.policyVersion) else None;
  }

  /** For every other subject or purpose verification answers as before. */
  lemma OthersVerify(db: Db, r: Request, ref: SubjectRef, k: PurposeKey, at: Time)
    requires Accepted(db, r) && (ref != r.payload.subject || k != r.payload.purpose)
    ensures WriteEvent(db, r).Ok?
    ensures VerifyConsent(WriteEvent(db, r).value.0, ref, k, at) == VerifyConsent(db, ref, k, at)
  {
    WriteIff(db, r);
    var w := WriteAppends(db, r);
    if k in db.purposes {
      if ref !in db.subjects {
        NoRow(db, ref, k, r.salted);
      }
      OtherKept(db, r, WriteEvent(db, r).value.0, w, ref, k);
    }
  }

  lemma OtherKept(db: Db, r: Request, t: Db, w: Append, ref: SubjectRef, k: PurposeKey)
    requires Appends(db, r, t, w) && IdsOk(db) && k in db.purposes
    requires ref != r.payload.subject || k != r.payload.purpose
    requires ref !in db.subjects ==> (SubjectFor(db, ref, r.salted).id, db.purposes[k]) !in db.states
    ensures t.purposes == db.purposes
    ensures (if ref in t.subjects then RowFor(t, (t.subjects[ref].id, t.purposes[k])) else None) ==
      if ref in db.subjects then RowFor(db, (db.subjects[ref].id, db.purposes[k])) else None
  {
  }

  // ---- Batches

  /** Each item is accepted by the tables the items before it leave. */
  ghost predicate AcceptedInTurn(db: Db, items: seq<Request>)
    decreases |items|
  {
    items == [] || (WriteEvent(db, items[0]).Ok? && AcceptedInTurn(WriteEvent(db, items[0]).value.0, items[1..]))
  }

  ghost predicate NewKeys(items: seq<Request>, i: nat, seen: set<EventKey>) {
    && (forall j | i <= j < |items| :: items[j].key !in seen)
    && forall j, k | i <= j < k < |items| :: items[j].key != items[k].key
  }

  lemma NewKeysStep(items: seq<Request>, i: nat, seen: set<EventKey>)
    requires i < |items|
    ensures NewKeys(items, i, seen) <==> items[i].key !in seen && NewKeys(items, i + 1, seen + {items[i].key})
  {
  }

  lemma {:induction false} WriteAllIff(db: Db, items: seq<Request>, i: nat, seen: set<EventKey>)
    requires i <= |items|
    ensures WriteAll(db, items, i, seen).Ok? <==> NewKeys(items, i, seen) && AcceptedInTurn(db, items[i..])
    decreases |items| - i
  {
    if i < |items| {
      assert items[i..][0] == items[i] && items[i..][1..] == items[i + 1..];
      NewKeysStep(items, i, seen);
      if WriteEvent(db, items[i]).Ok? {
        WriteAllIff(WriteEvent(db, items[i]).value.0, items, i + 1, seen + {items[i].key});
      }
    }
  }

  /** A batch is accepted exactly if it is not too large, names no key twice, and each item is accepted in its turn. */
  lemma BatchIff(db: Db, items: seq<Request>)
    ensures BatchImport(db, items).Ok? <==>
      && |items| <= 500 && (forall j, k | 0 <= j < k < |items| :: items[j].key != items[k].key)
      && AcceptedInTurn(db, items)
  {
    WriteAllIff(db, items, 0, {});
    assert items[0..] == items;
  }
}
