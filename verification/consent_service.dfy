/**
 The consent service as it runs: one session over mutable tables, with statements executed in
 order and a rollback on every error path.
 */
module ConsentServices {
  import opened Wrappers
  import opened Consent
  import opened ConsentLog
  import opened ConsentRuns

  class ConsentStore {
    var db: Db

    constructor ()
      ensures db == EMPTY && Inv(db)
    {
      db := EMPTY;
    }

    /** MAX(sequence) over the subject's history of a purpose, by a scan of the log. */
    method LastSequence(p: Pseudonym, k: PurposeKey) returns (last: nat)
      ensures last == MaxSequence(LogOf(db.events, p, k))
    {
      last := 0;
      for i := 0 to |db.events|
        invariant last == MaxSequence(LogOf(db.events[..i], p, k))
      {
        var e := db.events[i];
        assert db.events[..i + 1] == db.events[..i] + [e];
        AppendLog(db.events[..i], e, p, k);
        if e.pseudonym == p && e.purpose == k && e.sequence > last {
          last := e.sequence;
        }
      }
      assert db.events[..|db.events|] == db.events;
    }

    /** Applies a grant or withdrawal. Every error leaves the tables as they were. */
    method Write(r: Request) returns (res: Result<Outcome, Error>)
      requires Inv(db) && Unused(db, r.salted)
      modifies this
      ensures Inv(db)
      ensures match WriteEvent(old(db), r)
        case Ok((t, outcome)) => res == Ok(outcome) && db == t
        case Err(e) => res == Err(e) && db == old(db)
    {
      if WriteEvent(db, r).Ok? {
        WriteKeeps(db, r);
      }
      res := WriteRow(r);
    }

    method WriteRow(r: Request) returns (res: Result<Outcome, Error>)
      modifies this
      ensures match WriteEvent(old(db), r)
        case Ok((t, outcome)) => res == Ok(outcome) && db == t
        case Err(e) => res == Err(e) && db == old(db)
    {
      var q := r.payload;
      if r.key in db.receipts {
        var existing := db.receipts[r.key];
        if existing.erased {
          return Err(SubjectErased);
        }
        if existing.fingerprint != q {
          return Err(IdempotencyMismatch);
        }
        return Ok(Outcome(existing.answer, true));
      }
      if q.purpose !in db.purposes {
        return Err(PurposeNotFound);
      }
      var purpose := db.purposes[q.purpose];
      var subject := SubjectFor(db, q.subject, r.salted);
      var row := RowFor(db, (subject.id, purpose));
      var version := if row.Some? then row.value.version else 0;
      if version != q.expectedVersion {
        return Err(VersionConflict);
      }
      var pv: Option<Id> := None;
      if q.action == Grant {
        if q.expiresAt.Some? && q.expiresAt.value <= r.now {
          return Err(AlreadyExpired);
        }
        pv := ResolveVersion(db, purpose, q.policyVersion);
        if pv.None? {
          return Err(UnknownPolicyVersion);
        }
      } else {
        if row.None? {
          return Err(NoConsent);
        }
        if !row.value.granted {
          return Err(AlreadyWithdrawn);
        }
      }
      var outcome := AppendEvent(r, subject, purpose, row, pv);
      return Ok(outcome);
    }

    /** The row changes of an accepted write: history, projection and idempotency receipt. */
    method AppendEvent(r: Request, subject: Subject, purpose: Id, row: Option<StateRow>,
        pv: Option<Id>) returns (outcome: Outcome)
      requires row == RowFor(db, (subject.id, purpose))
      modifies this
      ensures var e := NewEvent(old(db), r.payload, subject, r.now);
        var state := Incremented(if row.Some? then row.value else NEW_ROW, e, pv);
        var answer := Some(Answer(StateView(Some(state), r.now), e.sequence, e.action, pv));
        && outcome == Outcome(answer, false)
        && db == old(db).(
             subjects := old(db).subjects[r.payload.subject := subject],
             states := old(db).states[(subject.id, purpose) := state],
             events := old(db).events + [e],
             receipts := old(db).receipts[r.key := Receipt(Some(subject.id), r.payload, answer, false, e.id)],
             nextId := old(db).nextId + 2)
    {
      var q := r.payload;
      var last := LastSequence(subject.pseudonym, q.purpose);
      var e := Event(db.nextId + 1, subject.pseudonym, q.purpose, q.action, last + 1, q.policyVersion,
                     if q.action == Grant then q.expiresAt else None, r.now);
      var state := AdvanceRow(if row.Some? then row.value else NEW_ROW, e, pv);
      var answer := Some(Answer(StateView(Some(state), r.now), e.sequence, e.action, pv));
      StoreRows(r.key, q.subject, subject, (subject.id, purpose), state, e,
        Receipt(Some(subject.id), q, answer, false, e.id));
      outcome := Outcome(answer, false);
    }

    /** The rows of one event. */
    method StoreRows(key: EventKey, ref: SubjectRef, subject: Subject, at: (Id, Id), state: StateRow, e: Event,
        receipt: Receipt)
      modifies this
      ensures db == old(db).(subjects := old(db).subjects[ref := subject], states := old(db).states[at := state],
                             events := old(db).events + [e], receipts := old(db).receipts[key := receipt],
                             nextId := old(db).nextId + 2)
    {
      db := db.(subjects := db.subjects[ref := subject], events := db.events + [e], nextId := db.nextId + 2);
      db := db.(states := db.states[at := state]);
      db := db.(receipts := db.receipts[key := receipt]);
    }

    /** Grant or withdraw in a projection row. */
    method AdvanceRow(row: StateRow, e: Event, pv: Option<Id>) returns (state: StateRow)
      ensures state == Incremented(row, e, pv)
    {
      state := row;
      if e.action == Grant {
        state := state.(granted := true, policyVersionId := pv, grantedEvent := Some(e.id),
                        grantedSequence := Some(e.sequence), grantedAt := Some(e.at), expiresAt := e.expiresAt,
                        withdrawnEvent := None, withdrawnSequence := None, withdrawnAt := None);
      } else {
        state := state.(granted := false, withdrawnEvent := Some(e.id),
                        withdrawnSequence := Some(e.sequence), withdrawnAt := Some(e.at));
      }
      state := state.(version := state.version + 1, updatedAt := e.at);
    }

    /** All items in one transaction: any error rolls everything back. */
    method Import(items: seq<Request>) returns (res: Result<seq<Outcome>, Error>)
      requires Inv(db) && UnusedFrom(db, items, 0)
      modifies this
      ensures Inv(db)
      ensures match BatchImport(old(db), items)
        case Ok((t, outcomes)) => res == Ok(outcomes) && db == t
        case Err(e) => res == Err(e) && db == old(db)
      ensures res.Ok? ==> |db.events| == |old(db).events| + Imported(res.value)
    {
      if BatchImport(db, items).Ok? {
        WriteAllKeeps(db, items, 0, {});
        BatchIsSequence(db, items);
      }
      res := ImportRows(items);
    }

    method ImportRows(items: seq<Request>) returns (res: Result<seq<Outcome>, Error>)
      modifies this
      ensures match BatchImport(old(db), items)
        case Ok((t, outcomes)) => res == Ok(outcomes) && db == t
        case Err(e) => res == Err(e) && db == old(db)
    {
      if |items| > MAX_BATCH {
        return Err(BatchTooLarge);
      }
      var before := db;
      var seen: set<EventKey> := {};
      var outcomes: seq<Outcome> := [];
      UnrollNone(db, items);
      for i := 0 to |items|
        invariant Unrolled(before, items, db, i, seen, outcomes)
      {
        var item := items[i];
        if item.key in seen {
          db := before;
          return Err(DuplicateInBatch);
        }
        ghost var here := db;
        var one := WriteRow(item);
        if one.Err? {
          db := before;
          return Err(one.error);
        }
        UnrollOne(before, items, here, i, seen, outcomes);
        seen := seen + {item.key};
        outcomes := outcomes + [one.value];
      }
      assert outcomes + [] == outcomes;
      return Ok(outcomes);
    }

    method Delete(ref: SubjectRef) returns (res: Result<(), Error>)
      requires Inv(db)
      modifies this
      ensures Inv(db)
      ensures res.Ok? <==> ref in old(db).subjects
      ensures db == Committed(DeleteSubject(old(db), ref), old(db))
    {
      if DeleteSubject(db, ref).Ok? {
        EraseKeeps(db, ref);
      }
      res := DeleteRows(ref);
    }

    method DeleteRows(ref: SubjectRef) returns (res: Result<(), Error>)
      modifies this
      ensures res.Ok? <==> ref in old(db).subjects
      ensures db == Committed(DeleteSubject(old(db), ref), old(db))
    {
      if ref !in db.subjects {
        return Err(SubjectNotFound);
      }
      var id := db.subjects[ref].id;
      db := db.(states := map k | k in db.states && k.0 != id :: db.states[k]);
      db := db.(receipts := map k | k in db.receipts :: Erased(db.receipts[k], id));
      db := db.(subjects := db.subjects - {ref});
      return Ok(());
    }

    /**
     Drops the projection and refills it by replaying `order`, the result of the ordered query
     over history. The tables end up exactly as they were.
     */
    method RebuildOrganization(order: seq<Event>) returns (replayed: nat)
      requires Inv(db) && ReplayOrder(db.events, order)
      modifies this
      ensures db == old(db)
      ensures replayed == |old(db).events|
    {
      RebuildIsIdentity(db, order);
      assert |order| == |multiset(order)| == |multiset(db.events)|;
      var live := LiveSubjects();
      replayed := ApplyEvents(live, order);
    }

    method ReplayRow(row: StateRow, e: Event) returns (state: StateRow)
      requires Mapped(db, e.purpose)
      ensures state == Replayed(db, row, e)
    {
      state := row;
      if e.action == Grant {
        var pv := ResolveVersion(db, db.purposes[e.purpose], e.policyVersion);
        state := state.(granted := true, policyVersionId := pv, grantedEvent := Some(e.id),
                        grantedSequence := Some(e.sequence), grantedAt := Some(e.at), expiresAt := e.expiresAt,
                        withdrawnEvent := None, withdrawnSequence := None, withdrawnAt := None);
      } else {
        state := state.(granted := false, withdrawnEvent := Some(e.id),
                        withdrawnSequence := Some(e.sequence), withdrawnAt := Some(e.at));
      }
      state := state.(version := state.version + 1, updatedAt := e.at);
    }

    /** The dictionary of live subjects by pseudonym. */
    method LiveSubjects() returns (live: map<Pseudonym, Id>)
      requires IdsOk(db)
      ensures IsLiveMap(db, live)
    {
      live := map ref | ref in db.subjects :: db.subjects[ref].pseudonym := db.subjects[ref].id;
      LiveMap(db, live);
    }

    method ApplyEvents(live: map<Pseudonym, Id>, order: seq<Event>) returns (replayed: nat)
      requires IsLiveMap(db, live)
      modifies this
      ensures db == old(db).(states := Replay(old(db), order))
      ensures replayed == |order|
    {
      ghost var before := db;
      var states := map[];
      replayed := 0;
      for i := 0 to |order|
        invariant db == before
        invariant states == Replay(before, order[..i])
        invariant replayed == i
      {
        var e := order[i];
        assert order[..i + 1][..i] == order[..i];
        replayed := replayed + 1;
        if e.pseudonym in live && e.purpose in db.purposes && db.purposes[e.purpose] in db.policies {
          var key := (live[e.pseudonym], db.purposes[e.purpose]);
          var state := ReplayRow(if key in states then states[key] else NEW_ROW, e);
          states := states[key := state];
        }
      }
      assert order[..|order|] == order;
      db := db.(states := states);
    }
  }

  ghost predicate IsLiveMap(db: Db, live: map<Pseudonym, Id>) {
    && (forall p :: p in live <==> Live(db, p))
    && (forall p | p in live :: live[p] == SubjectId(db, p))
  }

  lemma LiveMap(db: Db, live: map<Pseudonym, Id>)
    requires IdsOk(db)
    requires live == map ref | ref in db.subjects :: db.subjects[ref].pseudonym := db.subjects[ref].id
    ensures IsLiveMap(db, live)
  {
    forall p | p in live
      ensures Live(db, p) && live[p] == SubjectId(db, p)
    {
      var ref :| ref in db.subjects && db.subjects[ref].pseudonym == p;
      SubjectIdOf(db, ref);
    }
  }

  /** After `i` items of a batch, the whole batch is those outcomes followed by the rest. */
  ghost predicate Unrolled(before: Db, items: seq<Request>, db: Db, i: nat, seen: set<EventKey>, outcomes: seq<Outcome>)
    requires i <= |items|
  {
    WriteAll(before, items, 0, {}) ==
      match WriteAll(db, items, i, seen)
      case Err(e) => Err(e)
      case Ok((t, rest)) => Ok((t, outcomes + rest))
  }

  lemma UnrollNone(db: Db, items: seq<Request>)
    ensures Unrolled(db, items, db, 0, {}, [])
  {
    if WriteAll(db, items, 0, {}).Ok? {
      var (t, rest) := WriteAll(db, items, 0, {}).value;
      assert [] + rest == rest;
    }
  }

  lemma UnrollOne(before: Db, items: seq<Request>, db: Db, i: nat, seen: set<EventKey>, outcomes: seq<Outcome>)
    requires i < |items| && Unrolled(before, items, db, i, seen, outcomes)
    requires items[i].key !in seen && WriteEvent(db, items[i]).Ok?
    ensures var (t, one) := WriteEvent(db, items[i]).value;
      Unrolled(before, items, t, i + 1, seen + {items[i].key}, outcomes + [one])
  {
    var (t, one) := WriteEvent(db, items[i]).value;
    var rest := WriteAll(t, items, i + 1, seen + {items[i].key});
    if rest.Ok? {
      assert outcomes + ([one] + rest.value.1) == outcomes + [one] + rest.value.1;
    }
  }
}
