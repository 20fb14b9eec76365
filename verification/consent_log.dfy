/**
 The projection agrees with the log: rebuilding it from history, in any order the rebuild may
 read history, gives back exactly the rows the writes maintained.
 */
module ConsentLog {
  import opened Wrappers
  import opened Consent

  /** The projection row of one history, by replaying it from scratch. */
  ghost function Fold(db: Db, log: seq<Event>): StateRow
    requires forall e | e in log :: Mapped(db, e.purpose)
  {
    if log == [] then NEW_ROW else Replayed(db, Fold(db, log[..|log| - 1]), log[|log| - 1])
  }

  ghost predicate Numbered(log: seq<Event>) {
    forall i | 0 <= i < |log| :: log[i].sequence == i + 1
  }

  // ---- Invariant

  ghost predicate SubjectsDistinct(db: Db) {
    forall a, b | a in db.subjects && b in db.subjects && a != b ::
      db.subjects[a].id != db.subjects[b].id && db.subjects[a].pseudonym != db.subjects[b].pseudonym
  }

  ghost predicate PurposesDistinct(db: Db) {
    forall a, b | a in db.purposes && b in db.purposes && a != b :: db.purposes[a] != db.purposes[b]
  }

  ghost predicate IdsBelow(db: Db) {
    && (forall a | a in db.subjects :: db.subjects[a].id < db.nextId)
    && (forall a | a in db.purposes :: db.purposes[a] < db.nextId)
    && (forall k | k in db.states :: k.0 < db.nextId)
    && (forall k | k in db.versions :: k.0 < db.nextId)
    && (forall k | k in db.policies :: k < db.nextId && db.policies[k] < db.nextId)
  }

  ghost predicate IdsOk(db: Db) {
    SubjectsDistinct(db) && PurposesDistinct(db) && IdsBelow(db)
  }

  ghost predicate EventsOk(db: Db) {
    && (forall e | e in db.events :: Mapped(db, e.purpose))
    && (forall e | e in db.events && e.action == Grant ::
          ResolveVersion(db, db.purposes[e.purpose], e.policyVersion).Some?)
    && (forall p, k :: Numbered(LogOf(db.events, p, k)))
  }

  /** The projection has a row exactly for the live subjects and purposes with a history, and it is its fold. */
  ghost predicate Projects(db: Db)
    requires forall e | e in db.events :: Mapped(db, e.purpose)
  {
    && (forall ref, k | ref in db.subjects && Mapped(db, k) :: RowOk(db, ref, k))
    && (forall key | key in db.states :: HasOwner(db, key))
  }

  ghost predicate RowOk(db: Db, ref: SubjectRef, k: PurposeKey)
    requires forall e | e in db.events :: Mapped(db, e.purpose)
    requires ref in db.subjects && Mapped(db, k)
  {
    var log := LogOf(db.events, db.subjects[ref].pseudonym, k);
    var key := (db.subjects[ref].id, db.purposes[k]);
    (key in db.states <==> log != []) && (log != [] ==> db.states[key] == Fold(db, log))
  }

  ghost predicate Owns(db: Db, ref: SubjectRef, k: PurposeKey, key: (Id, Id)) {
    ref in db.subjects && Mapped(db, k) && key == (db.subjects[ref].id, db.purposes[k])
  }

  ghost predicate HasOwner(db: Db, key: (Id, Id)) {
    exists ref, k :: Owns(db, ref, k, key)
  }

  ghost predicate HasReceipt(db: Db, e: Event) {
    exists key :: key in db.receipts && db.receipts[key].event == e.id
  }

  ghost predicate DistinctEvents(events: seq<Event>) {
    forall i, j | 0 <= i < j < |events| :: events[i].id != events[j].id
  }

  ghost predicate DistinctReceipts(db: Db) {
    forall a, b | a in db.receipts && b in db.receipts && a != b :: db.receipts[a].event != db.receipts[b].event
  }

  ghost predicate EventsBelow(db: Db) {
    forall e | e in db.events :: e.id < db.nextId
  }

  ghost predicate EventsReceipted(db: Db) {
    forall e | e in db.events :: HasReceipt(db, e)
  }

  ghost predicate HasEvent(db: Db, key: EventKey)
    requires key in db.receipts
  {
    exists e :: e in db.events && e.id == db.receipts[key].event
  }

  ghost predicate ReceiptsBacked(db: Db) {
    forall key | key in db.receipts :: HasEvent(db, key)
  }

  /** Event keys and history rows correspond one to one, whatever has been erased since. */
  ghost predicate ReceiptsOk(db: Db) {
    && DistinctEvents(db.events) && DistinctReceipts(db) && EventsBelow(db)
    && EventsReceipted(db) && ReceiptsBacked(db)
    && |db.events| == |db.receipts|
  }

  ghost predicate Inv(db: Db) {
    IdsOk(db) && EventsOk(db) && Projects(db) && ReceiptsOk(db)
  }

  /** The salted pseudonym a new subject would get has never been used. */
  ghost predicate Unused(db: Db, p: Pseudonym) {
    && (forall ref | ref in db.subjects :: db.subjects[ref].pseudonym != p)
    && (forall e | e in db.events :: e.pseudonym != p)
  }

  // ---- Replay, key by key

  lemma SubjectIdOf(db: Db, ref: SubjectRef)
    requires IdsOk(db) && ref in db.subjects
    ensures Live(db, db.subjects[ref].pseudonym)
    ensures SubjectId(db, db.subjects[ref].pseudonym) == db.subjects[ref].id
  {
  }

  /** The row of one key depends only on the key's own part of the order. */
  lemma {:induction false} ReplayByKey(db: Db, order: seq<Event>, ref: SubjectRef, k: PurposeKey)
    requires IdsOk(db) && ref in db.subjects && Mapped(db, k)
    ensures var log := LogOf(order, db.subjects[ref].pseudonym, k);
      var key := (db.subjects[ref].id, db.purposes[k]);
      && (key in Replay(db, order) <==> log != [])
      && (log != [] ==> Replay(db, order)[key] == Fold(db, log))
  {
    if order == [] {
    } else {
      var init, e := order[..|order| - 1], order[|order| - 1];
      ReplayByKey(db, init, ref, k);
      SubjectIdOf(db, ref);
      var log0 := LogOf(init, db.subjects[ref].pseudonym, k);
      if e.pseudonym == db.subjects[ref].pseudonym && e.purpose == k {
        var log := LogOf(order, db.subjects[ref].pseudonym, k);
        assert log == log0 + [e] && log[..|log| - 1] == log0;
      } else if Live(db, e.pseudonym) && Mapped(db, e.purpose) {
        OtherKey(db, ref, k, e);
      }
    }
  }

  lemma OtherKey(db: Db, ref: SubjectRef, k: PurposeKey, e: Event)
    requires IdsOk(db) && ref in db.subjects && Mapped(db, k)
    requires Live(db, e.pseudonym) && Mapped(db, e.purpose)
    requires e.pseudonym != db.subjects[ref].pseudonym || e.purpose != k
    ensures (SubjectId(db, e.pseudonym), db.purposes[e.purpose]) != (db.subjects[ref].id, db.purposes[k])
  {
    var other :| other in db.subjects && db.subjects[other].pseudonym == e.pseudonym;
    SubjectIdOf(db, other);
  }

  lemma {:induction false} ReplayOwners(db: Db, order: seq<Event>, key: (Id, Id))
    requires IdsOk(db) && key in Replay(db, order)
    ensures HasOwner(db, key)
  {
    var init, e := order[..|order| - 1], order[|order| - 1];
    if key in Replay(db, init) {
      ReplayOwners(db, init, key);
    } else {
      var ref :| ref in db.subjects && db.subjects[ref].pseudonym == e.pseudonym;
      SubjectIdOf(db, ref);
      assert Owns(db, ref, e.purpose, key);
    }
  }

  // ---- The order of replay

  lemma {:induction false} LogCounts(events: seq<Event>, p: Pseudonym, k: PurposeKey, e: Event)
    ensures multiset(LogOf(events, p, k))[e] == if e.pseudonym == p && e.purpose == k then multiset(events)[e] else 0
  {
    if events == [] {
    } else {
      LogCounts(events[..|events| - 1], p, k, e);
      assert events == events[..|events| - 1] + [events[|events| - 1]];
    }
  }

  ghost predicate Rising(log: seq<Event>) {
    forall i, j | 0 <= i < j < |log| :: log[i].sequence <= log[j].sequence
  }

  lemma {:induction false} LogRises(order: seq<Event>, p: Pseudonym, k: PurposeKey)
    requires RisingByKey(order)
    ensures Rising(LogOf(order, p, k))
  {
    if order == [] {
    } else {
      var init, last := order[..|order| - 1], order[|order| - 1];
      LogRises(init, p, k);
      var log0 := LogOf(init, p, k);
      forall e | e in log0 && last.pseudonym == p && last.purpose == k
        ensures e.sequence <= last.sequence
      {
        var i :| 0 <= i < |init| && init[i] == e;
        assert order[i] == e;
      }
    }
  }

  lemma SameLast(a: seq<Event>, b: seq<Event>)
    requires |a| == |b| > 0
    requires multiset(a) == multiset(b) && Numbered(a) && Rising(b)
    ensures a[|a| - 1] == b[|b| - 1]
  {
    var x, y := a[|a| - 1], b[|b| - 1];
    assert y in multiset(a) && x in multiset(b);
    var i :| 0 <= i < |a| && a[i] == y;
    var j :| 0 <= j < |b| && b[j] == x;
  }

  lemma DropLast(a: seq<Event>)
    requires a != []
    ensures multiset(a[..|a| - 1]) == multiset(a) - multiset{a[|a| - 1]}
  {
    assert a == a[..|a| - 1] + [a[|a| - 1]];
  }

  lemma InitsAgree(a: seq<Event>, b: seq<Event>)
    requires |a| == |b| > 0 && multiset(a) == multiset(b) && a[|a| - 1] == b[|b| - 1]
    requires Numbered(a) && Rising(b)
    ensures multiset(a[..|a| - 1]) == multiset(b[..|b| - 1])
    ensures Numbered(a[..|a| - 1]) && Rising(b[..|b| - 1])
  {
    DropLast(a);
    DropLast(b);
  }

  /** A numbered log is the only rising arrangement of its events. */
  lemma {:induction false} OneRisingArrangement(a: seq<Event>, b: seq<Event>)
    requires multiset(a) == multiset(b) && Numbered(a) && Rising(b)
    ensures a == b
  {
    assert |a| == |multiset(a)| == |multiset(b)| == |b|;
    if a == [] {
    } else {
      SameLast(a, b);
      InitsAgree(a, b);
      OneRisingArrangement(a[..|a| - 1], b[..|b| - 1]);
      assert a == a[..|a| - 1] + [a[|a| - 1]];
      assert b == b[..|b| - 1] + [b[|b| - 1]];
    }
  }

  lemma SameLog(db: Db, order: seq<Event>, p: Pseudonym, k: PurposeKey)
    requires EventsOk(db) && ReplayOrder(db.events, order)
    ensures LogOf(order, p, k) == LogOf(db.events, p, k)
  {
    forall e
      ensures multiset(LogOf(db.events, p, k))[e] == multiset(LogOf(order, p, k))[e]
    {
      LogCounts(db.events, p, k, e);
      LogCounts(order, p, k, e);
    }
    LogRises(order, p, k);
    assert multiset(LogOf(db.events, p, k)) == multiset(LogOf(order, p, k));
    OneRisingArrangement(LogOf(db.events, p, k), LogOf(order, p, k));
  }

  lemma RebuiltRow(db: Db, order: seq<Event>, ref: SubjectRef, k: PurposeKey, key: (Id, Id))
    requires IdsOk(db) && EventsOk(db) && Projects(db) && ReplayOrder(db.events, order)
    requires Owns(db, ref, k, key)
    ensures key in Replay(db, order) <==> key in db.states
    ensures key in db.states ==> Replay(db, order)[key] == db.states[key]
  {
    SameLog(db, order, db.subjects[ref].pseudonym, k);
    ReplayByKey(db, order, ref, k);
    assert RowOk(db, ref, k);
  }

  lemma RebuiltEntry(db: Db, order: seq<Event>, key: (Id, Id))
    requires IdsOk(db) && EventsOk(db) && Projects(db) && ReplayOrder(db.events, order)
    requires key in Replay(db, order) || key in db.states
    ensures key in Replay(db, order) && key in db.states && Replay(db, order)[key] == db.states[key]
  {
    if key in Replay(db, order) {
      ReplayOwners(db, order, key);
    }
    assert HasOwner(db, key);
    var ref, k :| Owns(db, ref, k, key);
    RebuiltRow(db, order, ref, k, key);
  }

  lemma RebuiltRows(db: Db, order: seq<Event>)
    requires IdsOk(db) && EventsOk(db) && Projects(db) && ReplayOrder(db.events, order)
    ensures Replay(db, order) == db.states
  {
    var rows := Replay(db, order);
    forall key | key in rows || key in db.states
      ensures key in rows && key in db.states && rows[key] == db.states[key]
    {
      RebuiltEntry(db, order, key);
    }
  }

  /** Rebuilding never changes a projection that was kept incrementally: same keys, same rows, every field. */
  lemma RebuildIsIdentity(db: Db, order: seq<Event>)
    requires Inv(db) && ReplayOrder(db.events, order)
    ensures Replay(db, order) == db.states
  {
    RebuiltRows(db, order);
  }

  // ---- Writing keeps the invariant

  lemma AppendLog(events: seq<Event>, e: Event, p: Pseudonym, k: PurposeKey)
    ensures LogOf(events + [e], p, k)
         == LogOf(events, p, k) + (if e.pseudonym == p && e.purpose == k then [e] else [])
  {
    assert (events + [e])[..|events|] == events;
  }

  lemma {:induction false} MaxOfNumbered(log: seq<Event>)
    requires Numbered(log)
    ensures MaxSequence(log) == |log|
  {
    if log == [] {
    } else {
      MaxOfNumbered(log[..|log| - 1]);
    }
  }

  /** Events keep resolving to the same rows. */
  ghost predicate SameResolution(a: Db, b: Db, e: Event) {
    && Mapped(a, e.purpose) && Mapped(b, e.purpose)
    && (e.action == Grant ==>
          ResolveVersion(a, a.purposes[e.purpose], e.policyVersion) ==
            ResolveVersion(b, b.purposes[e.purpose], e.policyVersion))
  }

  lemma {:induction false} FoldFrame(a: Db, b: Db, log: seq<Event>)
    requires forall e | e in log :: SameResolution(a, b, e)
    ensures forall e | e in log :: Mapped(a, e.purpose) && Mapped(b, e.purpose)
    ensures Fold(a, log) == Fold(b, log)
  {
    if log == [] {
    } else {
      assert log[|log| - 1] in log;
      FoldFrame(a, b, log[..|log| - 1]);
    }
  }

  lemma {:induction false} UnusedLog(events: seq<Event>, p: Pseudonym, k: PurposeKey)
    requires forall e | e in events :: e.pseudonym != p
    ensures LogOf(events, p, k) == []
  {
    if events == [] {
    } else {
      UnusedLog(events[..|events| - 1], p, k);
    }
  }

  /** The write path and the rebuild path compute the same row from the same event. */
  lemma IncrementIsReplay(db: Db, row: StateRow, e: Event, pv: Option<Id>)
    requires Mapped(db, e.purpose)
    requires e.action == Grant ==> pv == ResolveVersion(db, db.purposes[e.purpose], e.policyVersion)
    ensures Incremented(row, e, pv) == Replayed(db, row, e)
  {
  }

  /** The parts of a write that appends an event. */
  datatype Append = Append(subject: Subject, purpose: Id, event: Event, row: Option<StateRow>, pv: Option<Id>,
    answer: Option<Answer>)
  {
    function Key(): (Id, Id) { (subject.id, purpose) }

    function Before(): StateRow { if row.Some? then row.value else NEW_ROW }
  }

  ghost predicate Appends(db: Db, r: Request, t: Db, w: Append) {
    var q := r.payload;
    && r.key !in db.receipts
    && q.purpose in db.purposes && w.purpose == db.purposes[q.purpose]
    && w.subject == SubjectFor(db, q.subject, r.salted)
    && w.row == RowFor(db, w.Key())
    && w.pv == (if q.action == Grant then ResolveVersion(db, w.purpose, q.policyVersion) else None)
    && (q.action == Grant ==> w.pv.Some?)
    && (q.action == Withdrawal ==> w.row.Some?)
    && w.event == NewEvent(db, q, w.subject, r.now)
    && t == db.(subjects := db.subjects[q.subject := w.subject],
                states := db.states[w.Key() := Incremented(w.Before(), w.event, w.pv)],
                events := db.events + [w.event],
                receipts := db.receipts[r.key := Receipt(Some(w.subject.id), q, w.answer, false, w.event.id)],
                nextId := db.nextId + 2)
  }

  lemma WriteAppends(db: Db, r: Request) returns (w: Append)
    requires WriteEvent(db, r).Ok? && !WriteEvent(db, r).value.1.replayed
    ensures Appends(db, r, WriteEvent(db, r).value.0, w)
    ensures w.answer == WriteEvent(db, r).value.1.answer
  {
    var q := r.payload;
    var purpose, s := db.purposes[q.purpose], SubjectFor(db, q.subject, r.salted);
    w := Append(s, purpose, NewEvent(db, q, s, r.now), RowFor(db, (s.id, purpose)),
                if q.action == Grant then ResolveVersion(db, purpose, q.policyVersion) else None,
                WriteEvent(db, r).value.1.answer);
  }

  lemma AppendMapped(db: Db, r: Request, t: Db, w: Append)
    requires Appends(db, r, t, w)
    requires EventsOk(db) && Projects(db) && IdsOk(db)
    ensures Mapped(db, w.event.purpose)
  {
    if w.row.Some? {
      assert HasOwner(db, w.Key());
      var ref, k :| Owns(db, ref, k, w.Key());
    }
  }

  lemma AppendSubjects(db: Db, r: Request, t: Db, w: Append)
    requires Appends(db, r, t, w)
    requires SubjectsDistinct(db) && IdsBelow(db) && Unused(db, r.salted)
    ensures SubjectsDistinct(t)
  {
    forall a, b | a in t.subjects && b in t.subjects && a != b
      ensures t.subjects[a].id != t.subjects[b].id && t.subjects[a].pseudonym != t.subjects[b].pseudonym
    {
    }
  }

  lemma AppendIds(db: Db, r: Request, t: Db, w: Append)
    requires Appends(db, r, t, w)
    requires IdsOk(db) && Unused(db, r.salted)
    ensures IdsOk(t)
  {
    AppendSubjects(db, r, t, w);
  }

  lemma AppendEvents(db: Db, r: Request, t: Db, w: Append)
    requires Appends(db, r, t, w)
    requires EventsOk(db) && Mapped(db, w.event.purpose)
    ensures EventsOk(t)
  {
    forall p, k
      ensures Numbered(LogOf(t.events, p, k))
    {
      AppendNumbered(db, r, t, w, p, k);
    }
  }

  lemma AppendNumbered(db: Db, r: Request, t: Db, w: Append, p: Pseudonym, k: PurposeKey)
    requires Appends(db, r, t, w) && Numbered(LogOf(db.events, p, k))
    ensures Numbered(LogOf(t.events, p, k))
  {
    AppendLog(db.events, w.event, p, k);
    MaxOfNumbered(LogOf(db.events, p, k));
  }

  /** The row the writer read is the fold of the history it extends. */
  lemma ReadsFold(db: Db, r: Request, t: Db, w: Append)
    requires Appends(db, r, t, w)
    requires IdsOk(db) && EventsOk(db) && Projects(db) && Unused(db, r.salted) && Mapped(db, w.event.purpose)
    ensures w.Before() == Fold(db, LogOf(db.events, w.subject.pseudonym, w.event.purpose))
  {
    if r.payload.subject in db.subjects {
      assert RowOk(db, r.payload.subject, w.event.purpose);
    } else {
      UnusedLog(db.events, w.subject.pseudonym, w.event.purpose);
    }
  }

  lemma AppendResolves(db: Db, r: Request, t: Db, w: Append)
    requires Appends(db, r, t, w) && EventsOk(db)
    ensures forall e | e in db.events :: SameResolution(db, t, e)
  {
  }

  lemma AppendedRow(db: Db, r: Request, t: Db, w: Append)
    requires Appends(db, r, t, w)
    requires IdsOk(db) && EventsOk(db) && Projects(db) && Unused(db, r.salted) && Mapped(db, w.event.purpose)
    requires EventsOk(t)
    ensures RowOk(t, r.payload.subject, r.payload.purpose)
  {
    var e := w.event;
    var log0 := LogOf(db.events, w.subject.pseudonym, e.purpose);
    var log := LogOf(t.events, w.subject.pseudonym, e.purpose);
    AppendLog(db.events, e, w.subject.pseudonym, e.purpose);
    assert log == log0 + [e] && log[..|log| - 1] == log0;
    ReadsFold(db, r, t, w);
    AppendResolves(db, r, t, w);
    FoldFrame(db, t, log0);
    IncrementIsReplay(t, w.Before(), e, w.pv);
  }

  lemma OtherLog(db: Db, r: Request, t: Db, w: Append, ref: SubjectRef, k: PurposeKey)
    requires Appends(db, r, t, w)
    requires IdsOk(db) && Unused(db, r.salted)
    requires ref in db.subjects && (ref != r.payload.subject || k != w.event.purpose)
    ensures LogOf(t.events, db.subjects[ref].pseudonym, k) == LogOf(db.events, db.subjects[ref].pseudonym, k)
    ensures ref in t.subjects && t.subjects[ref] == db.subjects[ref]
  {
    AppendLog(db.events, w.event, db.subjects[ref].pseudonym, k);
  }

  lemma OtherRow(db: Db, r: Request, t: Db, w: Append, ref: SubjectRef, k: PurposeKey)
    requires Appends(db, r, t, w)
    requires IdsOk(db) && EventsOk(db) && Unused(db, r.salted)
    requires ref in db.subjects && Mapped(db, k) && (ref != r.payload.subject || k != w.event.purpose)
    requires RowOk(db, ref, k)
    requires EventsOk(t) && IdsOk(t)
    ensures ref in t.subjects && Mapped(t, k) && RowOk(t, ref, k)
  {
    OtherLog(db, r, t, w, ref, k);
    AppendResolves(db, r, t, w);
    FoldFrame(db, t, LogOf(db.events, db.subjects[ref].pseudonym, k));
  }

  /** A subject registered by this write has no other history yet. */
  lemma NewSubjectRow(db: Db, r: Request, t: Db, w: Append, k: PurposeKey)
    requires Appends(db, r, t, w)
    requires IdsOk(db) && Unused(db, r.salted) && EventsOk(t)
    requires r.payload.subject !in db.subjects && Mapped(t, k) && k != w.event.purpose
    ensures RowOk(t, r.payload.subject, k)
  {
    AppendLog(db.events, w.event, w.subject.pseudonym, k);
    UnusedLog(db.events, w.subject.pseudonym, k);
  }

  lemma AppendOwners(db: Db, r: Request, t: Db, w: Append, key: (Id, Id))
    requires Appends(db, r, t, w) && Mapped(db, w.event.purpose)
    requires key in t.states
    requires key in db.states ==> HasOwner(db, key)
    ensures HasOwner(t, key)
  {
    if key == w.Key() {
      assert Owns(t, r.payload.subject, w.event.purpose, key);
    } else {
      var ref, k :| Owns(db, ref, k, key);
      assert Owns(t, ref, k, key);
    }
  }

  lemma AppendProjects(db: Db, r: Request, t: Db, w: Append)
    requires Appends(db, r, t, w)
    requires IdsOk(db) && EventsOk(db) && Projects(db) && Unused(db, r.salted) && Mapped(db, w.event.purpose)
    requires EventsOk(t) && IdsOk(t)
    ensures Projects(t)
  {
    forall ref, k | ref in t.subjects && Mapped(t, k)
      ensures RowOk(t, ref, k)
    {
      if ref == r.payload.subject && k == w.event.purpose {
        AppendedRow(db, r, t, w);
      } else if ref in db.subjects {
        assert RowOk(db, ref, k);
        OtherRow(db, r, t, w, ref, k);
      } else {
        NewSubjectRow(db, r, t, w, k);
      }
    }
    forall key | key in t.states
      ensures HasOwner(t, key)
    {
      AppendOwners(db, r, t, w, key);
    }
  }

  lemma AppendReceipted(db: Db, r: Request, t: Db, w: Append)
    requires Appends(db, r, t, w)
    requires EventsReceipted(db)
    ensures EventsReceipted(t)
  {
    forall f | f in t.events
      ensures HasReceipt(t, f)
    {
      if f == w.event {
        assert r.key in t.receipts;
      } else {
        assert HasReceipt(db, f);
        var key :| key in db.receipts && db.receipts[key].event == f.id;
        assert key in t.receipts;
      }
    }
  }

  lemma AppendBacked(db: Db, r: Request, t: Db, w: Append)
    requires Appends(db, r, t, w)
    requires ReceiptsBacked(db)
    ensures ReceiptsBacked(t)
  {
    forall key | key in t.receipts
      ensures HasEvent(t, key)
    {
      if key == r.key {
        assert w.event in t.events;
      } else {
        assert HasEvent(db, key);
        var f :| f in db.events && f.id == db.receipts[key].event;
        assert f in t.events;
      }
    }
  }

  lemma AppendDistinctEvents(db: Db, r: Request, t: Db, w: Append)
    requires Appends(db, r, t, w)
    requires DistinctEvents(db.events) && EventsBelow(db)
    ensures DistinctEvents(t.events) && EventsBelow(t)
  {
    assert forall i | 0 <= i < |db.events| :: db.events[i] in db.events;
  }

  lemma AppendDistinctReceipts(db: Db, r: Request, t: Db, w: Append)
    requires Appends(db, r, t, w)
    requires DistinctReceipts(db) && ReceiptsBacked(db) && EventsBelow(db)
    ensures DistinctReceipts(t)
  {
    forall a | a in db.receipts
      ensures db.receipts[a].event < db.nextId
    {
      assert HasEvent(db, a);
    }
  }

  lemma AppendReceipts(db: Db, r: Request, t: Db, w: Append)
    requires Appends(db, r, t, w)
    requires ReceiptsOk(db)
    ensures ReceiptsOk(t)
  {
    AppendReceipted(db, r, t, w);
    AppendBacked(db, r, t, w);
    AppendDistinctEvents(db, r, t, w);
    AppendDistinctReceipts(db, r, t, w);
  }

  lemma WriteKeeps(db: Db, r: Request)
    requires Inv(db) && Unused(db, r.salted)
    requires WriteEvent(db, r).Ok?
    ensures Inv(WriteEvent(db, r).value.0)
  {
    var t, outcome := WriteEvent(db, r).value.0, WriteEvent(db, r).value.1;
    if !outcome.replayed {
      var w := WriteAppends(db, r);
      AppendKeeps(db, r, t, w);
    }
  }

  lemma AppendKeeps(db: Db, r: Request, t: Db, w: Append)
    requires Inv(db) && Unused(db, r.salted) && Appends(db, r, t, w)
    ensures Inv(t)
  {
    AppendMapped(db, r, t, w);
    AppendIds(db, r, t, w);
    AppendEvents(db, r, t, w);
    AppendProjects(db, r, t, w);
    AppendReceipts(db, r, t, w);
  }
}
