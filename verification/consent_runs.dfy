/**
 The consent store over whole runs: every operation keeps the log and the projection in
 agreement, retries are harmless, and batches are all or nothing.
 */
module ConsentRuns {
  import opened Wrappers
  import opened Consent
  import opened ConsentLog

  // ---- The remaining operations keep the invariant

  lemma SameTablesFold(a: Db, b: Db, log: seq<Event>)
    requires a.purposes == b.purposes && a.policies == b.policies && a.versions == b.versions
    requires forall e | e in log :: Mapped(a, e.purpose)
    ensures Fold(a, log) == Fold(b, log)
  {
    FoldFrame(a, b, log);
  }

  lemma EraseRow(db: Db, ref: SubjectRef, t: Db, other: SubjectRef, k: PurposeKey)
    requires DeleteSubject(db, ref) == Ok(t)
    requires SubjectsDistinct(db) && EventsOk(db) && EventsOk(t)
    requires other in t.subjects && Mapped(db, k) && RowOk(db, other, k)
    ensures RowOk(t, other, k)
  {
    SameTablesFold(db, t, LogOf(db.events, db.subjects[other].pseudonym, k));
  }

  lemma EraseOwners(db: Db, ref: SubjectRef, t: Db, key: (Id, Id))
    requires DeleteSubject(db, ref) == Ok(t)
    requires key in t.states && HasOwner(db, key)
    ensures HasOwner(t, key)
  {
    var other, k :| Owns(db, other, k, key);
    assert Owns(t, other, k, key);
  }

  lemma ErasedRows(db: Db, ref: SubjectRef, t: Db)
    requires DeleteSubject(db, ref) == Ok(t)
    ensures t.events == db.events && t.nextId == db.nextId && t.receipts.Keys == db.receipts.Keys
    ensures forall key | key in db.receipts :: t.receipts[key].event == db.receipts[key].event
  {
  }

  lemma EraseReceipts(db: Db, ref: SubjectRef, t: Db)
    requires DeleteSubject(db, ref) == Ok(t)
    requires ReceiptsOk(db)
    ensures ReceiptsOk(t)
  {
    ErasedRows(db, ref, t);
    EraseReceipted(db, ref, t);
    EraseBacked(db, ref, t);
    SameSize(db.receipts, t.receipts);
  }

  lemma SameSize<K, V>(a: map<K, V>, b: map<K, V>)
    requires a.Keys == b.Keys
    ensures |a| == |b|
  {
    assert |a| == |a.Keys| && |b| == |b.Keys|;
  }

  lemma EraseReceipted(db: Db, ref: SubjectRef, t: Db)
    requires DeleteSubject(db, ref) == Ok(t)
    requires EventsReceipted(db)
    ensures EventsReceipted(t)
  {
    forall e | e in t.events
      ensures HasReceipt(t, e)
    {
      assert HasReceipt(db, e);
      var key :| key in db.receipts && db.receipts[key].event == e.id;
      assert key in t.receipts;
    }
  }

  lemma EraseBacked(db: Db, ref: SubjectRef, t: Db)
    requires DeleteSubject(db, ref) == Ok(t)
    requires ReceiptsBacked(db)
    ensures ReceiptsBacked(t)
  {
    forall key | key in t.receipts
      ensures HasEvent(t, key)
    {
      assert HasEvent(db, key);
      var e :| e in db.events && e.id == db.receipts[key].event;
      assert e in t.events;
    }
  }

  lemma EraseProjects(db: Db, ref: SubjectRef, t: Db)
    requires DeleteSubject(db, ref) == Ok(t)
    requires SubjectsDistinct(db) && EventsOk(db) && Projects(db)
    ensures EventsOk(t) && Projects(t)
  {
    forall other, k | other in t.subjects && Mapped(t, k)
      ensures RowOk(t, other, k)
    {
      assert RowOk(db, other, k);
      EraseRow(db, ref, t, other, k);
    }
    forall key | key in t.states
      ensures HasOwner(t, key)
    {
      assert HasOwner(db, key);
      EraseOwners(db, ref, t, key);
    }
  }

  lemma EraseKeeps(db: Db, ref: SubjectRef)
    requires Inv(db) && DeleteSubject(db, ref).Ok?
    ensures Inv(DeleteSubject(db, ref).value)
  {
    var t := DeleteSubject(db, ref).value;
    EraseProjects(db, ref, t);
    EraseReceipts(db, ref, t);
  }

  /** Tables that changed only by new purposes, policies and versions. */
  ghost predicate Extends(db: Db, t: Db) {
    && t.subjects == db.subjects && t.states == db.states && t.events == db.events && t.receipts == db.receipts
    && t.nextId >= db.nextId
    && (forall k | k in db.purposes :: k in t.purposes && t.purposes[k] == db.purposes[k])
    && (forall k | k in db.policies :: k in t.policies && t.policies[k] == db.policies[k])
    && (forall k | k in db.versions :: k in t.versions && t.versions[k] == db.versions[k])
  }

  lemma ExtendEvents(db: Db, t: Db)
    requires Extends(db, t) && EventsOk(db)
    ensures EventsOk(t)
    ensures forall e | e in db.events :: SameResolution(db, t, e)
  {
  }

  lemma UnmappedLog(db: Db, p: Pseudonym, k: PurposeKey)
    requires EventsOk(db) && !Mapped(db, k)
    ensures LogOf(db.events, p, k) == []
  {
    FirstIsThere(LogOf(db.events, p, k));
  }

  lemma FirstIsThere<T>(log: seq<T>)
    ensures log != [] ==> exists e :: e in log
  {
    if log != [] {
      assert log[0] in log;
    }
  }

  lemma ExtendRow(db: Db, t: Db, ref: SubjectRef, k: PurposeKey)
    requires Extends(db, t) && EventsOk(db) && EventsOk(t) && Projects(db)
    requires PurposesDistinct(t)
    requires ref in t.subjects && Mapped(t, k)
    ensures RowOk(t, ref, k)
  {
    if Mapped(db, k) {
      assert RowOk(db, ref, k);
      ExtendEvents(db, t);
      FoldFrame(db, t, LogOf(db.events, db.subjects[ref].pseudonym, k));
    } else {
      UnmappedLog(db, db.subjects[ref].pseudonym, k);
      var key := (t.subjects[ref].id, t.purposes[k]);
      assert key in db.states ==> HasOwner(db, key);
    }
  }

  lemma ExtendProjects(db: Db, t: Db)
    requires Extends(db, t) && EventsOk(db) && EventsOk(t) && Projects(db)
    requires PurposesDistinct(t)
    ensures Projects(t)
  {
    forall ref, k | ref in t.subjects && Mapped(t, k)
      ensures RowOk(t, ref, k)
    {
      ExtendRow(db, t, ref, k);
    }
    forall key | key in t.states
      ensures HasOwner(t, key)
    {
      assert HasOwner(db, key);
      var ref, k :| Owns(db, ref, k, key);
      assert Owns(t, ref, k, key);
    }
  }

  lemma ExtendReceipts(db: Db, t: Db)
    requires Extends(db, t) && ReceiptsOk(db)
    ensures ReceiptsOk(t)
  {
    forall e | e in t.events
      ensures HasReceipt(t, e)
    {
      assert HasReceipt(db, e);
    }
    forall key | key in t.receipts
      ensures HasEvent(t, key)
    {
      assert HasEvent(db, key);
    }
  }

  lemma ExtendKeeps(db: Db, t: Db)
    requires Inv(db) && Extends(db, t) && IdsOk(t)
    ensures Inv(t)
  {
    ExtendEvents(db, t);
    ExtendProjects(db, t);
    ExtendReceipts(db, t);
  }

  lemma PurposeExtends(db: Db, key: PurposeKey)
    requires IdsOk(db) && CreatePurpose(db, key).Ok?
    ensures IdsOk(CreatePurpose(db, key).value) && Extends(db, CreatePurpose(db, key).value)
  {
  }

  lemma PublishExtends(db: Db, key: PurposeKey)
    requires IdsOk(db) && PublishPolicy(db, key).Ok?
    ensures IdsOk(PublishPolicy(db, key).value) && Extends(db, PublishPolicy(db, key).value)
  {
  }

  // ---- Batches

  /** The pseudonyms a batch may use are unused and pairwise different. */
  ghost predicate UnusedFrom(db: Db, items: seq<Request>, i: nat) {
    && (forall j | i <= j < |items| :: Unused(db, items[j].salted))
    && (forall j, k | i <= j < k < |items| :: items[j].salted != items[k].salted)
  }

  lemma UnusedStays(db: Db, r: Request, p: Pseudonym)
    requires Unused(db, p) && p != r.salted && WriteEvent(db, r).Ok?
    ensures Unused(WriteEvent(db, r).value.0, p)
  {
  }

  lemma {:induction false} WriteAllKeeps(db: Db, items: seq<Request>, i: nat, seen: set<EventKey>)
    requires i <= |items|
    requires Inv(db) && UnusedFrom(db, items, i) && WriteAll(db, items, i, seen).Ok?
    ensures Inv(WriteAll(db, items, i, seen).value.0)
    decreases |items| - i
  {
    if i >= |items| {
    } else {
      var t := WriteEvent(db, items[i]).value.0;
      WriteKeeps(db, items[i]);
      forall j | i + 1 <= j < |items|
        ensures Unused(t, items[j].salted)
      {
        UnusedStays(db, items[i], items[j].salted);
      }
      WriteAllKeeps(t, items, i + 1, seen + {items[i].key});
    }
  }

  /** The items applied one request at a time, each committing on its own. */
  function OneByOne(db: Db, items: seq<Request>): Db
    decreases |items|
  {
    if items == [] then db
    else match WriteEvent(db, items[0])
      case Err(_) => OneByOne(db, items[1..])
      case Ok((t, _)) => OneByOne(t, items[1..])
  }

  lemma {:induction false} WriteAllOneByOne(db: Db, items: seq<Request>, i: nat, seen: set<EventKey>)
    requires i <= |items| && WriteAll(db, items, i, seen).Ok?
    ensures WriteAll(db, items, i, seen).value.0 == OneByOne(db, items[i..])
    decreases |items| - i
  {
    if i >= |items| {
    } else {
      WriteAllOneByOne(WriteEvent(db, items[i]).value.0, items, i + 1, seen + {items[i].key});
      assert items[i..][1..] == items[i + 1..];
    }
  }

  lemma {:induction false} WriteAllCounts(db: Db, items: seq<Request>, i: nat, seen: set<EventKey>)
    requires i <= |items| && WriteAll(db, items, i, seen).Ok?
    ensures |WriteAll(db, items, i, seen).value.1| == |items| - i
    ensures |WriteAll(db, items, i, seen).value.0.events| ==
      |db.events| + Imported(WriteAll(db, items, i, seen).value.1)
    decreases |items| - i
  {
    if i >= |items| {
    } else {
      WriteAllCounts(WriteEvent(db, items[i]).value.0, items, i + 1, seen + {items[i].key});
    }
  }

  /** An accepted batch is the same as its items in sequence, and history grows by exactly `imported`. */
  lemma BatchIsSequence(db: Db, items: seq<Request>)
    requires BatchImport(db, items).Ok?
    ensures var (t, outcomes) := BatchImport(db, items).value;
      && t == OneByOne(db, items)
      && |outcomes| == |items|
      && |t.events| == |db.events| + Imported(outcomes)
      && db.events <= t.events
  {
    WriteAllOneByOne(db, items, 0, {});
    WriteAllCounts(db, items, 0, {});
    assert items[0..] == items;
    HistoryGrows(db, items, 0, {});
  }

  lemma {:induction false} HistoryGrows(db: Db, items: seq<Request>, i: nat, seen: set<EventKey>)
    requires i <= |items| && WriteAll(db, items, i, seen).Ok?
    ensures db.events <= WriteAll(db, items, i, seen).value.0.events
    decreases |items| - i
  {
    if i >= |items| {
    } else {
      HistoryGrows(WriteEvent(db, items[i]).value.0, items, i + 1, seen + {items[i].key});
    }
  }

  // ---- Runs

  datatype Op =
    | AddPurpose(purpose: PurposeKey)
    | Publish(purpose: PurposeKey)
    | Write(request: Request)
    | Batch(items: seq<Request>)
    | Erase(ref: SubjectRef)
    | Rebuild(order: seq<Event>)

  /** The committed tables after an operation; a failed one leaves them as they were. */
  ghost function Step(db: Db, op: Op): Db {
    match op
    case AddPurpose(k) => Committed(CreatePurpose(db, k), db)
    case Publish(k) => Committed(PublishPolicy(db, k), db)
    case Write(r) => (match WriteEvent(db, r) case Ok((t, _)) => t case Err(_) => db)
    case Batch(items) => (match BatchImport(db, items) case Ok((t, _)) => t case Err(_) => db)
    case Erase(ref) => Committed(DeleteSubject(db, ref), db)
    case Rebuild(order) => db.(states := Replay(db, order))
  }

  function Committed(r: Result<Db, Error>, db: Db): Db {
    match r case Ok(t) => t case Err(_) => db
  }

  /** What the environment guarantees: unused salts, and the ORDER BY of the rebuild query. */
  ghost predicate Allowed(db: Db, op: Op) {
    match op
    case Write(r) => Unused(db, r.salted)
    case Batch(items) => UnusedFrom(db, items, 0)
    case Rebuild(order) => ReplayOrder(db.events, order)
    case _ => true
  }

  ghost predicate Run(trace: seq<Db>, ops: seq<Op>) {
    && |trace| == |ops| + 1
    && trace[0] == EMPTY
    && forall i | 0 <= i < |ops| :: Allowed(trace[i], ops[i]) && trace[i + 1] == Step(trace[i], ops[i])
  }

  lemma StepKeeps(db: Db, op: Op)
    requires Inv(db) && Allowed(db, op)
    ensures Inv(Step(db, op))
  {
    match op
    case AddPurpose(k) =>
      if CreatePurpose(db, k).Ok? {
        PurposeExtends(db, k);
        ExtendKeeps(db, CreatePurpose(db, k).value);
      }
    case Publish(k) =>
      if PublishPolicy(db, k).Ok? {
        PublishExtends(db, k);
        ExtendKeeps(db, PublishPolicy(db, k).value);
      }
    case Write(r) =>
      if WriteEvent(db, r).Ok? {
        WriteKeeps(db, r);
      }
    case Batch(items) =>
      if BatchImport(db, items).Ok? {
        WriteAllKeeps(db, items, 0, {});
      }
    case Erase(ref) =>
      if DeleteSubject(db, ref).Ok? {
        EraseKeeps(db, ref);
      }
    case Rebuild(order) =>
      RebuildIsIdentity(db, order);
      assert Step(db, op) == db;
  }

  lemma {:induction false} RunInvariant(trace: seq<Db>, ops: seq<Op>, i: nat)
    requires Run(trace, ops) && i < |trace|
    ensures Inv(trace[i])
  {
    if i == 0 {
    } else {
      RunInvariant(trace, ops, i - 1);
      StepKeeps(trace[i - 1], ops[i - 1]);
    }
  }

  /**
   In every reachable state, replaying the immutable history in the rebuild's order gives the
   incrementally kept projection, key for key and field for field.
   */
  lemma RebuildAgrees(trace: seq<Db>, ops: seq<Op>, i: nat, order: seq<Event>)
    requires Run(trace, ops) && i < |trace| && ReplayOrder(trace[i].events, order)
    ensures Replay(trace[i], order) == trace[i].states
  {
    RunInvariant(trace, ops, i);
    RebuildIsIdentity(trace[i], order);
  }

  // ---- What a state row says about its history

  lemma {:induction false} FoldSummary(db: Db, log: seq<Event>)
    requires forall e | e in log :: Mapped(db, e.purpose)
    ensures Fold(db, log).version == |log|
    ensures log != [] ==>
      var last, row := log[|log| - 1], Fold(db, log);
      && (row.granted <==> last.action == Grant)
      && (last.action == Grant ==> row.expiresAt == last.expiresAt)
  {
    if log == [] {
    } else {
      FoldSummary(db, log[..|log| - 1]);
    }
  }

  /**
   A row exists exactly if there is history; its version is the number of events and the last
   sequence; and verification answers "valid" exactly when the last event is a grant that has not
   expired.
   */
  ghost predicate ReadsTheLastEvent(db: Db, ref: SubjectRef, k: PurposeKey, now: Time)
    requires ref in db.subjects
  {
    var log := LogOf(db.events, db.subjects[ref].pseudonym, k);
    var view := VerifyConsent(db, ref, k, now);
    && view.Ok?
    && (view.value.stateVersion == if log == [] then None else Some(|log|))
    && (log != [] ==> log[|log| - 1].sequence == |log|)
    && (view.value.valid <==>
          && log != [] && log[|log| - 1].action == Grant
          && (log[|log| - 1].expiresAt.None? || log[|log| - 1].expiresAt.value > now))
  }

  lemma VerifyReads(db: Db, ref: SubjectRef, k: PurposeKey, now: Time)
    requires EventsOk(db) && Projects(db) && ref in db.subjects && Mapped(db, k)
    ensures ReadsTheLastEvent(db, ref, k, now)
  {
    assert RowOk(db, ref, k);
    assert Numbered(LogOf(db.events, db.subjects[ref].pseudonym, k));
    RowReads(db, ref, k, now);
  }

  lemma RowReads(db: Db, ref: SubjectRef, k: PurposeKey, now: Time)
    requires (forall e | e in db.events :: Mapped(db, e.purpose)) && ref in db.subjects && Mapped(db, k)
    requires RowOk(db, ref, k) && Numbered(LogOf(db.events, db.subjects[ref].pseudonym, k))
    ensures ReadsTheLastEvent(db, ref, k, now)
  {
    FoldSummary(db, LogOf(db.events, db.subjects[ref].pseudonym, k));
  }

  /** Verification speaks for the history of every live subject and mapped purpose. */
  lemma VerifyReadsTheLastEvent(trace: seq<Db>, ops: seq<Op>, i: nat, ref: SubjectRef, k: PurposeKey, now: Time)
    requires Run(trace, ops) && i < |trace|
    requires ref in trace[i].subjects && Mapped(trace[i], k)
    ensures ReadsTheLastEvent(trace[i], ref, k, now)
  {
    RunInvariant(trace, ops, i);
    VerifyReads(trace[i], ref, k, now);
  }

  // ---- Retries

  /** The receipt of an event key later on: unchanged, or blanked by an erasure. */
  ghost predicate ReceiptKept(a: Db, b: Db, key: EventKey)
    requires key in a.receipts
  {
    && key in b.receipts
    && b.receipts[key].event == a.receipts[key].event
    && b.receipts[key].fingerprint == a.receipts[key].fingerprint
    && (!b.receipts[key].erased ==> b.receipts[key] == a.receipts[key])
  }

  lemma {:induction false} WriteAllReceipts(db: Db, items: seq<Request>, i: nat, seen: set<EventKey>, key: EventKey)
    requires i <= |items| && WriteAll(db, items, i, seen).Ok? && key in db.receipts
    ensures key in WriteAll(db, items, i, seen).value.0.receipts
    ensures WriteAll(db, items, i, seen).value.0.receipts[key] == db.receipts[key]
    decreases |items| - i
  {
    if i >= |items| {
    } else {
      WriteAllReceipts(WriteEvent(db, items[i]).value.0, items, i + 1, seen + {items[i].key}, key);
    }
  }

  lemma StepReceipt(db: Db, op: Op, key: EventKey)
    requires key in db.receipts
    ensures ReceiptKept(db, Step(db, op), key)
  {
    if op.Batch? && BatchImport(db, op.items).Ok? {
      WriteAllReceipts(db, op.items, 0, {}, key);
    }
  }

  lemma {:induction false} RunReceipt(trace: seq<Db>, ops: seq<Op>, i: nat, j: nat, key: EventKey)
    requires Run(trace, ops) && i <= j < |trace| && key in trace[i].receipts
    ensures ReceiptKept(trace[i], trace[j], key)
  {
    if i >= j {
    } else {
      RunReceipt(trace, ops, i, j - 1, key);
      StepReceipt(trace[j - 1], ops[j - 1], key);
    }
  }

  /**
   A key that has once produced an event, by a single write or within a batch, never produces
   another: any later request under it fails without effect or, with the same payload and the
   answer not erased, gets the first answer.
   */
  lemma RetryIsHarmless(trace: seq<Db>, ops: seq<Op>, i: nat, j: nat, key: EventKey, retry: Request)
    requires Run(trace, ops) && i <= j < |trace|
    requires key in trace[i].receipts && retry.key == key
    ensures var first := trace[i].receipts[key];
      var again := WriteEvent(trace[j], retry);
      && key in trace[j].receipts
      && (again.Ok? <==> !trace[j].receipts[key].erased && retry.payload == first.fingerprint)
      && (again.Ok? ==> again.value == (trace[j], Outcome(first.answer, true)))
  {
    RunReceipt(trace, ops, i, j, key);
  }

  lemma WriteLeavesReceipt(db: Db, r: Request)
    requires WriteEvent(db, r).Ok?
    ensures var (t, outcome) := WriteEvent(db, r).value;
      r.key in t.receipts && t.receipts[r.key].fingerprint == r.payload && t.receipts[r.key].answer == outcome.answer
  {
  }

  /** The receipt of a request, with its payload and the answer it got. */
  ghost predicate Received(db: Db, r: Request, outcome: Outcome) {
    && r.key in db.receipts && db.receipts[r.key].fingerprint == r.payload
    && db.receipts[r.key].answer == outcome.answer
  }

  /** The outcomes are those of the items from `i` on. */
  ghost predicate AllReceived(db: Db, items: seq<Request>, i: nat, outcomes: seq<Outcome>)
    decreases |outcomes|
  {
    if outcomes == [] then i == |items|
    else i < |items| && Received(db, items[i], outcomes[0]) && AllReceived(db, items, i + 1, outcomes[1..])
  }

  lemma {:induction false} ReceivedAt(db: Db, items: seq<Request>, i: nat, outcomes: seq<Outcome>, n: nat)
    requires AllReceived(db, items, i, outcomes) && i <= n < |items|
    ensures i + |outcomes| == |items| && Received(db, items[n], outcomes[n - i])
    decreases |outcomes|
  {
    if i < n {
      ReceivedAt(db, items, i + 1, outcomes[1..], n);
    } else if outcomes[1..] != [] {
      ReceivedAt(db, items, i + 1, outcomes[1..], n + 1);
    }
  }

  lemma MoreReceived(db: Db, items: seq<Request>, i: nat, first: Outcome, rest: seq<Outcome>)
    requires i < |items| && Received(db, items[i], first) && AllReceived(db, items, i + 1, rest)
    ensures AllReceived(db, items, i, [first] + rest)
  {
    assert ([first] + rest)[1..] == rest;
  }

  lemma {:induction false} WriteAllReceived(db: Db, items: seq<Request>, i: nat, seen: set<EventKey>,
      t: Db, outcomes: seq<Outcome>)
    requires i <= |items| && WriteAll(db, items, i, seen) == Ok((t, outcomes))
    ensures AllReceived(t, items, i, outcomes)
    decreases |items| - i
  {
    if i < |items| {
      var next, later, first, rest := FirstReceived(db, items, i, seen, t, outcomes);
      WriteAllReceived(next, items, i + 1, later, t, rest);
      MoreReceived(t, items, i, first, rest);
    }
  }

  /** Each item of an accepted batch leaves a receipt with its payload and its answer. */
  lemma BatchLeavesReceipts(db: Db, items: seq<Request>, n: nat)
    requires BatchImport(db, items).Ok? && n < |items|
    ensures var r := BatchImport(db, items).value;
            |r.1| == |items| && Received(r.0, items[n], r.1[n])
  {
    var r := BatchImport(db, items).value;
    WriteAllReceived(db, items, 0, {}, r.0, r.1);
    ReceivedAt(r.0, items, 0, r.1, n);
  }

  /** The first write leaves its receipt, and the rest keep it. */
  lemma FirstReceived(db: Db, items: seq<Request>, i: nat, seen: set<EventKey>, t: Db, outcomes: seq<Outcome>)
    returns (next: Db, later: set<EventKey>, first: Outcome, rest: seq<Outcome>)
    requires i < |items| && WriteAll(db, items, i, seen) == Ok((t, outcomes))
    ensures WriteAll(next, items, i + 1, later) == Ok((t, rest))
    ensures outcomes == [first] + rest && Received(t, items[i], first)
  {
    next, first := WriteEvent(db, items[i]).value.0, WriteEvent(db, items[i]).value.1;
    later := seen + {items[i].key};
    rest := WriteAll(next, items, i + 1, later).value.1;
    WriteLeavesReceipt(db, items[i]);
    WriteAllReceipts(next, items, i + 1, later, items[i].key);
  }

  // ---- Erasure

  /** Erasing removes the subject and its rows, blanks its answers and leaves history. */
  lemma EraseForgets(db: Db, ref: SubjectRef)
    requires DeleteSubject(db, ref).Ok?
    ensures var t, id := DeleteSubject(db, ref).value, db.subjects[ref].id;
      && t.subjects == db.subjects - {ref} && t.events == db.events && t.receipts.Keys == db.receipts.Keys
      && (forall key | key in t.states :: key.0 != id)
      && (forall key | key in db.receipts ::
            if db.receipts[key].subject == Some(id) then t.receipts[key].erased && t.receipts[key].answer == None
            else t.receipts[key] == db.receipts[key])
  {
  }

  /** Afterwards verification knows nothing of the subject, and says of everyone else what it said before. */
  lemma EraseVerifies(db: Db, ref: SubjectRef, other: SubjectRef, k: PurposeKey, now: Time)
    requires SubjectsDistinct(db) && DeleteSubject(db, ref).Ok?
    ensures var t := DeleteSubject(db, ref).value;
      VerifyConsent(t, other, k, now) ==
        if other != ref then VerifyConsent(db, other, k, now)
        else if k in db.purposes then Ok(View(false, NoRecord, None))
        else Err(PurposeNotFound)
  {
    if other in db.subjects && other != ref {
      assert db.subjects[other].id != db.subjects[ref].id;
    }
  }

  /** Answers that are not erased belong to live subjects. */
  ghost predicate AnswersLive(db: Db) {
    forall key | key in db.receipts && !db.receipts[key].erased :: HasSubject(db, db.receipts[key].subject)
  }

  ghost predicate HasSubject(db: Db, id: Option<Id>) {
    exists ref :: ref in db.subjects && id == Some(db.subjects[ref].id)
  }

  lemma WriteAnswers(db: Db, r: Request)
    requires AnswersLive(db) && WriteEvent(db, r).Ok?
    ensures AnswersLive(WriteEvent(db, r).value.0)
  {
    var t := WriteEvent(db, r).value.0;
    forall key | key in t.receipts && !t.receipts[key].erased
      ensures HasSubject(t, t.receipts[key].subject)
    {
      if key in db.receipts {
        var ref :| ref in db.subjects && db.receipts[key].subject == Some(db.subjects[ref].id);
        assert ref in t.subjects && t.subjects[ref] == db.subjects[ref];
      } else {
        assert r.payload.subject in t.subjects;
      }
    }
  }

  lemma {:induction false} WriteAllAnswers(db: Db, items: seq<Request>, i: nat, seen: set<EventKey>)
    requires i <= |items| && AnswersLive(db) && WriteAll(db, items, i, seen).Ok?
    ensures AnswersLive(WriteAll(db, items, i, seen).value.0)
    decreases |items| - i
  {
    if i >= |items| {
    } else {
      WriteAnswers(db, items[i]);
      WriteAllAnswers(WriteEvent(db, items[i]).value.0, items, i + 1, seen + {items[i].key});
    }
  }

  lemma EraseAnswers(db: Db, ref: SubjectRef)
    requires AnswersLive(db) && DeleteSubject(db, ref).Ok?
    ensures AnswersLive(DeleteSubject(db, ref).value)
  {
    var t := DeleteSubject(db, ref).value;
    forall key | key in t.receipts && !t.receipts[key].erased
      ensures HasSubject(t, t.receipts[key].subject)
    {
      var other :| other in db.subjects && db.receipts[key].subject == Some(db.subjects[other].id);
      assert other in t.subjects;
    }
  }

  lemma StepAnswers(db: Db, op: Op)
    requires AnswersLive(db)
    ensures AnswersLive(Step(db, op))
  {
    var t := Step(db, op);
    match op
    case Write(r) =>
      if WriteEvent(db, r).Ok? {
        WriteAnswers(db, r);
      }
    case Batch(items) =>
      if BatchImport(db, items).Ok? {
        WriteAllAnswers(db, items, 0, {});
      }
    case Erase(ref) =>
      if DeleteSubject(db, ref).Ok? {
        EraseAnswers(db, ref);
      }
    case _ =>
      assert t.receipts == db.receipts && t.subjects == db.subjects;
      forall key | key in t.receipts && !t.receipts[key].erased
        ensures HasSubject(t, t.receipts[key].subject)
      {
        assert HasSubject(db, db.receipts[key].subject);
      }
  }

  /** No stored answer outlives its subject, in any reachable state. */
  lemma {:induction false} NoAnswerOutlivesItsSubject(trace: seq<Db>, ops: seq<Op>, i: nat)
    requires Run(trace, ops) && i < |trace|
    ensures AnswersLive(trace[i])
  {
    if i == 0 {
    } else {
      NoAnswerOutlivesItsSubject(trace, ops, i - 1);
      StepAnswers(trace[i - 1], ops[i - 1]);
    }
  }

  // ---- Policy versions

  /** Each policy's versions are numbered from 1 without gaps, and no two have the same row. */
  ghost predicate VersionsDense(db: Db) {
    && (forall k | k in db.versions :: k.0 < db.nextId && k.1 >= 1)
    && (forall p, v: nat, w: nat | (p, v) in db.versions && 1 <= w <= v :: (p, w) in db.versions)
    && (forall k | k in db.policies :: db.policies[k] < db.nextId)
    && VersionRowsOk(db)
  }

  ghost predicate VersionRowsOk(db: Db) {
    && (forall k | k in db.versions :: db.versions[k] < db.nextId)
    && (forall a, b | a in db.versions && b in db.versions && a != b :: db.versions[a] != db.versions[b])
  }

  lemma PublishRows(db: Db, key: PurposeKey)
    requires VersionRowsOk(db) && PublishPolicy(db, key).Ok?
    ensures VersionRowsOk(PublishPolicy(db, key).value)
  {
  }

  lemma PublishDense(db: Db, key: PurposeKey)
    requires VersionsDense(db) && PublishPolicy(db, key).Ok?
    ensures VersionsDense(PublishPolicy(db, key).value)
    ensures var t := PublishPolicy(db, key).value;
      var policy := t.policies[db.purposes[key]];
      var n := LastVersion(db, policy) + 1;
      && t.versions.Keys == db.versions.Keys + {(policy, n)}
      && forall v: nat :: (policy, v) in t.versions <==> 1 <= v <= n
  {
    PublishRows(db, key);
    var t := PublishPolicy(db, key).value;
    var policy := t.policies[db.purposes[key]];
    var last := LastVersion(db, policy);
    forall v: nat
      ensures (policy, v) in t.versions <==> 1 <= v <= last + 1
    {
      assert (policy, v) in db.versions ==> 1 <= v <= last;
    }
  }

  lemma {:induction false} WriteAllIds(db: Db, items: seq<Request>, i: nat, seen: set<EventKey>)
    requires i <= |items| && WriteAll(db, items, i, seen).Ok?
    ensures var t := WriteAll(db, items, i, seen).value.0;
      t.versions == db.versions && t.policies == db.policies && t.nextId >= db.nextId
    decreases |items| - i
  {
    if i >= |items| {
    } else {
      WriteAllIds(WriteEvent(db, items[i]).value.0, items, i + 1, seen + {items[i].key});
    }
  }

  /** In every reachable state a policy's version numbers are 1 up to its last, so publishing takes the next. */
  lemma {:induction false} VersionsAreDense(trace: seq<Db>, ops: seq<Op>, i: nat)
    requires Run(trace, ops) && i < |trace|
    ensures VersionsDense(trace[i])
  {
    if i == 0 {
    } else {
      VersionsAreDense(trace, ops, i - 1);
      StepDense(trace[i - 1], ops[i - 1]);
    }
  }

  lemma StepDense(db: Db, op: Op)
    requires VersionsDense(db)
    ensures VersionsDense(Step(db, op))
  {
    if op.Publish? && PublishPolicy(db, op.purpose).Ok? {
      PublishDense(db, op.purpose);
    }
    if op.Batch? && BatchImport(db, op.items).Ok? {
      WriteAllIds(db, op.items, 0, {});
    }
  }

  // ---- One event per key

  /** In every reachable state each history row belongs to exactly one event key. */
  lemma OneEventPerKey(trace: seq<Db>, ops: seq<Op>, i: nat, n: nat)
    requires Run(trace, ops) && i < |trace| && n < |trace[i].events|
    ensures var db := trace[i];
      exists key :: key in db.receipts && db.receipts[key].event == db.events[n].id
        && forall other | other in db.receipts && db.receipts[other].event == db.events[n].id :: other == key
    ensures |trace[i].events| == |trace[i].receipts|
  {
    RunInvariant(trace, ops, i);
    var db := trace[i];
    assert HasReceipt(db, db.events[n]);
  }
}
