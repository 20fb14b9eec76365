/** What readers of the ledger may rely on. */
module LedgerTheorems {
  import opened Wrappers
  import opened Ledger
  import opened LedgerSafety

  // ---- Budgets

  /**
   In every state each budget's reservation is the sum of its open encumbrances, its actual amount
   the net debit of matching expense lines since it was made, and nothing is overspent.
   */
  lemma BudgetsAgree(env: Env, db: Db, i: nat)
    requires Reached(env, db) && i < |db.budgets|
    ensures db.budgets[i].encumbered == OpenSum(db.encumbrances, i) >= 0
    ensures db.budgets[i].actual == PostedSince(env, db.periods, db.budgets[i], db.entries) >= 0
    ensures Available(db.budgets[i]) >= 0
  {
    ReachedInv(env, db);
    assert BudgetOk(env, db, i);
  }

  /** Paying what was reserved leaves what is available as it was. */
  lemma LiquidationKeepsAvailable(env: Env, db: Db, p: Payload)
    requires Inv(env, db) && p.encumbrance.Some?
    requires Post(env, db, p, None).Ok? && !Post(env, db, p, None).value.replayed
    ensures p.encumbrance.value < |db.encumbrances| && db.encumbrances[p.encumbrance.value].status.Open?
    ensures var after := Post(env, db, p, None).value.db;
            var enc := db.encumbrances[p.encumbrance.value];
            && |after.budgets| == |db.budgets| && |after.encumbrances| == |db.encumbrances|
            && Available(after.budgets[enc.budget]) == Available(db.budgets[enc.budget])
            && after.budgets[enc.budget].actual == db.budgets[enc.budget].actual + enc.amount
            && after.encumbrances[p.encumbrance.value].status == Liquidated(|db.entries|)
  {
  }

  /** Encumbrances keep their budget and amount, and one that was released stays as it is: it is released only once. */
  ghost predicate Settles(before: seq<Encumbrance>, after: seq<Encumbrance>) {
    && |before| <= |after|
    && (forall e | 0 <= e < |before| :: Settled(before[e], after[e]))
  }

  ghost predicate Settled(before: Encumbrance, after: Encumbrance) {
    if before.status.Open? then after == before.(status := after.status) else after == before
  }

  /** Entries are never changed or removed. */
  lemma StepExtends(env: Env, db: Db, op: Op)
    requires Linked(db)
    ensures db.entries <= Step(env, db, op).entries
    ensures Settles(db.encumbrances, Step(env, db, op).encumbrances)
    ensures |db.periods| <= |Step(env, db, op).periods|
  {
  }

  lemma SettlesTrans(a: seq<Encumbrance>, b: seq<Encumbrance>, c: seq<Encumbrance>)
    requires Settles(a, b) && Settles(b, c)
    ensures Settles(a, c)
  {
    forall e | 0 <= e < |a|
      ensures Settled(a[e], c[e])
    {
      assert Settled(a[e], b[e]) && Settled(b[e], c[e]);
    }
  }

  lemma {:induction false} RunExtends(env: Env, db: Db, ops: seq<Op>)
    requires Linked(db)
    ensures db.entries <= Run(env, db, ops).entries
    ensures Settles(db.encumbrances, Run(env, db, ops).encumbrances)
    decreases |ops|
  {
    if ops == [] {
    } else {
      var next := Step(env, db, ops[0]);
      StepExtends(env, db, ops[0]);
      RunExtends(env, next, ops[1..]);
      SettlesTrans(db.encumbrances, next.encumbrances, Run(env, db, ops).encumbrances);
    }
  }

  // ---- Balance

  function TotalDebits(entries: seq<Entry>): int {
    if entries == [] then 0 else TotalDebits(entries[..|entries| - 1]) + Debits(entries[|entries| - 1].lines)
  }

  function TotalCredits(entries: seq<Entry>): int {
    if entries == [] then 0 else TotalCredits(entries[..|entries| - 1]) + Credits(entries[|entries| - 1].lines)
  }

  lemma {:induction false} TotalsAgree(entries: seq<Entry>)
    requires forall e | e in entries :: Balanced(e.lines)
    ensures TotalDebits(entries) == TotalCredits(entries)
  {
    if entries == [] {
    } else {
      var last := entries[|entries| - 1];
      assert last in entries;
      TotalsAgree(entries[..|entries| - 1]);
    }
  }

  /** Over any run, everything debited was credited. */
  lemma TrialBalance(env: Env, db: Db)
    requires Reached(env, db)
    ensures TotalDebits(db.entries) == TotalCredits(db.entries)
  {
    ReachedInv(env, db);
    forall e | e in db.entries
      ensures Balanced(e.lines)
    {
      var k :| 0 <= k < |db.entries| && db.entries[k] == e;
      assert EntryOk(db, k);
    }
    TotalsAgree(db.entries);
  }

  /** Net debit on a fund, department and account, whatever the account's type. */
  function Net(lines: seq<Line>, fund: int, department: int, account: int): int {
    if lines == [] then 0
    else
      var l := lines[|lines| - 1];
      Net(lines[..|lines| - 1], fund, department, account)
      + if l.fund == fund && l.department == department && l.account == account then l.debit - l.credit else 0
  }

  lemma {:induction false} MirroredNet(lines: seq<Line>, fund: int, department: int, account: int)
    ensures Net(Mirrored(lines), fund, department, account) == -Net(lines, fund, department, account)
  {
    if lines == [] {
    } else {
      MirroredNet(lines[..|lines| - 1], fund, department, account);
      assert Mirrored(lines)[..|lines| - 1] == Mirrored(lines[..|lines| - 1]);
    }
  }

  /** An entry and its reversal cancel on every fund, department and account, and there is at most one reversal. */
  lemma ReversalNetsZero(env: Env, db: Db, k: nat, fund: int, department: int, account: int)
    requires Reached(env, db) && k < |db.entries| && db.entries[k].reversalOf.Some?
    ensures db.entries[k].reversalOf.value < k
    ensures Net(db.entries[k].lines, fund, department, account)
            + Net(db.entries[db.entries[k].reversalOf.value].lines, fund, department, account) == 0
    ensures forall j | 0 <= j < |db.entries| && db.entries[j].reversalOf == db.entries[k].reversalOf :: j == k
  {
    ReachedInv(env, db);
    assert EntryOk(db, k);
    MirroredNet(db.entries[db.entries[k].reversalOf.value].lines, fund, department, account);
  }

  // ---- Reversing

  lemma {:induction false} MirroredDelta(env: Env, b: Budget, lines: seq<Line>)
    ensures Delta(env, b, Mirrored(lines)) == -Delta(env, b, lines)
  {
    if lines == [] {
    } else {
      MirroredDelta(env, b, lines[..|lines| - 1]);
      assert Mirrored(lines)[..|lines| - 1] == Mirrored(lines[..|lines| - 1]);
    }
  }

  lemma {:induction false} MirroredSums(lines: seq<Line>)
    ensures Debits(Mirrored(lines)) == Credits(lines) && Credits(Mirrored(lines)) == Debits(lines)
  {
    if lines == [] {
    } else {
      MirroredSums(lines[..|lines| - 1]);
      assert Mirrored(lines)[..|lines| - 1] == Mirrored(lines[..|lines| - 1]);
    }
  }

  lemma MirroredFine(env: Env, lines: seq<Line>)
    requires RefsOk(env, lines) && LinesOk(lines)
    ensures RefsOk(env, Mirrored(lines)) && LinesOk(Mirrored(lines))
  {
    forall l | l in Mirrored(lines)
      ensures LineOk(l) && l.fund in env.funds && l.department in env.departments && l.account in env.accounts
    {
      var k :| 0 <= k < |lines| && l == Mirror(lines[k]);
      assert lines[k] in lines;
    }
  }

  /** The budget can give back what the lines put on it, and neither goes negative nor is overspent. */
  predicate GivesBack(env: Env, b: Budget, year: int, lines: seq<Line>) {
    var back := YearDelta(env, b, year, lines);
    b.actual >= back && Available(b) + back >= 0
  }

  /** A budget with its lines taken back. */
  function GivenBack(env: Env, b: Budget, year: int, lines: seq<Line>): Budget {
    b.(actual := b.actual - YearDelta(env, b, year, lines))
  }

  lemma EffectsBack(env: Env, db: Db, year: int, lines: seq<Line>)
    requires forall i | 0 <= i < |db.budgets| :: db.budgets[i].encumbered >= 0
    ensures var r := Effects(env, db, year, Mirrored(lines), None);
            && (r.Ok? <==> forall i | 0 <= i < |db.budgets| :: GivesBack(env, db.budgets[i], year, lines))
            && (r.Ok? ==> |r.value| == |db.budgets|)
            && (r.Ok? ==> forall i | 0 <= i < |db.budgets| ::
              r.value[i] == GivenBack(env, db.budgets[i], year, lines))
  {
    var after := AffectedAll(env, db, year, Mirrored(lines), None);
    forall i | 0 <= i < |db.budgets|
      ensures after[i] == GivenBack(env, db.budgets[i], year, lines)
      ensures GivesBack(env, db.budgets[i], year, lines) <==> !Exceeded(after[i]) && after[i].actual >= 0
    {
      MirroredDelta(env, db.budgets[i], lines);
    }
  }

  lemma RefusalBack(env: Env, db: Db, original: nat, key: string, period: nat, memo: string)
    requires original < |db.entries| && RefsOk(env, db.entries[original].lines) && Balanced(db.entries[original].lines)
    ensures Refusal(env, db, ReversalPayload(env, db, original, key, period, memo), Some(original)).None?
       <==> period < |db.periods| && !db.periods[period].closed && !Reversed(db.entries, original)
  {
    MirroredFine(env, db.entries[original].lines);
    MirroredSums(db.entries[original].lines);
  }

  /** What a reversal needs apart from a new key. */
  ghost predicate Reversible(env: Env, db: Db, original: nat, period: nat) {
    && original < |db.entries| && !Reversed(db.entries, original)
    && period < |db.periods| && !db.periods[period].closed
    && forall i | 0 <= i < |db.budgets| ::
      GivesBack(env, db.budgets[i], db.periods[period].year, db.entries[original].lines)
  }

  /** The new entry mirrors the original, and each budget of the period's year gets back what the original put on it. */
  ghost predicate TakenBack(env: Env, db: Db, after: Db, original: nat, key: string, period: nat, memo: string)
    requires original < |db.entries| && period < |db.periods|
  {
    var text := if memo != "" then memo else env.defaultMemo(original);
    var lines := Mirrored(db.entries[original].lines);
    var digest := env.hash(Payload(key, period, text, None, lines));
    && after.entries == db.entries + [Entry(key, digest, period, text, lines, Some(original))]
    && after == db.(entries := after.entries, budgets := after.budgets) && |after.budgets| == |db.budgets|
    && forall i | 0 <= i < |db.budgets| ::
      after.budgets[i] == GivenBack(env, db.budgets[i], db.periods[period].year, db.entries[original].lines)
  }

  lemma ReversesIff(env: Env, db: Db, original: nat, key: string, period: nat, memo: string)
    requires Linked(db) && FindKey(db.entries, key).None?
    requires original < |db.entries| ==>
      RefsOk(env, db.entries[original].lines) && Balanced(db.entries[original].lines)
    requires forall i | 0 <= i < |db.budgets| :: db.budgets[i].encumbered >= 0
    ensures var r := Reverse(env, db, original, key, period, memo);
            && (r.Ok? <==> Reversible(env, db, original, period))
            && (r.Ok? ==> !r.value.replayed && r.value.entry == |db.entries|)
            && (r.Ok? ==> TakenBack(env, db, r.value.db, original, key, period, memo))
  {
    if original < |db.entries| {
      RefusalBack(env, db, original, key, period, memo);
      if period < |db.periods| {
        EffectsBack(env, db, db.periods[period].year, db.entries[original].lines);
      }
    }
  }

  /** Entries refer to known funds, departments and accounts. */
  ghost predicate RefsKnown(env: Env, entries: seq<Entry>) {
    forall e | e in entries :: RefsOk(env, e.lines)
  }

  lemma {:induction false} RunRefs(env: Env, db: Db, ops: seq<Op>)
    requires Linked(db) && RefsKnown(env, db.entries)
    ensures RefsKnown(env, Run(env, db, ops).entries)
    decreases |ops|
  {
    if ops == [] {
    } else {
      StepRefs(env, db, ops[0]);
      RunRefs(env, Step(env, db, ops[0]), ops[1..]);
    }
  }

  lemma StepRefs(env: Env, db: Db, op: Op)
    requires Linked(db) && RefsKnown(env, db.entries)
    ensures RefsKnown(env, Step(env, db, op).entries)
  {
  }

  /**
   In every state, a reversal under a new key succeeds exactly when the entry exists and is not yet reversed,
   the period is open, and every budget can give back what the entry put on it; it then takes exactly that back.
   */
  lemma ReverseIff(env: Env, db: Db, original: nat, key: string, period: nat, memo: string)
    requires Reached(env, db) && FindKey(db.entries, key).None?
    ensures Linked(db)
    ensures var r := Reverse(env, db, original, key, period, memo);
            && (r.Ok? <==> Reversible(env, db, original, period))
            && (r.Ok? ==> TakenBack(env, db, r.value.db, original, key, period, memo))
  {
    ReachedInv(env, db);
    var ops :| db == Run(env, Db([], [], [], [], []), ops);
    RunRefs(env, Db([], [], [], [], []), ops);
    assert original < |db.entries| ==> EntryOk(db, original);
    forall i | 0 <= i < |db.budgets|
      ensures db.budgets[i].encumbered >= 0
    {
      assert BudgetOk(env, db, i);
    }
    ReversesIff(env, db, original, key, period, memo);
  }

  /** The state after a post. */
  lemma PostedState(env: Env, db: Db, p: Payload)
    requires Inv(env, db) && Post(env, db, p, None).Ok? && !Post(env, db, p, None).value.replayed
    ensures var mid := Post(env, db, p, None).value;
            && Linked(mid.db) && RefsOk(env, p.lines) && Balanced(p.lines)
            && mid.db.periods == db.periods && |mid.db.budgets| == |db.budgets|
            && mid.entry == |db.entries| && mid.db.entries == db.entries + [NewEntry(env, p, None)]
            && p.period < |db.periods| && !Reversed(mid.db.entries, mid.entry)
  {
    var mid := Post(env, db, p, None).value;
    assert mid.db.entries == db.entries + [NewEntry(env, p, None)];
    LinesBalance(p.lines);
    NotYetReversed(db, NewEntry(env, p, None));
  }

  lemma NotYetReversed(db: Db, e: Entry)
    requires EntriesOk(db) && e.reversalOf.None?
    ensures !Reversed(db.entries + [e], |db.entries|)
  {
    forall k | 0 <= k < |db.entries| + 1
      ensures (db.entries + [e])[k].reversalOf != Some(|db.entries|)
    {
      assert k < |db.entries| ==> EntryOk(db, k);
    }
  }

  lemma PostedBudget(env: Env, db: Db, p: Payload, i: nat)
    requires Inv(env, db) && Post(env, db, p, None).Ok? && !Post(env, db, p, None).value.replayed
    requires i < |db.budgets|
    ensures var mid := Post(env, db, p, None).value.db;
            && |mid.budgets| == |db.budgets| && p.period < |db.periods|
            && GivesBack(env, mid.budgets[i], db.periods[p.period].year, p.lines)
            && GivenBack(env, mid.budgets[i], db.periods[p.period].year, p.lines).actual == db.budgets[i].actual
            && mid.budgets[i].encumbered >= 0
  {
    var mid := Post(env, db, p, None).value.db;
    assert BudgetOk(env, db, i);
    DeltaSame(env, db.budgets[i], mid.budgets[i], p.lines);
  }

  lemma OtherKey(entries: seq<Entry>, e: Entry, key: string)
    requires e.key != key
    ensures FindKey(entries + [e], key) == FindKey(entries, key)
  {
    assert (entries + [e])[..|entries|] == entries;
  }

  /**
   An entry just posted can be reversed at once, in any open period of its year, and every budget's
   actual amount is what it was before.
   */
  lemma PostThenReverse(env: Env, db: Db, p: Payload, key: string, period: nat, memo: string)
    requires Inv(env, db) && Post(env, db, p, None).Ok? && !Post(env, db, p, None).value.replayed
    requires key != p.key && FindKey(db.entries, key).None?
    requires period < |db.periods| && !db.periods[period].closed && db.periods[period].year == db.periods[p.period].year
    ensures Linked(Post(env, db, p, None).value.db)
    ensures var mid := Post(env, db, p, None).value;
            var r := Reverse(env, mid.db, mid.entry, key, period, memo);
            && r.Ok? && !r.value.replayed && |r.value.db.budgets| == |db.budgets|
            && forall i | 0 <= i < |db.budgets| :: r.value.db.budgets[i].actual == db.budgets[i].actual
  {
    var mid := Post(env, db, p, None).value;
    PostedState(env, db, p);
    OtherKey(db.entries, NewEntry(env, p, None), key);
    forall i | 0 <= i < |db.budgets|
      ensures |mid.db.budgets| == |db.budgets| && mid.db.budgets[i].encumbered >= 0
      ensures GivesBack(env, mid.db.budgets[i], db.periods[period].year, p.lines)
      ensures GivenBack(env, mid.db.budgets[i], db.periods[period].year, p.lines).actual == db.budgets[i].actual
    {
      PostedBudget(env, db, p, i);
    }
    ReversesIff(env, mid.db, mid.entry, key, period, memo);
  }

  /**
   A reversal that succeeds has reversed the entry asked for exactly when its key was new or belongs
   to a reversal of that entry. The payload digest does not cover which entry is reversed.
   */
  lemma ReversesTheEntryIff(env: Env, db: Db, original: nat, key: string, period: nat, memo: string)
    requires Linked(db) && Reverse(env, db, original, key, period, memo).Ok?
    ensures var r := Reverse(env, db, original, key, period, memo).value;
            r.entry < |r.db.entries| &&
            var used := FindKey(db.entries, key);
            r.db.entries[r.entry].reversalOf == Some(original)
            <==> used.None? || db.entries[used.value].reversalOf == Some(original)
  {
  }

  /**
   Posting by hand what a reversal would post makes the reversal under that key report success with
   nothing reversed.
   */
  lemma ReplayCanMiss(env: Env, db: Db, original: nat, key: string, period: nat, memo: string)
    requires Inv(env, db) && original < |db.entries| && !Reversed(db.entries, original)
    requires var p := ReversalPayload(env, db, original, key, period, memo);
             Post(env, db, p, None).Ok? && !Post(env, db, p, None).value.replayed
    ensures var mid := Post(env, db, ReversalPayload(env, db, original, key, period, memo), None).value;
            && Reverse(env, mid.db, original, key, period, memo) == Ok(Posted(mid.db, mid.entry, true))
            && !Reversed(mid.db.entries, original)
  {
    var mid := Post(env, db, ReversalPayload(env, db, original, key, period, memo), None).value;
    assert mid.db.entries[original] == db.entries[original];
    forall k | 0 <= k < |mid.db.entries|
      ensures mid.db.entries[k].reversalOf != Some(original)
    {
      assert k < |db.entries| ==> mid.db.entries[k] == db.entries[k];
    }
  }

  // ---- Retrying

  lemma {:induction false} KeyIsFound(entries: seq<Entry>, k: nat)
    requires k < |entries| && EntriesDistinct(entries)
    ensures FindKey(entries, entries[k].key) == Some(k)
  {
    var i := FindKey(entries, entries[k].key);
    assert entries[k] in entries;
    KeyPlace(entries, i.value, k);
  }

  lemma KeyPlace(entries: seq<Entry>, i: nat, k: nat)
    requires EntriesDistinct(entries) && i < |entries| && k < |entries| && entries[i].key == entries[k].key
    ensures i == k
  {
  }

  /**
   However much later, the same payload returns the entry it made and changes nothing; another payload
   with its key is refused.
   */
  lemma PostRetry(env: Env, db: Db, p: Payload, ops: seq<Op>, q: Payload)
    requires Inv(env, db) && Post(env, db, p, None).Ok? && q.key == p.key
    ensures Linked(Post(env, db, p, None).value.db)
    ensures var first := Post(env, db, p, None).value;
            var later := Run(env, first.db, ops);
            Post(env, later, q, None) == if env.hash(q) == env.hash(p) then Ok(Posted(later, first.entry, true))
              else Err(KeyConflict)
  {
    var first := Post(env, db, p, None).value;
    PostKeeps(env, db, p, None);
    assert first.entry < |first.db.entries| && first.db.entries[first.entry].key == p.key
      && first.db.entries[first.entry].hash == env.hash(p);
    RunKeeps(env, first.db, ops);
    RunExtends(env, first.db, ops);
    KeyIsFound(Run(env, first.db, ops).entries, first.entry);
  }

  // ---- Closed periods

  /** The entries of a period, in order. */
  function InPeriod(entries: seq<Entry>, period: nat): seq<Entry> {
    if entries == [] then []
    else
      var last := entries[|entries| - 1];
      InPeriod(entries[..|entries| - 1], period) + if last.period == period then [last] else []
  }

  lemma ClosedStep(env: Env, db: Db, op: Op, period: nat)
    requires Linked(db) && period < |db.periods| && db.periods[period].closed && op != DoReopen(period)
    ensures var next := Step(env, db, op);
            && period < |next.periods| && next.periods[period].closed
            && InPeriod(next.entries, period) == InPeriod(db.entries, period)
  {
    var next := Step(env, db, op);
    StepEnters(env, db, op);
    if next.entries != db.entries {
      assert next.entries[..|next.entries| - 1] == db.entries;
    }
  }

  /** A step adds at most one entry, to an open period, and only a reopen opens one. */
  lemma StepEnters(env: Env, db: Db, op: Op)
    requires Linked(db)
    ensures var next := Step(env, db, op);
            && (next.entries == db.entries || (
                  |next.entries| == |db.entries| + 1 && next.entries[..|db.entries|] == db.entries
                  && var p := next.entries[|db.entries|].period;
                     p < |db.periods| && !db.periods[p].closed))
            && |db.periods| <= |next.periods|
            && forall p | 0 <= p < |db.periods| && op != DoReopen(p) :: db.periods[p].closed ==> next.periods[p].closed
  {
  }

  /** Between its close and a reopen, a period gets no entry. */
  lemma {:induction false} ClosedPeriodIsFrozen(env: Env, db: Db, ops: seq<Op>, period: nat)
    requires Linked(db) && period < |db.periods| && db.periods[period].closed
    requires forall k | 0 <= k < |ops| :: ops[k] != DoReopen(period)
    ensures var later := Run(env, db, ops);
            && period < |later.periods| && later.periods[period].closed
            && InPeriod(later.entries, period) == InPeriod(db.entries, period)
    decreases |ops|
  {
    if ops == [] {
    } else {
      ClosedStep(env, db, ops[0], period);
      ClosedPeriodIsFrozen(env, Step(env, db, ops[0]), ops[1..], period);
    }
  }

  /** The audit trail tells which periods are closed. */
  lemma AuditTellsClosed(env: Env, db: Db, period: nat)
    requires Reached(env, db) && period < |db.periods|
    ensures db.periods[period].closed <==> LastAction(db.audit, period) == Some(ClosePeriod)
  {
    ReachedInv(env, db);
  }
}
