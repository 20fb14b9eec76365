/** What every run of ledger operations keeps. */
module LedgerSafety {
  import opened Wrappers
  import opened Ledger

  // ---- The records budgets summarise

  /** What open encumbrances reserve on a budget. */
  function OpenSum(encumbrances: seq<Encumbrance>, i: nat): int {
    if encumbrances == [] then 0
    else
      var e := encumbrances[|encumbrances| - 1];
      OpenSum(encumbrances[..|encumbrances| - 1], i) + if e.status.Open? && e.budget == i then e.amount else 0
  }

  function YearOf(periods: seq<Period>, period: nat): Option<int> {
    if period < |periods| then Some(periods[period].year) else None
  }

  /** The net debit on a budget of one entry, by its period's year. */
  function EntryDelta(env: Env, periods: seq<Period>, b: Budget, e: Entry): int {
    if YearOf(periods, e.period) == Some(b.year) then Delta(env, b, e.lines) else 0
  }

  /** The net debit of the entries posted since the budget was made. */
  function PostedSince(env: Env, periods: seq<Period>, b: Budget, entries: seq<Entry>): int {
    if |entries| <= b.since then 0
    else PostedSince(env, periods, b, entries[..|entries| - 1]) + EntryDelta(env, periods, b, entries[|entries| - 1])
  }

  // ---- The invariant

  ghost predicate BudgetOk(env: Env, db: Db, i: nat)
    requires i < |db.budgets|
  {
    var b := db.budgets[i];
    && b.since <= |db.entries|
    && b.encumbered == OpenSum(db.encumbrances, i)
    && b.actual == PostedSince(env, db.periods, b, db.entries)
    && b.encumbered >= 0 && b.actual >= 0 && Available(b) >= 0
  }

  ghost predicate BudgetsOk(env: Env, db: Db) {
    forall i | 0 <= i < |db.budgets| :: BudgetOk(env, db, i)
  }

  ghost predicate BudgetsDistinct(budgets: seq<Budget>) {
    forall i, j | 0 <= i < j < |budgets| ::
      !Covers(budgets[j], budgets[i].year, budgets[i].fund, budgets[i].department, budgets[i].account)
  }

  ghost predicate EncumbrancesOk(db: Db) {
    forall e | 0 <= e < |db.encumbrances| ::
      && db.encumbrances[e].budget < |db.budgets| && db.encumbrances[e].amount > 0
      && (db.encumbrances[e].status.Liquidated? ==> db.encumbrances[e].status.entry < |db.entries|)
  }

  ghost predicate Balanced(lines: seq<Line>) {
    LinesOk(lines) && Debits(lines) == Credits(lines) > 0
  }

  ghost predicate EntryOk(db: Db, k: nat)
    requires k < |db.entries|
  {
    var e := db.entries[k];
    && e.period < |db.periods| && Balanced(e.lines)
    && (e.reversalOf.Some? ==> e.reversalOf.value < k && e.lines == Mirrored(db.entries[e.reversalOf.value].lines))
  }

  ghost predicate EntriesOk(db: Db) {
    forall k | 0 <= k < |db.entries| :: EntryOk(db, k)
  }

  ghost predicate EntriesDistinct(entries: seq<Entry>) {
    forall j, k | 0 <= j < k < |entries| ::
      entries[j].key != entries[k].key
        && (entries[j].reversalOf.Some? ==> entries[j].reversalOf != entries[k].reversalOf)
  }

  /** The last thing the audit trail says was done to a period. */
  function LastAction(audit: seq<(nat, AuditAction)>, period: nat): Option<AuditAction> {
    if audit == [] then None
    else if audit[|audit| - 1].0 == period then Some(audit[|audit| - 1].1)
    else LastAction(audit[..|audit| - 1], period)
  }

  ghost predicate PeriodsOk(db: Db) {
    && (forall p | 0 <= p < |db.periods| :: db.periods[p].closed <==> LastAction(db.audit, p) == Some(ClosePeriod))
    && (forall p: nat | p >= |db.periods| :: LastAction(db.audit, p) == None)
  }

  ghost predicate Inv(env: Env, db: Db) {
    && BudgetsOk(env, db) && BudgetsDistinct(db.budgets)
    && EncumbrancesOk(db) && EntriesOk(db) && EntriesDistinct(db.entries) && PeriodsOk(db)
  }

  lemma EmptyInv(env: Env)
    ensures Inv(env, Db([], [], [], [], []))
  {
  }

  // ---- Sums under change

  lemma {:induction false} OpenSumUpdate(encumbrances: seq<Encumbrance>, e: nat, status: EncStatus, i: nat)
    requires e < |encumbrances| && encumbrances[e].status.Open? && !status.Open?
    ensures OpenSum(encumbrances[e := encumbrances[e].(status := status)], i) ==
      OpenSum(encumbrances, i) - if encumbrances[e].budget == i then encumbrances[e].amount else 0
  {
    var last := |encumbrances| - 1;
    var after := encumbrances[e := encumbrances[e].(status := status)];
    if e == last {
      assert after[..last] == encumbrances[..last];
    } else {
      assert after[..last] == encumbrances[..last][e := encumbrances[e].(status := status)];
      OpenSumUpdate(encumbrances[..last], e, status, i);
    }
  }

  lemma {:induction false} DeltaSame(env: Env, b: Budget, c: Budget, lines: seq<Line>)
    requires b.fund == c.fund && b.department == c.department && b.account == c.account
    ensures Delta(env, b, lines) == Delta(env, c, lines)
  {
    if lines == [] {
    } else {
      DeltaSame(env, b, c, lines[..|lines| - 1]);
    }
  }

  /** Only a budget's dimensions and birth matter, and only the years of periods. */
  lemma {:induction false} PostedSame(env: Env, periods: seq<Period>, later: seq<Period>, b: Budget, c: Budget,
      entries: seq<Entry>)
    requires c == b.(encumbered := c.encumbered, actual := c.actual)
    requires forall e | e in entries :: e.period < |periods| && YearOf(later, e.period) == YearOf(periods, e.period)
    ensures PostedSince(env, later, c, entries) == PostedSince(env, periods, b, entries)
  {
    if |entries| > b.since {
      DeltaSame(env, b, c, entries[|entries| - 1].lines);
      PostedSame(env, periods, later, b, c, entries[..|entries| - 1]);
    }
  }

  // ---- Posting

  lemma EnteredBudget(env: Env, db: Db, p: Payload, reversalOf: Option<nat>, i: nat)
    requires Inv(env, db) && p.period < |db.periods| && i < |db.budgets|
    requires p.encumbrance.Some? ==>
      p.encumbrance.value < |db.encumbrances| && db.encumbrances[p.encumbrance.value].status.Open?
    ensures var after := AffectedAll(env, db, db.periods[p.period].year, p.lines, p.encumbrance);
            var next := Entered(env, db, p, reversalOf, after);
            && after[i].encumbered == OpenSum(next.encumbrances, i)
            && after[i].actual == PostedSince(env, next.periods, after[i], next.entries)
  {
    var b := db.budgets[i];
    assert BudgetOk(env, db, i);
    var after := AffectedAll(env, db, db.periods[p.period].year, p.lines, p.encumbrance)[i];
    var entries := db.entries + [NewEntry(env, p, reversalOf)];
    assert entries[..|entries| - 1] == db.entries;
    EntriesHavePeriods(db);
    PostedSame(env, db.periods, db.periods, b, after, db.entries);
    DeltaSame(env, b, after, p.lines);
    if p.encumbrance.Some? {
      OpenSumUpdate(db.encumbrances, p.encumbrance.value, Liquidated(|db.entries|), i);
    }
  }

  lemma EntriesHavePeriods(db: Db)
    requires EntriesOk(db)
    ensures forall e | e in db.entries :: e.period < |db.periods|
  {
    forall e | e in db.entries
      ensures e.period < |db.periods|
    {
      var k :| 0 <= k < |db.entries| && db.entries[k] == e;
      assert EntryOk(db, k);
    }
  }

  lemma EnteredBudgets(env: Env, db: Db, p: Payload, reversalOf: Option<nat>)
    requires Inv(env, db) && p.period < |db.periods|
    requires p.encumbrance.Some? ==>
      p.encumbrance.value < |db.encumbrances| && db.encumbrances[p.encumbrance.value].status.Open?
    requires EncRow(db, p.encumbrance) && Effects(env, db, db.periods[p.period].year, p.lines, p.encumbrance).Ok?
    ensures BudgetsOk(env,
      Entered(env, db, p, reversalOf, AffectedAll(env, db, db.periods[p.period].year, p.lines, p.encumbrance)))
  {
    var after := AffectedAll(env, db, db.periods[p.period].year, p.lines, p.encumbrance);
    forall i | 0 <= i < |after|
      ensures BudgetOk(env, Entered(env, db, p, reversalOf, after), i)
    {
      EnteredBudget(env, db, p, reversalOf, i);
      assert BudgetOk(env, db, i);
      assert !Exceeded(after[i]) && after[i].actual >= 0;
    }
  }

  lemma AffectedDistinct(env: Env, db: Db, year: int, lines: seq<Line>, enc: Option<nat>)
    requires BudgetsDistinct(db.budgets)
    ensures BudgetsDistinct(AffectedAll(env, db, year, lines, enc))
  {
    var after := AffectedAll(env, db, year, lines, enc);
    forall i, j | 0 <= i < j < |after|
      ensures !Covers(after[j], after[i].year, after[i].fund, after[i].department, after[i].account)
    {
      assert !Covers(db.budgets[j], db.budgets[i].year, db.budgets[i].fund, db.budgets[i].department,
        db.budgets[i].account);
    }
  }

  lemma {:induction false} LinesBalance(lines: seq<Line>)
    requires LinesOk(lines)
    ensures Debits(lines) >= 0 && Credits(lines) >= 0
  {
    if lines == [] {
    } else {
      var l := lines[|lines| - 1];
      assert l in lines && LineOk(l);
      LinesBalance(lines[..|lines| - 1]);
    }
  }

  /** The new entry is balanced, its key is new, and a reversal mirrors its original. */
  lemma EnteredEntries(env: Env, db: Db, p: Payload, reversalOf: Option<nat>, budgets: seq<Budget>)
    requires EntriesOk(db) && EntriesDistinct(db.entries)
    requires FindKey(db.entries, p.key).None? && Refusal(env, db, p, reversalOf).None?
    requires reversalOf.Some? ==>
      reversalOf.value < |db.entries| && p.lines == Mirrored(db.entries[reversalOf.value].lines)
    ensures var next := Entered(env, db, p, reversalOf, budgets);
            EntriesOk(next) && EntriesDistinct(next.entries)
  {
    var next := Entered(env, db, p, reversalOf, budgets);
    var n := |db.entries|;
    LinesBalance(p.lines);
    forall k | 0 <= k <= n
      ensures EntryOk(next, k)
    {
      if k < n {
        assert EntryOk(db, k);
      }
    }
    forall j | 0 <= j < n
      ensures next.entries[j].key != p.key
        && (next.entries[j].reversalOf.Some? ==> next.entries[j].reversalOf != reversalOf)
    {
      assert db.entries[j] in db.entries;
    }
  }

  lemma PostKeeps(env: Env, db: Db, p: Payload, reversalOf: Option<nat>)
    requires Inv(env, db)
    requires reversalOf.Some? ==>
      reversalOf.value < |db.entries| && p.lines == Mirrored(db.entries[reversalOf.value].lines)
    requires Post(env, db, p, reversalOf).Ok?
    ensures Inv(env, Post(env, db, p, reversalOf).value.db)
  {
    if FindKey(db.entries, p.key).None? {
      var year := db.periods[p.period].year;
      EnteredBudgets(env, db, p, reversalOf);
      AffectedDistinct(env, db, year, p.lines, p.encumbrance);
      EnteredEntries(env, db, p, reversalOf, AffectedAll(env, db, year, p.lines, p.encumbrance));
    }
  }

  // ---- Budgets and encumbrances

  lemma CreateBudgetKeeps(env: Env, db: Db, year: int, fund: int, department: int, account: int, amount: int)
    requires Inv(env, db) && CreateBudget(db, year, fund, department, account, amount).Ok?
    ensures Inv(env, CreateBudget(db, year, fund, department, account, amount).value)
  {
    var next := CreateBudget(db, year, fund, department, account, amount).value;
    var n := |db.budgets|;
    forall i | 0 <= i <= n
      ensures BudgetOk(env, next, i)
    {
      if i < n {
        assert BudgetOk(env, db, i);
      } else {
        NothingReserved(db.encumbrances, n);
      }
    }
    forall i | 0 <= i < n
      ensures !Covers(next.budgets[n], next.budgets[i].year, next.budgets[i].fund, next.budgets[i].department,
        next.budgets[i].account)
    {
      assert db.budgets[i] in db.budgets;
    }
    SameEntries(db, next);
  }

  lemma {:induction false} NothingReserved(encumbrances: seq<Encumbrance>, i: nat)
    requires forall e | 0 <= e < |encumbrances| :: encumbrances[e].budget < i
    ensures OpenSum(encumbrances, i) == 0
  {
    if encumbrances == [] {
    } else {
      NothingReserved(encumbrances[..|encumbrances| - 1], i);
    }
  }

  lemma SameEntries(db: Db, next: Db)
    requires EntriesOk(db) && next.entries == db.entries && |next.periods| >= |db.periods|
    ensures EntriesOk(next)
  {
    forall k | 0 <= k < |next.entries|
      ensures EntryOk(next, k)
    {
      assert EntryOk(db, k);
    }
  }

  /** Change what is reserved on one budget along with the encumbrances that say so. */
  lemma ReservingKeeps(env: Env, db: Db, next: Db, i: nat, change: int)
    requires Inv(env, db) && i < |db.budgets|
    requires next == db.(budgets := db.budgets[i := db.budgets[i].(encumbered := db.budgets[i].encumbered + change)],
      encumbrances := next.encumbrances)
    requires forall j: nat ::
      OpenSum(next.encumbrances, j) == OpenSum(db.encumbrances, j) + if j == i then change else 0
    requires EncumbrancesOk(next)
    requires db.budgets[i].encumbered + change >= 0 && Available(db.budgets[i]) >= change
    ensures Inv(env, next)
  {
    EntriesHavePeriods(db);
    forall j | 0 <= j < |db.budgets|
      ensures BudgetOk(env, next, j)
    {
      assert BudgetOk(env, db, j);
      PostedSame(env, db.periods, db.periods, db.budgets[j], next.budgets[j], db.entries);
    }
    SameEntries(db, next);
  }

  lemma ApproveKeeps(env: Env, db: Db, year: int, fund: int, department: int, account: int, amount: int)
    requires Inv(env, db) && Approve(db, year, fund, department, account, amount).Ok?
    ensures Inv(env, Approve(db, year, fund, department, account, amount).value)
  {
    var next := Approve(db, year, fund, department, account, amount).value;
    var i := FindBudget(db.budgets, year, fund, department, account).value;
    assert next.encumbrances[..|db.encumbrances|] == db.encumbrances;
    assert BudgetOk(env, db, i);
    ReservingKeeps(env, db, next, i, amount);
  }

  lemma CancelKeeps(env: Env, db: Db, enc: nat)
    requires Inv(env, db) && Cancel(db, enc).Ok?
    ensures Inv(env, Cancel(db, enc).value)
  {
    var next := Cancel(db, enc).value;
    var i, amount := db.encumbrances[enc].budget, db.encumbrances[enc].amount;
    forall j: nat
      ensures OpenSum(next.encumbrances, j) == OpenSum(db.encumbrances, j) + if j == i then -amount else 0
    {
      OpenSumUpdate(db.encumbrances, enc, Cancelled, j);
    }
    assert BudgetOk(env, db, i);
    assert EncumbrancesOk(next);
    ReservingKeeps(env, db, next, i, -amount);
  }

  // ---- Periods

  /** Periods may be added, closed and reopened without touching any sum. */
  lemma PeriodKeeps(env: Env, db: Db, next: Db)
    requires Inv(env, db)
    requires next == db.(periods := next.periods, audit := next.audit)
    requires |db.periods| <= |next.periods| && forall p | 0 <= p < |db.periods| ::
      next.periods[p].year == db.periods[p].year
    requires PeriodsOk(next)
    ensures Inv(env, next)
  {
    EntriesHavePeriods(db);
    forall i | 0 <= i < |db.budgets|
      ensures BudgetOk(env, next, i)
    {
      assert BudgetOk(env, db, i);
      PostedSame(env, db.periods, next.periods, db.budgets[i], db.budgets[i], db.entries);
    }
    SameEntries(db, next);
  }

  lemma AuditStep(audit: seq<(nat, AuditAction)>, period: nat, action: AuditAction)
    ensures forall p: nat ::
      LastAction(audit + [(period, action)], p) == if p == period then Some(action) else LastAction(audit, p)
  {
    var longer := audit + [(period, action)];
    assert longer[..|longer| - 1] == audit;
  }

  lemma FlipKeeps(env: Env, db: Db, op: Op)
    requires Inv(env, db) && (op.DoClose? || op.DoReopen?) && Attempt(env, db, op).Ok?
    ensures Inv(env, Step(env, db, op))
  {
    AuditStep(db.audit, op.period, if op.DoClose? then ClosePeriod else ReopenPeriod);
    PeriodKeeps(env, db, Step(env, db, op));
  }

  // ---- Runs

  lemma StepKeeps(env: Env, db: Db, op: Op)
    requires Inv(env, db)
    ensures Inv(env, Step(env, db, op))
  {
    if Attempt(env, db, op).Ok? {
      match op
      case DoPost(p) => PostKeeps(env, db, p, None);
      case DoReverse(original, key, period, memo) =>
        if FindKey(db.entries, key).None? {
          PostKeeps(env, db, ReversalPayload(env, db, original, key, period, memo), Some(original));
        }
      case DoBudget(year, fund, department, account, amount) =>
        CreateBudgetKeeps(env, db, year, fund, department, account, amount);
      case DoApprove(year, fund, department, account, amount) =>
        ApproveKeeps(env, db, year, fund, department, account, amount);
      case DoCancel(enc) => CancelKeeps(env, db, enc);
      case DoPeriod(year, month) => PeriodKeeps(env, db, Step(env, db, op));
      case DoClose(_) => FlipKeeps(env, db, op);
      case DoReopen(_) => FlipKeeps(env, db, op);
    }
  }

  lemma {:induction false} RunKeeps(env: Env, db: Db, ops: seq<Op>)
    requires Inv(env, db)
    ensures Inv(env, Run(env, db, ops))
    decreases |ops|
  {
    if ops == [] {
    } else {
      StepKeeps(env, db, ops[0]);
      RunKeeps(env, Step(env, db, ops[0]), ops[1..]);
    }
  }

  /** Reached from empty tables by any operations. */
  ghost predicate Reached(env: Env, db: Db) {
    exists ops :: db == Run(env, Db([], [], [], [], []), ops)
  }

  lemma ReachedInv(env: Env, db: Db)
    requires Reached(env, db)
    ensures Inv(env, db) && Linked(db)
  {
    var ops :| db == Run(env, Db([], [], [], [], []), ops);
    EmptyInv(env);
    RunKeeps(env, Db([], [], [], [], []), ops);
  }
}
