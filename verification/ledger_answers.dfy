/** What each ledger operation accepts, and what it leaves in the tables. */
module LedgerAnswers {
  import opened Wrappers
  import opened Ledger
  import opened LedgerSafety
  import opened LedgerTheorems

  // ---- What budgets count

  /** A budget of an expense account counts the net debit on its own dimensions; any other counts nothing. */
  lemma {:induction false} DeltaIsNet(env: Env, b: Budget, lines: seq<Line>)
    ensures Delta(env, b, lines) == if b.account in env.accounts && env.accounts[b.account]
      then Net(lines, b.fund, b.department, b.account) else 0
  {
    if lines == [] {
    } else {
      DeltaIsNet(env, b, lines[..|lines| - 1]);
    }
  }

  // ---- Posting

  /** The entry releases an open encumbrance of just the amount it puts on its budget. */
  ghost predicate Pays(env: Env, db: Db, year: int, lines: seq<Line>, e: nat) {
    && e < |db.encumbrances| && db.encumbrances[e].status.Open? && db.encumbrances[e].budget < |db.budgets|
    && YearDelta(env, db.budgets[db.encumbrances[e].budget], year, lines) == db.encumbrances[e].amount
  }

  /** The budget has room for the lines, counting what the entry releases on it. */
  ghost predicate HasRoom(env: Env, b: Budget, year: int, lines: seq<Line>, released: int) {
    var change := YearDelta(env, b, year, lines);
    b.actual + change >= 0 && Available(b) + released >= change
  }

  ghost predicate Postable(env: Env, db: Db, p: Payload) {
    && p.period < |db.periods| && !db.periods[p.period].closed && RefsOk(env, p.lines) && Balanced(p.lines)
    && var year := db.periods[p.period].year;
       && (p.encumbrance.Some? ==> Pays(env, db, year, p.lines, p.encumbrance.value))
       && forall i | 0 <= i < |db.budgets| ::
         HasRoom(env, db.budgets[i], year, p.lines, ReleasedOn(db.encumbrances, p.encumbrance, i))
  }

  /** The payload's entry is added, each budget of its year takes its lines, and its encumbrance is liquidated by it. */
  ghost predicate Takes(env: Env, db: Db, p: Payload, after: Db)
    requires p.period < |db.periods|
  {
    && after.entries == db.entries + [Entry(p.key, env.hash(p), p.period, p.memo, p.lines, None)]
    && after.periods == db.periods && after.audit == db.audit && |after.budgets| == |db.budgets|
    && (forall i | 0 <= i < |db.budgets| ::
         var released := ReleasedOn(db.encumbrances, p.encumbrance, i);
         after.budgets[i] == db.budgets[i].(encumbered := db.budgets[i].encumbered - released,
           actual := db.budgets[i].actual + YearDelta(env, db.budgets[i], db.periods[p.period].year, p.lines)))
    && |after.encumbrances| == |db.encumbrances|
    && (forall e | 0 <= e < |db.encumbrances| ::
         after.encumbrances[e] == if p.encumbrance == Some(e)
           then db.encumbrances[e].(status := Liquidated(|db.entries|)) else db.encumbrances[e])
  }

  lemma {:induction false} OpenAtMost(encumbrances: seq<Encumbrance>, e: nat)
    requires e < |encumbrances| && encumbrances[e].status.Open?
    requires forall k | 0 <= k < |encumbrances| :: encumbrances[k].amount > 0
    ensures encumbrances[e].amount <= OpenSum(encumbrances, encumbrances[e].budget)
  {
    var last := |encumbrances| - 1;
    if e < last {
      OpenAtMost(encumbrances[..last], e);
    } else {
      OpenNonNegative(encumbrances[..last], encumbrances[e].budget);
    }
  }

  lemma {:induction false} OpenNonNegative(encumbrances: seq<Encumbrance>, i: nat)
    requires forall k | 0 <= k < |encumbrances| :: encumbrances[k].amount > 0
    ensures OpenSum(encumbrances, i) >= 0
  {
    if encumbrances == [] {
    } else {
      OpenNonNegative(encumbrances[..|encumbrances| - 1], i);
    }
  }

  /** What is released on a budget is reserved there. */
  lemma ReleasedAtMost(env: Env, db: Db, enc: Option<nat>, i: nat)
    requires Inv(env, db) && i < |db.budgets|
    requires enc.Some? ==> enc.value < |db.encumbrances| && db.encumbrances[enc.value].status.Open?
    ensures ReleasedOn(db.encumbrances, enc, i) <= db.budgets[i].encumbered
  {
    assert BudgetOk(env, db, i);
    if enc.Some? && db.encumbrances[enc.value].budget == i {
      OpenAtMost(db.encumbrances, enc.value);
    }
  }

  lemma EffectsIff(env: Env, db: Db, year: int, lines: seq<Line>, enc: Option<nat>)
    requires EncRow(db, enc)
    requires forall i | 0 <= i < |db.budgets| :: ReleasedOn(db.encumbrances, enc, i) <= db.budgets[i].encumbered
    ensures Effects(env, db, year, lines, enc).Ok? <==>
      && (enc.Some? ==> !MismatchedAmount(env, db, year, lines, enc.value))
      && forall i | 0 <= i < |db.budgets| ::
        HasRoom(env, db.budgets[i], year, lines, ReleasedOn(db.encumbrances, enc, i))
    ensures Effects(env, db, year, lines, enc).Ok? ==>
      Effects(env, db, year, lines, enc).value == AffectedAll(env, db, year, lines, enc)
  {
    var after := AffectedAll(env, db, year, lines, enc);
    forall i | 0 <= i < |db.budgets|
      ensures HasRoom(env, db.budgets[i], year, lines, ReleasedOn(db.encumbrances, enc, i))
         <==> !Exceeded(after[i]) && after[i].actual >= 0
    {
    }
  }

  /**
   An entry with a new key is posted exactly if it is balanced, in an open period, on known dimensions,
   pays an open encumbrance in full if it names one, and finds room in every budget.
   */
  lemma PostIff(env: Env, db: Db, p: Payload)
    requires Inv(env, db) && FindKey(db.entries, p.key).None?
    ensures var r := Post(env, db, p, None);
            && (r.Ok? <==> Postable(env, db, p))
            && (r.Ok? ==> r.value.entry == |db.entries| && !r.value.replayed && Takes(env, db, p, r.value.db))
  {
    if Refusal(env, db, p, None).None? || Postable(env, db, p) {
      forall i | 0 <= i < |db.budgets|
        ensures ReleasedOn(db.encumbrances, p.encumbrance, i) <= db.budgets[i].encumbered
      {
        ReleasedAtMost(env, db, p.encumbrance, i);
      }
      EffectsIff(env, db, db.periods[p.period].year, p.lines, p.encumbrance);
    }
    RefusalIff(env, db, p);
  }

  lemma RefusalIff(env: Env, db: Db, p: Payload)
    ensures Refusal(env, db, p, None).None? <==>
      && p.period < |db.periods| && !db.periods[p.period].closed && RefsOk(env, p.lines) && Balanced(p.lines)
      && (p.encumbrance.Some? ==>
           p.encumbrance.value < |db.encumbrances| && db.encumbrances[p.encumbrance.value].status.Open?)
  {
    if LinesOk(p.lines) {
      LinesBalance(p.lines);
    }
  }

  // ---- Encumbrances

  ghost predicate Named(db: Db, i: nat, year: int, fund: int, department: int, account: int) {
    i < |db.budgets| && Covers(db.budgets[i], year, fund, department, account)
  }

  lemma OneNamed(db: Db, i: nat, j: nat, year: int, fund: int, department: int, account: int)
    requires BudgetsDistinct(db.budgets)
    requires Named(db, i, year, fund, department, account) && Named(db, j, year, fund, department, account)
    ensures i == j
  {
  }

  /** An approval is accepted exactly for a positive amount its budget has available. */
  lemma ApproveIff(env: Env, db: Db, year: int, fund: int, department: int, account: int, amount: int)
    requires Inv(env, db)
    ensures Approve(db, year, fund, department, account, amount).Ok? <==>
      exists i: nat :: Named(db, i, year, fund, department, account) && 0 < amount <= Available(db.budgets[i])
  {
    var found := FindBudget(db.budgets, year, fund, department, account);
    if i: nat :| Named(db, i, year, fund, department, account) && 0 < amount <= Available(db.budgets[i]) {
      assert db.budgets[i] in db.budgets;
      OneNamed(db, i, found.value, year, fund, department, account);
    }
    if Approve(db, year, fund, department, account, amount).Ok? {
      assert Named(db, found.value, year, fund, department, account);
    }
  }

  /** It adds one open encumbrance of the amount, and lowers what its budget has available by just that. */
  lemma ApproveReserves(env: Env, db: Db, year: int, fund: int, department: int, account: int, amount: int, i: nat)
    requires Inv(env, db) && Named(db, i, year, fund, department, account)
    requires Approve(db, year, fund, department, account, amount).Ok?
    ensures var after := Approve(db, year, fund, department, account, amount).value;
            && after == db.(budgets := after.budgets, encumbrances := db.encumbrances + [Encumbrance(i, amount, Open)])
            && |after.budgets| == |db.budgets|
            && Available(after.budgets[i]) == Available(db.budgets[i]) - amount
            && after.budgets[i].actual == db.budgets[i].actual && after.budgets[i].amount == db.budgets[i].amount
            && forall j | 0 <= j < |db.budgets| && j != i :: after.budgets[j] == db.budgets[j]
  {
    OneNamed(db, i, FindBudget(db.budgets, year, fund, department, account).value, year, fund, department,
      account);
  }

  /** A cancellation is accepted exactly for an open encumbrance, and gives its amount back to its budget. */
  lemma CancelIff(env: Env, db: Db, e: nat)
    requires Inv(env, db)
    ensures Cancel(db, e).Ok? <==> e < |db.encumbrances| && db.encumbrances[e].status.Open?
    ensures Cancel(db, e).Ok? ==>
              var after, enc := Cancel(db, e).value, db.encumbrances[e];
              && after == db.(budgets := after.budgets, encumbrances := db.encumbrances[e := enc.(status := Cancelled)])
              && |after.budgets| == |db.budgets|
              && Available(after.budgets[enc.budget]) == Available(db.budgets[enc.budget]) + enc.amount
              && after.budgets[enc.budget].actual == db.budgets[enc.budget].actual
              && forall j | 0 <= j < |db.budgets| && j != enc.budget :: after.budgets[j] == db.budgets[j]
  {
    if e < |db.encumbrances| && db.encumbrances[e].status.Open? {
      ReleasedAtMost(env, db, Some(e), db.encumbrances[e].budget);
    }
  }

  // ---- Budgets and periods

  /** A budget is made exactly once for its year and dimensions, with nothing spent or reserved. */
  lemma CreateBudgetIff(db: Db, year: int, fund: int, department: int, account: int, amount: int)
    ensures var r := CreateBudget(db, year, fund, department, account, amount);
            && (r.Ok? <==> amount >= 0 && !exists i: nat :: Named(db, i, year, fund, department, account))
            && (r.Ok? ==> r.value == db.(budgets := db.budgets + [r.value.budgets[|db.budgets|]])
                          && Named(r.value, |db.budgets|, year, fund, department, account)
                          && r.value.budgets[|db.budgets|].encumbered == r.value.budgets[|db.budgets|].actual == 0
                          && Available(r.value.budgets[|db.budgets|]) == amount)
  {
    var found := FindBudget(db.budgets, year, fund, department, account);
    if found.Some? {
      assert Named(db, found.value, year, fund, department, account);
    } else {
      assert forall i | 0 <= i < |db.budgets| :: db.budgets[i] in db.budgets;
    }
  }

  /** A period is made exactly once for its year and month, and is open. */
  lemma CreatePeriodIff(db: Db, year: int, month: int)
    ensures CreatePeriod(db, year, month).Ok? <==>
      forall p | 0 <= p < |db.periods| :: db.periods[p].year != year || db.periods[p].month != month
    ensures CreatePeriod(db, year, month).Ok? ==>
      CreatePeriod(db, year, month).value == db.(periods := db.periods + [Period(year, month, false)])
  {
    assert forall p | 0 <= p < |db.periods| :: db.periods[p] in db.periods;
  }

  /** A period closes exactly if it is open and opens exactly if it is closed; only the audit trail changes with it. */
  lemma FlipIff(db: Db, period: nat)
    ensures Close(db, period).Ok? <==> period < |db.periods| && !db.periods[period].closed
    ensures Reopen(db, period).Ok? <==> period < |db.periods| && db.periods[period].closed
    ensures Close(db, period).Ok? ==> Flipped(db, Close(db, period).value, period, true)
    ensures Reopen(db, period).Ok? ==> Flipped(db, Reopen(db, period).value, period, false)
  {
  }

  ghost predicate Flipped(db: Db, after: Db, period: nat, closed: bool) {
    && after == db.(periods := after.periods, audit := after.audit) && |after.periods| == |db.periods|
    && (forall p | 0 <= p < |db.periods| ::
         after.periods[p] == if p == period then db.periods[p].(closed := closed) else db.periods[p])
    && |after.audit| == |db.audit| + 1 && after.audit[..|db.audit|] == db.audit
  }
}
