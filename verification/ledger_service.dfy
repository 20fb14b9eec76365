/** The ledger tables as the service updates them, a transaction at a time. */
module LedgerServices {
  import opened Wrappers
  import opened Ledger
  import opened LedgerSafety

  class LedgerStore {
    const env: Env
    var periods: seq<Period>
    var audit: seq<(nat, AuditAction)>
    var entries: seq<Entry>
    var budgets: seq<Budget>
    var encumbrances: seq<Encumbrance>

    constructor (env: Env)
      ensures this.env == env && State() == Db([], [], [], [], []) && Valid()
    {
      this.env := env;
      periods, audit, entries, budgets, encumbrances := [], [], [], [], [];
      new;
      EmptyInv(env);
    }

    function State(): Db
      reads this
    {
      Db(periods, audit, entries, budgets, encumbrances)
    }

    ghost predicate Valid()
      reads this
    {
      Linked(State()) && Inv(env, State())
    }

    /** Add up what the lines do to each budget they fall on. */
    method CollectDeltas(year: int, lines: seq<Line>) returns (deltas: map<nat, int>)
      requires BudgetsDistinct(budgets)
      ensures forall i | i in deltas :: i < |budgets|
      ensures forall i | 0 <= i < |budgets| :: YearDelta(env, budgets[i], year, lines) == Found(deltas, i)
    {
      deltas := map[];
      var k := 0;
      while k < |lines|
        invariant 0 <= k <= |lines|
        invariant forall i | i in deltas :: i < |budgets|
        invariant forall i | 0 <= i < |budgets| :: YearDelta(env, budgets[i], year, lines[..k]) == Found(deltas, i)
      {
        var l := lines[k];
        assert lines[..k + 1][..k] == lines[..k];
        ghost var before := deltas;
        if l.account in env.accounts && env.accounts[l.account] {
          var found := FindBudget(budgets, year, l.fund, l.department, l.account);
          if found.Some? {
            deltas := deltas[found.value := Found(deltas, found.value) + l.debit - l.credit];
          }
          OneBudget(budgets, year, l, found);
        }
        k := k + 1;
      }
      assert lines[..k] == lines;
    }

    lemma OneBudget(budgets: seq<Budget>, year: int, l: Line, found: Option<nat>)
      requires BudgetsDistinct(budgets)
      requires found == FindBudget(budgets, year, l.fund, l.department, l.account)
      ensures forall i | 0 <= i < |budgets| ::
        Covers(budgets[i], year, l.fund, l.department, l.account) <==> found == Some(i)
    {
      forall i | 0 <= i < |budgets|
        ensures Covers(budgets[i], year, l.fund, l.department, l.account) <==> found == Some(i)
      {
        assert budgets[i] in budgets;
      }
    }

    /** Apply actual amounts, and release the encumbrance, on the budgets touched; nothing is kept after an error. */
    method ApplyBudgetEffects(year: int, lines: seq<Line>, enc: Option<nat>) returns (r: Option<Error>)
      requires BudgetsDistinct(budgets) && ChecksHold(budgets) && EncRow(State(), enc)
      modifies this`budgets
      ensures match Effects(env, old(State()), year, lines, enc)
              case Ok(after) => r.None? && budgets == after
              case Err(e) => r == Some(e)
    {
      ghost var db := State();
      var collected := CollectDeltas(year, lines);
      var deltas := ReleaseEncumbrance(collected, enc);
      if deltas.None? {
        return Some(AmountMismatch);
      }
      DeltasApply(env, db, year, lines, enc, collected, deltas.value, budgets);
      ghost var after := AffectedAll(env, db, year, lines, enc);
      var exceeded, negative := ApplyDeltas(deltas.value, after);
      EffectsAre(env, db, year, lines, enc, exceeded, negative);
      r := if exceeded then Some(BudgetExceeded) else if negative then Some(IntegrityError) else None;
    }

    /** Take an encumbrance off its budget, if the lines there come to its amount. */
    method ReleaseEncumbrance(collected: map<nat, int>, enc: Option<nat>) returns (deltas: Option<map<nat, int>>)
      requires EncRow(State(), enc)
      modifies this`budgets
      ensures enc.None? ==> deltas == Some(collected) && budgets == old(budgets)
      ensures enc.Some? ==>
        (deltas.None? <==> Found(collected, encumbrances[enc.value].budget) != encumbrances[enc.value].amount)
      ensures enc.Some? && deltas.Some? ==>
                var e := encumbrances[enc.value];
                && deltas.value == collected[e.budget := Found(collected, e.budget)]
                && budgets == Unreserved(old(budgets), e)
    {
      if enc.None? {
        return Some(collected);
      }
      var e := encumbrances[enc.value];
      if Found(collected, e.budget) != e.amount {
        return None;
      }
      budgets := budgets[e.budget := budgets[e.budget].(encumbered := budgets[e.budget].encumbered - e.amount)];
      deltas := Some(collected[e.budget := Found(collected, e.budget)]);
    }

    /** Add each delta to its budget's actual amount, and see whether a limit or a check is broken. */
    method ApplyDeltas(deltas: map<nat, int>, ghost after: seq<Budget>) returns (exceeded: bool, negative: bool)
      requires Applies(budgets, deltas, after)
      modifies this`budgets
      ensures budgets == after
      ensures exceeded <==> exists j :: 0 <= j < |after| && Exceeded(after[j])
      ensures negative <==> exists j :: 0 <= j < |after| && after[j].actual < 0
    {
      exceeded, negative := false, false;
      var i := 0;
      while i < |budgets|
        invariant 0 <= i <= |budgets| == |after|
        invariant forall j | 0 <= j < i :: budgets[j] == after[j]
        invariant forall j | i <= j < |budgets| ::
          after[j] == budgets[j].(actual := budgets[j].actual + if j in deltas then deltas[j] else 0)
        invariant exceeded <==> exists j :: 0 <= j < i && Exceeded(after[j])
        invariant negative <==> exists j :: 0 <= j < i && after[j].actual < 0
      {
        if i in deltas {
          budgets := budgets[i := budgets[i].(actual := budgets[i].actual + deltas[i])];
          exceeded := exceeded || Exceeded(budgets[i]);
          negative := negative || budgets[i].actual < 0;
        }
        i := i + 1;
      }
    }

    /** Post once per key. */
    method PostJournal(p: Payload, reversalOf: Option<nat>) returns (r: Result<(nat, bool), Error>)
      requires Valid()
      modifies this
      ensures match Post(env, old(State()), p, reversalOf)
              case Ok(c) => r == Ok((c.entry, c.replayed)) && State() == c.db
              case Err(e) => r == Err(e) && State() == old(State())
    {
      var existing := FindKey(entries, p.key);
      if existing.Some? {
        return if entries[existing.value].hash == env.hash(p) then Ok((existing.value, true)) else Err(KeyConflict);
      }
      var refusal := Refusal(env, State(), p, reversalOf);
      if refusal.Some? {
        return Err(refusal.value);
      }
      var before := budgets;
      InvChecks(env, State());
      var failed := ApplyBudgetEffects(periods[p.period].year, p.lines, p.encumbrance);
      if failed.Some? {
        budgets := before;
        return Err(failed.value);
      }
      var entry := |entries|;
      entries := entries + [NewEntry(env, p, reversalOf)];
      if p.encumbrance.Some? {
        var e := p.encumbrance.value;
        encumbrances := encumbrances[e := encumbrances[e].(status := Liquidated(entry))];
      }
      r := Ok((entry, false));
    }

    method PostEntry(p: Payload) returns (r: Result<(nat, bool), Error>)
      requires Valid()
      modifies this
      ensures Valid() && State() == Step(env, old(State()), DoPost(p))
      ensures match Post(env, old(State()), p, None)
              case Ok(c) => r == Ok((c.entry, c.replayed))
              case Err(e) => r == Err(e)
    {
      StepKeeps(env, State(), DoPost(p));
      r := PostJournal(p, None);
    }

    method ReverseEntry(original: nat, key: string, period: nat, memo: string) returns (r: Result<(nat, bool), Error>)
      requires Valid()
      modifies this
      ensures Valid() && State() == Step(env, old(State()), DoReverse(original, key, period, memo))
      ensures match Reverse(env, old(State()), original, key, period, memo)
              case Ok(c) => r == Ok((c.entry, c.replayed))
              case Err(e) => r == Err(e)
    {
      StepKeeps(env, State(), DoReverse(original, key, period, memo));
      if original >= |entries| {
        return Err(EntryNotFound);
      }
      var p := ReversalPayload(env, State(), original, key, period, memo);
      var existing := FindKey(entries, key);
      if existing.Some? {
        return if entries[existing.value].hash == env.hash(p) then Ok((existing.value, true)) else Err(KeyConflict);
      }
      if Reversed(entries, original) {
        return Err(AlreadyReversed);
      }
      r := PostJournal(p, Some(original));
    }

    method ApproveEncumbrance(year: int, fund: int, department: int, account: int,
        amount: int) returns (r: Option<Error>)
      requires Valid()
      modifies this
      ensures Valid() && State() == Step(env, old(State()), DoApprove(year, fund, department, account, amount))
      ensures r == Failure(Approve(old(State()), year, fund, department, account, amount))
    {
      StepKeeps(env, State(), DoApprove(year, fund, department, account, amount));
      var found := FindBudget(budgets, year, fund, department, account);
      if found.None? {
        return Some(BudgetNotFound);
      }
      var i := found.value;
      if Available(budgets[i]) < amount {
        return Some(BudgetExceeded);
      }
      if amount <= 0 {
        return Some(IntegrityError);
      }
      budgets := budgets[i := budgets[i].(encumbered := budgets[i].encumbered + amount)];
      encumbrances := encumbrances + [Encumbrance(i, amount, Open)];
      r := None;
    }

    method CancelEncumbrance(enc: nat) returns (r: Option<Error>)
      requires Valid()
      modifies this
      ensures Valid() && State() == Step(env, old(State()), DoCancel(enc))
      ensures r == Failure(Cancel(old(State()), enc))
    {
      StepKeeps(env, State(), DoCancel(enc));
      if enc >= |encumbrances| {
        return Some(EncumbranceNotFound);
      }
      if !encumbrances[enc].status.Open? {
        return Some(EncumbranceNotOpen);
      }
      var i := encumbrances[enc].budget;
      var left := budgets[i].encumbered - encumbrances[enc].amount;
      if left < 0 {
        return Some(IntegrityError);
      }
      budgets := budgets[i := budgets[i].(encumbered := left)];
      encumbrances := encumbrances[enc := encumbrances[enc].(status := Cancelled)];
      r := None;
    }

    method ClosePeriod(period: nat) returns (r: Option<Error>)
      requires Valid()
      modifies this
      ensures Valid() && State() == Step(env, old(State()), DoClose(period))
      ensures r == Failure(Close(old(State()), period))
    {
      StepKeeps(env, State(), DoClose(period));
      if period >= |periods| {
        return Some(PeriodNotFound);
      }
      if periods[period].closed {
        return Some(PeriodAlreadyClosed);
      }
      periods := periods[period := periods[period].(closed := true)];
      audit := audit + [(period, AuditAction.ClosePeriod)];
      r := None;
    }

    method ReopenPeriod(period: nat) returns (r: Option<Error>)
      requires Valid()
      modifies this
      ensures Valid() && State() == Step(env, old(State()), DoReopen(period))
      ensures r == Failure(Reopen(old(State()), period))
    {
      StepKeeps(env, State(), DoReopen(period));
      if period >= |periods| {
        return Some(PeriodNotFound);
      }
      if !periods[period].closed {
        return Some(PeriodNotClosed);
      }
      periods := periods[period := periods[period].(closed := false)];
      audit := audit + [(period, AuditAction.ReopenPeriod)];
      r := None;
    }
  }

  /** Adding the deltas to the budgets gives `after`, and budgets without one pass the checks. */
  ghost predicate Applies(budgets: seq<Budget>, deltas: map<nat, int>, after: seq<Budget>) {
    && |after| == |budgets|
    && (forall j | 0 <= j < |budgets| ::
      after[j] == budgets[j].(actual := budgets[j].actual + if j in deltas then deltas[j] else 0))
    && (forall j | 0 <= j < |budgets| && j !in deltas :: !Exceeded(after[j]) && after[j].actual >= 0)
  }

  /** What has been collected, once the encumbrance is released and its budget is among those touched. */
  lemma DeltasApply(env: Env, db: Db, year: int, lines: seq<Line>, enc: Option<nat>,
                    collected: map<nat, int>, deltas: map<nat, int>, budgets: seq<Budget>)
    requires ChecksHold(db.budgets) && EncRow(db, enc)
    requires forall i | 0 <= i < |db.budgets| :: YearDelta(env, db.budgets[i], year, lines) == Found(collected, i)
    requires enc.None? ==> deltas == collected && budgets == db.budgets
    requires enc.Some? ==>
               var e := db.encumbrances[enc.value];
               && deltas == collected[e.budget := Found(collected, e.budget)]
               && budgets == Unreserved(db.budgets, e)
    ensures Applies(budgets, deltas, AffectedAll(env, db, year, lines, enc))
  {
  }

  /** The budgets with an encumbrance taken off its own. */
  function Unreserved(budgets: seq<Budget>, e: Encumbrance): seq<Budget>
    requires e.budget < |budgets|
  {
    var b := budgets[e.budget];
    budgets[e.budget := b.(encumbered := b.encumbered - e.amount)]
  }

  function Found(deltas: map<nat, int>, i: nat): int {
    if i in deltas then deltas[i] else 0
  }

  lemma EffectsAre(env: Env, db: Db, year: int, lines: seq<Line>, enc: Option<nat>, exceeded: bool, negative: bool)
    requires EncRow(db, enc)
    requires enc.Some? ==>
               YearDelta(env, db.budgets[db.encumbrances[enc.value].budget], year, lines) ==
                 db.encumbrances[enc.value].amount
    requires exceeded <==> exists j :: 0 <= j < |db.budgets| && Exceeded(AffectedAll(env, db, year, lines, enc)[j])
    requires negative <==> exists j :: 0 <= j < |db.budgets| && AffectedAll(env, db, year, lines, enc)[j].actual < 0
    ensures Effects(env, db, year, lines, enc) ==
      if exceeded then Err(BudgetExceeded) else if negative then Err(IntegrityError)
        else Ok(AffectedAll(env, db, year, lines, enc))
  {
  }

  /** The table's checks on budgets. */
  ghost predicate ChecksHold(budgets: seq<Budget>) {
    forall i | 0 <= i < |budgets| :: !Exceeded(budgets[i]) && budgets[i].actual >= 0
  }

  lemma InvChecks(env: Env, db: Db)
    requires Inv(env, db)
    ensures ChecksHold(db.budgets)
  {
    forall i | 0 <= i < |db.budgets|
      ensures !Exceeded(db.budgets[i]) && db.budgets[i].actual >= 0
    {
      assert BudgetOk(env, db, i);
    }
  }
}
