/** Budgets, encumbrances and journal entries: what one transaction does to the tables. */
module Ledger {
  import opened Wrappers

  /** A journal line of whole cents. */
  datatype Line = Line(fund: int, department: int, account: int, debit: int, credit: int)

  datatype Payload = Payload(key: string, period: nat, memo: string, encumbrance: Option<nat>, lines: seq<Line>)

  datatype Entry = Entry(key: string, hash: string, period: nat, memo: string, lines: seq<Line>,
    reversalOf: Option<nat>)

  datatype Period = Period(year: int, month: int, closed: bool)
  datatype AuditAction = ClosePeriod | ReopenPeriod

  /** `since` is how many entries had been posted when the budget was made. */
  datatype Budget = Budget(year: int, fund: int, department: int, account: int, amount: int, encumbered: int,
    actual: int, since: nat)

  datatype EncStatus = Open | Liquidated(entry: nat) | Cancelled
  datatype Encumbrance = Encumbrance(budget: nat, amount: int, status: EncStatus)

  /** Rows are numbered in the order they were inserted. */
  datatype Db = Db(periods: seq<Period>, audit: seq<(nat, AuditAction)>, entries: seq<Entry>, budgets: seq<Budget>,
    encumbrances: seq<Encumbrance>)

  /**
   Reference data, with accounts marked when they are expenses; the payload digest; the memo a reversal
   gets by default.
   */
  datatype Env = Env(funds: set<int>, departments: set<int>, accounts: map<int, bool>, hash: Payload -> string,
    defaultMemo: nat -> string)

  datatype Error =
    | KeyConflict | PeriodNotFound | PeriodIsClosed | InvalidReference | Unbalanced | EncumbranceNotFound
    | EncumbranceNotOpen | AmountMismatch | BudgetExceeded | IntegrityError | EntryNotFound | AlreadyReversed
    | BudgetNotFound | BudgetExists
    | PeriodAlreadyClosed | PeriodNotClosed | PeriodExists

  // ---- Sums

  function Debits(lines: seq<Line>): int {
    if lines == [] then 0 else Debits(lines[..|lines| - 1]) + lines[|lines| - 1].debit
  }

  function Credits(lines: seq<Line>): int {
    if lines == [] then 0 else Credits(lines[..|lines| - 1]) + lines[|lines| - 1].credit
  }

  /** The line falls on the budget's fund, department and account, and the account is an expense. */
  predicate OnBudget(env: Env, b: Budget, l: Line) {
    l.fund == b.fund && l.department == b.department && l.account == b.account && l.account in env.accounts
      && env.accounts[l.account]
  }

  /** The net debit of the lines on a budget. */
  function Delta(env: Env, b: Budget, lines: seq<Line>): int {
    if lines == [] then 0
    else
      var l := lines[|lines| - 1];
      Delta(env, b, lines[..|lines| - 1]) + if OnBudget(env, b, l) then l.debit - l.credit else 0
  }

  /** The lines count only towards budgets of the entry's fiscal year. */
  function YearDelta(env: Env, b: Budget, year: int, lines: seq<Line>): int {
    if b.year == year then Delta(env, b, lines) else 0
  }

  // ---- Posting

  function FindKey(entries: seq<Entry>, key: string): (r: Option<nat>)
    ensures r.Some? ==> r.value < |entries| && entries[r.value].key == key
    ensures r.None? ==> forall e | e in entries :: e.key != key
  {
    if entries == [] then None
    else if entries[|entries| - 1].key == key then Some(|entries| - 1)
    else FindKey(entries[..|entries| - 1], key)
  }

  predicate RefsOk(env: Env, lines: seq<Line>) {
    forall l | l in lines :: l.fund in env.funds && l.department in env.departments && l.account in env.accounts
  }

  /** The table's checks on a line. */
  predicate LineOk(l: Line) {
    l.debit >= 0 && l.credit >= 0 && (l.debit > 0) != (l.credit > 0)
  }

  predicate LinesOk(lines: seq<Line>) {
    forall l | l in lines :: LineOk(l)
  }

  function Available(b: Budget): int {
    b.amount - b.encumbered - b.actual
  }

  /** A budget after an entry, which may release an encumbrance on it. */
  function Affected(env: Env, b: Budget, year: int, lines: seq<Line>, released: int): Budget {
    b.(actual := b.actual + YearDelta(env, b, year, lines), encumbered := b.encumbered - released)
  }

  function ReleasedOn(encumbrances: seq<Encumbrance>, enc: Option<nat>, i: nat): int {
    if enc.Some? && enc.value < |encumbrances| && encumbrances[enc.value].budget == i then
      encumbrances[enc.value].amount else 0
  }

  function AffectedAll(env: Env, db: Db, year: int, lines: seq<Line>, enc: Option<nat>): (r: seq<Budget>)
    ensures |r| == |db.budgets|
    ensures forall i | 0 <= i < |r| ::
      r[i] == Affected(env, db.budgets[i], year, lines, ReleasedOn(db.encumbrances, enc, i))
  {
    seq(|db.budgets|, i requires 0 <= i < |db.budgets| =>
      Affected(env, db.budgets[i], year, lines, ReleasedOn(db.encumbrances, enc, i)))
  }

  predicate Exceeded(b: Budget) {
    b.encumbered < 0 || Available(b) < 0
  }

  predicate EncRow(db: Db, enc: Option<nat>) {
    enc.Some? ==> enc.value < |db.encumbrances| && db.encumbrances[enc.value].budget < |db.budgets|
  }

  /** The entry's lines on an encumbrance's budget do not come to its amount. */
  predicate MismatchedAmount(env: Env, db: Db, year: int, lines: seq<Line>, e: nat)
    requires e < |db.encumbrances| && db.encumbrances[e].budget < |db.budgets|
  {
    YearDelta(env, db.budgets[db.encumbrances[e].budget], year, lines) != db.encumbrances[e].amount
  }

  function Effects(env: Env, db: Db, year: int, lines: seq<Line>, enc: Option<nat>): Result<seq<Budget>, Error>
    requires EncRow(db, enc)
  {
    if enc.Some? && MismatchedAmount(env, db, year, lines, enc.value) then Err(AmountMismatch)
    else
      var after := AffectedAll(env, db, year, lines, enc);
      if exists i :: 0 <= i < |after| && Exceeded(after[i]) then Err(BudgetExceeded)
      // the table's check on actual amounts
      else if exists i :: 0 <= i < |after| && after[i].actual < 0 then Err(IntegrityError)
      else Ok(after)
  }

  datatype Posted = Posted(db: Db, entry: nat, replayed: bool)

  function NewEntry(env: Env, p: Payload, reversalOf: Option<nat>): Entry {
    Entry(p.key, env.hash(p), p.period, p.memo, p.lines, reversalOf)
  }

  /** The first reason not to post, before budgets are looked at. */
  function Refusal(env: Env, db: Db, p: Payload, reversalOf: Option<nat>): (r: Option<Error>)
    ensures r.None? ==> p.period < |db.periods| && !db.periods[p.period].closed
    ensures r.None? && p.encumbrance.Some? ==>
      p.encumbrance.value < |db.encumbrances| && db.encumbrances[p.encumbrance.value].status.Open?
  {
    if p.period >= |db.periods| then Some(PeriodNotFound)
    else if db.periods[p.period].closed then Some(PeriodIsClosed)
    else if !RefsOk(env, p.lines) then Some(InvalidReference)
    else if Debits(p.lines) == 0 || Debits(p.lines) != Credits(p.lines) then Some(Unbalanced)
    else if p.encumbrance.Some? && p.encumbrance.value >= |db.encumbrances| then Some(EncumbranceNotFound)
    else if p.encumbrance.Some? && !db.encumbrances[p.encumbrance.value].status.Open? then Some(EncumbranceNotOpen)
    // the unique constraint on reversals and the checks on lines
    else if reversalOf.Some? && Reversed(db.entries, reversalOf.value) then Some(IntegrityError)
    else if !LinesOk(p.lines) then Some(IntegrityError)
    else None
  }

  predicate Reversed(entries: seq<Entry>, i: nat) {
    exists k :: 0 <= k < |entries| && entries[k].reversalOf == Some(i)
  }

  /** The foreign key of encumbrances. */
  ghost predicate Linked(db: Db) {
    forall e | 0 <= e < |db.encumbrances| :: db.encumbrances[e].budget < |db.budgets|
  }

  /** Post an entry once per key. */
  function Post(env: Env, db: Db, p: Payload, reversalOf: Option<nat>): Result<Posted, Error>
    requires Linked(db)
  {
    match FindKey(db.entries, p.key)
    case Some(i) => if db.entries[i].hash == env.hash(p) then Ok(Posted(db, i, true)) else Err(KeyConflict)
    case None =>
      match Refusal(env, db, p, reversalOf)
      case Some(e) => Err(e)
      case None =>
        match Effects(env, db, db.periods[p.period].year, p.lines, p.encumbrance)
        case Err(e) => Err(e)
        case Ok(budgets) =>
          Ok(Posted(Entered(env, db, p, reversalOf, budgets), |db.entries|, false))
  }

  function Entered(env: Env, db: Db, p: Payload, reversalOf: Option<nat>, budgets: seq<Budget>): Db {
    db.(entries := db.entries + [NewEntry(env, p, reversalOf)], budgets := budgets,
        encumbrances := Liquidate(db.encumbrances, p.encumbrance, |db.entries|))
  }

  function Liquidate(encumbrances: seq<Encumbrance>, enc: Option<nat>, entry: nat): (r: seq<Encumbrance>)
    ensures |r| == |encumbrances|
  {
    if enc.Some? && enc.value < |encumbrances| then
      encumbrances[enc.value := encumbrances[enc.value].(status := Liquidated(entry))]
    else encumbrances
  }

  function Mirror(l: Line): Line {
    l.(debit := l.credit, credit := l.debit)
  }

  function Mirrored(lines: seq<Line>): (r: seq<Line>)
    ensures |r| == |lines| && forall k | 0 <= k < |r| :: r[k] == Mirror(lines[k])
  {
    seq(|lines|, k requires 0 <= k < |lines| => Mirror(lines[k]))
  }

  function ReversalPayload(env: Env, db: Db, original: nat, key: string, period: nat, memo: string): Payload
    requires original < |db.entries|
  {
    var text := if memo == "" then env.defaultMemo(original) else memo;
    Payload(key, period, text, None, Mirrored(db.entries[original].lines))
  }

  function Reverse(env: Env, db: Db, original: nat, key: string, period: nat, memo: string): Result<Posted, Error>
    requires Linked(db)
  {
    if original >= |db.entries| then Err(EntryNotFound)
    else
      var p := ReversalPayload(env, db, original, key, period, memo);
      match FindKey(db.entries, key)
      case Some(i) => if db.entries[i].hash == env.hash(p) then Ok(Posted(db, i, true)) else Err(KeyConflict)
      case None => if Reversed(db.entries, original) then Err(AlreadyReversed) else Post(env, db, p, Some(original))
  }

  // ---- Budgets and encumbrances

  function FindBudget(budgets: seq<Budget>, year: int, fund: int, department: int, account: int): (r: Option<nat>)
    ensures r.Some? ==> r.value < |budgets| && Covers(budgets[r.value], year, fund, department, account)
    ensures r.None? ==> forall b | b in budgets :: !Covers(b, year, fund, department, account)
  {
    if budgets == [] then None
    else if Covers(budgets[|budgets| - 1], year, fund, department, account) then Some(|budgets| - 1)
    else FindBudget(budgets[..|budgets| - 1], year, fund, department, account)
  }

  predicate Covers(b: Budget, year: int, fund: int, department: int, account: int) {
    b.year == year && b.fund == fund && b.department == department && b.account == account
  }

  function CreateBudget(db: Db, year: int, fund: int, department: int, account: int, amount: int): Result<Db, Error> {
    if FindBudget(db.budgets, year, fund, department, account).Some? then Err(BudgetExists)
    else if amount < 0 then Err(IntegrityError)
    else Ok(db.(budgets := db.budgets + [Budget(year, fund, department, account, amount, 0, 0, |db.entries|)]))
  }

  function Approve(db: Db, year: int, fund: int, department: int, account: int, amount: int): Result<Db, Error> {
    match FindBudget(db.budgets, year, fund, department, account)
    case None => Err(BudgetNotFound)
    case Some(i) =>
      if Available(db.budgets[i]) < amount then Err(BudgetExceeded)
      else if amount <= 0 then Err(IntegrityError)
      else
        Ok(db.(budgets := db.budgets[i := db.budgets[i].(encumbered := db.budgets[i].encumbered + amount)],
               encumbrances := db.encumbrances + [Encumbrance(i, amount, Open)]))
  }

  function Cancel(db: Db, enc: nat): Result<Db, Error>
    requires Linked(db)
  {
    if enc >= |db.encumbrances| then Err(EncumbranceNotFound)
    else if !db.encumbrances[enc].status.Open? then Err(EncumbranceNotOpen)
    else
      var i := db.encumbrances[enc].budget;
      var b := db.budgets[i].(encumbered := db.budgets[i].encumbered - db.encumbrances[enc].amount);
      if b.encumbered < 0 then Err(IntegrityError)
      else Ok(db.(budgets := db.budgets[i := b],
        encumbrances := db.encumbrances[enc := db.encumbrances[enc].(status := Cancelled)]))
  }

  // ---- Periods

  function CreatePeriod(db: Db, year: int, month: int): Result<Db, Error> {
    if exists p :: p in db.periods && p.year == year && p.month == month then Err(PeriodExists)
    else Ok(db.(periods := db.periods + [Period(year, month, false)]))
  }

  function Close(db: Db, period: nat): Result<Db, Error> {
    if period >= |db.periods| then Err(PeriodNotFound)
    else if db.periods[period].closed then Err(PeriodAlreadyClosed)
    else
      Ok(db.(periods := db.periods[period := db.periods[period].(closed := true)],
             audit := db.audit + [(period, ClosePeriod)]))
  }

  function Reopen(db: Db, period: nat): Result<Db, Error> {
    if period >= |db.periods| then Err(PeriodNotFound)
    else if !db.periods[period].closed then Err(PeriodNotClosed)
    else
      Ok(db.(periods := db.periods[period := db.periods[period].(closed := false)],
             audit := db.audit + [(period, ReopenPeriod)]))
  }

  // ---- Runs

  datatype Op =
    | DoPost(payload: Payload)
    | DoReverse(original: nat, key: string, period: nat, memo: string)
    | DoBudget(year: int, fund: int, department: int, account: int, amount: int)
    | DoApprove(year: int, fund: int, department: int, account: int, amount: int)
    | DoCancel(enc: nat)
    | DoPeriod(year: int, month: int)
    | DoClose(period: nat)
    | DoReopen(period: nat)

  function Attempt(env: Env, db: Db, op: Op): Result<Db, Error>
    requires Linked(db)
  {
    match op
    case DoPost(p) => DbOf(Post(env, db, p, None))
    case DoReverse(original, key, period, memo) => DbOf(Reverse(env, db, original, key, period, memo))
    case DoBudget(year, fund, department, account, amount) => CreateBudget(db, year, fund, department, account, amount)
    case DoApprove(year, fund, department, account, amount) => Approve(db, year, fund, department, account, amount)
    case DoCancel(enc) => Cancel(db, enc)
    case DoPeriod(year, month) => CreatePeriod(db, year, month)
    case DoClose(period) => Close(db, period)
    case DoReopen(period) => Reopen(db, period)
  }

  function DbOf(r: Result<Posted, Error>): Result<Db, Error> {
    match r
    case Ok(p) => Ok(p.db)
    case Err(e) => Err(e)
  }

  /** A failed transaction is rolled back. */
  function Step(env: Env, db: Db, op: Op): (r: Db)
    requires Linked(db)
    ensures Linked(r)
  {
    match Attempt(env, db, op)
    case Ok(after) => after
    case Err(_) => db
  }

  function Run(env: Env, db: Db, ops: seq<Op>): (r: Db)
    requires Linked(db)
    ensures Linked(r)
    decreases |ops|
  {
    if ops == [] then db else Run(env, Step(env, db, ops[0]), ops[1..])
  }
}
