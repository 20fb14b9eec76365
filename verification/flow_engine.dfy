/** The run-time of an approval flow: what one transaction does to one instance. */
module FlowEngine {
  import opened Wrappers
  import opened FlowGraph
  import opened FlowValidator

  datatype InstanceStatus = Running | Approved | Rejected | Withdrawn
  datatype ActivityStatus = Pending | Completed | Rejected | Withdrawn | TimeoutResolved
  datatype TaskStatus = Pending | Approved | Rejected | Closed | Withdrawn | TimeoutClosed

  datatype Task = Task(assignee: string, status: TaskStatus)

  /** One stay at an approval node, with its task rows in the order of their ids. */
  datatype Activity = Activity(node: NodeId, status: ActivityStatus, deadline: Option<int>, escalated: bool,
    tasks: seq<Task>)

  /**
   An instance with its activities in the order of their ids. `trail` lists the nodes entered and
   `escalations` the activities escalated, as the audit log records them.
   */
  datatype Instance = Instance(submitter: string, status: InstanceStatus, current: NodeId,
                               activities: seq<Activity>, trail: seq<NodeId>, escalations: seq<nat>)

  /** What evaluating a branch in the instance's context yields; `Raises` is an exception the engine does not catch. */
  datatype Verdict = Holds | Fails | Unevaluable | Raises

  datatype Env = Env(nodes: map<NodeId, Node>, eval: string -> Verdict)

  datatype Conflict =
    | MissingReference | EntersStart | ConditionUnmatched | Crash | DuplicateTask
    | InstanceNotRunning | NotAssignee | TaskNotPending | ActivityNotPending | NotSubmitter

  datatype Decision = Grant | Deny

  /** A task by its row, or by node for the acting assignee. */
  datatype Target = ByTask(activity: nat, index: nat) | ByNode(node: NodeId)

  ghost predicate Acyclic(env: Env) {
    !Cyclic(GraphOf(env.nodes))
  }

  // ---- Choosing a branch

  datatype Choice = Match(next: NodeId) | NoMatch | Raised

  /** The first branch that holds; one that cannot be evaluated is passed over. */
  function Choose(branches: seq<Branch>, eval: string -> Verdict): (r: Choice)
    ensures r.Match? ==> exists b :: b in branches && b.next == r.next && eval(b.when) == Holds
  {
    if branches == [] then NoMatch
    else
      match eval(branches[0].when)
      case Holds => Match(branches[0].next)
      case Raises => Raised
      case _ => Choose(branches[1..], eval)
  }

  /** A branch that fails or cannot be evaluated is passed over. */
  predicate PassedOver(b: Branch, eval: string -> Verdict) {
    eval(b.when).Fails? || eval(b.when).Unevaluable?
  }

  ghost predicate AllPassed(branches: seq<Branch>, eval: string -> Verdict) {
    forall i | 0 <= i < |branches| :: PassedOver(branches[i], eval)
  }

  /** Every branch before `i` is passed over, and `i` is not. */
  ghost predicate FirstAt(branches: seq<Branch>, eval: string -> Verdict, i: nat) {
    i < |branches| && !PassedOver(branches[i], eval) && forall j | 0 <= j < i :: PassedOver(branches[j], eval)
  }

  /** The first branch that is not passed over holds and leads to `next`. */
  ghost predicate Chosen(branches: seq<Branch>, eval: string -> Verdict, next: NodeId) {
    exists i: nat :: FirstAt(branches, eval, i) && eval(branches[i].when).Holds? && branches[i].next == next
  }

  /** The first branch that is not passed over raises. */
  ghost predicate BreaksOff(branches: seq<Branch>, eval: string -> Verdict) {
    exists i: nat :: FirstAt(branches, eval, i) && eval(branches[i].when).Raises?
  }

  lemma {:induction false} ChooseAt(branches: seq<Branch>, eval: string -> Verdict, i: nat)
    requires FirstAt(branches, eval, i)
    ensures Choose(branches, eval) == if eval(branches[i].when).Holds? then Match(branches[i].next) else Raised
  {
    if i > 0 {
      assert PassedOver(branches[0], eval);
      ChooseAt(branches[1..], eval, i - 1);
    }
  }

  lemma {:induction false} ChooseNone(branches: seq<Branch>, eval: string -> Verdict)
    ensures if AllPassed(branches, eval) then Choose(branches, eval) == NoMatch
            else exists i: nat :: FirstAt(branches, eval, i)
  {
    if branches == [] {
    } else if PassedOver(branches[0], eval) {
      ChooseNone(branches[1..], eval);
      if i: nat :| FirstAt(branches[1..], eval, i) {
        assert FirstAt(branches, eval, i + 1);
      } else {
        assert forall j | 1 <= j < |branches| :: branches[j] == branches[1..][j - 1];
      }
    } else {
      assert FirstAt(branches, eval, 0);
    }
  }

  /** The choice is decided by the first branch that is not passed over. */
  lemma ChooseIff(branches: seq<Branch>, eval: string -> Verdict)
    ensures forall next :: Choose(branches, eval) == Match(next) <==> Chosen(branches, eval, next)
    ensures Choose(branches, eval) == Raised <==> BreaksOff(branches, eval)
    ensures Choose(branches, eval) == NoMatch <==> AllPassed(branches, eval)
  {
    ChooseNone(branches, eval);
    forall i: nat | FirstAt(branches, eval, i)
      ensures Choose(branches, eval) == if eval(branches[i].when).Holds? then Match(branches[i].next) else Raised
    {
      ChooseAt(branches, eval, i);
    }
  }

  // ---- Advancing

  /** Everything reachable from a node; the measure that advancing lowers. */
  ghost function Below(g: Graph, v: NodeId): set<NodeId> {
    set w | w in g && Reach(g, v, w)
  }

  lemma BelowShrinks(g: Graph, u: NodeId, v: NodeId)
    requires !Cyclic(g) && u in g && v in g[u]
    ensures Below(g, v) < Below(g, u)
  {
    ReachSelf(g, u);
    if v in g {
      assert Edge(g, u, v);
      forall w | w in Below(g, v)
        ensures w in Below(g, u)
      {
        PrependReach(g, u, v, w);
      }
      if u in Below(g, v) {
        BackEdgeCycle(g, u, v);
      }
    } else {
      assert Below(g, v) == {};
    }
    assert u in Below(g, u);
  }

  function NewTasks(assignees: seq<string>): (r: seq<Task>)
    ensures |r| == |assignees| && forall i | 0 <= i < |r| :: r[i] == Task(assignees[i], TaskStatus.Pending)
  {
    seq(|assignees|, i requires 0 <= i < |assignees| => Task(assignees[i], TaskStatus.Pending))
  }

  function EnterEnd(s: Instance, n: Node): Instance
    requires n.End?
  {
    s.(status := if n.outcome.Approve? then InstanceStatus.Approved else InstanceStatus.Rejected,
       current := n.id, trail := s.trail + [n.id])
  }

  function DeadlineAt(n: Node, now: int): Option<int>
    requires n.Approval?
  {
    // a zero timeout is falsy
    if n.timeout.Some? && n.timeout.value != 0 then Some(now + n.timeout.value) else None
  }

  /** One task per approver; the table allows an assignee one task in an activity. */
  function EnterApproval(s: Instance, n: Node, now: int): Result<Instance, Conflict>
    requires n.Approval?
  {
    if Repeats(n.approvers) then Err(DuplicateTask)
    else
      var activity := Activity(n.id, ActivityStatus.Pending, DeadlineAt(n, now), false, NewTasks(n.approvers));
      Ok(s.(activities := s.activities + [activity], current := n.id, trail := s.trail + [n.id]))
  }

  /** Move to a node, straight through conditions, until an approval or an end is entered. */
  function Advance(env: Env, s: Instance, target: NodeId, now: int): Result<Instance, Conflict>
    requires Acyclic(env)
    decreases Below(GraphOf(env.nodes), target)
  {
    if target !in env.nodes then Err(Conflict.MissingReference)
    else
      var n := env.nodes[target];
      match n
      case End(_, _, _) => Ok(EnterEnd(s, n))
      case Approval(_, _, _, _, _, _, _) => EnterApproval(s, n, now)
      case Start(_, _, _) => Err(EntersStart)
      case Condition(_, branches, default) =>
        var s1 := s.(trail := s.trail + [n.id]);
        match Choose(branches, env.eval)
        case Match(next) =>
          BranchShrinks(env, target, next);
          Advance(env, s1, next, now)
        case Raised => Err(Crash)
        case NoMatch =>
          if default == "" then Err(ConditionUnmatched)
          else
            BranchShrinks(env, target, default);
            Advance(env, s1, default, now)
  }

  lemma BranchShrinks(env: Env, target: NodeId, next: NodeId)
    requires Acyclic(env) && target in env.nodes && env.nodes[target].Condition?
    requires (next == env.nodes[target].default && next != "") || exists b ::
      b in env.nodes[target].branches && b.next == next
    ensures next in Refs(env.nodes[target])
    ensures Below(GraphOf(env.nodes), next) < Below(GraphOf(env.nodes), target)
  {
    ConditionRefs(env.nodes[target], next);
    BelowShrinks(GraphOf(env.nodes), target, next);
  }

  lemma ConditionRefs(n: Node, next: NodeId)
    requires n.Condition?
    requires (next == n.default && next != "") || exists b :: b in n.branches && b.next == next
    ensures next in Refs(n)
  {
    var targets := seq(|n.branches|, i requires 0 <= i < |n.branches| => n.branches[i].next);
    assert Refs(n) == targets + Optional(n.default);
    if b :| b in n.branches && b.next == next {
      var i :| 0 <= i < |n.branches| && n.branches[i] == b;
      assert targets[i] == next;
    } else {
      assert Optional(n.default) == [next];
    }
  }

  // ---- Closing tasks

  function Settled(t: Task, status: TaskStatus): Task {
    if t.status.Pending? then t.(status := status) else t
  }

  /** Give every pending task a status. */
  function Settle(tasks: seq<Task>, status: TaskStatus): (r: seq<Task>)
    ensures |r| == |tasks| && forall i | 0 <= i < |r| :: r[i] == Settled(tasks[i], status)
  {
    seq(|tasks|, i requires 0 <= i < |tasks| => Settled(tasks[i], status))
  }

  /**
   Close the tasks whose stored rows are pending. Queries do not flush first, so a task decided
   earlier in the same transaction is still found and overwritten.
   */
  function CloseStored(stored: seq<Task>, tasks: seq<Task>): (r: seq<Task>)
    requires |stored| == |tasks|
    ensures |r| == |tasks|
    ensures forall i | 0 <= i < |r| ::
      r[i] == if stored[i].status.Pending? then tasks[i].(status := Closed) else tasks[i]
  {
    seq(|tasks|, i requires 0 <= i < |tasks| => if stored[i].status.Pending? then tasks[i].(status := Closed)
      else tasks[i])
  }

  predicate SomePending(tasks: seq<Task>) {
    exists i :: 0 <= i < |tasks| && tasks[i].status.Pending?
  }

  // ---- Rejecting

  /** The stored pending activity at a node. */
  function PendingAt(activities: seq<Activity>, node: NodeId): (r: Option<nat>)
    ensures r.Some? ==>
      r.value < |activities| && activities[r.value].status.Pending? && activities[r.value].node == node
    ensures r.None? ==> forall a | a in activities :: !(a.status.Pending? && a.node == node)
  {
    if activities == [] then None
    else
      var last := |activities| - 1;
      if activities[last].status.Pending? && activities[last].node == node then Some(last)
      else PendingAt(activities[..last], node)
  }

  predicate SameRows(stored: Instance, s: Instance) {
    && |stored.activities| == |s.activities|
    && (forall k | 0 <= k < |s.activities| :: |stored.activities[k].tasks| == |s.activities[k].tasks|)
  }

  /** `stored` is what queries still see of `s` in this transaction. */
  function RejectPath(env: Env, stored: Instance, s: Instance, n: Node, now: int): Result<Instance, Conflict>
    requires Acyclic(env) && n.Approval?
    requires SameRows(stored, s)
  {
    match PendingAt(stored.activities, n.id)
    case None => Err(ActivityNotPending)
    case Some(k) =>
      var a := s.activities[k];
      var closed := a.(status := ActivityStatus.Rejected, tasks := CloseStored(stored.activities[k].tasks, a.tasks));
      var s1 := s.(activities := s.activities[k := closed]);
      if n.onReject != "" then Advance(env, s1, n.onReject, now)
      else Ok(s1.(status := InstanceStatus.Rejected))
  }

  // ---- Deciding

  /** The stored pending task an approver means. */
  function Locate(s: Instance, actor: string, target: Target): (r: Result<(nat, nat), Conflict>)
    ensures r.Ok? ==> r.value.0 < |s.activities| && r.value.1 < |s.activities[r.value.0].tasks|
    ensures r.Ok? ==> s.activities[r.value.0].tasks[r.value.1] == Task(actor, TaskStatus.Pending)
  {
    match target
    case ByTask(a, k) =>
      if a >= |s.activities| || k >= |s.activities[a].tasks| then Err(TaskNotPending)
      else if s.activities[a].tasks[k].assignee != actor then Err(NotAssignee)
      else if !s.activities[a].tasks[k].status.Pending? then Err(TaskNotPending)
      else Ok((a, k))
    case ByNode(node) => LocateAt(s.activities, node, actor)
  }

  function LocateAt(activities: seq<Activity>, node: NodeId, actor: string): (r: Result<(nat, nat), Conflict>)
    ensures r.Ok? ==> r.value.0 < |activities| && r.value.1 < |activities[r.value.0].tasks|
    ensures r.Ok? ==> activities[r.value.0].tasks[r.value.1] == Task(actor, TaskStatus.Pending)
    ensures r.Ok? ==> activities[r.value.0].node == node
    ensures r.Err? ==> r.error == TaskNotPending
    ensures r.Err? ==> forall a | a in activities && a.node == node :: Task(actor, TaskStatus.Pending) !in a.tasks
  {
    if activities == [] then Err(TaskNotPending)
    else
      var last := |activities| - 1;
      var k := IndexOfTask(activities[last].tasks, Task(actor, TaskStatus.Pending));
      if activities[last].node == node && k < |activities[last].tasks| then Ok((last, k))
      else LocateAt(activities[..last], node, actor)
  }

  /** The place of a task row, or the number of rows when there is none. */
  function IndexOfTask(tasks: seq<Task>, t: Task): (k: nat)
    ensures k <= |tasks| && (k < |tasks| ==> tasks[k] == t)
    ensures k == |tasks| <==> t !in tasks
  {
    if tasks == [] then 0 else if tasks[0] == t then 0 else 1 + IndexOfTask(tasks[1..], t)
  }

  function Decide(env: Env, s: Instance, actor: string, decision: Decision, target: Target,
      now: int): Result<Instance, Conflict>
    requires Acyclic(env)
  {
    if !s.status.Running? then Err(InstanceNotRunning)
    else
      match Locate(s, actor, target)
      case Err(e) => Err(e)
      case Ok(row) =>
        var a := s.activities[row.0];
        if a.node !in env.nodes then Err(Conflict.MissingReference)
        else if !a.status.Pending? then Err(ActivityNotPending)
        else if !env.nodes[a.node].Approval? then Err(Crash)
        else DecideTask(env, s, row.0, row.1, decision, now)
  }

  function DecideTask(env: Env, s: Instance, k: nat, i: nat, decision: Decision, now: int): Result<Instance, Conflict>
    requires Acyclic(env)
    requires k < |s.activities| && i < |s.activities[k].tasks|
    requires s.activities[k].node in env.nodes && env.nodes[s.activities[k].node].Approval?
  {
    var a := s.activities[k];
    var n := env.nodes[a.node];
    match decision
    case Deny =>
      var refused := a.(tasks := a.tasks[i := a.tasks[i].(status := TaskStatus.Rejected)]);
      RejectPath(env, s, s.(activities := s.activities[k := refused]), n, now)
    case Grant =>
      var tasks := a.tasks[i := a.tasks[i].(status := TaskStatus.Approved)];
      if n.mode.Any? then
        var done := a.(status := Completed, tasks := Settle(tasks, Closed));
        Advance(env, s.(activities := s.activities[k := done]), n.next, now)
      else if !SomePending(tasks) then
        var done := a.(status := Completed, tasks := tasks);
        Advance(env, s.(activities := s.activities[k := done]), n.next, now)
      else Ok(s.(activities := s.activities[k := a.(tasks := tasks)]))
  }

  // ---- Withdrawing

  function Recalled(a: Activity): Activity {
    if a.status.Pending? then a.(status := ActivityStatus.Withdrawn, tasks := Settle(a.tasks, TaskStatus.Withdrawn))
      else a
  }

  function Withdraw(s: Instance, actor: string): Result<Instance, Conflict> {
    if actor != s.submitter then Err(NotSubmitter)
    else if !s.status.Running? then Err(InstanceNotRunning)
    else
      Ok(s.(status := InstanceStatus.Withdrawn,
            activities := seq(|s.activities|, k requires 0 <= k < |s.activities| => Recalled(s.activities[k]))))
  }

  // ---- Timeouts

  predicate Due(a: Activity, now: int) {
    a.status.Pending? && a.deadline.Some? && a.deadline.value <= now
  }

  /** What the sweep does with one due activity, and whether it then stops. */
  datatype Swept = Swept(state: Instance, stop: bool)

  function SweepActivity(env: Env, s: Instance, k: nat, now: int): (r: Result<Swept, Conflict>)
    requires Acyclic(env) && k < |s.activities|
    ensures r.Ok? && !r.value.stop ==> |r.value.state.activities| == |s.activities|
  {
    var a := s.activities[k];
    if a.node !in env.nodes || !env.nodes[a.node].Approval? || env.nodes[a.node].action.None? then
      Ok(Swept(s.(activities := s.activities[k := a.(deadline := None)]), false))
    else if !SomePending(a.tasks) then
      Ok(Swept(s.(activities := s.activities[k := a.(status := Completed)]), false))
    else
      var n := env.nodes[a.node];
      match n.action.value
      case Escalate(to) =>
        if a.escalated then Ok(Swept(s.(activities := s.activities[k := a.(deadline := None)]), false))
        else if Clashes(a.tasks, to) then Err(DuplicateTask)
        else
          var tasks := Settle(a.tasks, TimeoutClosed) + NewTasks(to);
          var raised := a.(tasks := tasks, escalated := true, deadline := None);
          Ok(Swept(s.(activities := s.activities[k := raised], escalations := s.escalations + [k]), false))
      case AutoApprove =>
        var done := a.(status := TimeoutResolved, tasks := Settle(a.tasks, TaskStatus.Approved));
        Stopped(Advance(env, s.(activities := s.activities[k := done]), n.next, now))
      case AutoReject =>
        var done := a.(status := TimeoutResolved, tasks := Settle(a.tasks, TaskStatus.Rejected));
        Stopped(RejectPath(env, s, s.(activities := s.activities[k := done]), n, now))
  }

  function Stopped(r: Result<Instance, Conflict>): Result<Swept, Conflict> {
    match r
    case Ok(s) => Ok(Swept(s, true))
    case Err(e) => Err(e)
  }

  /** The table allows an assignee one task in an activity. */
  predicate Clashes(tasks: seq<Task>, to: seq<string>) {
    Repeats(to) || exists i, j :: 0 <= i < |tasks| && 0 <= j < |to| && tasks[i].assignee == to[j]
  }

  /** Handle the activities of `due` in turn. */
  function SweepEach(env: Env, s: Instance, due: seq<nat>, now: int): Result<Instance, Conflict>
    requires Acyclic(env) && forall i | 0 <= i < |due| :: due[i] < |s.activities|
    decreases |due|
  {
    if due == [] then Ok(s)
    else
      match SweepActivity(env, s, due[0], now)
      case Err(e) => Err(e)
      case Ok(done) =>
        if done.stop then Ok(done.state)
        else SweepEach(env, done.state, due[1..], now)
  }

  /** Due activities in the order of their ids. */
  function DueFrom(activities: seq<Activity>, now: int): (r: seq<nat>)
    ensures forall i | 0 <= i < |r| :: r[i] < |activities| && Due(activities[r[i]], now)
  {
    if activities == [] then []
    else
      var last := |activities| - 1;
      DueFrom(activities[..last], now) + if Due(activities[last], now) then [last] else []
  }

  /** One instance's turn in a sweep; an error rolls it back for the next sweep to retry. */
  function Sweep(env: Env, s: Instance, now: int): Result<Instance, Conflict>
    requires Acyclic(env)
  {
    if !s.status.Running? then Ok(s) else SweepEach(env, s, DueFrom(s.activities, now), now)
  }

  // ---- Starting

  /** A new instance has entered the start node and goes on from there. */
  function Begin(env: Env, start: Node, submitter: string, now: int): Result<Instance, Conflict>
    requires Acyclic(env) && start.Start?
  {
    Advance(env, Instance(submitter, Running, "", [], [start.id], []), start.next, now)
  }

  // ---- Whole runs

  datatype Op =
    | DoDecide(actor: string, decision: Decision, target: Target)
    | DoWithdraw(actor: string)
    | DoSweep

  function Attempt(env: Env, s: Instance, op: Op, now: int): Result<Instance, Conflict>
    requires Acyclic(env)
  {
    match op
    case DoDecide(actor, decision, target) => Decide(env, s, actor, decision, target, now)
    case DoWithdraw(actor) => Withdraw(s, actor)
    case DoSweep => Sweep(env, s, now)
  }

  /** A failed transaction is rolled back. */
  function Step(env: Env, s: Instance, op: Op, now: int): Instance
    requires Acyclic(env)
  {
    match Attempt(env, s, op, now)
    case Ok(after) => after
    case Err(_) => s
  }

  /** Operations with the times they run at. */
  function Run(env: Env, s: Instance, ops: seq<(Op, int)>): Instance
    requires Acyclic(env)
    decreases |ops|
  {
    if ops == [] then s else Run(env, Step(env, s, ops[0].0, ops[0].1), ops[1..])
  }
}
