/** One instance as the object the engine changes in place, a transaction at a time. */
module FlowServices {
  import opened Wrappers
  import opened FlowGraph
  import opened FlowValidator
  import opened FlowEngine

  class Flow {
    const env: Env
    const submitter: string
    var status: InstanceStatus
    var current: NodeId
    var activities: seq<Activity>
    var trail: seq<NodeId>
    var escalations: seq<nat>

    constructor (env: Env, start: Node, submitter: string)
      requires start.Start?
      ensures this.env == env
      ensures State() == Instance(submitter, Running, "", [], [start.id], [])
    {
      this.env, this.submitter := env, submitter;
      status, current, activities, trail, escalations := Running, "", [], [start.id], [];
    }

    function State(): Instance
      reads this
    {
      Instance(submitter, status, current, activities, trail, escalations)
    }

    method Restore(s: Instance)
      requires s.submitter == submitter
      modifies this
      ensures State() == s
    {
      status, current, activities, trail, escalations := s.status, s.current, s.activities, s.trail, s.escalations;
    }

    /** Commit, or roll back to the state before the transaction. */
    method Finish(before: Instance, r: Option<Conflict>)
      requires before.submitter == submitter
      modifies this
      ensures State() == if r.None? then old(State()) else before
    {
      if r.Some? {
        Restore(before);
      }
    }

    // ---- Inside a transaction; after a conflict the state is rolled back by the caller

    /** Set every pending task of an activity. */
    method SettleTasks(k: nat, to: TaskStatus)
      requires k < |activities|
      modifies this`activities
      ensures activities == old(activities)[k := old(activities[k]).(tasks := Settle(old(activities[k].tasks), to))]
    {
      var tasks := activities[k].tasks;
      ghost var before := tasks;
      var i := 0;
      while i < |tasks|
        invariant 0 <= i <= |tasks| == |before|
        invariant forall j | 0 <= j < |tasks| :: tasks[j] == if j < i then Settled(before[j], to) else before[j]
      {
        if tasks[i].status.Pending? {
          tasks := tasks[i := tasks[i].(status := to)];
        }
        i := i + 1;
      }
      assert tasks == Settle(before, to);
      activities := activities[k := activities[k].(tasks := tasks)];
    }

    /** Close the tasks that `stored` has as pending. */
    method CloseStoredTasks(k: nat, stored: seq<Task>)
      requires k < |activities| && |stored| == |activities[k].tasks|
      modifies this`activities
      ensures activities ==
        old(activities)[k := old(activities[k]).(tasks := CloseStored(stored, old(activities[k].tasks)))]
    {
      var tasks := activities[k].tasks;
      ghost var before := tasks;
      var i := 0;
      while i < |tasks|
        invariant 0 <= i <= |tasks| == |before|
        invariant forall j | 0 <= j < |tasks| ::
          tasks[j] == if j < i && stored[j].status.Pending? then before[j].(status := Closed) else before[j]
      {
        if stored[i].status.Pending? {
          tasks := tasks[i := tasks[i].(status := Closed)];
        }
        i := i + 1;
      }
      assert tasks == CloseStored(stored, before);
      activities := activities[k := activities[k].(tasks := tasks)];
    }

    method SetStatus(k: nat, to: ActivityStatus)
      requires k < |activities|
      modifies this`activities
      ensures activities == old(activities)[k := old(activities[k]).(status := to)]
    {
      activities := activities[k := activities[k].(status := to)];
    }

    /** The tasks of a stay, one per assignee. */
    method CreateTasks(assignees: seq<string>) returns (tasks: seq<Task>)
      ensures tasks == NewTasks(assignees)
    {
      tasks := [];
      var i := 0;
      while i < |assignees|
        invariant 0 <= i <= |assignees|
        invariant tasks == NewTasks(assignees[..i])
      {
        tasks := tasks + [Task(assignees[i], TaskStatus.Pending)];
        i := i + 1;
      }
      assert assignees[..i] == assignees;
    }

    /** Evaluate branches in order up to the first that holds. */
    method ChooseBranch(branches: seq<Branch>) returns (r: Choice)
      ensures r == Choose(branches, env.eval)
      ensures forall next :: r == Match(next) <==> Chosen(branches, env.eval, next)
      ensures r == Raised <==> BreaksOff(branches, env.eval)
      ensures r == NoMatch <==> AllPassed(branches, env.eval)
    {
      r := NoMatch;
      var i := 0;
      while i < |branches|
        invariant 0 <= i <= |branches| && r == NoMatch
        invariant forall j | 0 <= j < i :: PassedOver(branches[j], env.eval)
      {
        match env.eval(branches[i].when) {
          case Holds =>
            r := Match(branches[i].next);
            ChooseAt(branches, env.eval, i);
            break;
          case Raises =>
            r := Raised;
            ChooseAt(branches, env.eval, i);
            break;
          case Fails =>
          case Unevaluable =>
        }
        i := i + 1;
      }
      ChooseIff(branches, env.eval);
    }

    method Advance(target: NodeId, now: int) returns (r: Option<Conflict>)
      requires Acyclic(env)
      modifies this
      ensures r == Failure(FlowEngine.Advance(env, old(State()), target, now))
      ensures r.None? ==> FlowEngine.Advance(env, old(State()), target, now) == Ok(State())
      decreases Below(GraphOf(env.nodes), target)
    {
      if target !in env.nodes {
        return Some(Conflict.MissingReference);
      }
      var n := env.nodes[target];
      match n {
        case Start(_, _, _) => r := Some(EntersStart);
        case End(_, _, _) =>
          current := n.id;
          status := if n.outcome.Approve? then InstanceStatus.Approved else InstanceStatus.Rejected;
          trail := trail + [n.id];
          r := None;
        case Approval(_, _, _, _, _, _, _) =>
          if Repeats(n.approvers) {
            return Some(DuplicateTask);
          }
          var tasks := CreateTasks(n.approvers);
          activities := activities + [Activity(n.id, ActivityStatus.Pending, DeadlineAt(n, now), false, tasks)];
          current := n.id;
          trail := trail + [n.id];
          r := None;
        case Condition(_, branches, default) =>
          trail := trail + [n.id];
          var choice := ChooseBranch(branches);
          match choice {
            case Match(next) =>
              BranchShrinks(env, target, next);
              r := Advance(next, now);
            case Raised => r := Some(Crash);
            case NoMatch =>
              if default == "" {
                return Some(ConditionUnmatched);
              }
              BranchShrinks(env, target, default);
              r := Advance(default, now);
          }
      }
    }

    /** `stored` is what queries still see in this transaction. */
    method RejectPath(stored: Instance, n: Node, now: int) returns (r: Option<Conflict>)
      requires Acyclic(env) && n.Approval? && SameRows(stored, State())
      modifies this
      ensures r == Failure(FlowEngine.RejectPath(env, stored, old(State()), n, now))
      ensures r.None? ==> FlowEngine.RejectPath(env, stored, old(State()), n, now) == Ok(State())
    {
      var found := PendingAt(stored.activities, n.id);
      if found.None? {
        return Some(ActivityNotPending);
      }
      var k := found.value;
      CloseStoredTasks(k, stored.activities[k].tasks);
      SetStatus(k, ActivityStatus.Rejected);
      assert activities == old(activities)[k := old(activities[k]).(status := ActivityStatus.Rejected,
        tasks := CloseStored(stored.activities[k].tasks, old(activities[k].tasks)))];
      if n.onReject != "" {
        r := Advance(n.onReject, now);
      } else {
        status := InstanceStatus.Rejected;
        r := None;
      }
    }

    method DecideTask(k: nat, i: nat, decision: Decision, now: int) returns (r: Option<Conflict>)
      requires Acyclic(env) && k < |activities| && i < |activities[k].tasks|
      requires activities[k].node in env.nodes && env.nodes[activities[k].node].Approval?
      modifies this
      ensures r == Failure(FlowEngine.DecideTask(env, old(State()), k, i, decision, now))
      ensures r.None? ==> FlowEngine.DecideTask(env, old(State()), k, i, decision, now) == Ok(State())
    {
      var stored := State();
      var a := activities[k];
      var n := env.nodes[a.node];
      var mark := if decision.Grant? then TaskStatus.Approved else TaskStatus.Rejected;
      activities := activities[k := a.(tasks := a.tasks[i := a.tasks[i].(status := mark)])];
      if decision.Deny? {
        r := RejectPath(stored, n, now);
      } else if n.mode.Any? {
        ghost var tasks := activities[k].tasks;
        SettleTasks(k, Closed);
        SetStatus(k, Completed);
        assert activities == old(activities)[k := a.(status := Completed, tasks := Settle(tasks, Closed))];
        r := Advance(n.next, now);
      } else if !SomePending(activities[k].tasks) {
        ghost var tasks := activities[k].tasks;
        SetStatus(k, Completed);
        assert activities == old(activities)[k := a.(status := Completed, tasks := tasks)];
        r := Advance(n.next, now);
      } else {
        r := None;
      }
    }

    method SweepOne(k: nat, now: int) returns (r: Option<Conflict>, stop: bool)
      requires Acyclic(env) && k < |activities|
      modifies this
      ensures r == Failure(SweepActivity(env, old(State()), k, now))
      ensures r.None? ==> SweepActivity(env, old(State()), k, now) == Ok(Swept(State(), stop))
    {
      var stored := State();
      var a := activities[k];
      r, stop := None, false;
      if a.node !in env.nodes || !env.nodes[a.node].Approval? || env.nodes[a.node].action.None? {
        activities := activities[k := a.(deadline := None)];
        return;
      }
      if !SomePending(a.tasks) {
        SetStatus(k, Completed);
        return;
      }
      var n := env.nodes[a.node];
      match n.action.value {
        case Escalate(to) =>
          if a.escalated {
            activities := activities[k := a.(deadline := None)];
            return;
          }
          if Clashes(a.tasks, to) {
            r := Some(DuplicateTask);
            return;
          }
          SettleTasks(k, TimeoutClosed);
          var created := CreateTasks(to);
          var closed := activities[k];
          activities := activities[k := closed.(tasks := closed.tasks + created, escalated := true, deadline := None)];
          assert activities == old(activities)[k := a.(tasks := Settle(a.tasks, TimeoutClosed) + NewTasks(to),
            escalated := true, deadline := None)];
          escalations := escalations + [k];
        case AutoApprove =>
          SettleTasks(k, TaskStatus.Approved);
          SetStatus(k, TimeoutResolved);
          assert activities ==
            old(activities)[k := a.(status := TimeoutResolved, tasks := Settle(a.tasks, TaskStatus.Approved))];
          r := Advance(n.next, now);
          stop := true;
        case AutoReject =>
          SettleTasks(k, TaskStatus.Rejected);
          SetStatus(k, TimeoutResolved);
          assert activities ==
            old(activities)[k := a.(status := TimeoutResolved, tasks := Settle(a.tasks, TaskStatus.Rejected))];
          r := RejectPath(stored, n, now);
          stop := true;
      }
    }

    // ---- Transactions

    /** Start the instance; without success nothing of it is kept. */
    method Begin(start: Node, now: int) returns (r: Option<Conflict>)
      requires Acyclic(env) && start.Start? && State() == Instance(submitter, Running, "", [], [start.id], [])
      modifies this
      ensures r == Failure(FlowEngine.Begin(env, start, submitter, now))
      ensures r.None? ==> FlowEngine.Begin(env, start, submitter, now) == Ok(State())
    {
      r := Advance(start.next, now);
    }

    method Decide(actor: string, decision: Decision, target: Target, now: int) returns (r: Option<Conflict>)
      requires Acyclic(env)
      modifies this
      ensures r == Failure(Attempt(env, old(State()), DoDecide(actor, decision, target), now))
      ensures State() == Step(env, old(State()), DoDecide(actor, decision, target), now)
    {
      var before := State();
      if !status.Running? {
        return Some(InstanceNotRunning);
      }
      var row := Locate(before, actor, target);
      if row.Err? {
        return Some(row.error);
      }
      var a := activities[row.value.0];
      if a.node !in env.nodes {
        return Some(Conflict.MissingReference);
      }
      if !a.status.Pending? {
        return Some(ActivityNotPending);
      }
      if !env.nodes[a.node].Approval? {
        return Some(Crash);
      }
      r := DecideTask(row.value.0, row.value.1, decision, now);
      Finish(before, r);
    }

    method Withdraw(actor: string) returns (r: Option<Conflict>)
      requires Acyclic(env)
      modifies this
      ensures r == Failure(Attempt(env, old(State()), DoWithdraw(actor), 0))
      ensures State() == Step(env, old(State()), DoWithdraw(actor), 0)
    {
      if actor != submitter {
        return Some(NotSubmitter);
      }
      if !status.Running? {
        return Some(InstanceNotRunning);
      }
      ghost var before := activities;
      var k := 0;
      while k < |activities|
        invariant 0 <= k <= |activities| == |before|
        invariant forall j | 0 <= j < |before| :: activities[j] == if j < k then Recalled(before[j]) else before[j]
        invariant status == old(status) && current == old(current) && trail == old(trail)
          && escalations == old(escalations)
      {
        if activities[k].status.Pending? {
          SettleTasks(k, TaskStatus.Withdrawn);
          SetStatus(k, ActivityStatus.Withdrawn);
        }
        k := k + 1;
      }
      status := InstanceStatus.Withdrawn;
      assert activities == seq(|before|, j requires 0 <= j < |before| => Recalled(before[j]));
      r := None;
    }

    method Sweep(now: int) returns (r: Option<Conflict>)
      requires Acyclic(env)
      modifies this
      ensures r == Failure(Attempt(env, old(State()), DoSweep, now))
      ensures State() == Step(env, old(State()), DoSweep, now)
    {
      if !status.Running? {
        return None;
      }
      var before := State();
      var due := DueFrom(activities, now);
      var i := 0;
      r := None;
      while i < |due|
        invariant 0 <= i <= |due|
        invariant forall j | i <= j < |due| :: due[j] < |activities|
        invariant SweepEach(env, before, due, now) == SweepEach(env, State(), due[i..], now)
        invariant submitter == before.submitter && r.None?
      {
        assert due[i..][1..] == due[i + 1..];
        var stop;
        r, stop := SweepOne(due[i], now);
        if r.Some? || stop {
          Finish(before, r);
          return;
        }
        i := i + 1;
      }
      assert due[i..] == [];
    }
  }
}
