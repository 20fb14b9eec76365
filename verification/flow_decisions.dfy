/** What a decision, a withdrawal and a timeout do to the activity they meet, and where the instance goes then. */
module FlowDecisions {
  import opened Wrappers
  import opened FlowGraph
  import opened FlowValidator
  import opened FlowEngine
  import opened FlowRuns

  // ---- What becomes of the activity and the instance

  /** The instance goes on to a node. */
  ghost predicate GoesTo(s: Instance, t: Instance, v: NodeId) {
    |s.trail| < |t.trail| && t.trail[..|s.trail|] == s.trail && t.trail[|s.trail|] == v
  }

  /** The instance stays where it is, still running. */
  ghost predicate StaysPut(s: Instance, t: Instance) {
    t.trail == s.trail && t.current == s.current && t.status == s.status && |t.activities| == |s.activities|
  }

  /** Exactly the pending tasks got a status. */
  ghost predicate AllSet(before: seq<Task>, after: seq<Task>, status: TaskStatus) {
    && |after| == |before|
    && forall i | 0 <= i < |before| :: after[i] ==
         if before[i].status.Pending? then Task(before[i].assignee, status) else before[i]
  }

  /** Exactly one task, which was pending, is approved. */
  ghost predicate OneApproved(before: seq<Task>, after: seq<Task>, i: nat) {
    && |after| == |before| && i < |before|
    && forall j | 0 <= j < |before| :: after[j] ==
         if j == i then Task(before[j].assignee, TaskStatus.Approved) else before[j]
  }

  /** The activity is rejected, its pending tasks closed, and the instance goes where a rejection leads, or ends. */
  ghost predicate Denied(n: Node, s: Instance, t: Instance, a: Activity, b: Activity)
    requires n.Approval?
  {
    && b == a.(status := ActivityStatus.Rejected, tasks := b.tasks) && AllSet(a.tasks, b.tasks, Closed)
    && if n.onReject != "" then GoesTo(s, t, n.onReject)
       else t.status == InstanceStatus.Rejected && t.trail == s.trail
  }

  /**
   The task is approved. In a node where one consent is enough the others are closed and the instance goes on;
   elsewhere it goes on when no other task is pending, and stays put until then.
   */
  ghost predicate Granted(n: Node, s: Instance, t: Instance, a: Activity, b: Activity, i: nat)
    requires n.Approval?
  {
    if n.mode == Any then
      && b == a.(status := Completed, tasks := b.tasks) && GoesTo(s, t, n.next)
      && exists mid :: OneApproved(a.tasks, mid, i) && AllSet(mid, b.tasks, Closed)
    else
      && OneApproved(a.tasks, b.tasks, i)
      && if exists j :: 0 <= j < |b.tasks| && b.tasks[j].status.Pending? then
           b == a.(tasks := b.tasks) && StaysPut(s, t)
         else b == a.(status := Completed, tasks := b.tasks) && GoesTo(s, t, n.next)
  }

  /** The task is the one asked for, pending and the actor's. */
  ghost predicate Asked(a: Activity, k: nat, i: nat, actor: string, target: Target) {
    && i < |a.tasks| && a.tasks[i] == Task(actor, TaskStatus.Pending)
    && match target
       case ByTask(activity, index) => activity == k && index == i
       case ByNode(node) => node == a.node
  }

  // ---- Advancing

  lemma {:induction false} AdvanceGoes(env: Env, s: Instance, target: NodeId, now: int)
    requires Acyclic(env) && (forall v | v in env.nodes :: env.nodes[v].id == v)
    requires Advance(env, s, target, now).Ok?
    ensures var t := Advance(env, s, target, now).value;
            GoesTo(s, t, target) && s.activities <= t.activities
    decreases Below(GraphOf(env.nodes), target)
  {
    var n := env.nodes[target];
    assert n.id == target;
    if n.Condition? {
      var s1 := s.(trail := s.trail + [target]);
      Onward(env, s, target, now);
      AdvanceGoes(env, s1, NextOf(env, n), now);
      var t := Advance(env, s, target, now).value;
      assert t.trail[|s.trail|] == t.trail[..|s1.trail|][|s.trail|];
      assert t.trail[..|s.trail|] == t.trail[..|s1.trail|][..|s.trail|];
    }
  }

  /** An instance at an approval, waiting there. */
  ghost predicate AtApproval(env: Env, s: Instance) {
    && Acyclic(env) && (forall v | v in env.nodes :: env.nodes[v].id == v) && Waiting(s) && s.status.Running?
    && s.current in env.nodes && env.nodes[s.current].Approval?
  }

  lemma RunningIsAtApproval(env: Env, start: Node, s: Instance)
    requires Good(env, start, s)
    ensures AtApproval(env, s)
  {
    assert ActivityFits(env, s.activities[|s.activities| - 1]);
  }

  /** Settling the last activity and going on leaves it settled so. */
  lemma ReplacedGoes(env: Env, s: Instance, b: Activity, target: NodeId, now: int)
    requires AtApproval(env, s) && Advance(env, Replaced(s, b), target, now).Ok?
    ensures var t := Advance(env, Replaced(s, b), target, now).value;
            GoesTo(s, t, target) && |s.activities| <= |t.activities| && t.activities[|s.activities| - 1] == b
  {
    AdvanceGoes(env, Replaced(s, b), target, now);
  }

  lemma RefusedIs(env: Env, s: Instance, now: int)
    requires AtApproval(env, s) && Refused(env, s, now).Ok?
    ensures var last, t := |s.activities| - 1, Refused(env, s, now).value;
            |t.activities| > last && Denied(env.nodes[s.current], s, t, s.activities[last], t.activities[last])
  {
    var a := s.activities[|s.activities| - 1];
    var b := a.(status := ActivityStatus.Rejected, tasks := Settle(a.tasks, Closed));
    if env.nodes[s.current].onReject != "" {
      ReplacedGoes(env, s, b, env.nodes[s.current].onReject, now);
    }
  }

  lemma GrantedIs(env: Env, s: Instance, i: nat, now: int)
    requires AtApproval(env, s)
    requires i < |s.activities[|s.activities| - 1].tasks| && s.activities[|s.activities| - 1].tasks[i].status.Pending?
    requires DecideTask(env, s, |s.activities| - 1, i, Grant, now).Ok?
    ensures var last, t := |s.activities| - 1, DecideTask(env, s, |s.activities| - 1, i, Grant, now).value;
            |t.activities| > last && Granted(env.nodes[s.current], s, t, s.activities[last], t.activities[last], i)
  {
    var a, n := s.activities[|s.activities| - 1], env.nodes[s.current];
    var approved := a.tasks[i := a.tasks[i].(status := TaskStatus.Approved)];
    DecideTaskIs(env, s, i, Grant, now);
    assert OneApproved(a.tasks, approved, i);
    if n.mode.Any? {
      ReplacedGoes(env, s, a.(status := Completed, tasks := Settle(approved, Closed)), n.next, now);
    } else if !SomePending(approved) {
      ReplacedGoes(env, s, a.(status := Completed, tasks := approved), n.next, now);
    }
  }

  /**
   A decision that is accepted is about a pending task the actor holds, in the activity the instance waits for.
   A grant approves that task, a denial rejects the activity, and the instance goes on as the node says.
   */
  lemma DecisionTakes(lang: Language, nodes: seq<Node>, start: Node, env: Env, s: Instance, actor: string,
      decision: Decision, target: Target, now: int)
    requires Reached(lang, nodes, start, env, s) && Decide(env, s, actor, decision, target, now).Ok?
    ensures s.activities != [] && s.current in env.nodes && env.nodes[s.current].Approval?
    ensures var last, t := |s.activities| - 1, Decide(env, s, actor, decision, target, now).value;
            |t.activities| > last &&
            var a, b, n := s.activities[last], t.activities[last], env.nodes[s.current];
            exists i: nat :: Asked(a, last, i, actor, target)
              && if decision == Grant then Granted(n, s, t, a, b, i) else Denied(n, s, t, a, b)
  {
    ReachedInv(lang, nodes, start, env, s);
    RunningIsAtApproval(env, start, s);
    var last := |s.activities| - 1;
    AskedIs(env, s, actor, decision, target, now);
    var at := Locate(s, actor, target).value.1;
    if decision.Deny? {
      DecideTaskIs(env, s, at, decision, now);
      RefusedIs(env, s, now);
    } else {
      GrantedIs(env, s, at, now);
    }
    assert Asked(s.activities[last], last, at, actor, target);
  }

  lemma AskedIs(env: Env, s: Instance, actor: string, decision: Decision, target: Target, now: int)
    requires Acyclic(env) && Waiting(s) && Decide(env, s, actor, decision, target, now).Ok?
    ensures Locate(s, actor, target).Ok?
    ensures var last, row := |s.activities| - 1, Locate(s, actor, target).value;
            && row.0 == last && Asked(s.activities[last], last, row.1, actor, target)
            && s.activities[last].node in env.nodes && env.nodes[s.activities[last].node].Approval?
            && Decide(env, s, actor, decision, target, now) == DecideTask(env, s, last, row.1, decision, now)
  {
    var row := Locate(s, actor, target).value;
    if row.0 < |s.activities| - 1 {
      NotLast(s, row.0);
    }
  }

  // ---- Withdrawals

  /** A withdrawal is accepted exactly from the submitter of a running instance; it ends the activity it waits for. */
  lemma WithdrawIff(lang: Language, nodes: seq<Node>, start: Node, env: Env, s: Instance, actor: string)
    requires Reached(lang, nodes, start, env, s)
    ensures Withdraw(s, actor).Ok? <==> s.status.Running? && actor == s.submitter
    ensures Withdraw(s, actor).Ok? ==>
              s.activities != [] &&
              var last, t := |s.activities| - 1, Withdraw(s, actor).value;
              && t == s.(status := InstanceStatus.Withdrawn, activities := t.activities)
              && |t.activities| == |s.activities| && t.activities[..last] == s.activities[..last]
              && t.activities[last] ==
                 s.activities[last].(status := ActivityStatus.Withdrawn, tasks := t.activities[last].tasks)
              && AllSet(s.activities[last].tasks, t.activities[last].tasks, TaskStatus.Withdrawn)
  {
    if Withdraw(s, actor).Ok? {
      ReachedInv(lang, nodes, start, env, s);
      WithdrawIs(s, actor);
    }
  }

  // ---- Timeouts

  /** Its pending tasks time out and the targets get one each, once; the deadline goes. */
  ghost predicate RaisedTo(s: Instance, t: Instance, a: Activity, b: Activity, to: seq<string>) {
    && StaysPut(s, t) && t.escalations == s.escalations + [|s.activities| - 1]
    && b == a.(escalated := true, deadline := None, tasks := b.tasks) && |b.tasks| == |a.tasks| + |to|
    && AllSet(a.tasks, b.tasks[..|a.tasks|], TimeoutClosed)
    && forall j | 0 <= j < |to| :: b.tasks[|a.tasks| + j] == Task(to[j], TaskStatus.Pending)
  }

  ghost predicate TimesOut(n: Node, s: Instance, t: Instance, a: Activity, b: Activity)
    requires n.Approval? && n.action.Some?
  {
    match n.action.value
    case Escalate(to) =>
      if a.escalated then b == a.(deadline := None) && StaysPut(s, t) && t.escalations == s.escalations
      else RaisedTo(s, t, a, b, to)
    case AutoApprove =>
      && b == a.(status := TimeoutResolved, tasks := b.tasks) && AllSet(a.tasks, b.tasks, TaskStatus.Approved)
      && GoesTo(s, t, n.next)
    case AutoReject => Denied(n, s, t, a, b)
  }

  lemma TimeoutIs(env: Env, s: Instance, now: int)
    requires AtApproval(env, s) && env.nodes[s.current].action.Some?
    requires SomePending(s.activities[|s.activities| - 1].tasks)
    requires SweepActivity(env, s, |s.activities| - 1, now).Ok?
    ensures var last, t := |s.activities| - 1, SweepActivity(env, s, |s.activities| - 1, now).value.state;
            |t.activities| > last && TimesOut(env.nodes[s.current], s, t, s.activities[last], t.activities[last])
  {
    var a, n := s.activities[|s.activities| - 1], env.nodes[s.current];
    SweepActivityIs(env, s, now);
    match n.action.value
    case Escalate(to) =>
      if !a.escalated {
        assert Escalated(a, to).tasks[..|a.tasks|] == Settle(a.tasks, TimeoutClosed);
      }
    case AutoApprove =>
      ReplacedGoes(env, s, a.(status := TimeoutResolved, tasks := Settle(a.tasks, TaskStatus.Approved)), n.next, now);
    case AutoReject => RefusedIs(env, s, now);
  }

  /** A sweep leaves an instance alone whose deadline has not passed, and does to one that is due what its node says. */
  lemma SweepTakes(lang: Language, nodes: seq<Node>, start: Node, env: Env, s: Instance, now: int)
    requires Reached(lang, nodes, start, env, s) && s.status.Running? && Sweep(env, s, now).Ok?
    ensures s.activities != [] && s.current in env.nodes && env.nodes[s.current].Approval?
    ensures var last, t := |s.activities| - 1, Sweep(env, s, now).value;
            var a := s.activities[last];
            if a.deadline.None? || a.deadline.value > now then t == s
            else
              && env.nodes[s.current].action.Some? && |t.activities| > last
              && TimesOut(env.nodes[s.current], s, t, a, t.activities[last])
  {
    ReachedInv(lang, nodes, start, env, s);
    RunningIsAtApproval(env, start, s);
    SweepIs(env, s, now);
    var a := s.activities[|s.activities| - 1];
    if Due(a, now) {
      DueHasAction(env, start, s, now);
      TimeoutIs(env, s, now);
    }
  }

  lemma DueHasAction(env: Env, start: Node, s: Instance, now: int)
    requires Good(env, start, s) && Due(s.activities[|s.activities| - 1], now)
    ensures s.current in env.nodes && env.nodes[s.current].Approval? && env.nodes[s.current].action.Some?
    ensures SomePending(s.activities[|s.activities| - 1].tasks)
  {
    assert ActivityFits(env, s.activities[|s.activities| - 1]);
  }

  // ---- Entering an approval

  /** A stay just begun: a pending task per approver, and a deadline if the node has a timeout that is not zero. */
  ghost predicate JustEntered(n: Node, a: Activity, now: int)
    requires n.Approval?
  {
    && a.node == n.id && a.status == ActivityStatus.Pending && !a.escalated && |a.tasks| == |n.approvers|
    && (forall i | 0 <= i < |a.tasks| :: a.tasks[i] == Task(n.approvers[i], TaskStatus.Pending))
    && a.deadline == match n.timeout
                     case Some(seconds) => if seconds == 0 then None else Some(now + seconds)
                     case None => None
  }

  /** An advance that leaves the instance running ends in a stay just begun; otherwise it adds none. */
  lemma {:induction false} AdvanceEnters(env: Env, s: Instance, target: NodeId, now: int)
    requires Acyclic(env) && (forall v | v in env.nodes :: env.nodes[v].id == v) && s.status.Running?
    requires Advance(env, s, target, now).Ok?
    ensures var t := Advance(env, s, target, now).value;
            if t.status.Running? then
              && |t.activities| == |s.activities| + 1 && t.activities[..|s.activities|] == s.activities
              && t.current in env.nodes && env.nodes[t.current].Approval?
              && JustEntered(env.nodes[t.current], t.activities[|s.activities|], now)
            else t.activities == s.activities
    decreases Below(GraphOf(env.nodes), target)
  {
    var n := env.nodes[target];
    assert n.id == target;
    if n.Condition? {
      Onward(env, s, target, now);
      AdvanceEnters(env, s.(trail := s.trail + [target]), NextOf(env, n), now);
    }
  }

  /** An instance begins as its submitter's, at the start node, and goes on from there. */
  lemma BeginTakes(env: Env, start: Node, submitter: string, now: int)
    requires Sound(env, start) && Begin(env, start, submitter, now).Ok?
    ensures var t := Begin(env, start, submitter, now).value;
            && t.submitter == submitter && |t.trail| >= 2 && t.trail[0] == start.id && t.trail[1] == start.next
            && t.escalations == []
            && (if t.status.Running? then
                  && |t.activities| == 1 && t.current in env.nodes && env.nodes[t.current].Approval?
                  && JustEntered(env.nodes[t.current], t.activities[0], now)
                else t.activities == [])
  {
    var s := Instance(submitter, Running, "", [], [start.id], []);
    AdvanceGoes(env, s, start.next, now);
    AdvanceEnters(env, s, start.next, now);
    AdvanceFrame(env, s, start.next, now);
    assert Begin(env, start, submitter, now).value.trail[..1][0] == start.id;
  }

  lemma {:induction false} AdvanceFrame(env: Env, s: Instance, target: NodeId, now: int)
    requires Acyclic(env) && (forall v | v in env.nodes :: env.nodes[v].id == v)
    requires Advance(env, s, target, now).Ok?
    ensures var t := Advance(env, s, target, now).value;
            t.submitter == s.submitter && t.escalations == s.escalations
    decreases Below(GraphOf(env.nodes), target)
  {
    if env.nodes[target].Condition? {
      assert env.nodes[target].id == target;
      Onward(env, s, target, now);
      AdvanceFrame(env, s.(trail := s.trail + [target]), NextOf(env, env.nodes[target]), now);
    }
  }
}
