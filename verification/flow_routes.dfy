/** The way an instance takes: each step of its trail is the one its decisions prescribe, and so is its outcome. */
module FlowRoutes {
  import opened Wrappers
  import opened FlowGraph
  import opened FlowValidator
  import opened FlowEngine
  import opened FlowRuns

  /** Where a settled stay sends the instance. */
  function AfterStay(n: Node, status: ActivityStatus): Option<NodeId>
    requires n.Approval?
  {
    match status
    case Completed => Some(n.next)
    case TimeoutResolved => Some(n.next)
    case Rejected => if n.onReject != "" then Some(n.onReject) else None
    case _ => None
  }

  /** Where a node sends the instance; `stays` ends with its own when it is an approval. */
  function AfterNode(env: Env, n: Node, stays: seq<Activity>): Option<NodeId> {
    match n
    case Start(_, next, _) => Some(next)
    case End(_, _, _) => None
    case Approval(_, _, _, _, _, _, _) => if stays == [] then None else AfterStay(n, stays[|stays| - 1].status)
    case Condition(_, branches, default) =>
      match Choose(branches, env.eval)
      case Match(next) => Some(next)
      case NoMatch => if default != "" then Some(default) else None
      case Raised => None
  }

  function StaysBefore(env: Env, last: NodeId, activities: seq<Activity>): seq<Activity> {
    if last in env.nodes && env.nodes[last].Approval? && activities != [] then activities[..|activities| - 1]
      else activities
  }

  /** Every step of the trail is the prescribed one. */
  ghost predicate Routed(env: Env, trail: seq<NodeId>, activities: seq<Activity>)
    decreases |trail|
  {
    |trail| <= 1 ||
      var last, before := trail[|trail| - 1], trail[|trail| - 2];
      var earlier := StaysBefore(env, last, activities);
      && Routed(env, trail[..|trail| - 1], earlier)
      && before in env.nodes && AfterNode(env, env.nodes[before], earlier) == Some(last)
  }

  /** A finished instance ended where its status says. */
  ghost predicate Ended(env: Env, s: Instance) {
    && s.trail != [] && Last(s.trail) in env.nodes
    && var n := env.nodes[Last(s.trail)];
       match s.status
       case Running => true
       case Approved => n.End? && n.outcome.Approve? && s.current == n.id
       case Rejected =>
         || (n.End? && n.outcome.Reject? && s.current == n.id)
         || (n.Approval? && n.onReject == "" && s.activities != [] && s.activities[|s.activities| - 1].status.Rejected?)
       case Withdrawn => n.Approval? && s.activities != [] && s.activities[|s.activities| - 1].status.Withdrawn?
  }

  ghost predicate RouteInv(env: Env, s: Instance) {
    Routed(env, s.trail, s.activities) && Ended(env, s)
  }

  // ---- Advancing

  lemma PassRoutes(env: Env, trail: seq<NodeId>, activities: seq<Activity>, target: NodeId)
    requires trail != [] && Routed(env, trail, activities) && Last(trail) in env.nodes
    requires AfterNode(env, env.nodes[Last(trail)], activities) == Some(target)
    requires target in env.nodes && !env.nodes[target].Approval?
    ensures Routed(env, trail + [target], activities)
  {
    assert (trail + [target])[..|trail|] == trail;
  }

  lemma EnterRoutes(env: Env, trail: seq<NodeId>, activities: seq<Activity>, target: NodeId, a: Activity)
    requires trail != [] && Routed(env, trail, activities) && Last(trail) in env.nodes
    requires AfterNode(env, env.nodes[Last(trail)], activities) == Some(target)
    requires target in env.nodes && env.nodes[target].Approval?
    ensures Routed(env, trail + [target], activities + [a])
  {
    assert (trail + [target])[..|trail|] == trail;
    assert (activities + [a])[..|activities|] == activities;
  }

  lemma ApprovalRoutes(env: Env, s: Instance, target: NodeId, now: int)
    requires s.status.Running? && s.trail != [] && Last(s.trail) in env.nodes && Routed(env, s.trail, s.activities)
    requires AfterNode(env, env.nodes[Last(s.trail)], s.activities) == Some(target)
    requires target in env.nodes && env.nodes[target].Approval? && env.nodes[target].id == target
    requires EnterApproval(s, env.nodes[target], now).Ok?
    ensures RouteInv(env, EnterApproval(s, env.nodes[target], now).value)
  {
    var a := EnterApproval(s, env.nodes[target], now).value.activities[|s.activities|];
    EnterRoutes(env, s.trail, s.activities, target, a);
  }

  lemma EndRoutes(env: Env, s: Instance, target: NodeId)
    requires s.trail != [] && Last(s.trail) in env.nodes && Routed(env, s.trail, s.activities)
    requires AfterNode(env, env.nodes[Last(s.trail)], s.activities) == Some(target)
    requires target in env.nodes && env.nodes[target].End? && env.nodes[target].id == target
    ensures RouteInv(env, EnterEnd(s, env.nodes[target]))
  {
    PassRoutes(env, s.trail, s.activities, target);
  }

  /** Passing a condition leaves the instance there, about to go where the condition leads. */
  lemma ConditionRoutes(env: Env, s: Instance, target: NodeId, now: int)
    requires Acyclic(env) && s.trail != [] && Last(s.trail) in env.nodes && Routed(env, s.trail, s.activities)
    requires AfterNode(env, env.nodes[Last(s.trail)], s.activities) == Some(target)
    requires target in env.nodes && env.nodes[target].Condition? && env.nodes[target].id == target
    requires Advance(env, s, target, now).Ok?
    ensures var passed := s.trail + [target];
            && Last(passed) == target && Routed(env, passed, s.activities)
            && AfterNode(env, env.nodes[target], s.activities) == Some(NextOf(env, env.nodes[target]))
  {
    PassRoutes(env, s.trail, s.activities, target);
  }

  lemma {:induction false} AdvanceRoutes(env: Env, s: Instance, target: NodeId, now: int)
    requires Acyclic(env) && forall v | v in env.nodes :: env.nodes[v].id == v
    requires s.status.Running? && s.trail != [] && Last(s.trail) in env.nodes && Routed(env, s.trail, s.activities)
    requires AfterNode(env, env.nodes[Last(s.trail)], s.activities) == Some(target)
    requires Advance(env, s, target, now).Ok?
    ensures RouteInv(env, Advance(env, s, target, now).value)
    decreases Below(GraphOf(env.nodes), target)
  {
    var n := env.nodes[target];
    assert n.id == target;
    match n
    case End(_, _, _) => EndRoutes(env, s, target);
    case Approval(_, _, _, _, _, _, _) => ApprovalRoutes(env, s, target, now);
    case Condition(_, _, _) =>
      ConditionRoutes(env, s, target, now);
      Onward(env, s, target, now);
      AdvanceRoutes(env, s.(trail := s.trail + [target]), NextOf(env, n), now);
  }

  // ---- Settling the last stay

  /** The route up to the last stay does not depend on how it is settled. */
  lemma ReplaceRoutes(env: Env, s: Instance, a: Activity)
    requires Waiting(s) && Routed(env, s.trail, s.activities)
    requires Last(s.trail) in env.nodes && env.nodes[Last(s.trail)].Approval?
    ensures Routed(env, s.trail, Replaced(s, a).activities)
  {
    var last := |s.activities| - 1;
    assert Replaced(s, a).activities[..last] == s.activities[..last];
  }

  /** What the lemmas below use of a running instance. */
  ghost predicate AtStay(env: Env, s: Instance) {
    && Acyclic(env) && (forall v | v in env.nodes :: env.nodes[v].id == v)
    && Waiting(s) && s.status.Running? && Routed(env, s.trail, s.activities)
    && s.current in env.nodes && env.nodes[s.current].Approval?
  }

  lemma RunningAtStay(env: Env, start: Node, s: Instance)
    requires Good(env, start, s) && RouteInv(env, s)
    ensures AtStay(env, s) && ActivityFits(env, s.activities[|s.activities| - 1])
  {
    assert ActivityFits(env, s.activities[|s.activities| - 1]);
  }

  lemma SettleRoutes(env: Env, s: Instance, a: Activity, target: NodeId, now: int)
    requires AtStay(env, s) && AfterStay(env.nodes[s.current], a.status) == Some(target)
    requires Advance(env, Replaced(s, a), target, now).Ok?
    ensures RouteInv(env, Advance(env, Replaced(s, a), target, now).value)
  {
    ReplaceRoutes(env, s, a);
    AdvanceRoutes(env, Replaced(s, a), target, now);
  }

  lemma RefusedRoutes(env: Env, s: Instance, now: int)
    requires AtStay(env, s) && Refused(env, s, now).Ok?
    ensures RouteInv(env, Refused(env, s, now).value)
  {
    var a := s.activities[|s.activities| - 1];
    var n := env.nodes[s.current];
    var c := a.(status := ActivityStatus.Rejected, tasks := Settle(a.tasks, Closed));
    if n.onReject != "" {
      SettleRoutes(env, s, c, n.onReject, now);
    } else {
      ReplaceRoutes(env, s, c);
    }
  }

  // ---- Each operation

  lemma DecideRoutes(env: Env, start: Node, s: Instance, actor: string, decision: Decision, target: Target, now: int)
    requires Good(env, start, s) && RouteInv(env, s)
    requires Decide(env, s, actor, decision, target, now).Ok?
    ensures RouteInv(env, Decide(env, s, actor, decision, target, now).value)
  {
    var i := DecideIs(env, s, actor, decision, target, now);
    RunningAtStay(env, start, s);
    DecideTaskRoutes(env, s, i, decision, now);
  }

  lemma DecideTaskRoutes(env: Env, s: Instance, i: nat, decision: Decision, now: int)
    requires AtStay(env, s)
    requires i < |s.activities[|s.activities| - 1].tasks| && s.activities[|s.activities| - 1].tasks[i].status.Pending?
    requires DecideTask(env, s, |s.activities| - 1, i, decision, now).Ok?
    ensures RouteInv(env, DecideTask(env, s, |s.activities| - 1, i, decision, now).value)
  {
    var a := s.activities[|s.activities| - 1];
    var n := env.nodes[s.current];
    var approved := a.tasks[i := a.tasks[i].(status := TaskStatus.Approved)];
    DecideTaskIs(env, s, i, decision, now);
    if decision.Deny? {
      RefusedRoutes(env, s, now);
    } else if n.mode.Any? {
      SettleRoutes(env, s, a.(status := Completed, tasks := Settle(approved, Closed)), n.next, now);
    } else if SomePending(approved) {
      ReplaceRoutes(env, s, a.(status := ActivityStatus.Pending, tasks := approved));
    } else {
      SettleRoutes(env, s, a.(status := Completed, tasks := approved), n.next, now);
    }
  }

  lemma WithdrawRoutes(env: Env, s: Instance, actor: string)
    requires AtStay(env, s) && Withdraw(s, actor).Ok?
    ensures RouteInv(env, Withdraw(s, actor).value)
  {
    WithdrawIs(s, actor);
    ReplaceRoutes(env, s, Recalled(s.activities[|s.activities| - 1]));
  }

  lemma SweepRoutes(env: Env, s: Instance, now: int)
    requires AtStay(env, s) && ActivityFits(env, s.activities[|s.activities| - 1])
    requires Sweep(env, s, now).Ok?
    ensures RouteInv(env, Sweep(env, s, now).value)
  {
    SweepIs(env, s, now);
    var a := s.activities[|s.activities| - 1];
    if Due(a, now) {
      SweepActivityIs(env, s, now);
      match env.nodes[s.current].action.value
      case Escalate(to) =>
        ReplaceRoutes(env, s, Escalated(a, to));
        ReplaceRoutes(env, s, a.(deadline := None));
      case AutoApprove =>
        SettleRoutes(env, s, a.(status := TimeoutResolved, tasks := Settle(a.tasks, TaskStatus.Approved)),
          env.nodes[s.current].next, now);
      case AutoReject => RefusedRoutes(env, s, now);
    }
  }

  lemma StepRoutes(env: Env, start: Node, s: Instance, op: Op, now: int)
    requires Sound(env, start) && Inv(env, start, s) && RouteInv(env, s)
    ensures RouteInv(env, Step(env, s, op, now))
  {
    if !s.status.Running? {
      FinishedStays(env, s, op, now);
    } else if Attempt(env, s, op, now).Ok? {
      RunningAtStay(env, start, s);
      match op
      case DoDecide(actor, decision, target) => DecideRoutes(env, start, s, actor, decision, target, now);
      case DoWithdraw(actor) => WithdrawRoutes(env, s, actor);
      case DoSweep => SweepRoutes(env, s, now);
    }
  }

  lemma BeginRoutes(env: Env, start: Node, submitter: string, now: int)
    requires Sound(env, start) && Begin(env, start, submitter, now).Ok?
    ensures RouteInv(env, Begin(env, start, submitter, now).value)
  {
    AdvanceRoutes(env, Instance(submitter, Running, "", [], [start.id], []), start.next, now);
  }

  lemma {:induction false} RunRoutes(env: Env, start: Node, s: Instance, ops: seq<(Op, int)>)
    requires Sound(env, start) && Inv(env, start, s) && RouteInv(env, s)
    ensures RouteInv(env, Run(env, s, ops))
    decreases |ops|
  {
    if ops == [] {
    } else {
      StepKeeps(env, start, s, ops[0].0, ops[0].1);
      StepRoutes(env, start, s, ops[0].0, ops[0].1);
      RunRoutes(env, start, Step(env, s, ops[0].0, ops[0].1), ops[1..]);
    }
  }

  lemma ReachedRoutes(lang: Language, nodes: seq<Node>, start: Node, env: Env, s: Instance)
    requires Reached(lang, nodes, start, env, s)
    ensures RouteInv(env, s)
  {
    var submitter, now, ops :|
      Begin(env, start, submitter, now).Ok? && s == Run(env, Begin(env, start, submitter, now).value, ops);
    BeginKeeps(env, start, submitter, now);
    BeginRoutes(env, start, submitter, now);
    RunRoutes(env, start, Begin(env, start, submitter, now).value, ops);
  }

  // ---- What the route says

  /** The node after an approval is where its stay's own result leads. */
  lemma {:induction false} RouteAt(env: Env, trail: seq<NodeId>, activities: seq<Activity>, p: nat)
    requires Routed(env, trail, activities) && p + 1 < |trail|
    requires Stays(env, trail) == NodesOf(activities)
    ensures trail[p] in env.nodes
    ensures env.nodes[trail[p]].Approval? ==>
              exists k :: 0 <= k < |activities| && activities[k].node == trail[p]
                && AfterStay(env.nodes[trail[p]], activities[k].status) == Some(trail[p + 1])
    ensures !env.nodes[trail[p]].Approval? ==> AfterNode(env, env.nodes[trail[p]], []) == Some(trail[p + 1])
    decreases |trail|
  {
    var rest := trail[..|trail| - 1];
    var earlier := StaysBefore(env, trail[|trail| - 1], activities);
    StaysShrink(env, trail, activities);
    if p + 2 < |trail| {
      RouteAt(env, rest, earlier, p);
    } else if env.nodes[trail[p]].Approval? {
      var k := |earlier| - 1;
      LastStay(env, rest, earlier);
      assert activities[k] == earlier[k];
    }
  }

  lemma StaysShrink(env: Env, trail: seq<NodeId>, activities: seq<Activity>)
    requires trail != [] && Stays(env, trail) == NodesOf(activities)
    ensures var earlier := StaysBefore(env, trail[|trail| - 1], activities);
            && Stays(env, trail[..|trail| - 1]) == NodesOf(earlier) && |earlier| <= |activities|
            && forall k | 0 <= k < |earlier| :: earlier[k] == activities[k]
  {
    var earlier := StaysBefore(env, trail[|trail| - 1], activities);
    assert NodesOf(earlier) == NodesOf(activities)[..|earlier|];
  }

  lemma LastStay(env: Env, trail: seq<NodeId>, activities: seq<Activity>)
    requires trail != [] && Stays(env, trail) == NodesOf(activities)
    requires Last(trail) in env.nodes && env.nodes[Last(trail)].Approval?
    ensures activities != [] && activities[|activities| - 1].node == Last(trail)
  {
    assert NodesOf(activities)[|activities| - 1] == Last(trail);
  }

  /**
   A start leads to its next node; a condition where its first branch that is not passed over leads, if that
   one holds, and to its default if all are passed over.
   */
  ghost predicate Leads(env: Env, n: Node, next: NodeId) {
    match n
    case Start(_, first, _) => next == first
    case Condition(_, branches, default) =>
      Chosen(branches, env.eval, next) || (AllPassed(branches, env.eval) && next == default != "")
    case _ => false
  }

  lemma AfterNodeLeads(env: Env, n: Node, next: NodeId)
    requires !n.Approval?
    ensures AfterNode(env, n, []) == Some(next) <==> Leads(env, n, next)
  {
    if n.Condition? {
      ChooseIff(n.branches, env.eval);
    }
  }

  /**
   Every step of an instance is the prescribed one: from the start to its next node, from a condition
   along its first branch that holds or its default, and from an approval to `next` when its own stay
   was approved, by consent or timeout, and to `on_reject` when it was rejected.
   */
  lemma StepsArePrescribed(lang: Language, nodes: seq<Node>, start: Node, env: Env, s: Instance, p: nat)
    requires Reached(lang, nodes, start, env, s) && p + 1 < |s.trail|
    ensures s.trail[p] in env.nodes
    ensures env.nodes[s.trail[p]].Approval? ==>
              exists k :: 0 <= k < |s.activities| && s.activities[k].node == s.trail[p]
                && AfterStay(env.nodes[s.trail[p]], s.activities[k].status) == Some(s.trail[p + 1])
    ensures !env.nodes[s.trail[p]].Approval? ==> Leads(env, env.nodes[s.trail[p]], s.trail[p + 1])
  {
    ReachedInv(lang, nodes, start, env, s);
    ReachedRoutes(lang, nodes, start, env, s);
    RouteAt(env, s.trail, s.activities, p);
    if !env.nodes[s.trail[p]].Approval? {
      AfterNodeLeads(env, env.nodes[s.trail[p]], s.trail[p + 1]);
    }
  }

  /**
   An instance is approved only at an end node that says so, rejected at one that says so or by a
   rejection that leads nowhere, and withdrawn where it was waiting.
   */
  lemma OutcomeIsPrescribed(lang: Language, nodes: seq<Node>, start: Node, env: Env, s: Instance)
    requires Reached(lang, nodes, start, env, s)
    ensures Ended(env, s)
  {
    ReachedRoutes(lang, nodes, start, env, s);
  }
}
