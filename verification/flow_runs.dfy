/** What holds over the whole life of an instance of a published definition. */
module FlowRuns {
  import opened Wrappers
  import opened FlowGraph
  import opened FlowValidator
  import opened FlowEngine

  // ---- What publication gives the engine

  /** An instance is bound to a definition the validator accepted; the request schema wants approvers. */
  ghost predicate Published(lang: Language, nodes: seq<Node>, start: Node, env: Env) {
    && WellFormed(lang, nodes) && OneStart(nodes, start)
    && env.nodes == NodeMap(nodes)
    && forall n | n in nodes && n.Approval? :: n.approvers != []
  }

  ghost predicate ApprovalSound(n: Node) {
    n.Approval? ==>
      && n.approvers != [] && !Repeats(n.approvers)
      && n.timeout.Some? == n.action.Some?
      && (Escalates(n) ==>
            && n.action.value.to != [] && !Repeats(n.action.value.to)
            && forall a | a in n.action.value.to :: a !in n.approvers)
  }

  ghost predicate Sound(env: Env, start: Node) {
    && Acyclic(env)
    && start.Start? && start.id in env.nodes && env.nodes[start.id] == start
    && (forall v | v in env.nodes :: env.nodes[v].id == v && ApprovalSound(env.nodes[v]))
    && (forall v | v in env.nodes :: RefsSound(env, env.nodes[v]))
  }

  ghost predicate RefsSound(env: Env, n: Node) {
    forall ref | ref in Refs(n) :: ref in env.nodes && !env.nodes[ref].Start?
  }

  lemma PublishedIsSound(lang: Language, nodes: seq<Node>, start: Node, env: Env)
    requires Published(lang, nodes, start, env)
    ensures Sound(env, start)
  {
    NodeMapKeys(nodes);
    NodeMapFinds(nodes, start);
    forall v | v in env.nodes
      ensures env.nodes[v].id == v && ApprovalSound(env.nodes[v]) && RefsSound(env, env.nodes[v])
    {
      assert NodeFine(lang, env.nodes, env.nodes[v]);
    }
  }

  // ---- When advancing succeeds

  /** A condition some branch or the default decides, with nothing raised before. */
  ghost predicate Decides(env: Env, n: Node) {
    n.Condition? ==>
      || (exists next :: Chosen(n.branches, env.eval, next))
      || (AllPassed(n.branches, env.eval) && n.default != "")
  }

  lemma {:induction false} AdvanceSucceeds(env: Env, start: Node, s: Instance, target: NodeId, now: int)
    requires Sound(env, start) && forall v | v in env.nodes :: Decides(env, env.nodes[v])
    requires target in env.nodes && !env.nodes[target].Start?
    ensures Advance(env, s, target, now).Ok?
    decreases Below(GraphOf(env.nodes), target)
  {
    var n := env.nodes[target];
    assert ApprovalSound(n) && Decides(env, n) && RefsSound(env, n);
    if n.Condition? {
      var s1 := s.(trail := s.trail + [n.id]);
      ChooseIff(n.branches, env.eval);
      match Choose(n.branches, env.eval)
      case Match(next) =>
        BranchShrinks(env, target, next);
        AdvanceSucceeds(env, start, s1, next, now);
      case NoMatch =>
        BranchShrinks(env, target, n.default);
        AdvanceSucceeds(env, start, s1, n.default, now);
    }
  }

  /** Advancing from every node but the start succeeds exactly when every condition is decided. */
  lemma AdvanceSucceedsIff(env: Env, start: Node, s: Instance, now: int)
    requires Sound(env, start)
    ensures (forall v | v in env.nodes && !env.nodes[v].Start? :: Advance(env, s, v, now).Ok?)
         <==> (forall v | v in env.nodes :: Decides(env, env.nodes[v]))
  {
    if forall v | v in env.nodes :: Decides(env, env.nodes[v]) {
      forall v | v in env.nodes && !env.nodes[v].Start?
        ensures Advance(env, s, v, now).Ok?
      {
        AdvanceSucceeds(env, start, s, v, now);
      }
    } else {
      var v :| v in env.nodes && !Decides(env, env.nodes[v]);
      ChooseIff(env.nodes[v].branches, env.eval);
      assert Advance(env, s, v, now).Err?;
    }
  }

  /** Defaults everywhere are enough, unless evaluation raises. */
  lemma DefaultsDecide(env: Env, n: Node)
    requires n.Condition? && n.default != ""
    requires forall b | b in n.branches :: !env.eval(b.when).Raises?
    ensures Decides(env, n)
  {
    ChooseIff(n.branches, env.eval);
    if !AllPassed(n.branches, env.eval) {
      ChooseNone(n.branches, env.eval);
      var i: nat :| FirstAt(n.branches, env.eval, i);
      assert Chosen(n.branches, env.eval, n.branches[i].next);
    }
  }

  /**
   The validator accepts a condition without a default when a branch reads `true`. The evaluator
   takes that for the name of a variable, so where the context does not define it the instance
   cannot get past the condition.
   */
  lemma LiteralTrueCanStrand(lang: Language, eval: string -> Verdict, now: int)
    requires lang.parses("true") && lang.fold("true") == "true" && eval("true") == Unevaluable
    ensures WellFormed(lang, Strand()) && Acyclic(Env(NodeMap(Strand()), eval))
    ensures Begin(Env(NodeMap(Strand()), eval), Strand()[0], "user", now) == Err(ConditionUnmatched)
  {
    StrandMap();
    StrandWellFormed(lang);
    assert Strand()[1].branches[1..] == [];
    assert Choose(Strand()[1].branches, eval) == NoMatch;
  }

  function Strand(): seq<Node> {
    [Start("s", "c", ""), Condition("c", [Branch("true", "e")], ""), End("e", Outcome.Approve, [])]
  }

  lemma StrandMap()
    ensures NodeMap(Strand()) == map["s" := Strand()[0], "c" := Strand()[1], "e" := Strand()[2]]
    ensures GraphOf(NodeMap(Strand())) == map["s" := ["c"], "c" := ["e"], "e" := []]
  {
    var d := Strand();
    assert d[..2] == [d[0], d[1]] && [d[0], d[1]][..1] == [d[0]] && [d[0]][..0] == [];
    assert NodeMap([d[0]]) == map["s" := d[0]];
    assert NodeMap([d[0], d[1]]) == map["s" := d[0], "c" := d[1]];
    assert Refs(d[0]) == ["c"] && Refs(d[1]) == ["e"] && Refs(d[2]) == [];
  }

  lemma StrandWellFormed(lang: Language)
    requires lang.parses("true") && lang.fold("true") == "true"
    ensures WellFormed(lang, Strand()) && !Cyclic(GraphOf(NodeMap(Strand())))
  {
    var d := Strand();
    StrandMap();
    SmallGraph(GraphOf(NodeMap(d)));
    assert d[1].branches[0] in d[1].branches;
    assert OneStart(d, d[0]) && FromStart(d, d[0].id);
    assert d[2] in d;
    forall n | n in d
      ensures NodeFine(lang, NodeMap(d), n)
    {
      assert n == d[0] || n == d[1] || n == d[2];
    }
  }

  lemma SmallGraph(g: Graph)
    requires g == map["s" := ["c"], "c" := ["e"], "e" := []]
    ensures !Cyclic(g) && forall v | v in g :: Reach(g, "s", v)
  {
    ReachSelf(g, "s");
    ExtendReach(g, "s", "s", "c");
    ExtendReach(g, "s", "c", "e");
    forall p | ClosedWalk(g, p)
      ensures false
    {
      RankFalls(g, map["s" := 2, "c" := 1, "e" := 0], p);
    }
  }

  // ---- The invariant

  /** Approvers in order, followed after an escalation by its targets. */
  function Invited(n: Node, escalated: bool): seq<string>
    requires n.Approval?
  {
    if escalated && Escalates(n) then n.approvers + n.action.value.to else n.approvers
  }

  /** What a task's status may be, given its activity's. */
  ghost predicate TaskFits(n: Node, a: Activity, i: nat)
    requires n.Approval? && i < |a.tasks|
  {
    var t := a.tasks[i].status;
    var timedOut := a.escalated && i < |n.approvers|;
    && !t.Rejected?
    && (t.TimeoutClosed? ==> timedOut)
    && (t.Pending? ==> a.status.Pending? && !timedOut)
    && (t.Withdrawn? ==> a.status.Withdrawn?)
    && (t.Closed? ==> a.status.Rejected? || (a.status.Completed? && n.mode.Any?))
    && (t.Approved? ==> n.mode.All? || a.status.Completed? || a.status.TimeoutResolved?)
    && (a.status.TimeoutResolved? ==> t.Approved?)
  }

  ghost predicate OneApproval(tasks: seq<Task>) {
    exists i :: 0 <= i < |tasks| && tasks[i].status.Approved?
      && forall j | 0 <= j < |tasks| && j != i :: !tasks[j].status.Approved?
  }

  ghost predicate Fits(n: Node, a: Activity) {
    && n.Approval? && a.node == n.id
    && |a.tasks| == |Invited(n, a.escalated)|
    && (forall i | 0 <= i < |a.tasks| :: a.tasks[i].assignee == Invited(n, a.escalated)[i])
    && (forall i | 0 <= i < |a.tasks| :: TaskFits(n, a, i))
    && (a.escalated ==> Escalates(n) && a.deadline.None?)
    && (a.deadline.Some? ==> n.action.Some?)
    && (a.status.Pending? ==> SomePending(a.tasks))
    && (a.status.Completed? && n.mode.Any? ==> OneApproval(a.tasks))
    && (a.status.Rejected? ==> exists i :: 0 <= i < |a.tasks| && a.tasks[i].status.Closed?)
    && (a.status.TimeoutResolved? ==> n.action == Some(AutoApprove))
  }

  ghost predicate ActivityFits(env: Env, a: Activity) {
    a.node in env.nodes && Fits(env.nodes[a.node], a)
  }

  /** The approval nodes on a trail. */
  function Stays(env: Env, trail: seq<NodeId>): (r: seq<NodeId>)
    ensures |r| <= |trail|
  {
    if trail == [] then []
    else
      var last := trail[|trail| - 1];
      Stays(env, trail[..|trail| - 1]) + if last in env.nodes && env.nodes[last].Approval? then [last] else []
  }

  function NodesOf(activities: seq<Activity>): (r: seq<NodeId>)
    ensures |r| == |activities| && forall k | 0 <= k < |r| :: r[k] == activities[k].node
  {
    seq(|activities|, k requires 0 <= k < |activities| => activities[k].node)
  }

  /** The record of escalations names each escalated activity once. */
  ghost predicate EscalationsOk(s: Instance) {
    && (forall i, j | 0 <= i < j < |s.escalations| :: s.escalations[i] != s.escalations[j])
    && (forall i | 0 <= i < |s.escalations| :: s.escalations[i] < |s.activities|)
    && (forall k | 0 <= k < |s.activities| :: k in s.escalations <==> s.activities[k].escalated)
  }

  /** What holds at every moment, also inside a transaction that is about to advance. */
  ghost predicate History(env: Env, start: Node, s: Instance) {
    && Walk(GraphOf(env.nodes), s.trail) && s.trail[0] == start.id
    && Stays(env, s.trail) == NodesOf(s.activities)
    && (forall k | 0 <= k < |s.activities| :: ActivityFits(env, s.activities[k]))
    && EscalationsOk(s)
  }

  ghost predicate NonePending(activities: seq<Activity>) {
    forall k | 0 <= k < |activities| :: !activities[k].status.Pending?
  }

  function Last(trail: seq<NodeId>): NodeId
    requires trail != []
  {
    trail[|trail| - 1]
  }

  /** Exactly one activity is pending, at the current node, where the trail ends. */
  ghost predicate Waiting(s: Instance) {
    && s.trail != [] && s.activities != []
    && NonePending(s.activities[..|s.activities| - 1])
    && var a := s.activities[|s.activities| - 1];
       a.status.Pending? && a.node == s.current == Last(s.trail)
  }

  ghost predicate Inv(env: Env, start: Node, s: Instance) {
    && History(env, start, s)
    && if s.status.Running? then Waiting(s) else NonePending(s.activities)
  }

  // ---- Advancing keeps it

  ghost predicate Extends(before: Instance, after: Instance) {
    && before.trail <= after.trail
    && before.activities <= after.activities
    && before.escalations == after.escalations
    && before.submitter == after.submitter
  }

  lemma {:induction false} AdvanceKeeps(env: Env, start: Node, s: Instance, target: NodeId, now: int)
    requires Sound(env, start) && History(env, start, s) && NonePending(s.activities) && s.status.Running?
    requires Last(s.trail) in env.nodes && target in Refs(env.nodes[Last(s.trail)])
    requires Advance(env, s, target, now).Ok?
    ensures Inv(env, start, Advance(env, s, target, now).value)
    ensures Extends(s, Advance(env, s, target, now).value)
    decreases Below(GraphOf(env.nodes), target)
  {
    TargetSound(env, start, Last(s.trail), target);
    var n := env.nodes[target];
    match n
    case End(_, _, _) => EndKeeps(env, start, s, target);
    case Approval(_, _, _, _, _, _, _) =>
      TrailGrows(env, start, s, target);
      EnteringKeeps(env, start, s, n, now);
    case Condition(_, branches, default) =>
      PassingKeeps(env, start, s, target);
      Onward(env, s, target, now);
      AdvanceKeeps(env, start, s.(trail := s.trail + [target]), NextOf(env, n), now);
  }

  /** Where a condition that is passed leads. */
  function NextOf(env: Env, n: Node): NodeId
    requires n.Condition?
  {
    if Choose(n.branches, env.eval).Match? then Choose(n.branches, env.eval).next else n.default
  }

  /** It is one of the condition's references. */
  lemma Onward(env: Env, s: Instance, target: NodeId, now: int)
    requires Acyclic(env) && target in env.nodes && env.nodes[target].Condition? && env.nodes[target].id == target
    requires Advance(env, s, target, now).Ok?
    ensures var next := NextOf(env, env.nodes[target]);
            && next in Refs(env.nodes[target]) && Below(GraphOf(env.nodes), next) < Below(GraphOf(env.nodes), target)
            && Advance(env, s, target, now) == Advance(env, s.(trail := s.trail + [target]), next, now)
  {
    BranchShrinks(env, target, NextOf(env, env.nodes[target]));
  }

  lemma EndKeeps(env: Env, start: Node, s: Instance, target: NodeId)
    requires History(env, start, s) && NonePending(s.activities)
    requires Last(s.trail) in env.nodes && target in Refs(env.nodes[Last(s.trail)])
    requires target in env.nodes && env.nodes[target].End? && env.nodes[target].id == target
    ensures Inv(env, start, EnterEnd(s, env.nodes[target])) && Extends(s, EnterEnd(s, env.nodes[target]))
  {
    PassingKeeps(env, start, s, target);
  }

  lemma TargetSound(env: Env, start: Node, from: NodeId, target: NodeId)
    requires Sound(env, start) && from in env.nodes && target in Refs(env.nodes[from])
    ensures target in env.nodes && env.nodes[target].id == target && !env.nodes[target].Start?
    ensures ApprovalSound(env.nodes[target])
  {
    assert RefsSound(env, env.nodes[from]);
  }

  /** Entering a node without a stay. */
  lemma PassingKeeps(env: Env, start: Node, s: Instance, target: NodeId)
    requires History(env, start, s)
    requires Last(s.trail) in env.nodes && target in Refs(env.nodes[Last(s.trail)])
    requires target in env.nodes && !env.nodes[target].Approval?
    ensures History(env, start, s.(trail := s.trail + [target]))
    ensures Last((s.trail + [target])) == target
  {
    TrailGrows(env, start, s, target);
  }

  lemma TrailGrows(env: Env, start: Node, s: Instance, target: NodeId)
    requires History(env, start, s)
    requires target in env.nodes && target in Refs(env.nodes[Last(s.trail)])
    ensures Walk(GraphOf(env.nodes), s.trail + [target])
    ensures Stays(env, s.trail + [target]) == Stays(env, s.trail) + if env.nodes[target].Approval? then [target] else []
  {
    var g, longer := GraphOf(env.nodes), s.trail + [target];
    assert longer[..|longer| - 1] == s.trail;
    forall i | 0 <= i < |longer| - 1
      ensures Edge(g, longer[i], longer[i + 1])
    {
      assert i < |s.trail| - 1 ==> Edge(g, s.trail[i], s.trail[i + 1]);
    }
  }

  lemma EnteringKeeps(env: Env, start: Node, s: Instance, n: Node, now: int)
    requires Sound(env, start) && History(env, start, s) && NonePending(s.activities) && s.status.Running?
    requires n.Approval? && n.id in env.nodes && env.nodes[n.id] == n
    requires Walk(GraphOf(env.nodes), s.trail + [n.id])
    requires Stays(env, s.trail + [n.id]) == Stays(env, s.trail) + [n.id]
    requires EnterApproval(s, n, now).Ok?
    ensures Inv(env, start, EnterApproval(s, n, now).value)
  {
    var s1 := EnterApproval(s, n, now).value;
    var a := s1.activities[|s.activities|];
    assert ApprovalSound(n);
    FreshFits(n, now);
    EnteredHistory(env, start, s, n, a);
    assert s1.activities[..|s.activities|] == s.activities;
  }

  lemma EnteredHistory(env: Env, start: Node, s: Instance, n: Node, a: Activity)
    requires History(env, start, s)
    requires n.Approval? && n.id in env.nodes && env.nodes[n.id] == n
    requires Walk(GraphOf(env.nodes), s.trail + [n.id])
    requires Stays(env, s.trail + [n.id]) == Stays(env, s.trail) + [n.id]
    requires Fits(n, a) && !a.escalated
    ensures History(env, start, s.(activities := s.activities + [a], current := n.id, trail := s.trail + [n.id]))
  {
    var s1 := s.(activities := s.activities + [a], current := n.id, trail := s.trail + [n.id]);
    assert NodesOf(s1.activities) == NodesOf(s.activities) + [n.id];
    assert |s.activities| !in s.escalations;
    assert EscalationsOk(s1);
  }

  lemma FreshFits(n: Node, now: int)
    requires n.Approval? && ApprovalSound(n)
    ensures Fits(n, Activity(n.id, ActivityStatus.Pending, DeadlineAt(n, now), false, NewTasks(n.approvers)))
  {
    var tasks := NewTasks(n.approvers);
    assert tasks[0].status.Pending?;
  }

  // ---- Replacing the last activity

  /** Put a changed last activity in place of the old one. */
  function Replaced(s: Instance, a: Activity): Instance
    requires s.activities != []
  {
    s.(activities := s.activities[|s.activities| - 1 := a])
  }

  lemma ReplacingKeeps(env: Env, start: Node, s: Instance, a: Activity)
    requires History(env, start, s) && Waiting(s)
    requires ActivityFits(env, a) && a.node == s.current
    requires a.escalated == s.activities[|s.activities| - 1].escalated
    ensures History(env, start, Replaced(s, a))
    ensures a.status.Pending? ==> Waiting(Replaced(s, a))
    ensures !a.status.Pending? ==> NonePending(Replaced(s, a).activities)
  {
    var r := Replaced(s, a);
    assert NodesOf(r.activities) == NodesOf(s.activities);
    assert EscalationsOk(r);
    ReplacedPending(s, a);
  }

  lemma ReplacedPending(s: Instance, a: Activity)
    requires Waiting(s) && a.node == s.current
    ensures a.status.Pending? ==> Waiting(Replaced(s, a))
    ensures !a.status.Pending? ==> NonePending(Replaced(s, a).activities)
  {
    var r := Replaced(s, a);
    var last := |s.activities| - 1;
    assert r.activities[..last] == s.activities[..last];
    forall k | 0 <= k < last
      ensures r.activities[k] == s.activities[k] && !s.activities[k].status.Pending?
    {
      NotLast(s, k);
    }
  }

  lemma NotLast(s: Instance, k: nat)
    requires Waiting(s) && k < |s.activities| - 1
    ensures !s.activities[k].status.Pending?
  {
    assert s.activities[..|s.activities| - 1][k] == s.activities[k];
  }

  /** The one pending activity is found by its node. */
  lemma FindsLast(s: Instance)
    requires Waiting(s)
    ensures PendingAt(s.activities, s.current) == Some(|s.activities| - 1)
  {
  }

  // ---- Settling an activity

  lemma SettledFits(n: Node, a: Activity, status: ActivityStatus, taskStatus: TaskStatus)
    requires Fits(n, a) && a.status.Pending?
    requires (status.Rejected? && taskStatus.Closed?) || (status.Withdrawn? && taskStatus.Withdrawn?)
    ensures Fits(n, a.(status := status, tasks := Settle(a.tasks, taskStatus)))
  {
    var b := a.(status := status, tasks := Settle(a.tasks, taskStatus));
    var i :| 0 <= i < |a.tasks| && a.tasks[i].status.Pending?;
    assert b.tasks[i].status == taskStatus;
    forall j | 0 <= j < |b.tasks|
      ensures TaskFits(n, b, j)
    {
      assert TaskFits(n, a, j);
    }
  }

  /** An automatic approval leaves nothing but approvals. */
  lemma AutoApprovedFits(n: Node, a: Activity)
    requires Fits(n, a) && a.status.Pending? && n.action == Some(AutoApprove)
    ensures Fits(n, a.(status := TimeoutResolved, tasks := Settle(a.tasks, TaskStatus.Approved)))
  {
    var b := a.(status := TimeoutResolved, tasks := Settle(a.tasks, TaskStatus.Approved));
    forall j | 0 <= j < |b.tasks|
      ensures TaskFits(n, b, j)
    {
      assert TaskFits(n, a, j);
    }
  }

  lemma AnyApprovedFits(n: Node, a: Activity, i: nat)
    requires Fits(n, a) && a.status.Pending? && n.mode.Any?
    requires i < |a.tasks| && a.tasks[i].status.Pending?
    ensures Fits(n, a.(status := Completed,
      tasks := Settle(a.tasks[i := a.tasks[i].(status := TaskStatus.Approved)], Closed)))
  {
    var b := a.(status := Completed, tasks := Settle(a.tasks[i := a.tasks[i].(status := TaskStatus.Approved)], Closed));
    forall j | 0 <= j < |b.tasks|
      ensures TaskFits(n, b, j) && (j != i ==> !b.tasks[j].status.Approved?)
    {
      assert TaskFits(n, a, j);
    }
    assert b.tasks[i].status.Approved?;
  }

  lemma AllApprovedFits(n: Node, a: Activity, i: nat)
    requires Fits(n, a) && a.status.Pending? && n.mode.All?
    requires i < |a.tasks| && a.tasks[i].status.Pending?
    ensures var tasks := a.tasks[i := a.tasks[i].(status := TaskStatus.Approved)];
            Fits(n, a.(status := if SomePending(tasks) then ActivityStatus.Pending else Completed, tasks := tasks))
  {
    var tasks := a.tasks[i := a.tasks[i].(status := TaskStatus.Approved)];
    var b := a.(status := if SomePending(tasks) then ActivityStatus.Pending else Completed, tasks := tasks);
    forall j | 0 <= j < |b.tasks|
      ensures TaskFits(n, b, j)
    {
      assert TaskFits(n, a, j);
    }
  }

  lemma EscalatedFits(n: Node, a: Activity)
    requires Fits(n, a) && a.status.Pending? && Escalates(n) && !a.escalated && ApprovalSound(n)
    ensures var to := n.action.value.to;
            Fits(n, Escalated(a, to))
  {
    var to := n.action.value.to;
    var b := Escalated(a, to);
    assert b.tasks[|a.tasks|].status.Pending?;
    forall j | 0 <= j < |b.tasks|
      ensures TaskFits(n, b, j) && b.tasks[j].assignee == Invited(n, true)[j]
    {
      if j < |a.tasks| {
        assert TaskFits(n, a, j);
      }
    }
  }

  /** Every pending row, decided in the transaction or not, ends up closed. */
  lemma ClosedAll(tasks: seq<Task>, changed: seq<Task>)
    requires |changed| == |tasks|
    requires forall i | 0 <= i < |tasks| :: changed[i] == tasks[i]
               || (tasks[i].status.Pending? && changed[i] == tasks[i].(status := TaskStatus.Rejected))
    ensures CloseStored(tasks, changed) == Settle(tasks, Closed)
  {
  }

  // ---- Each operation

  ghost predicate Good(env: Env, start: Node, s: Instance) {
    Sound(env, start) && Inv(env, start, s) && s.status.Running?
  }

  /** Settle the last activity and go on. */
  lemma SettleAndAdvance(env: Env, start: Node, s: Instance, a: Activity, target: NodeId, now: int)
    requires Good(env, start, s)
    requires ActivityFits(env, a) && a.node == s.current && !a.status.Pending?
    requires a.escalated == s.activities[|s.activities| - 1].escalated
    requires target in Refs(env.nodes[a.node])
    requires Advance(env, Replaced(s, a), target, now).Ok?
    ensures Inv(env, start, Advance(env, Replaced(s, a), target, now).value)
    ensures Follows(s, Advance(env, Replaced(s, a), target, now).value)
  {
    ReplacingKeeps(env, start, s, a);
    AdvanceKeeps(env, start, Replaced(s, a), target, now);
    FollowsReplaced(s, a, Advance(env, Replaced(s, a), target, now).value);
  }

  /** The trail only grows, and what is settled stays as it is. */
  ghost predicate Follows(before: Instance, after: Instance) {
    && before.trail <= after.trail
    && |before.activities| <= |after.activities|
    && (forall k | 0 <= k < |before.activities| && !before.activities[k].status.Pending? ::
          after.activities[k] == before.activities[k])
    && before.escalations <= after.escalations
    && before.submitter == after.submitter
  }

  lemma FollowsReplaced(s: Instance, a: Activity, after: Instance)
    requires Waiting(s) && Extends(Replaced(s, a), after)
    ensures Follows(s, after)
  {
    var r := Replaced(s, a);
    forall k | 0 <= k < |s.activities| && !s.activities[k].status.Pending?
      ensures after.activities[k] == s.activities[k]
    {
      assert after.activities[k] == r.activities[k];
    }
  }

  /** Pending tasks may have been turned to rejected, and the status changed. */
  ghost predicate Refusal(a: Activity, b: Activity) {
    && b.node == a.node && b.deadline == a.deadline && b.escalated == a.escalated && |b.tasks| == |a.tasks|
    && (forall i | 0 <= i < |a.tasks| ::
          b.tasks[i] == a.tasks[i]
            || (a.tasks[i].status.Pending? && b.tasks[i] == a.tasks[i].(status := TaskStatus.Rejected)))
  }

  /** Every pending task of the last activity closed, and on to where a rejection leads. */
  function Refused(env: Env, s: Instance, now: int): Result<Instance, Conflict>
    requires Acyclic(env) && s.activities != [] && s.current in env.nodes && env.nodes[s.current].Approval?
  {
    var a := s.activities[|s.activities| - 1];
    var n := env.nodes[s.current];
    var r := Replaced(s, a.(status := ActivityStatus.Rejected, tasks := Settle(a.tasks, Closed)));
    if n.onReject != "" then Advance(env, r, n.onReject, now) else Ok(r.(status := InstanceStatus.Rejected))
  }

  /** Rejecting ignores what the transaction had made of the pending tasks. */
  lemma RejectIs(env: Env, s: Instance, b: Activity, now: int)
    requires Acyclic(env) && Waiting(s) && Refusal(s.activities[|s.activities| - 1], b)
    requires s.current in env.nodes && env.nodes[s.current].Approval? && env.nodes[s.current].id == s.current
    ensures SameRows(s, Replaced(s, b))
    ensures RejectPath(env, s, Replaced(s, b), env.nodes[s.current], now) == Refused(env, s, now)
  {
    var last := |s.activities| - 1;
    var a := s.activities[last];
    FindsLast(s);
    ClosedAll(a.tasks, b.tasks);
    var c := a.(status := ActivityStatus.Rejected, tasks := Settle(a.tasks, Closed));
    assert Replaced(s, b).(activities := Replaced(s, b).activities[last := c]) == Replaced(s, c);
  }

  /** Settle the last activity and stop there. */
  lemma FinishKeeps(env: Env, start: Node, s: Instance, a: Activity, status: InstanceStatus)
    requires Good(env, start, s) && !status.Running?
    requires ActivityFits(env, a) && a.node == s.current && !a.status.Pending?
    requires a.escalated == s.activities[|s.activities| - 1].escalated
    ensures Inv(env, start, Replaced(s, a).(status := status))
    ensures Follows(s, Replaced(s, a).(status := status))
  {
    ReplacingKeeps(env, start, s, a);
    FollowsReplaced(s, a, Replaced(s, a).(status := status));
  }

  lemma RefusedKeeps(env: Env, start: Node, s: Instance, now: int)
    requires Good(env, start, s) && ActivityFits(env, s.activities[|s.activities| - 1])
    requires Refused(env, s, now).Ok?
    ensures Inv(env, start, Refused(env, s, now).value)
    ensures Follows(s, Refused(env, s, now).value)
  {
    var a := s.activities[|s.activities| - 1];
    var n := env.nodes[s.current];
    var c := a.(status := ActivityStatus.Rejected, tasks := Settle(a.tasks, Closed));
    SettledFits(n, a, ActivityStatus.Rejected, Closed);
    if n.onReject != "" {
      assert n.onReject in Refs(n);
      SettleAndAdvance(env, start, s, c, n.onReject, now);
    } else {
      FinishKeeps(env, start, s, c, InstanceStatus.Rejected);
    }
  }

  lemma PendingIsLast(env: Env, start: Node, s: Instance, k: nat)
    requires Inv(env, start, s) && s.status.Running?
    requires k < |s.activities| && s.activities[k].status.Pending?
    ensures k == |s.activities| - 1 && s.activities[k].node == s.current
  {
    if k < |s.activities| - 1 {
      NotLast(s, k);
    }
  }

  /** What granting or denying a task of the last activity comes to. */
  lemma DecideTaskIs(env: Env, s: Instance, i: nat, decision: Decision, now: int)
    requires Acyclic(env) && Waiting(s)
    requires s.current in env.nodes && env.nodes[s.current].Approval? && env.nodes[s.current].id == s.current
    requires i < |s.activities[|s.activities| - 1].tasks| && s.activities[|s.activities| - 1].tasks[i].status.Pending?
    ensures var a := s.activities[|s.activities| - 1];
            var n := env.nodes[s.current];
            var approved := a.tasks[i := a.tasks[i].(status := TaskStatus.Approved)];
            DecideTask(env, s, |s.activities| - 1, i, decision, now) ==
              if decision.Deny? then Refused(env, s, now)
              else if n.mode.Any? then
                Advance(env, Replaced(s, a.(status := Completed, tasks := Settle(approved, Closed))), n.next, now)
              else if SomePending(approved) then
                Ok(Replaced(s, a.(status := ActivityStatus.Pending, tasks := approved)))
              else Advance(env, Replaced(s, a.(status := Completed, tasks := approved)), n.next, now)
  {
    var a := s.activities[|s.activities| - 1];
    RejectIs(env, s, a.(tasks := a.tasks[i := a.tasks[i].(status := TaskStatus.Rejected)]), now);
  }

  lemma DecideTaskKeeps(env: Env, start: Node, s: Instance, i: nat, decision: Decision, now: int)
    requires Good(env, start, s) && ActivityFits(env, s.activities[|s.activities| - 1])
    requires var a := s.activities[|s.activities| - 1];
             i < |a.tasks| && a.tasks[i].status.Pending?
    requires DecideTask(env, s, |s.activities| - 1, i, decision, now).Ok?
    ensures Inv(env, start, DecideTask(env, s, |s.activities| - 1, i, decision, now).value)
    ensures Follows(s, DecideTask(env, s, |s.activities| - 1, i, decision, now).value)
  {
    var a := s.activities[|s.activities| - 1];
    DecideTaskIs(env, s, i, decision, now);
    if decision.Deny? {
      RefusedKeeps(env, start, s, now);
    } else {
      GrantKeeps(env, start, s, i, now);
    }
  }

  lemma GrantKeeps(env: Env, start: Node, s: Instance, i: nat, now: int)
    requires Good(env, start, s) && ActivityFits(env, s.activities[|s.activities| - 1])
    requires var a := s.activities[|s.activities| - 1];
             i < |a.tasks| && a.tasks[i].status.Pending?
    requires DecideTask(env, s, |s.activities| - 1, i, Grant, now).Ok?
    ensures Inv(env, start, DecideTask(env, s, |s.activities| - 1, i, Grant, now).value)
    ensures Follows(s, DecideTask(env, s, |s.activities| - 1, i, Grant, now).value)
  {
    var a := s.activities[|s.activities| - 1];
    var n := env.nodes[a.node];
    var approved := a.tasks[i := a.tasks[i].(status := TaskStatus.Approved)];
    DecideTaskIs(env, s, i, Grant, now);
    if n.mode.Any? {
      AnyApprovedFits(n, a, i);
      SettleAndAdvance(env, start, s, a.(status := Completed, tasks := Settle(approved, Closed)), n.next, now);
    } else {
      AllApprovedFits(n, a, i);
      if SomePending(approved) {
        var b := a.(status := ActivityStatus.Pending, tasks := approved);
        ReplacingKeeps(env, start, s, b);
        FollowsReplaced(s, b, Replaced(s, b));
      } else {
        SettleAndAdvance(env, start, s, a.(status := Completed, tasks := approved), n.next, now);
      }
    }
  }

  lemma DecideKeeps(env: Env, start: Node, s: Instance, actor: string, decision: Decision, target: Target, now: int)
    requires Good(env, start, s)
    requires Decide(env, s, actor, decision, target, now).Ok?
    ensures Inv(env, start, Decide(env, s, actor, decision, target, now).value)
    ensures Follows(s, Decide(env, s, actor, decision, target, now).value)
  {
    var i := DecideIs(env, s, actor, decision, target, now);
    assert ActivityFits(env, s.activities[|s.activities| - 1]);
    DecideTaskKeeps(env, start, s, i, decision, now);
  }

  /** A decision that succeeds is about a pending task of the last activity. */
  lemma DecideIs(env: Env, s: Instance, actor: string, decision: Decision, target: Target, now: int) returns (i: nat)
    requires Acyclic(env) && Waiting(s) && Decide(env, s, actor, decision, target, now).Ok?
    ensures var a := s.activities[|s.activities| - 1];
            && i < |a.tasks| && a.tasks[i].status.Pending? && a.node in env.nodes && env.nodes[a.node].Approval?
            && Decide(env, s, actor, decision, target, now) ==
              DecideTask(env, s, |s.activities| - 1, i, decision, now)
  {
    var row := Locate(s, actor, target).value;
    i := row.1;
    if row.0 < |s.activities| - 1 {
      NotLast(s, row.0);
    }
  }

  lemma WithdrawKeeps(env: Env, start: Node, s: Instance, actor: string)
    requires Good(env, start, s)
    requires Withdraw(s, actor).Ok?
    ensures Inv(env, start, Withdraw(s, actor).value)
    ensures Follows(s, Withdraw(s, actor).value)
  {
    var last := |s.activities| - 1;
    var a := Recalled(s.activities[last]);
    assert ActivityFits(env, s.activities[last]);
    SettledFits(env.nodes[a.node], s.activities[last], ActivityStatus.Withdrawn, TaskStatus.Withdrawn);
    WithdrawIs(s, actor);
    FinishKeeps(env, start, s, a, InstanceStatus.Withdrawn);
  }

  lemma WithdrawIs(s: Instance, actor: string)
    requires Waiting(s) && Withdraw(s, actor).Ok?
    ensures Withdraw(s, actor).value ==
      Replaced(s, Recalled(s.activities[|s.activities| - 1])).(status := InstanceStatus.Withdrawn)
  {
    forall k | 0 <= k < |s.activities| - 1
      ensures Recalled(s.activities[k]) == s.activities[k]
    {
      NotLast(s, k);
    }
  }

  /** The record when the last activity is escalated. */
  lemma EscalationKeeps(env: Env, start: Node, s: Instance, b: Activity)
    requires History(env, start, s) && Waiting(s)
    requires ActivityFits(env, b) && b.node == s.current && b.status.Pending? && b.escalated
    requires !s.activities[|s.activities| - 1].escalated
    ensures var r := Replaced(s, b).(escalations := s.escalations + [|s.activities| - 1]);
            History(env, start, r) && Waiting(r) && Follows(s, r)
  {
    var last := |s.activities| - 1;
    var r := Replaced(s, b).(escalations := s.escalations + [last]);
    assert r.activities[..last] == s.activities[..last];
    assert NodesOf(r.activities) == NodesOf(s.activities);
    assert last !in s.escalations;
    assert EscalationsOk(r);
  }

  lemma NoClash(n: Node, a: Activity)
    requires Fits(n, a) && Escalates(n) && !a.escalated && ApprovalSound(n)
    ensures !Clashes(a.tasks, n.action.value.to)
  {
    var to := n.action.value.to;
    forall i, j | 0 <= i < |a.tasks| && 0 <= j < |to|
      ensures a.tasks[i].assignee != to[j]
    {
      assert a.tasks[i].assignee in n.approvers;
      assert to[j] in to;
    }
  }

  /** The last activity, closed and reopened for the escalation targets. */
  function Escalated(a: Activity, to: seq<string>): Activity {
    a.(tasks := Settle(a.tasks, TimeoutClosed) + NewTasks(to), escalated := true, deadline := None)
  }

  /** What sweeping the last activity comes to. */
  lemma SweepActivityIs(env: Env, s: Instance, now: int)
    requires Acyclic(env) && Waiting(s)
    requires s.current in env.nodes && env.nodes[s.current].Approval? && env.nodes[s.current].id == s.current
    requires env.nodes[s.current].action.Some?
    requires SomePending(s.activities[|s.activities| - 1].tasks)
    ensures var last := |s.activities| - 1;
            var a := s.activities[last];
            var n := env.nodes[s.current];
            SweepActivity(env, s, last, now) ==
              match n.action.value
              case Escalate(to) =>
                if a.escalated then Ok(Swept(Replaced(s, a.(deadline := None)), false))
                else if Clashes(a.tasks, to) then Err(DuplicateTask)
                else Ok(Swept(Replaced(s, Escalated(a, to)).(escalations := s.escalations + [last]), false))
              case AutoApprove =>
                Stopped(Advance(env,
                  Replaced(s, a.(status := TimeoutResolved, tasks := Settle(a.tasks, TaskStatus.Approved))), n.next,
                  now))
              case AutoReject => Stopped(Refused(env, s, now))
  {
    var a := s.activities[|s.activities| - 1];
    var b := a.(status := TimeoutResolved, tasks := Settle(a.tasks, TaskStatus.Rejected));
    assert Refusal(a, b);
    RejectIs(env, s, b, now);
  }

  lemma SweepActivityKeeps(env: Env, start: Node, s: Instance, now: int)
    requires Good(env, start, s) && ActivityFits(env, s.activities[|s.activities| - 1])
    requires Due(s.activities[|s.activities| - 1], now)
    ensures var r := SweepActivity(env, s, |s.activities| - 1, now);
            r.Ok? ==> Inv(env, start, r.value.state) && Follows(s, r.value.state)
  {
    var a := s.activities[|s.activities| - 1];
    var n := env.nodes[a.node];
    SweepActivityIs(env, s, now);
    match n.action.value
    case Escalate(to) =>
      EscalatingKeeps(env, start, s);
    case AutoApprove =>
      AutoApprovedFits(n, a);
      if SweepActivity(env, s, |s.activities| - 1, now).Ok? {
        SettleAndAdvance(env, start, s, a.(status := TimeoutResolved, tasks := Settle(a.tasks, TaskStatus.Approved)),
          n.next, now);
      }
    case AutoReject =>
      if SweepActivity(env, s, |s.activities| - 1, now).Ok? {
        RefusedKeeps(env, start, s, now);
      }
  }

  lemma EscalatingKeeps(env: Env, start: Node, s: Instance)
    requires Good(env, start, s) && ActivityFits(env, s.activities[|s.activities| - 1])
    requires s.activities[|s.activities| - 1].deadline.Some? && Escalates(env.nodes[s.current])
    ensures var last := |s.activities| - 1;
            var a := s.activities[last];
            var to := env.nodes[s.current].action.value.to;
            var r := Replaced(s, Escalated(a, to)).(escalations := s.escalations + [last]);
            !a.escalated && !Clashes(a.tasks, to) && Inv(env, start, r) && Follows(s, r)
  {
    var a := s.activities[|s.activities| - 1];
    var n := env.nodes[a.node];
    assert ApprovalSound(n);
    NoClash(n, a);
    EscalatedFits(n, a);
    EscalationKeeps(env, start, s, Escalated(a, n.action.value.to));
  }

  lemma {:induction false} NoneDue(activities: seq<Activity>, now: int)
    requires NonePending(activities)
    ensures DueFrom(activities, now) == []
  {
    if activities == [] {
    } else {
      NoneDue(activities[..|activities| - 1], now);
    }
  }

  /** At most the last activity is due. */
  lemma SweepIs(env: Env, s: Instance, now: int)
    requires Acyclic(env) && Waiting(s) && s.status.Running?
    ensures Sweep(env, s, now) ==
      if !Due(s.activities[|s.activities| - 1], now) then Ok(s)
      else
        match SweepActivity(env, s, |s.activities| - 1, now)
        case Ok(done) => Ok(done.state)
        case Err(e) => Err(e)
  {
    var last := |s.activities| - 1;
    NoneDue(s.activities[..last], now);
    assert [last][0] == last && [last][1..] == [];
    assert DueFrom(s.activities, now) == if Due(s.activities[last], now) then [last] else [];
    if Due(s.activities[last], now) && SweepActivity(env, s, last, now).Ok? {
      var done := SweepActivity(env, s, last, now).value.state;
      assert SweepEach(env, done, [], now) == Ok(done);
    }
  }

  lemma SweepKeeps(env: Env, start: Node, s: Instance, now: int)
    requires Good(env, start, s)
    requires Sweep(env, s, now).Ok?
    ensures Inv(env, start, Sweep(env, s, now).value)
    ensures Follows(s, Sweep(env, s, now).value)
  {
    SweepIs(env, s, now);
    if Due(s.activities[|s.activities| - 1], now) {
      assert ActivityFits(env, s.activities[|s.activities| - 1]);
      SweepActivityKeeps(env, start, s, now);
    }
  }

  // ---- Whole runs

  lemma BeginKeeps(env: Env, start: Node, submitter: string, now: int)
    requires Sound(env, start)
    requires Begin(env, start, submitter, now).Ok?
    ensures Inv(env, start, Begin(env, start, submitter, now).value)
  {
    var s := Instance(submitter, Running, "", [], [start.id], []);
    assert s.trail[..0] == [];
    AdvanceKeeps(env, start, s, start.next, now);
  }

  /** Finished instances refuse everything. */
  lemma FinishedStays(env: Env, s: Instance, op: Op, now: int)
    requires Acyclic(env) && !s.status.Running?
    ensures Step(env, s, op, now) == s
  {
  }

  lemma StepKeeps(env: Env, start: Node, s: Instance, op: Op, now: int)
    requires Sound(env, start) && Inv(env, start, s)
    ensures Inv(env, start, Step(env, s, op, now)) && Follows(s, Step(env, s, op, now))
  {
    if !s.status.Running? {
      FinishedStays(env, s, op, now);
    } else if Attempt(env, s, op, now).Ok? {
      AttemptKeeps(env, start, s, op, now);
    }
  }

  lemma AttemptKeeps(env: Env, start: Node, s: Instance, op: Op, now: int)
    requires Good(env, start, s) && Attempt(env, s, op, now).Ok?
    ensures Inv(env, start, Attempt(env, s, op, now).value) && Follows(s, Attempt(env, s, op, now).value)
  {
    match op
    case DoDecide(actor, decision, target) => DecideKeeps(env, start, s, actor, decision, target, now);
    case DoWithdraw(actor) => WithdrawKeeps(env, start, s, actor);
    case DoSweep => SweepKeeps(env, start, s, now);
  }

  lemma {:induction false} RunKeeps(env: Env, start: Node, s: Instance, ops: seq<(Op, int)>)
    requires Sound(env, start) && Inv(env, start, s)
    ensures Inv(env, start, Run(env, s, ops)) && Follows(s, Run(env, s, ops))
    decreases |ops|
  {
    if ops == [] {
    } else {
      StepKeeps(env, start, s, ops[0].0, ops[0].1);
      RunKeeps(env, start, Step(env, s, ops[0].0, ops[0].1), ops[1..]);
    }
  }

  /** An instance begun from a published, hence sound, definition, after any operations at any times. */
  ghost predicate Reached(lang: Language, nodes: seq<Node>, start: Node, env: Env, s: Instance) {
    && Published(lang, nodes, start, env)
    && Sound(env, start)
    && exists submitter, now, ops ::
         Begin(env, start, submitter, now).Ok? && s == Run(env, Begin(env, start, submitter, now).value, ops)
  }

  lemma ReachedInv(lang: Language, nodes: seq<Node>, start: Node, env: Env, s: Instance)
    requires Reached(lang, nodes, start, env, s)
    ensures Inv(env, start, s)
  {
    var submitter, now, ops :|
      Begin(env, start, submitter, now).Ok? && s == Run(env, Begin(env, start, submitter, now).value, ops);
    BeginKeeps(env, start, submitter, now);
    RunKeeps(env, start, Begin(env, start, submitter, now).value, ops);
  }

  /**
   A running instance has exactly one pending activity, at its current node, with a pending task;
   a finished one has no pending activity or task and never changes again.
   */
  lemma OnePendingActivity(lang: Language, nodes: seq<Node>, start: Node, env: Env, s: Instance, ops: seq<(Op, int)>)
    requires Reached(lang, nodes, start, env, s)
    ensures s.status.Running? ==> exists k :: 0 <= k < |s.activities| && OnlyPending(s, k)
    ensures !s.status.Running? ==> NonePending(s.activities) && Run(env, s, ops) == s
    ensures forall k | 0 <= k < |s.activities| ::
      s.activities[k].status.Pending? <==> SomePending(s.activities[k].tasks)
  {
    ReachedInv(lang, nodes, start, env, s);
    PendingAgree(env, start, s);
    if s.status.Running? {
      RunningHasOne(env, start, s);
    } else {
      FinishedForever(env, s, ops);
    }
  }

  lemma RunningHasOne(env: Env, start: Node, s: Instance)
    requires History(env, start, s) && Waiting(s)
    ensures OnlyPending(s, |s.activities| - 1)
  {
    PendingTogether(env, s.activities[|s.activities| - 1]);
    WaitsAtLast(s);
  }

  ghost predicate OnlyPending(s: Instance, k: nat)
    requires k < |s.activities|
  {
    && s.activities[k].status.Pending? && s.activities[k].node == s.current && SomePending(s.activities[k].tasks)
    && forall j | 0 <= j < |s.activities| && j != k :: !s.activities[j].status.Pending?
  }

  lemma PendingTogether(env: Env, a: Activity)
    requires ActivityFits(env, a)
    ensures a.status.Pending? <==> SomePending(a.tasks)
  {
    if SomePending(a.tasks) {
      var i :| 0 <= i < |a.tasks| && a.tasks[i].status.Pending?;
      assert TaskFits(env.nodes[a.node], a, i);
    }
  }

  lemma PendingAgree(env: Env, start: Node, s: Instance)
    requires History(env, start, s)
    ensures forall k | 0 <= k < |s.activities| ::
      s.activities[k].status.Pending? <==> SomePending(s.activities[k].tasks)
  {
    forall k | 0 <= k < |s.activities|
      ensures s.activities[k].status.Pending? <==> SomePending(s.activities[k].tasks)
    {
      PendingTogether(env, s.activities[k]);
    }
  }

  lemma WaitsAtLast(s: Instance)
    requires Waiting(s) && SomePending(s.activities[|s.activities| - 1].tasks)
    ensures OnlyPending(s, |s.activities| - 1)
  {
    forall j | 0 <= j < |s.activities| - 1
      ensures !s.activities[j].status.Pending?
    {
      NotLast(s, j);
    }
  }

  lemma {:induction false} FinishedForever(env: Env, s: Instance, ops: seq<(Op, int)>)
    requires Acyclic(env) && !s.status.Running?
    ensures Run(env, s, ops) == s
    decreases |ops|
  {
    if ops == [] {
    } else {
      FinishedStays(env, s, ops[0].0, ops[0].1);
      FinishedForever(env, s, ops[1..]);
    }
  }

  /** No node is entered twice, so there are no more activities than approval nodes on a walk from the start. */
  lemma NoNodeTwice(lang: Language, nodes: seq<Node>, start: Node, env: Env, s: Instance)
    requires Reached(lang, nodes, start, env, s)
    ensures Walk(GraphOf(env.nodes), s.trail) && s.trail[0] == start.id
    ensures forall i, j | 0 <= i < j < |s.trail| :: s.trail[i] != s.trail[j]
    ensures Stays(env, s.trail) == NodesOf(s.activities)
    ensures |s.activities| <= |s.trail| <= |nodes|
  {
    ReachedInv(lang, nodes, start, env, s);
    var g := GraphOf(env.nodes);
    forall i, j | 0 <= i < j < |s.trail|
      ensures s.trail[i] != s.trail[j]
    {
      AcyclicWalkDistinct(g, s.trail, i, j);
    }
    AcyclicWalkLength(g, s.trail);
    assert g.Keys == env.nodes.Keys;
    NodeMapSize(nodes);
  }

  lemma {:induction false} NodeMapSize(nodes: seq<Node>)
    ensures |NodeMap(nodes)| <= |nodes|
  {
    if nodes == [] {
    } else {
      var rest, last := nodes[..|nodes| - 1], nodes[|nodes| - 1];
      NodeMapSize(rest);
      assert NodeMap(nodes).Keys == NodeMap(rest).Keys + {last.id};
    }
  }

  /**
   Completion by consent. In ALL mode, every approver has approved, or after an escalation every
   target has; in ANY mode exactly one task is approved.
   */
  ghost predicate Consent(n: Node, a: Activity)
    requires n.Approval?
  {
    if n.mode.Any? then OneApproval(a.tasks)
    else if a.escalated && Escalates(n) then
      && (forall j | 0 <= j < |n.action.value.to| :: Task(n.action.value.to[j], TaskStatus.Approved) in a.tasks)
      && (forall t | t in a.tasks :: t.status.Approved? || (t.status.TimeoutClosed? && t.assignee in n.approvers))
    else
      && (forall j | 0 <= j < |n.approvers| :: Task(n.approvers[j], TaskStatus.Approved) in a.tasks)
      && (forall t | t in a.tasks :: t.status.Approved?)
  }

  lemma CompletedFits(n: Node, a: Activity)
    requires Fits(n, a) && a.status.Completed?
    ensures Consent(n, a)
  {
    forall i | 0 <= i < |a.tasks| && n.mode.All?
      ensures a.tasks[i].status.Approved? || (a.escalated && a.tasks[i].status.TimeoutClosed? && i < |n.approvers|)
    {
      assert TaskFits(n, a, i);
    }
    if n.mode.All? {
      var first := if a.escalated then |n.approvers| else 0;
      forall j | first <= j < |a.tasks|
        ensures Task(Invited(n, a.escalated)[j], TaskStatus.Approved) in a.tasks
      {
        assert a.tasks[j] in a.tasks;
      }
      if a.escalated {
        forall j | 0 <= j < |n.action.value.to|
          ensures Task(n.action.value.to[j], TaskStatus.Approved) in a.tasks
        {
          assert Invited(n, true)[|n.approvers| + j] == n.action.value.to[j];
        }
      }
    }
  }

  lemma CompletedMeansApproved(lang: Language, nodes: seq<Node>, start: Node, env: Env, s: Instance, k: nat)
    requires Reached(lang, nodes, start, env, s)
    requires k < |s.activities| && s.activities[k].status.Completed?
    ensures s.activities[k].node in env.nodes && env.nodes[s.activities[k].node].Approval?
    ensures Consent(env.nodes[s.activities[k].node], s.activities[k])
  {
    ReachedInv(lang, nodes, start, env, s);
    assert ActivityFits(env, s.activities[k]);
    CompletedFits(env.nodes[s.activities[k].node], s.activities[k]);
  }

  /** Whoever rejects, by hand or by timeout, no task is left marked rejected; a rejected activity has a closed one. */
  lemma NoTaskStaysRejected(lang: Language, nodes: seq<Node>, start: Node, env: Env, s: Instance, k: nat, i: nat)
    requires Reached(lang, nodes, start, env, s)
    requires k < |s.activities| && i < |s.activities[k].tasks|
    ensures !s.activities[k].tasks[i].status.Rejected?
    ensures s.activities[k].status.Rejected? ==> exists j ::
      0 <= j < |s.activities[k].tasks| && s.activities[k].tasks[j].status.Closed?
  {
    ReachedInv(lang, nodes, start, env, s);
    var a := s.activities[k];
    assert ActivityFits(env, a);
    assert TaskFits(env.nodes[a.node], a, i);
  }

  /** Within an activity each assignee has one task. */
  lemma OneTaskEach(lang: Language, nodes: seq<Node>, start: Node, env: Env, s: Instance, k: nat, i: nat, j: nat)
    requires Reached(lang, nodes, start, env, s)
    requires k < |s.activities| && i < j < |s.activities[k].tasks|
    ensures s.activities[k].tasks[i].assignee != s.activities[k].tasks[j].assignee
  {
    ReachedInv(lang, nodes, start, env, s);
    var a := s.activities[k];
    assert ActivityFits(env, a);
    InvitedDistinct(env.nodes[a.node], a.escalated, i, j);
  }

  lemma InvitedDistinct(n: Node, escalated: bool, i: nat, j: nat)
    requires n.Approval? && ApprovalSound(n) && i < j < |Invited(n, escalated)|
    ensures Invited(n, escalated)[i] != Invited(n, escalated)[j]
  {
    if escalated && Escalates(n) {
      var to := n.action.value.to;
      assert j >= |n.approvers| ==> to[j - |n.approvers|] in to;
    }
  }

  /** No activity is escalated twice, and every escalation is on record. */
  lemma EscalatedOnce(lang: Language, nodes: seq<Node>, start: Node, env: Env, s: Instance)
    requires Reached(lang, nodes, start, env, s)
    ensures forall i, j | 0 <= i < j < |s.escalations| :: s.escalations[i] != s.escalations[j]
    ensures forall k | 0 <= k < |s.activities| :: k in s.escalations <==> s.activities[k].escalated
  {
    ReachedInv(lang, nodes, start, env, s);
  }

  /** A settled activity, its tasks included, is the same in every later state. */
  lemma SettledForever(lang: Language, nodes: seq<Node>, start: Node, env: Env, s: Instance, ops: seq<(Op, int)>,
      k: nat)
    requires Reached(lang, nodes, start, env, s)
    requires k < |s.activities| && !s.activities[k].status.Pending?
    ensures k < |Run(env, s, ops).activities| && Run(env, s, ops).activities[k] == s.activities[k]
    ensures s.trail <= Run(env, s, ops).trail
  {
    ReachedInv(lang, nodes, start, env, s);
    RunKeeps(env, start, s, ops);
  }

  /** When conditions decide, whoever holds a pending task can decide it either way. */
  lemma HolderCanDecide(lang: Language, nodes: seq<Node>, start: Node, env: Env, s: Instance, k: nat, i: nat,
      decision: Decision, now: int)
    requires Reached(lang, nodes, start, env, s)
    requires forall v | v in env.nodes :: Decides(env, env.nodes[v])
    requires k < |s.activities| && i < |s.activities[k].tasks| && s.activities[k].tasks[i].status.Pending?
    ensures Decide(env, s, s.activities[k].tasks[i].assignee, decision, ByTask(k, i), now).Ok?
  {
    ReachedInv(lang, nodes, start, env, s);
    var a := s.activities[k];
    assert ActivityFits(env, a);
    assert TaskFits(env.nodes[a.node], a, i);
    assert s.status.Running?;
    PendingIsLast(env, start, s, k);
    DecideTaskIs(env, s, i, decision, now);
    assert RefsSound(env, env.nodes[a.node]);
    OnwardSucceeds(env, start, a.node);
  }

  lemma OnwardSucceeds(env: Env, start: Node, v: NodeId)
    requires Sound(env, start) && forall w | w in env.nodes :: Decides(env, env.nodes[w])
    requires v in env.nodes
    ensures forall s, ref, now | ref in Refs(env.nodes[v]) :: Advance(env, s, ref, now).Ok?
  {
    assert RefsSound(env, env.nodes[v]);
    forall s, ref, now | ref in Refs(env.nodes[v])
      ensures Advance(env, s, ref, now).Ok?
    {
      AdvanceSucceeds(env, start, s, ref, now);
    }
  }
}
