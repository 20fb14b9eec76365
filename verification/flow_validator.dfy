/** Publication-time validation of a workflow definition. */
module FlowValidator {
  import opened Wrappers
  import opened FlowGraph

  datatype Mode = All | Any
  datatype Outcome = Approve | Reject
  datatype TimeoutAction = Escalate(to: seq<string>) | AutoApprove | AutoReject
  datatype Branch = Branch(when: string, next: NodeId)

  /** An absent `onReject` or `default` is "": an empty string names no node either. */
  datatype Node =
    | Start(id: NodeId, next: NodeId, onReject: NodeId)
    | Approval(id: NodeId, mode: Mode, approvers: seq<string>, next: NodeId, onReject: NodeId,
               timeout: Option<nat>, action: Option<TimeoutAction>)
    | Condition(id: NodeId, branches: seq<Branch>, default: NodeId)
    | End(id: NodeId, outcome: Outcome, extra: seq<string>)

  /** The expression parser, and `strip` followed by `lower`. */
  datatype Language = Language(parses: string -> bool, fold: string -> string)

  datatype Issue =
    | StartCount(count: nat)
    | EndCount
    | DuplicateNode(id: NodeId)
    | EndHasEdges(id: NodeId)
    | MissingReference(id: NodeId, ref: NodeId)
    | EdgeToStart(id: NodeId, ref: NodeId)
    | DuplicateApprover(id: NodeId)
    | TimeoutWithoutAction(id: NodeId)
    | ActionWithoutTimeout(id: NodeId)
    | EmptyEscalation(id: NodeId)
    | EscalationOverlap(id: NodeId)
    | DuplicateEscalation(id: NodeId)
    | BadExpression(id: NodeId, next: NodeId)
    | ConditionNoDefault(id: NodeId)
    | Unreachable(id: NodeId)
    | Cycle(walk: seq<NodeId>)

  /** The outgoing edges of a node. */
  function Refs(n: Node): seq<NodeId> {
    match n
    case Start(_, next, onReject) => [next] + Optional(onReject)
    case Approval(_, _, _, next, onReject, _, _) => [next] + Optional(onReject)
    case Condition(_, branches, default) =>
      seq(|branches|, i requires 0 <= i < |branches| => branches[i].next) + Optional(default)
    case End(_, _, _) => []
  }

  function Optional(id: NodeId): seq<NodeId> {
    if id == "" then [] else [id]
  }

  /** Nodes by id; of two with one id the later is kept. */
  function NodeMap(nodes: seq<Node>): map<NodeId, Node> {
    if nodes == [] then map[]
    else NodeMap(nodes[..|nodes| - 1])[nodes[|nodes| - 1].id := nodes[|nodes| - 1]]
  }

  function GraphOf(ids: map<NodeId, Node>): Graph {
    map v | v in ids :: Refs(ids[v])
  }

  /** The part of a graph that `start` reaches. */
  ghost function ReachedPart(g: Graph, start: NodeId): Graph {
    map v | v in g && Reach(g, start, v) :: g[v]
  }

  // ---- What each issue says

  predicate Repeats(xs: seq<string>) {
    exists i, j :: 0 <= i < j < |xs| && xs[i] == xs[j]
  }

  function Starts(nodes: seq<Node>): (r: seq<Node>)
    ensures forall n :: n in r <==> n in nodes && n.Start?
  {
    if nodes == [] then []
    else
      var rest := Starts(nodes[..|nodes| - 1]);
      if nodes[|nodes| - 1].Start? then rest + [nodes[|nodes| - 1]] else rest
  }

  ghost predicate RepeatedId(nodes: seq<Node>, id: NodeId) {
    exists i, j :: 0 <= i < j < |nodes| && nodes[i].id == id && nodes[j].id == id
  }

  /** Issues of the first stage, after which the validator gives up. */
  ghost predicate StructureIssue(nodes: seq<Node>, x: Issue) {
    match x
    case StartCount(count) => count == |Starts(nodes)| != 1
    case EndCount => forall n | n in nodes :: !n.End?
    case DuplicateNode(id) => RepeatedId(nodes, id)
    case _ => false
  }

  /** Issues of one node's edges, given the nodes by id. */
  ghost predicate EdgeIssue(ids: map<NodeId, Node>, n: Node, x: Issue) {
    match x
    case EndHasEdges(id) => id == n.id && n.End? && n.extra != []
    case MissingReference(id, ref) => id == n.id && ref in Refs(n) && ref !in ids
    case EdgeToStart(id, ref) => id == n.id && ref in Refs(n) && ref in ids && ids[ref].Start?
    case _ => false
  }

  ghost predicate ApprovalIssue(n: Node, x: Issue) {
    && n.Approval?
    && match x {
         case DuplicateApprover(id) => id == n.id && Repeats(n.approvers)
         case TimeoutWithoutAction(id) => id == n.id && n.timeout.Some? && n.action.None?
         case ActionWithoutTimeout(id) => id == n.id && n.timeout.None? && n.action.Some?
         case _ => false
       }
  }

  ghost predicate EscalationIssue(n: Node, x: Issue) {
    && Escalates(n)
    && match x {
         case EmptyEscalation(id) => id == n.id && n.action.value.to == []
         case EscalationOverlap(id) => id == n.id && exists a :: a in n.action.value.to && a in n.approvers
         case DuplicateEscalation(id) => id == n.id && Repeats(n.action.value.to)
         case _ => false
       }
  }

  predicate Escalates(n: Node) {
    n.Approval? && n.action.Some? && n.action.value.Escalate?
  }

  ghost predicate ConditionIssue(lang: Language, n: Node, x: Issue) {
    && n.Condition?
    && match x {
         case BadExpression(id, next) =>
           id == n.id && exists b :: b in n.branches && b.next == next && !lang.parses(b.when)
         case ConditionNoDefault(id) => id == n.id && !HasFallback(lang, n)
         case _ => false
       }
  }

  predicate LiterallyTrue(lang: Language, when: string) {
    lang.fold(when) in ["true", "true == true", "1 == 1"]
  }

  ghost predicate HasFallback(lang: Language, n: Node)
    requires n.Condition?
  {
    n.default != "" || exists b :: b in n.branches && LiterallyTrue(lang, b.when)
  }

  ghost predicate NodeIssue(lang: Language, ids: map<NodeId, Node>, n: Node, x: Issue) {
    EdgeIssue(ids, n, x) || ApprovalIssue(n, x) || EscalationIssue(n, x) || ConditionIssue(lang, n, x)
  }

  ghost predicate SomeNodeIssue(lang: Language, ids: map<NodeId, Node>, nodes: seq<Node>, x: Issue) {
    exists n :: n in nodes && NodeIssue(lang, ids, n, x)
  }

  /** Every non-cycle issue of the second stage. */
  ghost predicate DetailIssue(lang: Language, nodes: seq<Node>, start: NodeId, x: Issue) {
    var ids := NodeMap(nodes);
    if x.Unreachable? then x.id in ids && !Reach(GraphOf(ids), start, x.id)
    else SomeNodeIssue(lang, ids, nodes, x)
  }

  // ---- What acceptance promises

  ghost predicate DistinctIds(nodes: seq<Node>) {
    forall i, j :: 0 <= i < j < |nodes| ==> nodes[i].id != nodes[j].id
  }

  ghost predicate OneStart(nodes: seq<Node>, start: Node) {
    start in nodes && start.Start? && forall n | n in nodes && n.Start? :: n == start
  }

  ghost predicate NodeFine(lang: Language, ids: map<NodeId, Node>, n: Node) {
    && (forall ref | ref in Refs(n) :: ref in ids && !ids[ref].Start?)
    && (n.End? ==> n.extra == [])
    && (n.Approval? ==>
          && !Repeats(n.approvers)
          && n.timeout.Some? == n.action.Some?
          && (Escalates(n) ==>
                && n.action.value.to != []
                && !Repeats(n.action.value.to)
                && forall a | a in n.action.value.to :: a !in n.approvers))
    && (n.Condition? ==>
          && (forall b | b in n.branches :: lang.parses(b.when))
          && HasFallback(lang, n))
  }

  /** A definition fit to be published. */
  ghost predicate WellFormed(lang: Language, nodes: seq<Node>) {
    && DistinctIds(nodes)
    && (exists n :: n in nodes && n.End?)
    && (exists start :: OneStart(nodes, start) && FromStart(nodes, start.id))
    && (forall n | n in nodes :: NodeFine(lang, NodeMap(nodes), n))
  }

  /** Everything is reachable from the start, and there is no way round. */
  ghost predicate FromStart(nodes: seq<Node>, start: NodeId) {
    var g := GraphOf(NodeMap(nodes));
    (forall v | v in g :: Reach(g, start, v)) && !Cyclic(g)
  }

  // ---- Nodes by id

  lemma {:induction false} NodeMapKeys(nodes: seq<Node>)
    ensures forall v :: v in NodeMap(nodes) <==> exists n :: n in nodes && n.id == v
    ensures forall v | v in NodeMap(nodes) :: NodeMap(nodes)[v] in nodes && NodeMap(nodes)[v].id == v
  {
    if nodes == [] {
    } else {
      var rest, last := nodes[..|nodes| - 1], nodes[|nodes| - 1];
      NodeMapKeys(rest);
      assert nodes == rest + [last];
      forall v
        ensures v in NodeMap(nodes) <==> exists n :: n in nodes && n.id == v
      {
        if n :| n in nodes && n.id == v {
          assert n in rest || n == last;
        }
        if v in NodeMap(rest) {
          assert NodeMap(rest)[v] in nodes;
        }
        if v == last.id {
          assert last in nodes;
        }
      }
    }
  }

  /** With distinct ids every node is found under its own. */
  lemma NodeMapFinds(nodes: seq<Node>, n: Node)
    requires DistinctIds(nodes) && n in nodes
    ensures n.id in NodeMap(nodes) && NodeMap(nodes)[n.id] == n
  {
    NodeMapKeys(nodes);
    var other := NodeMap(nodes)[n.id];
    var i :| 0 <= i < |nodes| && nodes[i] == n;
    var j :| 0 <= j < |nodes| && nodes[j] == other;
    SameIndex(nodes, i, j);
  }

  lemma SameIndex(nodes: seq<Node>, i: nat, j: nat)
    requires DistinctIds(nodes) && i < |nodes| && j < |nodes| && nodes[i].id == nodes[j].id
    ensures i == j
  {
  }

  /** Distinct items are as many as the set of them. */
  lemma {:induction false} RepeatsIffFewer(xs: seq<string>)
    ensures |set x | x in xs| <= |xs|
    ensures |set x | x in xs| != |xs| <==> Repeats(xs)
  {
    if xs == [] {
    } else {
      var rest, last := xs[..|xs| - 1], xs[|xs| - 1];
      RepeatsIffFewer(rest);
      var a, b := set x | x in xs, set x | x in rest;
      assert xs == rest + [last];
      assert a == b + {last};
      RepeatsStep(rest, last);
    }
  }

  lemma RepeatsStep(rest: seq<string>, last: string)
    ensures Repeats(rest + [last]) <==> Repeats(rest) || last in rest
  {
    var xs := rest + [last];
    if Repeats(xs) {
      var i, j :| 0 <= i < j < |xs| && xs[i] == xs[j];
      assert rest[i] == xs[i];
      assert j < |rest| ==> rest[j] == xs[j];
    }
    if Repeats(rest) {
      var i, j :| 0 <= i < j < |rest| && rest[i] == rest[j];
      assert xs[i] == xs[j];
    }
    if last in rest {
      var i :| 0 <= i < |rest| && rest[i] == last;
      assert xs[i] == xs[|rest|];
    }
  }

  // ---- The checks

  /** Duplicate ids, and the nodes by id. */
  method IndexNodes(nodes: seq<Node>) returns (ids: map<NodeId, Node>, issues: seq<Issue>)
    ensures ids == NodeMap(nodes)
    ensures forall x :: x in issues <==> x.DuplicateNode? && RepeatedId(nodes, x.id)
  {
    ids, issues := map[], [];
    var i := 0;
    while i < |nodes|
      invariant 0 <= i <= |nodes|
      invariant ids == NodeMap(nodes[..i])
      invariant forall x :: x in issues <==> x.DuplicateNode? && RepeatedId(nodes[..i], x.id)
    {
      var n := nodes[i];
      ghost var before := nodes[..i];
      assert nodes[..i + 1] == before + [n] && nodes[..i + 1][..i] == before;
      NodeMapKeys(before);
      RepeatedStep(before, n);
      if n.id in ids {
        issues := issues + [DuplicateNode(n.id)];
      }
      ids := ids[n.id := n];
      i := i + 1;
    }
    assert nodes[..i] == nodes;
  }

  lemma RepeatedStep(before: seq<Node>, n: Node)
    ensures forall id :: RepeatedId(before + [n], id) <==>
      RepeatedId(before, id) || (id == n.id && exists m :: m in before && m.id == id)
  {
    var all := before + [n];
    forall id
      ensures RepeatedId(all, id) <==> RepeatedId(before, id) || (id == n.id && exists m :: m in before && m.id == id)
    {
      if RepeatedId(all, id) {
        var i, j :| 0 <= i < j < |all| && all[i].id == id && all[j].id == id;
        assert before[i].id == id && before[i] in before;
        assert j < |before| ==> before[j].id == id;
      }
      if RepeatedId(before, id) {
        var i, j :| 0 <= i < j < |before| && before[i].id == id && before[j].id == id;
        assert all[i].id == id && all[j].id == id;
      }
      if id == n.id && exists m :: m in before && m.id == id {
        var m :| m in before && m.id == id;
        var i :| 0 <= i < |before| && before[i] == m;
        assert all[i].id == id && all[|before|].id == id;
      }
    }
  }

  /** Edges of end nodes, missing targets, and edges into the start. */
  method CheckEdges(ids: map<NodeId, Node>, n: Node) returns (issues: seq<Issue>)
    ensures forall x :: x in issues <==> EdgeIssue(ids, n, x)
  {
    issues := [];
    var refs := Refs(n);
    var i := 0;
    while i < |refs|
      invariant 0 <= i <= |refs|
      invariant forall x :: x in issues <==>
        (x.MissingReference? || x.EdgeToStart?) && x.ref in refs[..i] && EdgeIssue(ids, n, x)
    {
      var ref := refs[i];
      assert refs[..i + 1] == refs[..i] + [ref];
      if ref !in ids {
        issues := issues + [MissingReference(n.id, ref)];
      } else if ids[ref].Start? {
        issues := issues + [EdgeToStart(n.id, ref)];
      }
      i := i + 1;
    }
    assert refs[..i] == refs;
    if n.End? && n.extra != [] {
      issues := issues + [EndHasEdges(n.id)];
    }
  }

  /** Approver lists, and a timeout together with its action. */
  method CheckApproval(n: Node) returns (issues: seq<Issue>)
    requires n.Approval?
    ensures forall x :: x in issues <==> ApprovalIssue(n, x)
  {
    issues := [];
    RepeatsIffFewer(n.approvers);
    if |set a | a in n.approvers| != |n.approvers| {
      issues := issues + [DuplicateApprover(n.id)];
    }
    if n.timeout.Some? && n.action.None? {
      issues := issues + [TimeoutWithoutAction(n.id)];
    }
    if n.action.Some? && n.timeout.None? {
      issues := issues + [ActionWithoutTimeout(n.id)];
    }
  }

  /** Escalation targets. */
  method CheckEscalation(n: Node) returns (issues: seq<Issue>)
    requires Escalates(n)
    ensures forall x :: x in issues <==> EscalationIssue(n, x)
  {
    var targets := n.action.value.to;
    issues := if targets == [] then [EmptyEscalation(n.id)] else [];
    var overlap := Overlap(targets, n.approvers);
    if overlap != {} {
      issues := issues + [EscalationOverlap(n.id)];
    }
    RepeatsIffFewer(targets);
    if |set a | a in targets| != |targets| {
      issues := issues + [DuplicateEscalation(n.id)];
    }
  }

  function Overlap(xs: seq<string>, ys: seq<string>): (r: set<string>)
    ensures r != {} <==> exists a :: a in xs && a in ys
  {
    var r := (set a | a in xs) * (set a | a in ys);
    assert forall a :: a in r <==> a in xs && a in ys;
    r
  }

  /** Branch expressions, and a way on when no branch matches. */
  method CheckCondition(lang: Language, n: Node) returns (issues: seq<Issue>)
    requires n.Condition?
    ensures forall x :: x in issues <==> ConditionIssue(lang, n, x)
  {
    issues := [];
    var always := false;
    var i := 0;
    while i < |n.branches|
      invariant 0 <= i <= |n.branches|
      invariant always <==> exists b :: b in n.branches[..i] && LiterallyTrue(lang, b.when)
      invariant forall x :: x in issues <==>
        x.BadExpression? && x.id == n.id && exists b :: b in n.branches[..i] && b.next == x.next && !lang.parses(b.when)
    {
      var b := n.branches[i];
      assert n.branches[..i + 1] == n.branches[..i] + [b];
      if !lang.parses(b.when) {
        issues := issues + [BadExpression(n.id, b.next)];
      }
      always := always || LiterallyTrue(lang, b.when);
      i := i + 1;
    }
    assert n.branches[..i] == n.branches;
    if n.default == "" && !always {
      issues := issues + [ConditionNoDefault(n.id)];
    }
  }

  method CheckNodes(lang: Language, ids: map<NodeId, Node>, nodes: seq<Node>) returns (issues: seq<Issue>)
    ensures forall x :: x in issues <==> SomeNodeIssue(lang, ids, nodes, x)
  {
    issues := [];
    var i := 0;
    while i < |nodes|
      invariant 0 <= i <= |nodes|
      invariant forall x :: x in issues <==> SomeNodeIssue(lang, ids, nodes[..i], x)
    {
      var n := nodes[i];
      var edges := CheckEdges(ids, n);
      var approval, escalation, condition := [], [], [];
      if n.Approval? {
        approval := CheckApproval(n);
        if Escalates(n) {
          escalation := CheckEscalation(n);
        }
      }
      if n.Condition? {
        condition := CheckCondition(lang, n);
      }
      SomeNodeStep(lang, ids, nodes[..i], n);
      assert nodes[..i + 1] == nodes[..i] + [n];
      issues := issues + edges + approval + escalation + condition;
      i := i + 1;
    }
    assert nodes[..i] == nodes;
  }

  lemma SomeNodeStep(lang: Language, ids: map<NodeId, Node>, before: seq<Node>, n: Node)
    ensures forall x :: SomeNodeIssue(lang, ids, before + [n], x) <==>
      SomeNodeIssue(lang, ids, before, x) || NodeIssue(lang, ids, n, x)
  {
    forall x
      ensures SomeNodeIssue(lang, ids, before + [n], x) <==>
        SomeNodeIssue(lang, ids, before, x) || NodeIssue(lang, ids, n, x)
    {
      assert n in before + [n];
    }
  }

  method CheckReachable(ids: map<NodeId, Node>, nodes: seq<Node>, start: NodeId)
    returns (reachable: set<NodeId>, issues: seq<Issue>)
    requires ids == NodeMap(nodes)
    ensures forall v :: v in reachable <==> Reach(GraphOf(ids), start, v)
    ensures forall x :: x in issues <==> x.Unreachable? && x.id in ids && x.id !in reachable
  {
    reachable := FlowGraph.Reachable(GraphOf(ids), start);
    NodeMapKeys(nodes);
    issues := [];
    var i := 0;
    while i < |nodes|
      invariant 0 <= i <= |nodes|
      invariant forall x :: x in issues <==>
        x.Unreachable? && x.id !in reachable && exists n :: n in nodes[..i] && n.id == x.id
    {
      var n := nodes[i];
      assert nodes[..i + 1] == nodes[..i] + [n];
      if n.id !in reachable {
        issues := issues + [Unreachable(n.id)];
      }
      i := i + 1;
    }
    assert nodes[..i] == nodes;
  }

  /** Cycles among the reachable nodes. */
  method CheckCycles(g: Graph, start: NodeId, reachable: set<NodeId>) returns (issues: seq<Issue>)
    requires forall v :: v in reachable <==> Reach(g, start, v)
    ensures forall x | x in issues :: x.Cycle? && ClosedWalk(ReachedPart(g, start), x.walk)
    ensures issues != [] <==> Cyclic(ReachedPart(g, start))
  {
    var part := map v | v in g && v in reachable :: g[v];
    assert part == ReachedPart(g, start);
    PartIsReached(g, start);
    var cycles := FindCycles(part, start);
    issues := seq(|cycles|, i requires 0 <= i < |cycles| => Cycle(cycles[i]));
    assert cycles != [] ==> issues[0] == Cycle(cycles[0]);
  }

  /** Walks from the start stay inside the reached part. */
  lemma PartIsReached(g: Graph, start: NodeId)
    ensures forall v | v in ReachedPart(g, start) :: Reach(ReachedPart(g, start), start, v)
  {
    var part := ReachedPart(g, start);
    forall v | v in part
      ensures Reach(part, start, v)
    {
      var p :| WalkBetween(g, p, start, v);
      forall i | 0 <= i < |p|
        ensures p[i] in part
      {
        SubWalk(g, p, 0, i + 1);
        assert WalkBetween(g, p[..i + 1], start, p[i]);
      }
      forall i | 0 <= i < |p| - 1
        ensures Edge(part, p[i], p[i + 1])
      {
        assert Edge(g, p[i], p[i + 1]);
      }
      assert WalkBetween(part, p, start, v);
    }
  }

  /** The first stage: one start, an end, distinct ids. */
  method CheckStructure(nodes: seq<Node>) returns (ids: map<NodeId, Node>, issues: seq<Issue>)
    ensures ids == NodeMap(nodes)
    ensures forall x :: x in issues <==> StructureIssue(nodes, x)
  {
    var starts := Starts(nodes);
    issues := if |starts| != 1 then [StartCount(|starts|)] else [];
    if forall n | n in nodes :: !n.End? {
      issues := issues + [EndCount];
    }
    var repeated;
    ids, repeated := IndexNodes(nodes);
    issues := issues + repeated;
  }

  /**
   Validation reports, apart from cycles, exactly the issues that hold: those of the first stage when
   there are any, and otherwise those of the second. Reported cycles are closed walks among the
   reachable nodes, and one is reported when there is one. Nothing is reported exactly for
   well-formed definitions.
   */
  method ValidateDefinition(lang: Language, nodes: seq<Node>) returns (issues: seq<Issue>)
    ensures (exists x :: StructureIssue(nodes, x)) ==> forall x :: x in issues <==> StructureIssue(nodes, x)
    ensures (forall x :: !StructureIssue(nodes, x)) ==> |Starts(nodes)| == 1
    ensures (forall x :: !StructureIssue(nodes, x)) ==> SecondStage(lang, nodes, Starts(nodes)[0].id, issues)
    ensures issues == [] <==> WellFormed(lang, nodes)
  {
    var ids;
    ids, issues := CheckStructure(nodes);
    if issues != [] {
      assert StructureIssue(nodes, issues[0]);
      BrokenStructure(lang, nodes, issues[0]);
      return;
    }
    OneStartExactly(nodes);
    var start := Starts(nodes)[0].id;
    var details := CheckNodes(lang, ids, nodes);
    var reachable, lost := CheckReachable(ids, nodes, start);
    var cycles := CheckCycles(GraphOf(ids), start, reachable);
    issues := details + lost + cycles;
    SecondStageHolds(lang, nodes, start, details, lost, cycles);
    NoIssueIffWellFormed(lang, nodes, Starts(nodes)[0], issues);
  }

  ghost predicate SecondStage(lang: Language, nodes: seq<Node>, start: NodeId, issues: seq<Issue>) {
    var part := ReachedPart(GraphOf(NodeMap(nodes)), start);
    && (forall x: Issue | !x.Cycle? :: x in issues <==> DetailIssue(lang, nodes, start, x))
    && (forall x | x in issues && x.Cycle? :: ClosedWalk(part, x.walk))
    && ((exists x :: x in issues && x.Cycle?) <==> Cyclic(part))
  }

  lemma SecondStageHolds(lang: Language, nodes: seq<Node>, start: NodeId, details: seq<Issue>, lost: seq<Issue>,
      cycles: seq<Issue>)
    requires forall x :: x in details <==> SomeNodeIssue(lang, NodeMap(nodes), nodes, x)
    requires forall x :: x in lost <==>
      x.Unreachable? && x.id in NodeMap(nodes) && !Reach(GraphOf(NodeMap(nodes)), start, x.id)
    requires forall x | x in cycles :: x.Cycle? && ClosedWalk(ReachedPart(GraphOf(NodeMap(nodes)), start), x.walk)
    requires cycles != [] <==> Cyclic(ReachedPart(GraphOf(NodeMap(nodes)), start))
    ensures SecondStage(lang, nodes, start, details + lost + cycles)
  {
    var issues := details + lost + cycles;
    forall x | SomeNodeIssue(lang, NodeMap(nodes), nodes, x)
      ensures !x.Cycle? && !x.Unreachable?
    {
    }
    assert cycles != [] ==> cycles[0] in issues && cycles[0].Cycle?;
  }

  /** What an empty first stage means. */
  lemma OneStartExactly(nodes: seq<Node>)
    requires forall x :: !StructureIssue(nodes, x)
    ensures |Starts(nodes)| == 1 && OneStart(nodes, Starts(nodes)[0])
    ensures DistinctIds(nodes) && exists n :: n in nodes && n.End?
  {
    assert !StructureIssue(nodes, StartCount(|Starts(nodes)|));
    assert !StructureIssue(nodes, EndCount);
    forall i, j | 0 <= i < j < |nodes|
      ensures nodes[i].id != nodes[j].id
    {
      assert !StructureIssue(nodes, DuplicateNode(nodes[i].id));
    }
    assert Starts(nodes)[0] in Starts(nodes);
  }

  lemma SomethingIn<T>(s: seq<T>)
    ensures s != [] ==> exists x :: x in s
  {
    if s != [] {
      assert s[0] in s;
    }
  }

  lemma {:induction false} StartsDistinct(nodes: seq<Node>, start: Node)
    requires OneStart(nodes, start) && DistinctIds(nodes)
    ensures |Starts(nodes)| == 1
  {
    var rest, last := nodes[..|nodes| - 1], nodes[|nodes| - 1];
    assert nodes == rest + [last];
    if last == start {
      forall n | n in rest
        ensures !n.Start?
      {
        var i :| 0 <= i < |rest| && rest[i] == n;
        assert nodes[i].id != nodes[|nodes| - 1].id;
      }
      assert forall n :: n !in Starts(rest);
      SomethingIn(Starts(rest));
    } else {
      assert OneStart(rest, start);
      StartsDistinct(rest, start);
    }
  }

  lemma BrokenStructure(lang: Language, nodes: seq<Node>, x: Issue)
    requires StructureIssue(nodes, x)
    ensures !WellFormed(lang, nodes)
  {
    if WellFormed(lang, nodes) {
      var start :| OneStart(nodes, start) && FromStart(nodes, start.id);
      StartsDistinct(nodes, start);
    }
  }

  lemma NoIssueIffWellFormed(lang: Language, nodes: seq<Node>, start: Node, issues: seq<Issue>)
    requires DistinctIds(nodes) && OneStart(nodes, start) && exists n :: n in nodes && n.End?
    requires SecondStage(lang, nodes, start.id, issues)
    ensures issues == [] <==> WellFormed(lang, nodes)
  {
    var ids := NodeMap(nodes);
    var g := GraphOf(ids);
    if issues == [] {
      NoIssueWellFormed(lang, nodes, start);
    }
    if WellFormed(lang, nodes) {
      var s :| OneStart(nodes, s) && FromStart(nodes, s.id);
      assert s == start;
      assert ReachedPart(g, start.id) == g;
      forall x
        ensures x !in issues
      {
        if !x.Cycle? && !x.Unreachable? && SomeNodeIssue(lang, ids, nodes, x) {
          var n :| n in nodes && NodeIssue(lang, ids, n, x);
          FineHasNoIssue(lang, ids, n, x);
        }
      }
      SomethingIn(issues);
    }
  }

  lemma NoIssueWellFormed(lang: Language, nodes: seq<Node>, start: Node)
    requires DistinctIds(nodes) && OneStart(nodes, start) && exists n :: n in nodes && n.End?
    requires SecondStage(lang, nodes, start.id, [])
    ensures WellFormed(lang, nodes)
  {
    var ids := NodeMap(nodes);
    var g := GraphOf(ids);
    forall n | n in nodes
      ensures NodeFine(lang, ids, n)
    {
      forall x: Issue | !x.Cycle? && !x.Unreachable?
        ensures !NodeIssue(lang, ids, n, x)
      {
        assert !DetailIssue(lang, nodes, start.id, x);
      }
      NoNodeIssue(lang, ids, n);
    }
    forall v | v in g
      ensures Reach(g, start.id, v)
    {
      assert !DetailIssue(lang, nodes, start.id, Unreachable(v));
    }
    assert ReachedPart(g, start.id) == g;
    assert FromStart(nodes, start.id);
  }

  lemma NoNodeIssue(lang: Language, ids: map<NodeId, Node>, n: Node)
    requires forall x: Issue | !x.Cycle? && !x.Unreachable? :: !NodeIssue(lang, ids, n, x)
    ensures NodeFine(lang, ids, n)
  {
    NoEdgeIssue(ids, n);
    if n.Approval? {
      NoApprovalIssue(n);
    }
    if n.Condition? {
      NoConditionIssue(lang, n);
    }
  }

  lemma NoEdgeIssue(ids: map<NodeId, Node>, n: Node)
    requires forall x: Issue | !x.Cycle? && !x.Unreachable? :: !EdgeIssue(ids, n, x)
    ensures n.End? ==> n.extra == []
    ensures forall ref | ref in Refs(n) :: ref in ids && !ids[ref].Start?
  {
    assert !EdgeIssue(ids, n, EndHasEdges(n.id));
    forall ref | ref in Refs(n)
      ensures ref in ids && !ids[ref].Start?
    {
      assert !EdgeIssue(ids, n, MissingReference(n.id, ref));
      assert !EdgeIssue(ids, n, EdgeToStart(n.id, ref));
    }
  }

  lemma NoApprovalIssue(n: Node)
    requires n.Approval?
    requires forall x: Issue | !x.Cycle? && !x.Unreachable? :: !ApprovalIssue(n, x) && !EscalationIssue(n, x)
    ensures !Repeats(n.approvers) && n.timeout.Some? == n.action.Some?
    ensures Escalates(n) ==> n.action.value.to != [] && !Repeats(n.action.value.to)
    ensures Escalates(n) ==> forall a | a in n.action.value.to :: a !in n.approvers
  {
    assert !ApprovalIssue(n, DuplicateApprover(n.id));
    assert !ApprovalIssue(n, TimeoutWithoutAction(n.id));
    assert !ApprovalIssue(n, ActionWithoutTimeout(n.id));
    assert !EscalationIssue(n, EmptyEscalation(n.id));
    assert !EscalationIssue(n, EscalationOverlap(n.id));
    assert !EscalationIssue(n, DuplicateEscalation(n.id));
  }

  lemma NoConditionIssue(lang: Language, n: Node)
    requires n.Condition?
    requires forall x: Issue | !x.Cycle? && !x.Unreachable? :: !ConditionIssue(lang, n, x)
    ensures HasFallback(lang, n) && forall b | b in n.branches :: lang.parses(b.when)
  {
    assert !ConditionIssue(lang, n, ConditionNoDefault(n.id));
    forall b | b in n.branches
      ensures lang.parses(b.when)
    {
      assert !ConditionIssue(lang, n, BadExpression(n.id, b.next));
    }
  }

  lemma FineHasNoIssue(lang: Language, ids: map<NodeId, Node>, n: Node, x: Issue)
    requires NodeFine(lang, ids, n)
    ensures !NodeIssue(lang, ids, n, x)
  {
  }
}
