/** The restricted condition language: its static check and its evaluation. */
module Expressions {
  import opened Wrappers

  datatype Scalar = Text(s: string) | Number(r: real) | Boolean(b: bool) | Null

  datatype LogicOp = And | Or
  datatype CmpOp = Eq | NotEq | Lt | LtE | Gt | GtE | In | NotIn | Is | IsNot

  /**
   A parsed tree. A comparison has an operator before each comparator; unary operators and constants
   may be of kinds outside the language, and `Other` is every other node outside it.
   */
  datatype Expr =
    | Expression(body: Expr)
    | Logic(op: LogicOp, values: seq<Expr>)
    | Unary(isNot: bool, operand: Expr)
    | Compare(left: Expr, links: seq<Link>)
    | Name(id: string)
    | Constant(scalar: bool, value: Scalar)
    | Items(elts: seq<Expr>)
    | Other

  datatype Link = Link(op: CmpOp, comparator: Expr)

  datatype Value = Plain(c: Scalar) | List(vs: seq<Value>)

  datatype Error = TooComplex | BadOperator | BadName | BadConstant | ListTooLong | Disallowed | NotComparable

  const MAX_NODES: nat := 100
  const MAX_NAME: nat := 64
  const MAX_TEXT: nat := 500
  const MAX_ITEMS: nat := 50

  /** Identifiers; comparison, which may fail on the types it is given; and truth. */
  datatype Env = Env(identifier: string -> bool, compare: (CmpOp, Value, Value) -> Option<bool>, truth: Value -> bool)

  predicate AllowedOp(op: CmpOp) {
    !op.Is? && !op.IsNot?
  }

  // ---- What the language is

  /** A node is within the language and its limits, and so is everything below it. */
  predicate Within(env: Env, e: Expr) {
    match e
    case Expression(body) => Within(env, body)
    case Logic(_, values) => forall i | 0 <= i < |values| :: Within(env, values[i])
    case Unary(isNot, operand) => isNot && Within(env, operand)
    case Compare(left, links) =>
      Within(env, left) && forall i | 0 <= i < |links| :: AllowedOp(links[i].op) && Within(env, links[i].comparator)
    case Name(id) => env.identifier(id) && |id| <= MAX_NAME
    case Constant(scalar, value) => scalar && (value.Text? ==> |value.s| <= MAX_TEXT)
    case Items(elts) => |elts| <= MAX_ITEMS && forall i | 0 <= i < |elts| :: Within(env, elts[i])
    case Other => false
  }

  /** The number of nodes the check visits. */
  function Size(e: Expr): (n: nat)
    ensures n >= 1
    decreases e, 1, 0
  {
    match e
    case Expression(body) => 1 + Size(body)
    case Logic(_, values) => 1 + SizeOf(e, values)
    case Unary(_, operand) => 1 + Size(operand)
    case Compare(left, links) => 1 + Size(left) + SizeOfLinks(e, links)
    case Items(elts) => 1 + SizeOf(e, elts)
    case _ => 1
  }

  function SizeOf(e: Expr, es: seq<Expr>): nat
    requires forall i | 0 <= i < |es| :: es[i] < e
    decreases e, 0, |es|
  {
    if es == [] then 0 else Size(es[0]) + SizeOf(e, es[1..])
  }

  function SizeOfLinks(e: Expr, links: seq<Link>): nat
    requires forall i | 0 <= i < |links| :: links[i].comparator < e
    decreases e, 0, |links|
  {
    if links == [] then 0 else Size(links[0].comparator) + SizeOfLinks(e, links[1..])
  }

  // ---- The check, as one walk with a running count

  function Walk(env: Env, e: Expr, seen: nat): Result<nat, Error>
    decreases e, 1, 0
  {
    var now := seen + 1;
    if now > MAX_NODES then Err(TooComplex)
    else
      match e
      case Expression(body) => Walk(env, body, now)
      case Logic(_, values) => WalkAll(env, e, values, now)
      case Unary(isNot, operand) => if !isNot then Err(BadOperator) else Walk(env, operand, now)
      case Compare(left, links) =>
        (match Walk(env, left, now)
         case Err(error) => Err(error)
         case Ok(after) => WalkLinks(env, e, links, after))
      case Name(id) => if !env.identifier(id) || |id| > MAX_NAME then Err(BadName) else Ok(now)
      case Constant(scalar, value) =>
        if !scalar then Err(BadConstant) else if value.Text? && |value.s| > MAX_TEXT then Err(BadConstant) else Ok(now)
      case Items(elts) => if |elts| > MAX_ITEMS then Err(ListTooLong) else WalkAll(env, e, elts, now)
      case Other => Err(Disallowed)
  }

  function WalkAll(env: Env, e: Expr, es: seq<Expr>, seen: nat): Result<nat, Error>
    requires forall i | 0 <= i < |es| :: es[i] < e
    decreases e, 0, |es|
  {
    if es == [] then Ok(seen)
    else
      match Walk(env, es[0], seen)
      case Err(error) => Err(error)
      case Ok(after) => WalkAll(env, e, es[1..], after)
  }

  function WalkLinks(env: Env, e: Expr, links: seq<Link>, seen: nat): Result<nat, Error>
    requires forall i | 0 <= i < |links| :: links[i].comparator < e
    decreases e, 0, |links|
  {
    if links == [] then Ok(seen)
    else if !AllowedOp(links[0].op) then Err(BadOperator)
    else
      match Walk(env, links[0].comparator, seen)
      case Err(error) => Err(error)
      case Ok(after) => WalkLinks(env, e, links[1..], after)
  }

  /** The walk from a count succeeds exactly on trees within the language that do not take the count past the limit. */
  ghost predicate WalkSpec(r: Result<nat, Error>, fine: bool, size: nat, seen: nat) {
    && (r.Ok? <==> fine && seen + size <= MAX_NODES)
    && (r.Ok? ==> r.value == seen + size)
  }

  lemma {:induction false} WalkIs(env: Env, e: Expr, seen: nat)
    requires seen <= MAX_NODES
    ensures WalkSpec(Walk(env, e, seen), Within(env, e), Size(e), seen)
    decreases e, 1, 0
  {
    var now := seen + 1;
    if now <= MAX_NODES {
      match e
      case Expression(body) => WalkIs(env, body, now);
      case Logic(_, values) => WalkAllIs(env, e, values, now);
      case Unary(isNot, operand) => WalkIs(env, operand, now);
      case Compare(left, links) =>
        WalkIs(env, left, now);
        if Walk(env, left, now).Ok? {
          WalkLinksIs(env, e, links, Walk(env, left, now).value);
        }
      case Items(elts) => WalkAllIs(env, e, elts, now);
      case _ =>
    }
  }

  lemma {:induction false} WalkAllIs(env: Env, e: Expr, es: seq<Expr>, seen: nat)
    requires seen <= MAX_NODES && forall i | 0 <= i < |es| :: es[i] < e
    ensures WalkSpec(WalkAll(env, e, es, seen), forall i | 0 <= i < |es| :: Within(env, es[i]), SizeOf(e, es), seen)
    decreases e, 0, |es|
  {
    if es == [] {
    } else {
      WalkIs(env, es[0], seen);
      if Walk(env, es[0], seen).Ok? {
        WalkAllIs(env, e, es[1..], Walk(env, es[0], seen).value);
        assert (forall i | 0 <= i < |es| :: Within(env, es[i])) <==>
          Within(env, es[0]) && forall i | 0 <= i < |es[1..]| :: Within(env, es[1..][i]) by {
          assert forall i | 0 < i < |es| :: es[i] == es[1..][i - 1];
        }
      }
    }
  }

  lemma {:induction false} WalkLinksIs(env: Env, e: Expr, links: seq<Link>, seen: nat)
    requires seen <= MAX_NODES && forall i | 0 <= i < |links| :: links[i].comparator < e
    ensures WalkSpec(WalkLinks(env, e, links, seen),
                     forall i | 0 <= i < |links| :: AllowedOp(links[i].op) && Within(env, links[i].comparator),
                     SizeOfLinks(e, links), seen)
    decreases e, 0, |links|
  {
    if links != [] && AllowedOp(links[0].op) {
      WalkIs(env, links[0].comparator, seen);
      if Walk(env, links[0].comparator, seen).Ok? {
        WalkLinksIs(env, e, links[1..], Walk(env, links[0].comparator, seen).value);
        assert forall i | 0 < i < |links| :: links[i] == links[1..][i - 1];
      }
    }
  }

  /** The check accepts exactly the trees of the language with at most a hundred nodes. */
  lemma AcceptsIff(env: Env, e: Expr)
    ensures Walk(env, e, 0).Ok? <==> Within(env, e) && Size(e) <= MAX_NODES
  {
    WalkIs(env, e, 0);
  }

  // ---- Evaluation

  /** Names that the context does not have are null. */
  function Eval(env: Env, context: map<string, Value>, e: Expr): Result<Value, Error>
    decreases e, 1, 0
  {
    match e
    case Expression(body) => Eval(env, context, body)
    case Logic(op, values) => EvalLogic(env, context, e, op, values)
    case Unary(isNot, operand) =>
      if !isNot then Err(Disallowed)
      else
        (match Eval(env, context, operand)
         case Err(error) => Err(error)
         case Ok(v) => Ok(Plain(Boolean(!env.truth(v)))))
    case Compare(left, links) =>
      (match Eval(env, context, left)
       case Err(error) => Err(error)
       case Ok(v) => EvalLinks(env, context, e, v, links))
    case Name(id) => Ok(if id in context then context[id] else Plain(Null))
    case Constant(_, value) => Ok(Plain(value))
    case Items(elts) =>
      (match EvalAll(env, context, e, elts)
       case Err(error) => Err(error)
       case Ok(vs) => Ok(List(vs)))
    case Other => Err(Disallowed)
  }

  /** `all` or `any` over the operands in turn, as far as needed; the result is a truth value, not an operand. */
  function EvalLogic(env: Env, context: map<string, Value>, e: Expr, op: LogicOp,
      values: seq<Expr>): Result<Value, Error>
    requires forall i | 0 <= i < |values| :: values[i] < e
    decreases e, 0, |values|
  {
    if values == [] then Ok(Plain(Boolean(op.And?)))
    else
      match Eval(env, context, values[0])
      case Err(error) => Err(error)
      case Ok(v) =>
        if env.truth(v) == op.Or? then Ok(Plain(Boolean(op.Or?)))
        else EvalLogic(env, context, e, op, values[1..])
  }

  /** The rest of a chained comparison after the value on its left; an operator outside the table is refused. */
  function EvalLinks(env: Env, context: map<string, Value>, e: Expr, left: Value,
      links: seq<Link>): Result<Value, Error>
    requires forall i | 0 <= i < |links| :: links[i].comparator < e
    decreases e, 0, |links|
  {
    if links == [] then Ok(Plain(Boolean(true)))
    else
      match Eval(env, context, links[0].comparator)
      case Err(error) => Err(error)
      case Ok(right) =>
        if !AllowedOp(links[0].op) then Err(BadOperator)
        else
          match env.compare(links[0].op, left, right)
          case None => Err(NotComparable)
          case Some(holds) => if !holds then Ok(Plain(Boolean(false)))
            else EvalLinks(env, context, e, right, links[1..])
  }

  function EvalAll(env: Env, context: map<string, Value>, e: Expr, es: seq<Expr>): Result<seq<Value>, Error>
    requires forall i | 0 <= i < |es| :: es[i] < e
    decreases e, 0, |es|
  {
    if es == [] then Ok([])
    else
      match Eval(env, context, es[0])
      case Err(error) => Err(error)
      case Ok(v) =>
        match EvalAll(env, context, e, es[1..])
        case Err(error) => Err(error)
        case Ok(vs) => Ok([v] + vs)
  }

  ghost predicate OnlyIncomparable<T>(r: Result<T, Error>) {
    r.Err? ==> r.error == NotComparable
  }

  /** On an accepted tree evaluation can only fail on values that do not compare. */
  lemma {:induction false} FailsOnlyOnTypes(env: Env, context: map<string, Value>, e: Expr)
    requires Within(env, e)
    ensures OnlyIncomparable(Eval(env, context, e))
    decreases e, 1, 0
  {
    match e
    case Expression(body) => FailsOnlyOnTypes(env, context, body);
    case Logic(op, values) => LogicFailsOnlyOnTypes(env, context, e, op, values);
    case Unary(_, operand) => FailsOnlyOnTypes(env, context, operand);
    case Compare(left, links) =>
      FailsOnlyOnTypes(env, context, left);
      if Eval(env, context, left).Ok? {
        LinksFailOnlyOnTypes(env, context, e, Eval(env, context, left).value, links);
      }
    case Items(elts) => ItemsFailOnlyOnTypes(env, context, e, elts);
    case _ =>
  }

  lemma {:induction false} LogicFailsOnlyOnTypes(env: Env, context: map<string, Value>, e: Expr, op: LogicOp,
      values: seq<Expr>)
    requires forall i | 0 <= i < |values| :: values[i] < e && Within(env, values[i])
    ensures OnlyIncomparable(EvalLogic(env, context, e, op, values))
    decreases e, 0, |values|
  {
    if values == [] {
    } else {
      FailsOnlyOnTypes(env, context, values[0]);
      LogicFailsOnlyOnTypes(env, context, e, op, values[1..]);
    }
  }

  lemma {:induction false} LinksFailOnlyOnTypes(env: Env, context: map<string, Value>, e: Expr, left: Value,
      links: seq<Link>)
    requires forall i | 0 <= i < |links| ::
               links[i].comparator < e && AllowedOp(links[i].op) && Within(env, links[i].comparator)
    ensures OnlyIncomparable(EvalLinks(env, context, e, left, links))
    decreases e, 0, |links|
  {
    if links == [] {
    } else {
      FailsOnlyOnTypes(env, context, links[0].comparator);
      if Eval(env, context, links[0].comparator).Ok? {
        LinksFailOnlyOnTypes(env, context, e, Eval(env, context, links[0].comparator).value, links[1..]);
      }
    }
  }

  lemma {:induction false} ItemsFailOnlyOnTypes(env: Env, context: map<string, Value>, e: Expr, es: seq<Expr>)
    requires forall i | 0 <= i < |es| :: es[i] < e && Within(env, es[i])
    ensures OnlyIncomparable(EvalAll(env, context, e, es))
    decreases e, 0, |es|
  {
    if es == [] {
    } else {
      FailsOnlyOnTypes(env, context, es[0]);
      ItemsFailOnlyOnTypes(env, context, e, es[1..]);
    }
  }

  // ---- Chained comparisons

  /** One comparison by itself. */
  function Pair(left: Expr, link: Link): Expr {
    Compare(left, [link])
  }

  /** The comparison of each two neighbours of a chain. */
  function Pairs(left: Expr, links: seq<Link>): (r: seq<Expr>)
    ensures |r| == |links|
    decreases |links|
  {
    if links == [] then [] else [Pair(left, links[0])] + Pairs(links[0].comparator, links[1..])
  }

  /** `and` over separate comparisons, left to right, stopping at the first that is false or fails. */
  function Conjunction(env: Env, context: map<string, Value>, es: seq<Expr>): Result<bool, Error>
    decreases |es|
  {
    if es == [] then Ok(true)
    else
      match Eval(env, context, es[0])
      case Err(error) => Err(error)
      case Ok(v) => if env.truth(v) then Conjunction(env, context, es[1..]) else Ok(false)
  }

  lemma PairIs(env: Env, context: map<string, Value>, left: Expr, v: Value, link: Link)
    requires Eval(env, context, left) == Ok(v)
    ensures Eval(env, context, Pair(left, link)) ==
      match Eval(env, context, link.comparator)
      case Err(error) => Err(error)
      case Ok(right) =>
        if !AllowedOp(link.op) then Err(BadOperator)
        else
          match env.compare(link.op, v, right)
          case None => Err(NotComparable)
          case Some(holds) => Ok(Plain(Boolean(holds)))
  {
    var e := Pair(left, link);
    assert e.links[0] == link && e.links[1..] == [];
    assert Eval(env, context, e) == EvalLinks(env, context, e, v, e.links);
    assert forall right :: EvalLinks(env, context, e, right, []) == Ok(Plain(Boolean(true)));
  }

  /** A chain is the conjunction of the comparisons of its neighbours. */
  lemma {:induction false} ChainIsConjunction(env: Env, context: map<string, Value>, e: Expr, left: Expr, v: Value,
      links: seq<Link>)
    requires forall b :: env.truth(Plain(Boolean(b))) == b
    requires forall i | 0 <= i < |links| :: links[i].comparator < e
    requires Eval(env, context, left) == Ok(v)
    ensures EvalLinks(env, context, e, v, links) ==
      match Conjunction(env, context, Pairs(left, links))
      case Err(error) => Err(error)
      case Ok(b) => Ok(Plain(Boolean(b)))
    decreases |links|
  {
    if links == [] {
    } else {
      PairIs(env, context, left, v, links[0]);
      assert Pairs(left, links)[1..] == Pairs(links[0].comparator, links[1..]);
      var right := Eval(env, context, links[0].comparator);
      if right.Ok? {
        ChainIsConjunction(env, context, e, links[0].comparator, right.value, links[1..]);
      }
    }
  }

  /**
   So `a < b < c` means what `a < b and b < c` means, failing operands included. A comparison has at
   least one link.
   */
  lemma ComparisonIsConjunction(env: Env, context: map<string, Value>, left: Expr, links: seq<Link>)
    requires forall b :: env.truth(Plain(Boolean(b))) == b
    requires links != []
    ensures Eval(env, context, Compare(left, links)) ==
      match Conjunction(env, context, Pairs(left, links))
      case Err(error) => Err(error)
      case Ok(b) => Ok(Plain(Boolean(b)))
  {
    match Eval(env, context, left)
    case Ok(v) => ChainIsConjunction(env, context, Compare(left, links), left, v, links);
    case Err(e) =>
      assert Eval(env, context, Compare(left, links)) == Err(e);
      assert Eval(env, context, Pairs(left, links)[0]) == Err(e);
  }

  // ---- Logic

  /** Evaluation goes on past the operand: it is true in a conjunction, false in a disjunction. */
  ghost predicate GoesOn(env: Env, context: map<string, Value>, op: LogicOp, operand: Expr) {
    var v := Eval(env, context, operand);
    v.Ok? && env.truth(v.value) == op.And?
  }

  /** Evaluation goes on past all operands before `i`, but not past that one. */
  ghost predicate StopsAt(env: Env, context: map<string, Value>, op: LogicOp, values: seq<Expr>, i: nat) {
    && i < |values| && !GoesOn(env, context, op, values[i])
    && forall j | 0 <= j < i :: GoesOn(env, context, op, values[j])
  }

  lemma {:induction false} LogicStops(env: Env, context: map<string, Value>, e: Expr, op: LogicOp, values: seq<Expr>,
      i: nat)
    requires forall k | 0 <= k < |values| :: values[k] < e
    requires StopsAt(env, context, op, values, i)
    ensures EvalLogic(env, context, e, op, values) ==
      match Eval(env, context, values[i])
      case Err(error) => Err(error)
      case Ok(_) => Ok(Plain(Boolean(op.Or?)))
    decreases i
  {
    if i > 0 {
      assert GoesOn(env, context, op, values[0]);
      LogicStops(env, context, e, op, values[1..], i - 1);
    }
  }

  lemma {:induction false} LogicEnds(env: Env, context: map<string, Value>, e: Expr, op: LogicOp, values: seq<Expr>)
    requires forall k | 0 <= k < |values| :: values[k] < e
    ensures (exists i: nat :: StopsAt(env, context, op, values, i)) || (
      && (forall k | 0 <= k < |values| :: GoesOn(env, context, op, values[k]))
      && EvalLogic(env, context, e, op, values) == Ok(Plain(Boolean(op.And?))))
    decreases |values|
  {
    if values == [] {
    } else if GoesOn(env, context, op, values[0]) {
      LogicEnds(env, context, e, op, values[1..]);
      if i: nat :| StopsAt(env, context, op, values[1..], i) {
        assert StopsAt(env, context, op, values, i + 1);
      } else {
        assert forall k | 0 < k < |values| :: values[k] == values[1..][k - 1];
      }
    } else {
      assert StopsAt(env, context, op, values, 0);
    }
  }

  /**
   `and` is true exactly when every operand is, `or` false exactly when every operand is. Otherwise the first
   operand that is different decides, or fails; those after it are not looked at.
   */
  lemma LogicIff(env: Env, context: map<string, Value>, op: LogicOp, values: seq<Expr>)
    ensures var r := Eval(env, context, Logic(op, values));
            && (r == Ok(Plain(Boolean(op.And?))) <==>
                  forall k | 0 <= k < |values| :: GoesOn(env, context, op, values[k]))
            && (r == Ok(Plain(Boolean(op.Or?))) <==>
                  exists i: nat :: StopsAt(env, context, op, values, i) && Eval(env, context, values[i]).Ok?)
            && (forall error :: r == Err(error) <==>
                  exists i: nat :: StopsAt(env, context, op, values, i) && Eval(env, context, values[i]) == Err(error))
  {
    var e := Logic(op, values);
    LogicEnds(env, context, e, op, values);
    forall i: nat | StopsAt(env, context, op, values, i)
      ensures EvalLogic(env, context, e, op, values) ==
        match Eval(env, context, values[i])
        case Err(error) => Err(error)
        case Ok(_) => Ok(Plain(Boolean(op.Or?)))
    {
      LogicStops(env, context, e, op, values, i);
    }
  }

  /** `not` is true exactly when its operand is false, and fails exactly when it does. */
  lemma NotIff(env: Env, context: map<string, Value>, operand: Expr)
    ensures var r, v := Eval(env, context, Unary(true, operand)), Eval(env, context, operand);
            && (r == Ok(Plain(Boolean(true))) <==> v.Ok? && !env.truth(v.value))
            && (r == Ok(Plain(Boolean(false))) <==> v.Ok? && env.truth(v.value))
            && (r.Err? <==> v.Err?) && (r.Err? ==> r.error == v.error)
  {
  }

  // ---- Lists

  /** A list has the values of its elements in their order, and fails exactly when one of them does. */
  lemma ListIff(env: Env, context: map<string, Value>, elts: seq<Expr>)
    ensures var r := Eval(env, context, Items(elts));
            && (r.Ok? <==> forall i | 0 <= i < |elts| :: Eval(env, context, elts[i]).Ok?)
            && (r.Ok? ==> r.value.List? && |r.value.vs| == |elts|
                          && forall i | 0 <= i < |elts| :: Eval(env, context, elts[i]) == Ok(r.value.vs[i]))
  {
    AllValues(env, context, Items(elts), elts);
  }

  lemma {:induction false} AllValues(env: Env, context: map<string, Value>, e: Expr, es: seq<Expr>)
    requires forall i | 0 <= i < |es| :: es[i] < e
    ensures var r := EvalAll(env, context, e, es);
            && (r.Ok? <==> forall i | 0 <= i < |es| :: Eval(env, context, es[i]).Ok?)
            && (r.Ok? ==> |r.value| == |es| && forall i | 0 <= i < |es| :: Eval(env, context, es[i]) == Ok(r.value[i]))
    decreases |es|
  {
    if es == [] {
    } else {
      AllValues(env, context, e, es[1..]);
      assert forall i | 0 < i < |es| :: es[i] == es[1..][i - 1];
    }
  }
}
