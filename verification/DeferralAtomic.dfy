/** Accepted atomic reassignments do not wait: when the pass accepts a program, evaluating the
    right side of an atomic reassignment forces no promise and calls neither `@sleep` nor
    `@streamFile`, through any depth of calls. The pass can follow only calls by name, so the
    result is about programs that call that way; four programs outside that family, each
    accepted although its atomic reassignment waits, show where the condition comes from. */
module DeferralAtomic {
  import opened Wrappers
  import opened DeferralAnalysis
  import opened DeferralSemantics

  // ----- the subexpressions of an expression

  function Nodes(e: Expression): seq<Expression>
    decreases e, 0
  {
    [e] +
    match e
    case Literal(_, _) => []
    case Identifier(_, _) => []
    case Call(callee, arguments, _, _) => Nodes(callee) + NodesAll(arguments)
    case Operator(_, left, right, _) => Nodes(left) + Nodes(right)
    case Aggregate(elements, _) => NodesAll(elements)
    case Index(target, index, _) => Nodes(target) + Nodes(index)
    case Lambda(_, body, _) => Nodes(body)
    case If(condition, then_, else_, _) => Nodes(condition) + (Nodes(then_) + Nodes(else_))
    case Match(scrutinee, arms, _) => Nodes(scrutinee) + NodesArms(arms)
    case Block(statements, _) => NodesBlock(statements)
  }

  function NodesAll(es: seq<Expression>): seq<Expression>
    decreases es, 0
  {
    if es == [] then [] else Nodes(es[0]) + NodesAll(es[1..])
  }

  function NodesArms(arms: Arms): seq<Expression>
    decreases arms, 0
  {
    match arms
    case NoArm => []
    case Arm(_, body, others) => Nodes(body) + NodesArms(others)
  }

  function NodesBlock(statements: Statements): seq<Expression>
    decreases statements, 0
  {
    match statements
    case End => []
    case Bind(_, value, rest) => Nodes(value) + NodesBlock(rest)
    case Store(_, value, _, rest) => Nodes(value) + NodesBlock(rest)
    case Evaluate(expression, rest) => Nodes(expression) + NodesBlock(rest)
  }

  ghost predicate Distinct(nodes: seq<Expression>) {
    forall i, j | 0 <= i < j < |nodes| :: nodes[i].span != nodes[j].span
  }

  lemma DistinctParts(a: seq<Expression>, b: seq<Expression>)
    requires Distinct(a + b)
    ensures Distinct(a) && Distinct(b)
    ensures forall x <- a, y <- b :: x.span != y.span
  {
    assert Distinct(a) by { assert forall i | 0 <= i < |a| :: (a + b)[i] == a[i]; }
    assert Distinct(b) by { assert forall i | 0 <= i < |b| :: (a + b)[|a| + i] == b[i]; }
    forall x, y | x in a && y in b ensures x.span != y.span {
      var i :| 0 <= i < |a| && a[i] == x;
      var j :| 0 <= j < |b| && b[j] == y;
      assert (a + b)[i] == x && (a + b)[|a| + j] == y;
    }
  }

  // ----- expressions that cannot wait

  /** What a run may do without waiting: no force site, and calls only of primitives that do
      not wait and of functions in `still`. */
  ghost predicate StillNode(n: Expression, still: set<Name>, forces: set<Span>) {
    && n.span !in forces
    && (n.Call? ==> n.function_.Identifier? && !WaitsWhenCalled(n.function_) &&
                    (CallsPrimitive(n.function_) || n.function_.name in still))
  }

  ghost predicate Still(nodes: seq<Expression>, still: set<Name>, forces: set<Span>) {
    forall n <- nodes :: StillNode(n, still, forces)
  }

  /** No local takes a function's name, so a call by that name reaches the function. */
  ghost predicate LeavesNames(nodes: seq<Expression>, functions: set<Name>) {
    forall n <- nodes ::
      (n.Block? ==> BlockNames(n.statements) !! functions) && (n.Match? ==> ArmNames(n.arms) !! functions) &&
      (n.Lambda? ==> forall parameter <- n.parameters :: parameter !in functions)
  }

  function BlockNames(statements: Statements): set<Name> {
    match statements
    case End => {}
    case Bind(name, _, rest) => {name} + BlockNames(rest)
    case Store(name, _, _, rest) => {name} + BlockNames(rest)
    case Evaluate(_, rest) => BlockNames(rest)
  }

  function ArmNames(arms: Arms): set<Name> {
    match arms
    case NoArm => {}
    case Arm(pattern, _, others) =>
      ArmNames(others) +
      match pattern
      case NamePattern(name) => {name}
      case ElementsPattern(names) => set name <- names
      case NumberPattern(_) => {}
      case Wildcard => {}
  }

  /** The right sides of the atomic reassignments directly in a block. */
  function AtomicValues(statements: Statements, atomic: set<Span>): seq<Expression> {
    match statements
    case End => []
    case Bind(_, _, rest) => AtomicValues(rest, atomic)
    case Store(_, value, span, rest) => (if span in atomic then [value] else []) + AtomicValues(rest, atomic)
    case Evaluate(_, rest) => AtomicValues(rest, atomic)
  }

  ghost predicate AllStill(values: seq<Expression>, still: set<Name>, forces: set<Span>) {
    forall value <- values :: Still(Nodes(value), still, forces)
  }

  /** Every atomic reassignment among the nodes has a right side that cannot wait. */
  ghost predicate AtomicStill(nodes: seq<Expression>, atomic: set<Span>, still: set<Name>, forces: set<Span>) {
    forall n <- nodes :: n.Block? ==> AllStill(AtomicValues(n.statements, atomic), still, forces)
  }

  // ----- running them

  ghost predicate Fit(m: Machine, still: set<Name>, nodes: seq<Expression>)
    requires m.mode.Deferred?
  {
    AtomicStill(nodes, m.atomic, still, m.mode.forceSites) && LeavesNames(nodes, m.functions.Keys)
  }

  /** The run's surroundings: functions in `still` have bodies that cannot wait, all atomic
      reassignments are still, and no binding hides a function. */
  ghost predicate StillMachine(m: Machine, still: set<Name>) {
    && m.mode.Deferred?
    && still <= m.functions.Keys
    && forall name <- m.functions :: var f := m.functions[name];
      && (name in still ==> Still(Nodes(f.body), still, m.mode.forceSites))
      && Fit(m, still, Nodes(f.body))
      && (forall parameter <- f.parameters :: parameter !in m.functions)
  }

  /** Every closure inside a value came from a function, or from a lambda under its rules. */
  ghost predicate Tame(m: Machine, still: set<Name>, value: Value)
    requires m.mode.Deferred?
    decreases value
  {
    match value
    case Number(_) => true
    case Promise(_) => true
    case Elements(elements) => forall i | 0 <= i < |elements| :: Tame(m, still, elements[i])
    case Closure(parameters, body, captured) =>
      && Fit(m, still, Nodes(body))
      && (forall parameter <- parameters :: parameter !in m.functions)
      && captured.Keys !! m.functions.Keys
      && (forall name <- captured :: Tame(m, still, captured[name]))
  }

  ghost predicate TameIn(m: Machine, still: set<Name>, environment: Environment)
    requires m.mode.Deferred?
  {
    environment.Keys !! m.functions.Keys && forall name <- environment :: Tame(m, still, environment[name])
  }

  ghost predicate Quiet(m: Machine, still: set<Name>, nodes: seq<Expression>)
    requires m.mode.Deferred?
  {
    Still(nodes, still, m.mode.forceSites)
  }

  /** A moment of the run about to evaluate `nodes`: inside an atomic reassignment only nodes
      that cannot wait are evaluated. */
  ghost predicate Scene(m: Machine, still: set<Name>, nodes: seq<Expression>, environment: Environment, state: State) {
    && StillMachine(m, still) && TameIn(m, still, environment) && TameIn(m, still, state.globals)
    && Fit(m, still, nodes) && (state.atomic ==> Quiet(m, still, nodes))
  }

  /** Where evaluation leaves the run: no wait was charged to an atomic reassignment, and a
      finished evaluation is where it began: tame, and inside one exactly when it was. */
  ghost predicate Kept(m: Machine, still: set<Name>, before: State, done: bool, after: State)
    requires m.mode.Deferred?
  {
    after.atomicWaits == before.atomicWaits &&
      (done ==> TameIn(m, still, after.globals) && after.atomic == before.atomic)
  }

  ghost predicate Keeps(m: Machine, still: set<Name>, before: State, outcome: Outcome<Value>)
    requires m.mode.Deferred?
  {
    Kept(m, still, before, outcome.Done?, outcome.state) && (outcome.Done? ==> Tame(m, still, outcome.value))
  }

  lemma FitParts(m: Machine, still: set<Name>, a: seq<Expression>, b: seq<Expression>)
    requires m.mode.Deferred? && Fit(m, still, a + b)
    ensures Fit(m, still, a) && Fit(m, still, b)
    ensures Still(a + b, still, m.mode.forceSites) ==>
      Still(a, still, m.mode.forceSites) && Still(b, still, m.mode.forceSites)
  {
    assert forall n <- a :: n in a + b;
    assert forall n <- b :: n in a + b;
  }

  lemma {:induction false} BoundTame(m: Machine, still: set<Name>, names: seq<Name>, values: seq<Value>,
                                     environment: Environment)
    requires m.mode.Deferred? && |names| == |values| && TameIn(m, still, environment)
    requires forall name <- names :: name !in m.functions
    requires forall v <- values :: Tame(m, still, v)
    ensures TameIn(m, still, Bound(names, values, environment))
    decreases |names|
  {
    if names != [] { BoundTame(m, still, names[1..], values[1..], environment[names[0] := values[0]]); }
  }

  lemma {:induction false} EvalKeeps(m: Machine, still: set<Name>, e: Expression, environment: Environment,
                                     state: State, fuel: nat)
    requires Scene(m, still, Nodes(e), environment, state)
    ensures Keeps(m, still, state, Eval(m, e, environment, state, fuel))
    decreases fuel, e, 3
  {
    RawKeeps(m, still, e, environment, state, fuel);
    assert e in Nodes(e);
  }

  lemma {:induction false} ReadyKeeps(m: Machine, still: set<Name>, e: Expression, environment: Environment,
                                      state: State, fuel: nat)
    requires Scene(m, still, Nodes(e), environment, state)
    ensures Keeps(m, still, state, Ready(m, e, environment, state, fuel))
    decreases fuel, e, 4
  {
    EvalKeeps(m, still, e, environment, state, fuel);
  }

  lemma {:induction false} ReadyAllKeeps(m: Machine, still: set<Name>, es: seq<Expression>, environment: Environment,
                                         state: State, fuel: nat)
    requires Scene(m, still, NodesAll(es), environment, state)
    ensures var outcome := ReadyAll(m, es, environment, state, fuel);
      Kept(m, still, state, outcome.Done?, outcome.state) &&
        (outcome.Done? ==> forall v <- outcome.value :: Tame(m, still, v))
    decreases fuel, es, 0
  {
    if es != [] {
      FitParts(m, still, Nodes(es[0]), NodesAll(es[1..]));
      ReadyKeeps(m, still, es[0], environment, state, fuel);
      var first := Ready(m, es[0], environment, state, fuel);
      if first.Done? { ReadyAllKeeps(m, still, es[1..], environment, first.state, fuel); }
    }
  }

  lemma {:induction false} RawKeeps(m: Machine, still: set<Name>, e: Expression, environment: Environment,
                                    state: State, fuel: nat)
    requires Scene(m, still, Nodes(e), environment, state)
    ensures Keeps(m, still, state, Raw(m, e, environment, state, fuel))
    decreases fuel, e, 2
  {
    assert e in Nodes(e);
    match e
    case Literal(_, _) =>
    case Identifier(_, _) =>
    case Call(callee, _, _, _) =>
      if CallsPrimitive(callee) {
        PrimitiveKeeps(m, still, e, environment, state, fuel);
      } else {
        CallKeeps(m, still, e, environment, state, fuel);
      }
    case Operator(_, _, _, _) => OperatorKeeps(m, still, e, environment, state, fuel);
    case Aggregate(elements, _) =>
      FitParts(m, still, [e], NodesAll(elements));
      ReadyAllKeeps(m, still, elements, environment, state, fuel);
    case Index(_, _, _) => IndexKeeps(m, still, e, environment, state, fuel);
    case Lambda(_, body, _) => FitParts(m, still, [e], Nodes(body));
    case If(_, _, _, _) => IfKeeps(m, still, e, environment, state, fuel);
    case Match(_, _, _) => MatchKeeps(m, still, e, environment, state, fuel);
    case Block(statements, _) =>
      FitParts(m, still, [e], NodesBlock(statements));
      BlockKeeps(m, still, statements, environment, state, fuel);
  }

  lemma {:induction false} OperatorKeeps(m: Machine, still: set<Name>, e: Expression, environment: Environment,
                                         state: State, fuel: nat)
    requires e.Operator? && Scene(m, still, Nodes(e), environment, state)
    ensures Keeps(m, still, state, Raw(m, e, environment, state, fuel))
    decreases fuel, e, 0
  {
    FitParts(m, still, [e], Nodes(e.left) + Nodes(e.right));
    FitParts(m, still, Nodes(e.left), Nodes(e.right));
    ReadyKeeps(m, still, e.left, environment, state, fuel);
    var l := Ready(m, e.left, environment, state, fuel);
    if l.Done? { ReadyKeeps(m, still, e.right, environment, l.state, fuel); }
  }

  lemma {:induction false} IndexKeeps(m: Machine, still: set<Name>, e: Expression, environment: Environment,
                                      state: State, fuel: nat)
    requires e.Index? && Scene(m, still, Nodes(e), environment, state)
    ensures Keeps(m, still, state, Raw(m, e, environment, state, fuel))
    decreases fuel, e, 0
  {
    FitParts(m, still, [e], Nodes(e.target) + Nodes(e.index));
    FitParts(m, still, Nodes(e.target), Nodes(e.index));
    ReadyKeeps(m, still, e.target, environment, state, fuel);
    var t := Ready(m, e.target, environment, state, fuel);
    if t.Done? { ReadyKeeps(m, still, e.index, environment, t.state, fuel); }
  }

  lemma {:induction false} MatchKeeps(m: Machine, still: set<Name>, e: Expression, environment: Environment,
                                      state: State, fuel: nat)
    requires e.Match? && Scene(m, still, Nodes(e), environment, state)
    ensures Keeps(m, still, state, Raw(m, e, environment, state, fuel))
    decreases fuel, e, 0
  {
    assert e in Nodes(e);
    FitParts(m, still, [e], Nodes(e.scrutinee) + NodesArms(e.arms));
    FitParts(m, still, Nodes(e.scrutinee), NodesArms(e.arms));
    ReadyKeeps(m, still, e.scrutinee, environment, state, fuel);
    var v := Ready(m, e.scrutinee, environment, state, fuel);
    if v.Done? { ArmsKeep(m, still, e.arms, v.value, environment, v.state, fuel); }
  }

  lemma {:induction false} IfKeeps(m: Machine, still: set<Name>, e: Expression, environment: Environment,
                                   state: State, fuel: nat)
    requires e.If? && Scene(m, still, Nodes(e), environment, state)
    ensures Keeps(m, still, state, Raw(m, e, environment, state, fuel))
    decreases fuel, e, 0
  {
    var If(condition, then_, else_, _) := e;
    FitParts(m, still, [e], Nodes(condition) + (Nodes(then_) + Nodes(else_)));
    FitParts(m, still, Nodes(condition), Nodes(then_) + Nodes(else_));
    FitParts(m, still, Nodes(then_), Nodes(else_));
    ReadyKeeps(m, still, condition, environment, state, fuel);
    var c := Ready(m, condition, environment, state, fuel);
    if c.Done? {
      if c.value != Number(0) {
        EvalKeeps(m, still, then_, environment, c.state, fuel);
      } else {
        EvalKeeps(m, still, else_, environment, c.state, fuel);
      }
    }
  }

  lemma {:induction false} PrimitiveKeeps(m: Machine, still: set<Name>, e: Expression, environment: Environment,
                                          state: State, fuel: nat)
    requires e.Call? && CallsPrimitive(e.function_) && Scene(m, still, Nodes(e), environment, state)
    ensures Keeps(m, still, state, Raw(m, e, environment, state, fuel))
    decreases fuel, e, 0
  {
    assert e in Nodes(e);
    FitParts(m, still, [e], Nodes(e.function_) + NodesAll(e.arguments));
    FitParts(m, still, Nodes(e.function_), NodesAll(e.arguments));
    ReadyAllKeeps(m, still, e.arguments, environment, state, fuel);
  }

  lemma {:induction false} CallKeeps(m: Machine, still: set<Name>, e: Expression, environment: Environment,
                                     state: State, fuel: nat)
    requires e.Call? && !CallsPrimitive(e.function_) && Scene(m, still, Nodes(e), environment, state)
    ensures Keeps(m, still, state, Raw(m, e, environment, state, fuel))
    decreases fuel, e, 1
  {
    OperandsKeep(m, still, e, environment, state, fuel);
    var called := Ready(m, e.function_, environment, state, fuel);
    if called.Done? {
      var passed := ReadyAll(m, e.arguments, environment, called.state, fuel);
      if passed.Done? && fuel > 0 { ApplyKeeps(m, still, called.value, passed.value, passed.state, fuel - 1); }
    }
  }

  /** The callee and the arguments of a call by value, before the call itself. */
  lemma {:induction false} OperandsKeep(m: Machine, still: set<Name>, e: Expression, environment: Environment,
                                        state: State, fuel: nat)
    requires e.Call? && !CallsPrimitive(e.function_) && Scene(m, still, Nodes(e), environment, state)
    ensures var called := Ready(m, e.function_, environment, state, fuel);
      && Keeps(m, still, state, called)
      && (called.Done? ==>
        var passed := ReadyAll(m, e.arguments, environment, called.state, fuel);
        && (called.value.Closure? && state.atomic ==> Quiet(m, still, Nodes(called.value.body)))
        && Kept(m, still, state, passed.Done?, passed.state)
        && (passed.Done? ==> forall v <- passed.value :: Tame(m, still, v)))
    decreases fuel, e, 0
  {
    FitParts(m, still, [e], Nodes(e.function_) + NodesAll(e.arguments));
    FitParts(m, still, Nodes(e.function_), NodesAll(e.arguments));
    ReadyKeeps(m, still, e.function_, environment, state, fuel);
    if state.atomic { StillCallee(m, still, e, environment, state, fuel); }
    var called := Ready(m, e.function_, environment, state, fuel);
    if called.Done? { ReadyAllKeeps(m, still, e.arguments, environment, called.state, fuel); }
  }

  /** In a still expression a call by name reaches a function whose body is still. */
  lemma StillCallee(m: Machine, still: set<Name>, e: Expression, environment: Environment, state: State, fuel: nat)
    requires e.Call? && !CallsPrimitive(e.function_)
    requires Scene(m, still, Nodes(e), environment, state) && Quiet(m, still, Nodes(e))
    ensures var called := Ready(m, e.function_, environment, state, fuel);
      called.Done? && called.value.Closure? ==> Quiet(m, still, Nodes(called.value.body))
  {
    assert e in Nodes(e);
    assert StillNode(e, still, m.mode.forceSites);
    var name := e.function_.name;
    assert name in m.functions && name !in environment && name !in state.globals;
    assert Raw(m, e.function_, environment, state, fuel) == Lookup(m, name, environment, state);
  }

  lemma {:induction false} ApplyKeeps(m: Machine, still: set<Name>, closure: Value, values: seq<Value>, state: State,
                                      fuel: nat)
    requires StillMachine(m, still) && TameIn(m, still, state.globals) && Tame(m, still, closure)
    requires closure.Closure? && state.atomic ==> Quiet(m, still, Nodes(closure.body))
    requires forall v <- values :: Tame(m, still, v)
    ensures Keeps(m, still, state, Apply(m, closure, values, state, fuel))
    decreases fuel
  {
    if closure.Closure? && |closure.parameters| == |values| {
      BoundTame(m, still, closure.parameters, values, closure.captured);
      ReadyKeeps(m, still, closure.body, Bound(closure.parameters, values, closure.captured), state, fuel);
    }
  }

  lemma {:induction false} ArmsKeep(m: Machine, still: set<Name>, arms: Arms, value: Value, environment: Environment,
                                    state: State, fuel: nat)
    requires Scene(m, still, NodesArms(arms), environment, state) && Tame(m, still, value)
    requires ArmNames(arms) !! m.functions.Keys
    ensures Keeps(m, still, state, EvalArms(m, arms, value, environment, state, fuel))
    decreases fuel, arms, 0
  {
    match arms
    case NoArm =>
    case Arm(pattern, body, others) =>
      FitParts(m, still, Nodes(body), NodesArms(others));
      if pattern.ElementsPattern? && value.Elements? && |pattern.names| == |value.elements| {
        BoundTame(m, still, pattern.names, value.elements, environment);
      }
      match Matched(pattern, value, environment) {
        case Some(extended) => EvalKeeps(m, still, body, extended, state, fuel);
        case None => ArmsKeep(m, still, others, value, environment, state, fuel);
      }
  }

  lemma {:induction false} BlockKeeps(m: Machine, still: set<Name>, statements: Statements, environment: Environment,
                                      state: State, fuel: nat)
    requires Scene(m, still, NodesBlock(statements), environment, state)
    requires AllStill(AtomicValues(statements, m.atomic), still, m.mode.forceSites) &&
      BlockNames(statements) !! m.functions.Keys
    ensures Keeps(m, still, state, EvalBlock(m, statements, environment, state, fuel))
    decreases fuel, statements, 1
  {
    match statements
    case End =>
    case Bind(name, value, rest) =>
      FitParts(m, still, Nodes(value), NodesBlock(rest));
      EvalKeeps(m, still, value, environment, state, fuel);
      var v := Eval(m, value, environment, state, fuel);
      if v.Done? { BlockKeeps(m, still, rest, environment[name := v.value], v.state, fuel); }
    case Store(_, _, _, _) => StoreKeeps(m, still, statements, environment, state, fuel);
    case Evaluate(expression, rest) =>
      FitParts(m, still, Nodes(expression), NodesBlock(rest));
      EvalKeeps(m, still, expression, environment, state, fuel);
      var v := Eval(m, expression, environment, state, fuel);
      if v.Done? && !rest.End? { BlockKeeps(m, still, rest, environment, v.state, fuel); }
  }

  lemma {:induction false} StoreKeeps(m: Machine, still: set<Name>, statements: Statements, environment: Environment,
                                      state: State, fuel: nat)
    requires statements.Store? && Scene(m, still, NodesBlock(statements), environment, state)
    requires AllStill(AtomicValues(statements, m.atomic), still, m.mode.forceSites) &&
      BlockNames(statements) !! m.functions.Keys
    ensures Keeps(m, still, state, EvalBlock(m, statements, environment, state, fuel))
    decreases fuel, statements, 0
  {
    var Store(name, value, span, rest) := statements;
    FitParts(m, still, Nodes(value), NodesBlock(rest));
    if span in m.atomic { assert value in AtomicValues(statements, m.atomic); }
    assert forall v <- AtomicValues(rest, m.atomic) :: v in AtomicValues(statements, m.atomic);
    EvalKeeps(m, still, value, environment, Entered(m, span, state), fuel);
    var v := Eval(m, value, environment, Entered(m, span, state), fuel);
    if v.Done? { BlockKeeps(m, still, rest, environment, Stored(name, v.value, state, v.state), fuel); }
  }
}
