/** Two ways to run a program: eagerly, where a value-returning `@` primitive hands back its
    value at once, and deferred, where it hands back a promise that the generated code turns
    into the value at the force sites and nowhere else. One interpreter covers both; they
    differ only in what a launch returns and in whether a span is a force site. */
module DeferralSemantics {
  import opened Wrappers
  import opened DeferralAnalysis

  type Environment = map<Name, Value>

  datatype Value =
    | Number(number: int)
    | Elements(elements: seq<Value>)
    | Closure(parameters: seq<Name>, body: Expression, captured: Environment)
    | Promise(launch: nat)

  /** One call of an `@` primitive, in the order the calls happen. */
  datatype Event = Event(primitive: Name, arguments: seq<Value>)

  /** `atomic` holds while the right side of an atomic reassignment runs; `atomicWaits` counts
      the times the fiber had to wait meanwhile. Only the deferred run counts. */
  datatype State = State(globals: Environment, events: seq<Event>, atomic: bool, atomicWaits: nat)

  /** `Wrong` is a program the type checker rejects; `Leaked` is a strict slot that saw a
      promise. */
  datatype Reason = Timeout | Wrong | Leaked

  datatype Outcome<+T> = Done(value: T, state: State) | Halted(reason: Reason, state: State)
  {
    predicate IsFailure() { Halted? }

    function PropagateFailure<U>(): Outcome<U>
      requires Halted?
    {
      Halted(reason, state)
    }

    function Extract(): (T, State)
      requires Done?
    {
      (value, state)
    }
  }

  datatype Mode = Eager | Deferred(forceSites: set<Span>)

  datatype Function = Function(parameters: seq<Name>, body: Expression)

  /** `reply(k)` is what the k-th primitive call of the run answers. */
  datatype Machine = Machine(mode: Mode, reply: nat -> int, functions: map<Name, Function>, atomic: set<Span>)

  const UNIT := Number(0)

  const ENTRY := Plain("^")

  function Counted(m: Machine, state: State): State {
    if m.mode.Deferred? && state.atomic then state.(atomicWaits := state.atomicWaits + 1) else state
  }

  /** The generated force: resolves a promise where the span is a force site. */
  function Forced(m: Machine, span: Span, value: Value, state: State): Outcome<Value> {
    if m.mode.Deferred? && span in m.mode.forceSites && value.Promise?
    then Done(Number(m.reply(value.launch)), Counted(m, state))
    else Done(value, state)
  }

  function Lookup(m: Machine, name: Name, environment: Environment, state: State): Outcome<Value> {
    if name in environment then Done(environment[name], state)
    else if name in state.globals then Done(state.globals[name], state)
    else if name in m.functions then
      Done(Closure(m.functions[name].parameters, m.functions[name].body, map[]), state)
    else Halted(Wrong, state)
  }

  function Operate(operation: Operation, left: Value, right: Value, state: State): Outcome<Value> {
    if !left.Number? || !right.Number? then Halted(Wrong, state)
    else
      var (l, r) := (left.number, right.number);
      Done(Number(match operation
        case Add => l + r
        case Subtract => l - r
        case Multiply => l * r
        case Equal => if l == r then 1 else 0
        case Less => if l < r then 1 else 0), state)
  }

  function ElementAt(target: Value, index: Value, state: State): Outcome<Value> {
    if target.Elements? && index.Number? && 0 <= index.number < |target.elements|
    then Done(target.elements[index.number], state)
    else Halted(Wrong, state)
  }

  function Bound(names: seq<Name>, values: seq<Value>, environment: Environment): Environment
    requires |names| == |values|
  {
    if names == [] then environment
    else Bound(names[1..], values[1..], environment[names[0] := values[0]])
  }

  /** The environment of the arm a pattern selects, or none when it does not match. */
  function Matched(pattern: Pattern, value: Value, environment: Environment): Option<Environment> {
    match pattern
    case NumberPattern(number) => if value == Number(number) then Some(environment) else None
    case NamePattern(name) => Some(environment[name := value])
    case ElementsPattern(names) =>
      if value.Elements? && |value.elements| == |names| then Some(Bound(names, value.elements, environment)) else None
    case Wildcard => Some(environment)
  }

  /** Run an `@` primitive on ready arguments: a value-returning one launches, the waiting
      ones wait, and every call is recorded. */
  function CallPrimitive(m: Machine, callee: Expression, arguments: seq<Value>, memberCall: bool,
                         state: State): Outcome<Value>
    requires callee.Identifier?
  {
    var launch := |state.events|;
    var next := state.(events := state.events + [Event(callee.name, arguments)]);
    if ProducesDeferred(callee, |arguments|, memberCall) && m.mode.Deferred? then Done(Promise(launch), next)
    else Done(Number(m.reply(launch)), if WaitsWhenCalled(callee) then Counted(m, next) else next)
  }

  /** An expression's value, forced in place when its span is a force site. */
  function Eval(m: Machine, e: Expression, environment: Environment, state: State, fuel: nat): Outcome<Value>
    decreases fuel, e, 1
  {
    var (value, next) :- Raw(m, e, environment, state, fuel);
    Forced(m, e.span, value, next)
  }

  /** A strict slot's value: a promise must not reach it. */
  function Ready(m: Machine, e: Expression, environment: Environment, state: State,
                 fuel: nat): (outcome: Outcome<Value>)
    ensures outcome.Done? ==> !outcome.value.Promise?
    decreases fuel, e, 2
  {
    var (value, next) :- Eval(m, e, environment, state, fuel);
    if value.Promise? then Halted(Leaked, next) else Done(value, next)
  }

  function Raw(m: Machine, e: Expression, environment: Environment, state: State, fuel: nat): Outcome<Value>
    decreases fuel, e, 0
  {
    match e
    case Literal(number, _) => Done(Number(number), state)
    case Identifier(name, _) => Lookup(m, name, environment, state)
    case Call(callee, arguments, memberCall, _) =>
      if CallsPrimitive(callee) then
        var (values, s1) :- ReadyAll(m, arguments, environment, state, fuel);
        CallPrimitive(m, callee, values, memberCall, s1)
      else
        var (closure, s1) :- Ready(m, callee, environment, state, fuel);
        var (values, s2) :- ReadyAll(m, arguments, environment, s1, fuel);
        if fuel == 0 then Halted(Timeout, s2) else Apply(m, closure, values, s2, fuel - 1)
    case Operator(operation, left, right, _) =>
      var (l, s1) :- Ready(m, left, environment, state, fuel);
      var (r, s2) :- Ready(m, right, environment, s1, fuel);
      Operate(operation, l, r, s2)
    case Aggregate(elements, _) =>
      var (values, s1) :- ReadyAll(m, elements, environment, state, fuel);
      Done(Elements(values), s1)
    case Index(target, index, _) =>
      var (t, s1) :- Ready(m, target, environment, state, fuel);
      var (i, s2) :- Ready(m, index, environment, s1, fuel);
      ElementAt(t, i, s2)
    case Lambda(parameters, body, _) => Done(Closure(parameters, body, environment), state)
    case If(condition, then_, else_, _) =>
      var (c, s1) :- Ready(m, condition, environment, state, fuel);
      if c != Number(0) then Eval(m, then_, environment, s1, fuel) else Eval(m, else_, environment, s1, fuel)
    case Match(scrutinee, arms, _) =>
      var (value, s1) :- Ready(m, scrutinee, environment, state, fuel);
      EvalArms(m, arms, value, environment, s1, fuel)
    case Block(statements, _) => EvalBlock(m, statements, environment, state, fuel)
  }

  /** Call a closure: its body is a strict slot of its own. */
  function Apply(m: Machine, closure: Value, values: seq<Value>, state: State, fuel: nat): Outcome<Value>
    decreases fuel
  {
    if !closure.Closure? || |closure.parameters| != |values| then Halted(Wrong, state)
    else Ready(m, closure.body, Bound(closure.parameters, values, closure.captured), state, fuel)
  }

  function ReadyAll(m: Machine, es: seq<Expression>, environment: Environment, state: State,
                    fuel: nat): (outcome: Outcome<seq<Value>>)
    ensures outcome.Done? ==> |outcome.value| == |es| && forall v <- outcome.value :: !v.Promise?
    decreases fuel, es, 0
  {
    if es == [] then Done([], state)
    else
      var (first, s1) :- Ready(m, es[0], environment, state, fuel);
      var (rest, s2) :- ReadyAll(m, es[1..], environment, s1, fuel);
      Done([first] + rest, s2)
  }

  function EvalArms(m: Machine, arms: Arms, value: Value, environment: Environment, state: State,
                    fuel: nat): Outcome<Value>
    decreases fuel, arms, 0
  {
    match arms
    case NoArm => Halted(Wrong, state)
    case Arm(pattern, body, others) =>
      match Matched(pattern, value, environment)
      case Some(extended) => Eval(m, body, extended, state, fuel)
      case None => EvalArms(m, others, value, environment, state, fuel)
  }

  function EvalBlock(m: Machine, statements: Statements, environment: Environment, state: State,
                     fuel: nat): Outcome<Value>
    decreases fuel, statements, 0
  {
    match statements
    case End => Done(UNIT, state)
    case Bind(name, value, rest) =>
      var (v, s1) :- Eval(m, value, environment, state, fuel);
      EvalBlock(m, rest, environment[name := v], s1, fuel)
    case Store(name, value, span, rest) =>
      if name in environment then Halted(Wrong, state) // `:=` on an immutable local is a type error
      else
        var (v, s1) :- Eval(m, value, environment, Entered(m, span, state), fuel);
        EvalBlock(m, rest, environment, Stored(name, v, state, s1), fuel)
    case Evaluate(expression, rest) =>
      var (v, s1) :- Eval(m, expression, environment, state, fuel);
      if rest.End? then Done(v, s1) else EvalBlock(m, rest, environment, s1, fuel)
  }

  /** A reassignment starts: everything its right side does is atomic when it is. */
  function Entered(m: Machine, span: Span, state: State): State {
    state.(atomic := state.atomic || span in m.atomic)
  }

  /** The store that ends a reassignment begun in `before`. */
  function Stored(name: Name, value: Value, before: State, after: State): State {
    after.(globals := after.globals[name := value], atomic := before.atomic)
  }

  // ----- whole programs

  function Functions(items: seq<Item>): map<Name, Function> {
    if items == [] then map[]
    else
      var item := items[|items| - 1];
      var before := Functions(items[..|items| - 1]);
      if item.FunctionDeclaration? then before[item.name := Function(item.parameters, item.body)] else before
  }

  /** Run every top-level initializer in order, from the empty state. */
  function Initialize(m: Machine, items: seq<Item>, fuel: nat): Outcome<Value> {
    if items == [] then Done(UNIT, State(map[], [], false, 0))
    else
      var (_, state) :- Initialize(m, items[..|items| - 1], fuel);
      match items[|items| - 1]
      case FunctionDeclaration(_, _, _) => Done(UNIT, state)
      case GlobalDeclaration(name, _, value, span) =>
        var (v, next) :- Eval(m, value, map[], Entered(m, span, state), fuel);
        Done(UNIT, Stored(name, v, state, next))
  }

  /** The program: its initializers, then the body of `^` in a strict slot. */
  function Run(m: Machine, items: seq<Item>, fuel: nat): Outcome<Value> {
    var (_, state) :- Initialize(m, items, fuel);
    if ENTRY in m.functions then Ready(m, m.functions[ENTRY].body, map[], state, fuel) else Halted(Wrong, state)
  }

  /** The deferred run of a program under the pass's answer: the force set `Analyze` hands to
      code generation, on the program's own functions. */
  function DeferredMachine(items: seq<Item>, atomic: set<Span>, globals: set<Name>, reply: nat -> int): (m: Machine)
    ensures m.mode.Deferred?
  {
    Machine(Deferred(VisitItems(items, globals, KnownFunctionNames(items), atomic).forces), reply, Functions(items),
      atomic)
  }
}
