/** The deferral pass preserves meaning: with forces only where the pass puts them, the
    deferred run is the eager run with its promises not yet resolved, and no strict slot
    ever sees a promise. */
module DeferralPreservation {
  import opened Wrappers
  import opened DeferralAnalysis
  import opened DeferralSemantics

  // ----- resolving every promise of a deferred run

  function Resolve(reply: nat -> int, value: Value): Value
    decreases value
  {
    match value
    case Number(_) => value
    case Promise(launch) => Number(reply(launch))
    case Elements(elements) =>
      Elements(seq(|elements|, i requires 0 <= i < |elements| => Resolve(reply, elements[i])))
    case Closure(parameters, body, captured) =>
      Closure(parameters, body, map name | name in captured :: Resolve(reply, captured[name]))
  }

  function ResolveAll(reply: nat -> int, values: seq<Value>): seq<Value> {
    seq(|values|, i requires 0 <= i < |values| => Resolve(reply, values[i]))
  }

  function ResolveIn(reply: nat -> int, environment: Environment): Environment {
    map name | name in environment :: Resolve(reply, environment[name])
  }

  function ResolveEvents(reply: nat -> int, events: seq<Event>): seq<Event> {
    seq(|events|, i requires 0 <= i < |events| => Event(events[i].primitive, ResolveAll(reply, events[i].arguments)))
  }

  /** The eager view of a deferred state: same events, resolved values, no wait counted. */
  function ResolveState(reply: nat -> int, state: State): State {
    State(ResolveIn(reply, state.globals), ResolveEvents(reply, state.events), state.atomic, 0)
  }

  function ResolveOutcome(reply: nat -> int, outcome: Outcome<Value>): Outcome<Value> {
    match outcome
    case Done(value, state) => Done(Resolve(reply, value), ResolveState(reply, state))
    case Halted(reason, state) => Halted(reason, ResolveState(reply, state))
  }

  function ResolveOutcomes(reply: nat -> int, outcome: Outcome<seq<Value>>): Outcome<seq<Value>> {
    match outcome
    case Done(values, state) => Done(ResolveAll(reply, values), ResolveState(reply, state))
    case Halted(reason, state) => Halted(reason, ResolveState(reply, state))
  }

  // ----- what the analysis knows about a run

  /** The pass's answer: the deferred globals and the force set. */
  datatype Answer = Answer(globals: set<Name>, forces: set<Span>)

  /** A visit whose findings the answer accounts for. `demoted !! globals` is the condition
      under which the pass is right: no block stores a ready value into a global that holds
      a promise somewhere. */
  ghost predicate Accounted(report: Report, answer: Answer) {
    report.forces <= answer.forces && report.stored <= answer.globals && report.demoted !! answer.globals
  }

  /** A promise sits only under a name the scope calls deferred, and a name the scope calls
      ready without a local binding is not a deferred global. */
  ghost predicate Agrees(scope: Scope, environment: Environment, globals: set<Name>) {
    && (forall name <- environment :: environment[name].Promise? ==> IsDeferred(scope, globals, name))
    && (forall name <- scope :: name !in environment && !scope[name] ==> name !in globals)
  }

  ghost predicate BodyFits(body: Expression, environment: Environment, scope: Scope, round: Round, answer: Answer) {
    && round.deferredGlobals == answer.globals
    && Accounted(Strict(body, scope, round), answer)
    && Agrees(scope, environment, answer.globals)
  }

  /** No promise inside an aggregate, and every closure was analysed in a scope that agrees
      with what it captured. */
  ghost predicate Sound(value: Value, answer: Answer)
    decreases value
  {
    match value
    case Number(_) => true
    case Promise(_) => true
    case Elements(elements) => forall i | 0 <= i < |elements| :: !elements[i].Promise? && Sound(elements[i], answer)
    case Closure(_, body, captured) =>
      && (forall name <- captured :: Sound(captured[name], answer))
      && (exists scope, round :: BodyFits(body, captured, scope, round, answer))
  }

  ghost predicate SoundIn(environment: Environment, answer: Answer) {
    forall name <- environment :: Sound(environment[name], answer)
  }

  /** Only deferred globals hold promises. */
  ghost predicate SoundState(state: State, answer: Answer) {
    && SoundIn(state.globals, answer)
    && forall name <- state.globals :: state.globals[name].Promise? ==> name in answer.globals
  }

  ghost predicate SoundMachine(m: Machine, answer: Answer) {
    && m.mode == Deferred(answer.forces)
    && forall name <- m.functions :: exists round :: BodyFits(m.functions[name].body, map[], map[], round, answer)
  }

  ghost predicate SoundOutcome(outcome: Outcome<Value>, answer: Answer) {
    outcome != Halted(Leaked, outcome.state) &&
      (outcome.Done? ==> Sound(outcome.value, answer) && SoundState(outcome.state, answer))
  }

  ghost predicate SoundOutcomes(outcome: Outcome<seq<Value>>, answer: Answer) {
    outcome != Halted(Leaked, outcome.state) &&
      (outcome.Done? ==> (forall v <- outcome.value :: Sound(v, answer)) && SoundState(outcome.state, answer))
  }

  ghost predicate Situation(m: Machine, environment: Environment, state: State, scope: Scope, round: Round,
                            answer: Answer) {
    && SoundMachine(m, answer) && SoundIn(environment, answer) && SoundState(state, answer)
    && round.deferredGlobals == answer.globals && Agrees(scope, environment, answer.globals)
  }

  function Eagerly(m: Machine): Machine { m.(mode := Eager) }

  /** What every step of the simulation shows of a deferred outcome: it is sound, it holds a
      promise only where the pass reports one, and it resolves to the eager outcome. */
  ghost predicate Mirrors(lazy: Outcome<Value>, eager: Outcome<Value>, deferred: bool, reply: nat -> int,
                          answer: Answer) {
    && SoundOutcome(lazy, answer)
    && (lazy.Done? && lazy.value.Promise? ==> deferred)
    && eager == ResolveOutcome(reply, lazy)
  }

  // ----- the pieces

  lemma ClosureResolves(reply: nat -> int, parameters: seq<Name>, body: Expression, captured: Environment)
    ensures Resolve(reply, Closure(parameters, body, captured)) == Closure(parameters, body, ResolveIn(reply, captured))
  {
    var resolved := Resolve(reply, Closure(parameters, body, captured));
    assert resolved.captured == ResolveIn(reply, captured);
  }

  lemma ResolveCons(reply: nat -> int, value: Value, values: seq<Value>)
    ensures ResolveAll(reply, [value] + values) == [Resolve(reply, value)] + ResolveAll(reply, values)
  {
  }

  lemma {:induction false} BoundResolves(reply: nat -> int, names: seq<Name>, values: seq<Value>,
                                         environment: Environment)
    requires |names| == |values|
    ensures ResolveIn(reply, Bound(names, values, environment))
      == Bound(names, ResolveAll(reply, values), ResolveIn(reply, environment))
    decreases |names|
  {
    if names != [] {
      BoundResolves(reply, names[1..], values[1..], environment[names[0] := values[0]]);
      assert ResolveAll(reply, values)[1..] == ResolveAll(reply, values[1..]);
      assert ResolveIn(reply, environment[names[0] := values[0]])
        == ResolveIn(reply, environment)[names[0] := Resolve(reply, values[0])];
    }
  }

  /** Binding ready, sound values keeps the environment sound and in agreement. */
  lemma {:induction false} BoundAgrees(names: seq<Name>, values: seq<Value>, environment: Environment, scope: Scope,
                                       answer: Answer)
    requires |names| == |values|
    requires forall v <- values :: !v.Promise? && Sound(v, answer)
    requires SoundIn(environment, answer) && Agrees(scope, environment, answer.globals)
    ensures SoundIn(Bound(names, values, environment), answer)
    ensures Agrees(scope, Bound(names, values, environment), answer.globals)
    decreases |names|
  {
    if names != [] {
      BoundAgrees(names[1..], values[1..], environment[names[0] := values[0]], scope, answer);
    }
  }

  lemma MatchedResolves(reply: nat -> int, pattern: Pattern, value: Value, environment: Environment)
    requires !value.Promise?
    ensures Matched(pattern, Resolve(reply, value), ResolveIn(reply, environment)) ==
      match Matched(pattern, value, environment) {
        case Some(extended) => Some(ResolveIn(reply, extended))
        case None => None
      }
  {
    match pattern
    case NumberPattern(_) =>
    case NamePattern(name) =>
      assert ResolveIn(reply, environment[name := value])
        == ResolveIn(reply, environment)[name := Resolve(reply, value)];
    case ElementsPattern(names) =>
      if value.Elements? && |value.elements| == |names| {
        BoundResolves(reply, names, value.elements, environment);
        assert Resolve(reply, value).elements == ResolveAll(reply, value.elements);
      }
    case Wildcard =>
  }

  lemma MatchedAgrees(pattern: Pattern, value: Value, environment: Environment, scope: Scope, answer: Answer)
    requires !value.Promise? && Sound(value, answer)
    requires SoundIn(environment, answer) && Agrees(scope, environment, answer.globals)
    ensures Matched(pattern, value, environment).Some? ==>
      SoundIn(Matched(pattern, value, environment).value, answer) &&
        Agrees(scope, Matched(pattern, value, environment).value, answer.globals)
  {
    if pattern.ElementsPattern? && value.Elements? && |value.elements| == |pattern.names| {
      BoundAgrees(pattern.names, value.elements, environment, scope, answer);
    }
  }

  // ----- the simulation

  /** One expression: the deferred result is sound, holds a promise only when the pass says so,
      and resolves to the eager result. */
  lemma {:induction false} EvalPreserves(m: Machine, e: Expression, environment: Environment, state: State, fuel: nat,
                                         scope: Scope, round: Round, answer: Answer)
    requires Situation(m, environment, state, scope, round, answer)
    requires Accounted(Visit(e, scope, round), answer)
    ensures var outcome := Eval(m, e, environment, state, fuel);
      && SoundOutcome(outcome, answer)
      && (outcome.Done? && outcome.value.Promise? ==> Visit(e, scope, round).deferred && e.span !in answer.forces)
      && Eval(Eagerly(m), e, ResolveIn(m.reply, environment), ResolveState(m.reply, state), fuel)
         == ResolveOutcome(m.reply, outcome)
    decreases fuel, e, 2
  {
    RawPreserves(m, e, environment, state, fuel, scope, round, answer);
    var raw := Raw(m, e, environment, state, fuel);
    if raw.Done? { ForcedPreserves(m, e, raw, answer); }
  }

  /** The force of an expression's own value, deferred and eager. */
  lemma ForcedPreserves(m: Machine, e: Expression, raw: Outcome<Value>, answer: Answer)
    requires SoundMachine(m, answer) && SoundOutcome(raw, answer) && raw.Done?
    ensures var forced := Forced(m, e.span, raw.value, raw.state);
      && SoundOutcome(forced, answer)
      && (forced.value.Promise? ==> raw.value.Promise? && e.span !in answer.forces)
      && Forced(Eagerly(m), e.span, Resolve(m.reply, raw.value), ResolveState(m.reply, raw.state))
         == ResolveOutcome(m.reply, forced)
  {
  }

  /** A strict slot never sees a promise. */
  lemma {:induction false} ReadyPreserves(m: Machine, e: Expression, environment: Environment, state: State, fuel: nat,
                                          scope: Scope, round: Round, answer: Answer)
    requires Situation(m, environment, state, scope, round, answer)
    requires Accounted(Strict(e, scope, round), answer)
    ensures SoundOutcome(Ready(m, e, environment, state, fuel), answer)
    ensures Ready(Eagerly(m), e, ResolveIn(m.reply, environment), ResolveState(m.reply, state), fuel)
         == ResolveOutcome(m.reply, Ready(m, e, environment, state, fuel))
    decreases fuel, e, 3
  {
    EvalPreserves(m, e, environment, state, fuel, scope, round, answer);
  }

  lemma {:induction false} ReadyAllPreserves(m: Machine, es: seq<Expression>, environment: Environment, state: State,
                                             fuel: nat,
                                             scope: Scope, round: Round, answer: Answer)
    requires Situation(m, environment, state, scope, round, answer)
    requires Accounted(VisitAll(es, scope, round), answer)
    ensures SoundOutcomes(ReadyAll(m, es, environment, state, fuel), answer)
    ensures ReadyAll(Eagerly(m), es, ResolveIn(m.reply, environment), ResolveState(m.reply, state), fuel)
         == ResolveOutcomes(m.reply, ReadyAll(m, es, environment, state, fuel))
    decreases fuel, es, 0
  {
    if es == [] {
      assert ResolveAll(m.reply, []) == [];
    } else {
      ReadyPreserves(m, es[0], environment, state, fuel, scope, round, answer);
      var first := Ready(m, es[0], environment, state, fuel);
      if first.Done? {
        ReadyAllPreserves(m, es[1..], environment, first.state, fuel, scope, round, answer);
        var rest := ReadyAll(m, es[1..], environment, first.state, fuel);
        if rest.Done? { ResolveCons(m.reply, first.value, rest.value); }
      }
    }
  }

  lemma {:induction false} RawPreserves(m: Machine, e: Expression, environment: Environment, state: State, fuel: nat,
                                            scope: Scope, round: Round, answer: Answer)
    requires Situation(m, environment, state, scope, round, answer)
    requires Accounted(Visit(e, scope, round), answer)
    ensures Mirrors(Raw(m, e, environment, state, fuel),
                    Raw(Eagerly(m), e, ResolveIn(m.reply, environment), ResolveState(m.reply, state), fuel),
                    Visit(e, scope, round).deferred, m.reply, answer)
    decreases fuel, e, 1
  {
    match e
    case Literal(_, _) =>
    case Identifier(name, _) =>
      LookupPreserves(m, name, environment, state, scope, round, answer);
    case Call(callee, _, _, _) =>
      if CallsPrimitive(callee) {
        PrimitiveCallPreserves(m, e, environment, state, fuel, scope, round, answer);
      } else {
        ClosureCallPreserves(m, e, environment, state, fuel, scope, round, answer);
      }
    case Operator(_, _, _, _) =>
      OperatorPreserves(m, e, environment, state, fuel, scope, round, answer);
    case Aggregate(elements, _) =>
      ReadyAllPreserves(m, elements, environment, state, fuel, scope, round, answer);
    case Index(_, _, _) =>
      IndexPreserves(m, e, environment, state, fuel, scope, round, answer);
    case Lambda(parameters, body, _) =>
      assert BodyFits(body, environment, scope, round, answer);
      ClosureResolves(m.reply, parameters, body, environment);
    case If(_, _, _, _) =>
      IfPreserves(m, e, environment, state, fuel, scope, round, answer);
    case Match(_, _, _) =>
      MatchPreserves(m, e, environment, state, fuel, scope, round, answer);
    case Block(statements, _) =>
      BlockPreserves(m, statements, environment, state, fuel, scope, round, answer);
  }

  lemma {:induction false} OperatorPreserves(m: Machine, e: Expression, environment: Environment, state: State,
                                             fuel: nat,
                                                 scope: Scope, round: Round, answer: Answer)
    requires e.Operator? && Situation(m, environment, state, scope, round, answer)
    requires Accounted(Visit(e, scope, round), answer)
    ensures Mirrors(Raw(m, e, environment, state, fuel),
                    Raw(Eagerly(m), e, ResolveIn(m.reply, environment), ResolveState(m.reply, state), fuel),
                    Visit(e, scope, round).deferred, m.reply, answer)
    decreases fuel, e, 0
  {
    ReadyPreserves(m, e.left, environment, state, fuel, scope, round, answer);
    var l := Ready(m, e.left, environment, state, fuel);
    if l.Done? { ReadyPreserves(m, e.right, environment, l.state, fuel, scope, round, answer); }
  }

  lemma {:induction false} IndexPreserves(m: Machine, e: Expression, environment: Environment, state: State, fuel: nat,
                                              scope: Scope, round: Round, answer: Answer)
    requires e.Index? && Situation(m, environment, state, scope, round, answer)
    requires Accounted(Visit(e, scope, round), answer)
    ensures Mirrors(Raw(m, e, environment, state, fuel),
                    Raw(Eagerly(m), e, ResolveIn(m.reply, environment), ResolveState(m.reply, state), fuel),
                    Visit(e, scope, round).deferred, m.reply, answer)
    decreases fuel, e, 0
  {
    ReadyPreserves(m, e.target, environment, state, fuel, scope, round, answer);
    var t := Ready(m, e.target, environment, state, fuel);
    if t.Done? { ReadyPreserves(m, e.index, environment, t.state, fuel, scope, round, answer); }
  }

  lemma {:induction false} IfPreserves(m: Machine, e: Expression, environment: Environment, state: State, fuel: nat,
                                           scope: Scope, round: Round, answer: Answer)
    requires e.If? && Situation(m, environment, state, scope, round, answer)
    requires Accounted(Visit(e, scope, round), answer)
    ensures Mirrors(Raw(m, e, environment, state, fuel),
                    Raw(Eagerly(m), e, ResolveIn(m.reply, environment), ResolveState(m.reply, state), fuel),
                    Visit(e, scope, round).deferred, m.reply, answer)
    decreases fuel, e, 0
  {
    ReadyPreserves(m, e.condition, environment, state, fuel, scope, round, answer);
    var c := Ready(m, e.condition, environment, state, fuel);
    if c.Done? {
      if c.value != Number(0) {
        EvalPreserves(m, e.then_, environment, c.state, fuel, scope, round, answer);
      } else {
        EvalPreserves(m, e.else_, environment, c.state, fuel, scope, round, answer);
      }
    }
  }

  lemma {:induction false} MatchPreserves(m: Machine, e: Expression, environment: Environment, state: State, fuel: nat,
                                              scope: Scope, round: Round, answer: Answer)
    requires e.Match? && Situation(m, environment, state, scope, round, answer)
    requires Accounted(Visit(e, scope, round), answer)
    ensures Mirrors(Raw(m, e, environment, state, fuel),
                    Raw(Eagerly(m), e, ResolveIn(m.reply, environment), ResolveState(m.reply, state), fuel),
                    Visit(e, scope, round).deferred, m.reply, answer)
    decreases fuel, e, 0
  {
    ReadyPreserves(m, e.scrutinee, environment, state, fuel, scope, round, answer);
    var v := Ready(m, e.scrutinee, environment, state, fuel);
    if v.Done? { ArmsPreserve(m, e.arms, v.value, environment, v.state, fuel, scope, round, answer); }
  }

  lemma {:induction false} PrimitiveCallPreserves(m: Machine, e: Expression, environment: Environment, state: State,
                                                  fuel: nat,
                                                      scope: Scope, round: Round, answer: Answer)
    requires e.Call? && CallsPrimitive(e.function_)
    requires Situation(m, environment, state, scope, round, answer)
    requires Accounted(Visit(e, scope, round), answer)
    ensures Mirrors(Raw(m, e, environment, state, fuel),
                    Raw(Eagerly(m), e, ResolveIn(m.reply, environment), ResolveState(m.reply, state), fuel),
                    Visit(e, scope, round).deferred, m.reply, answer)
    decreases fuel, e, 0
  {
    ReadyAllPreserves(m, e.arguments, environment, state, fuel, scope, round, answer);
    var passed := ReadyAll(m, e.arguments, environment, state, fuel);
    if passed.Done? { PrimitivePreserves(m, e.function_, passed.value, e.memberCall, passed.state, answer); }
  }

  lemma CallAccounted(e: Expression, scope: Scope, round: Round, answer: Answer)
    requires e.Call? && Accounted(Visit(e, scope, round), answer)
    ensures Accounted(Strict(e.function_, scope, round), answer)
    ensures Accounted(VisitAll(e.arguments, scope, round), answer)
  {
  }

  lemma {:induction false} ClosureCallPreserves(m: Machine, e: Expression, environment: Environment, state: State,
                                                fuel: nat,
                                                    scope: Scope, round: Round, answer: Answer)
    requires e.Call? && !CallsPrimitive(e.function_)
    requires Situation(m, environment, state, scope, round, answer)
    requires Accounted(Visit(e, scope, round), answer)
    ensures Mirrors(Raw(m, e, environment, state, fuel),
                    Raw(Eagerly(m), e, ResolveIn(m.reply, environment), ResolveState(m.reply, state), fuel),
                    Visit(e, scope, round).deferred, m.reply, answer)
    decreases fuel, e, 0
  {
    CallAccounted(e, scope, round, answer);
    ReadyPreserves(m, e.function_, environment, state, fuel, scope, round, answer);
    var called := Ready(m, e.function_, environment, state, fuel);
    if called.Done? {
      ReadyAllPreserves(m, e.arguments, environment, called.state, fuel, scope, round, answer);
      var passed := ReadyAll(m, e.arguments, environment, called.state, fuel);
      if passed.Done? && fuel > 0 {
        ApplyPreserves(m, called.value, passed.value, passed.state, fuel - 1, answer);
      }
    }
  }

  lemma LookupPreserves(m: Machine, name: Name, environment: Environment, state: State, scope: Scope, round: Round,
                        answer: Answer)
    requires Situation(m, environment, state, scope, round, answer)
    ensures var outcome := Lookup(m, name, environment, state);
      && SoundOutcome(outcome, answer)
      && (outcome.Done? && outcome.value.Promise? ==> IsDeferred(scope, answer.globals, name))
      && Lookup(Eagerly(m), name, ResolveIn(m.reply, environment), ResolveState(m.reply, state))
         == ResolveOutcome(m.reply, outcome)
  {
  }

  /** A call of a sound value on ready arguments: a closure's body is a strict slot of its own. */
  lemma {:induction false} ApplyPreserves(m: Machine, closure: Value, values: seq<Value>, state: State, fuel: nat,
                                          answer: Answer)
    requires SoundMachine(m, answer) && SoundState(state, answer)
    requires !closure.Promise? && Sound(closure, answer)
    requires forall v <- values :: !v.Promise? && Sound(v, answer)
    ensures Mirrors(Apply(m, closure, values, state, fuel),
                    Apply(Eagerly(m), Resolve(m.reply, closure), ResolveAll(m.reply, values),
                      ResolveState(m.reply, state), fuel),
                    false, m.reply, answer)
    decreases fuel
  {
    if closure.Closure? && |closure.parameters| == |values| {
      var Closure(parameters, body, captured) := closure;
      var inner, innerRound :| BodyFits(body, captured, inner, innerRound, answer);
      BoundAgrees(parameters, values, captured, inner, answer);
      BoundResolves(m.reply, parameters, values, captured);
      ClosureResolves(m.reply, parameters, body, captured);
      ReadyPreserves(m, body, Bound(parameters, values, captured), state, fuel, inner, innerRound, answer);
    }
  }

  lemma PrimitivePreserves(m: Machine, callee: Expression, values: seq<Value>, memberCall: bool, state: State,
                           answer: Answer)
    requires callee.Identifier? && SoundMachine(m, answer) && SoundState(state, answer)
    ensures var outcome := CallPrimitive(m, callee, values, memberCall, state);
      && SoundOutcome(outcome, answer)
      && (outcome.Done? && outcome.value.Promise? ==> ProducesDeferred(callee, |values|, memberCall))
      && CallPrimitive(Eagerly(m), callee, ResolveAll(m.reply, values), memberCall, ResolveState(m.reply, state))
         == ResolveOutcome(m.reply, outcome)
  {
    var next := state.events + [Event(callee.name, values)];
    assert ResolveEvents(m.reply, next)
      == ResolveEvents(m.reply, state.events) + [Event(callee.name, ResolveAll(m.reply, values))];
  }

  lemma {:induction false} ArmsPreserve(m: Machine, arms: Arms, value: Value, environment: Environment, state: State,
                                        fuel: nat,
                                        scope: Scope, round: Round, answer: Answer)
    requires Situation(m, environment, state, scope, round, answer)
    requires !value.Promise? && Sound(value, answer)
    requires Accounted(VisitArms(arms, scope, round), answer)
    ensures var outcome := EvalArms(m, arms, value, environment, state, fuel);
      && SoundOutcome(outcome, answer)
      && (outcome.Done? && outcome.value.Promise? ==> VisitArms(arms, scope, round).deferred)
      && EvalArms(Eagerly(m), arms, Resolve(m.reply, value), ResolveIn(m.reply, environment),
         ResolveState(m.reply, state), fuel)
         == ResolveOutcome(m.reply, outcome)
    decreases fuel, arms, 0
  {
    match arms
    case NoArm =>
    case Arm(pattern, body, others) =>
      MatchedResolves(m.reply, pattern, value, environment);
      MatchedAgrees(pattern, value, environment, scope, answer);
      match Matched(pattern, value, environment) {
        case Some(extended) => EvalPreserves(m, body, extended, state, fuel, scope, round, answer);
        case None => ArmsPreserve(m, others, value, environment, state, fuel, scope, round, answer);
      }
  }

  lemma {:induction false} BlockPreserves(m: Machine, statements: Statements, environment: Environment, state: State,
                                          fuel: nat,
                                              scope: Scope, round: Round, answer: Answer)
    requires Situation(m, environment, state, scope, round, answer)
    requires Accounted(VisitBlock(statements, scope, round), answer)
    ensures Mirrors(EvalBlock(m, statements, environment, state, fuel),
                    EvalBlock(Eagerly(m), statements, ResolveIn(m.reply, environment), ResolveState(m.reply, state),
                      fuel),
                    VisitBlock(statements, scope, round).deferred, m.reply, answer)
    decreases fuel, statements, 1
  {
    match statements
    case End =>
    case Bind(_, _, _) =>
      BindPreserves(m, statements, environment, state, fuel, scope, round, answer);
    case Store(_, _, _, _) =>
      StoreStatementPreserves(m, statements, environment, state, fuel, scope, round, answer);
    case Evaluate(expression, rest) =>
      EvalPreserves(m, expression, environment, state, fuel, scope, round, answer);
      var v := Eval(m, expression, environment, state, fuel);
      if v.Done? && !rest.End? { BlockPreserves(m, rest, environment, v.state, fuel, scope, round, answer); }
  }

  lemma {:induction false} BindPreserves(m: Machine, statements: Statements, environment: Environment, state: State,
                                         fuel: nat,
                                             scope: Scope, round: Round, answer: Answer)
    requires statements.Bind? && Situation(m, environment, state, scope, round, answer)
    requires Accounted(VisitBlock(statements, scope, round), answer)
    ensures Mirrors(EvalBlock(m, statements, environment, state, fuel),
                    EvalBlock(Eagerly(m), statements, ResolveIn(m.reply, environment), ResolveState(m.reply, state),
                      fuel),
                    VisitBlock(statements, scope, round).deferred, m.reply, answer)
    decreases fuel, statements, 0
  {
    var Bind(name, value, rest) := statements;
    EvalPreserves(m, value, environment, state, fuel, scope, round, answer);
    var v := Eval(m, value, environment, state, fuel);
    if v.Done? {
      var deferred := Visit(value, scope, round).deferred;
      BlockPreserves(m, rest, environment[name := v.value], v.state, fuel, scope[name := deferred], round, answer);
      assert ResolveIn(m.reply, environment[name := v.value])
        == ResolveIn(m.reply, environment)[name := Resolve(m.reply, v.value)];
    }
  }

  lemma StoreAccounted(statements: Statements, scope: Scope, round: Round, answer: Answer)
    requires statements.Store? && Accounted(VisitBlock(statements, scope, round), answer)
    ensures var Store(name, value, span, rest) := statements;
      var report := Visit(value, scope, round);
      && Accounted(report, answer)
      && (if report.deferred then name in answer.globals else name !in answer.globals)
      && Accounted(VisitBlock(rest, scope[name := report.deferred], round), answer)
      && VisitBlock(statements, scope, round).deferred
         == VisitBlock(rest, scope[name := report.deferred], round).deferred
  {
    var Store(name, value, span, rest) := statements;
    var stored := VisitStore(name, value, span, scope, round);
    assert stored.deferred == Visit(value, scope, round).deferred;
    assert Accounted(stored, answer);
  }

  lemma {:induction false} StoreStatementPreserves(m: Machine, statements: Statements, environment: Environment,
                                                   state: State, fuel: nat,
                                                       scope: Scope, round: Round, answer: Answer)
    requires statements.Store? && Situation(m, environment, state, scope, round, answer)
    requires Accounted(VisitBlock(statements, scope, round), answer)
    ensures Mirrors(EvalBlock(m, statements, environment, state, fuel),
                    EvalBlock(Eagerly(m), statements, ResolveIn(m.reply, environment), ResolveState(m.reply, state),
                      fuel),
                    VisitBlock(statements, scope, round).deferred, m.reply, answer)
    decreases fuel, statements, 0
  {
    var Store(name, value, span, rest) := statements;
    if name in environment { return; }
    StoreAccounted(statements, scope, round, answer);
    var entered := Entered(m, span, state);
    EvalPreserves(m, value, environment, entered, fuel, scope, round, answer);
    var v := Eval(m, value, environment, entered, fuel);
    assert ResolveState(m.reply, entered) == Entered(Eagerly(m), span, ResolveState(m.reply, state));
    if v.Done? {
      StorePreserves(m.reply, name, v.value, state, v.state, answer);
      var next := Stored(name, v.value, state, v.state);
      var deferred := Visit(value, scope, round).deferred;
      StoreAgrees(name, deferred, environment, scope, answer.globals);
      BlockPreserves(m, rest, environment, next, fuel, scope[name := deferred], round, answer);
      assert EvalBlock(m, statements, environment, state, fuel) == EvalBlock(m, rest, environment, next, fuel);
    }
  }

  lemma StoreAgrees(name: Name, deferred: bool, environment: Environment, scope: Scope, globals: set<Name>)
    requires Agrees(scope, environment, globals) && name !in environment && (deferred <==> name in globals)
    ensures Agrees(scope[name := deferred], environment, globals)
  {
  }

  lemma StorePreserves(reply: nat -> int, name: Name, value: Value, before: State, after: State, answer: Answer)
    requires Sound(value, answer) && SoundState(after, answer)
    requires value.Promise? ==> name in answer.globals
    ensures SoundState(Stored(name, value, before, after), answer)
    ensures ResolveState(reply, Stored(name, value, before, after))
         == Stored(name, Resolve(reply, value), ResolveState(reply, before), ResolveState(reply, after))
  {
    assert ResolveIn(reply, after.globals[name := value])
      == ResolveIn(reply, after.globals)[name := Resolve(reply, value)];
  }

  // ----- whole programs

  ghost predicate TallyAccounted(tally: Tally, answer: Answer) {
    tally.forces <= answer.forces && tally.stored <= answer.globals && tally.demoted !! answer.globals
  }

  lemma {:induction false} FunctionsFit(items: seq<Item>, known: set<Name>, atomic: set<Span>, answer: Answer)
    requires TallyAccounted(VisitItems(items, answer.globals, known, atomic), answer)
    ensures forall name <- Functions(items) ::
      exists round :: BodyFits(Functions(items)[name].body, map[], map[], round, answer)
  {
    if items != [] {
      var before, item := items[..|items| - 1], items[|items| - 1];
      FunctionsFit(before, known, atomic, answer);
      if item.FunctionDeclaration? {
        var round := Round(answer.globals, known, VisitItems(before, answer.globals, known, atomic).waiting, atomic);
        assert BodyFits(item.body, map[], map[], round, answer);
      }
    }
  }

  lemma {:induction false} InitializePreserves(m: Machine, items: seq<Item>, fuel: nat, known: set<Name>,
                                               answer: Answer)
    requires SoundMachine(m, answer)
    requires TallyAccounted(VisitItems(items, answer.globals, known, m.atomic), answer)
    ensures SoundOutcome(Initialize(m, items, fuel), answer)
    ensures Initialize(Eagerly(m), items, fuel) == ResolveOutcome(m.reply, Initialize(m, items, fuel))
  {
    if items == [] {
      assert ResolveState(m.reply, State(map[], [], false, 0)) == State(map[], [], false, 0);
    } else {
      var before, item := items[..|items| - 1], items[|items| - 1];
      InitializePreserves(m, before, fuel, known, answer);
      var started := Initialize(m, before, fuel);
      if started.Done? && item.GlobalDeclaration? {
        var round :=
          Round(answer.globals, known, VisitItems(before, answer.globals, known, m.atomic).waiting, m.atomic);
        assert ResolveIn(m.reply, map[]) == map[];
        var entered := Entered(m, item.span, started.state);
        EvalPreserves(m, item.value, map[], entered, fuel, map[], round, answer);
        var v := Eval(m, item.value, map[], entered, fuel);
        if v.Done? { StorePreserves(m.reply, item.name, v.value, started.state, v.state, answer); }
      }
    }
  }

  /** No block stores a ready value into a global the pass found deferred. */
  ghost predicate NeverDemoted(items: seq<Item>, atomic: set<Span>, globals: set<Name>) {
    VisitItems(items, globals, KnownFunctionNames(items), atomic).demoted !! globals
  }

  /** The main result. For every program, every primitive answer and every fuel: under a
      closed set of deferred globals that no block demotes, the deferred run never leaks a
      promise into a strict slot, and resolving what it leaves gives exactly the eager run's
      outcome, final globals and sequence of primitive calls. */
  lemma MeaningPreserved(items: seq<Item>, atomic: set<Span>, globals: set<Name>, reply: nat -> int, fuel: nat)
    requires Closed(items, globals, KnownFunctionNames(items), atomic)
    requires NeverDemoted(items, atomic, globals)
    ensures var m := DeferredMachine(items, atomic, globals, reply);
      && Run(m, items, fuel) != Halted(Leaked, Run(m, items, fuel).state)
      && (Run(m, items, fuel).Done? ==> !Run(m, items, fuel).value.Promise?)
      && Run(Eagerly(m), items, fuel) == ResolveOutcome(reply, Run(m, items, fuel))
  {
    var m := DeferredMachine(items, atomic, globals, reply);
    var known := KnownFunctionNames(items);
    var answer := Answer(globals, m.mode.forceSites);
    FunctionsFit(items, known, atomic, answer);
    InitializePreserves(m, items, fuel, known, answer);
    var started := Initialize(m, items, fuel);
    if started.Done? && ENTRY in m.functions {
      var body := m.functions[ENTRY].body;
      var round :| BodyFits(body, map[], map[], round, answer);
      assert ResolveIn(m.reply, map[]) == map[];
      ReadyPreserves(m, body, map[], started.state, fuel, map[], round, answer);
    }
  }
}
