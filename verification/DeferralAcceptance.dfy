/** From the pass's verdict to the run: an accepted program that calls by name never waits
    inside an atomic reassignment. */
module DeferralAcceptance {
  import opened DeferralAnalysis
  import opened DeferralSemantics
  import opened DeferralAtomic
  import opened DeferralVerdict

  // ----- what the pass can follow

  /** A call the pass can follow: the callee is written as a name that is a primitive, one of
      the functions `callable`, or a local the pass takes to wait; and no argument of a server
      launch makes a call that waits, since the pass discards the waits it finds there. */
  ghost predicate NamedCall(n: Expression, callable: set<Name>, round: Round) {
    n.Call? ==>
      && n.function_.Identifier?
      && (|| CallsPrimitive(n.function_)
          || n.function_.name in callable
          || (!n.memberCall && n.function_.name !in round.known))
      && (IsServerLaunch(n.function_) ==> !SomeWait(NodesAll(n.arguments), round))
  }

  ghost predicate CallsByName(nodes: seq<Expression>, callable: set<Name>, round: Round) {
    forall n <- nodes :: NamedCall(n, callable, round)
  }

  // ----- a visit that reports no wait saw no waiting call

  lemma {:induction false} NothingWaits(e: Expression, scope: Scope, callable: set<Name>, round: Round)
    requires !Visit(e, scope, round).waits && CallsByName(Nodes(e), callable, round)
    ensures !SomeWait(Nodes(e), round)
    decreases e, 0
  {
    assert e in Nodes(e);
    assert CallsByName(Nodes(e)[1..], callable, round);
    match e
    case Literal(_, _) =>
    case Identifier(_, _) =>
    case Call(callee, arguments, _, _) =>
      assert Nodes(e)[1..] == Nodes(callee) + NodesAll(arguments);
      NothingWaits(callee, scope, callable, round);
      if !IsServerLaunch(callee) { NothingWaitsAll(arguments, scope, callable, round); }
    case Operator(_, left, right, _) =>
      assert Nodes(e)[1..] == Nodes(left) + Nodes(right);
      NothingWaits(left, scope, callable, round);
      NothingWaits(right, scope, callable, round);
    case Aggregate(elements, _) =>
      NothingWaitsAll(elements, scope, callable, round);
    case Index(target, index, _) =>
      assert Nodes(e)[1..] == Nodes(target) + Nodes(index);
      NothingWaits(target, scope, callable, round);
      NothingWaits(index, scope, callable, round);
    case Lambda(_, body, _) =>
      NothingWaits(body, scope, callable, round);
    case If(condition, then_, else_, _) =>
      assert Nodes(e)[1..] == Nodes(condition) + (Nodes(then_) + Nodes(else_));
      NothingWaits(condition, scope, callable, round);
      NothingWaits(then_, scope, callable, round);
      NothingWaits(else_, scope, callable, round);
    case Match(scrutinee, arms, _) =>
      assert Nodes(e)[1..] == Nodes(scrutinee) + NodesArms(arms);
      NothingWaits(scrutinee, scope, callable, round);
      NothingWaitsArms(arms, scope, callable, round);
    case Block(statements, _) =>
      NothingWaitsBlock(statements, scope, callable, round);
  }

  lemma {:induction false} NothingWaitsAll(es: seq<Expression>, scope: Scope, callable: set<Name>, round: Round)
    requires !VisitAll(es, scope, round).waits && CallsByName(NodesAll(es), callable, round)
    ensures !SomeWait(NodesAll(es), round)
    decreases es, 0
  {
    if es != [] {
      NothingWaits(es[0], scope, callable, round);
      NothingWaitsAll(es[1..], scope, callable, round);
    }
  }

  lemma {:induction false} NothingWaitsArms(arms: Arms, scope: Scope, callable: set<Name>, round: Round)
    requires !VisitArms(arms, scope, round).waits && CallsByName(NodesArms(arms), callable, round)
    ensures !SomeWait(NodesArms(arms), round)
    decreases arms, 0
  {
    match arms
    case NoArm =>
    case Arm(_, body, others) =>
      NothingWaits(body, scope, callable, round);
      NothingWaitsArms(others, scope, callable, round);
  }

  lemma {:induction false} NothingWaitsBlock(statements: Statements, scope: Scope, callable: set<Name>, round: Round)
    requires !VisitBlock(statements, scope, round).waits && CallsByName(NodesBlock(statements), callable, round)
    ensures !SomeWait(NodesBlock(statements), round)
    decreases statements, 0
  {
    match statements
    case End =>
    case Bind(name, value, rest) =>
      NothingWaits(value, scope, callable, round);
      NothingWaitsBlock(rest, scope[name := Visit(value, scope, round).deferred], callable, round);
    case Store(name, value, span, rest) =>
      NothingWaits(value, scope, callable, round);
      NothingWaitsBlock(rest, scope[name := VisitStore(name, value, span, scope, round).deferred], callable, round);
    case Evaluate(expression, rest) =>
      NothingWaits(expression, scope, callable, round);
      NothingWaitsBlock(rest, scope, callable, round);
  }

  // ----- an accepted expression's atomic reassignments cannot wait

  /** The atomic reassignments among the nodes call by name. */
  ghost predicate AtomicsByName(nodes: seq<Expression>, callable: set<Name>, round: Round) {
    forall n <- nodes :: n.Block? ==> AllByName(AtomicValues(n.statements, round.atomic), callable, round)
  }

  ghost predicate AllByName(values: seq<Expression>, callable: set<Name>, round: Round) {
    forall value <- values :: CallsByName(Nodes(value), callable, round)
  }

  /** Functions the pass has already cleared: callable, and not among those found to wait. */
  ghost predicate Cleared(callable: set<Name>, round: Round, still: set<Name>) {
    forall name <- callable :: name in round.waiting || name in still
  }

  /** A clean right side is still. */
  lemma StillWhenClean(e: Expression, scope: Scope, round: Round, callable: set<Name>, still: set<Name>,
                       forces: set<Span>)
    requires !Visit(e, scope, round).waits && CallsByName(Nodes(e), callable, round) && Cleared(callable, round, still)
    requires Charged(Nodes(e), forces, {})
    ensures Still(Nodes(e), still, forces)
  {
    NothingWaits(e, scope, callable, round);
    forall n <- Nodes(e) ensures StillNode(n, still, forces) {
      assert NamedCall(n, callable, round);
    }
  }

  /** An accepted expression's atomic right sides have no force site and call nothing that waits. */
  lemma AcceptedIsStill(e: Expression, scope: Scope, callable: set<Name>, round: Round, still: set<Name>,
                        forces: set<Span>)
    requires var report := Visit(e, scope, round);
      Clean(Nodes(e), report, report.forces + {e.span}, forces)
    requires AtomicsByName(Nodes(e), callable, round) && Cleared(callable, round, still)
    ensures AtomicStill(Nodes(e), round.atomic, still, forces)
  {
    AcceptedIsClean(e, scope, round, forces);
    forall n <- Nodes(e) | n.Block? ensures AllStill(AtomicValues(n.statements, round.atomic), still, forces) {
      forall value <- AtomicValues(n.statements, round.atomic) ensures Still(Nodes(value), still, forces) {
        assert !CausedNode(n, round, forces) && !Caused(value, round, forces);
        WaitsExactly(value, map[], round);
        StillWhenClean(value, map[], round, callable, still, forces);
      }
    }
  }

  // ----- whole programs

  /** The programs the pass can follow. A function calls by name itself or what is declared
      above it, an atomic reassignment only what is declared above the function it is in, and
      no local, parameter or global takes the name of one of the program's `functions`. */
  ghost predicate FollowableItem(item: Item, above: set<Name>, round: Round, functions: set<Name>) {
    && LeavesNames(Nodes(Root(item)), functions)
    && AtomicsByName(Nodes(Root(item)), above, round)
    && match item
       case FunctionDeclaration(name, parameters, body) =>
         && name !in above
         && (forall parameter <- parameters :: parameter !in functions)
         && CallsByName(Nodes(body), above + {name}, round)
       case GlobalDeclaration(name, mutable, value, span) =>
         && name !in functions
         && (span in round.atomic ==> mutable && CallsByName(Nodes(value), above, round))
  }

  ghost predicate Followable(items: seq<Item>, functions: set<Name>, globals: set<Name>, known: set<Name>,
                             atomic: set<Span>) {
    items != [] ==>
      var before := items[..|items| - 1];
      && Followable(before, functions, globals, known, atomic)
      && FollowableItem(items[|items| - 1], Declared(before), RoundAfter(before, globals, known, atomic), functions)
  }

  /** What the whole program's verdict says about a prefix of it: the functions declared there
      and not found to wait by its end are `still`, and its own force sites are known. */
  ghost predicate Judged(items: seq<Item>, globals: set<Name>, known: set<Name>, atomic: set<Span>,
                         functions: set<Name>, still: set<Name>, forces: set<Span>) {
    && Followable(items, functions, globals, known, atomic)
    && Accepted(items, globals, known, atomic, forces)
    && still * Declared(items) == Declared(items) - VisitItems(items, globals, known, atomic).waiting
  }

  /** The verdict on a program is a verdict on every prefix of it and on its last item. */
  lemma JudgedBefore(items: seq<Item>, globals: set<Name>, known: set<Name>, atomic: set<Span>, functions: set<Name>,
                     still: set<Name>, forces: set<Span>)
    requires items != [] && Judged(items, globals, known, atomic, functions, still, forces)
    ensures var before, item := items[..|items| - 1], items[|items| - 1];
      var round := RoundAfter(before, globals, known, atomic);
      && Judged(before, globals, known, atomic, functions, still, forces)
      && Cleared(Declared(before), round, still)
      && Clean(Nodes(Root(item)), Visit(Root(item), map[], round), ItemForces(item, before, globals, known, atomic),
         forces)
      && AtomicsByName(Nodes(Root(item)), Declared(before), round)
  {
    var before, item := items[..|items| - 1], items[|items| - 1];
    var tally := VisitItems(before, globals, known, atomic);
    AcceptedBefore(items, globals, known, atomic, forces);
    TallyInside(before, globals, known, atomic);
    var full := VisitItems(items, globals, known, atomic);
    assert full == VisitItem(item, globals, known, atomic, tally);
    assert tally.waiting <= full.waiting <= tally.waiting + {item.name};
    assert Declared(items) <= Declared(before) + {item.name} && Declared(before) <= Declared(items);
    assert item.FunctionDeclaration? ==> item.name !in Declared(before);
    forall name <- Declared(before) ensures name in still <==> name !in tally.waiting {
      assert name in full.waiting <==> name in tally.waiting;
      assert name in still <==> name in still * Declared(items);
    }
  }

  lemma {:induction false} FunctionsAreStill(items: seq<Item>, globals: set<Name>, known: set<Name>,
                                             atomic: set<Span>, functions: set<Name>, still: set<Name>,
                                               forces: set<Span>)
    requires Judged(items, globals, known, atomic, functions, still, forces)
    ensures Functions(items).Keys == Declared(items)
    ensures forall name <- Functions(items) ::
      FunctionIsStill(name, Functions(items)[name], atomic, functions, still, forces)
  {
    if items != [] {
      var before, item := items[..|items| - 1], items[|items| - 1];
      JudgedBefore(items, globals, known, atomic, functions, still, forces);
      FunctionsAreStill(before, globals, known, atomic, functions, still, forces);
      if item.FunctionDeclaration? {
        var round := RoundAfter(before, globals, known, atomic);
        AcceptedIsStill(item.body, map[], Declared(before), round, still, forces);
        if item.name in still {
          assert item.name !in VisitItems(items, globals, known, atomic).waiting;
          StillWhenClean(item.body, map[], round, Declared(before) + {item.name}, still, forces);
        }
      }
    }
  }

  ghost predicate FunctionIsStill(name: Name, f: Function, atomic: set<Span>, functions: set<Name>, still: set<Name>,
                                  forces: set<Span>) {
    && (name in still ==> Still(Nodes(f.body), still, forces))
    && AtomicStill(Nodes(f.body), atomic, still, forces) && LeavesNames(Nodes(f.body), functions)
    && (forall parameter <- f.parameters :: parameter !in functions)
  }

  lemma {:induction false} InitializeKeeps(m: Machine, items: seq<Item>, fuel: nat, globals: set<Name>,
                                           known: set<Name>, still: set<Name>)
    requires StillMachine(m, still) &&
      Judged(items, globals, known, m.atomic, m.functions.Keys, still, m.mode.forceSites)
    ensures var outcome := Initialize(m, items, fuel);
      outcome.state.atomicWaits == 0 &&
        (outcome.Done? ==> TameIn(m, still, outcome.state.globals) && !outcome.state.atomic)
  {
    if items != [] {
      var before, item := items[..|items| - 1], items[|items| - 1];
      JudgedBefore(items, globals, known, m.atomic, m.functions.Keys, still, m.mode.forceSites);
      InitializeKeeps(m, before, fuel, globals, known, still);
      var started := Initialize(m, before, fuel);
      if started.Done? && item.GlobalDeclaration? {
        var round := RoundAfter(before, globals, known, m.atomic);
        AcceptedIsStill(item.value, map[], Declared(before), round, still, m.mode.forceSites);
        if item.span in m.atomic {
          StillWhenClean(item.value, map[], round, Declared(before), still, m.mode.forceSites);
        }
        EvalKeeps(m, still, item.value, map[], Entered(m, item.span, started.state), fuel);
      }
    }
  }

  /** Accepted atomic reassignments do not wait. In every run of a followable program with
      distinct spans that the pass accepts, finished or cut short anywhere, no atomic
      reassignment has forced a promise, slept or streamed a file, at any depth of calls. */
  lemma AtomicsNeverWait(items: seq<Item>, atomic: set<Span>, globals: set<Name>, reply: nat -> int, fuel: nat)
    requires !VisitItems(items, globals, KnownFunctionNames(items), atomic).rejected
    requires Followable(items, Declared(items), globals, KnownFunctionNames(items), atomic) && Distinct(AllNodes(items))
    ensures Run(DeferredMachine(items, atomic, globals, reply), items, fuel).state.atomicWaits == 0
  {
    var m := DeferredMachine(items, atomic, globals, reply);
    var known, forces := KnownFunctionNames(items), m.mode.forceSites;
    var still := Declared(items) - VisitItems(items, globals, known, atomic).waiting;
    FunctionsAreStill(items, globals, known, atomic, Declared(items), still, forces);
    assert StillMachine(m, still);
    InitializeKeeps(m, items, fuel, globals, known, still);
    var started := Initialize(m, items, fuel);
    if started.Done? && ENTRY in m.functions {
      ReadyKeeps(m, still, m.functions[ENTRY].body, map[], started.state, fuel);
    }
  }
}
