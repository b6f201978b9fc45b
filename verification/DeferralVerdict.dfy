/** What the pass's verdict means on the syntax: a program is rejected exactly when the right side
    of some atomic reassignment holds a force site or a call that waits. */
module DeferralVerdict {
  import opened DeferralAnalysis
  import opened DeferralAtomic

  // ----- the calls an expression waits for

  /** The nodes whose waits count: the visit discards the waits found in the arguments of a
      server launch, whose handler runs later. */
  function Awaited(e: Expression): seq<Expression>
    decreases e, 0
  {
    [e] +
    match e
    case Literal(_, _) => []
    case Identifier(_, _) => []
    case Call(callee, arguments, _, _) =>
      Awaited(callee) + if IsServerLaunch(callee) then [] else AwaitedAll(arguments)
    case Operator(_, left, right, _) => Awaited(left) + Awaited(right)
    case Aggregate(elements, _) => AwaitedAll(elements)
    case Index(target, index, _) => Awaited(target) + Awaited(index)
    case Lambda(_, body, _) => Awaited(body)
    case If(condition, then_, else_, _) => Awaited(condition) + (Awaited(then_) + Awaited(else_))
    case Match(scrutinee, arms, _) => Awaited(scrutinee) + AwaitedArms(arms)
    case Block(statements, _) => AwaitedBlock(statements)
  }

  function AwaitedAll(es: seq<Expression>): seq<Expression>
    decreases es, 0
  {
    if es == [] then [] else Awaited(es[0]) + AwaitedAll(es[1..])
  }

  function AwaitedArms(arms: Arms): seq<Expression>
    decreases arms, 0
  {
    match arms
    case NoArm => []
    case Arm(_, body, others) => Awaited(body) + AwaitedArms(others)
  }

  function AwaitedBlock(statements: Statements): seq<Expression>
    decreases statements, 0
  {
    match statements
    case End => []
    case Bind(_, value, rest) => Awaited(value) + AwaitedBlock(rest)
    case Store(_, value, _, rest) => Awaited(value) + AwaitedBlock(rest)
    case Evaluate(expression, rest) => Awaited(expression) + AwaitedBlock(rest)
  }

  /** A call by name of a primitive that parks, of a function recorded as waiting, or of a plain
      name the pass cannot follow. */
  predicate WaitingCall(n: Expression, round: Round) {
    n.Call? && n.function_.Identifier? &&
    match n.function_.name
    case At(p) => p.Sleep? || p.StreamFile? || (At(p) in round.waiting && !p.TcpServe? && !p.HttpServe?)
    case Plain(_) => n.function_.name in round.waiting || (!n.memberCall && n.function_.name !in round.known)
  }

  ghost predicate SomeWait(nodes: seq<Expression>, round: Round) {
    exists n <- nodes :: WaitingCall(n, round)
  }

  lemma WaitEither(a: seq<Expression>, b: seq<Expression>, round: Round)
    ensures SomeWait(a + b, round) <==> SomeWait(a, round) || SomeWait(b, round)
  {
    assert forall n <- a :: n in a + b;
    assert forall n <- b :: n in a + b;
  }

  lemma WaitBelow(e: Expression, below: seq<Expression>, round: Round)
    ensures SomeWait([e] + below, round) <==> WaitingCall(e, round) || SomeWait(below, round)
  {
    WaitEither([e], below, round);
    assert e in [e];
  }

  /** A visit reports a wait exactly when one of the awaited nodes calls something that waits. */
  lemma {:induction false} WaitsExactly(e: Expression, scope: Scope, round: Round)
    ensures Visit(e, scope, round).waits <==> SomeWait(Awaited(e), round)
    decreases e, 1
  {
    WaitBelow(e, Awaited(e)[1..], round);
    assert Awaited(e) == [e] + Awaited(e)[1..];
    match e
    case Literal(_, _) =>
    case Identifier(_, _) =>
    case Call(_, _, _, _) => CallWaitsExactly(e, scope, round);
    case Operator(_, left, right, _) => PairWaitsExactly(e, left, right, scope, round);
    case Aggregate(elements, _) =>
      WaitsExactlyAll(elements, scope, round);
    case Index(target, index, _) => PairWaitsExactly(e, target, index, scope, round);
    case Lambda(_, body, _) =>
      WaitsExactly(body, scope, round);
    case If(_, _, _, _) => IfWaitsExactly(e, scope, round);
    case Match(scrutinee, arms, _) =>
      WaitsExactly(scrutinee, scope, round);
      WaitsExactlyArms(arms, scope, round);
      WaitEither(Awaited(scrutinee), AwaitedArms(arms), round);
    case Block(statements, _) =>
      WaitsExactlyBlock(statements, scope, round);
  }

  lemma {:induction false} CallWaitsExactly(e: Expression, scope: Scope, round: Round)
    requires e.Call?
    ensures Visit(e, scope, round).waits <==> WaitingCall(e, round) || SomeWait(Awaited(e)[1..], round)
    decreases e, 0
  {
    var Call(callee, arguments, _, _) := e;
    WaitsExactly(callee, scope, round);
    WaitsExactlyAll(arguments, scope, round);
    WaitEither(Awaited(callee), if IsServerLaunch(callee) then [] else AwaitedAll(arguments), round);
  }

  lemma {:induction false} PairWaitsExactly(e: Expression, left: Expression, right: Expression, scope: Scope,
                                            round: Round)
    requires left < e && right < e
    ensures Strict(left, scope, round).waits || Strict(right, scope, round).waits <==>
      SomeWait(Awaited(left) + Awaited(right), round)
    decreases e, 0
  {
    WaitsExactly(left, scope, round);
    WaitsExactly(right, scope, round);
    WaitEither(Awaited(left), Awaited(right), round);
  }

  lemma {:induction false} IfWaitsExactly(e: Expression, scope: Scope, round: Round)
    requires e.If?
    ensures Visit(e, scope, round).waits <==> SomeWait(Awaited(e)[1..], round)
    decreases e, 0
  {
    var If(condition, then_, else_, _) := e;
    WaitsExactly(condition, scope, round);
    WaitsExactly(then_, scope, round);
    WaitsExactly(else_, scope, round);
    WaitEither(Awaited(then_), Awaited(else_), round);
    WaitEither(Awaited(condition), Awaited(then_) + Awaited(else_), round);
  }

  lemma {:induction false} WaitsExactlyAll(es: seq<Expression>, scope: Scope, round: Round)
    ensures VisitAll(es, scope, round).waits <==> SomeWait(AwaitedAll(es), round)
    decreases es, 0
  {
    if es != [] {
      WaitsExactly(es[0], scope, round);
      WaitsExactlyAll(es[1..], scope, round);
      WaitEither(Awaited(es[0]), AwaitedAll(es[1..]), round);
    }
  }

  lemma {:induction false} WaitsExactlyArms(arms: Arms, scope: Scope, round: Round)
    ensures VisitArms(arms, scope, round).waits <==> SomeWait(AwaitedArms(arms), round)
    decreases arms, 0
  {
    match arms
    case NoArm =>
    case Arm(_, body, others) =>
      WaitsExactly(body, scope, round);
      WaitsExactlyArms(others, scope, round);
      WaitEither(Awaited(body), AwaitedArms(others), round);
  }

  lemma {:induction false} WaitsExactlyBlock(statements: Statements, scope: Scope, round: Round)
    ensures VisitBlock(statements, scope, round).waits <==> SomeWait(AwaitedBlock(statements), round)
    decreases statements, 0
  {
    match statements
    case End =>
    case Bind(name, value, rest) =>
      WaitsExactly(value, scope, round);
      WaitsExactlyBlock(rest, scope[name := Visit(value, scope, round).deferred], round);
      WaitEither(Awaited(value), AwaitedBlock(rest), round);
    case Store(name, value, span, rest) =>
      WaitsExactly(value, scope, round);
      WaitsExactlyBlock(rest, scope[name := VisitStore(name, value, span, scope, round).deferred], round);
      WaitEither(Awaited(value), AwaitedBlock(rest), round);
    case Evaluate(expression, rest) =>
      WaitsExactly(expression, scope, round);
      WaitsExactlyBlock(rest, scope, round);
      WaitEither(Awaited(expression), AwaitedBlock(rest), round);
  }

  // ----- forces fall inside the expression that needs them

  ghost predicate Has(nodes: seq<Expression>, span: Span) {
    exists n <- nodes :: n.span == span
  }

  ghost predicate Inside(forces: set<Span>, nodes: seq<Expression>) {
    forall span <- forces :: Has(nodes, span)
  }

  lemma HasEither(a: seq<Expression>, b: seq<Expression>, span: Span)
    ensures Has(a + b, span) <==> Has(a, span) || Has(b, span)
  {
    assert forall n <- a :: n in a + b;
    assert forall n <- b :: n in a + b;
  }

  lemma InsideEither(f: set<Span>, a: seq<Expression>, g: set<Span>, b: seq<Expression>)
    requires Inside(f, a) && Inside(g, b)
    ensures Inside(f + g, a + b)
  {
    forall span <- f + g ensures Has(a + b, span) { HasEither(a, b, span); }
  }

  lemma {:induction false} ForcesInside(e: Expression, scope: Scope, round: Round)
    ensures Inside(Visit(e, scope, round).forces, Nodes(e)[1..])
    ensures Inside(Visit(e, scope, round).forces, Nodes(e))
    ensures Inside(Strict(e, scope, round).forces, Nodes(e))
    decreases e, 1
  {
    ForcesBelow(e, scope, round);
    assert Nodes(e) == [e] + Nodes(e)[1..];
    InsideEither({}, [e], Visit(e, scope, round).forces, Nodes(e)[1..]);
    InsideEither({e.span}, [e], Visit(e, scope, round).forces, Nodes(e)[1..]);
  }

  lemma {:induction false} ForcesBelow(e: Expression, scope: Scope, round: Round)
    ensures Inside(Visit(e, scope, round).forces, Nodes(e)[1..])
    decreases e, 0
  {
    match e
    case Literal(_, _) =>
    case Identifier(_, _) =>
    case Call(callee, arguments, _, _) =>
      ForcesInside(callee, scope, round);
      ForcesInsideAll(arguments, scope, round);
      InsideEither(Strict(callee, scope, round).forces, Nodes(callee), VisitAll(arguments, scope, round).forces,
        NodesAll(arguments));
    case Operator(_, left, right, _) =>
      ForcesInside(left, scope, round);
      ForcesInside(right, scope, round);
      InsideEither(Strict(left, scope, round).forces, Nodes(left), Strict(right, scope, round).forces, Nodes(right));
    case Aggregate(elements, _) =>
      ForcesInsideAll(elements, scope, round);
    case Index(target, index, _) =>
      ForcesInside(target, scope, round);
      ForcesInside(index, scope, round);
      InsideEither(Strict(target, scope, round).forces, Nodes(target), Strict(index, scope, round).forces,
        Nodes(index));
    case Lambda(_, body, _) =>
      ForcesInside(body, scope, round);
    case If(condition, then_, else_, _) =>
      ForcesInside(condition, scope, round);
      ForcesInside(then_, scope, round);
      ForcesInside(else_, scope, round);
      var f, g := Visit(then_, scope, round).forces, Visit(else_, scope, round).forces;
      InsideEither(f, Nodes(then_), g, Nodes(else_));
      InsideEither(Strict(condition, scope, round).forces, Nodes(condition), f + g, Nodes(then_) + Nodes(else_));
    case Match(scrutinee, arms, _) =>
      ForcesInside(scrutinee, scope, round);
      ForcesInsideArms(arms, scope, round);
      InsideEither(Strict(scrutinee, scope, round).forces, Nodes(scrutinee), VisitArms(arms, scope, round).forces,
        NodesArms(arms));
    case Block(statements, _) =>
      ForcesInsideBlock(statements, scope, round);
  }

  lemma {:induction false} ForcesInsideAll(es: seq<Expression>, scope: Scope, round: Round)
    ensures Inside(VisitAll(es, scope, round).forces, NodesAll(es))
    decreases es, 0
  {
    if es != [] {
      ForcesInside(es[0], scope, round);
      ForcesInsideAll(es[1..], scope, round);
      InsideEither(Strict(es[0], scope, round).forces, Nodes(es[0]), VisitAll(es[1..], scope, round).forces,
        NodesAll(es[1..]));
    }
  }

  lemma {:induction false} ForcesInsideArms(arms: Arms, scope: Scope, round: Round)
    ensures Inside(VisitArms(arms, scope, round).forces, NodesArms(arms))
    decreases arms, 0
  {
    match arms
    case NoArm =>
    case Arm(_, body, others) =>
      ForcesInside(body, scope, round);
      ForcesInsideArms(others, scope, round);
      InsideEither(Visit(body, scope, round).forces, Nodes(body), VisitArms(others, scope, round).forces,
        NodesArms(others));
  }

  lemma {:induction false} ForcesInsideBlock(statements: Statements, scope: Scope, round: Round)
    ensures Inside(VisitBlock(statements, scope, round).forces, NodesBlock(statements))
    decreases statements, 0
  {
    match statements
    case End =>
    case Bind(name, value, rest) =>
      var deferred := Visit(value, scope, round).deferred;
      ForcesInside(value, scope, round);
      ForcesInsideBlock(rest, scope[name := deferred], round);
      InsideEither(Visit(value, scope, round).forces, Nodes(value),
        VisitBlock(rest, scope[name := deferred], round).forces, NodesBlock(rest));
    case Store(name, value, span, rest) =>
      var stored := VisitStore(name, value, span, scope, round);
      ForcesInside(value, scope, round);
      ForcesInsideBlock(rest, scope[name := stored.deferred], round);
      InsideEither(stored.forces, Nodes(value), VisitBlock(rest, scope[name := stored.deferred], round).forces,
        NodesBlock(rest));
    case Evaluate(expression, rest) =>
      ForcesInside(expression, scope, round);
      ForcesInsideBlock(rest, scope, round);
      InsideEither(Visit(expression, scope, round).forces, Nodes(expression), VisitBlock(rest, scope, round).forces,
        NodesBlock(rest));
  }

  // ----- what an atomic reassignment is rejected for

  ghost predicate Forced(nodes: seq<Expression>, forces: set<Span>) {
    exists n <- nodes :: n.span in forces
  }

  /** The right side holds a force site or a call that waits. */
  ghost predicate Caused(value: Expression, round: Round, forces: set<Span>) {
    Forced(Nodes(value), forces) || SomeWait(Awaited(value), round)
  }

  ghost predicate CausedAmong(values: seq<Expression>, round: Round, forces: set<Span>) {
    exists value <- values :: Caused(value, round, forces)
  }

  ghost predicate CausedNode(n: Expression, round: Round, forces: set<Span>) {
    n.Block? && CausedAmong(AtomicValues(n.statements, round.atomic), round, forces)
  }

  /** Some block among the nodes stores such a right side into an atomic binding. */
  ghost predicate SomeCaused(nodes: seq<Expression>, round: Round, forces: set<Span>) {
    exists n <- nodes :: CausedNode(n, round, forces)
  }

  lemma CausedEither(a: seq<Expression>, b: seq<Expression>, round: Round, forces: set<Span>)
    ensures SomeCaused(a + b, round, forces) <==> SomeCaused(a, round, forces) || SomeCaused(b, round, forces)
  {
    assert forall n <- a :: n in a + b;
    assert forall n <- b :: n in a + b;
  }

  lemma CausedBelow(e: Expression, round: Round, forces: set<Span>)
    ensures SomeCaused(Nodes(e), round, forces) <==>
      CausedNode(e, round, forces) || SomeCaused(Nodes(e)[1..], round, forces)
  {
    assert Nodes(e) == [e] + Nodes(e)[1..];
    CausedEither([e], Nodes(e)[1..], round, forces);
    assert e in [e];
  }

  /** A violation shows in the nodes of the right side itself. */
  lemma ViolationShows(value: Expression, scope: Scope, round: Round, forces: set<Span>)
    requires Visit(value, scope, round).forces <= forces
    requires Visit(value, scope, round).forces != {} || Visit(value, scope, round).waits
    ensures Forced(Nodes(value)[1..], forces) || SomeWait(Awaited(value), round)
    ensures Caused(value, round, forces)
  {
    ForcesInside(value, scope, round);
    WaitsExactly(value, scope, round);
    var found := Visit(value, scope, round).forces;
    if found != {} {
      var span :| span in found;
      assert Has(Nodes(value)[1..], span) && Has(Nodes(value), span);
    }
  }

  /** A rejection has a cause among the nodes of the expression. */
  lemma {:induction false} RejectedIsCaused(e: Expression, scope: Scope, round: Round, forces: set<Span>)
    requires Visit(e, scope, round).rejected && Visit(e, scope, round).forces <= forces
    ensures SomeCaused(Nodes(e), round, forces)
    decreases e, 0
  {
    CausedBelow(e, round, forces);
    match e
    case Literal(_, _) =>
    case Identifier(_, _) =>
    case Call(callee, arguments, _, _) =>
      CausedEither(Nodes(callee), NodesAll(arguments), round, forces);
      if Visit(callee, scope, round).rejected { RejectedIsCaused(callee, scope, round, forces); }
      else { RejectedIsCausedAll(arguments, scope, round, forces); }
    case Operator(_, left, right, _) =>
      CausedEither(Nodes(left), Nodes(right), round, forces);
      if Visit(left, scope, round).rejected { RejectedIsCaused(left, scope, round, forces); }
      else { RejectedIsCaused(right, scope, round, forces); }
    case Aggregate(elements, _) =>
      RejectedIsCausedAll(elements, scope, round, forces);
    case Index(target, index, _) =>
      CausedEither(Nodes(target), Nodes(index), round, forces);
      if Visit(target, scope, round).rejected { RejectedIsCaused(target, scope, round, forces); }
      else { RejectedIsCaused(index, scope, round, forces); }
    case Lambda(_, body, _) =>
      RejectedIsCaused(body, scope, round, forces);
    case If(condition, then_, else_, _) =>
      CausedEither(Nodes(condition), Nodes(then_) + Nodes(else_), round, forces);
      CausedEither(Nodes(then_), Nodes(else_), round, forces);
      if Visit(condition, scope, round).rejected { RejectedIsCaused(condition, scope, round, forces); }
      else if Visit(then_, scope, round).rejected { RejectedIsCaused(then_, scope, round, forces); }
      else { RejectedIsCaused(else_, scope, round, forces); }
    case Match(scrutinee, arms, _) =>
      CausedEither(Nodes(scrutinee), NodesArms(arms), round, forces);
      if Visit(scrutinee, scope, round).rejected { RejectedIsCaused(scrutinee, scope, round, forces); }
      else { RejectedIsCausedArms(arms, scope, round, forces); }
    case Block(statements, _) =>
      RejectedIsCausedBlock(statements, scope, round, forces);
  }

  lemma {:induction false} RejectedIsCausedAll(es: seq<Expression>, scope: Scope, round: Round, forces: set<Span>)
    requires VisitAll(es, scope, round).rejected && VisitAll(es, scope, round).forces <= forces
    ensures SomeCaused(NodesAll(es), round, forces)
    decreases es, 0
  {
    CausedEither(Nodes(es[0]), NodesAll(es[1..]), round, forces);
    if Visit(es[0], scope, round).rejected { RejectedIsCaused(es[0], scope, round, forces); }
    else { RejectedIsCausedAll(es[1..], scope, round, forces); }
  }

  lemma {:induction false} RejectedIsCausedArms(arms: Arms, scope: Scope, round: Round, forces: set<Span>)
    requires VisitArms(arms, scope, round).rejected && VisitArms(arms, scope, round).forces <= forces
    ensures SomeCaused(NodesArms(arms), round, forces)
    decreases arms, 0
  {
    var Arm(_, body, others) := arms;
    CausedEither(Nodes(body), NodesArms(others), round, forces);
    if Visit(body, scope, round).rejected { RejectedIsCaused(body, scope, round, forces); }
    else { RejectedIsCausedArms(others, scope, round, forces); }
  }

  lemma {:induction false} RejectedIsCausedBlock(statements: Statements, scope: Scope, round: Round,
                                                 forces: set<Span>)
    requires VisitBlock(statements, scope, round).rejected && VisitBlock(statements, scope, round).forces <= forces
    ensures || SomeCaused(NodesBlock(statements), round, forces)
            || CausedAmong(AtomicValues(statements, round.atomic), round, forces)
    decreases statements, 0
  {
    match statements
    case Bind(name, value, rest) =>
      CausedEither(Nodes(value), NodesBlock(rest), round, forces);
      if Visit(value, scope, round).rejected { RejectedIsCaused(value, scope, round, forces); }
      else { RejectedIsCausedBlock(rest, scope[name := Visit(value, scope, round).deferred], round, forces); }
    case Store(name, value, span, rest) =>
      CausedEither(Nodes(value), NodesBlock(rest), round, forces);
      var r := VisitStore(name, value, span, scope, round);
      assert forall v <- AtomicValues(rest, round.atomic) :: v in AtomicValues(statements, round.atomic);
      if Visit(value, scope, round).rejected { RejectedIsCaused(value, scope, round, forces); }
      else if r.rejected {
        ViolationShows(value, scope, round, forces);
        assert value in AtomicValues(statements, round.atomic);
      } else { RejectedIsCausedBlock(rest, scope[name := r.deferred], round, forces); }
    case Evaluate(expression, rest) =>
      CausedEither(Nodes(expression), NodesBlock(rest), round, forces);
      if Visit(expression, scope, round).rejected { RejectedIsCaused(expression, scope, round, forces); }
      else { RejectedIsCausedBlock(rest, scope, round, forces); }
  }

  // ----- an accepted expression's atomic reassignments cannot wait

  /** Every force site among the nodes is one of `own`. */
  ghost predicate Charged(nodes: seq<Expression>, forces: set<Span>, own: set<Span>) {
    forall n <- nodes :: n.span in forces ==> n.span in own
  }

  /** With distinct spans, each part of an expression owns the force sites it needs. */
  lemma ChargedParts(a: seq<Expression>, f: set<Span>, b: seq<Expression>, g: set<Span>, forces: set<Span>)
    requires Distinct(a + b) && Charged(a + b, forces, f + g) && Inside(f, a) && Inside(g, b)
    ensures Charged(a, forces, f) && Charged(b, forces, g)
    ensures Distinct(a) && Distinct(b)
  {
    DistinctParts(a, b);
    assert forall n <- a :: n in a + b;
    assert forall n <- b :: n in a + b;
  }

  lemma QuietWhenClean(value: Expression, scope: Scope, round: Round, forces: set<Span>)
    requires !Visit(value, scope, round).waits && Charged(Nodes(value), forces, {})
    ensures !Caused(value, round, forces)
  {
    WaitsExactly(value, scope, round);
  }

  /** The situation of an accepted expression, seen with its own force sites. */
  ghost predicate Clean(nodes: seq<Expression>, report: Report, own: set<Span>, forces: set<Span>) {
    !report.rejected && Distinct(nodes) && Charged(nodes, forces, own)
  }

  lemma CleanParts(a: seq<Expression>, r: Report, b: seq<Expression>, q: Report, whole: Report, forces: set<Span>)
    requires Clean(a + b, whole, r.forces + q.forces, forces)
    requires !r.rejected && !q.rejected && Inside(r.forces, a) && Inside(q.forces, b)
    ensures Clean(a, r, r.forces, forces) && Clean(b, q, q.forces, forces)
  {
    ChargedParts(a, r.forces, b, q.forces, forces);
  }

  /** Below a node, nothing but its children's own force sites remains. */
  lemma CleanBelow(e: Expression, below: seq<Expression>, report: Report, forces: set<Span>)
    requires Clean([e] + below, report, report.forces + {e.span}, forces)
    ensures Clean(below, report, report.forces, forces)
  {
    DistinctParts([e], below);
    forall n <- below | n.span in forces ensures n.span in report.forces {
      assert n in [e] + below && e in [e];
    }
  }

  lemma {:induction false} AcceptedIsClean(e: Expression, scope: Scope, round: Round, forces: set<Span>)
    requires var report := Visit(e, scope, round);
      Clean(Nodes(e), report, report.forces + {e.span}, forces)
    ensures !SomeCaused(Nodes(e), round, forces)
    decreases e, 1
  {
    CleanBelow(e, Nodes(e)[1..], Visit(e, scope, round), forces);
    CausedBelow(e, round, forces);
    match e
    case Literal(_, _) =>
    case Identifier(_, _) =>
    case Call(_, _, _, _) => CallIsClean(e, scope, round, forces);
    case Operator(_, left, right, _) => PairIsClean(e, left, right, scope, round, forces);
    case Aggregate(elements, _) => AcceptedIsCleanAll(elements, scope, round, forces);
    case Index(target, index, _) => PairIsClean(e, target, index, scope, round, forces);
    case Lambda(_, body, _) => AcceptedIsClean(body, scope, round, forces);
    case If(_, _, _, _) => IfIsClean(e, scope, round, forces);
    case Match(_, _, _) => MatchIsClean(e, scope, round, forces);
    case Block(statements, _) => AcceptedIsCleanBlock(statements, scope, round, forces);
  }

  lemma {:induction false} CallIsClean(e: Expression, scope: Scope, round: Round, forces: set<Span>)
    requires e.Call?
    requires var report := Visit(e, scope, round);
      Clean(Nodes(e)[1..], report, report.forces, forces)
    ensures !SomeCaused(Nodes(e)[1..], round, forces)
    decreases e, 0
  {
    var Call(callee, arguments, _, _) := e;
    var r, q := Strict(callee, scope, round), VisitAll(arguments, scope, round);
    assert Nodes(e)[1..] == Nodes(callee) + NodesAll(arguments);
    ForcesInside(callee, scope, round);
    ForcesInsideAll(arguments, scope, round);
    CleanParts(Nodes(callee), r, NodesAll(arguments), q, Visit(e, scope, round), forces);
    CausedEither(Nodes(callee), NodesAll(arguments), round, forces);
    AcceptedIsClean(callee, scope, round, forces);
    AcceptedIsCleanAll(arguments, scope, round, forces);
  }

  lemma {:induction false} IfIsClean(e: Expression, scope: Scope, round: Round, forces: set<Span>)
    requires e.If?
    requires var report := Visit(e, scope, round);
      Clean(Nodes(e)[1..], report, report.forces, forces)
    ensures !SomeCaused(Nodes(e)[1..], round, forces)
    decreases e, 0
  {
    var If(condition, then_, else_, _) := e;
    var r, q, p := Strict(condition, scope, round), Visit(then_, scope, round), Visit(else_, scope, round);
    assert Nodes(e)[1..] == Nodes(condition) + (Nodes(then_) + Nodes(else_));
    ForcesInside(condition, scope, round);
    ForcesInside(then_, scope, round);
    ForcesInside(else_, scope, round);
    InsideEither(q.forces, Nodes(then_), p.forces, Nodes(else_));
    CleanParts(Nodes(condition), r, Nodes(then_) + Nodes(else_), q.Then(p), Visit(e, scope, round), forces);
    CleanParts(Nodes(then_), q, Nodes(else_), p, q.Then(p), forces);
    CausedEither(Nodes(condition), Nodes(then_) + Nodes(else_), round, forces);
    CausedEither(Nodes(then_), Nodes(else_), round, forces);
    AcceptedIsClean(condition, scope, round, forces);
    AcceptedIsClean(then_, scope, round, forces);
    AcceptedIsClean(else_, scope, round, forces);
  }

  lemma {:induction false} MatchIsClean(e: Expression, scope: Scope, round: Round, forces: set<Span>)
    requires e.Match?
    requires var report := Visit(e, scope, round);
      Clean(Nodes(e)[1..], report, report.forces, forces)
    ensures !SomeCaused(Nodes(e)[1..], round, forces)
    decreases e, 0
  {
    var Match(scrutinee, arms, _) := e;
    var r, q := Strict(scrutinee, scope, round), VisitArms(arms, scope, round);
    assert Nodes(e)[1..] == Nodes(scrutinee) + NodesArms(arms);
    ForcesInside(scrutinee, scope, round);
    ForcesInsideArms(arms, scope, round);
    CleanParts(Nodes(scrutinee), r, NodesArms(arms), q, Visit(e, scope, round), forces);
    CausedEither(Nodes(scrutinee), NodesArms(arms), round, forces);
    AcceptedIsClean(scrutinee, scope, round, forces);
    AcceptedIsCleanArms(arms, scope, round, forces);
  }

  lemma {:induction false} PairIsClean(e: Expression, left: Expression, right: Expression, scope: Scope, round: Round,
                                       forces: set<Span>)
    requires left < e && right < e
    requires var whole := Strict(left, scope, round).Then(Strict(right, scope, round));
      Clean(Nodes(left) + Nodes(right), whole, whole.forces, forces)
    ensures !SomeCaused(Nodes(left) + Nodes(right), round, forces)
    decreases e, 0
  {
    var r, q := Strict(left, scope, round), Strict(right, scope, round);
    ForcesInside(left, scope, round);
    ForcesInside(right, scope, round);
    CleanParts(Nodes(left), r, Nodes(right), q, r.Then(q), forces);
    CausedEither(Nodes(left), Nodes(right), round, forces);
    AcceptedIsClean(left, scope, round, forces);
    AcceptedIsClean(right, scope, round, forces);
  }

  lemma {:induction false} AcceptedIsCleanAll(es: seq<Expression>, scope: Scope, round: Round, forces: set<Span>)
    requires var report := VisitAll(es, scope, round);
      Clean(NodesAll(es), report, report.forces, forces)
    ensures !SomeCaused(NodesAll(es), round, forces)
    decreases es, 0
  {
    if es != [] {
      var r, q := Strict(es[0], scope, round), VisitAll(es[1..], scope, round);
      ForcesInside(es[0], scope, round);
      ForcesInsideAll(es[1..], scope, round);
      CleanParts(Nodes(es[0]), r, NodesAll(es[1..]), q, r.Then(q), forces);
      CausedEither(Nodes(es[0]), NodesAll(es[1..]), round, forces);
      AcceptedIsClean(es[0], scope, round, forces);
      AcceptedIsCleanAll(es[1..], scope, round, forces);
    }
  }

  lemma {:induction false} AcceptedIsCleanArms(arms: Arms, scope: Scope, round: Round, forces: set<Span>)
    requires var report := VisitArms(arms, scope, round);
      Clean(NodesArms(arms), report, report.forces, forces)
    ensures !SomeCaused(NodesArms(arms), round, forces)
    decreases arms, 0
  {
    match arms
    case NoArm =>
    case Arm(_, body, others) =>
      var r, q := Visit(body, scope, round), VisitArms(others, scope, round);
      ForcesInside(body, scope, round);
      ForcesInsideArms(others, scope, round);
      CleanParts(Nodes(body), r, NodesArms(others), q, r.Then(q), forces);
      CausedEither(Nodes(body), NodesArms(others), round, forces);
      AcceptedIsClean(body, scope, round, forces);
      AcceptedIsCleanArms(others, scope, round, forces);
  }

  lemma {:induction false} AcceptedIsCleanBlock(statements: Statements, scope: Scope, round: Round, forces: set<Span>)
    requires var report := VisitBlock(statements, scope, round);
      Clean(NodesBlock(statements), report, report.forces, forces)
    ensures !SomeCaused(NodesBlock(statements), round, forces)
    ensures !CausedAmong(AtomicValues(statements, round.atomic), round, forces)
    decreases statements, 0
  {
    match statements
    case End =>
    case Bind(name, value, rest) =>
      var r := Visit(value, scope, round);
      StatementIsClean(value, r, rest, scope, scope[name := r.deferred], round, forces);
      AcceptedIsCleanBlock(rest, scope[name := r.deferred], round, forces);
    case Store(name, value, span, rest) =>
      var r := VisitStore(name, value, span, scope, round);
      StatementIsClean(value, r, rest, scope, scope[name := r.deferred], round, forces);
      assert forall v <- AtomicValues(rest, round.atomic) :: v in AtomicValues(statements, round.atomic);
      AcceptedIsCleanBlock(rest, scope[name := r.deferred], round, forces);
      if span in round.atomic {
        assert value in AtomicValues(statements, round.atomic);
        QuietWhenClean(value, scope, round, forces);
      }
    case Evaluate(expression, rest) =>
      var r := Visit(expression, scope, round);
      StatementIsClean(expression, r, rest, scope, scope, round, forces);
      AcceptedIsCleanBlock(rest, scope, round, forces);
  }

  /** One statement's own expression, and what is left clean for the statements below it. */
  lemma {:induction false} StatementIsClean(value: Expression, r: Report, rest: Statements, scope: Scope, below: Scope,
                                            round: Round, forces: set<Span>)
    requires r.forces == Visit(value, scope, round).forces && (Visit(value, scope, round).rejected ==> r.rejected)
    requires var whole := r.Then(VisitBlock(rest, below, round));
      Clean(Nodes(value) + NodesBlock(rest), whole, whole.forces, forces)
    ensures SomeCaused(Nodes(value) + NodesBlock(rest), round, forces) ==> SomeCaused(NodesBlock(rest), round, forces)
    ensures Charged(Nodes(value), forces, r.forces)
    ensures var q := VisitBlock(rest, below, round);
      Clean(NodesBlock(rest), q, q.forces, forces)
    decreases value, 2
  {
    var q := VisitBlock(rest, below, round);
    ForcesInside(value, scope, round);
    ForcesInsideBlock(rest, below, round);
    CleanParts(Nodes(value), r, NodesBlock(rest), q, r.Then(q), forces);
    AcceptedIsClean(value, scope, round, forces);
    CausedEither(Nodes(value), NodesBlock(rest), round, forces);
  }

  // ----- the verdict on a whole program

  function Declared(items: seq<Item>): set<Name> {
    if items == [] then {}
    else Declared(items[..|items| - 1]) + if items[|items| - 1].FunctionDeclaration? then {items[|items| - 1].name}
      else {}
  }

  function Root(item: Item): Expression {
    if item.FunctionDeclaration? then item.body else item.value
  }

  function AllNodes(items: seq<Item>): seq<Expression> {
    if items == [] then [] else AllNodes(items[..|items| - 1]) + Nodes(Root(items[|items| - 1]))
  }

  function RoundAfter(items: seq<Item>, globals: set<Name>, known: set<Name>, atomic: set<Span>): Round {
    Round(globals, known, VisitItems(items, globals, known, atomic).waiting, atomic)
  }

  lemma {:induction false} TallyInside(items: seq<Item>, globals: set<Name>, known: set<Name>, atomic: set<Span>)
    ensures Inside(VisitItems(items, globals, known, atomic).forces, AllNodes(items))
    ensures VisitItems(items, globals, known, atomic).waiting <= Declared(items)
  {
    if items != [] {
      var before, item := items[..|items| - 1], items[|items| - 1];
      TallyInside(before, globals, known, atomic);
      ForcesInside(Root(item), map[], RoundAfter(before, globals, known, atomic));
      InsideEither(VisitItems(before, globals, known, atomic).forces, AllNodes(before),
        ItemForces(item, before, globals, known, atomic), Nodes(Root(item)));
    }
  }

  /** The force sites one item adds. */
  function ItemForces(item: Item, before: seq<Item>, globals: set<Name>, known: set<Name>,
                      atomic: set<Span>): set<Span> {
    var round := RoundAfter(before, globals, known, atomic);
    if item.FunctionDeclaration? || !item.mutable then Strict(Root(item), map[], round).forces
    else Visit(Root(item), map[], round).forces
  }

  lemma ItemForcesAre(items: seq<Item>, globals: set<Name>, known: set<Name>, atomic: set<Span>)
    requires items != []
    ensures var before := items[..|items| - 1];
      VisitItems(items, globals, known, atomic).forces ==
      VisitItems(before, globals, known, atomic).forces + ItemForces(items[|items| - 1], before, globals, known, atomic)
  {
  }

  /** A declaration is checked before an immutable global's own value is forced, so only the
      nodes below that value count. */
  ghost predicate ItemCaused(item: Item, round: Round, forces: set<Span>) {
    || SomeCaused(Nodes(Root(item)), round, forces)
    || (item.GlobalDeclaration? && item.span in round.atomic
        && (Forced(Nodes(item.value)[1..], forces) || SomeWait(Awaited(item.value), round)))
  }

  ghost predicate ProgramCaused(items: seq<Item>, globals: set<Name>, known: set<Name>, atomic: set<Span>,
                                forces: set<Span>) {
    exists i :: 0 <= i < |items| && CausedAt(items, i, globals, known, atomic, forces)
  }

  ghost predicate CausedAt(items: seq<Item>, i: int, globals: set<Name>, known: set<Name>, atomic: set<Span>,
                           forces: set<Span>) {
    0 <= i < |items| && ItemCaused(items[i], RoundAfter(items[..i], globals, known, atomic), forces)
  }

  lemma ProgramCausedStep(items: seq<Item>, globals: set<Name>, known: set<Name>, atomic: set<Span>,
                          forces: set<Span>)
    requires items != []
    ensures var before := items[..|items| - 1];
      ProgramCaused(items, globals, known, atomic, forces) <==>
        || ProgramCaused(before, globals, known, atomic, forces)
        || ItemCaused(items[|items| - 1], RoundAfter(before, globals, known, atomic), forces)
  {
    var before := items[..|items| - 1];
    forall i | 0 <= i < |before|
      ensures CausedAt(before, i, globals, known, atomic, forces) == CausedAt(items, i, globals, known, atomic, forces)
    {
      assert before[..i] == items[..i];
    }
    assert CausedAt(items, |before|, globals, known, atomic, forces) ==
           ItemCaused(items[|before|], RoundAfter(before, globals, known, atomic), forces);
  }

  lemma ItemRejectedIsCaused(item: Item, globals: set<Name>, known: set<Name>, atomic: set<Span>, tally: Tally,
                             forces: set<Span>)
    requires !tally.rejected && VisitItem(item, globals, known, atomic, tally).rejected
    requires VisitItem(item, globals, known, atomic, tally).forces <= forces
    ensures ItemCaused(item, Round(globals, known, tally.waiting, atomic), forces)
  {
    var round := Round(globals, known, tally.waiting, atomic);
    if Visit(Root(item), map[], round).rejected {
      RejectedIsCaused(Root(item), map[], round, forces);
    } else {
      ViolationShows(item.value, map[], round, forces);
    }
  }

  /** A rejected program has an atomic reassignment whose right side holds a force site or a
      call that waits. */
  lemma {:induction false} RejectionHasCause(items: seq<Item>, globals: set<Name>, known: set<Name>,
                                             atomic: set<Span>, forces: set<Span>)
    requires VisitItems(items, globals, known, atomic).rejected
    requires VisitItems(items, globals, known, atomic).forces <= forces
    ensures ProgramCaused(items, globals, known, atomic, forces)
  {
    var before := items[..|items| - 1];
    var tally := VisitItems(before, globals, known, atomic);
    ProgramCausedStep(items, globals, known, atomic, forces);
    if tally.rejected {
      RejectionHasCause(before, globals, known, atomic, forces);
    } else {
      ItemRejectedIsCaused(items[|items| - 1], globals, known, atomic, tally, forces);
    }
  }

  /** An accepted program seen with the force sites it owns. */
  ghost predicate Accepted(items: seq<Item>, globals: set<Name>, known: set<Name>, atomic: set<Span>,
                           forces: set<Span>) {
    var tally := VisitItems(items, globals, known, atomic);
    !tally.rejected && Distinct(AllNodes(items)) && Charged(AllNodes(items), forces, tally.forces)
  }

  /** The verdict on a program is a verdict on every prefix of it and on its last item. */
  lemma AcceptedBefore(items: seq<Item>, globals: set<Name>, known: set<Name>, atomic: set<Span>, forces: set<Span>)
    requires items != [] && Accepted(items, globals, known, atomic, forces)
    ensures var before, item := items[..|items| - 1], items[|items| - 1];
      var round := RoundAfter(before, globals, known, atomic);
      && Accepted(before, globals, known, atomic, forces)
      && Clean(Nodes(Root(item)), Visit(Root(item), map[], round), ItemForces(item, before, globals, known, atomic),
         forces)
  {
    var before, item := items[..|items| - 1], items[|items| - 1];
    var tally := VisitItems(before, globals, known, atomic);
    TallyInside(before, globals, known, atomic);
    ForcesInside(Root(item), map[], RoundAfter(before, globals, known, atomic));
    ItemForcesAre(items, globals, known, atomic);
    ChargedParts(AllNodes(before), tally.forces, Nodes(Root(item)), ItemForces(item, before, globals, known, atomic),
      forces);
  }

  lemma ItemAcceptedIsUncaused(item: Item, before: seq<Item>, globals: set<Name>, known: set<Name>,
                               atomic: set<Span>, forces: set<Span>)
    requires !VisitItem(item, globals, known, atomic, VisitItems(before, globals, known, atomic)).rejected
    requires var round := RoundAfter(before, globals, known, atomic);
      Clean(Nodes(Root(item)), Visit(Root(item), map[], round), ItemForces(item, before, globals, known, atomic),
        forces)
    ensures !ItemCaused(item, RoundAfter(before, globals, known, atomic), forces)
  {
    var round := RoundAfter(before, globals, known, atomic);
    AcceptedIsClean(Root(item), map[], round, forces);
    if item.GlobalDeclaration? && item.span in atomic {
      WaitsExactly(item.value, map[], round);
      var report := Visit(item.value, map[], round);
      CleanBelow(item.value, Nodes(item.value)[1..], report, forces);
      assert report.forces == {} && !report.waits;
    }
  }

  lemma {:induction false} AcceptedHasNoCause(items: seq<Item>, globals: set<Name>, known: set<Name>,
                                              atomic: set<Span>, forces: set<Span>)
    requires Accepted(items, globals, known, atomic, forces)
    ensures !ProgramCaused(items, globals, known, atomic, forces)
  {
    if items != [] {
      var before := items[..|items| - 1];
      AcceptedBefore(items, globals, known, atomic, forces);
      AcceptedHasNoCause(before, globals, known, atomic, forces);
      ItemAcceptedIsUncaused(items[|items| - 1], before, globals, known, atomic, forces);
      ProgramCausedStep(items, globals, known, atomic, forces);
    }
  }

  /** With distinct spans, the pass rejects exactly the programs in which the right side of some
      atomic reassignment holds a force site or a call that waits. */
  lemma RejectedExactly(items: seq<Item>, globals: set<Name>, known: set<Name>, atomic: set<Span>)
    requires Distinct(AllNodes(items))
    ensures var tally := VisitItems(items, globals, known, atomic);
      tally.rejected <==> ProgramCaused(items, globals, known, atomic, tally.forces)
  {
    var tally := VisitItems(items, globals, known, atomic);
    if tally.rejected {
      RejectionHasCause(items, globals, known, atomic, tally.forces);
    } else {
      AcceptedHasNoCause(items, globals, known, atomic, tally.forces);
    }
  }

  lemma {:induction false} NoAtomicValues(statements: Statements)
    ensures AtomicValues(statements, {}) == []
    decreases statements
  {
    match statements
    case End =>
    case Bind(_, _, rest) => NoAtomicValues(rest);
    case Store(_, _, _, rest) => NoAtomicValues(rest);
    case Evaluate(_, rest) => NoAtomicValues(rest);
  }

  /** A program without an atomic reassignment is never rejected, whatever it forces. */
  lemma NothingAtomicIsAccepted(items: seq<Item>, globals: set<Name>, known: set<Name>)
    ensures !VisitItems(items, globals, known, {}).rejected
  {
    var tally := VisitItems(items, globals, known, {});
    if tally.rejected {
      RejectionHasCause(items, globals, known, {}, tally.forces);
      var i :| 0 <= i < |items| && CausedAt(items, i, globals, known, {}, tally.forces);
      var round := RoundAfter(items[..i], globals, known, {});
      var n :| n in Nodes(Root(items[i])) && CausedNode(n, round, tally.forces);
      NoAtomicValues(n.statements);
    }
  }

  /** The right side of an atomic reassignment of the item: a store in one of its blocks, or the
      item's own declaration. */
  ghost predicate AtomicSide(item: Item, atomic: set<Span>, value: Expression) {
    || (item.GlobalDeclaration? && item.span in atomic && value == item.value)
    || exists n <- Nodes(Root(item)) :: n.Block? && value in AtomicValues(n.statements, atomic)
  }

  /** The value is called by a name that stands for no function the pass can follow. */
  ghost predicate CallsAValue(n: Expression, items: seq<Item>) {
    && n.Call? && !n.memberCall && n.function_.Identifier? && n.function_.name.Plain?
    && forall item <- items :: item.name == n.function_.name ==> item.GlobalDeclaration? && !item.value.Lambda?
  }

  /** Calling a value, rather than a declared function or a lambda bound at the top level, is
      refused in the right side of an atomic reassignment. */
  lemma CalledValueIsRejected(items: seq<Item>, globals: set<Name>, atomic: set<Span>, i: nat, value: Expression,
                              n: Expression)
    requires Distinct(AllNodes(items)) && i < |items| && AtomicSide(items[i], atomic, value)
    requires n in Awaited(value) && CallsAValue(n, items)
    ensures VisitItems(items, globals, KnownFunctionNames(items), atomic).rejected
  {
    var known := KnownFunctionNames(items);
    var forces := VisitItems(items, globals, known, atomic).forces;
    var round := RoundAfter(items[..i], globals, known, atomic);
    RejectedExactly(items, globals, known, atomic);
    assert WaitingCall(n, round) && SomeWait(Awaited(value), round);
    if !(items[i].GlobalDeclaration? && items[i].span in atomic && value == items[i].value) {
      var block :| block in Nodes(Root(items[i])) && block.Block? && value in AtomicValues(block.statements, atomic);
      assert Caused(value, round, forces) && CausedNode(block, round, forces);
    }
    assert CausedAt(items, i, globals, known, atomic, forces);
  }

  // ----- which functions are recorded as waiting

  ghost predicate WaitsAt(items: seq<Item>, i: int, name: Name, globals: set<Name>, known: set<Name>,
                          atomic: set<Span>, forces: set<Span>) {
    && 0 <= i < |items| && items[i].FunctionDeclaration? && items[i].name == name
    && (|| SomeWait(Awaited(items[i].body), RoundAfter(items[..i], globals, known, atomic))
        || Forced(Nodes(items[i].body), forces))
  }

  ghost predicate SomeBodyWaits(items: seq<Item>, name: Name, globals: set<Name>, known: set<Name>,
                                atomic: set<Span>, forces: set<Span>) {
    exists i :: WaitsAt(items, i, name, globals, known, atomic, forces)
  }

  lemma SomeBodyWaitsStep(items: seq<Item>, name: Name, globals: set<Name>, known: set<Name>, atomic: set<Span>,
                          forces: set<Span>)
    requires items != []
    ensures var before, item := items[..|items| - 1], items[|items| - 1];
      SomeBodyWaits(items, name, globals, known, atomic, forces) <==>
        || SomeBodyWaits(before, name, globals, known, atomic, forces)
        || (item.FunctionDeclaration? && item.name == name
            && (SomeWait(Awaited(item.body), RoundAfter(before, globals, known, atomic))
                || Forced(Nodes(item.body), forces)))
  {
    var before := items[..|items| - 1];
    forall i | 0 <= i < |before|
      ensures WaitsAt(before, i, name, globals, known, atomic, forces)
              == WaitsAt(items, i, name, globals, known, atomic, forces)
    {
      assert before[..i] == items[..i];
    }
    assert WaitsAt(items, |before|, name, globals, known, atomic, forces) <==>
      var item := items[|before|];
      item.FunctionDeclaration? && item.name == name
      && (SomeWait(Awaited(item.body), RoundAfter(before, globals, known, atomic))
          || Forced(Nodes(item.body), forces));
  }

  /** The force sites of the program that lie in one of its parts. */
  ghost predicate Owned(items: seq<Item>, globals: set<Name>, known: set<Name>, atomic: set<Span>, forces: set<Span>) {
    var own := VisitItems(items, globals, known, atomic).forces;
    Distinct(AllNodes(items)) && Charged(AllNodes(items), forces, own) && own <= forces
  }

  lemma OwnedBefore(items: seq<Item>, globals: set<Name>, known: set<Name>, atomic: set<Span>, forces: set<Span>)
    requires items != [] && Owned(items, globals, known, atomic, forces)
    ensures var before, item := items[..|items| - 1], items[|items| - 1];
      var own := ItemForces(item, before, globals, known, atomic);
      && Owned(before, globals, known, atomic, forces)
      && Charged(Nodes(Root(item)), forces, own) && own <= forces
  {
    var before, item := items[..|items| - 1], items[|items| - 1];
    TallyInside(before, globals, known, atomic);
    ForcesInside(Root(item), map[], RoundAfter(before, globals, known, atomic));
    ItemForcesAre(items, globals, known, atomic);
    ChargedParts(AllNodes(before), VisitItems(before, globals, known, atomic).forces, Nodes(Root(item)),
      ItemForces(item, before, globals, known, atomic), forces);
  }

  lemma BodyWaits(body: Expression, round: Round, forces: set<Span>)
    requires Charged(Nodes(body), forces, Strict(body, map[], round).forces)
    requires Strict(body, map[], round).forces <= forces
    ensures var report := Strict(body, map[], round);
      report.waits || report.forces != {} <==> SomeWait(Awaited(body), round) || Forced(Nodes(body), forces)
  {
    WaitsExactly(body, map[], round);
    ForcesInside(body, map[], round);
    var found := Strict(body, map[], round).forces;
    if found != {} {
      var span :| span in found;
      assert Has(Nodes(body), span);
    }
  }

  /** A function is recorded as waiting exactly when its body holds a force site or a call that
      waits: a waiting primitive, a name the pass does not know, or a function recorded above. */
  lemma {:induction false} WaitingExactly(items: seq<Item>, name: Name, globals: set<Name>, known: set<Name>,
                                          atomic: set<Span>, forces: set<Span>)
    requires Owned(items, globals, known, atomic, forces)
    ensures name in VisitItems(items, globals, known, atomic).waiting <==>
      SomeBodyWaits(items, name, globals, known, atomic, forces)
  {
    if items != [] {
      var before, item := items[..|items| - 1], items[|items| - 1];
      OwnedBefore(items, globals, known, atomic, forces);
      WaitingExactly(before, name, globals, known, atomic, forces);
      SomeBodyWaitsStep(items, name, globals, known, atomic, forces);
      if item.FunctionDeclaration? {
        BodyWaits(item.body, RoundAfter(before, globals, known, atomic), forces);
      }
    }
  }

  // ----- programs that launch nothing

  /** The calls that hand back a promise: `@readStdin()`, `@tcpRequest` with or without its timeout,
      and a connection's `@read` with or without its own. */
  predicate Launches(e: Expression) {
    e.Call? && e.function_.Identifier? && e.function_.name.At? &&
    match e.function_.name.primitive
    case ReadStdin => e.arguments == []
    case TcpRequest => 2 <= |e.arguments| <= 3
    case ConnectionRead => e.memberCall && 1 <= |e.arguments| <= 2
    case _ => false
  }

  /** A call is taken to deliver a promise exactly when it is one of these. */
  lemma LaunchesExactly(e: Expression, scope: Scope, round: Round)
    requires e.Call?
    ensures Visit(e, scope, round).deferred <==> Launches(e)
  {
  }

  ghost predicate LaunchFree(nodes: seq<Expression>) {
    forall n <- nodes :: !Launches(n)
  }

  ghost predicate NoneDeferred(scope: Scope) {
    forall name <- scope :: !scope[name]
  }

  lemma LaunchFreeParts(a: seq<Expression>, b: seq<Expression>)
    requires LaunchFree(a + b)
    ensures LaunchFree(a) && LaunchFree(b)
  {
    assert forall n <- a :: n in a + b;
    assert forall n <- b :: n in a + b;
  }

  /** Nothing in the report tells of a promise. */
  ghost predicate Ready(report: Report) {
    !report.deferred && report.forces == {} && report.stored == {}
  }

  lemma {:induction false} LaunchFreeIsReady(e: Expression, scope: Scope, round: Round)
    requires LaunchFree(Nodes(e)) && NoneDeferred(scope) && round.deferredGlobals == {}
    ensures Ready(Visit(e, scope, round))
    decreases e, 0
  {
    assert Nodes(e) == [e] + Nodes(e)[1..];
    LaunchFreeParts([e], Nodes(e)[1..]);
    match e
    case Literal(_, _) =>
    case Identifier(_, _) =>
    case Call(callee, arguments, _, _) =>
      assert e in Nodes(e);
      LaunchesExactly(e, scope, round);
      LaunchFreeParts(Nodes(callee), NodesAll(arguments));
      LaunchFreeIsReady(callee, scope, round);
      LaunchFreeIsReadyAll(arguments, scope, round);
    case Operator(_, left, right, _) =>
      LaunchFreeParts(Nodes(left), Nodes(right));
      LaunchFreeIsReady(left, scope, round);
      LaunchFreeIsReady(right, scope, round);
    case Aggregate(elements, _) =>
      LaunchFreeIsReadyAll(elements, scope, round);
    case Index(target, index, _) =>
      LaunchFreeParts(Nodes(target), Nodes(index));
      LaunchFreeIsReady(target, scope, round);
      LaunchFreeIsReady(index, scope, round);
    case Lambda(_, body, _) =>
      LaunchFreeIsReady(body, scope, round);
    case If(condition, then_, else_, _) =>
      LaunchFreeParts(Nodes(condition), Nodes(then_) + Nodes(else_));
      LaunchFreeParts(Nodes(then_), Nodes(else_));
      LaunchFreeIsReady(condition, scope, round);
      LaunchFreeIsReady(then_, scope, round);
      LaunchFreeIsReady(else_, scope, round);
    case Match(scrutinee, arms, _) =>
      LaunchFreeParts(Nodes(scrutinee), NodesArms(arms));
      LaunchFreeIsReady(scrutinee, scope, round);
      LaunchFreeIsReadyArms(arms, scope, round);
    case Block(statements, _) =>
      LaunchFreeIsReadyBlock(statements, scope, round);
  }

  lemma {:induction false} LaunchFreeIsReadyAll(es: seq<Expression>, scope: Scope, round: Round)
    requires LaunchFree(NodesAll(es)) && NoneDeferred(scope) && round.deferredGlobals == {}
    ensures Ready(VisitAll(es, scope, round))
    decreases es, 0
  {
    if es != [] {
      LaunchFreeParts(Nodes(es[0]), NodesAll(es[1..]));
      LaunchFreeIsReady(es[0], scope, round);
      LaunchFreeIsReadyAll(es[1..], scope, round);
    }
  }

  lemma {:induction false} LaunchFreeIsReadyArms(arms: Arms, scope: Scope, round: Round)
    requires LaunchFree(NodesArms(arms)) && NoneDeferred(scope) && round.deferredGlobals == {}
    ensures Ready(VisitArms(arms, scope, round))
    decreases arms, 0
  {
    match arms
    case NoArm =>
    case Arm(_, body, others) =>
      LaunchFreeParts(Nodes(body), NodesArms(others));
      LaunchFreeIsReady(body, scope, round);
      LaunchFreeIsReadyArms(others, scope, round);
  }

  lemma {:induction false} LaunchFreeIsReadyBlock(statements: Statements, scope: Scope, round: Round)
    requires LaunchFree(NodesBlock(statements)) && NoneDeferred(scope) && round.deferredGlobals == {}
    ensures Ready(VisitBlock(statements, scope, round))
    decreases statements, 0
  {
    match statements
    case End =>
    case Bind(name, value, rest) =>
      LaunchFreeParts(Nodes(value), NodesBlock(rest));
      LaunchFreeIsReady(value, scope, round);
      LaunchFreeIsReadyBlock(rest, scope[name := false], round);
    case Store(name, value, _, rest) =>
      LaunchFreeParts(Nodes(value), NodesBlock(rest));
      LaunchFreeIsReady(value, scope, round);
      LaunchFreeIsReadyBlock(rest, scope[name := false], round);
    case Evaluate(expression, rest) =>
      LaunchFreeParts(Nodes(expression), NodesBlock(rest));
      LaunchFreeIsReady(expression, scope, round);
      LaunchFreeIsReadyBlock(rest, scope, round);
  }

  /** A program that launches nothing has no force site, and no global of it holds a promise. */
  lemma {:induction false} LaunchFreeProgram(items: seq<Item>, known: set<Name>, atomic: set<Span>)
    requires LaunchFree(AllNodes(items))
    ensures VisitItems(items, {}, known, atomic).forces == {} && Closed(items, {}, known, atomic)
  {
    if items != [] {
      var before, item := items[..|items| - 1], items[|items| - 1];
      LaunchFreeParts(AllNodes(before), Nodes(Root(item)));
      LaunchFreeProgram(before, known, atomic);
      LaunchFreeIsReady(Root(item), map[], RoundAfter(before, {}, known, atomic));
    }
  }
}
