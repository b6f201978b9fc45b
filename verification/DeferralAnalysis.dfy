/** The deferral pass: which expressions may still hold a promise, where code generation
    must force one, which top-level bindings hold one, and which atomic reassignments wait.

    The walk is a function from an expression and a scope to a `Report`, the growth of the
    accumulators the pass keeps; `Analyze` is the pass's own loop over rounds. */
module DeferralAnalysis {
  import opened Wrappers

  type Span = nat

  /** The `@` primitives the pass knows by name; a linked name spells one after its last `@`. */
  datatype Primitive =
    | ReadStdin
    | TcpRequest
    | ConnectionRead
    | TcpServe
    | HttpServe
    | Sleep
    | StreamFile
    | Other(text: string)

  datatype Name = Plain(text: string) | At(primitive: Primitive)

  datatype Operation = Add | Subtract | Multiply | Equal | Less

  /** Every constructor carries the span code generation keys its forces by. Operators,
      aggregates and indexing stand for all the nodes whose children are strict slots. */
  datatype Expression =
    | Literal(number: int, span: Span)
    | Identifier(name: Name, span: Span)
    | Call(function_: Expression, arguments: seq<Expression>, memberCall: bool, span: Span)
    | Operator(operation: Operation, left: Expression, right: Expression, span: Span)
    | Aggregate(elements: seq<Expression>, span: Span)
    | Index(target: Expression, index: Expression, span: Span)
    | Lambda(parameters: seq<Name>, body: Expression, span: Span)
    | If(condition: Expression, then_: Expression, else_: Expression, span: Span)
    | Match(scrutinee: Expression, arms: Arms, span: Span)
    | Block(statements: Statements, span: Span)

  datatype Arms = NoArm | Arm(pattern: Pattern, body: Expression, others: Arms)

  datatype Pattern = NumberPattern(number: int) | NamePattern(name: Name) | ElementsPattern(names: seq<Name>) | Wildcard

  /** A block's statements in order. `Bind` is `name = value`; `Store` is a `:=` the type
      checker resolved to a top-level binding; a block ends in its value when its last
      statement is an `Evaluate`. */
  datatype Statements =
    | End
    | Bind(name: Name, value: Expression, rest: Statements)
    | Store(name: Name, value: Expression, storeSpan: Span, rest: Statements)
    | Evaluate(expression: Expression, rest: Statements)

  datatype Item =
    | FunctionDeclaration(name: Name, parameters: seq<Name>, body: Expression)
    | GlobalDeclaration(name: Name, mutable: bool, value: Expression, span: Span)

  predicate CallsPrimitive(callee: Expression) {
    callee.Identifier? && callee.name.At?
  }

  predicate ProducesDeferred(callee: Expression, count: nat, memberCall: bool) {
    CallsPrimitive(callee) &&
    match callee.name.primitive
    case ReadStdin => count == 0
    case TcpRequest => count == 2 || count == 3
    case ConnectionRead => memberCall && (count == 1 || count == 2)
    case _ => false
  }

  predicate IsServerLaunch(callee: Expression) {
    CallsPrimitive(callee) && (callee.name.primitive.TcpServe? || callee.name.primitive.HttpServe?)
  }

  predicate WaitsWhenCalled(callee: Expression) {
    CallsPrimitive(callee) && (callee.name.primitive.Sleep? || callee.name.primitive.StreamFile?)
  }

  /** Names bound in the enclosing blocks, and whether each holds a deferred value. A name
      absent here is ready unless it is a deferred global. */
  type Scope = map<Name, bool>

  /** What one round reads and never changes while it walks one item. */
  datatype Round = Round(deferredGlobals: set<Name>, known: set<Name>, waiting: set<Name>, atomic: set<Span>)

  predicate IsDeferred(scope: Scope, globals: set<Name>, name: Name) {
    if name in scope then scope[name] else name in globals
  }

  /** What visiting one expression adds to the accumulators. `deferred` is the verdict handed
      to the parent slot; `demoted` collects globals a block stores a ready value into. */
  datatype Report = Report(
    deferred: bool, forces: set<Span>, stored: set<Name>, demoted: set<Name>, waits: bool, rejected: bool)
  {
    /** Both visits' growth, delivering a ready value. */
    function Then(next: Report): Report {
      Report(false, forces + next.forces, stored + next.stored, demoted + next.demoted,
             waits || next.waits, rejected || next.rejected)
    }
  }

  const NOTHING := Report(false, {}, {}, {}, false, false)

  /** Whether calling `callee` waits by itself or through a function already known to wait;
      a callee that is neither a primitive nor a known function is taken to wait. */
  predicate CallWaits(callee: Expression, memberCall: bool, round: Round) {
    callee.Identifier? && !IsServerLaunch(callee) &&
    (|| WaitsWhenCalled(callee)
     || callee.name in round.waiting
     || (!memberCall && callee.name.Plain? && callee.name !in round.known))
  }

  function Visit(e: Expression, scope: Scope, round: Round): Report
    decreases e, 0
  {
    match e
    case Literal(_, _) => NOTHING
    case Identifier(name, _) => NOTHING.(deferred := IsDeferred(scope, round.deferredGlobals, name))
    case Call(callee, arguments, memberCall, _) =>
      var called := Strict(callee, scope, round);
      var passed := VisitAll(arguments, scope, round);
      var both := called.Then(if IsServerLaunch(callee) then passed.(waits := false) else passed);
      both.(deferred := ProducesDeferred(callee, |arguments|, memberCall),
            waits := both.waits || CallWaits(callee, memberCall, round))
    case Operator(_, left, right, _) => Strict(left, scope, round).Then(Strict(right, scope, round))
    case Aggregate(elements, _) => VisitAll(elements, scope, round)
    case Index(target, index, _) => Strict(target, scope, round).Then(Strict(index, scope, round))
    case Lambda(_, body, _) => Strict(body, scope, round)
    case If(condition, then_, else_, _) =>
      var thenReport := Visit(then_, scope, round);
      var elseReport := Visit(else_, scope, round);
      Strict(condition, scope, round).Then(thenReport.Then(elseReport))
        .(deferred := thenReport.deferred || elseReport.deferred)
    case Match(scrutinee, arms, _) =>
      var armsReport := VisitArms(arms, scope, round);
      Strict(scrutinee, scope, round).Then(armsReport).(deferred := armsReport.deferred)
    case Block(statements, _) => VisitBlock(statements, scope, round)
  }

  /** Visit in a strict slot: a value still deferred is forced right there. */
  function Strict(e: Expression, scope: Scope, round: Round): (report: Report)
    ensures !report.deferred
    decreases e, 1
  {
    var report := Visit(e, scope, round);
    if report.deferred then report.(deferred := false, forces := report.forces + {e.span}) else report
  }

  function VisitAll(es: seq<Expression>, scope: Scope, round: Round): (report: Report)
    ensures !report.deferred
    decreases es, 0
  {
    if es == [] then NOTHING
    else Strict(es[0], scope, round).Then(VisitAll(es[1..], scope, round))
  }

  function VisitArms(arms: Arms, scope: Scope, round: Round): Report
    decreases arms, 0
  {
    match arms
    case NoArm => NOTHING
    case Arm(_, body, others) =>
      var first := Visit(body, scope, round);
      var rest := VisitArms(others, scope, round);
      first.Then(rest).(deferred := first.deferred || rest.deferred)
  }

  function VisitBlock(statements: Statements, scope: Scope, round: Round): Report
    decreases statements, 0
  {
    match statements
    case End => NOTHING
    case Bind(name, value, rest) =>
      var bound := Visit(value, scope, round);
      Sequenced(bound, VisitBlock(rest, scope[name := bound.deferred], round))
    case Store(name, value, span, rest) =>
      var stored := VisitStore(name, value, span, scope, round);
      Sequenced(stored, VisitBlock(rest, scope[name := stored.deferred], round))
    case Evaluate(expression, rest) =>
      var report := Visit(expression, scope, round);
      if rest.End? then report else Sequenced(report, VisitBlock(rest, scope, round))
  }

  /** Both visits' growth, delivering the second one's value. */
  function Sequenced(first: Report, second: Report): Report {
    first.Then(second).(deferred := second.deferred)
  }

  /** A block's store into a global: the global is marked when the value is deferred, and an
      atomic reassignment is rejected when its right side forces or waits. */
  function VisitStore(name: Name, value: Expression, span: Span, scope: Scope, round: Round): Report
    decreases value, 2
  {
    var report := Visit(value, scope, round);
    report.(stored := report.stored + if report.deferred then {name} else {},
            demoted := report.demoted + if report.deferred then {} else {name},
            rejected := report.rejected || Violates(report, span, round))
  }

  predicate Violates(report: Report, span: Span, round: Round) {
    span in round.atomic && (report.forces != {} || report.waits)
  }

  /** One round over the whole program: every item in order, the functions found to wait
      carried to the items below them. */
  datatype Tally = Tally(
    forces: set<Span>, stored: set<Name>, demoted: set<Name>, rejected: bool, waiting: set<Name>)

  const START := Tally({}, {}, {}, false, {})

  function VisitItem(item: Item, globals: set<Name>, known: set<Name>, atomic: set<Span>, tally: Tally): Tally {
    var round := Round(globals, known, tally.waiting, atomic);
    match item
    case FunctionDeclaration(name, _, body) =>
      var report := Strict(body, map[], round);
      Tally(tally.forces + report.forces, tally.stored + report.stored, tally.demoted + report.demoted,
            tally.rejected || report.rejected,
            tally.waiting + if report.waits || report.forces != {} then {name} else {})
    case GlobalDeclaration(name, mutable, value, span) =>
      var report := Visit(value, map[], round);
      Tally(tally.forces + report.forces + if report.deferred && !mutable then {value.span} else {},
            tally.stored + report.stored + if report.deferred && mutable then {name} else {},
            tally.demoted + report.demoted,
            tally.rejected || report.rejected || Violates(report, span, round),
            tally.waiting)
  }

  function VisitItems(items: seq<Item>, globals: set<Name>, known: set<Name>, atomic: set<Span>): Tally
  {
    if items == [] then START
    else
      VisitItem(items[|items| - 1], globals, known, atomic,
                VisitItems(items[..|items| - 1], globals, known, atomic))
  }

  /** Every name a call may follow: declared functions, and top-level bindings whose value is
      a lambda literal. */
  function KnownFunctionNames(items: seq<Item>): set<Name> {
    set item <- items | item.FunctionDeclaration? || item.value.Lambda? :: item.name
  }

  // ----- the fixed point over deferred globals

  /** `wider` agrees with `narrower` on which names are bound, and marks at least as many. */
  ghost predicate ScopeBelow(narrower: Scope, wider: Scope) {
    narrower.Keys == wider.Keys && forall name <- narrower :: narrower[name] ==> wider[name]
  }

  ghost predicate ReportBelow(narrower: Report, wider: Report) {
    && (narrower.deferred ==> wider.deferred)
    && narrower.forces <= wider.forces
    && narrower.stored <= wider.stored
    && narrower.stored + narrower.demoted == wider.stored + wider.demoted
    && (narrower.waits ==> wider.waits) && (narrower.rejected ==> wider.rejected)
  }

  /** A later round: more globals deferred, more functions known to wait. */
  ghost predicate RoundBelow(r: Round, q: Round) {
    r.deferredGlobals <= q.deferredGlobals && r.waiting <= q.waiting && r.known == q.known && r.atomic == q.atomic
  }

  lemma ThenBelow(a: Report, c: Report, b: Report, d: Report)
    requires ReportBelow(a, c) && ReportBelow(b, d)
    ensures ReportBelow(a.Then(b), c.Then(d)) && ReportBelow(Sequenced(a, b), Sequenced(c, d))
  {
  }

  /** Marking more globals deferred and more functions waiting never removes a force, a store, a
      wait, a rejection or a deferred verdict, and every store target stays either marked or
      demoted. */
  lemma {:induction false} VisitMonotone(e: Expression, s: Scope, t: Scope, r: Round, q: Round)
    requires ScopeBelow(s, t) && RoundBelow(r, q)
    ensures ReportBelow(Visit(e, s, r), Visit(e, t, q))
    decreases e, 1
  {
    match e
    case Literal(_, _) =>
    case Identifier(_, _) =>
    case Call(_, _, _, _) => CallMonotone(e, s, t, r, q);
    case Operator(_, left, right, _) =>
      VisitMonotone(left, s, t, r, q);
      VisitMonotone(right, s, t, r, q);
      ThenBelow(Strict(left, s, r), Strict(left, t, q), Strict(right, s, r), Strict(right, t, q));
    case Aggregate(elements, _) =>
      VisitAllMonotone(elements, s, t, r, q);
    case Index(target, index, _) =>
      VisitMonotone(target, s, t, r, q);
      VisitMonotone(index, s, t, r, q);
      ThenBelow(Strict(target, s, r), Strict(target, t, q), Strict(index, s, r), Strict(index, t, q));
    case Lambda(_, body, _) =>
      VisitMonotone(body, s, t, r, q);
    case If(_, _, _, _) => IfMonotone(e, s, t, r, q);
    case Match(_, _, _) => MatchMonotone(e, s, t, r, q);
    case Block(statements, _) =>
      VisitBlockMonotone(statements, s, t, r, q);
  }

  lemma {:induction false} CallMonotone(e: Expression, s: Scope, t: Scope, r: Round, q: Round)
    requires ScopeBelow(s, t) && RoundBelow(r, q) && e.Call?
    ensures ReportBelow(Visit(e, s, r), Visit(e, t, q))
    decreases e, 0
  {
    var Call(callee, arguments, _, _) := e;
    VisitMonotone(callee, s, t, r, q);
    VisitAllMonotone(arguments, s, t, r, q);
    var a, b := VisitAll(arguments, s, r), VisitAll(arguments, t, q);
    if IsServerLaunch(callee) { a, b := a.(waits := false), b.(waits := false); }
    ThenBelow(Strict(callee, s, r), Strict(callee, t, q), a, b);
  }

  lemma {:induction false} MatchMonotone(e: Expression, s: Scope, t: Scope, r: Round, q: Round)
    requires ScopeBelow(s, t) && RoundBelow(r, q) && e.Match?
    ensures ReportBelow(Visit(e, s, r), Visit(e, t, q))
    decreases e, 0
  {
    var Match(scrutinee, arms, _) := e;
    VisitMonotone(scrutinee, s, t, r, q);
    VisitArmsMonotone(arms, s, t, r, q);
    ThenBelow(Strict(scrutinee, s, r), Strict(scrutinee, t, q), VisitArms(arms, s, r), VisitArms(arms, t, q));
  }

  lemma {:induction false} IfMonotone(e: Expression, s: Scope, t: Scope, r: Round, q: Round)
    requires ScopeBelow(s, t) && RoundBelow(r, q) && e.If?
    ensures ReportBelow(Visit(e, s, r), Visit(e, t, q))
    decreases e, 0
  {
    var If(condition, then_, else_, _) := e;
    VisitMonotone(condition, s, t, r, q);
    VisitMonotone(then_, s, t, r, q);
    VisitMonotone(else_, s, t, r, q);
    ThenBelow(Visit(then_, s, r), Visit(then_, t, q), Visit(else_, s, r), Visit(else_, t, q));
    ThenBelow(Strict(condition, s, r), Strict(condition, t, q),
              Visit(then_, s, r).Then(Visit(else_, s, r)), Visit(then_, t, q).Then(Visit(else_, t, q)));
  }

  lemma {:induction false} VisitAllMonotone(es: seq<Expression>, s: Scope, t: Scope, r: Round, q: Round)
    requires ScopeBelow(s, t) && RoundBelow(r, q)
    ensures ReportBelow(VisitAll(es, s, r), VisitAll(es, t, q))
    decreases es, 0
  {
    if es != [] {
      VisitMonotone(es[0], s, t, r, q);
      VisitAllMonotone(es[1..], s, t, r, q);
    }
  }

  lemma {:induction false} VisitArmsMonotone(arms: Arms, s: Scope, t: Scope, r: Round, q: Round)
    requires ScopeBelow(s, t) && RoundBelow(r, q)
    ensures ReportBelow(VisitArms(arms, s, r), VisitArms(arms, t, q))
    decreases arms, 0
  {
    match arms
    case NoArm =>
    case Arm(_, body, others) =>
      VisitMonotone(body, s, t, r, q);
      VisitArmsMonotone(others, s, t, r, q);
  }

  lemma {:induction false} VisitBlockMonotone(statements: Statements, s: Scope, t: Scope, r: Round, q: Round)
    requires ScopeBelow(s, t) && RoundBelow(r, q)
    ensures ReportBelow(VisitBlock(statements, s, r), VisitBlock(statements, t, q))
    decreases statements, 0
  {
    match statements
    case End =>
    case Bind(name, value, rest) =>
      VisitMonotone(value, s, t, r, q);
      VisitBlockMonotone(rest, s[name := Visit(value, s, r).deferred], t[name := Visit(value, t, q).deferred], r, q);
    case Store(name, value, span, rest) =>
      VisitMonotone(value, s, t, r, q);
      var narrow, wide := VisitStore(name, value, span, s, r), VisitStore(name, value, span, t, q);
      VisitBlockMonotone(rest, s[name := narrow.deferred], t[name := wide.deferred], r, q);
      ThenBelow(narrow, wide, VisitBlock(rest, s[name := narrow.deferred], r),
        VisitBlock(rest, t[name := wide.deferred], q));
    case Evaluate(expression, rest) =>
      VisitMonotone(expression, s, t, r, q);
      VisitBlockMonotone(rest, s, t, r, q);
  }

  /** Every name some `:=` of the program stores into: its declared mutable globals and the
      targets its blocks store to. */
  function Targets(items: seq<Item>, tally: Tally): set<Name> {
    tally.stored + tally.demoted + MutableNames(items)
  }

  function MutableNames(items: seq<Item>): set<Name> {
    if items == [] then {}
    else MutableNames(items[..|items| - 1]) + MutableName(items[|items| - 1])
  }

  function MutableName(item: Item): set<Name> {
    if item.GlobalDeclaration? && item.mutable then {item.name} else {}
  }

  ghost predicate TallyBelow(narrower: Tally, wider: Tally, mutable: set<Name>) {
    && narrower.forces <= wider.forces
    && narrower.stored <= wider.stored
    && narrower.stored + narrower.demoted + mutable == wider.stored + wider.demoted + mutable
    && narrower.waiting <= wider.waiting && (narrower.rejected ==> wider.rejected)
  }

  lemma VisitItemMonotone(item: Item, g: set<Name>, h: set<Name>, known: set<Name>, atomic: set<Span>,
                          narrower: Tally, wider: Tally, mutable: set<Name>)
    requires g <= h && TallyBelow(narrower, wider, mutable)
    ensures TallyBelow(VisitItem(item, g, known, atomic, narrower), VisitItem(item, h, known, atomic, wider),
                       mutable + MutableName(item))
  {
    var r, q := Round(g, known, narrower.waiting, atomic), Round(h, known, wider.waiting, atomic);
    match item
    case FunctionDeclaration(_, _, body) =>
      VisitMonotone(body, map[], map[], r, q);
      var a, b := Strict(body, map[], r), Strict(body, map[], q);
      assert ReportBelow(a, b);
    case GlobalDeclaration(_, _, value, _) =>
      VisitMonotone(value, map[], map[], r, q);
      var a, b := Visit(value, map[], r), Visit(value, map[], q);
      assert ReportBelow(a, b);
  }

  lemma {:induction false} VisitItemsMonotone(items: seq<Item>, g: set<Name>, h: set<Name>, known: set<Name>,
                                              atomic: set<Span>)
    requires g <= h
    ensures TallyBelow(VisitItems(items, g, known, atomic), VisitItems(items, h, known, atomic), MutableNames(items))
  {
    if items != [] {
      var before := items[..|items| - 1];
      VisitItemsMonotone(before, g, h, known, atomic);
      VisitItemMonotone(items[|items| - 1], g, h, known, atomic, VisitItems(before, g, known, atomic),
                        VisitItems(before, h, known, atomic), MutableNames(before));
    }
  }

  /** A set of globals the store rule adds nothing to. */
  ghost predicate Closed(items: seq<Item>, globals: set<Name>, known: set<Name>, atomic: set<Span>) {
    VisitItems(items, globals, known, atomic).stored <= globals
  }

  /** The pass: rounds until one adds no global. The set it stops on is the least one closed
      under the store rule, the force set is that round's own, and the program is rejected
      exactly when that round finds an atomic reassignment that waits. */
  method Analyze(items: seq<Item>, atomic: set<Span>) returns (accepted: bool, forceSites: set<Span>,
                 globals: set<Name>)
    ensures Closed(items, globals, KnownFunctionNames(items), atomic)
    ensures globals <= Targets(items, VisitItems(items, {}, KnownFunctionNames(items), atomic))
    ensures forall other: set<Name> :: Closed(items, other, KnownFunctionNames(items), atomic) ==> globals <= other
    ensures var tally := VisitItems(items, globals, KnownFunctionNames(items), atomic);
      forceSites == tally.forces && accepted == !tally.rejected
  {
    var known := KnownFunctionNames(items);
    ghost var targets := Targets(items, VisitItems(items, {}, known, atomic));
    globals := {};
    while true
      invariant globals <= targets
      invariant forall other: set<Name> :: Closed(items, other, known, atomic) ==> globals <= other
      decreases targets - globals
    {
      var tally := VisitItems(items, globals, known, atomic);
      VisitItemsMonotone(items, {}, globals, known, atomic);
      if tally.stored <= globals {
        return !tally.rejected, tally.forces, globals;
      }
      forall other: set<Name> | Closed(items, other, known, atomic)
        ensures tally.stored <= other
      {
        VisitItemsMonotone(items, globals, other, known, atomic);
      }
      globals := globals + tally.stored;
    }
  }
}
