/** Programs the pass accepts and gets wrong: one that leaks a promise because a block demotes
    a deferred global, and four whose atomic reassignment waits although the pass accepts it.
    Each breaks one of the conditions the two main results state. */
module DeferralLimits {
  import opened DeferralAnalysis
  import opened DeferralSemantics
  import opened DeferralAtomic

  const CELL := Plain("cell")
  const REFILL := Plain("refill")

  lemma NamesDiffer()
    ensures CELL != REFILL && CELL != ENTRY && REFILL != ENTRY
  {
    assert |CELL.text| == 4 && |REFILL.text| == 6 && |ENTRY.text| == 1;
  }

  function CallOf(name: Name, span: Span): Expression { Call(Identifier(name, span), [], false, span + 1) }

  lemma ThreeItems(a: Item, b: Item, c: Item, globals: set<Name>, known: set<Name>, atomic: set<Span>)
    ensures VisitItems([a, b, c], globals, known, atomic) ==
      VisitItem(c, globals, known, atomic,
        VisitItem(b, globals, known, atomic, VisitItem(a, globals, known, atomic, START)))
    ensures [a, b, c][..2] == [a, b] && [a, b][..1] == [a] && [a][..0] == []
  {
    assert [a, b, c][..2] == [a, b] && [a, b][..1] == [a] && [a][..0] == [];
    assert VisitItems([a], globals, known, atomic) == VisitItem(a, globals, known, atomic, START);
    assert VisitItems([a, b], globals, known, atomic)
      == VisitItem(b, globals, known, atomic, VisitItems([a], globals, known, atomic));
  }

  // ----- a demoted global

  /** `cell := 0`, then `refill = () => < cell := @readStdin() >`, then
      `^ = () => < cell := 1  refill()  cell + 1 >`: the block's own ready store hides that
      `refill` put a promise into `cell`. */
  const CELL_ITEM := GlobalDeclaration(CELL, true, Literal(0, 1), 2)
  const READ := CallOf(At(ReadStdin), 3)
  const REFILL_BODY := Block(Store(CELL, READ, 5, End), 6)
  const SUM := Operator(Add, Identifier(CELL, 11), Literal(1, 12), 13)
  const AFTER_STORE := Evaluate(CallOf(REFILL, 9), Evaluate(SUM, End))
  const ENTRY_BODY := Block(Store(CELL, Literal(1, 7), 8, AFTER_STORE), 14)
  const DEMOTING: seq<Item> :=
    [CELL_ITEM, FunctionDeclaration(REFILL, [], REFILL_BODY), FunctionDeclaration(ENTRY, [], ENTRY_BODY)]

  lemma RefillVisit(round: Round)
    requires round.deferredGlobals == {CELL} && round.waiting == {} && round.atomic == {}
    ensures Strict(REFILL_BODY, map[], round) == Report(false, {}, {CELL}, {}, false, false)
  {
    assert Visit(READ, map[], round) == NOTHING.(deferred := true);
    assert VisitBlock(End, map[CELL := true], round) == NOTHING;
  }

  lemma EntryVisit(round: Round)
    requires round.deferredGlobals == {CELL} && round.waiting == {} && round.atomic == {} && REFILL in round.known
    ensures Strict(ENTRY_BODY, map[], round) == Report(false, {}, {}, {CELL}, false, false)
  {
    NamesDiffer();
    var scope: Scope := map[CELL := false];
    assert Visit(CallOf(REFILL, 9), scope, round) == NOTHING;
    assert Visit(SUM, scope, round) == NOTHING;
    assert VisitBlock(AFTER_STORE, scope, round) == NOTHING;
    assert VisitStore(CELL, Literal(1, 7), 8, map[], round) == Report(false, {}, {}, {CELL}, false, false);
  }

  lemma DemotingTally()
    ensures VisitItems(DEMOTING, {CELL}, KnownFunctionNames(DEMOTING), {}) == Tally({}, {CELL}, {CELL}, false, {})
  {
    var known := KnownFunctionNames(DEMOTING);
    assert DEMOTING[1] in DEMOTING && REFILL in known;
    ThreeItems(DEMOTING[0], DEMOTING[1], DEMOTING[2], {CELL}, known, {});
    var round := Round({CELL}, known, {}, {});
    RefillVisit(round);
    EntryVisit(round);
    assert VisitItem(CELL_ITEM, {CELL}, known, {}, START) == START;
  }

  /** The pass's answer is closed, yet the run adds a promise. */
  lemma DemotedGlobalLeaks(reply: nat -> int)
    ensures var m := DeferredMachine(DEMOTING, {}, {CELL}, reply);
      && Closed(DEMOTING, {CELL}, KnownFunctionNames(DEMOTING), {})
      && Run(m, DEMOTING, 1).Halted? && Run(m, DEMOTING, 1).reason == Leaked
  {
    DemotingTally();
    NamesDiffer();
    var m := DeferredMachine(DEMOTING, {}, {CELL}, reply);
    assert m.mode == Deferred({});
    FunctionsOf(DEMOTING[0], DEMOTING[1], DEMOTING[2]);
    var s0 := State(map[CELL := Number(0)], [], false, 0);
    assert Initialize(m, [CELL_ITEM], 1) == Done(UNIT, s0) by { assert [CELL_ITEM][..0] == []; }
    InitializeOne(m, DEMOTING[0], DEMOTING[1], DEMOTING[2], 1);
    EntryLeaks(m, s0);
  }

  lemma EntryLeaks(m: Machine, state: State)
    requires m.mode == Deferred({}) && m.atomic == {} && state == State(map[CELL := Number(0)], [], false, 0)
    requires REFILL in m.functions && m.functions[REFILL] == Function([], REFILL_BODY)
    ensures Ready(m, ENTRY_BODY, map[], state, 1).Halted? && Ready(m, ENTRY_BODY, map[], state, 1).reason == Leaked
  {
    var s1 := State(map[CELL := Number(1)], [], false, 0);
    RefillStoresPromise(m, s1);
    var s2 := State(map[CELL := Promise(0)], [Event(At(ReadStdin), [])], false, 0);
    assert Raw(m, Identifier(CELL, 11), map[], s2, 1) == Done(Promise(0), s2);
    assert Raw(m, SUM, map[], s2, 1) == Halted(Leaked, s2);
    assert EvalBlock(m, AFTER_STORE, map[], s1, 1) == Halted(Leaked, s2);
    assert Stored(CELL, Number(1), state, state) == s1;
    assert EvalBlock(m, ENTRY_BODY.statements, map[], state, 1) == Halted(Leaked, s2);
  }

  /** With one global first and two functions after it, only the global initializes. */
  lemma InitializeOne(m: Machine, a: Item, b: Item, c: Item, fuel: nat)
    requires a.GlobalDeclaration? && b.FunctionDeclaration? && c.FunctionDeclaration? && Initialize(m, [a], fuel).Done?
    requires Initialize(m, [a], fuel).value == UNIT
    ensures Initialize(m, [a, b, c], fuel) == Initialize(m, [a], fuel)
  {
    assert [a, b, c][..2] == [a, b] && [a, b][..1] == [a];
    assert Initialize(m, [a, b], fuel) == Initialize(m, [a], fuel);
  }

  lemma FunctionsOf(a: Item, b: Item, c: Item)
    requires a.GlobalDeclaration? && b.FunctionDeclaration? && c.FunctionDeclaration?
    ensures Functions([a, b, c])
      == map[b.name := Function(b.parameters, b.body)][c.name := Function(c.parameters, c.body)]
  {
    assert [a, b, c][..2] == [a, b] && [a, b][..1] == [a] && [a][..0] == [];
    assert Functions([a]) == map[];
    assert Functions([a, b]) == map[b.name := Function(b.parameters, b.body)];
  }

  lemma RefillStoresPromise(m: Machine, state: State)
    requires m.mode == Deferred({}) && m.atomic == {} && state == State(map[CELL := Number(1)], [], false, 0)
    requires REFILL in m.functions && m.functions[REFILL] == Function([], REFILL_BODY)
    ensures Eval(m, CallOf(REFILL, 9), map[], state, 1)
         == Done(UNIT, State(map[CELL := Promise(0)], [Event(At(ReadStdin), [])], false, 0))
  {
    NamesDiffer();
    var next := State(map[CELL := Promise(0)], [Event(At(ReadStdin), [])], false, 0);
    assert Raw(m, READ, map[], state, 0) == Done(Promise(0), state.(events := [Event(At(ReadStdin), [])]));
    assert EvalBlock(m, End, map[], next, 0) == Done(UNIT, next);
    assert EvalBlock(m, REFILL_BODY.statements, map[], state, 0) == Done(UNIT, next);
    assert Ready(m, REFILL_BODY, Bound([], [], map[]), state, 0) == Done(UNIT, next);
    assert Raw(m, Identifier(REFILL, 9), map[], state, 1) == Done(Closure([], REFILL_BODY, map[]), state);
    assert ReadyAll(m, [], map[], state, 1) == Done([], state);
  }

  // ----- atomic reassignments that wait, each accepted by the pass

  const NAP := REFILL
  const NAP_BODY := Block(Evaluate(CallOf(At(Sleep), 3), End), 6)
  const NAP_FUNCTION := FunctionDeclaration(NAP, [], NAP_BODY)

  /** `^ = () => < cell := value >`, the reassignment atomic. */
  function AtomicEntry(value: Expression): Item {
    FunctionDeclaration(ENTRY, [], Block(Store(CELL, value, 8, End), 14))
  }

  /** The callee is an expression: `(1 ? nap : nap)()`. */
  const COMPUTED := Call(If(Literal(1, 20), Identifier(NAP, 21), Identifier(NAP, 22), 23), [], false, 24)

  /** The wait is in an argument of a server launch: `@tcpServe(nap(), 0)`. */
  const SERVED := Call(Identifier(At(TcpServe), 20), [CallOf(NAP, 21), Literal(0, 23)], false, 24)

  /** The callee is a top-level binding of a lambda: `nap = () => < @sleep() >`, `nap()`. */
  const NAP_LAMBDA := GlobalDeclaration(NAP, false, Lambda([], NAP_BODY, 7), 4)

  lemma NapVisit(round: Round, scope: Scope)
    requires round.deferredGlobals == {} && scope == map[]
    ensures Strict(NAP_BODY, scope, round) == NOTHING.(waits := true)
  {
    assert Visit(CallOf(At(Sleep), 3), scope, round) == NOTHING.(waits := true);
  }

  /** A three-item program whose last item is an atomic entry is accepted when the visit of
      the right side is clean. */
  lemma AcceptsEntry(nap: Item, value: Expression, waiting: set<Name>, known: set<Name>)
    requires VisitItem(nap, {}, known, {8}, START) == START.(waiting := waiting)
    requires Visit(value, map[], Round({}, known, waiting, {8})) == NOTHING
    ensures !VisitItems([CELL_ITEM, nap, AtomicEntry(value)], {}, known, {8}).rejected
    ensures VisitItems([CELL_ITEM, nap, AtomicEntry(value)], {}, known, {8}).forces == {}
  {
    ThreeItems(CELL_ITEM, nap, AtomicEntry(value), {}, known, {8});
    assert VisitItem(CELL_ITEM, {}, known, {8}, START) == START;
    AtomicEntryVisit(value, Round({}, known, waiting, {8}));
  }

  lemma AtomicEntryVisit(value: Expression, round: Round)
    requires round.deferredGlobals == {} && round.atomic == {8} && Visit(value, map[], round) == NOTHING
    ensures Strict(AtomicEntry(value).body, map[], round) == NOTHING.(demoted := {CELL})
  {
    assert VisitBlock(End, map[CELL := false], round) == NOTHING;
    assert VisitStore(CELL, value, 8, map[], round) == NOTHING.(demoted := {CELL});
    assert VisitBlock(Store(CELL, value, 8, End), map[], round) == NOTHING.(demoted := {CELL});
  }

  lemma NapWaits(m: Machine, state: State)
    requires m.mode == Deferred({}) && state.atomic
    ensures var outcome := Apply(m, Closure([], NAP_BODY, map[]), [], state, 0);
      outcome.Done? && outcome.state.atomicWaits == state.atomicWaits + 1
  {
    var call := CallOf(At(Sleep), 3);
    assert ReadyAll(m, [], map[], state, 0) == Done([], state);
    var slept := CallPrimitive(m, call.function_, [], false, state);
    assert Raw(m, call, map[], state, 0) == slept;
    assert EvalBlock(m, NAP_BODY.statements, map[], state, 0) == slept;
  }

  lemma EntryWaits(m: Machine, value: Expression, state: State)
    requires m.mode == Deferred({}) && m.atomic == {8}
    requires var outcome := Eval(m, value, map[], state.(atomic := true), 1);
      outcome.Done? && outcome.state.atomicWaits > 0
    ensures Ready(m, AtomicEntry(value).body, map[], state, 1).state.atomicWaits > 0
  {
    assert Entered(m, 8, state) == state.(atomic := true);
    var outcome := Eval(m, value, map[], state.(atomic := true), 1);
    var next := Stored(CELL, outcome.value, state, outcome.state);
    assert EvalBlock(m, End, map[], next, 1) == Done(UNIT, next);
    assert EvalBlock(m, Store(CELL, value, 8, End), map[], state, 1) == Done(UNIT, next);
    assert Raw(m, AtomicEntry(value).body, map[], state, 1) == Done(UNIT, next);
  }

  lemma ComputedCalleeWaits(reply: nat -> int)
    ensures var items := [CELL_ITEM, NAP_FUNCTION, AtomicEntry(COMPUTED)];
      && !VisitItems(items, {}, KnownFunctionNames(items), {8}).rejected
      && Run(DeferredMachine(items, {8}, {}, reply), items, 1).state.atomicWaits > 0
  {
    NamesDiffer();
    var items := [CELL_ITEM, NAP_FUNCTION, AtomicEntry(COMPUTED)];
    var known := KnownFunctionNames(items);
    NapVisit(Round({}, known, {}, {8}), map[]);
    assert Visit(COMPUTED, map[], Round({}, known, {NAP}, {8})) == NOTHING;
    AcceptsEntry(NAP_FUNCTION, COMPUTED, {NAP}, known);
    var m := DeferredMachine(items, {8}, {}, reply);
    FunctionsOf(items[0], items[1], items[2]);
    CellStarts(m, items[1], items[2]);
    var state := State(map[CELL := Number(0)], [], true, 0);
    var closure := Closure([], NAP_BODY, map[]);
    assert Eval(m, Identifier(NAP, 21), map[], state, 1) == Done(closure, state);
    assert Ready(m, COMPUTED.function_, map[], state, 1) == Done(closure, state);
    assert ReadyAll(m, [], map[], state, 1) == Done([], state);
    NapWaits(m, state);
    EntryWaits(m, COMPUTED, state.(atomic := false));
  }

  lemma CellStarts(m: Machine, nap: Item, entry: Item)
    requires m.mode == Deferred({}) && m.atomic == {8} && nap.FunctionDeclaration? && entry.FunctionDeclaration?
    ensures Initialize(m, [CELL_ITEM, nap, entry], 1) == Done(UNIT, State(map[CELL := Number(0)], [], false, 0))
  {
    assert Initialize(m, [CELL_ITEM], 1) == Done(UNIT, State(map[CELL := Number(0)], [], false, 0))
      by { assert [CELL_ITEM][..0] == []; }
    InitializeOne(m, CELL_ITEM, nap, entry, 1);
  }

  lemma ServedArgumentWaits(reply: nat -> int)
    ensures var items := [CELL_ITEM, NAP_FUNCTION, AtomicEntry(SERVED)];
      && !VisitItems(items, {}, KnownFunctionNames(items), {8}).rejected
      && Run(DeferredMachine(items, {8}, {}, reply), items, 1).state.atomicWaits > 0
  {
    NamesDiffer();
    var items := [CELL_ITEM, NAP_FUNCTION, AtomicEntry(SERVED)];
    var known := KnownFunctionNames(items);
    NapVisit(Round({}, known, {}, {8}), map[]);
    var round := Round({}, known, {NAP}, {8});
    assert SERVED.arguments[1..] == [Literal(0, 23)] && [Literal(0, 23)][1..] == [];
    assert Strict(CallOf(NAP, 21), map[], round) == NOTHING.(waits := true);
    assert VisitAll(SERVED.arguments, map[], round) == NOTHING.(waits := true);
    assert Visit(SERVED, map[], round) == NOTHING;
    AcceptsEntry(NAP_FUNCTION, SERVED, {NAP}, known);
    var m := DeferredMachine(items, {8}, {}, reply);
    FunctionsOf(items[0], items[1], items[2]);
    CellStarts(m, items[1], items[2]);
    ServedWaits(m);
    EntryWaits(m, SERVED, State(map[CELL := Number(0)], [], false, 0));
  }

  lemma ServedWaits(m: Machine)
    requires m.mode == Deferred({}) && m.atomic == {8} && NAP in m.functions &&
      m.functions[NAP] == Function([], NAP_BODY)
    ensures var outcome := Eval(m, SERVED, map[], State(map[CELL := Number(0)], [], true, 0), 1);
      outcome.Done? && outcome.state.atomicWaits > 0
  {
    NamesDiffer();
    var state := State(map[CELL := Number(0)], [], true, 0);
    NapWaits(m, state);
    var napped := Apply(m, Closure([], NAP_BODY, map[]), [], state, 0);
    assert Eval(m, Identifier(NAP, 21), map[], state, 1) == Done(Closure([], NAP_BODY, map[]), state);
    assert ReadyAll(m, [], map[], state, 1) == Done([], state);
    assert Ready(m, CallOf(NAP, 21), map[], state, 1) == napped;
    assert SERVED.arguments[1..] == [Literal(0, 23)] && [Literal(0, 23)][1..] == [];
    assert ReadyAll(m, [], map[], napped.state, 1) == Done([], napped.state);
    assert ReadyAll(m, [Literal(0, 23)], map[], napped.state, 1) == Done([Number(0)], napped.state) by {
      assert Ready(m, Literal(0, 23), map[], napped.state, 1) == Done(Number(0), napped.state);
      assert [Number(0)] + [] == [Number(0)];
    }
    assert ReadyAll(m, SERVED.arguments, map[], state, 1) == Done([napped.value] + [Number(0)], napped.state);
    assert Raw(m, SERVED, map[], state, 1)
      == CallPrimitive(m, SERVED.function_, [napped.value] + [Number(0)], false, napped.state);
  }

  lemma LambdaBindingWaits(reply: nat -> int)
    ensures var items := [CELL_ITEM, NAP_LAMBDA, AtomicEntry(CallOf(NAP, 20))];
      && !VisitItems(items, {}, KnownFunctionNames(items), {8}).rejected
      && Run(DeferredMachine(items, {8}, {}, reply), items, 1).state.atomicWaits > 0
  {
    var value := CallOf(NAP, 20);
    var items := [CELL_ITEM, NAP_LAMBDA, AtomicEntry(value)];
    LambdaAccepted(value);
    var m := DeferredMachine(items, {8}, {}, reply);
    LambdaProgramStarts(m, AtomicEntry(value));
    LambdaCallWaits(m, value);
    EntryWaits(m, value, State(map[CELL := Number(0), NAP := Closure([], NAP_BODY, map[])], [], false, 0));
  }

  lemma LambdaAccepted(value: Expression)
    requires value == CallOf(NAP, 20)
    ensures var items := [CELL_ITEM, NAP_LAMBDA, AtomicEntry(value)];
      var tally := VisitItems(items, {}, KnownFunctionNames(items), {8});
      !tally.rejected && tally.forces == {}
  {
    NamesDiffer();
    var items := [CELL_ITEM, NAP_LAMBDA, AtomicEntry(value)];
    var known := KnownFunctionNames(items);
    assert items[1] in items && NAP in known;
    NapVisit(Round({}, known, {}, {8}), map[]);
    assert Visit(value, map[], Round({}, known, {}, {8})) == NOTHING;
    AcceptsEntry(NAP_LAMBDA, value, {}, known);
  }

  lemma LambdaCallWaits(m: Machine, value: Expression)
    requires m.mode == Deferred({}) && value == CallOf(NAP, 20)
    ensures var state := State(map[CELL := Number(0), NAP := Closure([], NAP_BODY, map[])], [], true, 0);
      var outcome := Eval(m, value, map[], state, 1);
      outcome.Done? && outcome.state.atomicWaits > 0
  {
    NamesDiffer();
    var closure := Closure([], NAP_BODY, map[]);
    var state := State(map[CELL := Number(0), NAP := closure], [], true, 0);
    assert Eval(m, Identifier(NAP, 20), map[], state, 1) == Done(closure, state);
    assert ReadyAll(m, [], map[], state, 1) == Done([], state);
    NapWaits(m, state);
  }

  lemma LambdaProgramStarts(m: Machine, entry: Item)
    requires m.mode == Deferred({}) && m.atomic == {8} && entry.FunctionDeclaration?
    ensures Functions([CELL_ITEM, NAP_LAMBDA, entry]) == map[entry.name := Function(entry.parameters, entry.body)]
    ensures Initialize(m, [CELL_ITEM, NAP_LAMBDA, entry], 1) ==
      Done(UNIT, State(map[CELL := Number(0), NAP := Closure([], NAP_BODY, map[])], [], false, 0))
  {
    NamesDiffer();
    var a, b := CELL_ITEM, NAP_LAMBDA;
    assert [a, b, entry][..2] == [a, b] && [a, b][..1] == [a] && [a][..0] == [];
    assert Functions([a]) == map[] && Functions([a, b]) == map[];
    assert Initialize(m, [a], 1) == Done(UNIT, State(map[CELL := Number(0)], [], false, 0));
    assert Initialize(m, [a, b], 1)
      == Done(UNIT, State(map[CELL := Number(0), NAP := Closure([], NAP_BODY, map[])], [], false, 0));
  }

  /** The callee is the function the reassignment is in:
      `count = n => n ? < cell := count(0) > : @sleep()`, entered as `count(1)`. */
  const N := Plain("n")
  const COUNT := Plain("count")
  const AGAIN := Call(Identifier(COUNT, 30), [Literal(0, 31)], false, 32)
  const COUNT_BODY := If(Identifier(N, 33), Block(Store(CELL, AGAIN, 8, End), 34), CallOf(At(Sleep), 35), 37)
  const COUNT_FUNCTION := FunctionDeclaration(COUNT, [N], COUNT_BODY)
  const STARTED := Call(Identifier(COUNT, 40), [Literal(1, 41)], false, 42)
  const RECURSIVE: seq<Item> := [CELL_ITEM, COUNT_FUNCTION, FunctionDeclaration(ENTRY, [], STARTED)]

  lemma RecursiveNamesDiffer()
    ensures CELL != COUNT && CELL != N && COUNT != ENTRY && COUNT != N
  {
    assert |CELL.text| == 4 && |COUNT.text| == 5 && |N.text| == 1 && |ENTRY.text| == 1;
  }

  lemma RecursiveAccepted()
    ensures var tally := VisitItems(RECURSIVE, {}, KnownFunctionNames(RECURSIVE), {8});
      !tally.rejected && tally.forces == {}
  {
    var known := KnownFunctionNames(RECURSIVE);
    assert COUNT in known by { assert RECURSIVE[1] in RECURSIVE; }
    ThreeItems(RECURSIVE[0], RECURSIVE[1], RECURSIVE[2], {}, known, {8});
    assert VisitItem(CELL_ITEM, {}, known, {8}, START) == START;
    CountItem(known);
    StartedItem(known, START.(demoted := {CELL}, waiting := {COUNT}));
  }

  lemma CountItem(known: set<Name>)
    requires COUNT in known
    ensures VisitItem(COUNT_FUNCTION, {}, known, {8}, START) == START.(demoted := {CELL}, waiting := {COUNT})
  {
    CountVisit(Round({}, known, {}, {8}));
  }

  lemma StartedItem(known: set<Name>, tally: Tally)
    requires tally == START.(demoted := {CELL}, waiting := {COUNT})
    ensures var after := VisitItem(RECURSIVE[2], {}, known, {8}, tally); !after.rejected && after.forces == {}
  {
    StartedVisit(Round({}, known, {COUNT}, {8}));
  }

  lemma StartedVisit(round: Round)
    requires round.deferredGlobals == {} && round.waiting == {COUNT} && round.atomic == {8}
    ensures Strict(STARTED, map[], round) == NOTHING.(waits := true)
  {
    assert VisitAll([Literal(1, 41)], map[], round) == NOTHING by { assert [Literal(1, 41)][1..] == []; }
  }

  lemma CountVisit(round: Round)
    requires round.deferredGlobals == {} && round.waiting == {} && round.atomic == {8} && COUNT in round.known
    ensures Strict(COUNT_BODY, map[], round) == NOTHING.(demoted := {CELL}, waits := true)
  {
    CountBranchVisit(round);
    assert Visit(COUNT_BODY.else_, map[], round) == NOTHING.(waits := true);
  }

  lemma CountBranchVisit(round: Round)
    requires round.deferredGlobals == {} && round.waiting == {} && round.atomic == {8} && COUNT in round.known
    ensures Visit(COUNT_BODY.then_, map[], round) == NOTHING.(demoted := {CELL})
  {
    assert VisitAll([Literal(0, 31)], map[], round) == NOTHING by { assert [Literal(0, 31)][1..] == []; }
    assert Visit(AGAIN, map[], round) == NOTHING;
    assert VisitStore(CELL, AGAIN, 8, map[], round) == NOTHING.(demoted := {CELL});
    assert VisitBlock(End, map[CELL := false], round) == NOTHING;
  }

  lemma RecursionWaits(reply: nat -> int)
    ensures !VisitItems(RECURSIVE, {}, KnownFunctionNames(RECURSIVE), {8}).rejected
    ensures Run(DeferredMachine(RECURSIVE, {8}, {}, reply), RECURSIVE, 2).state.atomicWaits > 0
  {
    RecursiveAccepted();
    RecursiveNamesDiffer();
    var m := DeferredMachine(RECURSIVE, {8}, {}, reply);
    FunctionsOf(RECURSIVE[0], RECURSIVE[1], RECURSIVE[2]);
    var state := State(map[CELL := Number(0)], [], false, 0);
    assert Initialize(m, [CELL_ITEM], 2) == Done(UNIT, state) by { assert [CELL_ITEM][..0] == []; }
    InitializeOne(m, RECURSIVE[0], RECURSIVE[1], RECURSIVE[2], 2);
    CountOne(m, state);
    CountCall(m, STARTED, 1, map[], state, 2);
  }

  /** A call of `count` on a literal runs its body with that number. */
  lemma CountCall(m: Machine, call: Expression, n: int, environment: Environment, state: State, fuel: nat)
    requires call.Call? && call.function_.Identifier? && call.function_.name == COUNT && !call.memberCall
    requires |call.arguments| == 1 && call.arguments[0].Literal? && call.arguments[0].number == n
    requires m.mode == Deferred({}) && COUNT in m.functions && m.functions[COUNT] == Function([N], COUNT_BODY)
    requires COUNT !in environment && COUNT !in state.globals && fuel > 0
    ensures Raw(m, call, environment, state, fuel) == Ready(m, COUNT_BODY, map[N := Number(n)], state, fuel - 1)
  {
    var closure := Closure([N], COUNT_BODY, map[]);
    assert Raw(m, call.function_, environment, state, fuel) == Done(closure, state);
    var argument := call.arguments[0];
    assert Raw(m, argument, environment, state, fuel) == Done(Number(n), state);
    assert Ready(m, argument, environment, state, fuel) == Done(Number(n), state);
    var rest := call.arguments[1..];
    assert rest == [] && ReadyAll(m, rest, environment, state, fuel) == Done([], state);
    assert [Number(n)] + [] == [Number(n)];
    assert ReadyAll(m, call.arguments, environment, state, fuel) == Done([Number(n)], state);
    assert !CallsPrimitive(call.function_);
    assert Ready(m, call.function_, environment, state, fuel) == Done(closure, state);
    assert Raw(m, call, environment, state, fuel) == Apply(m, closure, [Number(n)], state, fuel - 1);
    var bound := Bound([N], [Number(n)], map[]);
    assert [N][1..] == [] && [Number(n)][1..] == [];
    assert Bound([], [], map[N := Number(n)]) == map[N := Number(n)];
    assert bound == map[N := Number(n)];
    assert Apply(m, closure, [Number(n)], state, fuel - 1) == Ready(m, COUNT_BODY, bound, state, fuel - 1);
  }

  lemma CountStores(m: Machine, state: State)
    requires m.mode == Deferred({}) && m.atomic == {8} && COUNT in m.functions &&
      m.functions[COUNT] == Function([N], COUNT_BODY)
    requires state == State(map[CELL := Number(0)], [], false, 0)
    ensures var outcome := EvalBlock(m, Store(CELL, AGAIN, 8, End), map[N := Number(1)], state, 1);
      outcome.Done? && outcome.state.atomicWaits > 0
  {
    RecursiveNamesDiffer();
    var entered := State(map[CELL := Number(0)], [], true, 0);
    var environment: Environment := map[N := Number(1)];
    CountZero(m, entered);
    CountCall(m, AGAIN, 0, environment, entered, 1);
    var inner := Eval(m, AGAIN, environment, entered, 1);
    var next := Stored(CELL, inner.value, state, inner.state);
    assert EvalBlock(m, End, environment, next, 1) == Done(UNIT, next);
  }

  lemma CountOne(m: Machine, state: State)
    requires m.mode == Deferred({}) && m.atomic == {8} && COUNT in m.functions &&
      m.functions[COUNT] == Function([N], COUNT_BODY)
    requires state == State(map[CELL := Number(0)], [], false, 0)
    ensures Ready(m, COUNT_BODY, map[N := Number(1)], state, 1).state.atomicWaits > 0
  {
    CountStores(m, state);
    var environment: Environment := map[N := Number(1)];
    assert Raw(m, COUNT_BODY.condition, environment, state, 1) == Done(Number(1), state);
    assert Ready(m, COUNT_BODY.condition, environment, state, 1) == Done(Number(1), state);
    assert Raw(m, COUNT_BODY.then_, environment, state, 1)
      == EvalBlock(m, Store(CELL, AGAIN, 8, End), environment, state, 1);
  }

  lemma CountZero(m: Machine, state: State)
    requires m.mode == Deferred({}) && state == State(map[CELL := Number(0)], [], true, 0)
    ensures var outcome := Ready(m, COUNT_BODY, map[N := Number(0)], state, 0);
      outcome.Done? && outcome.state.atomicWaits > 0
  {
    var environment: Environment := map[N := Number(0)];
    var sleep := COUNT_BODY.else_;
    assert ReadyAll(m, [], environment, state, 0) == Done([], state);
    assert Raw(m, sleep, environment, state, 0) == CallPrimitive(m, sleep.function_, [], false, state);
    assert Raw(m, COUNT_BODY.condition, environment, state, 0) == Done(Number(0), state);
  }
}
