/**
 * The all-settled join of a launching block (quilon-rt/src/launch_scope.rs): a map from the
 * running fiber's id to its stack of open scopes, the join at a block's close, and the early
 * join of every open scope when a strict force meets a fault.
 *
 * A launch carries its eventual fate; its number, drawn at registration, stands for its
 * report. A fiber is an id together with the life it is in, because ids are recycled
 * (quilon-rt/src/scheduler.rs). Joins park, so one join is many steps of the machine.
 */
module LaunchScopes {

  datatype Key = Outside | Id(id: nat)
  datatype Fiber = Fiber(key: Key, life: nat)
  datatype Launch = Launch(number: nat, owner: Fiber, faults: bool)

  type Scope = seq<Launch>
  type Scopes = map<Key, seq<Scope>>

  // ---------------------------------------------------------------- the map of scopes

  function StackOf(scopes: Scopes, k: Key): seq<Scope> {
    if k in scopes then scopes[k] else []
  }

  function Entered(scopes: Scopes, k: Key): Scopes { scopes[k := StackOf(scopes, k) + [[]]] }

  /** Only an open scope takes the launch: with none open this changes nothing. */
  function Registered(scopes: Scopes, k: Key, launch: Launch): Scopes {
    var stack := StackOf(scopes, k);
    if stack == [] then scopes
    else scopes[k := stack[..|stack| - 1] + [stack[|stack| - 1] + [launch]]]
  }

  function Popped(scopes: Scopes, k: Key): Scopes {
    var stack := StackOf(scopes, k);
    if |stack| <= 1 then scopes - {k} else scopes[k := stack[..|stack| - 1]]
  }

  /** The scopes' launches, innermost scope first. */
  function Unwound(stack: seq<Scope>): Scope {
    if stack == [] then [] else stack[|stack| - 1] + Unwound(stack[..|stack| - 1])
  }

  function FaultsOf(entries: Scope): seq<nat> {
    if entries == [] then []
    else (if entries[0].faults then [entries[0].number] else []) + FaultsOf(entries[1..])
  }

  /** What a finished join does to the fiber that made it. */
  datatype Verdict = Continues | Exits(reports: seq<nat>) | Unreachable

  function Concluded(faults: seq<nat>, strict: bool): Verdict {
    if faults != [] then Exits(faults) else if strict then Unreachable else Continues
  }

  /** Join every entry, in order. */
  method SettleAll(entries: Scope) returns (faults: seq<nat>)
    ensures faults == FaultsOf(entries)
  {
    faults := [];
    var i := 0;
    while i < |entries|
      invariant 0 <= i <= |entries|
      invariant faults + FaultsOf(entries[i..]) == FaultsOf(entries)
    {
      if entries[i].faults {
        faults := faults + [entries[i].number];
      }
      i := i + 1;
    }
  }

  /** One worker's map, updated in place. A key is present only with an open scope. */
  class Registry {
    var scopes: Scopes

    ghost predicate Valid()
      reads this
    {
      forall k :: k in scopes ==> scopes[k] != []
    }

    constructor ()
      ensures Valid() && scopes == map[]
    {
      scopes := map[];
    }

    method Enter(k: Key)
      requires Valid()
      modifies this
      ensures Valid() && scopes == Entered(old(scopes), k)
    {
      if k !in scopes {
        scopes := scopes[k := []];
      }
      scopes := scopes[k := scopes[k] + [[]]];
    }

    method Register(k: Key, launch: Launch)
      requires Valid()
      modifies this
      ensures Valid() && scopes == Registered(old(scopes), k, launch)
    {
      if k in scopes {
        var stack := scopes[k];
        var top := stack[|stack| - 1];
        scopes := scopes[k := stack[..|stack| - 1] + [top + [launch]]];
      }
    }

    /** Close the innermost scope and settle what it registered. */
    method Join(k: Key) returns (verdict: Verdict)
      requires Valid() && k in scopes
      modifies this
      ensures Valid() && scopes == Popped(old(scopes), k)
      ensures var faults := FaultsOf(old(scopes)[k][|old(scopes)[k]| - 1]);
              verdict == if faults == [] then Continues else Exits(faults)
    {
      var stack := scopes[k];
      var entries := stack[|stack| - 1];
      if |stack| == 1 {
        scopes := scopes - {k};
      } else {
        scopes := scopes[k := stack[..|stack| - 1]];
      }
      var faults := SettleAll(entries);
      verdict := if faults == [] then Continues else Exits(faults);
    }

    /** Settle every open scope of the fiber, innermost first, and report every fault. */
    method FaultCurrentFiber(k: Key, own: nat) returns (verdict: Verdict)
      requires Valid()
      modifies this
      ensures Valid() && scopes == old(scopes) - {k}
      ensures verdict == FaultVerdict(StackOf(old(scopes), k), own)
      ensures verdict.Exits? && k in old(scopes) ==>
                exists places :: ReportsInTurn(old(scopes)[k], places, verdict.reports)
    {
      var faults: seq<nat> := [own];
      if k in scopes {
        var stack := scopes[k];
        scopes := scopes - {k};
        faults := [];
        var i := |stack|;
        assert stack[..i] == stack;
        while i > 0
          invariant 0 <= i <= |stack|
          invariant faults + FaultsOf(Unwound(stack[..i])) == FaultsOf(Unwound(stack))
          invariant scopes == old(scopes) - {k}
        {
          assert stack[..i][..i - 1] == stack[..i - 1];
          FaultsOfJoin(stack[i - 1], Unwound(stack[..i - 1]));
          i := i - 1;
          var more := SettleAll(stack[i]);
          faults := faults + more;
        }
      }
      verdict := if faults == [] then Unreachable else Exits(faults);
      if verdict.Exits? && k in old(scopes) {
        var places := EarlyJoinInTurn(old(scopes)[k], own);
      }
    }
  }

  function FaultVerdict(stack: seq<Scope>, own: nat): Verdict {
    Concluded(if stack == [] then [own] else FaultsOf(Unwound(stack)), true)
  }

  lemma {:induction false} FaultsOfJoin(one: Scope, two: Scope)
    ensures FaultsOf(one + two) == FaultsOf(one) + FaultsOf(two)
    decreases |one|
  {
    if one == [] {
      assert one + two == two;
    } else {
      var head := if one[0].faults then [one[0].number] else [];
      assert (one + two)[0] == one[0] && (one + two)[1..] == one[1..] + two;
      FaultsOfJoin(one[1..], two);
      assert FaultsOf(one + two) == head + (FaultsOf(one[1..]) + FaultsOf(two));
    }
  }

  ghost predicate Ascending(entries: Scope) {
    forall i, j :: 0 <= i < j < |entries| ==> entries[i].number < entries[j].number
  }

  ghost predicate AscendingNumbers(numbers: seq<nat>) {
    forall i, j :: 0 <= i < j < |numbers| ==> numbers[i] < numbers[j]
  }

  /** A join reports exactly the faulted launches, none dropped, none invented. */
  lemma {:induction false} FaultsExactly(entries: Scope, number: nat)
    ensures number in FaultsOf(entries) <==>
            exists l :: l in entries && l.faults && l.number == number
    decreases |entries|
  {
    if entries != [] {
      FaultsExactly(entries[1..], number);
      assert entries == [entries[0]] + entries[1..];
    }
  }

  /** Registered in order, reported in order. */
  lemma {:induction false} FaultsInOrder(entries: Scope)
    requires Ascending(entries)
    ensures AscendingNumbers(FaultsOf(entries))
    decreases |entries|
  {
    if entries != [] {
      FaultsInOrder(entries[1..]);
      forall n | n in FaultsOf(entries[1..]) ensures entries[0].number < n {
        FaultsExactly(entries[1..], n);
        var l :| l in entries[1..] && l.faults && l.number == n;
      }
      var numbers := FaultsOf(entries);
      assert entries[0].faults ==> numbers[1..] == FaultsOf(entries[1..]);
      assert forall j :: 1 <= j < |numbers| && entries[0].faults ==> numbers[j] in numbers[1..];
    }
  }

  lemma {:induction false} IntoUnwound(stack: seq<Scope>, i: nat, launch: Launch)
    requires i < |stack| && launch in stack[i]
    ensures launch in Unwound(stack)
    decreases |stack|
  {
    if i < |stack| - 1 {
      IntoUnwound(stack[..|stack| - 1], i, launch);
    }
  }

  lemma {:induction false} FromUnwound(stack: seq<Scope>, launch: Launch) returns (i: nat)
    requires launch in Unwound(stack)
    ensures i < |stack| && launch in stack[i]
    decreases |stack|
  {
    i := |stack| - 1;
    if launch !in stack[i] {
      i := FromUnwound(stack[..i], launch);
    }
  }

  lemma UnwoundHolds(stack: seq<Scope>, launch: Launch)
    ensures launch in Unwound(stack) <==> exists i :: 0 <= i < |stack| && launch in stack[i]
  {
    if launch in Unwound(stack) {
      var i := FromUnwound(stack, launch);
    }
    forall i: nat | i < |stack| && launch in stack[i] ensures launch in Unwound(stack) {
      IntoUnwound(stack, i, launch);
    }
  }

  /**
   * A strict force of a fault reports exactly the faults of every open scope, so it ends in
   * `unreachable!` exactly when scopes are open and none of their launches faults; the fault
   * that was forced is among the reports exactly when it is registered in one of them (or
   * when no scope is open).
   */
  lemma EarlyJoinExactly(stack: seq<Scope>, own: nat)
    ensures FaultVerdict(stack, own).Unreachable? <==>
            stack != [] && forall i, l :: 0 <= i < |stack| && l in stack[i] ==> !l.faults
    ensures FaultVerdict(stack, own).Exits? && own in FaultVerdict(stack, own).reports <==>
            stack == [] || exists i, l :: 0 <= i < |stack| && l in stack[i] && l.faults && l.number == own
  {
    var all := Unwound(stack);
    FaultsExactly(all, own);
    forall l ensures l in all <==> exists i :: 0 <= i < |stack| && l in stack[i] {
      UnwoundHolds(stack, l);
    }
    if FaultsOf(all) != [] {
      FaultsExactly(all, FaultsOf(all)[0]);
    }
    forall l | l in all && l.faults ensures l.number in FaultsOf(all) {
      FaultsExactly(all, l.number);
    }
  }

  // ---------------------------------------------------------------- the order of an early join

  /** A place in a stack of scopes: which scope, counted from the outermost, and which entry. */
  datatype Place = Place(scope: nat, entry: nat)

  predicate Faulted(stack: seq<Scope>, p: Place) {
    p.scope < |stack| && p.entry < |stack[p.scope]| && stack[p.scope][p.entry].faults
  }

  /** Inner scopes come first, and within one scope what was registered first. */
  predicate Earlier(p: Place, q: Place) {
    p.scope > q.scope || (p.scope == q.scope && p.entry < q.entry)
  }

  ghost predicate InTurn(places: seq<Place>) {
    forall a, b :: 0 <= a < b < |places| ==> Earlier(places[a], places[b])
  }

  /** `reports` are the faulted launches of the stack, one each, inner scopes first. */
  ghost predicate ReportsInTurn(stack: seq<Scope>, places: seq<Place>, reports: seq<nat>) {
    && (forall p :: p in places <==> Faulted(stack, p))
    && InTurn(places) && |reports| == |places|
    && forall a :: 0 <= a < |places| ==>
         Faulted(stack, places[a]) && reports[a] == stack[places[a].scope][places[a].entry].number
  }

  ghost predicate ScopeInTurn(entries: Scope, scope: nat, places: seq<Place>, reports: seq<nat>) {
    && (forall p :: p in places <==> p.scope == scope && p.entry < |entries| && entries[p.entry].faults)
    && InTurn(places) && |reports| == |places|
    && forall a :: 0 <= a < |places| ==>
         places[a].entry < |entries| && reports[a] == entries[places[a].entry].number
  }

  lemma {:induction false} ScopePlaces(entries: Scope, scope: nat) returns (places: seq<Place>)
    ensures ScopeInTurn(entries, scope, places, FaultsOf(entries))
    decreases |entries|
  {
    places := [];
    if entries != [] {
      var front, last := entries[..|entries| - 1], entries[|entries| - 1];
      assert entries == front + [last];
      FaultsOfJoin(front, [last]);
      places := ScopePlaces(front, scope);
      if last.faults {
        assert FaultsOf([last]) == [last.number];
        PlacesGrow(front, last, scope, places, FaultsOf(front));
        places := places + [Place(scope, |front|)];
      } else {
        assert FaultsOf([last]) == [];
        PlacesStay(front, last, scope, places, FaultsOf(front));
      }
    }
  }

  lemma PlacesStay(front: Scope, last: Launch, scope: nat, places: seq<Place>, reports: seq<nat>)
    requires ScopeInTurn(front, scope, places, reports) && !last.faults
    ensures ScopeInTurn(front + [last], scope, places, reports)
  {
  }

  lemma PlacesGrow(front: Scope, last: Launch, scope: nat, places: seq<Place>, reports: seq<nat>)
    requires ScopeInTurn(front, scope, places, reports) && last.faults
    ensures ScopeInTurn(front + [last], scope, places + [Place(scope, |front|)], reports + [last.number])
  {
    forall a | 0 <= a < |places| ensures places[a].scope == scope && places[a].entry < |front| {
      assert places[a] in places;
    }
  }

  /**
   * A strict force of a fault reports the faults of every open scope, each as often as it is
   * registered: inner scopes before outer ones, and registration order within one.
   */
  lemma EarlyJoinInTurn(stack: seq<Scope>, own: nat) returns (places: seq<Place>)
    requires FaultVerdict(stack, own).Exits? && stack != []
    ensures ReportsInTurn(stack, places, FaultVerdict(stack, own).reports)
  {
    places := UnwoundPlaces(stack);
  }

  lemma {:induction false} UnwoundPlaces(stack: seq<Scope>) returns (places: seq<Place>)
    ensures ReportsInTurn(stack, places, FaultsOf(Unwound(stack)))
    decreases |stack|
  {
    places := [];
    if stack != [] {
      var below, top := stack[..|stack| - 1], stack[|stack| - 1];
      var inner := ScopePlaces(top, |below|);
      var outer := UnwoundPlaces(below);
      FaultsOfJoin(top, Unwound(below));
      places := inner + outer;
      PlacesJoin(below, top, inner, outer, FaultsOf(top), FaultsOf(Unwound(below)));
      assert stack == below + [top];
    }
  }

  lemma PlacesJoin(below: seq<Scope>, top: Scope, inner: seq<Place>, outer: seq<Place>,
                   faults: seq<nat>, reports: seq<nat>)
    requires ScopeInTurn(top, |below|, inner, faults) && ReportsInTurn(below, outer, reports)
    ensures ReportsInTurn(below + [top], inner + outer, faults + reports)
  {
    forall a | 0 <= a < |inner| ensures inner[a].scope == |below| && Faulted(below + [top], inner[a]) {
      assert inner[a] in inner;
    }
    forall a, b | 0 <= a < |inner| && 0 <= b < |outer| ensures Earlier(inner[a], outer[b]) {
      assert inner[a].scope == |below| > outer[b].scope;
    }
  }

  lemma FirstRegistered(scopes: Scopes, k: Key, launch: Launch)
    requires k !in scopes
    ensures Registered(Entered(scopes, k), k, launch) == scopes[k := [[launch]]]
  {
    var stack: seq<Scope> := [[]];
    assert StackOf(Entered(scopes, k), k) == stack;
    assert stack[|stack| - 1] + [launch] == [launch];
    assert stack[..|stack| - 1] + [stack[|stack| - 1] + [launch]] == [[launch]];
  }

  /**
   * The claim at launch_scope.rs:133 fails: a guarded body runs on a fiber of its own, so a
   * fault launched outside it is not in its scopes. With one healthy launch of its own open,
   * forcing the outer fault ends in `unreachable!`, and no report is made at all.
   */
  lemma NestedGuardLosesTheFault(outer: Fiber, inner: Fiber)
    requires outer.key != inner.key
    ensures var failed := Launch(0, outer, true);
            var healthy := Launch(1, inner, false);
            var scopes := Registered(Entered(Registered(Entered(map[], outer.key), outer.key, failed),
                                             inner.key), inner.key, healthy);
            && StackOf(scopes, outer.key) == [[failed]]
            && FaultVerdict(StackOf(scopes, inner.key), failed.number) == Unreachable
  {
    var failed, healthy := Launch(0, outer, true), Launch(1, inner, false);
    FirstRegistered(map[], outer.key, failed);
    FirstRegistered(map[outer.key := [[failed]]], inner.key, healthy);
    assert Unwound([[healthy]]) == [healthy];
    assert FaultsOf([healthy]) == [];
  }

  // ---------------------------------------------------------------- interleaved fibers

  /** A join under way: its entries, how many are settled, and whether a force began it. */
  datatype Joining = Idle | Joining(entries: Scope, done: nat, strict: bool)

  datatype Settlement = Settlement(actor: Fiber, launch: Launch)

  datatype World = World(
    scopes: Scopes,
    joining: map<Key, Joining>,
    lives: map<Key, nat>,
    issued: set<Launch>,
    next: nat,
    log: seq<Settlement>)

  datatype Step =
    | Enter(k: Key)
    | Start(k: Key, faults: bool)
    | Close(k: Key)
    | ForceFault(k: Key)
    | Settle(k: Key)
    | Conclude(k: Key)
    | Finish(k: Key)
    | Abandon(k: Key)

  function JoiningOf(w: World, k: Key): Joining { if k in w.joining then w.joining[k] else Idle }

  function FiberOf(w: World, k: Key): Fiber { Fiber(k, if k in w.lives then w.lives[k] else 0) }

  /**
   * A fiber finishes only after closing its blocks. It is abandoned where an abort marker
   * force-resets its coroutine, between two steps of its own; its scopes stay in the map and
   * its id goes to the next fiber.
   */
  predicate Enabled(w: World, s: Step) {
    match s
    case Enter(k) => JoiningOf(w, k).Idle?
    case Start(k, _) => JoiningOf(w, k).Idle?
    case Close(k) => JoiningOf(w, k).Idle? && k in w.scopes
    case ForceFault(k) => JoiningOf(w, k).Idle? && k in w.scopes
    case Settle(k) => JoiningOf(w, k).Joining? && JoiningOf(w, k).done < |JoiningOf(w, k).entries|
    case Conclude(k) =>
      var j := JoiningOf(w, k);
      j.Joining? && j.done == |j.entries| && Concluded(FaultsOf(j.entries), j.strict).Continues?
    case Finish(k) => JoiningOf(w, k).Idle? && k !in w.scopes
    case Abandon(k) => JoiningOf(w, k).Idle?
                       || JoiningOf(w, k).done == |JoiningOf(w, k).entries|
  }

  function After(w: World, s: Step): World
    requires Enabled(w, s)
  {
    match s
    case Enter(k) => w.(scopes := Entered(w.scopes, k))
    case Start(k, faults) =>
      var launch := Launch(w.next, FiberOf(w, k), faults);
      if StackOf(w.scopes, k) == [] then w else Started(w, k, launch)
    case Close(k) =>
      var stack := StackOf(w.scopes, k);
      var entries := if stack == [] then [] else stack[|stack| - 1];
      w.(scopes := Popped(w.scopes, k), joining := w.joining[k := Joining(entries, 0, false)])
    case ForceFault(k) =>
      w.(scopes := w.scopes - {k},
         joining := w.joining[k := Joining(Unwound(StackOf(w.scopes, k)), 0, true)])
    case Settle(k) => Settled(w, k)
    case Conclude(k) => w.(joining := w.joining - {k})
    case Finish(k) => Ended(w, k)
    case Abandon(k) => Ended(w, k)
  }

  function Settled(w: World, k: Key): World
    requires Enabled(w, Settle(k))
  {
    var j := w.joining[k];
    w.(joining := w.joining[k := j.(done := j.done + 1)],
       log := w.log + [Settlement(FiberOf(w, k), j.entries[j.done])])
  }

  /** The id starts another life; no join of the old one is left. */
  function Ended(w: World, k: Key): World {
    w.(joining := w.joining - {k}, lives := w.lives[k := FiberOf(w, k).life + 1])
  }

  function Started(w: World, k: Key, launch: Launch): World {
    w.(scopes := Registered(w.scopes, k, launch), issued := w.issued + {launch}, next := w.next + 1)
  }

  /** The launches a fiber's id still has to settle, with multiplicity. */
  function Owed(w: World, k: Key): multiset<Launch> {
    multiset(Unwound(StackOf(w.scopes, k))) + OwedByJoin(JoiningOf(w, k))
  }

  function OwedByJoin(j: Joining): multiset<Launch> {
    if j.Idle? || j.done > |j.entries| then multiset{} else multiset(j.entries[j.done..])
  }

  function Logged(log: seq<Settlement>): multiset<Launch> {
    if log == [] then multiset{} else Logged(log[..|log| - 1]) + multiset{log[|log| - 1].launch}
  }

  /** Every launch is owed by its own fiber or settled by it: one of the two, and once. */
  ghost predicate Ledger(owed: Key -> multiset<Launch>, running: Key -> Fiber, issued: set<Launch>,
                         log: seq<Settlement>)
  {
    && (forall l :: l in issued ==> owed(l.owner.key)[l] + Logged(log)[l] == 1)
    && (forall k, l :: l in owed(k) ==> l in issued && l.owner == running(k))
    && SettledByOwner(log, issued)
  }

  ghost predicate SettledByOwner(log: seq<Settlement>, issued: set<Launch>) {
    forall i :: 0 <= i < |log| ==> log[i].actor == log[i].launch.owner && log[i].launch in issued
  }

  ghost predicate Balanced(w: World) {
    Ledger(k => Owed(w, k), k => FiberOf(w, k), w.issued, w.log)
  }

  ghost predicate Numbered(issued: set<Launch>, next: nat) {
    forall l :: l in issued ==> l.number < next
  }

  ghost predicate InOrder(scopes: Scopes, joining: map<Key, Joining>) {
    && (forall k, i :: k in scopes && 0 <= i < |scopes[k]| ==> Ascending(scopes[k][i]))
    && (forall k :: k in joining && joining[k].Joining? && !joining[k].strict
                    ==> Ascending(joining[k].entries))
  }

  ghost predicate Shaped(scopes: Scopes, joining: map<Key, Joining>) {
    && (forall k :: k in scopes ==> scopes[k] != [])
    && (forall k :: k in joining ==> joining[k].Joining? && joining[k].done <= |joining[k].entries|)
  }

  ghost predicate Inv(w: World) {
    Shaped(w.scopes, w.joining) && Numbered(w.issued, w.next) && InOrder(w.scopes, w.joining) && Balanced(w)
  }

  lemma UnwoundPush(stack: seq<Scope>, scope: Scope)
    ensures Unwound(stack + [scope]) == scope + Unwound(stack)
  {
    assert (stack + [scope])[..|stack|] == stack;
  }

  /** What one step does to the debts: nothing, one new debt, or one debt paid. */
  lemma EnterOwes(w: World, k: Key)
    requires Shaped(w.scopes, w.joining)
    ensures var v := w.(scopes := Entered(w.scopes, k));
            forall m :: Owed(v, m) == Owed(w, m)
  {
    UnwoundPush(StackOf(w.scopes, k), []);
    var v := w.(scopes := Entered(w.scopes, k));
    assert [] + Unwound(StackOf(w.scopes, k)) == Unwound(StackOf(w.scopes, k));
    forall m ensures Owed(v, m) == Owed(w, m) {
      if m == k {
        assert StackOf(v.scopes, k) == StackOf(w.scopes, k) + [[]];
      }
    }
  }

  lemma StartOwes(w: World, k: Key, launch: Launch)
    requires Shaped(w.scopes, w.joining) && StackOf(w.scopes, k) != []
    ensures var v := Registered(w.scopes, k, launch);
            && (forall m :: m != k ==> StackOf(v, m) == StackOf(w.scopes, m))
            && multiset(Unwound(StackOf(v, k)))
               == multiset(Unwound(StackOf(w.scopes, k))) + multiset{launch}
  {
    var stack := StackOf(w.scopes, k);
    var below, top := stack[..|stack| - 1], stack[|stack| - 1];
    assert stack == below + [top];
    UnwoundPush(below, top);
    UnwoundPush(below, top + [launch]);
  }

  lemma PoppedStacks(scopes: Scopes, k: Key)
    requires k in scopes && scopes[k] != []
    ensures StackOf(Popped(scopes, k), k) == scopes[k][..|scopes[k]| - 1]
    ensures forall m :: m != k ==> StackOf(Popped(scopes, k), m) == StackOf(scopes, m)
  {
  }

  lemma JoinOwes(entries: Scope, strict: bool)
    ensures OwedByJoin(Joining(entries, 0, strict)) == multiset(entries)
  {
    assert entries[0..] == entries;
  }

  lemma CloseOwes(w: World, k: Key)
    requires Shaped(w.scopes, w.joining) && Enabled(w, Close(k))
    ensures forall m :: Owed(After(w, Close(k)), m) == Owed(w, m)
  {
    var v, stack := After(w, Close(k)), w.scopes[k];
    PoppedStacks(w.scopes, k);
    JoinOwes(stack[|stack| - 1], false);
    assert multiset(Unwound(stack)) == multiset(stack[|stack| - 1]) + multiset(Unwound(stack[..|stack| - 1]));
    forall m ensures Owed(v, m) == Owed(w, m) {
      assert m != k ==> JoiningOf(v, m) == JoiningOf(w, m);
    }
  }

  lemma ForceOwes(w: World, k: Key)
    requires Shaped(w.scopes, w.joining) && Enabled(w, ForceFault(k))
    ensures forall m :: Owed(After(w, ForceFault(k)), m) == Owed(w, m)
  {
    var v := After(w, ForceFault(k));
    JoinOwes(Unwound(StackOf(w.scopes, k)), true);
    forall m ensures Owed(v, m) == Owed(w, m) {
      assert m != k ==> StackOf(v.scopes, m) == StackOf(w.scopes, m) && JoiningOf(v, m) == JoiningOf(w, m);
    }
  }

  lemma SettleOwes(w: World, k: Key)
    requires Shaped(w.scopes, w.joining) && Enabled(w, Settle(k))
    ensures var j := w.joining[k];
            && (forall m :: m != k ==> Owed(Settled(w, k), m) == Owed(w, m))
            && Owed(w, k) == Owed(Settled(w, k), k) + multiset{j.entries[j.done]}
            && Logged(Settled(w, k).log) == Logged(w.log) + multiset{j.entries[j.done]}
  {
    var j, v := w.joining[k], Settled(w, k);
    assert j.entries[j.done..] == [j.entries[j.done]] + j.entries[j.done + 1..];
    assert v.log[..|v.log| - 1] == w.log;
  }

  lemma BalanceKept(w: World, v: World)
    requires Balanced(w) && v.issued == w.issued && v.log == w.log
    requires forall k :: Owed(v, k) == Owed(w, k)
    requires forall k :: FiberOf(v, k) == FiberOf(w, k)
    ensures Balanced(v)
  {
    LedgerKept(k => Owed(w, k), k => FiberOf(w, k), k => Owed(v, k), k => FiberOf(v, k), w.issued, w.log);
  }

  lemma LedgerKept(owed: Key -> multiset<Launch>, running: Key -> Fiber,
                   owed': Key -> multiset<Launch>, running': Key -> Fiber,
                   issued: set<Launch>, log: seq<Settlement>)
    requires Ledger(owed, running, issued, log)
    requires forall k :: owed'(k) == owed(k)
    requires forall k :: owed(k) == multiset{} || running'(k) == running(k)
    ensures Ledger(owed', running', issued, log)
  {
    forall l | l in issued ensures owed'(l.owner.key)[l] + Logged(log)[l] == 1 {
      assert owed'(l.owner.key) == owed(l.owner.key);
    }
  }

  lemma LedgerGrows(owed: Key -> multiset<Launch>, running: Key -> Fiber,
                    owed': Key -> multiset<Launch>, issued: set<Launch>, log: seq<Settlement>,
                    k: Key, launch: Launch)
    requires Ledger(owed, running, issued, log)
    requires launch !in issued && launch.owner == running(k) && running(k).key == k
    requires owed'(k) == owed(k) + multiset{launch}
    requires forall m :: m != k ==> owed'(m) == owed(m)
    ensures Ledger(owed', running, issued + {launch}, log)
  {
    if launch in Logged(log) {
      LoggedIsIssued(log, issued, launch);
    }
    assert launch !in owed(k);
    forall l | l in issued ensures owed'(l.owner.key)[l] + Logged(log)[l] == 1 {
      assert owed'(l.owner.key)[l] == owed(l.owner.key)[l];
    }
  }

  lemma LedgerPays(owed: Key -> multiset<Launch>, running: Key -> Fiber,
                   owed': Key -> multiset<Launch>, issued: set<Launch>, log: seq<Settlement>,
                   k: Key, paid: Launch)
    requires Ledger(owed, running, issued, log)
    requires owed(k) == owed'(k) + multiset{paid}
    requires running(k).key == k
    requires forall m :: m != k ==> owed'(m) == owed(m)
    ensures Ledger(owed', running, issued, log + [Settlement(running(k), paid)])
  {
    var longer := log + [Settlement(running(k), paid)];
    assert longer[..|longer| - 1] == log;
    assert paid in owed(k);
    forall l | l in issued ensures owed'(l.owner.key)[l] + Logged(longer)[l] == 1 {
      assert l.owner.key != k ==> owed'(l.owner.key)[l] == owed(l.owner.key)[l];
    }
    forall m, l | l in owed'(m) ensures l in issued && l.owner == running(m) {
      assert l in owed(m);
    }
  }

  lemma EnterKeeps(w: World, k: Key)
    requires Inv(w) && Enabled(w, Enter(k))
    ensures Inv(After(w, Enter(k)))
  {
    EnterOwes(w, k);
    BalanceKept(w, After(w, Enter(k)));
  }

  lemma CloseShaped(w: World, k: Key)
    requires Shaped(w.scopes, w.joining) && InOrder(w.scopes, w.joining) && Enabled(w, Close(k))
    ensures var v := After(w, Close(k)); Shaped(v.scopes, v.joining) && InOrder(v.scopes, v.joining)
  {
    var v := After(w, Close(k));
    var stack := w.scopes[k];
    assert Ascending(stack[|stack| - 1]);
    forall m, i | m in v.scopes && 0 <= i < |v.scopes[m]| ensures Ascending(v.scopes[m][i]) {
      assert v.scopes[m][i] == w.scopes[m][i];
    }
  }

  lemma CloseKeeps(w: World, k: Key)
    requires Inv(w) && Enabled(w, Close(k))
    ensures Inv(After(w, Close(k)))
  {
    CloseShaped(w, k);
    CloseOwes(w, k);
    BalanceKept(w, After(w, Close(k)));
  }

  lemma ForceKeeps(w: World, k: Key)
    requires Inv(w) && Enabled(w, ForceFault(k))
    ensures Inv(After(w, ForceFault(k)))
  {
    ForceOwes(w, k);
    BalanceKept(w, After(w, ForceFault(k)));
  }

  lemma {:induction false} LoggedIsIssued(log: seq<Settlement>, issued: set<Launch>, launch: Launch)
    requires SettledByOwner(log, issued) && launch in Logged(log)
    ensures launch in issued
    decreases |log|
  {
    if launch in Logged(log[..|log| - 1]) {
      LoggedIsIssued(log[..|log| - 1], issued, launch);
    }
  }

  lemma StartBalances(w: World, v: World, k: Key, launch: Launch)
    requires Balanced(w) && launch !in w.issued && launch.owner == FiberOf(w, k)
    requires v.issued == w.issued + {launch} && v.log == w.log && v.lives == w.lives
    requires Owed(v, k) == Owed(w, k) + multiset{launch}
    requires forall m :: m != k ==> Owed(v, m) == Owed(w, m)
    ensures Balanced(v)
  {
    LedgerGrows(m => Owed(w, m), m => FiberOf(w, m), m => Owed(v, m), w.issued, w.log, k, launch);
    LedgerKept(m => Owed(v, m), m => FiberOf(w, m), m => Owed(v, m), m => FiberOf(v, m), v.issued, v.log);
  }

  lemma StartKeeps(w: World, k: Key, faults: bool)
    requires Inv(w) && Enabled(w, Start(k, faults))
    ensures Inv(After(w, Start(k, faults)))
  {
    if StackOf(w.scopes, k) != [] {
      TakeOn(w, k, Launch(w.next, FiberOf(w, k), faults));
    }
  }

  lemma TakeOn(w: World, k: Key, launch: Launch)
    requires Inv(w) && StackOf(w.scopes, k) != []
    requires launch.number == w.next && launch.owner == FiberOf(w, k)
    ensures Inv(Started(w, k, launch))
  {
    var v := Started(w, k, launch);
    assert launch !in w.issued;
    StartDebts(w, v, k, launch);
    StartBalances(w, v, k, launch);
    TopIsOlder(w, k);
    StartInOrder(w, k, launch);
  }

  lemma StartDebts(w: World, v: World, k: Key, launch: Launch)
    requires Shaped(w.scopes, w.joining) && StackOf(w.scopes, k) != []
    requires v.scopes == Registered(w.scopes, k, launch) && v.joining == w.joining
    ensures Owed(v, k) == Owed(w, k) + multiset{launch}
    ensures forall m :: m != k ==> Owed(v, m) == Owed(w, m)
  {
    StartOwes(w, k, launch);
  }

  lemma TopIsOlder(w: World, k: Key)
    requires Numbered(w.issued, w.next) && Balanced(w) && k in w.scopes && w.scopes[k] != []
    ensures forall l :: l in w.scopes[k][|w.scopes[k]| - 1] ==> l.number < w.next
  {
    var stack := w.scopes[k];
    var owed := m => Owed(w, m);
    forall l: Launch | l in stack[|stack| - 1] ensures l.number < w.next {
      UnwoundHolds(stack, l);
      assert l in owed(k);
    }
  }

  lemma StartInOrder(w: World, k: Key, launch: Launch)
    requires InOrder(w.scopes, w.joining) && StackOf(w.scopes, k) != []
    requires forall l :: l in w.scopes[k][|w.scopes[k]| - 1] ==> l.number < launch.number
    ensures InOrder(Registered(w.scopes, k, launch), w.joining)
  {
    var stack := w.scopes[k];
    var below, top := stack[..|stack| - 1], stack[|stack| - 1];
    assert Ascending(top);
    assert Ascending(top + [launch]);
    var scopes := Registered(w.scopes, k, launch);
    forall m, i | m in scopes && 0 <= i < |scopes[m]| ensures Ascending(scopes[m][i]) {
      assert m != k || i < |below| ==> scopes[m][i] == w.scopes[m][i];
    }
  }

  lemma SettleBalances(w: World, v: World, k: Key, paid: Launch)
    requires Balanced(w) && v.issued == w.issued && v.lives == w.lives
    requires v.log == w.log + [Settlement(FiberOf(w, k), paid)]
    requires Owed(w, k) == Owed(v, k) + multiset{paid}
    requires forall m :: m != k ==> Owed(v, m) == Owed(w, m)
    ensures Balanced(v)
  {
    LedgerPays(m => Owed(w, m), m => FiberOf(w, m), m => Owed(v, m), w.issued, w.log, k, paid);
    LedgerKept(m => Owed(v, m), m => FiberOf(w, m), m => Owed(v, m), m => FiberOf(v, m), v.issued, v.log);
  }

  lemma SettleShaped(w: World, k: Key)
    requires Enabled(w, Settle(k)) && Shaped(w.scopes, w.joining) && InOrder(w.scopes, w.joining)
    ensures Shaped(w.scopes, Settled(w, k).joining) && InOrder(w.scopes, Settled(w, k).joining)
  {
  }

  lemma SettleKeeps(w: World, k: Key)
    requires Inv(w) && Enabled(w, Settle(k))
    ensures Inv(Settled(w, k))
  {
    SettleShaped(w, k);
    SettleOwes(w, k);
    SettleBalances(w, Settled(w, k), k, w.joining[k].entries[w.joining[k].done]);
  }

  lemma EndOwes(w: World, k: Key)
    requires Shaped(w.scopes, w.joining) && OwedByJoin(JoiningOf(w, k)) == multiset{}
    ensures forall m :: Owed(Ended(w, k), m) == Owed(w, m)
    ensures forall m :: m != k ==> FiberOf(Ended(w, k), m) == FiberOf(w, m)
  {
    var v := Ended(w, k);
    forall m ensures Owed(v, m) == Owed(w, m) {
      assert m != k ==> JoiningOf(v, m) == JoiningOf(w, m);
    }
  }

  /** A fiber that owes nothing may end, and its id may be reused. */
  lemma EndKeeps(w: World, k: Key)
    requires Inv(w) && OwedByJoin(JoiningOf(w, k)) == multiset{}
    requires Unwound(StackOf(w.scopes, k)) == []
    ensures Inv(Ended(w, k))
  {
    var v := Ended(w, k);
    EndOwes(w, k);
    assert Owed(w, k) == multiset{};
    LedgerKept(m => Owed(w, m), m => FiberOf(w, m), m => Owed(v, m), m => FiberOf(v, m), v.issued, v.log);
  }

  lemma ConcludeKeeps(w: World, k: Key)
    requires Inv(w) && Enabled(w, Conclude(k))
    ensures Inv(After(w, Conclude(k)))
  {
    var v := After(w, Conclude(k));
    forall m ensures Owed(v, m) == Owed(w, m) {
      assert m != k ==> JoiningOf(v, m) == JoiningOf(w, m);
    }
    BalanceKept(w, v);
  }

  /** Abandoning a fiber is harmless exactly when it has no launch registered and open. */
  lemma AbandonKeepsExactly(w: World, k: Key)
    requires Inv(w) && Enabled(w, Abandon(k))
    ensures Inv(After(w, Abandon(k))) <==> Unwound(StackOf(w.scopes, k)) == []
  {
    assert OwedByJoin(JoiningOf(w, k)) == multiset{};
    assert After(w, Abandon(k)) == Ended(w, k);
    if Unwound(StackOf(w.scopes, k)) == [] {
      EndKeeps(w, k);
    } else {
      StaleScopeUnbalances(w, k);
    }
  }

  lemma StaleScopeUnbalances(w: World, k: Key)
    requires Inv(w) && OwedByJoin(JoiningOf(w, k)) == multiset{}
    requires Unwound(StackOf(w.scopes, k)) != []
    ensures !Balanced(Ended(w, k))
  {
    EndOwes(w, k);
    var v, stale := Ended(w, k), Unwound(StackOf(w.scopes, k))[0];
    var owed, running := m => Owed(w, m), m => FiberOf(w, m);
    assert stale in owed(k) && stale.owner == running(k);
    var owed', running' := m => Owed(v, m), m => FiberOf(v, m);
    assert stale in owed'(k) && stale.owner != running'(k);
  }

  lemma StepKeeps(w: World, s: Step)
    requires Inv(w) && Enabled(w, s)
    requires s.Abandon? ==> Unwound(StackOf(w.scopes, s.k)) == []
    ensures Inv(After(w, s))
  {
    match s
    case Enter(k) => EnterKeeps(w, k);
    case Start(k, faults) => StartKeeps(w, k, faults);
    case Close(k) => CloseKeeps(w, k);
    case ForceFault(k) => ForceKeeps(w, k);
    case Settle(k) => SettleKeeps(w, k);
    case Conclude(k) => ConcludeKeeps(w, k);
    case Finish(k) => EndKeeps(w, k);
    case Abandon(k) => AbandonKeepsExactly(w, k);
  }

  /** A run in which no fiber is abandoned with a launch still open. */
  predicate Runs(w: World, steps: seq<Step>)
    decreases |steps|
  {
    steps == [] ||
    (&& Enabled(w, steps[0])
     && (steps[0].Abandon? ==> Unwound(StackOf(w.scopes, steps[0].k)) == [])
     && Runs(After(w, steps[0]), steps[1..]))
  }

  function AfterAll(w: World, steps: seq<Step>): World
    requires Runs(w, steps)
    decreases |steps|
  {
    if steps == [] then w else AfterAll(After(w, steps[0]), steps[1..])
  }

  const Fresh: World := World(map[], map[], map[], {}, 0, [])

  lemma FreshBalances()
    ensures Inv(Fresh)
  {
    assert forall k :: Owed(Fresh, k) == multiset{};
  }

  lemma {:induction false} RunKeeps(w: World, steps: seq<Step>)
    requires Inv(w) && Runs(w, steps)
    ensures Inv(AfterAll(w, steps))
    decreases |steps|
  {
    if steps != [] {
      StepKeeps(w, steps[0]);
      RunKeeps(After(w, steps[0]), steps[1..]);
    }
  }

  /**
   * Over every interleaving: a registered launch is settled at most once and only by the
   * fiber that launched it, while it is unsettled that fiber still owes it, and a fiber with
   * no open scope and no join under way has had every launch of its own settled.
   */
  lemma EveryLaunchSettledOnce(steps: seq<Step>, launch: Launch)
    requires Runs(Fresh, steps) && launch in AfterAll(Fresh, steps).issued
    ensures var w := AfterAll(Fresh, steps);
            && Logged(w.log)[launch] + Owed(w, launch.owner.key)[launch] == 1
            && (forall i :: 0 <= i < |w.log| && w.log[i].launch == launch ==> w.log[i].actor == launch.owner)
            && (launch.owner.key !in w.scopes && JoiningOf(w, launch.owner.key).Idle?
                ==> Logged(w.log)[launch] == 1)
            && (launch.owner != FiberOf(w, launch.owner.key) ==> Logged(w.log)[launch] == 1)
  {
    FreshBalances();
    RunKeeps(Fresh, steps);
    var w := AfterAll(Fresh, steps);
    SettledOnce(w, launch);
  }

  lemma SettledOnce(w: World, launch: Launch)
    requires Inv(w) && launch in w.issued
    ensures Logged(w.log)[launch] + Owed(w, launch.owner.key)[launch] == 1
    ensures forall i :: 0 <= i < |w.log| && w.log[i].launch == launch ==> w.log[i].actor == launch.owner
    ensures launch.owner.key !in w.scopes && JoiningOf(w, launch.owner.key).Idle?
            ==> Logged(w.log)[launch] == 1
    ensures launch.owner != FiberOf(w, launch.owner.key) ==> Logged(w.log)[launch] == 1
  {
    var owed, running := k => Owed(w, k), k => FiberOf(w, k);
    assert Ledger(owed, running, w.issued, w.log);
    assert owed(launch.owner.key)[launch] + Logged(w.log)[launch] == 1;
    assert launch in owed(launch.owner.key) ==> launch.owner == running(launch.owner.key);
  }

  /** The faults a block's own close reports are in registration order. */
  lemma JoinReportsInOrder(steps: seq<Step>, k: Key)
    requires Runs(Fresh, steps)
    requires JoiningOf(AfterAll(Fresh, steps), k).Joining? && !JoiningOf(AfterAll(Fresh, steps), k).strict
    ensures AscendingNumbers(FaultsOf(JoiningOf(AfterAll(Fresh, steps), k).entries))
  {
    FreshBalances();
    RunKeeps(Fresh, steps);
    FaultsInOrder(JoiningOf(AfterAll(Fresh, steps), k).entries);
  }

  // ---------------------------------------------------------------- which scope settles a launch

  /**
   * What the steps alone say: scopes are numbered as they open, `open` has each id's open ones,
   * innermost last, `home` is the scope that was innermost when a launch was made, and `left`
   * has the scopes that an id's latest join took over.
   */
  datatype Shadow = Shadow(open: map<Key, seq<nat>>, home: map<nat, nat>, left: map<Key, seq<nat>>,
                           scopes: nat, launches: nat)

  const NoScope: Shadow := Shadow(map[], map[], map[], 0, 0)

  function OpenOf(h: Shadow, k: Key): seq<nat> { if k in h.open then h.open[k] else [] }

  function LeftOf(h: Shadow, k: Key): seq<nat> { if k in h.left then h.left[k] else [] }

  function Follow(h: Shadow, s: Step): Shadow {
    match s
    case Enter(k) => h.(open := h.open[k := OpenOf(h, k) + [h.scopes]], scopes := h.scopes + 1)
    case Start(k, _) =>
      var ids := OpenOf(h, k);
      if ids == [] then h
      else h.(home := h.home[h.launches := ids[|ids| - 1]], launches := h.launches + 1)
    case Close(k) =>
      var ids := OpenOf(h, k);
      if ids == [] then h
      else h.(open := h.open[k := ids[..|ids| - 1]], left := h.left[k := [ids[|ids| - 1]]])
    case ForceFault(k) => h.(open := h.open[k := []], left := h.left[k := OpenOf(h, k)])
    case _ => h
  }

  function FollowAll(h: Shadow, steps: seq<Step>): Shadow
    decreases |steps|
  {
    if steps == [] then h else FollowAll(Follow(h, steps[0]), steps[1..])
  }

  predicate MadeIn(home: map<nat, nat>, l: Launch, ids: seq<nat>) {
    l.number in home && home[l.number] in ids
  }

  /** The launches made while one of these scopes was the innermost, and no others. */
  ghost predicate Holds(entries: Scope, issued: set<Launch>, home: map<nat, nat>, ids: seq<nat>) {
    forall l :: l in entries <==> l in issued && MadeIn(home, l, ids)
  }

  ghost predicate StackHolds(stack: seq<Scope>, issued: set<Launch>, home: map<nat, nat>, ids: seq<nat>) {
    && |stack| == |ids|
    && forall i :: 0 <= i < |stack| ==> Holds(stack[i], issued, home, [ids[i]])
  }

  ghost predicate Homed(w: World, h: Shadow) {
    && (forall k :: StackHolds(StackOf(w.scopes, k), w.issued, h.home, OpenOf(h, k)))
    && (forall k :: JoiningOf(w, k).Joining? ==>
          Holds(JoiningOf(w, k).entries, w.issued, h.home, LeftOf(h, k)))
  }

  ghost predicate OpenAt(h: Shadow, k: Key, i: int, id: int) {
    0 <= i < |OpenOf(h, k)| && OpenOf(h, k)[i] == id
  }

  /** A scope's number is its own, and it is not open once a join took it over. */
  ghost predicate Apart(h: Shadow) {
    && (forall k, i, id :: OpenAt(h, k, i, id) ==> id < h.scopes)
    && (forall k, i, m, j, id :: OpenAt(h, k, i, id) && OpenAt(h, m, j, id) ==> k == m && i == j)
    && (forall k :: AllDone(h, LeftOf(h, k)))
  }

  ghost predicate AllDone(h: Shadow, ids: seq<nat>) {
    forall id :: id in ids ==> id < h.scopes && NotOpen(h, id)
  }

  ghost predicate NotOpen(h: Shadow, id: int) {
    forall k, i :: !OpenAt(h, k, i, id)
  }

  ghost predicate Drawn(w: World, h: Shadow) {
    && h.launches == w.next
    && (forall l :: l in w.issued ==> l.number < w.next)
    && (forall n :: n in h.home ==> n < h.launches && h.home[n] < h.scopes)
  }

  ghost predicate Followed(w: World, h: Shadow) { Homed(w, h) && Apart(h) && Drawn(w, h) }

  lemma {:induction false} UnwoundHomes(stack: seq<Scope>, issued: set<Launch>, home: map<nat, nat>, ids: seq<nat>)
    requires StackHolds(stack, issued, home, ids)
    ensures Holds(Unwound(stack), issued, home, ids)
    decreases |stack|
  {
    if stack != [] {
      var n := |stack| - 1;
      UnwoundHomes(stack[..n], issued, home, ids[..n]);
      assert Holds(stack[n], issued, home, [ids[n]]);
      assert ids == ids[..n] + [ids[n]];
    }
  }

  lemma LeftStays(h: Shadow, g: Shadow)
    requires Apart(h) && g.left == h.left && g.scopes >= h.scopes
    requires forall m, i, id :: OpenAt(g, m, i, id) ==> OpenAt(h, m, i, id) || id >= h.scopes
    ensures forall m :: AllDone(g, LeftOf(g, m))
  {
    forall m ensures AllDone(g, LeftOf(g, m)) {
      assert AllDone(h, LeftOf(h, m));
    }
  }

  lemma EnterApart(h: Shadow, k: Key)
    requires Apart(h)
    ensures Apart(Follow(h, Enter(k)))
  {
    var g := Follow(h, Enter(k));
    forall m, i, id | OpenAt(g, m, i, id) 
      ensures OpenAt(h, m, i, id) || (m == k && i == |OpenOf(h, k)| && id == h.scopes)
    {
    }
    LeftStays(h, g);
  }

  lemma CloseApart(h: Shadow, k: Key)
    requires Apart(h)
    ensures Apart(Follow(h, Close(k)))
  {
    var g, n := Follow(h, Close(k)), |OpenOf(h, k)|;
    if n > 0 {
      assert OpenAt(h, k, n - 1, OpenOf(h, k)[n - 1]);
    }
    forall m, i, id | OpenAt(g, m, i, id) ensures OpenAt(h, m, i, id) && (m != k || i < n - 1) {
    }
    forall m ensures AllDone(g, LeftOf(g, m)) {
      assert AllDone(h, LeftOf(h, m));
    }
  }

  lemma ForceApart(h: Shadow, k: Key)
    requires Apart(h)
    ensures Apart(Follow(h, ForceFault(k)))
  {
    var g := Follow(h, ForceFault(k));
    forall m, i, id | OpenAt(g, m, i, id) ensures OpenAt(h, m, i, id) && m != k {
    }
    forall id | id in OpenOf(h, k) ensures id < h.scopes && NotOpen(g, id) {
      var i: nat :| i < |OpenOf(h, k)| && OpenOf(h, k)[i] == id;
      assert OpenAt(h, k, i, id);
    }
    forall m ensures AllDone(g, LeftOf(g, m)) {
      assert AllDone(h, LeftOf(h, m));
    }
  }

  lemma StartApart(h: Shadow, k: Key, faults: bool)
    requires Apart(h)
    ensures Apart(Follow(h, Start(k, faults)))
  {
    var g := Follow(h, Start(k, faults));
    forall m, i, id | OpenAt(g, m, i, id) ensures OpenAt(h, m, i, id) {
    }
    LeftStays(h, g);
  }

  lemma ApartStep(h: Shadow, s: Step)
    requires Apart(h)
    ensures Apart(Follow(h, s))
  {
    match s
    case Enter(k) => EnterApart(h, k);
    case Start(k, faults) => StartApart(h, k, faults);
    case Close(k) => CloseApart(h, k);
    case ForceFault(k) => ForceApart(h, k);
    case _ =>
  }

  lemma EnterHomes(w: World, h: Shadow, k: Key)
    requires Homed(w, h) && Drawn(w, h) && Enabled(w, Enter(k))
    ensures Homed(After(w, Enter(k)), Follow(h, Enter(k)))
  {
    var v, g := After(w, Enter(k)), Follow(h, Enter(k));
    forall m ensures StackHolds(StackOf(v.scopes, m), v.issued, g.home, OpenOf(g, m)) {
      assert StackHolds(StackOf(w.scopes, m), w.issued, h.home, OpenOf(h, m));
    }
    forall m | JoiningOf(v, m).Joining? ensures Holds(JoiningOf(v, m).entries, v.issued, g.home, LeftOf(g, m)) {
      assert JoiningOf(w, m).Joining?;
    }
  }

  lemma ScopeTakes(entries: Scope, issued: set<Launch>, home: map<nat, nat>, ids: seq<nat>, launch: Launch, top: nat)
    requires Holds(entries, issued, home, ids)
    requires forall l :: l in issued ==> l.number != launch.number
    ensures top !in ids ==> Holds(entries, issued + {launch}, home[launch.number := top], ids)
    ensures top in ids ==> Holds(entries + [launch], issued + {launch}, home[launch.number := top], ids)
  {
  }

  lemma StackTakes(stack: seq<Scope>, issued: set<Launch>, home: map<nat, nat>, ids: seq<nat>, launch: Launch,
                   top: nat)
    requires StackHolds(stack, issued, home, ids) && top !in ids
    requires forall l :: l in issued ==> l.number != launch.number
    ensures StackHolds(stack, issued + {launch}, home[launch.number := top], ids)
  {
    forall i | 0 <= i < |ids| ensures Holds(stack[i], issued + {launch}, home[launch.number := top], [ids[i]]) {
      ScopeTakes(stack[i], issued, home, [ids[i]], launch, top);
    }
  }

  lemma TopTakes(stack: seq<Scope>, issued: set<Launch>, home: map<nat, nat>, ids: seq<nat>, launch: Launch)
    requires StackHolds(stack, issued, home, ids) && stack != []
    requires forall i :: 0 <= i < |ids| - 1 ==> ids[i] != ids[|ids| - 1]
    requires forall l :: l in issued ==> l.number != launch.number
    ensures var n := |stack| - 1;
            StackHolds(stack[..n] + [stack[n] + [launch]], issued + {launch}, home[launch.number := ids[n]], ids)
  {
    var n := |stack| - 1;
    var taken := stack[..n] + [stack[n] + [launch]];
    forall i | 0 <= i < |ids| ensures Holds(taken[i], issued + {launch}, home[launch.number := ids[n]], [ids[i]]) {
      ScopeTakes(stack[i], issued, home, [ids[i]], launch, ids[n]);
    }
  }

  lemma StartHomes(w: World, h: Shadow, k: Key, launch: Launch)
    requires Homed(w, h) && Apart(h) && Drawn(w, h)
    requires StackOf(w.scopes, k) != [] && launch.number == w.next
    ensures Homed(Started(w, k, launch), Follow(h, Start(k, launch.faults)))
  {
    var v, g := Started(w, k, launch), Follow(h, Start(k, launch.faults));
    assert StackHolds(StackOf(w.scopes, k), w.issued, h.home, OpenOf(h, k));
    var n := |OpenOf(h, k)| - 1;
    var top := OpenOf(h, k)[n];
    assert OpenAt(h, k, n, top);
    forall m ensures StackHolds(StackOf(v.scopes, m), v.issued, g.home, OpenOf(g, m)) {
      assert StackHolds(StackOf(w.scopes, m), w.issued, h.home, OpenOf(h, m));
      assert forall i :: 0 <= i < |OpenOf(h, m)| && OpenOf(h, m)[i] == top ==> OpenAt(h, m, i, top);
      if m == k {
        TopTakes(StackOf(w.scopes, k), w.issued, h.home, OpenOf(h, k), launch);
      } else {
        StackTakes(StackOf(w.scopes, m), w.issued, h.home, OpenOf(h, m), launch, top);
      }
    }
    forall m | JoiningOf(v, m).Joining? ensures Holds(JoiningOf(v, m).entries, v.issued, g.home, LeftOf(g, m)) {
      assert AllDone(h, LeftOf(h, m));
      ScopeTakes(JoiningOf(w, m).entries, w.issued, h.home, LeftOf(h, m), launch, top);
    }
  }

  lemma CloseHomes(w: World, h: Shadow, k: Key)
    requires Homed(w, h) && Shaped(w.scopes, w.joining) && Enabled(w, Close(k))
    ensures Homed(After(w, Close(k)), Follow(h, Close(k)))
  {
    var v, g := After(w, Close(k)), Follow(h, Close(k));
    PoppedStacks(w.scopes, k);
    var stack, ids := StackOf(w.scopes, k), OpenOf(h, k);
    assert StackHolds(stack, w.issued, h.home, ids);
    forall m ensures StackHolds(StackOf(v.scopes, m), v.issued, g.home, OpenOf(g, m)) {
      assert StackHolds(StackOf(w.scopes, m), w.issued, h.home, OpenOf(h, m));
    }
    forall m | JoiningOf(v, m).Joining? ensures Holds(JoiningOf(v, m).entries, v.issued, g.home, LeftOf(g, m)) {
      if m == k {
        assert Holds(stack[|stack| - 1], w.issued, h.home, [ids[|stack| - 1]]);
      } else {
        assert JoiningOf(v, m) == JoiningOf(w, m);
      }
    }
  }

  lemma ForceHomes(w: World, h: Shadow, k: Key)
    requires Homed(w, h) && Enabled(w, ForceFault(k))
    ensures Homed(After(w, ForceFault(k)), Follow(h, ForceFault(k)))
  {
    var v, g := After(w, ForceFault(k)), Follow(h, ForceFault(k));
    assert StackHolds(StackOf(w.scopes, k), w.issued, h.home, OpenOf(h, k));
    UnwoundHomes(StackOf(w.scopes, k), w.issued, h.home, OpenOf(h, k));
    forall m ensures StackHolds(StackOf(v.scopes, m), v.issued, g.home, OpenOf(g, m)) {
      assert StackHolds(StackOf(w.scopes, m), w.issued, h.home, OpenOf(h, m));
    }
    forall m | JoiningOf(v, m).Joining? ensures Holds(JoiningOf(v, m).entries, v.issued, g.home, LeftOf(g, m)) {
      assert m != k ==> JoiningOf(v, m) == JoiningOf(w, m);
    }
  }

  lemma RestHomes(w: World, h: Shadow, s: Step)
    requires Homed(w, h) && Enabled(w, s) && (s.Settle? || s.Conclude? || s.Finish? || s.Abandon?)
    ensures Homed(After(w, s), h)
  {
    var v := After(w, s);
    forall m | JoiningOf(v, m).Joining? ensures Holds(JoiningOf(v, m).entries, v.issued, h.home, LeftOf(h, m)) {
      assert JoiningOf(w, m).Joining? && JoiningOf(v, m).entries == JoiningOf(w, m).entries;
    }
    forall m ensures StackHolds(StackOf(v.scopes, m), v.issued, h.home, OpenOf(h, m)) {
      assert StackHolds(StackOf(w.scopes, m), w.issued, h.home, OpenOf(h, m));
    }
  }

  lemma DrawnStep(w: World, h: Shadow, s: Step)
    requires Homed(w, h) && Apart(h) && Drawn(w, h) && Enabled(w, s)
    ensures Drawn(After(w, s), Follow(h, s))
  {
    assert StackHolds(StackOf(w.scopes, s.k), w.issued, h.home, OpenOf(h, s.k));
    if s.Start? && OpenOf(h, s.k) != [] {
      var n := |OpenOf(h, s.k)| - 1;
      assert OpenAt(h, s.k, n, OpenOf(h, s.k)[n]);
    }
  }

  lemma StepFollows(w: World, h: Shadow, s: Step)
    requires Shaped(w.scopes, w.joining) && Followed(w, h) && Enabled(w, s)
    ensures Followed(After(w, s), Follow(h, s))
  {
    DrawnStep(w, h, s);
    ApartStep(h, s);
    HomesStep(w, h, s);
  }

  lemma HomesStep(w: World, h: Shadow, s: Step)
    requires Shaped(w.scopes, w.joining) && Homed(w, h) && Apart(h) && Drawn(w, h) && Enabled(w, s)
    ensures Homed(After(w, s), Follow(h, s))
  {
    match s
    case Enter(k) => EnterHomes(w, h, k);
    case Start(k, faults) =>
      assert StackHolds(StackOf(w.scopes, k), w.issued, h.home, OpenOf(h, k));
      if StackOf(w.scopes, k) != [] {
        StartHomes(w, h, k, Launch(w.next, FiberOf(w, k), faults));
      }
    case Close(k) => CloseHomes(w, h, k);
    case ForceFault(k) => ForceHomes(w, h, k);
    case _ => RestHomes(w, h, s);
  }

  lemma {:induction false} RunFollows(w: World, h: Shadow, steps: seq<Step>)
    requires Inv(w) && Followed(w, h) && Runs(w, steps)
    ensures Followed(AfterAll(w, steps), FollowAll(h, steps))
    decreases |steps|
  {
    if steps != [] {
      StepFollows(w, h, steps[0]);
      StepKeeps(w, steps[0]);
      RunFollows(After(w, steps[0]), Follow(h, steps[0]), steps[1..]);
    }
  }

  /**
   * Over every interleaving: a join settles exactly the launches made while a scope it took over
   * was their fiber's innermost, and each open scope holds exactly those made while it was.
   */
  lemma SettledByItsScope(steps: seq<Step>, k: Key)
    requires Runs(Fresh, steps)
    ensures var w, h := AfterAll(Fresh, steps), FollowAll(NoScope, steps);
            && StackHolds(StackOf(w.scopes, k), w.issued, h.home, OpenOf(h, k))
            && (JoiningOf(w, k).Joining? ==>
                  Holds(JoiningOf(w, k).entries, w.issued, h.home, LeftOf(h, k)))
            && forall i, m, j, id :: OpenAt(h, k, i, id) && OpenAt(h, m, j, id) ==> k == m && i == j
  {
    FreshBalances();
    RunFollows(Fresh, NoScope, steps);
  }

  /**
   * Where a fiber is abandoned with a launch open, the next fiber on its id settles it: the
   * stale scope lies under the new fiber's own, and a strict force unwinds both.
   */
  lemma RecycledIdSettlesAnothersLaunch(k: Key)
    ensures var old_ := Launch(0, Fiber(k, 0), true);
            var left := After(After(After(Fresh, Enter(k)), Start(k, true)), Abandon(k));
            && left.issued == {old_} && FiberOf(left, k) == Fiber(k, 1)
            && After(After(left, ForceFault(k)), Settle(k)).log == [Settlement(Fiber(k, 1), old_)]
  {
    var entered := After(Fresh, Enter(k));
    var started := After(entered, Start(k, true));
    var old_ := Launch(0, Fiber(k, 0), true);
    FirstRegistered(map[], k, old_);
    assert started.scopes == map[k := [[old_]]];
    var left := After(started, Abandon(k));
    assert Unwound([[old_]]) == [old_];
    var forced := After(left, ForceFault(k));
    assert JoiningOf(forced, k) == Joining([old_], 0, true);
  }
}
