/** Nested guards on one worker. A guard runs its body on a coroutine of its own and resumes it
    itself; parks pass outward through every guard to the worker's loop, which files the fiber
    with its whole nest suspended; an abort marker travels the same way until the guard it is
    meant for stops it. */
module Guards {
  import opened Wrappers

  type Coroutine = nat
  type FiberId = nat

  datatype Kind = Case | Fault

  /** A guard on the way in: the id it reserved, the coroutine it resumes, and the yielder it
      found when it was called, through which it forwards parks. */
  datatype Guard = Guard(kind: Kind, id: FiberId, coroutine: Coroutine, outer: Coroutine)

  /** What a coroutine yields to whoever resumed it. */
  datatype Park = Wait | CaseAborted | AbortTrapped(report: string)

  predicate Stops(kind: Kind, park: Park) {
    (kind.Case? && park.CaseAborted?) || (kind.Fault? && park.AbortTrapped?)
  }

  /** A fiber's coroutines: its own, and its guards' outermost first. */
  datatype Nest = Nest(base: Coroutine, guards: seq<Guard>)

  /** The worker: `depth` is its abort-trap depth, `yielder` the cell every park reads, `active`
      the fiber it is inside of. `registered` holds the ids guards have reserved, each with the
      coroutine whose stack is registered with the collector under it. */
  datatype Worker = Worker(
    depth: int, yielder: Coroutine, active: Option<Nest>, parked: map<FiberId, Nest>, current: FiberId,
    nextCoroutine: Coroutine, registered: map<FiberId, Coroutine>)

  // ----- one yield, carried outward

  /** Where a yield ends: stopped by a guard, the rest of the nest going on without it, or at
      the worker's loop. */
  datatype Delivery =
    | Stopped(rest: seq<Guard>, guard: Guard, depth: int, crossed: seq<Guard>)
    | Arrived(depth: int)

  function Faults(guards: seq<Guard>): nat {
    if guards == [] then 0 else Faults(guards[..|guards| - 1]) + if guards[|guards| - 1].kind.Fault? then 1 else 0
  }

  /** The innermost guard's resume returns the park: a fault guard lowers the depth first, then
      stops the park if it is its own marker, or yields it again through the yielder it found. */
  function Deliver(guards: seq<Guard>, park: Park, depth: int): Delivery {
    if guards == [] then Arrived(depth)
    else
      var guard, rest := guards[|guards| - 1], guards[..|guards| - 1];
      var lowered := if guard.kind.Fault? then depth - 1 else depth;
      if Stops(guard.kind, park) then Stopped(rest, guard, lowered, [])
      else
        match Deliver(rest, park, lowered)
        case Arrived(d) => Arrived(d)
        case Stopped(r, g, d, crossed) => Stopped(r, g, d, crossed + [guard])
  }

  /** Resuming a fiber whose nest is suspended: each level restores its own yielder on the way
      in, and each fault guard raises the depth before resuming the next. */
  function Reenter(guards: seq<Guard>, depth: int): int {
    if guards == [] then depth
    else Reenter(guards[..|guards| - 1], depth) + if guards[|guards| - 1].kind.Fault? then 1 else 0
  }

  function Innermost(nest: Nest): Coroutine {
    if nest.guards == [] then nest.base else nest.guards[|nest.guards| - 1].coroutine
  }

  // ----- steps

  datatype Step =
    | Spawn(id: FiberId)
    | Resume(id: FiberId)
    | EnterGuard(kind: Kind, id: FiberId)
    | Yield
    | AbortCase
    | AbortTrap(report: string)
    | Return

  /** An id no fiber and no guard has. */
  predicate FreeId(w: Worker, id: FiberId) {
    id !in w.parked && id !in w.registered && (w.active.Some? ==> id != w.current)
  }

  /** What running code may do. A trapped fail-loud exit happens only while the depth says a trap
      is active; a failing expectation only inside a test case. */
  predicate Can(w: Worker, step: Step) {
    match step
    case Spawn(id) => FreeId(w, id)
    case Resume(id) => w.active.None? && id in w.parked
    case EnterGuard(_, id) => w.active.Some? && FreeId(w, id)
    case Yield => w.active.Some?
    case AbortCase => w.active.Some? && exists guard <- w.active.value.guards :: guard.kind.Case?
    case AbortTrap(_) => w.active.Some? && w.depth > 0
    case Return => w.active.Some?
  }

  predicate IsMarker(park: Park) {
    !park.Wait?
  }

  function Emitted(step: Step): Park {
    match step
    case AbortCase => CaseAborted
    case AbortTrap(report) => AbortTrapped(report)
    case _ => Wait
  }

  /** What must never happen: a park that suspends some other coroutine than the running one, a
      depth below zero, an abort marker in the ready-queue loop. */
  predicate Breaks(w: Worker, step: Step)
    requires Can(w, step)
  {
    match step
    case Spawn(_) => false
    case Resume(_) => w.depth != 0
    case EnterGuard(_, _) => w.yielder != Innermost(w.active.value)
    case Return => w.yielder != Innermost(w.active.value) || w.depth < Faults(w.active.value.guards)
    case _ =>
      || w.yielder != Innermost(w.active.value)
      || w.depth < Faults(w.active.value.guards)
      || (IsMarker(Emitted(step)) && Deliver(w.active.value.guards, Emitted(step), w.depth).Arrived?)
  }

  function Do(w: Worker, step: Step): Worker
    requires Can(w, step)
  {
    match step
    case Spawn(id) =>
      w.(parked := w.parked[id := Nest(w.nextCoroutine, [])], nextCoroutine := w.nextCoroutine + 1)
    case Resume(id) =>
      var nest := w.parked[id];
      w.(active := Some(nest), current := id, parked := w.parked - {id}, depth := Reenter(nest.guards, w.depth),
        yielder := Innermost(nest))
    case EnterGuard(kind, id) =>
      var nest := w.active.value;
      var guard := Guard(kind, id, w.nextCoroutine, w.yielder);
      w.(active := Some(nest.(guards := nest.guards + [guard])), nextCoroutine := w.nextCoroutine + 1,
         registered := w.registered[id := w.nextCoroutine],
         depth := if kind.Fault? then w.depth + 1 else w.depth, yielder := w.nextCoroutine)
    case Return =>
      var nest := w.active.value;
      if nest.guards == [] then w.(active := None)
      else
        var guard := nest.guards[|nest.guards| - 1];
        w.(active := Some(nest.(guards := nest.guards[..|nest.guards| - 1])), registered := w.registered - {guard.id},
           depth := if guard.kind.Fault? then w.depth - 1 else w.depth, yielder := guard.outer)
    case _ =>
      var nest := w.active.value;
      match Deliver(nest.guards, Emitted(step), w.depth)
      case Arrived(depth) => w.(active := None, depth := depth, parked := w.parked[w.current := nest])
      case Stopped(rest, guard, depth, crossed) =>
        w.(active := Some(nest.(guards := rest)), depth := depth, yielder := guard.outer,
           registered := w.registered - {guard.id})
  }

  // ----- where a yield ends

  /** The innermost guard that stops a park, if any. */
  function Target(guards: seq<Guard>, park: Park): (target: Option<nat>)
    ensures target.Some? ==> target.value < |guards|
  {
    if guards == [] then None
    else if Stops(guards[|guards| - 1].kind, park) then Some(|guards| - 1)
    else Target(guards[..|guards| - 1], park)
  }

  /** A yield no guard is meant for reaches the worker, the depth lower by every fault guard. */
  lemma {:induction false} ArrivesUntargeted(guards: seq<Guard>, park: Park, depth: int)
    requires Target(guards, park).None?
    ensures Deliver(guards, park, depth) == Arrived(depth - Faults(guards))
    ensures forall guard <- guards :: !Stops(guard.kind, park)
  {
    if guards != [] {
      var guard, rest := guards[|guards| - 1], guards[..|guards| - 1];
      assert guards == rest + [guard];
      ArrivesUntargeted(rest, park, if guard.kind.Fault? then depth - 1 else depth);
    }
  }

  /** A marker stops at the innermost guard of its kind, however the kinds are nested and
      whatever lies between, and everything between is crossed. On the way the depth drops by
      one for every fault guard it leaves, the stopping one included. */
  lemma {:induction false} StopsAtInnermost(guards: seq<Guard>, park: Park, depth: int)
    requires Target(guards, park).Some?
    ensures var k := Target(guards, park).value;
      && Stops(guards[k].kind, park)
      && (forall guard <- guards[k + 1..] :: !Stops(guard.kind, park))
      && Deliver(guards, park, depth)
         == Stopped(guards[..k], guards[k], depth - (Faults(guards) - Faults(guards[..k])), guards[k + 1..])
  {
    var last, k := |guards| - 1, Target(guards, park).value;
    var guard, rest := guards[last], guards[..last];
    if !Stops(guard.kind, park) {
      StopsAtInnermost(rest, park, if guard.kind.Fault? then depth - 1 else depth);
      CutsAgree(guards, k);
      assert Deliver(guards, park, depth).crossed == rest[k + 1..] + [guard];
    }
  }

  lemma CutsAgree(guards: seq<Guard>, k: nat)
    requires k < |guards| - 1
    ensures var last := |guards| - 1;
      guards[..last][..k] == guards[..k] && guards[..last][k + 1..] + [guards[last]] == guards[k + 1..]
  {
  }

  lemma {:induction false} WaitIsForNobody(guards: seq<Guard>)
    ensures Target(guards, Wait).None?
  {
    if guards != [] { WaitIsForNobody(guards[..|guards| - 1]); }
  }

  lemma {:induction false} ReenterRaises(guards: seq<Guard>, depth: int)
    ensures Reenter(guards, depth) == depth + Faults(guards)
  {
    if guards != [] { ReenterRaises(guards[..|guards| - 1], depth); }
  }

  // ----- the invariant

  /** Each guard forwards through the coroutine it is nested in. */
  ghost predicate Chained(nest: Nest) {
    forall k | 0 <= k < |nest.guards| :: nest.guards[k].outer == Innermost(nest.(guards := nest.guards[..k]))
  }

  /** The depth counts the fault guards of the active nest, so it is zero in the worker's loop;
      and the yielder is the running coroutine's own. */
  ghost predicate Invariant(w: Worker) {
    && w.depth == (if w.active.Some? then Faults(w.active.value.guards) else 0)
    && (w.active.Some? ==> w.yielder == Innermost(w.active.value) && Chained(w.active.value) && w.current !in w.parked)
    && (forall id <- w.parked :: Chained(w.parked[id]))
  }

  lemma ChainedPrefix(nest: Nest, k: nat)
    requires Chained(nest) && k <= |nest.guards|
    ensures Chained(nest.(guards := nest.guards[..k]))
  {
    forall j | 0 <= j < k ensures nest.guards[..k][j].outer == Innermost(nest.(guards := nest.guards[..k][..j])) {
      assert nest.guards[..k][..j] == nest.guards[..j];
    }
  }

  /** A depth above zero means a fault guard is there to stop the marker. */
  lemma {:induction false} FaultIsThere(guards: seq<Guard>, report: string)
    requires Faults(guards) > 0
    ensures Target(guards, AbortTrapped(report)).Some?
  {
    if !guards[|guards| - 1].kind.Fault? { FaultIsThere(guards[..|guards| - 1], report); }
  }

  lemma {:induction false} CaseIsThere(guards: seq<Guard>)
    requires exists guard <- guards :: guard.kind.Case?
    ensures Target(guards, CaseAborted).Some?
  {
    var last := |guards| - 1;
    if !guards[last].kind.Case? {
      assert guards == guards[..last] + [guards[last]];
      CaseIsThere(guards[..last]);
    }
  }

  lemma NeverBreaks(w: Worker, step: Step)
    requires Invariant(w) && Can(w, step)
    ensures !Breaks(w, step)
  {
    if step.AbortTrap? {
      FaultIsThere(w.active.value.guards, step.report);
      StopsAtInnermost(w.active.value.guards, Emitted(step), w.depth);
    } else if step.AbortCase? {
      CaseIsThere(w.active.value.guards);
      StopsAtInnermost(w.active.value.guards, Emitted(step), w.depth);
    }
  }

  lemma YieldKeeps(w: Worker, step: Step)
    requires Invariant(w) && Can(w, step) && (step.Yield? || step.AbortCase? || step.AbortTrap?)
    ensures Invariant(Do(w, step))
  {
    var nest, park := w.active.value, Emitted(step);
    var target := Target(nest.guards, park);
    if target.Some? {
      StopsAtInnermost(nest.guards, park, w.depth);
      ChainedPrefix(nest, target.value);
    } else {
      ArrivesUntargeted(nest.guards, park, w.depth);
    }
  }

  lemma StepKeeps(w: Worker, step: Step)
    requires Invariant(w) && Can(w, step)
    ensures Invariant(Do(w, step))
  {
    match step
    case Spawn(_) =>
    case Resume(id) => ReenterRaises(w.parked[id].guards, w.depth);
    case EnterGuard(kind, id) => EnterKeeps(w, kind, id);
    case Return => ReturnKeeps(w);
    case _ => YieldKeeps(w, step);
  }

  lemma EnterKeeps(w: Worker, kind: Kind, id: FiberId)
    requires Invariant(w) && Can(w, EnterGuard(kind, id))
    ensures Invariant(Do(w, EnterGuard(kind, id)))
  {
    var nest, guard := w.active.value, Guard(kind, id, w.nextCoroutine, w.yielder);
    var deeper := nest.(guards := nest.guards + [guard]);
    assert deeper.guards[..|nest.guards|] == nest.guards;
    forall k | 0 <= k < |deeper.guards|
      ensures deeper.guards[k].outer == Innermost(deeper.(guards := deeper.guards[..k])) {
      if k < |nest.guards| { assert deeper.guards[..k] == nest.guards[..k]; }
    }
  }

  lemma ReturnKeeps(w: Worker)
    requires Invariant(w) && Can(w, Return)
    ensures Invariant(Do(w, Return))
  {
    var nest := w.active.value;
    if nest.guards != [] { ChainedPrefix(nest, |nest.guards| - 1); }
  }

  // ----- ids and stack registrations

  function NestOf(w: Worker, f: FiberId): Option<Nest> {
    if w.active.Some? && w.current == f then w.active
    else if f in w.parked then Some(w.parked[f]) else None
  }

  /** The k-th guard of a fiber, outermost first. */
  function GuardAt(w: Worker, f: FiberId, k: nat): Option<Guard> {
    var nest := NestOf(w, f);
    if nest.Some? && k < |nest.value.guards| then Some(nest.value.guards[k]) else None
  }

  ghost predicate Live(w: Worker, id: FiberId) {
    exists f: FiberId, k: nat :: GuardAt(w, f, k).Some? && GuardAt(w, f, k).value.id == id
  }

  /** Every live guard has its own id, under which its own stack is registered. */
  ghost predicate Registered(w: Worker) {
    && (forall f: FiberId, k: nat :: GuardAt(w, f, k).Some? ==> Holds(w.registered, GuardAt(w, f, k).value))
    && (forall f: FiberId, k: nat, g: FiberId, j: nat ::
        SameId(GuardAt(w, f, k), GuardAt(w, g, j)) ==> f == g && k == j)
  }

  predicate SameId(one: Option<Guard>, two: Option<Guard>) {
    one.Some? && two.Some? && one.value.id == two.value.id
  }

  ghost predicate Holds(registered: map<FiberId, Coroutine>, guard: Guard) {
    guard.id in registered && registered[guard.id] == guard.coroutine
  }

  /** The ids still reserved, with a stack still registered, that no guard will ever release. */
  ghost function Stale(w: Worker): set<FiberId> {
    set id <- w.registered | !Live(w, id)
  }

  function IdsOf(guards: seq<Guard>): set<FiberId> {
    set guard <- guards :: guard.id
  }

  /** Steps that move a nest without changing it leave every guard where it was. */
  lemma NothingMoves(w: Worker, after: Worker)
    requires Registered(w) && after.registered == w.registered
    requires forall f: FiberId, k: nat :: GuardAt(after, f, k) == GuardAt(w, f, k)
    ensures Registered(after) && Stale(after) == Stale(w)
  {
    forall id: FiberId ensures Live(after, id) <==> Live(w, id) {
    }
  }

  lemma EnterRegisters(w: Worker, kind: Kind, id: FiberId)
    requires Invariant(w) && Registered(w) && Can(w, EnterGuard(kind, id))
    ensures var after := Do(w, EnterGuard(kind, id)); Registered(after) && Stale(after) == Stale(w)
  {
    var after, n := Do(w, EnterGuard(kind, id)), |w.active.value.guards|;
    assert GuardAt(after, w.current, n).Some? && GuardAt(after, w.current, n).value.id == id;
    forall f: FiberId, k: nat | f != w.current || k != n ensures GuardAt(after, f, k) == GuardAt(w, f, k) {
    }
    forall other: FiberId ensures Live(after, other) <==> Live(w, other) || other == id {
      if Live(w, other) {
        var f: FiberId, k: nat :| GuardAt(w, f, k).Some? && GuardAt(w, f, k).value.id == other;
        assert GuardAt(after, f, k).Some? && GuardAt(after, f, k).value.id == other;
      }
    }
  }

  /** Dropping the guards from the k-th on and releasing the k-th's id: those above it stay. */
  lemma DropRegisters(w: Worker, after: Worker, k: nat)
    requires Registered(w) && w.active.Some? && k < |w.active.value.guards|
    requires after.active == Some(w.active.value.(guards := w.active.value.guards[..k]))
    requires after.current == w.current && after.parked == w.parked
    requires after.registered == w.registered - {w.active.value.guards[k].id}
    ensures Registered(after)
    ensures Stale(after) == Stale(w) + IdsOf(w.active.value.guards[k + 1..])
  {
    var guards := w.active.value.guards;
    forall f: FiberId, j: nat
      ensures GuardAt(after, f, j) == if f == w.current && j >= k then None else GuardAt(w, f, j) {
    }
    assert GuardAt(w, w.current, k) == Some(guards[k]);
    assert !Live(after, guards[k].id) by {
      forall f: FiberId, j: nat | GuardAt(after, f, j).Some? ensures GuardAt(after, f, j).value.id != guards[k].id {
        assert GuardAt(w, f, j) == GuardAt(after, f, j);
        assert !SameId(GuardAt(w, f, j), GuardAt(w, w.current, k));
      }
    }
    forall id: FiberId | id in w.registered && id != guards[k].id
      ensures Live(after, id) <==> Live(w, id) && id !in IdsOf(guards[k + 1..])
    {
      DropLives(w, after, k, id);
    }
    forall id: FiberId | id in IdsOf(guards[k + 1..]) ensures id in after.registered {
      var j :| k < j < |guards| && guards[j].id == id;
      assert GuardAt(w, w.current, j) == Some(guards[j]);
    }
  }

  lemma DropLives(w: Worker, after: Worker, k: nat, id: FiberId)
    requires Registered(w) && w.active.Some? && k < |w.active.value.guards| && id != w.active.value.guards[k].id
    requires forall f: FiberId, j: nat ::
      GuardAt(after, f, j) == if f == w.current && j >= k then None else GuardAt(w, f, j)
    ensures Live(after, id) <==> Live(w, id) && id !in IdsOf(w.active.value.guards[k + 1..])
  {
    var guards := w.active.value.guards;
    if Live(after, id) {
      var f: FiberId, j: nat :| GuardAt(after, f, j).Some? && GuardAt(after, f, j).value.id == id;
      assert GuardAt(w, f, j) == GuardAt(after, f, j);
      forall i | k < i < |guards| ensures guards[i].id != id {
        assert GuardAt(w, w.current, i) == Some(guards[i]);
        assert !SameId(GuardAt(w, f, j), GuardAt(w, w.current, i));
      }
    }
    if Live(w, id) && id !in IdsOf(guards[k + 1..]) {
      var f: FiberId, j: nat :| GuardAt(w, f, j).Some? && GuardAt(w, f, j).value.id == id;
      assert forall i :: k < i < |guards| ==> guards[i] in guards[k + 1..];
      assert GuardAt(after, f, j) == GuardAt(w, f, j);
    }
  }

  /** The guards an abort marker crosses on its way: those above the one that stops it. */
  function CrossedBy(w: Worker, step: Step): seq<Guard>
    requires Can(w, step)
  {
    if !step.AbortCase? && !step.AbortTrap? then []
    else
      var target := Target(w.active.value.guards, Emitted(step));
      if target.None? then [] else w.active.value.guards[target.value + 1..]
  }

  /** A guard's id stays reserved and its stack registered, with nobody left to release them,
      exactly when an abort marker crosses it; every other guard releases its own. */
  lemma CrossedAreLeaked(w: Worker, step: Step)
    requires Invariant(w) && Registered(w) && Can(w, step)
    ensures Registered(Do(w, step))
    ensures Stale(Do(w, step)) == Stale(w) + IdsOf(CrossedBy(w, step))
  {
    var after := Do(w, step);
    match step
    case Spawn(_) => NothingMoves(w, after);
    case Resume(_) => NothingMoves(w, after);
    case EnterGuard(kind, id) => EnterRegisters(w, kind, id);
    case Return =>
      var n := |w.active.value.guards|;
      if n == 0 {
        NothingMoves(w, after);
      } else {
        DropRegisters(w, after, n - 1);
      }
    case _ => YieldRegisters(w, step);
  }

  lemma YieldRegisters(w: Worker, step: Step)
    requires Invariant(w) && Registered(w) && Can(w, step) && (step.Yield? || step.AbortCase? || step.AbortTrap?)
    ensures Registered(Do(w, step))
    ensures Stale(Do(w, step)) == Stale(w) + IdsOf(CrossedBy(w, step))
  {
    var guards, park := w.active.value.guards, Emitted(step);
    if step.Yield? { WaitIsForNobody(guards); }
    if Target(guards, park).Some? {
      StopDrops(w, step);
      DropRegisters(w, Do(w, step), Target(guards, park).value);
    } else {
      ArrivalMovesNothing(w, step);
      NothingMoves(w, Do(w, step));
    }
  }

  lemma StopDrops(w: Worker, step: Step)
    requires Can(w, step) && (step.Yield? || step.AbortCase? || step.AbortTrap?)
    requires Target(w.active.value.guards, Emitted(step)).Some?
    ensures var after, k := Do(w, step), Target(w.active.value.guards, Emitted(step)).value;
      && after.active == Some(w.active.value.(guards := w.active.value.guards[..k]))
      && after.current == w.current && after.parked == w.parked
      && after.registered == w.registered - {w.active.value.guards[k].id}
  {
    StopsAtInnermost(w.active.value.guards, Emitted(step), w.depth);
  }

  lemma ArrivalMovesNothing(w: Worker, step: Step)
    requires Invariant(w) && Can(w, step) && (step.Yield? || step.AbortCase? || step.AbortTrap?)
    requires Target(w.active.value.guards, Emitted(step)).None?
    ensures Do(w, step).registered == w.registered
    ensures forall f: FiberId, k: nat :: GuardAt(Do(w, step), f, k) == GuardAt(w, f, k)
  {
    ArrivesUntargeted(w.active.value.guards, Emitted(step), w.depth);
  }

  // ----- whole runs

  predicate Fresh(w: Worker) {
    w.depth == 0 && w.active.None? && w.parked == map[] && w.registered == map[]
  }

  ghost predicate Run(workers: seq<Worker>, steps: seq<Step>) {
    && |workers| == |steps| + 1 && Fresh(workers[0])
    && forall k | 0 <= k < |steps| :: Can(workers[k], steps[k]) && workers[k + 1] == Do(workers[k], steps[k])
  }

  /** In every state of every run: the abort-trap depth is the number of fault guards of the
      active nest, zero in the worker's loop; every park suspends the coroutine that is running;
      no abort marker reaches the loop, so its `unreachable` arms are never taken; and every
      live guard holds its own id and stack registration. */
  lemma {:induction false} EveryRunIsGuarded(workers: seq<Worker>, steps: seq<Step>, k: nat)
    requires Run(workers, steps) && k < |workers|
    ensures Invariant(workers[k]) && Registered(workers[k])
    ensures k < |steps| ==> !Breaks(workers[k], steps[k])
  {
    if k > 0 {
      EveryRunIsGuarded(workers, steps, k - 1);
      StepKeeps(workers[k - 1], steps[k - 1]);
      CrossedAreLeaked(workers[k - 1], steps[k - 1]);
    }
    if k < |steps| { NeverBreaks(workers[k], steps[k]); }
  }

  ghost function CrossedIn(workers: seq<Worker>, steps: seq<Step>, k: nat): set<FiberId>
    requires Run(workers, steps) && k < |workers|
    decreases k
  {
    if k == 0 then {} else CrossedIn(workers, steps, k - 1) + IdsOf(CrossedBy(workers[k - 1], steps[k - 1]))
  }

  /** Over a whole run: the ids reserved are those of live guards and of crossed ones, no others. */
  lemma {:induction false} ReservedExactly(workers: seq<Worker>, steps: seq<Step>, k: nat)
    requires Run(workers, steps) && k < |workers|
    ensures Stale(workers[k]) == CrossedIn(workers, steps, k)
    ensures forall id: FiberId ::
      id in workers[k].registered <==> Live(workers[k], id) || id in CrossedIn(workers, steps, k)
    decreases k
  {
    EveryRunIsGuarded(workers, steps, k);
    if k > 0 {
      ReservedExactly(workers, steps, k - 1);
      EveryRunIsGuarded(workers, steps, k - 1);
      CrossedAreLeaked(workers[k - 1], steps[k - 1]);
    }
    forall id: FiberId ensures id in workers[k].registered <==> Live(workers[k], id) || id in Stale(workers[k]) {
    }
  }

  const CASE := Guard(Case, 1, 1, 0)
  const TRAP := Guard(Fault, 2, 2, 1)

  /** A fiber in a test case, and in a trap inside it. */
  const TRAPPED := Worker(1, 2, Some(Nest(0, [CASE, TRAP])), map[], 0, 3, map[1 := 1, 2 := 2])
  const ABORTED := Worker(0, 0, Some(Nest(0, [])), map[], 0, 3, map[2 := 2])

  lemma TrappedIsReached() returns (workers: seq<Worker>, steps: seq<Step>)
    ensures Run(workers, steps) && |steps| == 4 && workers[4] == TRAPPED
  {
    steps := [Spawn(0), Resume(0), EnterGuard(Case, 1), EnterGuard(Fault, 2)];
    var w0 := Worker(0, 0, None, map[], 0, 0, map[]);
    var w1 := Worker(0, 0, None, map[0 := Nest(0, [])], 0, 1, map[]);
    var w2 := Worker(0, 0, Some(Nest(0, [])), map[], 0, 1, map[]);
    var w3 := Worker(0, 1, Some(Nest(0, [CASE])), map[], 0, 2, map[1 := 1]);
    assert Do(w0, steps[0]) == w1;
    assert Do(w1, steps[1]) == w2;
    assert Do(w2, steps[2]) == w3 by { assert [] + [CASE] == [CASE]; }
    assert Do(w3, steps[3]) == TRAPPED by { assert [CASE] + [TRAP] == [CASE, TRAP]; }
    workers := [w0, w1, w2, w3, TRAPPED];
  }

  lemma AbortCrossesTrap()
    ensures Can(TRAPPED, AbortCase) && Do(TRAPPED, AbortCase) == ABORTED
  {
    var guards := TRAPPED.active.value.guards;
    assert guards[0].kind.Case? && guards[0] in guards;
    assert guards[..1] == [CASE] && [CASE][..0] == [];
    assert Deliver([CASE], CaseAborted, 0) == Stopped([], CASE, 0, []);
    assert Deliver(guards, CaseAborted, 1) == Stopped([], CASE, 0, [] + [TRAP]);
  }

  /** A test case inside which a trap is active: its failing expectation crosses the trap, whose
      id and registration stay. */
  lemma CaseMarkerCrossesTrap() returns (workers: seq<Worker>, steps: seq<Step>)
    ensures Run(workers, steps) && |steps| == 5 && steps[4] == AbortCase
    ensures workers[5].active == Some(Nest(0, [])) && workers[5].parked == map[] && 2 in Stale(workers[5])
  {
    workers, steps := TrappedIsReached();
    AbortCrossesTrap();
    workers, steps := workers + [ABORTED], steps + [AbortCase];
    forall f: FiberId, k: nat ensures GuardAt(ABORTED, f, k).None? {
    }
  }
}
