/** One worker's scheduler: a slab of fibers with a free list, a ready queue, sleeping fibers,
    and fibers filed under the reactor token they wait on, some with a deadline beside it. */
module Scheduler {
  import opened Wrappers

  type Instant = int
  type Token = nat
  type FiberId = nat

  /** A fiber as the slab keeps it: its coroutine's guard page. */
  datatype Fiber = Fiber(guardLow: nat, guardHigh: nat)

  datatype Timer = Timer(due: Instant, id: FiberId)

  datatype Deadline = Deadline(due: Instant, token: Token, id: FiberId)

  /** The scheduler's tables. `running` holds the ids popped from `ready` and not filed again,
      `reserved` the ids guards took for coroutines they resume themselves. */
  datatype Tables = Tables(
    fibers: seq<Option<Fiber>>, free: seq<FiberId>, ready: seq<FiberId>, timers: seq<Timer>,
    waiters: map<Token, FiberId>, deadlines: seq<Deadline>, running: set<FiberId>, reserved: set<FiberId>)

  const EMPTY := Tables([], [], [], [], map[], [], {}, {})

  // ----- the partition

  ghost predicate NoRepeats<T>(xs: seq<T>) {
    forall i, j | 0 <= i < j < |xs| :: xs[i] != xs[j]
  }

  ghost predicate Live(t: Tables, id: FiberId) {
    id < |t.fibers| && t.fibers[id].Some?
  }

  ghost predicate Sleeps(t: Tables, id: FiberId) {
    exists timer <- t.timers :: timer.id == id
  }

  ghost predicate Waits(t: Tables, id: FiberId) {
    exists token <- t.waiters :: t.waiters[token] == id
  }

  ghost predicate Once(a: bool, b: bool, c: bool) {
    (a && !b && !c) || (!a && b && !c) || (!a && !b && c)
  }

  /** Every fiber in the slab is in exactly one of the three tables, and nothing else is in any. */
  ghost predicate Filed(t: Tables) {
    && (forall id: FiberId :: Live(t, id) ==> Once(id in t.ready, Sleeps(t, id), Waits(t, id)))
    && (forall id: FiberId :: id in t.ready || Sleeps(t, id) || Waits(t, id) ==> Live(t, id))
    && NoRepeats(t.ready)
    && (forall i, j | 0 <= i < j < |t.timers| :: t.timers[i].id != t.timers[j].id)
    && (forall a, b | a in t.waiters && b in t.waiters && a != b :: t.waiters[a] != t.waiters[b])
  }

  /** Every id of the slab is live, free, running or reserved, and only one of these. */
  ghost predicate Allotted(t: Tables) {
    && NoRepeats(t.free) && t.running !! t.reserved
    && (forall id <- t.free :: id < |t.fibers| && t.fibers[id].None? && id !in t.running && id !in t.reserved)
    && (forall id <- t.running + t.reserved :: id < |t.fibers| && t.fibers[id].None?)
    && (forall id: FiberId | id < |t.fibers| && t.fibers[id].None? ::
        id in t.free || id in t.running || id in t.reserved)
  }

  /** Every deadline stands beside the waiter it belongs to, one for each such fiber. */
  ghost predicate Deadlined(t: Tables) {
    && (forall d <- t.deadlines :: d.token in t.waiters && t.waiters[d.token] == d.id)
    && DistinctIds(t.deadlines)
  }

  ghost predicate DistinctIds(deadlines: seq<Deadline>) {
    forall i, j | 0 <= i < j < |deadlines| :: deadlines[i].id != deadlines[j].id
  }

  ghost predicate Partition(t: Tables) {
    Filed(t) && Allotted(t) && Deadlined(t)
  }

  // ----- the operations

  function Reserved(t: Tables): (FiberId, Tables) {
    if t.free != [] then
      var id := t.free[|t.free| - 1];
      (id, t.(free := t.free[..|t.free| - 1], reserved := t.reserved + {id}))
    else (|t.fibers|, t.(fibers := t.fibers + [None], reserved := t.reserved + {|t.fibers|}))
  }

  function Released(t: Tables, id: FiberId): Tables
    requires id < |t.fibers|
  {
    t.(fibers := t.fibers[id := None], free := t.free + [id], reserved := t.reserved - {id},
      running := t.running - {id})
  }

  function Installed(t: Tables, id: FiberId, fiber: Fiber): Tables
    requires id < |t.fibers|
  {
    t.(fibers := t.fibers[id := Some(fiber)], ready := t.ready + [id], reserved := t.reserved - {id})
  }

  function Popped(t: Tables): Tables
    requires t.ready != [] && t.ready[0] < |t.fibers|
  {
    t.(fibers := t.fibers[t.ready[0] := None], ready := t.ready[1..], running := t.running + {t.ready[0]})
  }

  /** What a resumed fiber did: it slept, waited for a token, waited with a deadline, or ended. */
  datatype Park =
    | Sleep(due: Instant)
    | Readiness(token: Token)
    | ReadinessOrDeadline(token: Token, due: Instant)
    | Return

  function Filing(t: Tables, id: FiberId, fiber: Fiber, park: Park): Tables
    requires id < |t.fibers|
  {
    var back := t.(fibers := t.fibers[id := Some(fiber)], running := t.running - {id});
    match park
    case Sleep(due) => back.(timers := t.timers + [Timer(due, id)])
    case Readiness(token) => back.(waiters := t.waiters[token := id])
    case ReadinessOrDeadline(token, due) =>
      back.(waiters := t.waiters[token := id], deadlines := t.deadlines + [Deadline(due, token, id)])
    case Return => Released(t, id)
  }

  /** Waking one token: its fiber leaves the waiters, and its deadline with it. */
  function Woken(t: Tables, token: Token): Tables {
    if token !in t.waiters then t
    else
      var id := t.waiters[token];
      t.(waiters := t.waiters - {token}, deadlines := Without(t.deadlines, id), ready := t.ready + [id])
  }

  function Without(deadlines: seq<Deadline>, id: FiberId): (rest: seq<Deadline>)
    ensures forall d :: d in rest <==> d in deadlines && d.id != id
  {
    if deadlines == [] then []
    else (if deadlines[0].id == id then [] else [deadlines[0]]) + Without(deadlines[1..], id)
  }

  function WokenAll(t: Tables, tokens: seq<Token>): Tables
    decreases |tokens|
  {
    if tokens == [] then t else WokenAll(Woken(t, tokens[0]), tokens[1..])
  }

  /** The last entry takes the removed one's place. */
  function SwapRemoved<T>(xs: seq<T>, i: nat): seq<T>
    requires i < |xs|
  {
    xs[i := xs[|xs| - 1]][..|xs| - 1]
  }

  /** The sweep of the sleeping fibers from position `i` on. */
  function SweptTimers(t: Tables, i: nat, now: Instant): Tables
    requires i <= |t.timers|
    decreases |t.timers| - i
  {
    if i == |t.timers| then t
    else if t.timers[i].due <= now then
      SweptTimers(t.(timers := SwapRemoved(t.timers, i), ready := t.ready + [t.timers[i].id]), i, now)
    else SweptTimers(t, i + 1, now)
  }

  /** The fiber at one deadline leaves the deadlines and its token, and becomes ready. */
  function DeadlineTaken(t: Tables, i: nat): Tables
    requires i < |t.deadlines|
  {
    var d := t.deadlines[i];
    t.(deadlines := SwapRemoved(t.deadlines, i), waiters := t.waiters - {d.token}, ready := t.ready + [d.id])
  }

  /** The sweep of the waits with a deadline from position `i` on. */
  function SweptDeadlines(t: Tables, i: nat, now: Instant): Tables
    requires i <= |t.deadlines|
    decreases |t.deadlines| - i
  {
    if i == |t.deadlines| then t
    else if t.deadlines[i].due <= now then SweptDeadlines(DeadlineTaken(t, i), i, now)
    else SweptDeadlines(t, i + 1, now)
  }

  function Swept(t: Tables, now: Instant): Tables {
    SweptDeadlines(SweptTimers(t, 0, now), 0, now)
  }

  // ----- every operation keeps the partition

  lemma ReserveKeeps(t: Tables)
    requires Partition(t)
    ensures var (id, after) := Reserved(t);
      Partition(after) && id in after.reserved && id !in t.reserved && id !in t.running && !Live(t, id)
  {
    var (id, after) := Reserved(t);
    if t.free != [] {
      assert id in t.free && forall other <- after.free :: other in t.free && other != id;
      assert forall other <- t.free :: other in after.free || other == id by { assert t.free == after.free + [id]; }
    }
    SameTables(t, after);
  }

  /** Only the slab and the id sets changed, and no fiber came or went. */
  lemma SameTables(t: Tables, after: Tables)
    requires after.ready == t.ready && after.timers == t.timers && after.waiters == t.waiters && Filed(t)
    requires forall id: FiberId :: Live(t, id) <==> Live(after, id)
    ensures Filed(after)
  {
    assert forall id: FiberId :: (Sleeps(t, id) <==> Sleeps(after, id)) && (Waits(t, id) <==> Waits(after, id));
  }

  lemma ReleaseKeeps(t: Tables, id: FiberId)
    requires Partition(t) && (id in t.reserved || id in t.running)
    ensures Partition(Released(t, id))
  {
    SameTables(t, Released(t, id));
  }

  lemma InstallKeeps(t: Tables, id: FiberId, fiber: Fiber)
    requires Partition(t) && id in t.reserved
    ensures Partition(Installed(t, id, fiber))
  {
    var after := Installed(t, id, fiber);
    assert !Live(t, id);
    assert forall other: FiberId ::
      (Sleeps(t, other) <==> Sleeps(after, other)) && (Waits(t, other) <==> Waits(after, other));
    assert forall other: FiberId :: other in after.ready <==> other in t.ready || other == id;
  }

  /** The head of the ready queue is in the slab, so taking it out never fails, and it is
      nowhere else, so it is not resumed twice. */
  lemma PopKeeps(t: Tables)
    requires Partition(t) && t.ready != []
    ensures Live(t, t.ready[0]) && Partition(Popped(t)) && t.ready[0] in Popped(t).running
  {
    var id := t.ready[0];
    assert id in t.ready && Live(t, id);
    var after := Popped(t);
    assert t.ready == [id] + after.ready;
    assert forall other: FiberId ::
      (Sleeps(t, other) <==> Sleeps(after, other)) && (Waits(t, other) <==> Waits(after, other));
  }

  /** A running fiber comes back. Filing it under a token keeps the partition exactly when no
      other fiber is filed under that token: otherwise the earlier one is lost. */
  lemma FilingKeepsExactly(t: Tables, id: FiberId, fiber: Fiber, park: Park)
    requires Partition(t) && id in t.running
    ensures Partition(Filing(t, id, fiber, park)) <==>
      (park.Readiness? || park.ReadinessOrDeadline? ==> park.token !in t.waiters)
  {
    var after := Filing(t, id, fiber, park);
    assert !Live(t, id) && !Sleeps(t, id) && !Waits(t, id);
    match park
    case Return => ReleaseKeeps(t, id);
    case Sleep(due) =>
      assert forall other: FiberId :: Sleeps(after, other) <==> Sleeps(t, other) || other == id
        by { TimerAdded(t, after, Timer(due, id)); }
      assert forall other: FiberId :: Waits(t, other) <==> Waits(after, other);
    case Readiness(token) => FilingToken(t, after, id, token);
    case ReadinessOrDeadline(token, _) => FilingToken(t, after, id, token);
  }

  lemma TimerAdded(t: Tables, after: Tables, timer: Timer)
    requires after.timers == t.timers + [timer]
    ensures forall other: FiberId :: Sleeps(after, other) <==> Sleeps(t, other) || other == timer.id
  {
    assert forall x <- t.timers :: x in after.timers;
    assert timer in after.timers;
  }

  lemma FilingToken(t: Tables, after: Tables, id: FiberId, token: Token)
    requires Partition(t) && id in t.running && !Waits(t, id)
    requires after.waiters == t.waiters[token := id] && after.timers == t.timers && after.ready == t.ready &&
      after.running == t.running - {id}
    requires id < |t.fibers| && after.free == t.free && after.reserved == t.reserved
    requires exists fiber :: after.fibers == t.fibers[id := Some(fiber)]
    requires after.deadlines == t.deadlines || exists due :: after.deadlines == t.deadlines + [Deadline(due, token, id)]
    ensures Partition(after) <==> token !in t.waiters
  {
    assert forall other: FiberId :: Sleeps(t, other) <==> Sleeps(after, other);
    if token in t.waiters {
      var lost := t.waiters[token];
      assert Waits(t, lost) && Live(t, lost) && Live(after, lost);
      assert forall other <- after.waiters :: after.waiters[other] != lost;
      assert !Once(lost in after.ready, Sleeps(after, lost), Waits(after, lost));
    } else {
      assert after.waiters[token] == id && forall other <- t.waiters :: after.waiters[other] == t.waiters[other];
      assert forall other: FiberId :: Waits(after, other) <==> Waits(t, other) || other == id;
      FiledWith(t, after, id);
    }
  }

  /** One more fiber, in exactly one of the tables it was in none of. */
  lemma FiledWith(t: Tables, after: Tables, id: FiberId)
    requires Filed(t) && !Live(t, id) && Live(after, id) && after.ready == t.ready && after.timers == t.timers
    requires forall other: FiberId :: other != id ==> (Live(t, other) <==> Live(after, other))
    requires forall other: FiberId :: Sleeps(t, other) <==> Sleeps(after, other)
    requires forall other: FiberId :: Waits(after, other) <==> Waits(t, other) || other == id
    requires forall a, b | a in after.waiters && b in after.waiters && a != b :: after.waiters[a] != after.waiters[b]
    ensures Filed(after)
  {
  }

  /** A waking token moves its fiber from the waiters to the ready queue, once. */
  lemma WokenKeeps(t: Tables, token: Token)
    requires Partition(t)
    ensures Partition(Woken(t, token))
    ensures forall id: FiberId ::
      id in Woken(t, token).ready <==> id in t.ready || (token in t.waiters && t.waiters[token] == id)
  {
    if token in t.waiters {
      var id, after := t.waiters[token], Woken(t, token);
      assert Waits(t, id);
      assert forall other: FiberId :: Sleeps(t, other) <==> Sleeps(after, other);
      LeavesWaiters(t, after, token);
      WithoutKeepsDistinct(t.deadlines, id);
    }
  }

  lemma LeavesWaiters(t: Tables, after: Tables, token: Token)
    requires token in t.waiters && after.waiters == t.waiters - {token}
    requires forall a, b | a in t.waiters && b in t.waiters && a != b :: t.waiters[a] != t.waiters[b]
    ensures forall other: FiberId :: Waits(after, other) <==> Waits(t, other) && other != t.waiters[token]
  {
    forall other: FiberId | Waits(t, other) && other != t.waiters[token] ensures Waits(after, other) {
      var a :| a in t.waiters && t.waiters[a] == other;
      assert a in after.waiters;
    }
  }

  lemma {:induction false} WithoutKeepsDistinct(deadlines: seq<Deadline>, id: FiberId)
    requires DistinctIds(deadlines)
    ensures DistinctIds(Without(deadlines, id))
  {
    if deadlines != [] {
      WithoutKeepsDistinct(deadlines[1..], id);
      var rest := Without(deadlines[1..], id);
      forall d <- rest ensures d.id != deadlines[0].id {
        var i :| 0 <= i < |deadlines[1..]| && deadlines[1..][i] == d;
        assert deadlines[i + 1] == d;
      }
      assert DistinctIds([deadlines[0]] + rest);
    }
  }

  lemma {:induction false} WokenAllKeeps(t: Tables, tokens: seq<Token>)
    requires Partition(t)
    ensures Partition(WokenAll(t, tokens))
    ensures forall id: FiberId ::
      id in WokenAll(t, tokens).ready <==>
        id in t.ready || exists token <- tokens :: token in t.waiters && t.waiters[token] == id
    decreases |tokens|
  {
    if tokens != [] {
      var first := Woken(t, tokens[0]);
      WokenKeeps(t, tokens[0]);
      WokenAllKeeps(first, tokens[1..]);
      assert tokens == [tokens[0]] + tokens[1..];
    }
  }

  // ----- the sweep

  lemma SwapRemovedHolds<T>(xs: seq<T>, i: nat)
    requires i < |xs| && NoRepeats(xs)
    ensures forall x :: x in SwapRemoved(xs, i) <==> x in xs && x != xs[i]
    ensures NoRepeats(SwapRemoved(xs, i))
  {
    var last := |xs| - 1;
    forall x | x in xs && x != xs[i] ensures x in SwapRemoved(xs, i) {
      var j :| 0 <= j < |xs| && xs[j] == x;
      assert SwapRemoved(xs, i)[if j == last then i else j] == x;
    }
  }

  /** Waking the sleeping fiber at one position. */
  lemma TimerWakes(t: Tables, i: nat)
    requires Partition(t) && i < |t.timers|
    ensures Partition(t.(timers := SwapRemoved(t.timers, i), ready := t.ready + [t.timers[i].id]))
  {
    var id := t.timers[i].id;
    var after := t.(timers := SwapRemoved(t.timers, i), ready := t.ready + [id]);
    assert t.timers[i] in t.timers && Sleeps(t, id);
    assert NoRepeats(t.timers);
    SwapRemovedHolds(t.timers, i);
    assert forall other: FiberId :: Waits(t, other) <==> Waits(after, other);
    forall other: FiberId ensures Sleeps(after, other) <==> Sleeps(t, other) && other != id {
      if Sleeps(t, other) && other != id {
        var timer :| timer in t.timers && timer.id == other;
        assert timer in after.timers;
      }
    }
    assert forall other: FiberId :: other in after.ready <==> other in t.ready || other == id;
    assert NoRepeats(after.ready);
  }

  /** Waking the fiber at one deadline, with its waiter entry. */
  lemma DeadlineWakes(t: Tables, i: nat)
    requires Partition(t) && i < |t.deadlines|
    ensures Partition(DeadlineTaken(t, i))
  {
    var d := t.deadlines[i];
    var after := DeadlineTaken(t, i);
    assert d in t.deadlines && Waits(t, d.id);
    assert NoRepeats(t.deadlines);
    SwapRemovedHolds(t.deadlines, i);
    LeavesWaiters(t, after, d.token);
    assert forall other: FiberId :: Sleeps(t, other) <==> Sleeps(after, other);
    assert forall other: FiberId :: other in after.ready <==> other in t.ready || other == d.id;
    assert NoRepeats(after.ready);
    forall x <- after.deadlines ensures x.token in after.waiters {
      assert x in t.deadlines && x != d;
      var j :| 0 <= j < |t.deadlines| && t.deadlines[j] == x;
      assert x.id != d.id;
    }
  }

  /** After the sweep of the sleeping fibers: exactly those not yet due sleep on, every due one
      is ready, and nothing else moved. */
  lemma {:induction false} SweptTimersExactly(t: Tables, i: nat, now: Instant)
    requires Partition(t) && i <= |t.timers| && forall j | 0 <= j < i :: t.timers[j].due > now
    ensures var after := SweptTimers(t, i, now);
      && Partition(after)
      && (forall timer :: timer in after.timers <==> timer in t.timers && timer.due > now)
      && (forall id: FiberId ::
          id in after.ready <==> id in t.ready || exists timer <- t.timers :: timer.due <= now && timer.id == id)
      && after == t.(timers := after.timers, ready := after.ready)
    decreases |t.timers| - i
  {
    if i < |t.timers| {
      if t.timers[i].due <= now {
        TimerWakes(t, i);
        var next := t.(timers := SwapRemoved(t.timers, i), ready := t.ready + [t.timers[i].id]);
        assert NoRepeats(t.timers);
        SwapRemovedHolds(t.timers, i);
        SweptTimersExactly(next, i, now);
      } else {
        SweptTimersExactly(t, i + 1, now);
      }
    }
  }

  function DueTokens(deadlines: seq<Deadline>, now: Instant): set<Token> {
    set d <- deadlines | d.due <= now :: d.token
  }

  /** Exactly the waits not yet due are left, every due fiber is ready and off its token, and
      nothing else moved. */
  ghost predicate DeadlinesSwept(t: Tables, after: Tables, now: Instant) {
    && (forall d :: d in after.deadlines <==> d in t.deadlines && d.due > now)
    && (forall id: FiberId ::
        id in after.ready <==> id in t.ready || exists d <- t.deadlines :: d.due <= now && d.id == id)
    && after == t.(deadlines := after.deadlines, ready := after.ready,
       waiters := t.waiters - DueTokens(t.deadlines, now))
  }

  /** One due wait taken out, and the rest swept. */
  lemma FirstDeadlineSwept(t: Tables, d: Deadline, next: Tables, after: Tables, now: Instant)
    requires d in t.deadlines && d.due <= now
    requires forall x :: x in next.deadlines <==> x in t.deadlines && x != d
    requires next == t.(deadlines := next.deadlines, waiters := t.waiters - {d.token}, ready := t.ready + [d.id])
    requires DeadlinesSwept(next, after, now)
    ensures DeadlinesSwept(t, after, now)
  {
    assert DueTokens(t.deadlines, now) == DueTokens(next.deadlines, now) + {d.token};
  }

  lemma RestNotDue(t: Tables, i: nat, now: Instant)
    requires Partition(t) && i < |t.deadlines| && forall j | 0 <= j < i :: t.deadlines[j].due > now
    ensures var rest := DeadlineTaken(t, i).deadlines;
      && (forall x :: x in rest <==> x in t.deadlines && x != t.deadlines[i])
      && (forall j | 0 <= j < i && j < |rest| :: rest[j].due > now)
  {
    assert NoRepeats(t.deadlines);
    SwapRemovedHolds(t.deadlines, i);
  }

  lemma {:induction false} SweptDeadlinesExactly(t: Tables, i: nat, now: Instant)
    requires Partition(t) && i <= |t.deadlines| && forall j | 0 <= j < i :: t.deadlines[j].due > now
    ensures var after := SweptDeadlines(t, i, now); Partition(after) && DeadlinesSwept(t, after, now)
    decreases |t.deadlines| - i
  {
    if i == |t.deadlines| {
      NothingDue(t, now);
    } else if t.deadlines[i].due <= now {
      var next := DeadlineTaken(t, i);
      DeadlineWakes(t, i);
      RestNotDue(t, i, now);
      SweptDeadlinesExactly(next, i, now);
      FirstDeadlineSwept(t, t.deadlines[i], next, SweptDeadlines(next, i, now), now);
    } else {
      SweptDeadlinesExactly(t, i + 1, now);
    }
  }

  lemma NothingDue(t: Tables, now: Instant)
    requires forall j | 0 <= j < |t.deadlines| :: t.deadlines[j].due > now
    ensures DeadlinesSwept(t, t, now)
  {
    assert DueTokens(t.deadlines, now) == {};
  }

  // ----- whole runs

  /** Anything a worker may do to its scheduler, in any order: its loop's own steps, and what the
      fiber it resumes asks for while running. */
  datatype Operation =
    | Reserve
    | Release(id: FiberId)
    | Install(fiber: Fiber)
    | Pop
    | File(id: FiberId, fiber: Fiber, park: Park)
    | Wake(tokens: seq<Token>)
    | SweepDue(now: Instant)

  /** The one hypothesis is `File`'s: no two fibers wait on one token at once. */
  predicate Can(t: Tables, op: Operation) {
    match op
    case Release(id) => id in t.reserved
    case Pop => t.ready != []
    case File(id, _, park) =>
      id in t.running && (park.Readiness? || park.ReadinessOrDeadline? ==> park.token !in t.waiters)
    case _ => true
  }

  ghost predicate Goes(t: Tables, op: Operation, after: Tables) {
    match op
    case Reserve => after == Reserved(t).1
    case Release(id) => id < |t.fibers| ==> after == Released(t, id)
    case Install(fiber) =>
      var (id, reserved) := Reserved(t); id < |reserved.fibers| ==> after == Installed(reserved, id, fiber)
    case Pop => t.ready != [] && Live(t, t.ready[0]) ==> after == Popped(t)
    case File(id, fiber, park) => id < |t.fibers| ==> after == Filing(t, id, fiber, park)
    case Wake(tokens) => after == WokenAll(t, tokens)
    case SweepDue(now) => after == Swept(t, now)
  }

  ghost predicate Run(tables: seq<Tables>, ops: seq<Operation>) {
    && |tables| == |ops| + 1 && tables[0] == EMPTY
    && forall k | 0 <= k < |ops| :: Can(tables[k], ops[k]) && Goes(tables[k], ops[k], tables[k + 1])
  }

  lemma OperationKeeps(t: Tables, op: Operation, after: Tables)
    requires Partition(t) && Can(t, op) && Goes(t, op, after)
    ensures Partition(after)
  {
    match op
    case Reserve => ReserveKeeps(t);
    case Release(id) => ReleaseKeeps(t, id);
    case Install(fiber) =>
      ReserveKeeps(t);
      InstallKeeps(Reserved(t).1, Reserved(t).0, fiber);
    case Pop => PopKeeps(t);
    case File(id, fiber, park) => FilingKeepsExactly(t, id, fiber, park);
    case Wake(tokens) => WokenAllKeeps(t, tokens);
    case SweepDue(now) =>
      SweptTimersExactly(t, 0, now);
      SweptDeadlinesExactly(SweptTimers(t, 0, now), 0, now);
  }

  /** In every state of every run: each fiber of the slab is in exactly one table and once, each
      deadline has its waiter, the ids are partitioned, and a pop finds its fiber. */
  lemma {:induction false} EveryRunIsPartitioned(tables: seq<Tables>, ops: seq<Operation>, k: nat)
    requires Run(tables, ops) && k < |tables|
    ensures Partition(tables[k])
    ensures k < |ops| && ops[k].Pop? ==> Live(tables[k], tables[k].ready[0])
  {
    if k > 0 {
      EveryRunIsPartitioned(tables, ops, k - 1);
      OperationKeeps(tables[k - 1], ops[k - 1], tables[k]);
    }
    if k < |ops| && ops[k].Pop? { PopKeeps(tables[k]); }
  }

  /** What the operations alone say is kept under an id: the fiber last installed or filed there. */
  function LastKept(tables: seq<Tables>, ops: seq<Operation>, k: nat, id: FiberId): Option<Fiber>
    requires k < |tables| == |ops| + 1
  {
    if k == 0 then None
    else
      match ops[k - 1]
      case Install(fiber) =>
        if Reserved(tables[k - 1]).0 == id then Some(fiber) else LastKept(tables, ops, k - 1, id)
      case File(i, fiber, park) =>
        if i == id && !park.Return? then Some(fiber) else LastKept(tables, ops, k - 1, id)
      case _ => LastKept(tables, ops, k - 1, id)
  }

  lemma {:induction false} WokenAllKeepsFibers(t: Tables, tokens: seq<Token>)
    ensures WokenAll(t, tokens).fibers == t.fibers
    decreases |tokens|
  {
    if tokens != [] {
      WokenAllKeepsFibers(Woken(t, tokens[0]), tokens[1..]);
    }
  }

  /** One operation leaves a fiber as it is, unless it installs or files another under its id. */
  lemma OperationKeepsFiber(t: Tables, op: Operation, after: Tables, id: FiberId)
    requires Partition(t) && Can(t, op) && Goes(t, op, after) && Live(after, id)
    ensures match op
            case Install(fiber) =>
              if Reserved(t).0 == id then after.fibers[id] == Some(fiber)
              else Live(t, id) && after.fibers[id] == t.fibers[id]
            case File(i, fiber, park) =>
              if i == id && !park.Return? then after.fibers[id] == Some(fiber)
              else Live(t, id) && after.fibers[id] == t.fibers[id]
            case _ => Live(t, id) && after.fibers[id] == t.fibers[id]
  {
    match op
    case Wake(tokens) => WokenAllKeepsFibers(t, tokens);
    case SweepDue(now) =>
      SweptTimersExactly(t, 0, now);
      SweptDeadlinesExactly(SweptTimers(t, 0, now), 0, now);
    case Pop => PopKeeps(t);
    case _ =>
  }

  /** Over every run: what the slab holds under an id, and so what a pop takes from it, is the
      fiber that was last installed or filed under that id. */
  lemma {:induction false} SlabHoldsWhatWasKept(tables: seq<Tables>, ops: seq<Operation>, k: nat, id: FiberId)
    requires Run(tables, ops) && k < |tables| && Live(tables[k], id)
    ensures tables[k].fibers[id] == LastKept(tables, ops, k, id)
    decreases k
  {
    if k > 0 {
      EveryRunIsPartitioned(tables, ops, k - 1);
      OperationKeepsFiber(tables[k - 1], ops[k - 1], tables[k], id);
      if Live(tables[k - 1], id) {
        SlabHoldsWhatWasKept(tables, ops, k - 1, id);
      }
    }
  }

  /** The pops from operation `k` up to operation `m`. */
  function Pops(ops: seq<Operation>, k: nat, m: nat): nat
    requires k <= m <= |ops|
  {
    if k == m then 0 else Pops(ops, k, m - 1) + if ops[m - 1].Pop? then 1 else 0
  }

  lemma {:induction false} WokenAllAppends(t: Tables, tokens: seq<Token>)
    ensures t.ready <= WokenAll(t, tokens).ready
    decreases |tokens|
  {
    if tokens != [] {
      WokenAllAppends(Woken(t, tokens[0]), tokens[1..]);
    }
  }

  lemma {:induction false} SweptTimersAppends(t: Tables, i: nat, now: Instant)
    requires i <= |t.timers|
    ensures t.ready <= SweptTimers(t, i, now).ready
    decreases |t.timers| - i
  {
    if i < |t.timers| {
      if t.timers[i].due <= now {
        SweptTimersAppends(t.(timers := SwapRemoved(t.timers, i), ready := t.ready + [t.timers[i].id]), i, now);
      } else {
        SweptTimersAppends(t, i + 1, now);
      }
    }
  }

  lemma {:induction false} SweptDeadlinesAppends(t: Tables, i: nat, now: Instant)
    requires i <= |t.deadlines|
    ensures t.ready <= SweptDeadlines(t, i, now).ready
    decreases |t.deadlines| - i
  {
    if i < |t.deadlines| {
      if t.deadlines[i].due <= now {
        SweptDeadlinesAppends(DeadlineTaken(t, i), i, now);
      } else {
        SweptDeadlinesAppends(t, i + 1, now);
      }
    }
  }

  lemma OperationAppends(t: Tables, op: Operation, after: Tables)
    requires Partition(t) && Can(t, op) && Goes(t, op, after)
    ensures if op.Pop? then t.ready == [t.ready[0]] + after.ready else t.ready <= after.ready
  {
    match op
    case Pop => PopKeeps(t);
    case Wake(tokens) => WokenAllAppends(t, tokens);
    case SweepDue(now) =>
      SweptTimersAppends(t, 0, now);
      SweptDeadlinesAppends(SweptTimers(t, 0, now), 0, now);
    case _ =>
  }

  /** Pops take the ready queue from its front, whatever else happens in between. */
  lemma {:induction false} ReadyStays(tables: seq<Tables>, ops: seq<Operation>, k: nat, m: nat)
    requires Run(tables, ops) && k <= m < |tables| && Pops(ops, k, m) <= |tables[k].ready|
    ensures tables[k].ready[Pops(ops, k, m)..] <= tables[m].ready
    decreases m
  {
    if k < m {
      ReadyStays(tables, ops, k, m - 1);
      StepAppends(tables, ops, m - 1);
      TurnStep(tables[k].ready, Pops(ops, k, m - 1), tables[m - 1].ready, tables[m].ready, ops[m - 1].Pop?);
    }
  }

  lemma StepAppends(tables: seq<Tables>, ops: seq<Operation>, k: nat)
    requires Run(tables, ops) && k < |ops|
    ensures var ready, after := tables[k].ready, tables[k + 1].ready;
      if ops[k].Pop? then ready != [] && ready == [ready[0]] + after else ready <= after
  {
    EveryRunIsPartitioned(tables, ops, k);
    OperationAppends(tables[k], ops[k], tables[k + 1]);
  }

  /** Ready fibers are resumed in turn: the fiber at position `p` of the ready queue is taken by
      the pop that has `p` pops before it, whatever happens in between. */
  lemma ReadyInTurn(tables: seq<Tables>, ops: seq<Operation>, k: nat, m: nat)
    requires Run(tables, ops) && k <= m < |ops| && ops[m].Pop? && Pops(ops, k, m) < |tables[k].ready|
    ensures tables[m].ready != [] && tables[m].ready[0] == tables[k].ready[Pops(ops, k, m)]
  {
    ReadyStays(tables, ops, k, m);
    assert tables[k].ready[Pops(ops, k, m)..][0] == tables[k].ready[Pops(ops, k, m)];
  }

  lemma TurnStep(first: seq<FiberId>, taken: nat, ready: seq<FiberId>, after: seq<FiberId>, pop: bool)
    requires taken + (if pop then 1 else 0) <= |first| && first[taken..] <= ready
    requires if pop then ready != [] && ready == [ready[0]] + after else ready <= after
    ensures first[taken + if pop then 1 else 0..] <= after
  {
  }

  ghost predicate DueIn(t: Tables, id: FiberId, now: Instant) {
    || (exists timer <- t.timers :: timer.due <= now && timer.id == id)
    || (exists d <- t.deadlines :: d.due <= now && d.id == id)
  }

  lemma SweptExactly(t: Tables, id: FiberId, now: Instant)
    requires Partition(t)
    ensures id in Swept(t, now).ready <==> id in t.ready || DueIn(t, id, now)
  {
    SweptTimersExactly(t, 0, now);
    SweptDeadlinesExactly(SweptTimers(t, 0, now), 0, now);
  }

  /** A running fiber stands in no table. */
  lemma RunningIsUnfiled(t: Tables, id: FiberId)
    requires Partition(t) && id in t.running
    ensures id !in t.ready
    ensures forall timer <- t.timers :: timer.id != id
    ensures forall d <- t.deadlines :: d.id != id
  {
    assert !Live(t, id) && !Sleeps(t, id) && !Waits(t, id);
  }

  lemma FiledIsDueExactly(t: Tables, id: FiberId, fiber: Fiber, park: Park, now: Instant)
    requires id < |t.fibers| && !park.Return?
    requires forall timer <- t.timers :: timer.id != id
    requires forall d <- t.deadlines :: d.id != id
    ensures DueIn(Filing(t, id, fiber, park), id, now) <==> !park.Readiness? && park.due <= now
  {
    var filed := Filing(t, id, fiber, park);
    match park
    case Sleep(due) => assert Timer(due, id) in filed.timers;
    case Readiness(_) =>
    case ReadinessOrDeadline(token, due) => assert Deadline(due, token, id) in filed.deadlines;
  }

  /** A sweep readies a parked fiber exactly when its instant has come: never one that waits
      without a deadline. */
  lemma ParkedIsSweptExactly(t: Tables, id: FiberId, fiber: Fiber, park: Park, now: Instant)
    requires Partition(t) && id in t.running && !park.Return?
    requires park.Sleep? || park.token !in t.waiters
    ensures id in Swept(Filing(t, id, fiber, park), now).ready <==> !park.Readiness? && park.due <= now
  {
    FilingKeepsExactly(t, id, fiber, park);
    RunningIsUnfiled(t, id);
    SweptExactly(Filing(t, id, fiber, park), id, now);
    FiledIsDueExactly(t, id, fiber, park, now);
  }

  /** A readiness event readies a parked fiber exactly when it is for the token the fiber waits on. */
  lemma ParkedIsWokenExactly(t: Tables, id: FiberId, fiber: Fiber, park: Park, tokens: seq<Token>)
    requires Partition(t) && id in t.running && !park.Return?
    requires park.Sleep? || park.token !in t.waiters
    ensures id in WokenAll(Filing(t, id, fiber, park), tokens).ready <==> !park.Sleep? && park.token in tokens
  {
    FilingKeepsExactly(t, id, fiber, park);
    assert !Live(t, id) && !Waits(t, id);
    WokenAllKeeps(Filing(t, id, fiber, park), tokens);
  }

  // ----- two fibers on one token

  /** One fiber filed under a token while another one runs. */
  function OneWaiting(fiber: Fiber, token: Token): Tables {
    Tables([Some(fiber), None], [], [], [], map[token := 0], [], {1}, {})
  }

  lemma OneWaitingIsReached(fiber: Fiber, token: Token) returns (tables: seq<Tables>, ops: seq<Operation>)
    ensures Run(tables, ops) && tables[|ops|] == OneWaiting(fiber, token)
  {
    var one := Tables([Some(fiber)], [], [0], [], map[], [], {}, {});
    var two := Tables([Some(fiber), Some(fiber)], [], [0, 1], [], map[], [], {}, {});
    var running := Tables([None, Some(fiber)], [], [1], [], map[], [], {0}, {});
    var filed := Tables([Some(fiber), Some(fiber)], [], [1], [], map[token := 0], [], {}, {});
    tables := [EMPTY, one, two, running, filed, OneWaiting(fiber, token)];
    ops := [Install(fiber), Install(fiber), Pop, File(0, fiber, Readiness(token)), Pop];
    assert Installed(Reserved(EMPTY).1, 0, fiber) == one;
    assert Installed(Reserved(one).1, 1, fiber) == two;
    assert Popped(two) == running;
    assert Filing(running, 0, fiber, Readiness(token)) == filed;
    assert Popped(filed) == OneWaiting(fiber, token);
  }

  /** The second fiber filed under the token strands the first: live, and in no table at all. */
  lemma SecondWaiterStrandsFirst(fiber: Fiber, token: Token)
    ensures var after := Filing(OneWaiting(fiber, token), 1, fiber, Readiness(token));
      && Live(after, 0) && 0 !in after.ready && !Sleeps(after, 0) && !Waits(after, 0) && !Partition(after)
  {
    var after := Filing(OneWaiting(fiber, token), 1, fiber, Readiness(token));
    assert after.waiters == map[token := 1];
    assert !Waits(after, 0);
  }

  // ----- the scheduler itself

  /** The earliest instant anything parked waits for. */
  ghost predicate Earliest(timers: seq<Timer>, deadlines: seq<Deadline>, due: Instant) {
    && ((exists timer <- timers :: timer.due == due) || exists d <- deadlines :: d.due == due)
    && (forall timer <- timers :: due <= timer.due)
    && (forall d <- deadlines :: due <= d.due)
  }

  class FiberScheduler {
    var fibers: seq<Option<Fiber>>
    var free: seq<FiberId>
    var ready: seq<FiberId>
    var timers: seq<Timer>
    var waiters: map<Token, FiberId>
    var deadlines: seq<Deadline>
    var background: set<Token>
    ghost var running: set<FiberId>
    ghost var reserved: set<FiberId>

    ghost function View(): Tables
      reads this
    {
      Tables(fibers, free, ready, timers, waiters, deadlines, running, reserved)
    }

    ghost predicate Valid()
      reads this
    {
      Partition(View())
    }

    constructor ()
      ensures Valid() && View() == EMPTY && background == {}
    {
      fibers, free, ready, timers, waiters, deadlines, background := [], [], [], [], map[], [], {};
      running, reserved := {}, {};
    }

    method ReserveId() returns (id: FiberId)
      requires Valid()
      modifies this
      ensures Valid() && (id, View()) == Reserved(old(View())) && background == old(background)
      ensures id in reserved && id < |fibers| && !old(Live(View(), id)) && id !in old(running) && id !in old(reserved)
    {
      ReserveKeeps(View());
      if free != [] {
        id := free[|free| - 1];
        free := free[..|free| - 1];
      } else {
        id := |fibers|;
        fibers := fibers + [None];
      }
      reserved := reserved + {id};
    }

    method ReleaseId(id: FiberId)
      requires Valid() && (id in reserved || id in running)
      modifies this
      ensures Valid() && View() == Released(old(View()), id) && background == old(background)
    {
      ReleaseKeeps(View(), id);
      fibers := fibers[id := None];
      free := free + [id];
      reserved, running := reserved - {id}, running - {id};
    }

    method InstallFiber(fiber: Fiber) returns (ghost id: FiberId)
      requires Valid()
      modifies this
      ensures Valid() && id == Reserved(old(View())).0 && background == old(background)
      ensures View() == Installed(Reserved(old(View())).1, id, fiber)
    {
      var slot := ReserveId();
      InstallKeeps(View(), slot, fiber);
      fibers := fibers[slot := Some(fiber)];
      ready := ready + [slot];
      reserved := reserved - {slot};
      id := slot;
    }

    /** The next ready fiber, out of the queue and out of the slab together. */
    method PopReady() returns (next: Option<(FiberId, Fiber)>)
      requires Valid()
      modifies this
      ensures Valid() && background == old(background)
      ensures next.None? <==> old(ready) == []
      ensures next.None? ==> View() == old(View())
      ensures next.Some? ==>
        old(ready)[0] == next.value.0 < |old(fibers)| && old(fibers)[next.value.0] == Some(next.value.1) &&
          View() == Popped(old(View()))
    {
      if ready == [] {
        return None;
      }
      PopKeeps(View());
      var id := ready[0];
      var fiber := fibers[id].value;
      fibers, ready := fibers[id := None], ready[1..];
      running := running + {id};
      next := Some((id, fiber));
    }

    /** File a resumed fiber under what it yielded, or drop it when it returned. A token another
        fiber already waits on is overwritten, and the scheduler is then no longer valid. */
    method FileFiber(id: FiberId, fiber: Fiber, park: Park)
      requires Valid() && id in running
      modifies this
      ensures View() == Filing(old(View()), id, fiber, park) && background == old(background)
      ensures Valid() <==> (park.Readiness? || park.ReadinessOrDeadline? ==> park.token !in old(waiters))
    {
      FilingKeepsExactly(View(), id, fiber, park);
      match park
      case Sleep(due) =>
        fibers, timers := fibers[id := Some(fiber)], timers + [Timer(due, id)];
        running := running - {id};
      case Readiness(token) =>
        fibers, waiters := fibers[id := Some(fiber)], waiters[token := id];
        running := running - {id};
      case ReadinessOrDeadline(token, due) =>
        fibers, waiters := fibers[id := Some(fiber)], waiters[token := id];
        deadlines := deadlines + [Deadline(due, token, id)];
        running := running - {id};
      case Return =>
        fibers, free := fibers[id := None], free + [id];
        running, reserved := running - {id}, reserved - {id};
    }

    method SweepTimers(now: Instant)
      requires Valid()
      modifies `timers, `ready
      ensures View() == SweptTimers(old(View()), 0, now)
    {
      ghost var start := View();
      var i := 0;
      while i < |timers|
        invariant 0 <= i <= |timers|
        invariant SweptTimers(View(), i, now) == SweptTimers(start, 0, now)
        decreases |timers| - i
      {
        if timers[i].due <= now {
          var id := timers[i].id;
          timers := SwapRemoved(timers, i);
          ready := ready + [id];
        } else {
          i := i + 1;
        }
      }
    }

    method SweepDeadlines(now: Instant)
      requires Valid()
      modifies `deadlines, `waiters, `ready
      ensures View() == SweptDeadlines(old(View()), 0, now)
    {
      ghost var start := View();
      var i := 0;
      while i < |deadlines|
        invariant 0 <= i <= |deadlines|
        invariant SweptDeadlines(View(), i, now) == SweptDeadlines(start, 0, now)
        decreases |deadlines| - i
      {
        if deadlines[i].due <= now {
          var d := deadlines[i];
          deadlines := SwapRemoved(deadlines, i);
          waiters := waiters - {d.token};
          ready := ready + [d.id];
        } else {
          i := i + 1;
        }
      }
    }

    /** Move every due timer and every due wait with a deadline to the ready queue. */
    method SweepDue(now: Instant)
      requires Valid()
      modifies `timers, `deadlines, `waiters, `ready
      ensures Valid() && View() == Swept(old(View()), now)
      ensures forall timer <- timers :: timer.due > now
      ensures forall d <- deadlines :: d.due > now
      ensures forall id: FiberId :: id in ready <==>
        (|| id in old(ready)
         || (exists timer <- old(timers) :: timer.due <= now && timer.id == id)
         || (exists d <- old(deadlines) :: d.due <= now && d.id == id))
    {
      SweptTimersExactly(View(), 0, now);
      SweepTimers(now);
      SweptDeadlinesExactly(View(), 0, now);
      SweepDeadlines(now);
    }

    /** Move the fiber filed under each ready token to the ready queue; a token nobody is filed
        under is ignored. */
    method WakeTokens(tokens: seq<Token>)
      requires Valid()
      modifies this
      ensures Valid() && View() == WokenAll(old(View()), tokens) && background == old(background)
      ensures forall id: FiberId ::
        id in ready <==>
          id in old(ready) || exists token <- tokens :: token in old(waiters) && old(waiters)[token] == id
    {
      ghost var start := View();
      WokenAllKeeps(start, tokens);
      var i := 0;
      while i < |tokens|
        invariant 0 <= i <= |tokens| && background == old(background)
        invariant WokenAll(View(), tokens[i..]) == WokenAll(start, tokens)
      {
        var token := tokens[i];
        assert tokens[i..][0] == token && tokens[i..][1..] == tokens[i + 1..];
        if token in waiters {
          var id := waiters[token];
          waiters := waiters - {token};
          deadlines := Without(deadlines, id);
          ready := ready + [id];
        }
        i := i + 1;
      }
    }

    /** How long the next reactor wait may block: not at all worth it (`None`) when nothing is
        parked that keeps the program going, otherwise until the nearest deadline, or without
        limit when there is none. */
    method IdleWaitPlan(now: Instant) returns (plan: Option<Option<Instant>>)
      requires Valid()
      ensures plan.None? <==> timers == [] && deadlines == [] && forall token <- waiters :: token in background
      ensures plan.Some? ==> (plan.value.None? <==> timers == [] && deadlines == [])
      ensures plan.Some? && plan.value.Some? ==>
        exists due :: Earliest(timers, deadlines, due) && plan.value.value == if due <= now then 0 else due - now
    {
      var nearest: Option<Instant> := None;
      for i := 0 to |timers|
        invariant nearest.None? <==> i == 0
        invariant nearest.Some? ==>
          (exists timer <- timers :: timer.due == nearest.value) &&
            forall j | 0 <= j < i :: nearest.value <= timers[j].due
      {
        if nearest.None? || timers[i].due < nearest.value {
          nearest := Some(timers[i].due);
          assert timers[i] in timers;
        }
      }
      for i := 0 to |deadlines|
        invariant nearest.None? <==> i == 0 && timers == []
        invariant nearest.Some? ==>
          && ((exists timer <- timers :: timer.due == nearest.value) || exists d <- deadlines :: d.due == nearest.value)
          && (forall timer <- timers :: nearest.value <= timer.due) &&
              forall j | 0 <= j < i :: nearest.value <= deadlines[j].due
      {
        if nearest.None? || deadlines[i].due < nearest.value {
          nearest := Some(deadlines[i].due);
          assert deadlines[i] in deadlines;
        }
      }
      if nearest.Some? {
        assert Earliest(timers, deadlines, nearest.value);
        plan := Some(Some(if nearest.value <= now then 0 else nearest.value - now));
      } else if exists token <- waiters :: token !in background {
        plan := Some(None);
      } else {
        plan := None;
      }
    }
  }
}
