/** Fiber stacks and the collector. Each OS thread switches between its own stack and the
    stacks of its fibers, nested to any depth; the collector stops every thread at any instant
    at which collection is not disabled. The steps below are the individual publications,
    stack-bottom updates, stack-pointer jumps and disable/enable calls of one switch, freely
    interleaved over any number of threads. */
module GcCoverage {
  import opened Wrappers

  type FiberId = nat
  type Address = nat

  /** The usable part `[low, high)` of a fiber's stack; `high` is its cold end. */
  datatype Range = Range(low: Address, high: Address)

  const MAX_THREADS := 256

  /** The snapshot a thread publishes for the collector. */
  datatype Snapshot = Snapshot(ranges: seq<Option<Range>>, running: seq<FiberId>, mainBase: Address)

  function RangeOf(ranges: seq<Option<Range>>, id: FiberId): Option<Range> {
    if id < |ranges| then ranges[id] else None
  }

  function Registered(ranges: seq<Option<Range>>, id: FiberId, range: Range): (after: seq<Option<Range>>)
    ensures RangeOf(after, id) == Some(range)
    ensures forall other: FiberId :: other != id ==> RangeOf(after, other) == RangeOf(ranges, other)
  {
    var room := if id < |ranges| then ranges else ranges + seq(id + 1 - |ranges|, _ => None);
    room[id := Some(range)]
  }

  function Unregistered(ranges: seq<Option<Range>>, id: FiberId): (after: seq<Option<Range>>)
    ensures RangeOf(after, id) == None
    ensures forall other: FiberId :: other != id ==> RangeOf(after, other) == RangeOf(ranges, other)
  {
    if id < |ranges| then ranges[id := None] else ranges
  }

  /** Where a thread is within a switch. `Steady` code runs with collection enabled by this
      thread; every other phase from `Resuming` to `Returned` holds it off. */
  datatype Phase =
    | Unclaimed   // no registry slot yet
    | Missed      // found no slot offered for reuse, about to draw a fresh one
    | Claimed     // owns a slot that is still null
    | Blank       // published an empty snapshot, run not begun
    | Steady
    | Resuming    // resumer: id pushed, collection held off, about to jump
    | Landed      // fiber: on its own stack, nothing updated yet
    | Pointed(entering: FiberId)   // fiber: stack bottom set, not yet listed as running
    | Entered     // fiber: listed as running, about to let collection go
    | Leaving     // fiber: collection held off, about to leave
    | Unlisted(outerBase: Address) // fiber: no longer listed as running
    | PointedBack // fiber: stack bottom handed back, about to jump
    | Returned    // resumer: back on its own stack, about to let collection go
    | Released    // slot null again, about to be offered for reuse
    | Gone

  /** `stack` is the fiber whose stack the stack pointer is on, `None` for the thread's own;
      `bottom` is what the collector pairs it with. `resumed` is the nest of resume calls,
      `captured` the id each suspended fiber will enter with, and `slabLength`/`free` the
      scheduler's id allocator. */
  datatype Thread = Thread(
    slot: Option<nat>, phase: Phase, mainBase: Address, stack: Option<FiberId>, bottom: Address,
    resumed: seq<FiberId>, captured: map<FiberId, FiberId>, slabLength: nat, free: seq<FiberId>)

  datatype State = State(
    threads: seq<Thread>, registry: seq<Option<Snapshot>>, nextSlot: nat, freeSlots: seq<nat>, disabled: nat)

  ghost predicate Initial(s: State) {
    s.threads == [] && s.registry == seq(MAX_THREADS, _ => None) && s.nextSlot == 0 && s.freeSlots == [] &&
      s.disabled == 0
  }

  // ----- what a collection scans

  function Last(ids: seq<FiberId>): Option<FiberId> {
    if ids == [] then None else Some(ids[|ids| - 1])
  }

  /** The root callback pushes every registered fiber but the one on top of `running`. */
  predicate Pushes(snapshot: Snapshot, id: FiberId) {
    RangeOf(snapshot.ranges, id).Some? && Last(snapshot.running) != Some(id)
  }

  predicate PushedFrom(registry: seq<Option<Snapshot>>, nextSlot: nat, slot: nat, id: FiberId) {
    slot < |registry| && slot < nextSlot && registry[slot].Some? && Pushes(registry[slot].value, id)
  }

  ghost predicate PushedOf(snapshot: Snapshot, range: Range) {
    exists id: nat :: Pushes(snapshot, id) && snapshot.ranges[id] == Some(range)
  }

  /** One thread's share: every registered range but that of the fiber on top of `running`. */
  method PushSnapshot(snapshot: Snapshot) returns (pushed: seq<Range>)
    ensures forall range :: range in pushed <==> PushedOf(snapshot, range)
  {
    pushed := [];
    for id := 0 to |snapshot.ranges|
      invariant forall range :: range in pushed <==>
        exists other: nat :: other < id && Pushes(snapshot, other) && snapshot.ranges[other] == Some(range)
    {
      if snapshot.ranges[id].Some? && Last(snapshot.running) != Some(id) {
        pushed := pushed + [snapshot.ranges[id].value];
        assert Pushes(snapshot, id);
      }
    }
  }

  /** The world-stopped callback: it walks the claimed slots and pushes exactly the ranges of
      the fibers that are registered and not on top of their thread's `running`. */
  method PushFiberRoots(registry: seq<Option<Snapshot>>, nextSlot: nat) returns (pushed: seq<Range>)
    requires |registry| == MAX_THREADS
    ensures forall range :: range in pushed <==>
      exists slot: nat, id: nat ::
        PushedFrom(registry, nextSlot, slot, id) && registry[slot].value.ranges[id] == Some(range)
  {
    var used := if nextSlot < MAX_THREADS then nextSlot else MAX_THREADS;
    pushed := [];
    for slot := 0 to used
      invariant forall range :: range in pushed <==>
        exists at: nat :: at < slot && registry[at].Some? && PushedOf(registry[at].value, range)
    {
      if registry[slot].Some? {
        var more := PushSnapshot(registry[slot].value);
        pushed := pushed + more;
      }
    }
    forall range ensures range in pushed <==>
      exists slot: nat, id: nat ::
        PushedFrom(registry, nextSlot, slot, id) && registry[slot].value.ranges[id] == Some(range)
    {
      if range in pushed {
        var at: nat :| at < used && registry[at].Some? && PushedOf(registry[at].value, range);
        var id: nat :| Pushes(registry[at].value, id) && registry[at].value.ranges[id] == Some(range);
        assert PushedFrom(registry, nextSlot, at, id);
      }
      if slot: nat, id: nat :|
        PushedFrom(registry, nextSlot, slot, id) && registry[slot].value.ranges[id] == Some(range) {
        assert slot < used && PushedOf(registry[slot].value, range);
      }
    }
  }

  // ----- the steps

  /** What a thread may do next. The choices are the program's: which fiber to resume, whether
      a fiber parks or ends, which fiber is installed or finished. `Advance` is the next step
      of a switch already under way. */
  datatype Action =
    | Attach(base: Address)
    | ClaimReused
    | MissReused
    | ClaimFresh
    | PublishBlank
    | BeginRun
    | Install(range: Range)
    | Finish(id: FiberId)
    | Resume(id: FiberId)
    | Leave(parks: bool)
    | Advance
    | EndThread
    | OfferSlot

  function Base(snapshot: Snapshot, ids: seq<FiberId>): Option<Address> {
    if ids == [] then Some(snapshot.mainBase)
    else
      var range := RangeOf(snapshot.ranges, ids[|ids| - 1]);
      if range.Some? then Some(range.value.high) else None
  }

  predicate HasSnapshot(s: State, t: nat) {
    t < |s.threads| && s.threads[t].slot.Some? && s.threads[t].slot.value < |s.registry| &&
      s.registry[s.threads[t].slot.value].Some?
  }

  function SnapshotOf(s: State, t: nat): Snapshot
    requires HasSnapshot(s, t)
  {
    s.registry[s.threads[t].slot.value].value
  }

  /** The program's own control flow: what can follow what. Nothing here looks at the
      collector's bookkeeping. */
  predicate Enabled(s: State, t: nat, a: Action) {
    a.Attach? || (t < |s.threads| && EnabledFor(s.threads[t], s.freeSlots, a))
  }

  predicate EnabledFor(thread: Thread, freeSlots: seq<nat>, a: Action) {
    match a
    case Attach(_) => false
    case ClaimReused => thread.phase.Unclaimed? && freeSlots != []
    case MissReused => thread.phase.Unclaimed? && freeSlots == []
    case ClaimFresh => thread.phase.Missed?
    case PublishBlank => thread.phase.Claimed?
    case BeginRun => thread.phase.Blank?
    case Install(_) => thread.phase.Steady?
    case Finish(id) => thread.phase.Steady? && id < thread.slabLength && id !in thread.free && id !in thread.resumed
    case Resume(id) => thread.phase.Steady? && id < thread.slabLength && id !in thread.free && id !in thread.resumed
    case Leave(_) => thread.phase.Steady? && thread.stack.Some?
    case Advance => Depth(thread.phase) == 1
    case EndThread => thread.phase.Steady? && thread.resumed == []
    case OfferSlot => thread.phase.Released?
  }

  function Depth(phase: Phase): nat {
    match phase
    case Unclaimed | Missed | Claimed | Blank | Steady | Released | Gone => 0
    case _ => 1
  }

  /** Steps of a thread that has a snapshot: they change it and the thread, and nothing else
      but the disable count. */
  predicate Local(a: Action) {
    a.BeginRun? || a.Install? || a.Finish? || a.Resume? || a.Leave? || a.Advance?
  }

  /** The assertions and `expect`s on the way: a snapshot to publish over, a registered fiber
      to enter, a registered outer fiber to return to, a non-empty nest, a slot to write, a
      disable to match, and a table with room for a fresh slot. */
  predicate Panics(s: State, t: nat, a: Action)
    requires Enabled(s, t, a)
  {
    match a
    case Attach(_) => false
    case ClaimReused => false
    case MissReused => false
    case ClaimFresh => s.nextSlot >= MAX_THREADS
    case PublishBlank => s.threads[t].slot.None? || |s.registry| <= s.threads[t].slot.value
    case OfferSlot => s.threads[t].slot.None?
    case EndThread => !HasSnapshot(s, t)
    case _ => !HasSnapshot(s, t) || s.disabled < LetsGo(s.threads[t], a) || Stumbles(s.threads[t], SnapshotOf(s, t), a)
  }

  predicate Stumbles(thread: Thread, snapshot: Snapshot, a: Action) {
    a.Advance? &&
    match thread.phase
    case Landed => thread.resumed == [] || thread.stack.None? || RangeOf(snapshot.ranges, Landing(thread)).None?
    case Leaving => snapshot.running == [] || Base(snapshot, snapshot.running[..|snapshot.running| - 1]).None?
    case Resuming => thread.resumed == []
    case PointedBack => thread.resumed == []
    case Returned => thread.resumed == []
    case _ => false
  }

  /** The disables and enables a step performs: a switch out and a switch in each hold
      collection off once, and the far side of each lets it go. */
  function Holds(a: Action): nat {
    if a.Resume? || a.Leave? then 1 else 0
  }

  function LetsGo(thread: Thread, a: Action): nat {
    if a.Advance? && (thread.phase.Entered? || thread.phase.Returned?) then 1 else 0
  }

  /** The id a fiber enters with: the one it captured when it suspended, or the innermost
      resumed id on its first run. */
  function Landing(thread: Thread): FiberId
    requires thread.resumed != [] && thread.stack.Some?
  {
    if thread.stack.value in thread.captured then thread.captured[thread.stack.value]
      else thread.resumed[|thread.resumed| - 1]
  }

  /** The scheduler's id allocator: a freed id first, otherwise a new slab entry. */
  function Reserve(thread: Thread): (FiberId, Thread) {
    if thread.free != []
    then (thread.free[|thread.free| - 1], thread.(free := thread.free[..|thread.free| - 1]))
    else (thread.slabLength, thread.(slabLength := thread.slabLength + 1))
  }

  function LocalStep(thread: Thread, snapshot: Snapshot, a: Action): (Thread, Snapshot)
    requires Local(a) && EnabledFor(thread, [], a) && !Stumbles(thread, snapshot, a)
  {
    match a
    case BeginRun => (thread.(phase := Steady), Snapshot([], [], thread.mainBase))
    case Install(range) =>
      var (id, reserved) := Reserve(thread);
      (reserved, snapshot.(ranges := Registered(snapshot.ranges, id, range)))
    case Finish(id) =>
      (thread.(free := thread.free + [id], captured := thread.captured - {id}),
        snapshot.(ranges := Unregistered(snapshot.ranges, id)))
    case Resume(id) => (thread.(resumed := thread.resumed + [id], phase := Resuming), snapshot)
    case Leave(parks) =>
      var captured := if parks && thread.resumed != []
        then thread.captured[thread.stack.value := thread.resumed[|thread.resumed| - 1]] else thread.captured;
      (thread.(phase := Leaving, captured := captured), snapshot)
    case Advance => SwitchStep(thread, snapshot)
  }

  function SwitchStep(thread: Thread, snapshot: Snapshot): (Thread, Snapshot)
    requires Depth(thread.phase) == 1 && !Stumbles(thread, snapshot, Advance)
  {
    match thread.phase
    case Resuming => (thread.(stack := Last(thread.resumed), phase := Landed), snapshot)
    case Landed =>
      var id := Landing(thread);
      (thread.(bottom := RangeOf(snapshot.ranges, id).value.high, phase := Pointed(id)), snapshot)
    case Pointed(id) => (thread.(phase := Entered), snapshot.(running := snapshot.running + [id]))
    case Entered => (thread.(phase := Steady), snapshot)
    case Leaving =>
      var rest := snapshot.running[..|snapshot.running| - 1];
      (thread.(phase := Unlisted(Base(snapshot, rest).value)), snapshot.(running := rest))
    case Unlisted(base) => (thread.(bottom := base, phase := PointedBack), snapshot)
    case PointedBack => (thread.(stack := Last(thread.resumed[..|thread.resumed| - 1]), phase := Returned), snapshot)
    case Returned => (thread.(resumed := thread.resumed[..|thread.resumed| - 1], phase := Steady), snapshot)
  }

  function Do(s: State, t: nat, a: Action): State
    requires Enabled(s, t, a) && !Panics(s, t, a)
  {
    match a
    case Attach(base) =>
      s.(threads := s.threads + [Thread(None, Unclaimed, base, None, base, [], map[], 0, [])])
    case ClaimReused =>
      var last := |s.freeSlots| - 1;
      s.(threads := s.threads[t := s.threads[t].(slot := Some(s.freeSlots[last]), phase := Claimed)],
        freeSlots := s.freeSlots[..last])
    case MissReused => s.(threads := s.threads[t := s.threads[t].(phase := Missed)])
    case ClaimFresh =>
      var thread := s.threads[t];
      s.(threads := s.threads[t := thread.(slot := Some(s.nextSlot), phase := Claimed)], nextSlot := s.nextSlot + 1)
    case PublishBlank =>
      s.(threads := s.threads[t := s.threads[t].(phase := Blank)],
        registry := s.registry[s.threads[t].slot.value := Some(Snapshot([], [], 0))])
    case EndThread =>
      s.(threads := s.threads[t := s.threads[t].(phase := Released)],
        registry := s.registry[s.threads[t].slot.value := None])
    case OfferSlot =>
      s.(threads := s.threads[t := s.threads[t].(phase := Gone, slot := None)],
        freeSlots := s.freeSlots + [s.threads[t].slot.value])
    case _ =>
      var (thread, snapshot) := LocalStep(s.threads[t], SnapshotOf(s, t), a);
      s.(threads := s.threads[t := thread], registry := s.registry[s.threads[t].slot.value := Some(snapshot)],
         disabled := s.disabled + Holds(a) - LetsGo(s.threads[t], a))
  }

  /** A failed assertion unwinds its thread. The slot counter has been drawn from by then. */
  function Unwound(s: State, t: nat, a: Action): State
    requires Enabled(s, t, a) && Panics(s, t, a)
  {
    s.(threads := s.threads[t := s.threads[t].(phase := Gone)],
       nextSlot := if a.ClaimFresh? then s.nextSlot + 1 else s.nextSlot)
  }

  function Next(s: State, t: nat, a: Action): State
    requires Enabled(s, t, a)
  {
    if Panics(s, t, a) then Unwound(s, t, a) else Do(s, t, a)
  }

  // ----- the invariant

  /** The fibers a thread's snapshot should list as running, by phase: the whole nest while
      the innermost fiber is listed, all but it otherwise. */
  function Listed(thread: Thread): seq<FiberId> {
    if thread.phase.Steady? || thread.phase.Entered? || thread.phase.Leaving? || thread.resumed == []
    then thread.resumed else thread.resumed[..|thread.resumed| - 1]
  }

  /** The nest of the stack the stack pointer is on, by phase. */
  function Nest(thread: Thread): seq<FiberId> {
    if (thread.phase.Resuming? || thread.phase.Returned?) && thread.resumed != []
    then thread.resumed[..|thread.resumed| - 1] else thread.resumed
  }

  /** The nest whose base the collector has as the thread's stack bottom, by phase. */
  function Bottomed(thread: Thread): seq<FiberId> {
    if (thread.phase.Resuming? || thread.phase.Landed? || thread.phase.PointedBack? || thread.phase.Returned?) &&
      thread.resumed != []
    then thread.resumed[..|thread.resumed| - 1] else thread.resumed
  }

  ghost predicate NoRepeats<T>(xs: seq<T>) {
    forall i, j | 0 <= i < j < |xs| :: xs[i] != xs[j]
  }

  /** The ids of a thread: a registered fiber is exactly an allocated, unfreed one, the nest
      holds registered fibers only, and a suspended fiber captured its own id. */
  ghost predicate IdsFit(thread: Thread, ranges: seq<Option<Range>>) {
    && Nested(thread.resumed, ranges) && Recycled(thread.free, thread.slabLength, ranges)
    && OwnIds(thread.captured)
  }

  ghost predicate Nested(resumed: seq<FiberId>, ranges: seq<Option<Range>>) {
    NoRepeats(resumed) && forall id <- resumed :: RangeOf(ranges, id).Some?
  }

  ghost predicate Recycled(free: seq<FiberId>, slabLength: nat, ranges: seq<Option<Range>>) {
    && NoRepeats(free) && (forall id <- free :: id < slabLength)
    && forall id: FiberId :: RangeOf(ranges, id).Some? <==> id < slabLength && id !in free
  }

  ghost predicate OwnIds(captured: map<FiberId, FiberId>) {
    forall id <- captured :: captured[id] == id
  }

  /** Where a thread is, against what it has told the collector. */
  ghost predicate PlaceFits(thread: Thread, snapshot: Snapshot) {
    && snapshot.mainBase == thread.mainBase
    && snapshot.running == Listed(thread)
    && thread.stack == Last(Nest(thread))
    && Base(snapshot, Bottomed(thread)) == Some(thread.bottom)
    && (Depth(thread.phase) == 1 ==> thread.resumed != [])
    && (thread.phase.Pointed? ==> thread.phase.entering == thread.resumed[|thread.resumed| - 1])
    && (thread.phase.Unlisted? ==> Base(snapshot, Listed(thread)) == Some(thread.phase.outerBase))
  }

  /** One thread whose run has begun, against its published snapshot. */
  ghost predicate Running(thread: Thread, snapshot: Snapshot) {
    IdsFit(thread, snapshot.ranges) && PlaceFits(thread, snapshot)
  }

  predicate Begun(phase: Phase) {
    phase.Steady? || Depth(phase) == 1
  }

  /** One thread, whatever it is doing, against what its slot holds. */
  ghost predicate Fits(thread: Thread, published: Option<Snapshot>) {
    match thread.phase
    case Unclaimed => false
    case Missed => false
    case Gone => false
    case Claimed => published.None? && Untouched(thread)
    case Released => published.None?
    case Blank => published == Some(Snapshot([], [], 0)) && Untouched(thread)
    case _ => published.Some? && Running(thread, published.value)
  }

  ghost predicate ThreadFits(thread: Thread, registry: seq<Option<Snapshot>>, nextSlot: nat)
    requires |registry| == MAX_THREADS
  {
    match thread.slot
    case None => thread.phase.Gone? || ((thread.phase.Unclaimed? || thread.phase.Missed?) && Untouched(thread))
    case Some(slot) => slot < MAX_THREADS && slot < nextSlot && Fits(thread, registry[slot])
  }

  ghost predicate Untouched(thread: Thread) {
    && thread.bottom == thread.mainBase && thread.resumed == [] && thread.stack == None
    && thread.slabLength == 0 && thread.free == [] && thread.captured == map[]
  }

  /** How many threads hold a slot. */
  function Holders(threads: seq<Thread>): nat {
    if threads == [] then 0
      else Holders(threads[..|threads| - 1]) + (if threads[|threads| - 1].slot.Some? then 1 else 0)
  }

  /** Every slot ever drawn, within the table, is held or offered for reuse. */
  ghost predicate SlotsCounted(s: State) {
    Holders(s.threads) + |s.freeSlots| == if s.nextSlot < MAX_THREADS then s.nextSlot else MAX_THREADS
  }

  function Depths(threads: seq<Thread>): nat {
    if threads == [] then 0 else Depths(threads[..|threads| - 1]) + Depth(threads[|threads| - 1].phase)
  }

  /** Slots belong to one thread each, or are offered for reuse, or are null. */
  ghost predicate SlotsFit(threads: seq<Thread>, registry: seq<Option<Snapshot>>, nextSlot: nat, freeSlots: seq<nat>)
    requires |registry| == MAX_THREADS
  {
    && (forall i, j | 0 <= i < j < |threads| :: threads[i].slot.Some? ==> threads[i].slot != threads[j].slot)
    && NoRepeats(freeSlots)
    && (forall slot <- freeSlots :: slot < MAX_THREADS && slot < nextSlot && registry[slot].None?)
    && (forall i | 0 <= i < |threads| :: threads[i].slot.Some? ==> threads[i].slot.value !in freeSlots)
    && (forall slot | nextSlot <= slot < MAX_THREADS :: registry[slot].None?)
  }

  ghost predicate AllFit(threads: seq<Thread>, registry: seq<Option<Snapshot>>, nextSlot: nat)
    requires |registry| == MAX_THREADS
  {
    forall i | 0 <= i < |threads| :: ThreadFits(threads[i], registry, nextSlot)
  }

  ghost predicate Invariant(s: State) {
    && |s.registry| == MAX_THREADS
    && AllFit(s.threads, s.registry, s.nextSlot)
    && SlotsFit(s.threads, s.registry, s.nextSlot, s.freeSlots)
    && s.disabled == Depths(s.threads)
  }

  // ----- coverage

  /** A registered fiber's stack is seen by a collection at this instant: pushed by the root
      callback, or scanned as the stack the stack pointer is on, from its own cold end. */
  ghost predicate Covered(s: State, t: nat, id: FiberId)
    requires HasSnapshot(s, t) && RangeOf(SnapshotOf(s, t).ranges, id).Some?
  {
    || PushedFrom(s.registry, s.nextSlot, s.threads[t].slot.value, id)
    || (s.threads[t].stack == Some(id) && s.threads[t].bottom == RangeOf(SnapshotOf(s, t).ranges, id).value.high)
  }

  /** The phases between the two halves of a switch, where the stack pointer, the stack bottom
      and `running` do not all speak of the same stack. */
  predicate BetweenStacks(phase: Phase) {
    phase.Landed? || phase.Pointed? || phase.Unlisted? || phase.PointedBack?
  }

  /** Exactly what is exposed, in every state and whatever the disable count: in the middle of
      a switch, the fiber the innermost one was resumed from, and nothing else. The switching
      fiber itself is always covered. */
  lemma CoverageExactly(s: State, t: nat, id: FiberId)
    requires Invariant(s) && HasSnapshot(s, t) && RangeOf(SnapshotOf(s, t).ranges, id).Some?
    ensures var thread := s.threads[t];
      Covered(s, t, id) <==>
        !(BetweenStacks(thread.phase) && |thread.resumed| >= 2 && id == thread.resumed[|thread.resumed| - 2])
  {
    assert ThreadFits(s.threads[t], s.registry, s.nextSlot);
    if s.threads[t].phase.Blank? {
      assert false;
    } else if BetweenStacks(s.threads[t].phase) {
      SeenBetween(s.threads[t], SnapshotOf(s, t), id);
    } else {
      SeenOtherwise(s.threads[t], SnapshotOf(s, t), id);
    }
  }

  /** The same on one thread's own state: what its snapshot pushes, and what its stack is. */
  ghost predicate Seen(thread: Thread, snapshot: Snapshot, id: FiberId)
    requires RangeOf(snapshot.ranges, id).Some?
  {
    Pushes(snapshot, id) || (thread.stack == Some(id) && thread.bottom == RangeOf(snapshot.ranges, id).value.high)
  }

  lemma SeenBetween(thread: Thread, snapshot: Snapshot, id: FiberId)
    requires Running(thread, snapshot) && BetweenStacks(thread.phase) && RangeOf(snapshot.ranges, id).Some?
    ensures Seen(thread, snapshot, id) <==> !(|thread.resumed| >= 2 && id == thread.resumed[|thread.resumed| - 2])
  {
  }

  lemma SeenOtherwise(thread: Thread, snapshot: Snapshot, id: FiberId)
    requires Running(thread, snapshot) && Begun(thread.phase) && !BetweenStacks(thread.phase)
    requires RangeOf(snapshot.ranges, id).Some?
    ensures Seen(thread, snapshot, id)
  {
  }

  lemma {:induction false} DepthsNone(threads: seq<Thread>, t: nat)
    requires Depths(threads) == 0 && t < |threads|
    ensures Depth(threads[t].phase) == 0
  {
    if t < |threads| - 1 { DepthsNone(threads[..|threads| - 1], t); }
  }

  /** The collector never sees a stack bottom of one stack with a stack pointer on another. */
  ghost predicate ScansOneStack(s: State, t: nat)
    requires HasSnapshot(s, t)
  {
    match s.threads[t].stack
    case None => s.threads[t].bottom == s.threads[t].mainBase
    case Some(id) =>
      RangeOf(SnapshotOf(s, t).ranges, id).Some? &&
        s.threads[t].bottom == RangeOf(SnapshotOf(s, t).ranges, id).value.high
  }

  /** Whenever a collection may run, every registered fiber of every thread is covered, and
      every thread's own scan is of one stack. */
  lemma CollectionSeesEverything(s: State)
    requires Invariant(s) && s.disabled == 0
    ensures forall t | HasSnapshot(s, t) ::
      && ScansOneStack(s, t)
      && forall id: FiberId | RangeOf(SnapshotOf(s, t).ranges, id).Some? :: Covered(s, t, id)
  {
    forall t: nat | HasSnapshot(s, t)
      ensures ScansOneStack(s, t)
      ensures forall id: FiberId | RangeOf(SnapshotOf(s, t).ranges, id).Some? :: Covered(s, t, id)
    {
      DepthsNone(s.threads, t);
      assert ThreadFits(s.threads[t], s.registry, s.nextSlot);
      forall id: FiberId | RangeOf(SnapshotOf(s, t).ranges, id).Some? ensures Covered(s, t, id) {
        CoverageExactly(s, t, id);
      }
    }
  }

  // ----- every step keeps the invariant, and none panics

  lemma {:induction false} DepthsUpdated(threads: seq<Thread>, t: nat, thread: Thread)
    requires t < |threads|
    ensures Depths(threads[t := thread]) == Depths(threads) - Depth(threads[t].phase) + Depth(thread.phase)
    ensures Depths(threads) >= Depth(threads[t].phase)
  {
    var last := |threads| - 1;
    if t < last {
      DepthsUpdated(threads[..last], t, thread);
      assert threads[t := thread][..last] == threads[..last][t := thread];
    } else {
      assert threads[t := thread][..last] == threads[..last];
    }
  }

  /** Of all the assertions and `expect`s on the way one can fail, and exactly when: a thread
      asks for a fresh slot when none is left in the table. */
  lemma PanicsExactly(s: State, t: nat, a: Action)
    requires Invariant(s) && Enabled(s, t, a)
    ensures Panics(s, t, a) <==> a.ClaimFresh? && s.nextSlot >= MAX_THREADS
  {
    if !a.Attach? && !a.ClaimFresh? {
      assert ThreadFits(s.threads[t], s.registry, s.nextSlot);
      DepthsUpdated(s.threads, t, s.threads[t]);
      if a.Advance? { SwitchKeeps(s.threads[t], SnapshotOf(s, t)); }
    }
  }

  /** A step that touches only its own thread and its own slot leaves everything else as it was. */
  lemma OwnSlotOnly(s: State, t: nat, thread: Thread, published: Option<Snapshot>)
    requires Invariant(s) && t < |s.threads| && s.threads[t].slot.Some? && thread.slot == s.threads[t].slot
    requires thread.slot.value < MAX_THREADS
    requires ThreadFits(thread, s.registry[thread.slot.value := published], s.nextSlot)
    ensures var threads, registry := s.threads[t := thread], s.registry[thread.slot.value := published];
      AllFit(threads, registry, s.nextSlot) && SlotsFit(threads, registry, s.nextSlot, s.freeSlots)
    ensures Depths(s.threads[t := thread]) == Depths(s.threads) - Depth(s.threads[t].phase) + Depth(thread.phase)
  {
    DepthsUpdated(s.threads, t, thread);
    var threads, registry := s.threads[t := thread], s.registry[thread.slot.value := published];
    assert ThreadFits(s.threads[t], s.registry, s.nextSlot);
    forall i | 0 <= i < |threads| ensures ThreadFits(threads[i], registry, s.nextSlot) {
      if i != t {
        assert ThreadFits(s.threads[i], s.registry, s.nextSlot);
        assert s.threads[i].slot.Some? ==> registry[s.threads[i].slot.value] == s.registry[s.threads[i].slot.value];
      }
    }
  }

  /** The jump in, and the stack bottom following it. */
  lemma JumpInKeeps(thread: Thread, snapshot: Snapshot)
    requires (thread.phase.Resuming? || thread.phase.Landed?) && Running(thread, snapshot)
    ensures !Stumbles(thread, snapshot, Advance)
    ensures var (after, published) := SwitchStep(thread, snapshot);
      Begun(after.phase) && Running(after, published)
  {
  }

  /** The fiber is listed as running. */
  lemma EnteringKeeps(thread: Thread, snapshot: Snapshot)
    requires thread.phase.Pointed? && Running(thread, snapshot)
    ensures var (after, published) := SwitchStep(thread, snapshot);
      Begun(after.phase) && Running(after, published)
  {
    PointedFacts(thread, snapshot);
    ListedPlaces(thread.(phase := Entered), snapshot.(running := snapshot.running + [thread.phase.entering]));
  }

  lemma PointedFacts(thread: Thread, snapshot: Snapshot)
    requires thread.phase.Pointed? && PlaceFits(thread, snapshot)
    ensures thread.resumed != [] && snapshot.running + [thread.phase.entering] == thread.resumed
    ensures snapshot.mainBase == thread.mainBase && thread.stack == Last(thread.resumed)
    ensures Base(snapshot, thread.resumed) == Some(thread.bottom)
  {
    var last := |thread.resumed| - 1;
    assert snapshot.running == thread.resumed[..last];
    WholeNest(thread.resumed);
  }

  /** The fiber lets collection go. */
  lemma EnteredKeeps(thread: Thread, snapshot: Snapshot)
    requires thread.phase.Entered? && Running(thread, snapshot)
    ensures var (after, published) := SwitchStep(thread, snapshot);
      Begun(after.phase) && Running(after, published)
  {
    ListedPlaces(thread.(phase := Steady), snapshot);
  }

  /** Where the innermost fiber is listed, running and bottomed, everything is in place. */
  lemma ListedPlaces(thread: Thread, snapshot: Snapshot)
    requires thread.phase.Entered? || thread.phase.Steady?
    requires snapshot.mainBase == thread.mainBase && snapshot.running == thread.resumed && thread.resumed != []
    requires thread.stack == Last(thread.resumed) && Base(snapshot, thread.resumed) == Some(thread.bottom)
    ensures PlaceFits(thread, snapshot)
  {
  }

  lemma WholeNest(resumed: seq<FiberId>)
    requires resumed != []
    ensures resumed[..|resumed| - 1] + [resumed[|resumed| - 1]] == resumed
  {
  }

  /** The fiber leaves the list and hands the stack bottom back. */
  lemma UnlistingKeeps(thread: Thread, snapshot: Snapshot)
    requires (thread.phase.Leaving? || thread.phase.Unlisted?) && Running(thread, snapshot)
    ensures !Stumbles(thread, snapshot, Advance)
    ensures var (after, published) := SwitchStep(thread, snapshot);
      Begun(after.phase) && Running(after, published)
  {
    var outer := thread.resumed[..|thread.resumed| - 1];
    if outer != [] { assert outer[|outer| - 1] in thread.resumed; }
  }

  /** The jump back, to the place the fiber was resumed from. */
  lemma JumpBackKeeps(thread: Thread, snapshot: Snapshot)
    requires (thread.phase.PointedBack? || thread.phase.Returned?) && Running(thread, snapshot)
    ensures !Stumbles(thread, snapshot, Advance)
    ensures var (after, published) := SwitchStep(thread, snapshot);
      Begun(after.phase) && Running(after, published)
  {
    var outer := thread.resumed[..|thread.resumed| - 1];
    assert forall other <- outer :: other in thread.resumed;
  }

  lemma SwitchKeeps(thread: Thread, snapshot: Snapshot)
    requires Depth(thread.phase) == 1 && Running(thread, snapshot)
    ensures !Stumbles(thread, snapshot, Advance)
    ensures var (after, published) := SwitchStep(thread, snapshot);
      Begun(after.phase) && Running(after, published)
  {
    if thread.phase.Resuming? || thread.phase.Landed? {
      JumpInKeeps(thread, snapshot);
    } else if thread.phase.Pointed? {
      EnteringKeeps(thread, snapshot);
    } else if thread.phase.Entered? {
      EnteredKeeps(thread, snapshot);
    } else if thread.phase.Leaving? || thread.phase.Unlisted? {
      UnlistingKeeps(thread, snapshot);
    } else {
      JumpBackKeeps(thread, snapshot);
    }
  }

  /** The steps of a program between switches: beginning its run, installing and finishing
      fibers, resuming one, leaving one. */
  lemma ProgramKeeps(thread: Thread, snapshot: Snapshot, a: Action)
    requires Local(a) && !a.Advance? && EnabledFor(thread, [], a)
    requires if thread.phase.Blank? then Untouched(thread) else Begun(thread.phase) && Running(thread, snapshot)
    ensures var (after, published) := LocalStep(thread, snapshot, a);
      Begun(after.phase) && Running(after, published)
  {
    match a
    case BeginRun =>
    case Install(range) => InstallKeeps(thread, snapshot, range);
    case Finish(id) => FinishKeeps(thread, snapshot, id);
    case Resume(id) => ResumingKeeps(thread, snapshot, id);
    case Leave(_) =>
  }

  lemma ResumingKeeps(thread: Thread, snapshot: Snapshot, id: FiberId)
    requires EnabledFor(thread, [], Resume(id)) && thread.phase.Steady? && Running(thread, snapshot)
    ensures var (after, published) := LocalStep(thread, snapshot, Resume(id));
      Begun(after.phase) && Running(after, published)
  {
    assert (thread.resumed + [id])[..|thread.resumed|] == thread.resumed;
  }

  lemma InstallKeeps(thread: Thread, snapshot: Snapshot, range: Range)
    requires thread.phase.Steady? && Running(thread, snapshot)
    ensures var (after, published) := LocalStep(thread, snapshot, Install(range));
      after.phase.Steady? && Running(after, published)
  {
    ReserveIsFresh(thread, snapshot);
    var (after, published) := LocalStep(thread, snapshot, Install(range));
    assert forall id <- after.free :: id in thread.free;
    assert IdsFit(after, published.ranges);
  }

  lemma FinishKeeps(thread: Thread, snapshot: Snapshot, id: FiberId)
    requires EnabledFor(thread, [], Finish(id)) && Running(thread, snapshot)
    ensures var (after, published) := LocalStep(thread, snapshot, Finish(id));
      after.phase.Steady? && Running(after, published)
  {
    var (after, published) := LocalStep(thread, snapshot, Finish(id));
    assert after.free == thread.free + [id];
    assert forall other: FiberId :: other in after.free <==> other in thread.free || other == id;
    assert RangeOf(snapshot.ranges, id).Some?;
    assert IdsFit(after, published.ranges);
  }

  lemma LocalFits(thread: Thread, snapshot: Snapshot, a: Action)
    requires Local(a) && EnabledFor(thread, [], a) && !Stumbles(thread, snapshot, a)
    requires if thread.phase.Blank? then Untouched(thread) else Begun(thread.phase) && Running(thread, snapshot)
    ensures var (after, published) := LocalStep(thread, snapshot, a);
      Begun(after.phase) && Running(after, published)
  {
    if a.Advance? { SwitchKeeps(thread, snapshot); } else { ProgramKeeps(thread, snapshot, a); }
  }

  lemma LocalKeepsSlot(thread: Thread, snapshot: Snapshot, a: Action)
    requires Local(a) && EnabledFor(thread, [], a) && !Stumbles(thread, snapshot, a)
    ensures LocalStep(thread, snapshot, a).0.slot == thread.slot
    ensures Depth(LocalStep(thread, snapshot, a).0.phase) + LetsGo(thread, a) == Depth(thread.phase) + Holds(a)
  {
  }

  lemma LocalKeeps(s: State, t: nat, a: Action)
    requires Invariant(s) && Enabled(s, t, a) && Local(a) && !Panics(s, t, a)
    ensures Invariant(Do(s, t, a))
  {
    var thread, snapshot := s.threads[t], SnapshotOf(s, t);
    assert ThreadFits(thread, s.registry, s.nextSlot);
    LocalFits(thread, snapshot, a);
    LocalKeepsSlot(thread, snapshot, a);
    var (after, published) := LocalStep(thread, snapshot, a);
    assert Fits(after, Some(published));
    OwnSlotOnly(s, t, after, Some(published));
    assert Do(s, t, a)
      == s.(threads := s.threads[t := after], registry := s.registry[thread.slot.value := Some(published)],
                             disabled := s.disabled + Holds(a) - LetsGo(thread, a));
  }

  lemma ReserveIsFresh(thread: Thread, snapshot: Snapshot)
    requires Running(thread, snapshot)
    ensures var (id, after) := Reserve(thread);
      && RangeOf(snapshot.ranges, id).None?
      && id < after.slabLength && id !in after.free && NoRepeats(after.free)
      && forall other: FiberId :: other != id ==>
         (other < after.slabLength && other !in after.free <==> other < thread.slabLength && other !in thread.free)
  {
    if thread.free != [] {
      var last := |thread.free| - 1;
      assert thread.free == thread.free[..last] + [thread.free[last]];
    }
  }

  /** The steps by which a thread joins and leaves the collector's registry. */
  lemma MembershipKeeps(s: State, t: nat, a: Action)
    requires Invariant(s) && Enabled(s, t, a) && !Panics(s, t, a)
    requires a.PublishBlank? || a.EndThread?
    ensures Invariant(Do(s, t, a))
  {
    assert ThreadFits(s.threads[t], s.registry, s.nextSlot);
    var after := Do(s, t, a);
    OwnSlotOnly(s, t, after.threads[t], after.registry[s.threads[t].slot.value]);
  }

  lemma AttachKeeps(s: State, base: Address)
    requires Invariant(s)
    ensures Invariant(Do(s, 0, Attach(base)))
  {
    var after := Do(s, 0, Attach(base));
    assert after.threads[..|s.threads|] == s.threads;
    forall i | 0 <= i < |after.threads| ensures ThreadFits(after.threads[i], after.registry, after.nextSlot) {
      if i < |s.threads| { assert ThreadFits(s.threads[i], s.registry, s.nextSlot); }
    }
  }

  /** The other threads do not notice a slot changing hands. */
  lemma OthersFit(s: State, t: nat, thread: Thread, nextSlot: nat)
    requires Invariant(s) && t < |s.threads| && s.nextSlot <= nextSlot
    requires ThreadFits(thread, s.registry, nextSlot)
    ensures AllFit(s.threads[t := thread], s.registry, nextSlot)
    ensures Depths(s.threads[t := thread]) == Depths(s.threads) - Depth(s.threads[t].phase) + Depth(thread.phase)
    ensures forall i | 0 <= i < |s.threads| && s.threads[i].slot.Some? :: s.threads[i].slot.value < s.nextSlot
  {
    DepthsUpdated(s.threads, t, thread);
    forall i | 0 <= i < |s.threads|
      ensures ThreadFits(s.threads[i], s.registry, nextSlot)
      ensures s.threads[i].slot.Some? ==> s.threads[i].slot.value < s.nextSlot
    {
      assert ThreadFits(s.threads[i], s.registry, s.nextSlot);
    }
  }

  lemma ClaimReusedKeeps(s: State, t: nat)
    requires Invariant(s) && Enabled(s, t, ClaimReused)
    ensures Invariant(Do(s, t, ClaimReused))
  {
    var last := |s.freeSlots| - 1;
    assert ThreadFits(s.threads[t], s.registry, s.nextSlot);
    assert s.freeSlots[last] in s.freeSlots && s.freeSlots == s.freeSlots[..last] + [s.freeSlots[last]];
    OthersFit(s, t, s.threads[t].(slot := Some(s.freeSlots[last]), phase := Claimed), s.nextSlot);
  }

  lemma MissReusedKeeps(s: State, t: nat)
    requires Invariant(s) && Enabled(s, t, MissReused)
    ensures Invariant(Do(s, t, MissReused))
  {
    assert ThreadFits(s.threads[t], s.registry, s.nextSlot);
    OthersFit(s, t, s.threads[t].(phase := Missed), s.nextSlot);
  }

  lemma ClaimFreshKeeps(s: State, t: nat)
    requires Invariant(s) && Enabled(s, t, ClaimFresh)
    ensures Invariant(Next(s, t, ClaimFresh))
  {
    assert ThreadFits(s.threads[t], s.registry, s.nextSlot);
    var after := Next(s, t, ClaimFresh).threads[t];
    OthersFit(s, t, after, s.nextSlot + 1);
    DrawnSlots(s.threads, s.registry, s.nextSlot, s.freeSlots, t, after);
  }

  lemma DrawnSlots(threads: seq<Thread>, registry: seq<Option<Snapshot>>, nextSlot: nat, freeSlots: seq<nat>, t: nat,
                   after: Thread)
    requires |registry| == MAX_THREADS && t < |threads| && threads[t].slot.None?
    requires after.slot.None? || after.slot == Some(nextSlot)
    requires SlotsFit(threads, registry, nextSlot, freeSlots)
    requires forall i | 0 <= i < |threads| && threads[i].slot.Some? :: threads[i].slot.value < nextSlot
    ensures SlotsFit(threads[t := after], registry, nextSlot + 1, freeSlots)
  {
  }

  lemma OfferSlotKeeps(s: State, t: nat)
    requires Invariant(s) && Enabled(s, t, OfferSlot) && !Panics(s, t, OfferSlot)
    ensures Invariant(Do(s, t, OfferSlot))
  {
    assert ThreadFits(s.threads[t], s.registry, s.nextSlot);
    var after := s.threads[t].(phase := Gone, slot := None);
    OthersFit(s, t, after, s.nextSlot);
    OfferedSlots(s.threads, s.registry, s.nextSlot, s.freeSlots, t, after);
  }

  lemma OfferedSlots(threads: seq<Thread>, registry: seq<Option<Snapshot>>, nextSlot: nat, freeSlots: seq<nat>,
                     t: nat, after: Thread)
    requires |registry| == MAX_THREADS && t < |threads| && threads[t].slot.Some? && after.slot.None?
    requires SlotsFit(threads, registry, nextSlot, freeSlots)
    requires threads[t].slot.value < MAX_THREADS && threads[t].slot.value < nextSlot &&
      registry[threads[t].slot.value].None?
    ensures SlotsFit(threads[t := after], registry, nextSlot, freeSlots + [threads[t].slot.value])
  {
  }

  /** Every step keeps the invariant, the one that panics included. */
  lemma StepKeeps(s: State, t: nat, a: Action)
    requires Invariant(s) && Enabled(s, t, a)
    ensures Invariant(Next(s, t, a))
  {
    PanicsExactly(s, t, a);
    match a
    case Attach(base) => AttachKeeps(s, base);
    case ClaimReused => ClaimReusedKeeps(s, t);
    case MissReused => MissReusedKeeps(s, t);
    case ClaimFresh => ClaimFreshKeeps(s, t);
    case OfferSlot => OfferSlotKeeps(s, t);
    case PublishBlank => MembershipKeeps(s, t, a);
    case EndThread => MembershipKeeps(s, t, a);
    case _ => LocalKeeps(s, t, a);
  }

  lemma {:induction false} HoldersUpdated(threads: seq<Thread>, t: nat, thread: Thread)
    requires t < |threads|
    ensures Holders(threads[t := thread]) + (if threads[t].slot.Some? then 1 else 0)
         == Holders(threads) + (if thread.slot.Some? then 1 else 0)
    decreases |threads|
  {
    var last := |threads| - 1;
    if t < last {
      HoldersUpdated(threads[..last], t, thread);
      assert threads[t := thread][..last] == threads[..last][t := thread];
    } else {
      assert threads[t := thread][..last] == threads[..last];
    }
  }

  lemma StepCountsSlots(s: State, t: nat, a: Action)
    requires Invariant(s) && SlotsCounted(s) && Enabled(s, t, a)
    ensures SlotsCounted(Next(s, t, a))
  {
    PanicsExactly(s, t, a);
    var after := Next(s, t, a);
    if a.Attach? {
      assert after.threads[..|s.threads|] == s.threads;
    } else {
      assert ThreadFits(s.threads[t], s.registry, s.nextSlot);
      HoldersUpdated(s.threads, t, after.threads[t]);
      if Local(a) { LocalCountsSlots(s, t, a); }
    }
  }

  lemma LocalCountsSlots(s: State, t: nat, a: Action)
    requires SlotsCounted(s) && Enabled(s, t, a) && Local(a) && !Panics(s, t, a)
    ensures SlotsCounted(Do(s, t, a))
  {
    LocalKeepsSlot(s.threads[t], SnapshotOf(s, t), a);
    HoldersUpdated(s.threads, t, Do(s, t, a).threads[t]);
  }

  // ----- whole runs

  /** A run: every state follows from the one before by an enabled step of some thread. */
  ghost predicate Run(states: seq<State>, steps: seq<(nat, Action)>) {
    && |states| == |steps| + 1 && Initial(states[0])
    && forall k | 0 <= k < |steps| ::
      Enabled(states[k], steps[k].0, steps[k].1) && states[k + 1] == Next(states[k], steps[k].0, steps[k].1)
  }

  lemma {:induction false} RunKeeps(states: seq<State>, steps: seq<(nat, Action)>, k: nat)
    requires Run(states, steps) && k < |states|
    ensures Invariant(states[k]) && SlotsCounted(states[k])
  {
    if k > 0 {
      RunKeeps(states, steps, k - 1);
      StepKeeps(states[k - 1], steps[k - 1].0, steps[k - 1].1);
      StepCountsSlots(states[k - 1], steps[k - 1].0, steps[k - 1].1);
    }
  }

  // ----- the stacks there are, by the actions of the run alone

  type Stacks = map<(nat, FiberId), Range>

  /** A stack lives from the install that drew its id to the finish of that id. */
  function StacksAfter(stacks: Stacks, s: State, t: nat, a: Action): Stacks
    requires Enabled(s, t, a)
  {
    match a
    case Install(range) => stacks[(t, Reserve(s.threads[t]).0) := range]
    case Finish(id) => stacks - {(t, id)}
    case _ => stacks
  }

  ghost function LiveStacks(states: seq<State>, steps: seq<(nat, Action)>, k: nat): Stacks
    requires Run(states, steps) && k < |states|
    decreases k
  {
    if k == 0 then map[]
    else StacksAfter(LiveStacks(states, steps, k - 1), states[k - 1], steps[k - 1].0, steps[k - 1].1)
  }

  /** The stacks the threads themselves came with, in the order the threads did. */
  function OwnStacks(steps: seq<(nat, Action)>): seq<Address> {
    if steps == [] then []
    else OwnStacks(steps[..|steps| - 1]) + Came(steps[|steps| - 1].1)
  }

  function Came(a: Action): seq<Address> { if a.Attach? then [a.base] else [] }

  function StackOf(stacks: Stacks, t: nat, id: FiberId): Option<Range> {
    if (t, id) in stacks then Some(stacks[(t, id)]) else None
  }

  predicate BeforeRun(phase: Phase) {
    phase.Unclaimed? || phase.Missed? || phase.Claimed? || phase.Blank?
  }

  predicate AfterRun(phase: Phase) {
    phase.Released? || phase.Gone?
  }

  /** The ranges registered for a thread are exactly its live stacks. */
  ghost predicate Published(s: State, stacks: Stacks) {
    && (forall t: nat, id: FiberId | HasSnapshot(s, t) ::
          RangeOf(SnapshotOf(s, t).ranges, id) == StackOf(stacks, t, id))
    && (forall t: nat, id: FiberId | (t, id) in stacks :: t < |s.threads| && !BeforeRun(s.threads[t].phase))
  }

  lemma OthersKeepSnapshots(s: State, t: nat, a: Action, u: nat)
    requires Invariant(s) && Enabled(s, t, a) && u < |s.threads| && (a.Attach? || u != t)
    ensures HasSnapshot(Next(s, t, a), u) <==> HasSnapshot(s, u)
    ensures HasSnapshot(s, u) ==> SnapshotOf(Next(s, t, a), u) == SnapshotOf(s, u)
    ensures Next(s, t, a).threads[u] == s.threads[u]
  {
    PanicsExactly(s, t, a);
    assert ThreadFits(s.threads[u], s.registry, s.nextSlot);
    if !a.Attach? {
      assert ThreadFits(s.threads[t], s.registry, s.nextSlot);
      if Local(a) { LocalKeepsSlot(s.threads[t], SnapshotOf(s, t), a); }
    }
  }

  /** What the stepping thread has published afterwards. */
  lemma OwnSnapshot(s: State, t: nat, a: Action, stacks: Stacks, id: FiberId)
    requires Invariant(s) && Published(s, stacks) && Enabled(s, t, a) && !a.Attach?
    requires HasSnapshot(Next(s, t, a), t)
    ensures RangeOf(SnapshotOf(Next(s, t, a), t).ranges, id) == StackOf(StacksAfter(stacks, s, t, a), t, id)
  {
    PanicsExactly(s, t, a);
    assert ThreadFits(s.threads[t], s.registry, s.nextSlot);
    if Local(a) {
      LocalKeepsSlot(s.threads[t], SnapshotOf(s, t), a);
      LocalRanges(s.threads[t], SnapshotOf(s, t), a, id);
      assert SnapshotOf(Next(s, t, a), t) == LocalStep(s.threads[t], SnapshotOf(s, t), a).1;
    }
  }

  lemma LocalRanges(thread: Thread, snapshot: Snapshot, a: Action, id: FiberId)
    requires Local(a) && EnabledFor(thread, [], a) && !Stumbles(thread, snapshot, a)
    ensures RangeOf(LocalStep(thread, snapshot, a).1.ranges, id) ==
      if a.BeginRun? then None
      else if a.Install? && id == Reserve(thread).0 then Some(a.range)
      else if a.Finish? && id == a.id then None
      else RangeOf(snapshot.ranges, id)
  {
  }

  lemma StepPublishes(s: State, t: nat, a: Action, stacks: Stacks)
    requires Invariant(s) && Published(s, stacks) && Enabled(s, t, a)
    ensures Published(Next(s, t, a), StacksAfter(stacks, s, t, a))
  {
    var after, live := Next(s, t, a), StacksAfter(stacks, s, t, a);
    forall u: nat, id: FiberId | HasSnapshot(after, u)
      ensures RangeOf(SnapshotOf(after, u).ranges, id) == StackOf(live, u, id)
    {
      if u == t && !a.Attach? {
        OwnSnapshot(s, t, a, stacks, id);
      } else if u < |s.threads| {
        OthersKeepSnapshots(s, t, a, u);
      }
    }
    forall u: nat, id: FiberId | (u, id) in live ensures u < |after.threads| && !BeforeRun(after.threads[u].phase) {
      StaysBegun(s, t, a, stacks, u, id);
    }
  }

  lemma StaysBegun(s: State, t: nat, a: Action, stacks: Stacks, u: nat, id: FiberId)
    requires Invariant(s) && Published(s, stacks) && Enabled(s, t, a) && (u, id) in StacksAfter(stacks, s, t, a)
    ensures u < |Next(s, t, a).threads| && !BeforeRun(Next(s, t, a).threads[u].phase)
  {
    PanicsExactly(s, t, a);
    if u != t || a.Attach? {
      OthersKeepSnapshots(s, t, a, u);
    } else {
      assert ThreadFits(s.threads[t], s.registry, s.nextSlot);
      if Local(a) { LocalFits(s.threads[t], SnapshotOf(s, t), a); }
    }
  }

  /** A thread keeps the stack it came with. */
  ghost predicate OwnKept(threads: seq<Thread>, own: seq<Address>) {
    |threads| == |own| && forall t | 0 <= t < |threads| :: threads[t].mainBase == own[t]
  }

  lemma StepKeepsOwn(s: State, t: nat, a: Action, own: seq<Address>)
    requires Invariant(s) && OwnKept(s.threads, own) && Enabled(s, t, a)
    ensures OwnKept(Next(s, t, a).threads, own + Came(a))
  {
    PanicsExactly(s, t, a);
    if !a.Attach? && Local(a) { LocalKeepsBase(s.threads[t], SnapshotOf(s, t), a); }
  }

  lemma LocalKeepsBase(thread: Thread, snapshot: Snapshot, a: Action)
    requires Local(a) && EnabledFor(thread, [], a) && !Stumbles(thread, snapshot, a)
    ensures LocalStep(thread, snapshot, a).0.mainBase == thread.mainBase
  {
  }

  /** In every state of every run what is published is what lives. */
  lemma {:induction false} RunPublishes(states: seq<State>, steps: seq<(nat, Action)>, k: nat)
    requires Run(states, steps) && k < |states|
    ensures Published(states[k], LiveStacks(states, steps, k))
    decreases k
  {
    if k > 0 {
      RunKeeps(states, steps, k - 1);
      RunPublishes(states, steps, k - 1);
      StepPublishes(states[k - 1], steps[k - 1].0, steps[k - 1].1, LiveStacks(states, steps, k - 1));
    }
  }

  lemma {:induction false} RunKeepsOwn(states: seq<State>, steps: seq<(nat, Action)>, k: nat)
    requires Run(states, steps) && k < |states|
    ensures OwnKept(states[k].threads, OwnStacks(steps[..k]))
    decreases k
  {
    if k > 0 {
      RunKeeps(states, steps, k - 1);
      RunKeepsOwn(states, steps, k - 1);
      StepKeepsOwn(states[k - 1], steps[k - 1].0, steps[k - 1].1, OwnStacks(steps[..k - 1]));
      assert steps[..k][..k - 1] == steps[..k - 1];
    }
  }

  /** A collection at this instant sees all of a live stack: the root callback pushes it, or it
      is the stack the pointer is on, scanned from its high end. */
  ghost predicate Sees(s: State, t: nat, id: FiberId, stack: Range)
    requires HasSnapshot(s, t)
  {
    || (PushedFrom(s.registry, s.nextSlot, s.threads[t].slot.value, id) && SnapshotOf(s, t).ranges[id] == Some(stack))
    || (s.threads[t].stack == Some(id) && s.threads[t].bottom == stack.high)
  }

  /** The stack bottom the collector has for a thread is the cold end of the very stack its
      pointer is on: a live fiber's, or the one it came with. */
  ghost predicate BottomIsRight(s: State, t: nat, stacks: Stacks, own: seq<Address>)
    requires t < |s.threads|
  {
    match s.threads[t].stack
    case None => t < |own| && s.threads[t].bottom == own[t]
    case Some(id) => (t, id) in stacks && s.threads[t].bottom == stacks[(t, id)].high
  }

  /** The main result. In every state of every run, over any number of threads and any nesting
      of resumes: the global disable count is the number of threads inside a switch; when it is
      zero a collection sees the stack of every fiber installed and not finished, unless its
      thread's run is over, and scans each thread from the right end; and the next step panics
      exactly if it draws a fresh slot while every slot of the table is held or offered. */
  lemma EveryRunIsCovered(states: seq<State>, steps: seq<(nat, Action)>, k: nat)
    requires Run(states, steps) && k < |states|
    ensures states[k].disabled == Depths(states[k].threads)
    ensures k < |steps| ==>
      (Panics(states[k], steps[k].0, steps[k].1) <==>
       steps[k].1.ClaimFresh? && Holders(states[k].threads) + |states[k].freeSlots| == MAX_THREADS)
    ensures states[k].disabled == 0 ==>
      forall t: nat, id: FiberId | (t, id) in LiveStacks(states, steps, k) ::
        t < |states[k].threads| &&
        (AfterRun(states[k].threads[t].phase) ||
         (HasSnapshot(states[k], t) && Sees(states[k], t, id, LiveStacks(states, steps, k)[(t, id)])))
    ensures states[k].disabled == 0 ==>
      forall t: nat | HasSnapshot(states[k], t) ::
        BottomIsRight(states[k], t, LiveStacks(states, steps, k), OwnStacks(steps[..k]))
  {
    RunKeeps(states, steps, k);
    RunPublishes(states, steps, k);
    RunKeepsOwn(states, steps, k);
    if k < |steps| { PanicsExactly(states[k], steps[k].0, steps[k].1); }
    if states[k].disabled == 0 {
      LiveAreSeen(states[k], LiveStacks(states, steps, k), OwnStacks(steps[..k]));
    }
  }

  lemma LiveAreSeen(s: State, stacks: Stacks, own: seq<Address>)
    requires Invariant(s) && Published(s, stacks) && OwnKept(s.threads, own) && s.disabled == 0
    ensures forall t: nat, id: FiberId | (t, id) in stacks ::
      t < |s.threads| && (AfterRun(s.threads[t].phase) || (HasSnapshot(s, t) && Sees(s, t, id, stacks[(t, id)])))
    ensures forall t: nat | HasSnapshot(s, t) :: BottomIsRight(s, t, stacks, own)
  {
    CollectionSeesEverything(s);
    forall t: nat, id: FiberId | (t, id) in stacks
      ensures AfterRun(s.threads[t].phase) || (HasSnapshot(s, t) && Sees(s, t, id, stacks[(t, id)]))
    {
      assert ThreadFits(s.threads[t], s.registry, s.nextSlot);
      if !AfterRun(s.threads[t].phase) {
        assert HasSnapshot(s, t);
        assert RangeOf(SnapshotOf(s, t).ranges, id) == StackOf(stacks, t, id);
        assert Covered(s, t, id);
      }
    }
    forall t: nat | HasSnapshot(s, t) ensures BottomIsRight(s, t, stacks, own) {
      assert ScansOneStack(s, t);
      if s.threads[t].stack.Some? {
        var id := s.threads[t].stack.value;
        assert RangeOf(SnapshotOf(s, t).ranges, id) == StackOf(stacks, t, id);
      }
    }
  }

  // ----- the table can fill up

  /** `n` threads, each with a slot of its own and nothing published yet. */
  function Crowd(n: nat): State {
    State(seq(n, (i: nat) requires i < n => Thread(Some(i), Claimed, 0, None, 0, [], map[], 0, [])),
          seq(MAX_THREADS, _ => None), n, [], 0)
  }

  /** One more thread, which has found no slot to reuse. */
  function Missing(n: nat): State {
    Do(Do(Crowd(n), 0, Attach(0)), n, MissReused)
  }

  lemma CrowdGrows(n: nat)
    requires n < MAX_THREADS
    ensures !Panics(Missing(n), n, ClaimFresh) && Do(Missing(n), n, ClaimFresh) == Crowd(n + 1)
  {
    assert Do(Missing(n), n, ClaimFresh).threads == Crowd(n + 1).threads;
  }

  lemma {:induction false} CrowdIsReached(n: nat) returns (states: seq<State>, steps: seq<(nat, Action)>)
    requires n <= MAX_THREADS
    ensures Run(states, steps) && states[|steps|] == Crowd(n)
  {
    if n == 0 {
      states, steps := [Crowd(0)], [];
    } else {
      states, steps := CrowdIsReached(n - 1);
      states, steps := Arrives(states, steps, n - 1);
      CrowdGrows(n - 1);
    }
  }

  lemma Arrives(states: seq<State>, steps: seq<(nat, Action)>, n: nat)
    returns (after: seq<State>, taken: seq<(nat, Action)>)
    requires Run(states, steps) && states[|steps|] == Crowd(n)
    ensures Run(after, taken) && |taken| == |steps| + 3
    ensures after[|steps| + 2] == Missing(n) && taken[|steps| + 2] == (n, ClaimFresh)
    ensures after[|steps| + 3] == Next(Missing(n), n, ClaimFresh)
  {
    var attached := Do(Crowd(n), 0, Attach(0));
    after := states + [attached, Missing(n), Next(Missing(n), n, ClaimFresh)];
    taken := steps + [(0, Attach(0)), (n, MissReused), (n, ClaimFresh)];
  }

  /** The assertion can fail: one thread more than the table has slots. */
  lemma TableFills() returns (states: seq<State>, steps: seq<(nat, Action)>)
    ensures Run(states, steps) && |steps| > 0
    ensures var k := |steps| - 1; Panics(states[k], steps[k].0, steps[k].1)
  {
    states, steps := CrowdIsReached(MAX_THREADS);
    states, steps := Arrives(states, steps, MAX_THREADS);
  }
}
