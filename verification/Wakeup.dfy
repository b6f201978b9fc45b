/** Waking a fiber on another worker. A fiber that finds a deferred cell pending, or the stdin
    gate serving another ticket, leaves a token with the resource and parks; whoever changes
    the resource hands each token to its worker's completed list and wakes that worker's
    reactor. Every step below is one lock region or one atomic operation of one thread, in any
    interleaving over any number of workers, fibers and resources. */
module Wakeup {
  import opened Wrappers

  type Token = nat

  /** A token as its resource keeps it: with the worker whose reactor it belongs to. */
  datatype Ticket = Ticket(worker: nat, token: Token)

  /** What can be waited on: a deferred cell until it is settled, the stdin gate until it serves
      one's own ticket. */
  datatype Condition = Cell(settled: bool) | Gate(serving: nat)

  predicate Blocks(condition: Condition, want: nat) {
    match condition
    case Cell(settled) => !settled
    case Gate(serving) => serving != want
  }

  /** A resource: its condition, the tokens waiting on it, and the fiber inside its lock while
      that fiber hands the tokens out. */
  datatype Resource = Resource(condition: Condition, waiters: seq<Ticket>, holder: Option<nat>)

  /** `Registered`: the token is with the resource, the lock is released, the fiber is not yet
      filed. `Parked`: filed under its token in its worker's waiters. `Waking`: inside
      `complete` for the first of `tickets`, before or after the token is on the list. */
  datatype Status =
    | Ready
    | Running
    | Registered(resource: nat, want: nat, token: Token)
    | Parked(resource: nat, want: nat, token: Token)
    | Waking(source: Option<nat>, tickets: seq<Ticket>, listed: bool)
    | Paused
    | Finished

  datatype Fiber = Fiber(worker: nat, status: Status)

  /** Where a worker's loop is. */
  datatype Phase = Draining | Looping | Executing(fiber: nat) | Polling | Returned | Noticing

  /** `wake` is the reactor's sticky wake flag. Which ready fiber runs next does not matter
      here, so `ready` is a set. */
  datatype Worker = Worker(
    phase: Phase, completed: seq<Token>, wake: bool, taken: seq<Token>, nextToken: Token,
    waiters: map<Token, nat>, ready: set<nat>, inbox: nat)

  /** The token a worker's inbox is woken under, its reactor's first. */
  const INBOX_TOKEN: Token := 0

  datatype State = State(workers: seq<Worker>, fibers: seq<Fiber>, resources: seq<Resource>)

  ghost predicate Initial(s: State) {
    && (forall w <- s.workers :: w == Worker(Draining, [], false, [], INBOX_TOKEN + 1, map[], {}, w.inbox))
    && s.fibers == []
    && (forall r <- s.resources ::
        r.waiters == [] && r.holder.None? && (r.condition == Cell(false) || r.condition == Gate(0)))
  }

  // ----- steps of a fiber its worker is executing

  predicate Executes(s: State, f: nat) {
    f < |s.fibers| && s.fibers[f].worker < |s.workers| && s.workers[s.fibers[f].worker].phase == Executing(f)
  }

  function WithStatus(s: State, f: nat, status: Status): State
    requires f < |s.fibers|
  {
    s.(fibers := s.fibers[f := s.fibers[f].(status := status)])
  }

  function WithWorker(s: State, w: nat, worker: Worker): State
    requires w < |s.workers|
  {
    s.(workers := s.workers[w := worker])
  }

  /** A gate's ticket is one's own, so nobody else has released it. */
  predicate OwnTicket(condition: Condition, want: nat) {
    condition.Gate? ==> condition.serving <= want
  }

  /** Look at the resource under its lock: go on when it does not block, otherwise leave a fresh
      token with it. */
  predicate CanLook(s: State, f: nat, r: nat) {
    Executes(s, f) && s.fibers[f].status.Running? && r < |s.resources| && s.resources[r].holder.None?
  }

  function Look(s: State, f: nat, r: nat, want: nat): State
    requires CanLook(s, f, r)
  {
    if !Blocks(s.resources[r].condition, want) then s
    else
      var w := s.fibers[f].worker;
      var token := s.workers[w].nextToken;
      var waiting := s.resources[r].(waiters := s.resources[r].waiters + [Ticket(w, token)]);
      WithStatus(WithWorker(s, w, s.workers[w].(nextToken := token + 1)), f, Registered(r, want, token))
        .(resources := s.resources[r := waiting])
  }

  predicate CanPark(s: State, f: nat) {
    Executes(s, f) && s.fibers[f].status.Registered?
  }

  /** The ready-queue loop files the parked fiber under its token. */
  function Park(s: State, f: nat): State
    requires CanPark(s, f)
  {
    var w, Registered(r, want, token) := s.fibers[f].worker, s.fibers[f].status;
    WithStatus(WithWorker(s, w, s.workers[w].(phase := Looping, waiters := s.workers[w].waiters[token := f])), f,
      Parked(r, want, token))
  }

  /** Change the resource under its lock and start handing its tokens out: a producer settles
      its cell, a reader leaves the gate. */
  predicate CanChange(s: State, f: nat, r: nat) {
    CanLook(s, f, r) && (s.resources[r].condition.Cell? ==> !s.resources[r].condition.settled)
  }

  function Changed(condition: Condition): Condition {
    match condition
    case Cell(_) => Cell(true)
    case Gate(serving) => Gate(serving + 1)
  }

  function Change(s: State, f: nat, r: nat): State
    requires CanChange(s, f, r)
  {
    var resource := s.resources[r];
    WithStatus(s, f, Waking(Some(r), resource.waiters, false))
      .(resources := s.resources[r := Resource(Changed(resource.condition), [], Some(f))])
  }

  /** Queue a job in a worker's inbox and go on to wake it. */
  predicate CanPlace(s: State, f: nat, w: nat) {
    Executes(s, f) && s.fibers[f].status.Running? && w < |s.workers|
  }

  function Place(s: State, f: nat, w: nat): State
    requires CanPlace(s, f, w)
  {
    WithStatus(WithWorker(s, w, s.workers[w].(inbox := s.workers[w].inbox + 1)), f,
      Waking(None, [Ticket(w, INBOX_TOKEN)], false))
  }

  /** First half of `complete`: the token goes on its worker's completed list. */
  predicate CanList(s: State, f: nat) {
    Executes(s, f) && s.fibers[f].status.Waking? && s.fibers[f].status.tickets != [] && !s.fibers[f].status.listed &&
    s.fibers[f].status.tickets[0].worker < |s.workers|
  }

  function List(s: State, f: nat): State
    requires CanList(s, f)
  {
    var Waking(source, tickets, _) := s.fibers[f].status;
    var w := tickets[0].worker;
    WithStatus(WithWorker(s, w, s.workers[w].(completed := s.workers[w].completed + [tickets[0].token])), f,
      Waking(source, tickets, true))
  }

  /** Second half of `complete`: the reactor's wake flag. */
  predicate CanRing(s: State, f: nat) {
    Executes(s, f) && s.fibers[f].status.Waking? && s.fibers[f].status.tickets != [] && s.fibers[f].status.listed &&
    s.fibers[f].status.tickets[0].worker < |s.workers|
  }

  function Ring(s: State, f: nat): State
    requires CanRing(s, f)
  {
    var Waking(source, tickets, _) := s.fibers[f].status;
    var w := tickets[0].worker;
    WithStatus(WithWorker(s, w, s.workers[w].(wake := true)), f, Waking(source, tickets[1..], false))
  }

  /** Every token handed out: the lock, if any, is released. */
  predicate CanRelease(s: State, f: nat) {
    Executes(s, f) && s.fibers[f].status.Waking? && s.fibers[f].status.tickets == [] &&
    (s.fibers[f].status.source.Some? ==> s.fibers[f].status.source.value < |s.resources|)
  }

  function Release(s: State, f: nat): State
    requires CanRelease(s, f)
  {
    var after := WithStatus(s, f, Running);
    match s.fibers[f].status.source
    case None => after
    case Some(r) => after.(resources := s.resources[r := s.resources[r].(holder := None)])
  }

  /** The fiber parks on something else (a timer, a socket) or ends. */
  predicate CanStop(s: State, f: nat) {
    Executes(s, f) && s.fibers[f].status.Running?
  }

  function Stop(s: State, f: nat, forever: bool): State
    requires CanStop(s, f)
  {
    var w := s.fibers[f].worker;
    WithStatus(WithWorker(s, w, s.workers[w].(phase := Looping)), f, if forever then Finished else Paused)
  }

  // ----- steps of a worker's loop

  function Fresh(from: nat, count: nat): (ids: set<nat>)
    ensures forall f :: f in ids <==> from <= f < from + count
  {
    if count == 0 then {} else Fresh(from, count - 1) + {from + count - 1}
  }

  /** Install every job waiting in the inbox as a ready fiber. */
  function Drain(s: State, w: nat): State
    requires w < |s.workers| && s.workers[w].phase.Draining?
  {
    var worker := s.workers[w];
    WithWorker(s, w, worker.(phase := Looping, inbox := 0, ready := worker.ready + Fresh(|s.fibers|, worker.inbox)))
      .(fibers := s.fibers + seq(worker.inbox, _ => Fiber(w, Ready)))
  }

  predicate CanPick(s: State, f: nat) {
    f < |s.fibers| && s.fibers[f].worker < |s.workers| && s.workers[s.fibers[f].worker].phase.Looping? &&
      f in s.workers[s.fibers[f].worker].ready
  }

  function Pick(s: State, f: nat): State
    requires CanPick(s, f)
  {
    var w := s.fibers[f].worker;
    WithStatus(WithWorker(s, w, s.workers[w].(phase := Executing(f), ready := s.workers[w].ready - {f})), f, Running)
  }

  predicate CanPoll(s: State, w: nat) {
    w < |s.workers| && s.workers[w].phase.Looping? && s.workers[w].ready == {}
  }

  function Poll(s: State, w: nat): State
    requires CanPoll(s, w)
  {
    WithWorker(s, w, s.workers[w].(phase := Polling))
  }

  /** Poll returns: on the wake flag, which it then consumes, or for any other reason (a source,
      a timeout, an interrupted call), which leaves the flag alone. */
  function Return(s: State, w: nat, consumes: bool): State
    requires w < |s.workers| && s.workers[w].phase.Polling?
  {
    WithWorker(s, w, s.workers[w].(phase := Returned, wake := s.workers[w].wake && !consumes))
  }

  function Take(s: State, w: nat): State
    requires w < |s.workers| && s.workers[w].phase.Returned?
  {
    WithWorker(s, w, s.workers[w].(phase := Noticing, taken := s.workers[w].completed, completed := []))
  }

  predicate CanNotice(s: State, w: nat) {
    w < |s.workers| && s.workers[w].phase.Noticing? &&
    (s.workers[w].taken != [] && s.workers[w].taken[0] in s.workers[w].waiters ==>
      s.workers[w].waiters[s.workers[w].taken[0]] < |s.fibers|)
  }

  /** One taken token: the fiber filed under it becomes ready, a token nobody is filed under is
      ignored, and with none left the loop starts over. */
  function Notice(s: State, w: nat): State
    requires CanNotice(s, w)
  {
    var worker := s.workers[w];
    if worker.taken == [] then WithWorker(s, w, worker.(phase := Draining))
    else
      var token := worker.taken[0];
      if token !in worker.waiters then WithWorker(s, w, worker.(taken := worker.taken[1..]))
      else
        var f := worker.waiters[token];
        var rest := worker.(taken := worker.taken[1..], waiters := worker.waiters - {token});
        var woken := rest.(ready := worker.ready + {f});
        WithStatus(WithWorker(s, w, woken), f, Ready)
  }

  /** A paused fiber's own source or timer has fired: its worker finds it among the events poll
      returned, or sweeps it as due right after them. */
  predicate CanResume(s: State, f: nat) {
    && f < |s.fibers| && s.fibers[f].status.Paused? && s.fibers[f].worker < |s.workers|
    && s.workers[s.fibers[f].worker].phase.Noticing?
  }

  function Resume(s: State, f: nat): State
    requires CanResume(s, f)
  {
    var w := s.fibers[f].worker;
    WithStatus(WithWorker(s, w, s.workers[w].(ready := s.workers[w].ready + {f})), f, Ready)
  }

  // ----- runs

  datatype Step =
    | Looks(fiber: nat, resource: nat, want: nat)
    | Parks(fiber: nat)
    | Changes(fiber: nat, resource: nat)
    | Places(fiber: nat, worker: nat)
    | Lists(fiber: nat)
    | Rings(fiber: nat)
    | Releases(fiber: nat)
    | Stops(fiber: nat, forever: bool)
    | Drains(worker: nat)
    | Picks(fiber: nat)
    | Polls(worker: nat)
    | Returns(worker: nat, consumes: bool)
    | Takes(worker: nat)
    | Notices(worker: nat)
    | Resumes(fiber: nat)

  predicate Can(s: State, step: Step) {
    match step
    case Looks(f, r, want) => CanLook(s, f, r) && OwnTicket(s.resources[r].condition, want)
    case Parks(f) => CanPark(s, f)
    case Changes(f, r) => CanChange(s, f, r)
    case Places(f, w) => CanPlace(s, f, w)
    case Lists(f) => CanList(s, f)
    case Rings(f) => CanRing(s, f)
    case Releases(f) => CanRelease(s, f)
    case Stops(f, _) => CanStop(s, f)
    case Drains(w) => w < |s.workers| && s.workers[w].phase.Draining?
    case Picks(f) => CanPick(s, f)
    case Polls(w) => CanPoll(s, w)
    case Returns(w, _) => w < |s.workers| && s.workers[w].phase.Polling?
    case Takes(w) => w < |s.workers| && s.workers[w].phase.Returned?
    case Notices(w) => CanNotice(s, w)
    case Resumes(f) => CanResume(s, f)
  }

  function Do(s: State, step: Step): State
    requires Can(s, step)
  {
    match step
    case Looks(f, r, want) => Look(s, f, r, want)
    case Parks(f) => Park(s, f)
    case Changes(f, r) => Change(s, f, r)
    case Places(f, w) => Place(s, f, w)
    case Lists(f) => List(s, f)
    case Rings(f) => Ring(s, f)
    case Releases(f) => Release(s, f)
    case Stops(f, forever) => Stop(s, f, forever)
    case Drains(w) => Drain(s, w)
    case Picks(f) => Pick(s, f)
    case Polls(w) => Poll(s, w)
    case Returns(w, consumes) => Return(s, w, consumes)
    case Takes(w) => Take(s, w)
    case Notices(w) => Notice(s, w)
    case Resumes(f) => Resume(s, f)
  }

  ghost predicate Run(states: seq<State>, steps: seq<Step>) {
    && |states| == |steps| + 1 && Initial(states[0])
    && forall k | 0 <= k < |steps| :: Can(states[k], steps[k]) && states[k + 1] == Do(states[k], steps[k])
  }

  // ----- the invariant

  predicate Active(status: Status) {
    status.Running? || status.Registered? || status.Waking?
  }

  /** One fiber against its worker: an active fiber is the one its worker executes, a ready one
      is in its worker's ready set, a parked one is filed under its own token. */
  ghost predicate FiberFits(workers: seq<Worker>, f: nat, fiber: Fiber) {
    && fiber.worker < |workers|
    && var worker := workers[fiber.worker];
       && (Active(fiber.status) <==> worker.phase == Executing(f))
       && (fiber.status.Ready? ==> f in worker.ready)
       && (fiber.status.Registered? ==>
           INBOX_TOKEN < fiber.status.token < worker.nextToken && fiber.status.token !in worker.waiters)
       && (fiber.status.Parked? ==> fiber.status.token in worker.waiters && worker.waiters[fiber.status.token] == f)
  }

  /** One worker against its fibers. */
  ghost predicate WorkerFits(fibers: seq<Fiber>, w: nat, worker: Worker) {
    && (worker.phase.Executing? ==> worker.phase.fiber < |fibers| && fibers[worker.phase.fiber].worker == w)
    && (forall f <- worker.ready :: f < |fibers| && fibers[f] == Fiber(w, Ready))
    && (forall token <- worker.waiters ::
        INBOX_TOKEN < token < worker.nextToken && FiledUnder(fibers, w, worker.waiters[token], token))
    && (worker.taken != [] ==> worker.phase.Noticing?)
    && (worker.phase.Polling? ==> worker.ready == {})
    && INBOX_TOKEN < worker.nextToken
  }

  ghost predicate FiledUnder(fibers: seq<Fiber>, w: nat, f: nat, token: Token) {
    f < |fibers| && fibers[f].worker == w && fibers[f].status.Parked? && fibers[f].status.token == token
  }

  ghost predicate TicketsFit(workers: seq<Worker>, tickets: seq<Ticket>) {
    forall ticket <- tickets :: ticket.worker < |workers|
  }

  ghost predicate LocksFit(s: State) {
    && (forall r | 0 <= r < |s.resources| :: TicketsFit(s.workers, s.resources[r].waiters))
    && (forall f | 0 <= f < |s.fibers| && s.fibers[f].status.Waking? ::
      && TicketsFit(s.workers, s.fibers[f].status.tickets)
      && (s.fibers[f].status.source.Some? ==> s.fibers[f].status.source.value < |s.resources|))
  }

  ghost predicate FibersFit(workers: seq<Worker>, fibers: seq<Fiber>) {
    forall f | 0 <= f < |fibers| :: FiberFits(workers, f, fibers[f])
  }

  ghost predicate WorkersFit(workers: seq<Worker>, fibers: seq<Fiber>) {
    forall w | 0 <= w < |workers| :: WorkerFits(fibers, w, workers[w])
  }

  ghost predicate Shape(s: State) {
    FibersFit(s.workers, s.fibers) && WorkersFit(s.workers, s.fibers) && LocksFit(s)
  }

  /** The tickets a waking fiber has still to put on a completed list. */
  function Unlisted(status: Status): seq<Ticket> {
    if !status.Waking? then []
    else if status.listed && status.tickets != [] then status.tickets[1..] else status.tickets
  }

  ghost predicate InHand(fibers: seq<Fiber>, ticket: Ticket) {
    exists g :: 0 <= g < |fibers| && ticket in Unlisted(fibers[g].status)
  }

  /** The token is on its way: with a fiber that hands it out, or with its worker. */
  ghost predicate Underway(s: State, w: nat, token: Token)
    requires w < |s.workers|
  {
    InHand(s.fibers, Ticket(w, token)) || token in s.workers[w].completed || token in s.workers[w].taken
  }

  predicate Waits(status: Status) {
    status.Registered? || status.Parked?
  }

  /** What a fiber waits for is still to come: the cell is not settled, the ticket not reached. */
  predicate Pending(condition: Condition, want: nat) {
    match condition
    case Cell(settled) => !settled
    case Gate(serving) => serving < want
  }

  /** A waiting fiber is still rightly blocked with its token at the resource, or its token is
      on its way. */
  ghost predicate Accounted(s: State, f: nat)
    requires f < |s.fibers| && s.fibers[f].worker < |s.workers| && Waits(s.fibers[f].status)
  {
    var w, status := s.fibers[f].worker, s.fibers[f].status;
    && status.resource < |s.resources|
    && (|| Underway(s, w, status.token)
        || (Ticket(w, status.token) in s.resources[status.resource].waiters &&
            Pending(s.resources[status.resource].condition, status.want)))
  }

  ghost predicate AllAccounted(s: State)
    requires Shape(s)
  {
    forall f | 0 <= f < |s.fibers| && Waits(s.fibers[f].status) ::
      FiberFits(s.workers, f, s.fibers[f]) && Accounted(s, f)
  }

  /** A fiber between listing a token and ringing its worker. */
  ghost predicate AboutToRing(fibers: seq<Fiber>, w: nat) {
    exists g :: 0 <= g < |fibers| && RingsNext(fibers[g].status, w)
  }

  predicate RingsNext(status: Status, w: nat) {
    status.Waking? && status.tickets != [] && status.listed && status.tickets[0].worker == w
  }

  ghost predicate AboutToPlace(fibers: seq<Fiber>, w: nat) {
    exists g :: 0 <= g < |fibers| && fibers[g].status.Waking? && Ticket(w, INBOX_TOKEN) in fibers[g].status.tickets
  }

  /** No worker sleeps through its list or its inbox: a token on the completed list, or a job in
      the inbox, finds the worker awake, its flag set, or a fiber about to set it. */
  ghost predicate Belled(fibers: seq<Fiber>, w: nat, worker: Worker) {
    && (worker.completed != [] ==> worker.wake || worker.phase.Returned? || AboutToRing(fibers, w))
    && (worker.inbox > 0 ==>
        worker.wake || worker.phase.Draining? || worker.phase.Returned? || worker.phase.Noticing? ||
          AboutToPlace(fibers, w))
  }

  ghost predicate AllBelled(s: State) {
    forall w | 0 <= w < |s.workers| :: Belled(s.fibers, w, s.workers[w])
  }

  ghost predicate Invariant(s: State) {
    Shape(s) && AllAccounted(s) && AllBelled(s)
  }

  lemma InitialHolds(s: State)
    requires Initial(s)
    ensures Invariant(s)
  {
    forall w | 0 <= w < |s.workers| ensures WorkerFits(s.fibers, w, s.workers[w]) && Belled(s.fibers, w, s.workers[w]) {
      assert s.workers[w] in s.workers;
    }
    forall r | 0 <= r < |s.resources| ensures TicketsFit(s.workers, s.resources[r].waiters) {
      assert s.resources[r] in s.resources;
    }
  }

  /** The stuck states there are not: when no thread can move on its own, no fiber is running or
      ready, every parked fiber is waiting for something that has not happened, and no token and
      no placed job is left behind. */
  lemma QuietMeansBlocked(s: State)
    requires Invariant(s)
    requires forall w <- s.workers :: w.phase.Polling? && !w.wake
    ensures forall f | 0 <= f < |s.fibers| && Waits(s.fibers[f].status) ::
      s.fibers[f].status.resource < |s.resources| &&
        Pending(s.resources[s.fibers[f].status.resource].condition, s.fibers[f].status.want)
    ensures forall w <- s.workers :: w.completed == [] && w.inbox == 0 && w.ready == {}
    ensures forall f | 0 <= f < |s.fibers| :: !s.fibers[f].status.Ready? && !Active(s.fibers[f].status)
  {
    forall g | 0 <= g < |s.fibers| ensures !s.fibers[g].status.Ready? && !Active(s.fibers[g].status) {
      assert WorkerFits(s.fibers, s.fibers[g].worker, s.workers[s.fibers[g].worker]) by {
        assert FiberFits(s.workers, g, s.fibers[g]);
      }
      assert FiberFits(s.workers, g, s.fibers[g]) && s.workers[s.fibers[g].worker] in s.workers;
    }
    forall w | 0 <= w < |s.workers|
      ensures s.workers[w].completed == [] && s.workers[w].inbox == 0 && s.workers[w].taken == [] &&
        s.workers[w].ready == {}
    {
      assert s.workers[w] in s.workers && WorkerFits(s.fibers, w, s.workers[w]) && Belled(s.fibers, w, s.workers[w]);
    }
    forall f | 0 <= f < |s.fibers| && Waits(s.fibers[f].status)
      ensures s.fibers[f].status.resource < |s.resources| &&
        Pending(s.resources[s.fibers[f].status.resource].condition, s.fibers[f].status.want)
    {
      assert Accounted(s, f);
    }
  }

  // ----- every step keeps the invariant

  /** To keep the invariant it is enough to look at each fiber, worker and resource once. */
  lemma Assemble(t: State)
    requires FibersFit(t.workers, t.fibers) && WorkersFit(t.workers, t.fibers) && LocksFit(t)
    requires forall f | 0 <= f < |t.fibers| && Waits(t.fibers[f].status) :: Accounted(t, f)
    requires forall w | 0 <= w < |t.workers| :: Belled(t.fibers, w, t.workers[w])
    ensures Invariant(t)
  {
  }

  /** Tokens stay on their way, and bells stay about to ring, across a step that leaves every
      other fiber's hand alone and takes nothing from the changed fiber's. */
  lemma HandsKeep(fibers: seq<Fiber>, f: nat, fiber: Fiber)
    requires f < |fibers|
    requires forall ticket <- Unlisted(fibers[f].status) :: ticket in Unlisted(fiber.status)
    ensures forall ticket :: InHand(fibers, ticket) ==> InHand(fibers[f := fiber], ticket)
  {
    forall ticket | InHand(fibers, ticket) ensures InHand(fibers[f := fiber], ticket) {
      var g :| 0 <= g < |fibers| && ticket in Unlisted(fibers[g].status);
      assert ticket in Unlisted(fibers[f := fiber][g].status);
    }
  }

  lemma BellsKeep(fibers: seq<Fiber>, f: nat, fiber: Fiber, w: nat)
    requires f < |fibers|
    requires RingsNext(fibers[f].status, w) ==> RingsNext(fiber.status, w)
    requires fibers[f].status.Waking? && Ticket(w, INBOX_TOKEN) in fibers[f].status.tickets ==>
      fiber.status.Waking? && Ticket(w, INBOX_TOKEN) in fiber.status.tickets
    ensures AboutToRing(fibers, w) ==> AboutToRing(fibers[f := fiber], w)
    ensures AboutToPlace(fibers, w) ==> AboutToPlace(fibers[f := fiber], w)
  {
    if AboutToRing(fibers, w) {
      var g :| 0 <= g < |fibers| && RingsNext(fibers[g].status, w);
      assert RingsNext(fibers[f := fiber][g].status, w);
    }
    if AboutToPlace(fibers, w) {
      var g :| 0 <= g < |fibers| && fibers[g].status.Waking? && Ticket(w, INBOX_TOKEN) in fibers[g].status.tickets;
      assert fibers[f := fiber][g].status.Waking? && Ticket(w, INBOX_TOKEN) in fibers[f := fiber][g].status.tickets;
    }
  }

  /** How a step of the fiber a worker executes may change a worker: the executing worker may
      go back to its loop, filing the fiber; any worker may get a token, a bell or a job. */
  ghost predicate Steps(f: nat, fiber: Fiber, w: nat, before: Worker, after: Worker) {
    && after.ready == before.ready && after.taken == before.taken && after.nextToken >= before.nextToken
    && (after.phase == before.phase || (w == fiber.worker && after.phase.Looping? && !Active(fiber.status)))
    && (after.waiters == before.waiters ||
        (w == fiber.worker && fiber.status.Parked? && INBOX_TOKEN < fiber.status.token < after.nextToken &&
         fiber.status.token !in before.waiters && after.waiters == before.waiters[fiber.status.token := f]))
  }

  /** The shape survives any step of an executing fiber that leaves the fiber itself fitting. */
  lemma ShapeKeeps(s: State, f: nat, fiber: Fiber, w: nat, worker: Worker)
    requires Shape(s) && Executes(s, f) && w < |s.workers|
    requires fiber.worker == s.fibers[f].worker && !fiber.status.Ready?
    requires Steps(f, fiber, w, s.workers[w], worker) && FiberFits(s.workers[w := worker], f, fiber)
    ensures FibersFit(s.workers[w := worker], s.fibers[f := fiber])
    ensures WorkersFit(s.workers[w := worker], s.fibers[f := fiber])
  {
    ShapeKeepsFibers(s, f, fiber, w, worker);
    ShapeKeepsWorkers(s, f, fiber, w, worker);
  }

  lemma ShapeKeepsFibers(s: State, f: nat, fiber: Fiber, w: nat, worker: Worker)
    requires Shape(s) && Executes(s, f) && w < |s.workers|
    requires fiber.worker == s.fibers[f].worker
    requires Steps(f, fiber, w, s.workers[w], worker) && FiberFits(s.workers[w := worker], f, fiber)
    ensures FibersFit(s.workers[w := worker], s.fibers[f := fiber])
  {
    var workers, fibers := s.workers[w := worker], s.fibers[f := fiber];
    assert FiberFits(s.workers, f, s.fibers[f]);
    forall g | 0 <= g < |fibers| ensures FiberFits(workers, g, fibers[g]) {
      assert FiberFits(s.workers, g, s.fibers[g]);
    }
  }

  lemma ShapeKeepsWorkers(s: State, f: nat, fiber: Fiber, w: nat, worker: Worker)
    requires Shape(s) && Executes(s, f) && w < |s.workers|
    requires fiber.worker == s.fibers[f].worker && !fiber.status.Ready?
    requires Steps(f, fiber, w, s.workers[w], worker) && FiberFits(s.workers[w := worker], f, fiber)
    ensures WorkersFit(s.workers[w := worker], s.fibers[f := fiber])
  {
    var workers, fibers := s.workers[w := worker], s.fibers[f := fiber];
    assert FiberFits(s.workers, f, s.fibers[f]);
    forall x | 0 <= x < |workers| ensures WorkerFits(fibers, x, workers[x]) {
      assert WorkerFits(s.fibers, x, s.workers[x]);
    }
  }

  lemma ParkKeeps(s: State, f: nat)
    requires Invariant(s) && CanPark(s, f)
    ensures Invariant(Park(s, f))
  {
    var t := Park(s, f);
    HandsKeep(s.fibers, f, t.fibers[f]);
    assert FiberFits(s.workers, f, s.fibers[f]) &&
      WorkerFits(s.fibers, s.fibers[f].worker, s.workers[s.fibers[f].worker]);
    ShapeKeeps(s, f, t.fibers[f], s.fibers[f].worker, t.workers[s.fibers[f].worker]);
    forall g | 0 <= g < |t.fibers| && Waits(t.fibers[g].status) ensures Accounted(t, g) {
      assert Accounted(s, g);
    }
    forall w | 0 <= w < |t.workers| ensures Belled(t.fibers, w, t.workers[w]) {
      assert Belled(s.fibers, w, s.workers[w]);
      BellsKeep(s.fibers, f, t.fibers[f], w);
    }
    Assemble(t);
  }

  lemma LookKeeps(s: State, f: nat, r: nat, want: nat)
    requires Invariant(s) && CanLook(s, f, r) && OwnTicket(s.resources[r].condition, want)
    ensures Invariant(Look(s, f, r, want))
  {
    var t := Look(s, f, r, want);
    if t == s { return; }
    HandsKeep(s.fibers, f, t.fibers[f]);
    assert FiberFits(s.workers, f, s.fibers[f]) &&
      WorkerFits(s.fibers, s.fibers[f].worker, s.workers[s.fibers[f].worker]);
    ShapeKeeps(s, f, t.fibers[f], s.fibers[f].worker, t.workers[s.fibers[f].worker]);
    forall g | 0 <= g < |t.fibers| && Waits(t.fibers[g].status) ensures Accounted(t, g) {
      if g != f { assert Accounted(s, g); }
    }
    forall w | 0 <= w < |t.workers| ensures Belled(t.fibers, w, t.workers[w]) {
      assert Belled(s.fibers, w, s.workers[w]);
      BellsKeep(s.fibers, f, t.fibers[f], w);
    }
    Assemble(t);
  }

  lemma ChangeKeeps(s: State, f: nat, r: nat)
    requires Invariant(s) && CanChange(s, f, r)
    ensures Invariant(Change(s, f, r))
  {
    var t := Change(s, f, r);
    assert FiberFits(s.workers, f, s.fibers[f]) &&
      WorkerFits(s.fibers, s.fibers[f].worker, s.workers[s.fibers[f].worker]);
    assert t.workers == s.workers == s.workers[s.fibers[f].worker := s.workers[s.fibers[f].worker]];
    ShapeKeeps(s, f, t.fibers[f], s.fibers[f].worker, s.workers[s.fibers[f].worker]);
    assert LocksFit(t);
    ChangeAccounts(s, f, r);
    forall w | 0 <= w < |t.workers| ensures Belled(t.fibers, w, t.workers[w]) {
      assert Belled(s.fibers, w, s.workers[w]);
      BellsKeep(s.fibers, f, t.fibers[f], w);
    }
    Assemble(t);
  }

  /** The tokens of the changed resource are now in the hand of the fiber that changed it. */
  lemma ChangeAccounts(s: State, f: nat, r: nat)
    requires Invariant(s) && CanChange(s, f, r) && FibersFit(Change(s, f, r).workers, Change(s, f, r).fibers)
    ensures var t := Change(s, f, r);
            forall g | 0 <= g < |t.fibers| && Waits(t.fibers[g].status) :: Accounted(t, g)
  {
    var t := Change(s, f, r);
    HandsKeep(s.fibers, f, t.fibers[f]);
    forall g | 0 <= g < |t.fibers| && Waits(t.fibers[g].status) ensures Accounted(t, g) {
      assert Accounted(s, g);
      if t.fibers[g].status.resource == r {
        var ticket := Ticket(t.fibers[g].worker, t.fibers[g].status.token);
        assert ticket in s.resources[r].waiters ==> ticket in Unlisted(t.fibers[f].status);
      }
    }
  }

  lemma PlaceKeeps(s: State, f: nat, target: nat)
    requires Invariant(s) && CanPlace(s, f, target)
    ensures Invariant(Place(s, f, target))
  {
    var t := Place(s, f, target);
    HandsKeep(s.fibers, f, t.fibers[f]);
    assert FiberFits(s.workers, f, s.fibers[f]) &&
      WorkerFits(s.fibers, s.fibers[f].worker, s.workers[s.fibers[f].worker]);
    ShapeKeeps(s, f, t.fibers[f], target, t.workers[target]);
    forall g | 0 <= g < |t.fibers| && Waits(t.fibers[g].status) ensures Accounted(t, g) {
      if g != f { assert Accounted(s, g); }
    }
    forall w | 0 <= w < |t.workers| ensures Belled(t.fibers, w, t.workers[w]) {
      assert Belled(s.fibers, w, s.workers[w]);
      BellsKeep(s.fibers, f, t.fibers[f], w);
      assert Ticket(target, INBOX_TOKEN) in t.fibers[f].status.tickets;
    }
    Assemble(t);
  }

  lemma ListKeeps(s: State, f: nat)
    requires Invariant(s) && CanList(s, f)
    ensures Invariant(List(s, f))
  {
    var t := List(s, f);
    var head := s.fibers[f].status.tickets[0];
    ListMovesHand(s.fibers, f, t.fibers[f]);
    assert FiberFits(s.workers, f, s.fibers[f]) &&
      WorkerFits(s.fibers, s.fibers[f].worker, s.workers[s.fibers[f].worker]);
    ShapeKeeps(s, f, t.fibers[f], head.worker, t.workers[head.worker]);
    forall g | 0 <= g < |t.fibers| && Waits(t.fibers[g].status) ensures Accounted(t, g) {
      assert Accounted(s, g);
      assert head.token in t.workers[head.worker].completed;
    }
    forall w | 0 <= w < |t.workers| ensures Belled(t.fibers, w, t.workers[w]) {
      assert Belled(s.fibers, w, s.workers[w]);
      BellsKeep(s.fibers, f, t.fibers[f], w);
      assert RingsNext(t.fibers[f].status, head.worker);
    }
    Assemble(t);
  }

  lemma RingKeeps(s: State, f: nat)
    requires Invariant(s) && CanRing(s, f)
    ensures Invariant(Ring(s, f))
  {
    var t := Ring(s, f);
    HandsKeep(s.fibers, f, t.fibers[f]);
    var tickets := s.fibers[f].status.tickets;
    assert FiberFits(s.workers, f, s.fibers[f]) &&
      WorkerFits(s.fibers, s.fibers[f].worker, s.workers[s.fibers[f].worker]);
    ShapeKeeps(s, f, t.fibers[f], tickets[0].worker, t.workers[tickets[0].worker]);
    forall g | 0 <= g < |t.fibers| && Waits(t.fibers[g].status) ensures Accounted(t, g) {
      assert Accounted(s, g);
    }
    forall w | 0 <= w < |t.workers| ensures Belled(t.fibers, w, t.workers[w]) {
      assert Belled(s.fibers, w, s.workers[w]);
      if w != tickets[0].worker {
        assert tickets == [tickets[0]] + tickets[1..];
        BellsKeep(s.fibers, f, t.fibers[f], w);
      }
    }
    Assemble(t);
  }

  lemma ReleaseKeeps(s: State, f: nat)
    requires Invariant(s) && CanRelease(s, f)
    ensures Invariant(Release(s, f))
  {
    var t := Release(s, f);
    var w := s.fibers[f].worker;
    HandsKeep(s.fibers, f, t.fibers[f]);
    assert FiberFits(s.workers, f, s.fibers[f]);
    assert t.workers == s.workers == s.workers[w := s.workers[w]];
    ShapeKeeps(s, f, t.fibers[f], w, s.workers[w]);
    assert forall r | 0 <= r < |s.resources| ::
      t.resources[r].waiters == s.resources[r].waiters && t.resources[r].condition == s.resources[r].condition;
    assert LocksFit(t);
    forall g | 0 <= g < |t.fibers| && Waits(t.fibers[g].status) ensures Accounted(t, g) {
      assert Accounted(s, g);
    }
    forall x | 0 <= x < |t.workers| ensures Belled(t.fibers, x, t.workers[x]) {
      assert Belled(s.fibers, x, s.workers[x]);
      BellsKeep(s.fibers, f, t.fibers[f], x);
    }
    Assemble(t);
  }

  lemma StopKeeps(s: State, f: nat, forever: bool)
    requires Invariant(s) && CanStop(s, f)
    ensures Invariant(Stop(s, f, forever))
  {
    var t := Stop(s, f, forever);
    HandsKeep(s.fibers, f, t.fibers[f]);
    assert FiberFits(s.workers, f, s.fibers[f]) &&
      WorkerFits(s.fibers, s.fibers[f].worker, s.workers[s.fibers[f].worker]);
    ShapeKeeps(s, f, t.fibers[f], s.fibers[f].worker, t.workers[s.fibers[f].worker]);
    forall g | 0 <= g < |t.fibers| && Waits(t.fibers[g].status) ensures Accounted(t, g) {
      assert Accounted(s, g);
    }
    forall w | 0 <= w < |t.workers| ensures Belled(t.fibers, w, t.workers[w]) {
      assert Belled(s.fibers, w, s.workers[w]);
      BellsKeep(s.fibers, f, t.fibers[f], w);
    }
    Assemble(t);
  }

  /** Listing moves exactly the first ticket out of the hand. */
  lemma ListMovesHand(fibers: seq<Fiber>, f: nat, fiber: Fiber)
    requires f < |fibers| && fibers[f].status.Waking? && fibers[f].status.tickets != [] && !fibers[f].status.listed
    requires fiber.status == fibers[f].status.(listed := true)
    ensures forall ticket ::
      InHand(fibers, ticket) ==> InHand(fibers[f := fiber], ticket) || ticket == fibers[f].status.tickets[0]
  {
    var tickets := fibers[f].status.tickets;
    forall ticket | InHand(fibers, ticket) && ticket != tickets[0] ensures InHand(fibers[f := fiber], ticket) {
      var g :| 0 <= g < |fibers| && ticket in Unlisted(fibers[g].status);
      assert tickets == [tickets[0]] + tickets[1..];
      assert ticket in Unlisted(fibers[f := fiber][g].status);
    }
  }

  /** A step of a worker's loop that touches no fiber: the flag and the lists move, everything a
      fiber relies on stays. */
  lemma LoopKeeps(s: State, w: nat, worker: Worker)
    requires Invariant(s) && w < |s.workers| && !s.workers[w].phase.Executing? && !worker.phase.Executing?
    requires worker.ready == s.workers[w].ready && worker.waiters == s.workers[w].waiters &&
      worker.nextToken == s.workers[w].nextToken
    requires worker.taken != [] ==> worker.phase.Noticing?
    requires worker.phase.Polling? ==> worker.ready == {}
    requires forall token :: token in s.workers[w].completed || token in s.workers[w].taken ==>
      token in worker.completed || token in worker.taken || (s.workers[w].phase.Noticing? && token !in worker.waiters)
    requires Belled(s.fibers, w, worker)
    ensures Invariant(WithWorker(s, w, worker))
  {
    var t := WithWorker(s, w, worker);
    forall g | 0 <= g < |t.fibers| ensures FiberFits(t.workers, g, t.fibers[g]) {
      assert FiberFits(s.workers, g, s.fibers[g]);
    }
    forall x | 0 <= x < |t.workers| ensures WorkerFits(t.fibers, x, t.workers[x]) && Belled(t.fibers, x, t.workers[x]) {
      assert WorkerFits(s.fibers, x, s.workers[x]) && Belled(s.fibers, x, s.workers[x]);
    }
    forall g | 0 <= g < |t.fibers| && Waits(t.fibers[g].status) ensures Accounted(t, g) {
      assert Accounted(s, g) && FiberFits(s.workers, g, s.fibers[g]);
    }
    Assemble(t);
  }

  lemma LoopStepsKeep(s: State, step: Step)
    requires Invariant(s) && Can(s, step) && (step.Polls? || step.Returns? || step.Takes?)
    ensures Invariant(Do(s, step))
  {
    var w := step.worker;
    assert Belled(s.fibers, w, s.workers[w]) && WorkerFits(s.fibers, w, s.workers[w]);
    LoopKeeps(s, w, Do(s, step).workers[w]);
  }

  lemma PickShape(s: State, f: nat)
    requires Shape(s) && CanPick(s, f)
    ensures FibersFit(Pick(s, f).workers, Pick(s, f).fibers) && WorkersFit(Pick(s, f).workers, Pick(s, f).fibers)
  {
    var t := Pick(s, f);
    var w := s.fibers[f].worker;
    assert WorkerFits(s.fibers, w, s.workers[w]);
    forall g | 0 <= g < |t.fibers| ensures FiberFits(t.workers, g, t.fibers[g]) {
      assert FiberFits(s.workers, g, s.fibers[g]);
    }
    forall x | 0 <= x < |t.workers| ensures WorkerFits(t.fibers, x, t.workers[x]) {
      assert WorkerFits(s.fibers, x, s.workers[x]);
    }
  }

  lemma PickKeeps(s: State, f: nat)
    requires Invariant(s) && CanPick(s, f)
    ensures Invariant(Pick(s, f))
  {
    var t := Pick(s, f);
    var w := s.fibers[f].worker;
    assert WorkerFits(s.fibers, w, s.workers[w]);
    HandsKeep(s.fibers, f, t.fibers[f]);
    PickShape(s, f);
    forall x | 0 <= x < |t.workers| ensures Belled(t.fibers, x, t.workers[x]) {
      assert Belled(s.fibers, x, s.workers[x]);
      BellsKeep(s.fibers, f, t.fibers[f], x);
    }
    forall g | 0 <= g < |t.fibers| && Waits(t.fibers[g].status) ensures Accounted(t, g) {
      assert Accounted(s, g);
    }
    Assemble(t);
  }

  lemma NoticeShape(s: State, w: nat)
    requires Shape(s) && CanNotice(s, w) && s.workers[w].taken != [] && s.workers[w].taken[0] in s.workers[w].waiters
    ensures FibersFit(Notice(s, w).workers, Notice(s, w).fibers)
    ensures WorkersFit(Notice(s, w).workers, Notice(s, w).fibers)
  {
    var t, worker := Notice(s, w), s.workers[w];
    assert WorkerFits(s.fibers, w, worker) && FiledUnder(s.fibers, w, worker.waiters[worker.taken[0]], worker.taken[0]);
    forall g | 0 <= g < |t.fibers| ensures FiberFits(t.workers, g, t.fibers[g]) {
      assert FiberFits(s.workers, g, s.fibers[g]);
    }
    forall x | 0 <= x < |t.workers| ensures WorkerFits(t.fibers, x, t.workers[x]) {
      assert WorkerFits(s.fibers, x, s.workers[x]);
    }
  }

  lemma NoticeAccounts(s: State, w: nat)
    requires Invariant(s) && CanNotice(s, w) && s.workers[w].taken != [] &&
      s.workers[w].taken[0] in s.workers[w].waiters
    requires FibersFit(Notice(s, w).workers, Notice(s, w).fibers)
    ensures var t := Notice(s, w);
            forall g | 0 <= g < |t.fibers| && Waits(t.fibers[g].status) :: Accounted(t, g)
  {
    var t, worker := Notice(s, w), s.workers[w];
    var token := worker.taken[0];
    var f := worker.waiters[token];
    assert WorkerFits(s.fibers, w, worker) && FiledUnder(s.fibers, w, f, token);
    HandsKeep(s.fibers, f, t.fibers[f]);
    assert worker.taken == [token] + worker.taken[1..];
    forall g | 0 <= g < |t.fibers| && Waits(t.fibers[g].status) ensures Accounted(t, g) {
      assert Accounted(s, g) && FiberFits(s.workers, g, s.fibers[g]);
    }
  }

  /** A taken token wakes the fiber filed under it. */
  lemma NoticeFiberKeeps(s: State, w: nat)
    requires Invariant(s) && CanNotice(s, w) && s.workers[w].taken != [] &&
      s.workers[w].taken[0] in s.workers[w].waiters
    ensures Invariant(Notice(s, w))
  {
    var t, worker := Notice(s, w), s.workers[w];
    var token := worker.taken[0];
    var f := worker.waiters[token];
    assert WorkerFits(s.fibers, w, worker) && FiledUnder(s.fibers, w, f, token);
    HandsKeep(s.fibers, f, t.fibers[f]);
    NoticeShape(s, w);
    forall x | 0 <= x < |t.workers| ensures Belled(t.fibers, x, t.workers[x]) {
      assert Belled(s.fibers, x, s.workers[x]);
      BellsKeep(s.fibers, f, t.fibers[f], x);
    }
    NoticeAccounts(s, w);
    Assemble(t);
  }

  lemma NoticeKeeps(s: State, w: nat)
    requires Invariant(s) && CanNotice(s, w)
    ensures Invariant(Notice(s, w))
  {
    var worker := s.workers[w];
    assert Belled(s.fibers, w, worker) && WorkerFits(s.fibers, w, worker);
    if worker.taken == [] || worker.taken[0] !in worker.waiters {
      LoopKeeps(s, w, Notice(s, w).workers[w]);
    } else {
      NoticeFiberKeeps(s, w);
    }
  }

  lemma DrainShape(s: State, w: nat)
    requires Shape(s) && w < |s.workers| && s.workers[w].phase.Draining?
    ensures FibersFit(Drain(s, w).workers, Drain(s, w).fibers) && WorkersFit(Drain(s, w).workers, Drain(s, w).fibers)
  {
    var t := Drain(s, w);
    var n := |s.fibers|;
    forall g | 0 <= g < |t.fibers| ensures FiberFits(t.workers, g, t.fibers[g]) {
      if g < n {
        assert FiberFits(s.workers, g, s.fibers[g]);
      } else {
        assert t.fibers[g] == Fiber(w, Ready);
        assert WorkerFits(s.fibers, w, s.workers[w]);
      }
    }
    forall x | 0 <= x < |t.workers| ensures WorkerFits(t.fibers, x, t.workers[x]) {
      assert WorkerFits(s.fibers, x, s.workers[x]);
    }
  }

  lemma DrainKeeps(s: State, w: nat)
    requires Invariant(s) && w < |s.workers| && s.workers[w].phase.Draining?
    ensures Invariant(Drain(s, w))
  {
    var t := Drain(s, w);
    var n := |s.fibers|;
    DrainShape(s, w);
    forall x | 0 <= x < |t.workers| ensures Belled(t.fibers, x, t.workers[x]) {
      assert Belled(s.fibers, x, s.workers[x]);
      BellsGrow(s.fibers, t.fibers, x);
    }
    forall g | 0 <= g < |t.fibers| && Waits(t.fibers[g].status) ensures Accounted(t, g) {
      assert g < n && Accounted(s, g);
      HandsGrow(s.fibers, t.fibers, Ticket(s.fibers[g].worker, s.fibers[g].status.token));
    }
    Assemble(t);
  }

  lemma HandsGrow(fibers: seq<Fiber>, more: seq<Fiber>, ticket: Ticket)
    requires fibers <= more
    ensures InHand(fibers, ticket) ==> InHand(more, ticket)
  {
  }

  lemma BellsGrow(fibers: seq<Fiber>, more: seq<Fiber>, w: nat)
    requires fibers <= more
    ensures AboutToRing(fibers, w) ==> AboutToRing(more, w)
    ensures AboutToPlace(fibers, w) ==> AboutToPlace(more, w)
  {
    if AboutToRing(fibers, w) {
      var g :| 0 <= g < |fibers| && RingsNext(fibers[g].status, w);
      assert RingsNext(more[g].status, w);
    }
    if AboutToPlace(fibers, w) {
      var g :| 0 <= g < |fibers| && fibers[g].status.Waking? && Ticket(w, INBOX_TOKEN) in fibers[g].status.tickets;
      assert more[g].status.Waking? && Ticket(w, INBOX_TOKEN) in more[g].status.tickets;
    }
  }

  lemma StepKeeps(s: State, step: Step)
    requires Invariant(s) && Can(s, step)
    ensures Invariant(Do(s, step))
  {
    match step
    case Looks(f, r, want) => LookKeeps(s, f, r, want);
    case Parks(f) => ParkKeeps(s, f);
    case Changes(f, r) => ChangeKeeps(s, f, r);
    case Places(f, w) => PlaceKeeps(s, f, w);
    case Lists(f) => ListKeeps(s, f);
    case Rings(f) => RingKeeps(s, f);
    case Releases(f) => ReleaseKeeps(s, f);
    case Stops(f, forever) => StopKeeps(s, f, forever);
    case Drains(w) => DrainKeeps(s, w);
    case Picks(f) => PickKeeps(s, f);
    case Polls(_) => LoopStepsKeep(s, step);
    case Returns(_, _) => LoopStepsKeep(s, step);
    case Takes(_) => LoopStepsKeep(s, step);
    case Notices(w) => NoticeKeeps(s, w);
    case Resumes(f) => ResumeKeeps(s, f);
  }

  lemma ResumeShape(s: State, f: nat)
    requires Shape(s) && CanResume(s, f)
    ensures FibersFit(Resume(s, f).workers, Resume(s, f).fibers)
    ensures WorkersFit(Resume(s, f).workers, Resume(s, f).fibers)
  {
    var t := Resume(s, f);
    assert FiberFits(s.workers, f, s.fibers[f]);
    forall g | 0 <= g < |t.fibers| ensures FiberFits(t.workers, g, t.fibers[g]) {
      assert FiberFits(s.workers, g, s.fibers[g]);
    }
    forall x | 0 <= x < |t.workers| ensures WorkerFits(t.fibers, x, t.workers[x]) {
      assert WorkerFits(s.fibers, x, s.workers[x]);
    }
  }

  lemma ResumeKeeps(s: State, f: nat)
    requires Invariant(s) && CanResume(s, f)
    ensures Invariant(Resume(s, f))
  {
    var t := Resume(s, f);
    var w := s.fibers[f].worker;
    HandsKeep(s.fibers, f, t.fibers[f]);
    ResumeShape(s, f);
    forall x | 0 <= x < |t.workers| ensures Belled(t.fibers, x, t.workers[x]) {
      assert Belled(s.fibers, x, s.workers[x]);
      BellsKeep(s.fibers, f, t.fibers[f], x);
    }
    forall g | 0 <= g < |t.fibers| && Waits(t.fibers[g].status) ensures Accounted(t, g) {
      assert Accounted(s, g);
    }
    Assemble(t);
  }

  lemma {:induction false} RunKeeps(states: seq<State>, steps: seq<Step>, k: nat)
    requires Run(states, steps) && k < |states|
    ensures Invariant(states[k])
  {
    if k == 0 {
      InitialHolds(states[0]);
    } else {
      RunKeeps(states, steps, k - 1);
      StepKeeps(states[k - 1], steps[k - 1]);
    }
  }

  // ----- jobs and locks

  function Inboxes(workers: seq<Worker>): nat {
    if workers == [] then 0 else Inboxes(workers[..|workers| - 1]) + workers[|workers| - 1].inbox
  }

  /** The jobs there are: those in an inbox and those that have become fibers. */
  function Jobs(s: State): nat { |s.fibers| + Inboxes(s.workers) }

  lemma {:induction false} InboxesUpdated(workers: seq<Worker>, w: nat, worker: Worker)
    requires w < |workers|
    ensures Inboxes(workers[w := worker]) + workers[w].inbox == Inboxes(workers) + worker.inbox
    decreases |workers|
  {
    var last := |workers| - 1;
    if w < last {
      InboxesUpdated(workers[..last], w, worker);
      assert workers[w := worker][..last] == workers[..last][w := worker];
    } else {
      assert workers[w := worker][..last] == workers[..last];
    }
  }

  /** A job is made by placing it, and nothing else adds or drops one. */
  lemma StepKeepsJobs(s: State, step: Step)
    requires Can(s, step)
    ensures Jobs(Do(s, step)) == Jobs(s) + (if step.Places? then 1 else 0)
  {
    if ByFiber(step) {
      FiberKeepsJobs(s, step);
    } else {
      var w := if step.Picks? || step.Resumes? then s.fibers[step.fiber].worker else step.worker;
      InboxesUpdated(s.workers, w, Do(s, step).workers[w]);
    }
  }

  lemma FiberKeepsJobs(s: State, step: Step)
    requires Can(s, step) && ByFiber(step)
    ensures Jobs(Do(s, step)) == Jobs(s) + (if step.Places? then 1 else 0)
  {
    var w := if step.Places? then step.worker
             else if step.Lists? || step.Rings? then s.fibers[step.fiber].status.tickets[0].worker
             else s.fibers[step.fiber].worker;
    InboxesUpdated(s.workers, w, Do(s, step).workers[w]);
  }

  function Placed(steps: seq<Step>): nat {
    if steps == [] then 0 else Placed(steps[..|steps| - 1]) + (if steps[|steps| - 1].Places? then 1 else 0)
  }

  /** Over a whole run no placed job is lost or doubled: it is in an inbox or it is a fiber. */
  lemma {:induction false} JobsConserved(states: seq<State>, steps: seq<Step>, k: nat)
    requires Run(states, steps) && k < |states|
    ensures Jobs(states[k]) == Jobs(states[0]) + Placed(steps[..k])
    decreases k
  {
    if k > 0 {
      JobsConserved(states, steps, k - 1);
      StepKeepsJobs(states[k - 1], steps[k - 1]);
      assert steps[..k][..k - 1] == steps[..k - 1];
    }
  }

  /** A held lock is held by a fiber that is handing out that resource's tokens. */
  ghost predicate HoldersWake(s: State) {
    forall r | 0 <= r < |s.resources| && s.resources[r].holder.Some? ::
      HolderWakes(s.fibers, s.resources[r].holder.value, r)
  }

  ghost predicate HolderWakes(fibers: seq<Fiber>, g: nat, r: nat) {
    g < |fibers| && fibers[g].status.Waking? && fibers[g].status.source == Some(r)
  }

  /** The steps a fiber takes while it is executed. */
  predicate ByFiber(step: Step) {
    step.Looks? || step.Parks? || step.Changes? || step.Places? || step.Lists? || step.Rings? || step.Releases? ||
      step.Stops?
  }

  lemma FiberKeepsHolders(s: State, step: Step)
    requires HoldersWake(s) && Can(s, step) && ByFiber(step)
    ensures HoldersWake(Do(s, step))
  {
    var t := Do(s, step);
    forall r | 0 <= r < |t.resources| && t.resources[r].holder.Some?
      ensures HolderWakes(t.fibers, t.resources[r].holder.value, r) {
      if !step.Changes? || step.resource != r {
        assert HolderWakes(s.fibers, s.resources[r].holder.value, r);
      }
    }
  }

  /** The loop changes only fibers that are not waking others. */
  lemma LoopKeepsWaking(s: State, step: Step, g: nat)
    requires Shape(s) && Can(s, step) && !ByFiber(step) && g < |s.fibers| && s.fibers[g].status.Waking?
    ensures Do(s, step).resources == s.resources && g < |Do(s, step).fibers| && Do(s, step).fibers[g] == s.fibers[g]
  {
    if step.Picks? {
      assert WorkerFits(s.fibers, s.fibers[step.fiber].worker, s.workers[s.fibers[step.fiber].worker]);
    } else if step.Notices? {
      assert WorkerFits(s.fibers, step.worker, s.workers[step.worker]);
    }
  }

  lemma StepKeepsHolders(s: State, step: Step)
    requires Invariant(s) && HoldersWake(s) && Can(s, step)
    ensures HoldersWake(Do(s, step))
  {
    if ByFiber(step) {
      FiberKeepsHolders(s, step);
    } else {
      var t := Do(s, step);
      assert t.resources == s.resources;
      forall r | 0 <= r < |s.resources| && s.resources[r].holder.Some?
        ensures HolderWakes(t.fibers, s.resources[r].holder.value, r) {
        assert HolderWakes(s.fibers, s.resources[r].holder.value, r);
        LoopKeepsWaking(s, step, s.resources[r].holder.value);
      }
    }
  }

  lemma {:induction false} RunKeepsHolders(states: seq<State>, steps: seq<Step>, k: nat)
    requires Run(states, steps) && k < |states|
    ensures HoldersWake(states[k])
    decreases k
  {
    if k == 0 {
      forall r | 0 <= r < |states[0].resources| ensures states[0].resources[r].holder.None? {
        assert states[0].resources[r] in states[0].resources;
      }
    } else {
      RunKeeps(states, steps, k - 1);
      RunKeepsHolders(states, steps, k - 1);
      StepKeepsHolders(states[k - 1], steps[k - 1]);
    }
  }

  /** No lock is held for good: whoever holds it can take its next step towards releasing it. */
  lemma HeldLockMoves(states: seq<State>, steps: seq<Step>, k: nat, r: nat)
    requires Run(states, steps) && k < |states|
    requires r < |states[k].resources| && states[k].resources[r].holder.Some?
    ensures var g := states[k].resources[r].holder.value;
      CanList(states[k], g) || CanRing(states[k], g) || CanRelease(states[k], g)
  {
    RunKeeps(states, steps, k);
    RunKeepsHolders(states, steps, k);
    var s := states[k];
    var g := s.resources[r].holder.value;
    assert HolderWakes(s.fibers, g, r) && FiberFits(s.workers, g, s.fibers[g]);
    if s.fibers[g].status.tickets != [] {
      assert s.fibers[g].status.tickets[0] in s.fibers[g].status.tickets;
    }
  }

  // ----- what the changes of a run amount to

  /** How many steps changed a resource. */
  function ChangesOn(steps: seq<Step>, r: nat): nat {
    if steps == [] then 0
    else ChangesOn(steps[..|steps| - 1], r) + (if ChangesIt(steps[|steps| - 1], r) then 1 else 0)
  }

  predicate ChangesIt(step: Step, r: nat) { step.Changes? && step.resource == r }

  /** A cell is settled by the one step that changes it; a gate serves the next ticket with each. */
  predicate AfterChanges(initial: Condition, count: nat, now: Condition) {
    match initial
    case Cell(_) => now.Cell? && count <= 1 && (now.settled <==> count == 1)
    case Gate(serving) => now.Gate? && now.serving == serving + count
  }

  /** No other step touches a condition. */
  lemma OnlyChangesChange(s: State, step: Step, r: nat)
    requires Can(s, step) && r < |s.resources|
    ensures |Do(s, step).resources| == |s.resources|
    ensures Do(s, step).resources[r].condition ==
      if ChangesIt(step, r) then Changed(s.resources[r].condition) else s.resources[r].condition
  {
  }

  lemma {:induction false} ConditionsFollowChanges(states: seq<State>, steps: seq<Step>, k: nat, r: nat)
    requires Run(states, steps) && k < |states| && r < |states[0].resources|
    ensures |states[k].resources| == |states[0].resources|
    ensures AfterChanges(states[0].resources[r].condition, ChangesOn(steps[..k], r), states[k].resources[r].condition)
    decreases k
  {
    if k == 0 {
      assert states[0].resources[r] in states[0].resources;
    } else {
      ConditionsFollowChanges(states, steps, k - 1, r);
      OnlyChangesChange(states[k - 1], steps[k - 1], r);
      assert steps[..k][..k - 1] == steps[..k - 1];
    }
  }

  /** A waiting fiber, by the steps of the run alone: no step has settled its cell, and fewer
      tickets have been released than come before its own. */
  ghost predicate StillToCome(states: seq<State>, steps: seq<Step>, k: nat, status: Status)
    requires Run(states, steps) && k < |states| && Waits(status)
  {
    && status.resource < |states[0].resources|
    && match states[0].resources[status.resource].condition
       case Cell(_) => ChangesOn(steps[..k], status.resource) == 0
       case Gate(serving) => serving + ChangesOn(steps[..k], status.resource) < status.want
  }

  lemma PendingIsStillToCome(states: seq<State>, steps: seq<Step>, k: nat, status: Status)
    requires Run(states, steps) && k < |states| && Waits(status) && Blocked(states[k], status)
    ensures StillToCome(states, steps, k, status)
  {
    SameResources(states, steps, k);
    ConditionsFollowChanges(states, steps, k, status.resource);
  }

  lemma {:induction false} SameResources(states: seq<State>, steps: seq<Step>, k: nat)
    requires Run(states, steps) && k < |states|
    ensures |states[k].resources| == |states[0].resources|
    decreases k
  {
    if k > 0 {
      SameResources(states, steps, k - 1);
      assert |Do(states[k - 1], steps[k - 1]).resources| == |states[k - 1].resources|;
    }
  }

  // ----- the main result

  /** Every worker is asleep in poll with no wake pending. */
  predicate AllAsleep(s: State) {
    forall w <- s.workers :: w.phase.Polling? && !w.wake
  }

  predicate Blocked(s: State, status: Status)
    requires Waits(status)
  {
    status.resource < |s.resources| && Pending(s.resources[status.resource].condition, status.want)
  }

  /** The main result, in every state of every run: a fiber waiting on a resource is rightly
      blocked with its token there, or its token is on its way to its worker; a ready fiber is in
      its worker's ready set; and a worker with a token on its list or a job in its inbox is
      awake, about to be woken, or has its flag set. So where every worker is asleep, every job
      ever placed is a fiber, none of them is ready or running, and each waiting one waits for a
      cell no step has changed or a ticket the steps have not reached. */
  lemma NoLostWakeup(states: seq<State>, steps: seq<Step>, k: nat)
    requires Run(states, steps) && k < |states|
    ensures Shape(states[k]) && AllAccounted(states[k]) && AllBelled(states[k])
    ensures AllAsleep(states[k]) ==>
      && |states[k].fibers| == Jobs(states[0]) + Placed(steps[..k])
      && forall f | 0 <= f < |states[k].fibers| ::
           var status := states[k].fibers[f].status;
           status.Paused? || status.Finished? || (status.Parked? && StillToCome(states, steps, k, status))
  {
    RunKeeps(states, steps, k);
    JobsConserved(states, steps, k);
    if AllAsleep(states[k]) {
      QuietMeansBlocked(states[k]);
      NoInboxes(states[k].workers);
      forall f | 0 <= f < |states[k].fibers| && states[k].fibers[f].status.Parked?
        ensures StillToCome(states, steps, k, states[k].fibers[f].status)
      {
        PendingIsStillToCome(states, steps, k, states[k].fibers[f].status);
      }
    }
  }

  lemma {:induction false} NoInboxes(workers: seq<Worker>)
    requires forall w <- workers :: w.inbox == 0
    ensures Inboxes(workers) == 0
    decreases |workers|
  {
    if workers != [] {
      NoInboxes(workers[..|workers| - 1]);
    }
  }
}
