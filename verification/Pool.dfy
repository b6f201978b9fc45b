/**
 * The blocking-call pool (quilon-rt/src/blocking.rs): base threads that wait on a condition
 * variable, overflow threads that leave when the queue is empty, and callers that count, queue
 * and announce a job in separate lock regions.
 *
 * One move is one lock region, one `notify_one`, or one thread-creation attempt. A job is the
 * index of its submission. The pool has started: its base threads exist and are counted.
 */
module Pool {

  const CEILING: nat := 16
  const BASE_MINIMUM: nat := 4

  /** The CPU count clamped to the pool's bounds. */
  function BaseSize(cpus: nat): (n: nat)
    ensures BASE_MINIMUM <= n <= CEILING
    ensures BASE_MINIMUM <= cpus <= CEILING ==> n == cpus
  {
    if cpus < BASE_MINIMUM then BASE_MINIMUM else if cpus > CEILING then CEILING else cpus
  }

  datatype Activity =
    | Popping               // about to look at the queue
    | Waiting               // parked on the condition variable; base threads only
    | Running(job: nat)
    | Ran                   // job done, not yet counted finished
    | Leaving               // an overflow thread that found the queue empty
    | Gone

  datatype Worker = Worker(isBase: bool, activity: Activity)

  datatype Stage =
    | Counted               // in flight, not queued yet
    | Queued                // queued, `notify_one` still to come
    | Notified
    | Refused               // the overflow thread could not be created
    | Submitted

  /** One call of `submit`, and whether it decided to grow the pool. */
  datatype Submission = Submission(stage: Stage, grows: bool)

  datatype Pool = Pool(workers: seq<Worker>, submissions: seq<Submission>, queue: seq<nat>,
                       total: nat, inFlight: nat, started: seq<nat>, finished: seq<nat>)

  datatype Move =
    | Count
    | Push(s: nat)
    | NotifyOne(s: nat, w: nat)   // `w` is a waiting worker
    | NotifyNone(s: nat)          // nobody waits
    | Spawn(s: nat)
    | Refuse(s: nat)
    | Undo(s: nat)
    | Pop(w: nat)
    | Wake(w: nat)                // a spurious wake-up
    | Finish(w: nat)
    | Uncount(w: nat)
    | Leave(w: nat)

  predicate IsWaiting(w: Worker) { w.activity.Waiting? }
  predicate IsPoppingBase(w: Worker) { w.isBase && w.activity.Popping? }
  predicate IsBusy(w: Worker) { w.activity.Running? || w.activity.Ran? }
  predicate IsLiveOverflow(w: Worker) { !w.isBase && !w.activity.Gone? }
  predicate IsBase(w: Worker) { w.isBase }
  predicate IsCounted(s: Submission) { s.stage.Counted? }
  predicate IsQueued(s: Submission) { s.stage.Queued? }
  predicate IsGrowing(s: Submission) { s.grows && !s.stage.Submitted? }

  function Tally<T>(s: seq<T>, p: T -> bool): nat {
    if s == [] then 0 else Tally(s[..|s| - 1], p) + (if p(s[|s| - 1]) then 1 else 0)
  }

  predicate At(p: Pool, s: nat, stage: Stage) { s < |p.submissions| && p.submissions[s].stage == stage }

  predicate Enabled(p: Pool, m: Move) {
    match m
    case Count => true
    case Push(s) => At(p, s, Counted)
    case NotifyOne(s, w) => At(p, s, Queued) && w < |p.workers| && IsWaiting(p.workers[w])
    case NotifyNone(s) => At(p, s, Queued) && Tally(p.workers, IsWaiting) == 0
    case Spawn(s) => At(p, s, Notified) && p.submissions[s].grows
    case Refuse(s) => At(p, s, Notified) && p.submissions[s].grows
    case Undo(s) => At(p, s, Refused)
    case Pop(w) => w < |p.workers| && p.workers[w].activity.Popping?
    case Wake(w) => w < |p.workers| && p.workers[w].activity.Waiting?
    case Finish(w) => w < |p.workers| && p.workers[w].activity.Running?
    case Uncount(w) => w < |p.workers| && p.workers[w].activity.Ran?
    case Leave(w) => w < |p.workers| && p.workers[w].activity.Leaving?
  }

  function Less(n: nat): nat { if n == 0 then 0 else n - 1 }

  function Stepped(p: Pool, s: nat, stage: Stage): Pool
    requires s < |p.submissions|
  {
    p.(submissions := p.submissions[s := Submission(stage, p.submissions[s].grows)])
  }

  function Turned(p: Pool, w: nat, activity: Activity): Pool
    requires w < |p.workers|
  {
    p.(workers := p.workers[w := Worker(p.workers[w].isBase, activity)])
  }

  function AfterNotify(p: Pool, s: nat): Stage
    requires s < |p.submissions|
  {
    if p.submissions[s].grows then Notified else Submitted
  }

  /** The counters are unsigned; a decrement at 0 would wrap, and never happens. */
  function After(p: Pool, m: Move): Pool
    requires Enabled(p, m)
  {
    match m
    case Count =>
      var grows := p.inFlight + 1 > p.total && p.total < CEILING;
      p.(submissions := p.submissions + [Submission(Counted, grows)], inFlight := p.inFlight + 1,
         total := if grows then p.total + 1 else p.total)
    case Push(s) => Stepped(p, s, Queued).(queue := p.queue + [s])
    case NotifyOne(s, w) => Turned(Stepped(p, s, AfterNotify(p, s)), w, Popping)
    case NotifyNone(s) => Stepped(p, s, AfterNotify(p, s))
    case Spawn(s) => Stepped(p, s, Submitted).(workers := p.workers + [Worker(false, Popping)])
    case Refuse(s) => Stepped(p, s, Refused)
    case Undo(s) => Stepped(p, s, Submitted).(total := Less(p.total))
    case Pop(w) =>
      if p.queue == [] then Turned(p, w, if p.workers[w].isBase then Waiting else Leaving)
      else Turned(p, w, Running(p.queue[0])).(queue := p.queue[1..], started := p.started + [p.queue[0]])
    case Wake(w) => Turned(p, w, Popping)
    case Finish(w) => Turned(p, w, Ran).(finished := p.finished + [p.workers[w].activity.job])
    case Uncount(w) => Turned(p, w, Popping).(inFlight := Less(p.inFlight))
    case Leave(w) => Turned(p, w, Gone).(total := Less(p.total))
  }

  /** A started pool: `base` threads, each about to look at an empty queue. */
  function Started(base: nat): Pool {
    Pool(seq(base, i => Worker(true, Popping)), [], [], base, 0, [], [])
  }

  // ---------------------------------------------------------------- invariants

  /** The thread count is the threads there are and those being created. */
  ghost predicate ThreadsCounted(p: Pool, base: nat) {
    && Tally(p.workers, IsBase) == base
    && p.total == base + Tally(p.workers, IsLiveOverflow) + Tally(p.submissions, IsGrowing)
    && p.total <= CEILING
  }

  /** The jobs in flight are those not yet queued, those queued and those being run. */
  ghost predicate JobsCounted(p: Pool) {
    p.inFlight == Tally(p.submissions, IsCounted) + |p.queue| + Tally(p.workers, IsBusy)
  }

  /** While a base thread waits, every queued job has a notify coming or a thread popping. */
  ghost predicate Conserving(p: Pool) {
    Tally(p.workers, IsWaiting) > 0 ==>
      |p.queue| <= Tally(p.submissions, IsQueued) + Tally(p.workers, IsPoppingBase)
  }

  /** Every job is unqueued, queued or started: one of the three, and once. */
  ghost predicate OnceEach(submissions: seq<Submission>, queue: seq<nat>, started: seq<nat>) {
    && (forall j: nat :: j < |submissions| ==>
          (if submissions[j].stage.Counted? then 1 else 0) + multiset(queue)[j] + multiset(started)[j] == 1)
    && (forall j: nat :: j >= |submissions| ==> multiset(queue)[j] + multiset(started)[j] == 0)
  }

  /** How many threads run a job now. */
  function RunsOf(ws: seq<Worker>, job: nat): nat {
    if ws == [] then 0
    else RunsOf(ws[..|ws| - 1], job) + (if ws[|ws| - 1].activity == Running(job) then 1 else 0)
  }

  /** What was taken from the queue is what threads run now and what they have finished. */
  ghost predicate RunsWhatStarted(p: Pool) {
    forall job: nat :: multiset(p.started)[job] == multiset(p.finished)[job] + RunsOf(p.workers, job)
  }

  ghost predicate WorkersShaped(workers: seq<Worker>) {
    forall w :: 0 <= w < |workers| ==>
      && (IsWaiting(workers[w]) ==> workers[w].isBase)
      && (workers[w].activity.Leaving? || workers[w].activity.Gone? ==> !workers[w].isBase)
  }

  ghost predicate SubmissionsShaped(submissions: seq<Submission>) {
    forall s :: 0 <= s < |submissions| ==>
      (submissions[s].stage.Notified? || submissions[s].stage.Refused? ==> submissions[s].grows)
  }

  ghost predicate Inv(p: Pool, base: nat) {
    && WorkersShaped(p.workers) && SubmissionsShaped(p.submissions)
    && ThreadsCounted(p, base) && JobsCounted(p) && Conserving(p)
    && OnceEach(p.submissions, p.queue, p.started)
  }

  lemma {:induction false} TallyUpdate<T>(s: seq<T>, i: nat, x: T, p: T -> bool)
    requires i < |s|
    ensures Tally(s[i := x], p) + (if p(s[i]) then 1 else 0) == Tally(s, p) + (if p(x) then 1 else 0)
    decreases |s|
  {
    var last := |s| - 1;
    if i < last {
      TallyUpdate(s[..last], i, x, p);
      assert s[i := x][..last] == s[..last][i := x];
    } else {
      assert s[i := x][..last] == s[..last];
    }
  }

  lemma TallyAppend<T>(s: seq<T>, x: T, p: T -> bool)
    ensures Tally(s + [x], p) == Tally(s, p) + (if p(x) then 1 else 0)
  {
    assert (s + [x])[..|s|] == s;
  }

  lemma {:induction false} TallyPositive<T>(s: seq<T>, i: nat, p: T -> bool)
    requires i < |s| && p(s[i])
    ensures Tally(s, p) > 0
    decreases |s|
  {
    if i < |s| - 1 {
      TallyPositive(s[..|s| - 1], i, p);
    }
  }

  lemma {:induction false} TallyWitness<T>(s: seq<T>, p: T -> bool) returns (i: nat)
    requires Tally(s, p) > 0
    ensures i < |s| && p(s[i])
    decreases |s|
  {
    i := |s| - 1;
    if !p(s[i]) {
      i := TallyWitness(s[..i], p);
    }
  }

  lemma {:induction false} RunsUpdated(ws: seq<Worker>, w: nat, to: Worker, job: nat)
    requires w < |ws|
    ensures RunsOf(ws[w := to], job) + (if ws[w].activity == Running(job) then 1 else 0)
         == RunsOf(ws, job) + (if to.activity == Running(job) then 1 else 0)
    decreases |ws|
  {
    var last := |ws| - 1;
    if w < last {
      RunsUpdated(ws[..last], w, to, job);
      assert ws[w := to][..last] == ws[..last][w := to];
    } else {
      assert ws[w := to][..last] == ws[..last];
    }
  }

  lemma StepRunsWhatStarted(p: Pool, m: Move)
    requires RunsWhatStarted(p) && Enabled(p, m)
    ensures RunsWhatStarted(After(p, m))
  {
    var q := After(p, m);
    if m.Pop? || m.Finish? {
      JobMovesOn(p, m);
    } else if m.Spawn? {
      assert q.workers[..|p.workers|] == p.workers;
    } else if m.Wake? || m.Uncount? || m.Leave? || m.NotifyOne? {
      forall job: nat ensures RunsOf(q.workers, job) == RunsOf(p.workers, job) {
        RunsUpdated(p.workers, m.w, q.workers[m.w], job);
      }
    }
  }

  lemma JobMovesOn(p: Pool, m: Move)
    requires RunsWhatStarted(p) && Enabled(p, m) && (m.Pop? || m.Finish?)
    ensures RunsWhatStarted(After(p, m))
  {
    var q := After(p, m);
    forall job: nat ensures multiset(q.started)[job] == multiset(q.finished)[job] + RunsOf(q.workers, job) {
      RunsUpdated(p.workers, m.w, q.workers[m.w], job);
    }
  }

  /** Every count a worker's change of activity can move. */
  lemma TurnTallies(ws: seq<Worker>, w: nat, to: Worker)
    requires w < |ws| && to.isBase == ws[w].isBase
    ensures Tally(ws[w := to], IsBase) == Tally(ws, IsBase)
    ensures Tally(ws[w := to], IsLiveOverflow) + (if IsLiveOverflow(ws[w]) then 1 else 0)
            == Tally(ws, IsLiveOverflow) + (if IsLiveOverflow(to) then 1 else 0)
    ensures Tally(ws[w := to], IsBusy) + (if IsBusy(ws[w]) then 1 else 0)
            == Tally(ws, IsBusy) + (if IsBusy(to) then 1 else 0)
    ensures Tally(ws[w := to], IsWaiting) + (if IsWaiting(ws[w]) then 1 else 0)
            == Tally(ws, IsWaiting) + (if IsWaiting(to) then 1 else 0)
    ensures Tally(ws[w := to], IsPoppingBase) + (if IsPoppingBase(ws[w]) then 1 else 0)
            == Tally(ws, IsPoppingBase) + (if IsPoppingBase(to) then 1 else 0)
  {
    TallyUpdate(ws, w, to, IsBase);
    TallyUpdate(ws, w, to, IsLiveOverflow);
    TallyUpdate(ws, w, to, IsBusy);
    TallyUpdate(ws, w, to, IsWaiting);
    TallyUpdate(ws, w, to, IsPoppingBase);
  }

  /** Every count a submission's change of stage can move. */
  lemma StepTallies(ss: seq<Submission>, s: nat, to: Submission)
    requires s < |ss|
    ensures Tally(ss[s := to], IsCounted) + (if IsCounted(ss[s]) then 1 else 0)
            == Tally(ss, IsCounted) + (if IsCounted(to) then 1 else 0)
    ensures Tally(ss[s := to], IsQueued) + (if IsQueued(ss[s]) then 1 else 0)
            == Tally(ss, IsQueued) + (if IsQueued(to) then 1 else 0)
    ensures Tally(ss[s := to], IsGrowing) + (if IsGrowing(ss[s]) then 1 else 0)
            == Tally(ss, IsGrowing) + (if IsGrowing(to) then 1 else 0)
  {
    TallyUpdate(ss, s, to, IsCounted);
    TallyUpdate(ss, s, to, IsQueued);
    TallyUpdate(ss, s, to, IsGrowing);
  }

  lemma CountKeeps(p: Pool, base: nat)
    requires Inv(p, base)
    ensures Inv(After(p, Count), base)
  {
    var q := After(p, Count);
    var s := q.submissions[|p.submissions|];
    TallyAppend(p.submissions, s, IsCounted);
    TallyAppend(p.submissions, s, IsQueued);
    TallyAppend(p.submissions, s, IsGrowing);
  }

  lemma PushKeeps(p: Pool, base: nat, s: nat)
    requires Inv(p, base) && Enabled(p, Push(s))
    ensures Inv(After(p, Push(s)), base)
  {
    StepTallies(p.submissions, s, Submission(Queued, p.submissions[s].grows));
  }

  lemma NotifyKeeps(p: Pool, base: nat, m: Move)
    requires Inv(p, base) && Enabled(p, m) && (m.NotifyOne? || m.NotifyNone?)
    ensures Inv(After(p, m), base)
  {
    StepTallies(p.submissions, m.s, Submission(AfterNotify(p, m.s), p.submissions[m.s].grows));
    if m.NotifyOne? {
      TurnTallies(p.workers, m.w, Worker(p.workers[m.w].isBase, Popping));
    }
  }

  lemma RefusalKeeps(p: Pool, base: nat, m: Move)
    requires Inv(p, base) && Enabled(p, m) && (m.Refuse? || m.Undo?)
    ensures Inv(After(p, m), base)
  {
    var stage := if m.Refuse? then Refused else Submitted;
    StepTallies(p.submissions, m.s, Submission(stage, p.submissions[m.s].grows));
  }

  lemma SpawnKeeps(p: Pool, base: nat, s: nat)
    requires Inv(p, base) && Enabled(p, Spawn(s))
    ensures Inv(After(p, Spawn(s)), base)
  {
    StepTallies(p.submissions, s, Submission(Submitted, p.submissions[s].grows));
    var w := Worker(false, Popping);
    TallyAppend(p.workers, w, IsBase);
    TallyAppend(p.workers, w, IsLiveOverflow);
    TallyAppend(p.workers, w, IsBusy);
    TallyAppend(p.workers, w, IsWaiting);
    TallyAppend(p.workers, w, IsPoppingBase);
  }

  lemma PopKeeps(p: Pool, base: nat, w: nat)
    requires Inv(p, base) && Enabled(p, Pop(w))
    ensures Inv(After(p, Pop(w)), base)
  {
    TurnTallies(p.workers, w, After(p, Pop(w)).workers[w]);
    if p.queue != [] {
      assert p.queue == [p.queue[0]] + p.queue[1..];
    }
  }

  lemma WorkKeeps(p: Pool, base: nat, m: Move)
    requires Inv(p, base) && Enabled(p, m) && (m.Wake? || m.Finish?)
    ensures Inv(After(p, m), base)
  {
    TurnTallies(p.workers, m.w, After(p, m).workers[m.w]);
  }

  lemma UncountKeeps(p: Pool, base: nat, w: nat)
    requires Inv(p, base) && Enabled(p, Uncount(w))
    ensures Inv(After(p, Uncount(w)), base)
  {
    TurnTallies(p.workers, w, After(p, Uncount(w)).workers[w]);
  }

  lemma LeaveKeeps(p: Pool, base: nat, w: nat)
    requires Inv(p, base) && Enabled(p, Leave(w))
    ensures Inv(After(p, Leave(w)), base)
  {
    TurnTallies(p.workers, w, After(p, Leave(w)).workers[w]);
  }

  lemma StepKeeps(p: Pool, base: nat, m: Move)
    requires Inv(p, base) && Enabled(p, m)
    ensures Inv(After(p, m), base)
  {
    match m
    case Count => CountKeeps(p, base);
    case Push(s) => PushKeeps(p, base, s);
    case NotifyOne(_, _) => NotifyKeeps(p, base, m);
    case NotifyNone(_) => NotifyKeeps(p, base, m);
    case Spawn(s) => SpawnKeeps(p, base, s);
    case Refuse(_) => RefusalKeeps(p, base, m);
    case Undo(_) => RefusalKeeps(p, base, m);
    case Pop(w) => PopKeeps(p, base, w);
    case Wake(_) => WorkKeeps(p, base, m);
    case Finish(_) => WorkKeeps(p, base, m);
    case Uncount(w) => UncountKeeps(p, base, w);
    case Leave(w) => LeaveKeeps(p, base, w);
  }

  predicate Runs(p: Pool, moves: seq<Move>)
    decreases |moves|
  {
    moves == [] || (Enabled(p, moves[0]) && Runs(After(p, moves[0]), moves[1..]))
  }

  function AfterAll(p: Pool, moves: seq<Move>): Pool
    requires Runs(p, moves)
    decreases |moves|
  {
    if moves == [] then p else AfterAll(After(p, moves[0]), moves[1..])
  }

  lemma {:induction false} RunKeeps(p: Pool, base: nat, moves: seq<Move>)
    requires Inv(p, base) && RunsWhatStarted(p) && Runs(p, moves)
    ensures Inv(AfterAll(p, moves), base) && RunsWhatStarted(AfterAll(p, moves))
    decreases |moves|
  {
    if moves != [] {
      StepKeeps(p, base, moves[0]);
      StepRunsWhatStarted(p, moves[0]);
      RunKeeps(After(p, moves[0]), base, moves[1..]);
    }
  }

  lemma {:induction false} FreshTallies(base: nat)
    ensures Tally(Started(base).workers, IsBase) == base
    ensures Tally(Started(base).workers, IsLiveOverflow) == 0
    ensures Tally(Started(base).workers, IsBusy) == 0
    ensures Tally(Started(base).workers, IsWaiting) == 0
    ensures forall job: nat :: RunsOf(Started(base).workers, job) == 0
  {
    if base > 0 {
      FreshTallies(base - 1);
      assert Started(base).workers[..base - 1] == Started(base - 1).workers;
    }
  }

  lemma StartedInv(cpus: nat)
    ensures Inv(Started(BaseSize(cpus)), BaseSize(cpus)) && RunsWhatStarted(Started(BaseSize(cpus)))
  {
    FreshTallies(BaseSize(cpus));
  }

  // ---------------------------------------------------------------- what every run keeps

  /**
   * Over every interleaving: the thread count stays between the base and the ceiling, the
   * in-flight count is exact, a job is started at most once, and the jobs threads run now
   * together with those they have finished are the jobs started.
   */
  lemma AccountsAreExact(cpus: nat, moves: seq<Move>, job: nat)
    requires Runs(Started(BaseSize(cpus)), moves)
    ensures var p := AfterAll(Started(BaseSize(cpus)), moves);
            && BaseSize(cpus) <= p.total <= CEILING
            && p.inFlight == Tally(p.submissions, IsCounted) + |p.queue| + Tally(p.workers, IsBusy)
            && multiset(p.started)[job] <= 1
            && (multiset(p.started)[job] == 1 <==>
                job < |p.submissions| && !p.submissions[job].stage.Counted? && job !in p.queue)
            && multiset(p.started)[job] == multiset(p.finished)[job] + RunsOf(p.workers, job)
  {
    StartedInv(cpus);
    RunKeeps(Started(BaseSize(cpus)), BaseSize(cpus), moves);
  }

  /** A queued job with no notify on its way always has a base thread awake. */
  lemma NoStrandedJob(cpus: nat, moves: seq<Move>)
    returns (w: nat)
    requires Runs(Started(BaseSize(cpus)), moves)
    requires var p := AfterAll(Started(BaseSize(cpus)), moves);
             p.queue != [] && forall s :: 0 <= s < |p.submissions| ==> !p.submissions[s].stage.Queued?
    ensures var p := AfterAll(Started(BaseSize(cpus)), moves);
            w < |p.workers| && p.workers[w].isBase && !p.workers[w].activity.Waiting?
  {
    var base := BaseSize(cpus);
    StartedInv(cpus);
    RunKeeps(Started(base), base, moves);
    var p := AfterAll(Started(base), moves);
    if Tally(p.workers, IsWaiting) == 0 {
      w := TallyWitness(p.workers, IsBase);
      if p.workers[w].activity.Waiting? {
        TallyPositive(p.workers, w, IsWaiting);
      }
    } else {
      if Tally(p.submissions, IsQueued) > 0 {
        var s := TallyWitness(p.submissions, IsQueued);
      }
      w := TallyWitness(p.workers, IsPoppingBase);
    }
  }

  lemma {:induction false} TallyNone<T>(s: seq<T>, p: T -> bool)
    requires forall i :: 0 <= i < |s| ==> !p(s[i])
    ensures Tally(s, p) == 0
    decreases |s|
  {
    if s != [] {
      TallyNone(s[..|s| - 1], p);
    }
  }

  /** Every call has returned, every base thread waits, every overflow thread has gone. */
  predicate Quiet(p: Pool) {
    && (forall s :: 0 <= s < |p.submissions| ==> p.submissions[s].stage.Submitted?)
    && (forall w :: 0 <= w < |p.workers| ==> Resting(p.workers[w]))
  }

  predicate Resting(w: Worker) { if w.isBase then w.activity.Waiting? else w.activity.Gone? }

  /** When nothing is left to do but wait, every job has finished once and the pool is at its base. */
  lemma QuietPoolIsDrained(cpus: nat, moves: seq<Move>)
    requires Runs(Started(BaseSize(cpus)), moves)
    requires Quiet(AfterAll(Started(BaseSize(cpus)), moves))
    ensures var p := AfterAll(Started(BaseSize(cpus)), moves);
            && p.queue == [] && p.inFlight == 0 && p.total == BaseSize(cpus)
            && forall job: nat :: job < |p.submissions| ==> multiset(p.finished)[job] == 1
  {
    var base := BaseSize(cpus);
    StartedInv(cpus);
    RunKeeps(Started(base), base, moves);
    var p := AfterAll(Started(base), moves);
    QuietIsDrained(p, base);
  }

  lemma QuietIsDrained(p: Pool, base: nat)
    requires Inv(p, base) && RunsWhatStarted(p) && base > 0 && Quiet(p)
    ensures p.queue == [] && p.inFlight == 0 && p.total == base
    ensures forall job: nat :: job < |p.submissions| ==> multiset(p.finished)[job] == 1
  {
    QuietTallies(p);
    NobodyRuns(p.workers);
    var w := TallyWitness(p.workers, IsBase);
    assert Resting(p.workers[w]);
    TallyPositive(p.workers, w, IsWaiting);
  }

  lemma {:induction false} NobodyRuns(ws: seq<Worker>)
    requires forall w :: 0 <= w < |ws| ==> Resting(ws[w])
    ensures forall job: nat :: RunsOf(ws, job) == 0
    decreases |ws|
  {
    if ws != [] {
      assert Resting(ws[|ws| - 1]);
      NobodyRuns(ws[..|ws| - 1]);
    }
  }

  lemma QuietTallies(p: Pool)
    requires Quiet(p)
    ensures Tally(p.submissions, IsCounted) == Tally(p.submissions, IsQueued) == 0
    ensures Tally(p.submissions, IsGrowing) == 0
    ensures Tally(p.workers, IsBusy) == Tally(p.workers, IsLiveOverflow) == 0
    ensures Tally(p.workers, IsPoppingBase) == 0
  {
    assert forall s :: 0 <= s < |p.submissions| ==> !IsGrowing(p.submissions[s]);
    assert forall w :: 0 <= w < |p.workers| ==> !IsPoppingBase(p.workers[w]);
    TallyNone(p.submissions, IsCounted);
    TallyNone(p.submissions, IsQueued);
    TallyNone(p.submissions, IsGrowing);
    TallyNone(p.workers, IsBusy);
    TallyNone(p.workers, IsLiveOverflow);
    TallyNone(p.workers, IsPoppingBase);
  }

  /** No counter is ever taken below what it counts, so the subtractions never wrap. */
  lemma CountersNeverWrap(cpus: nat, moves: seq<Move>, m: Move)
    requires Runs(Started(BaseSize(cpus)), moves)
    requires Enabled(AfterAll(Started(BaseSize(cpus)), moves), m)
    ensures var p := AfterAll(Started(BaseSize(cpus)), moves);
            && (m.Uncount? ==> p.inFlight > 0)
            && (m.Undo? || m.Leave? ==> p.total > BaseSize(cpus))
  {
    var base := BaseSize(cpus);
    StartedInv(cpus);
    RunKeeps(Started(base), base, moves);
    var p := AfterAll(Started(base), moves);
    if m.Uncount? {
      TallyPositive(p.workers, m.w, IsBusy);
    } else if m.Undo? {
      TallyPositive(p.submissions, m.s, IsGrowing);
    } else if m.Leave? {
      TallyPositive(p.workers, m.w, IsLiveOverflow);
    }
  }

  // ---------------------------------------------------------------- the order of the jobs

  /** Jobs are started in the order in which they were queued: each move keeps what was started
      and what is queued in place, and adds at the end. */
  lemma StepKeepsOrder(p: Pool, m: Move)
    requires Enabled(p, m)
    ensures p.started <= After(p, m).started
    ensures var q := After(p, m);
            q.started + q.queue == p.started + p.queue + if m.Push? then [m.s] else []
  {
    if m.Pop? && p.queue != [] {
      assert p.queue == [p.queue[0]] + p.queue[1..];
    }
  }

  // ---------------------------------------------------------------- when the pool grows

  /** A thread for every job in flight, as far as the ceiling allows. */
  predicate Covered(p: Pool) { p.inFlight <= p.total || p.total >= CEILING }

  /**
   * Submitting adds a thread exactly when the jobs in flight have used them all up and the
   * ceiling is not reached. Every move keeps the cover, except that a thread that leaves, or one
   * that could not be created, breaks it exactly when no thread was to spare.
   */
  lemma CoverKeptExactly(p: Pool, base: nat, m: Move)
    requires Inv(p, base) && Covered(p) && Enabled(p, m)
    ensures m.Count? ==>
              After(p, m).total == p.total + if p.inFlight == p.total && p.total < CEILING then 1 else 0
    ensures Covered(After(p, m)) <==> (m.Leave? || m.Undo? ==> p.inFlight < p.total)
  {
    if m.Leave? {
      TallyPositive(p.workers, m.w, IsLiveOverflow);
    } else if m.Undo? {
      TallyPositive(p.submissions, m.s, IsGrowing);
    }
  }

  lemma {:induction false} RunsInParts(p: Pool, one: seq<Move>, two: seq<Move>)
    requires Runs(p, one) && Runs(AfterAll(p, one), two)
    ensures Runs(p, one + two) && AfterAll(p, one + two) == AfterAll(AfterAll(p, one), two)
    decreases |one|
  {
    if one == [] {
      assert one + two == two;
    } else {
      assert (one + two)[0] == one[0] && (one + two)[1..] == one[1..] + two;
      RunsInParts(After(p, one[0]), one[1..], two);
    }
  }

  const POPPING: Worker := Worker(true, Popping)
  const DONE: Submission := Submission(Submitted, false)
  const GREW: Submission := Submission(Submitted, true)

  const BASES: seq<Worker> := [POPPING, POPPING, POPPING, POPPING]

  /** Four base threads that have not looked at the queue yet, with two jobs queued and with four. */
  const TWO: Pool := Pool(BASES, [DONE, DONE], [0, 1], 4, 2, [], [])
  const FOUR: Pool := Pool(BASES, [DONE, DONE, DONE, DONE], [0, 1, 2, 3], 4, 4, [], [])

  lemma OneMove(p: Pool, moves: seq<Move>, m: Move) returns (more: seq<Move>)
    requires Runs(p, moves) && Enabled(AfterAll(p, moves), m)
    ensures Runs(p, more) && AfterAll(p, more) == After(AfterAll(p, moves), m)
  {
    more := moves + [m];
    var q := AfterAll(p, moves);
    assert Runs(q, [m]) && AfterAll(q, [m]) == After(q, m);
    RunsInParts(p, moves, [m]);
  }

  lemma TwoIsReached() returns (moves: seq<Move>)
    ensures Runs(Started(4), moves) && AfterAll(Started(4), moves) == TWO
  {
    assert Started(4).workers == BASES;
    TallyNone(BASES, IsWaiting);
    moves := OneMove(Started(4), [], Count);
    moves := OneMove(Started(4), moves, Push(0));
    moves := OneMove(Started(4), moves, NotifyNone(0));
    moves := OneMove(Started(4), moves, Count);
    moves := OneMove(Started(4), moves, Push(1));
    moves := OneMove(Started(4), moves, NotifyNone(1));
    assert AfterAll(Started(4), moves) == TWO;
  }

  lemma FourIsReached() returns (moves: seq<Move>)
    ensures Runs(Started(4), moves) && AfterAll(Started(4), moves) == FOUR
  {
    TallyNone(BASES, IsWaiting);
    moves := TwoIsReached();
    moves := OneMove(Started(4), moves, Count);
    moves := OneMove(Started(4), moves, Push(2));
    moves := OneMove(Started(4), moves, NotifyNone(2));
    moves := OneMove(Started(4), moves, Count);
    moves := OneMove(Started(4), moves, Push(3));
    moves := OneMove(Started(4), moves, NotifyNone(3));
    assert AfterAll(Started(4), moves) == FOUR;
  }

  /** The fifth job has grown the pool, and its thread has run the first one. */
  const GROWN: Pool :=
    Pool([POPPING, POPPING, POPPING, POPPING, Worker(false, Popping)], [DONE, DONE, DONE, DONE, GREW], [1, 2, 3, 4],
         5, 4, [0], [0])

  lemma GrownIsReached() returns (moves: seq<Move>)
    ensures Runs(Started(4), moves) && AfterAll(Started(4), moves) == GROWN
  {
    moves := FourIsReached();
    moves := OneMove(Started(4), moves, Count);
    moves := OneMove(Started(4), moves, Push(4));
    TallyNone(AfterAll(Started(4), moves).workers, IsWaiting);
    moves := OneMove(Started(4), moves, NotifyNone(4));
    moves := OneMove(Started(4), moves, Spawn(4));
    moves := OneMove(Started(4), moves, Pop(4));
    moves := OneMove(Started(4), moves, Finish(4));
    moves := OneMove(Started(4), moves, Uncount(4));
    assert AfterAll(Started(4), moves) == GROWN;
  }

  /** The base threads run the other four jobs, and the fifth thread has found the queue empty. */
  const EMPTIED: Pool :=
    Pool([Worker(true, Running(1)), Worker(true, Running(2)), Worker(true, Running(3)), Worker(true, Running(4)),
          Worker(false, Leaving)], [DONE, DONE, DONE, DONE, GREW], [], 5, 4, [0, 1, 2, 3, 4], [0])

  lemma EmptiedIsReached() returns (moves: seq<Move>)
    ensures Runs(Started(4), moves) && AfterAll(Started(4), moves) == EMPTIED
  {
    moves := GrownIsReached();
    moves := OneMove(Started(4), moves, Pop(0));
    moves := OneMove(Started(4), moves, Pop(1));
    moves := OneMove(Started(4), moves, Pop(2));
    moves := OneMove(Started(4), moves, Pop(3));
    moves := OneMove(Started(4), moves, Pop(4));
    assert AfterAll(Started(4), moves) == EMPTIED;
  }

  /**
   * The comparison at blocking.rs:236-241 is not as race-free as lines 226-229 say: a thread that
   * is leaving is still counted. A job submitted then adds no thread, and once the leaver is
   * gone five jobs are in flight on four threads, all busy, with the ceiling far off.
   */
  lemma LeavingThreadIsCounted() returns (moves: seq<Move>)
    ensures Runs(Started(BaseSize(4)), moves)
    ensures var p := AfterAll(Started(BaseSize(4)), moves);
            && p.inFlight == 5 && p.total == 4 && !Covered(p)
            && p.queue == [5]
            && forall w :: 0 <= w < |p.workers| ==> IsBusy(p.workers[w]) || p.workers[w].activity.Gone?
  {
    moves := EmptiedIsReached();
    moves := OneMove(Started(4), moves, Count);
    moves := OneMove(Started(4), moves, Push(5));
    TallyNone(AfterAll(Started(4), moves).workers, IsWaiting);
    moves := OneMove(Started(4), moves, NotifyNone(5));
    moves := OneMove(Started(4), moves, Leave(4));
  }
}
