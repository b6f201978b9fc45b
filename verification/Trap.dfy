/**
 * The signal trap (quilon-rt/src/trap.rs): a handler that may interrupt at any point, a
 * dispatcher fiber that drains the self-pipe and starts arms, and arms that, on returning,
 * start the next run themselves.
 *
 * One move is one atomic access, one pipe operation or one spawn. The dispatcher and the arms
 * are fibers of one worker and park nowhere inside these sections, so `control` says which of
 * them, if any, is in the middle of one; handlers interleave with everything.
 */
module Trap {

  /**
   * A signal's slot and its history: its live run fibers, the runs started, the arrivals stored,
   * and how many of the arrivals the latest claim and the latest run came after.
   */
  datatype Slot = Slot(running: bool, pending: bool, active: nat, runs: nat, arrivals: nat, claimed: nat, served: nat)

  datatype HandlerStage = Entered | Stored | Written
  datatype Handler = Handler(signal: nat, stage: HandlerStage)

  datatype Control =
    | Idle
    | Drain
    | Check(i: nat)        // the dispatcher, about to load `running`
    | Claim(i: nat)        // about to swap `pending`
    | Mark(i: nat)         // claimed, about to store `running`
    | Launch(i: nat)       // about to spawn the arm
    | Clear(i: nat)        // an arm has returned, about to clear `running`
    | Reclaim(i: nat)      // about to swap `pending`
    | Remark(i: nat)
    | Relaunch(i: nat)

  datatype State = State(slots: seq<Slot>, pipe: nat, control: Control, handlers: seq<Handler>)

  datatype Move =
    | Arrive(signal: nat)
    | Store(h: nat)
    | Write(h: nat, dropped: bool)   // a full pipe drops the byte
    | WakeDispatcher
    | ReadPipe(n: nat)
    | ReadEmpty
    | ArmReturns(signal: nat)
    | Advance                        // the next access of the section in `control`

  predicate Enabled(s: State, m: Move) {
    match m
    case Arrive(i) => i < |s.slots|
    case Store(h) => h < |s.handlers| && s.handlers[h].stage.Entered? && s.handlers[h].signal < |s.slots|
    case Write(h, dropped) => h < |s.handlers| && s.handlers[h].stage.Stored? && (dropped ==> s.pipe > 0)
    case WakeDispatcher => s.control.Idle?
    case ReadPipe(n) => s.control.Drain? && 0 < n <= s.pipe
    case ReadEmpty => s.control.Drain? && s.pipe == 0
    case ArmReturns(i) => s.control.Idle? && i < |s.slots| && s.slots[i].active > 0
    case Advance =>
      match s.control
      case Idle => false
      case Drain => false
      case Check(i) => i <= |s.slots|
      case _ => s.control.i < |s.slots|
  }

  /** What a section does next to its own slot, and where it goes. */
  function Touched(slot: Slot, c: Control): Slot {
    match c
    case Claim(_) => slot.(pending := false, claimed := if slot.pending then slot.arrivals else slot.claimed)
    case Reclaim(_) => slot.(pending := false, claimed := if slot.pending then slot.arrivals else slot.claimed)
    case Mark(_) => slot.(running := true)
    case Remark(_) => slot.(running := true)
    case Launch(_) => slot.(active := slot.active + 1, runs := slot.runs + 1, served := slot.claimed)
    case Relaunch(_) => slot.(active := slot.active + 1, runs := slot.runs + 1, served := slot.claimed)
    case Clear(_) => slot.(running := false, active := if slot.active == 0 then 0 else slot.active - 1)
    case _ => slot
  }

  function Next(slot: Slot, c: Control): Control {
    match c
    case Idle => Idle
    case Drain => Drain
    case Check(i) => if slot.running then Check(i + 1) else Claim(i)
    case Claim(i) => if slot.pending then Mark(i) else Check(i + 1)
    case Mark(i) => Launch(i)
    case Launch(i) => Check(i + 1)
    case Clear(i) => Reclaim(i)
    case Reclaim(i) => if slot.pending then Remark(i) else Idle
    case Remark(i) => Relaunch(i)
    case Relaunch(_) => Idle
  }

  function After(s: State, m: Move): State
    requires Enabled(s, m)
  {
    match m
    case Arrive(i) => s.(handlers := s.handlers + [Handler(i, Entered)])
    case Store(h) =>
      var i := s.handlers[h].signal;
      s.(slots := s.slots[i := s.slots[i].(pending := true, arrivals := s.slots[i].arrivals + 1)],
         handlers := s.handlers[h := Handler(i, Stored)])
    case Write(h, dropped) =>
      s.(pipe := if dropped then s.pipe else s.pipe + 1,
         handlers := s.handlers[h := Handler(s.handlers[h].signal, Written)])
    case WakeDispatcher => s.(control := Drain)
    case ReadPipe(n) => s.(pipe := s.pipe - n)
    case ReadEmpty => s.(control := Check(0))
    case ArmReturns(i) => s.(control := Clear(i))
    case Advance =>
      if s.control == Check(|s.slots|) then s.(control := Idle)
      else
        var i := s.control.i;
        s.(slots := s.slots[i := Touched(s.slots[i], s.control)], control := Next(s.slots[i], s.control))
  }

  // ---------------------------------------------------------------- the invariant

  predicate Concerns(c: Control, i: nat) { !c.Idle? && !c.Drain? && c.i == i }

  predicate Claimed(c: Control, i: nat) {
    Concerns(c, i) && (c.Mark? || c.Launch? || c.Remark? || c.Relaunch?)
  }

  /** `running` is exactly "one live run", but between the store and the spawn. */
  predicate OneRun(slot: Slot, c: Control, i: nat) {
    && (slot.running ==> slot.active == if Concerns(c, i) && (c.Launch? || c.Relaunch?) then 0 else 1)
    && (!slot.running ==> slot.active == 0)
    && (Concerns(c, i) ==>
          && (c.Claim? || c.Mark? || c.Reclaim? || c.Remark? ==> !slot.running)
          && (c.Launch? || c.Relaunch? || c.Clear? ==> slot.running))
  }

  predicate Accounted(slot: Slot, c: Control, i: nat) {
    slot.runs + (if slot.pending then 1 else 0) + (if Claimed(c, i) then 1 else 0) <= slot.arrivals
  }

  /** Pending means an arrival nobody has claimed, and what is claimed has been given a run. */
  predicate Delivered(slot: Slot, c: Control, i: nat) {
    && slot.claimed <= slot.arrivals
    && (slot.pending <==> slot.claimed < slot.arrivals)
    && (!Claimed(c, i) ==> slot.served == slot.claimed)
    && (slot.served > 0 ==> slot.runs > 0)
  }

  ghost predicate Writing(handlers: seq<Handler>, i: nat) {
    exists h :: 0 <= h < |handlers| && handlers[h] == Handler(i, Stored)
  }

  /** The fiber in control will still look at this slot's pending flag. */
  predicate WillLook(c: Control, i: nat) {
    match c
    case Idle => false
    case Drain => true
    case Check(j) => j <= i
    case Claim(j) => j <= i
    case Mark(j) => j < i
    case Launch(j) => j < i
    case Clear(j) => j == i
    case Reclaim(j) => j == i
    case Remark(_) => false
    case Relaunch(_) => false
  }

  /** A pending arrival on an idle slot is on its way to somebody's attention. */
  ghost predicate Noticed(slot: Slot, s: State, i: nat) {
    slot.pending && !slot.running ==>
      s.pipe > 0 || Writing(s.handlers, i) || WillLook(s.control, i) || Claimed(s.control, i)
  }

  /** The handlers of a signal that have gone past their store. */
  function StoresOf(handlers: seq<Handler>, i: nat): nat {
    if handlers == [] then 0
    else StoresOf(handlers[..|handlers| - 1], i) + (if Counts(handlers[|handlers| - 1], i) then 1 else 0)
  }

  predicate Counts(h: Handler, i: nat) { h.signal == i && !h.stage.Entered? }

  lemma {:induction false} StoresUpdated(handlers: seq<Handler>, h: nat, to: Handler, i: nat)
    requires h < |handlers|
    ensures StoresOf(handlers[h := to], i) + (if Counts(handlers[h], i) then 1 else 0)
         == StoresOf(handlers, i) + (if Counts(to, i) then 1 else 0)
    decreases |handlers|
  {
    var last := |handlers| - 1;
    if h < last {
      StoresUpdated(handlers[..last], h, to, i);
      assert handlers[h := to][..last] == handlers[..last][h := to];
    } else {
      assert handlers[h := to][..last] == handlers[..last];
    }
  }

  /** Every delivery of the signal that got as far as its store is an arrival. */
  ghost predicate ArrivalsCounted(s: State) {
    forall i: nat :: i < |s.slots| ==> s.slots[i].arrivals == StoresOf(s.handlers, i)
  }

  lemma StepCountsArrivals(s: State, m: Move)
    requires ArrivalsCounted(s) && Enabled(s, m)
    ensures ArrivalsCounted(After(s, m))
  {
    var v := After(s, m);
    forall i: nat | i < |v.slots| ensures v.slots[i].arrivals == StoresOf(v.handlers, i) {
      if m.Arrive? {
        assert v.handlers[..|s.handlers|] == s.handlers;
      } else if m.Store? || m.Write? {
        StoresUpdated(s.handlers, m.h, v.handlers[m.h], i);
      }
    }
  }

  ghost predicate SlotInv(s: State, i: nat)
    requires i < |s.slots|
  {
    && OneRun(s.slots[i], s.control, i) && Accounted(s.slots[i], s.control, i)
    && Delivered(s.slots[i], s.control, i) && Noticed(s.slots[i], s, i)
  }

  ghost predicate Inv(s: State) {
    && (forall i: nat :: i < |s.slots| ==> SlotInv(s, i))
    && (forall h :: 0 <= h < |s.handlers| ==> s.handlers[h].signal < |s.slots|)
    && (s.control.Idle? || s.control.Drain? || s.control.i < |s.slots| || s.control == Check(|s.slots|))
  }

  lemma WritingKept(s: State, v: State, i: nat)
    requires Writing(s.handlers, i)
    requires |s.handlers| <= |v.handlers|
    requires forall h :: 0 <= h < |s.handlers| && s.handlers[h] == Handler(i, Stored) ==> v.handlers[h] == s.handlers[h]
    ensures Writing(v.handlers, i)
  {
    var h :| 0 <= h < |s.handlers| && s.handlers[h] == Handler(i, Stored);
    assert v.handlers[h] == Handler(i, Stored);
  }

  lemma HandlerKeeps(s: State, m: Move)
    requires Inv(s) && Enabled(s, m) && (m.Arrive? || m.Store? || m.Write?)
    ensures Inv(After(s, m))
  {
    var v := After(s, m);
    forall i: nat | i < |v.slots| ensures SlotInv(v, i) {
      assert SlotInv(s, i);
      if m.Store? && s.handlers[m.h].signal == i {
        assert v.handlers[m.h] == Handler(i, Stored);
        assert Writing(v.handlers, i);
      } else if !m.Write? && Writing(s.handlers, i) {
        WritingKept(s, v, i);
      }
    }
  }

  lemma PipeKeeps(s: State, m: Move)
    requires Inv(s) && Enabled(s, m) && (m.WakeDispatcher? || m.ReadPipe? || m.ReadEmpty? || m.ArmReturns?)
    ensures Inv(After(s, m))
  {
    var v := After(s, m);
    forall i: nat | i < |v.slots| ensures SlotInv(v, i) {
      assert SlotInv(s, i);
    }
  }

  lemma AdvanceKeeps(s: State)
    requires Inv(s) && Enabled(s, Advance)
    ensures Inv(After(s, Advance))
  {
    var v := After(s, Advance);
    forall i: nat | i < |v.slots| ensures SlotInv(v, i) {
      assert SlotInv(s, i);
    }
  }

  lemma StepKeeps(s: State, m: Move)
    requires Inv(s) && Enabled(s, m)
    ensures Inv(After(s, m))
  {
    if m.Advance? {
      AdvanceKeeps(s);
    } else if m.Arrive? || m.Store? || m.Write? {
      HandlerKeeps(s, m);
    } else {
      PipeKeeps(s, m);
    }
  }

  predicate Runs(s: State, moves: seq<Move>)
    decreases |moves|
  {
    moves == [] || (Enabled(s, moves[0]) && Runs(After(s, moves[0]), moves[1..]))
  }

  function AfterAll(s: State, moves: seq<Move>): State
    requires Runs(s, moves)
    decreases |moves|
  {
    if moves == [] then s else AfterAll(After(s, moves[0]), moves[1..])
  }

  lemma {:induction false} RunKeeps(s: State, moves: seq<Move>)
    requires Inv(s) && ArrivalsCounted(s) && Runs(s, moves)
    ensures Inv(AfterAll(s, moves)) && ArrivalsCounted(AfterAll(s, moves))
    decreases |moves|
  {
    if moves != [] {
      StepKeeps(s, moves[0]);
      StepCountsArrivals(s, moves[0]);
      RunKeeps(After(s, moves[0]), moves[1..]);
    }
  }

  const SIGNALS: nat := 7

  const Installed: State :=
    State(seq(SIGNALS, i => Slot(false, false, 0, 0, 0, 0, 0)), 0, Idle, [])

  /**
   * Over every interleaving, for every signal: at most one run is live, runs never outnumber
   * arrivals, and a pending arrival on an idle slot has a byte in the pipe, a handler about
   * to write one, or a fiber in control that has yet to look at it or has just claimed one.
   */
  lemma EveryArrivalIsNoticed(moves: seq<Move>, i: nat)
    requires Runs(Installed, moves) && i < |AfterAll(Installed, moves).slots|
    ensures var s := AfterAll(Installed, moves);
            && s.slots[i].active <= 1
            && s.slots[i].runs <= s.slots[i].arrivals
            && (s.slots[i].pending && !s.slots[i].running ==>
                  || s.pipe > 0 || Writing(s.handlers, i)
                  || WillLook(s.control, i) || Claimed(s.control, i))
  {
    RunKeeps(Installed, moves);
    assert SlotInv(AfterAll(Installed, moves), i);
  }

  /**
   * Where no fiber can move, no byte is left and no handler runs, no arrival is pending and the
   * latest run of each signal was started after all of its arrivals.
   */
  lemma QuietMeansDelivered(moves: seq<Move>, i: nat)
    requires Runs(Installed, moves) && i < |AfterAll(Installed, moves).slots|
    requires var s := AfterAll(Installed, moves);
             && s.control.Idle? && s.pipe == 0
             && (forall h :: 0 <= h < |s.handlers| ==> s.handlers[h].stage.Written?)
             && (forall j :: 0 <= j < |s.slots| ==> s.slots[j].active == 0)
    ensures var slot := AfterAll(Installed, moves).slots[i];
            && !slot.pending && slot.served == slot.arrivals == StoresOf(AfterAll(Installed, moves).handlers, i)
            && (slot.arrivals > 0 ==> 0 < slot.runs <= slot.arrivals)
  {
    RunKeeps(Installed, moves);
    assert SlotInv(AfterAll(Installed, moves), i);
  }
}
