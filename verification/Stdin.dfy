/**
 * Reading standard input line by line from any number of fibers on any workers
 * (quilon-rt/src/deferred.rs): the line reader over arbitrary read chunks, and the ticket
 * gate that makes launched reads take consecutive lines in launch order.
 *
 * One move of the machine is one region under the gate's lock, one park or wake-up, or one
 * `read(2)`. A ticket stands for the fiber that owns it; `unread` is what the descriptor
 * will still deliver.
 */
module Stdin {
  import opened Wrappers

  newtype byte = b: int | 0 <= b < 256
  type Bytes = seq<byte>

  const LF: byte := 10
  const CR: byte := 13
  const CHUNK: nat := 1024

  // ---------------------------------------------------------------- lines

  /** Where the first newline is; the length when there is none. */
  function Newline(s: Bytes): (n: nat)
    ensures n <= |s|
    ensures n < |s| ==> s[n] == LF
    ensures forall i :: 0 <= i < n ==> s[i] != LF
  {
    if s == [] || s[0] == LF then 0 else 1 + Newline(s[1..])
  }

  predicate HasLine(s: Bytes) { Newline(s) < |s| }

  function WithoutCr(line: Bytes): Bytes {
    if line != [] && line[|line| - 1] == CR then line[..|line| - 1] else line
  }

  /** The first line of a byte stream: a carriage return goes only with its newline. */
  function Line(s: Bytes): Bytes { if HasLine(s) then WithoutCr(s[..Newline(s)]) else s }

  function Rest(s: Bytes): Bytes { if HasLine(s) then s[Newline(s) + 1..] else [] }

  function Iterate<T>(f: T -> T, x: T, k: nat): T { if k == 0 then x else f(Iterate(f, x, k - 1)) }

  /** What is left of a stream after its first `k` lines. */
  function Skip(s: Bytes, k: nat): Bytes { Iterate(Rest, s, k) }

  /** The k-th line of a stream, counted from 0. */
  function NthLine(s: Bytes, k: nat): Bytes { Line(Skip(s, k)) }

  /** A line and how it is ended: by a newline, or by a carriage return and a newline. */
  datatype Written = Written(line: Bytes, crlf: bool)

  /** The text made of the written lines and an unterminated `tail`. */
  function Joined(lines: seq<Written>, tail: Bytes): Bytes {
    if lines == [] then tail
    else lines[0].line + (if lines[0].crlf then [CR, LF] else [LF]) + Joined(lines[1..], tail)
  }

  predicate EndsInCr(line: Bytes) { line != [] && line[|line| - 1] == CR }

  lemma NewlineAfter(line: Bytes, more: Bytes)
    requires LF !in line
    ensures Newline(line + [LF] + more) == |line|
  {
    var s := line + [LF] + more;
    assert s[|line|] == LF;
    assert forall i :: 0 <= i < |line| ==> s[i] == line[i];
  }

  lemma {:induction false} IterateShift<T>(f: T -> T, x: T, k: nat)
    ensures Iterate(f, x, k + 1) == Iterate(f, f(x), k)
  {
    if k > 0 {
      IterateShift(f, x, k - 1);
    }
  }

  lemma SkipShift(s: Bytes, k: nat)
    ensures Skip(s, k + 1) == Skip(Rest(s), k)
  {
    IterateShift(Rest, s, k);
  }

  /**
   * Reading a text line by line gives back the lines it was made of, the unterminated tail once
   * and as it is, then nothing. Only a line that ends in a carriage return and is ended by a
   * newline alone comes back shorter, by that one byte.
   */
  lemma {:induction false} LinesOfJoined(lines: seq<Written>, tail: Bytes, k: nat)
    requires forall i :: 0 <= i < |lines| ==> LF !in lines[i].line
    requires LF !in tail
    ensures var read := NthLine(Joined(lines, tail), k);
            if k < |lines| then
              if !lines[k].crlf && EndsInCr(lines[k].line) then read + [CR] == lines[k].line else read == lines[k].line
            else read == if k == |lines| then tail else []
    decreases |lines|
  {
    if lines == [] {
      TailOnly(tail, k);
    } else {
      var more := Joined(lines[1..], tail);
      FirstOfJoined(lines[0], more);
      if k > 0 {
        SkipShift(Joined(lines, tail), k - 1);
        LinesOfJoined(lines[1..], tail, k - 1);
      }
    }
  }

  lemma TailOnly(tail: Bytes, k: nat)
    requires LF !in tail
    ensures NthLine(tail, k) == if k == 0 then tail else []
  {
    if k > 0 {
      SkipShift(tail, k - 1);
      SkipOfEmpty(k - 1);
    }
  }

  lemma FirstOfJoined(w: Written, more: Bytes)
    requires LF !in w.line
    ensures var text := w.line + (if w.crlf then [CR, LF] else [LF]) + more;
            && Rest(text) == more
            && if !w.crlf && EndsInCr(w.line) then Line(text) + [CR] == w.line else Line(text) == w.line
  {
    var text := w.line + (if w.crlf then [CR, LF] else [LF]) + more;
    var line := w.line + if w.crlf then [CR] else [];
    assert text == line + [LF] + more;
    NewlineAfter(line, more);
    assert text[..|line|] == line;
    if EndsInCr(line) {
      assert line == line[..|line| - 1] + [CR];
    }
  }

  lemma {:induction false} SkipOfEmpty(k: nat)
    ensures Skip([], k) == []
  {
    if k > 0 {
      SkipOfEmpty(k - 1);
    }
  }

  /** Bytes that arrive later do not change a line that is complete. */
  lemma LineIsStable(s: Bytes, more: Bytes)
    requires HasLine(s)
    ensures HasLine(s + more) && Line(s + more) == Line(s) && Rest(s + more) == Rest(s) + more
  {
    var n := Newline(s);
    NewlineAfter(s[..n], s[n + 1..] + more);
    assert s + more == s[..n] + [LF] + (s[n + 1..] + more);
    assert (s + more)[..n] == s[..n];
    assert (s + more)[n + 1..] == s[n + 1..] + more;
  }

  /** The descriptor and the reader's buffer, both advanced in place. */
  class LineReader {
    var buffer: Bytes
    var unread: Bytes

    constructor (leftover: Bytes, input: Bytes)
      ensures buffer == leftover && unread == input
    {
      buffer, unread := leftover, input;
    }

    /** Drain one complete line from the buffer, when it holds one. */
    method TakeLine() returns (line: Option<Bytes>)
      modifies this`buffer
      ensures line.Some? == HasLine(old(buffer))
      ensures line.Some? ==> line.value == Line(old(buffer)) && buffer == Rest(old(buffer))
      ensures line.None? ==> buffer == old(buffer)
    {
      var newline := 0;
      while newline < |buffer| && buffer[newline] != LF
        invariant newline <= Newline(buffer)
        invariant buffer == old(buffer)
      {
        newline := newline + 1;
      }
      if newline == |buffer| {
        return None;
      }
      assert newline == Newline(buffer);
      var taken := buffer[..newline];
      buffer := buffer[newline + 1..];
      if taken != [] && taken[|taken| - 1] == CR {
        taken := taken[..|taken| - 1];
      }
      return Some(taken);
    }

    /** One read: any non-empty amount up to the chunk size, and zero bytes only at the end. */
    method ReadOnce() returns (chunk: Bytes)
      modifies this`unread
      ensures chunk + unread == old(unread)
      ensures |chunk| <= CHUNK
      ensures chunk == [] <==> old(unread) == []
    {
      var most := if |unread| < CHUNK then |unread| else CHUNK;
      var count: nat :| count <= most && (count == 0 <==> unread == []);
      chunk := unread[..count];
      unread := unread[count..];
    }

    /** The first line of the buffered and still unread bytes, however the reads split them. */
    method ReadLine() returns (line: Bytes)
      modifies this
      ensures line == Line(old(buffer + unread))
      ensures buffer + unread == Rest(old(buffer + unread))
    {
      ghost var all := buffer + unread;
      ghost var start := buffer;
      var taken := TakeLine();
      if taken.Some? {
        LineIsStable(start, unread);
        return taken.value;
      }
      while true
        invariant buffer + unread == all && !HasLine(buffer)
        decreases |unread|
      {
        ghost var before := buffer;
        var chunk := ReadOnce();
        if chunk == [] {
          line := buffer;
          buffer := [];
          assert before == all;
          return;
        }
        buffer := buffer + chunk;
        assert buffer + unread == all;
        ghost var grown := buffer;
        taken := TakeLine();
        if taken.Some? {
          LineIsStable(grown, unread);
          return taken.value;
        }
      }
    }
  }

  // ---------------------------------------------------------------- the gate

  datatype Outcome = Got(line: Bytes) | Failed

  datatype Phase =
    | Checking                                   // about to look at the gate
    | Registered                                 // token in the waiters, not parked yet
    | Parked
    | Acquired
    | Reading(buffer: Bytes)                     // leftover taken out of the gate
    | Finished(outcome: Outcome, buffer: Bytes)  // line in hand, leftover not stored yet
    | Stored(outcome: Outcome)
    | Done(outcome: Outcome)

  /** `next_ticket` is the number of tickets. */
  datatype Gate = Gate(tickets: seq<Phase>, serving: nat, leftover: Bytes, waiters: set<nat>,
                       woken: set<nat>, unread: Bytes)

  datatype Move =
    | Launch
    | Look(ticket: nat)
    | Park(ticket: nat)
    | Resume(ticket: nat)
    | TakeLeftover(ticket: nat)
    | CutLine(ticket: nat)
    | ReadChunk(ticket: nat, count: nat)
    | ReadEnd(ticket: nat)
    | ReadError(ticket: nat)
    | StoreLeftover(ticket: nat)
    | Release(ticket: nat)

  predicate Enabled(g: Gate, m: Move) {
    if m.Launch? then true
    else
      && m.ticket < |g.tickets|
      && var phase := g.tickets[m.ticket];
         match m
         case Look(_) => phase.Checking?
         case Park(_) => phase.Registered?
         case Resume(_) => phase.Parked? && m.ticket in g.woken
         case TakeLeftover(_) => phase.Acquired?
         case CutLine(_) => phase.Reading? && HasLine(phase.buffer)
         case ReadChunk(_, count) =>
           phase.Reading? && !HasLine(phase.buffer) && 0 < count <= CHUNK && count <= |g.unread|
         case ReadEnd(_) => phase.Reading? && !HasLine(phase.buffer) && g.unread == []
         case ReadError(_) => phase.Reading? && !HasLine(phase.buffer)
         case StoreLeftover(_) => phase.Finished?
         case Release(_) => phase.Stored?
  }

  function After(g: Gate, m: Move): Gate
    requires Enabled(g, m)
  {
    match m
    case Launch => g.(tickets := g.tickets + [Checking])
    case Look(t) =>
      if g.serving == t then g.(tickets := g.tickets[t := Acquired])
      else g.(tickets := g.tickets[t := Registered], waiters := g.waiters + {t})
    case Park(t) => g.(tickets := g.tickets[t := Parked])
    case Resume(t) => g.(tickets := g.tickets[t := Checking], woken := g.woken - {t})
    case TakeLeftover(t) => g.(tickets := g.tickets[t := Reading(g.leftover)], leftover := [])
    case CutLine(t) =>
      var buffer := g.tickets[t].buffer;
      g.(tickets := g.tickets[t := Finished(Got(Line(buffer)), Rest(buffer))])
    case ReadChunk(t, count) =>
      g.(tickets := g.tickets[t := Reading(g.tickets[t].buffer + g.unread[..count])],
         unread := g.unread[count..])
    case ReadEnd(t) => g.(tickets := g.tickets[t := Finished(Got(g.tickets[t].buffer), [])])
    case ReadError(t) => g.(tickets := g.tickets[t := Finished(Failed, g.tickets[t].buffer)])
    case StoreLeftover(t) =>
      g.(tickets := g.tickets[t := Stored(g.tickets[t].outcome)], leftover := g.tickets[t].buffer)
    case Release(t) =>
      g.(tickets := g.tickets[t := Done(g.tickets[t].outcome)], serving := g.serving + 1,
         waiters := {}, woken := g.woken + g.waiters)
  }

  function Opened(input: Bytes): Gate { Gate([], 0, [], {}, {}, input) }

  predicate Runs(g: Gate, moves: seq<Move>)
    decreases |moves|
  {
    moves == [] || (Enabled(g, moves[0]) && Runs(After(g, moves[0]), moves[1..]))
  }

  function AfterAll(g: Gate, moves: seq<Move>): Gate
    requires Runs(g, moves)
    decreases |moves|
  {
    if moves == [] then g else AfterAll(After(g, moves[0]), moves[1..])
  }

  // ---------------------------------------------------------------- the invariant

  predicate Waits(phase: Phase) { phase.Checking? || phase.Registered? || phase.Parked? }

  predicate Inside(phase: Phase) {
    phase.Acquired? || phase.Reading? || phase.Finished? || phase.Stored?
  }

  /** Everyone before the served ticket is done, everyone after it is still waiting. */
  ghost predicate InOrder(tickets: seq<Phase>, serving: nat) {
    && serving <= |tickets|
    && (forall t :: 0 <= t < serving ==> tickets[t].Done?)
    && (forall t :: serving < t < |tickets| ==> Waits(tickets[t]))
    && (serving < |tickets| ==> !tickets[serving].Done?)
  }

  /** A sleeper is in the waiters, and then not yet being served, or has been woken. */
  ghost predicate Reachable(g: Gate) {
    && (forall t: nat :: t in g.waiters ==>
          g.serving < t < |g.tickets| && (g.tickets[t].Registered? || g.tickets[t].Parked?))
    && (forall t :: 0 <= t < |g.tickets| && (g.tickets[t].Registered? || g.tickets[t].Parked?) ==>
          t in g.waiters || t in g.woken)
    && (forall t: nat :: t in g.woken ==>
          t < |g.tickets| && t !in g.waiters && (g.tickets[t].Registered? || g.tickets[t].Parked?))
  }

  function OutcomeOf(phase: Phase): Option<Outcome> {
    if phase.Finished? || phase.Stored? || phase.Done? then Some(phase.outcome) else None
  }

  /** How many of the first `k` tickets got a line. */
  function Lines(tickets: seq<Phase>, k: nat): nat
    requires k <= |tickets|
  {
    if k == 0 then 0
    else Lines(tickets, k - 1)
         + (if OutcomeOf(tickets[k - 1]).Some? && OutcomeOf(tickets[k - 1]).value.Got? then 1 else 0)
  }

  /** The bytes read from the descriptor and not yet handed out. */
  function Held(g: Gate): Bytes {
    if g.serving < |g.tickets| && g.tickets[g.serving].Reading? then g.tickets[g.serving].buffer
    else if g.serving < |g.tickets| && g.tickets[g.serving].Finished? then g.tickets[g.serving].buffer
    else g.leftover
  }

  ghost predicate RightLine(tickets: seq<Phase>, t: nat, input: Bytes)
    requires t < |tickets|
  {
    var outcome := OutcomeOf(tickets[t]);
    outcome.Some? && outcome.value.Got? ==> outcome.value.line == NthLine(input, Lines(tickets, t))
  }

  ghost predicate LinesRight(tickets: seq<Phase>, input: Bytes) {
    forall t: nat :: t < |tickets| ==> RightLine(tickets, t, input)
  }

  /** No byte is lost or repeated: what is held and unread is the input less the lines given. */
  ghost predicate BytesRight(g: Gate, input: Bytes) {
    Held(g) + g.unread == Skip(input, Lines(g.tickets, |g.tickets|))
  }

  ghost predicate Inv(g: Gate, input: Bytes) {
    InOrder(g.tickets, g.serving) && Reachable(g) && LinesRight(g.tickets, input) && BytesRight(g, input)
  }

  lemma {:induction false} LinesAgree(one: seq<Phase>, two: seq<Phase>, k: nat)
    requires k <= |one| && k <= |two|
    requires forall t :: 0 <= t < k ==> OutcomeOf(one[t]) == OutcomeOf(two[t])
    ensures Lines(one, k) == Lines(two, k)
  {
    if k > 0 {
      LinesAgree(one, two, k - 1);
    }
  }

  /** After the served ticket nobody has an outcome, so the count stops there. */
  lemma {:induction false} LinesStop(tickets: seq<Phase>, serving: nat, k: nat)
    requires InOrder(tickets, serving) && serving < k <= |tickets|
    ensures Lines(tickets, k) == Lines(tickets, serving + 1)
  {
    if k > serving + 1 {
      LinesStop(tickets, serving, k - 1);
    }
  }

  /** A change of phase that leaves every outcome alone leaves every line right. */
  lemma SameOutcomes(old_: seq<Phase>, new_: seq<Phase>, input: Bytes)
    requires |old_| <= |new_| && LinesRight(old_, input)
    requires forall t :: 0 <= t < |old_| ==> OutcomeOf(old_[t]) == OutcomeOf(new_[t])
    requires forall t :: |old_| <= t < |new_| ==> OutcomeOf(new_[t]) == None
    ensures LinesRight(new_, input)
    ensures Lines(old_, |old_|) == Lines(new_, |new_|)
  {
    forall t: nat | t < |new_| ensures RightLine(new_, t, input) {
      if t < |old_| {
        LinesAgree(old_, new_, t);
        assert RightLine(old_, t, input);
      }
    }
    LinesAgree(old_, new_, |old_|);
    NoMoreLines(new_, |old_|, |new_|);
  }

  lemma {:induction false} NoMoreLines(tickets: seq<Phase>, from: nat, to: nat)
    requires from <= to <= |tickets|
    requires forall t :: from <= t < to ==> OutcomeOf(tickets[t]) == None
    ensures Lines(tickets, to) == Lines(tickets, from)
  {
    if from < to {
      NoMoreLines(tickets, from, to - 1);
    }
  }

  /** The reading ticket has the next line of the stream in its buffer and what is unread. */
  ghost predicate Finishes(g: Gate, outcome: Outcome, buffer: Bytes)
    requires g.serving < |g.tickets| && g.tickets[g.serving].Reading?
  {
    var all := g.tickets[g.serving].buffer + g.unread;
    if outcome.Got? then outcome.line == Line(all) && buffer + g.unread == Rest(all)
    else buffer == g.tickets[g.serving].buffer
  }

  function Finishing(g: Gate, outcome: Outcome, buffer: Bytes): Gate
    requires g.serving < |g.tickets|
  {
    g.(tickets := g.tickets[g.serving := Finished(outcome, buffer)])
  }

  lemma FinishCounts(g: Gate, outcome: Outcome, buffer: Bytes)
    requires InOrder(g.tickets, g.serving) && g.serving < |g.tickets| && g.tickets[g.serving].Reading?
    ensures var before, after := g.tickets, Finishing(g, outcome, buffer).tickets;
            && Lines(before, |before|) == Lines(before, g.serving)
            && Lines(after, |after|) == Lines(before, g.serving) + (if outcome.Got? then 1 else 0)
            && forall u: nat :: u <= g.serving ==> Lines(after, u) == Lines(before, u)
  {
    var t, after := g.serving, Finishing(g, outcome, buffer).tickets;
    forall u: nat | u <= t ensures Lines(after, u) == Lines(g.tickets, u) {
      LinesAgree(g.tickets, after, u);
    }
    LinesStop(g.tickets, t, |g.tickets|);
    LinesStop(after, t, |g.tickets|);
  }

  /** The served ticket finishes: its line, if it got one, is the next of the stream. */
  lemma FinishKeeps(g: Gate, outcome: Outcome, buffer: Bytes, input: Bytes)
    requires InOrder(g.tickets, g.serving) && LinesRight(g.tickets, input) && BytesRight(g, input)
    requires g.serving < |g.tickets| && g.tickets[g.serving].Reading?
    requires Finishes(g, outcome, buffer)
    ensures LinesRight(Finishing(g, outcome, buffer).tickets, input)
    ensures BytesRight(Finishing(g, outcome, buffer), input)
  {
    var t, h := g.serving, Finishing(g, outcome, buffer);
    FinishCounts(g, outcome, buffer);
    forall u: nat | u < |h.tickets| ensures RightLine(h.tickets, u, input) {
      if u < t {
        assert RightLine(g.tickets, u, input);
      }
    }
  }

  lemma OnlyServedInside(g: Gate, t: nat)
    requires InOrder(g.tickets, g.serving) && t < |g.tickets| && Inside(g.tickets[t])
    ensures t == g.serving
  {
  }

  lemma WaitingOrderKept(g: Gate, m: Move, input: Bytes)
    requires Inv(g, input) && Enabled(g, m)
    requires m.Launch? || m.Look? || m.Park? || m.Resume?
    ensures InOrder(After(g, m).tickets, After(g, m).serving) && Reachable(After(g, m))
  {
    WaitersKept(g, m);
  }

  lemma WaitersKept(g: Gate, m: Move)
    requires InOrder(g.tickets, g.serving) && Reachable(g) && Enabled(g, m)
    requires m.Launch? || m.Look? || m.Park? || m.Resume?
    ensures Reachable(After(g, m))
  {
  }

  lemma WaitingMoveKeeps(g: Gate, m: Move, input: Bytes)
    requires Inv(g, input) && Enabled(g, m)
    requires m.Launch? || m.Look? || m.Park? || m.Resume?
    ensures Inv(After(g, m), input)
  {
    WaitingOrderKept(g, m, input);
    SameOutcomes(g.tickets, After(g, m).tickets, input);
  }

  lemma ReaderOrderKept(g: Gate, m: Move, input: Bytes)
    requires Inv(g, input) && Enabled(g, m)
    requires !m.Launch? && !m.Look? && !m.Park? && !m.Resume?
    ensures m.ticket == g.serving
    ensures InOrder(After(g, m).tickets, After(g, m).serving) && Reachable(After(g, m))
  {
    OnlyServedInside(g, m.ticket);
  }

  lemma BufferMoveKeeps(g: Gate, m: Move, input: Bytes)
    requires Inv(g, input) && Enabled(g, m)
    requires m.TakeLeftover? || m.ReadChunk? || m.StoreLeftover? || m.Release?
    ensures LinesRight(After(g, m).tickets, input) && BytesRight(After(g, m), input)
  {
    SameOutcomes(g.tickets, After(g, m).tickets, input);
    HeldKept(g, m);
  }

  /** The bytes move between the gate, the reader and the descriptor, and none is lost. */
  lemma HeldKept(g: Gate, m: Move)
    requires InOrder(g.tickets, g.serving) && Enabled(g, m)
    requires m.TakeLeftover? || m.ReadChunk? || m.StoreLeftover? || m.Release?
    ensures Held(After(g, m)) + After(g, m).unread == Held(g) + g.unread
  {
    OnlyServedInside(g, m.ticket);
    if m.ReadChunk? {
      var buffer := g.tickets[m.ticket].buffer;
      assert buffer + g.unread[..m.count] + g.unread[m.count..] == buffer + g.unread;
    }
  }

  lemma ReadMoveKeeps(g: Gate, m: Move, input: Bytes)
    requires Inv(g, input) && Enabled(g, m)
    requires m.CutLine? || m.ReadEnd? || m.ReadError?
    ensures LinesRight(After(g, m).tickets, input) && BytesRight(After(g, m), input)
  {
    OnlyServedInside(g, m.ticket);
    var buffer := g.tickets[m.ticket].buffer;
    match m
    case CutLine(_) =>
      LineIsStable(buffer, g.unread);
      FinishKeeps(g, Got(Line(buffer)), Rest(buffer), input);
    case ReadEnd(_) =>
      assert buffer + g.unread == buffer;
      FinishKeeps(g, Got(buffer), [], input);
    case ReadError(_) =>
      FinishKeeps(g, Failed, buffer, input);
  }

  lemma StepKeeps(g: Gate, m: Move, input: Bytes)
    requires Inv(g, input) && Enabled(g, m)
    ensures Inv(After(g, m), input)
  {
    if m.Launch? || m.Look? || m.Park? || m.Resume? {
      WaitingMoveKeeps(g, m, input);
    } else {
      ReaderOrderKept(g, m, input);
      if m.CutLine? || m.ReadEnd? || m.ReadError? {
        ReadMoveKeeps(g, m, input);
      } else {
        BufferMoveKeeps(g, m, input);
      }
    }
  }

  lemma {:induction false} RunKeeps(g: Gate, moves: seq<Move>, input: Bytes)
    requires Inv(g, input) && Runs(g, moves)
    ensures Inv(AfterAll(g, moves), input)
    decreases |moves|
  {
    if moves != [] {
      StepKeeps(g, moves[0], input);
      RunKeeps(After(g, moves[0]), moves[1..], input);
    }
  }

  // ---------------------------------------------------------------- what every run keeps

  ghost predicate Reached(input: Bytes, g: Gate) {
    exists moves: seq<Move> :: Runs(Opened(input), moves) && AfterAll(Opened(input), moves) == g
  }

  lemma ReachedInv(input: Bytes, g: Gate)
    requires Reached(input, g)
    ensures Inv(g, input)
  {
    var moves :| Runs(Opened(input), moves) && AfterAll(Opened(input), moves) == g;
    RunKeeps(Opened(input), moves, input);
  }

  /** At most one reader is between acquire and release, and tickets are done in order. */
  lemma OneReaderInOrder(input: Bytes, g: Gate)
    requires Reached(input, g)
    ensures forall t: nat :: t < |g.tickets| && Inside(g.tickets[t]) ==> t == g.serving
    ensures forall t: nat :: t < |g.tickets| ==> (g.tickets[t].Done? <==> t < g.serving)
  {
    ReachedInv(input, g);
  }

  /** No ticket is stranded: while some read is unfinished, some fiber can make a move. */
  lemma NoTicketStranded(input: Bytes, g: Gate)
    returns (m: Move)
    requires Reached(input, g) && exists t :: 0 <= t < |g.tickets| && !g.tickets[t].Done?
    ensures Enabled(g, m) && !m.Launch? && !m.ReadError? && m.ticket == g.serving
  {
    ReachedInv(input, g);
    var t := g.serving;
    match g.tickets[t] {
      case Checking => m := Look(t);
      case Registered => m := Park(t);
      case Parked => m := Resume(t);
      case Acquired => m := TakeLeftover(t);
      case Reading(buffer) =>
        m := if HasLine(buffer) then CutLine(t)
             else if g.unread == [] then ReadEnd(t) else ReadChunk(t, 1);
      case Finished(_, _) => m := StoreLeftover(t);
      case Stored(_) => m := Release(t);
    }
  }

  lemma {:induction false} AllGot(tickets: seq<Phase>, k: nat)
    requires k <= |tickets|
    requires forall t :: 0 <= t < k ==>
               OutcomeOf(tickets[t]).Some? && OutcomeOf(tickets[t]).value.Got?
    ensures Lines(tickets, k) == k
  {
    if k > 0 {
      AllGot(tickets, k - 1);
    }
  }

  /**
   * A read that got a line got the line numbered by the earlier reads that got one, so a
   * failed read costs no byte; without failures the k-th launched read gets the k-th line.
   */
  lemma LaunchOrderIsLineOrder(input: Bytes, g: Gate, k: nat, line: Bytes)
    requires Reached(input, g)
    requires k < |g.tickets| && g.tickets[k] == Done(Got(line))
    ensures line == NthLine(input, Lines(g.tickets, k))
    ensures (forall t :: 0 <= t < k ==> g.tickets[t] != Done(Failed)) ==> line == NthLine(input, k)
  {
    ReachedInv(input, g);
    LineOfTicket(g, input, k, line);
  }

  lemma LineOfTicket(g: Gate, input: Bytes, k: nat, line: Bytes)
    requires InOrder(g.tickets, g.serving) && LinesRight(g.tickets, input)
    requires k < |g.tickets| && g.tickets[k] == Done(Got(line))
    ensures line == NthLine(input, Lines(g.tickets, k))
    ensures (forall t :: 0 <= t < k ==> g.tickets[t] != Done(Failed)) ==> line == NthLine(input, k)
  {
    assert RightLine(g.tickets, k, input);
    if forall t :: 0 <= t < k ==> g.tickets[t] != Done(Failed) {
      AllGot(g.tickets, k);
    }
  }
}
