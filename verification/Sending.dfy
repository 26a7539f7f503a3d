/** Outgoing queue of a stream socket: `Socket::write` and `Socket::flush` under their lock, the IO thread that
    turns writable edges into flushes when `_sending` is set, and a kernel that may accept all, a part or
    nothing of what it is given. */
module Sending {

  type Bytes = seq<bv8>
  type uint32 = x: nat | x < UINT32
  type int31 = x: nat | x < 0x8000_0000  // what an `int` tells of a success

  const UINT32: nat := 0x1_0000_0000
  const UINT64: nat := 0x1_0000_0000_0000_0000

  /** The holder of `_mutexSending`, by what it does next. */
  datatype LockPc =
    | Free
    | Marking(packet: Bytes)   // write: _sending = true
    | Trying(packet: Bytes)    // write: sendTo
    | Queueing(rest: Bytes)    // write: _sendings.emplace_back
    | Clearing                 // write: _sending = false
    | Flushing(written: uint32) // flush: the loop
    | Settling(written: uint32) // flush: _queueing -= written

  datatype State = State(
    sendings: seq<Bytes>,
    queueing: nat,          // std::atomic<uint64_t> _queueing
    sending: bool,          // std::atomic<bool> _sending
    isOpened: bool,
    lock: LockPc,
    testing: bool,          // IO thread: in `write`, before the test of `_sending`
    flushes: nat,           // Send runners queued
    full: bool,             // the kernel did not accept everything: it will raise an edge
    edge: bool,             // writable edge not yet reported
    wire: Bytes,            // history of what the kernel accepted
    accepted: Bytes)        // history of the packets given to `write`

  /** `Later` is NET_EWOULDBLOCK, or NET_ENOTCONN while connecting; any other error ends the run. */
  datatype Answer = Took(count: int31) | Later | Fatal

  datatype Step =
    | Write(packet: Bytes) | Mark | Try(answer: Answer) | Enqueue | Clear
    | StartFlush | Send(answer: Answer) | Emptied | Settle
    | TakeEdge | TestSending
    | Room | FalseEdge   // kernel: room again; an edge without reason

  const Init := State([], 0, false, false, Free, false, 0, false, false, [], [])

  /** The kernel accepts at most what it is given, and nothing while it is full. */
  predicate Possible(s: State, answer: Answer, size: nat) {
    !answer.Fatal? && (answer.Took? ==> answer.count <= size && !s.full)
  }

  predicate Enabled(s: State, step: Step) {
    match step
    case Write(packet) => s.lock.Free? && |packet| < UINT32 && s.queueing + |packet| < UINT64
    case Mark => s.lock.Marking?
    case Try(answer) => s.lock.Trying? && Possible(s, answer, |s.lock.packet|)
    case Enqueue => s.lock.Queueing?
    case Clear => s.lock.Clearing?
    case StartFlush => s.lock.Free? && s.flushes > 0
    case Send(answer) => s.lock.Flushing? && s.sendings != [] && Possible(s, answer, |s.sendings[0]|)
    case Emptied => s.lock.Flushing? && s.sendings == []
    case Settle => s.lock.Settling?
    case TakeEdge => s.edge && !s.testing
    case TestSending => s.testing
    case Room => s.full
    case FalseEdge => true
  }

  function Next(s: State, step: Step): State
    requires Enabled(s, step)
  {
    match step
    case Write(packet) =>
      if s.sendings != [] then
        s.(sendings := s.sendings + [packet], queueing := s.queueing + |packet|, accepted := s.accepted + packet)
      else s.(lock := Marking(packet))
    case Mark => s.(sending := true, lock := Trying(s.lock.packet))
    case Try(answer) => Tried(s, answer)
    case Enqueue => s.(sendings := s.sendings + [s.lock.rest], queueing := s.queueing + |s.lock.rest|, lock := Free)
    case Clear => s.(sending := false, lock := Free)
    case StartFlush => s.(flushes := s.flushes - 1, lock := Flushing(0))
    case Send(answer) => Sent(s, answer)
    case Emptied => s.(lock := Settling(s.lock.written))
    case Settle => Settled(s)
    case TakeEdge => s.(edge := false, testing := true)
    case TestSending =>
      s.(testing := false, isOpened := true, flushes := if !s.isOpened || s.sending then s.flushes + 1 else s.flushes)
    case Room => s.(full := false, edge := true)
    case FalseEdge => s.(edge := true)
  }

  function Tried(s: State, answer: Answer): State
    requires Enabled(s, Try(answer))
  {
    var packet := s.lock.packet;
    var sent := if answer.Took? then answer.count else 0;
    var t := s.(wire := s.wire + packet[..sent], accepted := s.accepted + packet);
    if answer.Took? && sent >= |packet| then t.(lock := Clearing) else t.(lock := Queueing(packet[sent..]), full := true)
  }

  function Sent(s: State, answer: Answer): State
    requires Enabled(s, Send(answer))
  {
    var front, rest := s.sendings[0], s.sendings[1..];
    match answer
    case Fatal => s
    case Later => s.(full := true, lock := Settling(s.lock.written))
    case Took(count) =>
      var t := s.(wire := s.wire + front[..count]);
      var written := (s.lock.written + count) % UINT32;
      if count < |front| then t.(sendings := [front[count..]] + rest, full := true, lock := Settling(written))
      else t.(sendings := rest, lock := Flushing(written))
  }

  /** `if(written && !(_queueing -= written)) _sending = false`. */
  function Settled(s: State): State
    requires s.lock.Settling?
  {
    var written := s.lock.written;
    var left := if written == 0 then s.queueing else (s.queueing - written) % UINT64;
    s.(queueing := left, sending := if written != 0 && left == 0 then false else s.sending, lock := Free)
  }

  // ---------------------------------------------------------------- the invariant

  function Concat(packets: seq<Bytes>): Bytes {
    if packets == [] then [] else packets[0] + Concat(packets[1..])
  }

  /** Every accepted byte is on the wire or queued, in order. */
  predicate Conserved(s: State) {
    s.wire + Concat(s.sendings) + (if s.lock.Queueing? then s.lock.rest else []) == s.accepted
  }

  function Unsettled(s: State): uint32 { if s.lock.Flushing? || s.lock.Settling? then s.lock.written else 0 }

  /** What `_queueing` counts beyond the queued bytes: `flush` sums what it writes on 32 bits, so a call that
      writes 4 GiB or more leaves 4 GiB behind. */
  function Excess(s: State): int { s.queueing - |Concat(s.sendings)| - Unsettled(s) }

  predicate Counted(s: State) { 0 <= Excess(s) && s.queueing < UINT64 }

  /** Bytes that a flush has to send. */
  predicate Waiting(s: State) { s.sendings != [] || s.lock.Queueing? }

  /** Somebody will flush: the kernel owes an edge, an edge is there, it is being tested, or a flush is
      queued or running. */
  predicate Served(s: State) {
    s.full || s.edge || s.testing || s.flushes > 0 || s.lock.Flushing?
  }

  predicate NoLostFlush(s: State) { Waiting(s) ==> Served(s) }

  predicate Small(packets: seq<Bytes>) { forall i :: 0 <= i < |packets| ==> |packets[i]| < UINT32 }

  /** What holds on every run: bytes, counter and sizes. */
  predicate Base(s: State) {
    && Conserved(s) && Counted(s)
    && Small(s.sendings)
    && (s.flushes > 0 || s.lock.Flushing? || s.lock.Settling? ==> s.isOpened)
    && (match s.lock
        case Marking(packet) => s.sendings == [] && |packet| < UINT32 && s.queueing + |packet| < UINT64
        case Trying(packet) => s.sendings == [] && |packet| < UINT32 && s.queueing + |packet| < UINT64
        case Queueing(rest) => s.sendings == [] && |rest| < UINT32 && s.queueing + |rest| < UINT64
        case Clearing => s.sendings == []
        case _ => true)
  }

  /** The kernel answers would-block to a packet left in the queue, when everything that `_queueing` counts was
      written by this flush call: the queue holds only empty packets, and its end clears `_sending`. */
  predicate Forgets(s: State, step: Step) {
    step == Send(Later) && s.lock.Flushing? && s.lock.written > 0 && s.queueing == s.lock.written
  }

  /** What holds as long as no answer has made the socket forget its queue: `_sending` is set, and stays. */
  predicate Alert(s: State) {
    && (match s.lock
        case Trying(_) => s.sending
        case Queueing(_) => s.sending
        case Clearing => true
        case Settling(written) => s.sendings != [] ==> s.sending && (written == 0 || s.queueing != written)
        case _ => s.sendings != [] ==> s.sending)
    && NoLostFlush(s)
  }

  /** What holds when no packet is empty: nothing but queued bytes keeps `_sending` set. */
  predicate Tight(s: State) {
    && (forall i :: 0 <= i < |s.sendings| ==> s.sendings[i] != [])
    && (match s.lock
        case Marking(packet) => packet != []
        case Trying(packet) => packet != []
        case Queueing(rest) => rest != []
        case _ => true)
    && (s.lock.Free? || s.lock.Marking? || s.lock.Flushing? || s.lock.Settling? ==>
          s.sending ==> s.sendings != [] || Unsettled(s) > 0 || Excess(s) > 0)
  }

  lemma {:induction false} ConcatAppend(a: seq<Bytes>, packet: Bytes)
    ensures Concat(a + [packet]) == Concat(a) + packet
  {
    if a == [] {
      assert a + [packet] == [packet];
    } else {
      assert (a + [packet])[1..] == a[1..] + [packet];
      ConcatAppend(a[1..], packet);
    }
  }

  /** The front packet is a part of what is queued. */
  lemma FrontIsQueued(packets: seq<Bytes>)
    requires packets != []
    ensures |Concat(packets)| >= |packets[0]|
  {
  }

  lemma NothingQueued()
    ensures Concat([]) == []
  {
  }

  lemma Split(wire: Bytes, packet: Bytes, sent: nat)
    requires sent <= |packet|
    ensures wire + packet == wire + packet[..sent] + packet[sent..]
    ensures wire + [] + packet == wire + packet && wire + [] == wire
    ensures sent == |packet| ==> packet[..sent] == packet
  {
  }

  /** `count` bytes of the front packet move to the wire. */
  lemma FrontMoves(wire: Bytes, front: Bytes, rest: seq<Bytes>, count: nat)
    requires count <= |front|
    ensures wire + Concat([front] + rest) == (wire + front[..count]) + Concat([front[count..]] + rest)
    ensures |Concat([front] + rest)| == count + |Concat([front[count..]] + rest)|
    ensures count == |front| ==> Concat([front[count..]] + rest) == Concat(rest)
  {
    assert ([front] + rest)[1..] == rest && ([front[count..]] + rest)[1..] == rest;
    assert front == front[..count] + front[count..];
  }

  // ---------------------------------------------------------------- every step, empty packets included

  /** A flush call has written 4 GiB at this step. */
  predicate Wraps(s: State, step: Step) {
    step.Send? && Enabled(s, step) && step.answer.Took? && s.lock.written + step.answer.count >= UINT32
  }

  lemma WriteKeepsBase(s: State, packet: Bytes)
    requires Base(s) && Enabled(s, Write(packet))
    ensures Base(Next(s, Write(packet))) && Excess(Next(s, Write(packet))) == Excess(s)
  {
    hide Concat;
    if s.sendings != [] {
      ConcatAppend(s.sendings, packet);
      assert s.wire + (Concat(s.sendings) + packet) == (s.wire + Concat(s.sendings)) + packet;
    }
  }

  lemma TryConserves(s: State, answer: Answer)
    requires Conserved(s) && s.sendings == [] && Enabled(s, Try(answer))
    ensures Conserved(Next(s, Try(answer)))
  {
    NothingQueued();
    hide Concat;
    var packet, sent := s.lock.packet, if answer.Took? then answer.count else 0;
    Split(s.wire, packet, sent);
    Split(s.wire, [], 0);
  }

  lemma TryKeepsBase(s: State, answer: Answer)
    requires Base(s) && Enabled(s, Try(answer))
    ensures Base(Next(s, Try(answer))) && Excess(Next(s, Try(answer))) == Excess(s)
  {
    TryConserves(s, answer);
    hide Concat, Conserved;
  }

  lemma EnqueueKeepsBase(s: State)
    requires Base(s) && Enabled(s, Enqueue)
    ensures Base(Next(s, Enqueue)) && Excess(Next(s, Enqueue)) == Excess(s)
  {
    NothingQueued();
    ConcatAppend([], s.lock.rest);
    hide Concat;
    assert s.sendings + [s.lock.rest] == [s.lock.rest];
    Split(s.wire, s.lock.rest, 0);
  }

  lemma SendConserves(s: State, answer: Answer)
    requires Conserved(s) && Enabled(s, Send(answer))
    ensures Conserved(Next(s, Send(answer)))
    ensures |Concat(Next(s, Send(answer)).sendings)| == |Concat(s.sendings)| - if answer.Took? then answer.count else 0
  {
    hide Concat;
    if answer.Took? {
      var front, rest := s.sendings[0], s.sendings[1..];
      assert s.sendings == [front] + rest;
      FrontMoves(s.wire, front, rest, answer.count);
    }
  }

  lemma SendKeepsBase(s: State, answer: Answer)
    requires Base(s) && Enabled(s, Send(answer))
    ensures Base(Next(s, Send(answer)))
    ensures Excess(Next(s, Send(answer))) == Excess(s) + if Wraps(s, Send(answer)) then UINT32 else 0
  {
    SendConserves(s, answer);
    SendKeepsSizes(s, answer);
    SentFields(s, answer);
    hide Next, Sent;
    if answer.Took? {
      assert |s.sendings[0]| < UINT32;
      Sum32(s.lock.written + answer.count);
    }
    hide Concat, Conserved, Small;
  }

  lemma SentFields(s: State, answer: Answer)
    requires Enabled(s, Send(answer))
    ensures var t := Next(s, Send(answer));
      && t.queueing == s.queueing && t.isOpened == s.isOpened && t.flushes == s.flushes
      && (t.lock.Flushing? || t.lock.Settling?)
      && t.lock.written == (if answer.Took? then (s.lock.written + answer.count) % UINT32 else s.lock.written)
  {
  }

  lemma Sum32(x: nat)
    requires x < 2 * UINT32
    ensures x % UINT32 == if x >= UINT32 then x - UINT32 else x
  {
  }

  lemma SendKeepsSizes(s: State, answer: Answer)
    requires Small(s.sendings) && Enabled(s, Send(answer))
    ensures Small(Next(s, Send(answer)).sendings)
  {
  }

  lemma StepKeepsBase(s: State, step: Step)
    requires Base(s) && Enabled(s, step)
    ensures Base(Next(s, step))
    ensures Excess(Next(s, step)) == Excess(s) + if Wraps(s, step) then UINT32 else 0
  {
    hide Concat;
    match step {
      case Write(packet) => WriteKeepsBase(s, packet);
      case Try(answer) => TryKeepsBase(s, answer);
      case Send(answer) => SendKeepsBase(s, answer);
      case Enqueue => EnqueueKeepsBase(s);
      case _ =>
    }
  }

  /** A partial send leaves bytes of the front packet in the queue. */
  lemma SendKeepsAlert(s: State, answer: Answer)
    requires Base(s) && Alert(s) && Enabled(s, Send(answer)) && !Forgets(s, Send(answer))
    ensures Alert(Next(s, Send(answer)))
  {
    var t := Next(s, Send(answer));
    SendKeepsBase(s, answer);
    if t.lock.Settling? && answer.Took? {
      FrontIsQueued(t.sendings);
    }
    hide Concat, Conserved;
  }

  lemma StepKeepsAlert(s: State, step: Step)
    requires Base(s) && Alert(s) && Enabled(s, step) && !Forgets(s, step)
    ensures Alert(Next(s, step))
  {
    match step {
      case Send(answer) => SendKeepsAlert(s, answer);
      case Settle => hide Concat, Conserved;
      case _ => hide Concat, Conserved, Counted;
    }
  }

  /** Without empty packets no answer makes the socket forget. */
  lemma TightRemembers(s: State, step: Step)
    requires Base(s) && Tight(s) && Enabled(s, step)
    ensures !Forgets(s, step)
  {
    if step == Send(Later) {
      FrontIsQueued(s.sendings);
    }
  }

  /** A partial send leaves a part of the front packet that is not empty. */
  lemma SendKeepsTight(s: State, answer: Answer)
    requires Base(s) && Tight(s) && Enabled(s, Send(answer))
    ensures Tight(Next(s, Send(answer)))
  {
    SendKeepsBase(s, answer);
    SendConserves(s, answer);
    NothingQueued();
    hide Concat, Conserved;
  }

  lemma StepKeepsTight(s: State, step: Step)
    requires Base(s) && Tight(s) && Enabled(s, step) && (step.Write? ==> step.packet != [])
    ensures Tight(Next(s, step))
  {
    NothingQueued();
    hide Concat, Conserved;
    match step {
      case Send(answer) => SendKeepsTight(s, answer);
      case Settle => StepKeepsBase(s, step);
      case _ =>
    }
  }

  // ---------------------------------------------------------------- whole runs

  predicate Runs(s: State, steps: seq<Step>)
    decreases |steps|, 0
  {
    steps == [] ||
    (var before := steps[..|steps| - 1];
     Runs(s, before) && Enabled(After(s, before), steps[|steps| - 1]))
  }

  function After(s: State, steps: seq<Step>): State
    requires Runs(s, steps)
    decreases |steps|, 1
  {
    if steps == [] then s else Next(After(s, steps[..|steps| - 1]), steps[|steps| - 1])
  }

  lemma {:induction false} RunKeepsBase(s: State, steps: seq<Step>)
    requires Base(s) && Runs(s, steps)
    ensures Base(After(s, steps))
  {
    hide Base, Enabled, Next;
    if steps != [] {
      var before := steps[..|steps| - 1];
      RunKeepsBase(s, before);
      StepKeepsBase(After(s, before), steps[|steps| - 1]);
    }
  }

  /** No answer of the kernel has made the socket forget its queue. */
  predicate Calm(s: State, steps: seq<Step>)
    requires Runs(s, steps)
  {
    steps == [] ||
    (var before := steps[..|steps| - 1];
     Calm(s, before) && !Forgets(After(s, before), steps[|steps| - 1]))
  }

  lemma {:induction false} RunKeepsAlert(s: State, steps: seq<Step>)
    requires Base(s) && Alert(s) && Runs(s, steps) && Calm(s, steps)
    ensures Alert(After(s, steps))
  {
    hide Base, Alert, Forgets, Enabled, Next;
    if steps != [] {
      var before := steps[..|steps| - 1];
      RunKeepsAlert(s, before);
      RunKeepsBase(s, before);
      StepKeepsAlert(After(s, before), steps[|steps| - 1]);
    }
  }

  lemma InitHolds()
    ensures Base(Init) && Alert(Init) && Tight(Init)
  {
    NothingQueued();
  }

  predicate WritesNonEmpty(steps: seq<Step>) {
    forall i :: 0 <= i < |steps| && steps[i].Write? ==> steps[i].packet != []
  }

  /** Runs without empty packets are calm. */
  lemma {:induction false} NonEmptyIsCalm(steps: seq<Step>)
    requires Runs(Init, steps) && WritesNonEmpty(steps)
    ensures Calm(Init, steps) && Tight(After(Init, steps))
  {
    hide Base, Tight, Forgets, Enabled, Next;
    InitHolds();
    if steps != [] {
      var before := steps[..|steps| - 1];
      NonEmptyIsCalm(before);
      RunKeepsBase(Init, before);
      TightRemembers(After(Init, before), steps[|steps| - 1]);
      StepKeepsTight(After(Init, before), steps[|steps| - 1]);
    }
  }

  /** On every run, empty packets included, the bytes on the wire followed by those queued are the accepted
      packets in order; as long as the run is calm, `_sending` is set while something waits. */
  lemma BytesConserved(steps: seq<Step>)
    requires Runs(Init, steps)
    ensures var s := After(Init, steps);
            && s.wire + Concat(s.sendings) + (if s.lock.Queueing? then s.lock.rest else []) == s.accepted
            && s.wire <= s.accepted
            && (Calm(Init, steps) && Waiting(s) ==> s.sending)
  {
    InitHolds();
    RunKeepsBase(Init, steps);
    if Calm(Init, steps) {
      RunKeepsAlert(Init, steps);
    }
    hide Concat;
  }

  /** Flush calls of the run that have written 4 GiB, counted once for each 4 GiB. */
  function WrapsIn(steps: seq<Step>): nat
    requires Runs(Init, steps)
  {
    if steps == [] then 0 else
      var before := steps[..|steps| - 1];
      WrapsIn(before) + if Wraps(After(Init, before), steps[|steps| - 1]) then 1 else 0
  }

  lemma {:induction false} ExcessOfRun(steps: seq<Step>)
    requires Runs(Init, steps)
    ensures Excess(After(Init, steps)) == UINT32 * WrapsIn(steps)
  {
    NothingQueued();
    InitHolds();
    if steps != [] {
      var before := steps[..|steps| - 1];
      ExcessOfRun(before);
      RunKeepsBase(Init, before);
      StepKeepsBase(After(Init, before), steps[|steps| - 1]);
      hide Excess, Base, Wraps, Next, Enabled;
    }
  }

  /** Between two calls `_queueing` is the number of queued bytes exactly when no flush call has written 4 GiB;
      then, if no packet was empty, `_sending` tells whether there are any. */
  lemma QueueingIsExact(steps: seq<Step>)
    requires Runs(Init, steps)
    ensures var s := After(Init, steps);
            && Excess(s) == UINT32 * WrapsIn(steps)
            && (s.lock.Free? ==> (s.queueing == |Concat(s.sendings)| <==> WrapsIn(steps) == 0))
            && (s.lock.Free? && WritesNonEmpty(steps) && WrapsIn(steps) == 0 ==> (s.sending <==> s.sendings != []))
  {
    InitHolds();
    ExcessOfRun(steps);
    if WritesNonEmpty(steps) {
      NonEmptyIsCalm(steps);
      RunKeepsAlert(Init, steps);
    }
    hide Concat, WrapsIn, Runs, After, Calm;
  }

  /** No thread can do anything, and the kernel has room. */
  ghost predicate Stuck(s: State) {
    forall step :: Enabled(s, step) ==> step.Write? || step.FalseEdge?
  }

  lemma StuckIsIdle(s: State)
    requires Stuck(s)
    ensures s.lock.Free? && !s.full && !s.edge && !s.testing && s.flushes == 0
  {
    assert !Enabled(s, Mark) && !Enabled(s, Try(Later)) && !Enabled(s, Enqueue) && !Enabled(s, Clear);
    assert !Enabled(s, StartFlush) && !Enabled(s, Send(Later)) && !Enabled(s, Emptied) && !Enabled(s, Settle);
    assert !Enabled(s, TakeEdge) && !Enabled(s, TestSending) && !Enabled(s, Room);
  }

  /** When no thread can do anything and the kernel has room, everything accepted is on the wire. */
  lemma NothingLeftBehind(steps: seq<Step>)
    requires Runs(Init, steps) && Calm(Init, steps)
    requires Stuck(After(Init, steps))
    ensures After(Init, steps).wire == After(Init, steps).accepted
  {
    InitHolds();
    RunKeepsAlert(Init, steps);
    RunKeepsBase(Init, steps);
    StuckIsIdle(After(Init, steps));
    NothingQueued();
    hide Stuck, Concat;
  }

  ghost predicate Reaches(origin: State, steps: seq<Step>, s: State) {
    Runs(origin, steps) && s == After(origin, steps)
  }

  lemma Take(origin: State, steps: seq<Step>, s: State, step: Step) returns (steps': seq<Step>, s': State)
    requires Reaches(origin, steps, s) && Enabled(s, step)
    ensures Reaches(origin, steps', s') && s' == Next(s, step)
  {
    steps', s' := steps + [step], Next(s, step);
    assert steps'[..|steps'| - 1] == steps;
  }

  // ---------------------------------------------------------------- the empty packet

  lemma TwoPacketsQueued() returns (r: seq<Step>, s: State)
    ensures Reaches(Init, r, s)
    ensures s == State([[1], []], 1, true, false, Free, false, 0, true, false, [], [1])
  {
    r, s := [], Init;
    r, s := Take(Init, r, s, Write([1]));
    r, s := Take(Init, r, s, Mark);
    r, s := Take(Init, r, s, Try(Later));
    assert s == State([], 0, true, false, Queueing([1]), false, 0, true, false, [], [1]);
    r, s := Take(Init, r, s, Enqueue);
    r, s := Take(Init, r, s, Write([]));
  }

  lemma FlushStarted() returns (r: seq<Step>, s: State)
    ensures Reaches(Init, r, s)
    ensures s == State([[1], []], 1, true, true, Flushing(0), false, 0, false, false, [], [1])
  {
    r, s := TwoPacketsQueued();
    r, s := Take(Init, r, s, Room);
    r, s := Take(Init, r, s, TakeEdge);
    r, s := Take(Init, r, s, TestSending);
    r, s := Take(Init, r, s, StartFlush);
  }

  /** An empty packet queued behind another one keeps the queue non-empty when `_queueing` reaches 0. */
  lemma EmptyPacketStays() returns (r: seq<Step>, s: State)
    ensures Reaches(Init, r, s)
    ensures s == State([[]], 0, false, true, Free, false, 0, true, false, [1], [1])
  {
    hide Reaches;
    r, s := FlushStarted();
    r, s := Take(Init, r, s, Send(Took(1)));
    assert [[1], []][1..] == [[]];
    assert s == State([[]], 1, true, true, Flushing(1), false, 0, false, false, [1], [1]);
    r, s := Take(Init, r, s, Send(Later));
    assert s == State([[]], 1, true, true, Settling(1), false, 0, true, false, [1], [1]);
    r, s := Take(Init, r, s, Settle);
  }

  /** Then the next packet is queued with `_sending` false and its writable edge is ignored. */
  lemma EmptyPacketLosesFlush() returns (r: seq<Step>)
    ensures Runs(Init, r) && !NoLostFlush(After(Init, r))
  {
    var s;
    r, s := EmptyPacketStays();
    r, s := Take(Init, r, s, Write([2]));
    r, s := Take(Init, r, s, Room);
    r, s := Take(Init, r, s, TakeEdge);
    r, s := Take(Init, r, s, TestSending);
  }

  // ---------------------------------------------------------------- which runs lose a flush

  ghost predicate CalmlyReaches(origin: State, steps: seq<Step>, s: State) {
    Runs(origin, steps) && s == After(origin, steps) && Calm(origin, steps)
  }

  lemma TakeCalmly(origin: State, steps: seq<Step>, s: State, step: Step) returns (steps': seq<Step>, s': State)
    requires CalmlyReaches(origin, steps, s) && Enabled(s, step) && !Forgets(s, step)
    ensures CalmlyReaches(origin, steps', s') && s' == Next(s, step)
  {
    steps', s' := steps + [step], Next(s, step);
    assert steps'[..|steps'| - 1] == steps;
  }

  /** The flushes already queued find the kernel full: they end without changing anything. */
  lemma {:induction false} FlushesEnd(origin: State, steps: seq<Step>, s: State) returns (steps': seq<Step>, s': State)
    requires CalmlyReaches(origin, steps, s) && s.lock.Free? && s.sendings != [] && s.full
    ensures CalmlyReaches(origin, steps', s') && s' == s.(flushes := 0)
    decreases s.flushes
  {
    hide CalmlyReaches;
    steps', s' := steps, s;
    if s.flushes > 0 {
      steps', s' := TakeCalmly(origin, steps', s', StartFlush);
      steps', s' := TakeCalmly(origin, steps', s', Send(Later));
      steps', s' := TakeCalmly(origin, steps', s', Settle);
      steps', s' := FlushesEnd(origin, steps', s');
    }
  }

  /** After a forgetful answer the socket can end with a queue that nobody will flush. */
  lemma ForgettingLosesFlush(s: State) returns (more: seq<Step>)
    requires Base(s) && Enabled(s, Send(Later)) && Forgets(s, Send(Later))
    ensures var u := Next(s, Send(Later));
      Runs(u, more) && Calm(u, more) && !NoLostFlush(After(u, more))
  {
    var u := Next(s, Send(Later));
    var t := u;
    more := [];
    assert CalmlyReaches(u, more, t);
    more, t := TakeCalmly(u, more, t, Settle);
    hide CalmlyReaches;
    if t.testing {
      more, t := TakeCalmly(u, more, t, TestSending);
    }
    more, t := FlushesEnd(u, more, t);
    more, t := TakeCalmly(u, more, t, Room);
    more, t := TakeCalmly(u, more, t, TakeEdge);
    more, t := TakeCalmly(u, more, t, TestSending);
    CalmlyReached(u, more, t);
  }

  lemma CalmlyReached(origin: State, steps: seq<Step>, s: State)
    requires CalmlyReaches(origin, steps, s)
    ensures Runs(origin, steps) && Calm(origin, steps) && s == After(origin, steps)
  {
  }

  /** The next step of a calm run opens the way to a lost flush, without any other such step, exactly when the
      kernel answers would-block to a queue whose counted bytes this flush call has all written. */
  lemma LosesFlushIff(steps: seq<Step>, step: Step)
    requires Runs(Init, steps) && Calm(Init, steps) && Enabled(After(Init, steps), step)
    ensures var u := Next(After(Init, steps), step);
      Forgets(After(Init, steps), step) <==> exists more :: Runs(u, more) && Calm(u, more) && !NoLostFlush(After(u, more))
  {
    var s := After(Init, steps);
    var u := Next(s, step);
    InitHolds();
    RunKeepsBase(Init, steps);
    RunKeepsAlert(Init, steps);
    StepKeepsBase(s, step);
    hide Base, Next;
    if Forgets(s, step) {
      var more := ForgettingLosesFlush(s);
    } else {
      StepKeepsAlert(s, step);
      forall more | Runs(u, more) && Calm(u, more)
        ensures NoLostFlush(After(u, more))
      {
        RunKeepsAlert(u, more);
      }
    }
  }

  /** On a calm run no flush is lost, empty packets or not. */
  lemma NoLostFlushWhenCalm(steps: seq<Step>)
    requires Runs(Init, steps) && Calm(Init, steps)
    ensures NoLostFlush(After(Init, steps))
  {
    InitHolds();
    RunKeepsAlert(Init, steps);
  }

  // ---------------------------------------------------------------- four gigabytes in one flush call

  /** Four packets of 1 GiB wait: the kernel tells what it took in an `int`, so none of them has 2 GiB. */
  lemma GigabytesQueued(p: Bytes) returns (r: seq<Step>, s: State)
    requires |p| == 0x4000_0000
    ensures Reaches(Init, r, s)
    ensures s.sendings == [p, p, p, p] && s.queueing == UINT32 && s.lock == Flushing(0) && !s.full
  {
    hide Reaches, Concat;
    r, s := [], Init;
    assert Reaches(Init, r, s) by { Start(); }
    r, s := Take(Init, r, s, Write(p));
    r, s := Take(Init, r, s, Mark);
    r, s := Take(Init, r, s, Try(Later));
    assert p[0..] == p;
    r, s := Take(Init, r, s, Enqueue);
    assert s.sendings == [p];
    r, s := Take(Init, r, s, Room);
    r, s := Take(Init, r, s, TakeEdge);
    r, s := Take(Init, r, s, TestSending);
    r, s := Again(r, s, p, [p]);
    r, s := Again(r, s, p, [p, p]);
    r, s := Again(r, s, p, [p, p, p]);
    r, s := Take(Init, r, s, StartFlush);
  }

  lemma Again(r: seq<Step>, s: State, p: Bytes, queue: seq<Bytes>) returns (r': seq<Step>, s': State)
    requires Reaches(Init, r, s) && s.lock.Free? && s.sendings == queue != []
    requires |p| == 0x4000_0000 && s.queueing <= UINT32
    ensures Reaches(Init, r', s')
    ensures s' == s.(sendings := queue + [p], queueing := s.queueing + |p|, accepted := s.accepted + p)
  {
    hide Reaches;
    r', s' := Take(Init, r, s, Write(p));
  }

  lemma Start()
    ensures Reaches(Init, [], Init)
  {
  }

  /** The kernel takes a front packet of 1 GiB. */
  lemma GigabyteSent(r: seq<Step>, s: State, p: Bytes, rest: seq<Bytes>) returns (r': seq<Step>, s': State)
    requires Reaches(Init, r, s) && s.lock.Flushing? && s.sendings == [p] + rest && !s.full && |p| == 0x4000_0000
    ensures Reaches(Init, r', s') && s'.sendings == rest && s'.queueing == s.queueing && !s'.full
    ensures s'.lock == Flushing((s.lock.written + 0x4000_0000) % UINT32)
  {
    hide Reaches;
    r', s' := Take(Init, r, s, Send(Took(0x4000_0000)));
    assert s.sendings[1..] == rest;
  }

  /** A flush call that writes 4 GiB leaves `_queueing` at 4 GiB with an empty queue. */
  lemma FourGigabytesStay() returns (r: seq<Step>, s: State)
    ensures Reaches(Init, r, s) && s.lock.Free? && s.sendings == [] && s.queueing == UINT32
    ensures Runs(Init, r) && WrapsIn(r) == 1
  {
    hide Reaches, Concat;
    var p: Bytes := seq(0x4000_0000, _ => 0);
    r, s := GigabytesQueued(p);
    r, s := GigabyteSent(r, s, p, [p, p, p]);
    r, s := GigabyteSent(r, s, p, [p, p]);
    r, s := GigabyteSent(r, s, p, [p]);
    r, s := GigabyteSent(r, s, p, []);
    r, s := Take(Init, r, s, Emptied);
    r, s := Take(Init, r, s, Settle);
    WrapsOnce(r, s);
  }

  lemma WrapsOnce(r: seq<Step>, s: State)
    requires Reaches(Init, r, s) && s.lock.Free? && s.sendings == [] && s.queueing == UINT32
    ensures Runs(Init, r) && WrapsIn(r) == 1
  {
    ExcessOfRun(r);
    NothingQueued();
    hide Concat, WrapsIn;
  }

  // ---------------------------------------------------------------- the code, one call at a time

  /** The socket and its kernel.  A method runs a function of the code without interruption; `steps` are the
      steps of the protocol that it takes. */
  class Socket {
    var sendings: seq<Bytes>
    var queueing: nat
    var sending: bool
    var isOpened: bool
    var flushes: nat
    var full: bool
    var edge: bool
    var wire: Bytes
    var accepted: Bytes

    function View(): State
      reads this
    {
      State(sendings, queueing, sending, isOpened, Free, false, flushes, full, edge, wire, accepted)
    }

    constructor ()
      ensures View() == Init
    {
      sendings, queueing, sending, isOpened := [], 0, false, false;
      flushes, full, edge, wire, accepted := 0, false, false, [], [];
    }

    /** `IOSocket::write` on a reported edge. */
    method OnWritable() returns (ghost steps: seq<Step>)
      requires edge
      modifies this`edge, this`isOpened, this`flushes
      ensures Reaches(old(View()), steps, View())
      ensures !edge && isOpened
      ensures flushes == old(flushes) + if !old(isOpened) || sending then 1 else 0
    {
      ghost var s := View();
      assert Reaches(s, [], s);
      hide Reaches;
      ghost var t;
      steps, t := Take(s, [], s, TakeEdge);
      steps, t := Take(s, steps, t, TestSending);
      edge := false;
      if !isOpened {
        isOpened := true;
      } else if !sending {
        return;
      }
      flushes := flushes + 1;
    }

    /** The part of `write` that sends, when nothing is queued. */
    method TryFirst(packet: Bytes, answer: Answer, ghost s: State, ghost before: seq<Step>)
      returns (sent: nat, ghost steps: seq<Step>)
      requires sendings == [] && Reaches(s, before, View().(lock := Trying(packet)))
      requires !answer.Fatal? && (answer.Took? ==> answer.count <= |packet| && !full)
      modifies this
      ensures Reaches(s, steps, View()) && sent == if answer.Took? then answer.count else 0
      ensures accepted == old(accepted) + packet && wire == old(wire) + packet[..sent]
      ensures if answer.Took? && sent == |packet| then
                !sending && sendings == [] && full == old(full) && queueing == old(queueing)
              else
                sending == old(sending) && sendings == [packet[sent..]] && full && queueing == old(queueing) + |packet| - sent
      ensures isOpened == old(isOpened) && flushes == old(flushes) && edge == old(edge)
    {
      hide Reaches;
      ghost var t;
      steps, t := Take(s, before, View().(lock := Trying(packet)), Try(answer));
      sent := if answer.Took? then answer.count else 0;
      wire, accepted := wire + packet[..sent], accepted + packet;
      if answer.Took? && sent >= |packet| {
        sending := false;
        steps, t := Take(s, steps, t, Clear);
        return;
      }
      full := true;
      sendings := sendings + [packet[sent..]];
      queueing := queueing + |packet[sent..]|;
      steps, t := Take(s, steps, t, Enqueue);
    }

    /** `write`: the number of bytes sent at once, or -1 when the packet is refused. */
    method Write(packet: Bytes, answer: Answer) returns (sent: int, ghost steps: seq<Step>)
      requires |packet| < UINT32 && queueing + |packet| < UINT64
      requires answer.Took? ==> answer.count <= |packet| && !full
      modifies this
      ensures answer.Fatal? && old(sendings) == [] ==> sent == -1 && View() == old(View()).(sending := false)
      ensures !answer.Fatal? || old(sendings) != [] ==>
                && Reaches(old(View()), steps, View())
                && sent == (if old(sendings) == [] && answer.Took? then answer.count else 0)
                && accepted == old(accepted) + packet && wire == old(wire) + packet[..sent]
                && sendings == old(sendings)
                               + (if old(sendings) == [] && answer.Took? && sent == |packet| then [] else [packet[sent..]])
                && queueing == old(queueing) + |packet| - sent
                && (old(sendings) == [] ==> sending == (sendings != []) && full == (old(full) || sendings != []))
                && (old(sendings) != [] ==> sending == old(sending) && full == old(full))
      ensures isOpened == old(isOpened) && flushes == old(flushes) && edge == old(edge)
    {
      ghost var s, t := View(), View();
      steps := [];
      assert Reaches(s, [], s);
      hide Reaches;
      if sendings != [] {
        steps, t := Take(s, steps, s, Step.Write(packet));
        sendings, accepted := sendings + [packet], accepted + packet;
        queueing := queueing + |packet|;
        return 0, steps;
      }
      sending := true;
      if answer.Fatal? {
        sending := false;
        return -1, steps;
      }
      steps, t := Take(s, steps, s, Step.Write(packet));
      steps, t := Take(s, steps, t, Mark);
      sent, steps := TryFirst(packet, answer, s, steps);
    }

    /** One turn of the loop of `flush`; `more` tells whether the loop goes on. */
    method SendFront(answer: Answer, written: uint32, ghost s: State, ghost before: seq<Step>)
      returns (more: bool, written': uint32, ghost steps: seq<Step>)
      requires sendings != [] && !answer.Fatal? && (full ==> !answer.Took?)
      requires Reaches(s, before, View().(lock := Flushing(written)))
      modifies this
      ensures Reaches(s, steps, View().(lock := if more then Flushing(written') else Settling(written')))
      ensures wire + Concat(sendings) == old(wire + Concat(sendings)) && accepted == old(accepted)
      ensures Turned(answer, old(sendings)[0], old(wire), old(sendings)[1..], more, wire, sendings)
      ensures written' == (written + |wire| - |old(wire)|) % UINT32 && full == (old(full) || !more)
      ensures more ==> sendings == old(sendings)[1..] && !full
      ensures queueing == old(queueing) && sending == old(sending)
      ensures isOpened == old(isOpened) && flushes == old(flushes) && edge == old(edge)
    {
      hide Reaches, Concat;
      ghost var t;
      var front, rest := sendings[0], sendings[1..];
      ghost var u := View().(lock := Flushing(written));
      assert sendings == [front] + rest;
      if answer.Later? {
        steps, t := Take(s, before, u, Send(Later));
        full := true;
        return false, written, steps;
      }
      var count := if answer.count < |front| then answer.count else |front|;
      FrontMoves(wire, front, rest, count);
      steps, t := Take(s, before, u, Send(Took(count)));
      wire := wire + front[..count];
      written' := (written + count) % UINT32;
      if count < |front| {
        sendings := [front[count..]] + rest;
        full := true;
        return false, written', steps;
      }
      sendings := rest;
      return true, written', steps;
    }

    /** The end of `flush`. */
    method SettleWritten(written: uint32, ghost s: State, ghost before: seq<Step>) returns (ghost steps: seq<Step>)
      requires Reaches(s, before, View().(lock := Settling(written)))
      modifies this`queueing, this`sending
      ensures Reaches(s, steps, View())
      ensures queueing == if written == 0 then old(queueing) else (old(queueing) - written) % UINT64
      ensures sending == (old(sending) && (written == 0 || queueing != 0))
    {
      hide Reaches;
      ghost var t;
      steps, t := Take(s, before, View().(lock := Settling(written)), Settle);
      if written != 0 {
        queueing := (queueing - written) % UINT64;
        if queueing == 0 {
          sending := false;
        }
      }
    }

    /** `flush` in a Send runner; the kernel gives its k-th answer of this call for what it is given.  The first
        `whole` packets go to the wire; then the queue is empty, or an answer took a part of the next packet, or
        nothing. */
    method Flush(answers: nat -> Answer) returns (ok: bool, ghost whole: nat, ghost steps: seq<Step>)
      requires flushes > 0
      requires full ==> !answers(0).Took?
      modifies this
      ensures Delivered(answers, old(sendings), old(wire), whole, wire, sendings)
      ensures ok <==> whole == |old(sendings)| || !answers(whole).Fatal?
      ensures ok ==> var written := (|wire| - |old(wire)|) % UINT32;
        && queueing == (if written == 0 then old(queueing) else (old(queueing) - written) % UINT64)
        && sending == (old(sending) && (written == 0 || queueing != 0))
        && full == (old(full) || sendings != [])
      ensures !ok ==> queueing == old(queueing) && sending == old(sending)
      ensures flushes == old(flushes) - 1
      ensures isOpened == old(isOpened) && edge == old(edge)
      ensures ok ==> Reaches(old(View()), steps, View())
      ensures wire + Concat(sendings) == old(wire + Concat(sendings)) && accepted == old(accepted)
    {
      hide Reaches, Concat, Delivered, Enabled, Next;
      ghost var s := View();
      steps := LockForFlush();
      var written;
      ok, written, whole, steps := SendAll(answers, s, steps);
      if ok {
        steps := SettleWritten(written, s, steps);
      }
    }

    method LockForFlush() returns (ghost steps: seq<Step>)
      requires flushes > 0
      modifies this`flushes
      ensures flushes == old(flushes) - 1 && Reaches(old(View()), steps, View().(lock := Flushing(0)))
    {
      ghost var s, t := View(), View();
      assert Reaches(s, [], s);
      hide Reaches;
      steps, t := Take(s, [], s, StartFlush);
      flushes := flushes - 1;
    }

    /** The loop of `flush`. */
    method SendAll(answers: nat -> Answer, ghost s: State, ghost before: seq<Step>)
      returns (ok: bool, written: uint32, ghost whole: nat, ghost steps: seq<Step>)
      requires Reaches(s, before, View().(lock := Flushing(0)))
      requires full ==> !answers(0).Took?
      modifies this
      ensures Delivered(answers, old(sendings), old(wire), whole, wire, sendings)
      ensures ok <==> whole == |old(sendings)| || !answers(whole).Fatal?
      ensures wire + Concat(sendings) == old(wire + Concat(sendings)) && accepted == old(accepted)
      ensures ok ==> written == (|wire| - |old(wire)|) % UINT32 && full == (old(full) || sendings != [])
      ensures ok ==> Reaches(s, steps, View().(lock := Settling(written)))
      ensures queueing == old(queueing) && sending == old(sending) && flushes == old(flushes)
      ensures isOpened == old(isOpened) && edge == old(edge)
    {
      hide Reaches, Concat, Flushed, Turned, TakesAll, Delivered;
      ghost var queue, was := sendings, wire;
      ghost var total := wire + Concat(sendings);
      var k := 0;
      var more := true;
      ok, written, whole, steps := true, 0, 0, before;
      Unflushed(answers, wire, sendings);
      while more && sendings != []
        invariant Reaches(s, steps, View().(lock := if more then Flushing(written) else Settling(written)))
        invariant wire + Concat(sendings) == total && accepted == old(accepted)
        invariant more && full ==> !answers(k).Took?
        invariant Flushed(answers, queue, was, whole, more, wire, sendings) && (more ==> k == whole)
        invariant !more ==> whole < |queue| && !answers(whole).Fatal?
        invariant written == (|wire| - |was|) % UINT32 && full == (old(full) || !more)
        invariant queueing == old(queueing) && sending == old(sending) && flushes == old(flushes)
        invariant isOpened == old(isOpened) && edge == old(edge)
        decreases more, |sendings|
      {
        Front(answers, queue, was, whole, wire, sendings);
        if answers(k).Fatal? {
          Refused(answers, queue, was, whole, wire, sendings);
          PartFlushed(answers, queue, was, whole, wire, sendings);
          return false, written, whole, steps;
        }
        ghost var mid, sum := wire, written;
        more, written, steps := SendFront(answers(k), written, s, steps);
        FrontTurned(answers, queue, was, mid, whole, more, wire, sendings);
        AddWritten(sum, |mid| - |was|, |wire| - |mid|);
        k, whole := k + 1, if more then whole + 1 else whole;
      }
      if more {
        AllFlushed(answers, queue, was, whole, wire, sendings);
        ghost var t;
        steps, t := Take(s, steps, View().(lock := Flushing(written)), Emptied);
      } else {
        PartFlushed(answers, queue, was, whole, wire, sendings);
      }
    }
  }

  lemma AddWritten(written: uint32, x: int, y: int)
    requires written == x % UINT32
    ensures (written + y) % UINT32 == (x + y) % UINT32
  {
  }

  lemma Refused(answers: nat -> Answer, queue: seq<Bytes>, before: Bytes, whole: nat, wire: Bytes, sendings: seq<Bytes>)
    requires Flushed(answers, queue, before, whole, true, wire, sendings) && sendings != [] && answers(whole).Fatal?
    ensures Flushed(answers, queue, before, whole, false, wire, sendings)
  {
    hide Concat;
    Front(answers, queue, before, whole, wire, sendings);
  }

  /** What an answer for the front packet leaves: a prefix of it is on the wire, and the loop goes on exactly
      when this is all of it. */
  predicate Turned(answer: Answer, front: Bytes, before: Bytes, rest: seq<Bytes>, more: bool, wire: Bytes, sendings: seq<Bytes>)
  {
    if answer.Took? && answer.count >= |front| then more && wire == before + front && sendings == rest
    else
      var count := if answer.Took? then answer.count else 0;
      !more && wire == before + front[..count] && sendings == [front[count..]] + rest
  }

  /** What a flush has done to `queue`: the first `whole` packets are on the wire, behind `before`, and, when the
      loop has stopped, what its last answer took of the next one. */
  predicate Flushed(answers: nat -> Answer, queue: seq<Bytes>, before: Bytes, whole: nat, more: bool, wire: Bytes,
                    sendings: seq<Bytes>)
  {
    && whole <= |queue| && (forall i :: 0 <= i < whole ==> TakesAll(answers(i), queue[i]))
    && if more then sendings == queue[whole..] && wire == before + Concat(queue[..whole])
       else
         && whole < |queue| && !TakesAll(answers(whole), queue[whole])
         && var part := if answers(whole).Took? then answers(whole).count else 0;
         && wire == before + Concat(queue[..whole]) + queue[whole][..part]
         && sendings == [queue[whole][part..]] + queue[whole + 1..]
  }

  lemma Unflushed(answers: nat -> Answer, wire: Bytes, sendings: seq<Bytes>)
    ensures Flushed(answers, sendings, wire, 0, true, wire, sendings)
  {
    NothingQueued();
    assert sendings[..0] == [] && sendings[0..] == sendings;
  }

  lemma Front(answers: nat -> Answer, queue: seq<Bytes>, before: Bytes, whole: nat, wire: Bytes, sendings: seq<Bytes>)
    requires Flushed(answers, queue, before, whole, true, wire, sendings) && sendings != []
    ensures whole < |queue| && sendings[0] == queue[whole] && sendings[1..] == queue[whole + 1..]
    ensures wire == before + Concat(queue[..whole]) + queue[whole][..0]
    ensures sendings == [queue[whole][0..]] + queue[whole + 1..]
    ensures forall i :: 0 <= i < whole ==> TakesAll(answers(i), queue[i])
  {
    hide Concat;
  }

  lemma FrontTurned(answers: nat -> Answer, queue: seq<Bytes>, before: Bytes, mid: Bytes, whole: nat, more: bool, wire: Bytes, sendings: seq<Bytes>)
    requires whole < |queue| && forall i :: 0 <= i < whole ==> TakesAll(answers(i), queue[i])
    requires mid == before + Concat(queue[..whole]) + queue[whole][..0]
    requires Turned(answers(whole), queue[whole], mid, queue[whole + 1..], more, wire, sendings)
    ensures Flushed(answers, queue, before, if more then whole + 1 else whole, more, wire, sendings)
  {
    PrefixGrows(before, queue, whole);
    hide Concat;
  }

  lemma AllFlushed(answers: nat -> Answer, queue: seq<Bytes>, before: Bytes, whole: nat, wire: Bytes, sendings: seq<Bytes>)
    requires Flushed(answers, queue, before, whole, true, wire, sendings) && sendings == []
    ensures whole == |queue| && Delivered(answers, queue, before, whole, wire, sendings)
  {
    hide Concat;
    assert |queue[whole..]| == |queue| - whole;
    assert queue[..|queue|] == queue;
  }

  lemma PartFlushed(answers: nat -> Answer, queue: seq<Bytes>, before: Bytes, whole: nat, wire: Bytes, sendings: seq<Bytes>)
    requires Flushed(answers, queue, before, whole, false, wire, sendings)
    ensures whole < |queue| && sendings != [] && Delivered(answers, queue, before, whole, wire, sendings)
  {
    hide Concat;
  }

  /** What a flush does to the queue it finds: the answers take its first `whole` packets, and all the queue or not the
      next one.  The wire gets these packets and what was taken of the next one, and the rest is queued. */
  predicate Delivered(answers: nat -> Answer, queue: seq<Bytes>, before: Bytes, whole: nat, wire: Bytes, sendings: seq<Bytes>) {
    && whole <= |queue| && (forall i :: 0 <= i < whole ==> TakesAll(answers(i), queue[i]))
    && if whole == |queue| then wire == before + Concat(queue) && sendings == []
       else
         var part := if answers(whole).Took? then answers(whole).count else 0;
         && part <= |queue[whole]| && !TakesAll(answers(whole), queue[whole])
         && wire == before + Concat(queue[..whole]) + queue[whole][..part]
         && sendings == [queue[whole][part..]] + queue[whole + 1..]
  }

  predicate TakesAll(answer: Answer, packet: Bytes) { answer.Took? && answer.count >= |packet| }

  lemma PrefixGrows(wire: Bytes, queue: seq<Bytes>, n: nat)
    requires n < |queue|
    ensures Concat(queue[..n + 1]) == Concat(queue[..n]) + queue[n]
    ensures wire + Concat(queue[..n]) + queue[n] == wire + Concat(queue[..n + 1])
  {
    assert queue[..n + 1] == queue[..n] + [queue[n]];
    ConcatAppend(queue[..n], queue[n]);
  }
}
