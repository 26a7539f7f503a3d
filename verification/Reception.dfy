/** Flow control of socket reception: the atomic steps of `IOSocket::read`, of its nested
    `Receive`/`Accept` runners and of their `Handle`s, interleaved in every possible way.

    Three threads share two counters.  The IO thread turns readable edges into queued runners, the
    receive thread drains the socket into handles, the handler thread consumes the handles.
    `reading` is the 8-bit gate, `receiving` the 32-bit amount handed over and not yet consumed.
    Instantiated with `limit == recvBufferSize` this is `Receive`; with `limit == BACKLOG_MAX` and
    handles of size 1 it is `Accept`. */
module Reception {

  const UINT8: int := 0x100
  const UINT32: int := 0x1_0000_0000
  type uint8 = x: nat | x < UINT8
  type uint32 = x: nat | x < UINT32
  const BACKLOG_MAX := 200

  /** `limit` is recvBufferSize (or BACKLOG_MAX), `maxChunk` the largest size of one handle. */
  datatype Config = Config(limit: nat, maxChunk: nat) {
    /** What may be in flight without any armed handle. */
    function Slack(): nat { if limit > 0 then limit - 1 else 0 }

    /** The most that is ever in flight: it fits in the 32 bits of the counter. */
    function Ceiling(): nat { Slack() + 2 * maxChunk }

    predicate Valid() { Ceiling() < UINT32 }
  }

  /** A handle given to the handler thread; `armed` means that its `_pThread` is set. */
  datatype Handle = Handle(size: nat, armed: bool)

  /** IO thread, in `read`: before the event, before the test, before the increment, before the queueing. */
  datatype IoPc = Polling | Testing | Passed | Counted

  /** Receive thread, in `process` and in the constructor of the handle. */
  datatype DrainPc = Idle | Entered | Draining | Built(size: nat) | Added(handle: Handle) | Armed(handle: Handle)

  /** Handler thread, in `handle`. */
  datatype HandlerPc = Free | Consuming(handle: Handle) | Rearming | Releasing

  datatype State = State(
    avail: nat,            // units readable in the kernel
    edge: bool,            // readable edge not yet reported
    io: IoPc,
    reading: uint8,        // std::atomic<uint8_t> _reading
    receiving: uint32,     // std::atomic<uint32_t> _receiving
    queued: nat,           // Receive runners queued on the receive thread
    drain: DrainPc,
    pending: seq<Handle>,  // handles queued on the handler thread
    handler: HandlerPc)

  datatype Step =
    | Arrive(units: nat)                   // kernel: data comes in, the edge is raised
    | TakeEdge                             // IO thread: the event is reported
    | TestGate                             // if(_reading) return
    | CountGate                            // ++_reading
    | Post                                 // threadPool.queue<Receive>
    | Start                                // receive thread: next runner
    | Enter                                // if(!_reading--) return
    | Receive(units: nat, size: nat)       // receive() gives data
    | Capture(units: nat)                  // the decoder keeps the buffer
    | WouldBlock                           // NET_EWOULDBLOCK
    | Add                                  // _receiving += size, compared with the limit
    | Arm                                  // _pThread = Current, ++_reading
    | HandOver                             // _pHandler->queue
    | Pop                                  // handler thread: next handle, onReceived
    | Settle                               // _receiving -= size, compared with the limit
    | Rearm                                // _pThread->queue<Receive>
    | Release                              // --_reading

  const Init := State(0, false, Polling, 0, 0, 0, Idle, [], Free)

  predicate Enabled(c: Config, s: State, step: Step) {
    match step
    case Arrive(units) => units > 0
    case TakeEdge => s.edge && s.io.Polling?
    case TestGate => s.io.Testing?
    case CountGate => s.io.Passed?
    case Post => s.io.Counted?
    case Start => s.drain.Idle? && s.queued > 0
    case Enter => s.drain.Entered?
    case Receive(units, size) => s.drain.Draining? && 0 < units <= s.avail && size <= c.maxChunk
    case Capture(units) => s.drain.Draining? && 0 < units <= s.avail
    case WouldBlock => s.drain.Draining? && s.avail == 0
    case Add => s.drain.Built?
    case Arm => s.drain.Added? && s.drain.handle.armed
    case HandOver => (s.drain.Added? && !s.drain.handle.armed) || s.drain.Armed?
    case Pop => s.handler.Free? && s.pending != []
    case Settle => s.handler.Consuming?
    case Rearm => s.handler.Rearming?
    case Release => s.handler.Releasing?
  }

  function Inc8(x: uint8): uint8 { if x == UINT8 - 1 then 0 else x + 1 }
  function Dec8(x: uint8): uint8 { if x == 0 then UINT8 - 1 else x - 1 }
  function Add32(x: uint32, n: nat): uint32 { (x + n) % UINT32 }
  function Sub32(x: uint32, n: nat): uint32 { (x - n) % UINT32 }

  function Next(c: Config, s: State, step: Step): State
    requires Enabled(c, s, step)
  {
    match step
    case Arrive(units) => s.(avail := s.avail + units, edge := true)
    case TakeEdge => s.(edge := false, io := Testing)
    case TestGate => s.(io := if s.reading != 0 then Polling else Passed)
    case CountGate => s.(reading := Inc8(s.reading), io := Counted)
    case Post => s.(queued := s.queued + 1, io := Polling)
    case Start => s.(queued := s.queued - 1, drain := Entered)
    case Enter => s.(reading := Dec8(s.reading), drain := if s.reading == 0 then Idle else Draining)
    case Receive(units, size) => s.(avail := s.avail - units, drain := Built(size))
    case Capture(units) => s.(avail := s.avail - units)
    case WouldBlock => s.(drain := Idle)
    case Add =>
      var total := Add32(s.receiving, s.drain.size);
      s.(receiving := total, drain := Added(Handle(s.drain.size, total >= c.limit)))
    case Arm => s.(reading := Inc8(s.reading), drain := Armed(s.drain.handle))
    case HandOver => s.(pending := s.pending + [s.drain.handle], drain := if s.drain.Armed? then Idle else Draining)
    case Pop => s.(pending := s.pending[1..], handler := Consuming(s.pending[0]))
    case Settle =>
      var total := Sub32(s.receiving, s.handler.handle.size);
      s.(receiving := total,
         handler := if !s.handler.handle.armed then Free else if total < c.limit then Rearming else Releasing)
    case Rearm => s.(queued := s.queued + 1, handler := Free)
    case Release => s.(reading := Dec8(s.reading), handler := Free)
  }

  // ---------------------------------------------------------------- the invariant

  function Total(handles: seq<Handle>): (total: nat) {
    if handles == [] then 0 else handles[0].size + Total(handles[1..])
  }

  function ArmedIn(handles: seq<Handle>): (count: nat) {
    if handles == [] then 0 else (if handles[0].armed then 1 else 0) + ArmedIn(handles[1..])
  }

  /** The handles whose size is counted in `receiving`, oldest first: the one being consumed, the
      queued ones and the one under construction. */
  function InFlight(s: State): seq<Handle> {
    (if s.handler.Consuming? then [s.handler.handle] else [])
    + s.pending
    + (if s.drain.Added? || s.drain.Armed? then [s.drain.handle] else [])
  }

  /** Everything that owns one unit of `reading`. */
  function Tokens(s: State): nat {
    (if s.io.Counted? then 1 else 0)
    + s.queued
    + (if s.drain.Entered? || s.drain.Armed? then 1 else 0)
    + ArmedIn(s.pending)
    + (if s.handler.Rearming? || s.handler.Releasing? || (s.handler.Consuming? && s.handler.handle.armed) then 1 else 0)
  }

  /** A drain that has given its token back, or an IO thread that is about to create one. */
  function Promises(s: State): nat {
    (if s.drain.Draining? || s.drain.Built? || s.drain.Added? then 1 else 0)
    + (if s.io.Passed? then 1 else 0)
  }

  /** What the armed handles may add above the limit. */
  function Excess(c: Config, handles: seq<Handle>): nat {
    if handles == [] then 0 else (if handles[0].armed then c.maxChunk else 0) + Excess(c, handles[1..])
  }

  /** Counting from any handle on, what is in flight exceeds the limit only by the armed handles. */
  predicate Bounded(c: Config, handles: seq<Handle>) {
    handles == [] || (Total(handles) <= c.Slack() + Excess(c, handles) && Bounded(c, handles[1..]))
  }

  /** Above the limit, the youngest handle in flight is armed. */
  predicate LastArmed(c: Config, handles: seq<Handle>) {
    handles != [] && Total(handles) >= c.limit ==> handles[|handles| - 1].armed
  }

  /** The gate counts its owners. */
  predicate Gate(s: State) {
    && s.reading == Tokens(s)
    && Tokens(s) + Promises(s) <= 2
    && (s.drain.Armed? ==> s.drain.handle.armed)
  }

  predicate Inv(c: Config, s: State) {
    && Gate(s)
    && s.receiving == Total(InFlight(s))
    && (s.drain.Built? ==> s.drain.size <= c.maxChunk)
    && Bounded(c, InFlight(s))
    && LastArmed(c, InFlight(s))
    && (c.limit > 0 && s.handler.Releasing? ==> ArmedIn(InFlight(s)) > 0)
  }

  /** Some thread will look at the kernel again. */
  predicate Awake(s: State) {
    s.edge || !s.io.Polling? || s.queued > 0 || !s.drain.Idle? || ArmedIn(InFlight(s)) > 0 || s.handler.Rearming?
  }

  predicate NoLostWakeUp(s: State) {
    s.avail > 0 ==> Awake(s)
  }

  // ---------------------------------------------------------------- lemmas on handle sequences

  lemma {:induction false} Append(c: Config, a: seq<Handle>, b: seq<Handle>)
    ensures Total(a + b) == Total(a) + Total(b)
    ensures ArmedIn(a + b) == ArmedIn(a) + ArmedIn(b)
    ensures Excess(c, a + b) == Excess(c, a) + Excess(c, b)
  {
    if a == [] {
      assert a + b == b;
    } else {
      assert (a + b)[1..] == a[1..] + b;
      Append(c, a[1..], b);
    }
  }

  lemma AppendOne(c: Config, f: seq<Handle>, h: Handle)
    ensures Total(f + [h]) == Total(f) + h.size
    ensures ArmedIn(f + [h]) == ArmedIn(f) + if h.armed then 1 else 0
    ensures Excess(c, f + [h]) == Excess(c, f) + if h.armed then c.maxChunk else 0
  {
    Append(c, f, [h]);
  }

  lemma {:induction false} ExcessCounts(c: Config, f: seq<Handle>)
    ensures Excess(c, f) == c.maxChunk * ArmedIn(f)
  {
    if f != [] {
      ExcessCounts(c, f[1..]);
    }
  }

  lemma InFlightSums(c: Config, s: State)
    ensures ArmedIn(InFlight(s)) == (if s.handler.Consuming? && s.handler.handle.armed then 1 else 0)
                                    + ArmedIn(s.pending)
                                    + (if (s.drain.Added? || s.drain.Armed?) && s.drain.handle.armed then 1 else 0)
    ensures Total(InFlight(s)) == (if s.handler.Consuming? then s.handler.handle.size else 0)
                                  + Total(s.pending)
                                  + (if s.drain.Added? || s.drain.Armed? then s.drain.handle.size else 0)
  {
    var first := if s.handler.Consuming? then [s.handler.handle] else [];
    var last := if s.drain.Added? || s.drain.Armed? then [s.drain.handle] else [];
    Append(c, first + s.pending, last);
    Append(c, first, s.pending);
  }

  /** At most two chunks above the limit, one when a drain is still running. */
  lemma ReceivingBound(c: Config, s: State)
    requires Inv(c, s)
    ensures s.receiving == Total(InFlight(s)) <= c.Ceiling()
    ensures s.drain.Built? ==> s.receiving <= c.Slack() + c.maxChunk
  {
    hide Total, Excess, ArmedIn, InFlight, LastArmed;
    var f := InFlight(s);
    ArmedInFlight(s);
    ExcessCounts(c, f);
    NoHandle();
    Times(c.maxChunk, ArmedIn(f));
  }

  /** The armed handles in flight hold units of the gate. */
  lemma ArmedInFlight(s: State)
    requires Gate(s)
    ensures ArmedIn(InFlight(s)) <= 2
    ensures s.drain.Built? ==> ArmedIn(InFlight(s)) <= 1
  {
    InFlightSums(Config(0, 0), s);
    hide ArmedIn, InFlight;
  }

  lemma Times(chunk: nat, n: nat)
    ensures n <= 1 ==> chunk * n <= chunk
    ensures n <= 2 ==> chunk * n <= 2 * chunk
  {
    assert n == 0 || n == 1 || n == 2 || n > 2;
  }

  /** A handle joins the ones in flight: it is armed exactly when the new total reaches the limit. */
  lemma {:induction false} PushKeeps(c: Config, f: seq<Handle>, h: Handle)
    requires Bounded(c, f) && h.size <= c.maxChunk
    requires !h.armed ==> Total(f) + h.size < c.limit
    ensures Bounded(c, f + [h])
  {
    if f == [] {
      assert f + [h] == [h];
    } else {
      Append(c, f, [h]);
      assert (f + [h])[1..] == f[1..] + [h];
      PushKeeps(c, f[1..], h);
    }
  }

  lemma OldestLeaves(c: Config, h: Handle, f: seq<Handle>)
    requires Bounded(c, [h] + f) && LastArmed(c, [h] + f)
    ensures Bounded(c, f) && LastArmed(c, f) && Total([h] + f) == h.size + Total(f)
    ensures ArmedIn([h] + f) == ArmedIn(f) + if h.armed then 1 else 0
  {
    assert ([h] + f)[1..] == f;
  }

  lemma ArmedLast(c: Config, f: seq<Handle>)
    requires f != [] && f[|f| - 1].armed
    ensures ArmedIn(f) > 0
  {
    var last := f[|f| - 1];
    assert f == f[..|f| - 1] + [last];
    Append(c, f[..|f| - 1], [last]);
    assert ArmedIn([last]) == 1;
  }

  // ---------------------------------------------------------------- every step keeps the invariant

  lemma AddExact(x: uint32, n: nat)
    requires x + n < UINT32
    ensures Add32(x, n) == x + n
  {
  }

  lemma SubExact(x: uint32, n: nat)
    requires n <= x
    ensures Sub32(x, n) == x - n
  {
  }

  lemma AddKeepsInv(c: Config, s: State)
    requires c.Valid() && Inv(c, s) && s.drain.Built?
    ensures Inv(c, Next(c, s, Add))
  {
    hide Total, ArmedIn, Excess, Bounded;
    var f, h := InFlight(s), Next(c, s, Add).drain.handle;
    ReceivingBound(c, s);
    AddExact(s.receiving, s.drain.size);
    hide Add32;
    AppendOne(c, f, h);
    assert InFlight(Next(c, s, Add)) == f + [h];
    PushKeeps(c, f, h);
  }

  lemma SettleKeepsInv(c: Config, s: State)
    requires c.Valid() && Inv(c, s) && s.handler.Consuming?
    ensures Inv(c, Next(c, s, Settle))
    ensures c.limit > 0 && Next(c, s, Settle).handler.Releasing? ==> ArmedIn(InFlight(Next(c, s, Settle))) > 0
    ensures ArmedIn(InFlight(s)) == ArmedIn(InFlight(Next(c, s, Settle))) + if s.handler.handle.armed then 1 else 0
  {
    hide Total, ArmedIn, Excess, Bounded, LastArmed;
    var f, h := InFlight(Next(c, s, Settle)), s.handler.handle;
    SettleFlight(c, s);
    OldestLeaves(c, h, f);
    SubExact(s.receiving, h.size);
    hide Sub32, InFlight;
    if c.limit > 0 && Total(f) >= c.limit {
      FullMeansArmed(c, f);
    }
  }

  lemma SettleFlight(c: Config, s: State)
    requires s.handler.Consuming?
    ensures InFlight(s) == [s.handler.handle] + InFlight(Next(c, s, Settle))
  {
  }

  lemma FullMeansArmed(c: Config, f: seq<Handle>)
    requires c.limit > 0 && LastArmed(c, f) && Total(f) >= c.limit
    ensures ArmedIn(f) > 0
  {
    NoHandle();
    hide Total, ArmedIn;
    ArmedLast(c, f);
  }

  lemma NoHandle()
    ensures Total([]) == 0 && ArmedIn([]) == 0
  {
  }

  lemma HandOverKeepsInv(c: Config, s: State)
    requires Inv(c, s) && Enabled(c, s, HandOver)
    ensures Inv(c, Next(c, s, HandOver))
    ensures InFlight(Next(c, s, HandOver)) == InFlight(s)
  {
    var t := Next(c, s, HandOver);
    HandOverKeepsGate(c, s);
    var first := if s.handler.Consuming? then [s.handler.handle] else [];
    assert first + (s.pending + [s.drain.handle]) + [] == first + s.pending + [s.drain.handle];
    assert InFlight(t) == InFlight(s);
    hide Gate, InFlight, Total, ArmedIn, Bounded, LastArmed;
  }

  lemma HandOverKeepsGate(c: Config, s: State)
    requires Gate(s) && Enabled(c, s, HandOver)
    ensures Gate(Next(c, s, HandOver))
  {
    AppendOne(c, s.pending, s.drain.handle);
    hide ArmedIn, Total, Excess;
  }

  lemma PopKeepsInv(c: Config, s: State)
    requires Inv(c, s) && Enabled(c, s, Pop)
    ensures Inv(c, Next(c, s, Pop))
    ensures InFlight(Next(c, s, Pop)) == InFlight(s)
  {
    var t := Next(c, s, Pop);
    assert InFlight(t) == InFlight(s);
  }

  lemma StepKeepsInv(c: Config, s: State, step: Step)
    requires c.Valid() && Inv(c, s) && Enabled(c, s, step)
    ensures Inv(c, Next(c, s, step))
  {
    hide Total, ArmedIn, Excess, Bounded, LastArmed;
    match step {
      case Add => AddKeepsInv(c, s);
      case HandOver => HandOverKeepsInv(c, s);
      case Pop => PopKeepsInv(c, s);
      case Settle => SettleKeepsInv(c, s);
      case _ => assert InFlight(Next(c, s, step)) == InFlight(s);
    }
  }

  lemma StepKeepsWakeUp(c: Config, s: State, step: Step)
    requires c.Valid() && c.limit > 0 && Inv(c, s) && NoLostWakeUp(s) && Enabled(c, s, step)
    ensures NoLostWakeUp(Next(c, s, step))
  {
    hide Total, ArmedIn, Excess, Bounded, LastArmed;
    var t := Next(c, s, step);
    StepKeepsInv(c, s, step);
    InFlightSums(c, s);
    match step {
      case HandOver => HandOverKeepsInv(c, s);
      case Pop => PopKeepsInv(c, s);
      case Settle => SettleKeepsInv(c, s);
      case Add =>
      case _ => assert InFlight(t) == InFlight(s);
    }
  }

  // ---------------------------------------------------------------- whole runs

  /** `steps` can be taken one after the other from `s`. */
  predicate Runs(c: Config, s: State, steps: seq<Step>)
    decreases |steps|, 0
  {
    steps == [] ||
    (var before := steps[..|steps| - 1];
     Runs(c, s, before) && Enabled(c, After(c, s, before), steps[|steps| - 1]))
  }

  function After(c: Config, s: State, steps: seq<Step>): State
    requires Runs(c, s, steps)
    decreases |steps|, 1
  {
    if steps == [] then s else Next(c, After(c, s, steps[..|steps| - 1]), steps[|steps| - 1])
  }

  lemma {:induction false} RunKeepsInv(c: Config, steps: seq<Step>)
    requires c.Valid() && Runs(c, Init, steps)
    ensures Inv(c, After(c, Init, steps))
    ensures c.limit > 0 ==> NoLostWakeUp(After(c, Init, steps))
  {
    if steps != [] {
      var before := steps[..|steps| - 1];
      RunKeepsInv(c, before);
      StepKeepsInv(c, After(c, Init, before), steps[|steps| - 1]);
      if c.limit > 0 {
        StepKeepsWakeUp(c, After(c, Init, before), steps[|steps| - 1]);
      }
    }
  }

  lemma StepKeepsGate(c: Config, s: State, step: Step)
    requires Gate(s) && Enabled(c, s, step)
    ensures Gate(Next(c, s, step))
  {
    match step {
      case HandOver => HandOverKeepsGate(c, s);
      case Pop => PopKeepsGate(c, s);
      case _ => hide ArmedIn;
    }
  }

  lemma PopKeepsGate(c: Config, s: State)
    requires Gate(s) && Enabled(c, s, Pop)
    ensures Gate(Next(c, s, Pop))
  {
  }

  /** Conservation of the gate on every run, whatever the limit and the sizes: `_reading` counts the queued
      runners and the armed handles, so it never exceeds 2, is never decremented at 0, and
      `if(!_reading--) return` never returns. */
  lemma {:induction false} GateConserved(c: Config, steps: seq<Step>)
    requires Runs(c, Init, steps)
    ensures var s := After(c, Init, steps);
            && Gate(s) && s.reading <= 2
            && (s.drain.Entered? ==> s.reading > 0)
            && (s.handler.Releasing? ==> s.reading > 0)
  {
    if steps != [] {
      var before := steps[..|steps| - 1];
      GateConserved(c, before);
      StepKeepsGate(c, After(c, Init, before), steps[|steps| - 1]);
    }
  }

  /** Conservation of the bytes: `_receiving` is the size of the handles in flight and stays, as long as 32
      bits hold it, below the limit plus two chunks. */
  lemma BytesConserved(c: Config, steps: seq<Step>)
    requires c.Valid() && Runs(c, Init, steps)
    ensures var s := After(c, Init, steps);
            s.receiving == Total(InFlight(s)) <= c.Ceiling()
  {
    RunKeepsInv(c, steps);
    ReceivingBound(c, After(c, Init, steps));
  }

  /** The accept loop hands over connections one by one: at most BACKLOG_MAX + 1 are pending. */
  lemma AcceptBacklog(steps: seq<Step>)
    requires Runs(Config(BACKLOG_MAX, 1), Init, steps)
    ensures After(Config(BACKLOG_MAX, 1), Init, steps).receiving <= BACKLOG_MAX + 1
  {
    BytesConserved(Config(BACKLOG_MAX, 1), steps);
  }

  ghost predicate Reaches(c: Config, origin: State, steps: seq<Step>, s: State) {
    Runs(c, origin, steps) && s == After(c, origin, steps)
  }

  lemma Take(c: Config, origin: State, steps: seq<Step>, s: State, step: Step) returns (steps': seq<Step>, s': State)
    requires Reaches(c, origin, steps, s) && Enabled(c, s, step)
    ensures Reaches(c, origin, steps', s') && s' == Next(c, s, step)
  {
    steps', s' := steps + [step], Next(c, s, step);
    assert steps'[..|steps'| - 1] == steps;
  }

  /** What every step keeps, a run keeps. */
  lemma {:induction false} ReachKeepsInv(c: Config, origin: State, steps: seq<Step>, s: State)
    requires c.Valid() && Inv(c, origin) && Reaches(c, origin, steps, s)
    ensures Inv(c, s)
    decreases |steps|
  {
    hide Inv;
    if steps != [] {
      var before := steps[..|steps| - 1];
      ReachKeepsInv(c, origin, before, After(c, origin, before));
      StepKeepsInv(c, After(c, origin, before), steps[|steps| - 1]);
    }
  }

  /** First half of the run below: one runner drains one unit and arms its handle. */
  lemma OneArmedHandle(c: Config) returns (r: seq<Step>, s: State)
    requires c.limit == 0
    ensures Reaches(c, Init, r, s)
    ensures s == State(0, false, Polling, 1, 0, 0, Armed(Handle(0, true)), [], Free)
  {
    r, s := [], Init;
    r, s := Take(c, Init, r, s, Arrive(1));
    r, s := Take(c, Init, r, s, TakeEdge);
    r, s := Take(c, Init, r, s, TestGate);
    r, s := Take(c, Init, r, s, CountGate);
    r, s := Take(c, Init, r, s, Post);
    r, s := Take(c, Init, r, s, Start);
    r, s := Take(c, Init, r, s, Enter);
    r, s := Take(c, Init, r, s, Receive(1, 0));
    r, s := Take(c, Init, r, s, Add);
    r, s := Take(c, Init, r, s, Arm);
  }

  /** With a zero limit every handle is armed and none re-arms: data arriving meanwhile is forgotten. */
  lemma ZeroLimitLosesWakeUp(c: Config) returns (r: seq<Step>)
    requires c.limit == 0
    ensures Runs(c, Init, r) && !NoLostWakeUp(After(c, Init, r))
  {
    var s;
    r, s := OneArmedHandle(c);
    r, s := Take(c, Init, r, s, HandOver);
    r, s := Take(c, Init, r, s, Arrive(1));
    r, s := Take(c, Init, r, s, TakeEdge);
    r, s := Take(c, Init, r, s, TestGate);
    r, s := Take(c, Init, r, s, Pop);
    r, s := Take(c, Init, r, s, Settle);
    r, s := Take(c, Init, r, s, Release);
  }

  /** The protocol never forgets readable data, on any run, exactly when the limit is not zero. */
  lemma NoLostWakeUpIff(c: Config)
    requires c.Valid()
    ensures (forall steps :: Runs(c, Init, steps) ==> NoLostWakeUp(After(c, Init, steps))) <==> c.limit > 0
  {
    if c.limit > 0 {
      forall steps | Runs(c, Init, steps)
        ensures NoLostWakeUp(After(c, Init, steps))
      {
        RunKeepsInv(c, steps);
      }
    } else {
      var steps := ZeroLimitLosesWakeUp(c);
    }
  }

  // ---------------------------------------------------------------- progress

  function PendingWork(handles: seq<Handle>): nat {
    if handles == [] then 0 else (if handles[0].armed then 9 else 3) + PendingWork(handles[1..])
  }

  /** What remains to be done if no more data arrives. */
  function Work(s: State): nat {
    16 * s.avail + (if s.edge then 9 else 0) + 5 * s.queued + PendingWork(s.pending)
    + (match s.io case Polling => 0 case Testing => 8 case Passed => 7 case Counted => 6)
    + (match s.drain
       case Idle => 0
       case Entered => 4
       case Draining => 3
       case Built(_) => 12
       case Added(h) => if h.armed then 11 else 7
       case Armed(h) => if h.armed then 10 else 4)
    + (match s.handler
       case Free => 0
       case Consuming(h) => if h.armed then 8 else 2
       case Rearming => 6
       case Releasing => 1)
  }

  lemma {:induction false} PendingWorkAppend(a: seq<Handle>, h: Handle)
    ensures PendingWork(a + [h]) == PendingWork(a) + if h.armed then 9 else 3
  {
    if a == [] {
      assert a + [h] == [h];
    } else {
      assert (a + [h])[1..] == a[1..] + [h];
      PendingWorkAppend(a[1..], h);
    }
  }

  lemma PendingWorkPop(a: seq<Handle>)
    requires a != []
    ensures PendingWork(a) == PendingWork(a[1..]) + if a[0].armed then 9 else 3
  {
  }

  lemma StepDoesWork(c: Config, s: State, step: Step)
    requires Enabled(c, s, step) && !step.Arrive?
    ensures Work(Next(c, s, step)) < Work(s)
  {
    hide PendingWork;
    if step.HandOver? {
      PendingWorkAppend(s.pending, s.drain.handle);
    } else if step.Pop? {
      PendingWorkPop(s.pending);
    }
  }

  /** No thread can do anything. */
  ghost predicate Stuck(c: Config, s: State) {
    forall step :: Enabled(c, s, step) ==> step.Arrive?
  }

  lemma StuckMeansDelivered(c: Config, s: State)
    requires c.limit > 0 && Inv(c, s) && NoLostWakeUp(s) && Stuck(c, s)
    ensures s.avail == 0 && s.pending == [] && s.receiving == 0 && s.reading == 0
  {
    StuckIsIdle(c, s);
    hide Bounded, LastArmed, Stuck, Enabled;
    assert InFlight(s) == [];
    assert Total([]) == 0 && ArmedIn([]) == 0;
  }

  lemma StuckIsIdle(c: Config, s: State)
    requires Stuck(c, s)
    ensures !s.edge && s.io.Polling? && s.handler.Free? && s.pending == []
    ensures s.drain.Idle? && s.queued == 0
  {
    StuckDrain(c, s);
    assert !Enabled(c, s, TakeEdge) && !Enabled(c, s, TestGate) && !Enabled(c, s, CountGate) && !Enabled(c, s, Post);
    assert !Enabled(c, s, Pop) && !Enabled(c, s, Settle) && !Enabled(c, s, Rearm) && !Enabled(c, s, Release);
  }

  lemma StuckDrain(c: Config, s: State)
    requires Stuck(c, s)
    ensures s.drain.Idle? && s.queued == 0
  {
    assert !Enabled(c, s, Start) && !Enabled(c, s, Enter) && !Enabled(c, s, Add) && !Enabled(c, s, Arm);
    assert !Enabled(c, s, HandOver) && !Enabled(c, s, WouldBlock);
    assert s.drain.Draining? ==> Enabled(c, s, Capture(s.avail));
  }

  /** Whatever state a run has reached, if no more data arrives then the threads stop after a bounded
      number of steps, whatever their interleaving, and they stop only when everything was delivered. */
  lemma {:induction false} EverythingIsDelivered(c: Config, s: State, steps: seq<Step>)
    requires c.Valid() && c.limit > 0 && Inv(c, s) && NoLostWakeUp(s)
    requires Runs(c, s, steps) && forall i :: 0 <= i < |steps| ==> !steps[i].Arrive?
    ensures var t := After(c, s, steps);
            && Inv(c, t) && NoLostWakeUp(t)
            && |steps| + Work(t) <= Work(s)
            && (Stuck(c, t) ==> t.avail == 0 && t.pending == [] && t.receiving == 0 && t.reading == 0)
  {
    if steps != [] {
      var before := steps[..|steps| - 1];
      EverythingIsDelivered(c, s, before);
      var t := After(c, s, before);
      StepKeepsInv(c, t, steps[|steps| - 1]);
      StepKeepsWakeUp(c, t, steps[|steps| - 1]);
      StepDoesWork(c, t, steps[|steps| - 1]);
    }
    if Stuck(c, After(c, s, steps)) {
      StuckMeansDelivered(c, After(c, s, steps));
    }
  }

  // ---------------------------------------------------------------- what is received is handled, in order

  /** The sizes that the receive thread gets from the kernel, in order. */
  function ReceivedIn(steps: seq<Step>): seq<nat> {
    if steps == [] then [] else
      var n := |steps| - 1;
      ReceivedIn(steps[..n]) + if steps[n].Receive? then [steps[n].size] else []
  }

  /** The sizes that `onReceived` is called with, in order. */
  function HandledIn(c: Config, s: State, steps: seq<Step>): seq<nat>
    requires Runs(c, s, steps)
  {
    if steps == [] then [] else
      var n := |steps| - 1;
      HandledIn(c, s, steps[..n]) + if steps[n].Pop? then [After(c, s, steps[..n]).pending[0].size] else []
  }

  /** What arrives in the kernel, and what leaves it. */
  function Arrived(steps: seq<Step>): nat {
    if steps == [] then 0 else
      var n := |steps| - 1;
      Arrived(steps[..n]) + if steps[n].Arrive? then steps[n].units else 0
  }

  function Left(steps: seq<Step>): nat {
    if steps == [] then 0 else
      var n := |steps| - 1;
      Left(steps[..n]) + if steps[n].Receive? || steps[n].Capture? then steps[n].units else 0
  }

  /** What is received and not yet handled, oldest first. */
  function Coming(s: State): seq<nat> {
    Sizes(s.pending) + match s.drain
                       case Built(size) => [size]
                       case Added(handle) => [handle.size]
                       case Armed(handle) => [handle.size]
                       case _ => []
  }

  lemma StepDelivers(c: Config, s: State, step: Step)
    requires Enabled(c, s, step)
    ensures Coming(s) + (if step.Receive? then [step.size] else [])
            == (if step.Pop? then [s.pending[0].size] else []) + Coming(Next(c, s, step))
    ensures Next(c, s, step).avail + (if step.Receive? || step.Capture? then step.units else 0)
            == s.avail + if step.Arrive? then step.units else 0
  {
    match step {
      case HandOver => HandOverDelivers(c, s);
      case Pop => PopDelivers(c, s);
      case Receive(_, _) => hide Sizes;
      case _ =>
        hide Sizes;
        assert Coming(Next(c, s, step)) == Coming(s);
        assert Coming(s) + [] == Coming(s);
    }
  }

  lemma HandOverDelivers(c: Config, s: State)
    requires Enabled(c, s, HandOver)
    ensures Coming(Next(c, s, HandOver)) == Coming(s) == Coming(s) + []
  {
    assert Sizes(s.pending + [s.drain.handle]) == Sizes(s.pending) + [s.drain.handle.size];
  }

  lemma PopDelivers(c: Config, s: State)
    requires Enabled(c, s, Pop)
    ensures Coming(s) + [] == [s.pending[0].size] + Coming(Next(c, s, Pop))
  {
    assert Sizes(s.pending) == [s.pending[0].size] + Sizes(s.pending[1..]);
  }

  /** On every run, whatever the limit: what the receive thread got from the kernel is what was handled followed by what
      is on its way, each once and in order, and what arrived in the kernel has left it or is still there. */
  lemma {:induction false} DeliveredInOrder(c: Config, steps: seq<Step>)
    requires Runs(c, Init, steps)
    ensures ReceivedIn(steps) == HandledIn(c, Init, steps) + Coming(After(c, Init, steps))
    ensures Arrived(steps) == Left(steps) + After(c, Init, steps).avail
  {
    if steps == [] {
      assert Coming(Init) == [];
    } else {
      var n := |steps| - 1;
      var before, step := steps[..n], steps[n];
      DeliveredInOrder(c, before);
      var s := After(c, Init, before);
      StepDelivers(c, s, step);
      hide Coming, Next, Enabled, Sizes;
      Regroup(HandledIn(c, Init, before), Coming(s), if step.Receive? then [step.size] else [],
              if step.Pop? then [s.pending[0].size] else [], Coming(Next(c, s, step)));
    }
  }

  lemma Regroup(handled: seq<nat>, coming: seq<nat>, got: seq<nat>, popped: seq<nat>, rest: seq<nat>)
    requires coming + got == popped + rest
    ensures (handled + coming) + got == (handled + popped) + rest
  {
    assert (handled + coming) + got == handled + (coming + got);
  }

  /** When no thread can do anything, everything that arrived has left the kernel, and everything received was handled. */
  lemma StuckMeansHandled(c: Config, steps: seq<Step>)
    requires c.Valid() && c.limit > 0 && Runs(c, Init, steps) && Stuck(c, After(c, Init, steps))
    ensures HandledIn(c, Init, steps) == ReceivedIn(steps) && Left(steps) == Arrived(steps)
  {
    var s := After(c, Init, steps);
    DeliveredInOrder(c, steps);
    RunKeepsInv(c, steps);
    StuckMeansDelivered(c, s);
    StuckIsIdle(c, s);
    hide Stuck, Inv, Runs, After, HandledIn;
    assert Coming(s) == [];
  }

  // ---------------------------------------------------------------- the code, one call at a time

  /** What `receive` and the decoder answer: units taken from the kernel, bytes left to hand over, or nothing
      when the decoder keeps the buffer. */
  datatype Received = Received(units: nat, size: nat, captured: bool)

  /** The socket, its kernel and the queues of its two threads.  A method runs a function of the code without
      interruption; `steps` are the steps of the protocol that it takes. */
  class Socket {
    const config: Config
    var avail: nat
    var edge: bool
    var reading: uint8
    var receiving: uint32
    var queued: nat
    var pending: seq<Handle>

    function View(): State
      reads this
    {
      State(avail, edge, Polling, reading, receiving, queued, Idle, pending, Free)
    }

    constructor (config: Config)
      ensures this.config == config && View() == Init
    {
      this.config := config;
      avail, edge, reading, receiving, queued, pending := 0, false, 0, 0, 0, [];
    }

    /** `read`, on a reported edge: a runner is queued unless somebody owns the gate. */
    method Read() returns (ghost steps: seq<Step>)
      requires edge
      modifies this`edge, this`reading, this`queued
      ensures Reaches(config, old(View()), steps, View())
      ensures !edge && queued == old(queued) + if old(reading) == 0 then 1 else 0
      ensures reading == if old(reading) == 0 then 1 else old(reading)
    {
      ghost var s, t := View(), View();
      assert Reaches(config, s, [], s);
      hide Reaches;
      steps, t := Take(config, s, [], s, TakeEdge);
      edge := false;
      steps, t := Take(config, s, steps, t, TestGate);
      if reading != 0 {
        return; // useless
      }
      steps, t := Take(config, s, steps, t, CountGate);
      reading := Inc8(reading);
      steps, t := Take(config, s, steps, t, Post);
      queued := queued + 1;
    }

    /** Constructor of the handle and its queueing; `stop` tells that it took the gate. */
    method HandOver(size: nat, ghost s: State, ghost before: seq<Step>) returns (stop: bool, ghost steps: seq<Step>)
      requires Reaches(config, s, before, View().(drain := Built(size)))
      modifies this`reading, this`receiving, this`pending
      ensures receiving == Add32(old(receiving), size) && (stop <==> receiving >= config.limit)
      ensures pending == old(pending) + [Handle(size, stop)]
      ensures reading == if stop then Inc8(old(reading)) else old(reading)
      ensures Reaches(config, s, steps, View().(drain := if stop then Idle else Draining))
    {
      hide Reaches;
      ghost var t;
      steps, t := Take(config, s, before, View().(drain := Built(size)), Add);
      receiving := Add32(receiving, size);
      var handle := Handle(size, receiving >= config.limit);
      stop := handle.armed;
      if stop {
        steps, t := Take(config, s, steps, t, Arm);
        reading := Inc8(reading);
      }
      steps, t := Take(config, s, steps, t, Step.HandOver);
      pending := pending + [handle];
    }

    /** One turn of the drain loop on a kernel that holds something: nothing, or one handle, is handed over. */
    method ReceiveOne(received: Received, ghost s: State, ghost before: seq<Step>)
      returns (stop: bool, got: seq<Handle>, ghost steps: seq<Step>)
      requires avail > 0 && received.units > 0
      requires received.size <= config.maxChunk
      requires Reaches(config, s, before, View().(drain := Draining))
      modifies this`avail, this`reading, this`receiving, this`pending
      ensures got == if received.captured then [] else [Handle(received.size, stop)]
      ensures avail == (if received.units < old(avail) then old(avail) - received.units else 0)
      ensures pending == old(pending) + got && queued == old(queued) && edge == old(edge)
      ensures receiving == Add32(old(receiving), Total(got))
      ensures stop <==> got != [] && got[0].armed
      ensures got != [] ==> (stop <==> receiving >= config.limit)
      ensures reading == if stop then Inc8(old(reading)) else old(reading)
      ensures Reaches(config, s, steps, View().(drain := if stop then Idle else Draining))
    {
      hide Reaches;
      var units := if received.units < avail then received.units else avail;
      ghost var t := View().(drain := Draining);
      if received.captured {
        NoHandle();
        steps, t := Take(config, s, before, t, Capture(units));
        avail := avail - units;
        return false, [], steps;
      }
      steps, t := Take(config, s, before, t, Receive(units, received.size));
      avail := avail - units;
      stop, steps := HandOver(received.size, s, steps);
      got := [Handle(received.size, stop)];
      OneHandle(got[0]);
    }

    /** `process` of a queued runner: drains the kernel, whose k-th answer is `answers(k)`, until it has nothing
        left or the handle just queued takes the gate over. */
    method Process(answers: nat -> Received) returns (handed: seq<Handle>, ghost turns: nat, ghost steps: seq<Step>)
      requires queued > 0
      requires forall k :: answers(k).units > 0 && answers(k).size <= config.maxChunk
      modifies this`avail, this`reading, this`receiving, this`queued, this`pending
      ensures Reaches(config, old(View()), steps, View())
      ensures queued == old(queued) - 1 && pending == old(pending) + handed && edge == old(edge)
      ensures receiving == Add32(old(receiving), Total(handed))
      ensures Taken(answers, turns, old(avail), avail) && Sizes(handed) == Kept(answers, turns)
      ensures ArmedAt(config.limit, old(receiving), handed)
      ensures forall i :: 0 <= i < |handed| - 1 ==> !handed[i].armed
      ensures old(reading) == 0 ==> turns == 0 && reading == UINT8 - 1
      ensures old(reading) > 0 ==>
                if handed != [] && handed[|handed| - 1].armed then reading == old(reading) && receiving >= config.limit
                else reading == old(reading) - 1 && avail == 0
    {
      ghost var s, t := View(), View();
      assert Reaches(config, s, [], s);
      hide Reaches, Enabled, Next, Add32;
      handed, turns := [], 0;
      Started(s);
      steps, t := Take(config, s, [], s, Start);
      queued := queued - 1;
      steps, t := Take(config, s, steps, t, Enter);
      var was := reading;
      reading := Dec8(reading);
      if was == 0 {
        return; // me and something else
      }
      handed, turns, steps := Drain(answers, s, steps);
    }

    /** The loop of `process`. */
    method Drain(answers: nat -> Received, ghost s: State, ghost before: seq<Step>)
      returns (handed: seq<Handle>, ghost turns: nat, ghost steps: seq<Step>)
      requires reading < UINT8 - 1 && Reaches(config, s, before, View().(drain := Draining))
      requires forall k :: answers(k).units > 0 && answers(k).size <= config.maxChunk
      modifies this`avail, this`reading, this`receiving, this`pending
      ensures Reaches(config, s, steps, View())
      ensures pending == old(pending) + handed && queued == old(queued) && edge == old(edge)
      ensures receiving == Add32(old(receiving), Total(handed))
      ensures Taken(answers, turns, old(avail), avail) && Sizes(handed) == Kept(answers, turns)
      ensures ArmedAt(config.limit, old(receiving), handed)
      ensures forall i :: 0 <= i < |handed| - 1 ==> !handed[i].armed
      ensures if handed != [] && handed[|handed| - 1].armed then reading == old(reading) + 1 && receiving >= config.limit
              else reading == old(reading) && avail == 0
    {
      hide Reaches, Enabled, Next, Add32, Total, Taken, ArmedAt, Given;
      NothingYet();
      NothingTaken(answers, avail, config.limit, receiving);
      handed, steps, turns := [], before, 0;
      var stop, k := false, 0;
      while !stop && avail > 0
        invariant pending == old(pending) + handed && queued == old(queued) && edge == old(edge)
        invariant receiving == Add32(old(receiving), Total(handed))
        invariant Reaches(config, s, steps, View().(drain := if stop then Idle else Draining))
        invariant turns == k && Taken(answers, turns, old(avail), avail) && Given(answers, turns, handed, stop)
        invariant ArmedAt(config.limit, old(receiving), handed)
        invariant reading == old(reading) + if stop then 1 else 0
        invariant stop ==> receiving >= config.limit
        decreases avail
      {
        ghost var already, left := handed, avail;
        var got: seq<Handle>;
        stop, got, steps := ReceiveOne(answers(k), s, steps);
        handed := handed + got;
        Append(config, already, got);
        AddTwice(old(receiving), Total(already), Total(got));
        assert old(pending) + already + got == old(pending) + handed;
        OneTaken(answers, k, old(avail), left, avail);
        OneGiven(answers, k, already, got, stop);
        ArmedMore(config.limit, old(receiving), already, got);
        k, turns := k + 1, turns + 1;
      }
      AllGiven(answers, k, handed, stop);
      if !stop {
        ghost var t := View().(drain := Draining);
        Ended(t);
        steps, t := Take(config, s, steps, t, WouldBlock);
      }
    }

    lemma NothingYet()
      ensures Total([]) == 0 && Add32(receiving, 0) == receiving
    {
    }

    lemma Started(s: State)
      requires s == View() && queued > 0
      ensures Enabled(config, s, Start) && Total([]) == 0 && Add32(receiving, 0) == receiving
      ensures var t := Next(config, s, Start);
        Enabled(config, t, Enter) && t == s.(queued := queued - 1, drain := Entered)
        && Next(config, t, Enter) == t.(reading := Dec8(reading), drain := if reading == 0 then Idle else Draining)
    {
    }

    lemma Ended(s: State)
      requires s.drain.Draining? && s.avail == 0
      ensures Enabled(config, s, WouldBlock) && Next(config, s, WouldBlock) == s.(drain := Idle)
    {
    }

    /** `Handle::handle` of the oldest handle, `_onReceived` included. */
    method Consume() returns (handle: Handle, ghost steps: seq<Step>)
      requires pending != []
      modifies this`reading, this`receiving, this`queued, this`pending
      ensures Reaches(config, old(View()), steps, View())
      ensures old(pending) == [handle] + pending && receiving == Sub32(old(receiving), handle.size)
      ensures queued == old(queued) + if handle.armed && receiving < config.limit then 1 else 0
      ensures reading == if handle.armed && receiving >= config.limit then Dec8(old(reading)) else old(reading)
    {
      ghost var s, t := View(), View();
      assert Reaches(config, s, [], s);
      hide Reaches;
      steps, t := Take(config, s, [], s, Pop);
      handle := pending[0];
      pending := pending[1..];
      steps, t := Take(config, s, steps, t, Settle);
      receiving := Sub32(receiving, handle.size);
      if !handle.armed {
        return;
      }
      if receiving < config.limit {
        steps, t := Take(config, s, steps, t, Rearm);
        queued := queued + 1;
      } else {
        steps, t := Take(config, s, steps, t, Release);
        reading := Dec8(reading);
      }
    }
  }

  // ---------------------------------------------------------------- what a drain takes, and what it hands over

  function Sizes(handles: seq<Handle>): (sizes: seq<nat>)
    ensures |sizes| == |handles|
  {
    seq(|handles|, i requires 0 <= i < |handles| => handles[i].size)
  }

  /** The sizes of the first answers, but for the buffers that the decoder keeps. */
  function Kept(answers: nat -> Received, turns: nat): seq<nat> {
    if turns == 0 then [] else
      Kept(answers, turns - 1) + if answers(turns - 1).captured then [] else [answers(turns - 1).size]
  }

  function Units(answers: nat -> Received, turns: nat): nat {
    if turns == 0 then 0 else Units(answers, turns - 1) + answers(turns - 1).units
  }

  /** That many answers, each asked of a kernel that still held something, leave this of what it held. */
  ghost predicate Taken(answers: nat -> Received, turns: nat, held: nat, left: nat) {
    && left == (if Units(answers, turns) < held then held - Units(answers, turns) else 0)
    && forall k :: 0 <= k < turns ==> Units(answers, k) < held
  }

  /** A handle is armed exactly when it makes what is received and not consumed reach the limit. */
  ghost predicate ArmedAt(limit: nat, receiving: uint32, handed: seq<Handle>) {
    forall i :: 0 <= i < |handed| ==> (handed[i].armed <==> Add32(receiving, Total(handed[..i + 1])) >= limit)
  }

  lemma NothingTaken(answers: nat -> Received, held: nat, limit: nat, receiving: uint32)
    ensures Taken(answers, 0, held, held) && Given(answers, 0, [], false) && ArmedAt(limit, receiving, [])
  {
  }

  lemma OneTaken(answers: nat -> Received, k: nat, held: nat, left: nat, left': nat)
    requires Taken(answers, k, held, left) && left > 0
    requires left' == if answers(k).units < left then left - answers(k).units else 0
    ensures Taken(answers, k + 1, held, left')
  {
  }

  /** What has been handed over after some answers; only the last handle can be armed, and it stops the drain. */
  ghost predicate Given(answers: nat -> Received, turns: nat, handed: seq<Handle>, stop: bool) {
    && Sizes(handed) == Kept(answers, turns)
    && (forall i :: 0 <= i < |handed| - 1 ==> !handed[i].armed)
    && (stop <==> handed != [] && handed[|handed| - 1].armed)
  }

  lemma OneGiven(answers: nat -> Received, k: nat, already: seq<Handle>, got: seq<Handle>, stop: bool)
    requires Given(answers, k, already, false) && (stop <==> got != [] && got[0].armed)
    requires if answers(k).captured then got == [] else |got| == 1 && got[0].size == answers(k).size
    ensures Given(answers, k + 1, already + got, stop)
  {
    assert Sizes(already + got) == Sizes(already) + Sizes(got);
  }

  lemma AllGiven(answers: nat -> Received, turns: nat, handed: seq<Handle>, stop: bool)
    requires Given(answers, turns, handed, stop)
    ensures Sizes(handed) == Kept(answers, turns) && (stop <==> handed != [] && handed[|handed| - 1].armed)
    ensures forall i :: 0 <= i < |handed| - 1 ==> !handed[i].armed
  {
  }

  lemma ArmedMore(limit: nat, receiving: uint32, already: seq<Handle>, got: seq<Handle>)
    requires ArmedAt(limit, receiving, already) && |got| <= 1
    requires got != [] ==> (got[0].armed <==> Add32(receiving, Total(already + got)) >= limit)
    ensures ArmedAt(limit, receiving, already + got)
  {
    hide Add32, Total;
    var all := already + got;
    forall i | 0 <= i < |all|
      ensures all[i].armed <==> Add32(receiving, Total(all[..i + 1])) >= limit
    {
      if i < |already| {
        assert all[..i + 1] == already[..i + 1];
      } else {
        assert all[..i + 1] == all;
      }
    }
  }

  lemma OneHandle(h: Handle)
    ensures Total([h]) == h.size
  {
    NoHandle();
  }

  lemma AddTwice(x: uint32, a: nat, b: nat)
    ensures Add32(Add32(x, a), b) == Add32(x, a + b)
  {
  }
}
