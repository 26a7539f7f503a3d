/** `ThreadQueue`: runners queued under a lock, drained by batches in a thread that stops itself when it has
    waited too long and is restarted by the next `queue`, interleaved in every possible way. */
module ThreadQueues {

  /** The thread: not started or ended, in `process` before `wait`, in `wait`, before the lock of the inner
      loop, running a batch, after `stop()` of the inner loop. */
  datatype WorkerPc<T> = Dead | Starting | Waiting | Checking(timeout: bool) | Draining(timeout: bool, batch: seq<T>) | Exiting

  /** The holder of the lock of `queue`, by what it does next. */
  datatype ProducerPc<T> =
    | Nobody
    | Testing(item: T)      // if(!_stop || _Me==this) return
    | Joining(item: T)      // _thread.join()
    | Resetting(item: T)    // wakeUp.reset()
    | Unstopping(item: T)   // _stop = false
    | Unrequesting(item: T) // _requestStop = false
    | Spawning(item: T)     // _thread = thread(...)
    | Pushing(item: T)      // _runners.emplace_back
    | Signaling             // wakeUp.set()
    | Unlocking

  datatype State<T> = State(
    runners: seq<T>,
    stop: bool,
    requestStop: bool,
    signal: bool,           // wakeUp._set
    worker: WorkerPc<T>,
    producer: ProducerPc<T>,
    enqueued: seq<T>,       // history of the pushes
    executed: seq<T>)       // history of the runs

  datatype Step<T> =
    | Lock(item: T) | Test | Join | Reset | Unstop | Unrequest | Spawn | Push | Signal | Unlock  // queue
    | Begin | Wake | Timeout | Take | Run | Finish | End                                        // run, process
    | RequestStop | Poke                                                                       // stop by another thread

  function Init<T>(): State<T> { State([], true, false, false, Dead, Nobody, [], []) }

  predicate Enabled<T>(s: State<T>, step: Step<T>) {
    match step
    case Lock(_) => s.producer.Nobody?
    case Test => s.producer.Testing?
    case Join => s.producer.Joining? && s.worker.Dead?
    case Reset => s.producer.Resetting?
    case Unstop => s.producer.Unstopping?
    case Unrequest => s.producer.Unrequesting?
    case Spawn => s.producer.Spawning?
    case Push => s.producer.Pushing?
    case Signal => s.producer.Signaling?
    case Unlock => s.producer.Unlocking?
    case Begin => s.worker.Starting?
    case Wake => s.worker.Waiting? && s.signal
    case Timeout => s.worker.Waiting? && !s.signal
    case Take => s.worker.Checking? && s.producer.Nobody?
    case Run => s.worker.Draining? && s.worker.batch != []
    case Finish => s.worker.Draining? && s.worker.batch == []
    case End => s.worker.Exiting?
    case RequestStop => true
    case Poke => true
  }

  function Next<T>(s: State<T>, step: Step<T>): State<T>
    requires Enabled(s, step)
  {
    match step
    case Lock(item) => s.(producer := Testing(item))
    case Test => s.(producer := if s.stop then Joining(s.producer.item) else Pushing(s.producer.item))
    case Join => s.(producer := Resetting(s.producer.item))
    case Reset => s.(signal := false, producer := Unstopping(s.producer.item))
    case Unstop => s.(stop := false, producer := Unrequesting(s.producer.item))
    case Unrequest => s.(requestStop := false, producer := Spawning(s.producer.item))
    case Spawn => s.(worker := Starting, producer := Pushing(s.producer.item))
    case Push =>
      s.(runners := s.runners + [s.producer.item], enqueued := s.enqueued + [s.producer.item], producer := Signaling)
    case Signal => s.(signal := true, producer := Unlocking)
    case Unlock => s.(producer := Nobody)
    case Begin => s.(worker := Waiting)
    case Wake => s.(signal := false, worker := Checking(false))
    case Timeout => s.(worker := Checking(true))
    case Take =>
      if s.runners != [] then s.(runners := [], worker := Draining(s.worker.timeout, s.runners))
      else if !s.worker.timeout && !s.requestStop then s.(worker := Waiting)
      else s.(requestStop := true, stop := true, worker := Exiting)
    case Run =>
      s.(executed := s.executed + [s.worker.batch[0]], worker := Draining(s.worker.timeout, s.worker.batch[1..]))
    case Finish => s.(worker := Checking(s.worker.timeout))
    case End => s.(stop := true, worker := Dead)
    case RequestStop => s.(requestStop := true)
    case Poke => s.(signal := true)
  }

  function Batch<T>(s: State<T>): seq<T> { if s.worker.Draining? then s.worker.batch else [] }

  /** Neither ended nor about to. */
  predicate Alive<T>(s: State<T>) { !s.worker.Dead? && !s.worker.Exiting? }

  /** Exactly once, in order. */
  predicate Fifo<T(==)>(s: State<T>) {
    s.executed + Batch(s) + s.runners == s.enqueued
  }

  /** Somebody will empty `_runners`: a live thread that is draining or has its signal set (or a producer
      that has not set it yet). */
  predicate Served<T(==)>(s: State<T>) {
    s.runners != [] ==>
      Alive(s) && !s.stop && (s.worker.Checking? || s.worker.Draining? || s.signal || s.producer.Signaling?)
  }

  predicate Inv<T(==)>(s: State<T>) {
    && Fifo(s)
    && Served(s)
    && (s.producer.Resetting? || s.producer.Unstopping? || s.producer.Unrequesting? || s.producer.Spawning? ==> s.worker.Dead?)
    && (s.producer.Unrequesting? || s.producer.Spawning? ==> !s.stop)
    && (!s.producer.Unrequesting? && !s.producer.Spawning? ==> (s.stop <==> !Alive(s)))
    && (s.producer.Pushing? || s.producer.Signaling? || s.producer.Unlocking? ==> !s.stop)
    && (s.producer.Joining? ==> s.stop)
  }

  lemma StepKeepsInv<T>(s: State<T>, step: Step<T>)
    requires Inv(s) && Enabled(s, step)
    ensures Inv(Next(s, step))
  {
    match step {
      case Push => assert s.executed + Batch(s) + (s.runners + [s.producer.item]) == s.enqueued + [s.producer.item];
      case Run =>
        var batch := s.worker.batch;
        assert s.executed + batch + s.runners == (s.executed + [batch[0]]) + batch[1..] + s.runners;
      case _ =>
    }
  }

  // ---------------------------------------------------------------- whole runs

  predicate Runs<T>(s: State<T>, steps: seq<Step<T>>)
    decreases |steps|, 0
  {
    steps == [] ||
    (var before := steps[..|steps| - 1];
     Runs(s, before) && Enabled(After(s, before), steps[|steps| - 1]))
  }

  function After<T>(s: State<T>, steps: seq<Step<T>>): State<T>
    requires Runs(s, steps)
    decreases |steps|, 1
  {
    if steps == [] then s else Next(After(s, steps[..|steps| - 1]), steps[|steps| - 1])
  }

  lemma {:induction false} RunKeepsInv<T>(s: State<T>, steps: seq<Step<T>>)
    requires Inv(s) && Runs(s, steps)
    ensures Inv(After(s, steps))
  {
    if steps != [] {
      var before := steps[..|steps| - 1];
      RunKeepsInv(s, before);
      StepKeepsInv(After(s, before), steps[|steps| - 1]);
    }
  }

  /** On every run, over any number of threads started and stopped, what was executed is a prefix of what
      was queued, in the same order, the rest is in the current batch and in `_runners`, and a runner left in
      `_runners` has a thread to serve it. */
  lemma ExactlyOnceInOrder<T>(steps: seq<Step<T>>)
    requires Runs(Init(), steps)
    ensures var s := After(Init(), steps);
            && s.executed + Batch(s) + s.runners == s.enqueued
            && s.executed <= s.enqueued
            && Served(s)
  {
    RunKeepsInv(Init(), steps);
  }

  /** The thread is restarted only after the previous one has ended: two never run together, and the late
      `_stop = true` of an ending thread never hits its successor. */
  lemma RestartAfterEnd<T>(steps: seq<Step<T>>)
    requires Runs(Init(), steps)
    ensures var s := After(Init(), steps);
            && (s.producer.Spawning? ==> s.worker.Dead?)
            && (s.worker.Exiting? ==> s.stop)
  {
    RunKeepsInv(Init(), steps);
  }

  // ---------------------------------------------------------------- progress

  /** Steps that nothing but the arrival of work, a time-out or a stop request causes. */
  predicate External<T>(step: Step<T>) { step.Lock? || step.Timeout? || step.RequestStop? || step.Poke? }

  function Work<T>(s: State<T>): nat {
    4 * |s.runners| + (if s.signal then 3 else 0)
    + (match s.worker
       case Dead => 0
       case Starting => 2
       case Waiting => 1
       case Checking(_) => 3
       case Draining(_, batch) => 4 + 2 * |batch|
       case Exiting => 2)
    + (match s.producer
       case Nobody => 0
       case Testing(_) => 18
       case Joining(_) => 17
       case Resetting(_) => 16
       case Unstopping(_) => 15
       case Unrequesting(_) => 14
       case Spawning(_) => 13
       case Pushing(_) => 10
       case Signaling => 5
       case Unlocking => 1)
  }

  lemma StepDoesWork<T>(s: State<T>, step: Step<T>)
    requires Enabled(s, step) && !External(step)
    ensures Work(Next(s, step)) < Work(s)
  {
  }

  /** Nothing can happen by itself. */
  ghost predicate Stuck<T(!new)>(s: State<T>) {
    forall step :: Enabled(s, step) ==> External(step)
  }

  lemma StuckMeansExecuted<T(!new)>(s: State<T>)
    requires Inv(s) && Stuck(s)
    ensures s.executed == s.enqueued && s.producer.Nobody? && (s.worker.Waiting? || s.worker.Dead?)
  {
    StuckIsIdle(s);
    assert s.executed + [] + [] == s.executed;
    hide Stuck, Enabled;
  }

  lemma StuckIsIdle<T(!new)>(s: State<T>)
    requires Stuck(s)
    ensures s.producer.Nobody? || (s.producer.Joining? && !s.worker.Dead?)
    ensures s.worker.Dead? || (s.worker.Waiting? && !s.signal) || (s.worker.Checking? && !s.producer.Nobody?)
  {
    StuckProducer(s);
    assert !Enabled(s, Begin) && !Enabled(s, Wake) && !Enabled(s, Take) && !Enabled(s, Run) && !Enabled(s, Finish);
    assert !Enabled(s, End);
  }

  lemma StuckProducer<T(!new)>(s: State<T>)
    requires Stuck(s)
    ensures s.producer.Nobody? || (s.producer.Joining? && !s.worker.Dead?)
  {
    assert !Enabled(s, Test) && !Enabled(s, Join) && !Enabled(s, Reset) && !Enabled(s, Unstop);
    assert !Enabled(s, Unrequest) && !Enabled(s, Spawn) && !Enabled(s, Push) && !Enabled(s, Signal) && !Enabled(s, Unlock);
  }

  /** No runner is forgotten: whatever a run has done, left to themselves the threads stop after a bounded
      number of steps, and they stop only when every queued runner was executed. */
  lemma {:induction false} EveryRunnerIsExecuted<T(!new)>(s: State<T>, steps: seq<Step<T>>)
    requires Inv(s) && Runs(s, steps) && forall i :: 0 <= i < |steps| ==> !External(steps[i])
    ensures |steps| + Work(After(s, steps)) <= Work(s)
    ensures Stuck(After(s, steps)) ==> After(s, steps).executed == After(s, steps).enqueued
  {
    RunKeepsInv(s, steps);
    if steps != [] {
      var before := steps[..|steps| - 1];
      EveryRunnerIsExecuted(s, before);
      StepDoesWork(After(s, before), steps[|steps| - 1]);
    }
    if Stuck(After(s, steps)) {
      StuckMeansExecuted(After(s, steps));
    }
  }

  // ---------------------------------------------------------------- the code, one call at a time

  ghost predicate Reaches<T(!new)>(s: State<T>, steps: seq<Step<T>>, t: State<T>) {
    Runs(s, steps) && t == After(s, steps)
  }

  lemma Take1<T(!new)>(s: State<T>, steps: seq<Step<T>>, t: State<T>, step: Step<T>)
    returns (steps': seq<Step<T>>, t': State<T>)
    requires Reaches(s, steps, t) && Enabled(t, step)
    ensures Reaches(s, steps', t') && t' == Next(t, step)
  {
    steps', t' := steps + [step], Next(t, step);
    assert steps'[..|steps'| - 1] == steps;
  }

  /** The queue and its thread.  A method runs a piece of the code without interruption; `steps` are the
      steps of the protocol that it takes. */
  class ThreadQueue<T(!new)> {
    var runners: seq<T>
    var stop: bool
    var requestStop: bool
    var signal: bool
    var worker: WorkerPc<T>
    var enqueued: seq<T>
    var executed: seq<T>

    function View(): State<T>
      reads this
    {
      State(runners, stop, requestStop, signal, worker, Nobody, enqueued, executed)
    }

    constructor ()
      ensures View() == Init()
    {
      runners, stop, requestStop, signal, worker := [], true, false, false, Dead;
      enqueued, executed := [], [];
    }

    /** `start`, which joins an ended thread before it starts the next one. */
    method Start(item: T, ghost s: State<T>, ghost before: seq<Step<T>>) returns (ghost steps: seq<Step<T>>)
      requires stop ==> worker.Dead?
      requires Reaches(s, before, View().(producer := Testing(item)))
      modifies this`stop, this`requestStop, this`signal, this`worker
      ensures Reaches(s, steps, View().(producer := Pushing(item)))
      ensures !stop && (if old(stop) then worker.Starting? else worker == old(worker))
      ensures signal == (!old(stop) && old(signal)) && requestStop == (!old(stop) && old(requestStop))
    {
      hide Reaches;
      ghost var t;
      steps, t := Take1(s, before, View().(producer := Testing(item)), Test);
      if !stop {
        return;
      }
      steps, t := Take1(s, steps, t, Join);
      signal := false;
      steps, t := Take1(s, steps, t, Reset);
      stop := false;
      steps, t := Take1(s, steps, t, Unstop);
      requestStop := false;
      steps, t := Take1(s, steps, t, Unrequest);
      worker := Starting;
      steps, t := Take1(s, steps, t, Spawn);
    }

    /** `queue`. */
    method Queue(item: T) returns (ghost steps: seq<Step<T>>)
      requires Inv(View()) && (stop ==> worker.Dead?)
      modifies this
      ensures Reaches(old(View()), steps, View())
      ensures enqueued == old(enqueued) + [item] && runners == old(runners) + [item] && executed == old(executed)
      ensures !stop && signal && Alive(View())
      ensures (if old(stop) then worker.Starting? else worker == old(worker)) && requestStop == (!old(stop) && old(requestStop))
    {
      ghost var s, t := View(), View();
      assert Reaches(s, [], s);
      steps, t := Take1(s, [], s, Lock(item));
      hide Reaches, Fifo, Served, Inv;
      steps := Start(item, s, steps);
      steps, t := Take1(s, steps, View().(producer := Pushing(item)), Push);
      runners := runners + [item];
      enqueued := enqueued + [item];
      steps, t := Take1(s, steps, t, Signal);
      signal := true;
      steps, t := Take1(s, steps, t, Unlock);
    }

    /** Runs a batch in order. */
    method RunBatch(ghost origin: State<T>, ghost before: seq<Step<T>>) returns (ghost steps: seq<Step<T>>)
      requires worker.Draining? && Reaches(origin, before, View())
      modifies this`executed, this`worker
      ensures Reaches(origin, steps, View())
      ensures executed == old(executed) + old(worker.batch) && worker == Checking(old(worker.timeout))
    {
      hide Reaches;
      steps := before;
      ghost var t := View();
      while worker.batch != []
        invariant worker.Draining? && worker.timeout == old(worker.timeout)
        invariant executed + worker.batch == old(executed) + old(worker.batch)
        invariant Reaches(origin, steps, View())
        decreases |worker.batch|
      {
        ghost var batch := worker.batch;
        steps, t := Take1(origin, steps, View(), Run);
        assert executed + batch == (executed + [batch[0]]) + batch[1..];
        executed := executed + [worker.batch[0]];
        worker := Draining(worker.timeout, worker.batch[1..]);
      }
      steps, t := Take1(origin, steps, View(), Finish);
      worker := Checking(worker.timeout);
    }

    /** The inner loop of `run`: batches as long as there are any, then the decision to wait or to stop. */
    method Drain(timeout: bool, ghost origin: State<T>, ghost before: seq<Step<T>>) returns (ghost steps: seq<Step<T>>)
      requires worker == Checking(timeout) && Reaches(origin, before, View())
      modifies this`runners, this`requestStop, this`stop, this`executed, this`worker
      ensures Reaches(origin, steps, View())
      ensures executed == old(executed) + old(runners) && runners == []
      ensures if timeout || old(requestStop) then worker.Exiting? && stop && requestStop
              else worker.Waiting? && stop == old(stop) && requestStop == old(requestStop)
    {
      hide Reaches;
      steps := before;
      ghost var t := View();
      while runners != []
        invariant worker == Checking(timeout) && requestStop == old(requestStop) && stop == old(stop)
        invariant Reaches(origin, steps, View())
        invariant executed + runners == old(executed) + old(runners)
        decreases |runners|
      {
        steps, t := Take1(origin, steps, View(), Take);
        worker := Draining(timeout, runners);
        runners := [];
        steps := RunBatch(origin, steps);
      }
      steps, t := Take1(origin, steps, View(), Take);
      if !timeout && !requestStop {
        worker := Waiting;
        return;
      }
      requestStop := true;
      stop := true;
      worker := Exiting;
    }

    /** One turn of the outer loop of `run`, from `wait` to the next `wait` or to the end of the thread. */
    method Turn(timeout: bool) returns (ghost steps: seq<Step<T>>)
      requires Inv(View()) && worker.Waiting? && (timeout <==> !signal)
      modifies this
      ensures Reaches(old(View()), steps, View())
      ensures executed == old(executed) + old(runners) && runners == [] && enqueued == old(enqueued)
      ensures if timeout || old(requestStop) then worker.Dead? && stop else worker.Waiting? && stop == old(stop)
      ensures !signal && requestStop == (timeout || old(requestStop))
    {
      ghost var s, t := View(), View();
      assert Reaches(s, [], t);
      hide Reaches, Inv;
      steps, t := Take1(s, [], t, if timeout then Timeout else Wake);
      signal := false;
      worker := Checking(timeout);
      steps := Drain(timeout, s, steps);
      if worker.Exiting? {
        steps, t := Take1(s, steps, View(), End);
        stop := true;
        worker := Dead;
      }
    }
  }
}

/** `ThreadPool`: a client variable, 0 at first, sticks to the queue that its first runner went to. */
module ThreadPools {
  import opened ThreadQueues

  /** A runner is known by the track of its client and by anything else. */
  datatype Runner = Runner(track: nat, id: int)

  const UINT16 := 0x1_0000

  /** The enqueue histories of the queues, the shared counter and the client variables. */
  datatype Pool = Pool(queues: seq<seq<Runner>>, current: nat, threads: map<nat, nat>) {
    function Thread(track: nat): nat { if track in threads then threads[track] else 0 }

    predicate Valid() {
      0 < |queues| < UINT16 && forall track :: track in threads ==> threads[track] <= |queues|
    }
  }

  /** The queue that the next runner of `track` goes to. */
  function Chosen(p: Pool, track: nat): nat
    requires p.Valid()
  {
    if p.Thread(track) != 0 then p.Thread(track) - 1 else p.current % |p.queues|
  }

  /** `queue(uint16_t& thread, runner)`. */
  function Queued(p: Pool, r: Runner): (t: Pool)
    requires p.Valid()
    ensures t.Valid()
    ensures forall track :: t.Thread(track) == if track == r.track then Chosen(p, track) + 1 else p.Thread(track)
  {
    var q := Chosen(p, r.track);
    Pool(p.queues[q := p.queues[q] + [r]],
         if p.Thread(r.track) != 0 then p.current else (p.current + 1) % UINT16,
         p.threads[r.track := q + 1])
  }

  /** The runners of a track in a history. */
  function Of(history: seq<Runner>, track: nat): seq<Runner> {
    if history == [] then [] else
      var n := |history| - 1;
      Of(history[..n], track) + if history[n].track == track then [history[n]] else []
  }

  /** What a queue holds of a track after the calls `calls`: everything in order, or nothing. */
  ghost predicate Holds(p: Pool, calls: seq<Runner>, track: nat, q: nat)
    requires q < |p.queues|
  {
    Of(p.queues[q], track) == if p.Thread(track) == q + 1 then Of(calls, track) else []
  }

  ghost predicate Inv(p: Pool, calls: seq<Runner>) {
    && p.Valid()
    && (forall track :: p.Thread(track) == 0 ==> Of(calls, track) == [])
    && (forall track, q :: 0 <= q < |p.queues| ==> Holds(p, calls, track, q))
  }

  lemma OfSnoc(history: seq<Runner>, r: Runner, track: nat)
    ensures Of(history + [r], track) == Of(history, track) + if r.track == track then [r] else []
  {
    assert (history + [r])[..|history|] == history;
  }

  lemma OneQueue(p: Pool, calls: seq<Runner>, r: Runner, track: nat, q: nat)
    requires Inv(p, calls) && q < |p.queues|
    ensures Holds(Queued(p, r), calls + [r], track, q)
  {
    hide Of;
    OfSnoc(calls, r, track);
    OfSnoc(p.queues[q], r, track);
    assert Holds(p, calls, track, q);
  }

  /** Each call keeps every track in one queue, in the order of the calls. */
  lemma CallKeepsInv(p: Pool, calls: seq<Runner>, r: Runner)
    requires Inv(p, calls)
    ensures Inv(Queued(p, r), calls + [r])
  {
    hide Of;
    var t := Queued(p, r);
    forall track, q | 0 <= q < |t.queues|
      ensures Holds(t, calls + [r], track, q)
    {
      OneQueue(p, calls, r, track, q);
    }
    forall track | t.Thread(track) == 0
      ensures Of(calls + [r], track) == []
    {
      OfSnoc(calls, r, track);
    }
  }

  function Start(size: nat): Pool { Pool(seq(size, _ => []), 0, map[]) }

  function Calls(p: Pool, calls: seq<Runner>): (t: Pool)
    requires p.Valid()
    ensures t.Valid()
  {
    if calls == [] then p else Queued(Calls(p, calls[..|calls| - 1]), calls[|calls| - 1])
  }

  /** On every run of calls, the runners of a track are all in the queue of the track, in call order, and
      nowhere else. */
  lemma {:induction false} TracksStayInOrder(size: nat, calls: seq<Runner>)
    requires 0 < size < UINT16
    ensures Inv(Calls(Start(size), calls), calls)
  {
    if calls != [] {
      var before := calls[..|calls| - 1];
      TracksStayInOrder(size, before);
      CallKeepsInv(Calls(Start(size), before), before, calls[|calls| - 1]);
      assert before + [calls[|calls| - 1]] == calls;
    }
  }

  // ---------------------------------------------------------------- the queue of a new track

  function Tracks(calls: seq<Runner>): set<nat> { set i | 0 <= i < |calls| :: calls[i].track }

  /** After calls of these tracks: each has its queue, and the counter has counted them. */
  ghost predicate InTurn(p: Pool, size: nat, tracks: set<nat>) {
    && p.Valid() && |p.queues| == size && p.current == |tracks| % UINT16
    && forall track :: p.Thread(track) == 0 <==> track !in tracks
  }

  lemma CallServes(p: Pool, size: nat, tracks: set<nat>, r: Runner)
    requires InTurn(p, size, tracks)
    ensures InTurn(Queued(p, r), size, tracks + {r.track})
  {
    if r.track in tracks {
      assert tracks + {r.track} == tracks;
    } else {
      NextOfCounter(|tracks|);
    }
  }

  lemma NextOfCounter(n: nat)
    ensures (n % UINT16 + 1) % UINT16 == (n + 1) % UINT16
  {
  }

  lemma {:induction false} CallsServe(size: nat, calls: seq<Runner>)
    requires 0 < size < UINT16
    ensures InTurn(Calls(Start(size), calls), size, Tracks(calls))
  {
    hide InTurn, Queued;
    if calls == [] {
      NobodyInTurn(size);
    } else {
      var n := |calls| - 1;
      CallsServe(size, calls[..n]);
      CallServes(Calls(Start(size), calls[..n]), size, Tracks(calls[..n]), calls[n]);
      assert calls == calls[..n] + [calls[n]];
      assert Tracks(calls) == Tracks(calls[..n]) + {calls[n].track};
    }
  }

  lemma NobodyInTurn(size: nat)
    requires 0 < size < UINT16
    ensures InTurn(Start(size), size, Tracks([]))
  {
  }

  /** The tracks get the queues in turn, in the order of their first calls: the next new track gets the queue behind
      that of the last one, as long as 16 bits count the tracks. */
  lemma NewTracksTakeTurns(size: nat, calls: seq<Runner>, r: Runner)
    requires 0 < size < UINT16 && r.track !in Tracks(calls)
    ensures var p := Calls(Start(size), calls);
      Queued(p, r).Thread(r.track) == |Tracks(calls)| % UINT16 % size + 1
  {
    CallsServe(size, calls);
  }

  // ---------------------------------------------------------------- the pool and its queues together

  /** The pool, the calls made so far, the calls that still wait for the lock of their queue, at most one of each
      track, and the queues with their threads. */
  datatype System = System(pool: Pool, calls: seq<Runner>, calling: map<nat, Runner>, queues: seq<State<Runner>>)

  /** A call chooses its queue, takes the lock of this queue, and all the rest is done by the queues. */
  datatype Move = Call(r: Runner) | Enter(track: nat) | Inner(q: nat, step: Step<Runner>)

  function Boot(size: nat): System { System(Start(size), [], map[], seq(size, _ => Init())) }

  predicate Able(s: System, move: Move) {
    && s.pool.Valid()
    && match move
       case Call(r) => r.track !in s.calling
       case Enter(track) =>
         track in s.calling && 0 < s.pool.Thread(track) <= |s.queues|
         && Enabled(s.queues[s.pool.Thread(track) - 1], Lock(s.calling[track]))
       case Inner(q, step) => q < |s.queues| && !step.Lock? && Enabled(s.queues[q], step)
  }

  function Moved(s: System, move: Move): System
    requires Able(s, move)
  {
    match move
    case Call(r) => s.(pool := Queued(s.pool, r), calls := s.calls + [r], calling := s.calling[r.track := r])
    case Enter(track) =>
      var q := s.pool.Thread(track) - 1;
      s.(calling := s.calling - {track}, queues := s.queues[q := Next(s.queues[q], Lock(s.calling[track]))])
    case Inner(q, step) => s.(queues := s.queues[q := Next(s.queues[q], step)])
  }

  /** What a queue was given by those who have entered it. */
  function History(s: State<Runner>): seq<Runner> {
    s.enqueued + match s.producer
                 case Nobody => []
                 case Signaling => []
                 case Unlocking => []
                 case _ => [s.producer.item]
  }

  /** A queue has been given what the pool chose it for, but for the call that waits for its lock. */
  ghost predicate Agrees(s: System, track: nat, q: nat)
    requires q < |s.queues| == |s.pool.queues|
  {
    Of(History(s.queues[q]), track)
    + (if track in s.calling && s.pool.Thread(track) == q + 1 then [s.calling[track]] else [])
    == Of(s.pool.queues[q], track)
  }

  ghost predicate SystemInv(s: System) {
    && Inv(s.pool, s.calls) && |s.queues| == |s.pool.queues|
    && (forall q :: 0 <= q < |s.queues| ==> ThreadQueues.Inv(s.queues[q]))
    && (forall track :: track in s.calling ==> s.calling[track].track == track && s.pool.Thread(track) != 0)
    && (forall track, q :: 0 <= q < |s.queues| ==> Agrees(s, track, q))
  }

  lemma HistoryStays(s: State<Runner>, step: Step<Runner>)
    requires Enabled(s, step)
    ensures History(Next(s, step)) == History(s) + if step.Lock? then [step.item] else []
  {
  }

  lemma CallAgrees(s: System, r: Runner, track: nat, q: nat)
    requires SystemInv(s) && Able(s, Call(r)) && q < |s.queues|
    ensures Agrees(Moved(s, Call(r)), track, q)
  {
    assert Agrees(s, track, q);
    hide Of, History, Enabled, Next, Inv, ThreadQueues.Inv;
    OfSnoc(s.pool.queues[q], r, track);
  }

  lemma EnterAgrees(s: System, entering: nat, track: nat, q: nat)
    requires SystemInv(s) && Able(s, Enter(entering)) && q < |s.queues|
    ensures Agrees(Moved(s, Enter(entering)), track, q)
  {
    assert Agrees(s, track, q);
    hide Of, History, Enabled, Next, Inv, ThreadQueues.Inv;
    var r, target := s.calling[entering], s.pool.Thread(entering) - 1;
    HistoryStays(s.queues[target], Lock(r));
    OfSnoc(History(s.queues[target]), r, track);
  }

  lemma InnerAgrees(s: System, target: nat, step: Step<Runner>, track: nat, q: nat)
    requires SystemInv(s) && Able(s, Inner(target, step)) && q < |s.queues|
    ensures Agrees(Moved(s, Inner(target, step)), track, q)
  {
    assert Agrees(s, track, q);
    hide Of, History, Enabled, Next, Inv, ThreadQueues.Inv;
    HistoryStays(s.queues[target], step);
    assert History(s.queues[target]) + [] == History(s.queues[target]);
  }

  lemma MoveAgrees(s: System, move: Move, track: nat, q: nat)
    requires SystemInv(s) && Able(s, move) && q < |s.queues|
    ensures Agrees(Moved(s, move), track, q)
  {
    hide SystemInv, Able, Agrees;
    match move
    case Call(r) => CallAgrees(s, r, track, q);
    case Enter(entering) => EnterAgrees(s, entering, track, q);
    case Inner(target, step) => InnerAgrees(s, target, step, track, q);
  }

  /** A call, an entry or a step of a queue keeps: each queue has been given, of each track, what the pool chose it
      for, in the order of the calls. */
  lemma MoveKeepsInv(s: System, move: Move)
    requires SystemInv(s) && Able(s, move)
    ensures SystemInv(Moved(s, move))
  {
    hide Inv, ThreadQueues.Inv, Agrees, Enabled, Next;
    var t := Moved(s, move);
    match move {
      case Call(r) => CallKeepsInv(s.pool, s.calls, r);
      case Enter(track) =>
        var q := s.pool.Thread(track) - 1;
        StepKeepsInv(s.queues[q], Lock(s.calling[track]));
      case Inner(q, step) => StepKeepsInv(s.queues[q], step);
    }
    forall track, q | 0 <= q < |t.queues|
      ensures Agrees(t, track, q)
    {
      MoveAgrees(s, move, track, q);
    }
  }

  predicate Happens(s: System, moves: seq<Move>)
    decreases |moves|, 0
  {
    moves == [] ||
    (var before := moves[..|moves| - 1];
     Happens(s, before) && Able(Ends(s, before), moves[|moves| - 1]))
  }

  function Ends(s: System, moves: seq<Move>): System
    requires Happens(s, moves)
    decreases |moves|, 1
  {
    if moves == [] then s else Moved(Ends(s, moves[..|moves| - 1]), moves[|moves| - 1])
  }

  lemma {:induction false} MovesKeepInv(s: System, moves: seq<Move>)
    requires SystemInv(s) && Happens(s, moves)
    ensures SystemInv(Ends(s, moves))
  {
    hide SystemInv;
    if moves != [] {
      var before := moves[..|moves| - 1];
      MovesKeepInv(s, before);
      MoveKeepsInv(Ends(s, before), moves[|moves| - 1]);
    }
  }

  lemma BootHolds(size: nat)
    requires 0 < size < UINT16
    ensures SystemInv(Boot(size))
  {
    TracksStayInOrder(size, []);
  }

  lemma {:induction false} OfPrefix(a: seq<Runner>, b: seq<Runner>, track: nat)
    requires a <= b
    ensures Of(a, track) <= Of(b, track)
    decreases |b|
  {
    if a != b {
      var n := |b| - 1;
      assert a <= b[..n];
      OfPrefix(a, b[..n], track);
    }
  }

  /** On every run of clients, pool, queues and threads: what a queue has executed of a track is what was called
      first of this track, in the order of the calls, and the other queues execute nothing of it. */
  lemma TracksAreExecutedInOrder(size: nat, moves: seq<Move>, track: nat, q: nat)
    requires 0 < size < UINT16 && Happens(Boot(size), moves) && q < size
    ensures var s := Ends(Boot(size), moves);
      && |s.queues| == size
      && Of(s.queues[q].executed, track) <= Of(s.calls, track)
      && (s.pool.Thread(track) != q + 1 ==> Of(s.queues[q].executed, track) == [])
  {
    var s := Ends(Boot(size), moves);
    BootHolds(size);
    MovesKeepInv(Boot(size), moves);
    SizeStays(size, moves);
    hide Of, Happens, Ends;
    assert Agrees(s, track, q) && Holds(s.pool, s.calls, track, q);
    assert s.queues[q].executed <= History(s.queues[q]);
    OfPrefix(s.queues[q].executed, History(s.queues[q]), track);
  }

  lemma {:induction false} SizeStays(size: nat, moves: seq<Move>)
    requires Happens(Boot(size), moves)
    ensures |Ends(Boot(size), moves).queues| == size
  {
    if moves != [] {
      SizeStays(size, moves[..|moves| - 1]);
    }
  }

  // ---------------------------------------------------------------- every call is executed

  predicate Outer(move: Move) { move.Call? || (move.Inner? && External(move.step)) }

  function Sum(queues: seq<State<Runner>>): nat {
    if queues == [] then 0 else Sum(queues[..|queues| - 1]) + Work(queues[|queues| - 1])
  }

  function SystemWork(s: System): nat { Sum(s.queues) + 19 * |s.calling| }

  lemma {:induction false} SumOfUpdate(queues: seq<State<Runner>>, q: nat, t: State<Runner>)
    requires q < |queues|
    ensures Sum(queues[q := t]) == Sum(queues) - Work(queues[q]) + Work(t)
    decreases |queues|
  {
    hide Work;
    var n := |queues| - 1;
    if q < n {
      SumOfUpdate(queues[..n], q, t);
      assert queues[q := t][..n] == queues[..n][q := t];
    } else {
      assert queues[q := t][..n] == queues[..n];
    }
  }

  lemma MoveDoesWork(s: System, move: Move)
    requires Able(s, move) && !Outer(move)
    ensures SystemWork(Moved(s, move)) < SystemWork(s)
  {
    hide Enabled, Next, Work, Sum;
    match move
    case Enter(track) =>
      var q := s.pool.Thread(track) - 1;
      SumOfUpdate(s.queues, q, Next(s.queues[q], Lock(s.calling[track])));
      LockIsWork(s.queues[q], s.calling[track]);
      assert s.calling.Keys == (s.calling - {track}).Keys + {track};
    case Inner(q, step) =>
      SumOfUpdate(s.queues, q, Next(s.queues[q], step));
      StepDoesWork(s.queues[q], step);
    case _ =>
  }

  lemma LockIsWork(s: State<Runner>, r: Runner)
    requires Enabled(s, Lock(r))
    ensures Work(Next(s, Lock(r))) == Work(s) + 18
  {
  }

  /** Nothing can happen by itself. */
  ghost predicate Settled(s: System) {
    forall move :: Able(s, move) ==> Outer(move)
  }

  lemma SettledQueue(s: System, q: nat)
    requires SystemInv(s) && Settled(s) && q < |s.queues|
    ensures s.queues[q].executed == s.queues[q].enqueued && s.queues[q].producer.Nobody?
  {
    forall step | Enabled(s.queues[q], step)
      ensures External(step)
    {
      if !step.Lock? {
        assert Able(s, Inner(q, step));
      }
    }
    StuckMeansExecuted(s.queues[q]);
  }

  lemma SettledCalls(s: System)
    requires SystemInv(s) && Settled(s)
    ensures s.calling == map[]
  {
    if track :| track in s.calling {
      var q := s.pool.Thread(track) - 1;
      SettledQueue(s, q);
      assert Able(s, Enter(track));
    }
  }

  /** Whatever has been called, left to themselves the threads stop after a bounded number of moves, and they stop only
      when every call of every track was executed, in order, by the queue of the track. */
  lemma {:induction false} EveryCallIsExecuted(s: System, moves: seq<Move>, track: nat)
    requires SystemInv(s) && Happens(s, moves) && forall i :: 0 <= i < |moves| ==> !Outer(moves[i])
    ensures var t := Ends(s, moves);
      && t.calls == s.calls && |moves| + SystemWork(t) <= SystemWork(s)
      && (Settled(t) && t.pool.Thread(track) == 0 ==> Of(s.calls, track) == [])
      && (Settled(t) ==> forall q :: 0 <= q < |t.queues| ==>
                           Of(t.queues[q].executed, track) == if t.pool.Thread(track) == q + 1 then Of(s.calls, track) else [])
  {
    MovesKeepInv(s, moves);
    MovesEnd(s, moves);
    var t := Ends(s, moves);
    if Settled(t) {
      forall q | 0 <= q < |t.queues|
        ensures Of(t.queues[q].executed, track) == if t.pool.Thread(track) == q + 1 then Of(s.calls, track) else []
      {
        SettledTrack(t, track, q);
      }
    }
  }

  lemma SettledTrack(s: System, track: nat, q: nat)
    requires SystemInv(s) && Settled(s) && q < |s.queues|
    ensures Of(s.queues[q].executed, track) == if s.pool.Thread(track) == q + 1 then Of(s.calls, track) else []
  {
    SettledQueue(s, q);
    SettledCalls(s);
    hide Of, Settled;
    assert Agrees(s, track, q) && Holds(s.pool, s.calls, track, q);
    assert History(s.queues[q]) == s.queues[q].executed;
  }

  lemma {:induction false} MovesEnd(s: System, moves: seq<Move>)
    requires Happens(s, moves) && forall i :: 0 <= i < |moves| ==> !Outer(moves[i])
    ensures Ends(s, moves).calls == s.calls && |moves| + SystemWork(Ends(s, moves)) <= SystemWork(s)
  {
    hide SystemWork;
    if moves != [] {
      var before := moves[..|moves| - 1];
      MovesEnd(s, before);
      MoveDoesWork(Ends(s, before), moves[|moves| - 1]);
    }
  }

  class ThreadPool {
    var queues: seq<seq<Runner>>   // what each thread queue was given
    var current: nat               // std::atomic<uint16_t> _current

    constructor (size: nat)
      requires 0 < size < UINT16
      ensures queues == Start(size).queues && current == 0
    {
      queues, current := seq(size, _ => []), 0;
    }

    /** `thread` is the client variable of the track of `r`; its new value is returned. */
    method Queue(thread: nat, r: Runner, ghost threads: map<nat, nat>) returns (thread': nat)
      requires Pool(queues, current, threads).Valid() && thread == Pool(queues, current, threads).Thread(r.track)
      modifies this
      ensures Pool(queues, current, threads[r.track := thread']) == Queued(old(Pool(queues, current, threads)), r)
    {
      thread' := thread;
      if thread' != 0 {
        queues := queues[thread' - 1 := queues[thread' - 1] + [r]];
        return;
      }
      thread' := current % |queues|;
      current := (current + 1) % UINT16;
      queues := queues[thread' := queues[thread'] + [r]];
      thread' := thread' + 1;
    }
  }
}
