/** `Timer`: deadlines mapped to buckets of timers, each timer knowing its own deadline. */
module Timers {

  const UINT32 := 0x1_0000_0000

  /** `nextRaising` is 0 when the timer is not scheduled. */
  class OnTimer {
    var nextRaising: int

    constructor ()
      ensures nextRaising == 0
    {
      nextRaising := 0;
    }
  }

  // ---------------------------------------------------------------- what `raise` promises

  /** One call of a timer by `raise`, and the timeout that it answered. */
  datatype Firing<T> = Firing(timer: T, deadline: int, delay: nat, timeout: nat)

  function Rearmed(timeout: nat, now: int): int { if timeout == 0 then 0 else now + timeout }

  ghost function Fired<T>(fired: seq<Firing<T>>): set<T> {
    set i | 0 <= i < |fired| :: fired[i].timer
  }

  /** The calls of one `raise` from the deadlines `origin`: of timers due at `now`, each at most once, in the
      order of their deadlines; the k-th call answers `answers(k)`. */
  ghost predicate Log<T>(origin: map<T, int>, now: int, answers: nat -> nat, fired: seq<Firing<T>>) {
    fired == [] ||
    (var n := |fired| - 1;
     && Log(origin, now, answers, fired[..n])
     && fired[n].timer in origin && fired[n].timer !in Fired(fired[..n])
     && 0 < fired[n].deadline == origin[fired[n].timer] <= now
     && fired[n].delay == (now - fired[n].deadline) % UINT32 && fired[n].timeout == answers(n)
     && (n > 0 ==> fired[n - 1].deadline <= fired[n].deadline))
  }

  /** The deadlines after these calls. */
  ghost function After<T>(origin: map<T, int>, now: int, fired: seq<Firing<T>>): (after: map<T, int>)
    ensures origin.Keys <= after.Keys
  {
    if fired == [] then origin else
      var n := |fired| - 1;
      After(origin, now, fired[..n])[fired[n].timer := Rearmed(fired[n].timeout, now)]
  }

  /** The log, call by call: no timer twice, deadlines in order. */
  lemma {:induction false} LogIsOrdered<T>(origin: map<T, int>, now: int, answers: nat -> nat, fired: seq<Firing<T>>, i: nat, j: nat)
    requires Log(origin, now, answers, fired) && i < j < |fired|
    ensures fired[i].timer != fired[j].timer && fired[i].deadline <= fired[j].deadline
  {
    var n := |fired| - 1;
    if j < n {
      LogIsOrdered(origin, now, answers, fired[..n], i, j);
    } else {
      assert fired[..n][i].timer in Fired(fired[..n]);
      if i < n - 1 {
        LogIsOrdered(origin, now, answers, fired[..n], i, n - 1);
      }
    }
  }

  /** Each call is of a timer that was due, which it tells its delay, and has the answer of its turn. */
  lemma {:induction false} EachCall<T>(origin: map<T, int>, now: int, answers: nat -> nat, fired: seq<Firing<T>>, i: nat)
    requires Log(origin, now, answers, fired) && i < |fired|
    ensures var f := fired[i];
      && f.timer in origin && 0 < origin[f.timer] == f.deadline <= now && f.timeout == answers(i)
      && (now - f.deadline < 0x1_0000_0000 ==> f.delay == now - f.deadline)
  {
    if i < |fired| - 1 {
      EachCall(origin, now, answers, fired[..|fired| - 1], i);
    }
  }

  /** The deadlines after the log: a fired timer is re-armed by its answer or stopped, the others keep theirs. */
  lemma {:induction false} AfterLog<T>(origin: map<T, int>, now: int, answers: nat -> nat, fired: seq<Firing<T>>)
    requires Log(origin, now, answers, fired)
    ensures After(origin, now, fired).Keys == origin.Keys
    ensures forall t :: t in origin && t !in Fired(fired) ==> After(origin, now, fired)[t] == origin[t]
    ensures forall i :: 0 <= i < |fired| ==>
              fired[i].timer in origin && After(origin, now, fired)[fired[i].timer] == (if answers(i) == 0 then 0 else now + answers(i))
  {
    if fired != [] {
      var n := |fired| - 1;
      AfterLog(origin, now, answers, fired[..n]);
      FiredSnoc(fired[..n], fired[n]);
      assert fired == fired[..n] + [fired[n]];
      forall i | 0 <= i < |fired|
        ensures fired[i].timer in origin && After(origin, now, fired)[fired[i].timer] == (if answers(i) == 0 then 0 else now + answers(i))
      {
        if i < n { assert fired[..n][i] == fired[i]; LogIsOrdered(origin, now, answers, fired, i, n); }
      }
    }
  }

  lemma FiredSnoc<T>(fired: seq<Firing<T>>, f: Firing<T>)
    ensures Fired(fired + [f]) == Fired(fired) + {f.timer}
  {
    forall t | t in Fired(fired) + {f.timer}
      ensures t in Fired(fired + [f])
    {
      if t == f.timer {
        assert (fired + [f])[|fired|].timer == t;
      } else {
        var i :| 0 <= i < |fired| && fired[i].timer == t;
        assert (fired + [f])[i].timer == t;
      }
    }
  }

  /** One more call. */
  lemma LogMore<T>(origin: map<T, int>, now: int, answers: nat -> nat, fired: seq<Firing<T>>, f: Firing<T>)
    requires Log(origin, now, answers, fired)
    requires f.timer in origin && f.timer !in Fired(fired) && 0 < f.deadline == origin[f.timer] <= now
    requires f.delay == (now - f.deadline) % UINT32 && f.timeout == answers(|fired|)
    requires fired != [] ==> fired[|fired| - 1].deadline <= f.deadline
    ensures Log(origin, now, answers, fired + [f])
    ensures After(origin, now, fired + [f]) == After(origin, now, fired)[f.timer := Rearmed(f.timeout, now)]
    ensures Fired(fired + [f]) == Fired(fired) + {f.timer}
  {
    assert (fired + [f])[..|fired|] == fired;
    FiredSnoc(fired, f);
  }

  // ---------------------------------------------------------------- the code

  ghost function Deadlines(known: set<OnTimer>): map<OnTimer, int>
    reads known`nextRaising
  {
    map t | t in known :: t.nextRaising
  }

  ghost function Scheduled(known: set<OnTimer>): set<OnTimer>
    reads known`nextRaising
  {
    set t | t in known && t.nextRaising != 0
  }

  class Timer {
    var timers: map<int, set<OnTimer>>
    var count: nat
    ghost var known: set<OnTimer>   // the timers that were given to this machine

    /** No empty bucket, and every timer of a bucket has its deadline. */
    ghost predicate Buckets()
      reads this, known`nextRaising
    {
      && (forall d :: d in timers ==> d > 0 && timers[d] != {} && timers[d] <= known)
      && (forall d, t :: d in timers && t in timers[d] ==> t.nextRaising == d)
    }

    /** Every scheduled timer is in its bucket, but those of `firing`, which `raise` has taken out. */
    ghost predicate Indexed(firing: set<OnTimer>)
      reads this, known`nextRaising
    {
      forall t :: t in Scheduled(known) && t !in firing ==> t.nextRaising in timers && t in timers[t.nextRaising]
    }

    ghost predicate Valid()
      reads this, known`nextRaising
    {
      Buckets() && Indexed({}) && count == |Scheduled(known)|
    }

    constructor ()
      ensures Valid() && known == {}
    {
      timers, count, known := map[], 0, {};
    }

    /** Puts a timer that is in no bucket into the bucket of `d`, with the set `move` if it can be reused. */
    method Place(onTimer: OnTimer, d: int, move: set<OnTimer>, ghost firing: set<OnTimer>)
      requires Buckets() && Indexed(firing) && onTimer in known && onTimer !in firing
      requires onTimer.nextRaising == 0 && d > 0 && (move == {} || move == {onTimer})
      modifies this`timers, this`count, onTimer`nextRaising
      ensures Buckets() && Indexed(firing) && onTimer.nextRaising == d && count == old(count) + 1
      ensures timers.Keys == old(timers.Keys) + {d}
    {
      count := count + 1;
      onTimer.nextRaising := d;
      if d in timers {
        timers := timers[d := timers[d] + {onTimer}];
      } else if move == {} {
        timers := timers[d := {onTimer}];
      } else {
        timers := timers[d := move];
      }
    }

    /** `add`. */
    method Add(onTimer: OnTimer, timeout: nat, now: int, ghost firing: set<OnTimer>)
      requires Buckets() && Indexed(firing) && onTimer in known && onTimer !in firing
      requires onTimer.nextRaising == 0 && now > 0
      modifies this`timers, this`count, onTimer`nextRaising
      ensures Buckets() && Indexed(firing)
      ensures onTimer.nextRaising == if timeout == 0 then 0 else now + timeout
      ensures count == old(count) + if timeout == 0 then 0 else 1
      ensures timers.Keys == old(timers.Keys) + if timeout == 0 then {} else {now + timeout}
    {
      if timeout == 0 {
        return;
      }
      Place(onTimer, now + timeout, {}, firing);
    }

    /** `remove`: whether the timer was scheduled, and its bucket when it was alone in it.  The branch of
        FATAL_ERROR is never taken by a timer of this machine. */
    method Remove(onTimer: OnTimer) returns (removed: bool, move: set<OnTimer>)
      requires Valid() && (onTimer.nextRaising != 0 ==> onTimer in known)
      modifies this`timers, this`count, onTimer`nextRaising
      ensures Buckets() && Indexed({}) && onTimer.nextRaising == 0
      ensures removed <==> old(onTimer.nextRaising) != 0
      ensures move == {} || move == {onTimer}
      ensures count == old(count) - if removed then 1 else 0
    {
      move := {};
      if onTimer.nextRaising == 0 {
        return false, move;
      }
      var d := onTimer.nextRaising;
      assert onTimer in Scheduled(known);
      if d in timers {
        onTimer.nextRaising := 0;
        count := count - 1;
        if |timers[d]| == 1 {
          if onTimer in timers[d] {
            move := timers[d];
            Single(move, onTimer);
            timers := timers - {d};
            return true, move;
          }
        } else if onTimer in timers[d] {
          Several(timers[d], onTimer);
          timers := timers[d := timers[d] - {onTimer}];
          return true, move;
        }
      }
      assert false; // FATAL_ERROR
    }

    /** `set`: schedules, moves or (with a zero timeout) removes the timer. */
    method Set(onTimer: OnTimer, timeout: nat, now: int)
      requires Valid() && (onTimer.nextRaising != 0 ==> onTimer in known) && now > 0
      modifies this, onTimer`nextRaising
      ensures Valid() && known == old(known) + {onTimer}
      ensures onTimer.nextRaising == if timeout == 0 then 0 else now + timeout
    {
      Learn(onTimer);
      ghost var before := Scheduled(known);
      var removed, move := Remove(onTimer);
      if !removed {
        Add(onTimer, timeout, now, {});
      } else if timeout != 0 {
        Place(onTimer, now + timeout, move, {});
      }
      Recount(before, onTimer);
    }

    ghost method Learn(onTimer: OnTimer)
      requires Valid() && (onTimer.nextRaising != 0 ==> onTimer in known)
      modifies this`known
      ensures Valid() && known == old(known) + {onTimer}
    {
      ghost var before := Scheduled(known);
      known := known + {onTimer};
      assert Scheduled(known) == before;
    }

    /** Only `onTimer` may have changed since `before`. */
    lemma Recount(before: set<OnTimer>, onTimer: OnTimer)
      requires onTimer in known
      requires forall t :: t in known && t != onTimer ==> (t in before <==> t.nextRaising != 0)
      requires before <= known
      ensures |Scheduled(known)| == |before| - (if onTimer in before then 1 else 0) + (if onTimer.nextRaising != 0 then 1 else 0)
    {
      if onTimer.nextRaising != 0 {
        assert Scheduled(known) == (before - {onTimer}) + {onTimer};
      } else {
        assert Scheduled(known) == before - {onTimer};
      }
    }

    // -------------------------------------------------------------- raise

    /** Calls one timer of the bucket that was taken out; it answers `timeout`. */
    method Fire(t: OnTimer, now: int, timeout: nat, ghost rest: set<OnTimer>)
      requires Buckets() && Indexed(rest + {t}) && count == |Scheduled(known)|
      requires t in known && t !in rest && 0 < t.nextRaising <= now && t.nextRaising !in timers
      modifies this`timers, this`count, t`nextRaising
      ensures Buckets() && Indexed(rest) && count == |Scheduled(known)|
      ensures t.nextRaising == Rearmed(timeout, now)
      ensures forall d :: d in timers ==> d in old(timers) || d > now
    {
      ghost var before := Scheduled(known);
      assert t in before;
      t.nextRaising := 0;
      count := count - 1;
      Add(t, timeout, now, rest);
      Recount(before, t);
    }

    /** Calls the timer `t` of the bucket of `d` and logs the call. */
    method FireNext(t: OnTimer, d: int, now: int, timeout: nat, before: seq<Firing<OnTimer>>, ghost rest: set<OnTimer>,
                    ghost origin: map<OnTimer, int>, ghost answers: nat -> nat) returns (fired: seq<Firing<OnTimer>>)
      requires Buckets() && Indexed(rest + {t}) && count == |Scheduled(known)| && timeout == answers(|before|)
      requires 0 < d <= now && d !in timers && t in known && t !in rest && t.nextRaising == d
      requires Log(origin, now, answers, before) && Deadlines(known) == After(origin, now, before)
      requires before != [] ==> before[|before| - 1].deadline <= d
      modifies this`timers, this`count, t`nextRaising
      ensures Buckets() && Indexed(rest) && count == |Scheduled(known)|
      ensures Log(origin, now, answers, fired) && Deadlines(known) == After(origin, now, fired)
      ensures Fired(fired) == Fired(before) + {t}
      ensures fired != [] && fired[|fired| - 1].deadline == d
      ensures forall e :: e in timers ==> e in old(timers) || e > now
    {
      hide Log, After, Fired, Indexed, Buckets;
      var f := Firing(t, d, (now - d) % UINT32, timeout);
      NotFiredYet(origin, now, answers, before, t);
      LogMore(origin, now, answers, before, f);
      ghost var was := Deadlines(known);
      Fire(t, now, timeout, rest);
      assert Deadlines(known) == was[t := Rearmed(timeout, now)];
      fired := before + [f];
    }

    /** The bucket of `d`, taken out of the map. */
    method FireBucket(d: int, bucket: set<OnTimer>, now: int, answers: nat -> nat, before: seq<Firing<OnTimer>>,
                      ghost origin: map<OnTimer, int>) returns (fired: seq<Firing<OnTimer>>)
      requires Buckets() && Indexed(bucket) && count == |Scheduled(known)|
      requires 0 < d <= now && d !in timers && bucket <= known && forall t :: t in bucket ==> t.nextRaising == d
      requires Log(origin, now, answers, before) && Deadlines(known) == After(origin, now, before)
      requires before != [] ==> before[|before| - 1].deadline < d
      modifies this`timers, this`count, bucket`nextRaising
      ensures Buckets() && Indexed({}) && count == |Scheduled(known)|
      ensures Log(origin, now, answers, fired) && Deadlines(known) == After(origin, now, fired)
      ensures Fired(fired) == Fired(before) + bucket
      ensures bucket != {} ==> fired != [] && fired[|fired| - 1].deadline == d
      ensures forall e :: e in timers ==> e in old(timers) || e > now
    {
      hide Log, After, Fired, Buckets, Scheduled, Deadlines;
      fired := before;
      var rest := bucket;
      while rest != {}
        invariant rest <= bucket && Buckets() && Indexed(rest) && count == |Scheduled(known)|
        invariant d !in timers && forall t :: t in rest ==> t.nextRaising == d
        invariant Log(origin, now, answers, fired) && Deadlines(known) == After(origin, now, fired)
        invariant Fired(fired) == Fired(before) + (bucket - rest)
        invariant fired != [] ==> fired[|fired| - 1].deadline <= d
        invariant rest != bucket ==> fired != [] && fired[|fired| - 1].deadline == d
        invariant forall e :: e in timers ==> e in old(timers) || e > now
        decreases rest
      {
        var t :| t in rest;
        assert rest == (rest - {t}) + {t};
        rest := rest - {t};
        fired := FireNext(t, d, now, answers(|fired|), fired, rest, origin, answers);
      }
    }

    /** A timer that is still due was not fired, and has its first deadline. */
    lemma NotFiredYet(origin: map<OnTimer, int>, now: int, answers: nat -> nat, fired: seq<Firing<OnTimer>>, t: OnTimer)
      requires Log(origin, now, answers, fired) && Deadlines(known) == After(origin, now, fired)
      requires t in known && 0 < t.nextRaising <= now
      ensures t !in Fired(fired) && t in origin && origin[t] == t.nextRaising
    {
      AfterLog(origin, now, answers, fired);
      assert t in Deadlines(known);
    }

    /** The time from `now` to the earliest deadline, 0 when there is none. */
    ghost predicate Waits(wait: nat, now: int)
      reads this`known, known`nextRaising
    {
      if Scheduled(known) == {} then wait == 0
      else exists t :: t in Scheduled(known) && wait == (t.nextRaising - now) % UINT32
                       && forall u :: u in Scheduled(known) ==> t.nextRaising <= u.nextRaising
    }

    lemma FirstWaits(d: int, now: int)
      requires Valid() && d in timers && forall e :: e in timers ==> d <= e
      ensures Waits((d - now) % UINT32, now)
      ensures forall t :: t in known && t.nextRaising != 0 ==> t.nextRaising >= d
    {
      var t :| t in timers[d];
      assert t in Scheduled(known);
    }

    /** Nothing due is left, and `wait` is the time to the earliest deadline. */
    ghost predicate Raised(wait: nat, now: int)
      reads this`known, known`nextRaising
    {
      Waits(wait, now) && forall t :: t in known ==> t.nextRaising == 0 || t.nextRaising > now
    }

    /** What the calls `fired` have made of the deadlines `origin`. */
    ghost predicate Raising(origin: map<OnTimer, int>, now: int, answers: nat -> nat, fired: seq<Firing<OnTimer>>)
      reads this, known`nextRaising
    {
      && Valid() && Log(origin, now, answers, fired) && Deadlines(known) == After(origin, now, fired)
      && (fired != [] ==> forall d :: d in timers ==> fired[|fired| - 1].deadline < d)
    }

    /** `raise`, the clock standing at `now`; the k-th call answers `answers(k)`.  The result is the time to the
        earliest deadline left, or 0. */
    method Raise(now: int, answers: nat -> nat) returns (wait: nat, fired: seq<Firing<OnTimer>>)
      requires Valid() && now > 0
      modifies this`timers, this`count, known`nextRaising
      ensures Raising(old(Deadlines(known)), now, answers, fired)
      ensures Raised(wait, now)
    {
      ghost var origin := Deadlines(known);
      fired := [];
      assert Raising(origin, now, answers, fired);
      hide Raising, Raised, Deadlines, Fired;
      var stop: bool;
      while timers != map[]
        invariant Raising(origin, now, answers, fired)
        decreases known - Fired(fired)
      {
        stop, wait, fired := RaiseFirst(now, answers, fired, origin);
        if stop {
          return;
        }
      }
      wait := 0;
      NothingWaits(origin, now, answers, fired);
    }

    /** One turn of the loop of `raise`. */
    method RaiseFirst(now: int, answers: nat -> nat, before: seq<Firing<OnTimer>>, ghost origin: map<OnTimer, int>)
      returns (stop: bool, wait: nat, fired: seq<Firing<OnTimer>>)
      requires Raising(origin, now, answers, before) && timers != map[] && now > 0
      modifies this`timers, this`count, known`nextRaising
      ensures Raising(origin, now, answers, fired)
      ensures stop ==> Raised(wait, now)
      ensures !stop ==> known - Fired(fired) < known - Fired(before)
    {
      hide Log, After, Fired, Waits, Deadlines, Valid;
      var d := First();
      FirstWaits(d, now);
      var waiting := d - now;
      if waiting > 0 {
        return true, waiting % UINT32, before;
      }
      fired := FireFirst(d, now, answers, before, origin);
      stop, wait := false, 0;
    }

    lemma NothingWaits(origin: map<OnTimer, int>, now: int, answers: nat -> nat, fired: seq<Firing<OnTimer>>)
      requires Raising(origin, now, answers, fired) && timers == map[]
      ensures Raised(0, now)
    {
      hide Log, After;
      assert Scheduled(known) == {};
    }

    /** Takes out the first bucket and calls its timers. */
    method FireFirst(d: int, now: int, answers: nat -> nat, before: seq<Firing<OnTimer>>, ghost origin: map<OnTimer, int>)
      returns (fired: seq<Firing<OnTimer>>)
      requires Valid() && d in timers && d <= now && forall e :: e in timers ==> d <= e
      requires Log(origin, now, answers, before) && Deadlines(known) == After(origin, now, before)
      requires before != [] ==> before[|before| - 1].deadline < d
      modifies this`timers, this`count, known`nextRaising
      ensures Valid()
      ensures Log(origin, now, answers, fired) && Deadlines(known) == After(origin, now, fired)
      ensures fired != [] && forall e :: e in timers ==> fired[|fired| - 1].deadline < e
      ensures known - Fired(fired) < known - Fired(before)
    {
      hide Log, After, Fired, Scheduled, Deadlines;
      var bucket := timers[d];
      timers := timers - {d};
      forall t | t in bucket
        ensures t !in Fired(before)
      {
        NotFiredYet(origin, now, answers, before, t);
      }
      fired := FireBucket(d, bucket, now, answers, before, origin);
    }

    /** `_timers.begin()`. */
    method First() returns (d: int)
      requires timers != map[]
      ensures d in timers && forall e :: e in timers ==> d <= e
    {
      Earliest(timers.Keys);
      d :| d in timers && forall e :: e in timers ==> d <= e;
    }
  }

  /** After `raise` exactly the timers that were due have fired. */
  lemma DueTimersFired<T>(origin: map<T, int>, now: int, answers: nat -> nat, fired: seq<Firing<T>>, t: T)
    requires Log(origin, now, answers, fired) && t in origin
    requires After(origin, now, fired)[t] == 0 || After(origin, now, fired)[t] > now
    ensures t in Fired(fired) <==> 0 < origin[t] <= now
  {
    AfterLog(origin, now, answers, fired);
    if t in Fired(fired) {
      FiredWasDue(origin, now, answers, fired, t);
    }
  }

  lemma {:induction false} FiredWasDue<T>(origin: map<T, int>, now: int, answers: nat -> nat, fired: seq<Firing<T>>, t: T)
    requires Log(origin, now, answers, fired) && t in Fired(fired)
    ensures t in origin && 0 < origin[t] <= now
  {
    var n := |fired| - 1;
    FiredSnoc(fired[..n], fired[n]);
    assert fired == fired[..n] + [fired[n]];
    if t != fired[n].timer {
      FiredWasDue(origin, now, answers, fired[..n], t);
    }
  }

  lemma Any<T>(s: set<T>) returns (x: T)
    requires s != {}
    ensures x in s
  {
    x :| x in s;
  }

  lemma Earliest(deadlines: set<int>)
    requires deadlines != {}
    ensures exists d :: d in deadlines && forall e :: e in deadlines ==> d <= e
  {
    var d := Any(deadlines);
    var rest := deadlines - {d};
    if rest == {} {
      assert deadlines == {d};
    } else {
      Earliest(rest);
      var m: int :| m in rest && forall e :: e in rest ==> m <= e;
      var least := if d < m then d else m;
      forall e | e in deadlines
        ensures least <= e
      {
        assert e == d || e in rest;
      }
      assert least in deadlines;
    }
  }

  lemma Single(s: set<OnTimer>, t: OnTimer)
    requires |s| == 1 && t in s
    ensures s == {t}
  {
    assert |s - {t}| == 0;
  }

  lemma Several(s: set<OnTimer>, t: OnTimer)
    requires |s| != 1 && t in s
    ensures s - {t} != {}
  {
    assert s == (s - {t}) + {t};
  }
}
