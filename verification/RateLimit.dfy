/** ratelimit/ratelimit.go: the limiter's methods, each a step of the state machine in RateLimitState. */
module RateLimit {
  import opened RateLimitState

  datatype Error = None | ErrStopped

  class Limiter {
    const maxCount: nat
    const interval: real

    // the channel of tokens, as the number it holds; its capacity is maxCount
    var tokens: nat
    var taskCnt: nat
    var doneTaskCnt: nat
    var stopped: bool
    var queue: seq<nat>
    var once: bool
    var stopBlocker1Closed: bool

    // the runtime: the clock, the timers (one for each token taken) and where each call is
    var now: real
    var takes: seq<Take>
    ghost var calls: map<nat, Phase>

    ghost function Snapshot(): State
      reads this
    {
      State(maxCount, interval, tokens, taskCnt, doneTaskCnt, stopped, queue, stopBlocker1Closed, now, takes, calls)
    }

    ghost predicate Valid()
      reads this
    {
      Inv(Snapshot()) && once == stopBlocker1Closed
    }

    /** NewLimiter */
    constructor (maxCount: nat, interval: real)
      ensures Valid() && Snapshot() == Initial(maxCount, interval)
    {
      this.maxCount, this.interval := maxCount, interval;
      tokens, taskCnt, doneTaskCnt, stopped, queue := 0, 0, 0, false, [];
      once, stopBlocker1Closed := false, false;
      now, takes, calls := 0.0, [], map[];
      new;
      for i := 0 to maxCount
        modifies this`tokens
        invariant tokens == i
      {
        Send();
      }
      assert Flying(calls) == {};
    }

    /** A send that finds room in the channel. */
    method Send()
      requires tokens < maxCount
      modifies this`tokens
      ensures tokens == old(tokens) + 1
    {
      tokens := tokens + 1;
    }

    /** Acquire, up to the select. */
    method Enter(ghost c: nat) returns (err: Error)
      requires Valid() && Enabled(Snapshot(), Event.Enter(c))
      modifies this
      ensures Snapshot() == Next(old(Snapshot()), Event.Enter(c))
      ensures Valid()
      ensures err.ErrStopped? <==> old(stopped)
    {
      StepKeepsInv(Snapshot(), Event.Enter(c));
      if stopped {
        calls := calls[c := Rejected];
        return ErrStopped;
      }
      taskCnt := taskCnt + 1;
      calls := calls[c := Selecting];
      return None;
    }

    /** The select's case for the token. */
    method Receive(c: nat)
      requires Valid() && Enabled(Snapshot(), Grab(c))
      modifies this
      ensures Snapshot() == Next(old(Snapshot()), Grab(c))
      ensures Valid()
    {
      StepKeepsInv(Snapshot(), Grab(c));
      calls := calls[c := Holding(|takes|)];
      tokens := tokens - 1;
      takes := takes + [Take(now, c, Held)];
    }

    /** The select's case for the context. */
    method Give(ghost c: nat)
      requires Valid() && Enabled(Snapshot(), Cancel(c))
      modifies this
      ensures Snapshot() == Next(old(Snapshot()), Cancel(c))
      ensures Valid()
    {
      StepKeepsInv(Snapshot(), Cancel(c));
      calls := calls[c := Cancelled];
    }

    /** time.AfterFunc, under the mutex, for token `k`. */
    method AfterFunc(ghost c: nat, k: nat)
      requires Valid() && Enabled(Snapshot(), Event.Arm(c)) && calls[c].k == k
      modifies this
      ensures Snapshot() == Next(old(Snapshot()), Event.Arm(c))
      ensures Valid()
    {
      StepKeepsInv(Snapshot(), Event.Arm(c));
      takes := Mark(takes, k, Armed(now + interval));
      queue := queue + [k];
      calls := calls[c := Served];
    }

    method CountDone(ghost c: nat)
      requires Valid() && Enabled(Snapshot(), Event.Count(c))
      modifies this
      ensures Snapshot() == Next(old(Snapshot()), Event.Count(c))
      ensures Valid()
    {
      StepKeepsInv(Snapshot(), Event.Count(c));
      doneTaskCnt := doneTaskCnt + 1;
      calls := calls[c := Counted];
    }

    method CheckTasksCompl(ghost c: nat)
      requires Valid() && Enabled(Snapshot(), Check(c))
      modifies this
      ensures Snapshot() == Next(old(Snapshot()), Check(c))
      ensures Valid()
    {
      StepKeepsInv(Snapshot(), Check(c));
      calls := calls[c := if calls[c].Counted? then Finished else Blocked];
      if stopped && doneTaskCnt == taskCnt {
        Shut();
      }
    }

    /** Stops the timers in the queue and, once, closes stopBlocker1. */
    method Shut()
      requires once == stopBlocker1Closed && forall k :: k in queue ==> k < |takes|
      modifies this`takes, this`once, this`stopBlocker1Closed
      ensures takes == StopTimers(old(takes), queue) && once && stopBlocker1Closed
    {
      StopAll();
      if !once {
        once := true;
        Close();
      }
    }

    /** close(l.stopBlocker1): closing twice would panic. */
    method Close()
      requires !stopBlocker1Closed
      modifies this`stopBlocker1Closed
      ensures stopBlocker1Closed
    {
      stopBlocker1Closed := true;
    }

    method StopAll()
      requires forall k :: k in queue ==> k < |takes|
      modifies this`takes
      ensures takes == StopTimers(old(takes), queue)
    {
      for i := 0 to |queue|
        invariant takes == StopTimers(old(takes), queue[..i])
      {
        assert queue[..i + 1] == queue[..i] + [queue[i]];
        assert queue[i] in queue;
        takes := takes[queue[i] := StopTimer(takes[queue[i]])];
      }
      assert queue[..|queue|] == queue;
    }

    /** Stop, up to checkTasksCompl. */
    method SetStopped(ghost c: nat)
      requires Valid() && Enabled(Snapshot(), BeginStop(c))
      modifies this
      ensures Snapshot() == Next(old(Snapshot()), BeginStop(c))
      ensures Valid()
    {
      StepKeepsInv(Snapshot(), BeginStop(c));
      stopped := true;
      calls := calls[c := Stopping];
    }

    /** The function given to AfterFunc, for a timer that went off: it indexes the queue and sends a token. */
    method Callback(k: nat)
      requires Valid() && Enabled(Snapshot(), Fire(k))
      modifies this
      ensures Snapshot() == Next(old(Snapshot()), Fire(k))
      ensures Valid()
    {
      StepKeepsInv(Snapshot(), Fire(k));
      FireIsSafe(Snapshot(), k);
      var first := queue[0];
      queue := queue[1..];
      Send();
      takes := Mark(takes, k, Returned);
    }
  }
}
