/**
 * `StatsBufferize` and its `WorkerHandler`: the hand-off of records to the
 * asynchronous worker, and the idle timer that tells the router when nothing
 * has arrived for a while.
 *
 * The worker, the router and the stopwatch are not modelled: the worker's
 * accept/reject decision and the clock are parameters, and what reaches the
 * worker, the router or a record's `Dispose` is kept in logs.
 */
module Bufferize {
  import opened Wrappers

  /** A record on its way to the router; `id` tells records apart in the logs. */
  datatype Stats = Stats(id: nat, payload: string)

  /** What the handler asks of the `StatsRouter`. */
  datatype RouterCall = Route(stats: Stats) | RouterIdle | RouterFlush

  /** What `StatsBufferize` asks of its `AsynchronousWorker`. */
  datatype WorkerCall = Enqueue(stats: Stats) | WorkerFlush | WorkerDispose

  /** The failure of `Route`, which `OnNewValue` lets propagate. */
  datatype HandlerError = RouteFailed

  /**
   * One idle poll on the timer: the timer is started when none runs, and
   * the router is told iff strictly more than `maxIdleWait` milliseconds
   * have passed since it started.
   */
  function IdleStep(idleStart: Option<int>, now: int, maxIdleWait: int): (r: (Option<int>, bool))
    ensures r.0.Some?
    ensures idleStart.Some? ==> r.0 == idleStart
    ensures idleStart.None? ==> r.0 == Some(now)
    ensures r.1 <==> now - r.0.value > maxIdleWait
  {
    var start := if idleStart.None? then now else idleStart.value;
    (Some(start), now - start > maxIdleWait)
  }

  /**
   * The first poll after a value never fires (for a non-negative wait), and
   * once a poll has fired, every later poll fires as well until a new value
   * clears the timer, because firing does not restart it.
   */
  lemma IdleKeepsFiring(idleStart: Option<int>, now: int, later: int, maxIdleWait: int)
    requires now <= later
    ensures maxIdleWait >= 0 ==> !IdleStep(None, now, maxIdleWait).1
    ensures IdleStep(idleStart, now, maxIdleWait).1 ==>
              var again := IdleStep(IdleStep(idleStart, now, maxIdleWait).0, later, maxIdleWait);
              again.1 && again.0 == IdleStep(idleStart, now, maxIdleWait).0
  {
    var start := IdleStep(idleStart, now, maxIdleWait).0;
    assert start.value == if idleStart.None? then now else idleStart.value;
  }

  /** The handler the worker thread calls. */
  class WorkerHandler {
    /** `maxIdleWaitBeforeSending`, in milliseconds. */
    const maxIdleWait: int
    /** The start of the idle stopwatch; `None` is `null`. */
    var idleStart: Option<int>
    var routerCalls: seq<RouterCall>
    /** Every record disposed, in order. */
    var disposed: seq<Stats>

    constructor (maxIdleWait: int)
      ensures this.maxIdleWait == maxIdleWait
      ensures idleStart.None? && routerCalls == [] && disposed == []
    {
      this.maxIdleWait := maxIdleWait;
      idleStart := None;
      routerCalls := [];
      disposed := [];
    }

    /**
     * `OnNewValue`: the record is routed and disposed on every path; the idle
     * timer is cleared only when `Route` returns, while a `Route` that throws
     * leaves it as it was and its exception propagates.
     */
    method OnNewValue(stats: Stats, routeThrows: bool) returns (outcome: Outcome<HandlerError>)
      modifies this
      ensures routerCalls == old(routerCalls) + [Route(stats)]
      ensures disposed == old(disposed) + [stats]
      ensures outcome.Pass? <==> !routeThrows
      ensures idleStart == if routeThrows then old(idleStart) else None
    {
      routerCalls := routerCalls + [Route(stats)];
      if routeThrows {
        outcome := Fail(RouteFailed);
      } else {
        idleStart := None;
        outcome := Pass;
      }
      disposed := disposed + [stats];
    }

    /** `OnIdle` at clock reading `now`: one `IdleStep`, and always `true`. */
    method OnIdle(now: int) returns (r: bool)
      modifies this
      ensures r
      ensures idleStart == IdleStep(old(idleStart), now, maxIdleWait).0
      ensures routerCalls == old(routerCalls) + if IdleStep(old(idleStart), now, maxIdleWait).1 then [RouterIdle] else []
      ensures disposed == old(disposed)
    {
      if idleStart.None? {
        idleStart := Some(now);
      }
      if now - idleStart.value > maxIdleWait {
        routerCalls := routerCalls + [RouterIdle];
        return true;
      }
      return true;
    }

    /** `Flush` forwards to the router and does nothing else. */
    method Flush()
      modifies this
      ensures routerCalls == old(routerCalls) + [RouterFlush]
      ensures idleStart == old(idleStart) && disposed == old(disposed)
    {
      routerCalls := routerCalls + [RouterFlush];
    }
  }

  /** The records among the worker calls, in order. */
  function Enqueued(calls: seq<WorkerCall>): (r: seq<Stats>)
    ensures forall s :: s in r <==> Enqueue(s) in calls
  {
    if calls == [] then []
    else (if calls[0].Enqueue? then [calls[0].stats] else []) + Enqueued(calls[1..])
  }

  lemma {:induction false} EnqueuedAppend(calls: seq<WorkerCall>, call: WorkerCall)
    ensures Enqueued(calls + [call]) == Enqueued(calls) + (if call.Enqueue? then [call.stats] else [])
    decreases |calls|
  {
    var last := if call.Enqueue? then [call.stats] else [];
    if calls == [] {
      assert calls + [call] == [call];
      assert Enqueued([call]) == last + Enqueued([]);
    } else {
      var head := if calls[0].Enqueue? then [calls[0].stats] else [];
      var both := calls + [call];
      assert both[0] == calls[0] && both[1..] == calls[1..] + [call];
      assert Enqueued(both) == head + Enqueued(calls[1..] + [call]);
      EnqueuedAppend(calls[1..], call);
      assert Enqueued(calls) == head + Enqueued(calls[1..]);
    }
  }

  class StatsBufferize {
    const handler: WorkerHandler
    var workerCalls: seq<WorkerCall>
    /** Every record disposed because the worker refused it. */
    var released: seq<Stats>
    /** Every record handed to `Send`. */
    ghost var sent: seq<Stats>

    /** No record is lost: each one sent was either queued or released. */
    ghost predicate Valid()
      reads this
    {
      multiset(sent) == multiset(Enqueued(workerCalls)) + multiset(released)
    }

    constructor (maxIdleWait: int)
      ensures Valid() && fresh(handler) && handler.maxIdleWait == maxIdleWait
      ensures handler.idleStart.None? && handler.routerCalls == [] && handler.disposed == []
      ensures workerCalls == [] && released == [] && sent == []
    {
      handler := new WorkerHandler(maxIdleWait);
      workerCalls := [];
      released := [];
      sent := [];
    }

    /**
     * `Send`: `accepted` is the answer of the worker's `TryEnqueue`. A refused
     * record is disposed and `false` returned; an accepted one is not disposed.
     */
    method Send(stats: Stats, accepted: bool) returns (ok: bool)
      requires Valid()
      modifies this
      ensures Valid()
      ensures ok == accepted
      ensures sent == old(sent) + [stats]
      ensures accepted ==> workerCalls == old(workerCalls) + [Enqueue(stats)] && released == old(released)
      ensures !accepted ==> workerCalls == old(workerCalls) && released == old(released) + [stats]
    {
      sent := sent + [stats];
      if !accepted {
        released := released + [stats];
        return false;
      }
      EnqueuedAppend(workerCalls, Enqueue(stats));
      workerCalls := workerCalls + [Enqueue(stats)];
      return true;
    }

    /** `Flush` forwards to the worker and does nothing else. */
    method Flush()
      requires Valid()
      modifies this
      ensures Valid()
      ensures workerCalls == old(workerCalls) + [WorkerFlush]
      ensures released == old(released) && sent == old(sent)
    {
      EnqueuedAppend(workerCalls, WorkerFlush);
      workerCalls := workerCalls + [WorkerFlush];
    }

    /** `Dispose` forwards to the worker and does nothing else. */
    method Dispose()
      requires Valid()
      modifies this
      ensures Valid()
      ensures workerCalls == old(workerCalls) + [WorkerDispose]
      ensures released == old(released) && sent == old(sent)
    {
      EnqueuedAppend(workerCalls, WorkerDispose);
      workerCalls := workerCalls + [WorkerDispose];
    }
  }
}
