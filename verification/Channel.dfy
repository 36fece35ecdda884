/** One DMA proxy channel as the test program sees it: START queues a buffer, the engine completes
    queued buffers in order, FINISH waits for the completion of one buffer and consumes it. */
module Channel {
  import opened Ring

  /** `submitted` logs every START and `finished` every FINISH; `completed` counts the transfers whose
      completion has been signalled, so `submitted[completed..]` are still under way. `ready` holds the
      buffers whose completion is signalled and not yet consumed. */
  datatype Chan = Chan(submitted: seq<nat>, completed: nat, ready: set<nat>, finished: seq<nat>) {

    predicate WellFormed() {
      completed <= |submitted|
    }

    predicate Queued(b: nat)
      requires WellFormed()
    {
      b in submitted[completed..]
    }

    /** Neither owned by the engine nor waiting to be finished. */
    predicate Idle(b: nat)
      requires WellFormed()
    {
      b !in ready && !Queued(b)
    }

    /** START_XFER: re-initialise the completion and append to the engine's queue. */
    function Start(b: nat): Chan {
      this.(submitted := submitted + [b], ready := ready - {b})
    }

    /** The completion of the oldest transfer under way is signalled. */
    function Complete(): Chan
      requires completed < |submitted|
    {
      this.(completed := completed + 1, ready := ready + {submitted[completed]})
    }

    /** FINISH_XFER returns: the completion is consumed. */
    function Finish(b: nat): Chan
      requires b in ready
    {
      this.(ready := ready - {b}, finished := finished + [b])
    }
  }

  const NEW_CHAN := Chan([], 0, {}, [])

  /** The k-th entry of the log is the k-th buffer of the walk. */
  ghost predicate FollowsWalk(log: seq<nat>, count: nat, d: nat)
    requires IsRing(count, d)
  {
    forall k: nat :: k < |log| ==> log[k] == BufferAt(k, count, d)
  }

  /** Of one turn of the walk from position `from`, exactly the positions before `to` are signalled. */
  ghost predicate Signalled(ready: set<nat>, from: nat, to: nat, count: nat, d: nat)
    requires IsRing(count, d)
  {
    forall k: nat :: from <= k < from + Slots(count, d) ==> (BufferAt(k, count, d) in ready <==> k < to)
  }

  /** The k-th START and the k-th FINISH both name the k-th buffer of the walk, and what is signalled
      is exactly what has completed and FINISH has not consumed, at most one turn of the ring. */
  ghost predicate InRingOrder(c: Chan, count: nat, d: nat)
    requires IsRing(count, d)
  {
    && |c.finished| <= c.completed <= |c.submitted| <= |c.finished| + Slots(count, d)
    && FollowsWalk(c.submitted, count, d)
    && FollowsWalk(c.finished, count, d)
    && Signalled(c.ready, |c.finished|, c.completed, count, d)
  }

  lemma NewIsInRingOrder(count: nat, d: nat)
    requires IsRing(count, d)
    ensures InRingOrder(NEW_CHAN, count, d)
  {
  }

  /** The buffer about to be started is idle: START never hits a buffer in flight. */
  lemma NextToStartIsIdle(c: Chan, count: nat, d: nat)
    requires IsRing(count, d) && InRingOrder(c, count, d)
    requires |c.submitted| < |c.finished| + Slots(count, d)
    ensures c.Idle(BufferAt(|c.submitted|, count, d))
  {
    var b := BufferAt(|c.submitted|, count, d);
    if c.Queued(b) {
      var i :| 0 <= i < |c.submitted| - c.completed && c.submitted[c.completed..][i] == b;
      assert c.submitted[c.completed + i] == b;
      Distinct(c.completed + i, |c.submitted|, count, d);
    }
  }

  lemma StartKeepsOrder(c: Chan, count: nat, d: nat)
    requires IsRing(count, d) && InRingOrder(c, count, d)
    requires |c.submitted| < |c.finished| + Slots(count, d)
    ensures InRingOrder(c.Start(BufferAt(|c.submitted|, count, d)), count, d)
  {
    var n := |c.submitted|;
    var b := BufferAt(n, count, d);
    assert FollowsWalk(c.submitted + [b], count, d);
    forall k: nat | |c.finished| <= k < |c.finished| + Slots(count, d)
      ensures BufferAt(k, count, d) in c.ready - {b} <==> k < c.completed
    {
      if k < n {
        Distinct(k, n, count, d);
      }
    }
  }

  lemma CompleteKeepsOrder(c: Chan, count: nat, d: nat)
    requires IsRing(count, d) && InRingOrder(c, count, d)
    requires c.completed < |c.submitted|
    ensures InRingOrder(c.Complete(), count, d)
  {
    var n := c.completed;
    var b := BufferAt(n, count, d);
    assert c.submitted[n] == b;
    forall k: nat | |c.finished| <= k < |c.finished| + Slots(count, d)
      ensures BufferAt(k, count, d) in c.ready + {b} <==> k < n + 1
    {
      if k > n {
        Distinct(n, k, count, d);
      }
    }
  }

  /** FINISH of the next buffer in the walk can return exactly when that transfer's completion was signalled. */
  lemma FinishReadyIff(c: Chan, count: nat, d: nat)
    requires IsRing(count, d) && InRingOrder(c, count, d)
    ensures BufferAt(|c.finished|, count, d) in c.ready <==> |c.finished| < c.completed
  {
  }

  lemma FinishKeepsOrder(c: Chan, count: nat, d: nat)
    requires IsRing(count, d) && InRingOrder(c, count, d)
    requires BufferAt(|c.finished|, count, d) in c.ready
    ensures InRingOrder(c.Finish(BufferAt(|c.finished|, count, d)), count, d)
  {
    var n := |c.finished|;
    var b := BufferAt(n, count, d);
    FinishReadyIff(c, count, d);
    assert FollowsWalk(c.finished + [b], count, d);
    forall k: nat | n + 1 <= k < n + 1 + Slots(count, d)
      ensures BufferAt(k, count, d) in c.ready - {b} <==> k < c.completed
    {
      if k < n + Slots(count, d) {
        Distinct(n, k, count, d);
      } else {
        Period(n, count, d);
      }
    }
  }
}
