/** The channel that the loopback threads run on is what the driver provides: as long as only idle buffers
    are started, which RingOrderAndOwnership proves of both threads, each driver step is a step of module
    Channel, and a FINISH that is woken reports success unless the engine reports a DMA error. */
module DriverRefinement {
  import D = DmaProxy
  import opened Channel

  /** No buffer is queued twice, or queued while its completion is still unconsumed. */
  ghost predicate OneEach(ch: Chan) {
    && ch.completed <= |ch.submitted|
    && (forall i, j :: ch.completed <= i < j < |ch.submitted| ==> ch.submitted[i] != ch.submitted[j])
    && (forall i :: ch.completed <= i < |ch.submitted| ==> ch.submitted[i] !in ch.ready)
  }

  /** A transfer counts as completed for the threads once its callback has run. */
  ghost predicate Implements(c: D.Channel, ch: Chan, n: nat) {
    && D.Inv(c, n)
    && ch.submitted == c.submitted && ch.completed == c.called
    && OneEach(ch)
    && (forall b :: b in ch.ready ==> b < n && b in c.submitted)
    && (forall b :: 0 <= b < n && b in c.submitted ==> c.bd[b].done == if b in ch.ready then 1 else 0)
  }

  lemma StartImplements(c: D.Channel, ch: Chan, b: nat, n: nat)
    requires Implements(c, ch, n) && b < n && ch.Idle(b)
    ensures Implements(D.Start(c, b, n), ch.Start(b), n)
  {
    D.StartKeeps(c, b, n);
    StartKeepsOneEach(ch, b);
    var c', ch' := D.Start(c, b, n), ch.Start(b);
    forall x | 0 <= x < n && x in c'.submitted
      ensures c'.bd[x].done == if x in ch'.ready then 1 else 0
    {
      if x != b {
        assert x in c.submitted;
      }
    }
  }

  lemma StartKeepsOneEach(ch: Chan, b: nat)
    requires OneEach(ch) && ch.Idle(b)
    ensures OneEach(ch.Start(b))
  {
    forall i | ch.completed <= i < |ch.submitted|
      ensures ch.submitted[i] != b
    {
      assert ch.submitted[ch.completed..][i - ch.completed] == ch.submitted[i];
    }
  }

  lemma CallbackImplements(c: D.Channel, ch: Chan, n: nat)
    requires Implements(c, ch, n) && c.called < c.completed
    ensures Implements(D.Happen(c, D.CallbackRuns, n), ch.Complete(), n)
  {
    D.HappenKeeps(c, D.CallbackRuns, n);
    assert c.submitted[c.called] in c.submitted;
  }

  lemma TransferDoneImplements(c: D.Channel, ch: Chan, n: nat)
    requires Implements(c, ch, n)
    ensures Implements(D.Happen(c, D.TransferDone, n), ch, n)
  {
    D.HappenKeeps(c, D.TransferDone, n);
  }

  /** What the engine does during a call is, for the threads, some completions being signalled. */
  ghost predicate Signals(ch: Chan, ch': Chan) {
    && ch'.submitted == ch.submitted && ch'.finished == ch.finished
    && ch.completed <= ch'.completed && ch.ready <= ch'.ready
  }

  lemma {:induction false} EventsImplement(c: D.Channel, ch: Chan, events: seq<D.Event>, n: nat) returns (ch': Chan)
    requires Implements(c, ch, n)
    ensures Implements(D.HappenAll(c, events, n), ch', n) && Signals(ch, ch')
    decreases |events|
  {
    ch' := ch;
    if |events| > 0 {
      if events[0] == D.CallbackRuns && c.called < c.completed {
        CallbackImplements(c, ch, n);
        ch' := ch.Complete();
      } else {
        TransferDoneImplements(c, ch, n);
      }
      ch' := EventsImplement(D.Happen(c, events[0], n), ch', events[1..], n);
    }
  }

  lemma WakeImplements(c: D.Channel, ch: Chan, b: nat, n: nat)
    requires Implements(c, ch, n) && b < n && b in c.submitted
    ensures c.bd[b].done > 0 <==> b in ch.ready
    ensures b in ch.ready ==> Implements(D.Take(c, b, n), ch.Finish(b), n) && Finished(D.Take(c, b, n), b)
  {
    if b in ch.ready {
      var k := D.Latest(c.submitted, b);
      assert k < c.called;
      assert D.Take(c, b, n).submitted == c.submitted;
    }
  }

  /** The engine has finished the latest transfer of b. */
  predicate Finished(c: D.Channel, b: nat) {
    b in c.submitted && D.Latest(c.submitted, b) < c.completed
  }

  /** The status test after a FINISH that was woken passes. */
  lemma ConcludeImplements(c: D.Channel, ch: Chan, b: nat, n: nat)
    requires Implements(c, ch, n) && b < n && Finished(c, b)
    ensures var c' := D.Conclude(c, b, true, false, n);
            Implements(c', ch, n) && c'.status[b] == D.NoError
  {
    var c' := D.Conclude(c, b, true, false, n);
    forall i | 0 <= i < |c'.reports|
      ensures D.Truthful(c'.reports[i]) && c'.reports[i].finishedThen <= c'.completed
    {
      if i < |c.reports| {
        assert c'.reports[i] == c.reports[i];
      }
    }
  }

  /** A FINISH always waits for its own transfer. */
  lemma ImplementsWaitsForOwn(c: D.Channel, ch: Chan, b: nat, n: nat)
    requires Implements(c, ch, n) && b in c.submitted
    ensures D.WaitsForOwn(c, b)
  {
    var k := D.Latest(c.submitted, b);
    if c.completed <= k {
      assert ch.submitted[k] !in ch.ready;
    }
  }

  /** A whole FINISH, whatever the engine does while it sleeps and before it queries the cookie: the status is
      NoError exactly when it is woken without a DMA error, and if so the threads' FINISH has happened. */
  lemma FinishImplements(c: D.Channel, ch: Chan, b: nat, asleep: seq<D.Event>, awake: seq<D.Event>, dmaError: bool,
                         n: nat)
    returns (before: Chan, after: Chan)
    requires Implements(c, ch, n) && b in c.submitted
    ensures var woken, c' := D.Sleep(c, b, asleep, n).1, D.Finish(c, b, asleep, awake, dmaError, n);
            && c'.status[b] == (if !woken then D.TimedOut else if dmaError then D.Failed else D.NoError)
            && (woken ==> Signals(ch, before) && b in before.ready && Signals(before.Finish(b), after))
            && (woken && !dmaError ==> Implements(c', after, n))
  {
    before, after := ch, ch;
    ImplementsWaitsForOwn(c, ch, b, n);
    D.CleanFinish(c, b, asleep, awake, dmaError, n);
    var busy := c.(status := c.status[b := D.Busy]);
    D.SleepIgnoresStatus(c, busy.status, b, asleep, n);
    if D.Sleep(busy, b, asleep, n).1 {
      assert Implements(busy, ch, n);
      var m := D.FinishInParts(c, b, asleep, awake, dmaError, n);
      before := EventsImplement(busy, ch, asleep[..m], n);
      var ready := D.HappenAll(busy, asleep[..m], n);
      D.HappenAllKeeps(busy, asleep[..m], n);
      WakeImplements(ready, before, b, n);
      var taken := D.Take(ready, b, n);
      after := EventsImplement(taken, before.Finish(b), awake, n);
      D.HappenAllKeeps(taken, awake, n);
      if !dmaError {
        ConcludeImplements(D.HappenAll(taken, awake, n), after, b, n);
      }
    }
  }

  lemma NewImplements(c: D.Channel, n: nat)
    requires D.Fresh(c, n)
    ensures Implements(c, NEW_CHAN, n)
  {
  }
}
