/** The promises of the loopback test, over every interleaving. */
module LoopbackTheorems {
  import opened Ring
  import opened Channel
  import opened Loopback
  import opened LoopbackSafety
  import opened LoopbackProgress

  /** No stop was handled, or it was handled at a count where it fits. */
  predicate StopWasFitting(cfg: Config, s: State)
    requires cfg.Valid()
  {
    s.tx.stopInProgress ==> StopFits(cfg, cfg.requested, s.tx.stoppedAt)
  }

  lemma StepKeepsHistory(cfg: Config, s: State, a: Actor)
    requires cfg.Valid()
    ensures var s' := Step(cfg, s, a);
            && (s.tx.stopInProgress ==> s'.tx.stopInProgress && s'.tx.stoppedAt == s.tx.stoppedAt)
            && (s'.tx.stopInProgress && !s.tx.stopInProgress ==>
                  a == TxThread && HandlesStop(s) && s'.tx.stoppedAt == s.tx.counter)
  {
  }

  lemma StepKeepsFitting(cfg: Config, s: State, a: Actor)
    requires cfg.Valid() && StopWasFitting(cfg, Step(cfg, s, a))
    requires StopWasFitting(cfg, s) ==> Inv(cfg, s)
    ensures StopWasFitting(cfg, s) && Inv(cfg, Step(cfg, s, a))
  {
    StepKeepsHistory(cfg, s, a);
    assert a == TxThread && HandlesStop(s) ==> Step(cfg, s, a).tx.stopInProgress;
    StepKeeps(cfg, s, a);
  }

  /** The invariant holds after every interleaving whose stop, if handled at all, fits. */
  lemma {:induction false} ReachableInv(cfg: Config, s0: State, schedule: seq<Actor>)
    requires cfg.Valid() && Init(cfg, s0)
    requires StopWasFitting(cfg, Exec(cfg, s0, schedule))
    ensures Inv(cfg, Exec(cfg, s0, schedule))
  {
    if |schedule| == 0 {
      InitInv(cfg, s0);
    } else {
      var n := |schedule| - 1;
      var s := Exec(cfg, s0, schedule[..n]);
      if StopWasFitting(cfg, s) {
        ReachableInv(cfg, s0, schedule[..n]);
      }
      StepKeepsFitting(cfg, s, schedule[n]);
    }
  }

  // ---------------------------------------------------------------- ring order and ownership

  /** A thread writes, checks or starts a buffer only at these points. */
  predicate TxTouches(s: State) {
    s.tx.pc in {TxPrimeFill, TxPrimeStart, TxFill, TxStart}
  }

  predicate RxTouches(s: State) {
    s.rx.pc in {RxPrimeStart, RxVerify, RxStart}
  }

  /** The k-th FINISH names the buffer of the k-th START, which is buffer k * d modulo the ring size. */
  ghost predicate Ordered(c: Chan, count: nat, d: nat)
    requires 0 < count
  {
    && |c.finished| <= c.completed <= |c.submitted|
    && c.finished <= c.submitted
    && forall k: nat :: k < |c.submitted| ==> c.submitted[k] == (k * d) % count
  }

  lemma RingOrderAndOwnership(cfg: Config, s0: State, schedule: seq<Actor>)
    requires cfg.Valid() && Init(cfg, s0)
    requires StopWasFitting(cfg, Exec(cfg, s0, schedule))
    ensures var s := Exec(cfg, s0, schedule);
            && Ordered(s.txChan, cfg.txCount, cfg.increment)
            && Ordered(s.rxChan, cfg.rxCount, cfg.increment)
            && (TxTouches(s) ==> s.txChan.Idle(s.tx.bufferId))
            && (RxTouches(s) ==> s.rxChan.Idle(s.rx.bufferId))
            && 0 <= s.tx.inProgress && s.tx.counter + s.tx.inProgress == |s.txChan.submitted| <= Goal(s)
            && 0 <= s.rx.inProgress && s.rx.counter + s.rx.inProgress == |s.rxChan.submitted| <= Goal(s)
  {
    ReachableInv(cfg, s0, schedule);
    var s := Exec(cfg, s0, schedule);
    OrderedInClosedForm(s.txChan, cfg.txCount, cfg.increment);
    OrderedInClosedForm(s.rxChan, cfg.rxCount, cfg.increment);
    if TxTouches(s) {
      NextToStartIsIdle(s.txChan, cfg.txCount, cfg.increment);
    }
    if RxTouches(s) {
      RxTouchesIdle(cfg, s);
    }
  }

  lemma OrderedInClosedForm(c: Chan, count: nat, d: nat)
    requires IsRing(count, d) && InRingOrder(c, count, d)
    ensures Ordered(c, count, d)
  {
    forall k: nat | k < |c.submitted|
      ensures c.submitted[k] == (k * d) % count
    {
      BufferAtClosedForm(k, count, d);
    }
    assert c.finished == c.submitted[..|c.finished|];
  }

  lemma RxTouchesIdle(cfg: Config, s: State)
    requires cfg.Valid() && Inv(cfg, s) && RxTouches(s)
    ensures s.rxChan.Idle(s.rx.bufferId)
  {
    if s.rx.pc == RxPrimeStart {
      NextToStartIsIdle(s.rxChan, cfg.rxCount, cfg.increment);
    } else {
      JustFinishedIsIdle(s.rxChan, cfg.rxCount, cfg.increment);
    }
  }

  /** The buffer finished last is idle until it is started again. */
  lemma JustFinishedIsIdle(c: Chan, count: nat, d: nat)
    requires IsRing(count, d) && InRingOrder(c, count, d) && 0 < |c.finished|
    requires |c.submitted| < |c.finished| + Slots(count, d)
    ensures c.Idle(BufferAt(|c.finished| - 1, count, d))
  {
    var f := |c.finished| - 1;
    var b := BufferAt(f, count, d);
    Period(f, count, d);
    assert BufferAt(f + Slots(count, d), count, d) !in c.ready;
    if c.Queued(b) {
      var i :| 0 <= i < |c.submitted| - c.completed && c.submitted[c.completed..][i] == b;
      Distinct(f, c.completed + i, count, d);
    }
  }

  // ---------------------------------------------------------------- runs without a signal

  lemma {:induction false} NoSignalNoStop(cfg: Config, s: State, q: seq<Actor>)
    requires cfg.Valid() && Signal !in q && !s.stop && !s.tx.stopInProgress
    ensures var s' := Exec(cfg, s, q); !s'.stop && !s'.tx.stopInProgress
  {
    if |q| > 0 {
      NoSignalNoStop(cfg, s, q[..|q| - 1]);
    }
  }

  // ---------------------------------------------------------------- the end of a run

  /** Whatever the interleaving did, if nothing can move any more then both threads have returned after
      exactly max(1, num_transfers) transfers; without a stop that is max(1, requested). */
  lemma RunsEndDrained(cfg: Config, s0: State, schedule: seq<Actor>)
    requires cfg.Valid() && Init(cfg, s0)
    requires StopWasFitting(cfg, Exec(cfg, s0, schedule)) && Stuck(Exec(cfg, s0, schedule))
    ensures var s := Exec(cfg, s0, schedule);
            && Drained(s, Max1(s.numTransfers))
            && (!s.tx.stopInProgress ==> s.numTransfers == cfg.requested)
  {
    ReachableInv(cfg, s0, schedule);
    StuckIsDrained(cfg, Exec(cfg, s0, schedule));
  }
}
