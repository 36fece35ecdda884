/** Exactly when an early stop drains: the rule of dma-proxy-test.c lines 176 to 179 is harmless in every
    interleaving if and only if what the receiver may have started fits. */
module LoopbackStop {
  import opened Ring
  import opened Channel
  import opened Loopback
  import opened LoopbackSafety
  import opened LoopbackProgress
  import opened LoopbackTheorems

  /** What the stop is for: the receiver has not started more transfers than the new total, and if
      nothing can move any more then both threads have returned after exactly that total. */
  predicate StopIsClean(s: State) {
    && |s.rxChan.submitted| <= s.numTransfers
    && (Stuck(s) ==> Drained(s, Max1(s.numTransfers)))
  }

  predicate StoppedAt(s: State, c: nat) {
    s.tx.stopInProgress && s.tx.stoppedAt == c
  }

  // ---------------------------------------------------------------- a fitting stop is clean

  lemma FittingStopIsClean(cfg: Config, s0: State, schedule: seq<Actor>, c: nat)
    requires cfg.Valid() && Init(cfg, s0) && StopFits(cfg, cfg.requested, c)
    requires StoppedAt(Exec(cfg, s0, schedule), c)
    ensures StopIsClean(Exec(cfg, s0, schedule))
  {
    ReachableInv(cfg, s0, schedule);
    var s := Exec(cfg, s0, schedule);
    TotalAfterStop(cfg, s0, schedule);
    if Stuck(s) {
      StuckIsDrained(cfg, s);
    }
  }

  lemma {:induction false} TotalAfterStop(cfg: Config, s0: State, schedule: seq<Actor>)
    requires cfg.Valid() && Init(cfg, s0)
    ensures var s := Exec(cfg, s0, schedule);
            s.tx.stopInProgress ==> s.numTransfers == s.tx.stoppedAt + cfg.rxCount
  {
    if |schedule| > 0 {
      TotalAfterStop(cfg, s0, schedule[..|schedule| - 1]);
    }
  }

  // ---------------------------------------------------------------- reaching the stop test

  /** No stop has been handled or requested, and the invariant holds. */
  ghost predicate Undisturbed(cfg: Config, s: State)
    requires cfg.Valid()
  {
    Inv(cfg, s) && !s.stop && !s.tx.stopInProgress
  }

  predicate AtStopTest(s: State, c: nat) {
    s.tx.pc == TxStopCheck && s.tx.counter == c
  }

  /** The transmitter has not passed the stop test of its c-th round. */
  predicate Before(s: State, c: nat) {
    s.tx.counter < c || AtStopTest(s, c)
  }

  lemma StepStaysBefore(cfg: Config, s: State, a: Actor, c: nat)
    requires cfg.Valid() && Undisturbed(cfg, s) && Before(s, c) && !AtStopTest(s, c)
    requires Enabled(s, a) && a != Signal && c < cfg.requested
    ensures Undisturbed(cfg, Step(cfg, s, a)) && Before(Step(cfg, s, a), c)
  {
    StepKeeps(cfg, s, a);
    if a == TxThread {
      TxStaysBefore(cfg, s, c);
    } else {
      OthersKeepTx(cfg, s, a);
    }
  }

  lemma TxStaysBefore(cfg: Config, s: State, c: nat)
    requires cfg.Valid() && Undisturbed(cfg, s) && s.tx.counter < c < cfg.requested && TxEnabled(s)
    ensures var s' := TxStep(cfg, s); !s'.stop && !s'.tx.stopInProgress && Before(s', c)
  {
  }

  /** Every round short of the total has an interleaving that reaches its stop test. */
  lemma {:induction false} ReachStopTest(cfg: Config, s: State, c: nat) returns (q: seq<Actor>)
    requires cfg.Valid() && Undisturbed(cfg, s) && Before(s, c) && c < cfg.requested
    ensures var s' := Exec(cfg, s, q); Undisturbed(cfg, s') && AtStopTest(s', c)
    decreases Pending(s), Work(cfg, s)
  {
    q := [];
    if !AtStopTest(s, c) {
      if Stuck(s) {
        StuckIsDrained(cfg, s);
        assert false;
      }
      var a := Mover(s);
      StepsDecrease(cfg, s, a);
      StepStaysBefore(cfg, s, a, c);
      var rest := ReachStopTest(cfg, Step(cfg, s, a), c);
      q := [a] + rest;
      ExecOne(cfg, s, a);
      ExecAppend(cfg, s, [a], rest);
    }
  }

  /** Nothing but the transmitter can move. */
  predicate OthersBlocked(s: State) {
    forall a :: a !in {TxThread, Signal} ==> !Enabled(s, a)
  }

  /** Let the hardware and the receiver go as far as they can while the transmitter waits at the test. */
  lemma {:induction false} LetReceiverRun(cfg: Config, s: State, c: nat) returns (q: seq<Actor>)
    requires cfg.Valid() && Undisturbed(cfg, s) && AtStopTest(s, c)
    ensures var s' := Exec(cfg, s, q); Undisturbed(cfg, s') && AtStopTest(s', c) && OthersBlocked(s')
    decreases Pending(s), Work(cfg, s)
  {
    q := [];
    if !OthersBlocked(s) {
      var a :| a !in {TxThread, Signal} && Enabled(s, a);
      StepsDecrease(cfg, s, a);
      StepKeeps(cfg, s, a);
      OthersKeepTx(cfg, s, a);
      var rest := LetReceiverRun(cfg, Step(cfg, s, a), c);
      q := [a] + rest;
      ExecOne(cfg, s, a);
      ExecAppend(cfg, s, [a], rest);
    }
  }

  lemma OthersKeepTx(cfg: Config, s: State, a: Actor)
    requires cfg.Valid() && a !in {TxThread, Signal}
    ensures var s' := Step(cfg, s, a);
            && s'.tx == s.tx && s'.stop == s.stop && s'.numTransfers == s.numTransfers
            && s'.txMem == s.txMem && s'.txChan.submitted == s.txChan.submitted
  {
  }

  /** Then the receiver has checked all that was sent and has its whole window started. */
  lemma ReceiverAhead(cfg: Config, s: State, c: nat)
    requires cfg.Valid() && Inv(cfg, s) && AtStopTest(s, c) && OthersBlocked(s)
    ensures s.rx.counter == Min(Goal(s), c - 1 + cfg.TxSlots())
    ensures |s.rxChan.submitted| == Min(Goal(s), s.rx.counter + cfg.RxSlots())
    ensures s.rx.pc in {RxFinish, RxDone} && s.moved == s.rx.counter
  {
    assert !Enabled(s, RxThread) && !Enabled(s, Engine) && !Enabled(s, RxCallback);
    FinishReadyIff(s.rxChan, cfg.rxCount, cfg.increment);
  }

  /** The adversarial interleaving: the stop arrives while the receiver is as far ahead as it can be. */
  lemma WorstStop(cfg: Config, s0: State, c: nat) returns (before: State, q: seq<Actor>)
    requires cfg.Valid() && Init(cfg, s0) && 1 <= c < cfg.requested
    ensures Inv(cfg, before) && AtStopTest(before, c) && before.numTransfers == cfg.requested
    ensures OthersBlocked(before) && !before.tx.stopInProgress
    ensures Exec(cfg, s0, q) == TxStep(cfg, before.(stop := true))
  {
    InitInv(cfg, s0);
    var q1 := ReachStopTest(cfg, s0, c);
    var s1 := Exec(cfg, s0, q1);
    var q2 := LetReceiverRun(cfg, s1, c);
    before := Exec(cfg, s1, q2);
    var q3 := [Signal, TxThread];
    q := q1 + q2 + q3;
    ExecAppend(cfg, s0, q1, q2);
    ExecAppend(cfg, s0, q1 + q2, q3);
    ExecOne(cfg, before, Signal);
    assert q3[..1] == [Signal];
    assert Exec(cfg, before, q3) == Step(cfg, Exec(cfg, before, [Signal]), TxThread);
  }

  // ---------------------------------------------------------------- a stop that does not fit

  /** Raising the total after the receiver has skipped a restart leaves a hole in its ring: it comes round
      to the buffer of position `n`, which nobody has started, and waits there for ever. */
  ghost predicate Hole(cfg: Config, s: State, n: nat)
    requires cfg.Valid()
  {
    var k, c := s.rx.counter, s.rxChan;
    && s.tx.stopInProgress && k <= n < s.numTransfers && n < k + cfg.RxSlots()
    && c.completed <= |c.submitted|
    && RxBuf(cfg, n) !in c.ready
    && (forall i :: c.completed <= i < |c.submitted| ==> c.submitted[i] != RxBuf(cfg, n))
    && match s.rx.pc
       case RxDone => true
       case RxFinish => s.rx.bufferId == RxBuf(cfg, k)
       case RxVerify => k < n && s.rx.bufferId == RxBuf(cfg, k)
       case RxExitCheck => HoleAhead(cfg, s, n)
       case RxRestartCheck => HoleAhead(cfg, s, n)
       case RxStart => HoleAhead(cfg, s, n)
       case _ => false
  }

  predicate HoleAhead(cfg: Config, s: State, n: nat)
    requires cfg.Valid()
  {
    1 <= s.rx.counter && n < s.rx.counter - 1 + cfg.RxSlots() && s.rx.bufferId == RxBuf(cfg, s.rx.counter - 1)
  }

  lemma StepKeepsHole(cfg: Config, s: State, a: Actor, n: nat)
    requires cfg.Valid() && Hole(cfg, s, n)
    ensures Hole(cfg, Step(cfg, s, a), n)
  {
    if a == RxThread && RxEnabled(s) {
      RxStepKeepsHole(cfg, s, n);
    }
  }

  lemma RxStepKeepsHole(cfg: Config, s: State, n: nat)
    requires cfg.Valid() && Hole(cfg, s, n) && RxEnabled(s)
    ensures Hole(cfg, RxStep(cfg, s), n)
  {
    var k := s.rx.counter;
    if s.rx.pc in {RxRestartCheck, RxStart} {
      Flip(k - 1, cfg.rxCount, cfg.increment);
      Distinct(k - 1, n, cfg.rxCount, cfg.increment);
    }
  }

  lemma {:induction false} ExecKeepsHole(cfg: Config, s: State, q: seq<Actor>, n: nat)
    requires cfg.Valid() && Hole(cfg, s, n)
    ensures Hole(cfg, Exec(cfg, s, q), n)
  {
    if |q| > 0 {
      ExecKeepsHole(cfg, s, q[..|q| - 1], n);
      StepKeepsHole(cfg, Exec(cfg, s, q[..|q| - 1]), q[|q| - 1], n);
    }
  }

  lemma RaisedTotalMakesHole(cfg: Config, s: State, c: nat)
    requires cfg.Valid() && Inv(cfg, s) && AtStopTest(s, c) && !s.tx.stopInProgress
    requires OthersBlocked(s)
    requires s.numTransfers < c + cfg.rxCount && s.numTransfers < c + cfg.TxSlots() - 1 + cfg.RxSlots()
    ensures Hole(cfg, TxStep(cfg, s.(stop := true)), s.numTransfers)
  {
    ReceiverAhead(cfg, s, c);
    var n := s.numTransfers;
    assert BufferAt(n, cfg.rxCount, cfg.increment) !in s.rxChan.ready;
    forall i | s.rxChan.completed <= i < |s.rxChan.submitted|
      ensures s.rxChan.submitted[i] != RxBuf(cfg, n)
    {
      Distinct(i, n, cfg.rxCount, cfg.increment);
    }
  }

  /** A stop that does not fit has an interleaving that ends badly. */
  lemma UnfittingStopIsNotClean(cfg: Config, s0: State, c: nat) returns (q: seq<Actor>)
    requires cfg.Valid() && Init(cfg, s0) && 1 <= c < cfg.requested
    requires !StopFits(cfg, cfg.requested, c)
    ensures StoppedAt(Exec(cfg, s0, q), c) && !StopIsClean(Exec(cfg, s0, q))
  {
    var before, q1 := WorstStop(cfg, s0, c);
    var s1 := Exec(cfg, s0, q1);
    if cfg.requested < c + cfg.rxCount {
      RaisedTotalMakesHole(cfg, before, c);
      var q2 := RunToStuck(cfg, s1);
      q := q1 + q2;
      ExecAppend(cfg, s0, q1, q2);
      ExecKeepsHole(cfg, s1, q2, cfg.requested);
      ExecKeepsHistory(cfg, s1, q2);
    } else {
      q := q1;
      ReceiverAhead(cfg, before, c);
    }
  }

  lemma {:induction false} ExecKeepsHistory(cfg: Config, s: State, q: seq<Actor>)
    requires cfg.Valid() && s.tx.stopInProgress
    ensures var s' := Exec(cfg, s, q); s'.tx.stopInProgress && s'.tx.stoppedAt == s.tx.stoppedAt
  {
    if |q| > 0 {
      ExecKeepsHistory(cfg, s, q[..|q| - 1]);
      StepKeepsHistory(cfg, Exec(cfg, s, q[..|q| - 1]), q[|q| - 1]);
    }
  }

  /** Stopping after `c` finished transmissions is clean in every interleaving if and only if it leaves the
      total unchanged, or c + T/d - 1 + R/d is at most the requested total and at most c + R. */
  lemma StopDrainsIff(cfg: Config, c: nat)
    requires cfg.Valid() && 1 <= c < cfg.requested
    ensures (forall s0, q :: Init(cfg, s0) && StoppedAt(Exec(cfg, s0, q), c) ==> StopIsClean(Exec(cfg, s0, q)))
            <==> StopFits(cfg, cfg.requested, c)
  {
    if StopFits(cfg, cfg.requested, c) {
      forall s0, q | Init(cfg, s0) && StoppedAt(Exec(cfg, s0, q), c)
        ensures StopIsClean(Exec(cfg, s0, q))
      {
        FittingStopIsClean(cfg, s0, q, c);
      }
    } else {
      var s0 := FirstState(cfg, 0);
      var q := UnfittingStopIsNotClean(cfg, s0, c);
    }
  }

  /** In the shipped setting (one transmit buffer, increment one) the condition is that the stop does not
      raise the total. */
  lemma ShippedStopCondition(cfg: Config, c: nat)
    requires cfg.Valid() && cfg.txCount == 1 && cfg.increment == 1
    ensures StopFits(cfg, cfg.requested, c) <==> c + cfg.rxCount <= cfg.requested
  {
    SlotsTimesIncrement(cfg.rxCount, 1);
    SlotsTimesIncrement(1, 1);
  }
}
