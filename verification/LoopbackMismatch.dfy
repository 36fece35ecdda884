/** When the loopback test reports mismatches although every transfer was delivered: after a stop that lets a
    shrunken transmit window grow again, and when a transfer is empty. Both conditions are exact. */
module LoopbackMismatch {
  import opened Channel
  import opened Loopback
  import opened LoopbackSafety
  import opened LoopbackProgress
  import opened LoopbackTheorems
  import opened LoopbackStop
  import opened LoopbackPattern

  // ---------------------------------------------------------------- a receiver that lags behind

  /** The receiver has started no more than the transmitter waits for. */
  predicate Lagging(s: State) {
    |s.rxChan.submitted| <= s.tx.counter + (if s.tx.pc == TxFinish then 1 else 0)
  }

  /** The receiver moves only when neither the transmitter nor the hardware can. */
  function LazyMover(s: State): (a: Actor)
    requires !Stuck(s)
    ensures Enabled(s, a) && a != Signal
    ensures a == RxThread ==> !TxEnabled(s) && !EngineEnabled(s) && !Enabled(s, TxCallback)
  {
    if TxEnabled(s) then TxThread
    else if EngineEnabled(s) then Engine
    else if Enabled(s, TxCallback) then TxCallback
    else if RxEnabled(s) then RxThread
    else RxCallback
  }

  lemma LazyRxStaysBehind(cfg: Config, s: State, c: nat)
    requires cfg.Valid() && Undisturbed(cfg, s) && Before(s, c) && !AtStopTest(s, c) && c < cfg.requested
    requires RxEnabled(s) && !TxEnabled(s) && !EngineEnabled(s) && !Enabled(s, TxCallback)
    ensures Lagging(RxStep(cfg, s))
  {
    FinishReadyIff(s.txChan, cfg.txCount, cfg.increment);
    assert s.tx.pc == TxFinish && s.moved == |s.rxChan.submitted| == s.tx.counter;
  }

  lemma LazyStepStaysBehind(cfg: Config, s: State, c: nat)
    requires cfg.Valid() && Undisturbed(cfg, s) && Before(s, c) && !AtStopTest(s, c) && c < cfg.requested
    requires Lagging(s) && !Stuck(s)
    ensures Lagging(Step(cfg, s, LazyMover(s)))
  {
    var a := LazyMover(s);
    if a == RxThread {
      LazyRxStaysBehind(cfg, s, c);
    } else if a == TxThread {
      TxFrame(cfg, s);
    }
  }

  /** Every round short of the total is reached by an interleaving in which the receiver lags behind. */
  lemma {:induction false} ReachStopTestEarly(cfg: Config, s: State, c: nat) returns (q: seq<Actor>)
    requires cfg.Valid() && Undisturbed(cfg, s) && Before(s, c) && c < cfg.requested && Lagging(s)
    ensures var s' := Exec(cfg, s, q); Undisturbed(cfg, s') && AtStopTest(s', c) && Lagging(s')
    decreases Pending(s), Work(cfg, s)
  {
    q := [];
    if !AtStopTest(s, c) {
      if Stuck(s) {
        StuckIsDrained(cfg, s);
        assert false;
      }
      var a := LazyMover(s);
      StepsDecrease(cfg, s, a);
      StepStaysBefore(cfg, s, a, c);
      LazyStepStaysBehind(cfg, s, c);
      var rest := ReachStopTestEarly(cfg, Step(cfg, s, a), c);
      q := [a] + rest;
      ExecOne(cfg, s, a);
      ExecAppend(cfg, s, [a], rest);
    }
  }

  // ---------------------------------------------------------------- the wrong refill

  /** Transfer `n`, the last one queued, was sent with the first word `v`, and the receiver has compared it
      with `n` or will. */
  ghost predicate Poisoned(cfg: Config, s: State, n: nat, v: int)
    requires cfg.Valid()
  {
    && RxOrdered(cfg, s.rx, s.rxChan, Goal(s)) && RxGoal(s.rx, s.rxChan, Goal(s)) && Flow(s) && n < Goal(s)
    && |s.txChan.submitted| == n + 1 && s.txChan.submitted[n] < |s.txMem|
    && MemShape(s.txMem, cfg.txCount, cfg.capacity) && MemShape(s.rxMem, cfg.rxCount, cfg.capacity)
    && s.txMem[s.txChan.submitted[n]][0] == v
    && (s.rx.counter <= n < s.moved ==> s.rxMem[RxBuf(cfg, n)][0] == v)
    && (n < s.rx.counter ==> 1 <= s.rx.mismatches)
  }

  lemma RxComparesPoison(cfg: Config, s: State, n: nat, v: int)
    requires cfg.Valid() && cfg.verify && v != n && Poisoned(cfg, s, n, v) && RxEnabled(s)
    ensures var r := RxStep(cfg, s).rx;
            && (n < r.counter ==> 1 <= r.mismatches)
            && (r.counter <= n < s.moved ==> s.rxMem[RxBuf(cfg, n)][0] == v)
  {
    if s.rx.pc == RxVerify && s.rx.counter == n {
      assert s.rx.bufferId == RxBuf(cfg, n) && n < |s.rxChan.finished| <= s.rxChan.completed <= s.moved;
    }
  }

  lemma RxKeepsPoison(cfg: Config, s: State, n: nat, v: int)
    requires cfg.Valid() && cfg.verify && v != n && Poisoned(cfg, s, n, v) && RxEnabled(s)
    ensures Poisoned(cfg, RxStep(cfg, s), n, v)
  {
    RxFrame(cfg, s);
    RxKeepsOrder(cfg, s);
    RxKeepsGoal(cfg, s);
    RxComparesPoison(cfg, s, n, v);
  }

  lemma EngineKeepsPoison(cfg: Config, s: State, n: nat, v: int)
    requires cfg.Valid() && 0 < cfg.words && Poisoned(cfg, s, n, v) && EngineEnabled(s)
    ensures Poisoned(cfg, EngineStep(cfg, s), n, v)
  {
    if s.moved == n {
      assert s.rxChan.submitted[n] == RxBuf(cfg, n);
    }
  }

  lemma RxCallbackKeepsPoison(cfg: Config, s: State, n: nat, v: int)
    requires cfg.Valid() && Poisoned(cfg, s, n, v) && CallbackDue(s.rxChan, s.moved)
    ensures Poisoned(cfg, s.(rxChan := s.rxChan.Complete()), n, v)
  {
    RxCallbackKeeps(cfg, s.rx, s.rxChan, Goal(s));
  }

  lemma StepKeepsPoison(cfg: Config, s: State, a: Actor, n: nat, v: int)
    requires cfg.Valid() && cfg.verify && 0 < cfg.words && v != n && Poisoned(cfg, s, n, v)
    requires Enabled(s, a) && a !in {TxThread, Signal}
    ensures Poisoned(cfg, Step(cfg, s, a), n, v)
  {
    match a
    case RxThread => RxKeepsPoison(cfg, s, n, v);
    case Engine => EngineKeepsPoison(cfg, s, n, v);
    case TxCallback =>
    case RxCallback => RxCallbackKeepsPoison(cfg, s, n, v);
  }

  /** Once nothing but the transmitter can move, the receiver is past the poisoned transfer. */
  lemma PoisonIsNoticed(cfg: Config, s: State, n: nat, v: int)
    requires cfg.Valid() && Poisoned(cfg, s, n, v) && OthersBlocked(s)
    ensures 1 <= s.rx.mismatches
  {
    assert !Enabled(s, RxThread) && !Enabled(s, Engine) && !Enabled(s, RxCallback);
    FinishReadyIff(s.rxChan, cfg.rxCount, cfg.increment);
  }

  /** With the transmitter asleep, the receiver works through what is queued and reports the mismatch. */
  lemma {:induction false} LetPoisonSpread(cfg: Config, s: State, n: nat, v: int) returns (q: seq<Actor>)
    requires cfg.Valid() && cfg.verify && 0 < cfg.words && v != n && Poisoned(cfg, s, n, v)
    ensures var s' := Exec(cfg, s, q); 1 <= s'.rx.mismatches && s'.tx == s.tx
    decreases Pending(s), Work(cfg, s)
  {
    q := [];
    if OthersBlocked(s) {
      PoisonIsNoticed(cfg, s, n, v);
    } else {
      var a :| a !in {TxThread, Signal} && Enabled(s, a);
      StepsDecrease(cfg, s, a);
      StepKeepsPoison(cfg, s, a, n, v);
      OthersKeepTx(cfg, s, a);
      var rest := LetPoisonSpread(cfg, Step(cfg, s, a), n, v);
      q := [a] + rest;
      ExecOne(cfg, s, a);
      ExecAppend(cfg, s, [a], rest);
    }
  }

  /** The transmitter has skipped a restart and then handles a stop that raises the total: it refills the
      buffer it holds and starts it, as transfer N, with the word for c - 1 + T/d. */
  function AfterRefill(cfg: Config, s: State): (s': State)
    requires cfg.Valid() && s.tx.pc == TxStopCheck
    requires s.tx.counter + s.tx.inProgress < s.tx.counter + cfg.rxCount && !s.tx.stopInProgress
    ensures s' == Exec(cfg, s.(stop := true), [TxThread, TxThread, TxThread])
  {
    var s1 := s.(stop := true);
    var s2 := TxStep(cfg, s1);
    var s3 := TxStep(cfg, s2);
    ExecThree(cfg, s1, TxThread);
    TxStep(cfg, s3)
  }

  lemma ExecThree(cfg: Config, s: State, a: Actor)
    requires cfg.Valid()
    ensures Exec(cfg, s, [a, a, a]) == Step(cfg, Step(cfg, Step(cfg, s, a), a), a)
  {
    ExecOne(cfg, s, a);
    assert [a, a][..1] == [a];
    assert [a, a, a][..2] == [a, a];
  }

  /** Those three steps change the total and the transmitter alone. */
  lemma RefillResult(cfg: Config, s: State, c: nat)
    requires cfg.Valid() && cfg.verify && 0 < cfg.words && c < cfg.requested
    requires Undisturbed(cfg, s) && MemShape(s.txMem, cfg.txCount, cfg.capacity) && AtStopTest(s, c)
    requires !PatternSurvives(cfg, c)
    ensures s.tx.inProgress < cfg.rxCount
    ensures var s', b := AfterRefill(cfg, s), TxBuf(cfg, c - 1);
            && s'.rx == s.rx && s'.rxChan == s.rxChan && s'.rxMem == s.rxMem && s'.moved == s.moved
            && s'.numTransfers == c + cfg.rxCount && StoppedAt(s', c)
            && s'.txChan == s.txChan.Start(b) && |s.txChan.submitted| == cfg.requested
            && s'.txMem == s.txMem[b := Refill(cfg, s.txMem[b], c)]
  {
  }

  lemma RefillPoisons(cfg: Config, s: State, c: nat)
    requires cfg.Valid() && cfg.verify && 0 < cfg.words && c < cfg.requested
    requires Undisturbed(cfg, s) && PatternInv(cfg, s) && AtStopTest(s, c) && Lagging(s)
    requires !PatternSurvives(cfg, c)
    ensures s.tx.inProgress < cfg.rxCount
    ensures var s' := AfterRefill(cfg, s);
            Poisoned(cfg, s', cfg.requested, c + cfg.TxSlots() - 1) && StoppedAt(s', c)
  {
    RefillResult(cfg, s, c);
    var r := Refill(cfg, s.txMem[TxBuf(cfg, c - 1)], c);
    assert |r| == cfg.capacity && r[0] == c + cfg.TxSlots() - 1;
  }

  /** A stop after which the pattern does not survive has an interleaving that reports a mismatch. */
  lemma StopCausesMismatch(cfg: Config, s0: State, c: nat) returns (q: seq<Actor>)
    requires cfg.Valid() && Init(cfg, s0) && cfg.verify && 0 < cfg.words
    requires 1 <= c < cfg.requested && !PatternSurvives(cfg, c)
    ensures var s := Exec(cfg, s0, q); StoppedAt(s, c) && 1 <= s.rx.mismatches
  {
    InitInv(cfg, s0);
    var q1 := ReachStopTestEarly(cfg, s0, c);
    var s1 := Exec(cfg, s0, q1);
    ReachablePattern(cfg, s0, q1);
    RefillPoisons(cfg, s1, c);
    var q2 := [Signal] + [TxThread, TxThread, TxThread];
    var s2 := AfterRefill(cfg, s1);
    ExecOne(cfg, s1, Signal);
    ExecAppend(cfg, s1, [Signal], [TxThread, TxThread, TxThread]);
    var q3 := LetPoisonSpread(cfg, s2, cfg.requested, c + cfg.TxSlots() - 1);
    q := q1 + q2 + q3;
    ExecAppend(cfg, s0, q1, q2);
    ExecAppend(cfg, s0, q1 + q2, q3);
  }

  /** With verify on and a non-empty transfer, no interleaving that handles a stop after `c` transmissions
      reports a mismatch if and only if c - 1 + T/d or c + R is at most the requested total. */
  lemma PatternSurvivesStopIff(cfg: Config, c: nat)
    requires cfg.Valid() && cfg.verify && 0 < cfg.words && 1 <= c < cfg.requested
    ensures (forall s0, q :: Init(cfg, s0) && StoppedAt(Exec(cfg, s0, q), c) ==> Exec(cfg, s0, q).rx.mismatches == 0)
            <==> PatternSurvives(cfg, c)
  {
    if PatternSurvives(cfg, c) {
      forall s0, q | Init(cfg, s0) && StoppedAt(Exec(cfg, s0, q), c)
        ensures Exec(cfg, s0, q).rx.mismatches == 0
      {
        LoopbackDeliversPattern(cfg, s0, q);
      }
    } else {
      var s0 := FirstState(cfg, 0);
      var q := StopCausesMismatch(cfg, s0, c);
    }
  }

  // ---------------------------------------------------------------- empty transfers

  /** The first word of every receive buffer is -1, which no counter equals. */
  predicate AllMismatched(cfg: Config, s: State)
    requires cfg.Valid()
  {
    && MemShape(s.rxMem, cfg.rxCount, cfg.capacity)
    && (forall b :: 0 <= b < |s.rxMem| ==> s.rxMem[b][0] == -1)
    && s.rx.mismatches == s.rx.counter
  }

  lemma EmptyTransferStep(cfg: Config, s: State, a: Actor)
    requires cfg.Valid() && cfg.verify && cfg.words == 0 && AllMismatched(cfg, s)
    ensures AllMismatched(cfg, Step(cfg, s, a))
  {
  }

  lemma {:induction false} EmptyTransfersAllMismatch(cfg: Config, s0: State, q: seq<Actor>)
    requires cfg.Valid() && cfg.verify && cfg.words == 0 && AllMismatched(cfg, s0)
    ensures AllMismatched(cfg, Exec(cfg, s0, q))
  {
    if |q| > 0 {
      EmptyTransfersAllMismatch(cfg, s0, q[..|q| - 1]);
      EmptyTransferStep(cfg, Exec(cfg, s0, q[..|q| - 1]), q[|q| - 1]);
    }
  }

  /** With verify on, no interleaving without a stop, or with one that spares the pattern, reports a mismatch
      if and only if the transfer size is not zero. */
  lemma PatternNeedsData(cfg: Config)
    requires cfg.Valid() && cfg.verify
    ensures (forall s0, q :: Init(cfg, s0) && StopSparedPattern(cfg, Exec(cfg, s0, q))
               ==> Exec(cfg, s0, q).rx.mismatches == 0)
            <==> 0 < cfg.words
  {
    if cfg.words == 0 {
      var s0 := FirstState(cfg, -1);
      var q := RunToStuck(cfg, s0);
      NoSignalNoStop(cfg, s0, q);
      ReachableInv(cfg, s0, q);
      StuckIsDrained(cfg, Exec(cfg, s0, q));
      EmptyTransfersAllMismatch(cfg, s0, q);
      assert Exec(cfg, s0, q).rx.mismatches >= 1;
    } else {
      forall s0, q | Init(cfg, s0) && StopSparedPattern(cfg, Exec(cfg, s0, q))
        ensures Exec(cfg, s0, q).rx.mismatches == 0
      {
        LoopbackDeliversPattern(cfg, s0, q);
      }
    }
  }

  // ---------------------------------------------------------------- what is left alone

  /** The two memories agree from word `from` of every buffer on. */
  predicate SameFrom(mem: seq<seq<int>>, mem': seq<seq<int>>, from: nat) {
    && |mem| == |mem'|
    && forall b :: 0 <= b < |mem| ==>
         |mem[b]| == |mem'[b]| && forall i :: from <= i < |mem[b]| ==> mem'[b][i] == mem[b][i]
  }

  /** The first word that filling a buffer may not touch: none without verify, and priming fills one. */
  function Fillable(cfg: Config): nat {
    if !cfg.verify then 0 else if cfg.words == 0 then 1 else cfg.words
  }

  ghost predicate LeftAlone(cfg: Config, s: State, s': State) {
    && SameFrom(s.txMem, s'.txMem, Fillable(cfg)) && SameFrom(s.rxMem, s'.rxMem, cfg.words)
    && (!cfg.verify ==> s'.rx.mismatches == 0)
  }

  lemma TxLeavesAlone(cfg: Config, s: State)
    requires cfg.Valid() && TxEnabled(s) && MemShape(s.txMem, cfg.txCount, cfg.capacity)
    ensures SameFrom(s.txMem, TxStep(cfg, s).txMem, Fillable(cfg))
    ensures MemShape(TxStep(cfg, s).txMem, cfg.txCount, cfg.capacity)
  {
  }

  lemma EngineLeavesAlone(cfg: Config, s: State)
    requires cfg.Valid() && EngineEnabled(s) && MemShape(s.rxMem, cfg.rxCount, cfg.capacity)
    ensures SameFrom(s.rxMem, EngineStep(cfg, s).rxMem, cfg.words)
    ensures MemShape(EngineStep(cfg, s).rxMem, cfg.rxCount, cfg.capacity)
  {
  }

  lemma StepLeavesAlone(cfg: Config, s: State, a: Actor)
    requires cfg.Valid() && MemShape(s.txMem, cfg.txCount, cfg.capacity) && MemShape(s.rxMem, cfg.rxCount, cfg.capacity)
    requires !cfg.verify ==> s.rx.mismatches == 0
    ensures var s' := Step(cfg, s, a);
            && MemShape(s'.txMem, cfg.txCount, cfg.capacity) && MemShape(s'.rxMem, cfg.rxCount, cfg.capacity)
            && LeftAlone(cfg, s, s')
  {
    if Enabled(s, a) {
      match a
      case TxThread => TxLeavesAlone(cfg, s); TxFrame(cfg, s);
      case RxThread => RxFrame(cfg, s);
      case Engine => EngineLeavesAlone(cfg, s);
      case _ =>
    }
  }

  /** Over every interleaving: without verify the transmitter writes no buffer and the receiver reports nothing;
      and with it, neither thread nor hardware touches a word past the transfer size. */
  lemma {:induction false} TransfersKeepToTheirWords(cfg: Config, s0: State, q: seq<Actor>)
    requires cfg.Valid() && Init(cfg, s0)
    ensures LeftAlone(cfg, s0, Exec(cfg, s0, q))
    ensures MemShape(Exec(cfg, s0, q).txMem, cfg.txCount, cfg.capacity)
    ensures MemShape(Exec(cfg, s0, q).rxMem, cfg.rxCount, cfg.capacity)
  {
    if |q| > 0 {
      var n := |q| - 1;
      TransfersKeepToTheirWords(cfg, s0, q[..n]);
      StepLeavesAlone(cfg, Exec(cfg, s0, q[..n]), q[n]);
    }
  }
}
