/** What every interleaving of the two threads, the engine and the signal handler keeps. */
module LoopbackSafety {
  import opened Ring
  import opened Channel
  import opened Loopback

  function Min(a: int, b: int): int {
    if a < b then a else b
  }

  /** The number of transfers the current value of `num_transfers` asks for: priming always starts one. */
  function Goal(s: State): nat {
    Max1(s.numTransfers)
  }

  function TxBuf(cfg: Config, k: nat): nat
    requires cfg.Valid()
  {
    BufferAt(k, cfg.txCount, cfg.increment)
  }

  function RxBuf(cfg: Config, k: nat): nat
    requires cfg.Valid()
  {
    BufferAt(k, cfg.rxCount, cfg.increment)
  }

  // ---------------------------------------------------------------- order

  /** The transmitter walks its ring in order, with a full window in progress or the goal in sight. */
  ghost predicate TxOrdered(cfg: Config, t: Tx, c: Chan, g: nat)
    requires cfg.Valid()
  {
    var started, p := |c.submitted|, cfg.TxSlots();
    && InRingOrder(c, cfg.txCount, cfg.increment)
    && |c.finished| == t.counter
    && t.inProgress == started - t.counter
    && match t.pc
       case TxPrimeFill => TxPriming(cfg, t, started)
       case TxPrimeStart => TxPriming(cfg, t, started)
       case TxFinish => t.bufferId == TxBuf(cfg, t.counter) && (started == t.counter + p || started >= g)
       case TxStopCheck =>
         TxAtBuffer(cfg, t) && started <= t.counter - 1 + p && (started == t.counter - 1 + p || started >= g)
       case TxFill => TxRefilling(cfg, t, started)
       case TxStart => TxRefilling(cfg, t, started)
       case TxDone => true
  }

  ghost predicate TxPriming(cfg: Config, t: Tx, started: nat)
    requires cfg.Valid()
  {
    t.counter == 0 && !t.stopInProgress && started < cfg.TxSlots() && t.bufferId == TxBuf(cfg, started)
  }

  /** The transmitter holds the buffer it has just finished. */
  ghost predicate TxAtBuffer(cfg: Config, t: Tx)
    requires cfg.Valid()
  {
    1 <= t.counter && t.bufferId == TxBuf(cfg, t.counter - 1)
  }

  ghost predicate TxRefilling(cfg: Config, t: Tx, started: nat)
    requires cfg.Valid()
  {
    && TxAtBuffer(cfg, t)
    && started == t.counter - 1 + cfg.TxSlots()
    && t.bufferId == TxBuf(cfg, started)
  }

  ghost predicate RxOrdered(cfg: Config, r: Rx, c: Chan, g: nat)
    requires cfg.Valid()
  {
    var started, p := |c.submitted|, cfg.RxSlots();
    && InRingOrder(c, cfg.rxCount, cfg.increment)
    && |c.finished| == (if r.pc == RxVerify then r.counter + 1 else r.counter)
    && r.inProgress == started - r.counter
    && match r.pc
       case RxPrimeStart => r.counter == 0 && started < p && r.bufferId == RxBuf(cfg, started)
       case RxPrimeCheck => r.counter == 0 && 1 <= started <= p && r.bufferId == RxBuf(cfg, started - 1)
       case RxFinish => RxFull(r.counter, started, p, g) && r.bufferId == RxBuf(cfg, r.counter)
       case RxVerify => RxFull(r.counter, started, p, g) && r.bufferId == RxBuf(cfg, r.counter)
       case RxExitCheck => RxAtBuffer(cfg, r) && RxFull(r.counter - 1, started, p, g)
       case RxRestartCheck => RxAtBuffer(cfg, r) && RxFull(r.counter - 1, started, p, g)
       case RxStart => RxAtBuffer(cfg, r) && started == r.counter - 1 + p
       case RxDone => true
  }

  /** After `k` buffers were given back, the whole window is started or the goal is. */
  predicate RxFull(k: nat, started: nat, p: nat, g: nat) {
    started <= k + p && (started == k + p || started >= g)
  }

  ghost predicate RxAtBuffer(cfg: Config, r: Rx)
    requires cfg.Valid()
  {
    1 <= r.counter && r.bufferId == RxBuf(cfg, r.counter - 1)
  }

  // ---------------------------------------------------------------- goal

  /** Nobody starts more than the goal, and nobody returns before it. */
  predicate TxGoal(t: Tx, c: Chan, g: nat) {
    && |c.submitted| <= g
    && match t.pc
       case TxPrimeFill => |c.submitted| < g
       case TxPrimeStart => |c.submitted| < g
       case TxFinish => t.counter < g
       case TxStopCheck => t.counter < g
       case TxFill => |c.submitted| < g
       case TxStart => |c.submitted| < g
       case TxDone => t.counter == g == |c.submitted|
  }

  predicate RxGoal(r: Rx, c: Chan, g: nat) {
    && |c.submitted| <= g
    && match r.pc
       case RxPrimeStart => |c.submitted| < g
       case RxPrimeCheck => true
       case RxFinish => r.counter < g
       case RxVerify => r.counter < g
       case RxExitCheck => r.counter <= g
       case RxRestartCheck => r.counter < g
       case RxStart => |c.submitted| < g
       case RxDone => r.counter == g == |c.submitted|
  }

  /** Completions follow the data, and the data follows the submissions of both channels. */
  predicate Flow(s: State) {
    && s.txChan.completed <= s.moved <= |s.txChan.submitted|
    && s.rxChan.completed <= s.moved <= |s.rxChan.submitted|
  }

  ghost predicate Inv(cfg: Config, s: State)
    requires cfg.Valid()
  {
    && TxOrdered(cfg, s.tx, s.txChan, Goal(s)) && TxGoal(s.tx, s.txChan, Goal(s))
    && RxOrdered(cfg, s.rx, s.rxChan, Goal(s)) && RxGoal(s.rx, s.rxChan, Goal(s))
    && Flow(s)
    && (!s.tx.stopInProgress ==> s.numTransfers == cfg.requested)
  }

  /** A stop handled after `c` finished transmissions is harmless: either it leaves `num_transfers` as it
      is, or what the receiver may have started by then fits both the old total and the new one. */
  predicate StopFits(cfg: Config, total: int, c: nat)
    requires cfg.Valid()
  {
    || c + cfg.rxCount == total
    || c + cfg.TxSlots() - 1 + cfg.RxSlots() <= Min(total, c + cfg.rxCount)
  }

  predicate HandlesStop(s: State) {
    s.tx.pc == TxStopCheck && s.stop && !s.tx.stopInProgress
  }

  lemma InitInv(cfg: Config, s: State)
    requires cfg.Valid() && Init(cfg, s)
    ensures Inv(cfg, s)
  {
    NewIsInRingOrder(cfg.txCount, cfg.increment);
    NewIsInRingOrder(cfg.rxCount, cfg.increment);
  }

  // ---------------------------------------------------------------- tx steps

  lemma TxPrimeKeepsOrder(cfg: Config, s: State)
    requires cfg.Valid() && TxOrdered(cfg, s.tx, s.txChan, Goal(s)) && s.tx.pc in {TxPrimeFill, TxPrimeStart}
    ensures var s' := TxStep(cfg, s); TxOrdered(cfg, s'.tx, s'.txChan, Goal(s))
  {
    if s.tx.pc == TxPrimeStart {
      StartKeepsOrder(s.txChan, cfg.txCount, cfg.increment);
      PrimingAdvance(|s.txChan.submitted|, cfg.txCount, cfg.increment);
      assert TxBuf(cfg, 0) == 0;
    }
  }

  lemma TxFinishKeepsOrder(cfg: Config, s: State)
    requires cfg.Valid() && TxOrdered(cfg, s.tx, s.txChan, Goal(s)) && s.tx.pc == TxFinish && TxEnabled(s)
    ensures var s' := TxStep(cfg, s); TxOrdered(cfg, s'.tx, s'.txChan, Goal(s))
  {
    FinishReadyIff(s.txChan, cfg.txCount, cfg.increment);
    FinishKeepsOrder(s.txChan, cfg.txCount, cfg.increment);
  }

  /** Either the window already reaches the total, or the finished buffer is next in the walk to start. */
  lemma WindowCheckKeepsOrder(cfg: Config, t: Tx, c: Chan, total: int)
    requires cfg.Valid() && TxOrdered(cfg, t, c, Max1(total)) && t.pc == TxStopCheck
    ensures TxOrdered(cfg, if t.counter + t.inProgress >= total then TxFlip(cfg, t) else t.(pc := TxFill),
                      c, Max1(total))
  {
    Period(t.counter - 1, cfg.txCount, cfg.increment);
    Flip(t.counter - 1, cfg.txCount, cfg.increment);
  }

  /** The stop test keeps the order if the window is full or the new total is already started. */
  lemma TxStopCheckKeepsOrder(cfg: Config, s: State)
    requires cfg.Valid() && TxOrdered(cfg, s.tx, s.txChan, Goal(s)) && s.tx.pc == TxStopCheck
    requires HandlesStop(s) ==>
               var started := |s.txChan.submitted|;
               started == s.tx.counter - 1 + cfg.TxSlots() || started >= s.tx.counter + cfg.rxCount
    ensures var s' := TxStep(cfg, s); TxOrdered(cfg, s'.tx, s'.txChan, Goal(s'))
  {
    if HandlesStop(s) {
      var t := s.tx.(stopInProgress := true, stoppedAt := s.tx.counter);
      WindowCheckKeepsOrder(cfg, t, s.txChan, s.tx.counter + cfg.rxCount);
    } else {
      WindowCheckKeepsOrder(cfg, s.tx, s.txChan, s.numTransfers);
    }
  }

  lemma TxRestartKeepsOrder(cfg: Config, s: State)
    requires cfg.Valid() && TxOrdered(cfg, s.tx, s.txChan, Goal(s)) && s.tx.pc in {TxFill, TxStart}
    ensures var s' := TxStep(cfg, s); TxOrdered(cfg, s'.tx, s'.txChan, Goal(s))
  {
    if s.tx.pc == TxStart {
      StartKeepsOrder(s.txChan, cfg.txCount, cfg.increment);
      Flip(s.tx.counter - 1, cfg.txCount, cfg.increment);
    }
  }

  lemma TxKeepsOrder(cfg: Config, s: State)
    requires cfg.Valid() && TxOrdered(cfg, s.tx, s.txChan, Goal(s)) && TxEnabled(s)
    requires HandlesStop(s) ==>
               var started := |s.txChan.submitted|;
               started == s.tx.counter - 1 + cfg.TxSlots() || started >= s.tx.counter + cfg.rxCount
    ensures var s' := TxStep(cfg, s); TxOrdered(cfg, s'.tx, s'.txChan, Goal(s'))
  {
    match s.tx.pc
    case TxPrimeFill => TxPrimeKeepsOrder(cfg, s);
    case TxPrimeStart => TxPrimeKeepsOrder(cfg, s);
    case TxFinish => TxFinishKeepsOrder(cfg, s);
    case TxStopCheck => TxStopCheckKeepsOrder(cfg, s);
    case TxFill => TxRestartKeepsOrder(cfg, s);
    case TxStart => TxRestartKeepsOrder(cfg, s);
    case TxDone =>
  }

  lemma TxKeepsGoal(cfg: Config, s: State)
    requires cfg.Valid() && TxOrdered(cfg, s.tx, s.txChan, Goal(s)) && TxGoal(s.tx, s.txChan, Goal(s)) && TxEnabled(s)
    requires HandlesStop(s) ==> StopFits(cfg, s.numTransfers, s.tx.counter)
    ensures var s' := TxStep(cfg, s); TxGoal(s'.tx, s'.txChan, Goal(s'))
  {
    if s.tx.pc == TxPrimeStart {
      PrimingAdvance(|s.txChan.submitted|, cfg.txCount, cfg.increment);
    }
  }

  /** When the total changes, the receiver is still short of both totals with a full window started. */
  lemma StopKeepsRx(cfg: Config, s: State, g': nat)
    requires cfg.Valid() && Inv(cfg, s) && s.tx.pc == TxStopCheck
    requires s.tx.counter + cfg.TxSlots() - 1 + cfg.RxSlots() <= Min(s.numTransfers, g')
    ensures RxOrdered(cfg, s.rx, s.rxChan, g') && RxGoal(s.rx, s.rxChan, g')
  {
  }

  /** What a transmitter step does not touch. */
  lemma TxFrame(cfg: Config, s: State)
    requires cfg.Valid() && TxEnabled(s)
    ensures var s' := TxStep(cfg, s);
            && s'.rx == s.rx && s'.rxChan == s.rxChan && s'.rxMem == s.rxMem && s'.moved == s.moved && s'.stop == s.stop
            && s'.txChan.completed == s.txChan.completed && |s.txChan.submitted| <= |s'.txChan.submitted|
            && s'.numTransfers == (if HandlesStop(s) then s.tx.counter + cfg.rxCount else s.numTransfers)
            && s'.tx.stopInProgress == (s.tx.stopInProgress || HandlesStop(s))
  {
  }

  lemma TxKeeps(cfg: Config, s: State)
    requires cfg.Valid() && Inv(cfg, s) && TxEnabled(s)
    requires HandlesStop(s) ==> StopFits(cfg, s.numTransfers, s.tx.counter)
    ensures Inv(cfg, TxStep(cfg, s))
  {
    TxFrame(cfg, s);
    TxKeepsOrder(cfg, s);
    TxKeepsGoal(cfg, s);
    if HandlesStop(s) && s.tx.counter + cfg.rxCount != s.numTransfers {
      StopKeepsRx(cfg, s, s.tx.counter + cfg.rxCount);
    }
  }

  // ---------------------------------------------------------------- rx steps

  lemma RxPrimeKeepsOrder(cfg: Config, s: State)
    requires cfg.Valid() && RxOrdered(cfg, s.rx, s.rxChan, Goal(s)) && s.rx.pc in {RxPrimeStart, RxPrimeCheck}
    ensures var s' := RxStep(cfg, s); RxOrdered(cfg, s'.rx, s'.rxChan, Goal(s))
  {
    if s.rx.pc == RxPrimeStart {
      StartKeepsOrder(s.rxChan, cfg.rxCount, cfg.increment);
    } else {
      PrimingAdvance(|s.rxChan.submitted| - 1, cfg.rxCount, cfg.increment);
      assert RxBuf(cfg, 0) == 0;
    }
  }

  lemma RxFinishKeepsOrder(cfg: Config, s: State)
    requires cfg.Valid() && RxOrdered(cfg, s.rx, s.rxChan, Goal(s)) && s.rx.pc == RxFinish && RxEnabled(s)
    ensures var s' := RxStep(cfg, s); RxOrdered(cfg, s'.rx, s'.rxChan, Goal(s))
  {
    FinishReadyIff(s.rxChan, cfg.rxCount, cfg.increment);
    FinishKeepsOrder(s.rxChan, cfg.rxCount, cfg.increment);
  }

  lemma RxChecksKeepOrder(cfg: Config, s: State)
    requires cfg.Valid() && RxOrdered(cfg, s.rx, s.rxChan, Goal(s))
    requires s.rx.pc in {RxVerify, RxExitCheck, RxRestartCheck}
    ensures var s' := RxStep(cfg, s); RxOrdered(cfg, s'.rx, s'.rxChan, Goal(s))
  {
    if s.rx.pc == RxRestartCheck {
      Flip(s.rx.counter - 1, cfg.rxCount, cfg.increment);
    }
  }

  lemma RxStartKeepsOrder(cfg: Config, s: State)
    requires cfg.Valid() && RxOrdered(cfg, s.rx, s.rxChan, Goal(s)) && s.rx.pc == RxStart
    ensures var s' := RxStep(cfg, s); RxOrdered(cfg, s'.rx, s'.rxChan, Goal(s))
  {
    var k := s.rx.counter;
    assert s.rx.bufferId == RxBuf(cfg, |s.rxChan.submitted|) by {
      Period(k - 1, cfg.rxCount, cfg.increment);
    }
    StartKeepsOrder(s.rxChan, cfg.rxCount, cfg.increment);
    assert RxStep(cfg, s).rx.bufferId == RxBuf(cfg, k) by {
      Flip(k - 1, cfg.rxCount, cfg.increment);
    }
  }

  lemma RxKeepsOrder(cfg: Config, s: State)
    requires cfg.Valid() && RxOrdered(cfg, s.rx, s.rxChan, Goal(s)) && RxEnabled(s)
    ensures var s' := RxStep(cfg, s); RxOrdered(cfg, s'.rx, s'.rxChan, Goal(s))
  {
    match s.rx.pc
    case RxPrimeStart => RxPrimeKeepsOrder(cfg, s);
    case RxPrimeCheck => RxPrimeKeepsOrder(cfg, s);
    case RxFinish => RxFinishKeepsOrder(cfg, s);
    case RxVerify => RxChecksKeepOrder(cfg, s);
    case RxExitCheck => RxChecksKeepOrder(cfg, s);
    case RxRestartCheck => RxChecksKeepOrder(cfg, s);
    case RxStart => RxStartKeepsOrder(cfg, s);
    case RxDone =>
  }

  lemma RxKeepsGoal(cfg: Config, s: State)
    requires cfg.Valid() && RxOrdered(cfg, s.rx, s.rxChan, Goal(s)) && RxGoal(s.rx, s.rxChan, Goal(s)) && RxEnabled(s)
    ensures var s' := RxStep(cfg, s); RxGoal(s'.rx, s'.rxChan, Goal(s))
  {
    if s.rx.pc == RxPrimeCheck {
      PrimingAdvance(|s.rxChan.submitted| - 1, cfg.rxCount, cfg.increment);
    }
  }

  /** What a receiver step does not touch. */
  lemma RxFrame(cfg: Config, s: State)
    requires cfg.Valid() && RxEnabled(s)
    ensures var s' := RxStep(cfg, s);
            && s'.tx == s.tx && s'.txChan == s.txChan && s'.txMem == s.txMem && s'.rxMem == s.rxMem
            && s'.moved == s.moved && s'.stop == s.stop && s'.numTransfers == s.numTransfers
            && s'.rxChan.completed == s.rxChan.completed && |s.rxChan.submitted| <= |s'.rxChan.submitted|
  {
  }

  lemma RxKeeps(cfg: Config, s: State)
    requires cfg.Valid() && Inv(cfg, s) && RxEnabled(s)
    ensures Inv(cfg, RxStep(cfg, s))
  {
    RxFrame(cfg, s);
    RxKeepsOrder(cfg, s);
    RxKeepsGoal(cfg, s);
  }

  // ---------------------------------------------------------------- hardware

  lemma TxCallbackKeeps(cfg: Config, t: Tx, c: Chan, g: nat)
    requires cfg.Valid() && TxOrdered(cfg, t, c, g) && c.completed < |c.submitted|
    ensures TxOrdered(cfg, t, c.Complete(), g)
  {
    CompleteKeepsOrder(c, cfg.txCount, cfg.increment);
  }

  lemma RxCallbackKeeps(cfg: Config, r: Rx, c: Chan, g: nat)
    requires cfg.Valid() && RxOrdered(cfg, r, c, g) && c.completed < |c.submitted|
    ensures RxOrdered(cfg, r, c.Complete(), g)
  {
    CompleteKeepsOrder(c, cfg.rxCount, cfg.increment);
  }

  lemma EngineKeeps(cfg: Config, s: State)
    requires cfg.Valid() && Inv(cfg, s) && EngineEnabled(s)
    ensures Inv(cfg, EngineStep(cfg, s))
  {
  }

  lemma CallbackKeeps(cfg: Config, s: State, a: Actor)
    requires cfg.Valid() && Inv(cfg, s) && a in {TxCallback, RxCallback} && Enabled(s, a)
    ensures Inv(cfg, Step(cfg, s, a))
  {
    if a == TxCallback {
      TxCallbackKeeps(cfg, s.tx, s.txChan, Goal(s));
    } else {
      RxCallbackKeeps(cfg, s.rx, s.rxChan, Goal(s));
    }
  }

  lemma StepKeeps(cfg: Config, s: State, a: Actor)
    requires cfg.Valid() && Inv(cfg, s)
    requires a == TxThread && HandlesStop(s) ==> StopFits(cfg, s.numTransfers, s.tx.counter)
    ensures Inv(cfg, Step(cfg, s, a))
  {
    if Enabled(s, a) {
      match a
      case TxThread => TxKeeps(cfg, s);
      case RxThread => RxKeeps(cfg, s);
      case Engine => EngineKeeps(cfg, s);
      case TxCallback => CallbackKeeps(cfg, s, a);
      case RxCallback => CallbackKeeps(cfg, s, a);
      case Signal => assert Inv(cfg, s.(stop := true));
    }
  }
}
