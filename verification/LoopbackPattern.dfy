/** The data check of the loopback test: which buffer carries which transfer, and exactly when an early stop
    leaves the pattern intact. Unlike the drain, the pattern survives most stops that do not fit. */
module LoopbackPattern {
  import opened Ring
  import opened Channel
  import opened Loopback
  import opened LoopbackSafety
  import opened LoopbackTheorems

  /** A stop handled after `c` transmissions leaves the pattern intact: the transmitter has not yet let its
      window shrink, or the stop does not make it send more than it was going to. */
  predicate PatternSurvives(cfg: Config, c: nat)
    requires cfg.Valid()
  {
    c - 1 + cfg.TxSlots() <= cfg.requested || c + cfg.rxCount <= cfg.requested
  }

  predicate StopSparedPattern(cfg: Config, s: State)
    requires cfg.Valid()
  {
    s.tx.stopInProgress ==> PatternSurvives(cfg, s.tx.stoppedAt)
  }

  // ---------------------------------------------------------------- the data

  /** `buf` holds the data of transfer `k`: its first word is k, and from the first refill on every word
      of the transfer is its index plus k. */
  predicate Carries(cfg: Config, buf: seq<int>, k: nat)
    requires cfg.Valid()
  {
    && |buf| == cfg.capacity
    && buf[0] == k
    && (k >= cfg.TxSlots() ==> forall i :: 0 <= i < cfg.words ==> buf[i] == i + k)
  }

  /** The transmit buffers of transfers `from` to `to - 1` hold the data of those transfers. */
  ghost predicate SendData(cfg: Config, mem: seq<seq<int>>, from: nat, to: nat)
    requires cfg.Valid() && |mem| == cfg.txCount
  {
    forall k: nat :: from <= k < to ==> Carries(cfg, mem[TxBuf(cfg, k)], k)
  }

  ghost predicate ReceivedData(cfg: Config, mem: seq<seq<int>>, from: nat, to: int)
    requires cfg.Valid() && |mem| == cfg.rxCount
  {
    cfg.verify && 0 < cfg.words ==> forall k: nat :: from <= k < to ==> Carries(cfg, mem[RxBuf(cfg, k)], k)
  }

  /** What the transmitter has queued, including the buffer it has filled and not yet started. */
  ghost predicate TxData(cfg: Config, mem: seq<seq<int>>, pc: TxPc, started: nat, moved: nat)
    requires cfg.Valid()
  {
    && MemShape(mem, cfg.txCount, cfg.capacity)
    && (cfg.verify && 0 < cfg.words ==>
          SendData(cfg, mem, moved, if pc in {TxPrimeStart, TxStart} then started + 1 else started))
  }

  /** The receiver after a stop has raised the total behind its back: it had started `n` transfers and let a
      restart go, so the buffer of position `n` stands empty. What it starts now lies behind it in the ring. */
  ghost predicate RxHoled(cfg: Config, r: Rx, c: Chan, n: nat)
    requires cfg.Valid()
  {
    var k, f, p := r.counter, |c.finished|, cfg.RxSlots();
    && f == (if r.pc == RxVerify then k + 1 else k)
    && f <= n <= |c.submitted| && f <= c.completed
    && FollowsWalk(c.submitted[..n], cfg.rxCount, cfg.increment)
    && (forall i, j: nat :: n <= i < |c.submitted| && c.completed <= i && k <= j <= n
          ==> c.submitted[i] != RxBuf(cfg, j))
    && (forall j: nat :: f <= j <= n ==> (RxBuf(cfg, j) in c.ready <==> j < c.completed && j < n))
    && match r.pc
       case RxDone => n < k + p
       case RxFinish => n < k + p && r.bufferId == RxBuf(cfg, k)
       case RxVerify => n < k + p && r.bufferId == RxBuf(cfg, k)
       case RxExitCheck => n < k - 1 + p && RxAtBuffer(cfg, r)
       case RxRestartCheck => n < k - 1 + p && RxAtBuffer(cfg, r)
       case RxStart => n < k - 1 + p && RxAtBuffer(cfg, r)
       case _ => false
  }

  /** The receiver's buffers between its counter and the hardware carry what they should. */
  ghost predicate RxSound(cfg: Config, s: State)
    requires cfg.Valid() && MemShape(s.rxMem, cfg.rxCount, cfg.capacity)
  {
    RxOrdered(cfg, s.rx, s.rxChan, Goal(s)) && ReceivedData(cfg, s.rxMem, s.rx.counter, s.moved)
  }

  ghost predicate RxSoundHoled(cfg: Config, s: State)
    requires cfg.Valid() && MemShape(s.rxMem, cfg.rxCount, cfg.capacity)
  {
    && 0 <= cfg.requested && s.tx.stopInProgress
    && RxHoled(cfg, s.rx, s.rxChan, cfg.requested)
    && ReceivedData(cfg, s.rxMem, s.rx.counter, Min(s.moved, cfg.requested))
  }

  ghost predicate PatternInv(cfg: Config, s: State)
    requires cfg.Valid()
  {
    && TxOrdered(cfg, s.tx, s.txChan, Goal(s))
    && Flow(s)
    && (!s.tx.stopInProgress ==> Inv(cfg, s))
    && TxData(cfg, s.txMem, s.tx.pc, |s.txChan.submitted|, s.moved)
    && MemShape(s.rxMem, cfg.rxCount, cfg.capacity)
    && (RxSound(cfg, s) || RxSoundHoled(cfg, s))
    && (0 < cfg.words ==> s.rx.mismatches == 0)
  }

  // ---------------------------------------------------------------- tx steps

  /** The counter formulas of priming and refill both yield the submission index. */
  lemma FilledBufferCarries(cfg: Config, s: State)
    requires cfg.Valid() && TxOrdered(cfg, s.tx, s.txChan, Goal(s)) && MemShape(s.txMem, cfg.txCount, cfg.capacity)
    requires s.tx.pc in {TxPrimeFill, TxFill} && cfg.verify && 0 < cfg.words
    ensures var s' := TxStep(cfg, s);
            |s'.txMem| == cfg.txCount && Carries(cfg, s'.txMem[s.tx.bufferId], |s.txChan.submitted|)
  {
    var buf := ReadBuffer(s.txMem, s.tx.bufferId);
    if s.tx.pc == TxFill {
      var r := Refill(cfg, buf, s.tx.counter);
      assert r[0] == |s.txChan.submitted|;
    }
  }

  /** Filling the next buffer to start leaves the queued data alone and adds the data of that transfer. */
  lemma FillKeepsData(cfg: Config, s: State)
    requires cfg.Valid() && TxOrdered(cfg, s.tx, s.txChan, Goal(s)) && Flow(s)
    requires TxData(cfg, s.txMem, s.tx.pc, |s.txChan.submitted|, s.moved)
    requires s.tx.pc in {TxPrimeFill, TxFill}
    ensures var s' := TxStep(cfg, s); TxData(cfg, s'.txMem, s'.tx.pc, |s'.txChan.submitted|, s'.moved)
  {
    var n := |s.txChan.submitted|;
    var s' := TxStep(cfg, s);
    if cfg.verify && 0 < cfg.words {
      assert s.tx.bufferId == TxBuf(cfg, n);
      forall k: nat | s.moved <= k < n + 1
        ensures Carries(cfg, s'.txMem[TxBuf(cfg, k)], k)
      {
        if k < n {
          Distinct(k, n, cfg.txCount, cfg.increment);
        } else {
          FilledBufferCarries(cfg, s);
        }
      }
    }
  }

  lemma TxKeepsData(cfg: Config, s: State)
    requires cfg.Valid() && TxOrdered(cfg, s.tx, s.txChan, Goal(s)) && Flow(s) && TxEnabled(s)
    requires TxData(cfg, s.txMem, s.tx.pc, |s.txChan.submitted|, s.moved)
    ensures var s' := TxStep(cfg, s); TxData(cfg, s'.txMem, s'.tx.pc, |s'.txChan.submitted|, s'.moved)
  {
    if s.tx.pc in {TxPrimeFill, TxFill} {
      FillKeepsData(cfg, s);
    }
  }

  /** A change of the total leaves the receiver in order, or with a hole at the old total. */
  lemma StopKeepsRxSound(cfg: Config, s: State, s': State)
    requires cfg.Valid() && Inv(cfg, s) && MemShape(s.rxMem, cfg.rxCount, cfg.capacity) && RxSound(cfg, s)
    requires s.tx.pc == TxStopCheck && !s.tx.stopInProgress && s'.tx.stopInProgress
    requires s'.rx == s.rx && s'.rxChan == s.rxChan && s'.rxMem == s.rxMem && s'.moved == s.moved
    ensures RxSound(cfg, s') || RxSoundHoled(cfg, s')
  {
    var n := |s.rxChan.submitted|;
    if !RxOrdered(cfg, s.rx, s.rxChan, Goal(s')) {
      assert n == cfg.requested && n < |s.rxChan.finished| + cfg.RxSlots();
      assert s.rxChan.submitted[..n] == s.rxChan.submitted;
      assert RxHoled(cfg, s.rx, s.rxChan, n);
    }
  }

  lemma TxKeepsPattern(cfg: Config, s: State)
    requires cfg.Valid() && PatternInv(cfg, s) && TxEnabled(s)
    requires HandlesStop(s) ==> PatternSurvives(cfg, s.tx.counter)
    ensures PatternInv(cfg, TxStep(cfg, s))
  {
    var s' := TxStep(cfg, s);
    TxFrame(cfg, s);
    TxKeepsOrder(cfg, s);
    TxKeepsData(cfg, s);
    if HandlesStop(s) {
      if RxSound(cfg, s) {
        StopKeepsRxSound(cfg, s, s');
      }
    } else {
      if !s.tx.stopInProgress {
        TxKeeps(cfg, s);
      }
      assert RxSound(cfg, s) ==> RxSound(cfg, s');
      assert RxSoundHoled(cfg, s) ==> RxSoundHoled(cfg, s');
    }
  }

  // ---------------------------------------------------------------- rx steps

  /** The receiver compares the buffer whose turn it is, and it carries the transfer it should. */
  lemma RxKeepsMatches(cfg: Config, s: State, to: int)
    requires cfg.Valid() && RxEnabled(s) && MemShape(s.rxMem, cfg.rxCount, cfg.capacity)
    requires ReceivedData(cfg, s.rxMem, s.rx.counter, to)
    requires s.rx.pc == RxVerify ==> s.rx.counter < to && s.rx.bufferId == RxBuf(cfg, s.rx.counter)
    requires 0 < cfg.words ==> s.rx.mismatches == 0
    ensures var s' := RxStep(cfg, s);
            && (0 < cfg.words ==> s'.rx.mismatches == 0)
            && ReceivedData(cfg, s'.rxMem, s'.rx.counter, to)
  {
    if s.rx.pc == RxVerify && cfg.verify && 0 < cfg.words {
      assert Carries(cfg, s.rxMem[RxBuf(cfg, s.rx.counter)], s.rx.counter);
    }
  }

  lemma HoledFinishKeeps(cfg: Config, s: State, n: nat)
    requires cfg.Valid() && RxHoled(cfg, s.rx, s.rxChan, n) && s.rx.pc == RxFinish && RxEnabled(s)
    ensures var s' := RxStep(cfg, s); RxHoled(cfg, s'.rx, s'.rxChan, n)
  {
    var k := s.rx.counter;
    forall j: nat | k < j <= n
      ensures RxBuf(cfg, j) != RxBuf(cfg, k)
    {
      Distinct(k, j, cfg.rxCount, cfg.increment);
    }
  }

  lemma HoledChecksKeep(cfg: Config, s: State, n: nat)
    requires cfg.Valid() && RxHoled(cfg, s.rx, s.rxChan, n) && s.rx.pc in {RxVerify, RxExitCheck}
    ensures var s' := RxStep(cfg, s); RxHoled(cfg, s'.rx, s'.rxChan, n)
  {
  }

  lemma HoledRestartCheckKeeps(cfg: Config, s: State, n: nat)
    requires cfg.Valid() && RxHoled(cfg, s.rx, s.rxChan, n) && s.rx.pc == RxRestartCheck
    ensures var s' := RxStep(cfg, s); RxHoled(cfg, s'.rx, s'.rxChan, n)
  {
    Flip(s.rx.counter - 1, cfg.rxCount, cfg.increment);
  }

  lemma HoledStartKeeps(cfg: Config, s: State, n: nat)
    requires cfg.Valid() && RxHoled(cfg, s.rx, s.rxChan, n) && s.rx.pc == RxStart
    ensures var s' := RxStep(cfg, s); RxHoled(cfg, s'.rx, s'.rxChan, n)
  {
    var k := s.rx.counter;
    var s' := RxStep(cfg, s);
    Flip(k - 1, cfg.rxCount, cfg.increment);
    forall j: nat | k <= j <= n
      ensures RxBuf(cfg, j) != RxBuf(cfg, k - 1)
    {
      Distinct(k - 1, j, cfg.rxCount, cfg.increment);
    }
    assert s'.rxChan.submitted[..n] == s.rxChan.submitted[..n];
  }

  lemma RxKeepsHoled(cfg: Config, s: State, n: nat)
    requires cfg.Valid() && RxHoled(cfg, s.rx, s.rxChan, n) && RxEnabled(s)
    ensures var s' := RxStep(cfg, s); RxHoled(cfg, s'.rx, s'.rxChan, n)
  {
    match s.rx.pc
    case RxFinish => HoledFinishKeeps(cfg, s, n);
    case RxVerify => HoledChecksKeep(cfg, s, n);
    case RxExitCheck => HoledChecksKeep(cfg, s, n);
    case RxRestartCheck => HoledRestartCheckKeeps(cfg, s, n);
    case RxStart => HoledStartKeeps(cfg, s, n);
  }

  lemma RxKeepsSound(cfg: Config, s: State)
    requires cfg.Valid() && MemShape(s.rxMem, cfg.rxCount, cfg.capacity) && RxSound(cfg, s) && Flow(s) && RxEnabled(s)
    requires 0 < cfg.words ==> s.rx.mismatches == 0
    ensures var s' := RxStep(cfg, s);
            s'.rxMem == s.rxMem && RxSound(cfg, s') && (0 < cfg.words ==> s'.rx.mismatches == 0)
  {
    RxFrame(cfg, s);
    RxKeepsOrder(cfg, s);
    RxKeepsMatches(cfg, s, s.moved);
  }

  lemma RxKeepsSoundHoled(cfg: Config, s: State)
    requires cfg.Valid() && MemShape(s.rxMem, cfg.rxCount, cfg.capacity)
    requires RxSoundHoled(cfg, s) && Flow(s) && RxEnabled(s)
    requires 0 < cfg.words ==> s.rx.mismatches == 0
    ensures var s' := RxStep(cfg, s);
            s'.rxMem == s.rxMem && RxSoundHoled(cfg, s') && (0 < cfg.words ==> s'.rx.mismatches == 0)
  {
    RxFrame(cfg, s);
    RxKeepsHoled(cfg, s, cfg.requested);
    RxKeepsMatches(cfg, s, Min(s.moved, cfg.requested));
  }

  lemma RxKeepsPattern(cfg: Config, s: State)
    requires cfg.Valid() && PatternInv(cfg, s) && RxEnabled(s)
    ensures PatternInv(cfg, RxStep(cfg, s))
  {
    RxFrame(cfg, s);
    if RxSound(cfg, s) {
      RxKeepsSound(cfg, s);
    } else {
      RxKeepsSoundHoled(cfg, s);
    }
    if !s.tx.stopInProgress {
      RxKeeps(cfg, s);
    }
  }

  // ---------------------------------------------------------------- hardware

  /** Moving transfer `m` into a buffer no waiting position uses leaves the waiting data alone. */
  lemma MoveKeepsReceived(cfg: Config, s: State, to: int)
    requires cfg.Valid() && EngineEnabled(s) && MemShape(s.rxMem, cfg.rxCount, cfg.capacity)
    requires MemShape(s.txMem, cfg.txCount, cfg.capacity)
    requires ReceivedData(cfg, s.rxMem, s.rx.counter, to)
    requires forall k: nat :: s.rx.counter <= k < to ==> RxBuf(cfg, k) != s.rxChan.submitted[s.moved]
    ensures MemShape(EngineStep(cfg, s).rxMem, cfg.rxCount, cfg.capacity)
    ensures ReceivedData(cfg, EngineStep(cfg, s).rxMem, s.rx.counter, to)
  {
  }

  /** The buffer moved into carries the transfer moved. */
  lemma MovedBufferCarries(cfg: Config, s: State)
    requires cfg.Valid() && EngineEnabled(s) && cfg.verify && 0 < cfg.words
    requires TxOrdered(cfg, s.tx, s.txChan, Goal(s)) && MemShape(s.rxMem, cfg.rxCount, cfg.capacity)
    requires TxData(cfg, s.txMem, s.tx.pc, |s.txChan.submitted|, s.moved)
    requires s.rxChan.submitted[s.moved] == RxBuf(cfg, s.moved)
    ensures var s' := EngineStep(cfg, s);
            |s'.rxMem| == cfg.rxCount && Carries(cfg, s'.rxMem[RxBuf(cfg, s.moved)], s.moved)
  {
    assert Carries(cfg, s.txMem[TxBuf(cfg, s.moved)], s.moved);
  }

  lemma EngineKeepsSound(cfg: Config, s: State)
    requires cfg.Valid() && EngineEnabled(s) && Flow(s)
    requires TxOrdered(cfg, s.tx, s.txChan, Goal(s)) && MemShape(s.rxMem, cfg.rxCount, cfg.capacity)
    requires TxData(cfg, s.txMem, s.tx.pc, |s.txChan.submitted|, s.moved)
    requires RxSound(cfg, s)
    ensures var s' := EngineStep(cfg, s); MemShape(s'.rxMem, cfg.rxCount, cfg.capacity) && RxSound(cfg, s')
  {
    var m := s.moved;
    forall k: nat | s.rx.counter <= k < m
      ensures RxBuf(cfg, k) != s.rxChan.submitted[m]
    {
      Distinct(k, m, cfg.rxCount, cfg.increment);
    }
    MoveKeepsReceived(cfg, s, m);
    if cfg.verify && 0 < cfg.words {
      MovedBufferCarries(cfg, s);
    }
  }

  lemma EngineKeepsSoundHoled(cfg: Config, s: State)
    requires cfg.Valid() && EngineEnabled(s) && Flow(s)
    requires TxOrdered(cfg, s.tx, s.txChan, Goal(s)) && MemShape(s.rxMem, cfg.rxCount, cfg.capacity)
    requires TxData(cfg, s.txMem, s.tx.pc, |s.txChan.submitted|, s.moved)
    requires RxSoundHoled(cfg, s)
    ensures var s' := EngineStep(cfg, s); MemShape(s'.rxMem, cfg.rxCount, cfg.capacity) && RxSoundHoled(cfg, s')
  {
    var m, n := s.moved, cfg.requested;
    if m < n {
      assert s.rxChan.submitted[..n][m] == RxBuf(cfg, m);
    }
    forall k: nat | s.rx.counter <= k < Min(m, n)
      ensures RxBuf(cfg, k) != s.rxChan.submitted[m]
    {
      if m < n {
        Distinct(k, m, cfg.rxCount, cfg.increment);
      }
    }
    MoveKeepsReceived(cfg, s, Min(m, n));
    if cfg.verify && 0 < cfg.words && m < n {
      MovedBufferCarries(cfg, s);
    }
  }

  lemma EngineKeepsPattern(cfg: Config, s: State)
    requires cfg.Valid() && PatternInv(cfg, s) && EngineEnabled(s)
    ensures PatternInv(cfg, EngineStep(cfg, s))
  {
    if RxSound(cfg, s) {
      EngineKeepsSound(cfg, s);
    } else {
      EngineKeepsSoundHoled(cfg, s);
    }
    if !s.tx.stopInProgress {
      EngineKeeps(cfg, s);
    }
  }

  lemma HoledCallbackKeeps(cfg: Config, r: Rx, c: Chan, n: nat)
    requires cfg.Valid() && RxHoled(cfg, r, c, n) && c.completed < |c.submitted|
    ensures RxHoled(cfg, r, c.Complete(), n)
  {
    var i := c.completed;
    if i < n {
      assert c.submitted[..n][i] == RxBuf(cfg, i);
    }
    forall j: nat | |c.finished| <= j <= n && j != i
      ensures RxBuf(cfg, j) != c.submitted[i]
    {
      if j < i < n {
        Distinct(j, i, cfg.rxCount, cfg.increment);
      } else if i < j && i < n {
        Distinct(i, j, cfg.rxCount, cfg.increment);
      }
    }
  }

  lemma RxCallbackKeepsPattern(cfg: Config, s: State)
    requires cfg.Valid() && PatternInv(cfg, s) && CallbackDue(s.rxChan, s.moved)
    ensures PatternInv(cfg, s.(rxChan := s.rxChan.Complete()))
  {
    var s' := s.(rxChan := s.rxChan.Complete());
    if RxSound(cfg, s) {
      RxCallbackKeeps(cfg, s.rx, s.rxChan, Goal(s));
      assert RxSound(cfg, s');
    } else {
      HoledCallbackKeeps(cfg, s.rx, s.rxChan, cfg.requested);
      assert RxSoundHoled(cfg, s');
    }
    if !s.tx.stopInProgress {
      CallbackKeeps(cfg, s, RxCallback);
    }
  }

  lemma TxCallbackKeepsPattern(cfg: Config, s: State)
    requires cfg.Valid() && PatternInv(cfg, s) && CallbackDue(s.txChan, s.moved)
    ensures PatternInv(cfg, s.(txChan := s.txChan.Complete()))
  {
    var s' := s.(txChan := s.txChan.Complete());
    TxCallbackKeeps(cfg, s.tx, s.txChan, Goal(s));
    if !s.tx.stopInProgress {
      CallbackKeeps(cfg, s, TxCallback);
    }
    assert RxSound(cfg, s) ==> RxSound(cfg, s');
    assert RxSoundHoled(cfg, s) ==> RxSoundHoled(cfg, s');
  }

  lemma SignalKeepsPattern(cfg: Config, s: State)
    requires cfg.Valid() && PatternInv(cfg, s)
    ensures PatternInv(cfg, s.(stop := true))
  {
    var s' := s.(stop := true);
    assert RxSound(cfg, s) ==> RxSound(cfg, s');
    assert RxSoundHoled(cfg, s) ==> RxSoundHoled(cfg, s');
  }

  lemma StepKeepsPattern(cfg: Config, s: State, a: Actor)
    requires cfg.Valid() && PatternInv(cfg, s)
    requires a == TxThread && HandlesStop(s) ==> PatternSurvives(cfg, s.tx.counter)
    ensures PatternInv(cfg, Step(cfg, s, a))
  {
    if Enabled(s, a) {
      match a
      case TxThread => TxKeepsPattern(cfg, s);
      case RxThread => RxKeepsPattern(cfg, s);
      case Engine => EngineKeepsPattern(cfg, s);
      case TxCallback => TxCallbackKeepsPattern(cfg, s);
      case RxCallback => RxCallbackKeepsPattern(cfg, s);
      case Signal => SignalKeepsPattern(cfg, s);
    }
  }

  lemma InitPattern(cfg: Config, s: State)
    requires cfg.Valid() && Init(cfg, s)
    ensures PatternInv(cfg, s)
  {
    InitInv(cfg, s);
    assert RxSound(cfg, s);
  }

  lemma {:induction false} ReachablePattern(cfg: Config, s0: State, schedule: seq<Actor>)
    requires cfg.Valid() && Init(cfg, s0)
    requires StopSparedPattern(cfg, Exec(cfg, s0, schedule))
    ensures PatternInv(cfg, Exec(cfg, s0, schedule))
  {
    if |schedule| == 0 {
      InitPattern(cfg, s0);
    } else {
      var n := |schedule| - 1;
      var s := Exec(cfg, s0, schedule[..n]);
      StepKeepsHistory(cfg, s, schedule[n]);
      ReachablePattern(cfg, s0, schedule[..n]);
      StepKeepsPattern(cfg, s, schedule[n]);
    }
  }

  // ---------------------------------------------------------------- what is delivered

  /** With verify on and a non-empty transfer, in every interleaving without a stop, or with one that spares
      the pattern, the k-th received buffer carries transmission k when it is checked, and no mismatch is
      ever reported. */
  lemma LoopbackDeliversPattern(cfg: Config, s0: State, schedule: seq<Actor>)
    requires cfg.Valid() && Init(cfg, s0) && cfg.verify && 0 < cfg.words
    requires StopSparedPattern(cfg, Exec(cfg, s0, schedule))
    ensures var s := Exec(cfg, s0, schedule);
            && s.rx.mismatches == 0
            && (s.rx.pc == RxVerify ==>
                  s.rx.bufferId < |s.rxMem| && Carries(cfg, s.rxMem[s.rx.bufferId], s.rx.counter))
  {
    ReachablePattern(cfg, s0, schedule);
  }

  /** A stop is handled short of the requested total, and until then the total is the requested one. */
  predicate StopRange(cfg: Config, s: State) {
    && (s.tx.stopInProgress ==> 1 <= s.tx.stoppedAt < cfg.requested)
    && (!s.tx.stopInProgress ==> s.numTransfers == cfg.requested)
    && (s.tx.pc == TxStopCheck ==> 1 <= s.tx.counter)
    && (s.tx.pc == TxStopCheck && !s.tx.stopInProgress ==> s.tx.counter < s.numTransfers)
  }

  lemma {:induction false} StoppedInRange(cfg: Config, s0: State, schedule: seq<Actor>)
    requires cfg.Valid() && Init(cfg, s0)
    ensures StopRange(cfg, Exec(cfg, s0, schedule))
  {
    if |schedule| > 0 {
      StoppedInRange(cfg, s0, schedule[..|schedule| - 1]);
      StoppedInRangeStep(cfg, Exec(cfg, s0, schedule[..|schedule| - 1]), schedule[|schedule| - 1]);
    }
  }

  lemma StoppedInRangeStep(cfg: Config, s: State, a: Actor)
    requires cfg.Valid() && StopRange(cfg, s)
    ensures StopRange(cfg, Step(cfg, s, a))
  {
    if a == TxThread && TxEnabled(s) {
      TxFrame(cfg, s);
    } else if a == RxThread && RxEnabled(s) {
      RxFrame(cfg, s);
    }
  }

  /** With a single transmit slot, as shipped, no stop at all disturbs the pattern. */
  lemma OneSlotDeliversPattern(cfg: Config, s0: State, schedule: seq<Actor>)
    requires cfg.Valid() && Init(cfg, s0) && cfg.verify && 0 < cfg.words && cfg.TxSlots() == 1
    ensures Exec(cfg, s0, schedule).rx.mismatches == 0
  {
    StoppedInRange(cfg, s0, schedule);
    LoopbackDeliversPattern(cfg, s0, schedule);
  }
}
