/** Every step that moves makes progress, and a state in which nothing can move is the clean end. */
module LoopbackProgress {
  import opened Channel
  import opened Loopback
  import opened LoopbackSafety

  /** How often the total can still change: the signal has yet to arrive, and yet to be handled. */
  function Pending(s: State): nat {
    (if s.stop then 0 else 1) + (if s.tx.stopInProgress then 0 else 1)
  }

  function Left(a: int, b: int): nat {
    if a < b then b - a else 0
  }

  /** What the transmitter can still do while the total stays the same. */
  function TxWork(cfg: Config, t: Tx, g: nat): nat {
    var n := 10 * Left(t.counter, g);
    match t.pc
    case TxPrimeFill => n + 32 + 8 * Left(t.bufferId, cfg.txCount)
    case TxPrimeStart => n + 30 + 8 * Left(t.bufferId, cfg.txCount)
    case TxFinish => n + 20
    case TxStopCheck => n + 29
    case TxFill => n + 27
    case TxStart => n + 25
    case TxDone => 0
  }

  function RxWork(cfg: Config, r: Rx, g: nat): nat {
    var n := 10 * Left(r.counter, g);
    match r.pc
    case RxPrimeStart => n + 31 + 4 * Left(r.bufferId, cfg.rxCount)
    case RxPrimeCheck => n + 30 + 4 * Left(r.bufferId, cfg.rxCount)
    case RxFinish => n + 25
    case RxVerify => n + 24
    case RxExitCheck => if r.counter >= g then 15 else n + 29
    case RxRestartCheck => n + 28
    case RxStart => n + 27
    case RxDone => 0
  }

  /** What the hardware can still do: move each queued transfer, and signal it on both channels. */
  function HardwareWork(s: State): nat {
    3 * Left(s.moved, |s.txChan.submitted|) + Left(s.txChan.completed, s.moved) + Left(s.rxChan.completed, s.moved)
  }

  function Work(cfg: Config, s: State): nat {
    TxWork(cfg, s.tx, Goal(s)) + RxWork(cfg, s.rx, Goal(s)) + HardwareWork(s)
  }

  /** No interleaving runs forever: every step that moves lowers the pair (Pending, Work). */
  lemma StepsDecrease(cfg: Config, s: State, a: Actor)
    requires cfg.Valid() && Enabled(s, a)
    ensures var s' := Step(cfg, s, a);
            Pending(s') < Pending(s) || (Pending(s') == Pending(s) && Work(cfg, s') < Work(cfg, s))
  {
    match a
    case TxThread => TxDecreases(cfg, s);
    case RxThread => RxDecreases(cfg, s);
    case Engine => EngineDecreases(cfg, s);
    case TxCallback => TxCallbackDecreases(cfg, s);
    case RxCallback => RxCallbackDecreases(cfg, s);
    case Signal => assert Pending(s.(stop := true)) < Pending(s);
  }

  lemma EngineDecreases(cfg: Config, s: State)
    requires cfg.Valid() && EngineEnabled(s)
    ensures var s' := EngineStep(cfg, s); Pending(s') == Pending(s) && Work(cfg, s') < Work(cfg, s)
  {
  }

  lemma TxCallbackDecreases(cfg: Config, s: State)
    requires cfg.Valid() && CallbackDue(s.txChan, s.moved)
    ensures var s' := s.(txChan := s.txChan.Complete()); Pending(s') == Pending(s) && Work(cfg, s') < Work(cfg, s)
  {
  }

  lemma RxCallbackDecreases(cfg: Config, s: State)
    requires cfg.Valid() && CallbackDue(s.rxChan, s.moved)
    ensures var s' := s.(rxChan := s.rxChan.Complete()); Pending(s') == Pending(s) && Work(cfg, s') < Work(cfg, s)
  {
  }

  lemma TxDecreases(cfg: Config, s: State)
    requires cfg.Valid() && TxEnabled(s)
    ensures var s' := TxStep(cfg, s);
            Pending(s') < Pending(s) || (Pending(s') == Pending(s) && Work(cfg, s') < Work(cfg, s))
  {
    if s.tx.pc in {TxPrimeFill, TxPrimeStart} {
      TxPrimingDecreases(cfg, s);
    } else if s.tx.pc == TxStopCheck {
      TxStopCheckDecreases(cfg, s);
    }
  }

  lemma TxPrimingDecreases(cfg: Config, s: State)
    requires cfg.Valid() && s.tx.pc in {TxPrimeFill, TxPrimeStart}
    ensures var s' := TxStep(cfg, s); Pending(s') == Pending(s) && Work(cfg, s') < Work(cfg, s)
  {
    var s' := TxStep(cfg, s);
    assert HardwareWork(s') <= HardwareWork(s) + (if s.tx.pc == TxPrimeStart then 3 else 0);
  }

  lemma TxStopCheckDecreases(cfg: Config, s: State)
    requires cfg.Valid() && s.tx.pc == TxStopCheck
    ensures var s' := TxStep(cfg, s);
            Pending(s') < Pending(s) || (Pending(s') == Pending(s) && Work(cfg, s') < Work(cfg, s))
  {
    var s' := TxStep(cfg, s);
    if !(s.stop && !s.tx.stopInProgress) {
      assert s'.numTransfers == s.numTransfers && s'.tx.counter == s.tx.counter;
      assert s'.tx.pc in {TxFinish, TxFill};
    }
  }

  lemma RxDecreases(cfg: Config, s: State)
    requires cfg.Valid() && RxEnabled(s)
    ensures var s' := RxStep(cfg, s);
            Pending(s') == Pending(s) && Work(cfg, s') < Work(cfg, s)
  {
  }

  /** No deadlock: when neither the threads nor the hardware can move, both threads have returned after
      exactly the goal and nothing is in progress. */
  lemma StuckIsDrained(cfg: Config, s: State)
    requires cfg.Valid() && Inv(cfg, s) && Stuck(s)
    ensures Drained(s, Goal(s))
  {
    assert !Enabled(s, TxThread) && !Enabled(s, RxThread) && !Enabled(s, Engine);
    assert !Enabled(s, TxCallback) && !Enabled(s, RxCallback);
    FinishReadyIff(s.txChan, cfg.txCount, cfg.increment);
    FinishReadyIff(s.rxChan, cfg.rxCount, cfg.increment);
  }

  function Mover(s: State): (a: Actor)
    requires !Stuck(s)
    ensures Enabled(s, a) && a != Signal
  {
    if TxEnabled(s) then TxThread
    else if RxEnabled(s) then RxThread
    else if EngineEnabled(s) then Engine
    else if Enabled(s, TxCallback) then TxCallback
    else RxCallback
  }

  /** From any state some interleaving without a signal ends in a stuck state. */
  lemma {:induction false} RunToStuck(cfg: Config, s: State) returns (q: seq<Actor>)
    requires cfg.Valid()
    ensures Stuck(Exec(cfg, s, q)) && Signal !in q
    decreases Pending(s), Work(cfg, s)
  {
    q := [];
    if !Stuck(s) {
      var a := Mover(s);
      StepsDecrease(cfg, s, a);
      var rest := RunToStuck(cfg, Step(cfg, s, a));
      q := [a] + rest;
      ExecOne(cfg, s, a);
      ExecAppend(cfg, s, [a], rest);
    }
  }

  lemma ExecOne(cfg: Config, s: State, a: Actor)
    requires cfg.Valid()
    ensures Exec(cfg, s, [a]) == Step(cfg, s, a)
  {
    assert Exec(cfg, s, [a][..0]) == s;
  }
}
