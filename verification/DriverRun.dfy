/** The loopback test on top of the driver: two threads, two driver channels and the DMA hardware, each taking
    turns as it likes. As long as no FINISH sleeps out its three seconds and the engine reports no DMA error,
    the drivers report nothing but success, so the status tests of tx_thread and rx_thread never fire. */
module DriverRun {
  import D = DmaProxy
  import opened Channel
  import opened Loopback
  import opened LoopbackSafety
  import opened LoopbackProgress
  import opened LoopbackTheorems
  import opened DriverRefinement

  /** A thread is inside FINISH, woken but with the cookie of buffer `b` still to be queried, or it is not. */
  datatype Call = Outside | Querying(b: nat)

  datatype Driver = Driver(chan: D.Channel, call: Call)

  datatype World = World(s: State, tx: Driver, rx: Driver)

  /** Who moves next: a thread, the hardware with the data, the engine of a channel with the end of its oldest
      transfer, the callback of a channel, or the SIGINT handler. */
  datatype Turn = TxThreadRuns | RxThreadRuns | DataMoves | TxTransferDone | RxTransferDone
                | TxCallbackRuns | RxCallbackRuns | Interrupt

  predicate DriverInRange(d: Driver, n: nat) {
    D.Shape(d.chan, n) && (d.call.Querying? ==> d.call.b < n)
  }

  predicate InRange(cfg: Config, w: World) {
    && DriverInRange(w.tx, cfg.txCount) && DriverInRange(w.rx, cfg.rxCount)
    && w.s.tx.bufferId < cfg.txCount && w.s.rx.bufferId < cfg.rxCount
  }

  lemma StepKeepsRange(cfg: Config, s: State, a: Actor)
    requires cfg.Valid() && s.tx.bufferId < cfg.txCount && s.rx.bufferId < cfg.rxCount
    ensures var s' := Step(cfg, s, a); s'.tx.bufferId < cfg.txCount && s'.rx.bufferId < cfg.rxCount
  {
  }

  // ---------------------------------------------------------------- one turn

  function MarkBusy(c: D.Channel, b: nat, n: nat): (c': D.Channel)
    requires D.Shape(c, n) && b < n
    ensures D.Shape(c', n)
  {
    c.(status := c.status[b := D.Busy])
  }

  function Query(d: Driver, n: nat): (d': Driver)
    requires DriverInRange(d, n) && d.call.Querying?
    ensures DriverInRange(d', n)
  {
    Driver(D.Conclude(d.chan, d.call.b, true, false, n), Outside)
  }

  function EnterFinish(d: Driver, b: nat, n: nat): (d': Driver)
    requires DriverInRange(d, n) && b < n
    ensures DriverInRange(d', n)
  {
    var c := MarkBusy(d.chan, b, n);
    if c.bd[b].done == 0 then Driver(c, Outside) else Driver(D.Take(c, b, n), Querying(b))
  }

  function TxTurn(cfg: Config, w: World): (w': World)
    requires cfg.Valid() && InRange(cfg, w)
    ensures InRange(cfg, w')
  {
    var b, n := w.s.tx.bufferId, cfg.txCount;
    StepKeepsRange(cfg, w.s, TxThread);
    var next := Step(cfg, w.s, TxThread);
    if w.tx.call.Querying? then w.(tx := Query(w.tx, n))
    else match w.s.tx.pc
    case TxPrimeStart => w.(s := next, tx := Driver(D.Start(w.tx.chan, b, n), Outside))
    case TxStart => w.(s := next, tx := Driver(D.Start(w.tx.chan, b, n), Outside))
    case TxFinish =>
      var d := EnterFinish(w.tx, b, n);
      if d.call.Querying? then w.(s := next, tx := d) else w.(tx := d)
    case _ => w.(s := next)
  }

  function RxTurn(cfg: Config, w: World): (w': World)
    requires cfg.Valid() && InRange(cfg, w)
    ensures InRange(cfg, w')
  {
    var b, n := w.s.rx.bufferId, cfg.rxCount;
    StepKeepsRange(cfg, w.s, RxThread);
    var next := Step(cfg, w.s, RxThread);
    if w.rx.call.Querying? then w.(rx := Query(w.rx, n))
    else match w.s.rx.pc
    case RxPrimeStart => w.(s := next, rx := Driver(D.Start(w.rx.chan, b, n), Outside))
    case RxStart => w.(s := next, rx := Driver(D.Start(w.rx.chan, b, n), Outside))
    case RxFinish =>
      var d := EnterFinish(w.rx, b, n);
      if d.call.Querying? then w.(s := next, rx := d) else w.(rx := d)
    case _ => w.(s := next)
  }

  /** The engine of a channel learns of the end of a transfer only after its data has moved. */
  function TransferEnds(d: Driver, moved: nat, n: nat): (d': Driver)
    requires DriverInRange(d, n)
    ensures DriverInRange(d', n)
  {
    if d.chan.completed < moved then d.(chan := D.Happen(d.chan, D.TransferDone, n)) else d
  }

  function CallbackOf(d: Driver, n: nat): (d': Driver)
    requires DriverInRange(d, n)
    ensures DriverInRange(d', n)
  {
    d.(chan := D.Happen(d.chan, D.CallbackRuns, n))
  }

  function TakeTurn(cfg: Config, w: World, turn: Turn): (w': World)
    requires cfg.Valid() && InRange(cfg, w)
    ensures InRange(cfg, w')
  {
    StepKeepsRange(cfg, w.s, Engine);
    match turn
    case TxThreadRuns => TxTurn(cfg, w)
    case RxThreadRuns => RxTurn(cfg, w)
    case DataMoves => w.(s := Step(cfg, w.s, Engine))
    case TxTransferDone => w.(tx := TransferEnds(w.tx, w.s.moved, cfg.txCount))
    case RxTransferDone => w.(rx := TransferEnds(w.rx, w.s.moved, cfg.rxCount))
    case TxCallbackRuns =>
      if w.tx.chan.called < w.tx.chan.completed
      then w.(s := Step(cfg, w.s, TxCallback), tx := CallbackOf(w.tx, cfg.txCount)) else w
    case RxCallbackRuns =>
      if w.rx.chan.called < w.rx.chan.completed
      then w.(s := Step(cfg, w.s, RxCallback), rx := CallbackOf(w.rx, cfg.rxCount)) else w
    case Interrupt => w.(s := Step(cfg, w.s, Signal))
  }

  function Play(cfg: Config, w: World, turns: seq<Turn>): (w': World)
    requires cfg.Valid() && InRange(cfg, w)
    ensures InRange(cfg, w')
    decreases |turns|
  {
    if |turns| == 0 then w else TakeTurn(cfg, Play(cfg, w, turns[..|turns| - 1]), turns[|turns| - 1])
  }

  /** The threads at their start, the drivers after create_channel. */
  ghost predicate Started(cfg: Config, w: World) {
    && InRange(cfg, w) && Init(cfg, w.s)
    && D.Fresh(w.tx.chan, cfg.txCount) && D.Fresh(w.rx.chan, cfg.rxCount)
    && w.tx.call == w.rx.call == Outside
  }

  // ---------------------------------------------------------------- a run is an interleaving

  function ActorOf(turn: Turn): Actor {
    match turn
    case TxThreadRuns => TxThread
    case RxThreadRuns => RxThread
    case DataMoves => Engine
    case TxCallbackRuns => TxCallback
    case RxCallbackRuns => RxCallback
    case _ => Signal
  }

  lemma TurnIsStep(cfg: Config, w: World, turn: Turn)
    requires cfg.Valid() && InRange(cfg, w)
    ensures var s' := TakeTurn(cfg, w, turn).s; s' == w.s || s' == Step(cfg, w.s, ActorOf(turn))
  {
  }

  /** What the threads do on the drivers they do in some interleaving of module Loopback. */
  lemma {:induction false} PlayIsInterleaving(cfg: Config, w: World, turns: seq<Turn>) returns (q: seq<Actor>)
    requires cfg.Valid() && InRange(cfg, w)
    ensures Play(cfg, w, turns).s == Exec(cfg, w.s, q)
    decreases |turns|
  {
    q := [];
    if |turns| > 0 {
      var n := |turns| - 1;
      q := PlayIsInterleaving(cfg, w, turns[..n]);
      var before := Play(cfg, w, turns[..n]);
      TurnIsStep(cfg, before, turns[n]);
      if Play(cfg, w, turns).s != before.s {
        assert (q + [ActorOf(turns[n])])[..|q|] == q;
        q := q + [ActorOf(turns[n])];
      }
    }
  }

  // ---------------------------------------------------------------- what every turn keeps

  /** The driver has reported success for every FINISH of the thread, in order, but for the one whose cookie is
      still to be queried. */
  predicate AllReported(d: Driver, ch: Chan) {
    var m := |d.chan.reports|;
    && m + (if d.call.Querying? then 1 else 0) == |ch.finished|
    && (forall i :: 0 <= i < m ==> d.chan.reports[i].status == D.NoError && d.chan.reports[i].buffer == ch.finished[i])
    && (d.call.Querying? ==> d.call.b == ch.finished[m])
  }

  /** One channel: the driver is in step with it, has reported only successes, and will report one more. */
  ghost predicate InStep(d: Driver, ch: Chan, moved: nat, n: nat) {
    && Implements(d.chan, ch, n)
    && d.chan.completed <= moved
    && AllReported(d, ch)
    && (d.call.Querying? ==> d.call.b < n && Finished(d.chan, d.call.b))
  }

  ghost predicate Together(cfg: Config, w: World) {
    InStep(w.tx, w.s.txChan, w.s.moved, cfg.txCount) && InStep(w.rx, w.s.rxChan, w.s.moved, cfg.rxCount)
  }

  lemma StartInStep(d: Driver, ch: Chan, b: nat, moved: nat, n: nat)
    requires InStep(d, ch, moved, n) && d.call == Outside && b < n && ch.Idle(b)
    ensures InStep(Driver(D.Start(d.chan, b, n), Outside), ch.Start(b), moved, n)
  {
    StartImplements(d.chan, ch, b, n);
  }

  lemma EnterFinishInStep(d: Driver, ch: Chan, b: nat, moved: nat, n: nat)
    requires InStep(d, ch, moved, n) && d.call == Outside && b < n && b in d.chan.submitted
    ensures var d' := EnterFinish(d, b, n);
            && (d'.call.Querying? <==> b in ch.ready)
            && InStep(d', if b in ch.ready then ch.Finish(b) else ch, moved, n)
  {
    var c := MarkBusy(d.chan, b, n);
    assert Implements(c, ch, n);
    WakeImplements(c, ch, b, n);
  }

  lemma QueryInStep(d: Driver, ch: Chan, moved: nat, n: nat)
    requires InStep(d, ch, moved, n) && d.call.Querying?
    ensures InStep(Query(d, n), ch, moved, n)
  {
    ConcludeImplements(d.chan, ch, d.call.b, n);
    var c' := D.Conclude(d.chan, d.call.b, true, false, n);
    assert c'.reports[..|d.chan.reports|] == d.chan.reports;
    assert c'.reports[|d.chan.reports|].status == c'.status[d.call.b];
  }

  lemma TransferEndsInStep(d: Driver, ch: Chan, moved: nat, n: nat)
    requires InStep(d, ch, moved, n)
    ensures InStep(TransferEnds(d, moved, n), ch, moved, n)
  {
    TransferDoneImplements(d.chan, ch, n);
  }

  lemma CallbackInStep(d: Driver, ch: Chan, moved: nat, n: nat)
    requires InStep(d, ch, moved, n) && d.chan.called < d.chan.completed
    ensures CallbackDue(ch, moved) && InStep(CallbackOf(d, n), ch.Complete(), moved, n)
  {
    CallbackImplements(d.chan, ch, n);
  }

  /** START only ever names an idle buffer, and FINISH one that was started. */
  lemma TxIoctlsNameTheirBuffers(cfg: Config, s: State)
    requires cfg.Valid() && Inv(cfg, s)
    ensures TxTouches(s) ==> s.txChan.Idle(s.tx.bufferId)
    ensures s.tx.pc == TxFinish ==> s.tx.bufferId in s.txChan.submitted
  {
    if TxTouches(s) {
      NextToStartIsIdle(s.txChan, cfg.txCount, cfg.increment);
    }
    if s.tx.pc == TxFinish {
      assert s.txChan.submitted[s.tx.counter] == s.tx.bufferId;
    }
  }

  lemma RxIoctlsNameTheirBuffers(cfg: Config, s: State)
    requires cfg.Valid() && Inv(cfg, s)
    ensures RxTouches(s) ==> s.rxChan.Idle(s.rx.bufferId)
    ensures s.rx.pc == RxFinish ==> s.rx.bufferId in s.rxChan.submitted
  {
    if RxTouches(s) {
      RxTouchesIdle(cfg, s);
    }
    if s.rx.pc == RxFinish {
      assert s.rxChan.submitted[s.rx.counter] == s.rx.bufferId;
    }
  }

  /** What a transmitter step does to its channel. */
  function TxChanAfter(s: State): Chan {
    match s.tx.pc
    case TxPrimeStart => s.txChan.Start(s.tx.bufferId)
    case TxStart => s.txChan.Start(s.tx.bufferId)
    case TxFinish => if s.tx.bufferId in s.txChan.ready then s.txChan.Finish(s.tx.bufferId) else s.txChan
    case _ => s.txChan
  }

  function RxChanAfter(s: State): Chan {
    match s.rx.pc
    case RxPrimeStart => s.rxChan.Start(s.rx.bufferId)
    case RxStart => s.rxChan.Start(s.rx.bufferId)
    case RxFinish => if s.rx.bufferId in s.rxChan.ready then s.rxChan.Finish(s.rx.bufferId) else s.rxChan
    case _ => s.rxChan
  }

  lemma TxStepOnChannels(cfg: Config, s: State)
    requires cfg.Valid()
    ensures var s' := Step(cfg, s, TxThread);
            s'.txChan == TxChanAfter(s) && s'.rxChan == s.rxChan && s'.moved == s.moved
  {
  }

  lemma RxStepOnChannels(cfg: Config, s: State)
    requires cfg.Valid()
    ensures var s' := Step(cfg, s, RxThread);
            s'.rxChan == RxChanAfter(s) && s'.txChan == s.txChan && s'.moved == s.moved
  {
  }

  lemma TxTurnTogether(cfg: Config, w: World)
    requires cfg.Valid() && InRange(cfg, w) && Inv(cfg, w.s) && Together(cfg, w)
    ensures Together(cfg, TxTurn(cfg, w))
  {
    TxStepOnChannels(cfg, w.s);
    TxIoctlsNameTheirBuffers(cfg, w.s);
    var b, ch, moved, n := w.s.tx.bufferId, w.s.txChan, w.s.moved, cfg.txCount;
    if w.tx.call.Querying? {
      QueryInStep(w.tx, ch, moved, n);
    } else if w.s.tx.pc in {TxPrimeStart, TxStart} {
      StartInStep(w.tx, ch, b, moved, n);
    } else if w.s.tx.pc == TxFinish {
      EnterFinishInStep(w.tx, ch, b, moved, n);
    }
  }

  lemma RxTurnTogether(cfg: Config, w: World)
    requires cfg.Valid() && InRange(cfg, w) && Inv(cfg, w.s) && Together(cfg, w)
    ensures Together(cfg, RxTurn(cfg, w))
  {
    RxStepOnChannels(cfg, w.s);
    RxIoctlsNameTheirBuffers(cfg, w.s);
    var b, ch, moved, n := w.s.rx.bufferId, w.s.rxChan, w.s.moved, cfg.rxCount;
    if w.rx.call.Querying? {
      QueryInStep(w.rx, ch, moved, n);
    } else if w.s.rx.pc in {RxPrimeStart, RxStart} {
      StartInStep(w.rx, ch, b, moved, n);
    } else if w.s.rx.pc == RxFinish {
      EnterFinishInStep(w.rx, ch, b, moved, n);
    }
  }

  lemma TransferTurnsTogether(cfg: Config, w: World, turn: Turn)
    requires cfg.Valid() && InRange(cfg, w) && Together(cfg, w) && turn in {TxTransferDone, RxTransferDone}
    ensures Together(cfg, TakeTurn(cfg, w, turn))
  {
    TransferEndsInStep(w.tx, w.s.txChan, w.s.moved, cfg.txCount);
    TransferEndsInStep(w.rx, w.s.rxChan, w.s.moved, cfg.rxCount);
  }

  lemma TxCallbackTogether(cfg: Config, w: World)
    requires cfg.Valid() && InRange(cfg, w) && Together(cfg, w)
    ensures Together(cfg, TakeTurn(cfg, w, TxCallbackRuns))
  {
    if w.tx.chan.called < w.tx.chan.completed {
      CallbackInStep(w.tx, w.s.txChan, w.s.moved, cfg.txCount);
    }
  }

  lemma RxCallbackTogether(cfg: Config, w: World)
    requires cfg.Valid() && InRange(cfg, w) && Together(cfg, w)
    ensures Together(cfg, TakeTurn(cfg, w, RxCallbackRuns))
  {
    if w.rx.chan.called < w.rx.chan.completed {
      CallbackInStep(w.rx, w.s.rxChan, w.s.moved, cfg.rxCount);
    }
  }

  lemma DataTurnTogether(cfg: Config, w: World)
    requires cfg.Valid() && InRange(cfg, w) && Together(cfg, w)
    ensures Together(cfg, TakeTurn(cfg, w, DataMoves))
  {
    var s' := Step(cfg, w.s, Engine);
    assert s'.txChan == w.s.txChan && s'.rxChan == w.s.rxChan && w.s.moved <= s'.moved;
  }

  lemma InterruptTogether(cfg: Config, w: World)
    requires cfg.Valid() && InRange(cfg, w) && Together(cfg, w)
    ensures Together(cfg, TakeTurn(cfg, w, Interrupt))
  {
    var s' := Step(cfg, w.s, Signal);
    assert s'.txChan == w.s.txChan && s'.rxChan == w.s.rxChan && s'.moved == w.s.moved;
  }

  lemma TurnTogether(cfg: Config, w: World, turn: Turn)
    requires cfg.Valid() && InRange(cfg, w) && Inv(cfg, w.s) && Together(cfg, w)
    ensures Together(cfg, TakeTurn(cfg, w, turn))
  {
    match turn
    case TxThreadRuns => TxTurnTogether(cfg, w);
    case RxThreadRuns => RxTurnTogether(cfg, w);
    case DataMoves => DataTurnTogether(cfg, w);
    case TxTransferDone => TransferTurnsTogether(cfg, w, turn);
    case RxTransferDone => TransferTurnsTogether(cfg, w, turn);
    case TxCallbackRuns => TxCallbackTogether(cfg, w);
    case RxCallbackRuns => RxCallbackTogether(cfg, w);
    case Interrupt => InterruptTogether(cfg, w);
  }

  lemma FittingBefore(cfg: Config, w: World, turn: Turn)
    requires cfg.Valid() && InRange(cfg, w) && StopWasFitting(cfg, TakeTurn(cfg, w, turn).s)
    ensures StopWasFitting(cfg, w.s)
  {
    TurnIsStep(cfg, w, turn);
    StepKeepsHistory(cfg, w.s, ActorOf(turn));
  }

  /** Whatever the turns of threads, hardware, engines and callbacks, with a fitting stop or none, and as long
      as no FINISH times out or meets a DMA error: the drivers stay in step with the threads' channels, and
      they have reported PROXY_NO_ERROR for every FINISH that has queried its cookie, and nothing else. */
  lemma {:induction false} DriversReportOnlySuccess(cfg: Config, w0: World, turns: seq<Turn>)
    requires cfg.Valid() && Started(cfg, w0)
    requires StopWasFitting(cfg, Play(cfg, w0, turns).s)
    ensures var w := Play(cfg, w0, turns);
            && Inv(cfg, w.s) && Together(cfg, w)
            && AllReported(w.tx, w.s.txChan) && AllReported(w.rx, w.s.rxChan)
    decreases |turns|
  {
    if |turns| == 0 {
      InitInv(cfg, w0.s);
      NewImplements(w0.tx.chan, cfg.txCount);
      NewImplements(w0.rx.chan, cfg.rxCount);
    } else {
      var n := |turns| - 1;
      var w := Play(cfg, w0, turns[..n]);
      FittingBefore(cfg, w, turns[n]);
      DriversReportOnlySuccess(cfg, w0, turns[..n]);
      TurnTogether(cfg, w, turns[n]);
      var q := PlayIsInterleaving(cfg, w0, turns);
      ReachableInv(cfg, w0.s, q);
    }
  }

  // ---------------------------------------------------------------- the end of a run

  /** No turn but the signal changes anything. */
  ghost predicate Quiet(cfg: Config, w: World)
    requires cfg.Valid() && InRange(cfg, w)
  {
    forall turn :: turn != Interrupt ==> TakeTurn(cfg, w, turn) == w
  }

  lemma TxTurnMoves(cfg: Config, w: World)
    requires cfg.Valid() && InRange(cfg, w) && Inv(cfg, w.s) && Together(cfg, w) && TxEnabled(w.s)
    ensures TakeTurn(cfg, w, TxThreadRuns) != w
  {
    TxIoctlsNameTheirBuffers(cfg, w.s);
    StepsDecrease(cfg, w.s, TxThread);
    assert Step(cfg, w.s, TxThread) != w.s;
  }

  lemma RxTurnMoves(cfg: Config, w: World)
    requires cfg.Valid() && InRange(cfg, w) && Inv(cfg, w.s) && Together(cfg, w) && RxEnabled(w.s)
    ensures TakeTurn(cfg, w, RxThreadRuns) != w
  {
    RxIoctlsNameTheirBuffers(cfg, w.s);
    StepsDecrease(cfg, w.s, RxThread);
    assert Step(cfg, w.s, RxThread) != w.s;
  }

  /** A completion still to be signalled is one the engine has yet to learn of, or owes the callback for. */
  lemma CallbackMoves(d: Driver, ch: Chan, moved: nat, n: nat)
    requires DriverInRange(d, n) && InStep(d, ch, moved, n) && CallbackDue(ch, moved) && moved <= |ch.submitted|
    ensures TransferEnds(d, moved, n) != d || (d.chan.called < d.chan.completed && CallbackOf(d, n) != d)
  {
    if d.chan.completed < moved {
      assert TransferEnds(d, moved, n).chan.completed != d.chan.completed;
    } else {
      assert CallbackOf(d, n).chan.called != d.chan.called;
    }
  }

  lemma TxCallbackMoves(cfg: Config, w: World)
    requires cfg.Valid() && InRange(cfg, w) && Flow(w.s) && Together(cfg, w) && CallbackDue(w.s.txChan, w.s.moved)
    ensures TakeTurn(cfg, w, TxTransferDone) != w || TakeTurn(cfg, w, TxCallbackRuns) != w
  {
    CallbackMoves(w.tx, w.s.txChan, w.s.moved, cfg.txCount);
  }

  lemma RxCallbackMoves(cfg: Config, w: World)
    requires cfg.Valid() && InRange(cfg, w) && Flow(w.s) && Together(cfg, w) && CallbackDue(w.s.rxChan, w.s.moved)
    ensures TakeTurn(cfg, w, RxTransferDone) != w || TakeTurn(cfg, w, RxCallbackRuns) != w
  {
    CallbackMoves(w.rx, w.s.rxChan, w.s.moved, cfg.rxCount);
  }

  lemma DataTurnMoves(cfg: Config, w: World)
    requires cfg.Valid() && InRange(cfg, w) && EngineEnabled(w.s)
    ensures TakeTurn(cfg, w, DataMoves) != w
  {
    assert TakeTurn(cfg, w, DataMoves).s.moved != w.s.moved;
  }

  lemma EnabledMoves(cfg: Config, w: World, a: Actor)
    requires cfg.Valid() && InRange(cfg, w) && Inv(cfg, w.s) && Together(cfg, w) && a != Signal && Enabled(w.s, a)
    ensures !Quiet(cfg, w)
  {
    match a
    case TxThread => TxTurnMoves(cfg, w);
    case RxThread => RxTurnMoves(cfg, w);
    case Engine => DataTurnMoves(cfg, w);
    case TxCallback => TxCallbackMoves(cfg, w);
    case RxCallback => RxCallbackMoves(cfg, w);
  }

  lemma QuietIsStuck(cfg: Config, w: World)
    requires cfg.Valid() && InRange(cfg, w) && Inv(cfg, w.s) && Together(cfg, w) && Quiet(cfg, w)
    ensures Stuck(w.s)
  {
    if !Stuck(w.s) {
      var a :| a != Signal && Enabled(w.s, a);
      EnabledMoves(cfg, w, a);
    }
  }

  /** When the whole system has come to rest, both threads have returned after max(1, total) transfers. */
  lemma QuietIsDrained(cfg: Config, w0: World, turns: seq<Turn>)
    requires cfg.Valid() && Started(cfg, w0)
    requires StopWasFitting(cfg, Play(cfg, w0, turns).s) && Quiet(cfg, Play(cfg, w0, turns))
    ensures var w := Play(cfg, w0, turns); Drained(w.s, Max1(w.s.numTransfers))
  {
    DriversReportOnlySuccess(cfg, w0, turns);
    QuietIsStuck(cfg, Play(cfg, w0, turns));
    StuckIsDrained(cfg, Play(cfg, w0, turns).s);
  }

  // ---------------------------------------------------------------- every run ends

  /** What one driver can still do by itself: learn of the end of a transfer, finish a cookie query, and mark the
      buffer its thread waits for as busy. */
  function DriverWork(d: Driver, waits: bool, b: nat): nat {
    Left(d.chan.completed, |d.chan.submitted|)
    + (if d.call.Querying? then 2 else 0)
    + (if waits && b < |d.chan.status| && d.chan.status[b] != D.Busy then 1 else 0)
  }

  function TxDriverWork(w: World): nat {
    DriverWork(w.tx, w.s.tx.pc == TxFinish, w.s.tx.bufferId)
  }

  function RxDriverWork(w: World): nat {
    DriverWork(w.rx, w.s.rx.pc == RxFinish, w.s.rx.bufferId)
  }

  /** There is less left to do: fewer changes of the total to come, or less work, or less for the drivers. */
  predicate Lower(cfg: Config, w: World, w': World)
    requires cfg.Valid()
  {
    || Pending(w'.s) < Pending(w.s)
    || (Pending(w'.s) == Pending(w.s) && Work(cfg, w'.s) < Work(cfg, w.s))
    || (Pending(w'.s) == Pending(w.s) && Work(cfg, w'.s) == Work(cfg, w.s)
        && TxDriverWork(w') + RxDriverWork(w') < TxDriverWork(w) + RxDriverWork(w))
  }

  lemma StepLowers(cfg: Config, w: World, turn: Turn)
    requires cfg.Valid() && InRange(cfg, w) && TakeTurn(cfg, w, turn).s != w.s
    ensures Lower(cfg, w, TakeTurn(cfg, w, turn))
  {
    TurnIsStep(cfg, w, turn);
    StepsDecrease(cfg, w.s, ActorOf(turn));
  }

  lemma QueryLowers(d: Driver, n: nat, waits: bool, b: nat)
    requires DriverInRange(d, n) && d.call.Querying?
    ensures DriverWork(Query(d, n), waits, b) < DriverWork(d, waits, b)
  {
  }

  lemma MarkLowers(d: Driver, b: nat, n: nat)
    requires DriverInRange(d, n) && d.call == Outside && b < n
    requires d.chan.bd[b].done == 0 && EnterFinish(d, b, n) != d
    ensures DriverWork(EnterFinish(d, b, n), true, b) < DriverWork(d, true, b)
  {
    assert d.chan.status[b := d.chan.status[b]] == d.chan.status;
  }

  lemma TxElsewhereSteps(cfg: Config, w: World)
    requires cfg.Valid() && InRange(cfg, w) && !w.tx.call.Querying? && w.s.tx.pc != TxFinish
    ensures TxTurn(cfg, w).s == w.s ==> TxTurn(cfg, w) == w
  {
    EnabledChanges(cfg, w.s, TxThread);
  }

  /** A turn of the transmitter that leaves the threads as they are has queried a cookie, or marked a buffer. */
  lemma TxWaitLowers(cfg: Config, w: World)
    requires cfg.Valid() && InRange(cfg, w) && Inv(cfg, w.s) && Together(cfg, w)
    requires TxTurn(cfg, w) != w && TxTurn(cfg, w).s == w.s
    ensures TxTurn(cfg, w).rx == w.rx && TxDriverWork(TxTurn(cfg, w)) < TxDriverWork(w)
  {
    if w.tx.call.Querying? {
      QueryLowers(w.tx, cfg.txCount, w.s.tx.pc == TxFinish, w.s.tx.bufferId);
    } else {
      if w.s.tx.pc != TxFinish {
        TxElsewhereSteps(cfg, w);
        assert false;
      }
      TxIoctlsNameTheirBuffers(cfg, w.s);
      EnabledChanges(cfg, w.s, TxThread);
      WakeImplements(w.tx.chan, w.s.txChan, w.s.tx.bufferId, cfg.txCount);
      MarkLowers(w.tx, w.s.tx.bufferId, cfg.txCount);
    }
  }

  lemma RxElsewhereSteps(cfg: Config, w: World)
    requires cfg.Valid() && InRange(cfg, w) && !w.rx.call.Querying? && w.s.rx.pc != RxFinish
    ensures RxTurn(cfg, w).s == w.s ==> RxTurn(cfg, w) == w
  {
    EnabledChanges(cfg, w.s, RxThread);
  }

  lemma RxWaitLowers(cfg: Config, w: World)
    requires cfg.Valid() && InRange(cfg, w) && Inv(cfg, w.s) && Together(cfg, w)
    requires RxTurn(cfg, w) != w && RxTurn(cfg, w).s == w.s
    ensures RxTurn(cfg, w).tx == w.tx && RxDriverWork(RxTurn(cfg, w)) < RxDriverWork(w)
  {
    if w.rx.call.Querying? {
      QueryLowers(w.rx, cfg.rxCount, w.s.rx.pc == RxFinish, w.s.rx.bufferId);
    } else {
      if w.s.rx.pc != RxFinish {
        RxElsewhereSteps(cfg, w);
        assert false;
      }
      RxIoctlsNameTheirBuffers(cfg, w.s);
      EnabledChanges(cfg, w.s, RxThread);
      WakeImplements(w.rx.chan, w.s.rxChan, w.s.rx.bufferId, cfg.rxCount);
      MarkLowers(w.rx, w.s.rx.bufferId, cfg.rxCount);
    }
  }

  lemma EnabledChanges(cfg: Config, s: State, a: Actor)
    requires cfg.Valid()
    ensures Enabled(s, a) ==> Step(cfg, s, a) != s
  {
    if Enabled(s, a) {
      StepsDecrease(cfg, s, a);
    }
  }

  lemma TransferEndsLowers(d: Driver, moved: nat, n: nat, waits: bool, b: nat)
    requires DriverInRange(d, n) && TransferEnds(d, moved, n) != d
    ensures DriverWork(TransferEnds(d, moved, n), waits, b) < DriverWork(d, waits, b)
  {
  }

  lemma TxCallbackStepsThreads(cfg: Config, w: World)
    requires cfg.Valid() && InRange(cfg, w) && Together(cfg, w) && TakeTurn(cfg, w, TxCallbackRuns) != w
    ensures TakeTurn(cfg, w, TxCallbackRuns).s != w.s
  {
    CallbackInStep(w.tx, w.s.txChan, w.s.moved, cfg.txCount);
    EnabledChanges(cfg, w.s, TxCallback);
  }

  lemma RxCallbackStepsThreads(cfg: Config, w: World)
    requires cfg.Valid() && InRange(cfg, w) && Together(cfg, w) && TakeTurn(cfg, w, RxCallbackRuns) != w
    ensures TakeTurn(cfg, w, RxCallbackRuns).s != w.s
  {
    CallbackInStep(w.rx, w.s.rxChan, w.s.moved, cfg.rxCount);
    EnabledChanges(cfg, w.s, RxCallback);
  }

  /** No run of threads and drivers goes on for ever: every turn that changes the world at all leaves less to
      do. */
  lemma TurnsDecrease(cfg: Config, w: World, turn: Turn)
    requires cfg.Valid() && InRange(cfg, w) && Inv(cfg, w.s) && Together(cfg, w) && TakeTurn(cfg, w, turn) != w
    ensures Lower(cfg, w, TakeTurn(cfg, w, turn))
  {
    if TakeTurn(cfg, w, turn).s != w.s {
      StepLowers(cfg, w, turn);
    } else {
      match turn
      case TxThreadRuns => TxWaitLowers(cfg, w);
      case RxThreadRuns => RxWaitLowers(cfg, w);
      case TxTransferDone =>
        TransferEndsLowers(w.tx, w.s.moved, cfg.txCount, w.s.tx.pc == TxFinish, w.s.tx.bufferId);
      case RxTransferDone =>
        TransferEndsLowers(w.rx, w.s.moved, cfg.rxCount, w.s.rx.pc == RxFinish, w.s.rx.bufferId);
      case TxCallbackRuns => TxCallbackStepsThreads(cfg, w);
      case RxCallbackRuns => RxCallbackStepsThreads(cfg, w);
      case _ =>
    }
  }

  lemma PlayLast(cfg: Config, w: World, turns: seq<Turn>, turn: Turn)
    requires cfg.Valid() && InRange(cfg, w)
    ensures Play(cfg, w, turns + [turn]) == TakeTurn(cfg, Play(cfg, w, turns), turn)
  {
    assert (turns + [turn])[..|turns|] == turns;
  }

  lemma {:induction false} PlayFrom(cfg: Config, w: World, turn: Turn, rest: seq<Turn>)
    requires cfg.Valid() && InRange(cfg, w)
    ensures Play(cfg, w, [turn] + rest) == Play(cfg, TakeTurn(cfg, w, turn), rest)
    decreases |rest|
  {
    if |rest| == 0 {
      PlayLast(cfg, w, [], turn);
      assert [turn] + rest == [] + [turn];
    } else {
      var front, last := rest[..|rest| - 1], rest[|rest| - 1];
      PlayFrom(cfg, w, turn, front);
      PlayLast(cfg, w, [turn] + front, last);
      PlayLast(cfg, TakeTurn(cfg, w, turn), front, last);
      assert rest == front + [last] && [turn] + rest == ([turn] + front) + [last];
    }
  }

  /** Neither requested nor handled. */
  predicate NoStop(w: World) {
    !w.s.stop && !w.s.tx.stopInProgress
  }

  lemma TurnKeepsNoStop(cfg: Config, w: World, turn: Turn)
    requires cfg.Valid() && InRange(cfg, w) && Inv(cfg, w.s) && NoStop(w) && turn != Interrupt
    ensures NoStop(TakeTurn(cfg, w, turn)) && Inv(cfg, TakeTurn(cfg, w, turn).s)
  {
    TurnIsStep(cfg, w, turn);
    if TakeTurn(cfg, w, turn).s != w.s {
      TurnIsNoSignal(cfg, w, turn);
      var a := ActorOf(turn);
      StepKeeps(cfg, w.s, a);
      assert [a][..0] == [] && Exec(cfg, w.s, [a]) == Step(cfg, w.s, a);
      NoSignalNoStop(cfg, w.s, [a]);
    }
  }

  lemma TurnIsNoSignal(cfg: Config, w: World, turn: Turn)
    requires cfg.Valid() && InRange(cfg, w) && turn != Interrupt && TakeTurn(cfg, w, turn).s != w.s
    ensures ActorOf(turn) != Signal
  {
  }

  ghost predicate Calm(cfg: Config, w: World)
    requires cfg.Valid()
  {
    InRange(cfg, w) && Inv(cfg, w.s) && Together(cfg, w) && NoStop(w)
  }

  lemma CalmTurn(cfg: Config, w: World, turn: Turn)
    requires cfg.Valid() && Calm(cfg, w) && turn != Interrupt && TakeTurn(cfg, w, turn) != w
    ensures Calm(cfg, TakeTurn(cfg, w, turn)) && Lower(cfg, w, TakeTurn(cfg, w, turn))
  {
    TurnsDecrease(cfg, w, turn);
    TurnTogether(cfg, w, turn);
    TurnKeepsNoStop(cfg, w, turn);
  }

  lemma SomeTurn(cfg: Config, w: World) returns (turn: Turn)
    requires cfg.Valid() && InRange(cfg, w) && !Quiet(cfg, w)
    ensures turn != Interrupt && TakeTurn(cfg, w, turn) != w
  {
    turn :| turn != Interrupt && TakeTurn(cfg, w, turn) != w;
  }

  /** These turns, none of them the signal, lead to where nothing changes any more. */
  ghost predicate LeadsToQuiet(cfg: Config, w: World, turns: seq<Turn>)
    requires cfg.Valid() && InRange(cfg, w)
  {
    Interrupt !in turns && Quiet(cfg, Play(cfg, w, turns)) && NoStop(Play(cfg, w, turns))
  }

  lemma QuietFrom(cfg: Config, w: World, turn: Turn, rest: seq<Turn>)
    requires cfg.Valid() && InRange(cfg, w) && turn != Interrupt && LeadsToQuiet(cfg, TakeTurn(cfg, w, turn), rest)
    ensures LeadsToQuiet(cfg, w, [turn] + rest)
  {
    PlayFrom(cfg, w, turn, rest);
  }

  /** Without a signal, however the turns went so far, some go on to where nothing changes any more. */
  lemma {:induction false} ReachQuiet(cfg: Config, w: World) returns (turns: seq<Turn>)
    requires cfg.Valid() && Calm(cfg, w)
    ensures LeadsToQuiet(cfg, w, turns)
    decreases Pending(w.s), Work(cfg, w.s), TxDriverWork(w) + RxDriverWork(w)
  {
    if Quiet(cfg, w) {
      turns := [];
      assert Play(cfg, w, []) == w;
    } else {
      var turn := SomeTurn(cfg, w);
      CalmTurn(cfg, w, turn);
      var rest := ReachQuiet(cfg, TakeTurn(cfg, w, turn));
      turns := [turn] + rest;
      QuietFrom(cfg, w, turn, rest);
    }
  }

  /** So the test can always run to its end on the drivers: after exactly max(1, requested) transfers. */
  lemma DriverRunEnds(cfg: Config, w0: World) returns (turns: seq<Turn>)
    requires cfg.Valid() && Started(cfg, w0)
    ensures Interrupt !in turns && Quiet(cfg, Play(cfg, w0, turns))
    ensures Drained(Play(cfg, w0, turns).s, Max1(cfg.requested))
  {
    InitInv(cfg, w0.s);
    DriversReportOnlySuccess(cfg, w0, []);
    turns := ReachQuiet(cfg, w0);
    DriversReportOnlySuccess(cfg, w0, turns);
    QuietIsDrained(cfg, w0, turns);
  }
}
