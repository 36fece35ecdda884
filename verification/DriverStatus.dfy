/** What the status tests of tx_thread and rx_thread see: the status word of the buffer just finished. */
module DriverStatus {
  import D = DmaProxy
  import opened Channel
  import opened Loopback
  import opened LoopbackSafety
  import opened LoopbackTheorems
  import opened DriverRefinement
  import opened DriverRun

  /** The thread is past its FINISH of buffer `b`: once the cookie is queried, the status word says success. */
  predicate Seen(d: Driver, past: bool, b: nat) {
    && (d.call.Querying? ==> past && d.call.b == b)
    && (past && d.call == Outside ==> b < |d.chan.status| && d.chan.status[b] == D.NoError)
  }

  predicate TxPastFinish(t: Tx) {
    t.pc in {TxStopCheck, TxDone}
  }

  predicate RxPastFinish(r: Rx) {
    r.pc == RxVerify
  }

  predicate BothSeen(w: World) {
    && Seen(w.tx, TxPastFinish(w.s.tx), w.s.tx.bufferId)
    && Seen(w.rx, RxPastFinish(w.s.rx), w.s.rx.bufferId)
  }

  lemma QuerySeen(d: Driver, ch: Chan, moved: nat, n: nat, past: bool, b: nat)
    requires InStep(d, ch, moved, n) && d.call.Querying? && Seen(d, past, b)
    ensures Seen(Query(d, n), past, b)
  {
    ConcludeImplements(d.chan, ch, d.call.b, n);
  }

  lemma TxFinishSeen(cfg: Config, w: World)
    requires cfg.Valid() && InRange(cfg, w) && Inv(cfg, w.s) && Together(cfg, w) && BothSeen(w)
    requires w.tx.call == Outside && w.s.tx.pc == TxFinish
    ensures BothSeen(TxTurn(cfg, w))
  {
    TxIoctlsNameTheirBuffers(cfg, w.s);
    var b := w.s.tx.bufferId;
    EnterFinishInStep(w.tx, w.s.txChan, b, w.s.moved, cfg.txCount);
    var d' := EnterFinish(w.tx, b, cfg.txCount);
    if d'.call.Querying? {
      TxFrame(cfg, w.s);
      assert TxTurn(cfg, w) == w.(s := TxStep(cfg, w.s), tx := d');
    } else {
      assert TxTurn(cfg, w) == w.(tx := d');
    }
  }

  lemma TxTurnSeen(cfg: Config, w: World)
    requires cfg.Valid() && InRange(cfg, w) && Inv(cfg, w.s) && Together(cfg, w) && BothSeen(w)
    ensures BothSeen(TxTurn(cfg, w))
  {
    if w.tx.call.Querying? {
      QuerySeen(w.tx, w.s.txChan, w.s.moved, cfg.txCount, TxPastFinish(w.s.tx), w.s.tx.bufferId);
    } else if w.s.tx.pc == TxFinish {
      TxFinishSeen(cfg, w);
    } else {
      TxElsewhere(cfg, w);
    }
  }

  lemma TxElsewhere(cfg: Config, w: World)
    requires cfg.Valid() && InRange(cfg, w) && BothSeen(w) && w.tx.call == Outside && w.s.tx.pc != TxFinish
    ensures BothSeen(TxTurn(cfg, w))
  {
  }

  lemma RxFinishSeen(cfg: Config, w: World)
    requires cfg.Valid() && InRange(cfg, w) && Inv(cfg, w.s) && Together(cfg, w) && BothSeen(w)
    requires w.rx.call == Outside && w.s.rx.pc == RxFinish
    ensures BothSeen(RxTurn(cfg, w))
  {
    RxIoctlsNameTheirBuffers(cfg, w.s);
    var b := w.s.rx.bufferId;
    EnterFinishInStep(w.rx, w.s.rxChan, b, w.s.moved, cfg.rxCount);
    var d' := EnterFinish(w.rx, b, cfg.rxCount);
    if d'.call.Querying? {
      RxFrame(cfg, w.s);
      assert RxTurn(cfg, w) == w.(s := RxStep(cfg, w.s), rx := d');
    } else {
      assert RxTurn(cfg, w) == w.(rx := d');
    }
  }

  lemma RxTurnSeen(cfg: Config, w: World)
    requires cfg.Valid() && InRange(cfg, w) && Inv(cfg, w.s) && Together(cfg, w) && BothSeen(w)
    ensures BothSeen(RxTurn(cfg, w))
  {
    if w.rx.call.Querying? {
      QuerySeen(w.rx, w.s.rxChan, w.s.moved, cfg.rxCount, RxPastFinish(w.s.rx), w.s.rx.bufferId);
    } else if w.s.rx.pc == RxFinish {
      RxFinishSeen(cfg, w);
    } else {
      RxElsewhere(cfg, w);
    }
  }

  lemma RxElsewhere(cfg: Config, w: World)
    requires cfg.Valid() && InRange(cfg, w) && BothSeen(w) && w.rx.call == Outside && w.s.rx.pc != RxFinish
    ensures BothSeen(RxTurn(cfg, w))
  {
  }

  lemma OtherTurnSeen(cfg: Config, w: World, turn: Turn)
    requires cfg.Valid() && InRange(cfg, w) && BothSeen(w) && turn !in {TxThreadRuns, RxThreadRuns}
    ensures BothSeen(TakeTurn(cfg, w, turn))
  {
  }

  lemma TurnSeen(cfg: Config, w: World, turn: Turn)
    requires cfg.Valid() && InRange(cfg, w) && Inv(cfg, w.s) && Together(cfg, w) && BothSeen(w)
    ensures BothSeen(TakeTurn(cfg, w, turn))
  {
    match turn
    case TxThreadRuns => TxTurnSeen(cfg, w);
    case RxThreadRuns => RxTurnSeen(cfg, w);
    case _ => OtherTurnSeen(cfg, w, turn);
  }

  /** In every run without a timeout or a DMA error, with a fitting stop or none: when a thread has returned from
      FINISH, the status word it looks at says PROXY_NO_ERROR. So the error branches of both threads are never
      taken. */
  lemma {:induction false} StatusTestsPass(cfg: Config, w0: World, turns: seq<Turn>)
    requires cfg.Valid() && Started(cfg, w0)
    requires StopWasFitting(cfg, Play(cfg, w0, turns).s)
    ensures var w := Play(cfg, w0, turns);
            && BothSeen(w)
            && (TxPastFinish(w.s.tx) && w.tx.call == Outside ==> w.tx.chan.status[w.s.tx.bufferId] == D.NoError)
            && (RxPastFinish(w.s.rx) && w.rx.call == Outside ==> w.rx.chan.status[w.s.rx.bufferId] == D.NoError)
    decreases |turns|
  {
    if |turns| > 0 {
      var n := |turns| - 1;
      var w := Play(cfg, w0, turns[..n]);
      FittingBefore(cfg, w, turns[n]);
      StatusTestsPass(cfg, w0, turns[..n]);
      DriversReportOnlySuccess(cfg, w0, turns[..n]);
      TurnSeen(cfg, w, turns[n]);
    }
  }

  /** And a thread that waits in FINISH leaves the word busy meanwhile. */
  lemma TxWaitShowsBusy(cfg: Config, w: World)
    requires cfg.Valid() && InRange(cfg, w) && Inv(cfg, w.s) && Together(cfg, w)
    requires w.s.tx.pc == TxFinish && w.tx.call == Outside && !TxEnabled(w.s)
    ensures TxTurn(cfg, w).s == w.s && TxTurn(cfg, w).tx.chan.status[w.s.tx.bufferId] == D.Busy
  {
    TxIoctlsNameTheirBuffers(cfg, w.s);
    EnterFinishInStep(w.tx, w.s.txChan, w.s.tx.bufferId, w.s.moved, cfg.txCount);
  }

  lemma RxWaitShowsBusy(cfg: Config, w: World)
    requires cfg.Valid() && InRange(cfg, w) && Inv(cfg, w.s) && Together(cfg, w)
    requires w.s.rx.pc == RxFinish && w.rx.call == Outside && !RxEnabled(w.s)
    ensures RxTurn(cfg, w).s == w.s && RxTurn(cfg, w).rx.chan.status[w.s.rx.bufferId] == D.Busy
  {
    RxIoctlsNameTheirBuffers(cfg, w.s);
    EnterFinishInStep(w.rx, w.s.rxChan, w.s.rx.bufferId, w.s.moved, cfg.rxCount);
  }
}
