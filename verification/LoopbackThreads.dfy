/** tx_thread and rx_thread of dma-proxy-test.c with their own loops and locals. Between two accesses to what
    the threads share, everybody else may take any steps; each function is proved to perform, whatever they
    are, some interleaving of module Loopback. */
module LoopbackThreads {
  import opened Schedule
  import opened Channel
  import opened Loopback
  import opened LoopbackSafety
  import opened LoopbackProgress
  import opened LoopbackTheorems
  import opened LoopbackPattern

  /** An interleaving leads from one state to the other in which the others take exactly the steps `taken`. */
  ghost predicate Leads(cfg: Config, s: State, s': State, self: Actor, taken: seq<Actor>)
    requires cfg.Valid()
  {
    exists q :: Without(q, self) == taken && s' == Exec(cfg, s, q)
  }

  lemma LeadsNowhere(cfg: Config, s: State, self: Actor)
    requires cfg.Valid()
    ensures Leads(cfg, s, s, self, [])
  {
    assert Without([], self) == [] && Exec(cfg, s, []) == s;
  }

  lemma LeadsByBatch(cfg: Config, s: State, s1: State, batch: seq<Actor>, self: Actor, taken: seq<Actor>)
    requires cfg.Valid() && Leads(cfg, s, s1, self, taken) && self !in batch
    ensures Leads(cfg, s, Exec(cfg, s1, batch), self, taken + batch)
  {
    var q :| Without(q, self) == taken && s1 == Exec(cfg, s, q);
    ExecAppend(cfg, s, q, batch);
    WithoutAppend(q, batch, self);
    WithoutAbsent(batch, self);
  }

  lemma LeadsByStep(cfg: Config, s: State, s1: State, self: Actor, taken: seq<Actor>)
    requires cfg.Valid() && Leads(cfg, s, s1, self, taken)
    ensures Leads(cfg, s, Step(cfg, s1, self), self, taken)
  {
    var q :| Without(q, self) == taken && s1 == Exec(cfg, s, q);
    ExecOne(cfg, s1, self);
    ExecAppend(cfg, s, q, [self]);
    WithoutOne(q, self);
  }

  /** There is less left to do. */
  ghost predicate Below(cfg: Config, s: State, s': State)
    requires cfg.Valid()
  {
    Pending(s') < Pending(s) || (Pending(s') == Pending(s) && Work(cfg, s') < Work(cfg, s))
  }

  ghost predicate NotAbove(cfg: Config, s: State, s': State)
    requires cfg.Valid()
  {
    Pending(s') < Pending(s) || (Pending(s') == Pending(s) && Work(cfg, s') <= Work(cfg, s))
  }

  lemma {:induction false} ExecNotAbove(cfg: Config, s: State, q: seq<Actor>)
    requires cfg.Valid()
    ensures NotAbove(cfg, s, Exec(cfg, s, q))
  {
    if |q| > 0 {
      var a, before := q[|q| - 1], Exec(cfg, s, q[..|q| - 1]);
      ExecNotAbove(cfg, s, q[..|q| - 1]);
      if Enabled(before, a) {
        StepsDecrease(cfg, before, a);
      }
    }
  }

  lemma StepNotAbove(cfg: Config, s: State, a: Actor)
    requires cfg.Valid()
    ensures NotAbove(cfg, s, Step(cfg, s, a))
  {
    if Enabled(s, a) {
      StepsDecrease(cfg, s, a);
    }
  }

  // ---------------------------------------------------------------- steps of the others

  predicate Shaped(cfg: Config, s: State) {
    MemShape(s.txMem, cfg.txCount, cfg.capacity) && MemShape(s.rxMem, cfg.rxCount, cfg.capacity)
  }

  lemma StepKeepsShape(cfg: Config, s: State, a: Actor)
    requires cfg.Valid() && Shaped(cfg, s)
    ensures Shaped(cfg, Step(cfg, s, a))
  {
  }

  lemma {:induction false} BatchKeeps(cfg: Config, s: State, batch: seq<Actor>)
    requires cfg.Valid() && Shaped(cfg, s)
    ensures var s' := Exec(cfg, s, batch);
            && Shaped(cfg, s')
            && (TxThread !in batch ==> s'.tx == s.tx && s'.numTransfers == s.numTransfers)
            && (RxThread !in batch ==> s'.rx == s.rx)
  {
    if |batch| > 0 {
      var n := |batch| - 1;
      BatchKeeps(cfg, s, batch[..n]);
      StepKeepsShape(cfg, Exec(cfg, s, batch[..n]), batch[n]);
      if batch[n] == TxThread && TxEnabled(Exec(cfg, s, batch[..n])) {
        TxFrame(cfg, Exec(cfg, s, batch[..n]));
      }
    }
  }

  // ---------------------------------------------------------------- the program

  /** The shared globals and the two mapped channels. Where a thread runs its function, the other thread is
      known by its place, `peerTx` or `peerRx`; `batches` is what everybody else is yet to do, one batch for each
      moment between two accesses, and `taken` what they have done. */
  class LoopbackTest {
    const cfg: Config

    var numTransfers: int
    var stop: bool
    var moved: nat
    var txChan: Chan
    var rxChan: Chan
    var txMem: seq<seq<int>>
    var rxMem: seq<seq<int>>

    var peerTx: Tx
    var peerRx: Rx
    var batches: seq<seq<Actor>>
    ghost var taken: seq<Actor>

    /** The whole system when the threads are at `t` and `r`. */
    function View(t: Tx, r: Rx): State
      reads this
    {
      State(t, r, numTransfers, stop, moved, txChan, rxChan, txMem, rxMem)
    }

    predicate Valid(self: Actor)
      reads this
    {
      && cfg.Valid()
      && MemShape(txMem, cfg.txCount, cfg.capacity) && MemShape(rxMem, cfg.rxCount, cfg.capacity)
      && forall i :: 0 <= i < |batches| ==> self !in batches[i]
    }

    /** All that the others do: nothing of it is ever skipped. */
    ghost function Others(): seq<Actor>
      reads this
    {
      taken + Flat(batches)
    }

    constructor (cfg: Config, txInitial: seq<seq<int>>, rxInitial: seq<seq<int>>, others: seq<seq<Actor>>)
      ensures this.cfg == cfg && batches == others && taken == []
      ensures txMem == txInitial && rxMem == rxInitial
      ensures peerTx == TX_START && peerRx == RX_START
      ensures numTransfers == cfg.requested && !stop && moved == 0 && txChan == rxChan == NEW_CHAN
    {
      this.cfg := cfg;
      numTransfers, stop, moved := cfg.requested, false, 0;
      txChan, rxChan := NEW_CHAN, NEW_CHAN;
      txMem, rxMem := txInitial, rxInitial;
      peerTx, peerRx := TX_START, RX_START;
      batches, taken := others, [];
    }

    method Become(s: State)
      modifies this
      ensures View(s.tx, s.rx) == s && peerTx == s.tx && peerRx == s.rx
      ensures batches == old(batches) && taken == old(taken)
    {
      numTransfers, stop, moved := s.numTransfers, s.stop, s.moved;
      txChan, rxChan, txMem, rxMem := s.txChan, s.rxChan, s.txMem, s.rxMem;
      peerTx, peerRx := s.tx, s.rx;
    }

    /** The others take the steps of the next batch while the transmitter is at `t`. */
    method TxPause(ghost s0: State, t: Tx)
      requires Valid(Actor.TxThread) && Leads(cfg, s0, View(t, peerRx), Actor.TxThread, taken)
      modifies this
      ensures Valid(Actor.TxThread) && Leads(cfg, s0, View(t, peerRx), Actor.TxThread, taken)
      ensures numTransfers == old(numTransfers) && Others() == old(Others())
      ensures batches == if |old(batches)| == 0 then [] else old(batches)[1..]
    {
      if 0 < |batches| {
        var s := View(t, peerRx);
        BatchKeeps(cfg, s, batches[0]);
        LeadsByBatch(cfg, s0, s, batches[0], Actor.TxThread, taken);
        Become(Exec(cfg, s, batches[0]));
        TakeFirst(taken, batches);
        taken, batches := taken + batches[0], batches[1..];
      }
    }

    /** The others take the steps of the next batch while the receiver is at `r`. */
    method RxPause(ghost s0: State, r: Rx)
      requires Valid(Actor.RxThread) && Leads(cfg, s0, View(peerTx, r), Actor.RxThread, taken)
      modifies this
      ensures Valid(Actor.RxThread) && Leads(cfg, s0, View(peerTx, r), Actor.RxThread, taken)
      ensures NotAbove(cfg, old(View(peerTx, r)), View(peerTx, r)) && Others() == old(Others())
      ensures batches == if |old(batches)| == 0 then [] else old(batches)[1..]
    {
      if 0 < |batches| {
        var s := View(peerTx, r);
        BatchKeeps(cfg, s, batches[0]);
        ExecNotAbove(cfg, s, batches[0]);
        LeadsByBatch(cfg, s0, s, batches[0], Actor.RxThread, taken);
        Become(Exec(cfg, s, batches[0]));
        TakeFirst(taken, batches);
        taken, batches := taken + batches[0], batches[1..];
      }
    }

    /** The refill loop of tx_thread. */
    method FillPattern(buf: seq<int>, counter: nat) returns (r: seq<int>)
      requires cfg.Valid() && cfg.words <= |buf|
      ensures r == Refill(cfg, buf, counter)
    {
      r := buf;
      var i := 0;
      while i < cfg.words
        invariant 0 <= i <= cfg.words && |r| == |buf|
        invariant forall j :: 0 <= j < i ==> r[j] == j + (cfg.TxSlots() - 1) + counter
        invariant forall j :: i <= j < |buf| ==> r[j] == buf[j]
      {
        r := r[i := i + (cfg.TxSlots() - 1) + counter];
        i := i + 1;
      }
    }

    // -------------------------------------------------------------- tx_thread

    /** Lines 131 to 133: the first word of the pattern. */
    method TxPrimeBuffer(ghost s0: State, bufferId: nat, inProgress: int)
      requires Valid(Actor.TxThread) && bufferId < cfg.txCount
      requires Leads(cfg, s0, View(Tx(TxPrimeFill, bufferId, 0, inProgress, false, 0), peerRx), Actor.TxThread, taken)
      modifies this`txMem
      ensures Valid(Actor.TxThread)
      ensures Leads(cfg, s0, View(Tx(TxPrimeStart, bufferId, 0, inProgress, false, 0), peerRx), Actor.TxThread, taken)
    {
      ghost var s := View(Tx(TxPrimeFill, bufferId, 0, inProgress, false, 0), peerRx);
      if cfg.verify {
        txMem := txMem[bufferId := txMem[bufferId][0 := inProgress]];
      }
      LeadsByStep(cfg, s0, s, Actor.TxThread, taken);
      assert View(Tx(TxPrimeStart, bufferId, 0, inProgress, false, 0), peerRx) == Step(cfg, s, Actor.TxThread);
    }

    /** The first loop of tx_thread. */
    method TxPriming() returns (inProgress: int)
      requires Valid(Actor.TxThread) && taken == []
      modifies this
      ensures Valid(Actor.TxThread) && numTransfers == old(numTransfers) && Others() == old(Others())
      ensures Leads(cfg, old(View(TX_START, peerRx)), View(Tx(TxFinish, 0, 0, inProgress, false, 0), peerRx),
                    Actor.TxThread, taken)
    {
      var bufferId := 0;
      inProgress := 0;
      ghost var s0 := View(TX_START, peerRx);
      LeadsNowhere(cfg, s0, Actor.TxThread);
      while bufferId < cfg.txCount
        invariant Valid(Actor.TxThread) && numTransfers == old(numTransfers) && Others() == old(Others())
        invariant Leads(cfg, s0, View(Primed(cfg, bufferId, inProgress), peerRx), Actor.TxThread, taken)
        decreases cfg.txCount - bufferId
      {
        TxPrimeBuffer(s0, bufferId, inProgress);
        TxPause(s0, Tx(TxPrimeStart, bufferId, 0, inProgress, false, 0));
        ghost var s := View(Tx(TxPrimeStart, bufferId, 0, inProgress, false, 0), peerRx);
        LeadsByStep(cfg, s0, s, Actor.TxThread, taken);
        txChan := txChan.Start(bufferId);
        inProgress := inProgress + 1;
        if inProgress >= numTransfers {
          break;
        }
        bufferId := bufferId + cfg.increment;
        TxPause(s0, Primed(cfg, bufferId, inProgress));
      }
    }

    /** FINISH_XFER: the others move on until the completion is signalled, or until they stop moving. */
    method TxFinishXfer(ghost s0: State, t: Tx) returns (woken: bool)
      requires Valid(Actor.TxThread) && t.pc == TxFinish && Leads(cfg, s0, View(t, peerRx), Actor.TxThread, taken)
      modifies this
      ensures Valid(Actor.TxThread) && numTransfers == old(numTransfers) && Others() == old(Others())
      ensures Leads(cfg, s0, View(if woken then TxFinished(t, numTransfers) else t, peerRx), Actor.TxThread, taken)
      ensures !woken ==> t.bufferId !in txChan.ready && batches == []
    {
      while t.bufferId !in txChan.ready && 0 < |batches|
        invariant Valid(Actor.TxThread) && Leads(cfg, s0, View(t, peerRx), Actor.TxThread, taken)
        invariant numTransfers == old(numTransfers) && Others() == old(Others())
        decreases |batches|
      {
        TxPause(s0, t);
      }
      woken := t.bufferId in txChan.ready;
      if woken {
        ghost var s := View(t, peerRx);
        LeadsByStep(cfg, s0, s, Actor.TxThread, taken);
        txChan := txChan.Finish(t.bufferId);
      }
    }

    /** Whatever the others do and whenever: the thread returns, or waits in FINISH when they do no more. */
    method TxThread() returns (t: Tx)
      requires Valid(Actor.TxThread) && taken == []
      modifies this
      ensures Valid(Actor.TxThread) && Leads(cfg, old(View(TX_START, peerRx)), View(t, peerRx), Actor.TxThread, taken)
      ensures Others() == old(Others())
      ensures t.pc == TxDone || (t.pc == TxFinish && t.bufferId !in txChan.ready && batches == [])
    {
      ghost var s0 := View(TX_START, peerRx);
      var inProgress := TxPriming();
      t := Tx(TxFinish, 0, 0, inProgress, false, 0);
      while true
        invariant Valid(Actor.TxThread) && t.pc == TxFinish && t.bufferId < cfg.txCount
        invariant Leads(cfg, s0, View(t, peerRx), Actor.TxThread, taken) && Others() == old(Others())
        decreases if t.stopInProgress then 0 else 1, Left(t.counter, numTransfers)
      {
        var woken := TxFinishXfer(s0, t);
        if !woken {
          return;
        }
        t := TxFinished(t, numTransfers);
        if t.pc == TxDone {
          return;
        }
        t := TxRound(s0, t);
      }
    }

    /** The rest of the loop body, lines 176 to 207. */
    method TxRound(ghost s0: State, t0: Tx) returns (t: Tx)
      requires Valid(Actor.TxThread) && t0.pc == TxStopCheck && t0.bufferId < cfg.txCount
      requires Leads(cfg, s0, View(t0, peerRx), Actor.TxThread, taken)
      modifies this
      ensures Valid(Actor.TxThread) && t.pc == TxFinish && t.bufferId < cfg.txCount && t.counter == t0.counter
      ensures Leads(cfg, s0, View(t, peerRx), Actor.TxThread, taken) && Others() == old(Others())
      ensures (t.stopInProgress && !t0.stopInProgress) ||
              (t.stopInProgress == t0.stopInProgress && numTransfers == old(numTransfers))
    {
      TxPause(s0, t0);
      t := TxEarlyStop(s0, t0);
      if t.pc == TxFill {
        TxPause(s0, t);
        t := TxRefill(s0, t);
      }
      TxPause(s0, t);
    }

    /** Lines 176 to 184: the early stop. */
    method TxEarlyStop(ghost s0: State, t: Tx) returns (t': Tx)
      requires Valid(Actor.TxThread) && t.pc == TxStopCheck && t.bufferId < cfg.txCount
      requires Leads(cfg, s0, View(t, peerRx), Actor.TxThread, taken)
      modifies this`numTransfers
      ensures Valid(Actor.TxThread) && Leads(cfg, s0, View(t', peerRx), Actor.TxThread, taken)
      ensures t'.pc in {TxFill, TxFinish} && t'.bufferId < cfg.txCount && t'.counter == t.counter
      ensures (t'.stopInProgress && !t.stopInProgress) ||
              (t'.stopInProgress == t.stopInProgress && numTransfers == old(numTransfers))
    {
      ghost var s := View(t, peerRx);
      LeadsByStep(cfg, s0, s, Actor.TxThread, taken);
      t' := t;
      if stop && !t.stopInProgress {
        t' := t.(stopInProgress := true, stoppedAt := t.counter);
        numTransfers := t.counter + cfg.rxCount;
      }
      if t.counter + t.inProgress >= numTransfers {
        t' := TxFlip(cfg, t');
      } else {
        t' := t'.(pc := TxFill);
      }
      assert View(t', peerRx) == Step(cfg, s, Actor.TxThread);
    }

    /** Lines 189 to 193: the pattern. */
    method TxFillBuffer(ghost s0: State, t: Tx)
      requires Valid(Actor.TxThread) && t.pc == TxFill && t.bufferId < cfg.txCount
      requires Leads(cfg, s0, View(t, peerRx), Actor.TxThread, taken)
      modifies this`txMem
      ensures Valid(Actor.TxThread) && Leads(cfg, s0, View(t.(pc := TxStart), peerRx), Actor.TxThread, taken)
    {
      ghost var s := View(t, peerRx);
      LeadsByStep(cfg, s0, s, Actor.TxThread, taken);
      if cfg.verify {
        var buf := FillPattern(txMem[t.bufferId], t.counter);
        txMem := txMem[t.bufferId := buf];
      }
      assert View(t.(pc := TxStart), peerRx) == Step(cfg, s, Actor.TxThread);
    }

    /** Lines 189 to 207: the pattern, START_XFER, and the next buffer. */
    method TxRefill(ghost s0: State, t: Tx) returns (t': Tx)
      requires Valid(Actor.TxThread) && t.pc == TxFill && t.bufferId < cfg.txCount
      requires Leads(cfg, s0, View(t, peerRx), Actor.TxThread, taken)
      modifies this
      ensures Valid(Actor.TxThread) && numTransfers == old(numTransfers) && Others() == old(Others())
      ensures t'.pc == TxFinish && t'.bufferId < cfg.txCount
      ensures t'.counter == t.counter && t'.stopInProgress == t.stopInProgress
      ensures Leads(cfg, s0, View(t', peerRx), Actor.TxThread, taken)
    {
      TxFillBuffer(s0, t);
      TxPause(s0, t.(pc := TxStart));
      ghost var s := View(t.(pc := TxStart), peerRx);
      LeadsByStep(cfg, s0, s, Actor.TxThread, taken);
      txChan := txChan.Start(t.bufferId);
      t' := TxFlip(cfg, t.(inProgress := t.inProgress + 1));
    }

    // -------------------------------------------------------------- rx_thread

    /** The first loop of rx_thread. */
    method RxPriming() returns (inProgress: int)
      requires Valid(Actor.RxThread) && taken == []
      modifies this
      ensures Valid(Actor.RxThread) && Others() == old(Others())
      ensures Leads(cfg, old(View(peerTx, RX_START)), View(peerTx, Rx(RxFinish, 0, 0, inProgress, 0)),
                    Actor.RxThread, taken)
    {
      var bufferId := 0;
      inProgress := 0;
      ghost var s0 := View(peerTx, RX_START);
      LeadsNowhere(cfg, s0, Actor.RxThread);
      while bufferId < cfg.rxCount
        invariant Valid(Actor.RxThread) && Others() == old(Others())
        invariant Leads(cfg, s0, View(peerTx, RxPrimed(cfg, bufferId, inProgress)), Actor.RxThread, taken)
        decreases cfg.rxCount - bufferId
      {
        ghost var s := View(peerTx, Rx(RxPrimeStart, bufferId, 0, inProgress, 0));
        LeadsByStep(cfg, s0, s, Actor.RxThread, taken);
        rxChan := rxChan.Start(bufferId);
        inProgress := inProgress + 1;
        RxPause(s0, Rx(RxPrimeCheck, bufferId, 0, inProgress, 0));
        s := View(peerTx, Rx(RxPrimeCheck, bufferId, 0, inProgress, 0));
        LeadsByStep(cfg, s0, s, Actor.RxThread, taken);
        if inProgress >= numTransfers {
          break;
        }
        bufferId := bufferId + cfg.increment;
        RxPause(s0, RxPrimed(cfg, bufferId, inProgress));
      }
    }

    /** FINISH_XFER: the others move on until the completion is signalled, or until they do no more. */
    method RxFinishXfer(ghost s0: State, r: Rx) returns (woken: bool)
      requires Valid(Actor.RxThread) && r.pc == RxFinish && Leads(cfg, s0, View(peerTx, r), Actor.RxThread, taken)
      modifies this
      ensures Valid(Actor.RxThread) && Others() == old(Others())
      ensures Leads(cfg, s0, View(peerTx, if woken then r.(pc := RxVerify) else r), Actor.RxThread, taken)
      ensures woken ==> Below(cfg, old(View(peerTx, r)), View(peerTx, r.(pc := RxVerify)))
      ensures !woken ==> r.bufferId !in rxChan.ready && batches == []
    {
      while r.bufferId !in rxChan.ready && 0 < |batches|
        invariant Valid(Actor.RxThread) && Leads(cfg, s0, View(peerTx, r), Actor.RxThread, taken)
        invariant Others() == old(Others()) && NotAbove(cfg, old(View(peerTx, r)), View(peerTx, r))
        decreases |batches|
      {
        RxPause(s0, r);
      }
      woken := r.bufferId in rxChan.ready;
      if woken {
        ghost var s := View(peerTx, r);
        StepsDecrease(cfg, s, Actor.RxThread);
        LeadsByStep(cfg, s0, s, Actor.RxThread, taken);
        rxChan := rxChan.Finish(r.bufferId);
        assert View(peerTx, r.(pc := RxVerify)) == Step(cfg, s, Actor.RxThread);
      }
    }

    /** Whatever the others do and whenever: the thread returns, or waits in FINISH when they do no more. */
    method RxThread() returns (r: Rx)
      requires Valid(Actor.RxThread) && taken == []
      modifies this
      ensures Valid(Actor.RxThread)
      ensures Leads(cfg, old(View(peerTx, RX_START)), View(peerTx, r), Actor.RxThread, taken)
      ensures Others() == old(Others())
      ensures r.pc == RxDone || (r.pc == RxFinish && r.bufferId !in rxChan.ready && batches == [])
    {
      ghost var s0 := View(peerTx, RX_START);
      var inProgress := RxPriming();
      r := Rx(RxFinish, 0, 0, inProgress, 0);
      while true
        invariant Valid(Actor.RxThread) && r.pc in {RxFinish, RxDone} && r.bufferId < cfg.rxCount
        invariant Leads(cfg, s0, View(peerTx, r), Actor.RxThread, taken) && Others() == old(Others())
        decreases Pending(View(peerTx, r)), Work(cfg, View(peerTx, r))
      {
        if r.pc == RxDone {
          return;
        }
        var woken := RxFinishXfer(s0, r);
        if !woken {
          return;
        }
        r := RxRound(s0, r.(pc := RxVerify));
      }
    }

    /** The rest of the loop body, lines 254 to 294. */
    method RxRound(ghost s0: State, r0: Rx) returns (r: Rx)
      requires Valid(Actor.RxThread) && r0.pc == RxVerify && r0.bufferId < cfg.rxCount
      requires Leads(cfg, s0, View(peerTx, r0), Actor.RxThread, taken)
      modifies this
      ensures Valid(Actor.RxThread) && r.pc in {RxFinish, RxDone} && r.bufferId < cfg.rxCount
      ensures Leads(cfg, s0, View(peerTx, r), Actor.RxThread, taken) && Others() == old(Others())
      ensures NotAbove(cfg, old(View(peerTx, r0)), View(peerTx, r))
    {
      RxPause(s0, r0);
      r := RxCheckData(s0, r0);
      RxPause(s0, r);
      r := RxCheckExit(s0, r);
      if r.pc != RxDone {
        RxPause(s0, r);
        r := RxRestart(s0, r);
        RxPause(s0, r);
      }
    }

    /** Lines 254 to 268: the data check. */
    method RxCheckData(ghost s0: State, r: Rx) returns (r': Rx)
      requires Valid(Actor.RxThread) && r.pc == RxVerify && r.bufferId < cfg.rxCount
      requires Leads(cfg, s0, View(peerTx, r), Actor.RxThread, taken)
      ensures r'.pc == RxExitCheck && r'.bufferId == r.bufferId
      ensures Leads(cfg, s0, View(peerTx, r'), Actor.RxThread, taken)
      ensures NotAbove(cfg, View(peerTx, r), View(peerTx, r'))
    {
      ghost var s := View(peerTx, r);
      StepNotAbove(cfg, s, Actor.RxThread);
      LeadsByStep(cfg, s0, s, Actor.RxThread, taken);
      var mismatches := r.mismatches;
      if cfg.verify && rxMem[r.bufferId][0] != r.counter {
        mismatches := mismatches + 1;
      }
      r' := Rx(RxExitCheck, r.bufferId, r.counter + 1, r.inProgress - 1, mismatches);
      assert View(peerTx, r') == Step(cfg, s, Actor.RxThread);
    }

    /** Line 272: the exit test. */
    method RxCheckExit(ghost s0: State, r: Rx) returns (r': Rx)
      requires Valid(Actor.RxThread) && r.pc == RxExitCheck && Leads(cfg, s0, View(peerTx, r), Actor.RxThread, taken)
      ensures r'.pc in {RxDone, RxRestartCheck} && r'.bufferId == r.bufferId
      ensures Leads(cfg, s0, View(peerTx, r'), Actor.RxThread, taken)
      ensures NotAbove(cfg, View(peerTx, r), View(peerTx, r'))
    {
      ghost var s := View(peerTx, r);
      StepNotAbove(cfg, s, Actor.RxThread);
      LeadsByStep(cfg, s0, s, Actor.RxThread, taken);
      r' := r.(pc := if r.counter >= numTransfers then RxDone else RxRestartCheck);
      assert View(peerTx, r') == Step(cfg, s, Actor.RxThread);
    }

    /** Line 284: START_XFER. */
    method RxStartAgain(ghost s0: State, r: Rx)
      requires Valid(Actor.RxThread) && r.pc == RxStart && Leads(cfg, s0, View(peerTx, r), Actor.RxThread, taken)
      modifies this`rxChan
      ensures Valid(Actor.RxThread)
      ensures Leads(cfg, s0, View(peerTx, RxFlip(cfg, r.(inProgress := r.inProgress + 1))), Actor.RxThread, taken)
      ensures NotAbove(cfg, old(View(peerTx, r)), View(peerTx, RxFlip(cfg, r.(inProgress := r.inProgress + 1))))
    {
      ghost var s := View(peerTx, r);
      LeadsByStep(cfg, s0, s, Actor.RxThread, taken);
      StepNotAbove(cfg, s, Actor.RxThread);
      rxChan := rxChan.Start(r.bufferId);
    }

    /** Lines 278 to 294: the test for enough transfers in progress, START_XFER, and the next buffer. */
    method RxRestart(ghost s0: State, r: Rx) returns (r': Rx)
      requires Valid(Actor.RxThread) && r.pc == RxRestartCheck && r.bufferId < cfg.rxCount
      requires Leads(cfg, s0, View(peerTx, r), Actor.RxThread, taken)
      modifies this
      ensures Valid(Actor.RxThread) && r'.pc == RxFinish && r'.bufferId < cfg.rxCount
      ensures Leads(cfg, s0, View(peerTx, r'), Actor.RxThread, taken) && Others() == old(Others())
      ensures NotAbove(cfg, old(View(peerTx, r)), View(peerTx, r'))
    {
      ghost var s := View(peerTx, r);
      LeadsByStep(cfg, s0, s, Actor.RxThread, taken);
      StepNotAbove(cfg, s, Actor.RxThread);
      var inProgress := r.inProgress;
      if r.counter + inProgress < numTransfers {
        RxPause(s0, r.(pc := RxStart));
        RxStartAgain(s0, r.(pc := RxStart));
        inProgress := inProgress + 1;
      }
      r' := Rx(RxFinish, (r.bufferId + cfg.increment) % cfg.rxCount, r.counter, inProgress, r.mismatches);
    }
  }

  // ---------------------------------------------------------------- whole runs

  /** The threads and the hardware have come to rest. */
  predicate AtRest(s: State) {
    && !TxEnabled(s) && !RxEnabled(s) && !EngineEnabled(s)
    && !CallbackDue(s.txChan, s.moved) && !CallbackDue(s.rxChan, s.moved)
  }

  /** A run with a stop that fits, or none, never passes the total, and has reached it when at rest; with a stop
      that spares the pattern, or none, no mismatch is reported. */
  ghost predicate GoodEnd(cfg: Config, s: State)
    requires cfg.Valid()
  {
    && (StopWasFitting(cfg, s) ==>
          && s.tx.counter <= Goal(s) && s.rx.counter <= Goal(s)
          && (s.tx.pc == TxDone ==> s.tx.counter == Goal(s))
          && (s.rx.pc == RxDone ==> s.rx.counter == Goal(s))
          && (AtRest(s) ==> Drained(s, Goal(s))))
    && (StopSparedPattern(cfg, s) && 0 < cfg.words ==> s.rx.mismatches == 0)
  }

  lemma RunsEndWell(cfg: Config, s0: State, s: State, self: Actor, taken: seq<Actor>)
    requires cfg.Valid() && Init(cfg, s0) && self != Signal && Leads(cfg, s0, s, self, taken)
    ensures GoodEnd(cfg, s)
    ensures Signal !in taken ==> !s.tx.stopInProgress && s.numTransfers == cfg.requested
  {
    var q :| Without(q, self) == taken && s == Exec(cfg, s0, q);
    StoppedInRange(cfg, s0, q);
    if Signal !in taken {
      if Signal in q {
        InWithout(q, self, Signal);
      }
      NoSignalNoStop(cfg, s0, q);
    }
    if StopWasFitting(cfg, s) {
      ReachableInv(cfg, s0, q);
      if AtRest(s) {
        StuckIsDrained(cfg, s);
      }
    }
    if StopSparedPattern(cfg, s) {
      ReachablePattern(cfg, s0, q);
    }
  }

  /** The start of the test over given memory. */
  function Started(cfg: Config, txInitial: seq<seq<int>>, rxInitial: seq<seq<int>>): State {
    State(TX_START, RX_START, cfg.requested, false, 0, NEW_CHAN, NEW_CHAN, txInitial, rxInitial)
  }

  /** From the start some interleaving of the thread with a first part of what the others do leads to `s`: with
      all of it, if nothing is left. */
  ghost predicate Ran(cfg: Config, txInitial: seq<seq<int>>, rxInitial: seq<seq<int>>, s: State, self: Actor,
                      others: seq<seq<Actor>>, left: nat)
    requires cfg.Valid()
  {
    exists taken :: taken <= Flat(others) && (left == 0 ==> taken == Flat(others))
                    && Leads(cfg, Started(cfg, txInitial, rxInitial), s, self, taken)
  }

  lemma RanAll(cfg: Config, txInitial: seq<seq<int>>, rxInitial: seq<seq<int>>, s: State, self: Actor,
               others: seq<seq<Actor>>, taken: seq<Actor>, batches: seq<seq<Actor>>)
    requires cfg.Valid() && Leads(cfg, Started(cfg, txInitial, rxInitial), s, self, taken)
    requires taken + Flat(batches) == [] + Flat(others)
    ensures Ran(cfg, txInitial, rxInitial, s, self, others, |batches|)
  {
    assert [] + Flat(others) == Flat(others);
    FirstPart(taken, batches, others);
  }

  /** tx_thread against anything the receiver, the hardware and the signal handler may do: it returns, or uses
      up all that they do and waits in FINISH. */
  method RunTx(config: Config, txInitial: seq<seq<int>>, rxInitial: seq<seq<int>>, others: seq<seq<Actor>>)
    returns (s: State, left: nat)
    requires config.Valid() && forall i :: 0 <= i < |others| ==> TxThread !in others[i]
    requires MemShape(txInitial, config.txCount, config.capacity)
    requires MemShape(rxInitial, config.rxCount, config.capacity)
    ensures !TxEnabled(s) && GoodEnd(config, s) && (s.tx.pc == TxDone || left == 0)
    ensures Ran(config, txInitial, rxInitial, s, TxThread, others, left)
  {
    var test := new LoopbackTest(config, txInitial, rxInitial, others);
    ghost var s0 := test.View(TX_START, RX_START);
    var t := test.TxThread();
    s, left := test.View(t, test.peerRx), |test.batches|;
    RunsEndWell(config, s0, s, TxThread, test.taken);
    RanAll(config, txInitial, rxInitial, s, TxThread, others, test.taken, test.batches);
  }

  /** rx_thread likewise. */
  method RunRx(config: Config, txInitial: seq<seq<int>>, rxInitial: seq<seq<int>>, others: seq<seq<Actor>>)
    returns (s: State, left: nat)
    requires config.Valid() && forall i :: 0 <= i < |others| ==> RxThread !in others[i]
    requires MemShape(txInitial, config.txCount, config.capacity)
    requires MemShape(rxInitial, config.rxCount, config.capacity)
    ensures !RxEnabled(s) && GoodEnd(config, s) && (s.rx.pc == RxDone || left == 0)
    ensures Ran(config, txInitial, rxInitial, s, RxThread, others, left)
  {
    var test := new LoopbackTest(config, txInitial, rxInitial, others);
    ghost var s0 := test.View(TX_START, RX_START);
    var r := test.RxThread();
    s, left := test.View(test.peerTx, r), |test.batches|;
    RunsEndWell(config, s0, s, RxThread, test.taken);
    RanAll(config, txInitial, rxInitial, s, RxThread, others, test.taken, test.batches);
  }

  /** A whole run of the test program without a signal: the transfers are checked without a mismatch, at most
      max(1, requested) are received, and exactly that many unless the receiver still waits when the others do
      no more; and if by then nothing can move, it has not. */
  method RunTest(config: Config, txInitial: seq<seq<int>>, rxInitial: seq<seq<int>>, others: seq<seq<Actor>>)
    returns (received: nat, mismatches: nat, atRest: bool, left: nat)
    requires config.Valid() && forall i :: 0 <= i < |others| ==> RxThread !in others[i] && Signal !in others[i]
    requires MemShape(txInitial, config.txCount, config.capacity)
    requires MemShape(rxInitial, config.rxCount, config.capacity)
    ensures received <= Max1(config.requested)
    ensures received == Max1(config.requested) || left == 0
    ensures 0 < config.words ==> mismatches == 0
    ensures atRest ==> received == Max1(config.requested)
    ensures exists s :: Ran(config, txInitial, rxInitial, s, RxThread, others, left)
              && !RxEnabled(s) && received == s.rx.counter && mismatches == s.rx.mismatches && atRest == AtRest(s)
  {
    var s;
    s, left := RunRx(config, txInitial, rxInitial, others);
    NotInFlat(others, Signal);
    ghost var s0 := Started(config, txInitial, rxInitial);
    ghost var taken :| taken <= Flat(others) && Leads(config, s0, s, RxThread, taken);
    RunsEndWell(config, s0, s, RxThread, taken);
    received, mismatches, atRest := s.rx.counter, s.rx.mismatches, AtRest(s);
  }

  // ---------------------------------------------------------------- places of the threads

  const TX_START := Tx(TxPrimeFill, 0, 0, 0, false, 0)
  const RX_START := Rx(RxPrimeStart, 0, 0, 0, 0)

  /** The transmitter at the head of its first loop, or just past it. */
  function Primed(cfg: Config, bufferId: nat, inProgress: int): Tx {
    if bufferId < cfg.txCount then Tx(TxPrimeFill, bufferId, 0, inProgress, false, 0)
    else Tx(TxFinish, 0, 0, inProgress, false, 0)
  }

  function RxPrimed(cfg: Config, bufferId: nat, inProgress: int): Rx {
    if bufferId < cfg.rxCount then Rx(RxPrimeStart, bufferId, 0, inProgress, 0) else Rx(RxFinish, 0, 0, inProgress, 0)
  }

  /** The transmitter when its FINISH has returned and the first test of the total is done. */
  function TxFinished(t: Tx, total: int): Tx {
    var next := t.(inProgress := t.inProgress - 1, counter := t.counter + 1);
    next.(pc := if next.counter >= total then TxDone else TxStopCheck)
  }
}
