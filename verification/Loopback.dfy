/** The two threads of dma-proxy-test.c over a looped-back DMA engine, as a system of atomic steps. A step of
    the receiver makes at most one access to what the threads share: one ioctl, or one read of
    `num_transfers`. The transmitter reads `num_transfers` in the same step as the ioctl before it, and its
    stop test reads `stop` and then writes and reads `num_transfers` in one step; nobody can tell, because
    only the transmitter writes `num_transfers`, and `stop` once set stays set. */
module Loopback {
  import opened Ring
  import opened Channel

  /** TX_BUFFER_COUNT, RX_BUFFER_COUNT, BUFFER_INCREMENT, the capacity of one buffer in words, the words
      of one transfer, the verify option and the requested number of transfers. */
  datatype Config = Config(txCount: nat, rxCount: nat, increment: nat,
                           capacity: nat, words: nat, verify: bool, requested: int) {
    predicate Valid() {
      && IsRing(txCount, increment)
      && IsRing(rxCount, increment)
      && words <= capacity
      && 0 < capacity
    }

    function TxSlots(): (n: nat)
      requires Valid()
      ensures 0 < n <= txCount
    {
      Slots(txCount, increment)
    }

    function RxSlots(): (n: nat)
      requires Valid()
      ensures 0 < n <= rxCount
    {
      Slots(rxCount, increment)
    }
  }

  datatype TxPc = TxPrimeFill | TxPrimeStart | TxFinish | TxStopCheck | TxFill | TxStart | TxDone

  datatype RxPc = RxPrimeStart | RxPrimeCheck | RxFinish | RxVerify | RxExitCheck | RxRestartCheck | RxStart | RxDone

  /** The locals of tx_thread. `stoppedAt` is history: the value of `counter` when the stop was handled. */
  datatype Tx = Tx(pc: TxPc, bufferId: nat, counter: nat, inProgress: int, stopInProgress: bool, stoppedAt: nat)

  /** The locals of rx_thread. `mismatches` counts the "buffer not equal" reports. */
  datatype Rx = Rx(pc: RxPc, bufferId: nat, counter: nat, inProgress: int, mismatches: nat)

  /** `moved` counts the transfers whose data the loopback hardware has moved; each channel then signals its
      own completions, at any later time. */
  datatype State = State(tx: Tx, rx: Rx, numTransfers: int, stop: bool, moved: nat,
                         txChan: Chan, rxChan: Chan, txMem: seq<seq<int>>, rxMem: seq<seq<int>>)

  /** Who takes the next step: a thread, the DMA hardware, the completion callback of a channel, or the
      SIGINT handler. */
  datatype Actor = TxThread | RxThread | Engine | TxCallback | RxCallback | Signal

  function Max1(n: int): (m: nat)
    ensures m >= 1 && m >= n && (m == 1 || m == n)
  {
    if n < 1 then 1 else n
  }

  predicate Init(cfg: Config, s: State) {
    && s.tx == Tx(TxPrimeFill, 0, 0, 0, false, 0)
    && s.rx == Rx(RxPrimeStart, 0, 0, 0, 0)
    && s.numTransfers == cfg.requested
    && !s.stop && s.moved == 0
    && s.txChan == NEW_CHAN
    && s.rxChan == NEW_CHAN
    && MemShape(s.txMem, cfg.txCount, cfg.capacity)
    && MemShape(s.rxMem, cfg.rxCount, cfg.capacity)
  }

  predicate MemShape(mem: seq<seq<int>>, count: nat, capacity: nat) {
    |mem| == count && forall b :: 0 <= b < |mem| ==> |mem[b]| == capacity
  }

  /** The start with every word of memory holding `word`. */
  function FirstState(cfg: Config, word: int): (s: State)
    ensures Init(cfg, s)
    ensures forall b :: 0 <= b < |s.rxMem| ==> forall i :: 0 <= i < |s.rxMem[b]| ==> s.rxMem[b][i] == word
  {
    var buf := seq(cfg.capacity, i => word);
    State(Tx(TxPrimeFill, 0, 0, 0, false, 0), Rx(RxPrimeStart, 0, 0, 0, 0), cfg.requested, false, 0,
          NEW_CHAN, NEW_CHAN, seq(cfg.txCount, b => buf), seq(cfg.rxCount, b => buf))
  }

  // ---------------------------------------------------------------- tx_thread

  /** The pattern a refill writes: word i is i + (TX_BUFFER_COUNT / BUFFER_INCREMENT - 1) + counter. */
  function Refill(cfg: Config, buf: seq<int>, counter: nat): (r: seq<int>)
    requires cfg.Valid()
  {
    seq(cfg.words, i => i + (cfg.TxSlots() - 1) + counter) + (if cfg.words <= |buf| then buf[cfg.words..] else [])
  }

  function SetFirst(buf: seq<int>, v: int): seq<int> {
    if |buf| == 0 then buf else buf[0 := v]
  }

  function WriteBuffer(mem: seq<seq<int>>, b: nat, buf: seq<int>): seq<seq<int>> {
    if b < |mem| then mem[b := buf] else mem
  }

  function ReadBuffer(mem: seq<seq<int>>, b: nat): seq<int> {
    if b < |mem| then mem[b] else []
  }

  predicate TxEnabled(s: State) {
    match s.tx.pc
    case TxDone => false
    case TxFinish => s.tx.bufferId in s.txChan.ready
    case _ => true
  }

  /** `buffer_id += BUFFER_INCREMENT; buffer_id %= TX_BUFFER_COUNT` and back to the top of the loop. */
  function TxFlip(cfg: Config, t: Tx): Tx
    requires cfg.Valid()
  {
    t.(pc := TxFinish, bufferId := (t.bufferId + cfg.increment) % cfg.txCount)
  }

  /** The stop test and the test for enough transfers in progress, lines 176 to 184. */
  function TxAfterStopCheck(cfg: Config, s: State): State
    requires cfg.Valid()
  {
    var handle := s.stop && !s.tx.stopInProgress;
    var total := if handle then s.tx.counter + cfg.rxCount else s.numTransfers;
    var t := if handle then s.tx.(stopInProgress := true, stoppedAt := s.tx.counter) else s.tx;
    s.(numTransfers := total,
       tx := if t.counter + t.inProgress >= total then TxFlip(cfg, t) else t.(pc := TxFill))
  }

  function TxStep(cfg: Config, s: State): State
    requires cfg.Valid()
    requires TxEnabled(s)
  {
    var t := s.tx;
    match t.pc
    case TxPrimeFill =>
      var mem := if cfg.verify
                 then WriteBuffer(s.txMem, t.bufferId, SetFirst(ReadBuffer(s.txMem, t.bufferId), t.inProgress))
                 else s.txMem;
      s.(txMem := mem, tx := t.(pc := TxPrimeStart))
    case TxPrimeStart =>
      var next := t.(inProgress := t.inProgress + 1);
      s.(txChan := s.txChan.Start(t.bufferId),
         tx := if next.inProgress >= s.numTransfers || t.bufferId + cfg.increment >= cfg.txCount
               then next.(pc := TxFinish, bufferId := 0)
               else next.(pc := TxPrimeFill, bufferId := t.bufferId + cfg.increment))
    case TxFinish =>
      var next := t.(inProgress := t.inProgress - 1, counter := t.counter + 1);
      s.(txChan := s.txChan.Finish(t.bufferId),
         tx := next.(pc := if next.counter >= s.numTransfers then TxDone else TxStopCheck))
    case TxStopCheck =>
      TxAfterStopCheck(cfg, s)
    case TxFill =>
      var mem := if cfg.verify
                 then WriteBuffer(s.txMem, t.bufferId, Refill(cfg, ReadBuffer(s.txMem, t.bufferId), t.counter))
                 else s.txMem;
      s.(txMem := mem, tx := t.(pc := TxStart))
    case TxStart =>
      s.(txChan := s.txChan.Start(t.bufferId), tx := TxFlip(cfg, t.(inProgress := t.inProgress + 1)))
    case TxDone => s
  }

  // ---------------------------------------------------------------- rx_thread

  predicate RxEnabled(s: State) {
    match s.rx.pc
    case RxDone => false
    case RxFinish => s.rx.bufferId in s.rxChan.ready
    case _ => true
  }

  function RxFlip(cfg: Config, r: Rx): Rx
    requires cfg.Valid()
  {
    r.(pc := RxFinish, bufferId := (r.bufferId + cfg.increment) % cfg.rxCount)
  }

  /** The first word is compared with the number of transfers received so far. */
  predicate Mismatch(cfg: Config, buf: seq<int>, counter: nat) {
    cfg.verify && !(0 < |buf| && buf[0] == counter)
  }

  function RxStep(cfg: Config, s: State): State
    requires cfg.Valid()
    requires RxEnabled(s)
  {
    var r := s.rx;
    match r.pc
    case RxPrimeStart =>
      s.(rxChan := s.rxChan.Start(r.bufferId), rx := r.(pc := RxPrimeCheck, inProgress := r.inProgress + 1))
    case RxPrimeCheck =>
      s.(rx := if r.inProgress >= s.numTransfers || r.bufferId + cfg.increment >= cfg.rxCount
               then r.(pc := RxFinish, bufferId := 0)
               else r.(pc := RxPrimeStart, bufferId := r.bufferId + cfg.increment))
    case RxFinish =>
      s.(rxChan := s.rxChan.Finish(r.bufferId), rx := r.(pc := RxVerify))
    case RxVerify =>
      var bad := Mismatch(cfg, ReadBuffer(s.rxMem, r.bufferId), r.counter);
      s.(rx := r.(pc := RxExitCheck, inProgress := r.inProgress - 1, counter := r.counter + 1,
         mismatches := if bad then r.mismatches + 1 else r.mismatches))
    case RxExitCheck =>
      s.(rx := r.(pc := if r.counter >= s.numTransfers then RxDone else RxRestartCheck))
    case RxRestartCheck =>
      s.(rx := if r.counter + r.inProgress >= s.numTransfers then RxFlip(cfg, r) else r.(pc := RxStart))
    case RxStart =>
      s.(rxChan := s.rxChan.Start(r.bufferId), rx := RxFlip(cfg, r.(inProgress := r.inProgress + 1)))
    case RxDone => s
  }

  // ---------------------------------------------------------------- engine and signal

  predicate EngineEnabled(s: State) {
    s.moved < |s.txChan.submitted| && s.moved < |s.rxChan.submitted|
  }

  /** The loopback moves the oldest queued transmit buffer into the oldest queued receive buffer. */
  function EngineStep(cfg: Config, s: State): State
    requires EngineEnabled(s)
  {
    var src := s.txChan.submitted[s.moved];
    var dst := s.rxChan.submitted[s.moved];
    var sent := ReadBuffer(s.txMem, src);
    var held := ReadBuffer(s.rxMem, dst);
    var got := if cfg.words <= |sent| && cfg.words <= |held| then sent[..cfg.words] + held[cfg.words..] else held;
    s.(moved := s.moved + 1, rxMem := WriteBuffer(s.rxMem, dst, got))
  }

  /** A channel still has to signal a transfer whose data has moved. */
  predicate CallbackDue(c: Chan, moved: nat) {
    c.completed < moved && c.completed < |c.submitted|
  }

  predicate Enabled(s: State, a: Actor) {
    match a
    case TxThread => TxEnabled(s)
    case RxThread => RxEnabled(s)
    case Engine => EngineEnabled(s)
    case TxCallback => CallbackDue(s.txChan, s.moved)
    case RxCallback => CallbackDue(s.rxChan, s.moved)
    case Signal => !s.stop
  }

  /** One step of one actor; an actor that cannot move leaves the state as it is. */
  function Step(cfg: Config, s: State, a: Actor): State
    requires cfg.Valid()
  {
    if !Enabled(s, a) then s else
    match a
    case TxThread => TxStep(cfg, s)
    case RxThread => RxStep(cfg, s)
    case Engine => EngineStep(cfg, s)
    case TxCallback => s.(txChan := s.txChan.Complete())
    case RxCallback => s.(rxChan := s.rxChan.Complete())
    case Signal => s.(stop := true)
  }

  /** The state an interleaving leads to. */
  function Exec(cfg: Config, s: State, schedule: seq<Actor>): State
    requires cfg.Valid()
  {
    if |schedule| == 0 then s
    else Step(cfg, Exec(cfg, s, schedule[..|schedule| - 1]), schedule[|schedule| - 1])
  }

  lemma {:induction false} ExecAppend(cfg: Config, s: State, p: seq<Actor>, q: seq<Actor>)
    requires cfg.Valid()
    ensures Exec(cfg, s, p + q) == Exec(cfg, Exec(cfg, s, p), q)
  {
    if |q| == 0 {
      assert p + q == p;
    } else {
      var front := q[..|q| - 1];
      assert (p + q)[..|p + q| - 1] == p + front;
      ExecAppend(cfg, s, p, front);
    }
  }

  /** Neither the threads nor the hardware can move; only the signal handler might still run. */
  predicate Stuck(s: State) {
    forall a :: a != Signal ==> !Enabled(s, a)
  }

  /** Both threads have returned after exactly `n` transfers and nothing is left in progress. */
  predicate Drained(s: State, n: nat) {
    && s.tx.pc == TxDone && s.rx.pc == RxDone
    && s.tx.counter == s.rx.counter == n
    && s.tx.inProgress == s.rx.inProgress == 0
    && |s.txChan.submitted| == |s.rxChan.submitted| == n
    && s.moved == s.txChan.completed == s.rxChan.completed == n
    && |s.txChan.finished| == |s.rxChan.finished| == n
  }
}
