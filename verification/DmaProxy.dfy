/** One channel of the DMA proxy driver (dma-proxy.c): completions, cookies and the reported status, with
    the DMA engine finishing transfers in order and running their callbacks at any later time. */
module DmaProxy {

  datatype Status = NoError | Busy | TimedOut | Failed

  /** What the engine does on its own: finish its oldest transfer, or run the oldest pending callback. */
  datatype Event = TransferDone | CallbackRuns

  /** One end of FINISH_XFER: the buffer, the status written, the latest transfer submitted for that buffer
      (-1 if none), and how many transfers the engine had finished at that moment. */
  datatype Report = Report(buffer: nat, status: Status, transfer: int, finishedThen: nat)

  /** The driver's record of one buffer: the count of its completion, and the cookie of its transfer. */
  datatype ProxyBd = ProxyBd(done: nat, cookie: int)

  /** `bd[b]` is the record of buffer b and `status[b]` its status word. Transfer k, with cookie k + 1, was
      submitted for buffer submitted[k]; the engine has finished the first `completed` of them and run the
      callbacks of the first `called`. `reports` is history. */
  datatype Channel = Channel(bd: seq<ProxyBd>, status: seq<Status>,
                             submitted: seq<nat>, completed: nat, called: nat, reports: seq<Report>)

  /** One ioctl, or one engine event between ioctls. A FINISH carries what the engine does while the call
      sleeps, what it does between the wake-up and the cookie query, and whether the query reports a DMA
      error. */
  datatype Op =
    | StartXfer(b: nat)
    | FinishXfer(b: nat, asleep: seq<Event>, awake: seq<Event>, dmaError: bool)
    | Xfer(b: nat, asleep: seq<Event>, awake: seq<Event>, dmaError: bool)
    | ShowBuflen(b: nat)
    | BadArgument
    | Env(e: Event)

  // ---------------------------------------------------------------- engine

  predicate Shape(c: Channel, n: nat) {
    && |c.bd| == |c.status| == n
    && c.called <= c.completed <= |c.submitted|
    && (forall k :: 0 <= k < |c.submitted| ==> c.submitted[k] < n)
  }

  function Happen(c: Channel, e: Event, n: nat): (c': Channel)
    requires Shape(c, n)
    ensures Shape(c', n)
  {
    match e
    case TransferDone =>
      if c.completed < |c.submitted| then c.(completed := c.completed + 1) else c
    case CallbackRuns =>
      if c.called < c.completed then
        var b := c.submitted[c.called];
        c.(bd := c.bd[b := c.bd[b].(done := c.bd[b].done + 1)], called := c.called + 1)
      else c
  }

  function HappenAll(c: Channel, events: seq<Event>, n: nat): (c': Channel)
    requires Shape(c, n)
    ensures Shape(c', n)
    decreases |events|
  {
    if |events| == 0 then c else HappenAll(Happen(c, events[0], n), events[1..], n)
  }

  /** The engine's answer about a cookie. */
  predicate IsComplete(c: Channel, cookie: int) {
    cookie <= c.completed
  }

  // ---------------------------------------------------------------- driver operations

  /** start_transfer: re-initialise the completion, submit, remember the cookie. */
  function Start(c: Channel, b: nat, n: nat): (c': Channel)
    requires Shape(c, n) && b < n
    ensures Shape(c', n)
  {
    c.(bd := c.bd[b := ProxyBd(0, |c.submitted| + 1)], submitted := c.submitted + [b])
  }

  /** Take one count of the completion of `b`. */
  function Take(c: Channel, b: nat, n: nat): (c': Channel)
    requires Shape(c, n) && b < n && c.bd[b].done > 0
    ensures Shape(c', n)
  {
    c.(bd := c.bd[b := c.bd[b].(done := c.bd[b].done - 1)])
  }

  /** wait_for_completion_timeout: sleep until the completion of `b` is signalled and take one count, or
      give up when the events run out. */
  function Sleep(c: Channel, b: nat, events: seq<Event>, n: nat): (r: (Channel, bool))
    requires Shape(c, n) && b < n
    ensures Shape(r.0, n)
    decreases |events|
  {
    if c.bd[b].done > 0 then (Take(c, b, n), true)
    else if |events| == 0 then (c, false)
    else Sleep(Happen(c, events[0], n), b, events[1..], n)
  }

  /** The cookie query and the status written at the end of wait_for_transfer. */
  function Conclude(c: Channel, b: nat, woken: bool, dmaError: bool, n: nat): (c': Channel)
    requires Shape(c, n) && b < n
    ensures Shape(c', n)
  {
    var result := if !woken then TimedOut
                  else if dmaError || !IsComplete(c, c.bd[b].cookie) then Failed
                  else NoError;
    c.(status := c.status[b := result],
       reports := c.reports + [Report(b, result, Latest(c.submitted, b), c.completed)])
  }

  /** wait_for_transfer. */
  function Finish(c: Channel, b: nat, asleep: seq<Event>, awake: seq<Event>, dmaError: bool, n: nat): (c': Channel)
    requires Shape(c, n) && b < n
    ensures Shape(c', n)
  {
    var (c1, woken) := Sleep(c.(status := c.status[b := Busy]), b, asleep, n);
    Conclude(HappenAll(c1, awake, n), b, woken, dmaError, n)
  }

  function Apply(c: Channel, op: Op, n: nat): (c': Channel)
    requires Shape(c, n) && OpInRange(op, n)
    ensures Shape(c', n)
  {
    match op
    case StartXfer(b) => Start(c, b, n)
    case FinishXfer(b, asleep, awake, err) => Finish(c, b, asleep, awake, err, n)
    case Xfer(b, asleep, awake, err) => Finish(Start(c, b, n), b, asleep, awake, err, n)
    case ShowBuflen(_) => c
    case BadArgument => c
    case Env(e) => Happen(c, e, n)
  }

  predicate OpInRange(op: Op, n: nat) {
    match op
    case StartXfer(b) => b < n
    case FinishXfer(b, _, _, _) => b < n
    case Xfer(b, _, _, _) => b < n
    case ShowBuflen(b) => b < n
    case _ => true
  }

  function Run(c: Channel, ops: seq<Op>, n: nat): (c': Channel)
    requires Shape(c, n) && forall i :: 0 <= i < |ops| ==> OpInRange(ops[i], n)
    ensures Shape(c', n)
    decreases |ops|
  {
    if |ops| == 0 then c else Apply(Run(c, ops[..|ops| - 1], n), ops[|ops| - 1], n)
  }

  /** The channel after create_channel: nothing submitted, the rest of the memory arbitrary. */
  predicate Fresh(c: Channel, n: nat) {
    Shape(c, n) && c.submitted == [] && c.reports == []
  }

  // ---------------------------------------------------------------- reported success is real

  /** The number of the latest transfer submitted for buffer b, or -1. */
  function Latest(submitted: seq<nat>, b: nat): (k: int)
    ensures -1 <= k < |submitted|
    ensures k >= 0 ==> submitted[k] == b
    ensures forall j :: 0 <= j < |submitted| && submitted[j] == b ==> j <= k
  {
    if |submitted| == 0 then -1
    else if submitted[|submitted| - 1] == b then |submitted| - 1
    else Latest(submitted[..|submitted| - 1], b)
  }

  /** A success was reported only when the latest transfer of that buffer was finished. */
  predicate Truthful(r: Report) {
    r.status == NoError && r.transfer >= 0 ==> r.transfer < r.finishedThen
  }

  ghost predicate Inv(c: Channel, n: nat) {
    && Shape(c, n)
    && (forall b :: 0 <= b < n && b in c.submitted ==> c.bd[b].cookie == Latest(c.submitted, b) + 1)
    && (forall i :: 0 <= i < |c.reports| ==> Truthful(c.reports[i]) && c.reports[i].finishedThen <= c.completed)
  }

  predicate SameCookies(c: Channel, c': Channel) {
    |c.bd| == |c'.bd| && forall b :: 0 <= b < |c.bd| ==> c'.bd[b].cookie == c.bd[b].cookie
  }

  lemma HappenKeeps(c: Channel, e: Event, n: nat)
    requires Inv(c, n)
    ensures var c' := Happen(c, e, n);
            && Inv(c', n) && c'.submitted == c.submitted && SameCookies(c, c') && c'.status == c.status
            && c'.reports == c.reports && c.completed <= c'.completed && c.called <= c'.called
  {
  }

  lemma {:induction false} HappenAllKeeps(c: Channel, events: seq<Event>, n: nat)
    requires Inv(c, n)
    ensures var c' := HappenAll(c, events, n);
            && Inv(c', n) && c'.submitted == c.submitted && SameCookies(c, c') && c'.status == c.status
            && c'.reports == c.reports && c.completed <= c'.completed && c.called <= c'.called
    decreases |events|
  {
    if |events| > 0 {
      HappenKeeps(c, events[0], n);
      HappenAllKeeps(Happen(c, events[0], n), events[1..], n);
    }
  }

  lemma {:induction false} SleepKeeps(c: Channel, b: nat, events: seq<Event>, n: nat)
    requires Inv(c, n) && b < n
    ensures var c' := Sleep(c, b, events, n).0;
            && Inv(c', n) && c'.submitted == c.submitted && SameCookies(c, c') && c'.status == c.status
            && c'.reports == c.reports && c.completed <= c'.completed && c.called <= c'.called
    decreases |events|
  {
    if c.bd[b].done == 0 && |events| > 0 {
      HappenKeeps(c, events[0], n);
      SleepKeeps(Happen(c, events[0], n), b, events[1..], n);
    }
  }

  lemma StartKeeps(c: Channel, b: nat, n: nat)
    requires Inv(c, n) && b < n
    ensures Inv(Start(c, b, n), n) && Latest(Start(c, b, n).submitted, b) == |c.submitted|
  {
    var c' := Start(c, b, n);
    forall x | 0 <= x < n && x in c'.submitted
      ensures c'.bd[x].cookie == Latest(c'.submitted, x) + 1
    {
      assert c'.submitted[..|c'.submitted| - 1] == c.submitted;
    }
  }

  lemma FinishKeeps(c: Channel, b: nat, asleep: seq<Event>, awake: seq<Event>, dmaError: bool, n: nat)
    requires Inv(c, n) && b < n
    ensures Inv(Finish(c, b, asleep, awake, dmaError, n), n)
  {
    var busy := c.(status := c.status[b := Busy]);
    SleepKeeps(busy, b, asleep, n);
    var c1 := Sleep(busy, b, asleep, n).0;
    HappenAllKeeps(c1, awake, n);
  }

  lemma ApplyKeeps(c: Channel, op: Op, n: nat)
    requires Inv(c, n) && OpInRange(op, n)
    ensures Inv(Apply(c, op, n), n)
  {
    match op
    case StartXfer(b) => StartKeeps(c, b, n);
    case FinishXfer(b, asleep, awake, err) => FinishKeeps(c, b, asleep, awake, err, n);
    case Xfer(b, asleep, awake, err) =>
      StartKeeps(c, b, n);
      FinishKeeps(Start(c, b, n), b, asleep, awake, err, n);
    case ShowBuflen(_) =>
    case BadArgument =>
    case Env(e) => HappenKeeps(c, e, n);
  }

  lemma {:induction false} RunKeeps(c: Channel, ops: seq<Op>, n: nat)
    requires Fresh(c, n) && forall i :: 0 <= i < |ops| ==> OpInRange(ops[i], n)
    ensures Inv(Run(c, ops, n), n)
    decreases |ops|
  {
    if |ops| > 0 {
      RunKeeps(c, ops[..|ops| - 1], n);
      ApplyKeeps(Run(c, ops[..|ops| - 1], n), ops[|ops| - 1], n);
    }
  }

  // ---------------------------------------------------------------- what a run leaves behind

  function StartedBy(op: Op): seq<nat> {
    match op
    case StartXfer(b) => [b]
    case Xfer(b, _, _, _) => [b]
    case _ => []
  }

  /** The buffer that an operation finishes, with its latest transfer among those started. */
  function FinishedBy(op: Op, started: seq<nat>): seq<(nat, int)> {
    match op
    case FinishXfer(b, _, _, _) => [(b, Latest(started, b))]
    case Xfer(b, _, _, _) => [(b, Latest(started, b))]
    case _ => []
  }

  /** The buffers that the operations start, in order. */
  function Started(ops: seq<Op>): seq<nat> {
    if |ops| == 0 then [] else Started(ops[..|ops| - 1]) + StartedBy(ops[|ops| - 1])
  }

  /** The buffers that the operations finish, in order, each with its latest transfer started by then. */
  function Finished(ops: seq<Op>): seq<(nat, int)> {
    if |ops| == 0 then [] else Finished(ops[..|ops| - 1]) + FinishedBy(ops[|ops| - 1], Started(ops))
  }

  function Subjects(reports: seq<Report>): (r: seq<(nat, int)>)
    ensures |r| == |reports|
  {
    seq(|reports|, i requires 0 <= i < |reports| => (reports[i].buffer, reports[i].transfer))
  }

  /** The last status reported for a buffer, if any was. */
  function LastReported(reports: seq<Report>, b: nat): seq<Status> {
    if |reports| == 0 then []
    else if reports[|reports| - 1].buffer == b then [reports[|reports| - 1].status]
    else LastReported(reports[..|reports| - 1], b)
  }

  /** The status word of a buffer is what was last reported for it. */
  predicate StatusIsReported(c: Channel) {
    forall b :: 0 <= b < |c.status| ==> LastReported(c.reports, b) in {[], [c.status[b]]}
  }

  /** FINISH submits nothing, reports once, and writes that status. */
  lemma FinishReports(c: Channel, b: nat, asleep: seq<Event>, awake: seq<Event>, dmaError: bool, n: nat)
    requires Inv(c, n) && b < n
    ensures var c' := Finish(c, b, asleep, awake, dmaError, n);
            && c'.submitted == c.submitted
            && |c'.reports| == |c.reports| + 1 && c'.reports[..|c.reports|] == c.reports
            && c'.reports[|c.reports|].buffer == b
            && c'.reports[|c.reports|].transfer == Latest(c.submitted, b)
            && c'.status == c.status[b := c'.reports[|c.reports|].status]
  {
    var busy := c.(status := c.status[b := Busy]);
    SleepKeeps(busy, b, asleep, n);
    HappenAllKeeps(Sleep(busy, b, asleep, n).0, awake, n);
  }

  lemma FinishKeepsReported(c: Channel, b: nat, asleep: seq<Event>, awake: seq<Event>, dmaError: bool, n: nat)
    requires Inv(c, n) && b < n && StatusIsReported(c)
    ensures var c' := Finish(c, b, asleep, awake, dmaError, n);
            StatusIsReported(c') && Subjects(c'.reports) == Subjects(c.reports) + [(b, Latest(c.submitted, b))]
  {
    FinishReports(c, b, asleep, awake, dmaError, n);
    LastWord(c, Finish(c, b, asleep, awake, dmaError, n), b);
  }

  lemma LastWord(c: Channel, c': Channel, b: nat)
    requires StatusIsReported(c) && b < |c.status|
    requires |c'.reports| == |c.reports| + 1 && c'.reports[..|c.reports|] == c.reports
    requires c'.reports[|c.reports|].buffer == b && c'.status == c.status[b := c'.reports[|c.reports|].status]
    ensures StatusIsReported(c')
  {
    forall x | 0 <= x < |c'.status|
      ensures LastReported(c'.reports, x) in {[], [c'.status[x]]}
    {
      assert LastReported(c.reports, x) in {[], [c.status[x]]};
    }
  }

  lemma ApplyDoesAsAsked(c: Channel, op: Op, n: nat)
    requires Inv(c, n) && OpInRange(op, n) && StatusIsReported(c)
    ensures var c', started := Apply(c, op, n), c.submitted + StartedBy(op);
            && c'.submitted == started && StatusIsReported(c')
            && Subjects(c'.reports) == Subjects(c.reports) + FinishedBy(op, started)
  {
    match op
    case StartXfer(b) => StartKeeps(c, b, n);
    case FinishXfer(b, asleep, awake, err) =>
      assert c.submitted + [] == c.submitted;
      FinishKeepsReported(c, b, asleep, awake, err, n);
      FinishReports(c, b, asleep, awake, err, n);
    case Xfer(b, asleep, awake, err) =>
      StartKeeps(c, b, n);
      FinishKeepsReported(Start(c, b, n), b, asleep, awake, err, n);
      FinishReports(Start(c, b, n), b, asleep, awake, err, n);
    case ShowBuflen(_) =>
    case BadArgument =>
    case Env(e) => HappenKeeps(c, e, n);
  }

  /** Over every run of ioctls and engine events: exactly the buffers of the START and XFER ioctls are submitted,
      in order; each FINISH and XFER reports once, in order, for its buffer and the transfer then latest; and
      the status word of a buffer is what was last reported for it. */
  lemma {:induction false} RunDoesAsAsked(c: Channel, ops: seq<Op>, n: nat)
    requires Fresh(c, n) && forall i :: 0 <= i < |ops| ==> OpInRange(ops[i], n)
    ensures var c' := Run(c, ops, n);
            c'.submitted == Started(ops) && Subjects(c'.reports) == Finished(ops) && StatusIsReported(c')
    decreases |ops|
  {
    if |ops| > 0 {
      var m := |ops| - 1;
      RunDoesAsAsked(c, ops[..m], n);
      RunKeeps(c, ops[..m], n);
      ApplyDoesAsAsked(Run(c, ops[..m], n), ops[m], n);
    }
  }

  /** Over every run of ioctls and engine events, with exactly the transfers asked for submitted and exactly the
      FINISHes asked for reported: PROXY_NO_ERROR is written for a buffer only when the engine has finished the
      latest transfer submitted for it, late callbacks of earlier ones or not. */
  lemma ReportedSuccessIsReal(c: Channel, ops: seq<Op>, n: nat)
    requires Fresh(c, n) && forall i :: 0 <= i < |ops| ==> OpInRange(ops[i], n)
    ensures var c' := Run(c, ops, n);
            && c'.submitted == Started(ops) && Subjects(c'.reports) == Finished(ops) && StatusIsReported(c')
            && forall i :: 0 <= i < |c'.reports| ==>
                 Truthful(c'.reports[i]) && c'.reports[i].finishedThen <= c'.completed
  {
    RunKeeps(c, ops, n);
    RunDoesAsAsked(c, ops, n);
  }

  // ---------------------------------------------------------------- what FINISH reports, exactly

  /** FINISH wakes up if and only if after some part of what the engine does the completion is signalled. */
  lemma {:induction false} WakesIff(c: Channel, b: nat, events: seq<Event>, n: nat)
    requires Shape(c, n) && b < n
    ensures Sleep(c, b, events, n).1 <==> exists m :: 0 <= m <= |events| && HappenAll(c, events[..m], n).bd[b].done > 0
    decreases |events|
  {
    if c.bd[b].done > 0 {
      assert HappenAll(c, events[..0], n).bd[b].done > 0;
    } else if |events| == 0 {
      assert events[..0] == [];
    } else {
      var next := Happen(c, events[0], n);
      WakesIff(next, b, events[1..], n);
      forall m | 1 <= m <= |events|
        ensures HappenAll(c, events[..m], n) == HappenAll(next, events[1..][..m - 1], n)
      {
        assert events[..m][1..] == events[1..][..m - 1];
      }
      if m :| 0 <= m <= |events[1..]| && HappenAll(next, events[1..][..m], n).bd[b].done > 0 {
        assert HappenAll(c, events[..m + 1], n) == HappenAll(next, events[1..][..m + 1 - 1], n);
      }
      if m :| 0 <= m <= |events| && HappenAll(c, events[..m], n).bd[b].done > 0 {
        assert HappenAll(c, events[..m], n) == HappenAll(next, events[1..][..m - 1], n);
      }
    }
  }

  /** How many callbacks of transfers for `b` ran between two states. */
  function CallbacksFor(c: Channel, c': Channel, b: nat): nat
    requires c.called <= c'.called <= |c'.submitted|
  {
    multiset(c'.submitted[c.called..c'.called])[b]
  }

  lemma CallbacksAdd(c: Channel, c1: Channel, c2: Channel, b: nat)
    requires c.called <= c1.called <= c2.called <= |c2.submitted| && c1.submitted == c2.submitted
    ensures CallbacksFor(c, c2, b) == CallbacksFor(c, c1, b) + CallbacksFor(c1, c2, b)
  {
    var s := c2.submitted;
    assert s[c.called..c2.called] == s[c.called..c1.called] + s[c1.called..c2.called];
  }

  lemma HappenCounts(c: Channel, e: Event, b: nat, n: nat)
    requires Inv(c, n) && b < n
    ensures var c' := Happen(c, e, n);
            c.called <= c'.called && c'.bd[b].done == c.bd[b].done + CallbacksFor(c, c', b)
  {
    var c' := Happen(c, e, n);
    if e == CallbackRuns && c.called < c.completed {
      assert c'.submitted[c.called..c'.called] == [c.submitted[c.called]];
    } else {
      assert c'.submitted[c.called..c'.called] == [];
    }
  }

  /** Completions are counted: each callback of the buffer adds one, and FINISH takes one if it is woken and none
      if it times out. */
  lemma {:induction false} SleepTakesOne(c: Channel, b: nat, events: seq<Event>, n: nat)
    requires Inv(c, n) && b < n
    ensures var (c', woken) := Sleep(c, b, events, n);
            && c.called <= c'.called
            && c'.bd[b].done + (if woken then 1 else 0) == c.bd[b].done + CallbacksFor(c, c', b)
    decreases |events|
  {
    if c.bd[b].done > 0 || |events| == 0 {
      var c' := Sleep(c, b, events, n).0;
      assert c'.submitted[c.called..c'.called] == [];
    } else {
      var c1 := Happen(c, events[0], n);
      HappenKeeps(c, events[0], n);
      HappenCounts(c, events[0], b, n);
      SleepTakesOne(c1, b, events[1..], n);
      SleepKeeps(c1, b, events[1..], n);
      CallbacksAdd(c, c1, Sleep(c1, b, events[1..], n).0, b);
    }
  }

  /** An earlier transfer of b than the latest has yet to have its callback run. */
  ghost predicate OwesEarlier(c: Channel, b: nat) {
    exists k :: c.called <= k < Latest(c.submitted, b) && k < |c.submitted| && c.submitted[k] == b
  }

  /** FINISH of b cannot be woken before the latest transfer of b is finished. */
  ghost predicate WaitsForOwn(c: Channel, b: nat) {
    b < |c.bd| && (Latest(c.submitted, b) < c.completed || (c.bd[b].done == 0 && !OwesEarlier(c, b)))
  }

  lemma HappenKeepsWaiting(c: Channel, e: Event, b: nat, n: nat)
    requires Inv(c, n) && b in c.submitted && WaitsForOwn(c, b)
    ensures WaitsForOwn(Happen(c, e, n), b)
  {
    var c' := Happen(c, e, n);
    if e == CallbackRuns && c.called < c.completed && c.submitted[c.called] == b {
      assert c.called < Latest(c.submitted, b) ==> OwesEarlier(c, b);
    }
    assert OwesEarlier(c', b) ==> OwesEarlier(c, b);
  }

  lemma {:induction false} WokenByOwnTransfer(c: Channel, b: nat, events: seq<Event>, n: nat)
    requires Inv(c, n) && b in c.submitted && WaitsForOwn(c, b) && Sleep(c, b, events, n).1
    ensures Latest(c.submitted, b) < Sleep(c, b, events, n).0.completed
    decreases |events|
  {
    if c.bd[b].done == 0 {
      HappenKeepsWaiting(c, events[0], b, n);
      HappenKeeps(c, events[0], n);
      WokenByOwnTransfer(Happen(c, events[0], n), b, events[1..], n);
    }
  }

  /** When FINISH waits for its own transfer, it reports a failure only for a DMA error, and otherwise success
      exactly when it is woken: whatever the engine does during the call. */
  lemma CleanFinish(c: Channel, b: nat, asleep: seq<Event>, awake: seq<Event>, dmaError: bool, n: nat)
    requires Inv(c, n) && b in c.submitted && WaitsForOwn(c, b)
    ensures var woken := Sleep(c, b, asleep, n).1;
            Finish(c, b, asleep, awake, dmaError, n).status[b] ==
            if !woken then TimedOut else if dmaError then Failed else NoError
  {
    var busy := c.(status := c.status[b := Busy]);
    SleepIgnoresStatus(c, busy.status, b, asleep, n);
    SleepKeeps(busy, b, asleep, n);
    HappenAllKeeps(Sleep(busy, b, asleep, n).0, awake, n);
    if Sleep(busy, b, asleep, n).1 {
      assert OwesEarlier(busy, b) ==> OwesEarlier(c, b);
      WokenByOwnTransfer(busy, b, asleep, n);
    }
  }

  lemma {:induction false} SleepIgnoresStatus(c: Channel, status: seq<Status>, b: nat, events: seq<Event>, n: nat)
    requires Shape(c, n) && b < n && |status| == n
    ensures Sleep(c.(status := status), b, events, n).1 == Sleep(c, b, events, n).1
    decreases |events|
  {
    if c.bd[b].done == 0 && |events| > 0 {
      assert Happen(c.(status := status), events[0], n) == Happen(c, events[0], n).(status := status);
      SleepIgnoresStatus(Happen(c, events[0], n), status, b, events[1..], n);
    }
  }

  /** Otherwise the engine may run just far enough to wake the sleeper with an earlier transfer's callback. */
  lemma {:induction false} WakeEarly(c: Channel, b: nat, k: nat, n: nat) returns (events: seq<Event>)
    requires Inv(c, n) && b in c.submitted && c.completed <= Latest(c.submitted, b)
    requires c.bd[b].done > 0 || (c.called <= k < Latest(c.submitted, b) && c.submitted[k] == b)
    ensures var (c', woken) := Sleep(c, b, events, n); woken && c'.completed <= Latest(c.submitted, b)
    decreases k - c.called, c.called - c.completed + |c.submitted|
  {
    if c.bd[b].done > 0 {
      return [];
    }
    var e := if c.called < c.completed then CallbackRuns else TransferDone;
    var c' := Happen(c, e, n);
    HappenKeeps(c, e, n);
    var rest := WakeEarly(c', b, k, n);
    events := [e] + rest;
    assert events[1..] == rest;
  }

  /** FINISH of a submitted buffer never reports a failure without a DMA error, whatever the engine does
      during the call, if and only if the latest transfer of the buffer is already finished, or its
      completion is not signalled and no earlier transfer of the buffer still owes its callback. */
  lemma FinishNeverFailsIff(c: Channel, b: nat, n: nat)
    requires Inv(c, n) && b in c.submitted
    ensures (forall asleep, awake :: Finish(c, b, asleep, awake, false, n).status[b] != Failed) <==> WaitsForOwn(c, b)
  {
    if WaitsForOwn(c, b) {
      forall asleep, awake
        ensures Finish(c, b, asleep, awake, false, n).status[b] != Failed
      {
        CleanFinish(c, b, asleep, awake, false, n);
      }
    } else {
      var k := if c.bd[b].done > 0 then 0 else
                 var k :| c.called <= k < Latest(c.submitted, b) && k < |c.submitted| && c.submitted[k] == b; k;
      var busy := c.(status := c.status[b := Busy]);
      var asleep := WakeEarly(busy, b, k, n);
      SleepKeeps(busy, b, asleep, n);
      assert Finish(c, b, asleep, [], false, n).status[b] == Failed;
    }
  }

  /** Starting a buffer again, as after a timeout, is safe if and only if none of its earlier transfers still
      owes its callback: a late one wakes the next FINISH, and a failure is reported for a transfer that is
      fine. */
  lemma RestartNeverFailsIff(c: Channel, b: nat, n: nat)
    requires Inv(c, n) && b < n
    ensures (forall asleep, awake :: Finish(Start(c, b, n), b, asleep, awake, false, n).status[b] != Failed)
            <==> b !in c.submitted[c.called..]
  {
    var c' := Start(c, b, n);
    StartKeeps(c, b, n);
    FinishNeverFailsIff(c', b, n);
    if b in c.submitted[c.called..] {
      var i :| 0 <= i < |c.submitted| - c.called && c.submitted[c.called..][i] == b;
      assert c'.submitted[c.called + i] == b;
    } else {
      forall k | c.called <= k < |c.submitted|
        ensures c'.submitted[k] != b
      {
        assert c'.submitted[k] == c.submitted[c.called..][k - c.called];
      }
    }
  }

  // ---------------------------------------------------------------- a FINISH in parts

  /** A FINISH that is woken is what the engine did before the wake-up, the count taken, what the engine did
      before the cookie query, and the status written: its parts may be taken as separate steps. */
  lemma {:induction false} SleepInParts(c: Channel, b: nat, events: seq<Event>, n: nat) returns (m: nat)
    requires Shape(c, n) && b < n && Sleep(c, b, events, n).1
    ensures m <= |events| && HappenAll(c, events[..m], n).bd[b].done > 0
    ensures Sleep(c, b, events, n).0 == Take(HappenAll(c, events[..m], n), b, n)
    decreases |events|
  {
    if c.bd[b].done > 0 {
      m := 0;
    } else {
      m := SleepInParts(Happen(c, events[0], n), b, events[1..], n);
      m := m + 1;
      assert events[..m][1..] == events[1..][..m - 1];
    }
  }

  lemma FinishInParts(c: Channel, b: nat, asleep: seq<Event>, awake: seq<Event>, dmaError: bool, n: nat)
    returns (m: nat)
    requires Shape(c, n) && b < n && Sleep(c.(status := c.status[b := Busy]), b, asleep, n).1
    ensures m <= |asleep|
    ensures var ready := HappenAll(c.(status := c.status[b := Busy]), asleep[..m], n);
            && ready.bd[b].done > 0
            && Finish(c, b, asleep, awake, dmaError, n) ==
               Conclude(HappenAll(Take(ready, b, n), awake, n), b, true, dmaError, n)
  {
    m := SleepInParts(c.(status := c.status[b := Busy]), b, asleep, n);
  }
}
