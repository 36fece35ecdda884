/** The IPI demo programs with their own control flow, their static counters and buffers updated in place: the
    PLM user module and its periodic task, the A72's message loop and interrupt handler, and the R5's main
    loop. Between two accesses to what the CPUs share, everybody else may take any steps. */
module IpiDevices {
  import opened Word32
  import opened Schedule
  import opened IpiA72
  import L = IpiR5

  const XUSER_R5 := 0
  const XUSER_A72 := 1

  /** PLM_MODULE_ID << 8 | XUSER_A72. */
  const A72_COMMAND: Word := 0xD01

  /** What ProcessCmd returns: the word it puts in the response, or XST_INVALID_PARAM. */
  datatype CmdResult = Success(response: Word) | InvalidParam

  /** The PLM user module: one trip counter for each CPU. */
  class UserModule {
    var tripCounter: array<Word>

    ghost predicate Valid()
      reads this
    {
      tripCounter.Length == 2
    }

    constructor ()
      ensures Valid() && fresh(tripCounter) && tripCounter[..] == [0, 0]
    {
      tripCounter := new Word[2](_ => 0);
    }

    /** The command's low byte selects the counter; an unknown command changes nothing. */
    method ProcessCmd(cmdId: Word, payload: Word) returns (r: CmdResult)
      requires Valid()
      modifies tripCounter
      ensures var api := cmdId % 256;
              && r == (if api < 2 then Success(Inc(payload)) else InvalidParam)
              && tripCounter[..] == (if api < 2 then old(tripCounter[..])[api := Inc(payload)]
                                     else old(tripCounter[..]))
    {
      match cmdId % 256 {
        case 0 =>
          tripCounter[XUSER_R5] := Inc(payload);
          return Success(Inc(payload));
        case 1 =>
          tripCounter[XUSER_A72] := Inc(payload);
          return Success(Inc(payload));
        case _ =>
          return InvalidParam;
      }
    }
  }

  // ---------------------------------------------------------------- A72 to PLM

  /** The buffer from IPI 3 to the PLM, request and response, and the observation bit of the interrupt. */
  class IpiChannel {
    var request: array<Word>
    var response: array<Word>
    var observed: bool

    ghost predicate Valid()
      reads this
    {
      request.Length == 2 && response.Length == 2 && request != response
    }

    constructor ()
      ensures Valid() && fresh(request) && fresh(response)
    {
      request, response := new Word[2](_ => 0), new Word[2](_ => 0);
      observed := false;
    }

    /** The PLM takes up the interrupt: xplmi runs the command, and acknowledges. */
    method PlmHandles(plm: UserModule)
      requires Valid() && plm.Valid() && plm.tripCounter != response && plm.tripCounter != request
      modifies this`observed, response, plm.tripCounter
      ensures !observed
      ensures var api := request[0] % 256;
              && response[1] == (if api < 2 then Inc(request[1]) else old(response[1]))
              && plm.tripCounter[..] == (if api < 2 then old(plm.tripCounter[..])[api := Inc(request[1])]
                                         else old(plm.tripCounter[..]))
    {
      var r := plm.ProcessCmd(request[0], request[1]);
      if r.Success? {
        response[1] := r.response;
      }
      observed := false;
    }

    /** send_ipi_msg. The PLM takes up the interrupt after the A72 has polled `delay` times. */
    method SendIpiMsg(plm: UserModule, counter: Word, delay: nat) returns (reply: Word)
      requires Valid() && plm.Valid() && plm.tripCounter != response && plm.tripCounter != request
      modifies this`observed, request, response, plm.tripCounter
      ensures reply == Inc(counter) && !observed
      ensures request[..] == [A72_COMMAND, counter] && response[1] == reply
      ensures plm.tripCounter[..] == old(plm.tripCounter[..])[XUSER_A72 := Inc(counter)]
    {
      request[0] := A72_COMMAND;
      request[1] := counter;
      observed := true;
      var polls := 0;
      while observed
        invariant polls <= delay + 1 && (observed ==> polls <= delay)
        invariant request[0] == A72_COMMAND && request[1] == counter
        invariant observed ==> plm.tripCounter[..] == old(plm.tripCounter[..])
        invariant !observed ==> response[1] == Inc(counter)
        invariant !observed ==> plm.tripCounter[..] == old(plm.tripCounter[..])[XUSER_A72 := Inc(counter)]
        decreases delay + 1 - polls
      {
        if polls == delay {
          PlmHandles(plm);
        }
        polls := polls + 1;
      }
      reply := response[1];
    }
  }

  /** The A72 main loop in its default build: after as many messages as there are delays both sides hold twice
      that number in 32 bits, and the R5's counter has not moved. */
  method A72Messages(plm: UserModule, delays: seq<nat>) returns (tripCounter: Word)
    requires plm.Valid() && plm.tripCounter[XUSER_A72] == 0
    modifies plm.tripCounter
    ensures tripCounter == (2 * |delays|) % 0x1_0000_0000 && plm.tripCounter[XUSER_A72] == tripCounter
    ensures plm.tripCounter[XUSER_R5] == old(plm.tripCounter[XUSER_R5])
  {
    var ipi := new IpiChannel();
    tripCounter := 0;
    var i := 0;
    while i < |delays|
      invariant i <= |delays|
      invariant ipi.Valid() && fresh(ipi) && fresh(ipi.request) && fresh(ipi.response)
      invariant tripCounter == AfterTrips(i) && plm.tripCounter[XUSER_A72] == tripCounter
      invariant plm.tripCounter[XUSER_R5] == old(plm.tripCounter[XUSER_R5])
    {
      tripCounter := ipi.SendIpiMsg(plm, Inc(tripCounter), delays[i]);
      i := i + 1;
    }
    AfterTripsClosedForm(|delays|);
  }

  // ---------------------------------------------------------------- PLM to A72

  /** An interleaving leads from one state to the other in which the others take exactly the steps `taken`. */
  ghost predicate Leads(s: State, s': State, self: Actor, taken: seq<Actor>) {
    exists q :: Without(q, self) == taken && s' == Exec(s, q)
  }

  lemma LeadsNowhere(s: State, self: Actor)
    ensures Leads(s, s, self, [])
  {
    assert Without([], self) == [] && Exec(s, []) == s;
  }

  lemma LeadsByBatch(s: State, s1: State, batch: seq<Actor>, self: Actor, taken: seq<Actor>)
    requires Leads(s, s1, self, taken) && self !in batch
    ensures Leads(s, Exec(s1, batch), self, taken + batch)
  {
    var q :| Without(q, self) == taken && s1 == Exec(s, q);
    ExecAppend(s, q, batch);
    WithoutAppend(q, batch, self);
    WithoutAbsent(batch, self);
  }

  lemma LeadsByStep(s: State, s1: State, self: Actor, taken: seq<Actor>)
    requires Leads(s, s1, self, taken)
    ensures Leads(s, Step(s1, self), self, taken)
  {
    var q :| Without(q, self) == taken && s1 == Exec(s, q);
    WithoutOne(q, self);
    assert (q + [self])[..|q|] == q;
    assert Exec(s, q + [self]) == Step(s1, self);
  }

  /** The same in the two states: the PLM's place, its statics and the history. */
  predicate SamePlm(s: State, s': State) {
    && s'.plm == s.plm && s'.trip == s.trip && s'.executionCount == s.executionCount && s'.waiting == s.waiting
    && s'.sent == s.sent && s'.accepts == s.accepts
  }

  lemma OthersKeepPlm(s: State, a: Actor)
    requires a != Plm
    ensures SamePlm(s, Step(s, a))
  {
  }

  lemma {:induction false} BatchKeepsPlm(s: State, batch: seq<Actor>)
    requires Plm !in batch
    ensures SamePlm(s, Exec(s, batch))
  {
    if |batch| > 0 {
      BatchKeepsPlm(s, batch[..|batch| - 1]);
      OthersKeepPlm(Exec(s, batch[..|batch| - 1]), batch[|batch| - 1]);
    }
  }

  lemma OthersKeepHandler(s: State, a: Actor)
    requires a in {Plm, Unmask}
    ensures var s' := Step(s, a); s'.a72 == s.a72 && s'.val == s.val && s'.status == s.status
  {
  }

  lemma {:induction false} BatchKeepsHandler(s: State, batch: seq<Actor>)
    requires Handler !in batch && SpuriousHandler !in batch
    ensures var s' := Exec(s, batch); s'.a72 == s.a72 && s'.val == s.val && s'.status == s.status
  {
    if |batch| > 0 {
      var n := |batch| - 1;
      BatchKeepsHandler(s, batch[..n]);
      assert batch[n] != Handler && batch[n] != SpuriousHandler;
      OthersKeepHandler(Exec(s, batch[..n]), batch[n]);
    }
  }

  /** The handler's place and locals. */
  datatype A72Place = A72Place(pc: A72Pc, val: Word, status: bool)

  /** The message buffer and the interrupt bits, with the statics of UserTask. Where one side runs, the other is
      known by its place, `peerPlm` or `peerA72`; `batches` is what everybody else is yet to do, one batch for
      each moment between two accesses, and `taken` what they have done. `sent` and `accepts` are history. */
  class A72Link {
    var tripCounter: Word
    var executionCount: nat
    var waiting: bool
    var request: Word
    var response: Word
    var pending: bool
    var enabled: bool
    var sent: nat
    var accepts: seq<Accept>

    var peerPlm: PlmPc
    var peerA72: A72Place
    var batches: seq<seq<Actor>>
    ghost var taken: seq<Actor>

    function View(plm: PlmPc, a: A72Place): State
      reads this
    {
      State(plm, tripCounter, executionCount, waiting, request, response, pending, enabled, a.pc, a.val, a.status,
            sent, accepts)
    }

    predicate Valid(self: Actor)
      reads this
    {
      forall i :: 0 <= i < |batches| ==> self !in batches[i] && SpuriousHandler !in batches[i]
    }

    /** All that the others do: nothing of it is ever skipped. */
    ghost function Others(): seq<Actor>
      reads this
    {
      taken + Flat(batches)
    }

    constructor (requestInitial: Word, responseInitial: Word, others: seq<seq<Actor>>)
      ensures View(TaskStart, A72_IDLE) == LinkStart(requestInitial, responseInitial)
      ensures peerPlm == TaskStart && peerA72 == A72_IDLE
      ensures batches == others && taken == []
    {
      tripCounter, executionCount, waiting := 0, 0, false;
      request, response, pending, enabled := requestInitial, responseInitial, false, false;
      sent, accepts := 0, [];
      peerPlm, peerA72, batches, taken := TaskStart, A72_IDLE, others, [];
    }

    method Become(s: State)
      modifies this
      ensures peerPlm == s.plm && peerA72 == A72Place(s.a72, s.val, s.status)
      ensures View(peerPlm, peerA72) == s && batches == old(batches) && taken == old(taken)
    {
      tripCounter, executionCount, waiting := s.trip, s.executionCount, s.waiting;
      request, response, pending, enabled := s.request, s.response, s.pending, s.enabled;
      sent, accepts := s.sent, s.accepts;
      peerPlm, peerA72 := s.plm, A72Place(s.a72, s.val, s.status);
    }

    /** The others take the steps of the next batch while UserTask is at `plm`. */
    method PlmPause(ghost s0: State, plm: PlmPc)
      requires Valid(Plm) && Leads(s0, View(plm, peerA72), Plm, taken)
      modifies this
      ensures Valid(Plm) && Leads(s0, View(plm, peerA72), Plm, taken) && Others() == old(Others())
      ensures batches == if |old(batches)| == 0 then [] else old(batches)[1..]
      ensures waiting == old(waiting) && executionCount == old(executionCount) && tripCounter == old(tripCounter)
      ensures sent == old(sent) && accepts == old(accepts)
    {
      if 0 < |batches| {
        var s := View(plm, peerA72);
        BatchKeepsPlm(s, batches[0]);
        LeadsByBatch(s0, s, batches[0], Plm, taken);
        Become(Exec(s, batches[0]));
        TakeFirst(taken, batches);
        taken, batches := taken + batches[0], batches[1..];
      }
    }

    /** The others take the steps of the next batch while the handler is at `a`. */
    method A72Pause(ghost s0: State, a: A72Place)
      requires Valid(Handler) && Leads(s0, View(peerPlm, a), Handler, taken)
      modifies this
      ensures Valid(Handler) && Leads(s0, View(peerPlm, a), Handler, taken) && Others() == old(Others())
      ensures batches == if |old(batches)| == 0 then [] else old(batches)[1..]
    {
      if 0 < |batches| {
        var s := View(peerPlm, a);
        BatchKeepsHandler(s, batches[0]);
        LeadsByBatch(s0, s, batches[0], Handler, taken);
        Become(Exec(s, batches[0]));
        TakeFirst(taken, batches);
        taken, batches := taken + batches[0], batches[1..];
      }
    }

    /** UserTask, the part for the A72: it counts one run, sends if the run is due, and accepts one answer if it
        has a request out and finds it acknowledged. */
    method UserTask(ghost s0: State)
      requires Valid(Plm) && Leads(s0, View(TaskStart, peerA72), Plm, taken)
      modifies this
      ensures Valid(Plm) && Leads(s0, View(TaskStart, peerA72), Plm, taken) && Others() == old(Others())
      ensures executionCount == old(executionCount) + 1
      ensures var due := old(executionCount) % RUNS_PER_MESSAGE == 0;
              && sent == old(sent) + (if due then 1 else 0)
              && (waiting ==> old(waiting) || due)
              && |accepts| == |old(accepts)| + (if (old(waiting) || due) && !waiting then 1 else 0)
              && accepts[..|old(accepts)|] == old(accepts)
    {
      ghost var s := View(TaskStart, peerA72);
      if executionCount % RUNS_PER_MESSAGE == 0 {
        SendRequest(s0);
      } else {
        LeadsByStep(s0, s, Plm, taken);
        assert View(if waiting then Poll else TaskEnd, peerA72) == PlmStep(s);
      }
      if waiting {
        PollForAnswer(s0);
      }
      CountExecution(s0);
    }

    /** Lines 217 to 226: the request, the trigger, and the wait flag. */
    method SendRequest(ghost s0: State)
      requires Valid(Plm) && Leads(s0, View(TaskStart, peerA72), Plm, taken)
      requires executionCount % RUNS_PER_MESSAGE == 0
      modifies this
      ensures Valid(Plm) && waiting && Leads(s0, View(Poll, peerA72), Plm, taken) && Others() == old(Others())
      ensures sent == old(sent) + 1 && executionCount == old(executionCount)
      ensures tripCounter == old(tripCounter) && accepts == old(accepts)
    {
      LeadsByStep(s0, View(TaskStart, peerA72), Plm, taken);
      request := tripCounter;
      PlmPause(s0, Trigger);
      TriggerRequest(s0);
      PlmPause(s0, Poll);
    }

    method TriggerRequest(ghost s0: State)
      requires Valid(Plm) && Leads(s0, View(Trigger, peerA72), Plm, taken)
      modifies this`pending, this`waiting, this`sent
      ensures Valid(Plm) && waiting && Leads(s0, View(Poll, peerA72), Plm, taken)
      ensures sent == old(sent) + 1
    {
      LeadsByStep(s0, View(Trigger, peerA72), Plm, taken);
      pending := true;
      waiting := true;
      sent := sent + 1;
    }

    /** Line 253, and the time until the scheduler runs it again. */
    method CountExecution(ghost s0: State)
      requires Valid(Plm) && Leads(s0, View(TaskEnd, peerA72), Plm, taken)
      modifies this
      ensures Valid(Plm) && Leads(s0, View(TaskStart, peerA72), Plm, taken) && Others() == old(Others())
      ensures executionCount == old(executionCount) + 1
      ensures sent == old(sent) && accepts == old(accepts) && waiting == old(waiting)
    {
      PlmPause(s0, TaskEnd);
      LeadsByStep(s0, View(TaskEnd, peerA72), Plm, taken);
      executionCount := executionCount + 1;
      PlmPause(s0, TaskStart);
    }

    /** Lines 236 to 249: the poll, and the response if there is one. It is accepted exactly when the interrupt
        is found cleared. */
    method PollForAnswer(ghost s0: State)
      requires Valid(Plm) && Leads(s0, View(Poll, peerA72), Plm, taken)
      modifies this
      ensures Valid(Plm) && Leads(s0, View(TaskEnd, peerA72), Plm, taken) && Others() == old(Others())
      ensures sent == old(sent) && executionCount == old(executionCount)
      ensures waiting == if old(pending) then old(waiting) else false
      ensures if old(pending) then accepts == old(accepts) && tripCounter == old(tripCounter)
              else accepts == old(accepts) + [Accept(old(tripCounter), response, tripCounter)]
                   && tripCounter == Inc(response)
    {
      ghost var s := View(Poll, peerA72);
      LeadsByStep(s0, s, Plm, taken);
      var acknowledged := !pending;
      assert View(if acknowledged then ReadResponse else TaskEnd, peerA72) == PlmStep(s);
      if acknowledged {
        ReadAnswer(s0);
      }
    }

    /** Lines 242 to 248. */
    method ReadAnswer(ghost s0: State)
      requires Valid(Plm) && Leads(s0, View(ReadResponse, peerA72), Plm, taken)
      modifies this
      ensures Valid(Plm) && Leads(s0, View(TaskEnd, peerA72), Plm, taken) && Others() == old(Others())
      ensures sent == old(sent) && executionCount == old(executionCount) && !waiting
      ensures accepts == old(accepts) + [Accept(old(tripCounter), response, tripCounter)]
      ensures tripCounter == Inc(response)
    {
      PlmPause(s0, ReadResponse);
      LeadsByStep(s0, View(ReadResponse, peerA72), Plm, taken);
      accepts := accepts + [Accept(tripCounter, response, Inc(response))];
      tripCounter := response;
      tripCounter := Inc(tripCounter);
      waiting := false;
    }

    /** _ipi_irq_handler: the request is answered, and the interrupt cleared. */
    method IpiIrqHandler(ghost s0: State, a0: A72Place) returns (a: A72Place)
      requires Valid(Handler) && a0.pc == A72Pc.Waiting && pending && enabled
      requires Leads(s0, View(peerPlm, a0), Handler, taken)
      modifies this
      ensures Valid(Handler) && a.pc == A72Pc.Waiting && Leads(s0, View(peerPlm, a), Handler, taken)
      ensures Others() == old(Others()) && |batches| <= |old(batches)| && !pending && a.val == old(request)
    {
      LeadsByStep(s0, View(peerPlm, a0), Handler, taken);
      var val := request;
      A72Pause(s0, A72Place(WriteResponse, val, a0.status));
      LeadsByStep(s0, View(peerPlm, A72Place(WriteResponse, val, a0.status)), Handler, taken);
      response := Inc(val);
      A72Pause(s0, A72Place(ReadStatus, val, a0.status));
      a := Acknowledge(s0, A72Place(ReadStatus, val, a0.status));
    }

    /** Lines 209 to 211: the interrupt status is read, and cleared. */
    method Acknowledge(ghost s0: State, a0: A72Place) returns (a: A72Place)
      requires Valid(Handler) && a0.pc == ReadStatus && Leads(s0, View(peerPlm, a0), Handler, taken)
      modifies this
      ensures Valid(Handler) && a.pc == A72Pc.Waiting && Leads(s0, View(peerPlm, a), Handler, taken)
      ensures Others() == old(Others()) && |batches| <= |old(batches)| && !pending && a.val == a0.val
    {
      LeadsByStep(s0, View(peerPlm, a0), Handler, taken);
      var status := pending;
      if status {
        A72Pause(s0, A72Place(ClearStatus, a0.val, status));
        LeadsByStep(s0, View(peerPlm, A72Place(ClearStatus, a0.val, status)), Handler, taken);
        pending := false;
      }
      a := A72Place(A72Pc.Waiting, a0.val, status);
    }
  }

  const A72_IDLE := A72Place(A72Pc.Waiting, 0, false)

  function LinkStart(request: Word, response: Word): State {
    State(TaskStart, 0, 0, false, request, response, false, false, A72Pc.Waiting, 0, false, 0, [])
  }

  lemma TripsCounted(s0: State, s: State, self: Actor, taken: seq<Actor>)
    requires Init(s0) && Leads(s0, s, self, taken) && SpuriousHandler !in taken && self != SpuriousHandler
    ensures AllAnswered(s) && s.trip == (2 * |s.accepts|) % 0x1_0000_0000
  {
    var q :| Without(q, self) == taken && s == Exec(s0, q);
    if SpuriousHandler in q {
      InWithout(q, self, SpuriousHandler);
    }
    RetransmissionIsHarmless(s0, q);
  }

  lemma NoSpuriousTaken(taken: seq<Actor>, others: seq<seq<Actor>>)
    requires taken <= Flat(others) && forall i :: 0 <= i < |others| ==> SpuriousHandler !in others[i]
    ensures SpuriousHandler !in taken
  {
    NotInFlat(others, SpuriousHandler);
  }

  /** The PLM's scheduler runs UserTask `tasks` times against an A72 that starts up, and serves its interrupts,
      whenever it likes: every tenth run sends, the counter is twice the responses accepted, and each answered
      its request. With the first part of what the A72 does, or all of it if nothing is left, the runs are an
      interleaving of the model. */
  method RunUserTask(requestInitial: Word, responseInitial: Word, tasks: nat, others: seq<seq<Actor>>)
    returns (tripCounter: Word, accepts: seq<Accept>, sent: nat, left: nat)
    requires forall i :: 0 <= i < |others| ==> Plm !in others[i] && SpuriousHandler !in others[i]
    ensures sent == (tasks + 9) / 10 && tripCounter == (2 * |accepts|) % 0x1_0000_0000
    ensures forall i :: 0 <= i < |accepts| ==> Answers(accepts[i])
    ensures exists s, taken ::
              && taken <= Flat(others) && (left == 0 ==> taken == Flat(others))
              && Leads(LinkStart(requestInitial, responseInitial), s, Plm, taken)
              && s.plm == TaskStart && s.executionCount == tasks && s.sent == sent
              && s.trip == tripCounter && s.accepts == accepts
  {
    var link := new A72Link(requestInitial, responseInitial, others);
    ghost var s0 := LinkStart(requestInitial, responseInitial);
    LeadsNowhere(s0, Plm);
    for n := 0 to tasks
      invariant fresh(link) && link.Valid(Plm) && link.Others() == [] + Flat(others)
      invariant Leads(s0, link.View(TaskStart, link.peerA72), Plm, link.taken)
      invariant link.executionCount == n && link.sent == Due(n)
    {
      link.UserTask(s0);
    }
    assert [] + Flat(others) == Flat(others);
    FirstPart(link.taken, link.batches, others);
    NoSpuriousTaken(link.taken, others);
    TripsCounted(s0, link.View(TaskStart, link.peerA72), Plm, link.taken);
    DueClosedForm(tasks);
    tripCounter, accepts, sent, left := link.tripCounter, link.accepts, link.sent, |link.batches|;
  }

  /** The A72 serves its interrupts against a PLM that runs its task whenever it likes: when the PLM does no more,
      no interrupt is left unserved. */
  method RunA72Handler(requestInitial: Word, responseInitial: Word, others: seq<seq<Actor>>)
    returns (tripCounter: Word, accepts: seq<Accept>)
    requires forall i :: 0 <= i < |others| ==> Handler !in others[i] && SpuriousHandler !in others[i]
    ensures tripCounter == (2 * |accepts|) % 0x1_0000_0000
    ensures forall i :: 0 <= i < |accepts| ==> Answers(accepts[i])
    ensures exists s ::
              && Leads(LinkStart(requestInitial, responseInitial), s, Handler, Flat(others))
              && s.a72 == A72Pc.Waiting && !(s.enabled && s.pending)
              && s.trip == tripCounter && s.accepts == accepts
  {
    var link := new A72Link(requestInitial, responseInitial, others);
    ghost var s0 := LinkStart(requestInitial, responseInitial);
    LeadsNowhere(s0, Handler);
    var a := A72_IDLE;
    while 0 < |link.batches|
      invariant fresh(link) && link.Valid(Handler) && link.Others() == [] + Flat(others)
      invariant a.pc == A72Pc.Waiting && Leads(s0, link.View(link.peerPlm, a), Handler, link.taken)
      invariant !(link.enabled && link.pending)
      decreases |link.batches|
    {
      link.A72Pause(s0, a);
      if link.enabled && link.pending {
        a := link.IpiIrqHandler(s0, a);
      }
    }
    assert [] + Flat(others) == Flat(others);
    FirstPart(link.taken, link.batches, others);
    NoSpuriousTaken(link.taken, others);
    TripsCounted(s0, link.View(link.peerPlm, a), Handler, link.taken);
    tripCounter, accepts := link.tripCounter, link.accepts;
  }

  // ---------------------------------------------------------------- R5 and PLM

  /** A timing leads from one state to the other in which the others take exactly the steps `taken`. */
  ghost predicate PlaysTo(s: L.Link, s': L.Link, taken: seq<L.Party>) {
    exists q :: Without(q, L.R5) == taken && s' == L.Play(s, q)
  }

  lemma PlaysNowhere(s: L.Link)
    ensures PlaysTo(s, s, [])
  {
    assert Without([], L.R5) == [] && L.Play(s, []) == s;
  }

  lemma PlaysByBatch(s: L.Link, s1: L.Link, batch: seq<L.Party>, taken: seq<L.Party>)
    requires PlaysTo(s, s1, taken) && L.R5 !in batch
    ensures PlaysTo(s, L.Play(s1, batch), taken + batch)
  {
    var q :| Without(q, L.R5) == taken && s1 == L.Play(s, q);
    L.PlayAppend(s, q, batch);
    WithoutAppend(q, batch, L.R5);
    WithoutAbsent(batch, L.R5);
  }

  lemma PlaysByR5(s: L.Link, s1: L.Link, taken: seq<L.Party>)
    requires PlaysTo(s, s1, taken)
    ensures PlaysTo(s, L.R5Step(s1), taken)
  {
    var q :| Without(q, L.R5) == taken && s1 == L.Play(s, q);
    WithoutOne(q, L.R5);
    assert (q + [L.R5])[..|q|] == q;
    assert L.Play(s, q + [L.R5]) == L.R5Step(s1);
  }

  predicate SameR5(s: L.Link, s': L.Link) {
    s'.r5 == s.r5 && s'.buf0 == s.buf0 && s'.buf1 == s.buf1
  }

  lemma OthersKeepR5(s: L.Link, a: L.Party)
    requires a != L.R5
    ensures SameR5(s, L.Move(s, a))
  {
  }

  lemma {:induction false} BatchKeepsR5(s: L.Link, batch: seq<L.Party>)
    requires L.R5 !in batch
    ensures SameR5(s, L.Play(s, batch))
  {
    if |batch| > 0 {
      BatchKeepsR5(s, batch[..|batch| - 1]);
      OthersKeepR5(L.Play(s, batch[..|batch| - 1]), batch[|batch| - 1]);
    }
  }

  /** The R5's main loop against UserTask, ProcessCmd and the interrupts: `word` and `pending` are the request
      buffer and interrupt towards the R5, `command` and `payload` its command to the PLM, `tripCounter` and
      `plm` the PLM's side. */
  class R5Link {
    var tripCounter: Word
    var plm: L.PlmTask
    var word: Word
    var written: bool
    var pending: bool
    var command: bool
    var payload: Word
    var recvDone: bool
    var errorStatus: bool
    var requestBuffer: array<Word>
    var changes: seq<L.Change>
    var batches: seq<seq<L.Party>>
    ghost var taken: seq<L.Party>

    function View(r5: L.R5Pc): L.Link
      reads this, requestBuffer
      requires requestBuffer.Length == 2
    {
      L.Link(tripCounter, plm, word, written, pending, command, payload, r5, recvDone, errorStatus,
             requestBuffer[0], requestBuffer[1], changes)
    }

    predicate Valid()
      reads this, requestBuffer
    {
      && requestBuffer.Length == 2
      && forall i :: 0 <= i < |batches| ==> L.R5 !in batches[i]
    }

    /** The R5 is in a wait that nobody will end. */
    predicate Asleep(r5: L.R5Pc)
      reads this
    {
      && batches == []
      && ((r5 == L.Wait && !errorStatus && !recvDone) || (r5 == L.AwaitAck && command))
    }

    /** All that the others do: nothing of it is ever skipped. */
    ghost function Others(): seq<L.Party>
      reads this
    {
      taken + Flat(batches)
    }

    constructor (wordInitial: Word, others: seq<seq<L.Party>>)
      requires forall i :: 0 <= i < |others| ==> L.R5 !in others[i]
      ensures Valid() && fresh(requestBuffer) && View(L.LoopTop) == R5Start(wordInitial)
      ensures batches == others && taken == []
    {
      tripCounter, plm, word, written, pending := 0, L.Ready, wordInitial, false, false;
      command, payload, recvDone, errorStatus := false, 0, false, false;
      requestBuffer := new Word[2](_ => 0);
      changes, batches, taken := [], others, [];
    }

    method Become(s: L.Link)
      requires requestBuffer.Length == 2 && s.buf0 == requestBuffer[0] && s.buf1 == requestBuffer[1]
      modifies this
      ensures requestBuffer == old(requestBuffer) && batches == old(batches) && taken == old(taken)
      ensures View(s.r5) == s
    {
      tripCounter, plm, word, written, pending := s.trip, s.plm, s.word, s.written, s.pending;
      command, payload, recvDone, errorStatus, changes := s.command, s.payload, s.recvDone, s.errorStatus, s.changes;
    }

    /** The others take the steps of the next batch while the R5 is at `r5`. */
    method Pause(ghost s0: L.Link, r5: L.R5Pc)
      requires Valid() && PlaysTo(s0, View(r5), taken)
      modifies this
      ensures Valid() && requestBuffer == old(requestBuffer) && Others() == old(Others())
      ensures PlaysTo(s0, View(r5), taken)
      ensures batches == if |old(batches)| == 0 then [] else old(batches)[1..]
    {
      if 0 < |batches| {
        var s := View(r5);
        BatchKeepsR5(s, batches[0]);
        PlaysByBatch(s0, s, batches[0], taken);
        Become(L.Play(s, batches[0]));
        TakeFirst(taken, batches);
        taken, batches := taken + batches[0], batches[1..];
      }
    }

    /** Line 79: the wait for either flag, or until the others stop moving. */
    method SpinOnFlags(ghost s0: L.Link)
      requires Valid() && PlaysTo(s0, View(L.Wait), taken)
      modifies this
      ensures Valid() && requestBuffer == old(requestBuffer) && Others() == old(Others())
      ensures |batches| <= |old(batches)| && (errorStatus || recvDone || batches == [])
      ensures PlaysTo(s0, View(L.Wait), taken)
    {
      while !errorStatus && !recvDone && 0 < |batches|
        invariant Valid() && requestBuffer == old(requestBuffer) && Others() == old(Others())
        invariant |batches| <= |old(batches)|
        invariant PlaysTo(s0, View(L.Wait), taken)
        decreases |batches|
      {
        Pause(s0, L.Wait);
      }
    }

    /** Lines 77 to 82: the flags, the wait, and the message. Both flags are cleared in one step: an interrupt
        between the two writes does what it would do before the first or after the second. */
    method WaitForMessage(ghost s0: L.Link) returns (received: bool)
      requires Valid() && PlaysTo(s0, View(L.Reset), taken)
      modifies this, requestBuffer
      ensures Valid() && requestBuffer == old(requestBuffer) && Others() == old(Others())
      ensures |batches| <= |old(batches)| && (!received ==> Asleep(L.Wait))
      ensures PlaysTo(s0, View(if received then L.Build else L.Wait), taken)
    {
      PlaysByR5(s0, View(L.Reset), taken);
      errorStatus := false;
      recvDone := false;
      Pause(s0, L.Wait);
      SpinOnFlags(s0);
      received := errorStatus || recvDone;
      if received {
        PlaysByR5(s0, View(L.Wait), taken);
        Pause(s0, L.Receive);
        TakeMessage(s0);
      }
    }

    method TakeMessage(ghost s0: L.Link)
      requires Valid() && PlaysTo(s0, View(L.Receive), taken)
      modifies requestBuffer
      ensures Valid() && PlaysTo(s0, View(L.Build), taken)
    {
      PlaysByR5(s0, View(L.Receive), taken);
      requestBuffer[0] := word;
    }

    /** The wait for the PLM to have handled the command, or until the others stop moving. */
    method SpinOnAck(ghost s0: L.Link) returns (acknowledged: bool)
      requires Valid() && PlaysTo(s0, View(L.AwaitAck), taken) && command
      modifies this
      ensures Valid() && requestBuffer == old(requestBuffer) && Others() == old(Others())
      ensures |batches| <= |old(batches)|
      ensures if acknowledged then |batches| < |old(batches)| else Asleep(L.AwaitAck)
      ensures PlaysTo(s0, View(if acknowledged then L.LoopTop else L.AwaitAck), taken)
    {
      while command && 0 < |batches|
        invariant Valid() && requestBuffer == old(requestBuffer) && Others() == old(Others())
        invariant |batches| <= |old(batches)|
        invariant PlaysTo(s0, View(L.AwaitAck), taken) && (!command ==> |batches| < |old(batches)|)
        decreases |batches|
      {
        Pause(s0, L.AwaitAck);
      }
      acknowledged := !command;
      if acknowledged {
        ghost var s := View(L.AwaitAck);
        PlaysByR5(s0, s, taken);
        assert L.R5Step(s) == View(L.LoopTop);
      }
    }

    /** Lines 102 and 103: the command and the counter in the two words of the buffer. */
    method BuildCommand(ghost s0: L.Link)
      requires Valid() && PlaysTo(s0, View(L.Build), taken)
      modifies requestBuffer
      ensures Valid() && PlaysTo(s0, View(L.Send), taken)
    {
      PlaysByR5(s0, View(L.Build), taken);
      requestBuffer[1] := Inc(requestBuffer[0]);
      requestBuffer[0] := L.COMMAND;
    }

    method TriggerCommand(ghost s0: L.Link)
      requires Valid() && PlaysTo(s0, View(L.Send), taken)
      modifies this`command, this`payload
      ensures Valid() && command && PlaysTo(s0, View(L.AwaitAck), taken)
    {
      ghost var s := View(L.Send);
      PlaysByR5(s0, s, taken);
      command, payload := true, requestBuffer[1];
      assert View(L.AwaitAck) == L.R5Step(s);
    }

    /** Lines 102 to 109: the command, sent blocking. */
    method SendCommand(ghost s0: L.Link) returns (acknowledged: bool)
      requires Valid() && PlaysTo(s0, View(L.Build), taken)
      modifies this, requestBuffer
      ensures Valid() && requestBuffer == old(requestBuffer) && Others() == old(Others())
      ensures |batches| <= |old(batches)|
      ensures if acknowledged then |batches| < |old(batches)| else Asleep(L.AwaitAck)
      ensures PlaysTo(s0, View(if acknowledged then L.LoopTop else L.AwaitAck), taken)
    {
      BuildCommand(s0);
      Pause(s0, L.Send);
      TriggerCommand(s0);
      acknowledged := SpinOnAck(s0);
    }

    /** The main loop: when it stops, the others do no more, and the R5 waits for a message or for its command. */
    method MainLoop(ghost s0: L.Link) returns (r5: L.R5Pc)
      requires Valid() && PlaysTo(s0, View(L.LoopTop), taken)
      modifies this, requestBuffer
      ensures Valid() && requestBuffer == old(requestBuffer) && Others() == old(Others())
      ensures PlaysTo(s0, View(r5), taken) && Asleep(r5)
    {
      while true
        invariant Valid() && requestBuffer == old(requestBuffer) && Others() == old(Others())
        invariant PlaysTo(s0, View(L.LoopTop), taken)
        decreases |batches|
      {
        PlaysByR5(s0, View(L.LoopTop), taken);
        if requestBuffer[0] != 0 {
          var received := WaitForMessage(s0);
          if !received {
            return L.Wait;
          }
        }
        var acknowledged := SendCommand(s0);
        if !acknowledged {
          return L.AwaitAck;
        }
      }
    }
  }

  function R5Start(word: Word): L.Link {
    L.Link(0, L.Ready, word, false, false, false, 0, L.LoopTop, false, false, 0, 0, [])
  }

  /** The R5's main loop, with no error before the first message, leaves an even counter, at most two ahead of
      the word last sent to the R5. It has taken in all that the others do, and stops only in a wait: for a
      message, or for its command to be handled. */
  method RunR5(wordInitial: Word, others: seq<seq<L.Party>>)
    returns (tripCounter: Word, sent: bool, word: Word, commands: nat)
    requires forall i :: 0 <= i < |others| ==> L.R5 !in others[i] && L.EarlyError !in others[i]
    ensures tripCounter % 2 == 0
    ensures sent ==> word == tripCounter || Inc(Inc(word)) == tripCounter
    ensures exists s ::
              && PlaysTo(R5Start(wordInitial), s, Flat(others))
              && ((s.r5 == L.Wait && !s.errorStatus && !s.recvDone) || (s.r5 == L.AwaitAck && s.command))
              && s.trip == tripCounter && s.written == sent && s.word == word && |s.changes| == commands
  {
    var link := new R5Link(wordInitial, others);
    ghost var s0 := R5Start(wordInitial);
    PlaysNowhere(s0);
    var r5 := link.MainLoop(s0);
    assert [] + Flat(others) == Flat(others);
    FirstPart(link.taken, link.batches, others);
    NotInFlat(others, L.EarlyError);
    ghost var q :| Without(q, L.R5) == Flat(others) && link.View(r5) == L.Play(s0, q);
    if L.EarlyError in q {
      InWithout(q, L.R5, L.EarlyError);
    }
    L.R5CounterNeverGoesBack(s0, q);
    tripCounter, sent, word, commands := link.tripCounter, link.written, link.word, |link.changes|;
  }
}
