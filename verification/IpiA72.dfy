/** The PLM asking the A72 over an inter-processor interrupt, the PLM_2_A72_UNIDIRECT build: UserTask of
    user_ipi_demo.c against _ipi_irq_handler of libmetal-linux-ipi-demo.c, one register or buffer access a
    step. */
module IpiA72 {
  import opened Word32

  /** MSG_PERIOD_MS / TASK_PERIOD_MS: every how many runs of UserTask a request is sent. */
  const RUNS_PER_MESSAGE := 10

  datatype PlmPc = TaskStart | Trigger | Poll | ReadResponse | TaskEnd

  datatype A72Pc = Waiting | WriteResponse | ReadStatus | ClearStatus

  /** One accepted response: the request then outstanding, the response read, and the counter after it. */
  datatype Accept = Accept(request: Word, response: Word, tripAfter: Word)

  /** `trip`, `executionCount` and `waiting` are the statics of UserTask, `request`, `response` and
      `pending` the message buffer and the interrupt bit, `enabled` whether the A72 application has
      unmasked it, `val` and `status` the handler's locals. `sent` and `accepts` are history. */
  datatype State = State(plm: PlmPc, trip: Word, executionCount: nat, waiting: bool,
                         request: Word, response: Word, pending: bool, enabled: bool,
                         a72: A72Pc, val: Word, status: bool,
                         sent: nat, accepts: seq<Accept>)

  /** Who moves next: the PLM, the A72 application starting up, its handler, or a handler run that no
      pending interrupt asked for. */
  datatype Actor = Plm | Unmask | Handler | SpuriousHandler

  predicate Init(s: State) {
    && s.plm == TaskStart && s.trip == 0 && s.executionCount == 0 && !s.waiting
    && !s.pending && !s.enabled && s.a72 == A72Pc.Waiting && s.sent == 0 && s.accepts == []
  }

  function PlmStep(s: State): State {
    match s.plm
    case TaskStart =>
      if s.executionCount % RUNS_PER_MESSAGE == 0 then s.(request := s.trip, plm := Trigger)
      else s.(plm := if s.waiting then Poll else TaskEnd)
    case Trigger =>
      s.(pending := true, waiting := true, sent := s.sent + 1, plm := Poll)
    case Poll =>
      s.(plm := if s.pending then TaskEnd else ReadResponse)
    case ReadResponse =>
      var next := Inc(s.response);
      s.(trip := next, waiting := false, plm := TaskEnd,
         accepts := s.accepts + [Accept(s.trip, s.response, next)])
    case TaskEnd =>
      s.(executionCount := s.executionCount + 1, plm := TaskStart)
  }

  /** The handler reads the request, writes the response, then reads and clears the interrupt status. */
  function HandlerStep(s: State, mayStart: bool): State {
    match s.a72
    case Waiting => if mayStart then s.(val := s.request, a72 := WriteResponse) else s
    case WriteResponse => s.(response := Inc(s.val), a72 := ReadStatus)
    case ReadStatus => s.(status := s.pending, a72 := if s.pending then ClearStatus else A72Pc.Waiting)
    case ClearStatus => s.(pending := false, a72 := A72Pc.Waiting)
  }

  function Step(s: State, a: Actor): State {
    match a
    case Plm => PlmStep(s)
    case Unmask => s.(enabled := true)
    case Handler => HandlerStep(s, s.enabled && s.pending)
    case SpuriousHandler => HandlerStep(s, s.enabled)
  }

  function Exec(s: State, schedule: seq<Actor>): State {
    if |schedule| == 0 then s
    else Step(Exec(s, schedule[..|schedule| - 1]), schedule[|schedule| - 1])
  }

  // ---------------------------------------------------------------- the invariant

  /** The counter after `n` accepted responses. */
  function AfterTrips(n: nat): Word {
    if n == 0 then 0 else Inc(Inc(AfterTrips(n - 1)))
  }

  /** An accepted response answers the outstanding request, and moves the counter on by two. */
  predicate Answers(a: Accept) {
    a.response == Inc(a.request) && a.tripAfter == Inc(Inc(a.request))
  }

  /** The request goes out before the PLM next looks for an answer. */
  predicate SendsFirst(s: State) {
    || s.plm == Trigger || s.sent == 0
    || (s.waiting && s.plm == TaskStart && s.executionCount % RUNS_PER_MESSAGE == 0)
    || (s.waiting && s.plm == TaskEnd && (s.executionCount + 1) % RUNS_PER_MESSAGE == 0)
  }

  ghost predicate Inv(s: State) {
    && s.trip == AfterTrips(|s.accepts|)
    && (forall i :: 0 <= i < |s.accepts| ==> Answers(s.accepts[i]))
    && (s.pending ==> s.waiting && s.request == s.trip)
    && (s.plm == Trigger ==> s.request == s.trip)
    && (s.plm in {Poll, ReadResponse} ==> s.waiting)
    && (s.plm == ReadResponse ==> !s.pending)
    && (s.sent == 0 ==> !s.waiting)
    && (0 < s.sent && s.plm != Trigger ==> s.trip == if s.waiting then s.request else Inc(Inc(s.request)))
    && (s.waiting && !s.pending ==> s.response == Inc(s.trip))
    && match s.a72
       case Waiting => true
       case WriteResponse => (s.pending || SendsFirst(s)) && s.val == s.trip
       case ReadStatus => (s.pending || SendsFirst(s)) && s.response == Inc(s.trip)
       case ClearStatus => s.pending && s.response == Inc(s.trip)
  }

  /** A run of the handler may start: a request is pending, or the request it reads is the one that goes out
      before the PLM next looks for an answer. */
  predicate SafeStart(s: State) {
    s.pending || (SendsFirst(s) && s.request == s.trip)
  }

  predicate StartsHandler(s: State, a: Actor) {
    a == SpuriousHandler && s.enabled && s.a72 == A72Pc.Waiting
  }

  lemma PlmSendKeeps(s: State)
    requires Inv(s) && s.plm in {TaskStart, Trigger, TaskEnd}
    ensures Inv(PlmStep(s))
  {
  }

  lemma PlmReceiveKeeps(s: State)
    requires Inv(s) && s.plm in {Poll, ReadResponse}
    ensures Inv(PlmStep(s))
  {
    if s.plm == ReadResponse {
      assert AfterTrips(|s.accepts| + 1) == Inc(Inc(AfterTrips(|s.accepts|)));
    }
  }

  lemma PlmKeeps(s: State)
    requires Inv(s)
    ensures Inv(PlmStep(s))
  {
    if s.plm in {Poll, ReadResponse} {
      PlmReceiveKeeps(s);
    } else {
      PlmSendKeeps(s);
    }
  }

  lemma StepKeeps(s: State, a: Actor)
    requires Inv(s) && (StartsHandler(s, a) ==> SafeStart(s))
    ensures Inv(Step(s, a))
  {
    if a == Plm {
      PlmKeeps(s);
    }
  }

  lemma {:induction false} AfterTripsClosedForm(n: nat)
    ensures AfterTrips(n) == (2 * n) % 0x1_0000_0000
  {
    if n > 0 {
      AfterTripsClosedForm(n - 1);
    }
  }

  /** Every handler run that no interrupt asked for starts safely. */
  predicate StartsAreSafe(s0: State, schedule: seq<Actor>) {
    forall i :: 0 <= i < |schedule| ==>
      (StartsHandler(Exec(s0, schedule[..i]), schedule[i]) ==> SafeStart(Exec(s0, schedule[..i])))
  }

  predicate AllAnswered(s: State) {
    forall i :: 0 <= i < |s.accepts| ==> Answers(s.accepts[i])
  }

  lemma {:induction false} InvAfter(s0: State, schedule: seq<Actor>)
    requires Inv(s0) && StartsAreSafe(s0, schedule)
    ensures Inv(Exec(s0, schedule))
  {
    if |schedule| > 0 {
      var n := |schedule| - 1;
      forall i | 0 <= i < n
        ensures schedule[..n][..i] == schedule[..i]
      {
      }
      assert StartsAreSafe(s0, schedule[..n]);
      InvAfter(s0, schedule[..n]);
      StepKeeps(Exec(s0, schedule[..n]), schedule[n]);
    }
  }

  /** Retransmission is harmless: in every interleaving without spurious interrupts, or whose spurious handler
      runs start safely, and however often a request was re-sent, each accepted response is the outstanding
      request plus one and adds exactly two. */
  lemma RetransmissionIsHarmless(s0: State, schedule: seq<Actor>)
    requires Init(s0) && (SpuriousHandler !in schedule || StartsAreSafe(s0, schedule))
    ensures var s := Exec(s0, schedule);
            && Inv(s) && AllAnswered(s)
            && s.trip == (2 * |s.accepts|) % 0x1_0000_0000
  {
    InvAfter(s0, schedule);
    AfterTripsClosedForm(|Exec(s0, schedule).accepts|);
  }

  // ---------------------------------------------------------------- what is sent, and that it is answered

  /** How many of the first `n` runs of UserTask have a number that is a multiple of ten. */
  function Due(n: nat): nat {
    if n == 0 then 0 else Due(n - 1) + if (n - 1) % RUNS_PER_MESSAGE == 0 then 1 else 0
  }

  /** Each run of UserTask whose number is a multiple of ten sends once. */
  predicate SentSoFar(s: State) {
    match s.plm
    case TaskStart => s.sent == Due(s.executionCount)
    case Trigger => s.executionCount % RUNS_PER_MESSAGE == 0 && s.sent == Due(s.executionCount)
    case _ => s.sent == Due(s.executionCount + 1)
  }

  lemma PlmKeepsSent(s: State)
    requires SentSoFar(s)
    ensures SentSoFar(PlmStep(s))
  {
  }

  lemma HandlerKeepsSent(s: State, mayStart: bool)
    requires SentSoFar(s)
    ensures SentSoFar(HandlerStep(s, mayStart))
  {
    var s' := HandlerStep(s, mayStart);
    assert s'.plm == s.plm && s'.sent == s.sent && s'.executionCount == s.executionCount;
  }

  lemma StepKeepsSent(s: State, a: Actor)
    requires SentSoFar(s)
    ensures SentSoFar(Step(s, a))
  {
    match a
    case Plm => PlmKeepsSent(s);
    case Unmask => assert SentSoFar(s.(enabled := true));
    case Handler => HandlerKeepsSent(s, s.enabled && s.pending);
    case SpuriousHandler => HandlerKeepsSent(s, s.enabled);
  }

  lemma {:induction false} DueClosedForm(n: nat)
    ensures Due(n) == (n + RUNS_PER_MESSAGE - 1) / RUNS_PER_MESSAGE
  {
    if n > 0 {
      DueClosedForm(n - 1);
    }
  }

  /** Over every interleaving, answered or not, and whatever the handler does: the request is sent, or sent
      again, exactly every tenth run of UserTask. */
  lemma {:induction false} SendsEveryTenthRun(s0: State, schedule: seq<Actor>)
    requires Init(s0)
    ensures SentSoFar(Exec(s0, schedule))
  {
    if |schedule| > 0 {
      SendsEveryTenthRun(s0, schedule[..|schedule| - 1]);
      StepKeepsSent(Exec(s0, schedule[..|schedule| - 1]), schedule[|schedule| - 1]);
    }
  }

  lemma SentAndServed(s: State) returns (s': State)
    requires s.plm == TaskStart && s.executionCount % RUNS_PER_MESSAGE == 0
    requires s.enabled && s.a72 == A72Pc.Waiting
    ensures s' == Exec(s, [Plm, Plm] + [Handler, Handler] + [Handler, Handler])
    ensures s' == s.(request := s.trip, response := Inc(s.trip), waiting := true, pending := false,
                     sent := s.sent + 1, val := s.trip, status := true, plm := Poll)
  {
    var s1 := Step(Step(s, Plm), Plm);
    ExecTwo(s, Plm, Plm);
    var s2 := Step(Step(s1, Handler), Handler);
    ExecTwo(s1, Handler, Handler);
    assert s2 == s1.(val := s.trip, response := Inc(s.trip), a72 := ReadStatus);
    s' := Step(Step(s2, Handler), Handler);
    ExecTwo(s2, Handler, Handler);
    ExecAppend(s, [Plm, Plm], [Handler, Handler]);
    ExecAppend(s, [Plm, Plm] + [Handler, Handler], [Handler, Handler]);
  }

  lemma AnswerAccepted(s: State) returns (s': State)
    requires s.plm == Poll && !s.pending
    ensures s' == Exec(s, [Plm, Plm] + [Plm])
    ensures s' == s.(trip := Inc(s.response), waiting := false, executionCount := s.executionCount + 1,
                     accepts := s.accepts + [Accept(s.trip, s.response, Inc(s.response))], plm := TaskStart)
  {
    var s1 := Step(Step(s, Plm), Plm);
    ExecTwo(s, Plm, Plm);
    s' := Step(s1, Plm);
    assert Exec(s1, [Plm]) == Step(Exec(s1, []), Plm) by {
      assert [Plm][..0] == [];
    }
    ExecAppend(s, [Plm, Plm], [Plm]);
  }

  /** When a run of UserTask sends and the handler serves it at once, that same run accepts the answer. */
  lemma RoundTrip(s: State) returns (s': State)
    requires s.plm == TaskStart && s.executionCount % RUNS_PER_MESSAGE == 0
    requires s.enabled && s.a72 == A72Pc.Waiting
    ensures s' == Exec(s, ([Plm, Plm] + [Handler, Handler] + [Handler, Handler]) + ([Plm, Plm] + [Plm]))
    ensures s'.accepts == s.accepts + [Accept(s.trip, Inc(s.trip), Inc(Inc(s.trip)))]
    ensures s'.trip == Inc(Inc(s.trip)) && !s'.waiting && !s'.pending
    ensures s'.plm == TaskStart && s'.executionCount == s.executionCount + 1
  {
    var s1 := SentAndServed(s);
    s' := AnswerAccepted(s1);
    ExecAppend(s, [Plm, Plm] + [Handler, Handler] + [Handler, Handler], [Plm, Plm] + [Plm]);
  }

  lemma ExecTwo(s: State, a: Actor, b: Actor)
    ensures Exec(s, [a, b]) == Step(Step(s, a), b)
  {
    assert [a, b][..1] == [a] && [a][..0] == [];
    assert Exec(s, [a]) == Step(Exec(s, []), a);
  }

  // ---------------------------------------------------------------- an unsafe start does harm

  /** The PLM's counter when it next sends a request. */
  function NextRequest(s: State): Word {
    if s.waiting && !SendsFirst(s) then Inc(Inc(s.trip)) else s.trip
  }

  /** A handler run holds a request that is not the one to be sent next. */
  predicate Stale(s: State) {
    && s.a72 == WriteResponse && s.val != NextRequest(s) && !s.pending
    && (s.plm in {Poll, ReadResponse} ==> s.waiting)
    && (s.sent == 0 ==> !s.waiting)
    && (s.waiting ==> s.response == Inc(s.trip))
  }

  /** How far the PLM is from its next trigger. */
  function ToTrigger(s: State): nat {
    var left := 10 * (RUNS_PER_MESSAGE - 1 - s.executionCount % RUNS_PER_MESSAGE);
    match s.plm
    case Trigger => 1
    case TaskStart => if s.executionCount % RUNS_PER_MESSAGE == 0 then 2 else left + 9
    case Poll => left + 5
    case ReadResponse => left + 4
    case TaskEnd => left + 3
  }

  lemma StaleStep(s: State)
    requires Stale(s) && s.plm != Trigger
    ensures Stale(PlmStep(s)) && ToTrigger(PlmStep(s)) < ToTrigger(s)
  {
  }

  lemma ExecAppend(s: State, p: seq<Actor>, q: seq<Actor>)
    ensures Exec(s, p + q) == Exec(Exec(s, p), q)
  {
    if |q| == 0 {
      assert p + q == p;
    } else {
      assert (p + q)[..|p + q| - 1] == p + q[..|q| - 1];
      ExecAppend(s, p, q[..|q| - 1]);
    }
  }

  lemma {:induction false} StaleToTrigger(s: State) returns (q: seq<Actor>)
    requires Stale(s)
    ensures var s' := Exec(s, q); Stale(s') && s'.plm == Trigger
    ensures SpuriousHandler !in q
    decreases ToTrigger(s)
  {
    q := [];
    if s.plm != Trigger {
      StaleStep(s);
      var rest := StaleToTrigger(PlmStep(s));
      q := [Plm] + rest;
      ExecAppend(s, [Plm], rest);
      assert Exec(s, [Plm]) == Step(Exec(s, []), Plm);
    }
  }

  lemma Then(s: State, q: seq<Actor>, a: Actor) returns (q': seq<Actor>)
    requires SpuriousHandler !in q && a != SpuriousHandler
    ensures Exec(s, q') == Step(Exec(s, q), a) && SpuriousHandler !in q'
  {
    q' := q + [a];
    assert q'[..|q|] == q;
  }

  /** The stale request is answered after the new one was sent, and its answer accepted. */
  lemma StaleAnswer(s: State) returns (q: seq<Actor>)
    requires Stale(s) && s.plm == Trigger
    ensures SpuriousHandler !in q && !AllAnswered(Exec(s, q))
  {
    q := Then(s, [], Plm);
    q := Then(s, q, Handler);
    q := Then(s, q, Handler);
    q := Then(s, q, Handler);
    q := Then(s, q, Plm);
    q := Then(s, q, Plm);
    assert Exec(s, q).accepts[|s.accepts|] == Accept(s.trip, Inc(s.val), Inc(Inc(s.val)));
  }

  /** A handler run that no interrupt asked for is harmless, whatever follows it but another such run, if and
      only if it starts safely. */
  lemma SpuriousStartHarmlessIff(s: State)
    requires Inv(s) && StartsHandler(s, SpuriousHandler)
    ensures (forall q :: SpuriousHandler !in q ==> AllAnswered(Exec(Step(s, SpuriousHandler), q))) <==> SafeStart(s)
  {
    var s1 := Step(s, SpuriousHandler);
    if SafeStart(s) {
      forall q | SpuriousHandler !in q
        ensures AllAnswered(Exec(s1, q))
      {
        StepKeeps(s, SpuriousHandler);
        InvAfter(s1, q);
      }
    } else {
      assert Stale(s1);
      var q1 := StaleToTrigger(s1);
      var q2 := StaleAnswer(Exec(s1, q1));
      ExecAppend(s1, q1, q2);
      assert SpuriousHandler !in q1 + q2;
    }
  }

  // ---------------------------------------------------------------- spurious interrupts at all

  predicate Only(q: seq<Actor>, allowed: set<Actor>) {
    forall i :: 0 <= i < |q| ==> q[i] in allowed
  }

  /** The interleaving `q` of allowed actors leads to `s`. */
  predicate LeadsTo(s0: State, q: seq<Actor>, s: State, allowed: set<Actor>) {
    Only(q, allowed) && Exec(s0, q) == s
  }

  lemma Walk(s0: State, q: seq<Actor>, s: State, a: Actor, allowed: set<Actor>) returns (q': seq<Actor>, s': State)
    requires LeadsTo(s0, q, s, allowed) && a in allowed
    ensures s' == Step(s, a) && LeadsTo(s0, q', s', allowed)
  {
    q', s' := q + [a], Step(s, a);
    assert q'[..|q|] == q;
  }

  /** The PLM sends a first request and the handler takes it up. */
  lemma FirstRequest(s0: State, allowed: set<Actor>) returns (q': seq<Actor>, s: State)
    requires Init(s0) && {Plm, Unmask, Handler} <= allowed
    ensures LeadsTo(s0, q', s, allowed)
    ensures s == s0.(plm := Poll, request := 0, pending := true, waiting := true, sent := 1, enabled := true)
  {
    q', s := [], s0;
    q', s := Walk(s0, q', s, Unmask, allowed);
    q', s := Walk(s0, q', s, Plm, allowed);
    q', s := Walk(s0, q', s, Plm, allowed);
  }

  lemma Answered(s0: State, q: seq<Actor>, s1: State, allowed: set<Actor>) returns (q': seq<Actor>, s: State)
    requires LeadsTo(s0, q, s1, allowed) && Handler in allowed
    requires s1.a72 == A72Pc.Waiting && s1.pending && s1.enabled
    ensures LeadsTo(s0, q', s, allowed)
    ensures s == s1.(val := s1.request, response := Inc(s1.request), status := true, pending := false)
  {
    q', s := Walk(s0, q, s1, Handler, allowed);
    q', s := Walk(s0, q', s, Handler, allowed);
    assert s == s1.(val := s1.request, response := Inc(s1.request), a72 := ReadStatus);
    q', s := Walk(s0, q', s, Handler, allowed);
    q', s := Walk(s0, q', s, Handler, allowed);
  }

  /** One round trip from the start. */
  lemma FirstTrip(s0: State, allowed: set<Actor>) returns (q': seq<Actor>, s: State)
    requires Init(s0) && {Plm, Unmask, Handler} <= allowed
    ensures LeadsTo(s0, q', s, allowed)
    ensures s.plm == TaskStart && !s.waiting && s.executionCount == 1 && !s.pending && s.enabled
    ensures s.a72 == A72Pc.Waiting && s.trip == 2 && s.request == 0 && s.sent == 1
  {
    q', s := FirstRequest(s0, allowed);
    q', s := Answered(s0, q', s, allowed);
    q', s := Walk(s0, q', s, Plm, allowed);
    q', s := Walk(s0, q', s, Plm, allowed);
    q', s := Walk(s0, q', s, Plm, allowed);
  }

  /** Spurious interrupts are what the protocol cannot stand: every accepted response answers its request in
      every interleaving if and only if handler runs without a pending interrupt are excluded. */
  lemma HarmlessIffNoSpuriousHandler(allowed: set<Actor>)
    requires {Plm, Unmask, Handler} <= allowed
    ensures (forall s0, q :: Init(s0) && Only(q, allowed) ==> AllAnswered(Exec(s0, q))) <==> SpuriousHandler !in allowed
  {
    if SpuriousHandler in allowed {
      StaleAnswerAccepted(allowed);
    } else {
      forall s0, q | Init(s0) && Only(q, allowed)
        ensures AllAnswered(Exec(s0, q))
      {
        RetransmissionIsHarmless(s0, q);
      }
    }
  }

  lemma StaleAnswerAccepted(allowed: set<Actor>)
    requires {Plm, Unmask, Handler, SpuriousHandler} <= allowed
    ensures exists s0, q :: Init(s0) && Only(q, allowed) && !AllAnswered(Exec(s0, q))
  {
    var s0 := State(TaskStart, 0, 0, false, 0, 0, false, false, A72Pc.Waiting, 0, false, 0, []);
    var calm := {Plm, Unmask, Handler};
    var q, s := FirstTrip(s0, calm);
    RetransmissionIsHarmless(s0, q);
    SpuriousStartHarmlessIff(s);
    var q2 :| SpuriousHandler !in q2 && !AllAnswered(Exec(Step(s, SpuriousHandler), q2));
    var q1 := q + [SpuriousHandler];
    assert q1[..|q|] == q;
    ExecAppend(s0, q1, q2);
    EveryActor(q1 + q2, allowed);
  }

  lemma EveryActor(q: seq<Actor>, allowed: set<Actor>)
    requires {Plm, Unmask, Handler, SpuriousHandler} <= allowed
    ensures Only(q, allowed)
  {
    assert Plm in allowed && Unmask in allowed && Handler in allowed && SpuriousHandler in allowed;
    forall i | 0 <= i < |q|
      ensures q[i] in allowed
    {
      assert q[i] == Plm || q[i] == Unmask || q[i] == Handler || q[i] == SpuriousHandler;
    }
  }
}
