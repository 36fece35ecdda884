/** The trip counter between the PLM and the R5: UserTask and ProcessCmd of user_ipi_demo.c against the
    main loop of xilmailbox_example.c, one buffer, flag or interrupt access a step. The PLM runs each task
    to completion, so a command is never handled between its write of a request and the trigger. */
module IpiR5 {
  import opened Word32
  import opened IpiA72

  /** XPLMI_MODULE_USER_ID << 8 | XUSER_R5. */
  const COMMAND: Word := 0xD00

  datatype PlmTask = Ready | TriggerR5

  datatype R5Pc = LoopTop | Reset | Wait | Receive | Build | Send | AwaitAck

  /** The effect of one R5 command on TripCounter[XUSER_R5]. */
  datatype Change = Change(before: Word, after: Word)

  /** `trip` is TripCounter[XUSER_R5], `word` the request word the PLM writes for the R5, `written` whether
      it has been written at all, `pending` the R5's interrupt bit; `command` and `payload` the request of the
      R5 in the PLM's buffer; `recvDone`, `errorStatus`, `buf0` and `buf1` the R5's variables. `changes` is
      history. */
  datatype Link = Link(trip: Word, plm: PlmTask, word: Word, written: bool, pending: bool,
                       command: bool, payload: Word,
                       r5: R5Pc, recvDone: bool, errorStatus: bool, buf0: Word, buf1: Word,
                       changes: seq<Change>)

  /** Who moves next: the PLM's periodic task, its command handling, the R5's main loop, the R5's receive
      interrupt, an error callback after the first message, or one before it. */
  datatype Party = Periodic | HandleCommand | R5 | ReceiveInterrupt | ErrorInterrupt | EarlyError

  /** Both sides after start-up; the message buffer holds an arbitrary word. */
  predicate Start(s: Link) {
    && s.trip == 0 && s.plm == Ready && !s.written && !s.pending && !s.command
    && s.r5 == LoopTop && !s.recvDone && !s.errorStatus && s.buf0 == 0 && s.changes == []
  }

  function R5Step(s: Link): Link {
    match s.r5
    case LoopTop => s.(r5 := if s.buf0 != 0 then Reset else Build)
    case Reset => s.(errorStatus := false, recvDone := false, r5 := Wait)
    case Wait => if s.recvDone || s.errorStatus then s.(r5 := Receive) else s
    case Receive => s.(buf0 := s.word, r5 := Build)
    case Build => s.(buf1 := Inc(s.buf0), buf0 := COMMAND, r5 := Send)
    case Send => s.(command := true, payload := s.buf1, r5 := AwaitAck)
    case AwaitAck => if s.command then s else s.(r5 := LoopTop)
  }

  function Move(s: Link, a: Party): Link {
    match a
    case Periodic =>
      if s.plm == Ready then s.(word := s.trip, written := true, plm := TriggerR5)
      else s.(pending := true, plm := Ready)
    case HandleCommand =>
      if s.command && s.plm == Ready then
        s.(trip := Inc(s.payload), command := false, changes := s.changes + [Change(s.trip, Inc(s.payload))])
      else s
    case R5 => R5Step(s)
    case ReceiveInterrupt => if s.pending then s.(pending := false, recvDone := true) else s
    case ErrorInterrupt => if s.written then s.(errorStatus := true) else s
    case EarlyError => s.(errorStatus := true)
  }

  function Play(s: Link, schedule: seq<Party>): Link {
    if |schedule| == 0 then s
    else Move(Play(s, schedule[..|schedule| - 1]), schedule[|schedule| - 1])
  }

  // ---------------------------------------------------------------- the invariant

  predicate KeepsOrAddsTwo(c: Change) {
    c.after == c.before || c.after == Inc(Inc(c.before))
  }

  /** How many commands moved the counter on. */
  function Advances(changes: seq<Change>): nat {
    if |changes| == 0 then 0
    else Advances(changes[..|changes| - 1]) +
         (if changes[|changes| - 1].after == changes[|changes| - 1].before then 0 else 1)
  }

  predicate WordFits(s: Link) {
    s.word == s.trip || Inc(Inc(s.word)) == s.trip
  }

  /** The request word, once written, is the counter or two behind it. */
  predicate WordFollows(s: Link) {
    s.written ==> WordFits(s)
  }

  /** An error callback does no harm: the R5 is not waiting, or what it would read is a word that could have
      been sent to it. */
  predicate SafeError(s: Link) {
    s.r5 != Wait || WordFits(s)
  }

  /** A counter value that the R5 has taken up and the PLM has not yet seen again. */
  predicate Held(s: Link, v: Word) {
    || (v == s.trip && (s.written ==> s.word == s.trip))
    || Inc(Inc(v)) == s.trip
  }

  predicate HeldNext(s: Link, w: Word) {
    || (w == Inc(s.trip) && (s.written ==> s.word == s.trip))
    || Inc(w) == s.trip
  }

  ghost predicate LinkInv(s: Link) {
    && s.trip == AfterTrips(Advances(s.changes))
    && (forall i :: 0 <= i < |s.changes| ==> KeepsOrAddsTwo(s.changes[i]))
    && WordFollows(s)
    && (s.pending || s.recvDone || s.plm == TriggerR5 ==> s.written)
    && (s.r5 == Receive || (s.errorStatus && s.r5 == Wait) ==> WordFits(s))
    && (s.plm == TriggerR5 ==> s.word == s.trip)
    && (s.command ==> s.r5 == AwaitAck && HeldNext(s, s.payload))
    && match s.r5
       case LoopTop => s.buf0 == COMMAND || (s.buf0 == 0 && s.trip == 0 && Held(s, 0))
       case Build => Held(s, s.buf0)
       case Send => HeldNext(s, s.buf1) && s.buf0 == COMMAND
       case _ => s.buf0 == COMMAND
  }

  lemma CommandKeeps(s: Link)
    requires LinkInv(s) && s.command && s.plm == Ready
    ensures LinkInv(Move(s, HandleCommand))
  {
    var s' := Move(s, HandleCommand);
    assert s'.changes[..|s'.changes| - 1] == s.changes;
    var n := Advances(s.changes);
    assert AfterTrips(n + 1) == Inc(Inc(AfterTrips(n)));
  }

  lemma R5Keeps(s: Link)
    requires LinkInv(s)
    ensures LinkInv(R5Step(s))
  {
  }

  lemma MoveKeeps(s: Link, a: Party)
    requires LinkInv(s) && (a == EarlyError ==> SafeError(s))
    ensures LinkInv(Move(s, a))
  {
    match a
    case HandleCommand =>
      if s.command && s.plm == Ready {
        CommandKeeps(s);
      }
    case R5 => R5Keeps(s);
    case _ =>
  }

  predicate ErrorsAreSafe(s0: Link, schedule: seq<Party>) {
    forall i :: 0 <= i < |schedule| ==> (schedule[i] == EarlyError ==> SafeError(Play(s0, schedule[..i])))
  }

  predicate NeverBack(s: Link) {
    forall i :: 0 <= i < |s.changes| ==> KeepsOrAddsTwo(s.changes[i])
  }

  lemma {:induction false} InvAfter(s0: Link, schedule: seq<Party>)
    requires LinkInv(s0) && ErrorsAreSafe(s0, schedule)
    ensures LinkInv(Play(s0, schedule))
  {
    if |schedule| > 0 {
      var n := |schedule| - 1;
      forall i | 0 <= i < n
        ensures schedule[..n][..i] == schedule[..i]
      {
      }
      assert ErrorsAreSafe(s0, schedule[..n]);
      InvAfter(s0, schedule[..n]);
      MoveKeeps(Play(s0, schedule[..n]), schedule[n]);
    }
  }

  /** The R5's counter never goes backwards: under any timing of periodic sends, overwritten requests and
      lost wake-ups, with no error callback before the first message or only safe ones, the request word once
      written is the counter or two less, every command keeps the counter or adds two, and the counter is
      twice the number of commands that moved it, so it stays even. */
  lemma R5CounterNeverGoesBack(s0: Link, schedule: seq<Party>)
    requires Start(s0) && (EarlyError !in schedule || ErrorsAreSafe(s0, schedule))
    ensures var s := Play(s0, schedule);
            && LinkInv(s) && WordFollows(s) && NeverBack(s)
            && s.trip == (2 * Advances(s.changes)) % 0x1_0000_0000
            && s.trip % 2 == 0
  {
    InvAfter(s0, schedule);
    AfterTripsClosedForm(Advances(Play(s0, schedule).changes));
    TripIsEven(Advances(Play(s0, schedule).changes));
  }

  lemma {:induction false} TripIsEven(n: nat)
    ensures AfterTrips(n) % 2 == 0
  {
    if n > 0 {
      TripIsEven(n - 1);
    }
  }

  // ---------------------------------------------------------------- one command for one interrupt

  predicate IsInterrupt(a: Party) {
    a in {ReceiveInterrupt, ErrorInterrupt, EarlyError}
  }

  function Interrupts(schedule: seq<Party>): nat {
    if |schedule| == 0 then 0
    else Interrupts(schedule[..|schedule| - 1]) + (if IsInterrupt(schedule[|schedule| - 1]) then 1 else 0)
  }

  /** The commands handled, and one more if the R5 is on its way to send one. */
  function Commands(s: Link): nat {
    |s.changes|
    + (if s.command || s.r5 in {Receive, Build, Send} || (s.r5 == Wait && (s.recvDone || s.errorStatus))
          || (s.r5 == LoopTop && s.buf0 == 0) then 1 else 0)
  }

  /** A command is outstanding only while the R5 waits for it, and after the first the buffer holds one. */
  predicate OneAtATime(s: Link) {
    && (s.command ==> s.r5 == AwaitAck)
    && (s.r5 in {Send, AwaitAck, Reset, Wait} ==> s.buf0 == COMMAND)
    && (s.r5 == LoopTop ==> s.buf0 in {0, COMMAND})
  }

  lemma MoveAddsNoCommand(s: Link, a: Party)
    requires OneAtATime(s)
    ensures var s' := Move(s, a);
            OneAtATime(s') && Commands(s') <= Commands(s) + (if IsInterrupt(a) then 1 else 0)
  {
  }

  /** Over every timing, errors included: the R5 sends its first command unasked, and then no more commands than
      there were interrupts. Each is waited for afresh. */
  lemma {:induction false} CommandsNeedInterrupts(s0: Link, schedule: seq<Party>)
    requires Start(s0)
    ensures var s := Play(s0, schedule);
            OneAtATime(s) && |s.changes| <= Commands(s) <= 1 + Interrupts(schedule)
  {
    if |schedule| > 0 {
      var n := |schedule| - 1;
      CommandsNeedInterrupts(s0, schedule[..n]);
      MoveAddsNoCommand(Play(s0, schedule[..n]), schedule[n]);
    }
  }

  lemma PlayTwo(s: Link, a: Party, b: Party)
    ensures Play(s, [a, b]) == Move(Move(s, a), b)
  {
    assert [a, b][..1] == [a] && [a][..0] == [];
    assert Play(s, [a]) == Move(Play(s, []), a);
  }

  /** When the PLM writes and triggers a request and the R5 waits for it, the R5 sends it back two further. */
  lemma R5RoundTrip(s: Link) returns (s': Link)
    requires s.r5 == Wait && s.plm == Ready && !s.command && !s.recvDone && !s.errorStatus
    ensures s' == Play(s, [Periodic, Periodic] + [ReceiveInterrupt, R5] + [R5, R5] + [R5, HandleCommand])
    ensures s'.trip == Inc(Inc(s.trip)) && s'.word == s.trip && !s'.pending && !s'.command
    ensures s'.changes == s.changes + [Change(s.trip, Inc(Inc(s.trip)))]
  {
    var s1 := Move(Move(s, Periodic), Periodic);
    var s2 := Move(Move(s1, ReceiveInterrupt), R5);
    var s3 := Move(Move(s2, R5), R5);
    s' := Move(Move(s3, R5), HandleCommand);
    assert s1 == s.(word := s.trip, written := true, pending := true);
    assert s2 == s1.(pending := false, recvDone := true, r5 := Receive);
    assert s3 == s2.(buf0 := COMMAND, buf1 := Inc(s.trip), r5 := Send);
    PlayTwo(s, Periodic, Periodic);
    PlayTwo(s1, ReceiveInterrupt, R5);
    PlayTwo(s2, R5, R5);
    PlayTwo(s3, R5, HandleCommand);
    PlayAppend(s, [Periodic, Periodic], [ReceiveInterrupt, R5]);
    PlayAppend(s, [Periodic, Periodic] + [ReceiveInterrupt, R5], [R5, R5]);
    PlayAppend(s, [Periodic, Periodic] + [ReceiveInterrupt, R5] + [R5, R5], [R5, HandleCommand]);
  }

  // ---------------------------------------------------------------- an unsafe error does harm

  lemma PlayAppend(s: Link, p: seq<Party>, q: seq<Party>)
    ensures Play(s, p + q) == Play(Play(s, p), q)
  {
    if |q| == 0 {
      assert p + q == p;
    } else {
      assert (p + q)[..|p + q| - 1] == p + q[..|q| - 1];
      PlayAppend(s, p, q[..|q| - 1]);
    }
  }

  lemma Then(s: Link, q: seq<Party>, a: Party) returns (q': seq<Party>)
    requires EarlyError !in q && a != EarlyError
    ensures Play(s, q') == Move(Play(s, q), a) && EarlyError !in q'
  {
    q' := q + [a];
    assert q'[..|q|] == q;
  }

  /** The R5 echoes whatever the buffer held. */
  lemma EchoOfGarbage(s: Link) returns (q: seq<Party>)
    requires s.r5 == Wait && s.errorStatus && s.plm == Ready && !s.command && !WordFits(s)
    ensures EarlyError !in q && !NeverBack(Play(s, q))
  {
    q := Then(s, [], R5);
    q := Then(s, q, R5);
    q := Then(s, q, R5);
    assert Play(s, q).buf1 == Inc(s.word) && Play(s, q).r5 == Send;
    q := Then(s, q, R5);
    q := Then(s, q, HandleCommand);
    assert Play(s, q).changes[|s.changes|] == Change(s.trip, Inc(Inc(s.word)));
  }

  /** An error callback at any moment is harmless, whatever follows it but another early one, if and only if it
      is safe: after the first message it always is. */
  lemma ErrorHarmlessIff(s: Link)
    requires LinkInv(s)
    ensures (forall q :: EarlyError !in q ==> NeverBack(Play(Move(s, EarlyError), q))) <==> SafeError(s)
    ensures s.written ==> SafeError(s)
  {
    var s1 := Move(s, EarlyError);
    if SafeError(s) {
      forall q | EarlyError !in q
        ensures NeverBack(Play(s1, q))
      {
        MoveKeeps(s, EarlyError);
        InvAfter(s1, q);
      }
    } else {
      var q := EchoOfGarbage(s1);
    }
  }

  // ---------------------------------------------------------------- early errors at all

  predicate Only(q: seq<Party>, allowed: set<Party>) {
    forall i :: 0 <= i < |q| ==> q[i] in allowed
  }

  /** The R5's first command, sent without waiting. */
  lemma FirstCommand(s0: Link) returns (q: seq<Party>)
    requires Start(s0)
    ensures EarlyError !in q
    ensures var s := Play(s0, q);
            s.r5 == AwaitAck && !s.command && s.buf0 == COMMAND && s.word == s0.word && s.trip == 2
  {
    q := Then(s0, [], R5);
    q := Then(s0, q, R5);
    q := Then(s0, q, R5);
    q := Then(s0, q, HandleCommand);
  }

  /** And then the wait for a message that has not come. */
  lemma FirstWait(s0: Link) returns (q: seq<Party>)
    requires Start(s0)
    ensures EarlyError !in q
    ensures var s := Play(s0, q); s.r5 == Wait && s.word == s0.word && s.trip == 2
  {
    q := FirstCommand(s0);
    q := Then(s0, q, R5);
    q := Then(s0, q, R5);
    q := Then(s0, q, R5);
  }

  /** Every R5 command keeps the counter or adds two, in every interleaving and from every buffer content,
      if and only if error callbacks before the first message are excluded. */
  lemma MonotoneIffNoEarlyError(allowed: set<Party>)
    requires {Periodic, HandleCommand, R5, ReceiveInterrupt, ErrorInterrupt} <= allowed
    ensures (forall s0, q :: Start(s0) && Only(q, allowed) ==> NeverBack(Play(s0, q))) <==> EarlyError !in allowed
  {
    if EarlyError in allowed {
      var s0 := Link(0, Ready, 5, false, false, false, 0, LoopTop, false, false, 0, 0, []);
      var q := FirstWait(s0);
      R5CounterNeverGoesBack(s0, q);
      ErrorHarmlessIff(Play(s0, q));
      var q2 :| EarlyError !in q2 && !NeverBack(Play(Move(Play(s0, q), EarlyError), q2));
      var q1 := q + [EarlyError];
      assert q1[..|q|] == q;
      PlayAppend(s0, q1, q2);
      EveryParty(q1 + q2, allowed);
    } else {
      forall s0, q | Start(s0) && Only(q, allowed)
        ensures NeverBack(Play(s0, q))
      {
        R5CounterNeverGoesBack(s0, q);
      }
    }
  }

  lemma EveryParty(q: seq<Party>, allowed: set<Party>)
    requires {Periodic, HandleCommand, R5, ReceiveInterrupt, ErrorInterrupt, EarlyError} <= allowed
    ensures Only(q, allowed)
  {
    assert Periodic in allowed && HandleCommand in allowed && R5 in allowed;
    assert ReceiveInterrupt in allowed && ErrorInterrupt in allowed && EarlyError in allowed;
    forall i | 0 <= i < |q|
      ensures q[i] in allowed
    {
      match q[i]
      case Periodic =>
      case HandleCommand =>
      case R5 =>
      case ReceiveInterrupt =>
      case ErrorInterrupt =>
      case EarlyError =>
    }
  }
}
