/** The walk over all partitions: the fabric is loaded once for each body completed as PL and not after an
    application, nothing is forgotten, and partitions of other owners leave no trace. */
module FsblWalk {
  import opened Word32
  import opened FsblHeader
  import opened FsblImage
  import opened FsblPartition
  import opened FsblStale

  /** Partitions that can be processed as PS: those marked PS, and those marked neither PS nor PL. */
  predicate MayLoad(p: Platform, h: PartHeader) {
    var a := p.attributes(h.attr);
    a.ownerFsbl && (a.ps || !a.pl)
  }

  /** The flags that a partition's own attributes and lengths ask for. */
  function FlagsFor(p: Platform, h: PartHeader): Flags {
    var a := p.attributes(h.attr);
    Flags(false, false, h.dataWordLen != h.imageWordLen, a.rsa, a.checksum, false, false)
  }

  /** The partitions that the loop body gets to see. */
  function Owned(p: Platform, hs: seq<PartHeader>): (r: seq<PartHeader>)
    ensures forall i :: 0 <= i < |r| ==> p.attributes(r[i].attr).ownerFsbl
    decreases |hs|
  {
    if |hs| == 0 then []
    else if p.attributes(hs[0].attr).ownerFsbl then [hs[0]] + Owned(p, hs[1..])
    else Owned(p, hs[1..])
  }

  function FabricEvents(trace: seq<Event>): seq<Event> {
    if |trace| == 0 then []
    else if trace[0].FabricLoaded? then [trace[0]] + FabricEvents(trace[1..])
    else FabricEvents(trace[1..])
  }

  /** The words a completed body decrypted, programmed or left in memory. */
  function SourceOf(p: Platform, d: Done): (w: seq<Word>)
    ensures |w| == d.part.imageWordLen
    ensures Complete(p.linear, d.flags, d.part) ==> w == Image(p, d.part, d.part.imageWordLen)
  {
    Source(p, d.before, d.flags, d.part)
  }

  function FabricsOf(p: Platform, done: seq<Done>): seq<Event> {
    seq(|done|, i requires 0 <= i < |done| => Fabric(done[i].flags, done[i].part, SourceOf(p, done[i])))
  }

  lemma {:induction false} FabricEventsAppend(a: seq<Event>, b: seq<Event>)
    ensures FabricEvents(a + b) == FabricEvents(a) + FabricEvents(b)
  {
    if |a| == 0 {
      assert a + b == b;
    } else {
      assert (a + b)[1..] == a[1..] + b;
      FabricEventsAppend(a[1..], b);
    }
  }

  lemma {:induction false} NoFabricEvents(a: seq<Event>)
    requires forall i :: 0 <= i < |a| ==> !a[i].FabricLoaded?
    ensures FabricEvents(a) == []
  {
    if |a| > 0 {
      NoFabricEvents(a[1..]);
    }
  }

  // ---------------------------------------------------------------- the invariant of the walk

  /** An application has been seen exactly when the PS flag is set, and then no partition counts as PL. */
  predicate FlagsAgree(s: Boot) {
    (s.flags.ps <==> s.flags.application) && !(s.flags.ps && s.flags.pl)
  }

  /** The body ran with the encryption and checks that its own partition asks for. */
  predicate RanAsAsked(p: Platform, d: Done) {
    var f := FlagsFor(p, d.part);
    d.flags.encrypted == f.encrypted && d.flags.checksum == f.checksum && d.flags.signed == f.signed
  }

  predicate AllAsAsked(p: Platform, done: seq<Done>) {
    forall i :: 0 <= i < |done| ==> RanAsAsked(p, done[i])
  }

  /** The fabric has been loaded once for each body completed as PL, in order, and the address to return is that
      of the first loaded partition. */
  ghost predicate BookAgrees(p: Platform, s: Boot) {
    && FabricEvents(s.trace) == FabricsOf(p, s.programmed)
    && AllAsAsked(p, s.loaded) && AllAsAsked(p, s.programmed)
    && s.execAddress == (if s.loaded != [] then s.loaded[0].part.execAddr else 0)
  }

  ghost predicate WalkInv(p: Platform, s: Boot) {
    && FlagsAgree(s) && BookAgrees(p, s)
    && (s.loaded != [] ==> s.flags.application)
    && (s.execAddrFlag <==> s.loaded != [])
  }

  lemma LoadTouchesNoFabric(p: Platform, s: Boot, h: PartHeader, s': Boot)
    requires Ready(p, s, h) && s.flags.ps && Process(p, s, h) == Some(s')
    ensures FabricEvents(s'.trace) == FabricEvents(s.trace)
  {
    PsPartitionLoaded(p, s, h, s');
    var checks, uses := ChecksPassed(p, s.flags, h), Decryption(s.flags, h, Source(p, s.ram, s.flags, h));
    NoFabricEvents(checks);
    FabricEventsAppend(s.trace, checks);
    NoFabricEvents(uses);
    FabricEventsAppend(s.trace + checks, uses);
  }

  lemma ProcessPsKeeps(p: Platform, s: Boot, s1: Boot, h: PartHeader, s': Boot)
    requires p.Valid() && WalkInv(p, s) && Ready(p, s1, h)
    requires s1.flags.ps && s1.flags.application && RanAsAsked(p, Done(h, s1.flags, s1.ram))
    requires s1 == s.(flags := s1.flags, execAddrFlag := true,
                      execAddress := if s.execAddrFlag then s.execAddress else h.execAddr)
    requires Process(p, s1, h) == Some(s')
    ensures WalkInv(p, s')
  {
    LoadTouchesNoFabric(p, s1, h, s');
    PsPartitionLoaded(p, s1, h, s');
  }

  /** Programming a PL partition adds exactly its source words to what the fabric has been loaded with. */
  lemma ProgramAddsFabric(p: Platform, s: Boot, h: PartHeader, s': Boot)
    requires Ready(p, s, h) && s.flags.pl && Process(p, s, h) == Some(s')
    ensures FabricEvents(s'.trace)
            == FabricEvents(s.trace) + [Fabric(s.flags, h, Source(p, s.ram, s.flags, h))]
  {
    PlPartitionProgrammed(p, s, h, s');
    OneFabricAmong(s.trace, [HookBefore] + ChecksPassed(p, s.flags, h),
                   Fabric(s.flags, h, Source(p, s.ram, s.flags, h)));
    assert s.trace + [HookBefore] + ChecksPassed(p, s.flags, h)
        == s.trace + ([HookBefore] + ChecksPassed(p, s.flags, h));
  }

  lemma OneFabricAmong(t: seq<Event>, before: seq<Event>, fabric: Event)
    requires fabric.FabricLoaded? && forall i :: 0 <= i < |before| ==> !before[i].FabricLoaded?
    ensures FabricEvents(t + before + [fabric] + [HookAfter]) == FabricEvents(t) + [fabric]
  {
    NoFabricEvents(before);
    FabricEventsAppend(t, before);
    OneEvent(t + before, fabric);
    OneEvent(t + before + [fabric], HookAfter);
  }

  lemma OneEvent(t: seq<Event>, e: Event)
    ensures FabricEvents(t + [e]) == FabricEvents(t) + if e.FabricLoaded? then [e] else []
  {
    FabricEventsAppend(t, [e]);
    assert [e][1..] == [];
  }

  lemma ProcessPlKeeps(p: Platform, s: Boot, s1: Boot, h: PartHeader, s': Boot)
    requires p.Valid() && WalkInv(p, s) && Ready(p, s1, h)
    requires s1.flags.pl && !s1.flags.application && RanAsAsked(p, Done(h, s1.flags, s1.ram))
    requires s1 == s.(flags := s1.flags) && s.loaded == []
    requires Process(p, s1, h) == Some(s')
    ensures WalkInv(p, s')
  {
    PlPartitionProgrammed(p, s1, h, s');
    ProgramAddsFabric(p, s1, h, s');
    var d := Done(h, s1.flags, s1.ram);
    assert FabricsOf(p, s'.programmed) == FabricsOf(p, s.programmed) + [Fabric(d.flags, d.part, SourceOf(p, d))];
  }

  lemma ProcessOtherKeeps(p: Platform, s: Boot, s1: Boot, h: PartHeader, s': Boot)
    requires WalkInv(p, s) && !s1.flags.pl && !s1.flags.ps && !s1.flags.application
    requires s1 == s.(flags := s1.flags) && s.loaded == []
    requires Process(p, s1, h) == Some(s')
    ensures WalkInv(p, s')
  {
    UnattributedPartition(p, s1, h, s');
    var checks :| s'.trace == s1.trace + checks && OnlyChecks(checks);
    NoFabricEvents(checks);
    FabricEventsAppend(s.trace, checks);
  }

  /** The state an iteration processes its partition in, if it gets that far. */
  function Prepared(p: Platform, s: Boot, h: PartHeader): Boot {
    var a := p.attributes(h.attr);
    var s1 := s.(flags := Requested(Attributed(s.flags, a), a, h));
    if s1.flags.ps && !s.execAddrFlag then s1.(execAddrFlag := true, execAddress := h.execAddr) else s1
  }

  /** Partitions that get as far: FSBL owns them, and no watchdog restart keeps them from the fabric. */
  predicate Processed(p: Platform, h: PartHeader) {
    var a := p.attributes(h.attr);
    a.ownerFsbl && !(a.pl && p.wdtReset)
  }

  /** An iteration that goes on to the next one has completed a body, or skipped its partition. */
  lemma StepIsProcess(p: Platform, s: Boot, h: PartHeader)
    requires Step(p, s, h).1 == Next
    ensures var s', a := Step(p, s, h).0, p.attributes(h.attr);
            if Processed(p, h) then
              Process(p, Prepared(p, s, h), h) == Some(s') && !(a.pl && s.flags.application)
              && CheckLoadAddr(p, Prepared(p, s, h).flags, h) == Next
            else
              s' == s.(flags := s'.flags)
              && s'.flags == if a.ownerFsbl then s.flags.(pl := true, ps := false, bitstream := false) else s.flags
  {
  }

  /** An iteration that ends the walk has changed nothing but flags. */
  lemma BreakKeeps(p: Platform, s: Boot, h: PartHeader)
    requires Step(p, s, h).1 == Break
    ensures var s' := Step(p, s, h).0; s' == s.(flags := s'.flags)
  {
  }

  lemma StepKeeps(p: Platform, s: Boot, h: PartHeader)
    requires p.Valid() && WalkInv(p, s)
    ensures var (s', o) := Step(p, s, h);
            && (o == Next ==> WalkInv(p, s'))
            && (o == Break ==> BookAgrees(p, s'))
  {
    var (s', o) := Step(p, s, h);
    if o == Next {
      StepIsProcess(p, s, h);
      if Processed(p, h) {
        var s1 := Prepared(p, s, h);
        if s1.flags.ps {
          ProcessPsKeeps(p, s, s1, h, s');
        } else if s1.flags.pl {
          ProcessPlKeeps(p, s, s1, h, s');
        } else {
          ProcessOtherKeeps(p, s, s1, h, s');
        }
      }
    } else if o == Break {
      BreakKeeps(p, s, h);
    }
  }

  /** Over any walk the fabric is loaded once for each body completed as PL, in order, and the address returned
      is that of the first partition loaded, or 0. */
  lemma {:induction false} WalkKeeps(p: Platform, s: Boot, hs: seq<PartHeader>)
    requires p.Valid() && WalkInv(p, s)
    ensures var (s', o) := Walk(p, s, hs); o != Fallback ==> BookAgrees(p, s')
    decreases |hs|
  {
    if |hs| > 0 {
      StepKeeps(p, s, hs[0]);
      if Step(p, s, hs[0]).1 == Next {
        WalkKeeps(p, Step(p, s, hs[0]).0, hs[1..]);
      }
    }
  }

  // ---------------------------------------------------------------- an application ends programming

  /** A body run as PS or as nothing leaves the fabric alone, whatever its lengths. */
  lemma NoFabricWithoutPl(p: Platform, s: Boot, h: PartHeader, s': Boot)
    requires !s.flags.pl && Process(p, s, h) == Some(s')
    ensures FabricEvents(s'.trace) == FabricEvents(s.trace)
  {
    var s2 := Move(p, s, h).value;
    MoveTouchesNoFabric(p, s, h, s2);
    if s.flags.Checked() {
      var s3 := Verify(p, s2, h).value;
      VerifyOnlyChecks(p, s2, h, s3);
      var checks :| s3.trace == s2.trace + checks && OnlyChecks(checks);
      NoFabricEvents(checks);
      FabricEventsAppend(s2.trace, checks);
      UnpackTouchesNoFabric(p, s3, h, Unpack(p, s3, h).value);
    }
  }

  lemma MoveTouchesNoFabric(p: Platform, s: Boot, h: PartHeader, s': Boot)
    requires !s.flags.pl && Move(p, s, h) == Some(s')
    ensures FabricEvents(s'.trace) == FabricEvents(s.trace) && s'.flags == s.flags
  {
    if s'.trace != s.trace {
      assert |s'.trace| == |s.trace| + 1 && s'.trace == s.trace + [s'.trace[|s.trace|]];
      OneEvent(s.trace, s'.trace[|s.trace|]);
    }
  }

  lemma UnpackTouchesNoFabric(p: Platform, s: Boot, h: PartHeader, s': Boot)
    requires !s.flags.pl && Unpack(p, s, h) == Some(s')
    ensures FabricEvents(s'.trace) == FabricEvents(s.trace)
  {
    if s'.trace != s.trace {
      OneEvent(s.trace, s'.trace[|s.trace|]);
    }
  }

  /** An application is being loaded: nothing counts as PL any more. */
  predicate InApplication(s: Boot) {
    s.flags.application && s.flags.ps && !s.flags.pl
  }

  lemma StepEndsProgramming(p: Platform, s: Boot, h: PartHeader)
    requires InApplication(s)
    ensures var (s', o) := Step(p, s, h);
            && (o != Fallback ==> FabricEvents(s'.trace) == FabricEvents(s.trace) && s'.programmed == s.programmed)
            && (o == Next ==> InApplication(s'))
  {
    var (s', o) := Step(p, s, h);
    if o == Break {
      BreakKeeps(p, s, h);
    } else if o == Next {
      StepIsProcess(p, s, h);
      if Processed(p, h) {
        BodyRecords(p, Prepared(p, s, h), h, s');
        NoFabricWithoutPl(p, Prepared(p, s, h), h, s');
      }
    }
  }

  lemma {:induction false} NoMoreProgramming(p: Platform, s: Boot, hs: seq<PartHeader>)
    requires InApplication(s)
    ensures var (s', o) := Walk(p, s, hs);
            o != Fallback ==> FabricEvents(s'.trace) == FabricEvents(s.trace) && s'.programmed == s.programmed
    decreases |hs|
  {
    if |hs| > 0 {
      StepEndsProgramming(p, s, hs[0]);
      var (s1, o) := Step(p, s, hs[0]);
      if o == Next {
        NoMoreProgramming(p, s1, hs[1..]);
      }
    }
  }

  lemma StepKeepsFlags(p: Platform, s: Boot, h: PartHeader)
    requires FlagsAgree(s) && Step(p, s, h).1 == Next
    ensures FlagsAgree(Step(p, s, h).0)
  {
    StepIsProcess(p, s, h);
    if Processed(p, h) {
      BodyRecords(p, Prepared(p, s, h), h, Step(p, s, h).0);
    }
  }

  lemma {:induction false} WalkInTwoParts(p: Platform, s: Boot, before: seq<PartHeader>, after: seq<PartHeader>)
    requires FlagsAgree(s) && Walk(p, s, before).1 == Next
    ensures Walk(p, s, before + after) == Walk(p, Walk(p, s, before).0, after)
    ensures FlagsAgree(Walk(p, s, before).0)
    decreases |before|
  {
    if |before| == 0 {
      assert before + after == after;
    } else {
      StepKeepsFlags(p, s, before[0]);
      assert (before + after)[1..] == before[1..] + after;
      WalkInTwoParts(p, Step(p, s, before[0]).0, before[1..], after);
    }
  }

  /** Once the walk has seen an application, no later partition reaches the fabric, whatever its kind, lengths
      and attributes and however many there are. */
  lemma ApplicationEndsProgramming(p: Platform, s: Boot, before: seq<PartHeader>, after: seq<PartHeader>)
    requires FromReset(s) && Walk(p, s, before).1 == Next && Walk(p, s, before).0.flags.application
    ensures var (s', o) := Walk(p, s, before + after);
            o != Fallback ==> FabricEvents(s'.trace) == FabricEvents(Walk(p, s, before).0.trace)
  {
    WalkInTwoParts(p, s, before, after);
    NoMoreProgramming(p, Walk(p, s, before).0, after);
  }

  // ---------------------------------------------------------------- nothing is forgotten

  /** What a partition's own attributes ask for. */
  predicate AskedToLoad(p: Platform, h: PartHeader) {
    p.attributes(h.attr).ownerFsbl && p.attributes(h.attr).ps
  }

  predicate AskedToProgram(p: Platform, h: PartHeader) {
    p.attributes(h.attr).ownerFsbl && p.attributes(h.attr).pl && !p.attributes(h.attr).ps
  }

  predicate Has(done: seq<Done>, h: PartHeader) {
    exists i :: 0 <= i < |done| && done[i].part == h
  }

  lemma HasStill(done: seq<Done>, more: seq<Done>, h: PartHeader)
    requires Has(done, h) && done <= more
    ensures Has(more, h)
  {
    var i :| 0 <= i < |done| && done[i].part == h;
    assert more[i].part == h;
  }

  lemma StepServes(p: Platform, s: Boot, h: PartHeader)
    requires Step(p, s, h).1 == Next
    ensures var s', a := Step(p, s, h).0, p.attributes(h.attr);
            && s.loaded <= s'.loaded && s.programmed <= s'.programmed
            && (AskedToLoad(p, h) && !(p.wdtReset && a.pl) ==> Has(s'.loaded, h))
            && (AskedToProgram(p, h) && !p.wdtReset ==> Has(s'.programmed, h))
  {
    var s' := Step(p, s, h).0;
    StepIsProcess(p, s, h);
    if Processed(p, h) {
      var s1 := Prepared(p, s, h);
      BodyRecords(p, s1, h, s');
      if s1.flags.pl {
        assert s'.programmed[|s.programmed|].part == h;
      } else if s1.flags.ps {
        assert s'.loaded[|s.loaded|].part == h;
      }
    }
  }

  /** If the walk reaches the end of the list, every partition that FSBL owns was served: the PS ones loaded,
      and the others marked PL programmed unless a watchdog restart leaves the fabric alone. */
  lemma {:induction false} NothingIsForgotten(p: Platform, s: Boot, hs: seq<PartHeader>)
    ensures var (s', o) := Walk(p, s, hs);
            o == Next ==>
              && s.loaded <= s'.loaded && s.programmed <= s'.programmed
              && (forall h :: h in hs && AskedToLoad(p, h) && !(p.wdtReset && p.attributes(h.attr).pl)
                    ==> Has(s'.loaded, h))
              && (forall h :: h in hs && AskedToProgram(p, h) && !p.wdtReset ==> Has(s'.programmed, h))
    decreases |hs|
  {
    if |hs| > 0 && Step(p, s, hs[0]).1 == Next && Walk(p, s, hs).1 == Next {
      StepServes(p, s, hs[0]);
      var s1, s' := Step(p, s, hs[0]).0, Walk(p, s, hs).0;
      NothingIsForgotten(p, s1, hs[1..]);
      assert forall h :: h in hs ==> h == hs[0] || h in hs[1..];
      if Has(s1.loaded, hs[0]) {
        HasStill(s1.loaded, s'.loaded, hs[0]);
      }
      if Has(s1.programmed, hs[0]) {
        HasStill(s1.programmed, s'.programmed, hs[0]);
      }
    }
  }

  // ---------------------------------------------------------------- no fallback without a reason

  lemma StepFlags(p: Platform, s: Boot, h: PartHeader)
    requires s.flags.ps ==> s.flags.application
    requires Step(p, s, h).1 == Next
    ensures var s' := Step(p, s, h).0; s'.flags.ps ==> s'.flags.application
  {
    StepIsProcess(p, s, h);
    if Processed(p, h) {
      BodyRecords(p, Prepared(p, s, h), h, Step(p, s, h).0);
    }
  }

  lemma GoodStepNeverFallsBack(p: Platform, s: Boot, h: PartHeader)
    requires Faultless(p) && HeaderValid(h) && (MayLoad(p, h) ==> p.ddrStart <= h.loadAddr <= p.ddrEnd)
    requires s.flags.ps ==> s.flags.application
    ensures Step(p, s, h).1 != Fallback
  {
    var a := p.attributes(h.attr);
    var s1 := s.(flags := Requested(Attributed(s.flags, a), a, h));
    FaultlessProcess(p, s1, h);
    FaultlessProcess(p, s1.(execAddrFlag := true, execAddress := h.execAddr), h);
  }

  /** A boot falls back only for a reason: with every driver working, every check passing, valid headers and
      PS load addresses in DDR it never does, whatever the attributes and the device. */
  lemma {:induction false} GoodImageNeverFallsBack(p: Platform, s: Boot, hs: seq<PartHeader>)
    requires Faultless(p)
    requires forall h :: h in hs ==> HeaderValid(h) && (MayLoad(p, h) ==> p.ddrStart <= h.loadAddr <= p.ddrEnd)
    requires s.flags.ps ==> s.flags.application
    ensures Walk(p, s, hs).1 != Fallback
    decreases |hs|
  {
    if |hs| > 0 {
      assert hs[0] in hs;
      GoodStepNeverFallsBack(p, s, hs[0]);
      if Step(p, s, hs[0]).1 == Next {
        StepFlags(p, s, hs[0]);
      }
      GoodImageNeverFallsBack(p, Step(p, s, hs[0]).0, hs[1..]);
    }
  }

  // ---------------------------------------------------------------- partitions of other owners

  /** Walking the list is walking the partitions FSBL owns, if all headers validate. */
  lemma {:induction false} SkippedPartitionsAreInvisible(p: Platform, s: Boot, hs: seq<PartHeader>)
    requires forall i :: 0 <= i < |hs| ==> HeaderValid(hs[i])
    ensures Walk(p, s, hs) == Walk(p, s, Owned(p, hs))
    decreases |hs|
  {
    if |hs| > 0 {
      var rest := hs[1..];
      if p.attributes(hs[0].attr).ownerFsbl {
        var (s1, o) := Step(p, s, hs[0]);
        assert ([hs[0]] + Owned(p, rest))[1..] == Owned(p, rest);
        SkippedPartitionsAreInvisible(p, s1, rest);
      } else {
        SkippedPartitionsAreInvisible(p, s, rest);
      }
    }
  }
}
