/** LoadBootImage and PartitionMove as they are written: global flags and memory updated in place. Every
    method reports success exactly when its stage in module FsblImage has a result, and then has produced
    that result; on failure the caller falls back and the state no longer matters. */
module FsblBoot {
  import opened Word32
  import opened FsblHeader
  import opened FsblImage
  import opened FsblPartition
  import opened FsblChecks
  import opened FsblSound
  import opened FsblOrder
  import opened FsblIntact

  predicate Agrees(stage: Option<Boot>, ok: bool, s: Boot) {
    ok == stage.Some? && (ok ==> stage.value == s)
  }

  /** `words << WORD_LENGTH_SHIFT` in 32 bits. */
  function ByteLength(words: Word): Word {
    (4 * words) % WORD_LIMIT
  }

  lemma ByteLengthInWords(n: Word)
    ensures ByteLength(n) / 4 == MoveWords(n)
  {
    var q := n / 0x4000_0000;
    assert n == q * 0x4000_0000 + MoveWords(n);
    assert 4 * n == q * WORD_LIMIT + 4 * MoveWords(n);
  }

  // ---------------------------------------------------------------- the order of events

  /** The events added to `t` to reach `t'`. */
  function Since(t: seq<Event>, t': seq<Event>): seq<Event> {
    if t <= t' then t'[|t|..] else []
  }

  predicate AddsOnlyChecks(t: seq<Event>, t': seq<Event>) {
    t <= t' && OnlyChecks(Since(t, t'))
  }

  /** Every check the flags ask for has passed. */
  predicate AllChecked(f: Flags, events: seq<Event>) {
    && (f.checksum ==> exists j :: 0 <= j < |events| && events[j].ChecksumPassed?)
    && (f.signed ==> exists j :: 0 <= j < |events| && events[j].SignaturePassed?)
  }

  predicate Uses(e: Event) {
    e.FabricLoaded? || e.Decrypted?
  }

  /** Nothing is decrypted or programmed before every requested check has passed. */
  predicate ChecksFirst(f: Flags, events: seq<Event>) {
    forall i :: 0 <= i < |events| && Uses(events[i]) ==> AllChecked(f, events[..i])
  }

  lemma AllCheckedLater(f: Flags, events: seq<Event>, more: seq<Event>)
    requires AllChecked(f, events)
    ensures AllChecked(f, events + more)
  {
    if f.checksum {
      var j :| 0 <= j < |events| && events[j].ChecksumPassed?;
      assert (events + more)[j].ChecksumPassed?;
    }
    if f.signed {
      var j :| 0 <= j < |events| && events[j].SignaturePassed?;
      assert (events + more)[j].SignaturePassed?;
    }
  }

  lemma ChecksComeFirst(f: Flags, checks: seq<Event>, rest: seq<Event>)
    requires OnlyChecks(checks) && (rest != [] ==> AllChecked(f, checks))
    ensures ChecksFirst(f, checks + rest)
  {
    var events := checks + rest;
    forall i | 0 <= i < |events| && Uses(events[i])
      ensures AllChecked(f, events[..i])
    {
      assert events[..i] == checks + rest[..i - |checks|];
      AllCheckedLater(f, checks, rest[..i - |checks|]);
    }
  }

  lemma ChecksFirstAmong(f: Flags, before: seq<Event>, events: seq<Event>, after: seq<Event>)
    requires ChecksFirst(f, events)
    requires forall i :: 0 <= i < |before| ==> !Uses(before[i])
    requires forall i :: 0 <= i < |after| ==> !Uses(after[i])
    ensures ChecksFirst(f, before + events + after)
  {
    var all := before + events + after;
    forall i | 0 <= i < |all| && Uses(all[i])
      ensures AllChecked(f, all[..i])
    {
      var k := i - |before|;
      assert 0 <= k < |events| && all[i] == events[k];
      assert all[..i] == before + events[..k];
      AllCheckedAfter(f, before, events[..k]);
    }
  }

  /** A hook before and a hook after change nothing about that. */
  lemma ChecksStayFirst(f: Flags, t0: seq<Event>, t1: seq<Event>, t2: seq<Event>, t3: seq<Event>)
    requires t1 == t0 || t1 == t0 + [HookBefore]
    requires t3 == t2 || t3 == t2 + [HookAfter]
    requires f.Checked() ==> t1 <= t2 && ChecksFirst(f, Since(t1, t2))
    ensures f.Checked() ==> t0 <= t3 && ChecksFirst(f, Since(t0, t3))
  {
    if f.Checked() {
      var before, events, after := t1[|t0|..], Since(t1, t2), t3[|t2|..];
      assert Since(t0, t3) == before + events + after;
      ChecksFirstAmong(f, before, events, after);
    }
  }

  lemma AllCheckedAfter(f: Flags, before: seq<Event>, events: seq<Event>)
    requires AllChecked(f, events)
    ensures AllChecked(f, before + events)
  {
    if f.checksum {
      var j :| 0 <= j < |events| && events[j].ChecksumPassed?;
      assert (before + events)[|before| + j].ChecksumPassed?;
    }
    if f.signed {
      var j :| 0 <= j < |events| && events[j].SignaturePassed?;
      assert (before + events)[|before| + j].SignaturePassed?;
    }
  }

  lemma VerifiedAllChecked(p: Platform, s: Boot, h: PartHeader, s': Boot)
    requires Verify(p, s, h) == Some(s')
    ensures AllChecked(s.flags, Since(s.trace, s'.trace))
  {
    var data := ReadBus(p, s.ram, StagedAt(p, s.flags, h), MoveWords(h.partitionWordLen));
    var checksum := if s.flags.checksum then [ChecksumPassed(data)] else [];
    var signature := if s.flags.signed then [SignaturePassed(data)] else [];
    var checks := checksum + signature;
    assert s'.trace == s.trace + checks;
    assert s.flags.checksum ==> checks[0].ChecksumPassed?;
    assert s.flags.signed ==> checks[|checksum|].SignaturePassed?;
  }

  // ---------------------------------------------------------------- the program

  class Fsbl {
    const p: Platform

    var plPartitionFlag: bool
    var psPartitionFlag: bool
    var encryptedPartitionFlag: bool
    var signedPartitionFlag: bool
    var partitionChecksumFlag: bool
    var bitstreamFlag: bool
    var applicationFlag: bool

    var ram: Ram
    var calls: nat
    var execAddress: Word
    var execAddrFlag: bool
    ghost var trace: seq<Event>
    ghost var loaded: seq<Done>
    ghost var programmed: seq<Done>

    ghost function View(): Boot
      reads this
    {
      Boot(Flags(plPartitionFlag, psPartitionFlag, encryptedPartitionFlag, signedPartitionFlag,
                 partitionChecksumFlag, bitstreamFlag, applicationFlag),
           ram, calls, trace, execAddress, execAddrFlag, loaded, programmed)
    }

    /** Reset: all flags zero, memory as it happens to be. */
    constructor (platform: Platform, memory: Ram)
      ensures p == platform && View() == Reset(memory)
    {
      p := platform;
      plPartitionFlag, psPartitionFlag, encryptedPartitionFlag := false, false, false;
      signedPartitionFlag, partitionChecksumFlag, bitstreamFlag, applicationFlag := false, false, false, false;
      ram, calls, execAddress, execAddrFlag := memory, 0, 0, false;
      trace, loaded, programmed := [], [], [];
    }

    method DriverCall() returns (ok: bool)
      modifies this`calls
      ensures Agrees(Call(p, old(View())), ok, View())
    {
      ok := p.ok(calls);
      if ok {
        calls := calls + 1;
      }
    }

    /** The MoveImage of a non-linear boot device. */
    method CopyFromFlash(sourceAddr: int, loadAddr: int, byteLength: Word) returns (ok: bool)
      modifies this`ram, this`calls
      ensures ok == p.ok(old(calls))
      ensures ok ==> View() == old(View()).(calls := old(calls) + 1,
                                           ram := Poke(old(ram), loadAddr, ReadFlash(p, sourceAddr, byteLength / 4)))
    {
      ok := DriverCall();
      if ok {
        ram := Poke(ram, loadAddr, ReadFlash(p, sourceAddr, byteLength / 4));
      }
    }

    /** Without decryption the PCAP is only ever asked to copy equal lengths. */
    method TransferByPcap(src: int, dst: int, srcWords: nat, dstWords: nat, secure: bool) returns (ok: bool)
      requires secure || srcWords == dstWords
      modifies this`ram, this`calls, this`trace
      ensures Agrees(PcapDataTransfer(p, old(View()), src, dst, srcWords, dstWords, secure), ok, View())
      ensures trace == if ok && secure then old(trace) + [Decrypted(ReadBus(p, old(ram), src, srcWords), dstWords)]
                       else old(trace)
    {
      ok := DriverCall();
      if ok {
        var data := ReadBus(p, ram, src, srcWords);
        if secure {
          ram := Poke(ram, dst, Plain(p, data, dstWords));
          trace := trace + [Decrypted(data, dstWords)];
        } else {
          ram := Poke(ram, dst, data);
        }
      }
    }

    method LoadFabric(src: int, srcWords: nat, dstWords: nat) returns (ok: bool)
      modifies this`calls, this`trace
      ensures Agrees(PcapLoadPartition(p, old(View()), src, srcWords, dstWords, encryptedPartitionFlag), ok, View())
      ensures !ok ==> trace == old(trace)
    {
      ok := DriverCall();
      if ok {
        trace := trace + [FabricLoaded(ReadBus(p, ram, src, srcWords), dstWords, encryptedPartitionFlag)];
      }
    }

    method PartitionMove(h: PartHeader) returns (ok: bool)
      requires !(plPartitionFlag && psPartitionFlag)
      requires encryptedPartitionFlag <==> h.dataWordLen != h.imageWordLen
      modifies this`ram, this`calls, this`trace
      ensures Agrees(Move(p, old(View()), h), ok, View())
      ensures signedPartitionFlag || partitionChecksumFlag ==> trace == old(trace)
    {
      var sourceAddr: int := SourceOffset(p, h);
      var loadAddr: int := h.loadAddr;
      var imageWordLen, dataWordLen := h.imageWordLen, h.dataWordLen;
      var secureTransferFlag := false;
      if p.linear {
        sourceAddr := sourceAddr + p.flashBase;
      }
      if encryptedPartitionFlag {
        secureTransferFlag := true;
      }
      if signedPartitionFlag || partitionChecksumFlag {
        imageWordLen, dataWordLen := h.partitionWordLen, h.partitionWordLen;
      }
      if psPartitionFlag && (signedPartitionFlag || partitionChecksumFlag) && encryptedPartitionFlag {
        secureTransferFlag := false;
      }
      if !p.linear {
        if plPartitionFlag {
          loadAddr := p.ddrTemp;
        }
        ByteLengthInWords(imageWordLen);
        ok := CopyFromFlash(sourceAddr, loadAddr, ByteLength(imageWordLen));
        if !ok {
          return;
        }
        sourceAddr := loadAddr;
      }
      if (p.linear && plPartitionFlag && (signedPartitionFlag || partitionChecksumFlag))
         || (p.linear && psPartitionFlag) || (!p.linear && psPartitionFlag && secureTransferFlag) {
        if plPartitionFlag {
          secureTransferFlag := false;
          loadAddr := p.ddrTemp;
        }
        ok := TransferByPcap(sourceAddr, loadAddr, imageWordLen, dataWordLen, secureTransferFlag);
        if !ok {
          return;
        }
        sourceAddr := loadAddr;
      }
      if plPartitionFlag && !(signedPartitionFlag || partitionChecksumFlag) {
        ok := LoadFabric(sourceAddr, h.imageWordLen, h.dataWordLen);
        if !ok {
          return;
        }
      }
      ok := true;
    }

    method DecryptPartition(startAddr: int, dataLength: nat, imageLength: nat) returns (ok: bool)
      modifies this`ram, this`calls, this`trace
      ensures Agrees(PcapDataTransfer(p, old(View()), startAddr, startAddr, imageLength, dataLength, true), ok, View())
      ensures !ok ==> trace == old(trace)
    {
      ok := TransferByPcap(startAddr, startAddr, imageLength, dataLength, true);
    }

    /** ValidateParition and AuthenticatePartition on the staged partition. */
    method CheckPartition(h: PartHeader, partitionStartAddr: int) returns (ok: bool)
      requires partitionStartAddr == StagedAt(p, View().flags, h)
      modifies this`calls, this`trace
      ensures Agrees(Verify(p, old(View()), h), ok, View())
      ensures AddsOnlyChecks(old(trace), trace)
      ensures ok ==> ChecksHold(p, partitionChecksumFlag, signedPartitionFlag, h,
                                ReadBus(p, ram, partitionStartAddr, MoveWords(h.partitionWordLen)))
    {
      ByteLengthInWords(h.partitionWordLen);
      var data := ReadBus(p, ram, partitionStartAddr, ByteLength(h.partitionWordLen) / 4);
      if partitionChecksumFlag {
        ok := DriverCall();
        if !ok || !p.checksumMatches(data, h.checksumOffset) {
          return false;
        }
        trace := trace + [ChecksumPassed(data)];
      }
      if signedPartitionFlag {
        if !p.rsaSupport || !p.authentic(data) {
          return false;
        }
        trace := trace + [SignaturePassed(data)];
      }
      ok := true;
    }

    /** DecryptPartition for PS, the fabric for PL. */
    method UnpackPartition(h: PartHeader, partitionStartAddr: int) returns (ok: bool)
      requires partitionStartAddr == StagedAt(p, View().flags, h) && !(plPartitionFlag && psPartitionFlag)
      modifies this`ram, this`calls, this`trace
      ensures Agrees(Unpack(p, old(View()), h), ok, View())
      ensures old(trace) <= trace
    {
      if encryptedPartitionFlag && psPartitionFlag {
        ok := DecryptPartition(partitionStartAddr, h.dataWordLen, h.imageWordLen);
        if !ok {
          return;
        }
      }
      if plPartitionFlag {
        ok := LoadFabric(partitionStartAddr, h.imageWordLen, h.dataWordLen);
        if !ok {
          return;
        }
      }
      ok := true;
    }

    /** The processing after the move: checks, then decryption or the fabric. When a check fails, memory is
        as it was moved and nothing has happened but the checks that passed. */
    method CheckAndUnpack(h: PartHeader) returns (ok: bool)
      requires signedPartitionFlag || partitionChecksumFlag
      requires !(plPartitionFlag && psPartitionFlag)
      modifies this`ram, this`calls, this`trace
      ensures ok == (Verify(p, old(View()), h).Some? && Unpack(p, Verify(p, old(View()), h).value, h).Some?)
      ensures ok ==> View() == Unpack(p, Verify(p, old(View()), h).value, h).value
      ensures Verify(p, old(View()), h).None? ==> ram == old(ram) && AddsOnlyChecks(old(trace), trace)
      ensures old(trace) <= trace && ChecksFirst(View().flags, Since(old(trace), trace))
      ensures ok ==> ChecksHold(p, partitionChecksumFlag, signedPartitionFlag, h,
                                ReadBus(p, old(ram), StagedAt(p, View().flags, h), MoveWords(h.partitionWordLen)))
    {
      ghost var s0 := View();
      var partitionStartAddr: int := if plPartitionFlag then p.ddrTemp else h.loadAddr;
      ok := CheckPartition(h, partitionStartAddr);
      ghost var checked := trace;
      if ok {
        VerifiedAllChecked(p, s0, h, View());
        ok := UnpackPartition(h, partitionStartAddr);
      }
      ChecksComeFirst(s0.flags, Since(s0.trace, checked), Since(checked, trace));
      assert Since(s0.trace, trace) == Since(s0.trace, checked) + Since(checked, trace);
    }

    method UserHook(ghost e: Event) returns (ok: bool)
      modifies this`calls, this`trace
      ensures Agrees(Hook(p, old(View()), e), ok, View())
      ensures trace == if ok && plPartitionFlag then old(trace) + [e] else old(trace)
    {
      ok := true;
      if plPartitionFlag {
        ok := DriverCall();
        if ok {
          trace := trace + [e];
        }
      }
    }

    /** The move, and the processing after it for a partition to be checked. */
    method MoveAndUnpack(h: PartHeader) returns (ok: bool)
      requires !(plPartitionFlag && psPartitionFlag)
      requires encryptedPartitionFlag <==> h.dataWordLen != h.imageWordLen
      modifies this`ram, this`calls, this`trace
      ensures Agrees(MovedAndUnpacked(p, old(View()), h), ok, View())
      ensures View().flags.Checked() ==> old(trace) <= trace && ChecksFirst(View().flags, Since(old(trace), trace))
    {
      ok := PartitionMove(h);
      if ok && (signedPartitionFlag || partitionChecksumFlag) {
        ok := CheckAndUnpack(h);
      }
    }

    /** Whether the body completes or not: no checked partition reaches the fabric or is decrypted before it
        has passed the checks it asks for. */
    method ProcessPartition(h: PartHeader) returns (ok: bool)
      requires !(plPartitionFlag && psPartitionFlag)
      requires encryptedPartitionFlag <==> h.dataWordLen != h.imageWordLen
      modifies this`ram, this`calls, this`trace, this`loaded, this`programmed
      ensures Agrees(Process(p, old(View()), h), ok, View())
      ensures View().flags.Checked() ==> old(trace) <= trace && ChecksFirst(View().flags, Since(old(trace), trace))
      ensures Ready(p, old(View()), h) ==>
                (ok <==> && AllOk(p, old(calls), BodyCalls(p.linear, View().flags))
                         && ChecksHold(p, partitionChecksumFlag, signedPartitionFlag, h,
                                       WordsSeen(p, old(ram), View().flags, h)))
    {
      ghost var s0 := View();
      ProcessInStages(p, s0, h);
      if Ready(p, s0, h) {
        ProcessCompletesIff(p, s0, h);
      }
      ok := UserHook(HookBefore);
      ghost var t1 := trace;
      if ok {
        ok := MoveAndUnpack(h);
      }
      ghost var t2 := trace;
      if ok {
        ok := UserHook(HookAfter);
      }
      ChecksStayFirst(s0.flags, s0.trace, t1, t2, trace);
      if ok {
        Record(Done(h, s0.flags, s0.ram));
      }
    }

    ghost method Record(d: Done)
      modifies this`loaded, this`programmed
      ensures View() == Recorded(old(View()), d)
    {
      if plPartitionFlag {
        programmed := programmed + [d];
      } else if psPartitionFlag {
        loaded := loaded + [d];
      }
    }

    /** The load address check of the DDR build. */
    method CheckLoadAddress(h: PartHeader) returns (o: Outcome)
      ensures o == CheckLoadAddr(p, View().flags, h)
    {
      if psPartitionFlag && h.loadAddr < p.ddrStart {
        if h.loadAddr == 0 && !(signedPartitionFlag || encryptedPartitionFlag) {
          return Break;
        }
        return Fallback;
      }
      if psPartitionFlag && h.loadAddr > p.ddrEnd {
        return Fallback;
      }
      return Next;
    }

    /** The attribute flags: PL first, so that a partition marked both counts as PS. */
    method SetKindFlags(a: Attributes)
      modifies this`plPartitionFlag, this`psPartitionFlag, this`bitstreamFlag, this`applicationFlag
      ensures View() == old(View()).(flags := Attributed(old(View()).flags, a))
    {
      if a.pl {
        plPartitionFlag, psPartitionFlag, bitstreamFlag := true, false, true;
      }
      if a.ps {
        psPartitionFlag, plPartitionFlag, applicationFlag := true, false, true;
      }
    }

    method SetRequestFlags(h: PartHeader, a: Attributes)
      modifies this`encryptedPartitionFlag, this`signedPartitionFlag, this`partitionChecksumFlag
      ensures View() == old(View()).(flags := Requested(old(View()).flags, a, h))
    {
      encryptedPartitionFlag := h.dataWordLen != h.imageWordLen;
      partitionChecksumFlag := a.checksum;
      signedPartitionFlag := a.rsa;
    }

    /** The loop body once the flags are set. */
    method LoadPartition(h: PartHeader) returns (o: Outcome)
      requires !(plPartitionFlag && psPartitionFlag)
      requires encryptedPartitionFlag <==> h.dataWordLen != h.imageWordLen
      modifies this`ram, this`calls, this`trace, this`loaded, this`programmed, this`execAddrFlag, this`execAddress
      ensures o == Body(p, old(View()), h).1 && (o != Fallback ==> View() == Body(p, old(View()), h).0)
    {
      if p.encryptOnly && !encryptedPartitionFlag {
        return Fallback;
      }
      o := CheckLoadAddress(h);
      if o != Next {
        return;
      }
      if psPartitionFlag && !execAddrFlag {
        execAddrFlag := true;
        execAddress := h.execAddr;
      }
      var ok := ProcessPartition(h);
      o := if ok then Next else Fallback;
    }

    /** One iteration of the partition loop. */
    method LoopBody(h: PartHeader) returns (o: Outcome)
      requires !(plPartitionFlag && psPartitionFlag)
      modifies this
      ensures o == Step(p, old(View()), h).1 && (o != Fallback ==> View() == Step(p, old(View()), h).0)
      ensures o == Next ==> !(plPartitionFlag && psPartitionFlag)
    {
      var valid := ValidateHeader(h);
      if !valid {
        return Fallback;
      }
      var a := p.attributes(h.attr);
      if !a.ownerFsbl {
        return Next;
      }
      if a.pl && applicationFlag {
        plPartitionFlag, psPartitionFlag, bitstreamFlag := true, false, true;
        return Break;
      }
      if a.pl && p.wdtReset {
        plPartitionFlag, psPartitionFlag, bitstreamFlag := true, false, false;
        return Next;
      }
      SetKindFlags(a);
      SetRequestFlags(h, a);
      o := LoadPartition(h);
    }

    /** The loop over the partitions that the header count admits. */
    method LoadPartitions(hs: seq<PartHeader>) returns (fallback: bool)
      requires !(plPartitionFlag && psPartitionFlag)
      modifies this
      ensures fallback <==> Walk(p, old(View()), hs).1 == Fallback
      ensures !fallback ==> View() == Walk(p, old(View()), hs).0
    {
      var partitionNum := 0;
      assert hs[0..] == hs;
      while partitionNum < |hs|
        invariant partitionNum <= |hs|
        invariant !(plPartitionFlag && psPartitionFlag)
        invariant Walk(p, View(), hs[partitionNum..]) == Walk(p, old(View()), hs)
      {
        assert hs[partitionNum..][0] == hs[partitionNum] && hs[partitionNum..][1..] == hs[partitionNum + 1..];
        var o := LoopBody(hs[partitionNum]);
        if o != Next {
          return o == Fallback;
        }
        partitionNum := partitionNum + 1;
      }
      return false;
    }

    /** GetPartitionHeaderInfo: the FSBL length, the offset of the header table, and the table `hs` itself.
        `first` is 0 with MMC support, else 1. */
    method GetPartitionHeaderInfo(hs: seq<PartHeader>, first: nat) returns (ok: bool, partitionCount: nat)
      modifies this`calls
      ensures Agrees(ReadHeaders(p, old(View()), hs, first), ok, View())
      ensures ok ==> partitionCount == FirstTerminator(hs)
    {
      partitionCount := 0;
      ok := DriverCall();
      if !ok {
        return;
      }
      ok := DriverCall();
      if !ok {
        return;
      }
      ok := DriverCall();
      if !ok {
        return;
      }
      partitionCount := GetPartitionCount(hs);
      ok := !(partitionCount >= |hs| || (first == 1 && partitionCount <= 1));
    }

    method MoveToTemp(data: seq<Word>) returns (ok: bool)
      modifies this`ram, this`calls
      ensures Agrees(Stage(p, old(View()), data), ok, View())
    {
      ok := DriverCall();
      if ok {
        ram := Poke(ram, p.ddrTemp, data);
      }
    }

    method GetNAuthImageHeader(hs: seq<PartHeader>) returns (ok: bool)
      modifies this`ram, this`calls
      ensures Agrees(AuthenticateHeaders(p, old(View()), hs), ok, View())
    {
      ok := DriverCall();
      if !ok {
        return;
      }
      ok := MoveToTemp(ImageHeaders(p));
      if !ok {
        return;
      }
      ok := DriverCall();
      if !ok {
        return;
      }
      ok := MoveToTemp(HeaderSignature(p));
      if !ok {
        return;
      }
      ok := p.headersAuthentic(ImageHeaders(p), hs, HeaderSignature(p));
    }

    /** LoadBootImage over the header table `hs`. */
    method LoadBootImage(hs: seq<PartHeader>, first: nat) returns (fallback: bool, result: Word)
      requires first <= 1 && FromReset(View())
      modifies this
      ensures fallback <==>
              || Prologue(p, old(View()), hs, first).None?
              || Walk(p, Prologue(p, old(View()), hs, first).value, hs[first..FirstTerminator(hs)]).1 == Fallback
      ensures !fallback ==>
              && View() == Walk(p, Prologue(p, old(View()), hs, first).value, hs[first..FirstTerminator(hs)]).0
              && result == execAddress
    {
      ghost var s0 := View();
      bitstreamFlag, applicationFlag := false, false;
      var ok, partitionCount := GetPartitionHeaderInfo(hs, first);
      if !ok {
        return true, 0;
      }
      if p.rsaEnabled {
        if !p.rsaSupport {
          return true, 0;
        }
        ok := GetNAuthImageHeader(hs);
        if !ok {
          return true, 0;
        }
      }
      assert Prologue(p, s0, hs, first) == Some(View());
      fallback := LoadPartitions(hs[first..partitionCount]);
      result := execAddress;
    }
  }

  /** The partitions that the header count admits to the walk. */
  function Admitted(hs: seq<PartHeader>, first: nat): seq<PartHeader> {
    if first <= FirstTerminator(hs) then hs[first..FirstTerminator(hs)] else []
  }

  /** A whole boot: the handoff address and the memory are those of the walk over the partitions before the
      end marker, the partitions loaded and programmed are those the headers call for, each valid and passing
      the checks its header asks for, every application is intact, and where RSA is enabled the headers that
      led the walk were authenticated. */
  method BootFromReset(p: Platform, memory: Ram, hs: seq<PartHeader>, first: nat)
    returns (fallback: bool, handoff: Word, image: Ram)
    requires p.Valid() && first <= 1
    requires AllApart(p, Served(p, Neither, Visited(p, Neither, Admitted(hs, first)), AsPs))
    ensures !fallback ==>
              && Prologue(p, Reset(memory), hs, first).Some? && first <= FirstTerminator(hs) < |hs|
              && (p.rsaEnabled ==> p.headersAuthentic(ImageHeaders(p), hs, HeaderSignature(p)))
              && GoodBoot(p, Prologue(p, Reset(memory), hs, first).value, Admitted(hs, first), image, handoff)
  {
    var boot := new Fsbl(p, memory);
    ghost var s0 := Reset(memory);
    fallback, handoff := boot.LoadBootImage(hs, first);
    image := boot.ram;
    if !fallback {
      PrologueKeepsReset(p, s0, hs, first);
      WalkIsGood(p, Prologue(p, s0, hs, first).value, Admitted(hs, first));
    }
  }

  /** What the boot leaves behind is what the walk from `s` leaves, with its applications intact. */
  ghost predicate GoodBoot(p: Platform, s: Boot, admitted: seq<PartHeader>, image: Ram, handoff: Word) {
    var s', v := Walk(p, s, admitted).0, Visited(p, Neither, admitted);
    && image == s'.ram && handoff == s'.execAddress
    && ReturnInv(p, s')
    && Parts(s'.loaded) == Served(p, Neither, v, AsPs)
    && Parts(s'.programmed) == Served(p, Neither, v, AsPl)
    && AllSoundAs(p, s'.loaded, AsPs) && AllSoundAs(p, s'.programmed, AsPl)
  }

  lemma WalkIsGood(p: Platform, s: Boot, admitted: seq<PartHeader>)
    requires p.Valid() && FromReset(s) && Walk(p, s, admitted).1 != Fallback
    requires AllApart(p, Served(p, Neither, Visited(p, Neither, admitted), AsPs))
    ensures var s' := Walk(p, s, admitted).0; GoodBoot(p, s, admitted, s'.ram, s'.execAddress)
  {
    BootReturnsIntact(p, s, admitted);
    BootServesInOrder(p, s, admitted);
    ServedAreSound(p, s, admitted);
  }
}
