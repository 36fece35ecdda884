/** Exactly when a partition's body completes, when an iteration falls back, and when the boot gets as far as the
    walk: which driver calls have to succeed, and which checks of which words. */
module FsblChecks {
  import opened Word32
  import opened FsblHeader
  import opened FsblImage
  import opened FsblPartition
  import opened FsblWalk
  import opened FsblOrder

  /** The `n` driver calls and hooks from number `from` on all succeed. */
  ghost predicate AllOk(p: Platform, from: nat, n: nat) {
    forall k :: from <= k < from + n ==> p.ok(k)
  }

  lemma AllOkSplit(p: Platform, from: nat, m: nat, n: nat)
    ensures AllOk(p, from, m + n) <==> AllOk(p, from, m) && AllOk(p, from + m, n)
  {
  }

  function MoveCalls(linear: bool, f: Flags): nat {
    if f.pl then (if linear || f.Checked() then 1 else 2)
    else if f.ps then (if !linear && f.encrypted && !f.Checked() then 2 else 1)
    else if linear then 0 else 1
  }

  function UnpackCalls(f: Flags): nat {
    (if f.encrypted && f.ps then 1 else 0) + (if f.pl then 1 else 0)
  }

  /** The driver calls and hooks of one body. */
  function BodyCalls(linear: bool, f: Flags): nat {
    (if f.pl then 2 else 0) + MoveCalls(linear, f) + (if f.checksum then 1 else 0)
    + (if f.Checked() then UnpackCalls(f) else 0)
  }

  /** The words that the checks of a body look at: of a PL or PS partition as it is on the boot device, of any
      other what is at its load address once it is copied. */
  function WordsSeen(p: Platform, ram: Ram, f: Flags, h: PartHeader): seq<Word> {
    if f.pl || f.ps then CheckedWords(p, h)
    else
      var ram' := if p.linear then ram else Poke(ram, h.loadAddr, Image(p, h, MoveWords(MoveLength(f, h))));
      ReadBus(p, ram', h.loadAddr, MoveWords(h.partitionWordLen))
  }

  // ---------------------------------------------------------------- stage by stage

  lemma MoveCompletesIff(p: Platform, s: Boot, h: PartHeader)
    ensures Move(p, s, h).Some? <==> AllOk(p, s.calls, MoveCalls(p.linear, s.flags))
    ensures Move(p, s, h).Some? ==> Move(p, s, h).value.calls == s.calls + MoveCalls(p.linear, s.flags)
  {
    AllOkOne(p, s.calls);
    AllOkOne(p, s.calls + 1);
    AllOkSplit(p, s.calls, 1, 1);
  }

  lemma AllOkOne(p: Platform, from: nat)
    ensures AllOk(p, from, 1) <==> p.ok(from)
  {
  }

  lemma VerifyCompletesIff(p: Platform, s: Boot, h: PartHeader)
    ensures var data := ReadBus(p, s.ram, StagedAt(p, s.flags, h), MoveWords(h.partitionWordLen));
            var n := if s.flags.checksum then 1 else 0;
            && (Verify(p, s, h).Some? <==>
                  AllOk(p, s.calls, n) && ChecksHold(p, s.flags.checksum, s.flags.signed, h, data))
            && (Verify(p, s, h).Some? ==> Verify(p, s, h).value.calls == s.calls + n)
  {
    AllOkOne(p, s.calls);
  }

  lemma UnpackCompletesIff(p: Platform, s: Boot, h: PartHeader)
    requires !(s.flags.pl && s.flags.ps)
    ensures Unpack(p, s, h).Some? <==> AllOk(p, s.calls, UnpackCalls(s.flags))
    ensures Unpack(p, s, h).Some? ==> Unpack(p, s, h).value.calls == s.calls + UnpackCalls(s.flags)
  {
    AllOkOne(p, s.calls);
  }

  lemma HookCompletesIff(p: Platform, s: Boot, e: Event)
    ensures var n := if s.flags.pl then 1 else 0;
            && (Hook(p, s, e).Some? <==> AllOk(p, s.calls, n))
            && (Hook(p, s, e).Some? ==> Hook(p, s, e).value.calls == s.calls + n
                                        && Hook(p, s, e).value.ram == s.ram && Hook(p, s, e).value.flags == s.flags)
  {
    AllOkOne(p, s.calls);
  }

  /** What the checks find at the place the partition was moved to. */
  lemma SeenAfterMove(p: Platform, s: Boot, h: PartHeader, s': Boot)
    requires Ready(p, s, h) && s.flags.Checked() && Move(p, s, h) == Some(s')
    ensures ReadBus(p, s'.ram, StagedAt(p, s.flags, h), MoveWords(h.partitionWordLen))
            == WordsSeen(p, s.ram, s.flags, h)
  {
    if s.flags.pl {
      MovePl(p, s, h, s');
      StagedChecks(p, s.ram, s.flags, h);
    } else if s.flags.ps {
      MovePs(p, s, h, s');
      StagedChecks(p, s.ram, s.flags, h);
    }
  }

  // ---------------------------------------------------------------- the whole body

  lemma CheckedMiddle(p: Platform, s: Boot, h: PartHeader)
    requires Ready(p, s, h) && s.flags.Checked() && Move(p, s, h).Some?
    ensures var s2, data := Move(p, s, h).value, WordsSeen(p, s.ram, s.flags, h);
            var m := if s.flags.checksum then 1 else 0;
            var n := UnpackCalls(s.flags);
            && s2.flags == s.flags
            && (Verify(p, s2, h).Some? && Unpack(p, Verify(p, s2, h).value, h).Some? <==>
                  AllOk(p, s2.calls, m + n) && ChecksHold(p, s.flags.checksum, s.flags.signed, h, data))
            && (Verify(p, s2, h).Some? && Unpack(p, Verify(p, s2, h).value, h).Some? ==>
                  Unpack(p, Verify(p, s2, h).value, h).value.calls == s2.calls + m + n)
  {
    var s2 := Move(p, s, h).value;
    MoveKeepsBook(p, s, h, s2);
    SeenAfterMove(p, s, h, s2);
    VerifyCompletesIff(p, s2, h);
    var m := if s.flags.checksum then 1 else 0;
    AllOkSplit(p, s2.calls, m, UnpackCalls(s.flags));
    if Verify(p, s2, h).Some? {
      VerifyOnlyChecks(p, s2, h, Verify(p, s2, h).value);
      UnpackCompletesIff(p, Verify(p, s2, h).value, h);
    }
  }

  /** The move, and what follows it for a partition to be checked. */
  function MovedAndUnpacked(p: Platform, s: Boot, h: PartHeader): Option<Boot> {
    var s1 :- Move(p, s, h);
    var s2 :- if s.flags.Checked() then Verify(p, s1, h) else Some(s1);
    if s.flags.Checked() then Unpack(p, s2, h) else Some(s2)
  }

  function Recorded(s: Boot, d: Done): Boot {
    if s.flags.pl then s.(programmed := s.programmed + [d])
    else if s.flags.ps then s.(loaded := s.loaded + [d])
    else s
  }

  lemma ProcessInStages(p: Platform, s: Boot, h: PartHeader)
    ensures Process(p, s, h) ==
            var s1 :- Hook(p, s, HookBefore);
            var s2 :- MovedAndUnpacked(p, s1, h);
            var s3 :- Hook(p, s2, HookAfter);
            Some(Recorded(s3, Done(h, s.flags, s.ram)))
  {
    var hooked := Hook(p, s, HookBefore);
    if hooked.Some? && Move(p, hooked.value, h).Some? {
      MoveKeepsBook(p, hooked.value, h, Move(p, hooked.value, h).value);
    }
  }

  lemma MiddleCompletesIff(p: Platform, s: Boot, h: PartHeader)
    requires Ready(p, s, h)
    ensures var n := MoveCalls(p.linear, s.flags) + (if s.flags.checksum then 1 else 0)
                     + (if s.flags.Checked() then UnpackCalls(s.flags) else 0);
            var r := MovedAndUnpacked(p, s, h);
            && (r.Some? <==>
                  AllOk(p, s.calls, n)
                  && ChecksHold(p, s.flags.checksum, s.flags.signed, h, WordsSeen(p, s.ram, s.flags, h)))
            && (r.Some? ==> r.value.calls == s.calls + n && r.value.flags == s.flags)
  {
    var m := MoveCalls(p.linear, s.flags);
    var k := (if s.flags.checksum then 1 else 0) + (if s.flags.Checked() then UnpackCalls(s.flags) else 0);
    MoveCompletesIff(p, s, h);
    AllOkSplit(p, s.calls, m, k);
    if Move(p, s, h).Some? {
      MoveKeepsBook(p, s, h, Move(p, s, h).value);
      if s.flags.Checked() {
        CheckedMiddle(p, s, h);
        MiddleKeepsFlags(p, s, h);
      }
    }
  }

  lemma MiddleKeepsFlags(p: Platform, s: Boot, h: PartHeader)
    requires s.flags.Checked() && Move(p, s, h).Some?
    ensures var r := MovedAndUnpacked(p, s, h); r.Some? ==> r.value.flags == s.flags
  {
    var s2 := Move(p, s, h).value;
    MoveKeepsBook(p, s, h, s2);
    if Verify(p, s2, h).Some? {
      var s3 := Verify(p, s2, h).value;
      VerifyOnlyChecks(p, s2, h, s3);
      if Unpack(p, s3, h).Some? {
        UnpackKeepsBook(p, s3, h, Unpack(p, s3, h).value);
      }
    }
  }

  /** A body completes if and only if all its driver calls and hooks succeed, and the checks that its flags ask
      for hold of the words they see: no other outcome of a check or a driver is ever accepted. */
  lemma ProcessCompletesIff(p: Platform, s: Boot, h: PartHeader)
    requires Ready(p, s, h)
    ensures Process(p, s, h).Some? <==>
              && AllOk(p, s.calls, BodyCalls(p.linear, s.flags))
              && ChecksHold(p, s.flags.checksum, s.flags.signed, h, WordsSeen(p, s.ram, s.flags, h))
    ensures Process(p, s, h).Some? ==> Process(p, s, h).value.calls == s.calls + BodyCalls(p.linear, s.flags)
  {
    ProcessInStages(p, s, h);
    var hook := if s.flags.pl then 1 else 0;
    var n := BodyCalls(p.linear, s.flags) - 2 * hook;
    AllOkSplit(p, s.calls, hook, n + hook);
    AllOkSplit(p, s.calls + hook, n, hook);
    HookCompletesIff(p, s, HookBefore);
    if Hook(p, s, HookBefore).Some? {
      var s1 := Hook(p, s, HookBefore).value;
      MiddleCompletesIff(p, s1, h);
      if MovedAndUnpacked(p, s1, h).Some? {
        HookCompletesIff(p, MovedAndUnpacked(p, s1, h).value, HookAfter);
      }
    }
  }
}
