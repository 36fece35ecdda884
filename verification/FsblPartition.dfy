/** One partition through the loop body: whatever the boot device and the attributes, the same data ends up
    in memory or in the fabric, after the same checks. */
module FsblPartition {
  import opened Word32
  import opened FsblHeader
  import opened FsblImage

  /** How many words PartitionMove copies. A length in words goes to the PCAP as it is, and to MoveImage in
      bytes, which loses its top two bits. */
  function Copied(linear: bool, f: Flags, h: PartHeader): nat {
    if linear then MoveLength(f, h) else MoveWords(MoveLength(f, h))
  }

  /** The copy contains the image. */
  predicate Complete(linear: bool, f: Flags, h: PartHeader) {
    h.imageWordLen <= Copied(linear, f, h)
  }

  /** The ImageWordLen words that are left in memory, decrypted or programmed. Past the copy, they are what the
      memory held at the place it was copied to. */
  function Source(p: Platform, ram: Ram, f: Flags, h: PartHeader): (w: seq<Word>)
    ensures |w| == h.imageWordLen
    ensures Complete(p.linear, f, h) ==> w == Image(p, h, h.imageWordLen)
  {
    var n, m: nat := Copied(p.linear, f, h), h.imageWordLen;
    if m <= n then Image(p, h, m) else Image(p, h, n) + ReadRam(p, ram, StagedAt(p, f, h) + 4 * n, m - n)
  }

  function PlaintextOf(p: Platform, h: PartHeader, source: seq<Word>): (w: seq<Word>)
    requires |source| == h.imageWordLen
    ensures |w| == h.dataWordLen
  {
    if h.dataWordLen != h.imageWordLen then Plain(p, source, h.dataWordLen) else source
  }

  /** What a PS partition should leave at its load address. */
  function Plaintext(p: Platform, h: PartHeader): (w: seq<Word>)
    ensures |w| == h.dataWordLen
  {
    PlaintextOf(p, h, Image(p, h, h.imageWordLen))
  }

  /** The words that the checks look at: the byte length they get has lost its top two bits too. */
  function CheckedWords(p: Platform, h: PartHeader): (w: seq<Word>)
    ensures |w| == MoveWords(h.partitionWordLen)
  {
    Image(p, h, MoveWords(h.partitionWordLen))
  }

  /** The checks the attributes request, each passed by the partition as it is on the boot device. */
  function ChecksPassed(p: Platform, f: Flags, h: PartHeader): seq<Event> {
    (if f.checksum then [ChecksumPassed(CheckedWords(p, h))] else [])
    + (if f.signed then [SignaturePassed(CheckedWords(p, h))] else [])
  }

  /** The checks asked for: the checksum stored in the image matches, and RSA is built in and the signature is
      authentic. */
  predicate ChecksHold(p: Platform, checksum: bool, signed: bool, h: PartHeader, data: seq<Word>) {
    && (checksum ==> p.checksumMatches(data, h.checksumOffset))
    && (signed ==> p.rsaSupport && p.authentic(data))
  }

  function Decryption(f: Flags, h: PartHeader, source: seq<Word>): seq<Event> {
    if f.encrypted then [Decrypted(source, h.dataWordLen)] else []
  }

  function Fabric(f: Flags, h: PartHeader, source: seq<Word>): Event {
    FabricLoaded(source, h.dataWordLen, f.encrypted)
  }

  /** The flags a body runs with: not both PL and PS, and the encryption flag read off the lengths. */
  predicate Ready(p: Platform, s: Boot, h: PartHeader) {
    && p.Valid()
    && !(s.flags.pl && s.flags.ps)
    && (s.flags.encrypted <==> h.dataWordLen != h.imageWordLen)
    && (s.flags.ps ==> h.loadAddr <= p.ddrEnd)
  }

  /** What a stage leaves alone. */
  predicate SameBook(s: Boot, s': Boot) {
    && s'.flags == s.flags && s'.execAddress == s.execAddress && s'.execAddrFlag == s.execAddrFlag
    && s'.loaded == s.loaded && s'.programmed == s.programmed
  }

  // ---------------------------------------------------------------- memory facts

  lemma ImagePrefix(p: Platform, h: PartHeader, n: nat, m: nat)
    requires m <= n
    ensures Image(p, h, n)[..m] == Image(p, h, m)
  {
  }

  /** Once the copy is in memory, the image read from there is its start, or all of it and then what memory
      held before. */
  lemma StagedSource(p: Platform, ram: Ram, f: Flags, h: PartHeader)
    ensures var at := StagedAt(p, f, h);
            ReadRam(p, Poke(ram, at, Image(p, h, Copied(p.linear, f, h))), at, h.imageWordLen) == Source(p, ram, f, h)
  {
    var at, n, m: nat := StagedAt(p, f, h), Copied(p.linear, f, h), h.imageWordLen;
    var ram' := Poke(ram, at, Image(p, h, n));
    if m <= n {
      ReadAfterPoke(p, ram, at, Image(p, h, n), m);
      ImagePrefix(p, h, n, m);
    } else {
      PokeWhole(p, ram, at, Image(p, h, n));
      ReadApart(p, ram, at, Image(p, h, n), at + 4 * n, m - n);
      ReadSplit(p, ram', at, n, m);
    }
  }

  lemma ReadSplit(p: Platform, ram: Ram, at: int, n: nat, m: nat)
    requires n <= m
    ensures ReadRam(p, ram, at, m) == ReadRam(p, ram, at, n) + ReadRam(p, ram, at + 4 * n, m - n)
  {
  }

  lemma PokeWhole(p: Platform, ram: Ram, addr: int, data: seq<Word>)
    ensures ReadRam(p, Poke(ram, addr, data), addr, |data|) == data
  {
    ReadAfterPoke(p, ram, addr, data, |data|);
    assert data[..|data|] == data;
  }

  lemma FlashOnBus(p: Platform, ram: Ram, h: PartHeader, n: nat)
    requires p.linear
    ensures ReadBus(p, ram, SourceOffset(p, h) + p.flashBase, n) == Image(p, h, n)
  {
  }

  // ---------------------------------------------------------------- the drivers

  lemma MoveImageCopies(p: Platform, s: Boot, h: PartHeader, dst: int, n: Word, s': Boot)
    requires MoveImage(p, s, h, dst, n) == Some(s')
    ensures SameBook(s, s') && s'.trace == s.trace && s'.ram == Poke(s.ram, dst, Image(p, h, MoveWords(n)))
  {
  }

  lemma TransferCopies(p: Platform, s: Boot, src: int, dst: int, n: nat, m: nat, s': Boot)
    requires PcapDataTransfer(p, s, src, dst, n, m, false) == Some(s')
    ensures SameBook(s, s') && s'.trace == s.trace && s'.ram == Poke(s.ram, dst, ReadBus(p, s.ram, src, n))
    ensures ReadRam(p, s'.ram, dst, n) == ReadBus(p, s.ram, src, n)
  {
    PokeWhole(p, s.ram, dst, ReadBus(p, s.ram, src, n));
  }

  lemma TransferDecrypts(p: Platform, s: Boot, src: int, dst: int, n: nat, m: nat, s': Boot)
    requires PcapDataTransfer(p, s, src, dst, n, m, true) == Some(s')
    ensures var cipher := ReadBus(p, s.ram, src, n);
            && SameBook(s, s') && s'.trace == s.trace + [Decrypted(cipher, m)]
            && s'.ram == Poke(s.ram, dst, Plain(p, cipher, m))
            && ReadRam(p, s'.ram, dst, m) == Plain(p, cipher, m)
  {
    PokeWhole(p, s.ram, dst, Plain(p, ReadBus(p, s.ram, src, n), m));
  }

  // ---------------------------------------------------------------- PartitionMove

  /** PartitionMove copies a PS partition to its load address, or decrypts it on the way. */
  lemma MovePs(p: Platform, s: Boot, h: PartHeader, s': Boot)
    requires Ready(p, s, h) && s.flags.ps && MoveApplication(p, s, h) == Some(s')
    ensures SameBook(s, s')
    ensures var source := Source(p, s.ram, s.flags, h);
            if s.flags.encrypted && !s.flags.Checked() then
              && ReadRam(p, s'.ram, h.loadAddr, h.dataWordLen) == PlaintextOf(p, h, source)
              && s'.trace == s.trace + Decryption(s.flags, h, source)
            else
              && s'.ram == Poke(s.ram, h.loadAddr, Image(p, h, Copied(p.linear, s.flags, h)))
              && ReadRam(p, s'.ram, h.loadAddr, h.imageWordLen) == source
              && s'.trace == s.trace
  {
    var n := MoveLength(s.flags, h);
    var secure := s.flags.encrypted && !s.flags.Checked();
    StagedSource(p, s.ram, s.flags, h);
    if p.linear {
      var src := SourceOffset(p, h) + p.flashBase;
      FlashOnBus(p, s.ram, h, n);
      if secure {
        TransferDecrypts(p, s, src, h.loadAddr, n, h.dataWordLen, s');
      } else {
        TransferCopies(p, s, src, h.loadAddr, n, n, s');
      }
    } else {
      var s1 := MoveImage(p, s, h, h.loadAddr, n).value;
      MoveImageCopies(p, s, h, h.loadAddr, n, s1);
      if secure {
        TransferDecrypts(p, s1, h.loadAddr, h.loadAddr, n, h.dataWordLen, s');
      }
    }
  }

  /** PartitionMove copies a PL partition to be checked to the temporary area; any other goes to the fabric. */
  lemma MovePl(p: Platform, s: Boot, h: PartHeader, s': Boot)
    requires Ready(p, s, h) && s.flags.pl && MoveBitstream(p, s, h) == Some(s')
    ensures SameBook(s, s')
    ensures var source := Source(p, s.ram, s.flags, h);
            if s.flags.Checked() then
              && s'.ram == Poke(s.ram, p.ddrTemp, Image(p, h, Copied(p.linear, s.flags, h)))
              && ReadRam(p, s'.ram, p.ddrTemp, h.imageWordLen) == source
              && s'.trace == s.trace
            else
              s'.trace == s.trace + [Fabric(s.flags, h, source)]
  {
    var n := MoveLength(s.flags, h);
    StagedSource(p, s.ram, s.flags, h);
    if p.linear {
      FlashOnBus(p, s.ram, h, n);
      if s.flags.Checked() {
        TransferCopies(p, s, SourceOffset(p, h) + p.flashBase, p.ddrTemp, n, n, s');
      }
    } else {
      MoveImageCopies(p, s, h, p.ddrTemp, n, MoveImage(p, s, h, p.ddrTemp, n).value);
    }
  }

  // ---------------------------------------------------------------- the checks

  /** The copy contains what the checks look at. */
  lemma StagedChecks(p: Platform, ram: Ram, f: Flags, h: PartHeader)
    requires f.Checked()
    ensures var at := StagedAt(p, f, h);
            ReadRam(p, Poke(ram, at, Image(p, h, Copied(p.linear, f, h))), at, MoveWords(h.partitionWordLen))
            == CheckedWords(p, h)
  {
    var n, k := Copied(p.linear, f, h), MoveWords(h.partitionWordLen);
    ReadAfterPoke(p, ram, StagedAt(p, f, h), Image(p, h, n), k);
    ImagePrefix(p, h, n, k);
  }

  lemma VerifyStaged(p: Platform, s: Boot, h: PartHeader, s': Boot)
    requires Ready(p, s, h) && (s.flags.ps || s.flags.pl) && s.flags.Checked() && Verify(p, s, h) == Some(s')
    requires ReadRam(p, s.ram, StagedAt(p, s.flags, h), MoveWords(h.partitionWordLen)) == CheckedWords(p, h)
    ensures SameBook(s, s') && s'.ram == s.ram
    ensures s'.trace == s.trace + ChecksPassed(p, s.flags, h)
    ensures ChecksHold(p, s.flags.checksum, s.flags.signed, h, CheckedWords(p, h))
  {
  }

  lemma UnpackPs(p: Platform, s: Boot, h: PartHeader, source: seq<Word>, s': Boot)
    requires Ready(p, s, h) && s.flags.ps && s.flags.Checked() && Unpack(p, s, h) == Some(s')
    requires |source| == h.imageWordLen && ReadRam(p, s.ram, h.loadAddr, h.imageWordLen) == source
    ensures SameBook(s, s')
    ensures ReadRam(p, s'.ram, h.loadAddr, h.dataWordLen) == PlaintextOf(p, h, source)
    ensures s'.trace == s.trace + Decryption(s.flags, h, source)
  {
    if s.flags.encrypted {
      PokeWhole(p, s.ram, h.loadAddr, PlaintextOf(p, h, source));
    }
  }

  lemma UnpackPl(p: Platform, s: Boot, h: PartHeader, source: seq<Word>, s': Boot)
    requires Ready(p, s, h) && s.flags.pl && s.flags.Checked() && Unpack(p, s, h) == Some(s')
    requires |source| == h.imageWordLen && ReadRam(p, s.ram, p.ddrTemp, h.imageWordLen) == source
    ensures SameBook(s, s')
    ensures s'.trace == s.trace + [Fabric(s.flags, h, source)]
  {
  }

  // ---------------------------------------------------------------- the whole body

  /** One plaintext for all paths: a PS partition whose body completes leaves the plaintext of its source
      words at its load address, decrypted exactly once or not at all, after exactly the checks requested,
      each of which holds, whether the boot device is linear or not, and whatever the lengths. */
  lemma PsPartitionLoaded(p: Platform, s: Boot, h: PartHeader, s': Boot)
    requires Ready(p, s, h) && s.flags.ps && Process(p, s, h) == Some(s')
    ensures var source := Source(p, s.ram, s.flags, h);
            && ReadRam(p, s'.ram, h.loadAddr, h.dataWordLen) == PlaintextOf(p, h, source)
            && s'.trace == s.trace + ChecksPassed(p, s.flags, h) + Decryption(s.flags, h, source)
    ensures ChecksHold(p, s.flags.checksum, s.flags.signed, h, CheckedWords(p, h))
    ensures s'.flags == s.flags && s'.programmed == s.programmed
    ensures s'.loaded == s.loaded + [Done(h, s.flags, s.ram)]
    ensures s'.execAddress == s.execAddress && s'.execAddrFlag == s.execAddrFlag
  {
    var s2 := Move(p, s, h).value;
    MovePs(p, s, h, s2);
    if s.flags.Checked() {
      StagedChecks(p, s.ram, s.flags, h);
      var s3 := Verify(p, s2, h).value;
      VerifyStaged(p, s2, h, s3);
      UnpackPs(p, s3, h, Source(p, s.ram, s.flags, h), Unpack(p, s3, h).value);
    } else {
      assert ChecksPassed(p, s.flags, h) == [];
      assert s.trace + [] == s.trace;
    }
  }

  /** The fabric is programmed exactly once, after every requested check, each of which holds, from the source
      words. */
  lemma PlPartitionProgrammed(p: Platform, s: Boot, h: PartHeader, s': Boot)
    requires Ready(p, s, h) && s.flags.pl && Process(p, s, h) == Some(s')
    ensures s'.trace == s.trace + [HookBefore] + ChecksPassed(p, s.flags, h)
                        + [Fabric(s.flags, h, Source(p, s.ram, s.flags, h))] + [HookAfter]
    ensures ChecksHold(p, s.flags.checksum, s.flags.signed, h, CheckedWords(p, h))
    ensures s'.flags == s.flags && s'.loaded == s.loaded
    ensures s'.programmed == s.programmed + [Done(h, s.flags, s.ram)]
    ensures s'.execAddress == s.execAddress && s'.execAddrFlag == s.execAddrFlag
  {
    var s1 := Hook(p, s, HookBefore).value;
    var s2 := Move(p, s1, h).value;
    MovePl(p, s1, h, s2);
    if s.flags.Checked() {
      StagedChecks(p, s.ram, s.flags, h);
      var s3 := Verify(p, s2, h).value;
      VerifyStaged(p, s2, h, s3);
      UnpackPl(p, s3, h, Source(p, s.ram, s.flags, h), Unpack(p, s3, h).value);
    } else {
      assert s1.trace + ChecksPassed(p, s.flags, h) == s1.trace;
    }
  }

  /** A partition before any PL or PS one is at most copied and checked: from a linear device it is not even
      copied. */
  lemma UnattributedPartition(p: Platform, s: Boot, h: PartHeader, s': Boot)
    requires !s.flags.ps && !s.flags.pl && Process(p, s, h) == Some(s')
    ensures SameBook(s, s')
    ensures s'.ram == if p.linear then s.ram
                      else Poke(s.ram, h.loadAddr, Image(p, h, MoveWords(MoveLength(s.flags, h))))
    ensures exists checks :: s'.trace == s.trace + checks && OnlyChecks(checks)
  {
    var s2 := Move(p, s, h).value;
    assert SameBook(s, s2) && s2.trace == s.trace;
    if s.flags.Checked() {
      VerifyOnlyChecks(p, s2, h, Verify(p, s2, h).value);
    } else {
      assert s'.trace == s.trace + [] && OnlyChecks([]);
    }
  }

  predicate OnlyChecks(events: seq<Event>) {
    forall i :: 0 <= i < |events| ==> events[i].ChecksumPassed? || events[i].SignaturePassed?
  }

  lemma VerifyOnlyChecks(p: Platform, s: Boot, h: PartHeader, s': Boot)
    requires Verify(p, s, h) == Some(s')
    ensures SameBook(s, s') && s'.ram == s.ram
    ensures exists checks :: s'.trace == s.trace + checks && OnlyChecks(checks)
  {
    var data := ReadBus(p, s.ram, StagedAt(p, s.flags, h), MoveWords(h.partitionWordLen));
    var checks := (if s.flags.checksum then [ChecksumPassed(data)] else [])
      + (if s.flags.signed then [SignaturePassed(data)] else []);
    assert s'.trace == s.trace + checks && OnlyChecks(checks);
  }

  /** A completed body adds its partition to the PL ones, to the PS ones, or to neither. */
  lemma BodyRecords(p: Platform, s: Boot, h: PartHeader, s': Boot)
    requires Process(p, s, h) == Some(s')
    ensures s'.flags == s.flags
    ensures s'.programmed == (if s.flags.pl then s.programmed + [Done(h, s.flags, s.ram)] else s.programmed)
    ensures s'.loaded == (if s.flags.ps && !s.flags.pl then s.loaded + [Done(h, s.flags, s.ram)] else s.loaded)
    ensures s'.execAddress == s.execAddress && s'.execAddrFlag == s.execAddrFlag
  {
    var s1 := Hook(p, s, HookBefore).value;
    var s2 := Move(p, s1, h).value;
    MoveKeepsBook(p, s1, h, s2);
    if s.flags.Checked() {
      var s3 := Verify(p, s2, h).value;
      VerifyOnlyChecks(p, s2, h, s3);
      UnpackKeepsBook(p, s3, h, Unpack(p, s3, h).value);
    }
  }

  lemma MoveKeepsBook(p: Platform, s: Boot, h: PartHeader, s': Boot)
    requires Move(p, s, h) == Some(s')
    ensures SameBook(s, s')
  {
    if s.flags.pl {
      assert MoveBitstream(p, s, h) == Some(s');
    } else if s.flags.ps {
      assert MoveApplication(p, s, h) == Some(s');
    }
  }

  lemma UnpackKeepsBook(p: Platform, s: Boot, h: PartHeader, s': Boot)
    requires Unpack(p, s, h) == Some(s')
    ensures SameBook(s, s')
  {
  }

  // ---------------------------------------------------------------- what a body overwrites

  function Max(a: nat, b: nat): nat {
    if a < b then b else a
  }

  /** How many words from the load address on loading a PS partition writes. */
  function Written(linear: bool, f: Flags, h: PartHeader): nat {
    if !f.encrypted then Copied(linear, f, h)
    else if linear && !f.Checked() then h.dataWordLen
    else Max(Copied(linear, f, h), h.dataWordLen)
  }

  /** The addresses of `n` words from `a` on. */
  function Area(a: int, n: nat): set<int> {
    set i | 0 <= i < n :: a + 4 * i
  }

  lemma PokeAddresses(ram: Ram, addr: int, data: seq<Word>)
    ensures Poke(ram, addr, data).Keys == ram.Keys + Area(addr, |data|)
  {
  }

  lemma AreaOfBoth(a: int, m: nat, n: nat)
    ensures Area(a, m) + Area(a, n) == Area(a, Max(m, n))
  {
  }

  /** What `s'` has written since `s` is exactly `n` words from address `a` on. */
  ghost predicate WritesExactly(p: Platform, s: Boot, s': Boot, a: int, n: nat) {
    && s'.ram.Keys == s.ram.Keys + Area(a, n)
    && forall b, m: nat :: Apart(a, n, b, m) ==> ReadRam(p, s'.ram, b, m) == ReadRam(p, s.ram, b, m)
  }

  lemma PokeWritesExactly(p: Platform, s: Boot, s': Boot, a: int, data: seq<Word>)
    requires s'.ram == Poke(s.ram, a, data)
    ensures WritesExactly(p, s, s', a, |data|)
  {
    PokeAddresses(s.ram, a, data);
    forall b, m: nat | Apart(a, |data|, b, m)
      ensures ReadRam(p, s'.ram, b, m) == ReadRam(p, s.ram, b, m)
    {
      ReadApart(p, s.ram, a, data, b, m);
    }
  }

  lemma WritesBoth(p: Platform, s: Boot, s1: Boot, s2: Boot, a: int, m: nat, n: nat)
    requires WritesExactly(p, s, s1, a, m) && WritesExactly(p, s1, s2, a, n)
    ensures WritesExactly(p, s, s2, a, Max(m, n))
  {
    AreaOfBoth(a, m, n);
    forall b, k: nat | Apart(a, Max(m, n), b, k)
      ensures ReadRam(p, s2.ram, b, k) == ReadRam(p, s.ram, b, k)
    {
      assert Apart(a, m, b, k) && Apart(a, n, b, k);
    }
  }

  /** The words written by PartitionMove. */
  lemma MoveWritesPs(p: Platform, s: Boot, h: PartHeader, s': Boot)
    requires Ready(p, s, h) && s.flags.ps && MoveApplication(p, s, h) == Some(s')
    ensures WritesExactly(p, s, s', h.loadAddr,
                          if s.flags.Checked() then Copied(p.linear, s.flags, h) else Written(p.linear, s.flags, h))
  {
    var n := MoveLength(s.flags, h);
    if !s.flags.encrypted || s.flags.Checked() {
      MovePs(p, s, h, s');
      PokeWritesExactly(p, s, s', h.loadAddr, Image(p, h, Copied(p.linear, s.flags, h)));
    } else if p.linear {
      var src := SourceOffset(p, h) + p.flashBase;
      TransferDecrypts(p, s, src, h.loadAddr, n, h.dataWordLen, s');
      PokeWritesExactly(p, s, s', h.loadAddr, Plain(p, ReadBus(p, s.ram, src, n), h.dataWordLen));
    } else {
      var s1 := MoveImage(p, s, h, h.loadAddr, n).value;
      MoveImageCopies(p, s, h, h.loadAddr, n, s1);
      PokeWritesExactly(p, s, s1, h.loadAddr, Image(p, h, MoveWords(n)));
      TransferDecrypts(p, s1, h.loadAddr, h.loadAddr, n, h.dataWordLen, s');
      PokeWritesExactly(p, s1, s', h.loadAddr, Plain(p, ReadBus(p, s1.ram, h.loadAddr, n), h.dataWordLen));
      WritesBoth(p, s, s1, s', h.loadAddr, MoveWords(n), h.dataWordLen);
    }
  }

  lemma UnpackWritesPs(p: Platform, s: Boot, h: PartHeader, s': Boot)
    requires Ready(p, s, h) && s.flags.ps && Unpack(p, s, h) == Some(s')
    ensures if s.flags.encrypted then WritesExactly(p, s, s', h.loadAddr, h.dataWordLen) else s'.ram == s.ram
  {
    if s.flags.encrypted {
      PokeWritesExactly(p, s, s', h.loadAddr,
                        Plain(p, ReadBus(p, s.ram, h.loadAddr, h.imageWordLen), h.dataWordLen));
    }
  }

  /** Loading a PS partition writes exactly that many words from its load address on, and no other memory. */
  lemma PsPartitionWrites(p: Platform, s: Boot, h: PartHeader, s': Boot)
    requires Ready(p, s, h) && s.flags.ps && Process(p, s, h) == Some(s')
    ensures WritesExactly(p, s, s', h.loadAddr, Written(p.linear, s.flags, h))
  {
    var s2 := Move(p, s, h).value;
    MoveKeepsBook(p, s, h, s2);
    MoveWritesPs(p, s, h, s2);
    if s.flags.Checked() {
      var s3 := Verify(p, s2, h).value;
      VerifyOnlyChecks(p, s2, h, s3);
      var s4 := Unpack(p, s3, h).value;
      UnpackWritesPs(p, s3, h, s4);
      if s.flags.encrypted {
        WritesBoth(p, s, s3, s4, h.loadAddr, Copied(p.linear, s.flags, h), h.dataWordLen);
      }
    }
  }

  // ---------------------------------------------------------------- inside DDR

  /** The word at `a` lies in DDR with all its bytes. */
  predicate InDdr(p: Platform, a: int) {
    p.ddrStart <= a && a + 3 <= p.ddrEnd
  }

  /** The load address checks look at the first byte alone: a PS partition that passes them stays inside DDR if
      and only if the words it writes end by the last byte of DDR. */
  lemma StaysInDdrIff(p: Platform, s: Boot, h: PartHeader, s': Boot)
    requires Ready(p, s, h) && s.flags.ps && CheckLoadAddr(p, s.flags, h) == Next && Process(p, s, h) == Some(s')
    requires forall a :: a in s.ram ==> InDdr(p, a)
    ensures (forall a :: a in s'.ram ==> InDdr(p, a))
            <==> h.loadAddr + 4 * Written(p.linear, s.flags, h) <= p.ddrEnd + 1
  {
    PsPartitionWrites(p, s, h, s');
    var n := Written(p.linear, s.flags, h);
    if 0 < n {
      assert h.loadAddr + 4 * (n - 1) in Area(h.loadAddr, n);
    }
    forall a | a in s'.ram && h.loadAddr + 4 * n <= p.ddrEnd + 1
      ensures InDdr(p, a)
    {
      assert a in s'.ram.Keys;
    }
    if 0 < n {
      assert h.loadAddr + 4 * (n - 1) in s'.ram;
    }
  }
}
