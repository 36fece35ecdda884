/** Exactly when the words that are left in memory, decrypted or programmed are the words on the boot device, and
    when they are the words that were checked. ValidateHeader looks at neither the partition length nor the top
    bits of a length, so a copy may be shorter than the image, and the rest then comes from memory. */
module FsblStale {
  import opened Word32
  import opened FsblHeader
  import opened FsblImage
  import opened FsblPartition

  // ---------------------------------------------------------------- one body

  lemma SourceIsCheckedIff(p: Platform, ram: Ram, f: Flags, h: PartHeader)
    requires f.Checked()
    ensures Source(p, ram, f, h) <= CheckedWords(p, h) <==> h.imageWordLen <= MoveWords(h.partitionWordLen)
  {
    if h.imageWordLen <= MoveWords(h.partitionWordLen) {
      ImagePrefix(p, h, MoveWords(h.partitionWordLen), h.imageWordLen);
    }
  }

  /** Every word of the source past the copy is the word memory held there before. */
  lemma TailIsStale(p: Platform, ram: Ram, f: Flags, h: PartHeader)
    ensures forall i :: Copied(p.linear, f, h) <= i < h.imageWordLen ==>
              Source(p, ram, f, h)[i] == Peek(p, ram, StagedAt(p, f, h) + 4 * i)
  {
    var at, n := StagedAt(p, f, h), Copied(p.linear, f, h);
    forall i | n <= i < h.imageWordLen
      ensures Source(p, ram, f, h)[i] == Peek(p, ram, at + 4 * i)
    {
      assert ReadRam(p, ram, at + 4 * n, h.imageWordLen - n)[i - n] == Peek(p, ram, at + 4 * n + 4 * (i - n));
    }
  }

  /** `data` starts the words that the checks saw if and only if the image is no longer than those, and any word
      of it past the copy is what memory held before at the place `at` it was copied to. */
  predicate CheckedUnlessLonger(p: Platform, ram: Ram, at: int, f: Flags, h: PartHeader, data: seq<Word>) {
    && |data| == h.imageWordLen
    && (data <= CheckedWords(p, h) <==> h.imageWordLen <= MoveWords(h.partitionWordLen))
    && forall i :: Copied(p.linear, f, h) <= i < h.imageWordLen ==> data[i] == Peek(p, ram, at + 4 * i)
  }

  lemma SourceFacts(p: Platform, ram: Ram, f: Flags, h: PartHeader)
    requires f.Checked()
    ensures CheckedUnlessLonger(p, ram, StagedAt(p, f, h), f, h, Source(p, ram, f, h))
  {
    SourceIsCheckedIff(p, ram, f, h);
    TailIsStale(p, ram, f, h);
  }

  /** A checked bitstream: what the fabric gets. */
  lemma FabricIsCheckedIff(p: Platform, s: Boot, h: PartHeader, s': Boot)
    requires Ready(p, s, h) && s.flags.pl && s.flags.Checked() && Process(p, s, h) == Some(s')
    ensures 2 <= |s'.trace| && s'.trace[|s'.trace| - 2].FabricLoaded?
    ensures CheckedUnlessLonger(p, s.ram, p.ddrTemp, s.flags, h, s'.trace[|s'.trace| - 2].data)
  {
    PlPartitionProgrammed(p, s, h, s');
    var fabric := Fabric(s.flags, h, Source(p, s.ram, s.flags, h));
    OneButLast(s'.trace, s.trace + [HookBefore] + ChecksPassed(p, s.flags, h), fabric);
    SourceFacts(p, s.ram, s.flags, h);
  }

  lemma OneButLast(t: seq<Event>, before: seq<Event>, e: Event)
    requires t == before + [e] + [HookAfter]
    ensures 2 <= |t| && t[|t| - 2] == e
  {
  }

  /** A checked PS partition: the ciphertext, or else the words left at the load address. */
  lemma ApplicationIsCheckedIff(p: Platform, s: Boot, h: PartHeader, s': Boot)
    requires Ready(p, s, h) && s.flags.ps && s.flags.Checked() && Process(p, s, h) == Some(s')
    ensures s.flags.encrypted ==> 1 <= |s'.trace| && s'.trace[|s'.trace| - 1].Decrypted?
    ensures CheckedUnlessLonger(p, s.ram, h.loadAddr, s.flags, h,
                                if s.flags.encrypted then s'.trace[|s'.trace| - 1].cipher
                                else ReadRam(p, s'.ram, h.loadAddr, h.imageWordLen))
  {
    PsPartitionLoaded(p, s, h, s');
    SourceFacts(p, s.ram, s.flags, h);
  }

  // ---------------------------------------------------------------- two accepted inputs

  /** A checked bitstream of 100 words in a partition of 2^30 + 16: from a non-linear device 16 words are copied
      and checked, and the fabric gets 84 words of old memory after them. */
  lemma WrappedPartitionProgramsOldWords(p: Platform, s: Boot, h: PartHeader, s': Boot)
    requires Ready(p, s, h) && s.flags.pl && s.flags.Checked() && !p.linear && Process(p, s, h) == Some(s')
    requires h.imageWordLen == 100 && h.partitionWordLen == 0x4000_0010
    ensures 2 <= |s'.trace| && s'.trace[|s'.trace| - 2].FabricLoaded?
    ensures var data := s'.trace[|s'.trace| - 2].data;
            |data| == 100 && forall i :: 16 <= i < 100 ==> data[i] == Peek(p, s.ram, p.ddrTemp + 4 * i)
  {
    FabricIsCheckedIff(p, s, h, s');
    OldWordsAfterSixteen(p, s.ram, s.flags, h, s'.trace[|s'.trace| - 2].data);
  }

  lemma OldWordsAfterSixteen(p: Platform, ram: Ram, f: Flags, h: PartHeader, data: seq<Word>)
    requires CheckedUnlessLonger(p, ram, p.ddrTemp, f, h, data) && f.Checked() && !p.linear
    requires h.imageWordLen == 100 && h.partitionWordLen == 0x4000_0010
    ensures |data| == 100 && forall i :: 16 <= i < 100 ==> data[i] == Peek(p, ram, p.ddrTemp + 4 * i)
  {
    assert Copied(p.linear, f, h) == 16;
  }

  /** A PS partition of exactly the greatest image length, neither checked nor encrypted: from a non-linear
      device nothing at all is copied, and the partition counts as loaded. */
  lemma WrappedImageLoadsNothing(p: Platform, s: Boot, h: PartHeader, s': Boot)
    requires Ready(p, s, h) && s.flags.ps && !p.linear && Process(p, s, h) == Some(s')
    requires !s.flags.Checked() && !s.flags.encrypted && h.imageWordLen == MAXIMUM_IMAGE_WORD_LEN
    ensures s'.ram == s.ram && s'.loaded == s.loaded + [Done(h, s.flags, s.ram)]
  {
    MovePs(p, s, h, s'.(loaded := s.loaded));
  }

  /** The header checks do not compare the lengths: with the right checksum any lengths up to the limit pass. */
  lemma AnyLengthsValidate(h: PartHeader)
    requires h.imageWordLen <= MAXIMUM_IMAGE_WORD_LEN
    ensures var w := h.Words(); HeaderValid(h.(checksum := ALL_ONES - Sum(w[..|w| - 1])))
  {
    var w := h.Words();
    var h' := h.(checksum := ALL_ONES - Sum(w[..|w| - 1]));
    assert h'.Words()[..|w| - 1] == w[..|w| - 1];
  }

  // ---------------------------------------------------------------- a body that succeeds

  /** Every driver works and every check passes. */
  ghost predicate Faultless(p: Platform) {
    && p.rsaSupport && !p.encryptOnly
    && (forall k :: p.ok(k))
    && (forall data, offset :: p.checksumMatches(data, offset))
    && (forall data :: p.authentic(data))
  }

  lemma FaultlessMove(p: Platform, s: Boot, h: PartHeader)
    requires Faultless(p)
    ensures Move(p, s, h).Some?
  {
  }

  lemma FaultlessChecks(p: Platform, s: Boot, h: PartHeader)
    requires Faultless(p)
    ensures Verify(p, s, h).Some? && Unpack(p, s, h).Some?
  {
  }

  lemma FaultlessProcess(p: Platform, s: Boot, h: PartHeader)
    requires Faultless(p)
    ensures Process(p, s, h).Some?
  {
    var s1 := Hook(p, s, HookBefore).value;
    FaultlessMove(p, s1, h);
    var s2 := Move(p, s1, h).value;
    FaultlessChecks(p, s2, h);
    if s.flags.Checked() {
      FaultlessChecks(p, Verify(p, s2, h).value, h);
    }
  }

  // ---------------------------------------------------------------- over all platforms and memories

  /** The body has used the image as it is on the boot device. */
  predicate UsedImage(p: Platform, s: Boot, h: PartHeader, s': Boot) {
    var image := Image(p, h, h.imageWordLen);
    if s.flags.pl then
      s'.trace == s.trace + [HookBefore] + ChecksPassed(p, s.flags, h) + [Fabric(s.flags, h, image)] + [HookAfter]
    else
      && ReadRam(p, s'.ram, h.loadAddr, h.dataWordLen) == Plaintext(p, h)
      && s'.trace == s.trace + ChecksPassed(p, s.flags, h) + Decryption(s.flags, h, image)
  }

  lemma UsedImageIff(p: Platform, s: Boot, h: PartHeader, s': Boot)
    requires Ready(p, s, h) && s.flags.pl != s.flags.ps && Process(p, s, h) == Some(s')
    ensures UsedImage(p, s, h, s') <==> Source(p, s.ram, s.flags, h) == Image(p, h, h.imageWordLen)
  {
    var source := Source(p, s.ram, s.flags, h);
    if s.flags.pl {
      PlPartitionProgrammed(p, s, h, s');
      assert s'.trace[|s'.trace| - 2] == Fabric(s.flags, h, source);
    } else {
      PsPartitionLoaded(p, s, h, s');
      if s.flags.encrypted {
        assert s'.trace[|s'.trace| - 1] == Decrypted(source, h.dataWordLen);
      }
    }
  }

  /** A flash of zeros, memory of ones, and nothing ever fails. */
  function Contrast(linear: bool): (p: Platform)
    ensures p.Valid() && Faultless(p) && p.linear == linear
  {
    Platform(linear, true, false, false, false, HeaderLayout(0, 0, 0, 0, 0), WORD_LIMIT + 1, 0, 1, WORD_LIMIT, 1,
             a => 0, a => 1, w => Attributes(true, false, false, false, false), (c, n, i) => 0,
             (data, offset) => true, data => true, (headers, hs, signature) => true, k => true)
  }

  lemma ContrastShows(linear: bool, f: Flags, h: PartHeader)
    requires !Complete(linear, f, h)
    ensures var p := Contrast(linear); Source(p, map[], f, h) != Image(p, h, h.imageWordLen)
  {
    var p, i := Contrast(linear), Copied(linear, f, h);
    TailIsStale(p, map[], f, h);
    assert Image(p, h, h.imageWordLen)[i] == 0;
  }

  /** For all headers that ask for flags `f`, with any lengths, on either kind of device: every completed body,
      whatever the platform and the memory before it, uses the image as it is on the boot device, if and only
      if the image is no longer than the copy. */
  lemma ImageIsUsedIff(linear: bool, f: Flags, h: PartHeader)
    requires f.pl != f.ps && (f.encrypted <==> h.dataWordLen != h.imageWordLen)
    ensures (forall p: Platform, s: Boot ::
               p.linear == linear && Ready(p, s, h) && s.flags == f && Process(p, s, h).Some? ==>
                 UsedImage(p, s, h, Process(p, s, h).value))
            <==> h.imageWordLen <= if linear then MoveLength(f, h) else MoveWords(MoveLength(f, h))
  {
    if Complete(linear, f, h) {
      forall p: Platform, s: Boot | p.linear == linear && Ready(p, s, h) && s.flags == f && Process(p, s, h).Some?
        ensures UsedImage(p, s, h, Process(p, s, h).value)
      {
        UsedImageIff(p, s, h, Process(p, s, h).value);
      }
    } else {
      var p := Contrast(linear);
      var s := Reset(map[]).(flags := f);
      assert Ready(p, s, h);
      FaultlessProcess(p, s, h);
      ContrastShows(linear, f, h);
      UsedImageIff(p, s, h, Process(p, s, h).value);
    }
  }
}
