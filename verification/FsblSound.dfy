/** What a walk that returns can be relied on for: every partition it served was valid, checked and allowed, every
    driver call succeeded, and the flags at the end say what was seen. */
module FsblSound {
  import opened Word32
  import opened FsblHeader
  import opened FsblImage
  import opened FsblPartition
  import opened FsblWalk
  import opened FsblOrder
  import opened FsblChecks

  // ---------------------------------------------------------------- when an iteration falls back

  /** The flags with which a partition of a kind is processed. */
  function FlagsAs(p: Platform, k: Kind, h: PartHeader): Flags {
    FlagsFor(p, h).(pl := k == AsPl, ps := k == AsPs)
  }

  predicate AddressFits(p: Platform, k: Kind, h: PartHeader) {
    k == AsPs ==> p.ddrStart <= h.loadAddr <= p.ddrEnd
  }

  /** The partition can be processed as `k`: its drivers work, and the checks its attributes ask for hold. */
  ghost predicate CanProcess(p: Platform, s: Boot, k: Kind, h: PartHeader) {
    var a := p.attributes(h.attr);
    && AllOk(p, s.calls, BodyCalls(p.linear, FlagsAs(p, k, h)))
    && ChecksHold(p, a.checksum, a.rsa, h, WordsSeen(p, s.ram, FlagsAs(p, k, h), h))
  }

  predicate Allowed(p: Platform, h: PartHeader) {
    p.encryptOnly ==> h.dataWordLen != h.imageWordLen
  }

  lemma PreparedFlags(p: Platform, s: Boot, h: PartHeader)
    requires FlagsAgree(s) && Processed(p, h) && !(p.attributes(h.attr).pl && s.flags.application)
    ensures var s1, k := Prepared(p, s, h), NextKind(p, KindOf(s.flags), h);
            && s1.calls == s.calls && s1.ram == s.ram && s1.trace == s.trace
            && s1.flags.pl == (k == AsPl) && s1.flags.ps == (k == AsPs)
            && s1.flags.encrypted == (h.dataWordLen != h.imageWordLen)
            && s1.flags.checksum == p.attributes(h.attr).checksum && s1.flags.signed == p.attributes(h.attr).rsa
            && BodyCalls(p.linear, s1.flags) == BodyCalls(p.linear, FlagsAs(p, k, h))
            && WordsSeen(p, s.ram, s1.flags, h) == WordsSeen(p, s.ram, FlagsAs(p, k, h), h)
  {
  }

  lemma PreparedCompletesIff(p: Platform, s: Boot, h: PartHeader)
    requires p.Valid() && FlagsAgree(s) && Processed(p, h) && !(p.attributes(h.attr).pl && s.flags.application)
    requires AddressFits(p, NextKind(p, KindOf(s.flags), h), h)
    ensures Process(p, Prepared(p, s, h), h).Some? <==> CanProcess(p, s, NextKind(p, KindOf(s.flags), h), h)
  {
    PreparedFlags(p, s, h);
    ProcessCompletesIff(p, Prepared(p, s, h), h);
  }

  /** Exactly when an iteration falls back: the header is not valid; or the partition is to be processed, and an
      encryption that is mandatory is missing, or its load address is not in DDR, or a driver call or a check
      fails. */
  lemma StepFallsBackIff(p: Platform, s: Boot, h: PartHeader)
    requires p.Valid() && FlagsAgree(s)
    ensures var k := KindOf(s.flags);
            var next := NextKind(p, k, h);
            Step(p, s, h).1 == Fallback <==>
              || !HeaderValid(h)
              || (Processed(p, h) && !(p.attributes(h.attr).pl && k == AsPs)
                  && (|| !Allowed(p, h)
                      || (!Stops(p, k, h) && !(AddressFits(p, next, h) && CanProcess(p, s, next, h)))))
  {
    if HeaderValid(h) && Processed(p, h) && !(p.attributes(h.attr).pl && s.flags.application) {
      PreparedFlags(p, s, h);
      if AddressFits(p, NextKind(p, KindOf(s.flags), h), h) {
        PreparedCompletesIff(p, s, h);
      }
      StepIsBody(p, s, h);
    }
  }

  lemma StepIsBody(p: Platform, s: Boot, h: PartHeader)
    requires HeaderValid(h) && Processed(p, h) && !(p.attributes(h.attr).pl && s.flags.application)
    ensures var f, o := Prepared(p, s, h).flags, Step(p, s, h).1;
            o == if !Allowed(p, h) then Fallback
                 else if CheckLoadAddr(p, f, h) != Next then CheckLoadAddr(p, f, h)
                 else if Process(p, Prepared(p, s, h), h).Some? then Next
                 else Fallback
  {
  }

  // ---------------------------------------------------------------- every served partition is sound

  /** What holds of a completed body by its header and the boot device alone. */
  predicate Sound(p: Platform, d: Done) {
    var h, a := d.part, p.attributes(d.part.attr);
    && HeaderValid(h) && a.ownerFsbl && Allowed(p, h)
    && d.flags.checksum == a.checksum && d.flags.signed == a.rsa
    && d.flags.encrypted == (h.dataWordLen != h.imageWordLen)
    && ChecksHold(p, a.checksum, a.rsa, h, CheckedWords(p, h))
    && (d.flags.ps ==> p.ddrStart <= h.loadAddr <= p.ddrEnd)
  }

  predicate AllSoundAs(p: Platform, done: seq<Done>, k: Kind) {
    forall i :: 0 <= i < |done| ==> Sound(p, done[i]) && KindOf(done[i].flags) == k
  }

  predicate AllSound(p: Platform, s: Boot) {
    AllSoundAs(p, s.loaded, AsPs) && AllSoundAs(p, s.programmed, AsPl)
  }

  lemma SoundAppend(p: Platform, done: seq<Done>, d: Done, k: Kind)
    requires AllSoundAs(p, done, k) && Sound(p, d) && KindOf(d.flags) == k
    ensures AllSoundAs(p, done + [d], k)
  {
  }

  /** A partition that an iteration has processed and gone on from. */
  lemma ProcessedIsSound(p: Platform, s: Boot, h: PartHeader)
    requires p.Valid() && FlagsAgree(s) && Step(p, s, h).1 == Next && Processed(p, h)
    ensures var s1 := Prepared(p, s, h); s1.flags.pl || s1.flags.ps ==> Sound(p, Done(h, s1.flags, s1.ram))
    ensures AllOk(p, s.calls, BodyCalls(p.linear, Prepared(p, s, h).flags))
    ensures Step(p, s, h).0.calls == s.calls + BodyCalls(p.linear, Prepared(p, s, h).flags)
  {
    StepIsProcess(p, s, h);
    StepFallsBackIff(p, s, h);
    PreparedFlags(p, s, h);
    ProcessCompletesIff(p, Prepared(p, s, h), h);
  }

  lemma StepSawValid(p: Platform, s: Boot, h: PartHeader)
    requires Step(p, s, h).1 != Fallback
    ensures HeaderValid(h)
  {
  }

  lemma StepKeepsSound(p: Platform, s: Boot, h: PartHeader)
    requires p.Valid() && FlagsAgree(s) && AllSound(p, s) && Step(p, s, h).1 == Next
    ensures AllSound(p, Step(p, s, h).0)
  {
    StepIsProcess(p, s, h);
    if Processed(p, h) {
      var s1 := Prepared(p, s, h);
      var d := Done(h, s1.flags, s1.ram);
      ProcessedIsSound(p, s, h);
      BodyRecords(p, s1, h, Step(p, s, h).0);
      if s1.flags.pl {
        SoundAppend(p, s.programmed, d, AsPl);
      } else if s1.flags.ps {
        SoundAppend(p, s.loaded, d, AsPs);
      }
    }
  }

  lemma {:induction false} WalkKeepsSound(p: Platform, s: Boot, hs: seq<PartHeader>)
    requires p.Valid() && FlagsAgree(s) && AllSound(p, s)
    ensures var (s', o) := Walk(p, s, hs);
            o != Fallback ==>
              && AllSound(p, s')
              && forall h :: h in Visited(p, KindOf(s.flags), hs) ==> HeaderValid(h)
    decreases |hs|
  {
    if |hs| > 0 {
      var (s1, o) := Step(p, s, hs[0]);
      if o == Next {
        StepKeepsFlags(p, s, hs[0]);
        StepFollowsKind(p, s, hs[0]);
        StepKeepsSound(p, s, hs[0]);
        StepSawValid(p, s, hs[0]);
        WalkKeepsSound(p, s1, hs[1..]);
      } else if o == Break {
        BreakKeeps(p, s, hs[0]);
        BreakStops(p, s, hs[0]);
      }
    }
  }

  /** Whatever the image: when a boot from reset returns, every partition before the one that ended the walk has a
      valid header; every one loaded or programmed belongs to FSBL, has a load address in DDR if it was loaded,
      is encrypted if that is mandatory, and if its attributes ask for a checksum or a signature, the words on
      the boot device pass it. */
  lemma ServedAreSound(p: Platform, s: Boot, hs: seq<PartHeader>)
    requires p.Valid() && FromReset(s)
    ensures var (s', o) := Walk(p, s, hs);
            o != Fallback ==>
              && AllSoundAs(p, s'.loaded, AsPs) && AllSoundAs(p, s'.programmed, AsPl)
              && (forall h :: h in Visited(p, Neither, hs) ==> HeaderValid(h))
  {
    WalkKeepsSound(p, s, hs);
  }

  lemma StepHadNoFailure(p: Platform, s: Boot, h: PartHeader)
    requires p.Valid() && FlagsAgree(s) && Step(p, s, h).1 != Fallback
    ensures var s' := Step(p, s, h).0; s.calls <= s'.calls && AllOk(p, s.calls, s'.calls - s.calls)
  {
    if Step(p, s, h).1 == Break {
      BreakKeeps(p, s, h);
    } else {
      StepIsProcess(p, s, h);
      if Processed(p, h) {
        ProcessedIsSound(p, s, h);
      }
    }
  }

  /** A walk that does not fall back has met no failing driver call or hook. */
  lemma {:induction false} WalkHadNoFailure(p: Platform, s: Boot, hs: seq<PartHeader>)
    requires p.Valid() && FlagsAgree(s)
    ensures var (s', o) := Walk(p, s, hs);
            o != Fallback ==> s.calls <= s'.calls && AllOk(p, s.calls, s'.calls - s.calls)
    decreases |hs|
  {
    if |hs| > 0 && Step(p, s, hs[0]).1 != Fallback {
      var (s1, o) := Step(p, s, hs[0]);
      StepHadNoFailure(p, s, hs[0]);
      if o == Next {
        StepKeepsFlags(p, s, hs[0]);
        WalkHadNoFailure(p, s1, hs[1..]);
        var s' := Walk(p, s1, hs[1..]).0;
        if s1.calls <= s'.calls {
          AllOkSplit(p, s.calls, s1.calls - s.calls, s'.calls - s1.calls);
        }
      }
    }
  }

  // ---------------------------------------------------------------- before the walk

  lemma AuthenticateCompletesIff(p: Platform, s: Boot, hs: seq<PartHeader>)
    ensures AuthenticateHeaders(p, s, hs).Some? <==>
              AllOk(p, s.calls, 4) && p.headersAuthentic(ImageHeaders(p), hs, HeaderSignature(p))
  {
    AllOkSplit(p, s.calls, 1, 3);
    AllOkSplit(p, s.calls + 1, 1, 2);
    AllOkSplit(p, s.calls + 2, 1, 1);
    AllOkOne(p, s.calls);
    AllOkOne(p, s.calls + 1);
    AllOkOne(p, s.calls + 2);
    AllOkOne(p, s.calls + 3);
  }

  /** The end marker is in the table, and without MMC support there is a partition besides that of FSBL. */
  predicate CountFits(hs: seq<PartHeader>, first: nat) {
    FirstTerminator(hs) < |hs| && (first == 1 ==> 1 < FirstTerminator(hs))
  }

  lemma ReadHeadersCompletesIff(p: Platform, s: Boot, hs: seq<PartHeader>, first: nat)
    ensures ReadHeaders(p, s, hs, first).Some? <==> AllOk(p, s.calls, 3) && CountFits(hs, first)
    ensures ReadHeaders(p, s, hs, first).Some? ==>
              ReadHeaders(p, s, hs, first).value == s.(calls := s.calls + 3)
  {
    AllOkSplit(p, s.calls, 1, 2);
    AllOkSplit(p, s.calls + 1, 1, 1);
    AllOkOne(p, s.calls);
    AllOkOne(p, s.calls + 1);
    AllOkOne(p, s.calls + 2);
  }

  /** Exactly when the boot gets as far as the walk: the reads succeed, the count fits, and where RSA is enabled it
      is built in and the headers are authentic. */
  lemma PrologueCompletesIff(p: Platform, s: Boot, hs: seq<PartHeader>, first: nat)
    ensures Prologue(p, s, hs, first).Some? <==>
              && AllOk(p, s.calls, if p.rsaEnabled then 7 else 3) && CountFits(hs, first)
              && (p.rsaEnabled ==> p.rsaSupport && p.headersAuthentic(ImageHeaders(p), hs, HeaderSignature(p)))
  {
    AllOkSplit(p, s.calls, 3, 4);
    ReadHeadersCompletesIff(p, s, hs, first);
    if ReadHeaders(p, s, hs, first).Some? {
      AuthenticateCompletesIff(p, ReadHeaders(p, s, hs, first).value, hs);
    }
  }

  /** Where the authenticated words lie in flash: the image headers from the offset that the boot header keeps for
      them, and the signature behind the partition header table, found by the offset kept for that; both offsets
      are from the image start, in 32 bits. */
  lemma AuthenticatedWords(p: Platform)
    ensures var l, base := p.layout, p.imageBase as int;
            var headers := (base + p.flash(base + l.imageHeaderOffset)) % WORD_LIMIT;
            var table := (base + p.flash(base + l.partitionHeaderOffset)) % WORD_LIMIT;
            && |ImageHeaders(p)| == l.imageHeaderWords && |HeaderSignature(p)| == l.signatureWords
            && (forall i :: 0 <= i < l.imageHeaderWords ==> ImageHeaders(p)[i] == p.flash(headers + 4 * i))
            && (forall i :: 0 <= i < l.signatureWords ==>
                  HeaderSignature(p)[i] == p.flash(table + 4 * (l.partitionHeaderWords + i)))
  {
  }

  /** The authentication uses the temporary area and no other memory. */
  lemma PrologueWritesTempOnly(p: Platform, s: Boot, hs: seq<PartHeader>, first: nat, a: int, n: nat)
    requires Prologue(p, s, hs, first).Some?
    requires Apart(p.ddrTemp, p.layout.imageHeaderWords, a, n) && Apart(p.ddrTemp, p.layout.signatureWords, a, n)
    ensures ReadRam(p, Prologue(p, s, hs, first).value.ram, a, n) == ReadRam(p, s.ram, a, n)
  {
    ReadHeadersCompletesIff(p, s, hs, first);
    if p.rsaEnabled {
      var ram1 := Poke(s.ram, p.ddrTemp, ImageHeaders(p));
      ReadApart(p, s.ram, p.ddrTemp, ImageHeaders(p), a, n);
      ReadApart(p, ram1, p.ddrTemp, HeaderSignature(p), a, n);
    }
  }
}
