/** What a walk has loaded stays in memory. */
module FsblIntact {
  import opened FsblHeader
  import opened FsblImage
  import opened FsblPartition
  import opened FsblWalk
  import opened FsblOrder

  /** The plaintext of a loaded partition is at its load address. */
  predicate Intact(p: Platform, s: Boot, d: Done) {
    ReadRam(p, s.ram, d.part.loadAddr, d.part.dataWordLen) == PlaintextOf(p, d.part, SourceOf(p, d))
  }

  predicate AllIntact(p: Platform, s: Boot) {
    forall i :: 0 <= i < |s.loaded| ==> Intact(p, s, s.loaded[i])
  }

  /** What loading `later` as PS writes does not meet what `earlier` has left at its load address. */
  predicate LoadsApart(p: Platform, later: PartHeader, earlier: PartHeader) {
    Apart(later.loadAddr, Written(p.linear, FlagsFor(p, later), later), earlier.loadAddr, earlier.dataWordLen)
  }

  predicate AllApart(p: Platform, parts: seq<PartHeader>) {
    forall i, j :: 0 <= i < j < |parts| ==> LoadsApart(p, parts[j], parts[i])
  }

  /** What holds when LoadBootImage returns. */
  ghost predicate ReturnInv(p: Platform, s: Boot) {
    AllIntact(p, s) && BookAgrees(p, s)
  }

  /** Loading one more PS partition leaves the earlier ones in memory. */
  lemma LoadKeepsIntact(p: Platform, s: Boot, h: PartHeader, s': Boot)
    requires Ready(p, s, h) && s.flags.ps && Process(p, s, h) == Some(s') && AllIntact(p, s)
    requires s.flags.Checked() == FlagsFor(p, h).Checked() && s.flags.encrypted == FlagsFor(p, h).encrypted
    requires forall i :: 0 <= i < |s.loaded| ==> LoadsApart(p, h, s.loaded[i].part)
    ensures AllIntact(p, s')
  {
    PsPartitionLoaded(p, s, h, s');
    PsPartitionWrites(p, s, h, s');
    forall i | 0 <= i < |s'.loaded|
      ensures Intact(p, s', s'.loaded[i])
    {
      if i < |s.loaded| {
        var g := s.loaded[i].part;
        assert LoadsApart(p, h, g) && Intact(p, s, s.loaded[i]);
        assert ReadRam(p, s'.ram, g.loadAddr, g.dataWordLen) == ReadRam(p, s.ram, g.loadAddr, g.dataWordLen);
      }
    }
  }

  lemma SameMemoryIntact(p: Platform, s: Boot, s': Boot)
    requires AllIntact(p, s) && s'.ram == s.ram && s'.loaded == s.loaded
    ensures AllIntact(p, s')
  {
    forall i | 0 <= i < |s'.loaded|
      ensures Intact(p, s', s'.loaded[i])
    {
      assert Intact(p, s, s.loaded[i]);
    }
  }

  lemma StepKeepsIntact(p: Platform, s: Boot, h: PartHeader)
    requires p.Valid() && WalkInv(p, s) && AllIntact(p, s)
    requires Processed(p, h) && NextKind(p, KindOf(s.flags), h) == AsPs ==>
               forall i :: 0 <= i < |s.loaded| ==> LoadsApart(p, h, s.loaded[i].part)
    ensures var (s', o) := Step(p, s, h); o != Fallback ==> AllIntact(p, s')
  {
    var (s', o) := Step(p, s, h);
    if o == Break {
      BreakKeeps(p, s, h);
      SameMemoryIntact(p, s, s');
    } else if o == Next {
      StepIsProcess(p, s, h);
      StepFollowsKind(p, s, h);
      if Processed(p, h) {
        var s1 := Prepared(p, s, h);
        SameMemoryIntact(p, s, s1);
        if s1.flags.ps {
          LoadKeepsIntact(p, s1, h, s');
        } else {
          BodyRecords(p, s1, h, s');
          assert s'.loaded == [];
        }
      } else {
        SameMemoryIntact(p, s, s');
      }
    }
  }

  /** What has been loaded and what will be. */
  function LoadedOverall(p: Platform, s: Boot, hs: seq<PartHeader>): seq<PartHeader> {
    var k := KindOf(s.flags);
    Parts(s.loaded) + Served(p, k, Visited(p, k, hs), AsPs)
  }

  lemma NextIsApart(p: Platform, s: Boot, hs: seq<PartHeader>)
    requires 0 < |hs| && AllApart(p, LoadedOverall(p, s, hs))
    requires Processed(p, hs[0]) && NextKind(p, KindOf(s.flags), hs[0]) == AsPs && !Stops(p, KindOf(s.flags), hs[0])
    ensures forall i :: 0 <= i < |s.loaded| ==> LoadsApart(p, hs[0], s.loaded[i].part)
  {
    var n, all := |s.loaded|, LoadedOverall(p, s, hs);
    VisitedRest(p, KindOf(s.flags), hs);
    ServedOne(p, KindOf(s.flags), hs[0], AsPs);
    assert all[n] == hs[0];
    forall i | 0 <= i < n
      ensures LoadsApart(p, hs[0], s.loaded[i].part)
    {
      assert all[i] == s.loaded[i].part;
      assert LoadsApart(p, all[n], all[i]);
    }
  }

  lemma SameOverall(p: Platform, s: Boot, hs: seq<PartHeader>)
    requires FlagsAgree(s) && 0 < |hs| && Step(p, s, hs[0]).1 == Next
    ensures LoadedOverall(p, Step(p, s, hs[0]).0, hs[1..]) == LoadedOverall(p, s, hs)
  {
    var k, s1 := KindOf(s.flags), Step(p, s, hs[0]).0;
    var next := NextKind(p, k, hs[0]);
    var rest := Visited(p, next, hs[1..]);
    StepServesInOrder(p, s, hs[0]);
    VisitedRest(p, k, hs);
    InTurn(Parts(s.loaded), Parts(s1.loaded), Parts(s1.loaded) + Served(p, next, rest, AsPs),
           Served(p, k, [hs[0]], AsPs), Served(p, next, rest, AsPs));
  }

  lemma {:induction false} WalkKeepsIntact(p: Platform, s: Boot, hs: seq<PartHeader>)
    requires p.Valid() && WalkInv(p, s) && AllIntact(p, s) && AllApart(p, LoadedOverall(p, s, hs))
    ensures var (s', o) := Walk(p, s, hs); o != Fallback ==> AllIntact(p, s')
    decreases |hs|
  {
    if |hs| > 0 {
      var (s1, o) := Step(p, s, hs[0]);
      if o == Next {
        StepKeeps(p, s, hs[0]);
        StepFollowsKind(p, s, hs[0]);
        if Processed(p, hs[0]) && NextKind(p, KindOf(s.flags), hs[0]) == AsPs {
          NextIsApart(p, s, hs);
        }
        StepKeepsIntact(p, s, hs[0]);
        SameOverall(p, s, hs);
        WalkKeepsIntact(p, s1, hs[1..]);
      } else if o == Break {
        BreakKeeps(p, s, hs[0]);
        SameMemoryIntact(p, s, s1);
      }
    }
  }

  /** Staging never destroys an application: when the boot returns, every partition it loaded as PS is intact,
      even where it overlaps the temporary area for bitstreams, if only no later one of them is loaded over it.
      The fabric has been loaded once for each body completed as PL, in order, and the address returned is that
      of the first partition loaded, or 0. Each body's words are those of its image wherever the copy contains
      it, which ImageIsUsedIff makes exact. */
  lemma BootReturnsIntact(p: Platform, s: Boot, hs: seq<PartHeader>)
    requires p.Valid() && FromReset(s)
    requires AllApart(p, Served(p, Neither, Visited(p, Neither, hs), AsPs))
    ensures var (s', o) := Walk(p, s, hs); o != Fallback ==> ReturnInv(p, s')
  {
    assert LoadedOverall(p, s, hs) == Served(p, Neither, Visited(p, Neither, hs), AsPs);
    WalkKeeps(p, s, hs);
    WalkKeepsIntact(p, s, hs);
  }
}
