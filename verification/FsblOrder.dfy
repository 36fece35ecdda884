/** Which partitions a walk serves, and in what order, read off the headers alone; and what a watchdog restart
    does to the fabric. */
module FsblOrder {
  import opened FsblHeader
  import opened FsblImage
  import opened FsblPartition
  import opened FsblWalk

  /** What the sticky flags take an unmarked partition for. */
  datatype Kind = Neither | AsPl | AsPs

  function KindOf(f: Flags): Kind {
    if f.pl then AsPl else if f.ps then AsPs else Neither
  }

  /** The kind of a partition, and of the unmarked ones after it: its own mark, or that of the last owned
      partition that had one. A partition marked both ways counts as PS, unless the watchdog made it skip. */
  function NextKind(p: Platform, k: Kind, h: PartHeader): Kind {
    var a := p.attributes(h.attr);
    if !a.ownerFsbl then k
    else if a.ps && !(a.pl && p.wdtReset) then AsPs
    else if a.pl then AsPl
    else k
  }

  function KindAfter(p: Platform, k: Kind, hs: seq<PartHeader>): Kind
    decreases |hs|
  {
    if |hs| == 0 then k else KindAfter(p, NextKind(p, k, hs[0]), hs[1..])
  }

  /** The walk ends before this partition: a bitstream after an application, or a PS partition for address 0
      that is neither signed nor encrypted. */
  predicate Stops(p: Platform, k: Kind, h: PartHeader) {
    var a := p.attributes(h.attr);
    && a.ownerFsbl
    && ((a.pl && k == AsPs)
        || (Processed(p, h) && NextKind(p, k, h) == AsPs && h.loadAddr == 0 < p.ddrStart
            && !a.rsa && h.dataWordLen == h.imageWordLen))
  }

  /** The partitions before the first that ends the walk. */
  function Visited(p: Platform, k: Kind, hs: seq<PartHeader>): (r: seq<PartHeader>)
    ensures r <= hs
    decreases |hs|
  {
    if |hs| == 0 || Stops(p, k, hs[0]) then [] else [hs[0]] + Visited(p, NextKind(p, k, hs[0]), hs[1..])
  }

  /** The partitions of a list that are processed as `kind`, in list order and once each. */
  function Served(p: Platform, k: Kind, hs: seq<PartHeader>, kind: Kind): seq<PartHeader>
    decreases |hs|
  {
    if |hs| == 0 then []
    else
      var next := NextKind(p, k, hs[0]);
      (if Processed(p, hs[0]) && next == kind then [hs[0]] else []) + Served(p, next, hs[1..], kind)
  }

  function Parts(done: seq<Done>): (r: seq<PartHeader>)
    ensures |r| == |done|
  {
    seq(|done|, i requires 0 <= i < |done| => done[i].part)
  }

  lemma PartsAppend(done: seq<Done>, d: Done)
    ensures Parts(done + [d]) == Parts(done) + [d.part]
  {
  }

  // ---------------------------------------------------------------- the walk follows the headers

  lemma ServedOne(p: Platform, k: Kind, h: PartHeader, kind: Kind)
    ensures Served(p, k, [h], kind) == if Processed(p, h) && NextKind(p, k, h) == kind then [h] else []
  {
    assert [h][1..] == [];
  }

  /** The flags follow the marks. */
  lemma StepFollowsKind(p: Platform, s: Boot, h: PartHeader)
    requires FlagsAgree(s) && Step(p, s, h).1 == Next
    ensures !Stops(p, KindOf(s.flags), h)
    ensures KindOf(Step(p, s, h).0.flags) == NextKind(p, KindOf(s.flags), h)
    ensures Processed(p, h) ==> KindOf(Prepared(p, s, h).flags) == NextKind(p, KindOf(s.flags), h)
  {
    StepIsProcess(p, s, h);
    if Processed(p, h) {
      BodyRecords(p, Prepared(p, s, h), h, Step(p, s, h).0);
    }
  }

  lemma StepServesInOrder(p: Platform, s: Boot, h: PartHeader)
    requires FlagsAgree(s) && Step(p, s, h).1 == Next
    ensures var s', k := Step(p, s, h).0, KindOf(s.flags);
            !Stops(p, k, h) && KindOf(s'.flags) == NextKind(p, k, h) && ServedBetween(p, k, [h], s, s')
  {
    StepFollowsKind(p, s, h);
    StepIsProcess(p, s, h);
    ServedOne(p, KindOf(s.flags), h, AsPs);
    ServedOne(p, KindOf(s.flags), h, AsPl);
    if Processed(p, h) {
      var s1 := Prepared(p, s, h);
      BodyRecords(p, s1, h, Step(p, s, h).0);
      PartsAppend(s.loaded, Done(h, s1.flags, s1.ram));
      PartsAppend(s.programmed, Done(h, s1.flags, s1.ram));
    }
  }

  lemma BreakStops(p: Platform, s: Boot, h: PartHeader)
    requires FlagsAgree(s) && Step(p, s, h).1 == Break
    ensures Stops(p, KindOf(s.flags), h)
  {
  }

  /** Between the two states exactly the partitions `v` were served, from kind `k` on. */
  predicate ServedBetween(p: Platform, k: Kind, v: seq<PartHeader>, s: Boot, s': Boot) {
    && Parts(s'.loaded) == Parts(s.loaded) + Served(p, k, v, AsPs)
    && Parts(s'.programmed) == Parts(s.programmed) + Served(p, k, v, AsPl)
  }

  lemma InTurn(a: seq<PartHeader>, b: seq<PartHeader>, c: seq<PartHeader>, x: seq<PartHeader>, y: seq<PartHeader>)
    requires b == a + x && c == b + y
    ensures c == a + (x + y)
  {
  }

  lemma ServedInTurn(p: Platform, k: Kind, hs: seq<PartHeader>, s: Boot, s1: Boot, s': Boot)
    requires 0 < |hs| && !Stops(p, k, hs[0]) && ServedBetween(p, k, [hs[0]], s, s1)
    requires var next := NextKind(p, k, hs[0]); ServedBetween(p, next, Visited(p, next, hs[1..]), s1, s')
    ensures ServedBetween(p, k, Visited(p, k, hs), s, s')
  {
    var next := NextKind(p, k, hs[0]);
    var rest := Visited(p, next, hs[1..]);
    VisitedRest(p, k, hs);
    InTurn(Parts(s.loaded), Parts(s1.loaded), Parts(s'.loaded),
           Served(p, k, [hs[0]], AsPs), Served(p, next, rest, AsPs));
    InTurn(Parts(s.programmed), Parts(s1.programmed), Parts(s'.programmed),
           Served(p, k, [hs[0]], AsPl), Served(p, next, rest, AsPl));
  }

  /** Whenever a walk does not fall back, it has served exactly the partitions before the first that ends it, in
      list order and once each, and it reached the end of the list if and only if none does. */
  lemma {:induction false} WalkServesInOrder(p: Platform, s: Boot, hs: seq<PartHeader>)
    requires FlagsAgree(s)
    ensures var (s', o) := Walk(p, s, hs);
            var k := KindOf(s.flags);
            var v := Visited(p, k, hs);
            o != Fallback ==> ServedBetween(p, k, v, s, s') && (o == Next <==> v == hs)
    decreases |hs|
  {
    if |hs| > 0 {
      var (s1, o) := Step(p, s, hs[0]);
      if o == Next {
        StepKeepsFlags(p, s, hs[0]);
        StepServesInOrder(p, s, hs[0]);
        WalkServesInOrder(p, s1, hs[1..]);
        if Walk(p, s1, hs[1..]).1 != Fallback {
          VisitedRest(p, KindOf(s.flags), hs);
          ServedInTurn(p, KindOf(s.flags), hs, s, s1, Walk(p, s1, hs[1..]).0);
        }
      } else if o == Break {
        BreakStops(p, s, hs[0]);
        BreakKeeps(p, s, hs[0]);
      }
    }
  }

  lemma VisitedRest(p: Platform, k: Kind, hs: seq<PartHeader>)
    requires 0 < |hs| && !Stops(p, k, hs[0])
    ensures var next := NextKind(p, k, hs[0]);
            var rest := Visited(p, next, hs[1..]);
            var v := Visited(p, k, hs);
            && (v == hs <==> rest == hs[1..])
            && Served(p, k, v, AsPs) == Served(p, k, [hs[0]], AsPs) + Served(p, next, rest, AsPs)
            && Served(p, k, v, AsPl) == Served(p, k, [hs[0]], AsPl) + Served(p, next, rest, AsPl)
  {
    var v := Visited(p, k, hs);
    assert v[1..] == Visited(p, NextKind(p, k, hs[0]), hs[1..]);
    assert hs == [hs[0]] + hs[1..];
    assert [hs[0]][1..] == [];
  }

  /** From reset: what is loaded and programmed, and every load of the fabric, as the headers say. */
  lemma BootServesInOrder(p: Platform, s: Boot, hs: seq<PartHeader>)
    requires p.Valid() && FromReset(s)
    ensures var (s', o) := Walk(p, s, hs);
            var v := Visited(p, Neither, hs);
            o != Fallback ==>
              && Parts(s'.loaded) == Served(p, Neither, v, AsPs)
              && Parts(s'.programmed) == Served(p, Neither, v, AsPl)
              && FabricEvents(s'.trace) == FabricsOf(p, s'.programmed)
  {
    WalkServesInOrder(p, s, hs);
    WalkKeeps(p, s, hs);
  }

  // ---------------------------------------------------------------- the flags at the end

  predicate MarkedPl(p: Platform, h: PartHeader) {
    p.attributes(h.attr).ownerFsbl && p.attributes(h.attr).pl
  }

  /** Owned, and processed as PS for its own mark. */
  predicate MarkedPs(p: Platform, h: PartHeader) {
    Processed(p, h) && p.attributes(h.attr).ps
  }

  predicate AnyPl(p: Platform, hs: seq<PartHeader>) {
    exists i :: 0 <= i < |hs| && MarkedPl(p, hs[i])
  }

  predicate AnyPs(p: Platform, hs: seq<PartHeader>) {
    exists i :: 0 <= i < |hs| && MarkedPs(p, hs[i])
  }

  lemma AnyFirst(p: Platform, h: PartHeader, rest: seq<PartHeader>)
    ensures AnyPl(p, [h] + rest) <==> MarkedPl(p, h) || AnyPl(p, rest)
    ensures AnyPs(p, [h] + rest) <==> MarkedPs(p, h) || AnyPs(p, rest)
  {
    var all := [h] + rest;
    assert all[0] == h && forall i :: 0 <= i < |rest| ==> all[i + 1] == rest[i];
  }

  lemma StepSetsFlags(p: Platform, s: Boot, h: PartHeader)
    requires Step(p, s, h).1 == Next
    ensures var f' := Step(p, s, h).0.flags;
            && f'.application == (s.flags.application || MarkedPs(p, h))
            && f'.bitstream == if !MarkedPl(p, h) then s.flags.bitstream else !p.wdtReset
  {
    StepIsProcess(p, s, h);
    if Processed(p, h) {
      BodyRecords(p, Prepared(p, s, h), h, Step(p, s, h).0);
    }
  }

  lemma BreakSetsFlags(p: Platform, s: Boot, h: PartHeader)
    requires FlagsAgree(s) && Step(p, s, h).1 == Break
    ensures var f' := Step(p, s, h).0.flags;
            && f'.application == (s.flags.application || p.attributes(h.attr).ps)
            && f'.bitstream == (s.flags.bitstream || MarkedPl(p, h))
  {
  }

  /** The two flags that the handoff looks at: an application was seen if a partition marked PS was visited, or
      ended the walk; a bitstream was, if one was visited and not skipped by a watchdog restart, or if one ended
      the walk. */
  predicate FlagsSay(p: Platform, f: Flags, f': Flags, hs: seq<PartHeader>, v: seq<PartHeader>)
    requires v <= hs
  {
    && (f'.application <==> f.application || AnyPs(p, v) || (v != hs && p.attributes(hs[|v|].attr).ps))
    && (f'.bitstream <==> f.bitstream || (!p.wdtReset && AnyPl(p, v)) || (v != hs && MarkedPl(p, hs[|v|])))
  }

  lemma FlagsSayRest(p: Platform, k: Kind, f: Flags, f1: Flags, f': Flags, hs: seq<PartHeader>)
    requires 0 < |hs| && !Stops(p, k, hs[0])
    requires f1.application == (f.application || MarkedPs(p, hs[0]))
    requires f1.bitstream == (f.bitstream || (!p.wdtReset && MarkedPl(p, hs[0])))
    requires FlagsSay(p, f1, f', hs[1..], Visited(p, NextKind(p, k, hs[0]), hs[1..]))
    ensures FlagsSay(p, f, f', hs, Visited(p, k, hs))
  {
    var rest := Visited(p, NextKind(p, k, hs[0]), hs[1..]);
    AnyFirst(p, hs[0], rest);
    VisitedRest(p, k, hs);
    assert rest != hs[1..] ==> hs[1..][|rest|] == hs[|rest| + 1];
  }

  lemma {:induction false} WalkSetsFlags(p: Platform, s: Boot, hs: seq<PartHeader>)
    requires FlagsAgree(s) && (p.wdtReset ==> !s.flags.bitstream)
    ensures var (s', o) := Walk(p, s, hs);
            o != Fallback ==> FlagsSay(p, s.flags, s'.flags, hs, Visited(p, KindOf(s.flags), hs))
    decreases |hs|
  {
    if |hs| > 0 {
      var (s1, o) := Step(p, s, hs[0]);
      if o == Next {
        StepKeepsFlags(p, s, hs[0]);
        StepFollowsKind(p, s, hs[0]);
        StepSetsFlags(p, s, hs[0]);
        WalkSetsFlags(p, s1, hs[1..]);
        if Walk(p, s1, hs[1..]).1 != Fallback {
          FlagsSayRest(p, KindOf(s.flags), s.flags, s1.flags, Walk(p, s1, hs[1..]).0.flags, hs);
        }
      } else if o == Break {
        BreakStops(p, s, hs[0]);
        BreakSetsFlags(p, s, hs[0]);
      }
    }
  }

  // ---------------------------------------------------------------- a watchdog restart

  /** Owned by FSBL, and marked neither PL nor PS. */
  predicate Unmarked(p: Platform, h: PartHeader) {
    var a := p.attributes(h.attr);
    a.ownerFsbl && !a.pl && !a.ps
  }

  /** Somewhere in the list an unmarked partition follows a skipped bitstream that was the last marked one. */
  ghost predicate UnmarkedAfterPl(p: Platform, k: Kind, hs: seq<PartHeader>) {
    exists i :: 0 <= i < |hs| && Unmarked(p, hs[i]) && KindAfter(p, k, hs[..i]) == AsPl
  }

  lemma UnmarkedAfterPlRest(p: Platform, k: Kind, hs: seq<PartHeader>)
    requires 0 < |hs|
    ensures UnmarkedAfterPl(p, k, hs)
            <==> (Unmarked(p, hs[0]) && k == AsPl) || UnmarkedAfterPl(p, NextKind(p, k, hs[0]), hs[1..])
  {
    var next := NextKind(p, k, hs[0]);
    forall i | 0 < i < |hs|
      ensures KindAfter(p, k, hs[..i]) == KindAfter(p, next, hs[1..][..i - 1]) && hs[i] == hs[1..][i - 1]
    {
      assert hs[..i][1..] == hs[1..][..i - 1];
    }
    if UnmarkedAfterPl(p, next, hs[1..]) {
      var i :| 0 <= i < |hs[1..]| && Unmarked(p, hs[1..][i]) && KindAfter(p, next, hs[1..][..i]) == AsPl;
      assert KindAfter(p, k, hs[..i + 1]) == AsPl;
    }
    if Unmarked(p, hs[0]) && k == AsPl {
      assert KindAfter(p, k, hs[..0]) == AsPl;
    }
  }

  lemma {:induction false} ServedAsPlIff(p: Platform, k: Kind, hs: seq<PartHeader>)
    requires p.wdtReset
    ensures Served(p, k, hs, AsPl) != [] <==> UnmarkedAfterPl(p, k, hs)
    decreases |hs|
  {
    if |hs| > 0 {
      UnmarkedAfterPlRest(p, k, hs);
      ServedAsPlIff(p, NextKind(p, k, hs[0]), hs[1..]);
    }
  }

  /** A watchdog restart leaves the fabric untouched if and only if no partition that the walk visits is
      unmarked while a skipped bitstream was the last marked one: the PL flag of the bitstream sticks, and the
      unmarked partition is programmed in its place. */
  lemma WatchdogSparesFabricIff(p: Platform, s: Boot, hs: seq<PartHeader>)
    requires p.Valid() && FromReset(s) && p.wdtReset && Walk(p, s, hs).1 != Fallback
    ensures FabricEvents(Walk(p, s, hs).0.trace) == []
            <==> !UnmarkedAfterPl(p, Neither, Visited(p, Neither, hs))
  {
    BootServesInOrder(p, s, hs);
    ServedAsPlIff(p, Neither, Visited(p, Neither, hs));
    var s' := Walk(p, s, hs).0;
    assert |FabricEvents(s'.trace)| == |Parts(s'.programmed)|;
  }

  /** For one, a bitstream and then an unmarked partition. */
  lemma WatchdogProgramsUnmarked(p: Platform, s: Boot, pl: PartHeader, other: PartHeader)
    requires p.Valid() && FromReset(s) && p.wdtReset && Walk(p, s, [pl, other]).1 != Fallback
    requires p.attributes(pl.attr).ownerFsbl && p.attributes(pl.attr).pl && Unmarked(p, other)
    ensures FabricEvents(Walk(p, s, [pl, other]).0.trace) != []
  {
    var hs := [pl, other];
    assert hs[1..] == [other] && [other][1..] == [] && hs[..1] == [pl] && [pl][1..] == [];
    assert NextKind(p, Neither, pl) == AsPl;
    assert Visited(p, Neither, hs) == hs;
    assert KindAfter(p, Neither, hs[..1]) == AsPl && Unmarked(p, hs[1]);
    WatchdogSparesFabricIff(p, s, hs);
  }
}
