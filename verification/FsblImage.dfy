/** What LoadBootImage and PartitionMove (image_mover.c) do to memory and fabric, stage by stage. A stage
    that meets a failing driver call, check or hook has no result: FsblFallback does not return. */
module FsblImage {
  import opened Word32
  import opened FsblHeader

  datatype Option<+T> = None | Some(value: T) {
    predicate IsFailure() {
      None?
    }

    function PropagateFailure<U>(): Option<U>
      requires None?
    {
      None
    }

    function Extract(): T
      requires Some?
    {
      value
    }
  }

  /** The attribute bits of a partition: owner, PL image, PS image, checksum present, RSA present. */
  datatype Attributes = Attributes(ownerFsbl: bool, pl: bool, ps: bool, checksum: bool, rsa: bool)

  /** RAM by byte address; an address never written reads as the arbitrary initial contents. */
  type Ram = map<int, Word>

  /** Offsets and sizes of image_mover.h: where the boot header keeps the two header offsets, and in words the
      image headers with their table, the partition header table, and the header signature. */
  datatype HeaderLayout = HeaderLayout(imageHeaderOffset: nat, partitionHeaderOffset: nat,
                                       imageHeaderWords: nat, partitionHeaderWords: nat, signatureWords: nat)

  /** Everything the code reads but does not change: the boot device, the build, the eFUSE that demands RSA, the
      addresses of fsbl.h and image_mover.h, the flash contents by byte offset, and oracles for what is behind
      the drivers. The k-th driver call or hook succeeds if and only if ok(k). */
  datatype Platform = Platform(
    linear: bool, rsaSupport: bool, rsaEnabled: bool, wdtReset: bool, encryptOnly: bool,
    layout: HeaderLayout,
    flashBase: nat, imageBase: Word, ddrStart: nat, ddrEnd: nat, ddrTemp: nat,
    flash: int -> Word,
    initial: int -> Word,
    attributes: Word -> Attributes,
    plain: (seq<Word>, nat, int) -> Word,
    checksumMatches: (seq<Word>, Word) -> bool,
    authentic: seq<Word> -> bool,
    headersAuthentic: (seq<Word>, seq<PartHeader>, seq<Word>) -> bool,
    ok: nat -> bool)
  {
    predicate Valid() {
      0 < ddrStart <= ddrEnd < flashBase && ddrTemp < flashBase
    }
  }

  datatype Flags = Flags(pl: bool, ps: bool, encrypted: bool, signed: bool, checksum: bool,
                         bitstream: bool, application: bool)
  {
    predicate Checked() {
      signed || checksum
    }
  }

  /** What happens to a partition apart from memory: the decryption of a ciphertext, a passed check of the
      words it looked at, a load of the fabric, and the two user hooks. */
  datatype Event =
    | Decrypted(cipher: seq<Word>, words: nat)
    | ChecksumPassed(data: seq<Word>)
    | SignaturePassed(data: seq<Word>)
    | FabricLoaded(data: seq<Word>, dataWords: nat, encrypted: bool)
    | HookBefore
    | HookAfter

  /** A completed body: its partition, the flags it ran with, and the memory before it. */
  datatype Done = Done(part: PartHeader, flags: Flags, before: Ram)

  /** The globals of image_mover.c and the locals that survive an iteration. `calls` counts driver calls,
      `trace` is what happened; `loaded` and `programmed` are the bodies completed as PS and as PL. */
  datatype Boot = Boot(flags: Flags, ram: Ram, calls: nat, trace: seq<Event>,
                       execAddress: Word, execAddrFlag: bool,
                       loaded: seq<Done>, programmed: seq<Done>)

  // ---------------------------------------------------------------- memory

  function Peek(p: Platform, ram: Ram, a: int): Word {
    if a in ram then ram[a] else p.initial(a)
  }

  function Poke(ram: Ram, addr: int, data: seq<Word>): Ram {
    ram + map i | 0 <= i < |data| :: (addr + 4 * i) := data[i]
  }

  /** `n` words of RAM from a byte address. */
  function ReadRam(p: Platform, ram: Ram, addr: int, n: nat): (w: seq<Word>)
    ensures |w| == n
  {
    seq(n, i => Peek(p, ram, addr + 4 * i))
  }

  function ReadFlash(p: Platform, offset: int, n: nat): (w: seq<Word>)
    ensures |w| == n
  {
    seq(n, i => p.flash(offset + 4 * i))
  }

  /** A read on the bus: a linear boot device is mapped at its base address. */
  function ReadBus(p: Platform, ram: Ram, addr: int, n: nat): (w: seq<Word>)
    ensures |w| == n
  {
    if p.linear && addr >= p.flashBase then ReadFlash(p, addr - p.flashBase, n) else ReadRam(p, ram, addr, n)
  }

  /** The AES engine: `words` words of plaintext from a ciphertext. */
  function Plain(p: Platform, cipher: seq<Word>, words: nat): (w: seq<Word>)
    ensures |w| == words
  {
    seq(words, i => PlainWord(p, cipher, words, i))
  }

  function PlainWord(p: Platform, cipher: seq<Word>, words: nat, i: int): Word {
    p.plain(cipher, words, i)
  }

  /** A word count after `<< WORD_LENGTH_SHIFT` in 32 bits and back. */
  function MoveWords(n: Word): nat {
    n % 0x4000_0000
  }

  /** Where a partition starts on the boot device. */
  function SourceOffset(p: Platform, h: PartHeader): Word {
    (p.imageBase + 4 * h.partitionStart) % WORD_LIMIT
  }

  /** The first `n` words of a partition on the boot device. */
  function Image(p: Platform, h: PartHeader, n: nat): (w: seq<Word>)
    ensures |w| == n
  {
    ReadFlash(p, SourceOffset(p, h), n)
  }

  lemma ReadAfterPoke(p: Platform, ram: Ram, addr: int, data: seq<Word>, n: nat)
    requires n <= |data|
    ensures ReadRam(p, Poke(ram, addr, data), addr, n) == data[..n]
  {
    var ram' := Poke(ram, addr, data);
    forall i | 0 <= i < n
      ensures Peek(p, ram', addr + 4 * i) == data[i]
    {
      assert addr + 4 * i in ram';
    }
  }

  predicate Apart(a: int, m: nat, b: int, n: nat) {
    a + 4 * m <= b || b + 4 * n <= a
  }

  lemma ReadApart(p: Platform, ram: Ram, addr: int, data: seq<Word>, other: int, n: nat)
    requires Apart(addr, |data|, other, n)
    ensures ReadRam(p, Poke(ram, addr, data), other, n) == ReadRam(p, ram, other, n)
  {
    forall i | 0 <= i < n
      ensures Peek(p, Poke(ram, addr, data), other + 4 * i) == Peek(p, ram, other + 4 * i)
    {
      assert forall j :: 0 <= j < |data| ==> addr + 4 * j != other + 4 * i;
    }
  }

  // ---------------------------------------------------------------- stages

  /** Some driver call: it succeeds as the platform says, and is counted. */
  function Call(p: Platform, s: Boot): Option<Boot> {
    if p.ok(s.calls) then Some(s.(calls := s.calls + 1)) else None
  }

  function Log(s: Boot, e: Event): Boot {
    s.(trace := s.trace + [e])
  }

  /** A user hook, for a partition processed as PL. */
  function Hook(p: Platform, s: Boot, e: Event): Option<Boot> {
    if s.flags.pl then
      var s1 :- Call(p, s);
      Some(Log(s1, e))
    else Some(s)
  }

  /** MoveImage(SourceAddr, dst, n << 2) from a non-linear device. */
  function MoveImage(p: Platform, s: Boot, h: PartHeader, dst: int, n: Word): Option<Boot> {
    var s1 :- Call(p, s);
    Some(s1.(ram := Poke(s1.ram, dst, Image(p, h, MoveWords(n)))))
  }

  /** PcapDataTransfer. The PCAP copies as many words as it reads, or decrypts. */
  function PcapDataTransfer(p: Platform, s: Boot, src: int, dst: int, srcWords: nat, dstWords: nat, secure: bool)
    : Option<Boot>
  {
    var s1 :- Call(p, s);
    var data := ReadBus(p, s1.ram, src, srcWords);
    if secure then
      Some(Log(s1.(ram := Poke(s1.ram, dst, Plain(p, data, dstWords))), Decrypted(data, dstWords)))
    else
      Some(s1.(ram := Poke(s1.ram, dst, data)))
  }

  function PcapLoadPartition(p: Platform, s: Boot, src: int, srcWords: nat, dstWords: nat, encrypted: bool)
    : Option<Boot>
  {
    var s1 :- Call(p, s);
    Some(Log(s1, FabricLoaded(ReadBus(p, s1.ram, src, srcWords), dstWords, encrypted)))
  }

  /** How many words PartitionMove copies: all of a partition that is to be checked, else the image. */
  function MoveLength(f: Flags, h: PartHeader): Word {
    if f.Checked() then h.partitionWordLen else h.imageWordLen
  }

  /** PartitionMove for PL: to the temporary area if it is to be checked, else straight to the fabric. */
  function MoveBitstream(p: Platform, s: Boot, h: PartHeader): Option<Boot> {
    var n := MoveLength(s.flags, h);
    var flashAddr := SourceOffset(p, h) + p.flashBase;
    if p.linear then
      if s.flags.Checked() then PcapDataTransfer(p, s, flashAddr, p.ddrTemp, n, n, false)
      else PcapLoadPartition(p, s, flashAddr, n, h.dataWordLen, s.flags.encrypted)
    else
      var s1 :- MoveImage(p, s, h, p.ddrTemp, n);
      if s.flags.Checked() then Some(s1) else PcapLoadPartition(p, s1, p.ddrTemp, n, h.dataWordLen, s.flags.encrypted)
  }

  /** PartitionMove for PS: to the load address, decrypted on the way unless it is to be checked first. */
  function MoveApplication(p: Platform, s: Boot, h: PartHeader): Option<Boot> {
    var n := MoveLength(s.flags, h);
    var secure := s.flags.encrypted && !s.flags.Checked();
    if p.linear then
      PcapDataTransfer(p, s, SourceOffset(p, h) + p.flashBase, h.loadAddr,
                       n, if secure then h.dataWordLen else n, secure)
    else
      var s1 :- MoveImage(p, s, h, h.loadAddr, n);
      if secure then PcapDataTransfer(p, s1, h.loadAddr, h.loadAddr, n, h.dataWordLen, true) else Some(s1)
  }

  /** PartitionMove, by what kind of partition it moves. */
  function Move(p: Platform, s: Boot, h: PartHeader): Option<Boot> {
    if s.flags.pl then MoveBitstream(p, s, h)
    else if s.flags.ps then MoveApplication(p, s, h)
    else if p.linear then Some(s)
    else MoveImage(p, s, h, h.loadAddr, MoveLength(s.flags, h))
  }

  /** Where the checks and the later stages find the partition. */
  function StagedAt(p: Platform, f: Flags, h: PartHeader): int {
    if f.pl then p.ddrTemp else h.loadAddr
  }

  /** ValidateParition and AuthenticatePartition, as the attributes request. */
  function Verify(p: Platform, s: Boot, h: PartHeader): Option<Boot> {
    var data := ReadBus(p, s.ram, StagedAt(p, s.flags, h), MoveWords(h.partitionWordLen));
    var s1 :- VerifyChecksum(p, s, h, data);
    if s.flags.signed then
      if p.rsaSupport && p.authentic(data) then Some(Log(s1, SignaturePassed(data))) else None
    else Some(s1)
  }

  function VerifyChecksum(p: Platform, s: Boot, h: PartHeader, data: seq<Word>): Option<Boot> {
    if s.flags.checksum then
      var s1 :- Call(p, s);
      if p.checksumMatches(data, h.checksumOffset) then Some(Log(s1, ChecksumPassed(data))) else None
    else Some(s)
  }

  /** After the checks: DecryptPartition for PS, the fabric for PL. */
  function Unpack(p: Platform, s: Boot, h: PartHeader): Option<Boot> {
    var at := StagedAt(p, s.flags, h);
    var s1 :- if s.flags.encrypted && s.flags.ps
              then PcapDataTransfer(p, s, at, at, h.imageWordLen, h.dataWordLen, true)
              else Some(s);
    if s.flags.pl then PcapLoadPartition(p, s1, at, h.imageWordLen, h.dataWordLen, s.flags.encrypted) else Some(s1)
  }

  /** From the first hook to the end of the loop body. */
  function Process(p: Platform, s: Boot, h: PartHeader): Option<Boot> {
    var s1 :- Hook(p, s, HookBefore);
    var s2 :- Move(p, s1, h);
    var s3 :- if s.flags.Checked() then Verify(p, s2, h) else Some(s2);
    var s4 :- if s.flags.Checked() then Unpack(p, s3, h) else Some(s3);
    var s5 :- Hook(p, s4, HookAfter);
    Some(if s.flags.pl then s5.(programmed := s5.programmed + [Done(h, s.flags, s.ram)])
         else if s.flags.ps then s5.(loaded := s5.loaded + [Done(h, s.flags, s.ram)])
         else s5)
  }

  // ---------------------------------------------------------------- the loop body

  datatype Outcome = Next | Break | Fallback

  /** The flags after the partition's attributes have been looked at; they stick from one to the next. */
  function Attributed(f: Flags, a: Attributes): Flags {
    var f1 := if a.pl then f.(pl := true, ps := false, bitstream := true) else f;
    if a.ps then f1.(ps := true, pl := false, application := true) else f1
  }

  function Requested(f: Flags, a: Attributes, h: PartHeader): Flags {
    f.(encrypted := h.dataWordLen != h.imageWordLen, checksum := a.checksum, signed := a.rsa)
  }

  /** The load address check of the DDR build: Next when it passes. */
  function CheckLoadAddr(p: Platform, f: Flags, h: PartHeader): Outcome {
    if f.ps && h.loadAddr < p.ddrStart then
      if h.loadAddr == 0 && !(f.signed || f.encrypted) then Break else Fallback
    else if f.ps && h.loadAddr > p.ddrEnd then Fallback
    else Next
  }

  /** The loop body once the flags are set. After Fallback the state means nothing. */
  function Body(p: Platform, s: Boot, h: PartHeader): (Boot, Outcome) {
    if p.encryptOnly && !s.flags.encrypted then (s, Fallback)
    else
      var check := CheckLoadAddr(p, s.flags, h);
      if check != Next then (s, check)
      else
        var s1 := if s.flags.ps && !s.execAddrFlag then s.(execAddrFlag := true, execAddress := h.execAddr) else s;
        match Process(p, s1, h)
        case Some(s2) => (s2, Next)
        case None => (s1, Fallback)
  }

  /** One iteration of the loop in LoadBootImage. */
  function Step(p: Platform, s: Boot, h: PartHeader): (Boot, Outcome) {
    var a := p.attributes(h.attr);
    if !HeaderValid(h) then (s, Fallback)
    else if !a.ownerFsbl then (s, Next)
    else if a.pl && s.flags.application then
      (s.(flags := s.flags.(pl := true, ps := false, bitstream := true)), Break)
    else if a.pl && p.wdtReset then
      (s.(flags := s.flags.(pl := true, ps := false, bitstream := false)), Next)
    else Body(p, s.(flags := Requested(Attributed(s.flags, a), a, h)), h)
  }

  /** The loop over the partitions. */
  function Walk(p: Platform, s: Boot, hs: seq<PartHeader>): (Boot, Outcome)
    decreases |hs|
  {
    if |hs| == 0 then (s, Next)
    else
      var (s1, o) := Step(p, s, hs[0]);
      if o == Next then Walk(p, s1, hs[1..]) else (s1, o)
  }

  // ---------------------------------------------------------------- before the walk

  /** Where a header starts whose offset the boot header keeps at `at`. */
  function HeaderAddr(p: Platform, at: nat): int {
    (p.imageBase + p.flash(p.imageBase + at)) % WORD_LIMIT
  }

  /** The image header table with the image headers, and the header signature. */
  function ImageHeaders(p: Platform): seq<Word> {
    ReadFlash(p, HeaderAddr(p, p.layout.imageHeaderOffset), p.layout.imageHeaderWords)
  }

  function HeaderSignature(p: Platform): seq<Word> {
    ReadFlash(p, HeaderAddr(p, p.layout.partitionHeaderOffset) + 4 * p.layout.partitionHeaderWords,
              p.layout.signatureWords)
  }

  /** A MoveImage to the temporary area. */
  function Stage(p: Platform, s: Boot, data: seq<Word>): Option<Boot> {
    var s1 :- Call(p, s);
    Some(s1.(ram := Poke(s1.ram, p.ddrTemp, data)))
  }

  /** GetNAuthImageHeader: two offsets are read, and two pieces moved through the temporary area. */
  function AuthenticateHeaders(p: Platform, s: Boot, hs: seq<PartHeader>): Option<Boot> {
    var s1 :- Call(p, s);
    var s2 :- Stage(p, s1, ImageHeaders(p));
    var s3 :- Call(p, s2);
    var s4 :- Stage(p, s3, HeaderSignature(p));
    if p.headersAuthentic(ImageHeaders(p), hs, HeaderSignature(p)) then Some(s4) else None
  }

  /** GetPartitionHeaderInfo, which reads two offsets and the header table `hs`, and checks the count. */
  function ReadHeaders(p: Platform, s: Boot, hs: seq<PartHeader>, first: nat): Option<Boot> {
    var s1 :- Call(p, s);
    var s2 :- Call(p, s1);
    var s3 :- Call(p, s2);
    var n := FirstTerminator(hs);
    if n >= |hs| || (first == 1 && n <= 1) then None else Some(s3)
  }

  /** LoadBootImage up to the loop. */
  function Prologue(p: Platform, s: Boot, hs: seq<PartHeader>, first: nat): Option<Boot> {
    var s1 :- ReadHeaders(p, s, hs, first);
    if !p.rsaEnabled then Some(s1)
    else if p.rsaSupport then AuthenticateHeaders(p, s1, hs)
    else None
  }

  /** A boot from reset: all flags zero, memory as it happens to be. */
  function Reset(memory: Ram): Boot {
    Boot(Flags(false, false, false, false, false, false, false), memory, 0, [], 0, false, [], [])
  }

  /** Nothing has happened since reset but driver calls and writes to memory. */
  predicate FromReset(s: Boot) {
    s == Reset(s.ram).(calls := s.calls)
  }

  lemma CallKeepsReset(p: Platform, s: Boot)
    requires FromReset(s) && Call(p, s).Some?
    ensures FromReset(Call(p, s).value)
  {
  }

  lemma StageKeepsReset(p: Platform, s: Boot, data: seq<Word>)
    requires FromReset(s) && Stage(p, s, data).Some?
    ensures FromReset(Stage(p, s, data).value)
  {
  }

  lemma ReadHeadersKeepsReset(p: Platform, s: Boot, hs: seq<PartHeader>, first: nat)
    requires FromReset(s) && ReadHeaders(p, s, hs, first).Some?
    ensures FromReset(ReadHeaders(p, s, hs, first).value)
    ensures first <= 1 ==> first <= FirstTerminator(hs) < |hs|
  {
    var s1 := Call(p, s).value;
    CallKeepsReset(p, s);
    var s2 := Call(p, s1).value;
    CallKeepsReset(p, s1);
    CallKeepsReset(p, s2);
  }

  lemma AuthenticateKeepsReset(p: Platform, s: Boot, hs: seq<PartHeader>)
    requires FromReset(s) && AuthenticateHeaders(p, s, hs).Some?
    ensures FromReset(AuthenticateHeaders(p, s, hs).value)
    ensures p.headersAuthentic(ImageHeaders(p), hs, HeaderSignature(p))
  {
    CallKeepsReset(p, s);
    var s1 := Call(p, s).value;
    StageKeepsReset(p, s1, ImageHeaders(p));
    var s2 := Stage(p, s1, ImageHeaders(p)).value;
    CallKeepsReset(p, s2);
    StageKeepsReset(p, Call(p, s2).value, HeaderSignature(p));
  }

  lemma PrologueKeepsReset(p: Platform, s: Boot, hs: seq<PartHeader>, first: nat)
    requires FromReset(s) && Prologue(p, s, hs, first).Some?
    ensures FromReset(Prologue(p, s, hs, first).value)
    ensures first <= 1 ==> first <= FirstTerminator(hs) < |hs|
    ensures p.rsaEnabled ==> p.rsaSupport && p.headersAuthentic(ImageHeaders(p), hs, HeaderSignature(p))
  {
    ReadHeadersKeepsReset(p, s, hs, first);
    if p.rsaEnabled {
      AuthenticateKeepsReset(p, ReadHeaders(p, s, hs, first).value, hs);
    }
  }
}
