/** The paged register access of Si5381A-programming.c: a device with 256-register pages behind a cache of
    the last page selected, against flat 16-bit registers. */
module Si5381 {

  type Byte = x: nat | x < 256
  type Address = x: nat | x < 0x1_0000

  /** Register 1 of every page selects the page. */
  const PAGE_CMD: Byte := 1
  const PART_NUM_CMD: Address := 2
  const SI5381_ADDR := 0x68
  const SI5381_ID := 0x5381
  const PREAMBLE_SIZE := 3
  const POSTAMBLE_SIZE := 5

  /** A flat file of 16-bit registers. */
  type Registers = r: seq<Byte> | |r| == 0x1_0000 witness seq(0x1_0000, _ => 0)

  function SetReg(regs: Registers, a: Address, value: Byte): Registers {
    regs[a := value]
  }

  /** One device: its current page, the register the next read starts at, and its registers. */
  datatype Device = Device(page: Byte, pointer: Byte, regs: Registers)

  /** The I2C port: the devices by slave address, the statics LastPage and LastSlaveAddr, and how many bus
      transfers were made. */
  datatype Port = Port(devices: map<int, Device>, lastPage: int, lastSlave: int, transfers: nat)

  function Page(reg: Address): Byte {
    reg / 256
  }

  function Low(reg: Address): Byte {
    reg % 256
  }

  function Join(page: Byte, low: Byte): (a: Address)
    ensures Page(a) == page && Low(a) == low
  {
    256 * page + low
  }

  lemma JoinSplit(reg: Address)
    ensures Join(Page(reg), Low(reg)) == reg
  {
  }

  // ---------------------------------------------------------------- the device

  function Get(d: Device, a: Address): Byte {
    if Low(a) == PAGE_CMD then d.page else d.regs[a]
  }

  /** One data byte arrives for a register of the current page. */
  function Put(d: Device, low: Byte, value: Byte): Device {
    if low == PAGE_CMD then d.(page := value) else d.(regs := SetReg(d.regs, Join(d.page, low), value))
  }

  /** A bus write: the register number, then data for it and the following registers. */
  function Accept(d: Device, low: Byte, data: seq<Byte>): Device
    decreases |data|
  {
    if |data| == 0 then d.(pointer := low)
    else Accept(Put(d, low, data[0]), (low + 1) % 256, data[1..])
  }

  /** A bus read of `n` registers from the pointer. */
  function Supply(d: Device, n: nat): (r: seq<Byte>)
    ensures |r| == n
  {
    seq(n, i requires 0 <= i < n => SupplyByte(d, i))
  }

  function SupplyByte(d: Device, i: nat): Byte {
    Get(d, Join(d.page, (d.pointer + i) % 256))
  }

  // ---------------------------------------------------------------- the access functions

  /** XIicPs_MasterSendPolled: fails as the bus says or when no device answers, leaving every device as it is. */
  function SendPolled(s: Port, ok: nat -> bool, slave: int, low: Byte, data: seq<Byte>): (Port, bool) {
    if ok(s.transfers) && slave in s.devices then
      (s.(devices := s.devices[slave := Accept(s.devices[slave], low, data)], transfers := s.transfers + 1), true)
    else (s.(transfers := s.transfers + 1), false)
  }

  function SelectPage(s: Port, ok: nat -> bool, slave: int, page: Byte): (Port, bool) {
    if page == s.lastPage && slave == s.lastSlave then (s, true)
    else
      var (s1, sent) := SendPolled(s, ok, slave, PAGE_CMD, [page]);
      if sent then (s1.(lastPage := page, lastSlave := slave), true) else (s1, false)
  }

  /** WriteSi538xRegister. */
  function Write(s: Port, ok: nat -> bool, slave: int, reg: Address, data: seq<Byte>): (Port, bool) {
    var (s1, selected) := SelectPage(s, ok, slave, Page(reg));
    if selected then SendPolled(s1, ok, slave, Low(reg), data) else (s1, false)
  }

  datatype ReadResult = ReadResult(port: Port, ok: bool, data: seq<Byte>)

  /** XIicPs_MasterRecvPolled. */
  function RecvPolled(s: Port, ok: nat -> bool, slave: int, n: nat): ReadResult {
    if ok(s.transfers) && slave in s.devices then
      ReadResult(s.(transfers := s.transfers + 1), true, Supply(s.devices[slave], n))
    else ReadResult(s.(transfers := s.transfers + 1), false, [])
  }

  /** ReadSi538xRegister. */
  function Read(s: Port, ok: nat -> bool, slave: int, reg: Address, n: nat): ReadResult {
    var (s1, sent) := Write(s, ok, slave, reg, []);
    if sent then RecvPolled(s1, ok, slave, n) else ReadResult(s1, false, [])
  }

  // ---------------------------------------------------------------- the page cache

  /** What the cache claims of the device it names. */
  predicate Coherent(s: Port) {
    s.lastSlave != -1 ==> s.lastSlave in s.devices && s.devices[s.lastSlave].page == s.lastPage
  }

  /** Nothing but the page and the pointer of one device differs. */
  predicate SameRegisters(s: Port, s': Port) {
    && s'.devices.Keys == s.devices.Keys
    && forall x :: x in s.devices ==> s'.devices[x].regs == s.devices[x].regs
  }

  lemma SelectKeepsCoherence(s: Port, ok: nat -> bool, slave: nat, page: Byte)
    requires Coherent(s)
    ensures var (s', selected) := SelectPage(s, ok, slave, page);
            && Coherent(s') && SameRegisters(s, s')
            && (selected ==> slave in s'.devices && s'.devices[slave].page == page)
            && (selected ==> s'.lastSlave == slave && s'.lastPage == page)
  {
    if slave in s.devices && !(page == s.lastPage && slave == s.lastSlave) {
      assert Accept(s.devices[slave], PAGE_CMD, [page]) == s.devices[slave].(page := page, pointer := 2) by {
        assert [page][1..] == [];
      }
    }
  }

  lemma AcceptOne(d: Device, low: Byte, value: Byte)
    ensures Accept(d, low, [value]) == Put(d, low, value).(pointer := (low + 1) % 256)
  {
    assert [value][1..] == [];
  }

  /** A one-byte write through the cache writes the flat 16-bit register, of the addressed device alone; a
      failed one writes no register; and the cache stays coherent. */
  lemma WriteIsFlat(s: Port, ok: nat -> bool, slave: nat, reg: Address, value: Byte)
    requires Coherent(s) && Low(reg) != PAGE_CMD
    ensures var (s', done) := Write(s, ok, slave, reg, [value]);
            && Coherent(s')
            && (!done ==> SameRegisters(s, s'))
            && (done ==> && s'.devices.Keys == s.devices.Keys && slave in s.devices
                         && s'.devices[slave].regs == SetReg(s.devices[slave].regs, reg, value)
                         && forall x :: x in s.devices && x != slave ==> s'.devices[x].regs == s.devices[x].regs)
  {
    var (s1, selected) := SelectPage(s, ok, slave, Page(reg));
    SelectKeepsCoherence(s, ok, slave, Page(reg));
    if selected {
      AcceptOne(s1.devices[slave], Low(reg), value);
      JoinSplit(reg);
    }
  }

  /** The address rule is exact: a successful write of a page register's own address keeps the cache coherent
      if and only if it writes the page already selected. */
  lemma CoherentIffPageKept(s: Port, ok: nat -> bool, slave: nat, reg: Address, value: Byte)
    requires Coherent(s) && Write(s, ok, slave, reg, [value]).1
    ensures Coherent(Write(s, ok, slave, reg, [value]).0) <==> Low(reg) != PAGE_CMD || value == Page(reg)
  {
    var (s1, selected) := SelectPage(s, ok, slave, Page(reg));
    SelectKeepsCoherence(s, ok, slave, Page(reg));
    AcceptOne(s1.devices[slave], Low(reg), value);
  }

  /** A read through the cache returns the flat 16-bit register and changes none. */
  lemma ReadIsFlat(s: Port, ok: nat -> bool, slave: nat, reg: Address)
    requires Coherent(s) && Low(reg) != PAGE_CMD
    ensures var r := Read(s, ok, slave, reg, 1);
            && Coherent(r.port) && SameRegisters(s, r.port)
            && (r.ok ==> slave in s.devices && r.data == [s.devices[slave].regs[reg]])
  {
    SelectKeepsCoherence(s, ok, slave, Page(reg));
    JoinSplit(reg);
    var (s1, selected) := SelectPage(s, ok, slave, Page(reg));
    if selected {
      assert Low(reg) % 256 == Low(reg);
    }
  }

  // ---------------------------------------------------------------- what the cache saves

  /** The cache names this device and this page. */
  predicate Cached(s: Port, slave: int, reg: Address) {
    Page(reg) == s.lastPage && slave == s.lastSlave
  }

  /** A write takes one transfer where the page is cached and two where it is not, or one if selecting the page
      fails; it succeeds if and only if a device answers and its transfers do. Then the page is cached, so the
      next access to the same page of the same device takes one transfer. */
  lemma WriteSucceedsIff(s: Port, ok: nat -> bool, slave: nat, reg: Address, data: seq<Byte>)
    ensures var (s', done) := Write(s, ok, slave, reg, data);
            && (done <==> slave in s.devices && ok(s.transfers) && (Cached(s, slave, reg) || ok(s.transfers + 1)))
            && s'.transfers == s.transfers + (if Cached(s, slave, reg) || !(slave in s.devices && ok(s.transfers))
                                              then 1 else 2)
            && (done ==> Cached(s', slave, reg))
  {
  }

  /** A read is such a write of the register number, and one transfer more if that succeeds. */
  lemma ReadSucceedsIff(s: Port, ok: nat -> bool, slave: nat, reg: Address, n: nat)
    ensures var (s1, sent) := Write(s, ok, slave, reg, []);
            var r := Read(s, ok, slave, reg, n);
            && (r.ok <==> sent && ok(s1.transfers))
            && r.port.transfers == s1.transfers + (if sent then 1 else 0)
            && (r.ok ==> |r.data| == n)
  {
  }

  // ---------------------------------------------------------------- runs

  /** One access by a caller. */
  datatype Op = WriteByte(slave: nat, reg: Address, value: Byte) | ReadByte(slave: nat, reg: Address)

  /** What the caller saw: whether the access succeeded, and the byte read. */
  datatype Seen = Failed | Done | Got(value: Byte)

  /** Flat registers of every device: no pages, no cache. */
  type Flat = map<int, Registers>

  function FlatOf(s: Port): Flat {
    map x | x in s.devices :: s.devices[x].regs
  }

  function OpStep(s: Port, ok: nat -> bool, op: Op): (Port, Seen) {
    match op
    case WriteByte(slave, reg, value) =>
      var (s', done) := Write(s, ok, slave, reg, [value]);
      (s', if done then Done else Failed)
    case ReadByte(slave, reg) =>
      var r := Read(s, ok, slave, reg, 1);
      (r.port, if r.ok then Got(r.data[0]) else Failed)
  }

  /** The same access on flat registers, given whether it succeeds. */
  function FlatStep(f: Flat, op: Op, succeeds: bool): (Flat, Seen) {
    if !succeeds || op.slave !in f then (f, Failed)
    else match op
      case WriteByte(slave, reg, value) => (f[slave := SetReg(f[slave], reg, value)], Done)
      case ReadByte(slave, reg) => (f, Got(f[slave][reg]))
  }

  function Ops(s: Port, ok: nat -> bool, ops: seq<Op>): (Port, seq<Seen>)
    decreases |ops|
  {
    if |ops| == 0 then (s, [])
    else
      var (s1, seen) := OpStep(s, ok, ops[0]);
      var (s2, rest) := Ops(s1, ok, ops[1..]);
      (s2, [seen] + rest)
  }

  /** Flat execution of the accesses, each succeeding exactly when the caller saw it succeed. */
  function FlatOps(f: Flat, ops: seq<Op>, seen: seq<Seen>): (Flat, seq<Seen>)
    requires |ops| == |seen|
    decreases |ops|
  {
    if |ops| == 0 then (f, [])
    else
      var (f1, s) := FlatStep(f, ops[0], seen[0] != Failed);
      var (f2, rest) := FlatOps(f1, ops[1..], seen[1..]);
      (f2, [s] + rest)
  }

  lemma StepRefinesFlat(s: Port, ok: nat -> bool, op: Op)
    requires Coherent(s) && Low(op.reg) != PAGE_CMD
    ensures var (s', seen) := OpStep(s, ok, op);
            Coherent(s') && FlatStep(FlatOf(s), op, seen != Failed) == (FlatOf(s'), seen)
  {
    match op
    case WriteByte(slave, reg, value) =>
      WriteIsFlat(s, ok, slave, reg, value);
      var (s', done) := Write(s, ok, slave, reg, [value]);
      assert FlatOf(s') == if done then FlatOf(s)[slave := SetReg(s.devices[slave].regs, reg, value)] else FlatOf(s);
    case ReadByte(slave, reg) =>
      ReadIsFlat(s, ok, slave, reg);
      assert FlatOf(Read(s, ok, slave, reg, 1).port) == FlatOf(s);
  }

  /** The page cache refines flat addressing: for any sequence of one-byte writes and reads to any devices,
      whatever the bus refuses, registers and results are those of flat 16-bit registers. */
  lemma {:induction false} PageCacheRefinesFlat(s: Port, ok: nat -> bool, ops: seq<Op>)
    requires Coherent(s) && forall i :: 0 <= i < |ops| ==> Low(ops[i].reg) != PAGE_CMD
    ensures var (s', seen) := Ops(s, ok, ops);
            && |seen| == |ops| && Coherent(s')
            && FlatOps(FlatOf(s), ops, seen) == (FlatOf(s'), seen)
    decreases |ops|
  {
    if |ops| > 0 {
      StepRefinesFlat(s, ok, ops[0]);
      var (s1, first) := OpStep(s, ok, ops[0]);
      PageCacheRefinesFlat(s1, ok, ops[1..]);
      var (s2, rest) := Ops(s1, ok, ops[1..]);
      assert ([first] + rest)[1..] == rest;
    }
  }

  // ---------------------------------------------------------------- the register table

  datatype Entry = Entry(address: Address, value: Byte)

  /** The registers after the table has been written over them, in order. */
  function WriteAll(regs: Registers, table: seq<Entry>): Registers {
    if |table| == 0 then regs
    else SetReg(WriteAll(regs, table[..|table| - 1]), table[|table| - 1].address, table[|table| - 1].value)
  }

  /** The last entry for an address, or -1. */
  function LastEntry(table: seq<Entry>, a: Address): (k: int)
    ensures -1 <= k < |table|
    ensures k >= 0 ==> table[k].address == a
    ensures forall j :: k < j < |table| ==> table[j].address != a
  {
    if |table| == 0 then -1
    else if table[|table| - 1].address == a then |table| - 1
    else LastEntry(table[..|table| - 1], a)
  }

  /** Last write wins, and what the table does not name is untouched. */
  lemma {:induction false} LastWriteWins(regs: Registers, table: seq<Entry>, a: Address)
    ensures var k := LastEntry(table, a);
            WriteAll(regs, table)[a] == if k >= 0 then table[k].value else regs[a]
  {
    if |table| > 0 {
      LastWriteWins(regs, table[..|table| - 1], a);
    }
  }

  predicate IsMiddle(table: seq<Entry>, i: int) {
    PREAMBLE_SIZE <= i < |table| - POSTAMBLE_SIZE
  }

  /** Entry i is what its address ends up holding. */
  predicate Survives(table: seq<Entry>, i: nat)
    requires i < |table|
  {
    table[LastEntry(table, table[i].address)].value == table[i].value
  }

  /** Middle addresses all different, and none rewritten by the postamble. */
  ghost predicate MiddleWrittenOnce(table: seq<Entry>) {
    forall i, j :: IsMiddle(table, i) && i < j < |table| ==> table[i].address != table[j].address
  }

  lemma MiddleSurvives(table: seq<Entry>, i: nat)
    requires MiddleWrittenOnce(table) && IsMiddle(table, i)
    ensures Survives(table, i)
  {
    var k := LastEntry(table, table[i].address);
    assert k >= i;
  }
}
