/** Si5381A-programming.c as it is written: the statics LastPage and LastSlaveAddr updated in place, and the
    index loops of ProgramSi5381 over the register table. */
module Si5381Driver {
  import opened Si5381

  class I2cPort {
    const ok: nat -> bool
    var devices: map<int, Device>
    var lastPage: int
    var lastSlaveAddr: int
    var transfers: nat

    function View(): Port
      reads this
    {
      Port(devices, lastPage, lastSlaveAddr, transfers)
    }

    ghost predicate Valid()
      reads this
    {
      Coherent(View())
    }

    /** Cold statics; the devices may have any page selected. */
    constructor (bus: nat -> bool, attached: map<int, Device>)
      ensures Valid() && ok == bus && devices == attached && transfers == 0
    {
      ok, devices := bus, attached;
      lastPage, lastSlaveAddr, transfers := -1, -1, 0;
    }

    method MasterSendPolled(slaveAddr: int, low: Byte, data: seq<Byte>) returns (sent: bool)
      modifies this`devices, this`transfers
      ensures (View(), sent) == SendPolled(old(View()), ok, slaveAddr, low, data)
    {
      sent := ok(transfers) && slaveAddr in devices;
      transfers := transfers + 1;
      if sent {
        devices := devices[slaveAddr := Accept(devices[slaveAddr], low, data)];
      }
    }

    method WriteSi538xRegister(slaveAddr: nat, reg: Address, writeData: seq<Byte>) returns (success: bool)
      modifies this
      ensures (View(), success) == Write(old(View()), ok, slaveAddr, reg, writeData)
    {
      var page := Page(reg);
      if page != lastPage || slaveAddr != lastSlaveAddr {
        success := MasterSendPolled(slaveAddr, PAGE_CMD, [page]);
        if !success {
          return;
        }
        lastPage := page;
        lastSlaveAddr := slaveAddr;
      }
      success := MasterSendPolled(slaveAddr, Low(reg), writeData);
    }

    method ReadSi538xRegister(slaveAddr: nat, reg: Address, len: nat) returns (success: bool, data: seq<Byte>)
      modifies this
      ensures ReadResult(View(), success, data) == Read(old(View()), ok, slaveAddr, reg, len)
    {
      success := WriteSi538xRegister(slaveAddr, reg, []);
      if !success {
        return false, [];
      }
      success := ok(transfers) && slaveAddr in devices;
      transfers := transfers + 1;
      data := if success then Supply(devices[slaveAddr], len) else [];
    }

    /** The write loop of ProgramSi5381: the registers end up as the table says, last write wins; a bus error
        leaves them as some first part of the table says. */
    method WriteTable(slaveAddr: nat, table: seq<Entry>) returns (success: bool)
      requires Valid() && slaveAddr in devices && forall i :: 0 <= i < |table| ==> Low(table[i].address) != PAGE_CMD
      modifies this
      ensures Valid() && devices.Keys == old(devices.Keys)
      ensures success ==> devices[slaveAddr].regs == WriteAll(old(devices[slaveAddr].regs), table)
      ensures exists n :: 0 <= n <= |table| &&
                devices[slaveAddr].regs == WriteAll(old(devices[slaveAddr].regs), table[..n])
      ensures (forall k :: ok(k)) ==> success
    {
      ghost var before := devices[slaveAddr].regs;
      var i := 0;
      assert WriteAll(before, table[..0]) == before;
      while i < |table|
        invariant 0 <= i <= |table| && Valid()
        invariant devices.Keys == old(devices.Keys) && devices[slaveAddr].regs == WriteAll(before, table[..i])
      {
        ghost var s := View();
        success := WriteSi538xRegister(slaveAddr, table[i].address, [table[i].value]);
        WriteIsFlat(s, ok, slaveAddr, table[i].address, table[i].value);
        SucceedsOnGoodBus(s, ok, slaveAddr, table[i].address, [table[i].value]);
        if !success {
          return;
        }
        assert table[..i + 1][..i] == table[..i];
        i := i + 1;
      }
      assert table[..i] == table;
      success := true;
    }

    /** The readback loop: how many middle registers do not hold their table value. */
    method ReadBack(slaveAddr: nat, table: seq<Entry>) returns (success: bool, failures: nat)
      requires Valid() && slaveAddr in devices && POSTAMBLE_SIZE <= |table|
      requires forall i :: 0 <= i < |table| ==> Low(table[i].address) != PAGE_CMD
      modifies this
      ensures Valid() && devices.Keys == old(devices.Keys)
      ensures devices[slaveAddr].regs == old(devices[slaveAddr].regs)
      ensures success ==> failures == |Differing(old(devices[slaveAddr].regs), table, |table| - POSTAMBLE_SIZE)|
      ensures (forall k :: ok(k)) ==> success
    {
      var i := PREAMBLE_SIZE;
      failures := 0;
      while i < |table| - POSTAMBLE_SIZE
        invariant PREAMBLE_SIZE <= i && Valid()
        invariant devices.Keys == old(devices.Keys) && devices[slaveAddr].regs == old(devices[slaveAddr].regs)
        invariant i <= |table| - POSTAMBLE_SIZE || i == PREAMBLE_SIZE
        invariant failures == |Differing(old(devices[slaveAddr].regs), table, i)|
      {
        ghost var s := View();
        var data;
        success, data := ReadSi538xRegister(slaveAddr, table[i].address, 1);
        ReadIsFlat(s, ok, slaveAddr, table[i].address);
        SucceedsOnGoodBus(s, ok, slaveAddr, table[i].address, []);
        if !success {
          return;
        }
        if data[0] != table[i].value {
          failures := failures + 1;
        }
        DifferingNext(old(devices[slaveAddr].regs), table, i);
        i := i + 1;
      }
      DifferingUpTo(old(devices[slaveAddr].regs), table, i);
      success := true;
    }

    /** The device identification; a failed read leaves the buffer zero. */
    method ReadPartNumber() returns (id: int)
      requires Valid()
      modifies this
      ensures Valid() && SameRegisters(old(View()), View())
      ensures id == 0 || (SI5381_ADDR in devices && id == PartNumber(devices[SI5381_ADDR].regs))
      ensures SI5381_ADDR in devices && (forall k :: ok(k)) ==> id == PartNumber(devices[SI5381_ADDR].regs)
    {
      ghost var s := View();
      var success, data := ReadSi538xRegister(SI5381_ADDR, PART_NUM_CMD, 2);
      PartNumberRead(s, ok);
      id := if success then Word16(data[0], data[1]) else 0;
    }

    /** The I2C mux in front of the device: a transfer of its own. */
    method SetMux() returns (success: bool)
      modifies this`transfers
      ensures success == ok(old(transfers))
    {
      success := ok(transfers);
      transfers := transfers + 1;
    }

    /** ProgramSi5381, on a device that keeps what is written to it. A device that does not identify itself is
        left alone. On success the registers are as the table says, and the readback reports
        as many failures as there are middle entries overwritten by later ones; after a bus error they are as
        some first part of the table says. On a bus without errors the right part is always programmed. */
    method ProgramSi5381(table: seq<Entry>) returns (success: bool, failures: nat)
      requires Valid() && POSTAMBLE_SIZE <= |table|
      requires forall i :: 0 <= i < |table| ==> Low(table[i].address) != PAGE_CMD
      modifies this
      ensures Valid() && devices.Keys == old(devices.Keys)
      ensures success ==>
                && SI5381_ADDR in devices
                && Identified(old(devices[SI5381_ADDR].regs))
                && devices[SI5381_ADDR].regs == WriteAll(old(devices[SI5381_ADDR].regs), table)
                && failures == |Overwritten(table)|
      ensures SI5381_ADDR in devices ==>
                exists n :: 0 <= n <= |table| &&
                  devices[SI5381_ADDR].regs == WriteAll(old(devices[SI5381_ADDR].regs), table[..n])
      ensures SI5381_ADDR in devices && !Identified(old(devices[SI5381_ADDR].regs)) ==>
                !success && devices[SI5381_ADDR].regs == old(devices[SI5381_ADDR].regs)
      ensures !ok(old(transfers)) ==> !success && devices == old(devices)
      ensures (forall k :: ok(k)) && SI5381_ADDR in devices && Identified(old(devices[SI5381_ADDR].regs)) ==> success
    {
      failures := 0;
      success := SetMux();
      if SI5381_ADDR in devices {
        assert WriteAll(old(devices[SI5381_ADDR].regs), table[..0]) == devices[SI5381_ADDR].regs;
      }
      if !success {
        return;
      }
      var id := ReadPartNumber();
      if id != SI5381_ID {
        return false, 0;
      }
      success := WriteTable(SI5381_ADDR, table);
      if !success {
        return;
      }
      ghost var written := devices[SI5381_ADDR].regs;
      success, failures := ReadBack(SI5381_ADDR, table);
      DifferingIsOverwritten(old(devices[SI5381_ADDR].regs), table, written);
    }
  }

  /** The identification of the device: register 2 holds the low byte and register 3 the high byte. */
  predicate Identified(regs: Registers) {
    regs[2] as int + 256 * regs[3] as int == SI5381_ID
  }

  /** The middle entries before `end` whose register does not hold their value. */
  function Differing(regs: Registers, table: seq<Entry>, end: int): set<int> {
    set i | PREAMBLE_SIZE <= i < end && IsMiddle(table, i) && regs[table[i].address] != table[i].value
  }

  /** The middle entries whose address is written again, with another value last. */
  function Overwritten(table: seq<Entry>): set<int> {
    set i | PREAMBLE_SIZE <= i < |table| && IsMiddle(table, i) && !Survives(table, i)
  }

  lemma DifferingNext(regs: Registers, table: seq<Entry>, i: int)
    requires PREAMBLE_SIZE <= i && IsMiddle(table, i)
    ensures |Differing(regs, table, i + 1)|
            == |Differing(regs, table, i)| + if regs[table[i].address] != table[i].value then 1 else 0
  {
    var before, after := Differing(regs, table, i), Differing(regs, table, i + 1);
    assert i !in before;
    assert after == if regs[table[i].address] != table[i].value then before + {i} else before;
  }

  lemma DifferingUpTo(regs: Registers, table: seq<Entry>, i: int)
    requires |table| - POSTAMBLE_SIZE <= i
    ensures Differing(regs, table, i) == Differing(regs, table, |table| - POSTAMBLE_SIZE)
  {
  }

  lemma DifferingIsOverwritten(regs: Registers, table: seq<Entry>, written: Registers)
    requires written == WriteAll(regs, table)
    ensures Differing(written, table, |table| - POSTAMBLE_SIZE) == Overwritten(table)
  {
    SurvivesIff(regs, table, written);
  }

  lemma SurvivesIff(regs: Registers, table: seq<Entry>, written: Registers)
    requires written == WriteAll(regs, table)
    ensures forall i :: IsMiddle(table, i) ==> (written[table[i].address] == table[i].value <==> Survives(table, i))
  {
    forall i | IsMiddle(table, i)
      ensures written[table[i].address] == table[i].value <==> Survives(table, i)
    {
      LastWriteWins(regs, table, table[i].address);
    }
  }

  lemma SucceedsOnGoodBus(s: Port, ok: nat -> bool, slave: nat, reg: Address, data: seq<Byte>)
    requires Coherent(s) && slave in s.devices
    ensures (forall k :: ok(k)) ==> Write(s, ok, slave, reg, data).1 && Read(s, ok, slave, reg, 1).ok
  {
    SelectKeepsCoherence(s, ok, slave, Page(reg));
  }

  function Word16(low: Byte, high: Byte): int {
    high as int * 256 + low as int
  }

  /** The identification in registers 2 and 3. */
  function PartNumber(regs: Registers): int {
    Word16(regs[2], regs[3])
  }

  lemma SmallRemainder(x: nat)
    requires x < 256
    ensures x % 256 == x && x / 256 == 0
  {
  }

  lemma SuppliedFromPageZero(d: Device, i: nat, a: Byte)
    requires d.page == 0 && d.pointer as int + i == a && a != PAGE_CMD
    ensures SupplyByte(d, i) == d.regs[a]
  {
    SmallRemainder(a);
    assert Get(d, a) == d.regs[a];
    assert Join(0, a) == a;
  }

  /** The identification reads registers 2 and 3 of page 0 and changes nothing. */
  lemma PartNumberRead(s: Port, ok: nat -> bool)
    requires Coherent(s)
    ensures var r := Read(s, ok, SI5381_ADDR, PART_NUM_CMD, 2);
            && Coherent(r.port) && SameRegisters(s, r.port)
            && (SI5381_ADDR in s.devices && (forall k :: ok(k)) ==> r.ok)
            && (r.ok ==> |r.data| == 2 && SI5381_ADDR in s.devices)
            && (r.ok ==> Word16(r.data[0], r.data[1]) == PartNumber(s.devices[SI5381_ADDR].regs))
  {
    PointerSet(s, ok);
    var w := Write(s, ok, SI5381_ADDR, PART_NUM_CMD, []);
    if w.1 {
      PartNumberReceived(w.0, ok);
    }
  }

  lemma PartNumberReceived(s: Port, ok: nat -> bool)
    requires SI5381_ADDR in s.devices && s.devices[SI5381_ADDR].page == 0 && s.devices[SI5381_ADDR].pointer == 2
    ensures var r := RecvPolled(s, ok, SI5381_ADDR, 2);
            && r.port.devices == s.devices && r.port.lastPage == s.lastPage && r.port.lastSlave == s.lastSlave
            && ((forall k :: ok(k)) ==> r.ok)
            && (r.ok ==> |r.data| == 2 && Word16(r.data[0], r.data[1]) == PartNumber(s.devices[SI5381_ADDR].regs))
  {
    var d := s.devices[SI5381_ADDR];
    SuppliedFromPageZero(d, 0, 2);
    SuppliedFromPageZero(d, 1, 3);
    SuppliedTwo(d);
  }

  lemma SuppliedTwo(d: Device)
    ensures Supply(d, 2)[0] == SupplyByte(d, 0) && Supply(d, 2)[1] == SupplyByte(d, 1)
  {
  }

  /** The address write before a read selects page 0 and register 2, and changes no register. */
  lemma PointerSet(s: Port, ok: nat -> bool)
    requires Coherent(s)
    ensures var (s1, sent) := Write(s, ok, SI5381_ADDR, PART_NUM_CMD, []);
            && Coherent(s1) && SameRegisters(s, s1)
            && (SI5381_ADDR in s.devices && (forall k :: ok(k)) ==> sent)
            && (sent ==> SI5381_ADDR in s1.devices && s1.devices[SI5381_ADDR].page == 0)
            && (sent ==> s1.devices[SI5381_ADDR].pointer == 2)
  {
    PartNumberPage();
    SelectKeepsCoherence(s, ok, SI5381_ADDR, 0);
  }

  lemma PartNumberPage()
    ensures Page(PART_NUM_CMD) == 0 && Low(PART_NUM_CMD) == 2
  {
  }

  /** Readback agrees with programming whenever no middle address is repeated or rewritten afterwards. */
  lemma ReadbackAgrees(table: seq<Entry>, regs: Registers)
    requires MiddleWrittenOnce(table)
    ensures forall i :: IsMiddle(table, i) ==> WriteAll(regs, table)[table[i].address] == table[i].value
  {
    forall i | IsMiddle(table, i)
      ensures WriteAll(regs, table)[table[i].address] == table[i].value
    {
      MiddleSurvives(table, i);
      LastWriteWins(regs, table, table[i].address);
    }
  }
}
