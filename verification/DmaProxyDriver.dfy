/** The driver functions of dma-proxy.c as they are written: one channel object updated in place. */
module DmaProxyDriver {
  import opened DmaProxy

  datatype Command = START_XFER | FINISH_XFER | XFER | SHOW_BUFLEN

  const EINVAL := 22

  /** struct dma_proxy_channel, with the part of the DMA engine that serves it. */
  class ProxyChannel {
    const bufferCount: nat
    var bdindex: nat
    const pBdTable: array<ProxyBd>
    const pBufferTable: array<Status>

    var submitted: seq<nat>
    var completed: nat
    var called: nat
    ghost var reports: seq<Report>

    ghost function View(): Channel
      reads this, pBdTable, pBufferTable
    {
      Channel(pBdTable[..], pBufferTable[..], submitted, completed, called, reports)
    }

    ghost predicate Valid()
      reads this, pBdTable, pBufferTable
    {
      Inv(View(), bufferCount)
    }

    /** create_channel leaves the records and the status words as the allocator returned them. */
    constructor (bds: array<ProxyBd>, table: array<Status>)
      requires bds.Length == table.Length
      ensures Valid() && Fresh(View(), bufferCount) && bufferCount == bds.Length
      ensures pBdTable == bds && pBufferTable == table
    {
      bufferCount := bds.Length;
      bdindex := 0;
      pBdTable, pBufferTable := bds, table;
      submitted, completed, called := [], 0, 0;
      reports := [];
    }

    /** The engine finishes its oldest transfer, or runs sync_callback for the oldest one it owes. */
    method EngineEvent(e: Event)
      requires Valid()
      modifies this`completed, this`called, pBdTable
      ensures Valid() && View() == Happen(old(View()), e, bufferCount)
    {
      HappenKeeps(View(), e, bufferCount);
      match e {
        case TransferDone =>
          if completed < |submitted| {
            completed := completed + 1;
          }
        case CallbackRuns =>
          if called < completed {
            var b := submitted[called];
            pBdTable[b] := pBdTable[b].(done := pBdTable[b].done + 1);
            called := called + 1;
          }
      }
    }

    method StartTransfer()
      requires Valid() && bdindex < bufferCount
      modifies this`submitted, pBdTable
      ensures Valid() && View() == Start(old(View()), bdindex, bufferCount)
    {
      StartKeeps(View(), bdindex, bufferCount);
      pBdTable[bdindex] := pBdTable[bdindex].(done := 0);
      submitted := submitted + [bdindex];
      pBdTable[bdindex] := pBdTable[bdindex].(cookie := |submitted|);
    }

    /** Sleep on the completion of the current buffer; `events` is what happens until the timeout. */
    method WaitForCompletionTimeout(events: seq<Event>) returns (woken: bool)
      requires Valid() && bdindex < bufferCount
      modifies this`completed, this`called, pBdTable
      ensures Valid() && (View(), woken) == Sleep(old(View()), bdindex, events, bufferCount)
    {
      var i := 0;
      SleepKeeps(View(), bdindex, events, bufferCount);
      assert events[0..] == events;
      while pBdTable[bdindex].done == 0 && i < |events|
        invariant i <= |events| && Valid()
        invariant Sleep(View(), bdindex, events[i..], bufferCount) == Sleep(old(View()), bdindex, events, bufferCount)
      {
        assert events[i..][0] == events[i] && events[i..][1..] == events[i + 1..];
        EngineEvent(events[i]);
        i := i + 1;
      }
      woken := pBdTable[bdindex].done > 0;
      if woken {
        TakeCount();
      }
    }

    method TakeCount()
      requires Valid() && bdindex < bufferCount && pBdTable[bdindex].done > 0
      modifies pBdTable
      ensures Valid() && View() == Take(old(View()), bdindex, bufferCount)
    {
      SleepKeeps(View(), bdindex, [], bufferCount);
      pBdTable[bdindex] := pBdTable[bdindex].(done := pBdTable[bdindex].done - 1);
    }

    method EngineEvents(events: seq<Event>)
      requires Valid()
      modifies this`completed, this`called, pBdTable
      ensures Valid() && View() == HappenAll(old(View()), events, bufferCount)
    {
      var i := 0;
      assert events[0..] == events;
      while i < |events|
        invariant i <= |events| && Valid()
        invariant HappenAll(View(), events[i..], bufferCount) == HappenAll(old(View()), events, bufferCount)
      {
        assert events[i..][0] == events[i] && events[i..][1..] == events[i + 1..];
        EngineEvent(events[i]);
        i := i + 1;
      }
    }

    /** The cookie query and the status. */
    method WriteStatus(woken: bool, dmaError: bool)
      requires Valid() && bdindex < bufferCount
      modifies this`reports, pBufferTable
      ensures View() == Conclude(old(View()), bdindex, woken, dmaError, bufferCount)
    {
      var complete := pBdTable[bdindex].cookie <= completed;
      if !woken {
        pBufferTable[bdindex] := TimedOut;
      } else if dmaError || !complete {
        pBufferTable[bdindex] := Failed;
      } else {
        pBufferTable[bdindex] := NoError;
      }
      reports := reports + [Report(bdindex, pBufferTable[bdindex], Latest(submitted, bdindex), completed)];
    }

    /** A success is written only when the engine has finished the latest transfer of the buffer. */
    method WaitForTransfer(asleep: seq<Event>, awake: seq<Event>, dmaError: bool)
      requires Valid() && bdindex < bufferCount
      modifies this`completed, this`called, this`reports, pBdTable, pBufferTable
      ensures Valid() && View() == Finish(old(View()), bdindex, asleep, awake, dmaError, bufferCount)
      ensures pBufferTable[bdindex] == NoError ==> Latest(submitted, bdindex) < completed
    {
      FinishKeeps(View(), bdindex, asleep, awake, dmaError, bufferCount);
      LastReport(View(), bdindex, asleep, awake, dmaError, bufferCount);
      pBufferTable[bdindex] := Busy;
      var woken := WaitForCompletionTimeout(asleep);
      EngineEvents(awake);
      WriteStatus(woken, dmaError);
    }

    /** ioctl: `arg` is the buffer index read from user space, or -1 when it cannot be read. */
    method Ioctl(cmd: Command, arg: int, asleep: seq<Event>, awake: seq<Event>, dmaError: bool) returns (rc: int)
      requires Valid() && arg < bufferCount
      modifies this, pBdTable, pBufferTable
      ensures Valid() && rc == if arg < 0 then -EINVAL else 0
      ensures View() == Apply(old(View()), OpOf(cmd, arg, asleep, awake, dmaError), bufferCount)
      ensures submitted == old(submitted) + if 0 <= arg && cmd in {START_XFER, XFER} then [arg] else []
      ensures |reports| == |old(reports)| + if 0 <= arg && cmd in {FINISH_XFER, XFER} then 1 else 0
      ensures 0 <= arg && cmd in {FINISH_XFER, XFER} ==>
                var r := reports[|old(reports)|];
                r.buffer == arg && r.status == pBufferTable[arg] && r.transfer == Latest(submitted, arg)
      ensures arg < 0 || cmd == SHOW_BUFLEN ==> View() == old(View())
    {
      if arg < 0 {
        return -EINVAL;
      }
      bdindex := arg;
      match cmd {
        case START_XFER =>
          StartTransfer();
        case FINISH_XFER =>
          FinishReports(View(), bdindex, asleep, awake, dmaError, bufferCount);
          WaitForTransfer(asleep, awake, dmaError);
        case XFER =>
          StartTransfer();
          FinishReports(View(), bdindex, asleep, awake, dmaError, bufferCount);
          WaitForTransfer(asleep, awake, dmaError);
        case SHOW_BUFLEN =>
      }
      rc := 0;
    }
  }

  /** What the last report says of the state it was written in. */
  lemma LastReport(c: Channel, b: nat, asleep: seq<Event>, awake: seq<Event>, dmaError: bool, n: nat)
    requires Inv(c, n) && b < n
    ensures var c' := Finish(c, b, asleep, awake, dmaError, n);
            c'.status[b] == NoError ==> Latest(c'.submitted, b) < c'.completed
  {
    FinishKeeps(c, b, asleep, awake, dmaError, n);
    var c' := Finish(c, b, asleep, awake, dmaError, n);
    assert Truthful(c'.reports[|c'.reports| - 1]);
  }

  function OpOf(cmd: Command, arg: int, asleep: seq<Event>, awake: seq<Event>, dmaError: bool): Op {
    if arg < 0 then BadArgument else
    match cmd
    case START_XFER => StartXfer(arg)
    case FINISH_XFER => FinishXfer(arg, asleep, awake, dmaError)
    case XFER => Op.Xfer(arg, asleep, awake, dmaError)
    case SHOW_BUFLEN => ShowBuflen(arg)
  }
}
