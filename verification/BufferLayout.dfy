/** Where the driver puts its buffers: the table allocated and the DMA addresses computed by create_channel
    (dma-proxy.c), over the struct channel_buffer of dma-proxy.h. */
module BufferLayout {

  const BUFFER_SIZE := 128 * 1024

  /** The data words, then status, length and two words of padding. */
  const STATUS_OFFSET := BUFFER_SIZE
  const LENGTH_OFFSET := BUFFER_SIZE + 4
  const CHANNEL_BUFFER_SIZE := BUFFER_SIZE + 16

  /** A half-open range of bus addresses. */
  datatype Range = Range(lo: int, hi: int)

  predicate Disjoint(a: Range, b: Range) {
    a.hi <= b.lo || b.hi <= a.lo
  }

  predicate Inside(a: Range, b: Range) {
    b.lo <= a.lo && a.hi <= b.hi
  }

  /** pBdTable[i].dma_handle. */
  function DmaHandle(base: nat, i: nat): nat {
    base + CHANNEL_BUFFER_SIZE * i
  }

  /** What a transfer of `length` bytes on buffer i reads or writes. */
  function DmaRegion(base: nat, i: nat, length: nat): Range {
    Range(DmaHandle(base, i), DmaHandle(base, i) + length)
  }

  function StatusWord(base: nat, i: nat): Range {
    Range(base + CHANNEL_BUFFER_SIZE * i + STATUS_OFFSET, base + CHANNEL_BUFFER_SIZE * i + STATUS_OFFSET + 4)
  }

  function LengthWord(base: nat, i: nat): Range {
    Range(base + CHANNEL_BUFFER_SIZE * i + LENGTH_OFFSET, base + CHANNEL_BUFFER_SIZE * i + LENGTH_OFFSET + 4)
  }

  function Allocation(base: nat, count: nat): Range {
    Range(base, base + CHANNEL_BUFFER_SIZE * count)
  }

  /** The loop of create_channel. */
  method FillDmaHandles(base: nat, count: nat) returns (handles: seq<nat>)
    ensures |handles| == count
    ensures forall i :: 0 <= i < count ==> handles[i] == DmaHandle(base, i)
    ensures forall i, j :: 0 <= i < j < count ==> handles[i] + CHANNEL_BUFFER_SIZE <= handles[j]
  {
    handles := [];
    var bd := 0;
    while bd < count
      invariant bd <= count && |handles| == bd
      invariant forall i :: 0 <= i < bd ==> handles[i] == DmaHandle(base, i)
    {
      handles := handles + [base + CHANNEL_BUFFER_SIZE * bd];
      bd := bd + 1;
    }
  }

  /** Transfers of any two buffers never meet, stay inside the allocation, and touch no status or length
      word of any buffer, for every table size and every length up to BUFFER_SIZE. */
  lemma TransfersAreSeparate(base: nat, count: nat, i: nat, j: nat, m: nat, n: nat)
    requires i < count && j < count && m <= BUFFER_SIZE && n <= BUFFER_SIZE
    ensures i != j ==> Disjoint(DmaRegion(base, i, m), DmaRegion(base, j, n))
    ensures Inside(DmaRegion(base, i, m), Allocation(base, count))
    ensures Disjoint(DmaRegion(base, i, m), StatusWord(base, j)) && Disjoint(DmaRegion(base, i, m), LengthWord(base, j))
    ensures Inside(StatusWord(base, j), Allocation(base, count)) && Inside(LengthWord(base, j), Allocation(base, count))
  {
  }

  /** Entries are a multiple of the 16-byte DMA width, so every transfer is aligned exactly if the allocation is. */
  lemma TransfersAreAligned(base: nat, i: nat)
    ensures DmaHandle(base, i) % 16 == base % 16
  {
    assert DmaHandle(base, i) == base + 16 * (8193 * i);
  }

  /** The bound is exact: one more byte reaches the buffer's own status word. */
  lemma LongerTransfersReachTheStatus(base: nat, i: nat, length: nat)
    ensures Disjoint(DmaRegion(base, i, length), StatusWord(base, i)) <==> length <= BUFFER_SIZE
  {
  }
}
