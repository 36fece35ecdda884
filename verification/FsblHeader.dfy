/** Partition headers of the Zynq boot image: counting, the end marker, and the header checksum. */
module FsblHeader {
  import opened Word32

  const MAXIMUM_IMAGE_WORD_LEN := 0x4000_0000

  /** The named header fields. `other` stands for the words this code never names; image_mover.h, which
      fixes the order, is not part of this model. The checksum is the last word. */
  datatype PartHeader = PartHeader(imageWordLen: Word, dataWordLen: Word, partitionWordLen: Word,
                                   loadAddr: Word, execAddr: Word, partitionStart: Word, attr: Word,
                                   checksumOffset: Word, sectionCount: Word, other: seq<Word>, checksum: Word) {
    /** The same header as the array of words that the checks read. */
    function Words(): (w: seq<Word>)
      ensures |w| == 10 + |other| && w[|w| - 1] == checksum && w[0] == imageWordLen
    {
      [imageWordLen, dataWordLen, partitionWordLen, loadAddr, execAddr, partitionStart, attr,
       checksumOffset, sectionCount] + other + [checksum]
    }
  }

  /** The sum of words, wrapping at 32 bits. */
  function Sum(w: seq<Word>): Word {
    if |w| == 0 then 0 else Wrap(Sum(w[..|w| - 1]) + w[|w| - 1])
  }

  /** The words before the checksum word, summed and inverted, equal the checksum word. */
  predicate ChecksumValid(w: seq<Word>)
    requires 0 < |w|
  {
    w[|w| - 1] == ALL_ONES - Sum(w[..|w| - 1])
  }

  predicate AllZero(w: seq<Word>) {
    forall i :: 0 <= i < |w| ==> w[i] == 0
  }

  /** The end marker: zeros and a final word of ones. */
  predicate IsTerminator(w: seq<Word>)
    requires 0 < |w|
  {
    w[|w| - 1] == ALL_ONES && AllZero(w[..|w| - 1])
  }

  predicate HeaderValid(h: PartHeader) {
    ChecksumValid(h.Words()) && h.imageWordLen <= MAXIMUM_IMAGE_WORD_LEN
  }

  // ---------------------------------------------------------------- the checks as loops

  method ValidatePartitionHeaderChecksum(w: array<Word>) returns (ok: bool)
    requires 0 < w.Length
    ensures ok <==> ChecksumValid(w[..])
  {
    var checksum: Word := 0;
    var count := 0;
    while count < w.Length - 1
      invariant 0 <= count <= w.Length - 1 && checksum == Sum(w[..count])
    {
      assert w[..count + 1][..count] == w[..count];
      checksum := Wrap(checksum + w[count]);
      count := count + 1;
    }
    assert w[..][..w.Length - 1] == w[..count];
    ok := w[w.Length - 1] == ALL_ONES - checksum;
  }

  method IsLastPartition(w: array<Word>) returns (last: bool)
    requires 0 < w.Length
    ensures last <==> IsTerminator(w[..])
  {
    if w[w.Length - 1] != ALL_ONES {
      return false;
    }
    var index := 0;
    while index < w.Length - 1
      invariant 0 <= index <= w.Length - 1
      invariant AllZero(w[..index])
    {
      if w[index] != 0 {
        assert w[..][..w.Length - 1][index] != 0;
        return false;
      }
      index := index + 1;
    }
    assert w[..][..w.Length - 1] == w[..index];
    return true;
  }

  method IsEmptyHeader(w: array<Word>) returns (empty: bool)
    ensures empty <==> AllZero(w[..])
  {
    var index := 0;
    while index < w.Length
      invariant 0 <= index <= w.Length
      invariant AllZero(w[..index])
    {
      if w[index] != 0 {
        assert w[..][index] != 0;
        return false;
      }
      index := index + 1;
    }
    assert w[..] == w[..index];
    return true;
  }

  method ValidateHeader(h: PartHeader) returns (ok: bool)
    ensures ok <==> HeaderValid(h)
  {
    var words := h.Words();
    var w: array<Word> := new Word[|words|](i requires 0 <= i < |words| => words[i]);
    assert w[..] == words;
    var empty := IsEmptyHeader(w);
    if empty {
      EmptyHeaderInvalid(words);
      return false;
    }
    var sumOk := ValidatePartitionHeaderChecksum(w);
    return sumOk && h.imageWordLen <= MAXIMUM_IMAGE_WORD_LEN;
  }

  /** The first end marker of the table, or its length when there is none. */
  function FirstTerminator(hs: seq<PartHeader>): (n: nat)
    ensures n <= |hs|
    ensures forall i :: 0 <= i < n ==> !IsTerminator(hs[i].Words())
    ensures n < |hs| ==> IsTerminator(hs[n].Words())
  {
    if |hs| == 0 || IsTerminator(hs[0].Words()) then 0 else 1 + FirstTerminator(hs[1..])
  }

  lemma {:induction false} FirstTerminatorUnique(hs: seq<PartHeader>, n: nat)
    requires n <= |hs| && forall i :: 0 <= i < n ==> !IsTerminator(hs[i].Words())
    requires n < |hs| ==> IsTerminator(hs[n].Words())
    ensures n == FirstTerminator(hs)
  {
  }

  method GetPartitionCount(hs: seq<PartHeader>) returns (count: nat)
    ensures count == FirstTerminator(hs)
  {
    count := 0;
    while count < |hs|
      invariant count <= |hs|
      invariant forall i :: 0 <= i < count ==> !IsTerminator(hs[i].Words())
    {
      var words := hs[count].Words();
      var w: array<Word> := new Word[|words|](i requires 0 <= i < |words| => words[i]);
      assert w[..] == words;
      var last := IsLastPartition(w);
      if last {
        break;
      }
      count := count + 1;
    }
    FirstTerminatorUnique(hs, count);
  }

  // ---------------------------------------------------------------- what the checks promise

  lemma {:induction false} ZeroSum(w: seq<Word>)
    requires AllZero(w)
    ensures Sum(w) == 0
  {
    if |w| > 0 {
      ZeroSum(w[..|w| - 1]);
    }
  }

  /** A header of zeros never validates, so the separate test for it changes nothing. */
  lemma EmptyHeaderInvalid(w: seq<Word>)
    requires 0 < |w| && AllZero(w)
    ensures !ChecksumValid(w)
  {
    ZeroSum(w[..|w| - 1]);
  }

  /** The end marker itself passes the checksum: only the count keeps the walk from processing it. */
  lemma TerminatorPassesChecksum(w: seq<Word>)
    requires 0 < |w| && IsTerminator(w)
    ensures ChecksumValid(w)
  {
    ZeroSum(w[..|w| - 1]);
  }

  function Change(from: Word, to: Word): int {
    to as int - from as int
  }

  /** Replacing one word moves the sum by exactly the difference, modulo 2^32. */
  lemma {:induction false} SumUpdate(w: seq<Word>, w': seq<Word>, i: nat)
    requires i < |w| == |w'| && forall j :: 0 <= j < |w| && j != i ==> w'[j] == w[j]
    ensures Sum(w') == Wrap(Sum(w) + Change(w[i], w'[i]))
  {
    var n := |w| - 1;
    assert Sum(w) == Wrap(Sum(w[..n]) + w[n]) && Sum(w') == Wrap(Sum(w'[..n]) + w'[n]);
    if i == n {
      assert w'[..n] == w[..n];
      WrapReplaces(Sum(w[..n]), w[n], w'[n]);
    } else {
      SumUpdate(w[..n], w'[..n], i);
      var change := Change(w[..n][i], w'[..n][i]);
      assert change == Change(w[i], w'[i]) && Sum(w'[..n]) == Wrap(Sum(w[..n]) + change);
      WrapCommutes(Sum(w[..n]), w[n], change);
    }
  }

  lemma WrapReplaces(sum: Word, a: Word, b: Word)
    ensures Wrap(sum + b) == Wrap(Wrap(sum + a) + (b - a))
  {
  }

  lemma WrapCommutes(sum: Word, a: Word, change: int)
    requires -WORD_LIMIT < change < WORD_LIMIT
    ensures Wrap(Wrap(sum + change) + a) == Wrap(Wrap(sum + a) + change)
  {
  }

  /** Changing exactly one word of a valid header, the checksum word included, always invalidates it. */
  lemma OneWordChangeDetected(w: seq<Word>, i: nat, x: Word)
    requires i < |w| && ChecksumValid(w) && x != w[i]
    ensures !ChecksumValid(w[i := x])
  {
    var n := |w| - 1;
    var w' := w[i := x];
    if i == n {
      assert w'[..n] == w[..n];
    } else {
      SumUpdate(w[..n], w'[..n], i);
    }
  }

  /** Two changed words escape exactly when their differences cancel modulo 2^32. */
  lemma TwoWordChangeDetectedIff(w: seq<Word>, i: nat, j: nat, x: Word, y: Word)
    requires i < j < |w| - 1 && ChecksumValid(w)
    ensures ChecksumValid(w[i := x][j := y]) <==>
            var change := (x - w[i]) + (y - w[j]);
            change == 0 || change == WORD_LIMIT || change == -WORD_LIMIT
  {
    var n := |w| - 1;
    var w1 := w[i := x];
    var w2 := w1[j := y];
    SumUpdate(w[..n], w1[..n], i);
    SumUpdate(w1[..n], w2[..n], j);
    WrapTwice(Sum(w[..n]), x - w[i], y - w[j]);
  }

  lemma WrapTwice(sum: Word, c: int, d: int)
    requires -WORD_LIMIT < c < WORD_LIMIT && -WORD_LIMIT < d < WORD_LIMIT
    ensures Wrap(Wrap(sum + c) + d) == sum <==> c + d == 0 || c + d == WORD_LIMIT || c + d == -WORD_LIMIT
  {
  }
}
