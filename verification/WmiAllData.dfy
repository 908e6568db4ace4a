/**
 * The all-data query of the WMI library (wmilib/wmilib.c): where the data starts, how the packed lengths
 * become offset and length pairs in place, and how a caller whose buffer was too small asks again.
 * The buffer is the array of its 32-bit words; the layout of its header comes from wmistr.h, which is not
 * part of this model: 15 words, then the pairs.
 */
module WmiAllData {
  import opened Base

  // words of the header
  const BUFFER_SIZE: nat := 0
  const TIME_STAMP: nat := 4
  const FLAGS: nat := 11
  const DATA_BLOCK_OFFSET: nat := 12
  const SIZE_NEEDED: nat := 12
  const INSTANCE_COUNT: nat := 13
  const PAIRS: nat := 15

  // sizes in bytes
  const ALL_DATA_SIZE: nat := 72
  const TOO_SMALL_SIZE: nat := 56

  const FLAG_FIXED_SIZE: nat := 0x10
  const FLAG_TOO_SMALL: nat := 0x20

  /** (x + 7) & ~7 in 32-bit arithmetic. */
  function AlignWrap(x: int): U32 {
    Wrap32(x + 7) / 8 * 8
  }

  /** The next multiple of 8, in unbounded arithmetic. */
  function Align(x: nat): (r: nat)
    ensures r % 8 == 0 && x <= r < x + 8
  {
    (x + 7) / 8 * 8
  }

  /** Where the data block starts: behind the pairs of all instances. */
  function BlockOffset(count: U32): U32 {
    AlignWrap(4 * PAIRS + Wrap32(count * 8))
  }

  function Needed(count: U32, used: U32): U32 {
    Wrap32(BlockOffset(count) + used)
  }

  /** The pairs of all instances end below 2^32. */
  predicate CountFits(count: U32) {
    4 * PAIRS + count * 8 + 7 < TWO32
  }

  lemma {:induction false} AlignWraps(x: nat)
    ensures AlignWrap(x) == Wrap32(Align(x))
  {
    var q, r := (x + 7) / TWO32, (x + 7) % TWO32;
    assert (x + 7) / 8 == q * 0x2000_0000 + r / 8;
    WrapSum(q, r / 8 * 8);
  }

  lemma WrapSum(q: nat, r: nat)
    requires r < TWO32
    ensures Wrap32(q * TWO32 + r) == r
  {
  }

  /** Rounding up what has wrapped is wrapping what was rounded up. */
  lemma {:induction false} NextOffset(x: nat, length: nat)
    ensures AlignWrap(Wrap32(x) + length) == Wrap32(Align(x + length))
  {
    assert (x % TWO32 + length + 7) % TWO32 == (x + length + 7) % TWO32;
    AlignWraps(x + length);
  }

  /**
   * The pairs lie before the data block exactly when their end does not wrap. Where the data block fits, they are
   * inside the buffer then, and for just one other count, in a buffer of nearly 4 GB whose data block is at 0.
   */
  lemma {:induction false} PairsFitExactly(count: U32, size: U32)
    requires BlockOffset(count) <= size
    ensures 4 * PAIRS + 8 * count <= BlockOffset(count) <==> CountFits(count)
    ensures 4 * PAIRS + 8 * count <= size <==> CountFits(count) || 4 * PAIRS + 8 * count == TWO32 - 4 <= size
    ensures CountFits(count) ==> BlockOffset(count) == Align(4 * PAIRS + 8 * count)
    ensures 4 * PAIRS + 8 * count == TWO32 - 4 ==> BlockOffset(count) == 0
  {
    if CountFits(count) {
      BlockOffsetUnwrapped(count);
    } else if 4 * PAIRS + 8 * count < TWO32 {
      WrapSmall(count * 8);
      assert 4 * PAIRS + 8 * count == TWO32 - 4;
      assert BlockOffset(count) == 0;
    }
  }

  /** 2^29 instances: their pairs are taken to need no space at all, and the data block to fit a minimal buffer. */
  lemma PairsOverrun()
    ensures BlockOffset(0x2000_0000) == 64 <= ALL_DATA_SIZE < 4 * PAIRS + 8 * 0x2000_0000
  {
  }

  lemma {:induction false} BlockOffsetUnwrapped(count: U32)
    requires CountFits(count)
    ensures BlockOffset(count) == Align(4 * PAIRS + 8 * count)
  {
    WrapSmall(count * 8);
    WrapSmall(4 * PAIRS + count * 8 + 7);
  }

  /** In all cases the data block starts at the first multiple of 8 behind the pairs, modulo 2^32. */
  lemma {:induction false} BlockOffsetIs(count: U32)
    ensures BlockOffset(count) == (60 + 8 * count + 7) % 0x1_0000_0000 / 8 * 8
  {
    assert (4 * PAIRS + (count * 8) % TWO32 + 7) % TWO32 == (4 * PAIRS + count * 8 + 7) % TWO32;
  }

  lemma WrapSmall(x: nat)
    requires x < TWO32
    ensures Wrap32(x) == x
  {
  }

  // ---- Offsets

  /** The offset stored for instance i. */
  function OffsetAt(start: U32, lengths: seq<U32>, i: nat): U32
    requires i <= |lengths|
  {
    if i == 0 then start else AlignWrap(OffsetAt(start, lengths, i - 1) + lengths[i - 1])
  }

  /** Where instance i lies: each starts at the first multiple of 8 behind the one before. */
  function TrueOffset(start: nat, lengths: seq<U32>, i: nat): nat
    requires i <= |lengths|
  {
    if i == 0 then start else Align(TrueOffset(start, lengths, i - 1) + lengths[i - 1])
  }

  lemma {:induction false} StoredOffset(start: U32, lengths: seq<U32>, i: nat)
    requires i <= |lengths|
    ensures OffsetAt(start, lengths, i) == Wrap32(TrueOffset(start, lengths, i))
  {
    if i > 0 {
      StoredOffset(start, lengths, i - 1);
      NextOffset(TrueOffset(start, lengths, i - 1), lengths[i - 1]);
    }
  }

  /** An instance that starts below 2^32 is stored where it lies; any other at least 2^32 too low. */
  lemma {:induction false} StoredTruly(start: U32, lengths: seq<U32>, i: nat)
    requires i <= |lengths|
    ensures TrueOffset(start, lengths, i) < TWO32 ==> OffsetAt(start, lengths, i) == TrueOffset(start, lengths, i)
    ensures TrueOffset(start, lengths, i) >= TWO32
        ==> OffsetAt(start, lengths, i) <= TrueOffset(start, lengths, i) - TWO32
  {
    StoredOffset(start, lengths, i);
    WrapCases(OffsetAt(start, lengths, i), TrueOffset(start, lengths, i));
  }

  lemma WrapCases(stored: U32, x: nat)
    requires stored == Wrap32(x)
    ensures x < TWO32 ==> stored == x
    ensures x >= TWO32 ==> stored <= x - TWO32
  {
  }

  lemma {:induction false} TrueOffsetsAscend(start: nat, lengths: seq<U32>, i: nat, j: nat)
    requires i < j <= |lengths|
    ensures TrueOffset(start, lengths, i) + lengths[i] <= TrueOffset(start, lengths, j)
  {
    if i < j - 1 {
      TrueOffsetsAscend(start, lengths, i, j - 1);
    }
  }

  /** And they follow each other as closely as multiples of 8 can. */
  lemma TrueOffsetTight(start: nat, lengths: seq<U32>, i: nat)
    requires i < |lengths|
    ensures TrueOffset(start, lengths, 0) == start
    ensures TrueOffset(start, lengths, i + 1) % 8 == 0
    ensures 0 <= TrueOffset(start, lengths, i + 1) - (TrueOffset(start, lengths, i) + lengths[i]) < 8
  {
  }

  lemma {:induction false} TrueOffsetAligned(start: nat, lengths: seq<U32>, i: nat)
    requires i <= |lengths| && start % 8 == 0
    ensures TrueOffset(start, lengths, i) % 8 == 0
  {
  }

  /** The data of instance i ends before that of instance j starts. */
  ghost predicate Before(start: U32, lengths: seq<U32>, i: nat, j: nat)
    requires i < |lengths| && j < |lengths|
  {
    OffsetAt(start, lengths, i) + lengths[i] <= OffsetAt(start, lengths, j)
  }

  ghost predicate Ascending(start: U32, lengths: seq<U32>) {
    forall i, j :: 0 <= i < j < |lengths| ==> Before(start, lengths, i, j)
  }

  /** The stored offsets keep the instances apart and in order exactly when the last one starts below 2^32. */
  lemma AscendingExactly(start: U32, lengths: seq<U32>)
    requires lengths != []
    ensures Ascending(start, lengths) <==> TrueOffset(start, lengths, |lengths| - 1) < TWO32
  {
    var n := |lengths| - 1;
    if TrueOffset(start, lengths, n) < TWO32 {
      forall i, j | 0 <= i < j <= n
        ensures Before(start, lengths, i, j)
      {
        BeforeUnwrapped(start, lengths, i, j);
      }
    } else {
      var k := FirstWrap(start, lengths, n);
      assert !Before(start, lengths, k - 1, k);
    }
  }

  lemma BeforeUnwrapped(start: U32, lengths: seq<U32>, i: nat, j: nat)
    requires i < j < |lengths| && TrueOffset(start, lengths, |lengths| - 1) < TWO32
    ensures Before(start, lengths, i, j)
  {
    TrueOffsetsAscend(start, lengths, i, j);
    if j < |lengths| - 1 {
      TrueOffsetsAscend(start, lengths, j, |lengths| - 1);
    }
    StoredTruly(start, lengths, i);
    StoredTruly(start, lengths, j);
  }

  /** The first instance past 2^32 is stored before the end of the one before it. */
  lemma {:induction false} FirstWrap(start: U32, lengths: seq<U32>, n: nat) returns (k: nat)
    requires n < |lengths| && TrueOffset(start, lengths, n) >= TWO32
    ensures 0 < k <= n && !Before(start, lengths, k - 1, k)
  {
    assert n > 0;
    if TrueOffset(start, lengths, n - 1) >= TWO32 {
      k := FirstWrap(start, lengths, n - 1);
    } else {
      k := n;
      StoredTruly(start, lengths, n - 1);
      StoredTruly(start, lengths, n);
    }
  }

  // ---- The fix-up

  datatype Status = Success | BufferTooSmall | Failed

  function WithoutFixedSize(flags: U32): (r: U32)
    ensures r / FLAG_FIXED_SIZE % 2 == 0
    ensures r % FLAG_FIXED_SIZE == flags % FLAG_FIXED_SIZE && r / 32 == flags / 32
  {
    if flags / FLAG_FIXED_SIZE % 2 == 1 then flags - FLAG_FIXED_SIZE else flags
  }

  /** Word k of the pair of each instance: its offset, then its length. */
  ghost predicate Paired(words: seq<U32>, start: U32, lengths: seq<U32>) {
    && |words| >= PAIRS + 2 * |lengths|
    && forall i :: 0 <= i < |lengths| ==>
         words[PAIRS + 2 * i] == OffsetAt(start, lengths, i) && words[PAIRS + 2 * i + 1] == lengths[i]
  }

  /** Nothing outside the pairs has changed. */
  twostate predicate OnlyPairs(a: array<U32>, count: nat)
    reads a
  {
    forall w :: 0 <= w < a.Length && (w < PAIRS || PAIRS + 2 * count <= w) ==> a[w] == old(a[w])
  }

  /** Spread the packed lengths to the second words of the pairs, backwards because each moves up. */
  method Spread(a: array<U32>, count: nat)
    requires PAIRS + 2 * count <= a.Length
    modifies a
    ensures forall k :: 0 <= k < count ==> a[PAIRS + 2 * k + 1] == old(a[PAIRS..PAIRS + count])[k]
    ensures OnlyPairs(a, count)
  {
    ghost var lengths := a[PAIRS..PAIRS + count];
    var i := count;
    while i != 0
      invariant 0 <= i <= count
      invariant forall k :: 0 <= k < i ==> a[PAIRS + k] == lengths[k]
      invariant forall k :: i <= k < count ==> a[PAIRS + 2 * k + 1] == lengths[k]
      invariant OnlyPairs(a, count)
    {
      assert a[PAIRS + (i - 1)] == lengths[i - 1];
      a[PAIRS + 2 * (i - 1) + 1] := a[PAIRS + i - 1];
      i := i - 1;
    }
  }

  /** Put the offsets between the lengths. */
  method PlaceOffsets(a: array<U32>, start: U32, ghost lengths: seq<U32>, count: nat)
    requires count == |lengths| && PAIRS + 2 * count <= a.Length
    requires forall k :: 0 <= k < count ==> a[PAIRS + 2 * k + 1] == lengths[k]
    modifies a
    ensures Paired(a[..], start, lengths)
    ensures OnlyPairs(a, count)
  {
    var i, offset := 0, start;
    while i < count
      invariant 0 <= i <= count && offset == OffsetAt(start, lengths, i)
      invariant forall k :: 0 <= k < i ==> a[PAIRS + 2 * k] == OffsetAt(start, lengths, k)
      invariant forall k :: 0 <= k < count ==> a[PAIRS + 2 * k + 1] == lengths[k]
      invariant OnlyPairs(a, count)
    {
      a[PAIRS + 2 * i] := offset;
      var length: int := a[PAIRS + 2 * i + 1];
      assert length == lengths[i];
      offset := AlignWrap(offset + length);
      i := i + 1;
    }
  }

  /**
   * The query on its way to the data provider; room tells whether the pairs and the data have any space. The array
   * is the memory from the start of the buffer on; only its first size bytes are the buffer.
   */
  method BeginQuery(a: array<U32>, size: U32, count: U32) returns (ok: bool, room: bool, available: U32)
    requires size / 4 <= a.Length
    modifies a
    ensures ok <==> size >= ALL_DATA_SIZE
    ensures !ok ==> a[..] == old(a[..])
    ensures ok ==> a[..] == Begun(old(a[..]), count)
    ensures ok ==> a[INSTANCE_COUNT] == count && a[DATA_BLOCK_OFFSET] == BlockOffset(count)
    ensures ok ==> a[11] / 16 % 2 == 0 && a[11] % 16 == old(a[11]) % 16 && a[11] / 32 == old(a[11]) / 32
    ensures ok ==> forall w :: 0 <= w < a.Length && w != 11 && w != 12 && w != 13 ==> a[w] == old(a[w])
    ensures room <==> ok && BlockOffset(count) <= size
    ensures available == if room then size - BlockOffset(count) else 0
  {
    if size < ALL_DATA_SIZE {
      return false, false, 0;
    }
    a[INSTANCE_COUNT] := count;
    a[FLAGS] := WithoutFixedSize(a[FLAGS]);
    a[DATA_BLOCK_OFFSET] := BlockOffset(count);
    if BlockOffset(count) <= size {
      return true, true, size - BlockOffset(count);
    } else {
      return true, false, 0;
    }
  }

  function Begun(words: seq<U32>, count: U32): seq<U32>
    requires |words| > INSTANCE_COUNT
  {
    words[INSTANCE_COUNT := count][FLAGS := WithoutFixedSize(words[FLAGS])][DATA_BLOCK_OFFSET := BlockOffset(count)]
  }

  function TooSmallReply(words: seq<U32>, needed: U32): seq<U32>
    requires |words| > INSTANCE_COUNT
  {
    words[BUFFER_SIZE := TOO_SMALL_SIZE][FLAGS := FLAG_TOO_SMALL][SIZE_NEEDED := needed]
  }

  /** The words between the header's size and time and the pairs are as they were. */
  ghost predicate HeaderKept(words: seq<U32>, was: seq<U32>)
    requires |words| == |was| && |was| >= PAIRS
  {
    forall w :: 0 < w < PAIRS && w != TIME_STAMP && w != TIME_STAMP + 1 ==> words[w] == was[w]
  }

  /**
   * The query on its way back. The loops write pairs for as many instances as the header says, whether they lie in
   * the buffer or not; PairsFitExactly tells when they do.
   */
  method CompleteQuery(a: array<U32>, size: U32, status: Status, used: U32, time: (U32, U32))
    returns (result: Status, retSize: U32)
    requires ALL_DATA_SIZE <= size && size / 4 <= a.Length
    requires status.Success? && Wrap32(a[DATA_BLOCK_OFFSET] + used) <= size
         ==> PAIRS + 2 * (a[INSTANCE_COUNT] as int) <= a.Length
    modifies a
    ensures var needed := Wrap32(old(a[DATA_BLOCK_OFFSET]) + used);
            var count := old(a[INSTANCE_COUNT]);
            if status.Failed? then result == Failed && retSize == 0 && a[..] == old(a[..])
            else if status.BufferTooSmall? || needed > size then
              result == Success && retSize == TOO_SMALL_SIZE && a[..] == TooSmallReply(old(a[..]), needed)
            else
              && result == Success && retSize == needed == a[BUFFER_SIZE] && a[4] == time.0 && a[5] == time.1
              && HeaderKept(a[..], old(a[..]))
              && Paired(a[..], old(a[DATA_BLOCK_OFFSET]), old(a[..])[PAIRS..PAIRS + count])
              && forall w :: PAIRS + 2 * (count as int) <= w < a.Length ==> a[w] == old(a[w])
  {
    var start, count := a[DATA_BLOCK_OFFSET], a[INSTANCE_COUNT];
    var needed := Wrap32(a[DATA_BLOCK_OFFSET] + used);
    if status.Failed? {
      return Failed, 0;
    }
    if status.BufferTooSmall? || needed > size {
      a[BUFFER_SIZE] := TOO_SMALL_SIZE;
      a[FLAGS] := FLAG_TOO_SMALL;
      a[SIZE_NEEDED] := needed;
      return Success, TOO_SMALL_SIZE;
    }
    a[TIME_STAMP], a[TIME_STAMP + 1] := time.0, time.1;
    a[BUFFER_SIZE] := needed;
    ghost var lengths := a[PAIRS..PAIRS + count];
    assert lengths == old(a[..])[PAIRS..PAIRS + count];
    Spread(a, count);
    PlaceOffsets(a, start, lengths, count);
    return Success, needed;
  }

  // ---- The conversation

  datatype Answer = Refused | TooSmall(needed: U32) | Full(size: U32)

  /** What a provider with `used` bytes of data says about the space it was given. */
  function ProviderStatus(room: bool, available: U32, used: U32): Status {
    if room && used <= available then Success else BufferTooSmall
  }

  function Reply(size: U32, count: U32, used: U32): Answer {
    var room := BlockOffset(count) <= size;
    var available := if room then size - BlockOffset(count) else 0;
    if size < ALL_DATA_SIZE then Refused
    else if ProviderStatus(room, available, used).Success? then Full(Needed(count, used))
    else TooSmall(Needed(count, used))
  }

  /** A provider that has the space writes the packed lengths. */
  method FillLengths(a: array<U32>, lengths: seq<U32>)
    requires PAIRS + |lengths| <= a.Length
    modifies a
    ensures a[PAIRS..PAIRS + |lengths|] == lengths
    ensures forall w :: 0 <= w < PAIRS ==> a[w] == old(a[w])
  {
    var i := 0;
    while i < |lengths|
      invariant 0 <= i <= |lengths|
      invariant forall k :: 0 <= k < i ==> a[PAIRS + k] == lengths[k]
      invariant forall w :: 0 <= w < PAIRS ==> a[w] == old(a[w])
    {
      a[PAIRS + i] := lengths[i];
      i := i + 1;
    }
  }

  /** The provider writes the packed lengths if it was given the space for them. */
  method Provide(a: array<U32>, lengths: seq<U32>, room: bool, available: U32, used: U32) returns (status: Status)
    requires room ==> PAIRS + |lengths| <= a.Length
    modifies a
    ensures status == ProviderStatus(room, available, used)
    ensures room ==> a[..][PAIRS..PAIRS + |lengths|] == lengths
    ensures a.Length > INSTANCE_COUNT ==>
              a[INSTANCE_COUNT] == old(a[INSTANCE_COUNT]) && a[DATA_BLOCK_OFFSET] == old(a[DATA_BLOCK_OFFSET])
  {
    if room {
      FillLengths(a, lengths);
    }
    return ProviderStatus(room, available, used);
  }

  /** The way back from a provider that did not fail. */
  method PassOn(a: array<U32>, size: U32, status: Status, used: U32, time: (U32, U32),
                ghost start: U32, ghost lengths: seq<U32>) returns (answer: Answer)
    requires ALL_DATA_SIZE <= size && size / 4 <= a.Length && !status.Failed?
    requires a[INSTANCE_COUNT] == |lengths| && a[DATA_BLOCK_OFFSET] == start
    requires status.Success?
         ==> && PAIRS + 2 * |lengths| <= a.Length && a[..][PAIRS..PAIRS + |lengths|] == lengths
             && Wrap32(start + used) <= size
    modifies a
    ensures answer == if status.Success? then Full(Wrap32(start + used)) else TooSmall(Wrap32(start + used))
    ensures status.Success?
        ==> a[BUFFER_SIZE] == answer.size && a[4] == time.0 && a[5] == time.1 && Paired(a[..], start, lengths)
    ensures status.Success? ==> a[13] == |lengths| && a[12] == start
    ensures !status.Success?
        ==> a[BUFFER_SIZE] == TOO_SMALL_SIZE && a[FLAGS] == FLAG_TOO_SMALL && a[SIZE_NEEDED] == answer.needed
  {
    var result, retSize := CompleteQuery(a, size, status, used, time);
    if status.Success? {
      return Full(retSize);
    } else {
      return TooSmall(a[SIZE_NEEDED]);
    }
  }

  /** A whole query: to the provider, which fills in what it has, and back. */
  method QueryAllData(a: array<U32>, size: U32, lengths: seq<U32>, used: U32, time: (U32, U32)) returns (answer: Answer)
    requires size / 4 <= a.Length && |lengths| < TWO32
    requires BlockOffset(|lengths|) <= size ==> PAIRS + 2 * |lengths| <= a.Length
    modifies a
    ensures answer == Reply(size, |lengths|, used)
    ensures answer.Full? ==> a[BUFFER_SIZE] == answer.size <= size && Paired(a[..], BlockOffset(|lengths|), lengths)
    ensures answer.Full? ==> a[4] == time.0 && a[5] == time.1
    ensures answer.Full? ==> a[13] == |lengths| && a[12] == BlockOffset(|lengths|)
    ensures answer.TooSmall?
        ==> a[BUFFER_SIZE] == TOO_SMALL_SIZE == 56 && a[FLAGS] == FLAG_TOO_SMALL && a[SIZE_NEEDED] == answer.needed
    ensures answer.Refused? ==> a[..] == old(a[..])
    ensures answer.Refused? <==> size < 72
  {
    var count: U32 := |lengths|;
    var ok, room, available := BeginQuery(a, size, count);
    if !ok {
      return Refused;
    }
    var status := Provide(a, lengths, room, available, used);
    WrapWithin(room, size, count, used);
    answer := PassOn(a, size, status, used, time, BlockOffset(count), lengths);
  }

  /** What a provider accepts needs no more than the buffer has. */
  lemma WrapWithin(room: bool, size: U32, count: U32, used: U32)
    requires room ==> BlockOffset(count) <= size
    ensures ProviderStatus(room, if room then size - BlockOffset(count) else 0, used).Success?
        ==> Needed(count, used) <= size
  {
    if room && used <= size - BlockOffset(count) {
      WrapSmall(BlockOffset(count) + used);
    }
  }

  /**
   * A caller told that its buffer is too small, who asks again with the size it was given, gets a full
   * answer exactly when that size did not wrap.
   */
  lemma {:induction false} RetryFullExactly(size: U32, count: U32, used: U32)
    requires Reply(size, count, used).TooSmall?
    ensures var needed := Reply(size, count, used).needed;
            Reply(needed, count, used) == Full(needed) <==> BlockOffset(count) + used < TWO32
  {
    WrapCases(Needed(count, used), BlockOffset(count) + used);
  }

  /** And no smaller buffer would have done. */
  lemma {:induction false} RetryMinimal(size: U32, count: U32, used: U32)
    requires BlockOffset(count) + used < TWO32 && ALL_DATA_SIZE <= size
    ensures if size < BlockOffset(count) + used then Reply(size, count, used) == TooSmall(BlockOffset(count) + used)
            else Reply(size, count, used) == Full(BlockOffset(count) + used)
  {
    WrapSmall(BlockOffset(count) + used);
  }

  /** Instances that end below 2^32 lie apart, aligned, between the start of the data and that end. */
  lemma DataInside(start: U32, lengths: seq<U32>, end: U32, i: nat)
    requires start % 8 == 0 && i < |lengths|
    requires TrueOffset(start, lengths, |lengths| - 1) + lengths[|lengths| - 1] <= end
    ensures Ascending(start, lengths)
    ensures OffsetAt(start, lengths, i) % 8 == 0
    ensures start <= OffsetAt(start, lengths, i) && OffsetAt(start, lengths, i) + lengths[i] <= end
  {
    AscendingExactly(start, lengths);
    if i > 0 {
      TrueOffsetsAscend(start, lengths, 0, i);
    }
    if i < |lengths| - 1 {
      TrueOffsetsAscend(start, lengths, i, |lengths| - 1);
    }
    StoredTruly(start, lengths, i);
    TrueOffsetAligned(start, lengths, i);
  }

  /** A provider that counts its last instance among the bytes it used has all its data inside the answer. */
  lemma AnswerHoldsData(lengths: seq<U32>, used: U32, size: U32, i: nat)
    requires |lengths| < TWO32 && CountFits(|lengths|) && i < |lengths|
    requires Reply(size, |lengths|, used) == Full(Needed(|lengths|, used))
    requires var start := BlockOffset(|lengths|);
             TrueOffset(start, lengths, |lengths| - 1) + lengths[|lengths| - 1] <= start + used
    ensures Ascending(BlockOffset(|lengths|), lengths)
    ensures OffsetAt(BlockOffset(|lengths|), lengths, i) + lengths[i] <= Needed(|lengths|, used) <= size
    ensures PAIRS * 4 + |lengths| * 8 <= OffsetAt(BlockOffset(|lengths|), lengths, i)
  {
    var start := BlockOffset(|lengths|);
    WrapSmall(start + used);
    BlockOffsetUnwrapped(|lengths|);
    DataInside(start, lengths, Needed(|lengths|, used), i);
  }
}
