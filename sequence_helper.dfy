/**
  The browser-side sequence-number helpers of src/utils/helper.ts: the older
  4-byte frame (`packDataWithSequenceNumber`, `extractSequenceNumber`) and
  the loss computation (`findMissingSequenceNumber`).

  The 4-byte frame is NOT the server's frame (see module FramePacker): here
  the sequence number is a big-endian uint32 and the tail is filled with 0xAA.
 */
module SequenceHelper {
  import opened Wrappers
  import opened Bytes

  /** What `extractSequenceNumber` may be handed: an `ArrayBuffer` or any other value. */
  datatype Received = ArrayBufferValue(bytes: seq<byte>) | NonBuffer

  datatype HelperError =
    | NotArrayBuffer    // "Input must be an ArrayBuffer."
    | TooSmall          // "Received buffer is too small (...) to contain a ...-byte sequence number."
    | SizeNotGreater    // "Fixed packet size must be greater than sequence number size."
    | OutOfBounds       // a RangeError thrown by DataView / Uint8Array on an offset outside the buffer

  const DEFAULT_SEQUENCE_NUMBER_SIZE: int := 4
  const FILL_BYTE: byte := 0xAA

  /**
    `extractSequenceNumber(receivedBuffer, sequenceNumberSize)`: the type
    check, the size check, then a big-endian uint32 read at offset 0, whatever
    `sequenceNumberSize` is (a buffer shorter than 4 bytes makes `getUint32`
    throw a RangeError).
   */
  function ExtractSequenceNumber(received: Received, sequenceNumberSize: int): (r: Result<nat, HelperError>)
    ensures r.Ok? ==> received.ArrayBufferValue? && |received.bytes| >= 4 && r.value < TWO_TO_32
  {
    match received
    case NonBuffer => Err(NotArrayBuffer)
    case ArrayBufferValue(bytes) =>
      if |bytes| < sequenceNumberSize then Err(TooSmall)
      else if |bytes| < 4 then Err(OutOfBounds)
      else
        BeValueBound(bytes[..4]);
        Ok(BeValue(bytes[..4]))
  }

  /**
    `extractSequenceNumber` throws "Input must be an ArrayBuffer." exactly for
    a value that is not an `ArrayBuffer`, the "too small" error exactly for a
    buffer shorter than `sequenceNumberSize`, and otherwise reads bytes 0-3 as
    a big-endian uint32 whatever the size and the buffer's length (a buffer of
    fewer than 4 bytes makes that read a RangeError).
   */
  lemma ExtractMeaning(received: Received, sequenceNumberSize: int)
    ensures ExtractSequenceNumber(received, sequenceNumberSize) == Err(NotArrayBuffer) <==> received.NonBuffer?
    ensures received.ArrayBufferValue? ==>
      (ExtractSequenceNumber(received, sequenceNumberSize) == Err(TooSmall) <==> |received.bytes| < sequenceNumberSize)
    ensures received.ArrayBufferValue? && |received.bytes| >= sequenceNumberSize && |received.bytes| < 4 ==>
      ExtractSequenceNumber(received, sequenceNumberSize) == Err(OutOfBounds)
    ensures received.ArrayBufferValue? && |received.bytes| >= sequenceNumberSize && |received.bytes| >= 4 ==>
      ExtractSequenceNumber(received, sequenceNumberSize) == Ok(BeValue(received.bytes[..4]))
  {
  }

  /**
    The cases of the extractor's own tests: a string is refused, a 2-byte
    buffer is too small for 4 bytes, and an 8-byte zeroed buffer with 12345
    written big-endian at offset 0 reads back 12345.
   */
  lemma ExtractExamples()
    ensures ExtractSequenceNumber(NonBuffer, DEFAULT_SEQUENCE_NUMBER_SIZE) == Err(NotArrayBuffer)
    ensures ExtractSequenceNumber(ArrayBufferValue([0, 0]), 4) == Err(TooSmall)
    ensures ExtractSequenceNumber(ArrayBufferValue(BeUint32(12345) + [0, 0, 0, 0]), 4) == Ok(12345)
  {
    var bs := BeUint32(12345) + [0, 0, 0, 0];
    assert bs[..4] == BeUint32(12345);
    Uint32RoundTrip(12345);
  }

  /** The bytes `packDataWithSequenceNumber` returns once its checks pass. */
  function Packed(sequenceNumber: int, fixedPacketSize: nat, sequenceNumberSize: nat): (bs: seq<byte>)
    requires fixedPacketSize >= 4
    ensures |bs| == fixedPacketSize
  {
    var header := BeUint32(sequenceNumber);
    seq(fixedPacketSize, i requires 0 <= i < fixedPacketSize =>
      if i >= sequenceNumberSize then FILL_BYTE else if i < 4 then header[i] else 0)
  }

  /** What `packDataWithSequenceNumber` returns or throws. */
  function Pack(sequenceNumber: int, fixedPacketSize: int, sequenceNumberSize: int): Result<seq<byte>, HelperError>
  {
    if fixedPacketSize <= sequenceNumberSize then Err(SizeNotGreater)
    else if fixedPacketSize < 4 || sequenceNumberSize < 0 then Err(OutOfBounds)
    else Ok(Packed(sequenceNumber, fixedPacketSize, sequenceNumberSize))
  }

  /** The packer: a zeroed buffer, a `setUint32` at offset 0, then 0xAA byte by byte after the sequence number. */
  method PackDataWithSequenceNumber(sequenceNumber: int, fixedPacketSize: int, sequenceNumberSize: int)
    returns (r: Result<seq<byte>, HelperError>)
    ensures r == Pack(sequenceNumber, fixedPacketSize, sequenceNumberSize)
  {
    if fixedPacketSize <= sequenceNumberSize {
      return Err(SizeNotGreater);
    }
    if fixedPacketSize < 4 {
      return Err(OutOfBounds);  // setUint32 past the end of the buffer
    }
    var buffer := new byte[fixedPacketSize](_ => 0);
    var header := BeUint32(sequenceNumber);
    buffer[0], buffer[1], buffer[2], buffer[3] := header[0], header[1], header[2], header[3];
    if sequenceNumberSize < 0 {
      return Err(OutOfBounds);  // new Uint8Array(buffer, negative offset, ...)
    }
    var payloadOffset := sequenceNumberSize;
    var bytesToFill := fixedPacketSize - sequenceNumberSize;
    for i := 0 to bytesToFill
      invariant forall j :: 0 <= j < payloadOffset && j < 4 ==> buffer[j] == header[j]
      invariant forall j :: 4 <= j < payloadOffset ==> buffer[j] == 0
      invariant forall j :: payloadOffset <= j < payloadOffset + i ==> buffer[j] == FILL_BYTE
    {
      buffer[payloadOffset + i] := FILL_BYTE;
    }
    ghost var expected := Packed(sequenceNumber, fixedPacketSize, sequenceNumberSize);
    forall j | 0 <= j < fixedPacketSize
      ensures buffer[j] == expected[j]
    {
    }
    assert buffer[..] == expected;
    r := Ok(buffer[..]);
  }

  /** The packer's failures: a size not above the sequence-number size, then RangeErrors. */
  lemma PackErrors(sequenceNumber: int, fixedPacketSize: int, sequenceNumberSize: int)
    ensures Pack(sequenceNumber, fixedPacketSize, sequenceNumberSize) == Err(SizeNotGreater)
            <==> fixedPacketSize <= sequenceNumberSize
    ensures Pack(sequenceNumber, fixedPacketSize, sequenceNumberSize).Ok?
            <==> fixedPacketSize > sequenceNumberSize && fixedPacketSize >= 4 && sequenceNumberSize >= 0
  {
  }

  /**
    For any size the packer accepts, the packet is the requested length:
    the big-endian uint32 in the header bytes below both the size and 4,
    zeros in header bytes 4 .. size - 1, and 0xAA from the size to the end.
    With the default size 4 that is the uint32 in bytes 0-3 and 0xAA after.
   */
  lemma PackLayout(sequenceNumber: int, fixedPacketSize: int, sequenceNumberSize: int)
    requires 0 <= sequenceNumberSize < fixedPacketSize && fixedPacketSize >= 4
    ensures Pack(sequenceNumber, fixedPacketSize, sequenceNumberSize).Ok?
    ensures var bs := Pack(sequenceNumber, fixedPacketSize, sequenceNumberSize).value;
      && |bs| == fixedPacketSize
      && (forall i :: 0 <= i < sequenceNumberSize && i < 4 ==> bs[i] == BeUint32(sequenceNumber)[i])
      && (forall i :: 4 <= i < sequenceNumberSize ==> bs[i] == 0)
      && (forall i :: sequenceNumberSize <= i < fixedPacketSize ==> bs[i] == FILL_BYTE)
      && (sequenceNumberSize == DEFAULT_SEQUENCE_NUMBER_SIZE ==> bs[..4] == BeUint32(sequenceNumber))
  {
  }

  /** With the default size, `extractSequenceNumber` recovers any uint32 the packer wrote. */
  lemma {:induction false} ExtractAfterPack(sequenceNumber: int, fixedPacketSize: int)
    requires 0 <= sequenceNumber < TWO_TO_32
    requires fixedPacketSize > 4
    ensures Pack(sequenceNumber, fixedPacketSize, 4).Ok?
    ensures ExtractSequenceNumber(ArrayBufferValue(Pack(sequenceNumber, fixedPacketSize, 4).value), 4)
            == Ok(sequenceNumber)
  {
    var bs := Pack(sequenceNumber, fixedPacketSize, 4).value;
    assert bs[..4] == BeUint32(sequenceNumber);
    Uint32RoundTrip(sequenceNumber);
  }

  /**
    With a 2-byte sequence-number size the packer still writes 32 bits and
    then overwrites bytes 2-3 with 0xAA, so any sequence number below 2^16
    reads back as 0xAAAA.
   */
  lemma {:induction false} TwoByteSizeLosesSequenceNumber(sequenceNumber: int, fixedPacketSize: int)
    requires 0 <= sequenceNumber < TWO_TO_16
    requires fixedPacketSize >= 4
    ensures Pack(sequenceNumber, fixedPacketSize, 2).Ok?
    ensures ExtractSequenceNumber(ArrayBufferValue(Pack(sequenceNumber, fixedPacketSize, 2).value), 2)
            == Ok(0xAAAA)
  {
    var bs := Pack(sequenceNumber, fixedPacketSize, 2).value;
    var header := BeUint32(sequenceNumber);
    Uint32RoundTrip(sequenceNumber);
    BeBytesOfBeValue(header);
    assert header == BeBytes(sequenceNumber, 4);
    assert ToUint32(sequenceNumber) == sequenceNumber;
    assert header[0] == 0 && header[1] == 0 by {
      var v := sequenceNumber;
      assert v / 256 / 256 == 0;
      assert BeBytes(v / 256 / 256, 2) == [0, 0];
      assert BeBytes(v / 256, 3) == BeBytes(v / 256 / 256, 2) + [v / 256 % 256];
      assert header == BeBytes(v / 256, 3) + [v % 256];
    }
    assert bs[..4] == [0, 0, 0xAA, 0xAA];
    assert BeValue([0, 0, 0xAA, 0xAA]) == 0xAAAA by {
      assert [0, 0, 0xAA, 0xAA][..3] == [0, 0, 0xAA];
      assert [0, 0, 0xAA][..2] == [0, 0];
      assert [0, 0][..1] == [0];
      assert [0][..0] == [];
    }
  }

  /** `findMissingSequenceNumber`: the integers of [0, total) that `received` does not contain, in order. */
  function FindMissingSequenceNumber(total: nat, received: seq<int>): (missing: seq<nat>)
    ensures forall i :: 0 <= i < |missing| ==> missing[i] < total && missing[i] !in received
    ensures forall d :: 0 <= d < total && d !in received ==> d in missing
    ensures forall i, j :: 0 <= i < j < |missing| ==> missing[i] < missing[j]
  {
    if total == 0 then []
    else
      var d := total - 1;
      FindMissingSequenceNumber(d, received) + (if d in received then [] else [d])
  }

  /** Every received value below `total`, and only those, is absent from the result. */
  lemma MissingMembership(total: nat, received: seq<int>, d: int)
    ensures d in FindMissingSequenceNumber(total, received) <==> 0 <= d < total && d !in received
  {
  }

  /** Strictly increasing. */
  predicate Increasing(a: seq<int>)
  {
    forall i, j :: 0 <= i < j < |a| ==> a[i] < a[j]
  }

  /** Every element after the head of an increasing sequence exceeds the head. */
  lemma TailAboveHead(a: seq<int>, x: int)
    requires Increasing(a) && a != [] && x in a[1..]
    ensures a[0] < x
  {
    var k :| 0 <= k < |a[1..]| && a[1..][k] == x;
    assert a[k + 1] == x;
  }

  /** The head of an increasing sequence is its least element. */
  lemma HeadIsLeast(a: seq<int>, x: int)
    requires Increasing(a) && a != [] && x in a
    ensures a[0] <= x
  {
    var k :| 0 <= k < |a| && a[k] == x;
    if k > 0 {
      assert a[0] < a[k];
    }
  }

  /** Two strictly increasing sequences with the same elements are equal. */
  lemma {:induction false} IncreasingSameElements(a: seq<int>, b: seq<int>)
    requires Increasing(a) && Increasing(b)
    requires forall x :: x in a <==> x in b
    ensures a == b
  {
    if a != [] { assert a[0] in a; }
    if b != [] { assert b[0] in b; }
    if a != [] && b != [] {
      assert a == [a[0]] + a[1..] && b == [b[0]] + b[1..];
      HeadIsLeast(a, b[0]);
      HeadIsLeast(b, a[0]);
      forall x | x in a[1..]
        ensures x in b[1..]
      {
        TailAboveHead(a, x);
        assert x in a;
      }
      forall x | x in b[1..]
        ensures x in a[1..]
      {
        TailAboveHead(b, x);
        assert x in b;
      }
      IncreasingSameElements(a[1..], b[1..]);
    }
  }

  /**
    The missing list is THE ascending list of [0, total) minus `received`:
    any strictly increasing list with exactly those elements equals it.
   */
  lemma MissingIsUnique(total: nat, received: seq<int>, other: seq<int>)
    requires Increasing(other)
    requires forall d :: d in other <==> 0 <= d < total && d !in received
    ensures FindMissingSequenceNumber(total, received) == other
  {
    var missing := FindMissingSequenceNumber(total, received);
    var asInts: seq<int> := missing;
    forall x ensures x in asInts <==> x in other {
      MissingMembership(total, received, x);
    }
    IncreasingSameElements(asInts, other);
  }

  /** Nothing received: every sequence number 0 .. total - 1 is missing. */
  lemma MissingWhenNoneReceived(total: nat)
    ensures FindMissingSequenceNumber(total, []) == seq(total, i => i)
  {
    var all: seq<int> := seq(total, i => i);
    forall d ensures d in all <==> 0 <= d < total && d !in [] {
      if 0 <= d < total { assert all[d] == d; }
    }
    MissingIsUnique(total, [], all);
  }

  /** Everything received: nothing is missing. */
  lemma MissingWhenAllReceived(total: nat, received: seq<int>)
    requires forall d :: 0 <= d < total ==> d in received
    ensures FindMissingSequenceNumber(total, received) == []
  {
    MissingIsUnique(total, received, []);
  }

  /** Values outside [0, total), repetitions and order in `received` do not change the result. */
  lemma MissingDependsOnlyOnRelevantValues(total: nat, received: seq<int>, other: seq<int>)
    requires forall d :: 0 <= d < total ==> (d in received <==> d in other)
    ensures FindMissingSequenceNumber(total, received) == FindMissingSequenceNumber(total, other)
  {
    var m := FindMissingSequenceNumber(total, other);
    forall d ensures d in m <==> 0 <= d < total && d !in received {
      MissingMembership(total, other, d);
    }
    MissingIsUnique(total, received, m);
  }

  /** The example of the unit tests: five expected, 0, 1 and 3 received. */
  lemma MissingExample()
    ensures FindMissingSequenceNumber(5, [0, 1, 3]) == [2, 4]
  {
    var r := [0, 1, 3];
    assert 0 in r && 1 in r && 3 in r && 2 !in r && 4 !in r;
    assert FindMissingSequenceNumber(2, r) == [];
  }
}
