/**
  The server's test-packet packer (`packDataWithSequenceNumber` in
  node/index.js). A frame is exactly `totalBufferSize` bytes: the sequence
  number as a big-endian uint16 in bytes 0-1, the send time as a big-endian
  two's-complement int64 in bytes 2-9, and filler after that.

  `Date.now()` is the parameter `now`; `Math.random()` filler is the
  parameter `noise`, an arbitrary byte per filler position.
 */
module FramePacker {
  import opened Wrappers
  import opened Bytes

  const SEQUENCE_NUMBER_SIZE: nat := 2
  const TIMESTAMP_SIZE: nat := 8
  const MIN_BUFFER_SIZE: nat := SEQUENCE_NUMBER_SIZE + TIMESTAMP_SIZE
  /** The largest sequence number the packer accepts. */
  const MAX_SEQUENCE_NUMBER: nat := 1000

  datatype PackError =
    | SequenceOutOfRange  // "Sequence number must be between 0 and 1000."
    | BufferTooSmall      // "Total buffer size must be at least 10 bytes ..."

  predicate ValidSequenceNumber(sequenceNumber: int)
  {
    0 <= sequenceNumber <= MAX_SEQUENCE_NUMBER
  }

  /** Byte `i` of a packed frame: header bytes first, filler after them. */
  function FrameByte(sequenceNumber: int, now: int, noise: nat -> byte, i: nat): byte
  {
    if i < SEQUENCE_NUMBER_SIZE then BeUint16(sequenceNumber)[i]
    else if i < MIN_BUFFER_SIZE then BeInt64(now)[i - SEQUENCE_NUMBER_SIZE]
    else noise(i - MIN_BUFFER_SIZE)
  }

  /** The bytes of a successfully packed frame. */
  function Frame(sequenceNumber: int, totalBufferSize: nat, now: int, noise: nat -> byte): (f: seq<byte>)
    ensures |f| == totalBufferSize
    ensures forall i :: 0 <= i < totalBufferSize ==> f[i] == FrameByte(sequenceNumber, now, noise, i)
  {
    seq(totalBufferSize, i requires 0 <= i < totalBufferSize => FrameByte(sequenceNumber, now, noise, i))
  }

  /** What the packer returns or throws, checked in the source's order. */
  function Pack(sequenceNumber: int, totalBufferSize: int, now: int, noise: nat -> byte): Result<seq<byte>, PackError>
  {
    if !ValidSequenceNumber(sequenceNumber) then Err(SequenceOutOfRange)
    else if totalBufferSize < MIN_BUFFER_SIZE then Err(BufferTooSmall)
    else Ok(Frame(sequenceNumber, totalBufferSize, now, noise))
  }

  /** The packer writes the header through a view, then fills the tail byte by byte. */
  method PackDataWithSequenceNumber(sequenceNumber: int, totalBufferSize: int, now: int, noise: nat -> byte)
    returns (r: Result<seq<byte>, PackError>)
    ensures r == Pack(sequenceNumber, totalBufferSize, now, noise)
  {
    if sequenceNumber < 0 || sequenceNumber > MAX_SEQUENCE_NUMBER {
      return Err(SequenceOutOfRange);
    }
    if totalBufferSize < MIN_BUFFER_SIZE {
      return Err(BufferTooSmall);
    }
    var buffer := new byte[totalBufferSize];
    // view.setUint16(0, sequenceNumber, false)
    var sn := BeUint16(sequenceNumber);
    buffer[0], buffer[1] := sn[0], sn[1];
    // view.setBigInt64(2, BigInt(now), false)
    var ts := BeInt64(now);
    forall k | 0 <= k < TIMESTAMP_SIZE {
      buffer[SEQUENCE_NUMBER_SIZE + k] := ts[k];
    }
    var dummyDataLength := totalBufferSize - MIN_BUFFER_SIZE;
    for i := 0 to dummyDataLength
      invariant buffer[..SEQUENCE_NUMBER_SIZE] == sn
      invariant buffer[SEQUENCE_NUMBER_SIZE..MIN_BUFFER_SIZE] == ts
      invariant forall j :: 0 <= j < i ==> buffer[MIN_BUFFER_SIZE + j] == noise(j)
    {
      buffer[MIN_BUFFER_SIZE + i] := noise(i);
    }
    ghost var expected := Frame(sequenceNumber, totalBufferSize, now, noise);
    forall j | 0 <= j < totalBufferSize
      ensures buffer[j] == expected[j]
    {
      if j < SEQUENCE_NUMBER_SIZE {
        assert buffer[j] == buffer[..SEQUENCE_NUMBER_SIZE][j];
      } else if j < MIN_BUFFER_SIZE {
        assert buffer[j] == buffer[SEQUENCE_NUMBER_SIZE..MIN_BUFFER_SIZE][j - SEQUENCE_NUMBER_SIZE];
      } else {
        assert buffer[MIN_BUFFER_SIZE + (j - MIN_BUFFER_SIZE)] == noise(j - MIN_BUFFER_SIZE);
      }
    }
    assert buffer[..] == expected;
    r := Ok(buffer[..]);
  }

  /** The packer fails exactly when the sequence number or the size is out of range, sequence number first. */
  lemma PackErrors(sequenceNumber: int, totalBufferSize: int, now: int, noise: nat -> byte)
    ensures Pack(sequenceNumber, totalBufferSize, now, noise) == Err(SequenceOutOfRange)
            <==> sequenceNumber < 0 || sequenceNumber > 1000
    ensures Pack(sequenceNumber, totalBufferSize, now, noise) == Err(BufferTooSmall)
            <==> 0 <= sequenceNumber <= 1000 && totalBufferSize < 10
  {
  }

  /** A packed frame has the requested length, the big-endian header and the filler. */
  lemma {:induction false} PackLayout(sequenceNumber: int, totalBufferSize: int, now: int, noise: nat -> byte)
    requires 0 <= sequenceNumber <= 1000 && totalBufferSize >= 10
    ensures Pack(sequenceNumber, totalBufferSize, now, noise).Ok?
    ensures var bytes := Pack(sequenceNumber, totalBufferSize, now, noise).value;
      && |bytes| == totalBufferSize
      && (bytes[0] as int) * 256 + bytes[1] == sequenceNumber
      && ReadBeInt64(bytes[2..10]) == WrapInt64(now)
      && (forall i :: 10 <= i < totalBufferSize ==> bytes[i] == noise(i - 10))
  {
    var bytes := Pack(sequenceNumber, totalBufferSize, now, noise).value;
    var sn := BeUint16(sequenceNumber);
    assert bytes[..2] == sn by {
      assert bytes[0] == sn[0] && bytes[1] == sn[1];
    }
    Uint16RoundTrip(sequenceNumber);
    assert BeValue(sn) == (sn[0] as int) * 256 + sn[1] by {
      assert sn[..1][..0] == [];
    }
    assert bytes[2..10] == BeInt64(now) by {
      forall k | 0 <= k < 8
        ensures bytes[2..10][k] == BeInt64(now)[k]
      {
        assert bytes[2 + k] == FrameByte(sequenceNumber, now, noise, 2 + k);
      }
    }
    Int64RoundTrip(now);
  }
}
