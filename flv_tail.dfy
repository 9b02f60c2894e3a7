/** The duration of an FLV segment, read from its last tag (main.go:490-505).

    An FLV body is a sequence of tags, each followed by a `PreviousTagSize`
    (a big-endian UI32 holding the size of the tag just before it: the
    11-byte header plus the payload), as section E.3 of the Adobe Flash
    Video File Format Specification version 10.1 lays out. `getDuration`
    walks back from the end of the file: it reads the last `PreviousTagSize`,
    seeks to the start of the last tag and takes the timestamp from that
    tag's header (section E.4.1: `Timestamp` UI24 and `TimestampExtended`
    UI8, the upper eight bits). Every failed seek or short read gives 0. */
module FlvTail {
  import opened Base

  // --------------------------------------------------------- big-endian

  /** The big-endian value of four bytes. */
  function BE32(b: seq<byte>): (v: uint32)
    requires |b| == 4
  {
    ((b[0] as int * 0x100 + b[1]) * 0x100 + b[2]) * 0x100 + b[3]
  }

  /** The four big-endian bytes of a `uint32`. */
  function BE32Bytes(v: uint32): (b: seq<byte>)
    ensures |b| == 4
  {
    [v / 0x100 / 0x100 / 0x100, v / 0x100 / 0x100 % 0x100, v / 0x100 % 0x100, v % 0x100]
  }

  /** The big-endian value of three bytes (UI24). */
  function BE24(b: seq<byte>): (v: uint24)
    requires |b| == 3
  {
    (b[0] as int * 0x100 + b[1]) * 0x100 + b[2]
  }

  function BE24Bytes(v: uint24): (b: seq<byte>)
    ensures |b| == 3
  {
    [v / 0x100 / 0x100, v / 0x100 % 0x100, v % 0x100]
  }

  lemma BE32RoundTrip(v: uint32)
    ensures BE32(BE32Bytes(v)) == v
  {
  }

  lemma BE32BytesOfValue(b: seq<byte>)
    requires |b| == 4
    ensures BE32Bytes(BE32(b)) == b
  {
    var hi := b[0] as int * 0x100 + b[1];
    var mid := hi * 0x100 + b[2];
    ShiftByte(b[0], b[1]);
    ShiftByte(hi, b[2]);
    ShiftByte(mid, b[3]);
  }

  lemma BE24RoundTrip(v: uint24)
    ensures BE24(BE24Bytes(v)) == v
  {
  }

  lemma BE24BytesOfValue(b: seq<byte>)
    requires |b| == 3
    ensures BE24Bytes(BE24(b)) == b
  {
    var hi := b[0] as int * 0x100 + b[1];
    ShiftByte(b[0], b[1]);
    ShiftByte(hi, b[2]);
  }

  // --------------------------------------------------------- tag header

  /** The eleven-byte header of an FLV tag (section E.4.1): `TagType` (with
      its reserved and filter bits), `DataSize`, `Timestamp`,
      `TimestampExtended` and `StreamID`. */
  datatype TagHeader = TagHeader(tagType: byte, dataSize: uint24, timestamp: uint24, timestampExtended: byte, streamId: uint24)

  const HeaderSize: nat := 11

  /** The tag's time in milliseconds: `TimestampExtended` is the upper byte
      of a 32-bit timestamp whose lower 24 bits are `Timestamp`. */
  function FullTimestamp(h: TagHeader): (t: uint32)
    ensures t % 0x100_0000 == h.timestamp && t / 0x100_0000 == h.timestampExtended
  {
    h.timestampExtended as int * 0x100_0000 + h.timestamp
  }

  function EncodeHeader(h: TagHeader): (b: seq<byte>)
    ensures |b| == HeaderSize
  {
    [h.tagType] + BE24Bytes(h.dataSize) + BE24Bytes(h.timestamp) + [h.timestampExtended] + BE24Bytes(h.streamId)
  }

  function DecodeHeader(b: seq<byte>): TagHeader
    requires |b| == HeaderSize
  {
    TagHeader(b[0], BE24(b[1..4]), BE24(b[4..7]), b[7], BE24(b[8..11]))
  }

  lemma HeaderRoundTrip(h: TagHeader)
    ensures DecodeHeader(EncodeHeader(h)) == h
  {
    var b := EncodeHeader(h);
    assert b[1..4] == BE24Bytes(h.dataSize);
    assert b[4..7] == BE24Bytes(h.timestamp);
    assert b[8..11] == BE24Bytes(h.streamId);
    BE24RoundTrip(h.dataSize);
    BE24RoundTrip(h.timestamp);
    BE24RoundTrip(h.streamId);
  }

  lemma HeaderBytesRoundTrip(b: seq<byte>)
    requires |b| == HeaderSize
    ensures EncodeHeader(DecodeHeader(b)) == b
  {
    BE24BytesOfValue(b[1..4]);
    BE24BytesOfValue(b[4..7]);
    BE24BytesOfValue(b[8..11]);
    assert b == [b[0]] + b[1..4] + b[4..7] + [b[7]] + b[8..11];
  }

  // ------------------------------------------------------ the tail walk

  /** What `getDuration` computes from the bytes of a file: the timestamp of
      the tag that starts `tagSize + 4` bytes before the end, where `tagSize`
      is the big-endian value of the last four bytes; 0 when the file is
      shorter than four bytes, when `tagSize + 4` reaches before its start,
      or when fewer than eleven bytes follow the tag's start. */
  function TailDuration(data: seq<byte>): uint32 {
    if |data| < 4 then 0
    else
      var tagSize := BE32(data[|data| - 4..]);
      var start := |data| - tagSize - 4;
      if start < 0 || start + HeaderSize > |data| then 0
      else FullTimestamp(DecodeHeader(data[start..start + HeaderSize]))
  }

  /** An open segment file: its bytes and the current read/seek offset. */
  class FileStream {
    const data: seq<byte>
    var offset: nat

    constructor(data: seq<byte>)
      ensures this.data == data && offset == 0
    {
      this.data := data;
      offset := 0;
    }

    /** `Seek(delta, io.SeekEnd)`: a position before the start of the file
        is an error and leaves the offset where it was. */
    method SeekEnd(delta: int) returns (ok: bool)
      modifies this
      ensures ok <==> |data| + delta >= 0
      ensures ok ==> offset == |data| + delta
      ensures !ok ==> offset == old(offset)
    {
      if |data| + delta >= 0 {
        offset := |data| + delta;
        ok := true;
      } else {
        ok := false;
      }
    }

    /** `io.ReadFull` of `n` bytes: a short read consumes what is left and
        fails. */
    method ReadFull(n: nat) returns (bytes: seq<byte>, ok: bool)
      modifies this
      ensures ok <==> old(offset) + n <= |data|
      ensures ok ==> bytes == data[old(offset)..old(offset) + n] && offset == old(offset) + n
      ensures !ok ==> offset == if old(offset) < |data| then |data| else old(offset)
    {
      if offset + n <= |data| {
        bytes := data[offset..offset + n];
        offset := offset + n;
        ok := true;
      } else {
        bytes := [];
        if offset < |data| {
          offset := |data|;
        }
        ok := false;
      }
    }

    /** `ReadByteToUint32(file, true)`: four bytes read big-endian. */
    method ReadUint32BE() returns (v: uint32, ok: bool)
      modifies this
      ensures ok <==> old(offset) + 4 <= |data|
      ensures ok ==> v == BE32(data[old(offset)..old(offset) + 4]) && offset == old(offset) + 4
      ensures !ok ==> offset == if old(offset) < |data| then |data| else old(offset)
    {
      var bytes;
      bytes, ok := ReadFull(4);
      v := if ok then BE32(bytes) else 0;
    }

    /** The header part of `codec.ReadFLVTag`: eleven bytes decoded. */
    method ReadTagHeader() returns (h: TagHeader, ok: bool)
      modifies this
      ensures ok <==> old(offset) + HeaderSize <= |data|
      ensures ok ==> h == DecodeHeader(data[old(offset)..old(offset) + HeaderSize])
      ensures ok ==> offset == old(offset) + HeaderSize
      ensures !ok ==> offset == if old(offset) < |data| then |data| else old(offset)
    {
      var bytes;
      bytes, ok := ReadFull(HeaderSize);
      h := if ok then DecodeHeader(bytes) else TagHeader(0, 0, 0, 0, 0);
    }
  }

  /** `getDuration(file)`: the step-by-step tail walk over the file's offset. */
  method GetDuration(file: FileStream) returns (d: uint32)
    modifies file
    ensures d == TailDuration(file.data)
  {
    d := 0;
    var ok := file.SeekEnd(-4);
    if ok {
      var tagSize;
      tagSize, ok := file.ReadUint32BE();
      if ok {
        ok := file.SeekEnd(-(tagSize as int) - 4);
        if ok {
          var h;
          h, ok := file.ReadTagHeader();
          if ok {
            d := FullTimestamp(h);
          }
        }
      }
    }
  }

  // ------------------------------------------------------------ lemmas

  /** The three ways the walk gives 0: a file shorter than four bytes, a
      `PreviousTagSize` reaching before the file's start, a header cut off
      by the end of the file. */
  lemma TailDurationFailures(data: seq<byte>)
    ensures |data| < 4 ==> TailDuration(data) == 0
    ensures |data| >= 4 && BE32(data[|data| - 4..]) as int + 4 > |data| ==> TailDuration(data) == 0
    ensures |data| >= 4 && BE32(data[|data| - 4..]) as int + 4 <= |data| && BE32(data[|data| - 4..]) as int + 4 < HeaderSize ==> TailDuration(data) == 0
  {
  }

  /** A file that ends with a tag, whose `DataSize` is the length of its
      payload, and the tag's correct `PreviousTagSize` has the duration
      written in that tag's header, whatever precedes the tag. */
  lemma WellFormedTail(body: seq<byte>, h: TagHeader, payload: seq<byte>)
    requires h.dataSize as int == |payload| && HeaderSize + |payload| < 0x1_0000_0000
    ensures TailDuration(body + EncodeHeader(h) + payload + BE32Bytes(HeaderSize + |payload|)) == FullTimestamp(h)
  {
    var tag := EncodeHeader(h) + payload;
    var data := body + tag + BE32Bytes(HeaderSize + |payload|);
    assert data == body + EncodeHeader(h) + payload + BE32Bytes(HeaderSize + |payload|);
    assert data[|data| - 4..] == BE32Bytes(HeaderSize + |payload|);
    BE32RoundTrip(HeaderSize + |payload|);
    assert data[|body|..|body| + HeaderSize] == EncodeHeader(h);
    HeaderRoundTrip(h);
  }
}
