/**
 * The request and response streams of a call: a BinaryReader over the
 * request bytes (a cursor that only moves forward) and a BinaryWriter over a
 * growing MemoryStream.
 */
module Streams {
  import opened LittleEndian
  import opened Wrappers

  class ByteReader {
    const data: seq<byte>
    var position: nat

    ghost predicate Valid()
      reads this
    {
      position <= |data|
    }

    function Remaining(): nat
      reads this
      requires Valid()
    {
      |data| - position
    }

    constructor (data: seq<byte>)
      ensures Valid() && this.data == data && position == 0
    {
      this.data := data;
      position := 0;
    }

    /** ReadByte: the next byte, or end of stream (the cursor then stays put). */
    method ReadByte() returns (r: Option<byte>)
      requires Valid()
      modifies this
      ensures Valid()
      ensures old(position) < |data| ==> r == Some(data[old(position)]) && position == old(position) + 1
      ensures old(position) == |data| ==> r == None && position == old(position)
    {
      if position < |data| {
        r := Some(data[position]);
        position := position + 1;
      } else {
        r := None;
      }
    }

    /**
     * ReadInt32: four little-endian bytes. On a short stream the bytes that
     * are there are consumed before end of stream is reported.
     */
    method ReadInt32() returns (r: Option<int32>)
      requires Valid()
      modifies this
      ensures Valid()
      ensures old(Remaining()) >= 4 ==>
        r == Some(Int32Of(data[old(position)..old(position) + 4])) && position == old(position) + 4
      ensures old(Remaining()) < 4 ==> r == None && position == |data|
    {
      if |data| - position >= 4 {
        r := Some(Int32Of(data[position..position + 4]));
        position := position + 4;
      } else {
        r := None;
        position := |data|;
      }
    }

    /** ReadInt64: eight little-endian bytes, with the same end-of-stream behaviour. */
    method ReadInt64() returns (r: Option<int64>)
      requires Valid()
      modifies this
      ensures Valid()
      ensures old(Remaining()) >= 8 ==>
        r == Some(Int64Of(data[old(position)..old(position) + 8])) && position == old(position) + 8
      ensures old(Remaining()) < 8 ==> r == None && position == |data|
    {
      if |data| - position >= 8 {
        r := Some(Int64Of(data[position..position + 8]));
        position := position + 8;
      } else {
        r := None;
        position := |data|;
      }
    }
  }

  /**
   * A BinaryWriter over a MemoryStream. It keeps the writes made to it; the
   * stream's bytes are what those writes serialize to.
   */
  class ByteWriter {
    var written: seq<Datum>

    function Bytes(): seq<byte>
      reads this
    {
      Serialize(written)
    }

    constructor ()
      ensures written == []
    {
      written := [];
    }

    method WriteByte(b: byte)
      modifies this
      ensures written == old(written) + [Byte(b)]
    {
      written := written + [Byte(b)];
    }

    method WriteInt32(v: int32)
      modifies this
      ensures written == old(written) + [Int(v)]
    {
      written := written + [Int(v)];
    }

    method WriteInt64(v: int64)
      modifies this
      ensures written == old(written) + [Long(v)]
    {
      written := written + [Long(v)];
    }
  }
}
