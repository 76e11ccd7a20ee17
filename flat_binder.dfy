/**
 * The Android binder `flat_binder_object` record that the display service
 * places in a parcel to describe an IGraphicBufferProducer: 0x28 bytes,
 * little-endian, laid out as
 * [type:4][flags:4][binder low:4][binder high:4][cookie low:4][cookie high:4][token:8][pad:8].
 */
module FlatBinder {
  import opened LittleEndian
  import opened Wrappers

  const FLAT_BINDER_OBJECT_SIZE: nat := 0x28
  const TOKEN_SIZE: nat := 8
  const BINDER_TYPE_WEAK_BINDER: int32 := 2

  datatype ParcelError = MalformedParcel

  datatype FlatBinderObject = FlatBinderObject(
    kind: int32,
    flags: int32,
    binder: int64,
    cookie: int64,
    token: seq<byte>)

  /** The record as BinaryWriter lays it out; the token slot is 8 bytes, the pad a zero long. */
  function Encode(o: FlatBinderObject): (r: seq<byte>)
    requires |o.token| == TOKEN_SIZE
    ensures |r| == FLAT_BINDER_OBJECT_SIZE
  {
    (Int32Bytes(o.kind) + Int32Bytes(o.flags))
    + (Int32Bytes(LowWord(o.binder)) + Int32Bytes(HighWord(o.binder)))
    + (Int32Bytes(LowWord(o.cookie)) + Int32Bytes(HighWord(o.cookie)))
    + o.token + Int64Bytes(0)
  }

  /** The BinaryWriter calls that lay the record out, in order. */
  function FlatBinderWrites(o: FlatBinderObject): (w: seq<Datum>)
  {
    [Int(o.kind), Int(o.flags)] + LongAsWords(o.binder) + LongAsWords(o.cookie)
      + ByteWrites(o.token) + [Long(0)]
  }

  /** Those writes leave exactly the encoded record in the stream. */
  lemma SerializeFlatBinderWrites(o: FlatBinderObject)
    requires |o.token| == TOKEN_SIZE
    ensures Serialize(FlatBinderWrites(o)) == Encode(o)
  {
    var head: seq<Datum> := [Int(o.kind), Int(o.flags)];
    var b, c := LongAsWords(o.binder), LongAsWords(o.cookie);
    SerializePair(Int(o.kind), Int(o.flags));
    SerializePair(Int(LowWord(o.binder)), Int(HighWord(o.binder)));
    SerializePair(Int(LowWord(o.cookie)), Int(HighWord(o.cookie)));
    SerializeByteWrites(o.token);
    SerializeOne(Long(0));
    SerializeConcat5(head, b, c, ByteWrites(o.token), [Long(0)]);
  }

  /** The symmetric reader: too few bytes for a record is a malformed parcel. */
  function Decode(s: seq<byte>): (r: Result<FlatBinderObject, ParcelError>)
    ensures r.Ok? <==> |s| >= FLAT_BINDER_OBJECT_SIZE
    ensures r.Ok? ==> |r.value.token| == TOKEN_SIZE && r.value.token == s[24..32]
  {
    if |s| < FLAT_BINDER_OBJECT_SIZE then Err(MalformedParcel)
    else Ok(FlatBinderObject(
      Int32Of(s[0..4]),
      Int32Of(s[4..8]),
      JoinWords(Int32Of(s[8..12]), Int32Of(s[12..16])),
      JoinWords(Int32Of(s[16..20]), Int32Of(s[20..24])),
      s[24..32]))
  }

  /** Where each field of an encoded record sits. */
  lemma EncodeFields(o: FlatBinderObject)
    requires |o.token| == TOKEN_SIZE
    ensures var r := Encode(o);
      && r[0..4] == Int32Bytes(o.kind)
      && r[4..8] == Int32Bytes(o.flags)
      && r[8..12] == Int32Bytes(LowWord(o.binder))
      && r[12..16] == Int32Bytes(HighWord(o.binder))
      && r[16..20] == Int32Bytes(LowWord(o.cookie))
      && r[20..24] == Int32Bytes(HighWord(o.cookie))
      && r[24..32] == o.token
      && r[32..40] == Int64Bytes(0)
  {
    var head := (Int32Bytes(o.kind) + Int32Bytes(o.flags))
      + (Int32Bytes(LowWord(o.binder)) + Int32Bytes(HighWord(o.binder)))
      + (Int32Bytes(LowWord(o.cookie)) + Int32Bytes(HighWord(o.cookie)))
      + o.token;
    assert Encode(o) == head + Int64Bytes(0);
    assert Encode(o)[32..40] == Int64Bytes(0);
  }

  /** Two records agree when each of their eight fields does. */
  lemma SameFields(a: seq<byte>, b: seq<byte>)
    requires |a| == |b| == FLAT_BINDER_OBJECT_SIZE
    requires a[0..4] == b[0..4] && a[4..8] == b[4..8] && a[8..12] == b[8..12]
    requires a[12..16] == b[12..16] && a[16..20] == b[16..20] && a[20..24] == b[20..24]
    requires a[24..32] == b[24..32] && a[32..40] == b[32..40]
    ensures a == b
  {
    forall k | 0 <= k < FLAT_BINDER_OBJECT_SIZE
      ensures a[k] == b[k]
    {
      if k < 4 { assert a[k] == a[0..4][k]; }
      else if k < 8 { assert a[k] == a[4..8][k - 4]; }
      else if k < 12 { assert a[k] == a[8..12][k - 8]; }
      else if k < 16 { assert a[k] == a[12..16][k - 12]; }
      else if k < 20 { assert a[k] == a[16..20][k - 16]; }
      else if k < 24 { assert a[k] == a[20..24][k - 20]; }
      else if k < 32 { assert a[k] == a[24..32][k - 24]; }
      else { assert a[k] == a[32..40][k - 32]; }
    }
  }

  lemma SliceConcat(r: seq<byte>, i: nat, j: nat, k: nat)
    requires i <= j <= k <= |r|
    ensures r[i..k] == r[i..j] + r[j..k]
  {
  }

  /** The binder id occupies eight bytes, exactly as a little-endian long. */
  lemma EncodeBinderBytes(o: FlatBinderObject)
    requires |o.token| == TOKEN_SIZE
    ensures Encode(o)[8..16] == Int64Bytes(o.binder)
  {
    var r := Encode(o);
    EncodeFields(o);
    SplitWordsBytes(o.binder);
    SliceConcat(r, 8, 12, 16);
  }

  /** So does the cookie. */
  lemma EncodeCookieBytes(o: FlatBinderObject)
    requires |o.token| == TOKEN_SIZE
    ensures Encode(o)[16..24] == Int64Bytes(o.cookie)
  {
    var r := Encode(o);
    EncodeFields(o);
    SplitWordsBytes(o.cookie);
    SliceConcat(r, 16, 20, 24);
  }

  lemma ZeroLong()
    ensures Int64Bytes(0) == [0, 0, 0, 0, 0, 0, 0, 0]
  {
    assert LeBytes(0, 8) == [0] + LeBytes(0, 7);
    assert LeBytes(0, 4) == [0, 0, 0, 0];
  }

  lemma EncodeDecode(o: FlatBinderObject)
    requires |o.token| == TOKEN_SIZE
    ensures Decode(Encode(o)) == Ok(o)
  {
    EncodeFields(o);
    Int32RoundTrip(o.kind);
    Int32RoundTrip(o.flags);
    Int32RoundTrip(LowWord(o.binder));
    Int32RoundTrip(HighWord(o.binder));
    Int32RoundTrip(LowWord(o.cookie));
    Int32RoundTrip(HighWord(o.cookie));
    SplitJoin(o.binder);
    SplitJoin(o.cookie);
  }

  /** Every 0x28-byte record with a zero pad is the encoding of what it decodes to. */
  lemma DecodeEncode(s: seq<byte>)
    requires |s| == FLAT_BINDER_OBJECT_SIZE
    requires s[32..40] == Int64Bytes(0)
    ensures Decode(s).Ok? && Encode(Decode(s).value) == s
  {
    var o := Decode(s).value;
    EncodeFields(o);
    var lo, hi := Int32Of(s[8..12]), Int32Of(s[12..16]);
    JoinSplit(lo, hi);
    var clo, chi := Int32Of(s[16..20]), Int32Of(s[20..24]);
    JoinSplit(clo, chi);
    Int32BytesRoundTrip(s[0..4]);
    Int32BytesRoundTrip(s[4..8]);
    Int32BytesRoundTrip(s[8..12]);
    Int32BytesRoundTrip(s[12..16]);
    Int32BytesRoundTrip(s[16..20]);
    Int32BytesRoundTrip(s[20..24]);
    SameFields(Encode(o), s);
  }

  /** The interface token "dispdrv\0". */
  const DISPDRV_TOKEN: seq<byte> :=
    ['d' as int, 'i' as int, 's' as int, 'p' as int, 'd' as int, 'r' as int, 'v' as int, 0]

  /** The record MakeIGraphicsBufferProducer writes: a weak binder with id 0x20 and a null cookie. */
  function ProducerObject(): (o: FlatBinderObject)
    ensures |o.token| == TOKEN_SIZE
  {
    FlatBinderObject(BINDER_TYPE_WEAK_BINDER, 0, 0x20, 0, DISPDRV_TOKEN)
  }

  /** The producer record, byte for byte. */
  lemma ProducerRecordLayout()
    ensures var r := Encode(ProducerObject());
      && |r| == 0x28
      && r[0..4] == [2, 0, 0, 0]
      && r[4..8] == [0, 0, 0, 0]
      && r[8..12] == [0x20, 0, 0, 0]
      && r[12..16] == [0, 0, 0, 0]
      && r[16..24] == [0, 0, 0, 0, 0, 0, 0, 0]
      && r[24..32] == [0x64, 0x69, 0x73, 0x70, 0x64, 0x72, 0x76, 0]
      && r[32..40] == [0, 0, 0, 0, 0, 0, 0, 0]
  {
    var o := ProducerObject();
    var r := Encode(o);
    EncodeFields(o);
    SmallInt32Bytes(2);
    SmallInt32Bytes(0);
    SmallInt32Bytes(0x20);
    assert LowWord(0x20) == 0x20 && HighWord(0x20) == 0;
    assert LowWord(0) == 0 && HighWord(0) == 0;
    SliceConcat(r, 16, 20, 24);
    ZeroLong();
  }

  /** A non-negative int below 256 is its low byte followed by three zero bytes. */
  lemma SmallInt32Bytes(v: int32)
    requires 0 <= v < 0x100
    ensures Int32Bytes(v) == [v, 0, 0, 0]
  {
    assert LeBytes(0, 3) == [0, 0, 0];
  }
}
