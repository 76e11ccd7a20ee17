/**
 * Byte-level semantics of .NET's BinaryWriter/BinaryReader as used by the
 * display service: little-endian two's-complement 32- and 64-bit integers,
 * the unchecked C# `(int)` cast, and the split of a `long` into its low and
 * high `int` words.
 */
module LittleEndian {

  type byte = b: int | 0 <= b < 0x100
  type int32 = x: int | -0x8000_0000 <= x < 0x8000_0000
  type int64 = x: int | -0x8000_0000_0000_0000 <= x < 0x8000_0000_0000_0000

  const WORD32: int := 0x1_0000_0000
  const WORD64: int := 0x1_0000_0000_0000_0000

  function Pow256(n: nat): (r: nat)
    ensures r >= 1
  {
    if n == 0 then 1 else 256 * Pow256(n - 1)
  }

  lemma Pow256Words()
    ensures Pow256(4) == WORD32 && Pow256(8) == WORD64
  {
    assert Pow256(2) == 0x1_0000;
    assert Pow256(4) == 256 * (256 * Pow256(2));
    assert Pow256(6) == 256 * (256 * Pow256(4));
    assert Pow256(8) == 256 * (256 * Pow256(6));
  }

  /** The n low-order bytes of u (in two's complement when u < 0), least significant first. */
  function LeBytes(u: int, n: nat): (r: seq<byte>)
    ensures |r| == n
    decreases n
  {
    if n == 0 then [] else [u % 256] + LeBytes(u / 256, n - 1)
  }

  /** The unsigned value of a little-endian byte sequence. */
  function LeValue(s: seq<byte>): (u: nat)
    ensures u < Pow256(|s|)
  {
    if s == [] then 0 else s[0] + 256 * LeValue(s[1..])
  }

  /** Reading back n written bytes gives the value modulo 256^n. */
  lemma {:induction false} LeValueOfLeBytes(u: int, n: nat)
    ensures LeValue(LeBytes(u, n)) == u % Pow256(n)
    decreases n
  {
    if n > 0 {
      var p := Pow256(n - 1);
      LeValueOfLeBytes(u / 256, n - 1);
      assert LeBytes(u, n)[1..] == LeBytes(u / 256, n - 1);
      MixedRadix(u, p);
      var m := u % (256 * p);
      assert m == 256 * (m / 256) + m % 256;
    }
  }

  lemma {:induction false} LeBytesOfLeValue(s: seq<byte>)
    ensures LeBytes(LeValue(s), |s|) == s
  {
    if s != [] {
      var v := LeValue(s[1..]);
      assert LeValue(s) == s[0] + 256 * v;
      assert LeValue(s) % 256 == s[0];
      assert LeValue(s) / 256 == v;
      LeBytesOfLeValue(s[1..]);
    }
  }

  lemma DivModUnique(u: int, d: int, q: int, r: int)
    requires d > 0 && 0 <= r < d && u == d * q + r
    ensures u / d == q && u % d == r
  {
    var q', r' := u / d, u % d;
    assert u == d * q' + r';
    if q' > q {
      assert d * q' >= d * (q + 1) by { MulMonotone(d, q + 1, q'); }
      assert false;
    } else if q' < q {
      assert d * q >= d * (q' + 1) by { MulMonotone(d, q' + 1, q); }
      assert false;
    }
  }

  lemma MulMonotone(d: int, a: int, b: int)
    requires d > 0 && a <= b
    ensures d * a <= d * b
  {
    assert d * b - d * a == d * (b - a);
  }

  /** Mixed-radix facts for dividing by 256 and then by p. */
  lemma MixedRadix(u: int, p: nat)
    requires p > 0
    ensures u / (256 * p) == (u / 256) / p
    ensures (u % (256 * p)) % 256 == u % 256
    ensures (u % (256 * p)) / 256 == (u / 256) % p
  {
    var a, b := u / 256, u % 256;
    var q, r := a / p, a % p;
    assert a == p * q + r;
    assert 256 * a == (256 * p) * q + 256 * r;
    var lo := 256 * r + b;
    assert u == (256 * p) * q + lo;
    assert 256 * r <= 256 * (p - 1) by { MulMonotone(256, r, p - 1); }
    DivModUnique(u, 256 * p, q, lo);
    DivModUnique(lo, 256, r, b);
  }

  /** Writing n = m + k bytes of u is writing its m low bytes, then the k bytes above them. */
  lemma {:induction false} LeBytesSplit(u: int, m: nat, k: nat)
    ensures LeBytes(u, m + k) == LeBytes(u % Pow256(m), m) + LeBytes(u / Pow256(m), k)
    decreases m
  {
    if m == 0 {
      assert LeBytes(u % 1, 0) == [];
    } else {
      var p := Pow256(m - 1);
      assert Pow256(m) == 256 * p;
      LeBytesSplit(u / 256, m - 1, k);
      MixedRadix(u, p);
      calc {
        LeBytes(u, m + k);
        [u % 256] + LeBytes(u / 256, m - 1 + k);
        [u % 256] + (LeBytes((u / 256) % p, m - 1) + LeBytes((u / 256) / p, k));
        ([u % 256] + LeBytes((u / 256) % p, m - 1)) + LeBytes(u / Pow256(m), k);
        LeBytes(u % Pow256(m), m) + LeBytes(u / Pow256(m), k);
      }
    }
  }

  /** n bytes of u are the n bytes of u modulo 256^n. */
  lemma LeBytesMod(u: int, n: nat)
    ensures LeBytes(u, n) == LeBytes(u % Pow256(n), n)
  {
    LeBytesSplit(u, n, 0);
  }

  /**
   * The unchecked C# `(int)` cast: keep the low 32 bits and read them as a
   * two's-complement value.
   */
  function ToInt32(v: int): (r: int32)
    ensures r % WORD32 == v % WORD32
    ensures -0x8000_0000 <= v < 0x8000_0000 ==> r == v
  {
    var u := v % WORD32;
    if u < 0x8000_0000 then u else u - WORD32
  }

  /** BinaryWriter.Write(int): four bytes, little-endian, two's complement. */
  function Int32Bytes(v: int32): (r: seq<byte>)
    ensures |r| == 4
  {
    LeBytes(v, 4)
  }

  /** BinaryWriter.Write(long): eight bytes, little-endian, two's complement. */
  function Int64Bytes(v: int64): (r: seq<byte>)
    ensures |r| == 8
  {
    LeBytes(v, 8)
  }

  /** Four bytes at offset i, little-endian, as an unsigned value. */
  function U32At(s: seq<byte>, i: nat): nat
    requires i + 4 <= |s|
  {
    s[i] as int + 0x100 * (s[i + 1] as int) + 0x1_0000 * (s[i + 2] as int) + 0x100_0000 * (s[i + 3] as int)
  }

  /** BinaryReader.ReadInt32 on four available bytes. */
  function Int32Of(s: seq<byte>): int32
    requires |s| == 4
  {
    ToInt32(U32At(s, 0))
  }

  /** BinaryReader.ReadInt64 on eight available bytes. */
  function Int64Of(s: seq<byte>): int64
    requires |s| == 8
  {
    var u := U32At(s, 0) + WORD32 * U32At(s, 4);
    if u < 0x8000_0000_0000_0000 then u else u - WORD64
  }

  /** The decoders' sums are the little-endian value of their bytes. */
  lemma LeValue4(s: seq<byte>)
    requires |s| == 4
    ensures LeValue(s) == U32At(s, 0)
  {
    var t1 := s[1..];
    var t2 := t1[1..];
    var t3 := t2[1..];
    assert t3[1..] == [];
    assert LeValue(t3) == s[3] as int;
    assert LeValue(t2) == s[2] as int + 256 * (s[3] as int);
    assert LeValue(t1) == s[1] as int + 256 * (s[2] as int + 256 * (s[3] as int));
  }

  lemma LeValue8(s: seq<byte>)
    requires |s| == 8
    ensures LeValue(s) == U32At(s, 0) + WORD32 * U32At(s, 4)
  {
    var t4 := s[4..];
    LeValue4(t4);
    var t1 := s[1..];
    var t2 := t1[1..];
    var t3 := t2[1..];
    assert t3[1..] == t4;
    assert LeValue(t3) == s[3] + 256 * LeValue(t4);
    assert LeValue(t2) == s[2] + 256 * (s[3] + 256 * LeValue(t4));
    assert LeValue(t1) == s[1] + 256 * (s[2] + 256 * (s[3] + 256 * LeValue(t4)));
  }

  /** The unsigned image of an int32 converts back to it. */
  lemma ToInt32OfUnsigned(v: int32, u: int)
    requires u == v % WORD32
    ensures ToInt32(u) == v
  {
    if v < 0 {
      assert u == v + WORD32;
    }
  }

  lemma Int32RoundTrip(v: int32)
    ensures Int32Of(Int32Bytes(v)) == v
  {
    var u := LeValue(Int32Bytes(v));
    assert u == v % WORD32 by {
      Pow256Words();
      LeValueOfLeBytes(v, 4);
    }
    LeValue4(Int32Bytes(v));
    ToInt32OfUnsigned(v, u);
  }

  lemma Int32BytesRoundTrip(s: seq<byte>)
    requires |s| == 4
    ensures Int32Bytes(Int32Of(s)) == s
  {
    var u := LeValue(s);
    Pow256Words();
    LeValue4(s);
    assert Int32Of(s) % WORD32 == u;
    LeBytesMod(Int32Of(s), 4);
    LeBytesOfLeValue(s);
  }

  /** ReadInt64 reads the little-endian value of its bytes, as a signed long. */
  lemma Int64OfValue(s: seq<byte>)
    requires |s| == 8
    ensures Int64Of(s) == if LeValue(s) < 0x8000_0000_0000_0000 then LeValue(s) else LeValue(s) - WORD64
  {
    LeValue8(s);
  }

  /** Eight bytes whose value is a long's unsigned image read back as that long. */
  lemma Int64OfUnsigned(v: int64, s: seq<byte>)
    requires |s| == 8 && LeValue(s) == v % WORD64
    ensures Int64Of(s) == v
  {
    Int64OfValue(s);
    if v < 0 {
      assert LeValue(s) == v + WORD64;
    }
  }

  lemma Int64BytesValue(v: int64)
    ensures LeValue(Int64Bytes(v)) == v % WORD64
  {
    Pow256Words();
    LeValueOfLeBytes(v, 8);
  }

  lemma Int64RoundTrip(v: int64)
    ensures Int64Of(Int64Bytes(v)) == v
  {
    Int64BytesValue(v);
    Int64OfUnsigned(v, Int64Bytes(v));
  }

  lemma Int64BytesRoundTrip(s: seq<byte>)
    requires |s| == 8
    ensures Int64Bytes(Int64Of(s)) == s
  {
    var u := LeValue(s);
    Pow256Words();
    LeValue8(s);
    assert Int64Of(s) % WORD64 == u;
    LeBytesMod(Int64Of(s), 8);
    LeBytesOfLeValue(s);
  }

  /** `(int)(v >> 0)`: the low word of a long. */
  function LowWord(v: int64): int32
  {
    ToInt32(v)
  }

  /** `(int)(v >> 32)`: the high word of a long (an arithmetic shift, so a floor division). */
  function HighWord(v: int64): int32
  {
    ToInt32(v / WORD32)
  }

  /** The long whose low word is lo and whose high word is hi: `(uint)lo | ((long)hi << 32)`. */
  function JoinWords(lo: int32, hi: int32): (v: int64)
  {
    lo % WORD32 + hi * WORD32
  }

  lemma SplitJoin(v: int64)
    ensures JoinWords(LowWord(v), HighWord(v)) == v
  {
    assert HighWord(v) == v / WORD32;
  }

  lemma JoinSplit(lo: int32, hi: int32)
    ensures LowWord(JoinWords(lo, hi)) == lo && HighWord(JoinWords(lo, hi)) == hi
  {
    var v := JoinWords(lo, hi);
    DivModUnique(v, WORD32, hi, lo % WORD32);
  }

  /** The two words of a long, read as unsigned, are its unsigned value's two halves. */
  lemma WordsOfUnsigned(v: int64)
    ensures LowWord(v) % WORD32 == (v % WORD64) % WORD32
    ensures HighWord(v) % WORD32 == (v % WORD64) / WORD32
  {
    var h, l := v / WORD32, v % WORD32;
    assert v == WORD32 * h + l;
    if v >= 0 {
      DivModUnique(v % WORD64, WORD32, h, l);
    } else {
      assert v % WORD64 == WORD32 * (h + WORD32) + l;
      DivModUnique(v % WORD64, WORD32, h + WORD32, l);
    }
  }

  /** Writing the low word and then the high word writes the long itself. */
  lemma SplitWordsBytes(v: int64)
    ensures Int32Bytes(LowWord(v)) + Int32Bytes(HighWord(v)) == Int64Bytes(v)
  {
    var u := v % WORD64;
    Pow256Words();
    LeBytesSplit(u, 4, 4);
    LeBytesMod(v, 8);
    LeBytesMod(LowWord(v), 4);
    LeBytesMod(HighWord(v), 4);
    WordsOfUnsigned(v);
  }

  /** One BinaryWriter.Write call: a byte, an int or a long. */
  datatype Datum = Byte(b: byte) | Int(i: int32) | Long(l: int64)

  function DatumBytes(d: Datum): (r: seq<byte>)
    ensures |r| == match d case Byte(_) => 1 case Int(_) => 4 case Long(_) => 8
  {
    match d
    case Byte(b) => [b]
    case Int(i) => Int32Bytes(i)
    case Long(l) => Int64Bytes(l)
  }

  /** The bytes a sequence of writes leaves in the stream. */
  function Serialize(ds: seq<Datum>): seq<byte>
  {
    if ds == [] then [] else DatumBytes(ds[0]) + Serialize(ds[1..])
  }

  /** Writes concatenate: the stream after a + b holds a's bytes, then b's. */
  lemma {:induction false} SerializeAppend(a: seq<Datum>, b: seq<Datum>)
    ensures Serialize(a + b) == Serialize(a) + Serialize(b)
  {
    if a == [] {
      assert a + b == b;
    } else {
      assert (a + b)[1..] == a[1..] + b;
      SerializeAppend(a[1..], b);
    }
  }

  lemma SerializeConcat5(w1: seq<Datum>, w2: seq<Datum>, w3: seq<Datum>, w4: seq<Datum>, w5: seq<Datum>)
    ensures Serialize(w1 + w2 + w3 + w4 + w5)
      == Serialize(w1) + Serialize(w2) + Serialize(w3) + Serialize(w4) + Serialize(w5)
  {
    SerializeAppend(w1, w2);
    SerializeAppend(w1 + w2, w3);
    SerializeAppend(w1 + w2 + w3, w4);
    SerializeAppend(w1 + w2 + w3 + w4, w5);
  }

  lemma SerializeOne(d: Datum)
    ensures Serialize([d]) == DatumBytes(d)
  {
    assert [d][1..] == [];
  }

  lemma SerializePair(d: Datum, e: Datum)
    ensures Serialize([d, e]) == DatumBytes(d) + DatumBytes(e)
  {
    assert [d, e][1..] == [e];
    assert [e][1..] == [];
    assert Serialize([e]) == DatumBytes(e) + [];
  }

  /** A byte array written byte by byte. */
  function ByteWrites(t: seq<byte>): (w: seq<Datum>)
    ensures |w| == |t|
  {
    seq(|t|, i requires 0 <= i < |t| => Byte(t[i]))
  }

  /** Writing bytes one at a time leaves exactly those bytes. */
  lemma {:induction false} SerializeByteWrites(t: seq<byte>)
    ensures Serialize(ByteWrites(t)) == t
  {
    if t != [] {
      assert ByteWrites(t)[1..] == ByteWrites(t[1..]);
      SerializeByteWrites(t[1..]);
    }
  }

  /** A long written as its low word, then its high word. */
  function LongAsWords(v: int64): (w: seq<Datum>)
  {
    [Int(LowWord(v)), Int(HighWord(v))]
  }

  /** Two int writes of a long's halves leave the same bytes as one long write. */
  lemma SerializeLongAsWords(v: int64)
    ensures Serialize(LongAsWords(v)) == Int64Bytes(v)
  {
    SerializePair(Int(LowWord(v)), Int(HighWord(v)));
    SplitWordsBytes(v);
  }
}
