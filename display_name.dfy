/**
 * The display name a request carries: up to eight request bytes, of which
 * the printable ASCII ones (0x20 to 0x7E) are kept in order and every other
 * byte, NUL included, is dropped without ending the name.
 */
module DisplayName {
  import opened LittleEndian

  /** How many request bytes a display name takes at most. */
  const NAME_BYTES: nat := 8

  predicate IsPrintable(b: byte)
  {
    0x20 <= b < 0x7F
  }

  /** How many bytes GetDisplayName consumes when `remaining` bytes are left in the request. */
  function NameBytesConsumed(remaining: nat): (n: nat)
    ensures n <= NAME_BYTES && n <= remaining
    ensures n == NAME_BYTES || n == remaining
  {
    if remaining < NAME_BYTES then remaining else NAME_BYTES
  }

  /** The printable bytes of bs, as characters, in order. */
  function PrintableOf(bs: seq<byte>): string
  {
    if bs == [] then []
    else
      var last := bs[|bs| - 1];
      PrintableOf(bs[..|bs| - 1]) + (if IsPrintable(last) then [last as char] else [])
  }

  /** The name is no longer than the bytes it came from, and all of it is printable. */
  lemma {:induction false} PrintableOfBounds(bs: seq<byte>)
    ensures |PrintableOf(bs)| <= |bs|
    ensures forall i :: 0 <= i < |PrintableOf(bs)| ==> 0x20 <= PrintableOf(bs)[i] as int < 0x7F
  {
    if bs != [] {
      PrintableOfBounds(bs[..|bs| - 1]);
    }
  }

  /** Filtering distributes over concatenation: the order of the bytes is kept. */
  lemma {:induction false} PrintableOfConcat(a: seq<byte>, b: seq<byte>)
    ensures PrintableOf(a + b) == PrintableOf(a) + PrintableOf(b)
    decreases |b|
  {
    if b != [] {
      var b' := b[..|b| - 1];
      assert (a + b)[..|a + b| - 1] == a + b';
      PrintableOfConcat(a, b');
    } else {
      assert a + b == a;
    }
  }

  /** A non-printable byte, NUL included, is skipped: it does not end the name. */
  lemma PrintableOfSkips(a: seq<byte>, b: byte, c: seq<byte>)
    requires !IsPrintable(b)
    ensures PrintableOf(a + [b] + c) == PrintableOf(a + c)
  {
    PrintableOfConcat(a + [b], c);
    PrintableOfConcat(a, [b]);
    PrintableOfConcat(a, c);
    assert ([b])[..0] == [];
  }

  /** Bytes that are all printable come through unchanged. */
  lemma {:induction false} PrintableOfAllPrintable(bs: seq<byte>)
    requires forall i :: 0 <= i < |bs| ==> IsPrintable(bs[i])
    ensures |PrintableOf(bs)| == |bs|
    ensures forall i :: 0 <= i < |bs| ==> PrintableOf(bs)[i] == bs[i] as char
  {
    if bs != [] {
      PrintableOfAllPrintable(bs[..|bs| - 1]);
    }
  }

  /**
   * Every printable byte is kept as often as it occurs, and no character of
   * a non-printable byte appears.
   */
  lemma {:induction false} PrintableOfCounts(bs: seq<byte>, b: byte)
    ensures IsPrintable(b) ==> multiset(PrintableOf(bs))[b as char] == multiset(bs)[b]
    ensures !IsPrintable(b) ==> b as char !in PrintableOf(bs)
  {
    if bs != [] {
      var init, last := bs[..|bs| - 1], bs[|bs| - 1];
      assert bs == init + [last];
      PrintableOfCounts(init, b);
      PrintableOfBounds(bs);
      assert multiset(bs) == multiset(init) + multiset{last};
    }
  }

  /** The name of the request bytes 'A', NUL, 'B' is "AB". */
  lemma NulIsSkipped()
    ensures PrintableOf([0x41, 0x00, 0x42]) == "AB"
  {
    assert [0x41, 0x00, 0x42][..2] == [0x41, 0x00];
    assert [0x41, 0x00][..1] == [0x41];
  }
}
