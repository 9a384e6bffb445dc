/**
 * The vectors of `UTF8CodecTest.java`: 0x80 and the RFC 3629 example "A<NOT IDENTICAL TO><ALPHA>."
 * (U+0041 U+2262 U+0391 U+002E) encode to the listed bytes and decode back, and the overlong
 * {0xc0, 0x80} for 0 is refused. Each vector is a lemma about arrays equal to the listed bytes.
 */
module Utf8CodecVectors {
  import opened Wrappers
  import opened JavaTypes
  import opened Bits
  import opened Utf8Codec
  import opened Utf8CodecLemmas
  import opened Utf8CodecRoundTrip

  /** A leading byte in the range of the template of `length`: its length and its value bits. */
  lemma {:induction false} LeadingByte(b: byte, length: int)
    requires 1 <= length <= 6
    requires INITIAL_BYTE_TEMPLATE[length] <= b <= INITIAL_BYTE_TEMPLATE[length] + INITIAL_BYTE_VALUE_BIT_MASK[length]
    ensures InitialByteLength(b) == Ok(length)
    ensures And(b, INITIAL_BYTE_VALUE_BIT_MASK[length]) == b - INITIAL_BYTE_TEMPLATE[length]
  {
    TableShapes(length);
    LeadingByteAnnounces(b, length);
    InitialByteLengthIsSmallestMatch(b);
    LeadingByteValue(b, length);
  }

  /** A byte from 0x80 to 0xbf: a continuation byte, and its value bits. */
  lemma {:induction false} ContinuationByte(b: byte)
    requires 0x80 <= b < 0xc0
    ensures IsContinuationByte(b) && And(b, CONTINUATION_BYTE_VALUE_BIT_MASK) == b - 0x80
  {
    ContinuationRange(b);
    ContinuationByteValue(b);
  }

  /** {0x41} is 'A' (U+0041), {0x2e} is '.' (U+002E): a value below 0x80 is its own encoding. */
  lemma {:induction false} OneByteVector(bytes: seq<byte>, n: int)
    requires (n == 0x41 || n == 0x2e) && bytes == [n]
    ensures Decoded(bytes) == Ok(n) && Encoded(n) == bytes
  {
    LeadingByte(bytes[0], 1);
    DecodedIffEncoded(bytes, n);
  }

  /** {0xc2, 0x80} is 0x80, the least two-byte value. */
  lemma {:induction false} Vector80(bytes: seq<byte>)
    requires bytes == [0xc2, 0x80]
    ensures Decoded(bytes) == Ok(0x80) && Encoded(0x80) == bytes
  {
    LeadingByte(bytes[0], 2);
    ContinuationByte(bytes[1]);
    DecodedIffEncoded(bytes, 0x80);
  }

  /** {0xce, 0x91} is U+0391 GREEK CAPITAL LETTER ALPHA. */
  lemma {:induction false} Vector391(bytes: seq<byte>)
    requires bytes == [0xce, 0x91]
    ensures Decoded(bytes) == Ok(0x391) && Encoded(0x391) == bytes
  {
    LeadingByte(bytes[0], 2);
    ContinuationByte(bytes[1]);
    DecodedIffEncoded(bytes, 0x391);
  }

  /** {0xe2, 0x89, 0xa2} is U+2262 NOT IDENTICAL TO. */
  lemma {:induction false} Vector2262(bytes: seq<byte>)
    requires bytes == [0xe2, 0x89, 0xa2]
    ensures Decoded(bytes) == Ok(0x2262) && Encoded(0x2262) == bytes
  {
    LeadingByte(bytes[0], 3);
    ContinuationByte(bytes[1]);
    ContinuationByte(bytes[2]);
    assert InitialField(bytes[0], 3) == ShiftLeft(2, 2) == 0x2000;
    assert ContinuationField(bytes[1], 1) == ShiftLeft(9, 1) == 0x240;
    assert Accumulate(bytes, 3, 1, 0x2000) == Accumulate(bytes, 3, 2, 0x2240) == Ok(0x2262);
    DecodedIffEncoded(bytes, 0x2262);
  }

  /** {0xc0, 0x80} would be a two-byte form of 0: assembled, then refused as not canonical. */
  lemma {:induction false} OverlongZeroRefused(bytes: seq<byte>)
    requires bytes == [0xc0, 0x80]
    ensures Decoded(bytes) == Err(NonCanonical(0, 2, 1))
  {
    LeadingByte(bytes[0], 2);
    ContinuationByte(bytes[1]);
  }
}
