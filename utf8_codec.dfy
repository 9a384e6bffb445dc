/**
 * The extended UTF-8 integer codec of `UTF8Codec.java`: the 1 to 6 byte framing of section 2 of
 * RFC 2279, which covers every non-negative Java `int` (0 .. 2^31 - 1), with the additional rule
 * that a value must use its shortest form.
 *
 *   value bits                           byte 1   byte 2   byte 3   byte 4   byte 5   byte 6
 *   0aaaaaaa                             0aaaaaaa
 *   00000bbb bbaaaaaa                    110bbbbb 10aaaaaa
 *   ccccbbbb bbaaaaaa                    1110cccc 10bbbbbb 10aaaaaa
 *   ...                                  ...
 *   0feeeeee ddddddcc ccccbbbb bbaaaaaa  1111110f 10eeeeee 10dddddd 10cccccc 10bbbbbb 10aaaaaa
 *
 * Bytes are their unsigned values and the masks are applied with the bitwise `And` of `Bits`.
 * Values are mathematical integers: `x >>> 6k` on a non-negative `int` is `x / 64^k`, the cast
 * `(byte)` keeps `% 256` of it, and `<< 6k` is `* 64^k`. Both directions combine a template or
 * an accumulated value with a field by `|`. The two never share a bit: a template is a multiple of
 * 2^k and its field is below 2^k (`TableShapes` in `Utf8CodecLemmas`), and each continuation field
 * is added below the six zero bits that the shift of the value so far leaves (`AccumulateStep` in
 * `Utf8CodecRoundTrip`), so the model adds them.
 */
module Utf8Codec {
  import opened Wrappers
  import opened JavaTypes
  import opened Bits

  const MINIMUM_TWO_BYTE_VALUE: int := 0x0000_0080
  const MINIMUM_THREE_BYTE_VALUE: int := 0x0000_0800
  const MINIMUM_FOUR_BYTE_VALUE: int := 0x0001_0000
  const MINIMUM_FIVE_BYTE_VALUE: int := 0x0020_0000
  const MINIMUM_SIX_BYTE_VALUE: int := 0x0400_0000

  const VALUE_BITS_PER_CONTINUATION_BYTE: int := 6

  const CONTINUATION_BYTE_TEMPLATE: byte := 0x80           // 10xxxxxx
  const CONTINUATION_BYTE_VALUE_BIT_MASK: byte := 0x3f     // 00111111
  const CONTINUATION_BYTE_TEMPLATE_BIT_MASK: byte := 0xc0  // 11000000

  /** Indexed by encoded length; entry 0 is unused. */
  const INITIAL_BYTE_VALUE_BIT_MASK: seq<byte> := [0x00, 0x7f, 0x1f, 0x0f, 0x07, 0x03, 0x01]
  const INITIAL_BYTE_TEMPLATE_BIT_MASK: seq<byte> := [0x00, 0x80, 0xe0, 0xf0, 0xf8, 0xfc, 0xfe]
  const INITIAL_BYTE_TEMPLATE: seq<byte> := [0x00, 0x00, 0xc0, 0xe0, 0xf0, 0xf8, 0xfc]

  const MIN_ENCODED_LENGTH: int := 1
  const MAX_ENCODED_LENGTH: int := 6

  /** The `IllegalArgumentException` and `UTF8ParseException` cases of the codec. */
  datatype CodecError =
    | NegativeValue(arg: int)
    | ArrayTooShort
    | ArrayTooLong(length: int)
    | InvalidLeadingByte(initialByte: byte)
    | TruncatedSequence(offset: int)
    | InvalidContinuationByte(b: byte, offset: int)
    | NonCanonical(value: int, length: int, canonicalLength: int)

  /** `x << 6k`: `x` shifted left by `k` continuation bytes' worth of bits. */
  function ShiftLeft(x: int, chunks: nat): int
    decreases chunks
  {
    if chunks == 0 then x else 64 * ShiftLeft(x, chunks - 1)
  }

  /** `x >>> 6k` for a non-negative `x`: `x` shifted right by `k` continuation bytes' worth of bits. */
  function ShiftRight(x: int, chunks: nat): int
    decreases chunks
  {
    if chunks == 0 then x else ShiftRight(x / 64, chunks - 1)
  }

  /** The number of value bits an encoding of `length` bytes carries, read off the table above. */
  function PayloadBits(length: int): nat
    requires 1 <= length <= 6
  {
    if length == 1 then 7 else 5 * length + 1
  }

  /** `utf8EncodedLength`: the number of bytes of the canonical encoding of `arg`. */
  function Utf8EncodedLength(arg: int): (length: int)
    ensures MIN_ENCODED_LENGTH <= length <= MAX_ENCODED_LENGTH
  {
    if arg < MINIMUM_TWO_BYTE_VALUE then 1
    else if arg < MINIMUM_THREE_BYTE_VALUE then 2
    else if arg < MINIMUM_FOUR_BYTE_VALUE then 3
    else if arg < MINIMUM_FIVE_BYTE_VALUE then 4
    else if arg < MINIMUM_SIX_BYTE_VALUE then 5
    else 6
  }

  /*
   * Encoding
   */

  /** Byte `i` of the `length`-byte encoding of `arg`: one iteration of the loop of `intToUtf8`. */
  function EncodedByte(arg: nat, length: int, i: int): byte
    requires 1 <= length <= 6 && 0 <= i < length
  {
    var valueMask := if i == 0 then INITIAL_BYTE_VALUE_BIT_MASK[length] else CONTINUATION_BYTE_VALUE_BIT_MASK;
    var template := if i == 0 then INITIAL_BYTE_TEMPLATE[length] else CONTINUATION_BYTE_TEMPLATE;
    var valueBits := And(ShiftRight(arg, length - i - 1) % 256, valueMask);
    template + valueBits
  }

  /** The canonical encoding of a non-negative `int`, byte by byte as `intToUtf8` builds it. */
  function Encoded(arg: int): (bytes: seq<byte>)
    requires 0 <= arg <= MAX_INT
    ensures |bytes| == Utf8EncodedLength(arg)
  {
    var length := Utf8EncodedLength(arg);
    seq(length, i requires 0 <= i < length => EncodedByte(arg, length, i))
  }

  /** `intToUtf8`: refuses a negative argument, otherwise fills a fresh array byte by byte. */
  method IntToUtf8(arg: int32) returns (r: Result<seq<byte>, CodecError>)
    ensures arg < 0 ==> r == Err(NegativeValue(arg))
    ensures arg >= 0 ==> r == Ok(Encoded(arg))
  {
    if arg < 0 {
      return Err(NegativeValue(arg));
    }
    var length := Utf8EncodedLength(arg);
    var bytes := new byte[length];
    for i := 0 to length
      invariant forall j :: 0 <= j < i ==> bytes[j] == EncodedByte(arg, length, j)
    {
      var valueMask: byte;
      var template: byte;
      if i == 0 {
        valueMask := INITIAL_BYTE_VALUE_BIT_MASK[length];
        template := INITIAL_BYTE_TEMPLATE[length];
      } else {
        valueMask := CONTINUATION_BYTE_VALUE_BIT_MASK;
        template := CONTINUATION_BYTE_TEMPLATE;
      }
      var valueBits := And(ShiftRight(arg, length - i - 1) % 256, valueMask);
      bytes[i] := template + valueBits;
    }
    assert bytes[..] == Encoded(arg);
    return Ok(bytes[..]);
  }

  /*
   * Decoding
   */

  predicate MatchesTemplate(b: byte, length: int)
    requires 1 <= length <= 6
  {
    And(b, INITIAL_BYTE_TEMPLATE_BIT_MASK[length]) == INITIAL_BYTE_TEMPLATE[length]
  }

  /** The first length from `length` on whose leading-byte template `b` matches; 7 if none does. */
  function FirstMatchingLength(b: byte, length: int): (r: int)
    requires 1 <= length <= 7
    ensures length <= r <= 7
    ensures r <= 6 ==> MatchesTemplate(b, r)
    ensures forall l :: length <= l < r && l <= 6 ==> !MatchesTemplate(b, l)
    decreases 7 - length
  {
    if length > MAX_ENCODED_LENGTH then length
    else if MatchesTemplate(b, length) then length
    else FirstMatchingLength(b, length + 1)
  }

  /** The encoded length a leading byte announces, or the error `lengthFromInitialByte` throws. */
  function InitialByteLength(b: byte): (r: Result<int, CodecError>)
    ensures r.Ok? ==> 1 <= r.value <= 6
  {
    var length := FirstMatchingLength(b, MIN_ENCODED_LENGTH);
    if length > MAX_ENCODED_LENGTH then Err(InvalidLeadingByte(b)) else Ok(length)
  }

  /**
   * A leading byte announces the smallest length whose template it matches; exactly the
   * continuation bytes 10xxxxxx and the bytes 0xfe and 0xff match none.
   */
  lemma {:induction false} InitialByteLengthIsSmallestMatch(b: byte)
    ensures InitialByteLength(b).Ok? ==>
              var length := InitialByteLength(b).value;
              MatchesTemplate(b, length) && forall l :: 1 <= l < length ==> !MatchesTemplate(b, l)
    ensures InitialByteLength(b).Err? ==>
              InitialByteLength(b).error == InvalidLeadingByte(b) && forall l :: 1 <= l <= 6 ==> !MatchesTemplate(b, l)
  {
  }

  /** `lengthFromInitialByte`: tries the templates in increasing length and stops at the first match. */
  method LengthFromInitialByte(initialByte: byte) returns (r: Result<int, CodecError>)
    ensures r == InitialByteLength(initialByte)
  {
    var length := MIN_ENCODED_LENGTH;
    while length <= MAX_ENCODED_LENGTH
      invariant MIN_ENCODED_LENGTH <= length <= MAX_ENCODED_LENGTH + 1
      invariant FirstMatchingLength(initialByte, length) == FirstMatchingLength(initialByte, MIN_ENCODED_LENGTH)
      decreases MAX_ENCODED_LENGTH + 1 - length
    {
      if And(initialByte, INITIAL_BYTE_TEMPLATE_BIT_MASK[length]) == INITIAL_BYTE_TEMPLATE[length] {
        break;
      }
      length := length + 1;
    }
    if length > MAX_ENCODED_LENGTH {
      return Err(InvalidLeadingByte(initialByte));
    }
    return Ok(length);
  }

  /** A byte of the form 10xxxxxx. */
  predicate IsContinuationByte(b: byte)
  {
    And(b, CONTINUATION_BYTE_TEMPLATE_BIT_MASK) == CONTINUATION_BYTE_TEMPLATE
  }

  /** The value bits of the leading byte, shifted into place. */
  function InitialField(b: byte, length: int): int
    requires 1 <= length <= 6
  {
    ShiftLeft(And(b, INITIAL_BYTE_VALUE_BIT_MASK[length]), length - 1)
  }

  /**
   * The loop of `utf8ToInt` from offset `i` on, with `value` accumulated so far: every byte up to
   * `length` must be present and of the form 10xxxxxx, and its six value bits are added in place.
   * The source indexes the array without checking its size; here a missing byte is an error.
   */
  function Accumulate(bytes: seq<byte>, length: int, i: int, value: int): (r: Result<int, CodecError>)
    requires 1 <= i <= length <= 6 && i <= |bytes|
    ensures r.Ok? ==> length <= |bytes|
    decreases length - i
  {
    if i == length then Ok(value)
    else if i >= |bytes| then Err(TruncatedSequence(i))
    else if !IsContinuationByte(bytes[i]) then
      Err(InvalidContinuationByte(bytes[i], i))
    else
      Accumulate(bytes, length, i + 1, value + ContinuationField(bytes[i], length - i - 1))
  }

  /** The six value bits of a continuation byte, shifted into place (`<<` by a multiple of 6). */
  function ContinuationField(b: byte, chunks: nat): int
  {
    ShiftLeft(And(b, CONTINUATION_BYTE_VALUE_BIT_MASK), chunks)
  }

  /** What `utf8ToInt` returns or throws for `bytes`. */
  function Decoded(bytes: seq<byte>): (r: Result<int, CodecError>)
  {
    if |bytes| < MIN_ENCODED_LENGTH then Err(ArrayTooShort)
    else if |bytes| > MAX_ENCODED_LENGTH then Err(ArrayTooLong(|bytes|))
    else
      var length :- InitialByteLength(bytes[0]);
      CanonicalOnly(bytes, Accumulate(bytes, length, 1, InitialField(bytes[0], length)))
  }

  /** The final check of `utf8ToInt`: the array must be exactly as long as the value's canonical form. */
  function CanonicalOnly(bytes: seq<byte>, assembled: Result<int, CodecError>): Result<int, CodecError>
  {
    match assembled
    case Err(e) => Err(e)
    case Ok(value) =>
      var canonicalLength := Utf8EncodedLength(value);
      if |bytes| != canonicalLength then Err(NonCanonical(value, |bytes|, canonicalLength))
      else Ok(value)
  }

  /** `utf8ToInt`: the length checks, the leading byte, the accumulating loop and the canonical check. */
  method Utf8ToInt(bytes: seq<byte>) returns (r: Result<int, CodecError>)
    ensures r == Decoded(bytes)
  {
    if |bytes| < MIN_ENCODED_LENGTH {
      return Err(ArrayTooShort);
    }
    if |bytes| > MAX_ENCODED_LENGTH {
      return Err(ArrayTooLong(|bytes|));
    }
    var lengthResult := LengthFromInitialByte(bytes[0]);
    if lengthResult.Err? {
      return Err(lengthResult.error);
    }
    var length := lengthResult.value;
    var assembled := AccumulateContinuations(bytes, length, InitialField(bytes[0], length));
    if assembled.Err? {
      return Err(assembled.error);
    }
    var value := assembled.value;
    var canonicalLength := Utf8EncodedLength(value);
    if |bytes| != canonicalLength {
      return Err(NonCanonical(value, |bytes|, canonicalLength));
    }
    return Ok(value);
  }

  /** The loop of `utf8ToInt` over the continuation bytes, proved to compute `Accumulate`. */
  method AccumulateContinuations(bytes: seq<byte>, length: int, initial: int) returns (r: Result<int, CodecError>)
    requires 1 <= length <= 6 && 1 <= |bytes|
    ensures r == Accumulate(bytes, length, 1, initial)
  {
    var value := initial;
    for i := 1 to length
      invariant i <= |bytes|
      invariant Accumulate(bytes, length, i, value) == Accumulate(bytes, length, 1, initial)
    {
      if i >= |bytes| {
        return Err(TruncatedSequence(i));
      }
      if !IsContinuationByte(bytes[i]) {
        return Err(InvalidContinuationByte(bytes[i], i));
      }
      value := value + ContinuationField(bytes[i], length - i - 1);
    }
    return Ok(value);
  }
}
