/**
 * The round trip of the integer codec: `utf8ToInt(intToUtf8(n)) == n` for every non-negative
 * `int`, and its converse, canonicality: an array `utf8ToInt` accepts is exactly the encoding of
 * the value it returns. Together they say that decoding accepts the canonical encodings and
 * nothing else.
 *
 * Both directions go through the base-64 digits of a well-formed array: the value bits of the
 * leading byte, then six bits per continuation byte.
 */
module Utf8CodecRoundTrip {
  import opened Wrappers
  import opened JavaTypes
  import opened Bits
  import opened Utf8Codec
  import opened Utf8CodecLemmas

  /*
   * Shifts
   */

  lemma {:induction false} ShiftLeftAdd(x: int, y: int, chunks: nat)
    ensures ShiftLeft(x, chunks) + ShiftLeft(y, chunks) == ShiftLeft(x + y, chunks)
    decreases chunks
  {
    if chunks > 0 {
      ShiftLeftAdd(x, y, chunks - 1);
    }
  }

  lemma {:induction false} ShiftLeftOuter(x: int, chunks: nat)
    ensures ShiftLeft(x, chunks + 1) == ShiftLeft(64 * x, chunks)
    decreases chunks
  {
    if chunks > 0 {
      ShiftLeftOuter(x, chunks - 1);
    }
  }

  /*
   * Digits
   */

  /**
   * The number formed by the value bits of the first `i` bytes of a `length`-byte encoding: the
   * leading byte's bits, then six bits per continuation byte.
   */
  function FieldsValue(bytes: seq<byte>, length: int, i: int): nat
    requires 1 <= i <= length <= 6 && i <= |bytes|
    decreases i
  {
    if i == 1 then And(bytes[0], INITIAL_BYTE_VALUE_BIT_MASK[length])
    else 64 * FieldsValue(bytes, length, i - 1) + And(bytes[i - 1], CONTINUATION_BYTE_VALUE_BIT_MASK)
  }

  /** The loop of `utf8ToInt` succeeds exactly when every announced byte is present and 10xxxxxx. */
  lemma {:induction false} AccumulateOk(bytes: seq<byte>, length: int, i: int, value: int)
    requires 1 <= i <= length <= 6 && i <= |bytes|
    ensures Accumulate(bytes, length, i, value).Ok? <==>
            length <= |bytes| && forall j :: i <= j < length ==> IsContinuationByte(bytes[j])
    decreases length - i
  {
    if i < length && i < |bytes| && IsContinuationByte(bytes[i]) {
      AccumulateOk(bytes, length, i + 1, value + ContinuationField(bytes[i], length - i - 1));
    }
  }

  /** Over a well-formed array, the loop of `utf8ToInt` computes the number its digits form. */
  lemma {:induction false} AccumulateFields(bytes: seq<byte>, length: int, i: int)
    requires 1 <= i <= length <= 6 && length <= |bytes|
    requires forall j :: i <= j < length ==> IsContinuationByte(bytes[j])
    ensures Accumulate(bytes, length, i, ShiftLeft(FieldsValue(bytes, length, i), length - i)) ==
            Ok(FieldsValue(bytes, length, length))
    decreases length - i
  {
    if i < length {
      AccumulateStep(bytes, length, i);
      AccumulateFields(bytes, length, i + 1);
    } else {
      AccumulateDone(bytes, length, FieldsValue(bytes, length, length));
    }
  }

  lemma {:induction false} AccumulateDone(bytes: seq<byte>, length: int, value: int)
    requires 1 <= length <= 6 && length <= |bytes|
    ensures Accumulate(bytes, length, length, ShiftLeft(value, 0)) == Ok(value)
  {
  }

  /** One iteration of the loop of `utf8ToInt` appends one digit to the accumulated value. */
  lemma {:induction false} AccumulateStep(bytes: seq<byte>, length: int, i: int)
    requires 1 <= i < length <= 6 && length <= |bytes| && IsContinuationByte(bytes[i])
    ensures Accumulate(bytes, length, i, ShiftLeft(FieldsValue(bytes, length, i), length - i)) ==
            Accumulate(bytes, length, i + 1, ShiftLeft(FieldsValue(bytes, length, i + 1), length - (i + 1)))
  {
    var f := FieldsValue(bytes, length, i);
    var d := And(bytes[i], CONTINUATION_BYTE_VALUE_BIT_MASK);
    var rest := length - i - 1;
    assert FieldsValue(bytes, length, i + 1) == 64 * f + d;
    ShiftLeftOuter(f, rest);
    ShiftLeftAdd(64 * f, d, rest);
    AccumulateOnce(bytes, length, i, ShiftLeft(f, length - i), ShiftLeft(FieldsValue(bytes, length, i + 1), rest));
  }

  lemma {:induction false} AccumulateOnce(bytes: seq<byte>, length: int, i: int, value: int, next: int)
    requires 1 <= i < length <= 6 && length <= |bytes| && IsContinuationByte(bytes[i])
    requires value + ContinuationField(bytes[i], length - i - 1) == next
    ensures Accumulate(bytes, length, i, value) == Accumulate(bytes, length, i + 1, next)
  {
  }

  /** Dropping the last digit is a shift right by one continuation byte. */
  lemma {:induction false} LastDigit(bytes: seq<byte>, length: int, i: int)
    requires 2 <= i <= length <= 6 && i <= |bytes|
    ensures FieldsValue(bytes, length, i) / 64 == FieldsValue(bytes, length, i - 1)
    ensures FieldsValue(bytes, length, i) % 64 == And(bytes[i - 1], CONTINUATION_BYTE_VALUE_BIT_MASK)
  {
    var d := And(bytes[i - 1], CONTINUATION_BYTE_VALUE_BIT_MASK);
    DivModUnique(FieldsValue(bytes, length, i), 64, FieldsValue(bytes, length, i - 1), d);
  }

  /** Shifting right by `j` continuation bytes drops the last `j` digits. */
  lemma {:induction false} DigitsShift(bytes: seq<byte>, length: int, i: int, j: nat)
    requires 1 <= i - j && i <= length <= 6 && i <= |bytes|
    ensures ShiftRight(FieldsValue(bytes, length, i), j) == FieldsValue(bytes, length, i - j)
    decreases j
  {
    if j > 0 {
      LastDigit(bytes, length, i);
      DigitsShift(bytes, length, i - 1, j - 1);
    }
  }

  /** The digits of `length` bytes fit in the value bits of `length` bytes. */
  lemma {:induction false} FieldsBound(bytes: seq<byte>, length: int, i: int)
    requires 1 <= i <= length <= 6 && i <= |bytes|
    ensures FieldsValue(bytes, length, i) < ShiftLeft(Pow2(InitialValueBits(length)), i - 1)
    decreases i
  {
    if i == 1 {
      TableShapes(length);
    } else {
      FieldsBound(bytes, length, i - 1);
    }
  }

  /*
   * Encoding, then decoding
   */

  /** The leading byte of `intToUtf8(n)` carries the top digit of `n`. */
  lemma {:induction false} EncodedFirstDigit(n: int)
    requires 0 <= n <= MAX_INT
    ensures var bytes := Encoded(n);
      FieldsValue(bytes, |bytes|, 1) == ShiftRight(n, |bytes| - 1)
  {
    var bytes := Encoded(n);
    var length := |bytes|;
    TopDigitBelow(n);
    EncodedInitialByte(n, length);
    LeadingByteOf(ShiftRight(n, length - 1), length);
  }

  lemma {:induction false} EncodedAt(n: int, i: int)
    requires 0 <= n <= MAX_INT && 0 <= i < |Encoded(n)|
    ensures Encoded(n)[i] == EncodedByte(n, |Encoded(n)|, i)
  {
  }

  /** Appending the continuation byte 0x80 + (y % 64) to digits forming y / 64 forms y. */
  lemma {:induction false} NextDigit(bytes: seq<byte>, length: int, i: int, y: nat)
    requires 2 <= i <= length <= 6 && i <= |bytes|
    requires FieldsValue(bytes, length, i - 1) == y / 64
    requires bytes[i - 1] == 0x80 + y % 64
    ensures FieldsValue(bytes, length, i) == y
  {
    ContinuationByteOf(y % 64);
  }

  /** Continuation byte `i - 1` of `intToUtf8(n)` carries the next digit of `n`. */
  lemma {:induction false} EncodedNextDigit(n: int, i: int)
    requires 0 <= n <= MAX_INT
    requires 2 <= i <= |Encoded(n)|
    requires var bytes := Encoded(n);
      FieldsValue(bytes, |bytes|, i - 1) == ShiftRight(n, |bytes| - i + 1)
    ensures var bytes := Encoded(n);
      FieldsValue(bytes, |bytes|, i) == ShiftRight(n, |bytes| - i)
  {
    var bytes := Encoded(n);
    var length := |bytes|;
    var y := ShiftRight(n, length - i);
    ShiftRightOnce(n, length - i);
    EncodedAt(n, i - 1);
    EncodedContinuationByte(n, length, i - 1);
    assert bytes[i - 1] == 0x80 + y % 64;
    NextDigit(bytes, length, i, y);
  }

  /** The first `i` digits of `intToUtf8(n)` form `n` shifted right past the remaining bytes. */
  lemma {:induction false} EncodedDigits(n: int, i: int)
    requires 0 <= n <= MAX_INT
    requires 1 <= i <= |Encoded(n)|
    ensures var bytes := Encoded(n);
      FieldsValue(bytes, |bytes|, i) == ShiftRight(n, |bytes| - i)
    decreases i
  {
    if i == 1 {
      EncodedFirstDigit(n);
    } else {
      EncodedDigits(n, i - 1);
      EncodedNextDigit(n, i);
    }
  }

  /** `utf8ToInt(intToUtf8(n)) == n` for every non-negative `int` `n`. */
  lemma {:induction false} RoundTrip(n: int)
    requires 0 <= n <= MAX_INT
    ensures Decoded(Encoded(n)) == Ok(n)
  {
    var bytes := Encoded(n);
    var length := |bytes|;
    EncodedShape(n);
    AccumulateFields(bytes, length, 1);
    EncodedDigits(n, length);
  }

  /*
   * Decoding, then encoding
   */

  /** The steps of `utf8ToInt` an accepted array has passed. */
  lemma {:induction false} DecodedSteps(bytes: seq<byte>)
    requires Decoded(bytes).Ok?
    ensures 1 <= |bytes| <= 6 && InitialByteLength(bytes[0]).Ok?
    ensures var length := InitialByteLength(bytes[0]).value;
      Accumulate(bytes, length, 1, InitialField(bytes[0], length)) == Ok(Decoded(bytes).value)
    ensures |bytes| == Utf8EncodedLength(Decoded(bytes).value)
  {
  }

  /** An accepted array announces its own length, and its digits form the value returned. */
  lemma {:induction false} DecodedDigits(bytes: seq<byte>)
    requires Decoded(bytes).Ok?
    ensures 1 <= |bytes| <= 6
    ensures InitialByteLength(bytes[0]) == Ok(|bytes|)
    ensures forall j :: 1 <= j < |bytes| ==> IsContinuationByte(bytes[j])
    ensures Decoded(bytes).value == FieldsValue(bytes, |bytes|, |bytes|)
    ensures 0 <= Decoded(bytes).value <= MAX_INT
  {
    DecodedSteps(bytes);
    var length := InitialByteLength(bytes[0]).value;
    var initial := InitialField(bytes[0], length);
    AccumulateOk(bytes, length, 1, initial);
    assert initial == ShiftLeft(FieldsValue(bytes, length, 1), length - 1);
    AccumulateFields(bytes, length, 1);
    var v := FieldsValue(bytes, length, length);
    assert Decoded(bytes).value == v;
    FieldsBound(bytes, length, length);
    Capacity(length);
    EncodedLengthAtMost(v, length);
    assert length == |bytes|;
  }

  /** A leading byte announcing `length` and carrying the top digit of `v` is the leading byte of its encoding. */
  lemma {:induction false} DecodedFirstByte(b: byte, v: nat, length: int)
    requires 1 <= length <= 6 && InitialByteLength(b) == Ok(length)
    requires ShiftRight(v, length - 1) == And(b, INITIAL_BYTE_VALUE_BIT_MASK[length])
    ensures b == EncodedByte(v, length, 0)
  {
    InitialByteLengthIsSmallestMatch(b);
    LeadingByteValue(b, length);
    EncodedInitialByte(v, length);
  }

  /** A continuation byte carrying digit `i` of `v` is byte `i` of the encoding of `v`. */
  lemma {:induction false} DecodedContinuationByte(b: byte, v: nat, length: int, i: int)
    requires 1 <= i < length <= 6 && IsContinuationByte(b)
    requires ShiftRight(v, length - i - 1) % 64 == And(b, CONTINUATION_BYTE_VALUE_BIT_MASK)
    ensures b == EncodedByte(v, length, i)
  {
    ContinuationByteValue(b);
    EncodedContinuationByte(v, length, i);
  }

  /** Digit `i` of the value an accepted array encodes holds the value bits of byte `i`. */
  lemma {:induction false} AcceptedDigit(bytes: seq<byte>, v: int, i: int)
    requires 1 <= i < |bytes| <= 6
    requires v == FieldsValue(bytes, |bytes|, |bytes|)
    ensures ShiftRight(v, |bytes| - i - 1) % 64 == And(bytes[i], CONTINUATION_BYTE_VALUE_BIT_MASK)
  {
    var length := |bytes|;
    DigitsShift(bytes, length, length, length - 1 - i);
    LastDigit(bytes, length, i + 1);
  }

  /** Canonicality: an array `utf8ToInt` accepts is the encoding `intToUtf8` gives its value. */
  lemma {:induction false} DecodedIsEncoded(bytes: seq<byte>)
    requires Decoded(bytes).Ok?
    ensures 0 <= Decoded(bytes).value <= MAX_INT
    ensures bytes == Encoded(Decoded(bytes).value)
  {
    var v := Decoded(bytes).value;
    DecodedDigits(bytes);
    var encoded := Encoded(v);
    assert |encoded| == |bytes|;
    forall i | 0 <= i < |bytes|
      ensures bytes[i] == encoded[i]
    {
      if i == 0 {
        DigitsShift(bytes, |bytes|, |bytes|, |bytes| - 1);
        DecodedFirstByte(bytes[0], v, |bytes|);
      } else {
        AcceptedDigit(bytes, v, i);
        DecodedContinuationByte(bytes[i], v, |bytes|, i);
      }
    }
  }

  /** `utf8ToInt` accepts exactly the canonical encodings, each with the value it encodes. */
  lemma {:induction false} DecodedIffEncoded(bytes: seq<byte>, v: int)
    ensures Decoded(bytes) == Ok(v) <==> 0 <= v <= MAX_INT && bytes == Encoded(v)
  {
    if Decoded(bytes) == Ok(v) {
      DecodedIsEncoded(bytes);
    }
    if 0 <= v <= MAX_INT && bytes == Encoded(v) {
      RoundTrip(v);
    }
  }
}
