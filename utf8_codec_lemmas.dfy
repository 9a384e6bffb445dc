/**
 * Properties of the integer codec: encoded lengths by magnitude, the shape of an encoding, the
 * leading-byte ranges, the round trip `utf8ToInt(intToUtf8(n)) == n`, canonicality (an array
 * `utf8ToInt` accepts is the encoding of its value, so each value has exactly one accepted form)
 * and the vectors of `UTF8CodecTest.java`.
 */
module Utf8CodecLemmas {
  import opened Wrappers
  import opened JavaTypes
  import opened Bits
  import opened Utf8Codec

  /*
   * Lengths
   */

  lemma {:induction false} PayloadCapacities()
    ensures Pow2(PayloadBits(1)) == 0x80 && Pow2(PayloadBits(2)) == 0x800
    ensures Pow2(PayloadBits(3)) == 0x1_0000 && Pow2(PayloadBits(4)) == 0x20_0000
    ensures Pow2(PayloadBits(5)) == 0x400_0000 && Pow2(PayloadBits(6)) == 0x8000_0000
  {
  }

  /** The capacity of `length` bytes, one length at a time. */
  lemma {:induction false} PayloadCapacity(length: int)
    requires 1 <= length <= 6
    ensures Pow2(PayloadBits(length)) ==
      if length == 1 then 0x80 else if length == 2 then 0x800 else if length == 3 then 0x1_0000
      else if length == 4 then 0x20_0000 else if length == 5 then 0x400_0000 else 0x8000_0000
  {
    PayloadCapacities();
    if length == 1 {
      assert PayloadBits(length) == PayloadBits(1);
    } else if length == 2 {
      assert PayloadBits(length) == PayloadBits(2);
    } else if length == 3 {
      assert PayloadBits(length) == PayloadBits(3);
    } else if length == 4 {
      assert PayloadBits(length) == PayloadBits(4);
    } else if length == 5 {
      assert PayloadBits(length) == PayloadBits(5);
    } else {
      assert PayloadBits(length) == PayloadBits(6);
    }
  }

  /** The canonical length is the least number of bytes whose value bits can hold `arg`. */
  lemma {:induction false} EncodedLengthIsMinimal(arg: int)
    requires 0 <= arg <= MAX_INT
    ensures arg < Pow2(PayloadBits(Utf8EncodedLength(arg)))
    ensures forall length :: 1 <= length < Utf8EncodedLength(arg) ==> Pow2(PayloadBits(length)) <= arg
  {
    PayloadCapacity(Utf8EncodedLength(arg));
    forall length | 1 <= length < Utf8EncodedLength(arg)
      ensures Pow2(PayloadBits(length)) <= arg
    {
      PayloadCapacity(length);
    }
  }

  /** A value below the capacity of `length` bytes has a canonical length of at most `length`. */
  lemma {:induction false} EncodedLengthAtMost(arg: int, length: int)
    requires 1 <= length <= 6 && 0 <= arg < Pow2(PayloadBits(length))
    ensures arg <= MAX_INT && Utf8EncodedLength(arg) <= length
  {
    PayloadCapacity(length);
  }

  /*
   * The tables
   */

  /** The number of value bits in a leading byte of each length: the `x`s of its template. */
  function InitialValueBits(length: int): nat
    requires 1 <= length <= 6
  {
    if length == 1 then 7 else 7 - length
  }

  /**
   * The value mask of a leading byte is its low `InitialValueBits` bits, the template mask is the
   * rest of the byte, and the template has none of the value bits set.
   */
  lemma {:induction false} TableShapes(length: int)
    requires 1 <= length <= 6
    ensures var p := Pow2(InitialValueBits(length));
      INITIAL_BYTE_VALUE_BIT_MASK[length] == p - 1 &&
      INITIAL_BYTE_TEMPLATE_BIT_MASK[length] == Pow2(8) - p &&
      INITIAL_BYTE_TEMPLATE[length] % p == 0 &&
      INITIAL_BYTE_TEMPLATE[length] + p <= 256 &&
      256 % p == 0
  {
    assert Pow2(8) == 256;
  }

  /** The capacity of `length` bytes: the leading byte's bits shifted past the continuation bytes. */
  lemma {:induction false} Capacity(length: int)
    requires 1 <= length <= 6
    ensures ShiftLeft(Pow2(InitialValueBits(length)), length - 1) == Pow2(PayloadBits(length))
  {
    PayloadCapacities();
  }

  /*
   * Single bytes
   */

  /** Rounding down to a multiple of `p` gives `t` exactly when `t <= b < t + p`. */
  lemma {:induction false} RoundDown(b: nat, p: nat, t: nat)
    requires p >= 1 && t % p == 0
    ensures b - b % p == t <==> t <= b < t + p
  {
    if t <= b < t + p {
      var q := t / p;
      DivModUnique(t, p, q, 0);
      DivModUnique(b, p, q, b - t);
    }
  }

  /** `(b & mask) == template` for a leading-byte template is a range of byte values. */
  lemma {:induction false} TemplateRange(b: byte, length: int)
    requires 1 <= length <= 6
    ensures MatchesTemplate(b, length) <==>
            INITIAL_BYTE_TEMPLATE[length] <= b < INITIAL_BYTE_TEMPLATE[length] + Pow2(InitialValueBits(length))
  {
    var k := InitialValueBits(length);
    TableShapes(length);
    assert Pow2(8) == 256;
    AndHighMask(b, 8, k);
    RoundDown(b, Pow2(k), INITIAL_BYTE_TEMPLATE[length]);
  }

  /** Continuation bytes 10xxxxxx are exactly the bytes 0x80 to 0xbf. */
  lemma {:induction false} ContinuationRange(b: byte)
    ensures IsContinuationByte(b) <==> 0x80 <= b < 0xc0
  {
    assert Pow2(8) == 256 && Pow2(6) == 64;
    AndHighMask(b, 8, 6);
    RoundDown(b, 64, 0x80);
  }

  /** The value bits of a leading byte are the byte modulo 2^`InitialValueBits`. */
  lemma {:induction false} InitialBits(b: byte, length: int)
    requires 1 <= length <= 6
    ensures And(b, INITIAL_BYTE_VALUE_BIT_MASK[length]) == b % Pow2(InitialValueBits(length))
  {
    TableShapes(length);
    AndLowMask(b, InitialValueBits(length));
  }

  /** The value bits of a continuation byte are the byte modulo 64. */
  lemma {:induction false} ContinuationBits(b: byte)
    ensures And(b, CONTINUATION_BYTE_VALUE_BIT_MASK) == b % 64
  {
    assert Pow2(6) == 64;
    AndLowMask(b, 6);
  }

  /** `t + x` leaves remainder `x` modulo `p` when `t` is a multiple of `p` and `x < p`. */
  lemma {:induction false} MultiplePlusRemainder(t: int, x: int, p: int)
    requires p >= 1 && t % p == 0 && 0 <= x < p
    ensures (t + x) % p == x
  {
    DivModUnique(t, p, t / p, 0);
    DivModUnique(t + x, p, t / p, x);
  }

  /** A leading byte matching the template of `length` is that template plus its value bits. */
  lemma {:induction false} LeadingByteValue(b: byte, length: int)
    requires 1 <= length <= 6 && MatchesTemplate(b, length)
    ensures INITIAL_BYTE_TEMPLATE[length] <= b < INITIAL_BYTE_TEMPLATE[length] + Pow2(InitialValueBits(length))
    ensures And(b, INITIAL_BYTE_VALUE_BIT_MASK[length]) == b - INITIAL_BYTE_TEMPLATE[length]
  {
    var t := INITIAL_BYTE_TEMPLATE[length];
    TemplateRange(b, length);
    TableShapes(length);
    InitialBits(b, length);
    MultiplePlusRemainder(t, b - t, Pow2(InitialValueBits(length)));
  }

  /** The template of `length` plus value bits `x` is a leading byte whose value bits are `x`. */
  lemma {:induction false} LeadingByteOf(x: int, length: int)
    requires 1 <= length <= 6 && 0 <= x < Pow2(InitialValueBits(length))
    ensures 0 <= INITIAL_BYTE_TEMPLATE[length] + x < 256
    ensures MatchesTemplate(INITIAL_BYTE_TEMPLATE[length] + x, length)
    ensures And(INITIAL_BYTE_TEMPLATE[length] + x, INITIAL_BYTE_VALUE_BIT_MASK[length]) == x
  {
    var t := INITIAL_BYTE_TEMPLATE[length];
    TableShapes(length);
    TemplateRange(t + x, length);
    InitialBits(t + x, length);
    MultiplePlusRemainder(t, x, Pow2(InitialValueBits(length)));
  }

  /** A continuation byte is 0x80 plus its six value bits. */
  lemma {:induction false} ContinuationByteValue(b: byte)
    requires IsContinuationByte(b)
    ensures 0x80 <= b < 0xc0
    ensures And(b, CONTINUATION_BYTE_VALUE_BIT_MASK) == b - 0x80
  {
    ContinuationRange(b);
    ContinuationBits(b);
    MultiplePlusRemainder(0x80, b - 0x80, 64);
  }

  /** 0x80 plus six value bits `x` is a continuation byte whose value bits are `x`. */
  lemma {:induction false} ContinuationByteOf(x: int)
    requires 0 <= x < 64
    ensures IsContinuationByte(0x80 + x)
    ensures And(0x80 + x, CONTINUATION_BYTE_VALUE_BIT_MASK) == x
  {
    ContinuationRange(0x80 + x);
    ContinuationBits(0x80 + x);
    MultiplePlusRemainder(0x80, x, 64);
  }

  /**
   * `lengthFromInitialByte` as ranges of byte values: 0xxxxxxx announces 1 byte, 110xxxxx 2, and
   * so on up to 1111110x for 6; 10xxxxxx, 0xfe and 0xff are refused.
   */
  lemma {:induction false} InitialByteLengthRanges(b: byte)
    ensures InitialByteLength(b) ==
      if b < 0x80 then Ok(1)
      else if b < 0xc0 then Err(InvalidLeadingByte(b))
      else if b < 0xe0 then Ok(2)
      else if b < 0xf0 then Ok(3)
      else if b < 0xf8 then Ok(4)
      else if b < 0xfc then Ok(5)
      else if b < 0xfe then Ok(6)
      else Err(InvalidLeadingByte(b))
  {
    TemplateRange(b, 1);
    TemplateRange(b, 2);
    TemplateRange(b, 3);
    TemplateRange(b, 4);
    TemplateRange(b, 5);
    TemplateRange(b, 6);
    InitialByteLengthIsSmallestMatch(b);
  }

  /*
   * Encoding
   */

  lemma {:induction false} ShiftRightOnce(x: int, chunks: nat)
    requires 0 <= x
    ensures 0 <= ShiftRight(x, chunks)
    ensures ShiftRight(x, chunks + 1) == ShiftRight(x, chunks) / 64
    decreases chunks
  {
    if chunks > 0 {
      ShiftRightOnce(x / 64, chunks - 1);
    }
  }

  /** Shifting right by `chunks` undoes a bound established by shifting left. */
  lemma {:induction false} ShiftRightBelow(x: int, chunks: nat, c: int)
    requires 0 <= x < ShiftLeft(c, chunks)
    ensures ShiftRight(x, chunks) < c
    decreases chunks
  {
    if chunks > 0 {
      ShiftRightBelow(x / 64, chunks - 1, c);
    }
  }

  /** `(x % 256) % p == x % p` when `p` divides 256. */
  lemma {:induction false} ModOfByte(x: nat, p: nat)
    requires p >= 1 && 256 % p == 0
    ensures x % 256 % p == x % p
  {
    var c := 256 / p;
    DivModUnique(256, p, c, 0);
    var q := x / 256;
    assert x == q * 256 + x % 256;
    DivModUnique(x % 256, p, (x % 256) / p, x % 256 % p);
    assert x == (q * c + (x % 256) / p) * p + x % 256 % p;
    DivModUnique(x, p, q * c + (x % 256) / p, x % 256 % p);
  }

  /** The leading byte of an encoding: the template plus the top digit, when that digit fits. */
  lemma {:induction false} EncodedInitialByte(arg: nat, length: int)
    requires 1 <= length <= 6
    requires ShiftRight(arg, length - 1) < Pow2(InitialValueBits(length))
    ensures EncodedByte(arg, length, 0) == INITIAL_BYTE_TEMPLATE[length] + ShiftRight(arg, length - 1)
  {
    ShiftRightOnce(arg, length - 1);
    SmallValueBits(ShiftRight(arg, length - 1), length);
  }

  /** A value that fits in the value bits of a leading byte survives the cast and the mask. */
  lemma {:induction false} SmallValueBits(x: nat, length: int)
    requires 1 <= length <= 6 && x < Pow2(InitialValueBits(length))
    ensures And(x % 256, INITIAL_BYTE_VALUE_BIT_MASK[length]) == x
  {
    var p := Pow2(InitialValueBits(length));
    TableShapes(length);
    InitialBits(x % 256, length);
    ModOfByte(x, p);
    MultiplePlusRemainder(0, x, p);
  }

  /** Continuation byte `i` of an encoding: 0x80 plus the low six bits of the shifted value. */
  lemma {:induction false} EncodedContinuationByte(arg: nat, length: int, i: int)
    requires 1 <= length <= 6 && 0 < i < length
    ensures ShiftRight(arg, length - i - 1) >= 0
    ensures EncodedByte(arg, length, i) == CONTINUATION_BYTE_TEMPLATE + ShiftRight(arg, length - i - 1) % 64
  {
    ShiftRightOnce(arg, length - i - 1);
    var x := ShiftRight(arg, length - i - 1);
    ContinuationBits(x % 256);
    ModOfByte(x, 64);
  }

  /** The top digit of `n` fits in the value bits of the leading byte of its encoding. */
  lemma {:induction false} TopDigitBelow(n: int)
    requires 0 <= n <= MAX_INT
    ensures var length := Utf8EncodedLength(n);
      0 <= ShiftRight(n, length - 1) < Pow2(InitialValueBits(length))
  {
    var length := Utf8EncodedLength(n);
    EncodedLengthIsMinimal(n);
    Capacity(length);
    ShiftRightOnce(n, length - 1);
    ShiftRightBelow(n, length - 1, Pow2(InitialValueBits(length)));
  }

  /** A leading byte in the range of the template of `length` announces `length`. */
  lemma {:induction false} LeadingByteAnnounces(b: byte, length: int)
    requires 1 <= length <= 6
    requires INITIAL_BYTE_TEMPLATE[length] <= b < INITIAL_BYTE_TEMPLATE[length] + Pow2(InitialValueBits(length))
    ensures InitialByteLength(b) == Ok(length)
  {
    TableShapes(length);
    InitialByteLengthRanges(b);
  }

  /**
   * `intToUtf8`'s output has the form of the table: a leading byte that matches the template of
   * its length and no shorter one, and continuation bytes 10xxxxxx.
   */
  lemma {:induction false} EncodedShape(arg: int)
    requires 0 <= arg <= MAX_INT
    ensures var bytes := Encoded(arg);
      InitialByteLength(bytes[0]) == Ok(|bytes|) &&
      forall i :: 1 <= i < |bytes| ==> IsContinuationByte(bytes[i])
  {
    var bytes := Encoded(arg);
    var length := |bytes|;
    TopDigitBelow(arg);
    EncodedInitialByte(arg, length);
    LeadingByteAnnounces(bytes[0], length);
    forall i | 1 <= i < length
      ensures IsContinuationByte(bytes[i])
    {
      EncodedContinuationByte(arg, length, i);
      ContinuationByteOf(ShiftRight(arg, length - i - 1) % 64);
    }
  }
}
