/**
 * `BSAXUtil.java`: integers and strings on Binary SAX streams. An integer is its canonical
 * extended UTF-8 encoding (`Utf8Codec`); a string is its byte count followed by its bytes.
 *
 * Each operation is a pure function of the bytes not yet read (or written so far), and a method
 * over the `Streams` classes proved to compute it. Java strings are byte payloads here: the UTF-8
 * conversion of `String.getBytes` and `new String(bytes, "UTF-8")` is not part of this model.
 */
module BSAXUtil {
  import opened Wrappers
  import opened JavaTypes
  import opened Bits
  import opened Utf8Codec
  import opened Utf8CodecLemmas
  import opened Utf8CodecRoundTrip
  import opened Streams

  /** The `SAXException`s of reading and writing, and the codec errors they wrap. */
  datatype StreamError =
    | UnexpectedEof
    | IllegalFirstByte(b: byte)
    | EofInSequence
    | EofInString
    | Codec(e: CodecError)

  /** `rest` is what remains of `input` after reading some of it. */
  predicate IsSuffix(rest: seq<byte>, input: seq<byte>)
  {
    |rest| <= |input| && rest == input[|input| - |rest|..]
  }

  /*
   * Writing
   */

  /** The bytes `writeInt` appends for `arg`, or the error `intToUtf8` throws for it. */
  function WrittenInt(arg: int32): (r: Result<seq<byte>, StreamError>)
  {
    if arg < 0 then Err(Codec(NegativeValue(arg))) else Ok(Encoded(arg))
  }

  /** The bytes `writeString` appends for a payload: its byte count, then the payload. */
  function WrittenString(payload: Bytes): seq<byte>
  {
    Encoded(|payload|) + payload
  }

  /**
   * The encoding of a value below 0x80, which is a single byte holding the value (`EncodedSmall`).
   * Opcodes and the header's numbers are written this way.
   */
  function SmallInt(n: int): seq<byte>
    requires 0 <= n < 0x80
  {
    [n]
  }

  /** `writeInt`: appends the encoding of `arg`; a negative `arg` is refused and nothing is written. */
  method WriteInt(stream: OutputStream, arg: int32) returns (r: Result<(), StreamError>)
    modifies stream
    ensures match WrittenInt(arg)
      case Ok(bytes) => r.Ok? && stream.written == old(stream.written) + bytes
      case Err(e) => r == Err(e) && stream.written == old(stream.written)
  {
    var bytes := IntToUtf8(arg);
    if bytes.Err? {
      return Err(Codec(bytes.error));
    }
    stream.Write(bytes.value);
    return Ok(());
  }

  /** `writeString`: the byte count, then the bytes. */
  method WriteString(stream: OutputStream, payload: Bytes)
    modifies stream
    ensures stream.written == old(stream.written) + WrittenString(payload)
  {
    var r := WriteInt(stream, |payload|);
    stream.Write(payload);
  }

  /*
   * Reading
   */

  /**
   * The test chain of `readInt` on a leading byte whose high bit is set: the number of
   * continuation bytes that follow it, or the error for a byte that cannot lead a sequence.
   */
  function ContinuationCount(b: byte): (r: Result<int, StreamError>)
  {
    if And(b, 0xe0) == 0xc0 then Ok(1)
    else if And(b, 0xf0) == 0xe0 then Ok(2)
    else if And(b, 0xf8) == 0xf0 then Ok(3)
    else if And(b, 0xfc) == 0xf8 then Ok(4)
    else if And(b, 0xfe) == 0xfc then Ok(5)
    else Err(IllegalFirstByte(b))
  }

  /**
   * `readInt(stream, allowEof)` on the bytes not yet read: the value and the bytes left after it.
   * At end of input it yields -1 if `allowEof`, else it fails; a byte below 0x80 is its own value;
   * otherwise the leading byte says how many more bytes to collect, and the collected bytes must
   * decode (`Decoded`). `readInt(stream)` is `ReadInt(input, false)`.
   */
  function ReadInt(input: seq<byte>, allowEof: bool): (r: Result<(int, seq<byte>), StreamError>)
    ensures r.Ok? ==> IsSuffix(r.value.1, input)
    ensures r.Ok? && r.value.0 >= 0 ==> |r.value.1| < |input|
  {
    if input == [] then
      if allowEof then Ok((-1, input)) else Err(UnexpectedEof)
    else
      var temp := input[0];
      if And(temp, 0x80) == 0 then Ok((temp, input[1..]))
      else
        var byteCount :- ContinuationCount(temp);
        if |input| - 1 < byteCount then Err(EofInSequence)
        else
          match Decoded(input[..byteCount + 1])
          case Ok(value) => Ok((value, input[byteCount + 1..]))
          case Err(e) => Err(Codec(e))
  }

  /**
   * `readString` on the bytes not yet read: a byte count, then that many bytes. A count of zero
   * is the empty string. The source also refuses a negative count, which `ReadInt` without end of
   * file never yields (`ReadIntReadsEncodings`), so that test is not repeated here.
   */
  function ReadString(input: seq<byte>): (r: Result<(seq<byte>, seq<byte>), StreamError>)
    ensures r.Ok? ==> IsSuffix(r.value.1, input) && |r.value.1| < |input|
  {
    var (length, rest) :- ReadInt(input, false);
    if length == 0 then Ok(([], rest))
    else if |rest| < length then Err(EofInString)
    else Ok((rest[..length], rest[length..]))
  }

  /** `readInt(stream, allowEof)`, proved to compute `ReadInt`. */
  method ReadIntFrom(stream: InputStream, allowEof: bool) returns (r: Result<int, StreamError>)
    requires stream.Valid()
    modifies stream
    ensures stream.Valid() && stream.data == old(stream.data)
    ensures match ReadInt(old(stream.Remaining()), allowEof)
      case Ok((value, rest)) => r == Ok(value) && stream.Remaining() == rest
      case Err(e) => r == Err(e)
  {
    ghost var input := stream.Remaining();
    var temp := stream.Read();
    if temp == -1 {
      if allowEof {
        return Ok(-1);
      } else {
        return Err(UnexpectedEof);
      }
    }
    assert input == [temp] + stream.Remaining();
    var byteCount;
    if And(temp, 0x80) == 0 {
      return Ok(temp);
    } else if And(temp, 0xe0) == 0xc0 {
      byteCount := 1;
    } else if And(temp, 0xf0) == 0xe0 {
      byteCount := 2;
    } else if And(temp, 0xf8) == 0xf0 {
      byteCount := 3;
    } else if And(temp, 0xfc) == 0xf8 {
      byteCount := 4;
    } else if And(temp, 0xfe) == 0xfc {
      byteCount := 5;
    } else {
      return Err(IllegalFirstByte(temp));
    }
    r := ReadSequence(stream, temp, byteCount, allowEof);
  }

  /** The end of `readInt`: collects the continuation bytes a leading byte announced and decodes. */
  method ReadSequence(stream: InputStream, temp: byte, byteCount: int, ghost allowEof: bool)
    returns (r: Result<int, StreamError>)
    requires stream.Valid()
    requires And(temp, 0x80) != 0 && ContinuationCount(temp) == Ok(byteCount)
    modifies stream
    ensures stream.Valid() && stream.data == old(stream.data)
    ensures match ReadInt([temp] + old(stream.Remaining()), allowEof)
      case Ok((value, rest)) => r == Ok(value) && stream.Remaining() == rest
      case Err(e) => r == Err(e)
  {
    ghost var input := [temp] + stream.Remaining();
    var continuation := stream.ReadBytes(byteCount);
    if |continuation| != byteCount {
      assert ReadInt(input, allowEof) == Err(EofInSequence);
      return Err(EofInSequence);
    }
    assert [temp] + continuation == input[..byteCount + 1];
    assert stream.Remaining() == input[byteCount + 1..];
    var value := Utf8ToInt([temp] + continuation);
    if value.Err? {
      assert ReadInt(input, allowEof) == Err(Codec(value.error));
      return Err(Codec(value.error));
    }
    assert ReadInt(input, allowEof) == Ok((value.value, stream.Remaining()));
    return Ok(value.value);
  }

  /** `readString(stream)`, proved to compute `ReadString`. */
  method ReadStringFrom(stream: InputStream) returns (r: Result<seq<byte>, StreamError>)
    requires stream.Valid()
    modifies stream
    ensures stream.Valid() && stream.data == old(stream.data)
    ensures match ReadString(old(stream.Remaining()))
      case Ok((payload, rest)) => r == Ok(payload) && stream.Remaining() == rest
      case Err(e) => r == Err(e)
  {
    var length := ReadIntFrom(stream, false);
    if length.Err? {
      return Err(length.error);
    }
    if length.value == 0 {
      return Ok([]);
    }
    var payload := stream.ReadBytes(length.value);
    if |payload| != length.value {
      return Err(EofInString);
    }
    return Ok(payload);
  }

  /*
   * Properties
   */

  /** The canonical encoding of a value below 0x80 is that value as a single byte. */
  lemma {:induction false} EncodedSmall(n: int)
    requires 0 <= n < 0x80
    ensures Encoded(n) == [n]
  {
    TopDigitBelow(n);
    EncodedInitialByte(n, 1);
  }

  /**
   * The test chain of `readInt` asks exactly the template questions of `lengthFromInitialByte`:
   * a clear high bit is a one-byte sequence, and otherwise the number of continuation bytes is
   * one less than the announced length, with the same bytes refused.
   */
  lemma {:induction false} ContinuationCountAgrees(b: byte)
    ensures And(b, 0x80) == 0 <==> InitialByteLength(b) == Ok(1)
    ensures And(b, 0x80) != 0 ==>
      ContinuationCount(b) ==
        if InitialByteLength(b).Ok? then Ok(InitialByteLength(b).value - 1) else Err(IllegalFirstByte(b))
  {
    InitialByteLengthIsSmallestMatch(b);
  }

  /**
   * What `readInt` does with the leading byte, by value: below 0x80 it is the value and only it
   * is consumed; 10xxxxxx, 0xfe and 0xff are refused; any other leading byte needs the rest of
   * its sequence, and end of input before that is an error.
   */
  lemma {:induction false} ReadIntLeadingByte(input: seq<byte>, allowEof: bool)
    requires input != []
    ensures input[0] < 0x80 ==> ReadInt(input, allowEof) == Ok((input[0], input[1..]))
    ensures (0x80 <= input[0] < 0xc0 || 0xfe <= input[0]) ==>
      ReadInt(input, allowEof) == Err(IllegalFirstByte(input[0]))
    ensures 0xc0 <= input[0] < 0xfe ==>
      (InitialByteLength(input[0]).Ok? &&
       (|input| < InitialByteLength(input[0]).value ==> ReadInt(input, allowEof) == Err(EofInSequence)))
  {
    InitialByteLengthRanges(input[0]);
    ContinuationCountAgrees(input[0]);
  }

  /** At end of input `readInt` yields -1 when end of file is allowed, and fails otherwise. */
  lemma {:induction false} ReadIntAtEnd(allowEof: bool)
    ensures ReadInt([], true) == Ok((-1, []))
    ensures ReadInt([], false) == Err(UnexpectedEof)
  {
  }

  /** Reading what `writeInt` wrote yields the value and stops right after it. */
  lemma {:induction false} ReadIntAfterWriteInt(n: int, rest: seq<byte>, allowEof: bool)
    requires 0 <= n <= MAX_INT
    ensures ReadInt(Encoded(n) + rest, allowEof) == Ok((n, rest))
  {
    var encoding := Encoded(n);
    var input := encoding + rest;
    var length := |encoding|;
    EncodedShape(n);
    ContinuationCountAgrees(input[0]);
    if length == 1 {
      EncodedSmall(n);
      assert input[1..] == rest;
    } else {
      assert input[..length] == encoding;
      assert input[length..] == rest;
      RoundTrip(n);
    }
  }

  /**
   * `readInt` accepts exactly the canonical encodings: it reads `value` and leaves `rest` if and
   * only if the input is the encoding of `value` followed by `rest`, or `value` is the -1 of an
   * allowed end of input. In particular it never yields a negative number otherwise.
   */
  lemma {:induction false} ReadIntReadsEncodings(input: seq<byte>, allowEof: bool, value: int, rest: seq<byte>)
    ensures ReadInt(input, allowEof) == Ok((value, rest)) <==>
      (allowEof && input == [] && value == -1 && rest == []) ||
      (0 <= value <= MAX_INT && input == Encoded(value) + rest)
  {
    if 0 <= value <= MAX_INT && input == Encoded(value) + rest {
      ReadIntAfterWriteInt(value, rest, allowEof);
    }
    if ReadInt(input, allowEof) == Ok((value, rest)) && input != [] {
      ReadIntIsEncoding(input, allowEof);
    }
  }

  /** What `readInt` accepts from a non-empty input is the encoding of the value it yields. */
  lemma {:induction false} ReadIntIsEncoding(input: seq<byte>, allowEof: bool)
    requires input != [] && ReadInt(input, allowEof).Ok?
    ensures var (value, rest) := ReadInt(input, allowEof).value;
      0 <= value <= MAX_INT && input == Encoded(value) + rest
  {
    if And(input[0], 0x80) == 0 {
      SingleByteIsEncoding(input, allowEof);
    } else {
      var (value, rest) := ReadInt(input, allowEof).value;
      var length := SequenceRead(input, allowEof, value, rest);
      SequenceIsEncoding(input, length, value, rest);
    }
  }

  lemma {:induction false} SingleByteIsEncoding(input: seq<byte>, allowEof: bool)
    requires input != [] && And(input[0], 0x80) == 0
    ensures ReadInt(input, allowEof) == Ok((input[0], input[1..]))
    ensures 0 <= input[0] <= MAX_INT && input == Encoded(input[0]) + input[1..]
  {
    ContinuationCountAgrees(input[0]);
    InitialByteLengthRanges(input[0]);
    EncodedSmall(input[0]);
    assert input == [input[0]] + input[1..];
  }

  /** A successful multi-byte read decodes the sequence its leading byte announces. */
  lemma {:induction false} SequenceRead(input: seq<byte>, allowEof: bool, value: int, rest: seq<byte>) returns (length: int)
    requires input != [] && And(input[0], 0x80) != 0 && ReadInt(input, allowEof) == Ok((value, rest))
    ensures 2 <= length <= |input|
    ensures Decoded(input[..length]) == Ok(value) && rest == input[length..]
  {
    length := ContinuationCount(input[0]).value + 1;
  }

  /** A sequence that decodes is the encoding of its value. */
  lemma {:induction false} SequenceIsEncoding(input: seq<byte>, length: int, value: int, rest: seq<byte>)
    requires 0 <= length <= |input|
    requires Decoded(input[..length]) == Ok(value) && rest == input[length..]
    ensures 0 <= value <= MAX_INT && input == Encoded(value) + rest
  {
    DecodedIffEncoded(input[..length], value);
    assert input == input[..length] + input[length..];
  }

  /** Reading what `writeString` wrote yields the payload and stops right after it. */
  lemma {:induction false} ReadStringAfterWriteString(payload: Bytes, rest: seq<byte>)
    ensures ReadString(WrittenString(payload) + rest) == Ok((payload, rest))
  {
    var input := WrittenString(payload) + rest;
    assert input == Encoded(|payload|) + (payload + rest);
    ReadIntAfterWriteInt(|payload|, payload + rest, false);
    assert (payload + rest)[..|payload|] == payload;
    assert (payload + rest)[|payload|..] == rest;
  }

  /**
   * `readString` accepts exactly what `writeString` writes: it reads `payload` and leaves `rest`
   * if and only if the input is the written form of `payload` followed by `rest`. A zero count
   * is the empty payload and consumes only the count.
   */
  lemma {:induction false} ReadStringReadsWrittenStrings(input: seq<byte>, payload: seq<byte>, rest: seq<byte>)
    ensures ReadString(input) == Ok((payload, rest)) <==>
      |payload| <= MAX_INT && input == Encoded(|payload|) + payload + rest
  {
    if |payload| <= MAX_INT && input == Encoded(|payload|) + payload + rest {
      ReadStringAfterWriteString(payload, rest);
    }
    if ReadString(input) == Ok((payload, rest)) {
      var afterLength := ReadStringParts(input);
      ReadIntReadsEncodings(input, false, |payload|, afterLength);
    }
  }

  /** A successful `readString` reads a count and then splits what follows it at that count. */
  lemma {:induction false} ReadStringParts(input: seq<byte>) returns (afterLength: seq<byte>)
    requires ReadString(input).Ok?
    ensures var (payload, rest) := ReadString(input).value;
      ReadInt(input, false) == Ok((|payload|, afterLength)) && afterLength == payload + rest
  {
    var (length, after) := ReadInt(input, false).value;
    afterLength := after;
    if length != 0 {
      assert after == after[..length] + after[length..];
    }
  }

  /** A declared byte count larger than what remains is an end-of-file error. */
  lemma {:induction false} ReadStringTruncated(length: int, available: seq<byte>)
    requires 0 < length <= MAX_INT && |available| < length
    ensures ReadString(Encoded(length) + available) == Err(EofInString)
  {
    ReadIntAfterWriteInt(length, available, false);
  }
}
