/**
 * What both readers share: the errors they raise, the reading of operands with those errors, and
 * the stream header (magic bytes, version, declared string table size) that `BSAXReader.parse`
 * and `AbstractBSAXReader.parse` check in the same way before the first opcode.
 */
module BSAXHeader {
  import opened Wrappers
  import opened JavaTypes
  import opened BSAXConstants
  import opened Utf8Codec
  import opened BSAXUtil
  import opened Streams

  /** The `SAXException`s the readers throw, and the null dereference of a null whitespace string. */
  datatype ReadError =
    | Stream(cause: StreamError)
    | ShortMagic
    | BadMagic
    | UnknownVersion(version: int)
    | BadTableSize(size: int)
    | ReservedEntry(id: int)
    | BeyondFixedTable(id: int)
    | BeyondTableEnd(id: int)
    | BeyondFixedReference(id: int)
    | BeyondCurrentReference(id: int)
    | IllegalAttributeOpcode(op: int)
    | AttributeOutsideElement
    | UnrecognizedOpcode(op: int)
    | NullWhitespace

  /*
   * Operands
   */

  /**
   * `readInt(stream)` on the bytes not yet read: an operand, which is never negative and always
   * consumes at least one byte.
   */
  function Operand(input: seq<byte>): (r: Result<(int, seq<byte>), ReadError>)
    ensures r.Ok? ==> 0 <= r.value.0 <= MAX_INT && IsSuffix(r.value.1, input) && |r.value.1| < |input|
    ensures r.Err? ==> r.error.Stream?
  {
    match ReadInt(input, false)
    case Err(e) => Err(Stream(e))
    case Ok((value, rest)) =>
      ReadIntIsEncoding(input, false);
      Ok((value, rest))
  }

  /**
   * `readInt(stream, true)` at an opcode boundary: -1 exactly when the input is exhausted,
   * otherwise an operand as above.
   */
  function Opcode(input: seq<byte>): (r: Result<(int, seq<byte>), ReadError>)
    ensures input == [] <==> r == Ok((-1, input))
    ensures input != [] ==> r == Operand(input)
  {
    if input == [] then Ok((-1, input)) else Operand(input)
  }

  /** `readString(stream)`: a length-prefixed payload, which fits a Java array. */
  function Payload(input: seq<byte>): (r: Result<(Bytes, seq<byte>), ReadError>)
    ensures r.Ok? ==> IsSuffix(r.value.1, input) && |r.value.1| < |input|
    ensures r.Err? ==> r.error.Stream?
  {
    match ReadString(input)
    case Err(e) => Err(Stream(e))
    case Ok((payload, rest)) =>
      ReadStringReadsWrittenStrings(input, payload, rest);
      Ok((payload, rest))
  }

  /** An operand is read exactly from its encoding; an opcode too, which is never -1 then. */
  lemma {:induction false} OperandReadsEncodings(input: seq<byte>, value: int, rest: seq<byte>)
    ensures Operand(input) == Ok((value, rest)) <==> 0 <= value <= MAX_INT && input == Encoded(value) + rest
    ensures 0 <= value <= MAX_INT && input == Encoded(value) + rest ==> Opcode(input) == Ok((value, rest))
  {
    ReadIntReadsEncodings(input, false, value, rest);
    if 0 <= value <= MAX_INT && input == Encoded(value) + rest {
      ReadIntAfterWriteInt(value, rest, false);
    }
  }

  /** A payload is read exactly from its written form. */
  lemma {:induction false} PayloadReadsWrittenStrings(input: seq<byte>, payload: Bytes, rest: seq<byte>)
    ensures Payload(input) == Ok((payload, rest)) <==> input == WrittenString(payload) + rest
  {
    ReadStringReadsWrittenStrings(input, payload, rest);
  }

  /** Reads an operand from `stream` (`Operand`). */
  method ReadOperand(stream: InputStream) returns (r: Result<int, ReadError>)
    requires stream.Valid()
    modifies stream
    ensures stream.Valid() && stream.data == old(stream.data)
    ensures Operand(old(stream.Remaining())) ==
      if r.Ok? then Ok((r.value, stream.Remaining())) else Err(r.error)
  {
    var value := ReadIntFrom(stream, false);
    if value.Err? {
      return Err(Stream(value.error));
    }
    return Ok(value.value);
  }

  /** Reads an opcode or the end of input from `stream` (`Opcode`). */
  method ReadOpcode(stream: InputStream) returns (r: Result<int, ReadError>)
    requires stream.Valid()
    modifies stream
    ensures stream.Valid() && stream.data == old(stream.data)
    ensures Opcode(old(stream.Remaining())) ==
      if r.Ok? then Ok((r.value, stream.Remaining())) else Err(r.error)
  {
    ReadIntAtEnd(true);
    var value := ReadIntFrom(stream, true);
    if value.Err? {
      return Err(Stream(value.error));
    }
    return Ok(value.value);
  }

  /** Reads a length-prefixed payload from `stream` (`Payload`). */
  method ReadPayload(stream: InputStream) returns (r: Result<Bytes, ReadError>)
    requires stream.Valid()
    modifies stream
    ensures stream.Valid() && stream.data == old(stream.data)
    ensures Payload(old(stream.Remaining())) ==
      if r.Ok? then Ok((r.value, stream.Remaining())) else Err(r.error)
  {
    ghost var input := stream.Remaining();
    var payload := ReadStringFrom(stream);
    if payload.Err? {
      return Err(Stream(payload.error));
    }
    ghost var expected := Payload(input).value.0;
    assert payload.value == expected;
    return Ok(payload.value);
  }

  /*
   * The header
   */

  /**
   * The magic check with the evidently intended comparison: at least four bytes must be left,
   * and they must be the magic bytes.
   */
  function MagicChecked(input: seq<byte>): (r: Result<seq<byte>, ReadError>)
    ensures r.Ok? <==> |input| >= |MAGIC| && input[..|MAGIC|] == MAGIC
    ensures r.Ok? ==> r.value == input[|MAGIC|..]
  {
    if |input| < |MAGIC| then Err(ShortMagic)
    else if input[..|MAGIC|] != MAGIC then Err(BadMagic)
    else Ok(input[|MAGIC|..])
  }

  /**
   * The header after the magic: the version, which must be `VERSION`, and the declared string
   * table size, which must be 0 (unlimited) or at least `MINIMUM_STRING_TABLE_SIZE`.
   */
  function VersionAndSize(input: seq<byte>): (r: Result<(int, seq<byte>), ReadError>)
  {
    var (version, afterVersion) :- Operand(input);
    if version != VERSION then Err(UnknownVersion(version))
    else
      var (size, rest) :- Operand(afterVersion);
      if 0 < size < MINIMUM_STRING_TABLE_SIZE then Err(BadTableSize(size))
      else Ok((size, rest))
  }

  /** The whole header: the declared string table size and the bytes after the header. */
  function Header(input: seq<byte>): (r: Result<(int, seq<byte>), ReadError>)
  {
    var afterMagic :- MagicChecked(input);
    VersionAndSize(afterMagic)
  }

  /** The loop of the magic check: the bytes read agree with the pattern, index by index. */
  method SameBytes(read: array<byte>, pattern: array<byte>) returns (same: bool)
    requires read.Length == pattern.Length
    ensures same <==> read[..] == pattern[..]
  {
    for i := 0 to read.Length
      invariant read[..i] == pattern[..i]
    {
      if read[i] != pattern[i] {
        return false;
      }
    }
    assert read[..] == read[..read.Length];
    assert pattern[..] == pattern[..pattern.Length];
    return true;
  }

  /**
   * The magic check as intended: the first bytes are read into a buffer of their own, and compared
   * with `magic`, the array holding the magic bytes, which is left as it is.
   */
  method CheckMagic(stream: InputStream, magic: array<byte>) returns (r: Result<(), ReadError>)
    requires stream.Valid() && magic[..] == MAGIC
    modifies stream
    ensures stream.Valid() && stream.data == old(stream.data)
    ensures MagicChecked(old(stream.Remaining())) == if r.Ok? then Ok(stream.Remaining()) else Err(r.error)
  {
    var buffer := new byte[magic.Length];
    var count := stream.ReadInto(buffer);
    if count != magic.Length {
      return Err(ShortMagic);
    }
    var same := SameBytes(buffer, magic);
    if !same {
      return Err(BadMagic);
    }
    return Ok(());
  }

  /**
   * The magic check as written: the bytes are read into `magic`, the shared array of the magic
   * constant itself, and then compared with that same array. Every input of four bytes or more
   * passes, and the constant now holds the bytes read. A short input is refused, but its bytes
   * have already been copied over the front of the constant.
   */
  method CheckMagicAsWritten(stream: InputStream, magic: array<byte>) returns (r: Result<(), ReadError>)
    requires stream.Valid() && magic.Length == |MAGIC|
    modifies stream, magic
    ensures stream.Valid() && stream.data == old(stream.data)
    ensures r.Ok? <==> |old(stream.Remaining())| >= |MAGIC|
    ensures r.Ok? ==> magic[..] == old(stream.Remaining())[..|MAGIC|]
    ensures r.Ok? ==> stream.Remaining() == old(stream.Remaining())[|MAGIC|..]
    ensures r.Err? ==> r.error == ShortMagic && stream.Remaining() == []
    ensures r.Err? ==> var n := |old(stream.Remaining())|;
      magic[..n] == old(stream.Remaining()) && magic[n..] == old(magic[n..])
  {
    var count := stream.ReadInto(magic);
    if count != magic.Length {
      return Err(ShortMagic);
    }
    var same := SameBytes(magic, magic);
    assert magic[..] == magic[..magic.Length];
    if !same {
      return Err(BadMagic);
    }
    return Ok(());
  }

  /** Four bytes that are not the magic bytes pass the magic test as written but not the intended one. */
  lemma {:induction false} MagicAsWrittenAcceptsOtherBytes(input: seq<byte>)
    requires input == [0x58, 0x4d, 0x4c, 0x3f]
    ensures |input| >= |MAGIC|
    ensures MagicChecked(input) == Err(BadMagic)
  {
    assert input[..|MAGIC|][0] != MAGIC[0];
  }

  /**
   * The header `startDocument` writes from the shared magic array is accepted by the intended
   * check exactly when the array still holds the magic bytes; after a magic check as written has
   * overwritten it with other bytes, it is refused, whatever follows.
   */
  lemma {:induction false} HeaderOfWrittenMagic(magic: seq<byte>, rest: seq<byte>)
    requires |magic| == |MAGIC|
    ensures Header(magic + SmallInt(VERSION) + SmallInt(UNLIMITED_STRING_TABLE_SIZE) + rest) ==
      if magic == MAGIC then Ok((UNLIMITED_STRING_TABLE_SIZE, rest)) else Err(BadMagic)
  {
  }

  /*
   * Properties of the header
   */

  /**
   * A header is accepted exactly when it is the magic bytes, the encoding of `VERSION` and the
   * encoding of a size that is 0 or at least `MINIMUM_STRING_TABLE_SIZE`.
   */
  lemma {:induction false} HeaderAccepts(input: seq<byte>, size: int, rest: seq<byte>)
    ensures Header(input) == Ok((size, rest)) <==>
      (size == UNLIMITED_STRING_TABLE_SIZE || MINIMUM_STRING_TABLE_SIZE <= size <= MAX_INT) &&
      input == MAGIC + Encoded(VERSION) + Encoded(size) + rest
  {
    if size == UNLIMITED_STRING_TABLE_SIZE || MINIMUM_STRING_TABLE_SIZE <= size <= MAX_INT {
      var tail := Encoded(VERSION) + Encoded(size) + rest;
      assert MAGIC + Encoded(VERSION) + Encoded(size) + rest == MAGIC + tail;
      assert (MAGIC + tail)[..|MAGIC|] == MAGIC && (MAGIC + tail)[|MAGIC|..] == tail;
    }
    if |input| >= |MAGIC| && input[..|MAGIC|] == MAGIC {
      var afterMagic := input[|MAGIC|..];
      assert input == MAGIC + afterMagic;
      if VersionAndSize(afterMagic) == Ok((size, rest)) {
        VersionAndSizeRead(afterMagic, size, rest);
      }
      if (size == UNLIMITED_STRING_TABLE_SIZE || MINIMUM_STRING_TABLE_SIZE <= size <= MAX_INT) &&
         afterMagic == Encoded(VERSION) + Encoded(size) + rest
      {
        VersionAndSizeWritten(size, rest);
      }
    }
  }

  /** What the version and size part of the header accepts is the encoding of `VERSION` and a size. */
  lemma {:induction false} VersionAndSizeRead(input: seq<byte>, size: int, rest: seq<byte>)
    requires VersionAndSize(input) == Ok((size, rest))
    ensures size == UNLIMITED_STRING_TABLE_SIZE || MINIMUM_STRING_TABLE_SIZE <= size <= MAX_INT
    ensures input == Encoded(VERSION) + Encoded(size) + rest
  {
    var (version, afterVersion) := Operand(input).value;
    ReadIntIsEncoding(input, false);
    ReadIntIsEncoding(afterVersion, false);
  }

  /** The encoding of `VERSION` and of an allowed size is accepted. */
  lemma {:induction false} VersionAndSizeWritten(size: int, rest: seq<byte>)
    requires size == UNLIMITED_STRING_TABLE_SIZE || MINIMUM_STRING_TABLE_SIZE <= size <= MAX_INT
    ensures VersionAndSize(Encoded(VERSION) + Encoded(size) + rest) == Ok((size, rest))
  {
    assert Encoded(VERSION) + Encoded(size) + rest == Encoded(VERSION) + (Encoded(size) + rest);
    ReadIntAfterWriteInt(VERSION, Encoded(size) + rest, false);
    ReadIntAfterWriteInt(size, rest, false);
  }

  /** The header a writer produces for an unlimited table is accepted, and nothing after it is read. */
  lemma {:induction false} WrittenHeaderAccepted(rest: seq<byte>)
    ensures Header(MAGIC + SmallInt(VERSION) + SmallInt(UNLIMITED_STRING_TABLE_SIZE) + rest) ==
      Ok((UNLIMITED_STRING_TABLE_SIZE, rest))
  {
    EncodedSmall(VERSION);
    EncodedSmall(UNLIMITED_STRING_TABLE_SIZE);
    HeaderAccepts(MAGIC + SmallInt(VERSION) + SmallInt(UNLIMITED_STRING_TABLE_SIZE) + rest,
      UNLIMITED_STRING_TABLE_SIZE, rest);
  }

  /** A declared size from 1 to 6 is refused, whatever follows. */
  lemma {:induction false} SmallTableRefused(size: int, rest: seq<byte>)
    requires 0 < size < MINIMUM_STRING_TABLE_SIZE
    ensures Header(MAGIC + SmallInt(VERSION) + SmallInt(size) + rest) == Err(BadTableSize(size))
  {
    var input := MAGIC + SmallInt(VERSION) + SmallInt(size) + rest;
    assert input[..|MAGIC|] == MAGIC && input[|MAGIC|..] == [VERSION] + ([size] + rest);
    ReadIntLeadingByte([VERSION] + ([size] + rest), false);
    ReadIntLeadingByte([size] + rest, false);
  }
}
