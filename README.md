# BSAX-J in Dafny

A model of the core of BSAX-J. BSAX-J is a binary encoding of SAX event streams. A writer, a
SAX `ContentHandler`, turns parse events into a compact byte stream. Two readers turn the stream
back into events. The project models the core in four layers and proves what each promises.

- **Integer codec** (`UTF8Codec`): non-negative Java `int`s as 1 to 6 byte sequences. This is
  the original UTF-8 framing of section 2 of RFC 2279, not the 4-byte form of RFC 3629. Modules
  `Utf8Codec`, `Utf8CodecLemmas`, `Utf8CodecRoundTrip`, `Utf8CodecVectors` and `Bits` (byte
  masks as arithmetic).
- **Stream helpers** (`BSAXUtil`): operands and length-prefixed strings on byte streams.
  - `BSAXUtil` holds the functions on the remaining input.
  - `Streams` holds the stream objects: an input stream is a byte sequence and a cursor, and an
    output stream is the sequence written so far.
- **Writer** (`SAXWriter`): interns every string into a map from bytes to ids, with a counter.
  The first use of a string writes an `OP_STRING` definition. Each event is written as its
  opcode followed by the ids of its strings.
  - `SaxWriter` holds the value-level writer `Writer` and the `SAXWriter` class.
  - `SaxWriterProperties` holds the writer's laws.
- **Readers**:
  - `SaxReader.BSAXReader` checks the header and keeps the string table as a list, under an
    unlimited or a bounded policy. It resolves ids to strings and delivers events.
  - `AbstractReader.AbstractBSAXReader` passes raw ids to hook methods. It enforces the
    unlimited-table rule with a counter, `currentStringTableSize`.
  - Both readers are stated against pure functions over the remaining input: `SaxReader.Ops`
    and `AbstractReader.Records`. `BSAXHeader` holds the header and operand reading they share.
- **Operand counts** (`OperandCounts`): the number of operands `BSAXConstants.java` documents
  for each opcode is the number of integers the writer writes after it and the number the
  abstract reader reads before it calls the opcode's hook.
- **Round trip** (`StreamRoundTrip`): for every event list that starts with `startDocument` and
  has no DTD declarations, `BSAXReader` decoding the output of a writer whose counter starts at
  the first free id, 2, delivers the same events. Character ranges arrive as the whole array of
  the characters in the range. In the source the counter is shared by every writer in a JVM, so
  only the first writer starts there. See "## Findings".

The state-changing parts are classes whose methods are proved against those functions:
- `Streams.InputStream` and `Streams.OutputStream`;
- `SaxWriter.SAXWriter`, with fields `stringMap` and `nextStringId`;
- `SaxReader.BSAXReader`, with fields `maxStringTableSize`, `stringTable` and the events it has
  handled;
- `AbstractReader.AbstractBSAXReader`, with fields `version`, `maxStringTableSize`,
  `currentStringTableSize` and the hooks it has called.

The codec's loops (`intToUtf8`, `lengthFromInitialByte`, `utf8ToInt`) are methods with loop
invariants. Each is proved equal to its specification function.

Java `int` arithmetic where it can wrap is written out as `JavaTypes.Increment`, which goes from
2^31-1 to -2^31. The places are the writer's id counter and the abstract reader's table counter.
Strings are byte sequences, a `Str` that is either `Null` or `Text(bytes)`.

Where the written code departs from its evident intent, the model follows the intent and also
models the code as written. See "## Findings".

## Model

| member | source | states |
|---|---|---|
| JavaTypes.Increment | src/com/gregorpurdy/xml/bsax/SAXWriter.java:176 | Java `int` increment: the sum reduced to 32 bits in two's complement, so 2^31-1 wraps to -2^31 |
| BSAXConstants.MagicSpellsBSAX | src/com/gregorpurdy/xml/bsax/BSAXConstants.java:9 | the magic is exactly the four bytes of "BSAX" |
| BSAXConstants.OpcodesAreDistinct | src/com/gregorpurdy/xml/bsax/BSAXConstants.java:19-32 | the opcodes are 0..13 in order, one per position, pairwise distinct |
| BSAXConstants.MinimumTableHoldsAnAttribute | src/com/gregorpurdy/xml/bsax/BSAXConstants.java:13-17 | the minimum bounded table size 7 is the 2 reserved ids plus the 5 operands of an attribute, the largest operand count of any opcode |
| Utf8Codec.Utf8EncodedLength | src/com/gregorpurdy/codec/UTF8Codec.java:87-106 | an encoding is 1 to 6 bytes long |
| Utf8CodecLemmas.PayloadCapacities | src/com/gregorpurdy/codec/UTF8Codec.java:73-77 | the value bits of a 1..6 byte form give the thresholds 0x80, 0x800, 0x10000, 0x200000, 0x4000000 and 2^31 |
| Utf8CodecLemmas.EncodedLengthIsMinimal | src/com/gregorpurdy/codec/UTF8Codec.java:87-106 | the chosen length is the shortest whose value bits hold the argument: it fits, and every shorter length is too small |
| Utf8CodecLemmas.EncodedLengthAtMost | src/com/gregorpurdy/codec/UTF8Codec.java:87-106 | a value that fits in the bits of a length is encoded in at most that many bytes |
| Utf8CodecLemmas.TableShapes | src/com/gregorpurdy/codec/UTF8Codec.java:108-142 | for each length the value mask is 2^k-1, the template mask is its complement within a byte, and the template is aligned and leaves room for the value bits |
| Utf8CodecLemmas.TemplateRange | src/com/gregorpurdy/codec/UTF8Codec.java:108-142 | a byte matches the template of a length exactly when it lies in that template's range of byte values |
| Utf8CodecLemmas.ContinuationRange | src/com/gregorpurdy/codec/UTF8Codec.java:108-111 | a byte is a continuation byte, 10xxxxxx, exactly when it lies in 0x80..0xBF |
| Utf8Codec.Encoded | src/com/gregorpurdy/codec/UTF8Codec.java:153-179 | the encoding of a value has exactly `utf8EncodedLength` bytes |
| Utf8CodecLemmas.EncodedShape | src/com/gregorpurdy/codec/UTF8Codec.java:153-179 | the first byte of an encoding announces its length and every later byte is a continuation byte |
| Utf8Codec.IntToUtf8 | src/com/gregorpurdy/codec/UTF8Codec.java:148-182 | the array-filling loop refuses a negative argument and otherwise returns the encoding |
| Utf8Codec.FirstMatchingLength | src/com/gregorpurdy/codec/UTF8Codec.java:213-229 | the scan stops at the first length whose template matches; none of the lengths before it match |
| Utf8Codec.InitialByteLengthIsSmallestMatch | src/com/gregorpurdy/codec/UTF8Codec.java:213-229 | the length of a leading byte is the smallest length whose template it matches; a byte matching none is refused as an invalid leading byte |
| Utf8CodecLemmas.InitialByteLengthRanges | src/com/gregorpurdy/codec/UTF8Codec.java:213-229 | the leading byte classes: below 0x80 gives 1, 0xC0.. 2, 0xE0.. 3, 0xF0.. 4, 0xF8.. 5, 0xFC.. 6; 0x80..0xBF, 0xFE and 0xFF are refused |
| Utf8Codec.LengthFromInitialByte | src/com/gregorpurdy/codec/UTF8Codec.java:213-229 | the loop with `break` computes the leading byte's length or refuses it |
| Utf8Codec.Accumulate | src/com/gregorpurdy/codec/UTF8Codec.java:250-256 | accumulation succeeds only when the array holds all the announced bytes |
| Utf8CodecRoundTrip.AccumulateOk | src/com/gregorpurdy/codec/UTF8Codec.java:250-256 | accumulation succeeds if and only if the array is long enough and every byte after the first is a continuation byte |
| Utf8CodecRoundTrip.AccumulateFields | src/com/gregorpurdy/codec/UTF8Codec.java:250-256 | the accumulated value is the number whose base-64 digits are the value fields of the bytes |
| Utf8Codec.AccumulateContinuations | src/com/gregorpurdy/codec/UTF8Codec.java:250-256 | the loop over continuation bytes computes the accumulation, with the same errors |
| Utf8Codec.Utf8ToInt | src/com/gregorpurdy/codec/UTF8Codec.java:236-265 | the decoding method computes the decoding function, errors included |
| Utf8CodecRoundTrip.EncodedDigits | src/com/gregorpurdy/codec/UTF8Codec.java:153-179 | the value fields of an encoding's first i bytes are the argument shifted right by the remaining digits |
| Utf8CodecRoundTrip.RoundTrip | src/com/gregorpurdy/codec/UTF8Codec.java:148-265 | decoding the encoding of any 0 <= n <= 2^31-1 gives n back |
| Utf8CodecRoundTrip.DecodedDigits | src/com/gregorpurdy/codec/UTF8Codec.java:236-265 | an accepted array has 1 to 6 bytes, a leading byte announcing its length, continuation bytes after it, and a value in 0..2^31-1 |
| Utf8CodecRoundTrip.DecodedIsEncoded | src/com/gregorpurdy/codec/UTF8Codec.java:258-262 | canonicality: every accepted array is the encoding of the value it decodes to, so overlong forms and trailing bytes are refused |
| Utf8CodecRoundTrip.DecodedIffEncoded | src/com/gregorpurdy/codec/UTF8Codec.java:236-265 | an array decodes to v if and only if v is in 0..2^31-1 and the array is v's encoding |
| Utf8CodecVectors.Vector80 | src/test/java/com/gregorpurdy/codec/UTF8CodecTest.java:122-125 | 0xC2 0x80 decodes to 128 and is its encoding |
| Utf8CodecVectors.OneByteVector | src/test/java/com/gregorpurdy/codec/UTF8CodecTest.java:133-151 | 0x41 and 0x2E are their own one-byte encodings |
| Utf8CodecVectors.Vector2262 | src/test/java/com/gregorpurdy/codec/UTF8CodecTest.java:137-141 | 0xE2 0x89 0xA2 decodes to 0x2262 and is its encoding |
| Utf8CodecVectors.Vector391 | src/test/java/com/gregorpurdy/codec/UTF8CodecTest.java:143-146 | 0xCE 0x91 decodes to 0x391 and is its encoding |
| Utf8CodecVectors.OverlongZeroRefused | src/test/java/com/gregorpurdy/codec/UTF8CodecTest.java:153-163 | the overlong 0xC0 0x80 is refused as non-canonical: it decodes to 0, which takes 1 byte, not 2 |
| BSAXUtil.WriteInt | src/com/gregorpurdy/xml/bsax/BSAXUtil.java:39-48 | appends exactly the encoding of a non-negative argument; a negative one is an error and writes nothing |
| BSAXUtil.WriteString | src/com/gregorpurdy/xml/bsax/BSAXUtil.java:176-194 | appends the byte count and the payload to the stream and nothing else |
| BSAXUtil.ReadInt | src/com/gregorpurdy/xml/bsax/BSAXUtil.java:67-128 | a successful read leaves a suffix of the input, and a strictly shorter one unless it stopped at the end |
| BSAXUtil.ContinuationCountAgrees | src/com/gregorpurdy/xml/bsax/BSAXUtil.java:88-108 | the reader's mask chain agrees with the codec: the high bit clear means a 1-byte form, otherwise the count of continuation bytes is the codec's length minus one, or the leading byte is illegal |
| BSAXUtil.ReadIntLeadingByte | src/com/gregorpurdy/xml/bsax/BSAXUtil.java:88-115 | a byte below 0x80 is the value, consuming one byte; 0x80..0xBF, 0xFE and 0xFF are illegal first bytes; too few continuation bytes is an end-of-file error |
| BSAXUtil.ReadIntAtEnd | src/com/gregorpurdy/xml/bsax/BSAXUtil.java:79-86 | at the end of input the read gives -1 when the end is allowed and fails otherwise |
| BSAXUtil.ReadIntAfterWriteInt | src/com/gregorpurdy/xml/bsax/BSAXUtil.java:67-128 | reading the encoding of n followed by anything gives n and leaves exactly what followed |
| BSAXUtil.ReadIntReadsEncodings | src/com/gregorpurdy/xml/bsax/BSAXUtil.java:67-128 | a read gives (value, rest) if and only if the input is value's encoding followed by rest, or the end is allowed and the input is empty with value -1 |
| BSAXUtil.ReadIntIsEncoding | src/com/gregorpurdy/xml/bsax/BSAXUtil.java:110-127 | a successful read of a non-empty input consumed exactly the canonical encoding of the value, so codec errors on the collected bytes propagate |
| BSAXUtil.SequenceRead | src/com/gregorpurdy/xml/bsax/BSAXUtil.java:110-127 | a multi-byte read decodes the first 2 to 6 bytes and leaves the rest |
| BSAXUtil.ReadString | src/com/gregorpurdy/xml/bsax/BSAXUtil.java:135-170 | a successful string read consumes at least one byte and leaves a suffix |
| BSAXUtil.ReadStringAfterWriteString | src/com/gregorpurdy/xml/bsax/BSAXUtil.java:135-194 | reading a written string gives the payload back and leaves exactly what followed |
| BSAXUtil.ReadStringReadsWrittenStrings | src/com/gregorpurdy/xml/bsax/BSAXUtil.java:135-170 | a string read gives (payload, rest) if and only if the input is the written form of the payload followed by rest |
| BSAXUtil.ReadStringParts | src/com/gregorpurdy/xml/bsax/BSAXUtil.java:135-158 | the length prefix is read without allowing the end, and exactly that many payload bytes follow it |
| BSAXUtil.ReadStringTruncated | src/com/gregorpurdy/xml/bsax/BSAXUtil.java:153-158 | fewer payload bytes than the length prefix announces is an end-of-file error |
| BSAXUtil.ReadIntFrom | src/com/gregorpurdy/xml/bsax/BSAXUtil.java:67-128 | reading from a stream returns the value of the pure read and moves the cursor to its rest |
| BSAXUtil.ReadSequence | src/com/gregorpurdy/xml/bsax/BSAXUtil.java:110-127 | collecting the continuation bytes and decoding them agrees with the pure read of the leading byte and the rest |
| BSAXUtil.ReadStringFrom | src/com/gregorpurdy/xml/bsax/BSAXUtil.java:135-170 | reading a string from a stream agrees with the pure string read and moves the cursor past it |
| BSAXHeader.Operand | src/com/gregorpurdy/xml/bsax/BSAXUtil.java:55-57 | an operand read without allowing the end is a value in 0..2^31-1 and consumes at least one byte; its only errors are stream errors |
| BSAXHeader.Opcode | src/com/gregorpurdy/xml/sax/BSAXReader.java:355-361 | an opcode read gives -1 exactly at the end of input and is an operand read otherwise |
| BSAXHeader.OperandReadsEncodings | src/com/gregorpurdy/xml/bsax/BSAXUtil.java:55-57 | an operand read gives (value, rest) if and only if the input is value's encoding followed by rest |
| BSAXHeader.PayloadReadsWrittenStrings | src/com/gregorpurdy/xml/bsax/BSAXUtil.java:135-170 | a payload read inverts the written form of a string |
| BSAXHeader.MagicChecked | src/com/gregorpurdy/xml/sax/BSAXReader.java:308-320 | the intended magic check: it passes exactly when the input starts with the four magic bytes, and leaves what follows them |
| BSAXHeader.SameBytes | src/com/gregorpurdy/xml/sax/BSAXReader.java:315-320 | the comparison loop is true exactly when the bytes read equal the pattern |
| BSAXHeader.CheckMagic | src/com/gregorpurdy/xml/sax/BSAXReader.java:308-320 | reading four bytes into a separate buffer and comparing them with the magic agrees with the intended check |
| BSAXHeader.CheckMagicAsWritten | src/com/gregorpurdy/xml/sax/BSAXReader.java:308-320 | as written: the bytes are read into the magic array itself, so the magic test passes whenever four bytes are there, and the array then holds the bytes read; a shorter input is refused after its bytes have been copied over the front of the array |
| BSAXHeader.HeaderOfWrittenMagic | src/com/gregorpurdy/xml/bsax/SAXWriter.java:276-282 | the header written from the magic array is accepted by the intended check exactly when the array holds the magic bytes, and refused as bad magic otherwise |
| BSAXHeader.MagicAsWrittenAcceptsOtherBytes | src/com/gregorpurdy/xml/bsax/AbstractBSAXReader.java:151-161 | an input starting "XML?" has four bytes, so the magic test as written passes, but the intended test refuses it |
| BSAXHeader.HeaderAccepts | src/com/gregorpurdy/xml/sax/BSAXReader.java:308-344 | a header is accepted with table size n and rest r if and only if the input is the magic, version 1, then n, then r, with n 0 or in 7..2^31-1 |
| BSAXHeader.VersionAndSizeRead | src/com/gregorpurdy/xml/sax/BSAXReader.java:326-344 | an accepted version and size are 1 and a size of 0 or at least 7, read as their encodings |
| BSAXHeader.VersionAndSizeWritten | src/com/gregorpurdy/xml/sax/BSAXReader.java:326-344 | version 1 and any legal size are accepted |
| BSAXHeader.WrittenHeaderAccepted | src/com/gregorpurdy/xml/bsax/SAXWriter.java:274-285 | the header the writer's `startDocument` writes is accepted with an unlimited table |
| BSAXHeader.SmallTableRefused | src/com/gregorpurdy/xml/sax/BSAXReader.java:339-344 | a table size from 1 to 6 is refused |
| BSAXHeader.ReadOperand | src/com/gregorpurdy/xml/bsax/AbstractBSAXReader.java:438-440 | reading an operand from a stream agrees with the pure operand read |
| BSAXHeader.ReadOpcode | src/com/gregorpurdy/xml/sax/BSAXReader.java:355-361 | reading an opcode from a stream agrees with the pure opcode read |
| BSAXHeader.ReadPayload | src/com/gregorpurdy/xml/bsax/BSAXUtil.java:135-170 | reading a payload from a stream agrees with the pure payload read |
| SaxEvents.AttributeOf | src/com/gregorpurdy/xml/sax/BSAXReader.java:68-77 | building an attribute from five fields inverts listing its fields |
| SaxReader.Initial | src/com/gregorpurdy/xml/sax/BSAXReader.java:346-349 | after the header the table holds exactly the two reserved entries, and it is well formed for every legal size |
| SaxReader.Padded | src/com/gregorpurdy/xml/sax/BSAXReader.java:231-233 | padding keeps the existing entries, adds nulls up to the id, and makes the id a valid index |
| SaxReaderProperties.StoredDefines | src/com/gregorpurdy/xml/sax/BSAXReader.java:219-236 | storing at a definable id sets that entry and leaves every other existing entry unchanged; the table grows by at most one under the unlimited policy |
| SaxReaderProperties.StringOpStores | src/com/gregorpurdy/xml/sax/BSAXReader.java:196-237 | a definition of id 0 or 1 is refused; under a bounded table an id at or beyond the size is refused; under an unlimited table an id beyond the end is refused; otherwise the string is stored |
| SaxReaderProperties.StringOpKeepsValid | src/com/gregorpurdy/xml/sax/BSAXReader.java:196-237 | a definition keeps the table well formed: the reserved entries stay and a bounded table stays within its size |
| SaxReaderProperties.AttributesFromKeepsValid | src/com/gregorpurdy/xml/sax/BSAXReader.java:165-178 | the attribute loop, with the definitions between its attributes, keeps the table well formed |
| SaxReaderProperties.OperationKeepsValid | src/com/gregorpurdy/xml/sax/BSAXReader.java:363-390 | every accepted record keeps the table well formed |
| SaxReaderProperties.OpsKeepsValid | src/com/gregorpurdy/xml/sax/BSAXReader.java:355-391 | from a well-formed table, every table the record loop works with is well formed |
| SaxReaderProperties.ParsedKeepsValid | src/com/gregorpurdy/xml/sax/BSAXReader.java:300-395 | after an accepted header, every table of the parse is well formed |
| SaxReader.StringOp | src/com/gregorpurdy/xml/sax/BSAXReader.java:196-237 | a definition consumes input and keeps the table's size policy |
| SaxReader.Ref | src/com/gregorpurdy/xml/sax/BSAXReader.java:422-439 | a string reference consumes input |
| SaxReaderProperties.RefIsLookup | src/com/gregorpurdy/xml/sax/BSAXReader.java:422-439 | a reference is a table lookup; an id beyond the bounded size, or beyond the current table, is refused |
| SaxReaderProperties.DefinedStringIsRead | src/com/gregorpurdy/xml/sax/BSAXReader.java:196-237 | after a definition, a reference to its id reads the defined string |
| SaxReaderProperties.DefinitionKeepsOtherStrings | src/com/gregorpurdy/xml/sax/BSAXReader.java:219-236 | a definition does not change what a reference to any other existing id reads |
| SaxReader.AttributesFrom | src/com/gregorpurdy/xml/sax/BSAXReader.java:165-178 | the attribute loop reads exactly the announced number of attributes |
| SaxReader.NextAttribute | src/com/gregorpurdy/xml/sax/BSAXReader.java:166-177 | reading one attribute, with the definitions before it, consumes input and keeps the size policy |
| SaxReader.StartElementOp | src/com/gregorpurdy/xml/sax/BSAXReader.java:156-181 | a start element consumes no more than its input and keeps the size policy |
| SaxReader.Operation | src/com/gregorpurdy/xml/sax/BSAXReader.java:363-390 | every dispatched opcode consumes no more than its input and keeps the size policy |
| SaxReaderProperties.OpsEndAtBoundary | src/com/gregorpurdy/xml/sax/BSAXReader.java:355-361 | the end of input at an opcode boundary ends parsing without an error |
| SaxReaderProperties.AttributeOutsideElementRefused | src/com/gregorpurdy/xml/sax/BSAXReader.java:371-373 | a top-level attribute record stops parsing with an error, after the events already delivered |
| SaxReaderProperties.UnrecognizedOpcodeRefused | src/com/gregorpurdy/xml/sax/BSAXReader.java:388-390 | opcodes 10, 13 and above 13 stop parsing with an error |
| SaxReaderProperties.OperationRefuses | src/com/gregorpurdy/xml/sax/BSAXReader.java:388-390 | the dispatch of opcodes 10, 13 and above 13 is an error |
| SaxReaderProperties.EmptyStreamParses | src/com/gregorpurdy/xml/sax/BSAXReader.java:300-395 | a stream that is only a header parses and delivers nothing |
| SaxReader.OpsKeepsDelivered | src/com/gregorpurdy/xml/sax/BSAXReader.java:355-391 | the record loop only appends to the events already delivered |
| SaxReader.BSAXReader.constructor | src/com/gregorpurdy/xml/sax/BSAXReader.java:57-61 | a new reader has an unlimited size, an empty table and has delivered nothing |
| SaxReader.BSAXReader.ReadString | src/com/gregorpurdy/xml/sax/BSAXReader.java:422-439 | resolving an id from the stream agrees with the pure reference |
| SaxReader.BSAXReader.DoOpString | src/com/gregorpurdy/xml/sax/BSAXReader.java:196-237 | the in-place update of the table list, with its padding loop, agrees with the pure definition |
| SaxReader.BSAXReader.DoOpAttribute | src/com/gregorpurdy/xml/sax/BSAXReader.java:68-77 | reads five references into an attribute |
| SaxReader.BSAXReader.DoOpCharacters | src/com/gregorpurdy/xml/sax/BSAXReader.java:82-88 | delivers the referenced characters as a whole array; a null reference delivers nothing |
| SaxReader.BSAXReader.DoOpEndDocument | src/com/gregorpurdy/xml/sax/BSAXReader.java:93-95 | delivers the end of the document |
| SaxReader.BSAXReader.DoOpEndElement | src/com/gregorpurdy/xml/sax/BSAXReader.java:100-106 | delivers an end element with its three names |
| SaxReader.BSAXReader.DoOpEndPrefixMapping | src/com/gregorpurdy/xml/sax/BSAXReader.java:111-115 | delivers the end of a prefix mapping |
| SaxReader.BSAXReader.DoOpIgnorableWhitespace | src/com/gregorpurdy/xml/sax/BSAXReader.java:120-125 | delivers the referenced whitespace; a null reference is an error |
| SaxReader.BSAXReader.DoOpProcessingInstruction | src/com/gregorpurdy/xml/sax/BSAXReader.java:130-135 | delivers a processing instruction |
| SaxReader.BSAXReader.DoOpSkippedEntity | src/com/gregorpurdy/xml/sax/BSAXReader.java:140-144 | delivers a skipped entity |
| SaxReader.BSAXReader.DoOpStartDocument | src/com/gregorpurdy/xml/sax/BSAXReader.java:149-151 | delivers the start of the document |
| SaxReader.BSAXReader.DoOpStartPrefixMapping | src/com/gregorpurdy/xml/sax/BSAXReader.java:186-191 | delivers the start of a prefix mapping |
| SaxReader.BSAXReader.DoOpStartElement | src/com/gregorpurdy/xml/sax/BSAXReader.java:156-181 | reads the names, the count and then that many attributes, and delivers one start element after all of them |
| SaxReader.BSAXReader.ReadAttributes | src/com/gregorpurdy/xml/sax/BSAXReader.java:165-178 | the attribute loop agrees with the pure attribute loop and delivers nothing itself |
| SaxReader.BSAXReader.ReadAttribute | src/com/gregorpurdy/xml/sax/BSAXReader.java:166-177 | consumes definitions until an attribute opcode, then reads the attribute; any other opcode is an error |
| SaxReader.BSAXReader.DoOp | src/com/gregorpurdy/xml/sax/BSAXReader.java:363-390 | the if-chain dispatch agrees with the pure dispatch |
| SaxReader.BSAXReader.ReadHeader | src/com/gregorpurdy/xml/sax/BSAXReader.java:308-349 | reads the header as the pure header read does and sets up the two reserved entries |
| SaxReader.BSAXReader.ReadRecords | src/com/gregorpurdy/xml/sax/BSAXReader.java:355-391 | the record loop delivers the events of the pure record run and fails exactly when it does |
| SaxReader.BSAXReader.Parse | src/com/gregorpurdy/xml/sax/BSAXReader.java:300-395 | parsing delivers the events of the pure parse of the stream, and fails exactly when it does |
| AbstractReader.Id | src/com/gregorpurdy/xml/bsax/AbstractBSAXReader.java:438-440 | an id read is a value in 0..2^31-1 and consumes input; a failure calls no hook |
| AbstractReader.Definition | src/com/gregorpurdy/xml/bsax/AbstractBSAXReader.java:389-414 | a definition consumes input and keeps the size |
| AbstractReader.ElementStart | src/com/gregorpurdy/xml/bsax/AbstractBSAXReader.java:353-359 | the start of an element reads the three ids and the count into one start-element hook call |
| AbstractReader.Dispatch | src/com/gregorpurdy/xml/bsax/AbstractBSAXReader.java:227-278 | every dispatched opcode consumes no more than its input and keeps the size |
| AbstractReader.AttributesFromStep | src/com/gregorpurdy/xml/bsax/AbstractBSAXReader.java:361-380 | the attribute loop is one attribute followed by the rest of the loop |
| AbstractReaderProperties.StartCountsInitialTable | src/com/gregorpurdy/xml/bsax/AbstractBSAXReader.java:187-192 | for every legal table size, the starting counter is in step with the two-entry table the list-keeping reader starts with |
| AbstractReaderProperties.DefinitionAgreesWithTable | src/com/gregorpurdy/xml/bsax/AbstractBSAXReader.java:389-414 | the counter enforces the same rule as the list: a definition is accepted exactly when the list-keeping reader accepts it, with the same error otherwise, and the defined string is then in the list at the id passed to the hook |
| AbstractReaderProperties.DefinitionExtends | src/com/gregorpurdy/xml/bsax/AbstractBSAXReader.java:389-414 | an accepted definition calls exactly one hook, the string hook |
| AbstractReaderProperties.AttributeRecordAdds | src/com/gregorpurdy/xml/bsax/AbstractBSAXReader.java:373-379 | an attribute record calls exactly one attribute hook, with its index |
| AbstractReaderProperties.DispatchExtends | src/com/gregorpurdy/xml/bsax/AbstractBSAXReader.java:227-278 | a dispatch only appends hook calls, and a failure keeps the calls made before it |
| AbstractReaderProperties.RecordsExtends | src/com/gregorpurdy/xml/bsax/AbstractBSAXReader.java:204-279 | the record loop only appends hook calls |
| AbstractReaderProperties.StartStreamFirst | src/com/gregorpurdy/xml/bsax/AbstractBSAXReader.java:151-198 | a refused header calls no hook; otherwise the stream-start hook is called once, after the header and before every opcode hook |
| AbstractReaderProperties.AttributesFromIndices | src/com/gregorpurdy/xml/bsax/AbstractBSAXReader.java:361-380 | the attribute loop from i to count calls the attribute hook with indices i, i+1, ..., count-1 in order, and no other attribute hook |
| AbstractReaderProperties.StartElementCallsInOrder | src/com/gregorpurdy/xml/bsax/AbstractBSAXReader.java:352-383 | a start element calls the start-element hook first and the finalize hook last, and between them the attribute hooks for indices 0..count-1 in order |
| AbstractReaderProperties.DispatchRefuses | src/com/gregorpurdy/xml/bsax/AbstractBSAXReader.java:212-277 | an opcode outside 0..13, 10, 13 or a top-level attribute is refused, with the hook calls made before it |
| AbstractReader.AbstractBSAXReader.constructor | src/com/gregorpurdy/xml/bsax/AbstractBSAXReader.java:34-59 | a new reader has an unknown version, an unlimited size, a counter of 2 and no hook calls |
| AbstractReader.AbstractBSAXReader.InternalOpString | src/com/gregorpurdy/xml/bsax/AbstractBSAXReader.java:389-414 | the counter update and the string hook agree with the pure definition |
| AbstractReader.AbstractBSAXReader.InternalOpSkippedEntity | src/com/gregorpurdy/xml/bsax/AbstractBSAXReader.java:288-291 | one id read, then the skipped-entity hook |
| AbstractReader.AbstractBSAXReader.InternalOpProcessingInstruction | src/com/gregorpurdy/xml/bsax/AbstractBSAXReader.java:296-300 | two ids read, then the processing-instruction hook |
| AbstractReader.AbstractBSAXReader.InternalOpCharacters | src/com/gregorpurdy/xml/bsax/AbstractBSAXReader.java:305-308 | one id read, then the characters hook |
| AbstractReader.AbstractBSAXReader.InternalOpEndElement | src/com/gregorpurdy/xml/bsax/AbstractBSAXReader.java:313-318 | three ids read, then the end-element hook |
| AbstractReader.AbstractBSAXReader.InternalOpIgnorableWhitespace | src/com/gregorpurdy/xml/bsax/AbstractBSAXReader.java:324-327 | one id read, then the whitespace hook |
| AbstractReader.AbstractBSAXReader.InternalOpStartPrefixMapping | src/com/gregorpurdy/xml/bsax/AbstractBSAXReader.java:333-337 | two ids read, then the start-prefix-mapping hook |
| AbstractReader.AbstractBSAXReader.InternalOpEndPrefixMapping | src/com/gregorpurdy/xml/bsax/AbstractBSAXReader.java:343-346 | one id read, then the end-prefix-mapping hook |
| AbstractReader.AbstractBSAXReader.InternalOpStartElement | src/com/gregorpurdy/xml/bsax/AbstractBSAXReader.java:352-383 | the start element with its attribute loop agrees with the pure start element |
| AbstractReader.AbstractBSAXReader.ReadAttributes | src/com/gregorpurdy/xml/bsax/AbstractBSAXReader.java:361-380 | the attribute loop agrees with the pure attribute loop |
| AbstractReader.AbstractBSAXReader.ReadAttribute | src/com/gregorpurdy/xml/bsax/AbstractBSAXReader.java:362-379 | consumes definitions until an attribute opcode, then handles the attribute; any other opcode is an error |
| AbstractReader.AbstractBSAXReader.ReadAttributeRecord | src/com/gregorpurdy/xml/bsax/AbstractBSAXReader.java:373-379 | five ids read, then the attribute hook with the index |
| AbstractReader.AbstractBSAXReader.DoOp | src/com/gregorpurdy/xml/bsax/AbstractBSAXReader.java:212-278 | the range check and the switch agree with the pure dispatch |
| AbstractReader.AbstractBSAXReader.ReadHeader | src/com/gregorpurdy/xml/bsax/AbstractBSAXReader.java:151-198 | reads the header as the pure header read does, sets the version, size and counter, and calls the stream-start hook; a refused header calls none |
| AbstractReader.AbstractBSAXReader.ReadRecords | src/com/gregorpurdy/xml/bsax/AbstractBSAXReader.java:204-279 | the record loop makes the hook calls of the pure record run and fails exactly when it does |
| AbstractReader.AbstractBSAXReader.Parse | src/com/gregorpurdy/xml/bsax/AbstractBSAXReader.java:143-283 | parsing makes the hook calls of the pure trace of the stream and fails exactly when it does |
| SaxWriter.PutInt | src/com/gregorpurdy/xml/bsax/BSAXUtil.java:39-48 | writing an id succeeds exactly for a non-negative id and appends its encoding |
| SaxWriterProperties.FreshNumbered | src/com/gregorpurdy/xml/bsax/SAXWriter.java:44-60 | a writer with an empty map and the counter at the first free id, 2, keeps the numbering invariant |
| SaxWriterProperties.ReservedIds | src/com/gregorpurdy/xml/bsax/SAXWriter.java:164-171 | null has id 0 and the empty string id 1, with no output and no change |
| SaxWriterProperties.KnownStringId | src/com/gregorpurdy/xml/bsax/SAXWriter.java:173-185 | a string already in the map gets its recorded id and nothing is written |
| SaxWriterProperties.NewStringId | src/com/gregorpurdy/xml/bsax/SAXWriter.java:173-183 | a new string gets the counter's value, the counter is incremented, the mapping is recorded and the definition record (opcode, id, written string) is appended; a wrapped negative counter is an error |
| SaxWriterProperties.StringIdKeepsNumbered | src/com/gregorpurdy/xml/bsax/SAXWriter.java:164-186 | interning keeps the numbering invariant (distinct non-empty strings on distinct ids, each at least 2 and, until the counter wraps, below it), gives null 0 and the empty string 1, and records a non-empty string under the id returned |
| SaxWriterProperties.StringIdStable | src/com/gregorpurdy/xml/bsax/SAXWriter.java:164-186 | interning a string a second time gives the same id and writes nothing |
| SaxWriterProperties.CharsStringIdIsSlice | src/com/gregorpurdy/xml/bsax/SAXWriter.java:114-130 | the character-range overload refuses a negative start or length and a range beyond the array; otherwise it interns the slice, so an empty range is id 1 |
| SaxWriterProperties.StringIdGrows | src/com/gregorpurdy/xml/bsax/SAXWriter.java:164-186 | interning only appends output and only adds mappings |
| SaxWriterProperties.StringIdRefused | src/com/gregorpurdy/xml/bsax/SAXWriter.java:164-186 | interning fails exactly when a new non-empty string meets a counter that has wrapped negative, and the error is the refusal to write that negative id |
| SaxWriterProperties.InternAll | src/com/gregorpurdy/xml/bsax/SAXWriter.java:290-293 | interning a list of fields gives one id per field |
| SaxWriterProperties.RecordFromInterns | src/com/gregorpurdy/xml/bsax/SAXWriter.java:85-95 | every emitter interns all its fields first and only then writes its opcode and ids |
| SaxWriterProperties.PutIntsEncodes | src/com/gregorpurdy/xml/bsax/SAXWriter.java:85-95 | writing non-negative ids appends their encodings in order |
| SaxWriterProperties.RecordWritten | src/com/gregorpurdy/xml/bsax/SAXWriter.java:85-95 | a record is the definitions of its new strings, then its opcode, then its ids in field order |
| SaxWriterProperties.CharsRecordIsRecord | src/com/gregorpurdy/xml/bsax/SAXWriter.java:68-73 | a character record is the record of the slice of characters it covers |
| SaxWriterProperties.EmitGrows | src/com/gregorpurdy/xml/bsax/SAXWriter.java:68-346 | every event only appends output and only adds mappings |
| SaxWriterProperties.EmitAllGrows | src/com/gregorpurdy/xml/bsax/SAXWriter.java:68-346 | a sequence of events only appends output and only adds mappings |
| SaxWriter.RecordFromStep | src/com/gregorpurdy/xml/bsax/SAXWriter.java:85-95 | a record interns its first field and continues with the rest |
| SaxWriter.Record3Agrees | src/com/gregorpurdy/xml/bsax/SAXWriter.java:85-95 | the three-field emitters agree with the general record |
| SaxWriter.SAXWriter.constructor | src/com/gregorpurdy/xml/bsax/SAXWriter.java:44-47 | a new writer writes to the given stream, with an empty map and the counter at 2 |
| SaxWriter.SAXWriter.Init | src/com/gregorpurdy/xml/bsax/SAXWriter.java:205-208 | corrected: clears the map and puts the counter back at the first free id, 2 |
| SaxWriter.SAXWriter.InitAsWritten | src/com/gregorpurdy/xml/bsax/SAXWriter.java:205-208 | as written: clears the map and sets the counter to 1, the empty string's id |
| SaxWriter.SAXWriter.Put | src/com/gregorpurdy/xml/bsax/BSAXUtil.java:39-48 | writes an id's encoding; a negative id is an error and writes nothing |
| SaxWriter.SAXWriter.GetStringId | src/com/gregorpurdy/xml/bsax/SAXWriter.java:164-186 | the map, counter and output agree with the pure interning, and the id returned is non-negative; when the counter has wrapped negative, the map is kept, the counter has still advanced and `OP_STRING` has still been written |
| SaxWriter.SAXWriter.GetCharsStringId | src/com/gregorpurdy/xml/bsax/SAXWriter.java:114-130 | agrees with the pure character-range interning; a bad start, length or range changes nothing, and a refused new id leaves the state `getStringId` leaves |
| SaxWriter.SAXWriter.Characters | src/com/gregorpurdy/xml/bsax/SAXWriter.java:68-73 | writes the characters record |
| SaxWriter.SAXWriter.EndDocument | src/com/gregorpurdy/xml/bsax/SAXWriter.java:78-80 | writes the end-document opcode |
| SaxWriter.SAXWriter.EndElement | src/com/gregorpurdy/xml/bsax/SAXWriter.java:85-95 | writes the end-element record of the three names |
| SaxWriter.SAXWriter.EndPrefixMapping | src/com/gregorpurdy/xml/bsax/SAXWriter.java:100-105 | writes the end-prefix-mapping record |
| SaxWriter.SAXWriter.IgnorableWhitespace | src/com/gregorpurdy/xml/bsax/SAXWriter.java:191-197 | writes the whitespace record |
| SaxWriter.SAXWriter.NotationDecl | src/com/gregorpurdy/xml/bsax/SAXWriter.java:213-223 | writes the notation record under opcode 10 |
| SaxWriter.SAXWriter.ProcessingInstruction | src/com/gregorpurdy/xml/bsax/SAXWriter.java:228-236 | writes the processing-instruction record |
| SaxWriter.SAXWriter.SkippedEntity | src/com/gregorpurdy/xml/bsax/SAXWriter.java:258-263 | writes the skipped-entity record |
| SaxWriter.SAXWriter.StartDocument | src/com/gregorpurdy/xml/bsax/SAXWriter.java:274-285 | corrected: writes the magic bytes, version 1, table size 0 and the start-document opcode, in that order |
| SaxWriter.SAXWriter.StartDocumentAsWritten | src/com/gregorpurdy/xml/bsax/SAXWriter.java:274-285 | as written: writes whatever the shared magic array holds, then version 1, table size 0 and the start-document opcode |
| SaxWriter.SAXWriter.StartElement | src/com/gregorpurdy/xml/bsax/SAXWriter.java:290-317 | writes the element record, the attribute count and then one attribute record per attribute in order |
| SaxWriter.SAXWriter.WriteAttributes | src/com/gregorpurdy/xml/bsax/SAXWriter.java:304-316 | the attribute loop writes the attribute records in order |
| SaxWriter.SAXWriter.WriteAttribute | src/com/gregorpurdy/xml/bsax/SAXWriter.java:305-315 | interns all five fields, then writes the attribute opcode and five ids |
| SaxWriter.SAXWriter.StartPrefixMapping | src/com/gregorpurdy/xml/bsax/SAXWriter.java:322-329 | writes the start-prefix-mapping record |
| SaxWriter.SAXWriter.UnparsedEntityDecl | src/com/gregorpurdy/xml/bsax/SAXWriter.java:334-346 | writes the unparsed-entity record under opcode 13 |
| OperandCounts.EmitWritesOperandCount | src/com/gregorpurdy/xml/bsax/BSAXConstants.java:19-32 | every event the writer emits writes its opcode followed by the documented number of integers: one id per string of the event, and for a start element also the attribute count |
| OperandCounts.AttributeWritesOperandCount | src/com/gregorpurdy/xml/bsax/BSAXConstants.java:23 | an attribute record is `OP_ATTRIBUTE` followed by the documented five ids |
| OperandCounts.DispatchReadsOperandCount | src/com/gregorpurdy/xml/bsax/AbstractBSAXReader.java:227-278 | after the opcode of a record of strings only, the reader reads exactly the documented number of operands and makes one hook call, that opcode's, with those operands in order |
| OperandCounts.ElementStartReadsOperandCount | src/com/gregorpurdy/xml/bsax/AbstractBSAXReader.java:352-359 | after `OP_START_ELEMENT` the reader reads exactly four operands and hands them to `doOpStartElement` in order |
| OperandCounts.AttributeRecordReadsOperandCount | src/com/gregorpurdy/xml/bsax/AbstractBSAXReader.java:373-379 | after `OP_ATTRIBUTE` the reader reads exactly five operands and hands them to `doOpAttribute` in order |
| StreamRoundTrip.SyncRef | src/com/gregorpurdy/xml/sax/BSAXReader.java:422-439 | when the reader's table is in step with the writer's map, a reference to a string's id reads that string |
| StreamRoundTrip.DefinitionReplay | src/com/gregorpurdy/xml/sax/BSAXReader.java:196-237 | the writer's definition of its next id is appended to the reader's table |
| StreamRoundTrip.InternReplay | src/com/gregorpurdy/xml/bsax/SAXWriter.java:164-186 | whatever interning writes, the reader consumes without delivering anything, and the two stay in step |
| StreamRoundTrip.RecordReplay | src/com/gregorpurdy/xml/bsax/SAXWriter.java:85-95 | after a record's definitions, the reader is left at the opcode and ids, with the ids naming the fields |
| StreamRoundTrip.AttributesReplay | src/com/gregorpurdy/xml/sax/BSAXReader.java:165-178 | the reader's attribute loop reads back the attributes the writer wrote, in order |
| StreamRoundTrip.StartElementReplay | src/com/gregorpurdy/xml/sax/BSAXReader.java:156-181 | a written start element is delivered with its names and its attributes |
| StreamRoundTrip.EmitReplay | src/com/gregorpurdy/xml/sax/BSAXReader.java:363-387 | every event after the header that the reader dispatches is delivered back after it is written |
| StreamRoundTrip.EmitAllReplay | src/com/gregorpurdy/xml/sax/BSAXReader.java:355-391 | a written sequence of such events is delivered back in order |
| StreamRoundTrip.StartDocumentWritten | src/com/gregorpurdy/xml/bsax/SAXWriter.java:274-285 | a fresh writer's start of the document is read as the header, an unlimited table and the start-document event |
| StreamRoundTrip.WrittenDocumentParses | src/com/gregorpurdy/xml/sax/BSAXReader.java:300-395 | round trip: parsing what a fresh writer wrote for a document delivers the same events, and the parse does not fail |
| StreamRoundTrip.ReservedDefinitionRefused | src/com/gregorpurdy/xml/sax/BSAXReader.java:199-201 | a definition of id 1 stops parsing with an error |
| StreamRoundTrip.InitAsWrittenDefinitionRefused | src/com/gregorpurdy/xml/bsax/SAXWriter.java:205-208 | after `init` as written, the first new string is given id 1, and reading its definition stops parsing with an error |
| StreamRoundTrip.BeyondEndDefinitionRefused | src/com/gregorpurdy/xml/sax/BSAXReader.java:219-229 | under an unlimited table, a definition of an id beyond the end of the table stops parsing with an error |
| StreamRoundTrip.LaterWriterDefinitionRefused | src/com/gregorpurdy/xml/bsax/SAXWriter.java:44-56 | as written: a writer whose shared counter is already at some k > 2 defines its first new string as id k, and a fresh reader stops at that definition with an error |

## Left out

- Streams: `java.io` streams are modelled as a byte sequence with a cursor for input and as the
  bytes written so far for output. A read returns every byte asked for while any remain; short
  reads and `IOException` are not modelled.
- The SAX handler plumbing is not modelled: handler getters and setters, features and
  properties, `resolveEntity`, `setDocumentLocator`, and the `parse(InputSource)` and
  `parse(String)` overloads.
- `BSAXReader` delivers to its content handler. The model records the delivered events in a
  `handled` field instead.
- `AbstractBSAXReader`'s abstract hooks are modelled as a recorded sequence of hook calls.
  Exceptions a subclass's hook might throw are not modelled.
- The `finally` blocks that clear the stream field are not modelled, because the stream is a
  method parameter in the model.
- Java's conversion between `String` and UTF-8 bytes is not modelled. It is a library call, and
  string payloads are byte sequences here. So the `start` and `length` of a `char[]` range index
  the UTF-8 bytes of the characters, where the source indexes UTF-16 code units.
- `UTF8Codec.byteToString` only formats error messages and is not modelled.
- Errors are datatypes rather than exception messages. A Java
  `NullPointerException` on a null ignorable-whitespace string is the error `NullWhitespace`.
- Utf8Codec.Utf8ToInt: when the array is shorter than its leading byte announces, the source
  reads past the end and throws an index exception. The model returns the explicit error
  `TruncatedSequence` instead.
- SaxWriter.SAXWriter: `nextStringId` is a `static` field shared by every writer in the source,
  and the constructor does not reset it. The model keeps the counter per instance, starting at 2.
  A later writer in the same JVM starts at the count the earlier ones reached, and a fresh reader
  refuses its first definition. StreamRoundTrip.LaterWriterDefinitionRefused states that case
  on the pure writer; see "## Findings".
- SaxWriter.SAXWriter.StartDocument: writes the constant magic bytes. In the source it writes the
  shared `BSAXConstants.MAGIC` array, which a reader's magic check as written overwrites with
  the first bytes of its stream. That aliasing is modelled only by the separate
  SaxWriter.SAXWriter.StartDocumentAsWritten, which takes the array as a parameter. The writer
  and the readers do not share one array object in the model.
- SaxWriter.SAXWriter: the event handlers (`Characters`, `StartElement` and the others) state
  their result and new state only when they succeed. After an error, the definitions and bytes
  already written before it are not stated. GetStringId and GetCharsStringId do state their
  state after an error.
- SaxWriter.SAXWriter.NotationDecl and SaxWriter.SAXWriter.UnparsedEntityDecl write their
  records, but neither reader dispatches opcodes 10 and 13. So these two events have no read
  side, and the round trip excludes them.
- StreamRoundTrip.WrittenDocumentParses: states the round trip for event lists with
  `startDocument` first and only there. The writer writes a whole header for every
  `startDocument`, so a second one is not read back as one event. Notation and unparsed-entity
  declarations are excluded for the reason above.
- AbstractReaderProperties.DefinitionAgreesWithTable: requires the list to hold fewer than
  2^31-1 entries. At that size the Java `int` counter wraps and the two readers part ways.
- The constants `VERSION_LATEST`, `VERSION_UNKNOWN`, `STARTING_STRING_TABLE_SIZE`, `MIN_OP` and
  `MAX_OP` are used by `AbstractBSAXReader` but not defined in `BSAXConstants.java`. The model
  takes 1, 0, 2 (the two reserved entries), 0 and 13.
- The state of a reader's fields after a refused header is not stated beyond the hook calls and
  the events delivered.

## Findings

| source | as written | input that shows it | evidently intended | confidence | as-written member | corrected member |
|---|---|---|---|---|---|---|
| src/com/gregorpurdy/xml/sax/BSAXReader.java:308-320 | the header is read into the `MAGIC` constant array itself and then compared with that same array, so the magic test passes for any four bytes (`AbstractBSAXReader.java:36,151-161` does the same). The array is shared: `SAXWriter.startDocument` (`SAXWriter.java:276`) writes it, so every later writer in the JVM writes the overwritten bytes as its magic | a stream starting with the bytes "XML?": the reader accepts it, and every writer's `startDocument` afterwards writes "XML?", which the intended check refuses | read into a separate buffer and compare it with the magic bytes | not executed | BSAXHeader.CheckMagicAsWritten, BSAXHeader.MagicAsWrittenAcceptsOtherBytes, SaxWriter.SAXWriter.StartDocumentAsWritten, BSAXHeader.HeaderOfWrittenMagic | BSAXHeader.CheckMagic, BSAXHeader.MagicChecked, SaxWriter.SAXWriter.StartDocument |
| src/com/gregorpurdy/xml/bsax/SAXWriter.java:205-208 | `init()` clears the map and sets the counter to 1, the reserved id of the empty string | `init()`, then any event with a non-empty string: that string is defined as id 1, and both readers refuse to redefine id 1 | reset the counter to the first free id, 2 | not executed | SaxWriter.SAXWriter.InitAsWritten, StreamRoundTrip.InitAsWrittenDefinitionRefused | SaxWriter.SAXWriter.Init, StreamRoundTrip.WrittenDocumentParses |
| src/com/gregorpurdy/xml/bsax/SAXWriter.java:44-56 | `nextStringId` is `static` and the constructor never resets it, so every writer after the first in a JVM starts numbering where the earlier writers stopped | a second writer, whose counter is at some k > 2 after the first writer defined strings, writes `startDocument` and then an event with a new string: the string is defined as id k, and a fresh reader refuses an id beyond the end of its two-entry table | a counter per writer that starts at the first free id, 2 | not executed | StreamRoundTrip.LaterWriterDefinitionRefused | SaxWriter.SAXWriter.constructor, StreamRoundTrip.WrittenDocumentParses |
