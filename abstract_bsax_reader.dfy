/**
 * `AbstractBSAXReader.java`: the second decoder. It reads the same header and records as
 * `BSAXReader`, but keeps no string table: a subclass is handed the raw string ids through a
 * family of hooks (`doStartStream`, `doOpString`, `doOpStartElement`, ...). It only counts the
 * entries of an unlimited table, to refuse a definition more than one past the end.
 *
 * The subclass is code this model cannot see, so each hook call is recorded in a trace: what a
 * parse does is the sequence of hook calls it makes and the exception that ends it, if any. What
 * one record does is a pure function of the bytes not yet read and of the reader's `State`
 * (`Definition`, `Dispatch`), what a whole stream does is `Traced`, and the class is proved to
 * carry those out.
 */
module AbstractReader {
  import opened Wrappers
  import opened JavaTypes
  import opened BSAXConstants
  import opened BSAXUtil
  import opened Streams
  import opened BSAXHeader

  /** A call on one of the subclass's hooks, with the arguments it is given. */
  datatype Hook =
    | StartStream
    | OpString(id: int, value: Bytes)
    | OpStartDocument
    | OpEndDocument
    | OpStartElement(uri: int, localName: int, qName: int, attributeCount: int)
    | OpAttribute(index: int, uri: int, localName: int, qName: int, attrType: int, attrValue: int)
    | OpStartElementFinalize
    | OpEndElement(uri: int, localName: int, qName: int)
    | OpCharacters(characters: int)
    | OpIgnorableWhitespace(characters: int)
    | OpStartPrefixMapping(prefix: int, uri: int)
    | OpEndPrefixMapping(prefix: int)
    | OpProcessingInstruction(target: int, data: int)
    | OpSkippedEntity(name: int)

  /**
   * What a record depends on and changes: the declared `maxStringTableSize`, the
   * `currentStringTableSize` counter, and the hook calls made so far.
   */
  datatype State = State(max: int, current: int32, calls: seq<Hook>) {
    /** The state after one more hook call. */
    function Call(h: Hook): (s: State)
      ensures s.max == max && s.current == current && s.calls == calls + [h]
    {
      this.(calls := calls + [h])
    }

    /** The parse ends here with `error`, after the calls made so far. */
    function Stop(error: ReadError): (stopped: Stopped)
      ensures stopped.calls == calls && stopped.error == error
    {
      Stopped(calls, error)
    }
  }

  /** A parse that ended with an exception: the hook calls made before it, and the exception. */
  datatype Stopped = Stopped(calls: seq<Hook>, error: ReadError)

  /** What a whole parse does: the hook calls made, and the exception that ended it, if any. */
  datatype Outcome = Outcome(calls: seq<Hook>, failure: Option<ReadError>)

  /** The counter right after the header: the two reserved entries, or the declared size. */
  function Start(max: int): (current: int32)
    requires 0 <= max <= MAX_INT
    ensures max == UNLIMITED_STRING_TABLE_SIZE ==> current == STARTING_STRING_TABLE_SIZE
    ensures max != UNLIMITED_STRING_TABLE_SIZE ==> current == max
  {
    if max == UNLIMITED_STRING_TABLE_SIZE then STARTING_STRING_TABLE_SIZE else max
  }

  /** `readInt()`: an operand; a failure stops the parse after the calls of `s`. */
  function Id(input: seq<byte>, s: State): (r: Result<(int, seq<byte>), Stopped>)
    ensures r.Ok? ==> 0 <= r.value.0 <= MAX_INT && |r.value.1| < |input|
    ensures r.Err? ==> r.error.calls == s.calls
  {
    match Operand(input)
    case Err(e) => Err(s.Stop(e))
    case Ok(v) => Ok(v)
  }

  /** `readString(stream)`: a length-prefixed payload. */
  function Value(input: seq<byte>, s: State): (r: Result<(Bytes, seq<byte>), Stopped>)
    ensures r.Ok? ==> |r.value.1| < |input|
    ensures r.Err? ==> r.error.calls == s.calls
  {
    match Payload(input)
    case Err(e) => Err(s.Stop(e))
    case Ok(v) => Ok(v)
  }

  /*
   * Records
   */

  /**
   * `internalOpString`: an id, which may not be a reserved one nor, in a bounded table, beyond
   * the declared size; then the string. An unlimited table counts a definition just past its end
   * and refuses one further on; then the subclass is told.
   */
  function Definition(input: seq<byte>, s: State): (r: Result<(State, seq<byte>), Stopped>)
    ensures r.Ok? ==> |r.value.1| < |input| && r.value.0.max == s.max
  {
    var (id, afterId) :- Id(input, s);
    if id < 2 then Err(s.Stop(ReservedEntry(id)))
    else if s.max != UNLIMITED_STRING_TABLE_SIZE && id >= s.max then Err(s.Stop(BeyondFixedTable(id)))
    else
      var (value, rest) :- Value(afterId, s);
      if s.max == UNLIMITED_STRING_TABLE_SIZE && id == s.current then
        Ok((s.(current := Increment(s.current)).Call(OpString(id, value)), rest))
      else if s.max == UNLIMITED_STRING_TABLE_SIZE && id > s.current then
        Err(s.Stop(BeyondTableEnd(id)))
      else
        Ok((s.Call(OpString(id, value)), rest))
  }

  function CharactersOp(input: seq<byte>, s: State): (r: Result<(State, seq<byte>), Stopped>)
  {
    var (characters, rest) :- Id(input, s);
    Ok((s.Call(OpCharacters(characters)), rest))
  }

  function IgnorableWhitespaceOp(input: seq<byte>, s: State): (r: Result<(State, seq<byte>), Stopped>)
  {
    var (characters, rest) :- Id(input, s);
    Ok((s.Call(OpIgnorableWhitespace(characters)), rest))
  }

  function EndElementOp(input: seq<byte>, s: State): (r: Result<(State, seq<byte>), Stopped>)
  {
    var (uri, afterUri) :- Id(input, s);
    var (localName, afterLocalName) :- Id(afterUri, s);
    var (qName, rest) :- Id(afterLocalName, s);
    Ok((s.Call(OpEndElement(uri, localName, qName)), rest))
  }

  function StartPrefixMappingOp(input: seq<byte>, s: State): (r: Result<(State, seq<byte>), Stopped>)
  {
    var (prefix, afterPrefix) :- Id(input, s);
    var (uri, rest) :- Id(afterPrefix, s);
    Ok((s.Call(OpStartPrefixMapping(prefix, uri)), rest))
  }

  function EndPrefixMappingOp(input: seq<byte>, s: State): (r: Result<(State, seq<byte>), Stopped>)
  {
    var (prefix, rest) :- Id(input, s);
    Ok((s.Call(OpEndPrefixMapping(prefix)), rest))
  }

  function ProcessingInstructionOp(input: seq<byte>, s: State): (r: Result<(State, seq<byte>), Stopped>)
  {
    var (target, afterTarget) :- Id(input, s);
    var (data, rest) :- Id(afterTarget, s);
    Ok((s.Call(OpProcessingInstruction(target, data)), rest))
  }

  function SkippedEntityOp(input: seq<byte>, s: State): (r: Result<(State, seq<byte>), Stopped>)
  {
    var (name, rest) :- Id(input, s);
    Ok((s.Call(OpSkippedEntity(name)), rest))
  }

  /**
   * The inner loop of `internalOpStartElement`: string definitions are applied until another
   * opcode comes, which must be `OP_ATTRIBUTE`. `AfterOpcode` goes on once the opcode is read.
   */
  function AttributeOpcode(input: seq<byte>, s: State): (r: Result<(State, seq<byte>), Stopped>)
    ensures r.Ok? ==> |r.value.1| < |input| && r.value.0.max == s.max
    decreases |input|, 1
  {
    var (op, afterOp) :- Id(input, s);
    AfterOpcode(op, afterOp, s)
  }

  function AfterOpcode(op: int, input: seq<byte>, s: State): (r: Result<(State, seq<byte>), Stopped>)
    ensures r.Ok? ==> |r.value.1| <= |input| && r.value.0.max == s.max
    decreases |input|, 0
  {
    if op == OP_STRING then
      var (s1, rest) :- Definition(input, s);
      AttributeOpcode(rest, s1)
    else if op != OP_ATTRIBUTE then Err(s.Stop(IllegalAttributeOpcode(op)))
    else Ok((s, input))
  }

  /** Attribute number `i`: the definitions before it, its five ids, and the `doOpAttribute` call. */
  function NextAttribute(input: seq<byte>, s: State, i: int): (r: Result<(State, seq<byte>), Stopped>)
    ensures r.Ok? ==> |r.value.1| < |input| && r.value.0.max == s.max
  {
    var (s1, afterOp) :- AttributeOpcode(input, s);
    AttributeRecord(afterOp, s1, i)
  }

  /** The five ids of attribute number `i`, in the order they are written, and `doOpAttribute`. */
  function AttributeRecord(input: seq<byte>, s: State, i: int): (r: Result<(State, seq<byte>), Stopped>)
    ensures r.Ok? ==> |r.value.1| < |input| && r.value.0.max == s.max
  {
    var (uri, afterUri) :- Id(input, s);
    var (localName, afterLocalName) :- Id(afterUri, s);
    var (qName, afterQName) :- Id(afterLocalName, s);
    var (attrType, afterType) :- Id(afterQName, s);
    var (value, rest) :- Id(afterType, s);
    Ok((s.Call(OpAttribute(i, uri, localName, qName, attrType, value)), rest))
  }

  /** The outer loop of `internalOpStartElement`, from attribute number `i` to `count`. */
  function AttributesFrom(input: seq<byte>, s: State, i: int, count: int): (r: Result<(State, seq<byte>), Stopped>)
    ensures r.Ok? ==> |r.value.1| <= |input| && r.value.0.max == s.max
    decreases count - i
  {
    if i >= count then Ok((s, input))
    else
      var (s1, rest) :- NextAttribute(input, s, i);
      AttributesFrom(rest, s1, i + 1, count)
  }

  lemma {:induction false} AttributesFromStep(input: seq<byte>, s: State, i: int, count: int)
    requires i < count
    ensures var next := NextAttribute(input, s, i);
      AttributesFrom(input, s, i, count) ==
        if next.Err? then Err(next.error) else AttributesFrom(next.value.1, next.value.0, i + 1, count)
  {
  }

  /**
   * `internalOpStartElement`: three names and the attribute count, and the subclass is told at
   * once; then the attributes; then `doOpStartElementFinalize`.
   */
  function StartElementOp(input: seq<byte>, s: State): (r: Result<(State, seq<byte>), Stopped>)
    ensures r.Ok? ==> |r.value.1| <= |input| && r.value.0.max == s.max
  {
    var (start, afterCount) :- ElementStart(input, s);
    var (s1, rest) :- AttributesFrom(afterCount, s.Call(start), 0, start.attributeCount);
    Ok((s1.Call(OpStartElementFinalize), rest))
  }

  /** The three names and the attribute count of a start element, as the `doOpStartElement` call. */
  function ElementStart(input: seq<byte>, s: State): (r: Result<(Hook, seq<byte>), Stopped>)
    ensures r.Ok? ==> r.value.0.OpStartElement? && |r.value.1| < |input|
    ensures r.Err? ==> r.error.calls == s.calls
  {
    var (uri, afterUri) :- Id(input, s);
    var (localName, afterLocalName) :- Id(afterUri, s);
    var (qName, afterQName) :- Id(afterLocalName, s);
    var (count, afterCount) :- Id(afterQName, s);
    Ok((OpStartElement(uri, localName, qName, count), afterCount))
  }

  /**
   * The dispatch of `parse` on an opcode other than the end of input: the range check, then
   * the switch, whose default refuses the two declarations.
   */
  function Dispatch(op: int, input: seq<byte>, s: State): (r: Result<(State, seq<byte>), Stopped>)
    ensures r.Ok? ==> |r.value.1| <= |input| && r.value.0.max == s.max
  {
    if op < MIN_OP || op > MAX_OP then Err(s.Stop(UnrecognizedOpcode(op)))
    else if op == OP_STRING then Definition(input, s)
    else if op == OP_START_DOCUMENT then Ok((s.Call(OpStartDocument), input))
    else if op == OP_END_DOCUMENT then Ok((s.Call(OpEndDocument), input))
    else if op == OP_START_ELEMENT then StartElementOp(input, s)
    else if op == OP_ATTRIBUTE then Err(s.Stop(AttributeOutsideElement))
    else if op == OP_END_ELEMENT then EndElementOp(input, s)
    else if op == OP_CHARACTERS then CharactersOp(input, s)
    else if op == OP_IGNORABLE_WHITESPACE then IgnorableWhitespaceOp(input, s)
    else if op == OP_START_PREFIX_MAPPING then StartPrefixMappingOp(input, s)
    else if op == OP_END_PREFIX_MAPPING then EndPrefixMappingOp(input, s)
    else if op == OP_PROCESSING_INSTRUCTION then ProcessingInstructionOp(input, s)
    else if op == OP_SKIPPED_ENTITY then SkippedEntityOp(input, s)
    else Err(s.Stop(UnrecognizedOpcode(op)))
  }

  /** The loop of `parse` from `input` on: records until the input ends at an opcode boundary. */
  function Records(input: seq<byte>, s: State): (outcome: Outcome)
    decreases |input|
  {
    match Opcode(input)
    case Err(e) => Outcome(s.calls, Some(e))
    case Ok((op, afterOp)) =>
      if op == -1 then Outcome(s.calls, None)
      else
        match Dispatch(op, afterOp, s)
        case Err(stopped) => Outcome(stopped.calls, Some(stopped.error))
        case Ok((s1, rest)) => Records(rest, s1)
  }

  /** One turn of the loop of `parse`: a record that fails ends it, any other goes on after it. */
  lemma {:induction false} RecordsStep(input: seq<byte>, s: State, op: int, afterOp: seq<byte>)
    requires Opcode(input) == Ok((op, afterOp)) && op != -1
    ensures var result := Dispatch(op, afterOp, s);
      Records(input, s) ==
        if result.Err? then Outcome(result.error.calls, Some(result.error.error))
        else Records(result.value.1, result.value.0)
  {
  }

  /**
   * `parse(InputStream)` with the intended magic check, on a reader whose earlier parses made
   * the calls `before`: the header, `doStartStream`, then the records.
   */
  function Traced(input: seq<byte>, before: seq<Hook>): (outcome: Outcome)
  {
    match Header(input)
    case Err(e) => Outcome(before, Some(e))
    case Ok((max, rest)) =>
      HeaderAccepts(input, max, rest);
      Records(rest, State(max, Start(max), before + [StartStream]))
  }

  /** An `AbstractBSAXReader` during a parse; `calls` is the hook calls made so far. */
  class AbstractBSAXReader {
    var version: int
    var maxStringTableSize: int
    var currentStringTableSize: int32
    var calls: seq<Hook>

    function Fields(): State
      reads this
    {
      State(maxStringTableSize, currentStringTableSize, calls)
    }

    constructor()
      ensures version == VERSION_UNKNOWN && maxStringTableSize == UNLIMITED_STRING_TABLE_SIZE
      ensures currentStringTableSize == STARTING_STRING_TABLE_SIZE && calls == []
    {
      version := VERSION_UNKNOWN;
      maxStringTableSize := UNLIMITED_STRING_TABLE_SIZE;
      currentStringTableSize := STARTING_STRING_TABLE_SIZE;
      calls := [];
    }

    /**
     * A record did what `expected` says: on success the state and the bytes left are its; on
     * failure the calls made and the exception are its.
     */
    twostate predicate Did(stream: InputStream, new r: Result<(), ReadError>, new expected: Result<(State, seq<byte>), Stopped>)
      reads this, stream
    {
      stream.Valid() && stream.data == old(stream.data) &&
      version == old(version) && maxStringTableSize == old(maxStringTableSize) &&
      if r.Ok? then
        expected.Ok? && Fields() == expected.value.0 && stream.Remaining() == expected.value.1
      else
        expected == Err(Stopped(calls, r.error))
    }

    /** `internalOpString()`. */
    method InternalOpString(stream: InputStream) returns (r: Result<(), ReadError>)
      requires stream.Valid()
      modifies this, stream
      ensures Did(stream, r, Definition(old(stream.Remaining()), old(Fields())))
    {
      var id :- ReadOperand(stream);
      if id < 2 {
        return Err(ReservedEntry(id));
      }
      if maxStringTableSize != UNLIMITED_STRING_TABLE_SIZE && id >= maxStringTableSize {
        return Err(BeyondFixedTable(id));
      }
      var value :- ReadPayload(stream);
      if maxStringTableSize == UNLIMITED_STRING_TABLE_SIZE {
        if id == currentStringTableSize {
          currentStringTableSize := Increment(currentStringTableSize);
        } else if id > currentStringTableSize {
          return Err(BeyondTableEnd(id));
        }
      }
      calls := calls + [OpString(id, value)];
      return Ok(());
    }

    method InternalOpSkippedEntity(stream: InputStream) returns (r: Result<(), ReadError>)
      requires stream.Valid()
      modifies this, stream
      ensures Did(stream, r, SkippedEntityOp(old(stream.Remaining()), old(Fields())))
    {
      var name :- ReadOperand(stream);
      calls := calls + [OpSkippedEntity(name)];
      return Ok(());
    }

    method InternalOpProcessingInstruction(stream: InputStream) returns (r: Result<(), ReadError>)
      requires stream.Valid()
      modifies this, stream
      ensures Did(stream, r, ProcessingInstructionOp(old(stream.Remaining()), old(Fields())))
    {
      var target :- ReadOperand(stream);
      var data :- ReadOperand(stream);
      calls := calls + [OpProcessingInstruction(target, data)];
      return Ok(());
    }

    method InternalOpCharacters(stream: InputStream) returns (r: Result<(), ReadError>)
      requires stream.Valid()
      modifies this, stream
      ensures Did(stream, r, CharactersOp(old(stream.Remaining()), old(Fields())))
    {
      var characters :- ReadOperand(stream);
      calls := calls + [OpCharacters(characters)];
      return Ok(());
    }

    method InternalOpEndElement(stream: InputStream) returns (r: Result<(), ReadError>)
      requires stream.Valid()
      modifies this, stream
      ensures Did(stream, r, EndElementOp(old(stream.Remaining()), old(Fields())))
    {
      var uri :- ReadOperand(stream);
      var localName :- ReadOperand(stream);
      var qName :- ReadOperand(stream);
      calls := calls + [OpEndElement(uri, localName, qName)];
      return Ok(());
    }

    method InternalOpIgnorableWhitespace(stream: InputStream) returns (r: Result<(), ReadError>)
      requires stream.Valid()
      modifies this, stream
      ensures Did(stream, r, IgnorableWhitespaceOp(old(stream.Remaining()), old(Fields())))
    {
      var characters :- ReadOperand(stream);
      calls := calls + [OpIgnorableWhitespace(characters)];
      return Ok(());
    }

    method InternalOpStartPrefixMapping(stream: InputStream) returns (r: Result<(), ReadError>)
      requires stream.Valid()
      modifies this, stream
      ensures Did(stream, r, StartPrefixMappingOp(old(stream.Remaining()), old(Fields())))
    {
      var prefix :- ReadOperand(stream);
      var uri :- ReadOperand(stream);
      calls := calls + [OpStartPrefixMapping(prefix, uri)];
      return Ok(());
    }

    method InternalOpEndPrefixMapping(stream: InputStream) returns (r: Result<(), ReadError>)
      requires stream.Valid()
      modifies this, stream
      ensures Did(stream, r, EndPrefixMappingOp(old(stream.Remaining()), old(Fields())))
    {
      var prefix :- ReadOperand(stream);
      calls := calls + [OpEndPrefixMapping(prefix)];
      return Ok(());
    }

    /** `internalOpStartElement()`. */
    method InternalOpStartElement(stream: InputStream) returns (r: Result<(), ReadError>)
      requires stream.Valid()
      modifies this, stream
      ensures Did(stream, r, StartElementOp(old(stream.Remaining()), old(Fields())))
    {
      var uri :- ReadOperand(stream);
      var localName :- ReadOperand(stream);
      var qName :- ReadOperand(stream);
      var attributeCount :- ReadOperand(stream);
      calls := calls + [OpStartElement(uri, localName, qName, attributeCount)];
      var _ :- ReadAttributes(stream, attributeCount);
      calls := calls + [OpStartElementFinalize];
      return Ok(());
    }

    /** The attribute loop of `internalOpStartElement()`. */
    method ReadAttributes(stream: InputStream, attributeCount: int) returns (r: Result<(), ReadError>)
      requires stream.Valid()
      modifies this, stream
      ensures Did(stream, r, AttributesFrom(old(stream.Remaining()), old(Fields()), 0, attributeCount))
    {
      ghost var expected := AttributesFrom(stream.Remaining(), Fields(), 0, attributeCount);
      var i := 0;
      while i < attributeCount
        invariant stream.Valid() && stream.data == old(stream.data)
        invariant version == old(version) && maxStringTableSize == old(maxStringTableSize)
        invariant expected == AttributesFrom(stream.Remaining(), Fields(), i, attributeCount)
        decreases attributeCount - i
      {
        AttributesFromStep(stream.Remaining(), Fields(), i, attributeCount);
        var _ :- ReadAttribute(stream, i);
        i := i + 1;
      }
      return Ok(());
    }

    /** One turn of the attribute loop: definitions until `OP_ATTRIBUTE`, then attribute `i`. */
    method ReadAttribute(stream: InputStream, i: int) returns (r: Result<(), ReadError>)
      requires stream.Valid()
      modifies this, stream
      ensures Did(stream, r, NextAttribute(old(stream.Remaining()), old(Fields()), i))
    {
      ghost var beforeOp := stream.Remaining();
      ghost var beforeState := Fields();
      var attrOpCode :- ReadOperand(stream);
      while attrOpCode == OP_STRING
        invariant stream.Valid() && stream.data == old(stream.data)
        invariant version == old(version) && maxStringTableSize == old(maxStringTableSize)
        invariant AttributeOpcode(beforeOp, beforeState) == AfterOpcode(attrOpCode, stream.Remaining(), Fields())
        decreases |stream.Remaining()|
      {
        var _ :- InternalOpString(stream);
        attrOpCode :- ReadOperand(stream);
      }
      if attrOpCode != OP_ATTRIBUTE {
        return Err(IllegalAttributeOpcode(attrOpCode));
      }
      r := ReadAttributeRecord(stream, i);
    }

    /** The five ids of attribute number `i`, and the `doOpAttribute` call. */
    method ReadAttributeRecord(stream: InputStream, i: int) returns (r: Result<(), ReadError>)
      requires stream.Valid()
      modifies this, stream
      ensures Did(stream, r, AttributeRecord(old(stream.Remaining()), old(Fields()), i))
    {
      var attrUri :- ReadOperand(stream);
      var attrLocalName :- ReadOperand(stream);
      var attrQName :- ReadOperand(stream);
      var attrType :- ReadOperand(stream);
      var attrValue :- ReadOperand(stream);
      calls := calls + [OpAttribute(i, attrUri, attrLocalName, attrQName, attrType, attrValue)];
      return Ok(());
    }

    /** The range check and the switch of `parse`, for an opcode other than the end of input. */
    method DoOp(stream: InputStream, opCode: int) returns (r: Result<(), ReadError>)
      requires stream.Valid()
      modifies this, stream
      ensures Did(stream, r, Dispatch(opCode, old(stream.Remaining()), old(Fields())))
    {
      if opCode < MIN_OP || opCode > MAX_OP {
        return Err(UnrecognizedOpcode(opCode));
      }
      if opCode == OP_STRING {
        r := InternalOpString(stream);
      } else if opCode == OP_START_DOCUMENT {
        calls := calls + [OpStartDocument];
        r := Ok(());
      } else if opCode == OP_END_DOCUMENT {
        calls := calls + [OpEndDocument];
        r := Ok(());
      } else if opCode == OP_START_ELEMENT {
        r := InternalOpStartElement(stream);
      } else if opCode == OP_ATTRIBUTE {
        r := Err(AttributeOutsideElement);
      } else if opCode == OP_END_ELEMENT {
        r := InternalOpEndElement(stream);
      } else if opCode == OP_CHARACTERS {
        r := InternalOpCharacters(stream);
      } else if opCode == OP_IGNORABLE_WHITESPACE {
        r := InternalOpIgnorableWhitespace(stream);
      } else if opCode == OP_START_PREFIX_MAPPING {
        r := InternalOpStartPrefixMapping(stream);
      } else if opCode == OP_END_PREFIX_MAPPING {
        r := InternalOpEndPrefixMapping(stream);
      } else if opCode == OP_PROCESSING_INSTRUCTION {
        r := InternalOpProcessingInstruction(stream);
      } else if opCode == OP_SKIPPED_ENTITY {
        r := InternalOpSkippedEntity(stream);
      } else {
        r := Err(UnrecognizedOpcode(opCode));
      }
    }

    /**
     * The part of `parse` before the record loop: magic, version, table size, the counter, and
     * `doStartStream`.
     */
    method ReadHeader(stream: InputStream, magic: array<byte>) returns (r: Result<(), ReadError>)
      requires stream.Valid() && magic[..] == MAGIC
      modifies this, stream
      ensures stream.Valid() && stream.data == old(stream.data)
      ensures Header(old(stream.Remaining())) ==
        if r.Ok? then Ok((maxStringTableSize, stream.Remaining())) else Err(r.error)
      ensures r.Ok? ==> 0 <= maxStringTableSize <= MAX_INT && version == VERSION_LATEST
      ensures r.Ok? ==>
        Fields() == State(maxStringTableSize, Start(maxStringTableSize), old(calls) + [StartStream])
      ensures r.Err? ==> calls == old(calls)
    {
      var _ :- CheckMagic(stream, magic);
      version :- ReadOperand(stream);
      if version != VERSION_LATEST {
        return Err(UnknownVersion(version));
      }
      maxStringTableSize :- ReadOperand(stream);
      if maxStringTableSize > 0 && maxStringTableSize < MINIMUM_STRING_TABLE_SIZE {
        return Err(BadTableSize(maxStringTableSize));
      }
      if maxStringTableSize == UNLIMITED_STRING_TABLE_SIZE {
        currentStringTableSize := STARTING_STRING_TABLE_SIZE;
      } else {
        currentStringTableSize := maxStringTableSize;
      }
      calls := calls + [StartStream];
      return Ok(());
    }

    /** The record loop of `parse`: one record per turn until the input ends or a record fails. */
    method ReadRecords(stream: InputStream) returns (r: Result<(), ReadError>)
      requires stream.Valid()
      modifies this, stream
      ensures stream.Valid()
      ensures var outcome := Records(old(stream.Remaining()), old(Fields()));
        calls == outcome.calls && outcome.failure == if r.Ok? then None else Some(r.error)
    {
      ghost var outcome := Records(stream.Remaining(), Fields());
      while true
        invariant stream.Valid() && outcome == Records(stream.Remaining(), Fields())
        decreases |stream.Remaining()|
      {
        ghost var beforeOp := stream.Remaining();
        var opCode :- ReadOpcode(stream);
        if opCode == -1 {
          break;
        }
        RecordsStep(beforeOp, Fields(), opCode, stream.Remaining());
        var _ :- DoOp(stream, opCode);
      }
      return Ok(());
    }

    /**
     * `parse(InputStream)`, with the intended magic check: the calls made and the exception
     * thrown are `Traced`'s.
     */
    method Parse(stream: InputStream, magic: array<byte>) returns (r: Result<(), ReadError>)
      requires stream.Valid() && magic[..] == MAGIC
      modifies this, stream
      ensures stream.Valid()
      ensures var outcome := Traced(old(stream.Remaining()), old(calls));
        calls == outcome.calls && outcome.failure == if r.Ok? then None else Some(r.error)
    {
      r := ReadHeader(stream, magic);
      if r.Ok? {
        r := ReadRecords(stream);
      }
    }
  }
}
