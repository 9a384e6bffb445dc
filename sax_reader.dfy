/**
 * `BSAXReader.java`: the decoder. It checks the header, then reads opcodes until the input ends
 * at an opcode boundary, keeping a string table for the string-definition records and turning
 * every other record into a call on its content handler.
 *
 * What one record does is a pure function of the bytes not yet read and of the string table
 * (`StringOp`, `Ref`, `Operation`), and what a whole stream does is `Parsed`. The `BSAXReader`
 * class, whose table is a sequence it updates in place, is proved to carry those out.
 */
module SaxReader {
  import opened Wrappers
  import opened JavaTypes
  import opened BSAXConstants
  import opened BSAXUtil
  import opened Streams
  import opened SaxEvents
  import opened BSAXHeader

  /**
   * The string table: `max` is the declared `maxStringTableSize` (0 for unlimited) and `entries`
   * the `stringTable` list, indexed by string id.
   */
  datatype Table = Table(max: int, entries: seq<Str>) {
    /**
     * What every table built from an accepted header keeps: an allowed declared size, the two
     * reserved entries, and, when bounded, no more entries than declared.
     */
    predicate Valid()
    {
      (max == UNLIMITED_STRING_TABLE_SIZE || MINIMUM_STRING_TABLE_SIZE <= max) &&
      2 <= |entries| && entries[NULL_STRING_ID] == Null && entries[EMPTY_STRING_ID] == EMPTY &&
      (max != UNLIMITED_STRING_TABLE_SIZE ==> |entries| <= max)
    }
  }

  /** The table right after the header: null at index 0 and "" at index 1. */
  function Initial(max: int): (t: Table)
    ensures (max == UNLIMITED_STRING_TABLE_SIZE || MINIMUM_STRING_TABLE_SIZE <= max) ==> t.Valid()
    ensures |t.entries| == 2
  {
    Table(max, [Null, EMPTY])
  }

  /** What one record does: the handler calls it makes, the table after it, the bytes after it. */
  datatype Step = Step(events: seq<Event>, table: Table, rest: seq<byte>)

  /** What a whole parse does: the handler calls made, and the exception that ended it, if any. */
  datatype Run = Run(events: seq<Event>, failure: Option<ReadError>)

  /*
   * String definitions
   */

  /**
   * The null-padding loop of a bounded table: nulls are added until `id` is an index of the
   * table. The entries already there are kept.
   */
  function Padded(entries: seq<Str>, id: nat): (r: seq<Str>)
    ensures |r| == if id < |entries| then |entries| else id + 1
    ensures r[..|entries|] == entries
    ensures forall k :: |entries| <= k < |r| ==> r[k] == Null
    decreases id - |entries|
  {
    if id < |entries| then entries else Padded(entries + [Null], id)
  }

  /**
   * Where a definition of `id` puts `value`: an unlimited table overwrites an entry or appends
   * just past its end, and refuses anything further; a bounded table pads and then sets.
   */
  function Stored(t: Table, id: nat, value: Str): (r: Result<seq<Str>, ReadError>)
  {
    if t.max == UNLIMITED_STRING_TABLE_SIZE then
      if id < |t.entries| then Ok(t.entries[id := value])
      else if id == |t.entries| then Ok(t.entries + [value])
      else Err(BeyondTableEnd(id))
    else
      Ok(Padded(t.entries, id)[id := value])
  }

  /**
   * `doOpString`: an id, which may not be a reserved one nor, in a bounded table, beyond the
   * declared size; then the string; then the table update.
   */
  function StringOp(input: seq<byte>, t: Table): (r: Result<(Table, seq<byte>), ReadError>)
    ensures r.Ok? ==> |r.value.1| < |input| && r.value.0.max == t.max
  {
    var (id, afterId) :- Operand(input);
    if id < 2 then Err(ReservedEntry(id))
    else if t.max != UNLIMITED_STRING_TABLE_SIZE && id >= t.max then Err(BeyondFixedTable(id))
    else
      var (value, rest) :- Payload(afterId);
      var entries :- Stored(t, id, Text(value));
      Ok((t.(entries := entries), rest))
  }

  /*
   * String references
   */

  /**
   * `readString`: an id, resolved to null, "", or an entry of the table. An id beyond a bounded
   * table's declared size, or beyond the entries there are, is an error.
   */
  function Ref(input: seq<byte>, t: Table): (r: Result<(Str, seq<byte>), ReadError>)
    ensures r.Ok? ==> |r.value.1| < |input|
  {
    var (id, rest) :- Operand(input);
    if id == NULL_STRING_ID then Ok((Null, rest))
    else if id == EMPTY_STRING_ID then Ok((EMPTY, rest))
    else if t.max != UNLIMITED_STRING_TABLE_SIZE && id >= t.max then Err(BeyondFixedReference(id))
    else if id >= |t.entries| then Err(BeyondCurrentReference(id))
    else Ok((t.entries[id], rest))
  }

  /*
   * Records
   */

  /** `doOpCharacters`: a null string delivers nothing, any other string is delivered whole. */
  function CharactersOp(input: seq<byte>, t: Table): (r: Result<Step, ReadError>)
  {
    var (s, rest) :- Ref(input, t);
    var events := if s.Null? then [] else [Characters(s.bytes, 0, |s.bytes|)];
    Ok(Step(events, t, rest))
  }

  /** `doOpIgnorableWhitespace`: a null string is dereferenced and fails. */
  function IgnorableWhitespaceOp(input: seq<byte>, t: Table): (r: Result<Step, ReadError>)
  {
    var (s, rest) :- Ref(input, t);
    if s.Null? then Err(NullWhitespace)
    else Ok(Step([IgnorableWhitespace(s.bytes, 0, |s.bytes|)], t, rest))
  }

  function EndElementOp(input: seq<byte>, t: Table): (r: Result<Step, ReadError>)
  {
    var (uri, afterUri) :- Ref(input, t);
    var (localName, afterLocalName) :- Ref(afterUri, t);
    var (qName, rest) :- Ref(afterLocalName, t);
    Ok(Step([EndElement(uri, localName, qName)], t, rest))
  }

  function StartPrefixMappingOp(input: seq<byte>, t: Table): (r: Result<Step, ReadError>)
  {
    var (prefix, afterPrefix) :- Ref(input, t);
    var (uri, rest) :- Ref(afterPrefix, t);
    Ok(Step([StartPrefixMapping(prefix, uri)], t, rest))
  }

  function EndPrefixMappingOp(input: seq<byte>, t: Table): (r: Result<Step, ReadError>)
  {
    var (prefix, rest) :- Ref(input, t);
    Ok(Step([EndPrefixMapping(prefix)], t, rest))
  }

  function ProcessingInstructionOp(input: seq<byte>, t: Table): (r: Result<Step, ReadError>)
  {
    var (target, afterTarget) :- Ref(input, t);
    var (data, rest) :- Ref(afterTarget, t);
    Ok(Step([ProcessingInstruction(target, data)], t, rest))
  }

  function SkippedEntityOp(input: seq<byte>, t: Table): (r: Result<Step, ReadError>)
  {
    var (name, rest) :- Ref(input, t);
    Ok(Step([SkippedEntity(name)], t, rest))
  }

  /** `doOpAttribute`: the five strings of an attribute, in the order they are written. */
  function AttributeOp(input: seq<byte>, t: Table): (r: Result<(Attribute, seq<byte>), ReadError>)
    ensures r.Ok? ==> |r.value.1| < |input|
  {
    var (uri, afterUri) :- Ref(input, t);
    var (localName, afterLocalName) :- Ref(afterUri, t);
    var (qName, afterQName) :- Ref(afterLocalName, t);
    var (attrType, afterType) :- Ref(afterQName, t);
    var (value, rest) :- Ref(afterType, t);
    Ok((Attribute(uri, localName, qName, attrType, value), rest))
  }

  /**
   * The inner loop of `doOpStartElement`: string definitions are applied until another opcode
   * comes, which must be `OP_ATTRIBUTE`. `AfterOpcode` goes on once the opcode `op` is read.
   */
  function AttributeOpcode(input: seq<byte>, t: Table): (r: Result<(Table, seq<byte>), ReadError>)
    ensures r.Ok? ==> |r.value.1| < |input| && r.value.0.max == t.max
    decreases |input|, 1
  {
    var (op, afterOp) :- Operand(input);
    AfterOpcode(op, afterOp, t)
  }

  function AfterOpcode(op: int, input: seq<byte>, t: Table): (r: Result<(Table, seq<byte>), ReadError>)
    ensures r.Ok? ==> |r.value.1| <= |input| && r.value.0.max == t.max
    decreases |input|, 0
  {
    if op == OP_STRING then
      var (t1, rest) :- StringOp(input, t);
      AttributeOpcode(rest, t1)
    else if op != OP_ATTRIBUTE then Err(IllegalAttributeOpcode(op))
    else Ok((t, input))
  }

  /**
   * The outer loop of `doOpStartElement`, with `read` the attributes read so far and `remaining`
   * the number still to read: each is an `OP_ATTRIBUTE` record of five strings.
   */
  function AttributesFrom(input: seq<byte>, t: Table, remaining: nat, read: seq<Attribute>)
    : (r: Result<(seq<Attribute>, Table, seq<byte>), ReadError>)
    ensures r.Ok? ==> |r.value.0| == |read| + remaining
    ensures r.Ok? ==> |r.value.2| <= |input| && r.value.1.max == t.max
    decreases remaining
  {
    if remaining == 0 then Ok((read, t, input))
    else
      var (attribute, t1, rest) :- NextAttribute(input, t);
      AttributesFrom(rest, t1, remaining - 1, read + [attribute])
  }

  /** One turn of the outer loop: the string definitions before an attribute, then its record. */
  function NextAttribute(input: seq<byte>, t: Table): (r: Result<(Attribute, Table, seq<byte>), ReadError>)
    ensures r.Ok? ==> |r.value.2| < |input| && r.value.1.max == t.max
  {
    var (t1, afterOp) :- AttributeOpcode(input, t);
    var (attribute, rest) :- AttributeOp(afterOp, t1);
    Ok((attribute, t1, rest))
  }

  lemma {:induction false} AttributesFromStep(input: seq<byte>, t: Table, remaining: nat, read: seq<Attribute>)
    requires remaining > 0
    ensures var next := NextAttribute(input, t);
      AttributesFrom(input, t, remaining, read) ==
        if next.Err? then Err(next.error)
        else AttributesFrom(next.value.2, next.value.1, remaining - 1, read + [next.value.0])
  {
  }

  /**
   * `doOpStartElement`: three names and an attribute count, then the attributes. The one
   * `startElement` call comes after every attribute is read.
   */
  function StartElementOp(input: seq<byte>, t: Table): (r: Result<Step, ReadError>)
    ensures r.Ok? ==> |r.value.rest| <= |input| && r.value.table.max == t.max
  {
    var (uri, afterUri) :- Ref(input, t);
    var (localName, afterLocalName) :- Ref(afterUri, t);
    var (qName, afterQName) :- Ref(afterLocalName, t);
    var (count, afterCount) :- Operand(afterQName);
    var (attributes, t1, rest) :- AttributesFrom(afterCount, t, count, []);
    Ok(Step([StartElement(uri, localName, qName, attributes)], t1, rest))
  }

  /** The dispatch of `parse` on an opcode other than the end of input. */
  function Operation(op: int, input: seq<byte>, t: Table): (r: Result<Step, ReadError>)
    ensures r.Ok? ==> |r.value.rest| <= |input| && r.value.table.max == t.max
  {
    if op == OP_STRING then
      var (t1, rest) :- StringOp(input, t);
      Ok(Step([], t1, rest))
    else if op == OP_START_DOCUMENT then Ok(Step([StartDocument], t, input))
    else if op == OP_END_DOCUMENT then Ok(Step([EndDocument], t, input))
    else if op == OP_START_ELEMENT then StartElementOp(input, t)
    else if op == OP_ATTRIBUTE then Err(AttributeOutsideElement)
    else if op == OP_END_ELEMENT then EndElementOp(input, t)
    else if op == OP_CHARACTERS then CharactersOp(input, t)
    else if op == OP_IGNORABLE_WHITESPACE then IgnorableWhitespaceOp(input, t)
    else if op == OP_START_PREFIX_MAPPING then StartPrefixMappingOp(input, t)
    else if op == OP_END_PREFIX_MAPPING then EndPrefixMappingOp(input, t)
    else if op == OP_PROCESSING_INSTRUCTION then ProcessingInstructionOp(input, t)
    else if op == OP_SKIPPED_ENTITY then SkippedEntityOp(input, t)
    else Err(UnrecognizedOpcode(op))
  }

  /**
   * The loop of `parse` from `input` on, after the calls `delivered`: records are read until the
   * input ends at an opcode boundary or a record fails.
   */
  function Ops(input: seq<byte>, t: Table, delivered: seq<Event>): (run: Run)
    decreases |input|
  {
    match Opcode(input)
    case Err(e) => Run(delivered, Some(e))
    case Ok((op, afterOp)) =>
      if op == -1 then Run(delivered, None)
      else
        match Operation(op, afterOp, t)
        case Err(e) => Run(delivered, Some(e))
        case Ok(step) => Ops(step.rest, step.table, delivered + step.events)
  }

  /** One turn of the loop of `parse`: a record that fails ends the run, any other goes on after it. */
  lemma {:induction false} OpsStep(input: seq<byte>, t: Table, delivered: seq<Event>, op: int, afterOp: seq<byte>)
    requires Opcode(input) == Ok((op, afterOp)) && op != -1
    ensures var result := Operation(op, afterOp, t);
      Ops(input, t, delivered) ==
        if result.Err? then Run(delivered, Some(result.error))
        else Ops(result.value.rest, result.value.table, delivered + result.value.events)
  {
  }

  /** The calls made before the loop are kept, and what the loop adds does not depend on them. */
  lemma {:induction false} OpsKeepsDelivered(input: seq<byte>, t: Table, delivered: seq<Event>)
    ensures var run := Ops(input, t, []);
      Ops(input, t, delivered) == Run(delivered + run.events, run.failure)
    decreases |input|
  {
    var next := Opcode(input);
    if next.Ok? && next.value.0 != -1 {
      var result := Operation(next.value.0, next.value.1, t);
      if result.Ok? {
        var step := result.value;
        OpsKeepsDelivered(step.rest, step.table, delivered + step.events);
        OpsKeepsDelivered(step.rest, step.table, step.events);
        assert [] + step.events == step.events;
        assert delivered + step.events + Ops(step.rest, step.table, []).events
          == delivered + (step.events + Ops(step.rest, step.table, []).events);
      }
    }
  }

  /** `parse(InputStream)` on a whole stream: the header, then the records. */
  function Parsed(input: seq<byte>): (run: Run)
  {
    match Header(input)
    case Err(e) => Run([], Some(e))
    case Ok((max, rest)) => Ops(rest, Initial(max), [])
  }

  /**
   * A `BSAXReader` during a parse. The stream it reads is the `stream` argument of its methods;
   * `handled` is the calls made on its content handler so far.
   */
  class BSAXReader {
    var maxStringTableSize: int
    var stringTable: seq<Str>
    var handled: seq<Event>

    function StringTable(): Table
      reads this
    {
      Table(maxStringTableSize, stringTable)
    }

    /** `new BSAXReader()`: an unlimited table, not yet set up, and no calls made. */
    constructor ()
      ensures maxStringTableSize == UNLIMITED_STRING_TABLE_SIZE && stringTable == [] && handled == []
    {
      maxStringTableSize := UNLIMITED_STRING_TABLE_SIZE;
      stringTable := [];
      handled := [];
    }

    /**
     * The call read from `stream` and made the calls, left the table and the stream as `expected`
     * says; after an error, no call was made and only the error is specified.
     */
    twostate predicate Did(stream: InputStream, new r: Result<(), ReadError>, new expected: Result<Step, ReadError>)
      reads this, stream
    {
      stream.Valid() && stream.data == old(stream.data) &&
      if r.Ok? then
        expected.Ok? && handled == old(handled) + expected.value.events &&
        expected.value.table == StringTable() && expected.value.rest == stream.Remaining()
      else
        expected == Err(r.error) && handled == old(handled)
    }

    /** `readString()`. */
    method ReadString(stream: InputStream) returns (r: Result<Str, ReadError>)
      requires stream.Valid()
      modifies stream
      ensures stream.Valid() && stream.data == old(stream.data)
      ensures Ref(old(stream.Remaining()), StringTable()) ==
        if r.Ok? then Ok((r.value, stream.Remaining())) else Err(r.error)
    {
      var stringId :- ReadOperand(stream);
      if stringId == NULL_STRING_ID {
        return Ok(Null);
      } else if stringId == EMPTY_STRING_ID {
        return Ok(EMPTY);
      } else if maxStringTableSize != UNLIMITED_STRING_TABLE_SIZE && stringId >= maxStringTableSize {
        return Err(BeyondFixedReference(stringId));
      } else if stringId >= |stringTable| {
        return Err(BeyondCurrentReference(stringId));
      }
      return Ok(stringTable[stringId]);
    }

    /** `doOpString()`. */
    method DoOpString(stream: InputStream) returns (r: Result<(), ReadError>)
      requires stream.Valid()
      modifies this, stream
      ensures stream.Valid() && stream.data == old(stream.data) && handled == old(handled)
      ensures StringOp(old(stream.Remaining()), old(StringTable())) ==
        if r.Ok? then Ok((StringTable(), stream.Remaining())) else Err(r.error)
    {
      var stringId :- ReadOperand(stream);
      if stringId < 2 {
        return Err(ReservedEntry(stringId));
      }
      if maxStringTableSize != UNLIMITED_STRING_TABLE_SIZE && stringId >= maxStringTableSize {
        return Err(BeyondFixedTable(stringId));
      }
      var stringValue :- ReadPayload(stream);
      if maxStringTableSize == UNLIMITED_STRING_TABLE_SIZE {
        if stringId < |stringTable| {
          stringTable := stringTable[stringId := Text(stringValue)];
        } else if stringId == |stringTable| {
          stringTable := stringTable + [Text(stringValue)];
        } else {
          return Err(BeyondTableEnd(stringId));
        }
      } else {
        ghost var unpadded := stringTable;
        while stringId >= |stringTable|
          modifies this
          invariant maxStringTableSize == old(maxStringTableSize) && handled == old(handled)
          invariant Padded(stringTable, stringId) == Padded(unpadded, stringId)
          decreases stringId - |stringTable|
        {
          stringTable := stringTable + [Null];
        }
        stringTable := stringTable[stringId := Text(stringValue)];
      }
      return Ok(());
    }

    /** `doOpAttribute(attrs, i)`: the five strings of the attribute, which the caller adds. */
    method DoOpAttribute(stream: InputStream) returns (r: Result<Attribute, ReadError>)
      requires stream.Valid()
      modifies stream
      ensures stream.Valid() && stream.data == old(stream.data)
      ensures AttributeOp(old(stream.Remaining()), StringTable()) ==
        if r.Ok? then Ok((r.value, stream.Remaining())) else Err(r.error)
    {
      var attrUri :- ReadString(stream);
      var attrLocalName :- ReadString(stream);
      var attrQName :- ReadString(stream);
      var attrType :- ReadString(stream);
      var attrValue :- ReadString(stream);
      return Ok(Attribute(attrUri, attrLocalName, attrQName, attrType, attrValue));
    }

    method DoOpCharacters(stream: InputStream) returns (r: Result<(), ReadError>)
      requires stream.Valid()
      modifies this, stream
      ensures Did(stream, r, CharactersOp(old(stream.Remaining()), old(StringTable())))
    {
      var characters :- ReadString(stream);
      if characters != Null {
        handled := handled + [Characters(characters.bytes, 0, |characters.bytes|)];
      }
      return Ok(());
    }

    method DoOpEndDocument(stream: InputStream) returns (r: Result<(), ReadError>)
      requires stream.Valid()
      modifies this
      ensures Did(stream, r, Operation(OP_END_DOCUMENT, old(stream.Remaining()), old(StringTable())))
    {
      handled := handled + [EndDocument];
      return Ok(());
    }

    method DoOpEndElement(stream: InputStream) returns (r: Result<(), ReadError>)
      requires stream.Valid()
      modifies this, stream
      ensures Did(stream, r, EndElementOp(old(stream.Remaining()), old(StringTable())))
    {
      var uri :- ReadString(stream);
      var localName :- ReadString(stream);
      var qName :- ReadString(stream);
      handled := handled + [EndElement(uri, localName, qName)];
      return Ok(());
    }

    method DoOpEndPrefixMapping(stream: InputStream) returns (r: Result<(), ReadError>)
      requires stream.Valid()
      modifies this, stream
      ensures Did(stream, r, EndPrefixMappingOp(old(stream.Remaining()), old(StringTable())))
    {
      var prefix :- ReadString(stream);
      handled := handled + [EndPrefixMapping(prefix)];
      return Ok(());
    }

    method DoOpIgnorableWhitespace(stream: InputStream) returns (r: Result<(), ReadError>)
      requires stream.Valid()
      modifies this, stream
      ensures Did(stream, r, IgnorableWhitespaceOp(old(stream.Remaining()), old(StringTable())))
    {
      var characters :- ReadString(stream);
      if characters.Null? {
        return Err(NullWhitespace);
      }
      handled := handled + [IgnorableWhitespace(characters.bytes, 0, |characters.bytes|)];
      return Ok(());
    }

    method DoOpProcessingInstruction(stream: InputStream) returns (r: Result<(), ReadError>)
      requires stream.Valid()
      modifies this, stream
      ensures Did(stream, r, ProcessingInstructionOp(old(stream.Remaining()), old(StringTable())))
    {
      var target :- ReadString(stream);
      var data :- ReadString(stream);
      handled := handled + [ProcessingInstruction(target, data)];
      return Ok(());
    }

    method DoOpSkippedEntity(stream: InputStream) returns (r: Result<(), ReadError>)
      requires stream.Valid()
      modifies this, stream
      ensures Did(stream, r, SkippedEntityOp(old(stream.Remaining()), old(StringTable())))
    {
      var name :- ReadString(stream);
      handled := handled + [SkippedEntity(name)];
      return Ok(());
    }

    method DoOpStartDocument(stream: InputStream) returns (r: Result<(), ReadError>)
      requires stream.Valid()
      modifies this
      ensures Did(stream, r, Operation(OP_START_DOCUMENT, old(stream.Remaining()), old(StringTable())))
    {
      handled := handled + [StartDocument];
      return Ok(());
    }

    method DoOpStartPrefixMapping(stream: InputStream) returns (r: Result<(), ReadError>)
      requires stream.Valid()
      modifies this, stream
      ensures Did(stream, r, StartPrefixMappingOp(old(stream.Remaining()), old(StringTable())))
    {
      var prefix :- ReadString(stream);
      var uri :- ReadString(stream);
      handled := handled + [StartPrefixMapping(prefix, uri)];
      return Ok(());
    }

    /**
     * `doOpStartElement()`: the names and the count, then the attributes, then the one
     * `startElement` call.
     */
    method DoOpStartElement(stream: InputStream) returns (r: Result<(), ReadError>)
      requires stream.Valid()
      modifies this, stream
      ensures Did(stream, r, StartElementOp(old(stream.Remaining()), old(StringTable())))
    {
      var uri :- ReadString(stream);
      var localName :- ReadString(stream);
      var qName :- ReadString(stream);
      var attributeCount :- ReadOperand(stream);
      var attrs :- ReadAttributes(stream, attributeCount);
      handled := handled + [StartElement(uri, localName, qName, attrs)];
      return Ok(());
    }

    /**
     * The attribute loop of `doOpStartElement()`: for each attribute, the string definitions
     * before it and its record.
     */
    method ReadAttributes(stream: InputStream, attributeCount: nat) returns (r: Result<seq<Attribute>, ReadError>)
      requires stream.Valid()
      modifies this, stream
      ensures stream.Valid() && stream.data == old(stream.data) && handled == old(handled)
      ensures AttributesFrom(old(stream.Remaining()), old(StringTable()), attributeCount, []) ==
        if r.Ok? then Ok((r.value, StringTable(), stream.Remaining())) else Err(r.error)
    {
      var attrs: seq<Attribute> := [];
      ghost var expected := AttributesFrom(stream.Remaining(), StringTable(), attributeCount, attrs);
      ghost var left := attributeCount;
      for i := 0 to attributeCount
        invariant stream.Valid() && stream.data == old(stream.data) && handled == old(handled)
        invariant left == attributeCount - i
        invariant expected == AttributesFrom(stream.Remaining(), StringTable(), left, attrs)
      {
        AttributesFromStep(stream.Remaining(), StringTable(), left, attrs);
        var attribute :- ReadAttribute(stream);
        attrs := attrs + [attribute];
        left := left - 1;
      }
      return Ok(attrs);
    }

    /** One turn of the attribute loop: string definitions until an attribute record, then that record. */
    method ReadAttribute(stream: InputStream) returns (r: Result<Attribute, ReadError>)
      requires stream.Valid()
      modifies this, stream
      ensures stream.Valid() && stream.data == old(stream.data) && handled == old(handled)
      ensures NextAttribute(old(stream.Remaining()), old(StringTable())) ==
        if r.Ok? then Ok((r.value, StringTable(), stream.Remaining())) else Err(r.error)
    {
      ghost var beforeOp := stream.Remaining();
      ghost var beforeTable := StringTable();
      var opCode :- ReadOperand(stream);
      while opCode == OP_STRING
        invariant stream.Valid() && stream.data == old(stream.data) && handled == old(handled)
        invariant AttributeOpcode(beforeOp, beforeTable) == AfterOpcode(opCode, stream.Remaining(), StringTable())
        decreases |stream.Remaining()|
      {
        var _ :- DoOpString(stream);
        opCode :- ReadOperand(stream);
      }
      if opCode != OP_ATTRIBUTE {
        return Err(IllegalAttributeOpcode(opCode));
      }
      r := DoOpAttribute(stream);
    }

    /** The opcode dispatch of `parse`, for an opcode other than the end of input. */
    method DoOp(stream: InputStream, opCode: int) returns (r: Result<(), ReadError>)
      requires stream.Valid()
      modifies this, stream
      ensures Did(stream, r, Operation(opCode, old(stream.Remaining()), old(StringTable())))
    {
      if opCode == OP_STRING {
        r := DoOpString(stream);
      } else if opCode == OP_START_DOCUMENT {
        r := DoOpStartDocument(stream);
      } else if opCode == OP_END_DOCUMENT {
        r := DoOpEndDocument(stream);
      } else if opCode == OP_START_ELEMENT {
        r := DoOpStartElement(stream);
      } else if opCode == OP_ATTRIBUTE {
        r := Err(AttributeOutsideElement);
      } else if opCode == OP_END_ELEMENT {
        r := DoOpEndElement(stream);
      } else if opCode == OP_CHARACTERS {
        r := DoOpCharacters(stream);
      } else if opCode == OP_IGNORABLE_WHITESPACE {
        r := DoOpIgnorableWhitespace(stream);
      } else if opCode == OP_START_PREFIX_MAPPING {
        r := DoOpStartPrefixMapping(stream);
      } else if opCode == OP_END_PREFIX_MAPPING {
        r := DoOpEndPrefixMapping(stream);
      } else if opCode == OP_PROCESSING_INSTRUCTION {
        r := DoOpProcessingInstruction(stream);
      } else if opCode == OP_SKIPPED_ENTITY {
        r := DoOpSkippedEntity(stream);
      } else {
        r := Err(UnrecognizedOpcode(opCode));
      }
    }

    /** The part of `parse` before the record loop: magic, version, table size, fresh table. */
    method ReadHeader(stream: InputStream, magic: array<byte>) returns (r: Result<(), ReadError>)
      requires stream.Valid() && magic[..] == MAGIC
      modifies this, stream
      ensures stream.Valid() && stream.data == old(stream.data) && handled == old(handled)
      ensures Header(old(stream.Remaining())) ==
        if r.Ok? then Ok((maxStringTableSize, stream.Remaining())) else Err(r.error)
      ensures r.Ok? ==> StringTable() == Initial(maxStringTableSize)
    {
      var _ :- CheckMagic(stream, magic);
      var version :- ReadOperand(stream);
      if version != VERSION {
        return Err(UnknownVersion(version));
      }
      maxStringTableSize :- ReadOperand(stream);
      if 0 < maxStringTableSize < MINIMUM_STRING_TABLE_SIZE {
        return Err(BadTableSize(maxStringTableSize));
      }
      stringTable := [Null, EMPTY];
      return Ok(());
    }

    /**
     * `parse(InputStream)`, with the intended magic check: the header, a fresh table, then the
     * records until the input ends. The calls made and the exception thrown are `Parsed`'s.
     */
    method Parse(stream: InputStream, magic: array<byte>) returns (r: Result<(), ReadError>)
      requires stream.Valid() && magic[..] == MAGIC
      modifies this, stream
      ensures stream.Valid()
      ensures var run := Parsed(old(stream.Remaining()));
        handled == old(handled) + run.events && run.failure == if r.Ok? then None else Some(r.error)
    {
      r := ReadHeader(stream, magic);
      if r.Ok? {
        OpsKeepsDelivered(stream.Remaining(), StringTable(), handled);
        r := ReadRecords(stream);
      }
    }

    /**
     * The record loop of `parse`: one record per turn until the input ends or a record fails.
     * The calls made are appended to those made before.
     */
    method ReadRecords(stream: InputStream) returns (r: Result<(), ReadError>)
      requires stream.Valid()
      modifies this, stream
      ensures stream.Valid()
      ensures var run := Ops(old(stream.Remaining()), old(StringTable()), old(handled));
        handled == run.events && run.failure == if r.Ok? then None else Some(r.error)
    {
      ghost var run := Ops(stream.Remaining(), StringTable(), handled);
      while true
        invariant stream.Valid() && run == Ops(stream.Remaining(), StringTable(), handled)
        decreases |stream.Remaining()|
      {
        ghost var beforeOp := stream.Remaining();
        var opCode :- ReadOpcode(stream);
        if opCode == -1 {
          break;
        }
        OpsStep(beforeOp, StringTable(), handled, opCode, stream.Remaining());
        var _ :- DoOp(stream, opCode);
      }
      return Ok(());
    }
  }
}
