/**
 * The operand counts documented beside each opcode in `BSAXConstants.java` (`OperandCount`), held
 * against both ends of the stream. Every record `SAXWriter` writes is its opcode followed by that
 * many integers. `AbstractBSAXReader` reads that many integers after the opcode and hands them to
 * the opcode's hook in the order they were written.
 */
module OperandCounts {
  import opened Wrappers
  import opened JavaTypes
  import opened Utf8Codec
  import opened BSAXConstants
  import opened BSAXUtil
  import opened SaxEvents
  import opened BSAXHeader
  import opened SaxWriter
  import opened SaxWriterProperties
  import AbstractReader
  import StreamRoundTrip

  /*
   * The writer
   */

  /** The opcode the writer uses for an event. */
  function EventOpcode(e: Event): (op: int)
    ensures MIN_OP <= op <= MAX_OP && op != OP_STRING && op != OP_ATTRIBUTE
  {
    match e
    case StartDocument => OP_START_DOCUMENT
    case EndDocument => OP_END_DOCUMENT
    case StartElement(_, _, _, _) => OP_START_ELEMENT
    case EndElement(_, _, _) => OP_END_ELEMENT
    case Characters(_, _, _) => OP_CHARACTERS
    case IgnorableWhitespace(_, _, _) => OP_IGNORABLE_WHITESPACE
    case StartPrefixMapping(_, _) => OP_START_PREFIX_MAPPING
    case EndPrefixMapping(_) => OP_END_PREFIX_MAPPING
    case ProcessingInstruction(_, _) => OP_PROCESSING_INSTRUCTION
    case SkippedEntity(_) => OP_SKIPPED_ENTITY
    case NotationDecl(_, _, _) => OP_NOTATION_DECL
    case UnparsedEntityDecl(_, _, _, _) => OP_UNPARSED_ENTITY_DECL
  }

  /**
   * The strings of an event that are written as ids after its opcode, in order. For a start
   * element these are its three names; the attribute count follows them.
   */
  function EventFields(e: Event): seq<Str>
  {
    match e
    case StartDocument => []
    case EndDocument => []
    case StartElement(uri, localName, qName, _) => [uri, localName, qName]
    case EndElement(uri, localName, qName) => [uri, localName, qName]
    case Characters(ch, start, length) => [Text(Slice(ch, start, length))]
    case IgnorableWhitespace(ch, start, length) => [Text(Slice(ch, start, length))]
    case StartPrefixMapping(prefix, uri) => [prefix, uri]
    case EndPrefixMapping(prefix) => [prefix]
    case ProcessingInstruction(target, data) => [target, data]
    case SkippedEntity(name) => [name]
    case NotationDecl(name, publicId, systemId) => [name, publicId, systemId]
    case UnparsedEntityDecl(name, publicId, systemId, notationName) => [name, publicId, systemId, notationName]
  }

  /**
   * Each event handler of the writer first defines the new strings among the event's strings.
   * It then writes the event's opcode and the documented number of integers: the ids of those
   * strings, and for a start element also the attribute count, which the attribute records
   * follow. A start-document record comes after the header and has no operand.
   */
  lemma {:induction false} EmitWritesOperandCount(w: Writer, e: Event)
    requires Emit(w, e).Ok? && forall b | b in w.stringMap :: w.stringMap[b] >= 0
    ensures InternAll(w, EventFields(e)).Ok?
    ensures var (ids, w1) := InternAll(w, EventFields(e)).value;
      var op := EventOpcode(e);
      (forall k :: 0 <= k < |ids| ==> 0 <= ids[k]) &&
      var record := SmallInt(op) + EncodedIds(ids);
      |ids| + (if e.StartElement? then 1 else 0) == OperandCount(op) &&
      Emit(w, e) ==
        if e.StartDocument? then
          Ok(w.(out := w.out + MAGIC + SmallInt(VERSION) + SmallInt(UNLIMITED_STRING_TABLE_SIZE) + record))
        else if e.StartElement? then
          AttributeRecords(w1.(out := w1.out + record + Encoded(|e.attributes|)), e.attributes)
        else Ok(w1.(out := w1.out + record))
  {
    var op := EventOpcode(e);
    match e
    case StartDocument =>
      NoOperands(w, op);
    case EndDocument =>
      NoOperands(w, op);
      WrittenEncodes(w, op, []);
      RecordWritten(w, op, []);
    case StartElement(uri, localName, qName, attributes) =>
      Record3Agrees(w, op, uri, localName, qName);
      RecordWritten(w, op, [uri, localName, qName]);
    case EndElement(uri, localName, qName) =>
      Record3Agrees(w, op, uri, localName, qName);
      RecordWritten(w, op, [uri, localName, qName]);
    case Characters(ch, start, length) =>
      CharsRecordIsRecord(w, op, ch, start, length);
      Record1Agrees(w, op, Text(Slice(ch, start, length)));
      RecordWritten(w, op, [Text(Slice(ch, start, length))]);
    case IgnorableWhitespace(ch, start, length) =>
      CharsRecordIsRecord(w, op, ch, start, length);
      Record1Agrees(w, op, Text(Slice(ch, start, length)));
      RecordWritten(w, op, [Text(Slice(ch, start, length))]);
    case StartPrefixMapping(prefix, uri) =>
      Record2Agrees(w, op, prefix, uri);
      RecordWritten(w, op, [prefix, uri]);
    case EndPrefixMapping(prefix) =>
      Record1Agrees(w, op, prefix);
      RecordWritten(w, op, [prefix]);
    case ProcessingInstruction(target, data) =>
      Record2Agrees(w, op, target, data);
      RecordWritten(w, op, [target, data]);
    case SkippedEntity(name) =>
      Record1Agrees(w, op, name);
      RecordWritten(w, op, [name]);
    case NotationDecl(name, publicId, systemId) =>
      Record3Agrees(w, op, name, publicId, systemId);
      RecordWritten(w, op, [name, publicId, systemId]);
    case UnparsedEntityDecl(name, publicId, systemId, notationName) =>
      Record4Agrees(w, op, name, publicId, systemId, notationName);
      RecordWritten(w, op, [name, publicId, systemId, notationName]);
  }

  /** No string interned, and no id written after the opcode. */
  lemma {:induction false} NoOperands(w: Writer, op: int32)
    requires MIN_OP <= op <= MAX_OP
    ensures InternAll(w, []) == Ok(([], w))
    ensures SmallInt(op) + EncodedIds([]) == SmallInt(op)
  {
  }

  /**
   * An attribute record, as `startElement` writes one per attribute: the new strings among its
   * five defined, then `OP_ATTRIBUTE` and the documented five ids.
   */
  lemma {:induction false} AttributeWritesOperandCount(w: Writer, a: Attribute)
    requires Record5(w, OP_ATTRIBUTE, a.uri, a.localName, a.qName, a.attrType, a.value).Ok?
    requires forall b | b in w.stringMap :: w.stringMap[b] >= 0
    ensures InternAll(w, AttributeFields(a)).Ok?
    ensures var (ids, w1) := InternAll(w, AttributeFields(a)).value;
      (forall k :: 0 <= k < |ids| ==> 0 <= ids[k]) &&
      |ids| == OperandCount(OP_ATTRIBUTE) &&
      Record5(w, OP_ATTRIBUTE, a.uri, a.localName, a.qName, a.attrType, a.value) ==
        Ok(w1.(out := w1.out + (SmallInt(OP_ATTRIBUTE) + EncodedIds(ids))))
  {
    Record5Agrees(w, OP_ATTRIBUTE, a.uri, a.localName, a.qName, a.attrType, a.value);
    RecordWritten(w, OP_ATTRIBUTE, AttributeFields(a));
  }

  /*
   * The reader
   */

  /** The integers a hook call is given, in the order the reader reads them. */
  function HookIds(h: AbstractReader.Hook): seq<int>
  {
    match h
    case StartStream => []
    case OpString(id, _) => [id]
    case OpStartDocument => []
    case OpEndDocument => []
    case OpStartElement(uri, localName, qName, attributeCount) => [uri, localName, qName, attributeCount]
    case OpAttribute(_, uri, localName, qName, attrType, attrValue) => [uri, localName, qName, attrType, attrValue]
    case OpStartElementFinalize => []
    case OpEndElement(uri, localName, qName) => [uri, localName, qName]
    case OpCharacters(characters) => [characters]
    case OpIgnorableWhitespace(characters) => [characters]
    case OpStartPrefixMapping(prefix, uri) => [prefix, uri]
    case OpEndPrefixMapping(prefix) => [prefix]
    case OpProcessingInstruction(target, data) => [target, data]
    case OpSkippedEntity(name) => [name]
  }

  /** `h` is the hook the reader calls for the opcode `op`. */
  predicate HookOf(op: int, h: AbstractReader.Hook)
  {
    match h
    case OpStartDocument => op == OP_START_DOCUMENT
    case OpEndDocument => op == OP_END_DOCUMENT
    case OpEndElement(_, _, _) => op == OP_END_ELEMENT
    case OpCharacters(_) => op == OP_CHARACTERS
    case OpIgnorableWhitespace(_) => op == OP_IGNORABLE_WHITESPACE
    case OpStartPrefixMapping(_, _) => op == OP_START_PREFIX_MAPPING
    case OpEndPrefixMapping(_) => op == OP_END_PREFIX_MAPPING
    case OpProcessingInstruction(_, _) => op == OP_PROCESSING_INSTRUCTION
    case OpSkippedEntity(_) => op == OP_SKIPPED_ENTITY
    case _ => false
  }

  /** One operand, read as the integer it encodes. */
  lemma {:induction false} IdRead(x: int32, rest: seq<byte>, s: AbstractReader.State)
    requires 0 <= x
    ensures AbstractReader.Id(Encoded(x) + rest, s) == Ok((x, rest))
  {
    OperandReadsEncodings(Encoded(x) + rest, x, rest);
  }

  /**
   * After the opcode of a record of strings only, the reader reads the documented number of
   * operands, stops just after them, and makes one call: that opcode's hook, given those
   * operands in order.
   */
  lemma {:induction false} DispatchReadsOperandCount(op: int, ids: seq<int32>, rest: seq<byte>, s: AbstractReader.State)
    requires op in {OP_START_DOCUMENT, OP_END_DOCUMENT, OP_END_ELEMENT, OP_CHARACTERS, OP_IGNORABLE_WHITESPACE,
                    OP_START_PREFIX_MAPPING, OP_END_PREFIX_MAPPING, OP_PROCESSING_INSTRUCTION, OP_SKIPPED_ENTITY}
    requires |ids| == OperandCount(op) && forall k :: 0 <= k < |ids| ==> 0 <= ids[k]
    ensures var r := AbstractReader.Dispatch(op, EncodedIds(ids) + rest, s);
      r.Ok? && r.value.1 == rest && |r.value.0.calls| == |s.calls| + 1 &&
      var h := r.value.0.calls[|s.calls|];
      r.value.0 == s.Call(h) && HookOf(op, h) && HookIds(h) == ids
  {
    StreamRoundTrip.AllIds(ids);
    if |ids| == 0 {
      StreamRoundTrip.NoIds(ids, rest);
    } else if |ids| == 1 {
      StreamRoundTrip.OneId(ids, rest);
      IdRead(ids[0], rest, s);
    } else if |ids| == 2 {
      StreamRoundTrip.TwoIds(ids, rest);
      IdRead(ids[1], rest, s);
      IdRead(ids[0], Encoded(ids[1]) + rest, s);
    } else {
      StreamRoundTrip.ThreeIds(ids, rest);
      IdRead(ids[2], rest, s);
      IdRead(ids[1], Encoded(ids[2]) + rest, s);
      IdRead(ids[0], Encoded(ids[1]) + (Encoded(ids[2]) + rest), s);
    }
  }

  /**
   * After `OP_START_ELEMENT` the reader reads the documented four operands (three names and the
   * attribute count) and hands them to `doOpStartElement` in order.
   */
  lemma {:induction false} ElementStartReadsOperandCount(ids: seq<int32>, rest: seq<byte>, s: AbstractReader.State)
    requires |ids| == OperandCount(OP_START_ELEMENT) && forall k :: 0 <= k < |ids| ==> 0 <= ids[k]
    ensures AbstractReader.ElementStart(EncodedIds(ids) + rest, s) ==
      Ok((AbstractReader.OpStartElement(ids[0], ids[1], ids[2], ids[3]), rest))
    ensures HookIds(AbstractReader.OpStartElement(ids[0], ids[1], ids[2], ids[3])) == ids
  {
    var x3 := Encoded(ids[3]) + rest;
    var x2 := Encoded(ids[2]) + x3;
    var x1 := Encoded(ids[1]) + x2;
    var x0 := Encoded(ids[0]) + x1;
    assert EncodedIds(ids) + rest == x0 by {
      StreamRoundTrip.AllIds(ids);
      FourIds(ids, rest);
    }
    IdRead(ids[0], x1, s);
    IdRead(ids[1], x2, s);
    IdRead(ids[2], x3, s);
    IdRead(ids[3], rest, s);
    ElementStartReads(s, ids[0], ids[1], ids[2], ids[3], x0, x1, x2, x3, rest);
    ElementIds(ids);
  }

  /** Four operands read one after the other, each from the bytes the one before leaves. */
  lemma {:induction false} ElementStartReads(s: AbstractReader.State, a: int, b: int, c: int, d: int,
                                             x0: seq<byte>, x1: seq<byte>, x2: seq<byte>, x3: seq<byte>, rest: seq<byte>)
    requires AbstractReader.Id(x0, s) == Ok((a, x1)) && AbstractReader.Id(x1, s) == Ok((b, x2))
    requires AbstractReader.Id(x2, s) == Ok((c, x3)) && AbstractReader.Id(x3, s) == Ok((d, rest))
    ensures AbstractReader.ElementStart(x0, s) == Ok((AbstractReader.OpStartElement(a, b, c, d), rest))
  {
  }

  /** A start element's hook is given its four operands in order. */
  lemma {:induction false} ElementIds(ids: seq<int32>)
    requires |ids| == 4
    ensures HookIds(AbstractReader.OpStartElement(ids[0], ids[1], ids[2], ids[3])) == ids
  {
  }

  /** The ids of four operands, one after the other. */
  lemma {:induction false} FourIds(ids: seq<int32>, rest: seq<byte>)
    requires |ids| == 4 && forall k :: 0 <= k < |ids| ==> 0 <= ids[k]
    ensures EncodedIds(ids[0..]) + rest ==
      Encoded(ids[0]) + (Encoded(ids[1]) + (Encoded(ids[2]) + (Encoded(ids[3]) + rest)))
  {
    StreamRoundTrip.IdsStep(ids, 0, rest);
    StreamRoundTrip.IdsStep(ids, 1, rest);
    StreamRoundTrip.IdsStep(ids, 2, rest);
    StreamRoundTrip.IdsStep(ids, 3, rest);
    assert ids[4..] == [];
  }

  /**
   * After `OP_ATTRIBUTE` inside a start element the reader reads the documented five operands and
   * hands them, with the attribute's index, to `doOpAttribute` in order.
   */
  lemma {:induction false} AttributeRecordReadsOperandCount(ids: seq<int32>, rest: seq<byte>, s: AbstractReader.State, i: int)
    requires |ids| == OperandCount(OP_ATTRIBUTE) && forall k :: 0 <= k < |ids| ==> 0 <= ids[k]
    ensures AbstractReader.AttributeRecord(EncodedIds(ids) + rest, s, i) ==
      Ok((s.Call(AbstractReader.OpAttribute(i, ids[0], ids[1], ids[2], ids[3], ids[4])), rest))
    ensures HookIds(AbstractReader.OpAttribute(i, ids[0], ids[1], ids[2], ids[3], ids[4])) == ids
  {
    var x4 := Encoded(ids[4]) + rest;
    var x3 := Encoded(ids[3]) + x4;
    var x2 := Encoded(ids[2]) + x3;
    var x1 := Encoded(ids[1]) + x2;
    var x0 := Encoded(ids[0]) + x1;
    assert EncodedIds(ids) + rest == x0 by {
      StreamRoundTrip.AllIds(ids);
      StreamRoundTrip.FiveIds(ids, rest);
    }
    IdRead(ids[0], x1, s);
    IdRead(ids[1], x2, s);
    IdRead(ids[2], x3, s);
    IdRead(ids[3], x4, s);
    IdRead(ids[4], rest, s);
    AttributeRecordReads(s, i, ids[0], ids[1], ids[2], ids[3], ids[4], x0, x1, x2, x3, x4, rest);
    AttributeIds(ids, i);
  }

  /** Five operands read one after the other, each from the bytes the one before leaves. */
  lemma {:induction false} AttributeRecordReads(s: AbstractReader.State, i: int, a: int, b: int, c: int, d: int, e: int,
                                                x0: seq<byte>, x1: seq<byte>, x2: seq<byte>, x3: seq<byte>, x4: seq<byte>,
                                                rest: seq<byte>)
    requires AbstractReader.Id(x0, s) == Ok((a, x1)) && AbstractReader.Id(x1, s) == Ok((b, x2))
    requires AbstractReader.Id(x2, s) == Ok((c, x3)) && AbstractReader.Id(x3, s) == Ok((d, x4))
    requires AbstractReader.Id(x4, s) == Ok((e, rest))
    ensures AbstractReader.AttributeRecord(x0, s, i) == Ok((s.Call(AbstractReader.OpAttribute(i, a, b, c, d, e)), rest))
  {
  }

  /** An attribute's hook is given its five operands in order. */
  lemma {:induction false} AttributeIds(ids: seq<int32>, i: int)
    requires |ids| == 5
    ensures HookIds(AbstractReader.OpAttribute(i, ids[0], ids[1], ids[2], ids[3], ids[4])) == ids
  {
  }
}
