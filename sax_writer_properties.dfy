/**
 * What `SAXWriter.java` promises about its string ids: `null` and "" are never defined, a string
 * seen before is sent under the id it was given, a new one takes the counter and is defined
 * just before its first use, no two strings share an id, and the output and the string map only
 * grow.
 */
module SaxWriterProperties {
  import opened Wrappers
  import opened JavaTypes
  import opened Utf8Codec
  import opened BSAXConstants
  import opened BSAXUtil
  import opened SaxEvents
  import opened SaxWriter

  /*
   * String ids
   */

  /** The definition record of a new string, as the writer writes it. */
  function Definition(id: int32, bytes: Bytes): seq<byte>
    requires 0 <= id
  {
    SmallInt(OP_STRING) + Encoded(id) + WrittenString(bytes)
  }

  /**
   * The writer's numbering: every string in the map is a non-empty one under an id of its own,
   * at least the first free id and, until the counter wraps, below the counter.
   */
  predicate Numbered(w: Writer)
  {
    (FIRST_FREE_STRING_ID <= w.nextStringId || w.nextStringId == MIN_INT) &&
    (forall b | b in w.stringMap ::
      b != [] && FIRST_FREE_STRING_ID <= w.stringMap[b] && (w.nextStringId >= 0 ==> w.stringMap[b] < w.nextStringId)) &&
    forall b1, b2 | b1 in w.stringMap && b2 in w.stringMap && b1 != b2 :: w.stringMap[b1] != w.stringMap[b2]
  }

  /** A new writer, and one just reset by `init`, is numbered. */
  lemma {:induction false} FreshNumbered(out: seq<byte>)
    ensures Numbered(Fresh(out))
  {
  }

  /** `null` is sent as 0 and "" as 1, and neither is ever defined or written. */
  lemma {:induction false} ReservedIds(w: Writer)
    ensures StringId(w, Null) == Ok((NULL_STRING_ID, w))
    ensures StringId(w, EMPTY) == Ok((EMPTY_STRING_ID, w))
  {
  }

  /** A string seen before is sent under the id it was given, and nothing is written. */
  lemma {:induction false} KnownStringId(w: Writer, bytes: Bytes)
    requires bytes != [] && bytes in w.stringMap
    ensures StringId(w, Text(bytes)) == Ok((w.stringMap[bytes], w))
  {
  }

  /**
   * A string not seen before takes the counter, which advances, and its definition is written;
   * once the counter has wrapped to a negative value the id cannot be written and the call fails.
   */
  lemma {:induction false} NewStringId(w: Writer, bytes: Bytes)
    requires bytes != [] && bytes !in w.stringMap
    ensures var r := StringId(w, Text(bytes));
      (w.nextStringId < 0 ==> r.Err?) &&
      (w.nextStringId >= 0 ==>
        r.Ok? && r.value.0 == w.nextStringId &&
        r.value.1.nextStringId == Increment(w.nextStringId) &&
        r.value.1.stringMap == w.stringMap[bytes := w.nextStringId] &&
        r.value.1.out == w.out + Definition(w.nextStringId, bytes))
  {
  }

  /**
   * `getStringId` fails only on a string not seen before, met once the counter has wrapped to a
   * negative value: `writeInt` refuses that value as the string's id.
   */
  lemma {:induction false} StringIdRefused(w: Writer, s: Str)
    ensures StringId(w, s).Err? <==>
      s.Text? && s.bytes != [] && s.bytes !in w.stringMap && w.nextStringId < 0
    ensures StringId(w, s).Err? ==> StringId(w, s).error == Stream(Codec(NegativeValue(w.nextStringId)))
  {
  }

  /**
   * A numbered writer stays numbered, and the id it returns is the reserved one for `null` and
   * "", and the string's own id in the map for any other string.
   */
  lemma {:induction false} StringIdKeepsNumbered(w: Writer, s: Str)
    requires Numbered(w) && StringId(w, s).Ok?
    ensures var (id, w1) := StringId(w, s).value;
      Numbered(w1) &&
      (s == Null ==> id == NULL_STRING_ID) && (s == EMPTY ==> id == EMPTY_STRING_ID) &&
      (s.Text? && s.bytes != [] ==> s.bytes in w1.stringMap && w1.stringMap[s.bytes] == id && id >= FIRST_FREE_STRING_ID)
  {
    var (id, w1) := StringId(w, s).value;
    if s.Text? && s.bytes != [] && s.bytes !in w.stringMap {
      forall b1, b2 | b1 in w1.stringMap && b2 in w1.stringMap && b1 != b2
        ensures w1.stringMap[b1] != w1.stringMap[b2]
      {
        if b1 != s.bytes && b2 != s.bytes {
          assert w1.stringMap[b1] == w.stringMap[b1];
          assert w1.stringMap[b2] == w.stringMap[b2];
        }
      }
    }
  }

  /** Asking again for the id of a string just sent gives the same id and writes nothing. */
  lemma {:induction false} StringIdStable(w: Writer, s: Str)
    requires StringId(w, s).Ok?
    ensures var (id, w1) := StringId(w, s).value; StringId(w1, s) == Ok((id, w1))
  {
  }

  /**
   * `getStringId(char[], int, int)`: a negative start or length is refused, and so is a range
   * beyond the array unless it is empty; otherwise the id is that of the characters of the range.
   */
  lemma {:induction false} CharsStringIdIsSlice(w: Writer, ch: Bytes, start: int32, length: int32)
    ensures var r := CharsStringId(w, ch, start, length);
      (start < 0 ==> r == Err(NegativeStart(start))) &&
      (start >= 0 && length < 0 ==> r == Err(NegativeLength(length))) &&
      (start >= 0 && length > 0 && start + length > |ch| ==> r == Err(OutOfBounds(start, length))) &&
      (start >= 0 && length >= 0 && (length == 0 || start + length <= |ch|) ==>
        r == StringId(w, Text(Slice(ch, start, length))))
  {
  }

  /*
   * Growth
   */

  /**
   * `after` has written more than `before`, kept every id `before` gave out, and is numbered
   * whenever `before` is.
   */
  predicate Grows(before: Writer, after: Writer)
  {
    before.out <= after.out &&
    (forall b | b in before.stringMap :: b in after.stringMap && after.stringMap[b] == before.stringMap[b]) &&
    (Numbered(before) ==> Numbered(after))
  }

  lemma {:induction false} GrowsTransitive(a: Writer, b: Writer, c: Writer)
    requires Grows(a, b) && Grows(b, c)
    ensures Grows(a, c)
  {
  }

  /** Getting a string id only appends to the output and only adds to the string map. */
  lemma {:induction false} StringIdGrows(w: Writer, s: Str)
    requires StringId(w, s).Ok?
    ensures Grows(w, StringId(w, s).value.1)
  {
    if Numbered(w) {
      StringIdKeepsNumbered(w, s);
    }
  }

  /** The string operands of a record interned in order: their ids and the writer after them. */
  function InternAll(w: Writer, fields: seq<Str>): (r: Result<(seq<int32>, Writer), WriteError>)
    ensures r.Ok? ==> |r.value.0| == |fields|
    decreases fields
  {
    if fields == [] then Ok(([], w))
    else
      var (id, w1) :- StringId(w, fields[0]);
      var (ids, w2) :- InternAll(w1, fields[1..]);
      Ok(([id] + ids, w2))
  }

  lemma {:induction false} InternAllGrows(w: Writer, fields: seq<Str>)
    requires InternAll(w, fields).Ok?
    ensures Grows(w, InternAll(w, fields).value.1)
    decreases fields
  {
    if fields != [] {
      var w1 := StringId(w, fields[0]).value.1;
      StringIdGrows(w, fields[0]);
      InternAllGrows(w1, fields[1..]);
      GrowsTransitive(w, w1, InternAll(w, fields).value.1);
    }
  }

  /** Each id as `writeInt` writes it, in order. */
  function EncodedIds(ids: seq<int>): seq<byte>
    requires forall k :: 0 <= k < |ids| ==> 0 <= ids[k] <= MAX_INT
  {
    if ids == [] then [] else Encoded(ids[0]) + EncodedIds(ids[1..])
  }

  /** `writeInt` of ids none of which is negative writes each of them. */
  lemma {:induction false} PutIntsEncodes(out: seq<byte>, ids: seq<int32>)
    requires forall k :: 0 <= k < |ids| ==> 0 <= ids[k]
    ensures PutInts(out, ids) == Ok(out + EncodedIds(ids))
    decreases ids
  {
    if ids != [] {
      PutIntsStep(out, ids);
      var out1 := out + Encoded(ids[0]);
      assert PutInt(out, ids[0]) == Ok(out1);
      PutIntsEncodes(out1, ids[1..]);
      assert EncodedIds(ids) == Encoded(ids[0]) + EncodedIds(ids[1..]);
      assert out1 + EncodedIds(ids[1..]) == out + EncodedIds(ids);
    } else {
      assert out + EncodedIds(ids) == out;
    }
  }

  /** A record interns its operands first, then writes its opcode and their ids. */
  lemma {:induction false} RecordFromInterns(w: Writer, op: int32, ids: seq<int32>, fields: seq<Str>)
    requires MIN_OP <= op <= MAX_OP
    ensures var interned := InternAll(w, fields);
      RecordFrom(w, op, ids, fields) ==
        if interned.Err? then Err(interned.error) else Written(interned.value.1, op, ids + interned.value.0)
    decreases fields
  {
    if fields == [] {
      assert ids + [] == ids;
    } else {
      RecordFromStep(w, op, ids, fields);
      var first := StringId(w, fields[0]);
      if first.Ok? {
        var (id, w1) := first.value;
        RecordFromInterns(w1, op, ids + [id], fields[1..]);
        var later := InternAll(w1, fields[1..]);
        if later.Ok? {
          assert ids + [id] + later.value.0 == ids + ([id] + later.value.0);
        }
      }
    }
  }

  /** The ids of interned strings are never negative while the string map holds none. */
  lemma {:induction false} InternAllNonNegative(w: Writer, fields: seq<Str>)
    requires forall b | b in w.stringMap :: w.stringMap[b] >= 0
    requires InternAll(w, fields).Ok?
    ensures var ids := InternAll(w, fields).value.0; forall k :: 0 <= k < |ids| ==> 0 <= ids[k]
    decreases fields
  {
    if fields != [] {
      var (id, w1) := StringId(w, fields[0]).value;
      InternAllNonNegative(w1, fields[1..]);
    }
  }

  /** `writeInt` of the opcode and then of ids none of which is negative. */
  lemma {:induction false} WrittenEncodes(w: Writer, op: int32, ids: seq<int32>)
    requires MIN_OP <= op <= MAX_OP && forall k :: 0 <= k < |ids| ==> 0 <= ids[k]
    ensures Written(w, op, ids) == Ok(w.(out := w.out + SmallInt(op) + EncodedIds(ids)))
  {
    PutIntsEncodes(w.out + SmallInt(op), ids);
  }

  /** A record interns its operands, then writes its opcode and their ids, none of them negative. */
  lemma {:induction false} RecordWritten(w: Writer, op: int32, fields: seq<Str>)
    requires MIN_OP <= op <= MAX_OP && Record(w, op, fields).Ok?
    requires forall b | b in w.stringMap :: w.stringMap[b] >= 0
    ensures InternAll(w, fields).Ok?
    ensures var (ids, w1) := InternAll(w, fields).value;
      (forall k :: 0 <= k < |ids| ==> 0 <= ids[k]) &&
      Record(w, op, fields) == Ok(w1.(out := w1.out + (SmallInt(op) + EncodedIds(ids))))
  {
    RecordFromInterns(w, op, [], fields);
    var (ids, w1) := InternAll(w, fields).value;
    InternAllNonNegative(w, fields);
    assert [] + ids == ids;
    WrittenEncodes(w1, op, ids);
    assert w1.out + SmallInt(op) + EncodedIds(ids) == w1.out + (SmallInt(op) + EncodedIds(ids));
  }

  /** The characters `new String(ch, start, length)` takes, when the writer accepts the range. */
  function Slice(ch: Bytes, start: int, length: int): (r: Bytes)
    ensures 0 <= start && 0 <= length && start + length <= |ch| ==> r == ch[start..start + length]
  {
    if 0 <= start && 0 <= length && start + length <= |ch| then ch[start..start + length] else []
  }

  /** A character record is a record of one string: the characters of the range. */
  lemma {:induction false} CharsRecordIsRecord(w: Writer, op: int32, ch: Bytes, start: int32, length: int32)
    requires MIN_OP <= op <= MAX_OP && CharsRecord(w, op, ch, start, length).Ok?
    ensures CharsRecord(w, op, ch, start, length) == Record1(w, op, Text(Slice(ch, start, length)))
  {
    if length == 0 {
      assert Slice(ch, start, length) == [];
    }
  }

  /** A record only appends to the output and only adds to the string map. */
  lemma {:induction false} RecordGrows(w: Writer, op: int32, fields: seq<Str>)
    requires MIN_OP <= op <= MAX_OP && Record(w, op, fields).Ok?
    ensures Grows(w, Record(w, op, fields).value)
  {
    RecordFromInterns(w, op, [], fields);
    var (ids, w1) := InternAll(w, fields).value;
    InternAllGrows(w, fields);
    assert [] + ids == ids;
    PutIntsAppends(w1.out + SmallInt(op), ids);
  }

  /** `writeInt` of several ids only appends. */
  lemma {:induction false} PutIntsAppends(out: seq<byte>, ids: seq<int32>)
    requires PutInts(out, ids).Ok?
    ensures out <= PutInts(out, ids).value
    decreases ids
  {
    if ids != [] {
      var out1 := PutInt(out, ids[0]).value;
      PutIntsAppends(out1, ids[1..]);
    }
  }

  lemma {:induction false} AttributeRecordsGrow(w: Writer, attributes: seq<Attribute>)
    requires AttributeRecords(w, attributes).Ok?
    ensures Grows(w, AttributeRecords(w, attributes).value)
    decreases attributes
  {
    if attributes != [] {
      var a := attributes[0];
      Record5Agrees(w, OP_ATTRIBUTE, a.uri, a.localName, a.qName, a.attrType, a.value);
      var w1 := Record(w, OP_ATTRIBUTE, AttributeFields(a)).value;
      RecordGrows(w, OP_ATTRIBUTE, AttributeFields(a));
      AttributeRecordsGrow(w1, attributes[1..]);
      GrowsTransitive(w, w1, AttributeRecords(w, attributes).value);
    }
  }

  /** A record of one or more strings only appends to the output and only adds to the string map. */
  lemma {:induction false} Record1Grows(w: Writer, op: int32, a: Str)
    requires MIN_OP <= op <= MAX_OP && Record1(w, op, a).Ok?
    ensures Grows(w, Record1(w, op, a).value)
  {
    Record1Agrees(w, op, a);
    RecordGrows(w, op, [a]);
  }

  lemma {:induction false} Record2Grows(w: Writer, op: int32, a: Str, b: Str)
    requires MIN_OP <= op <= MAX_OP && Record2(w, op, a, b).Ok?
    ensures Grows(w, Record2(w, op, a, b).value)
  {
    Record2Agrees(w, op, a, b);
    RecordGrows(w, op, [a, b]);
  }

  lemma {:induction false} Record3Grows(w: Writer, op: int32, a: Str, b: Str, c: Str)
    requires MIN_OP <= op <= MAX_OP && Record3(w, op, a, b, c).Ok?
    ensures Grows(w, Record3(w, op, a, b, c).value)
  {
    Record3Agrees(w, op, a, b, c);
    RecordGrows(w, op, [a, b, c]);
  }

  lemma {:induction false} Record4Grows(w: Writer, op: int32, a: Str, b: Str, c: Str, d: Str)
    requires MIN_OP <= op <= MAX_OP && Record4(w, op, a, b, c, d).Ok?
    ensures Grows(w, Record4(w, op, a, b, c, d).value)
  {
    Record4Agrees(w, op, a, b, c, d);
    RecordGrows(w, op, [a, b, c, d]);
  }

  lemma {:induction false} CharsRecordGrows(w: Writer, op: int32, ch: Bytes, start: int32, length: int32)
    requires MIN_OP <= op <= MAX_OP && CharsRecord(w, op, ch, start, length).Ok?
    ensures Grows(w, CharsRecord(w, op, ch, start, length).value)
  {
    CharsRecordIsRecord(w, op, ch, start, length);
    Record1Grows(w, op, Text(Slice(ch, start, length)));
  }

  lemma {:induction false} StartElementRecordGrows(w: Writer, uri: Str, localName: Str, qName: Str, attributes: Attributes)
    requires StartElementRecord(w, uri, localName, qName, attributes).Ok?
    ensures Grows(w, StartElementRecord(w, uri, localName, qName, attributes).value)
  {
    var w1 := Record3(w, OP_START_ELEMENT, uri, localName, qName).value;
    Record3Grows(w, OP_START_ELEMENT, uri, localName, qName);
    var counted := w1.(out := w1.out + Encoded(|attributes|));
    AttributeRecordsGrow(counted, attributes);
    GrowsTransitive(w, counted, AttributeRecords(counted, attributes).value);
  }

  /**
   * Handling an event only appends to the output and only adds strings to the string map, under
   * new ids: a string keeps its id for the rest of the document.
   */
  lemma {:induction false} EmitGrows(w: Writer, e: Event)
    requires Emit(w, e).Ok?
    ensures Grows(w, Emit(w, e).value)
  {
    match e
    case StartDocument =>
    case EndDocument =>
    case StartElement(uri, localName, qName, attributes) => StartElementRecordGrows(w, uri, localName, qName, attributes);
    case EndElement(uri, localName, qName) => Record3Grows(w, OP_END_ELEMENT, uri, localName, qName);
    case Characters(ch, start, length) => CharsRecordGrows(w, OP_CHARACTERS, ch, start, length);
    case IgnorableWhitespace(ch, start, length) => CharsRecordGrows(w, OP_IGNORABLE_WHITESPACE, ch, start, length);
    case StartPrefixMapping(prefix, uri) => Record2Grows(w, OP_START_PREFIX_MAPPING, prefix, uri);
    case EndPrefixMapping(prefix) => Record1Grows(w, OP_END_PREFIX_MAPPING, prefix);
    case ProcessingInstruction(target, data) => Record2Grows(w, OP_PROCESSING_INSTRUCTION, target, data);
    case SkippedEntity(name) => Record1Grows(w, OP_SKIPPED_ENTITY, name);
    case NotationDecl(name, publicId, systemId) => Record3Grows(w, OP_NOTATION_DECL, name, publicId, systemId);
    case UnparsedEntityDecl(name, publicId, systemId, notationName) =>
      Record4Grows(w, OP_UNPARSED_ENTITY_DECL, name, publicId, systemId, notationName);
  }

  /** A whole sequence of events only appends to the output and only adds to the string map. */
  lemma {:induction false} EmitAllGrows(w: Writer, events: seq<Event>)
    requires EmitAll(w, events).Ok?
    ensures Grows(w, EmitAll(w, events).value)
    decreases events
  {
    if events != [] {
      var w1 := Emit(w, events[0]).value;
      EmitGrows(w, events[0]);
      EmitAllGrows(w1, events[1..]);
      GrowsTransitive(w, w1, EmitAll(w, events).value);
    }
  }
}
