/**
 * `SAXWriter.java`: the encoder. It receives SAX events and writes Binary SAX opcodes. Every
 * string an event carries becomes an integer id: `null` is 0, "" is 1, and any other string is
 * given the next free id the first time it is seen, announced by a string-definition record
 * (`OP_STRING`, the id, the string) written just before the event that uses it.
 *
 * A writer's state is the `Writer` value: its string map, its id counter and everything written
 * to its stream so far. What each call does to that state is a pure function (`StringId`,
 * `Emit`), and the `SAXWriter` class is proved to carry those out.
 */
module SaxWriter {
  import opened Wrappers
  import opened JavaTypes
  import opened Utf8Codec
  import opened BSAXConstants
  import opened BSAXUtil
  import opened Streams
  import opened SaxEvents

  const FIRST_FREE_STRING_ID: int32 := 2

  /** The `SAXException`s and `IllegalArgumentException`s of the writer. */
  datatype WriteError =
    | Stream(e: StreamError)
    | NegativeStart(start: int)
    | NegativeLength(length: int)
    | OutOfBounds(start: int, length: int)

  /** The writer's string map, its id counter and the bytes written so far. */
  datatype Writer = Writer(stringMap: map<seq<byte>, int32>, nextStringId: int32, out: seq<byte>)

  /** A writer that has seen no string yet, on a stream already holding `out`. */
  function Fresh(out: seq<byte>): Writer
  {
    Writer(map[], FIRST_FREE_STRING_ID, out)
  }

  /** `writeInt` after the bytes `out`; a negative value is refused. */
  function PutInt(out: seq<byte>, n: int32): (r: Result<seq<byte>, WriteError>)
    ensures r.Ok? <==> n >= 0
    ensures r.Ok? ==> r.value == out + Encoded(n)
  {
    match WrittenInt(n)
    case Ok(bytes) => Ok(out + bytes)
    case Err(e) => Err(Stream(e))
  }

  /** `writeInt` for each of `ids`, in order. */
  function PutInts(out: seq<byte>, ids: seq<int32>): (r: Result<seq<byte>, WriteError>)
    decreases ids
  {
    if ids == [] then Ok(out)
    else
      var out1 :- PutInt(out, ids[0]);
      PutInts(out1, ids[1..])
  }

  /**
   * `getStringId(String)`: the id of `s` and the writer after it. A string not seen before takes
   * the counter (which then increments, wrapping like a Java `int`) and is announced by a
   * string-definition record; a negative id cannot be written and fails.
   */
  function StringId(w: Writer, s: Str): (r: Result<(int32, Writer), WriteError>)
  {
    match s
    case Null => Ok((NULL_STRING_ID, w))
    case Text(bytes) =>
      if bytes == [] then Ok((EMPTY_STRING_ID, w))
      else if bytes in w.stringMap then Ok((w.stringMap[bytes], w))
      else
        var id := w.nextStringId;
        var out :- PutInt(w.out + SmallInt(OP_STRING), id);
        Ok((id, Writer(w.stringMap[bytes := id], Increment(id), out + WrittenString(bytes))))
  }

  /**
   * `getStringId(char[], int, int)`: a negative start or length is refused, a zero length is the
   * empty string whatever the start, and `new String` refuses a range beyond the array.
   */
  function CharsStringId(w: Writer, ch: Bytes, start: int32, length: int32): (r: Result<(int32, Writer), WriteError>)
  {
    if start < 0 then Err(NegativeStart(start))
    else if length < 0 then Err(NegativeLength(length))
    else if length == 0 then Ok((EMPTY_STRING_ID, w))
    else if start + length > |ch| then Err(OutOfBounds(start, length))
    else StringId(w, Text(ch[start..start + length]))
  }

  /**
   * The writer after `getStringId` fails: the new id could not be written because the counter has
   * wrapped to a negative value. The counter has already been advanced and the `OP_STRING` opcode
   * written, and the string is not in the map.
   */
  function RefusedId(w: Writer): Writer
  {
    Writer(w.stringMap, Increment(w.nextStringId), w.out + SmallInt(OP_STRING))
  }

  /** The end of every event record: the opcode, then the ids of its string operands. */
  function Written(w: Writer, op: int32, ids: seq<int32>): (r: Result<Writer, WriteError>)
    requires MIN_OP <= op <= MAX_OP
  {
    var out :- PutInts(w.out + SmallInt(op), ids);
    Ok(w.(out := out))
  }

  /**
   * The shape of every emitter: intern `fields` one by one, collecting their ids after `ids`,
   * then write the opcode and all the ids.
   */
  function RecordFrom(w: Writer, op: int32, ids: seq<int32>, fields: seq<Str>): (r: Result<Writer, WriteError>)
    requires MIN_OP <= op <= MAX_OP
    decreases fields
  {
    if fields == [] then Written(w, op, ids)
    else
      var (id, w1) :- StringId(w, fields[0]);
      RecordFrom(w1, op, ids + [id], fields[1..])
  }

  /** An event record with the string operands `fields`. */
  function Record(w: Writer, op: int32, fields: seq<Str>): (r: Result<Writer, WriteError>)
    requires MIN_OP <= op <= MAX_OP
  {
    RecordFrom(w, op, [], fields)
  }

  /** An event record of one string given as a `char[]` range: `characters`, `ignorableWhitespace`. */
  function CharsRecord(w: Writer, op: int32, ch: Bytes, start: int32, length: int32): (r: Result<Writer, WriteError>)
    requires MIN_OP <= op <= MAX_OP
  {
    var (id, w1) :- CharsStringId(w, ch, start, length);
    var out :- PutInt(w1.out + SmallInt(op), id);
    Ok(w1.(out := out))
  }

  /** The attribute records of `startElement`, one `OP_ATTRIBUTE` record per attribute in order. */
  function AttributeRecords(w: Writer, attributes: seq<Attribute>): (r: Result<Writer, WriteError>)
    decreases attributes
  {
    if attributes == [] then Ok(w)
    else
      var a := attributes[0];
      var w1 :- Record5(w, OP_ATTRIBUTE, a.uri, a.localName, a.qName, a.attrType, a.value);
      AttributeRecords(w1, attributes[1..])
  }

  /** `startElement`: the element record, the attribute count, then the attribute records. */
  function StartElementRecord(w: Writer, uri: Str, localName: Str, qName: Str, attributes: Attributes)
    : (r: Result<Writer, WriteError>)
  {
    var w1 :- Record3(w, OP_START_ELEMENT, uri, localName, qName);
    AttributeRecords(w1.(out := w1.out + Encoded(|attributes|)), attributes)
  }

  /** What each event handler does to the writer. */
  function Emit(w: Writer, e: Event): (r: Result<Writer, WriteError>)
  {
    match e
    case StartDocument =>
      Ok(w.(out := w.out + MAGIC + SmallInt(VERSION) + SmallInt(UNLIMITED_STRING_TABLE_SIZE) + SmallInt(OP_START_DOCUMENT)))
    case EndDocument => Ok(w.(out := w.out + SmallInt(OP_END_DOCUMENT)))
    case StartElement(uri, localName, qName, attributes) => StartElementRecord(w, uri, localName, qName, attributes)
    case EndElement(uri, localName, qName) => Record3(w, OP_END_ELEMENT, uri, localName, qName)
    case Characters(ch, start, length) => CharsRecord(w, OP_CHARACTERS, ch, start, length)
    case IgnorableWhitespace(ch, start, length) => CharsRecord(w, OP_IGNORABLE_WHITESPACE, ch, start, length)
    case StartPrefixMapping(prefix, uri) => Record2(w, OP_START_PREFIX_MAPPING, prefix, uri)
    case EndPrefixMapping(prefix) => Record1(w, OP_END_PREFIX_MAPPING, prefix)
    case ProcessingInstruction(target, data) => Record2(w, OP_PROCESSING_INSTRUCTION, target, data)
    case SkippedEntity(name) => Record1(w, OP_SKIPPED_ENTITY, name)
    case NotationDecl(name, publicId, systemId) => Record3(w, OP_NOTATION_DECL, name, publicId, systemId)
    case UnparsedEntityDecl(name, publicId, systemId, notationName) =>
      Record4(w, OP_UNPARSED_ENTITY_DECL, name, publicId, systemId, notationName)
  }

  /** The writer after the events `events`, handled in order. */
  function EmitAll(w: Writer, events: seq<Event>): (r: Result<Writer, WriteError>)
    decreases events
  {
    if events == [] then Ok(w)
    else
      var w1 :- Emit(w, events[0]);
      EmitAll(w1, events[1..])
  }

  /** One field of an event record interned. */
  lemma {:induction false} RecordFromStep(w: Writer, op: int32, ids: seq<int32>, fields: seq<Str>)
    requires MIN_OP <= op <= MAX_OP && fields != []
    ensures var first := StringId(w, fields[0]);
      RecordFrom(w, op, ids, fields) ==
        if first.Err? then Err(first.error) else RecordFrom(first.value.1, op, ids + [first.value.0], fields[1..])
  {
  }

  /** One id of an event record written. */
  lemma {:induction false} PutIntsStep(out: seq<byte>, ids: seq<int32>)
    requires ids != []
    ensures var first := PutInt(out, ids[0]);
      PutInts(out, ids) == if first.Err? then Err(first.error) else PutInts(first.value, ids[1..])
  {
  }

  /*
   * The records of one to five string operands as the handlers produce them, one call at a time:
   * every string interned in order, then the opcode and each id written.
   */

  function Record1(w: Writer, op: int32, a: Str): Result<Writer, WriteError>
    requires MIN_OP <= op <= MAX_OP
  {
    var (ia, w1) :- StringId(w, a);
    Tail1(w1, op, ia)
  }

  function Record2(w: Writer, op: int32, a: Str, b: Str): Result<Writer, WriteError>
    requires MIN_OP <= op <= MAX_OP
  {
    var (ia, w1) :- StringId(w, a);
    var (ib, w2) :- StringId(w1, b);
    Tail2(w2, op, ia, ib)
  }

  function Record3(w: Writer, op: int32, a: Str, b: Str, c: Str): Result<Writer, WriteError>
    requires MIN_OP <= op <= MAX_OP
  {
    var (ia, w1) :- StringId(w, a);
    var (ib, w2) :- StringId(w1, b);
    var (ic, w3) :- StringId(w2, c);
    Tail3(w3, op, ia, ib, ic)
  }

  function Record4(w: Writer, op: int32, a: Str, b: Str, c: Str, d: Str): Result<Writer, WriteError>
    requires MIN_OP <= op <= MAX_OP
  {
    var (ia, w1) :- StringId(w, a);
    var (ib, w2) :- StringId(w1, b);
    var (ic, w3) :- StringId(w2, c);
    var (id, w4) :- StringId(w3, d);
    Tail4(w4, op, ia, ib, ic, id)
  }

  function Record5(w: Writer, op: int32, a: Str, b: Str, c: Str, d: Str, e: Str): Result<Writer, WriteError>
    requires MIN_OP <= op <= MAX_OP
  {
    var (ia, w1) :- StringId(w, a);
    var (ib, w2) :- StringId(w1, b);
    var (ic, w3) :- StringId(w2, c);
    var (id, w4) :- StringId(w3, d);
    var (ie, w5) :- StringId(w4, e);
    Tail5(w5, op, ia, ib, ic, id, ie)
  }

  function Tail1(w: Writer, op: int32, ia: int32): Result<Writer, WriteError>
    requires MIN_OP <= op <= MAX_OP
  {
    var o1 :- PutInt(w.out + SmallInt(op), ia);
    Ok(w.(out := o1))
  }

  function Tail2(w: Writer, op: int32, ia: int32, ib: int32): Result<Writer, WriteError>
    requires MIN_OP <= op <= MAX_OP
  {
    var o1 :- PutInt(w.out + SmallInt(op), ia);
    var o2 :- PutInt(o1, ib);
    Ok(w.(out := o2))
  }

  function Tail3(w: Writer, op: int32, ia: int32, ib: int32, ic: int32): Result<Writer, WriteError>
    requires MIN_OP <= op <= MAX_OP
  {
    var o1 :- PutInt(w.out + SmallInt(op), ia);
    var o2 :- PutInt(o1, ib);
    var o3 :- PutInt(o2, ic);
    Ok(w.(out := o3))
  }

  function Tail4(w: Writer, op: int32, ia: int32, ib: int32, ic: int32, id: int32): Result<Writer, WriteError>
    requires MIN_OP <= op <= MAX_OP
  {
    var o1 :- PutInt(w.out + SmallInt(op), ia);
    var o2 :- PutInt(o1, ib);
    var o3 :- PutInt(o2, ic);
    var o4 :- PutInt(o3, id);
    Ok(w.(out := o4))
  }

  function Tail5(w: Writer, op: int32, ia: int32, ib: int32, ic: int32, id: int32, ie: int32): Result<Writer, WriteError>
    requires MIN_OP <= op <= MAX_OP
  {
    var o1 :- PutInt(w.out + SmallInt(op), ia);
    var o2 :- PutInt(o1, ib);
    var o3 :- PutInt(o2, ic);
    var o4 :- PutInt(o3, id);
    var o5 :- PutInt(o4, ie);
    Ok(w.(out := o5))
  }

  /*
   * `RecordFrom` with one to five fields left, unrolled one field at a time.
   */

  function Unrolled1(w: Writer, op: int32, ids: seq<int32>, a: Str): Result<Writer, WriteError>
    requires MIN_OP <= op <= MAX_OP
  {
    var (id, w1) :- StringId(w, a);
    Written(w1, op, ids + [id])
  }

  function Unrolled2(w: Writer, op: int32, ids: seq<int32>, a: Str, b: Str): Result<Writer, WriteError>
    requires MIN_OP <= op <= MAX_OP
  {
    var (id, w1) :- StringId(w, a);
    Unrolled1(w1, op, ids + [id], b)
  }

  function Unrolled3(w: Writer, op: int32, ids: seq<int32>, a: Str, b: Str, c: Str): Result<Writer, WriteError>
    requires MIN_OP <= op <= MAX_OP
  {
    var (id, w1) :- StringId(w, a);
    Unrolled2(w1, op, ids + [id], b, c)
  }

  function Unrolled4(w: Writer, op: int32, ids: seq<int32>, a: Str, b: Str, c: Str, d: Str): Result<Writer, WriteError>
    requires MIN_OP <= op <= MAX_OP
  {
    var (id, w1) :- StringId(w, a);
    Unrolled3(w1, op, ids + [id], b, c, d)
  }

  function Unrolled5(w: Writer, op: int32, ids: seq<int32>, a: Str, b: Str, c: Str, d: Str, e: Str): Result<Writer, WriteError>
    requires MIN_OP <= op <= MAX_OP
  {
    var (id, w1) :- StringId(w, a);
    Unrolled4(w1, op, ids + [id], b, c, d, e)
  }

  lemma {:induction false} Unrolled1Agrees(w: Writer, op: int32, ids: seq<int32>, a: Str)
    requires MIN_OP <= op <= MAX_OP
    ensures RecordFrom(w, op, ids, [a]) == Unrolled1(w, op, ids, a)
  {
    RecordFromStep(w, op, ids, [a]);
    assert [a][1..] == [];
  }

  lemma {:induction false} Unrolled2Agrees(w: Writer, op: int32, ids: seq<int32>, a: Str, b: Str)
    requires MIN_OP <= op <= MAX_OP
    ensures RecordFrom(w, op, ids, [a, b]) == Unrolled2(w, op, ids, a, b)
  {
    RecordFromStep(w, op, ids, [a, b]);
    assert [a, b][1..] == [b];
    match StringId(w, a)
    case Err(_) =>
    case Ok((id, w1)) => Unrolled1Agrees(w1, op, ids + [id], b);
  }

  lemma {:induction false} Unrolled3Agrees(w: Writer, op: int32, ids: seq<int32>, a: Str, b: Str, c: Str)
    requires MIN_OP <= op <= MAX_OP
    ensures RecordFrom(w, op, ids, [a, b, c]) == Unrolled3(w, op, ids, a, b, c)
  {
    RecordFromStep(w, op, ids, [a, b, c]);
    assert [a, b, c][1..] == [b, c];
    match StringId(w, a)
    case Err(_) =>
    case Ok((id, w1)) => Unrolled2Agrees(w1, op, ids + [id], b, c);
  }

  lemma {:induction false} Unrolled4Agrees(w: Writer, op: int32, ids: seq<int32>, a: Str, b: Str, c: Str, d: Str)
    requires MIN_OP <= op <= MAX_OP
    ensures RecordFrom(w, op, ids, [a, b, c, d]) == Unrolled4(w, op, ids, a, b, c, d)
  {
    RecordFromStep(w, op, ids, [a, b, c, d]);
    assert [a, b, c, d][1..] == [b, c, d];
    match StringId(w, a)
    case Err(_) =>
    case Ok((id, w1)) => Unrolled3Agrees(w1, op, ids + [id], b, c, d);
  }

  lemma {:induction false} Unrolled5Agrees(w: Writer, op: int32, ids: seq<int32>, a: Str, b: Str, c: Str, d: Str, e: Str)
    requires MIN_OP <= op <= MAX_OP
    ensures RecordFrom(w, op, ids, [a, b, c, d, e]) == Unrolled5(w, op, ids, a, b, c, d, e)
  {
    RecordFromStep(w, op, ids, [a, b, c, d, e]);
    assert [a, b, c, d, e][1..] == [b, c, d, e];
    match StringId(w, a)
    case Err(_) =>
    case Ok((id, w1)) => Unrolled4Agrees(w1, op, ids + [id], b, c, d, e);
  }

  lemma {:induction false} Written1(w: Writer, op: int32, ia: int32)
    requires MIN_OP <= op <= MAX_OP
    ensures Written(w, op, [] + [ia]) == Tail1(w, op, ia)
  {
    var ids := [] + [ia];
    PutIntsStep(w.out + SmallInt(op), ids);
  }

  lemma {:induction false} Written2(w: Writer, op: int32, ia: int32, ib: int32)
    requires MIN_OP <= op <= MAX_OP
    ensures Written(w, op, [] + [ia] + [ib]) == Tail2(w, op, ia, ib)
  {
    var ids := [] + [ia] + [ib];
    PutIntsStep(w.out + SmallInt(op), ids);
    if ia >= 0 {
      PutIntsStep(w.out + SmallInt(op) + Encoded(ia), ids[1..]);
    }
  }

  lemma {:induction false} Written3(w: Writer, op: int32, ia: int32, ib: int32, ic: int32)
    requires MIN_OP <= op <= MAX_OP
    ensures Written(w, op, [] + [ia] + [ib] + [ic]) == Tail3(w, op, ia, ib, ic)
  {
    var ids := [] + [ia] + [ib] + [ic];
    PutIntsStep(w.out + SmallInt(op), ids);
    if ia >= 0 {
      PutIntsStep(w.out + SmallInt(op) + Encoded(ia), ids[1..]);
      if ib >= 0 {
        PutIntsStep(w.out + SmallInt(op) + Encoded(ia) + Encoded(ib), ids[1..][1..]);
      }
    }
  }

  lemma {:induction false} Written4(w: Writer, op: int32, ia: int32, ib: int32, ic: int32, id: int32)
    requires MIN_OP <= op <= MAX_OP
    ensures Written(w, op, [] + [ia] + [ib] + [ic] + [id]) == Tail4(w, op, ia, ib, ic, id)
  {
    var ids := [] + [ia] + [ib] + [ic] + [id];
    PutIntsStep(w.out + SmallInt(op), ids);
    if ia >= 0 {
      PutIntsStep(w.out + SmallInt(op) + Encoded(ia), ids[1..]);
      if ib >= 0 {
        PutIntsStep(w.out + SmallInt(op) + Encoded(ia) + Encoded(ib), ids[1..][1..]);
        if ic >= 0 {
          PutIntsStep(w.out + SmallInt(op) + Encoded(ia) + Encoded(ib) + Encoded(ic), ids[1..][1..][1..]);
        }
      }
    }
  }

  lemma {:induction false} Written5(w: Writer, op: int32, ia: int32, ib: int32, ic: int32, id: int32, ie: int32)
    requires MIN_OP <= op <= MAX_OP
    ensures Written(w, op, [] + [ia] + [ib] + [ic] + [id] + [ie]) == Tail5(w, op, ia, ib, ic, id, ie)
  {
    var ids := [] + [ia] + [ib] + [ic] + [id] + [ie];
    PutIntsStep(w.out + SmallInt(op), ids);
    if ia >= 0 {
      PutIntsStep(w.out + SmallInt(op) + Encoded(ia), ids[1..]);
      if ib >= 0 {
        PutIntsStep(w.out + SmallInt(op) + Encoded(ia) + Encoded(ib), ids[1..][1..]);
        if ic >= 0 {
          PutIntsStep(w.out + SmallInt(op) + Encoded(ia) + Encoded(ib) + Encoded(ic), ids[1..][1..][1..]);
          if id >= 0 {
            PutIntsStep(w.out + SmallInt(op) + Encoded(ia) + Encoded(ib) + Encoded(ic) + Encoded(id), ids[1..][1..][1..][1..]);
          }
        }
      }
    }
  }

  lemma {:induction false} Record1Agrees(w: Writer, op: int32, a: Str)
    requires MIN_OP <= op <= MAX_OP
    ensures Record(w, op, [a]) == Record1(w, op, a)
  {
    Unrolled1Agrees(w, op, [], a);
    match StringId(w, a)
    case Err(_) =>
    case Ok((ia, w1)) =>
      Written1(w1, op, ia);
  }

  lemma {:induction false} Record2Agrees(w: Writer, op: int32, a: Str, b: Str)
    requires MIN_OP <= op <= MAX_OP
    ensures Record(w, op, [a, b]) == Record2(w, op, a, b)
  {
    Unrolled2Agrees(w, op, [], a, b);
    match StringId(w, a)
    case Err(_) =>
    case Ok((ia, w1)) =>
      match StringId(w1, b)
      case Err(_) =>
      case Ok((ib, w2)) =>
        Written2(w2, op, ia, ib);
  }

  lemma {:induction false} Record3Agrees(w: Writer, op: int32, a: Str, b: Str, c: Str)
    requires MIN_OP <= op <= MAX_OP
    ensures Record(w, op, [a, b, c]) == Record3(w, op, a, b, c)
  {
    Unrolled3Agrees(w, op, [], a, b, c);
    match StringId(w, a)
    case Err(_) =>
    case Ok((ia, w1)) =>
      match StringId(w1, b)
      case Err(_) =>
      case Ok((ib, w2)) =>
        match StringId(w2, c)
        case Err(_) =>
        case Ok((ic, w3)) =>
          Written3(w3, op, ia, ib, ic);
  }

  lemma {:induction false} Record4Agrees(w: Writer, op: int32, a: Str, b: Str, c: Str, d: Str)
    requires MIN_OP <= op <= MAX_OP
    ensures Record(w, op, [a, b, c, d]) == Record4(w, op, a, b, c, d)
  {
    Unrolled4Agrees(w, op, [], a, b, c, d);
    match StringId(w, a)
    case Err(_) =>
    case Ok((ia, w1)) =>
      match StringId(w1, b)
      case Err(_) =>
      case Ok((ib, w2)) =>
        match StringId(w2, c)
        case Err(_) =>
        case Ok((ic, w3)) =>
          match StringId(w3, d)
          case Err(_) =>
          case Ok((id, w4)) =>
            Written4(w4, op, ia, ib, ic, id);
  }

  lemma {:induction false} Record5Agrees(w: Writer, op: int32, a: Str, b: Str, c: Str, d: Str, e: Str)
    requires MIN_OP <= op <= MAX_OP
    ensures Record(w, op, [a, b, c, d, e]) == Record5(w, op, a, b, c, d, e)
  {
    Unrolled5Agrees(w, op, [], a, b, c, d, e);
    match StringId(w, a)
    case Err(_) =>
    case Ok((ia, w1)) =>
      match StringId(w1, b)
      case Err(_) =>
      case Ok((ib, w2)) =>
        match StringId(w2, c)
        case Err(_) =>
        case Ok((ic, w3)) =>
          match StringId(w3, d)
          case Err(_) =>
          case Ok((id, w4)) =>
            match StringId(w4, e)
            case Err(_) =>
            case Ok((ie, w5)) =>
              Written5(w5, op, ia, ib, ic, id, ie);
  }

  /** `SAXWriter`: the string map and counter it updates, and the stream it appends to. */
  class SAXWriter {
    var stringMap: map<seq<byte>, int32>
    var nextStringId: int32
    const out: OutputStream

    function State(): Writer
      reads this, out
    {
      Writer(stringMap, nextStringId, out.written)
    }

    /** Every id in the map has been written once, so none is negative. */
    predicate Valid()
      reads this
    {
      forall s | s in stringMap :: stringMap[s] >= 0
    }

    /** `new SAXWriter(out)`; the counter is this writer's own, starting at the first free id. */
    constructor (out: OutputStream)
      ensures this.out == out && State() == Fresh(out.written) && Valid()
    {
      this.out := out;
      stringMap := map[];
      nextStringId := FIRST_FREE_STRING_ID;
    }

    /** `init()`, with the counter reset to the first free id (see `InitAsWritten`). */
    method Init()
      modifies this
      ensures State() == Fresh(old(out.written)) && Valid()
    {
      stringMap := map[];
      nextStringId := FIRST_FREE_STRING_ID;
    }

    /** `init()` as the source has it: the counter is reset to 1, the id reserved for "". */
    method InitAsWritten()
      modifies this
      ensures State() == Writer(map[], EMPTY_STRING_ID, old(out.written)) && Valid()
    {
      stringMap := map[];
      nextStringId := 1;
    }

    /**
     * The call returned `r` and left the writer as `expected` says. After an error only the
     * result is specified.
     */
    twostate predicate Did(new r: Result<(), WriteError>, new expected: Result<Writer, WriteError>)
      reads this, out
    {
      expected == if r.Ok? then Ok(State()) else Err(r.error)
    }

    /** `BSAXUtil.writeInt(out, n)`. */
    method Put(n: int32) returns (r: Result<(), WriteError>)
      modifies out
      ensures match PutInt(old(out.written), n)
        case Ok(written) => r.Ok? && out.written == written
        case Err(e) => r == Err(e) && out.written == old(out.written)
    {
      var written := WriteInt(out, n);
      if written.Err? {
        return Err(Stream(written.error));
      }
      return Ok(());
    }

    /** `BSAXUtil.writeInt(out, n)` for a value below 0x80, which cannot fail. */
    method PutSmall(n: int32)
      requires 0 <= n < 0x80
      modifies out
      ensures out.written == old(out.written) + SmallInt(n)
    {
      var _ := Put(n);
      EncodedSmall(n);
    }

    /** `getStringId(String)`; on failure the writer is left as `RefusedId` describes. */
    method GetStringId(s: Str) returns (r: Result<int32, WriteError>)
      requires Valid()
      modifies this, out
      ensures Valid()
      ensures StringId(old(State()), s) == if r.Ok? then Ok((r.value, State())) else Err(r.error)
      ensures r.Ok? ==> r.value >= 0
      ensures r.Err? ==> State() == RefusedId(old(State()))
    {
      if s.Null? {
        return Ok(NULL_STRING_ID);
      }
      if s.bytes == [] {
        return Ok(EMPTY_STRING_ID);
      }
      if s.bytes in stringMap {
        return Ok(stringMap[s.bytes]);
      }
      var id := nextStringId;
      nextStringId := Increment(nextStringId);
      PutSmall(OP_STRING);
      var _ :- Put(id);
      WriteString(out, s.bytes);
      stringMap := stringMap[s.bytes := id];
      return Ok(id);
    }

    /**
     * `getStringId(char[], int, int)`: a refused range leaves the writer as it was, and a refused
     * id leaves it as `RefusedId` describes.
     */
    method GetCharsStringId(ch: Bytes, start: int32, length: int32) returns (r: Result<int32, WriteError>)
      requires Valid()
      modifies this, out
      ensures Valid()
      ensures match CharsStringId(old(State()), ch, start, length)
        case Ok((id, w)) => r == Ok(id) && id >= 0 && State() == w
        case Err(e) => r == Err(e) && State() == if e.Stream? then RefusedId(old(State())) else old(State())
    {
      if start < 0 {
        return Err(NegativeStart(start));
      }
      if length < 0 {
        return Err(NegativeLength(length));
      }
      if length == 0 {
        return Ok(EMPTY_STRING_ID);
      }
      if start + length > |ch| {
        return Err(OutOfBounds(start, length));
      }
      r := GetStringId(Text(ch[start..start + length]));
    }

    method Characters(ch: Bytes, start: int32, length: int32) returns (r: Result<(), WriteError>)
      requires Valid()
      modifies this, out
      ensures Valid() && Did(r, Emit(old(State()), Event.Characters(ch, start, length)))
    {
      var stringId :- GetCharsStringId(ch, start, length);
      PutSmall(OP_CHARACTERS);
      var _ := Put(stringId);
      return Ok(());
    }

    method EndDocument() returns (r: Result<(), WriteError>)
      requires Valid()
      modifies out
      ensures Valid() && Did(r, Emit(old(State()), Event.EndDocument))
    {
      PutSmall(OP_END_DOCUMENT);
      return Ok(());
    }

    method EndElement(uri: Str, localName: Str, qName: Str) returns (r: Result<(), WriteError>)
      requires Valid()
      modifies this, out
      ensures Valid() && Did(r, Record3(old(State()), OP_END_ELEMENT, uri, localName, qName))
    {
      var uriId :- GetStringId(uri);
      var localNameId :- GetStringId(localName);
      var qNameId :- GetStringId(qName);
      PutSmall(OP_END_ELEMENT);
      var _ := Put(uriId);
      var _ := Put(localNameId);
      var _ := Put(qNameId);
      return Ok(());
    }

    method EndPrefixMapping(prefix: Str) returns (r: Result<(), WriteError>)
      requires Valid()
      modifies this, out
      ensures Valid() && Did(r, Record1(old(State()), OP_END_PREFIX_MAPPING, prefix))
    {
      var prefixId :- GetStringId(prefix);
      PutSmall(OP_END_PREFIX_MAPPING);
      var _ := Put(prefixId);
      return Ok(());
    }

    method IgnorableWhitespace(ch: Bytes, start: int32, length: int32) returns (r: Result<(), WriteError>)
      requires Valid()
      modifies this, out
      ensures Valid() && Did(r, Emit(old(State()), Event.IgnorableWhitespace(ch, start, length)))
    {
      var wsId :- GetCharsStringId(ch, start, length);
      PutSmall(OP_IGNORABLE_WHITESPACE);
      var _ := Put(wsId);
      return Ok(());
    }

    method NotationDecl(name: Str, publicId: Str, systemId: Str) returns (r: Result<(), WriteError>)
      requires Valid()
      modifies this, out
      ensures Valid() && Did(r, Record3(old(State()), OP_NOTATION_DECL, name, publicId, systemId))
    {
      var nameId :- GetStringId(name);
      var publicIdId :- GetStringId(publicId);
      var systemIdId :- GetStringId(systemId);
      PutSmall(OP_NOTATION_DECL);
      var _ := Put(nameId);
      var _ := Put(publicIdId);
      var _ := Put(systemIdId);
      return Ok(());
    }

    method ProcessingInstruction(target: Str, data: Str) returns (r: Result<(), WriteError>)
      requires Valid()
      modifies this, out
      ensures Valid() && Did(r, Record2(old(State()), OP_PROCESSING_INSTRUCTION, target, data))
    {
      var targetId :- GetStringId(target);
      var dataId :- GetStringId(data);
      PutSmall(OP_PROCESSING_INSTRUCTION);
      var _ := Put(targetId);
      var _ := Put(dataId);
      return Ok(());
    }

    method SkippedEntity(name: Str) returns (r: Result<(), WriteError>)
      requires Valid()
      modifies this, out
      ensures Valid() && Did(r, Record1(old(State()), OP_SKIPPED_ENTITY, name))
    {
      var nameId :- GetStringId(name);
      PutSmall(OP_SKIPPED_ENTITY);
      var _ := Put(nameId);
      return Ok(());
    }

    /** The header, then the opcode; the stream's own `IOException` is not modelled. */
    method StartDocument() returns (r: Result<(), WriteError>)
      requires Valid()
      modifies out
      ensures Valid() && Did(r, Emit(old(State()), Event.StartDocument))
    {
      out.Write(MAGIC);
      PutSmall(VERSION);
      PutSmall(UNLIMITED_STRING_TABLE_SIZE);
      PutSmall(OP_START_DOCUMENT);
      return Ok(());
    }

    /**
     * `startDocument` as written: it writes whatever the shared magic array holds, which is not
     * the magic bytes once a magic check as written has read other bytes into it.
     */
    method StartDocumentAsWritten(magic: array<byte>) returns (r: Result<(), WriteError>)
      requires Valid()
      modifies out
      ensures Valid() && r.Ok?
      ensures State() == old(State()).(out := old(out.written) + magic[..] + SmallInt(VERSION) +
        SmallInt(UNLIMITED_STRING_TABLE_SIZE) + SmallInt(OP_START_DOCUMENT))
    {
      out.Write(magic[..]);
      PutSmall(VERSION);
      PutSmall(UNLIMITED_STRING_TABLE_SIZE);
      PutSmall(OP_START_DOCUMENT);
      return Ok(());
    }

    method StartElement(uri: Str, localName: Str, qName: Str, attributes: Attributes) returns (r: Result<(), WriteError>)
      requires Valid()
      modifies this, out
      ensures Valid() && Did(r, StartElementRecord(old(State()), uri, localName, qName, attributes))
    {
      var uriId :- GetStringId(uri);
      var localNameId :- GetStringId(localName);
      var qNameId :- GetStringId(qName);
      PutSmall(OP_START_ELEMENT);
      var _ := Put(uriId);
      var _ := Put(localNameId);
      var _ := Put(qNameId);
      var _ := Put(|attributes|);
      r := WriteAttributes(attributes);
    }

    /** The attribute loop of `startElement`. */
    method WriteAttributes(attributes: seq<Attribute>) returns (r: Result<(), WriteError>)
      requires Valid()
      modifies this, out
      ensures Valid() && Did(r, AttributeRecords(old(State()), attributes))
    {
      for i := 0 to |attributes|
        invariant Valid()
        invariant AttributeRecords(old(State()), attributes) == AttributeRecords(State(), attributes[i..])
      {
        var _ :- WriteAttribute(attributes[i]);
        assert attributes[i..][1..] == attributes[i + 1..];
      }
      return Ok(());
    }

    /** One iteration of the attribute loop of `startElement`. */
    method WriteAttribute(a: Attribute) returns (r: Result<(), WriteError>)
      requires Valid()
      modifies this, out
      ensures Valid()
      ensures Did(r, Record5(old(State()), OP_ATTRIBUTE, a.uri, a.localName, a.qName, a.attrType, a.value))
    {
      var attrUriId :- GetStringId(a.uri);
      var attrLocalNameId :- GetStringId(a.localName);
      var attrQNameId :- GetStringId(a.qName);
      var attrTypeId :- GetStringId(a.attrType);
      var attrValueId :- GetStringId(a.value);
      PutSmall(OP_ATTRIBUTE);
      var _ := Put(attrUriId);
      var _ := Put(attrLocalNameId);
      var _ := Put(attrQNameId);
      var _ := Put(attrTypeId);
      var _ := Put(attrValueId);
      return Ok(());
    }

    method StartPrefixMapping(prefix: Str, uri: Str) returns (r: Result<(), WriteError>)
      requires Valid()
      modifies this, out
      ensures Valid() && Did(r, Record2(old(State()), OP_START_PREFIX_MAPPING, prefix, uri))
    {
      var prefixId :- GetStringId(prefix);
      var uriId :- GetStringId(uri);
      PutSmall(OP_START_PREFIX_MAPPING);
      var _ := Put(prefixId);
      var _ := Put(uriId);
      return Ok(());
    }

    method UnparsedEntityDecl(name: Str, publicId: Str, systemId: Str, notationName: Str) returns (r: Result<(), WriteError>)
      requires Valid()
      modifies this, out
      ensures Valid()
      ensures Did(r, Record4(old(State()), OP_UNPARSED_ENTITY_DECL, name, publicId, systemId, notationName))
    {
      var nameId :- GetStringId(name);
      var publicIdId :- GetStringId(publicId);
      var systemIdId :- GetStringId(systemId);
      var notationNameId :- GetStringId(notationName);
      PutSmall(OP_UNPARSED_ENTITY_DECL);
      var _ := Put(nameId);
      var _ := Put(publicIdId);
      var _ := Put(systemIdId);
      var _ := Put(notationNameId);
      return Ok(());
    }
  }
}
