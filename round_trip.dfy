/**
 * Writer and reader together: the Binary SAX stream a `SAXWriter` produces from a document's
 * events is parsed by `BSAXReader` into the same events. The writer numbers each new string and
 * defines it just before the record that first uses it; the reader's table, built from those
 * definitions, is kept in step with the writer's string map (`Sync`).
 */
module StreamRoundTrip {
  import opened Wrappers
  import opened JavaTypes
  import opened Utf8Codec
  import opened BSAXConstants
  import opened BSAXUtil
  import opened SaxEvents
  import opened BSAXHeader
  import opened SaxWriter
  import opened SaxReader
  import opened SaxReaderProperties
  import opened SaxWriterProperties

  /*
   * Writer and reader in step
   */

  /**
   * The reader's table holds, under every id the writer gave out, the string it gave it to, and
   * its next entry is the writer's counter (one past `MAX_INT` once the counter has wrapped).
   */
  predicate Sync(w: Writer, t: Table)
  {
    t.Valid() && t.max == UNLIMITED_STRING_TABLE_SIZE &&
    (if w.nextStringId >= 0 then |t.entries| == w.nextStringId
     else w.nextStringId == MIN_INT && |t.entries| == MAX_INT + 1) &&
    forall b: seq<byte> | b in w.stringMap ::
      2 <= w.stringMap[b] < |t.entries| && t.entries[w.stringMap[b]].Text? && t.entries[w.stringMap[b]].bytes == b
  }

  /** The writer sends `s` as `id`: the two reserved ids, or the id in its string map. */
  predicate Names(w: Writer, id: int, s: Str)
  {
    (s == Null && id == NULL_STRING_ID) ||
    (s == EMPTY && id == EMPTY_STRING_ID) ||
    (s.Text? && s.bytes != [] && s.bytes in w.stringMap && w.stringMap[s.bytes] == id)
  }

  /** An id the writer sent reads, in a table in step with it, as the string it stands for. */
  lemma {:induction false} SyncRef(w: Writer, t: Table, id: int, s: Str, after: seq<byte>)
    requires Sync(w, t) && Names(w, id, s) && id <= MAX_INT
    ensures Ref(Encoded(id) + after, t) == Ok((s, after))
  {
    RefIsLookup(id, after, t);
  }

  lemma {:induction false} GrowsNames(before: Writer, after: Writer, id: int, s: Str)
    requires Grows(before, after) && Names(before, id, s)
    ensures Names(after, id, s)
  {
  }

  /**
   * A definition of the next id of an unlimited table is read, by the record loop or by the
   * attribute loop, into the table with that string appended.
   */
  lemma {:induction false} DefinitionReplay(id: int32, bytes: Bytes, rest: seq<byte>, t: Table, delivered: seq<Event>) returns (t1: Table)
    requires t.Valid() && t.max == UNLIMITED_STRING_TABLE_SIZE && id == |t.entries|
    ensures t1.Valid() && t1.max == t.max && Defines(t.entries, t1.entries, id, Text(bytes))
    ensures Ops(Definition(id, bytes) + rest, t, delivered) == Ops(rest, t1, delivered)
    ensures AttributeOpcode(Definition(id, bytes) + rest, t) == AttributeOpcode(rest, t1)
  {
    var afterOp := Encoded(id) + WrittenString(bytes) + rest;
    EncodedSmall(OP_STRING);
    assert Definition(id, bytes) + rest == Encoded(OP_STRING) + afterOp;
    OperandReadsEncodings(Definition(id, bytes) + rest, OP_STRING, afterOp);
    StringOpStores(id, bytes, rest, t);
    StringOpKeepsValid(afterOp, t);
    t1 := StringOp(afterOp, t).value.0;
    OpsStep(Definition(id, bytes) + rest, t, delivered, OP_STRING, afterOp);
    assert delivered + [] == delivered;
  }

  /** A new string's definition keeps the writer in step with the table it leaves. */
  lemma {:induction false} DefinitionKeepsSync(w: Writer, t: Table, bytes: Bytes, t1: Table)
    requires Sync(w, t) && w.nextStringId >= 0 && bytes !in w.stringMap
    requires t1.Valid() && t1.max == t.max && Defines(t.entries, t1.entries, w.nextStringId, Text(bytes))
    ensures Sync(Writer(w.stringMap[bytes := w.nextStringId], Increment(w.nextStringId), w.out), t1)
  {
  }

  /**
   * `getStringId` on a writer in step with the reader's table: what it writes, a definition or
   * nothing, is read back, by the record loop or by the attribute loop, into a table in step with
   * the new writer, under which the id returned reads as `s`.
   */
  lemma {:induction false} InternReplay(w: Writer, t: Table, s: Str, rest: seq<byte>, delivered: seq<Event>) returns (t1: Table)
    requires Sync(w, t) && StringId(w, s).Ok?
    ensures var (id, w1) := StringId(w, s).value;
      Sync(w1, t1) && Names(w1, id, s) && Grows(w, w1) &&
      Ops(w1.out[|w.out|..] + rest, t, delivered) == Ops(rest, t1, delivered) &&
      AttributeOpcode(w1.out[|w.out|..] + rest, t) == AttributeOpcode(rest, t1)
  {
    var (id, w1) := StringId(w, s).value;
    StringIdGrows(w, s);
    if s.Null? || s.bytes == [] || s.bytes in w.stringMap {
      t1 := t;
      assert w1.out[|w.out|..] + rest == rest;
    } else {
      NewStringId(w, s.bytes);
      assert w1.out[|w.out|..] == Definition(id, s.bytes);
      t1 := DefinitionReplay(id, s.bytes, rest, t, delivered);
      DefinitionKeepsSync(w, t, s.bytes, t1);
    }
  }

  /*
   * Records
   */

  /** Concatenation regrouped, as a step the solver is handed rather than left to find. */
  lemma {:induction false} Regrouped<T>(a: seq<T>, b: seq<T>, c: seq<T>)
    ensures a + b + c == a + (b + c)
  {
  }

  /** What was appended from `a` to `c`, then `rest`: what was appended up to `b`, then the rest. */
  lemma {:induction false} Appended(a: seq<byte>, b: seq<byte>, c: seq<byte>, rest: seq<byte>)
    requires a <= b <= c
    ensures c[|a|..] + rest == b[|a|..] + (c[|b|..] + rest)
  {
    assert c[|a|..] == b[|a|..] + c[|b|..];
  }

  /** What was appended from `a` to `c`, through `b` and then `x`, followed by `rest`. */
  lemma {:induction false} CountedAppended(a: seq<byte>, b: seq<byte>, x: seq<byte>, c: seq<byte>, rest: seq<byte>)
    requires a <= b && b + x <= c
    ensures c[|a|..] + rest == b[|a|..] + (x + c[|b + x|..] + rest)
  {
    assert c[|a|..] == b[|a|..] + x + c[|b + x|..];
  }

  /** What was appended after `a`, once `x` is appended too, then `rest`. */
  lemma {:induction false} AppendedAfter(a: seq<byte>, b: seq<byte>, x: seq<byte>, rest: seq<byte>)
    requires a <= b
    ensures (b + x)[|a|..] + rest == b[|a|..] + (x + rest)
  {
    assert (b + x)[|a|..] == b[|a|..] + x;
  }

  lemma {:induction false} NamesCons(w: Writer, id: int32, ids: seq<int32>, fields: seq<Str>)
    requires fields != [] && |ids| == |fields| - 1 && Names(w, id, fields[0])
    requires forall k :: 0 <= k < |ids| ==> Names(w, ids[k], fields[1..][k])
    ensures forall k :: 0 <= k < |fields| ==> Names(w, ([id] + ids)[k], fields[k])
  {
    forall k | 0 <= k < |fields|
      ensures Names(w, ([id] + ids)[k], fields[k])
    {
      if k > 0 {
        assert fields[k] == fields[1..][k - 1];
      }
    }
  }

  /**
   * The operands of a record interned on a writer in step with the reader's table: the
   * definitions written are read back into a table in step with the writer after them, under
   * which each id reads as its operand.
   */
  lemma {:induction false} InternAllReplay(w: Writer, t: Table, fields: seq<Str>, rest: seq<byte>, delivered: seq<Event>)
    returns (t1: Table)
    requires Sync(w, t) && InternAll(w, fields).Ok?
    ensures var (ids, w1) := InternAll(w, fields).value;
      Sync(w1, t1) && Grows(w, w1) &&
      (forall k :: 0 <= k < |fields| ==> Names(w1, ids[k], fields[k])) &&
      Ops(w1.out[|w.out|..] + rest, t, delivered) == Ops(rest, t1, delivered) &&
      AttributeOpcode(w1.out[|w.out|..] + rest, t) == AttributeOpcode(rest, t1)
    decreases fields
  {
    if fields == [] {
      t1 := t;
      assert w.out[|w.out|..] + rest == rest;
    } else {
      var (id, w1) := StringId(w, fields[0]).value;
      var (ids, w2) := InternAll(w1, fields[1..]).value;
      StringIdGrows(w, fields[0]);
      InternAllGrows(w1, fields[1..]);
      var tail := w2.out[|w1.out|..] + rest;
      var t0 := InternReplay(w, t, fields[0], tail, delivered);
      t1 := InternAllReplay(w1, t0, fields[1..], rest, delivered);
      Appended(w.out, w1.out, w2.out, rest);
      GrowsTransitive(w, w1, w2);
      GrowsNames(w1, w2, id, fields[0]);
      NamesCons(w2, id, ids, fields);
    }
  }

  lemma {:induction false} SyncNonNegative(w: Writer, t: Table)
    requires Sync(w, t)
    ensures forall b | b in w.stringMap :: w.stringMap[b] >= 0
  {
    forall b | b in w.stringMap
      ensures w.stringMap[b] >= 0
    {
      assert 2 <= w.stringMap[b];
    }
  }

  /**
   * A record with the string operands `fields`, written on a writer in step with the reader's
   * table: its definitions are read back into a table in step with the writer after the record,
   * and what remains is the opcode and ids under which the operands read.
   */
  lemma {:induction false} RecordReplay(w: Writer, t: Table, op: int32, fields: seq<Str>, rest: seq<byte>, delivered: seq<Event>)
    returns (t1: Table, ids: seq<int32>)
    requires Sync(w, t) && MIN_OP <= op <= MAX_OP && Record(w, op, fields).Ok?
    ensures var w1 := Record(w, op, fields).value;
      Sync(w1, t1) && Grows(w, w1) && |ids| == |fields| &&
      (forall k :: 0 <= k < |ids| ==> 0 <= ids[k] && Names(w1, ids[k], fields[k])) &&
      Ops(w1.out[|w.out|..] + rest, t, delivered) == Ops(SmallInt(op) + EncodedIds(ids) + rest, t1, delivered) &&
      AttributeOpcode(w1.out[|w.out|..] + rest, t) == AttributeOpcode(SmallInt(op) + EncodedIds(ids) + rest, t1)
  {
    SyncNonNegative(w, t);
    RecordWritten(w, op, fields);
    var (interned, w1) := InternAll(w, fields).value;
    ids := interned;
    var tail := SmallInt(op) + EncodedIds(ids) + rest;
    InternAllGrows(w, fields);
    t1 := InternAllReplay(w, t, fields, tail, delivered);
    AppendedAfter(w.out, w1.out, SmallInt(op) + EncodedIds(ids), rest);
  }

  /** Ids the writer sent, read one after the other in a table in step with it. */
  /*
   * The cases of the dispatch the writer's records reach
   */

  lemma {:induction false} DispatchesStartDocument(input: seq<byte>, t: Table)
    ensures Operation(OP_START_DOCUMENT, input, t) == Ok(Step([StartDocument], t, input))
  {
  }

  lemma {:induction false} DispatchesEndDocument(input: seq<byte>, t: Table)
    ensures Operation(OP_END_DOCUMENT, input, t) == Ok(Step([EndDocument], t, input))
  {
  }

  lemma {:induction false} DispatchesStartElement(input: seq<byte>, t: Table)
    ensures Operation(OP_START_ELEMENT, input, t) == StartElementOp(input, t)
  {
  }

  lemma {:induction false} DispatchesEndElement(input: seq<byte>, t: Table)
    ensures Operation(OP_END_ELEMENT, input, t) == EndElementOp(input, t)
  {
  }

  lemma {:induction false} DispatchesCharacters(input: seq<byte>, t: Table)
    ensures Operation(OP_CHARACTERS, input, t) == CharactersOp(input, t)
  {
  }

  lemma {:induction false} DispatchesIgnorableWhitespace(input: seq<byte>, t: Table)
    ensures Operation(OP_IGNORABLE_WHITESPACE, input, t) == IgnorableWhitespaceOp(input, t)
  {
  }

  lemma {:induction false} DispatchesStartPrefixMapping(input: seq<byte>, t: Table)
    ensures Operation(OP_START_PREFIX_MAPPING, input, t) == StartPrefixMappingOp(input, t)
  {
    DispatchesAbove(OP_START_PREFIX_MAPPING, input, t);
  }

  lemma {:induction false} DispatchesEndPrefixMapping(input: seq<byte>, t: Table)
    ensures Operation(OP_END_PREFIX_MAPPING, input, t) == EndPrefixMappingOp(input, t)
  {
  }

  lemma {:induction false} DispatchesProcessingInstruction(input: seq<byte>, t: Table)
    ensures Operation(OP_PROCESSING_INSTRUCTION, input, t) == ProcessingInstructionOp(input, t)
  {
    DispatchesAbove(OP_PROCESSING_INSTRUCTION, input, t);
  }

  /** The opcodes past the end-element record are dispatched by the second half of the chain. */
  lemma {:induction false} DispatchesAbove(op: int, input: seq<byte>, t: Table)
    requires op > OP_END_ELEMENT
    ensures Operation(op, input, t) ==
      if op == OP_CHARACTERS then CharactersOp(input, t)
      else if op == OP_IGNORABLE_WHITESPACE then IgnorableWhitespaceOp(input, t)
      else if op == OP_START_PREFIX_MAPPING then StartPrefixMappingOp(input, t)
      else if op == OP_END_PREFIX_MAPPING then EndPrefixMappingOp(input, t)
      else if op == OP_PROCESSING_INSTRUCTION then ProcessingInstructionOp(input, t)
      else if op == OP_SKIPPED_ENTITY then SkippedEntityOp(input, t)
      else Err(UnrecognizedOpcode(op))
  {
  }

  lemma {:induction false} DispatchesSkippedEntity(input: seq<byte>, t: Table)
    ensures Operation(OP_SKIPPED_ENTITY, input, t) == SkippedEntityOp(input, t)
  {
  }

  /** A record of opcode `op`: the loop reads the opcode and hands the rest to the dispatch. */
  lemma {:induction false} OpcodeRead(op: int, input: seq<byte>, t: Table, delivered: seq<Event>)
    requires MIN_OP <= op <= MAX_OP
    ensures var result := Operation(op, input, t);
      Ops(SmallInt(op) + input, t, delivered) ==
        if result.Err? then Run(delivered, Some(result.error))
        else Ops(result.value.rest, result.value.table, delivered + result.value.events)
  {
    EncodedSmall(op);
    OperandReadsEncodings(SmallInt(op) + input, op, input);
    OpsStep(SmallInt(op) + input, t, delivered, op, input);
  }

  /** The ids of `strs`, as sent by a writer in step with the table. */
  predicate Sent(w: Writer, ids: seq<int32>, strs: seq<Str>)
  {
    |ids| == |strs| && forall k :: 0 <= k < |ids| ==> 0 <= ids[k] && Names(w, ids[k], strs[k])
  }

  /** The record of `op` and the ids `ids`, followed by `rest`, as the dispatch sees it. */
  lemma {:induction false} RecordBytes(op: int, ids: seq<int32>, rest: seq<byte>)
    requires MIN_OP <= op <= MAX_OP && forall k :: 0 <= k < |ids| ==> 0 <= ids[k]
    ensures SmallInt(op) + EncodedIds(ids) + rest == SmallInt(op) + (EncodedIds(ids[0..]) + rest)
    ensures EncodedIds(ids[|ids|..]) + rest == rest
  {
    AllIds(ids);
    NoIds(ids, rest);
    var whole := EncodedIds(ids[0..]);
    Regrouped(SmallInt(op), whole, rest);
  }

  lemma {:induction false} AllIds(ids: seq<int32>)
    requires forall k :: 0 <= k < |ids| ==> 0 <= ids[k]
    ensures EncodedIds(ids[0..]) == EncodedIds(ids)
  {
    assert ids[0..] == ids;
  }

  lemma {:induction false} NoIds(ids: seq<int32>, rest: seq<byte>)
    requires forall k :: 0 <= k < |ids| ==> 0 <= ids[k]
    ensures EncodedIds(ids[|ids|..]) + rest == rest
  {
    assert ids[|ids|..] == [];
  }

  lemma {:induction false} EndElementRead(w: Writer, t: Table, ids: seq<int32>, strs: seq<Str>, rest: seq<byte>, delivered: seq<Event>)
    requires Sync(w, t) && Sent(w, ids, strs) && |strs| == 3
    ensures Ops(SmallInt(OP_END_ELEMENT) + EncodedIds(ids) + rest, t, delivered) ==
      Ops(rest, t, delivered + [EndElement(strs[0], strs[1], strs[2])])
  {
    var x2 := Encoded(ids[2]) + rest;
    var x1 := Encoded(ids[1]) + x2;
    var x0 := Encoded(ids[0]) + x1;
    RecordBytes(OP_END_ELEMENT, ids, rest);
    ThreeIds(ids, rest);
    SyncRef(w, t, ids[0], strs[0], x1);
    SyncRef(w, t, ids[1], strs[1], x2);
    SyncRef(w, t, ids[2], strs[2], rest);
    OpcodeRead(OP_END_ELEMENT, x0, t, delivered);
    DispatchesEndElement(x0, t);
    EndElementOpReads(t, strs, x0, x1, x2, rest);
  }

  lemma {:induction false} EndElementOpReads(t: Table, strs: seq<Str>, x0: seq<byte>, x1: seq<byte>, x2: seq<byte>,
    rest: seq<byte>)
    requires |strs| == 3
    requires Ref(x0, t) == Ok((strs[0], x1)) && Ref(x1, t) == Ok((strs[1], x2)) && Ref(x2, t) == Ok((strs[2], rest))
    ensures EndElementOp(x0, t) == Ok(Step([EndElement(strs[0], strs[1], strs[2])], t, rest))
  {
  }

  lemma {:induction false} StartPrefixMappingRead(w: Writer, t: Table, ids: seq<int32>, strs: seq<Str>, rest: seq<byte>, delivered: seq<Event>)
    requires Sync(w, t) && Sent(w, ids, strs) && |strs| == 2
    ensures Ops(SmallInt(OP_START_PREFIX_MAPPING) + EncodedIds(ids) + rest, t, delivered) ==
      Ops(rest, t, delivered + [StartPrefixMapping(strs[0], strs[1])])
  {
    var x1 := Encoded(ids[1]) + rest;
    var x0 := Encoded(ids[0]) + x1;
    RecordBytes(OP_START_PREFIX_MAPPING, ids, rest);
    TwoIds(ids, rest);
    SyncRef(w, t, ids[0], strs[0], x1);
    SyncRef(w, t, ids[1], strs[1], rest);
    OpcodeRead(OP_START_PREFIX_MAPPING, x0, t, delivered);
    DispatchesStartPrefixMapping(x0, t);
    StartPrefixMappingOpReads(t, strs, x0, x1, rest);
  }

  lemma {:induction false} StartPrefixMappingOpReads(t: Table, strs: seq<Str>, x0: seq<byte>, x1: seq<byte>, rest: seq<byte>)
    requires |strs| == 2
    requires Ref(x0, t) == Ok((strs[0], x1)) && Ref(x1, t) == Ok((strs[1], rest))
    ensures StartPrefixMappingOp(x0, t) == Ok(Step([StartPrefixMapping(strs[0], strs[1])], t, rest))
  {
  }

  lemma {:induction false} ProcessingInstructionRead(w: Writer, t: Table, ids: seq<int32>, strs: seq<Str>, rest: seq<byte>, delivered: seq<Event>)
    requires Sync(w, t) && Sent(w, ids, strs) && |strs| == 2
    ensures Ops(SmallInt(OP_PROCESSING_INSTRUCTION) + EncodedIds(ids) + rest, t, delivered) ==
      Ops(rest, t, delivered + [ProcessingInstruction(strs[0], strs[1])])
  {
    var x1 := Encoded(ids[1]) + rest;
    var x0 := Encoded(ids[0]) + x1;
    RecordBytes(OP_PROCESSING_INSTRUCTION, ids, rest);
    TwoIds(ids, rest);
    SyncRef(w, t, ids[0], strs[0], x1);
    SyncRef(w, t, ids[1], strs[1], rest);
    OpcodeRead(OP_PROCESSING_INSTRUCTION, x0, t, delivered);
    DispatchesProcessingInstruction(x0, t);
    ProcessingInstructionOpReads(t, strs, x0, x1, rest);
  }

  lemma {:induction false} ProcessingInstructionOpReads(t: Table, strs: seq<Str>, x0: seq<byte>, x1: seq<byte>, rest: seq<byte>)
    requires |strs| == 2
    requires Ref(x0, t) == Ok((strs[0], x1)) && Ref(x1, t) == Ok((strs[1], rest))
    ensures ProcessingInstructionOp(x0, t) == Ok(Step([ProcessingInstruction(strs[0], strs[1])], t, rest))
  {
  }

  lemma {:induction false} EndPrefixMappingRead(w: Writer, t: Table, ids: seq<int32>, strs: seq<Str>, rest: seq<byte>, delivered: seq<Event>)
    requires Sync(w, t) && Sent(w, ids, strs) && |strs| == 1
    ensures Ops(SmallInt(OP_END_PREFIX_MAPPING) + EncodedIds(ids) + rest, t, delivered) ==
      Ops(rest, t, delivered + [EndPrefixMapping(strs[0])])
  {
    var x0 := Encoded(ids[0]) + rest;
    RecordBytes(OP_END_PREFIX_MAPPING, ids, rest);
    OneId(ids, rest);
    SyncRef(w, t, ids[0], strs[0], rest);
    OpcodeRead(OP_END_PREFIX_MAPPING, x0, t, delivered);
    DispatchesEndPrefixMapping(x0, t);
  }

  lemma {:induction false} SkippedEntityRead(w: Writer, t: Table, ids: seq<int32>, strs: seq<Str>, rest: seq<byte>, delivered: seq<Event>)
    requires Sync(w, t) && Sent(w, ids, strs) && |strs| == 1
    ensures Ops(SmallInt(OP_SKIPPED_ENTITY) + EncodedIds(ids) + rest, t, delivered) ==
      Ops(rest, t, delivered + [SkippedEntity(strs[0])])
  {
    var x0 := Encoded(ids[0]) + rest;
    RecordBytes(OP_SKIPPED_ENTITY, ids, rest);
    OneId(ids, rest);
    SyncRef(w, t, ids[0], strs[0], rest);
    OpcodeRead(OP_SKIPPED_ENTITY, x0, t, delivered);
    DispatchesSkippedEntity(x0, t);
  }

  /** The id of one string. */
  lemma {:induction false} OneId(ids: seq<int32>, rest: seq<byte>)
    requires |ids| == 1 && forall k :: 0 <= k < |ids| ==> 0 <= ids[k]
    ensures EncodedIds(ids[0..]) + rest == Encoded(ids[0]) + rest
  {
    IdsStep(ids, 0, rest);
    assert ids[1..] == [];
  }

  /** The ids of two strings, one after the other. */
  lemma {:induction false} TwoIds(ids: seq<int32>, rest: seq<byte>)
    requires |ids| == 2 && forall k :: 0 <= k < |ids| ==> 0 <= ids[k]
    ensures EncodedIds(ids[0..]) + rest == Encoded(ids[0]) + (Encoded(ids[1]) + rest)
  {
    IdsStep(ids, 0, rest);
    IdsStep(ids, 1, rest);
    assert ids[2..] == [];
  }

  /*
   * Character data
   */

  lemma {:induction false} CharactersRead(w: Writer, t: Table, ids: seq<int32>, strs: seq<Str>, rest: seq<byte>, delivered: seq<Event>)
    requires Sync(w, t) && Sent(w, ids, strs) && |strs| == 1 && strs[0].Text?
    ensures Ops(SmallInt(OP_CHARACTERS) + EncodedIds(ids) + rest, t, delivered) ==
      Ops(rest, t, delivered + [Characters(strs[0].bytes, 0, |strs[0].bytes|)])
  {
    var x0 := Encoded(ids[0]) + rest;
    RecordBytes(OP_CHARACTERS, ids, rest);
    OneId(ids, rest);
    SyncRef(w, t, ids[0], strs[0], rest);
    OpcodeRead(OP_CHARACTERS, x0, t, delivered);
    DispatchesCharacters(x0, t);
  }

  lemma {:induction false} IgnorableWhitespaceRead(w: Writer, t: Table, ids: seq<int32>, strs: seq<Str>, rest: seq<byte>, delivered: seq<Event>)
    requires Sync(w, t) && Sent(w, ids, strs) && |strs| == 1 && strs[0].Text?
    ensures Ops(SmallInt(OP_IGNORABLE_WHITESPACE) + EncodedIds(ids) + rest, t, delivered) ==
      Ops(rest, t, delivered + [IgnorableWhitespace(strs[0].bytes, 0, |strs[0].bytes|)])
  {
    var x0 := Encoded(ids[0]) + rest;
    RecordBytes(OP_IGNORABLE_WHITESPACE, ids, rest);
    OneId(ids, rest);
    SyncRef(w, t, ids[0], strs[0], rest);
    OpcodeRead(OP_IGNORABLE_WHITESPACE, x0, t, delivered);
    DispatchesIgnorableWhitespace(x0, t);
  }

  /*
   * Elements and their attributes
   */

  /**
   * An attribute record, written on a writer in step with the reader's table, is read by one
   * turn of the attribute loop as that attribute, into a table in step with the writer after it.
   */
  lemma {:induction false} AttributeReplay(w: Writer, t: Table, a: Attribute, rest: seq<byte>) returns (t1: Table)
    requires Sync(w, t) && Record(w, OP_ATTRIBUTE, AttributeFields(a)).Ok?
    ensures var w1 := Record(w, OP_ATTRIBUTE, AttributeFields(a)).value;
      Sync(w1, t1) && Grows(w, w1) && NextAttribute(w1.out[|w.out|..] + rest, t) == Ok((a, t1, rest))
  {
    var w1 := Record(w, OP_ATTRIBUTE, AttributeFields(a)).value;
    var ids;
    t1, ids := RecordReplay(w, t, OP_ATTRIBUTE, AttributeFields(a), rest, []);
    RecordBytes(OP_ATTRIBUTE, ids, rest);
    var afterOp := EncodedIds(ids[0..]) + rest;
    AttributeOpcodeRead(afterOp, t1);
    AttributeFieldsRead(w1, t1, ids, AttributeFields(a), rest);
  }

  /** The attribute loop, on an attribute opcode, goes on to the attribute record with the same table. */
  lemma {:induction false} AttributeOpcodeRead(afterOp: seq<byte>, t: Table)
    ensures AttributeOpcode(SmallInt(OP_ATTRIBUTE) + afterOp, t) == Ok((t, afterOp))
  {
    EncodedSmall(OP_ATTRIBUTE);
    OperandReadsEncodings(SmallInt(OP_ATTRIBUTE) + afterOp, OP_ATTRIBUTE, afterOp);
  }

  /** The five ids of an attribute record read as its five strings. */
  lemma {:induction false} AttributeFieldsRead(w: Writer, t: Table, ids: seq<int32>, strs: seq<Str>, rest: seq<byte>)
    requires Sync(w, t) && Sent(w, ids, strs) && |strs| == 5
    ensures AttributeOp(EncodedIds(ids[0..]) + rest, t) == Ok((AttributeOf(strs), rest))
  {
    var x4 := Encoded(ids[4]) + rest;
    var x3 := Encoded(ids[3]) + x4;
    var x2 := Encoded(ids[2]) + x3;
    var x1 := Encoded(ids[1]) + x2;
    var x0 := Encoded(ids[0]) + x1;
    SyncRef(w, t, ids[0], strs[0], x1);
    SyncRef(w, t, ids[1], strs[1], x2);
    SyncRef(w, t, ids[2], strs[2], x3);
    SyncRef(w, t, ids[3], strs[3], x4);
    SyncRef(w, t, ids[4], strs[4], rest);
    AttributeOpReads(t, strs, x0, x1, x2, x3, x4, rest);
    FiveIds(ids, rest);
  }

  /** The ids of five strings, one after the other. */
  lemma {:induction false} FiveIds(ids: seq<int32>, rest: seq<byte>)
    requires |ids| == 5 && forall k :: 0 <= k < |ids| ==> 0 <= ids[k]
    ensures EncodedIds(ids[0..]) + rest ==
      Encoded(ids[0]) + (Encoded(ids[1]) + (Encoded(ids[2]) + (Encoded(ids[3]) + (Encoded(ids[4]) + rest))))
  {
    IdsStep(ids, 0, rest);
    IdsStep(ids, 1, rest);
    IdsStep(ids, 2, rest);
    IdsStep(ids, 3, rest);
    IdsStep(ids, 4, rest);
    assert ids[5..] == [];
  }

  /** An attribute record whose five strings read one after the other. */
  lemma {:induction false} AttributeOpReads(t: Table, strs: seq<Str>, x0: seq<byte>, x1: seq<byte>, x2: seq<byte>, x3: seq<byte>,
    x4: seq<byte>, x5: seq<byte>)
    requires |strs| == 5
    requires Ref(x0, t) == Ok((strs[0], x1)) && Ref(x1, t) == Ok((strs[1], x2)) && Ref(x2, t) == Ok((strs[2], x3))
    requires Ref(x3, t) == Ok((strs[3], x4)) && Ref(x4, t) == Ok((strs[4], x5))
    ensures AttributeOp(x0, t) == Ok((AttributeOf(strs), x5))
  {
  }

  /**
   * The attribute records of a start element, written on a writer in step with the reader's
   * table, are read by the attribute loop as those attributes, after the ones `read` before.
   */
  lemma {:induction false} AttributesReplay(w: Writer, t: Table, attributes: seq<Attribute>, read: seq<Attribute>,
    rest: seq<byte>) returns (t1: Table)
    requires Sync(w, t) && AttributeRecords(w, attributes).Ok?
    ensures var w1 := AttributeRecords(w, attributes).value;
      Sync(w1, t1) && Grows(w, w1) &&
      AttributesFrom(w1.out[|w.out|..] + rest, t, |attributes|, read) == Ok((read + attributes, t1, rest))
    decreases attributes
  {
    var w2 := AttributeRecords(w, attributes).value;
    AttributeRecordsGrow(w, attributes);
    if attributes == [] {
      t1 := t;
      assert w2.out[|w.out|..] + rest == rest;
      assert read + attributes == read;
    } else {
      var a := attributes[0];
      Record5Agrees(w, OP_ATTRIBUTE, a.uri, a.localName, a.qName, a.attrType, a.value);
      var w1 := Record(w, OP_ATTRIBUTE, AttributeFields(a)).value;
      AttributeRecordsGrow(w1, attributes[1..]);
      var tail := w2.out[|w1.out|..] + rest;
      var t0 := AttributeReplay(w, t, a, tail);
      t1 := AttributesReplay(w1, t0, attributes[1..], read + [a], rest);
      Appended(w.out, w1.out, w2.out, rest);
      AttributesFromNext(w2.out[|w.out|..] + rest, t, |attributes|, read, a, t0, tail, attributes[1..], t1, rest);
      assert [a] + attributes[1..] == attributes;
    }
  }

  /** One turn of the attribute loop reads `a`, and the turns after it read `later`. */
  lemma {:induction false} AttributesFromNext(input: seq<byte>, t: Table, count: nat, read: seq<Attribute>, a: Attribute, t0: Table,
    tail: seq<byte>, later: seq<Attribute>, t1: Table, rest: seq<byte>)
    requires count > 0 && NextAttribute(input, t) == Ok((a, t0, tail))
    requires AttributesFrom(tail, t0, count - 1, read + [a]) == Ok((read + [a] + later, t1, rest))
    ensures AttributesFrom(input, t, count, read) == Ok((read + ([a] + later), t1, rest))
  {
    AttributesFromStep(input, t, count, read);
    assert AttributesFrom(input, t, count, read) == AttributesFrom(tail, t0, count - 1, read + [a]);
    Regrouped(read, [a], later);
  }

  /** A start-element record whose three names read one after the other, then its count and attributes. */
  lemma {:induction false} StartElementOpReads(t: Table, strs: seq<Str>, x0: seq<byte>, x1: seq<byte>, x2: seq<byte>, x3: seq<byte>,
    count: nat, afterCount: seq<byte>, attributes: Attributes, t1: Table, rest: seq<byte>)
    requires |strs| == 3
    requires Ref(x0, t) == Ok((strs[0], x1)) && Ref(x1, t) == Ok((strs[1], x2)) && Ref(x2, t) == Ok((strs[2], x3))
    requires Operand(x3) == Ok((count, afterCount))
    requires AttributesFrom(afterCount, t, count, []) == Ok((attributes, t1, rest))
    ensures StartElementOp(x0, t) == Ok(Step([StartElement(strs[0], strs[1], strs[2], attributes)], t1, rest))
  {
  }

  /** The record loop reads a start-element record whose names were sent and whose attributes read. */
  lemma {:induction false} StartElementRead(w: Writer, t: Table, ids: seq<int32>, names: seq<Str>, attributes: Attributes,
    attributeBytes: seq<byte>, t1: Table, rest: seq<byte>, delivered: seq<Event>)
    requires Sync(w, t) && Sent(w, ids, names) && |names| == 3
    requires AttributesFrom(attributeBytes + rest, t, |attributes|, []) == Ok((attributes, t1, rest))
    ensures Ops(SmallInt(OP_START_ELEMENT) + EncodedIds(ids) + (Encoded(|attributes|) + attributeBytes + rest), t, delivered) ==
      Ops(rest, t1, delivered + [StartElement(names[0], names[1], names[2], attributes)])
  {
    var afterNames := Encoded(|attributes|) + attributeBytes + rest;
    RecordBytes(OP_START_ELEMENT, ids, afterNames);
    var x0 := EncodedIds(ids[0..]) + afterNames;
    OpcodeRead(OP_START_ELEMENT, x0, t, delivered);
    DispatchesStartElement(x0, t);
    CountRead(|attributes|, attributeBytes, rest);
    StartElementNamesRead(w, t, ids, names, afterNames, |attributes|, attributeBytes + rest, attributes, t1, rest);
  }

  /** The names, the count and the attributes of a start-element record, after its opcode. */
  lemma {:induction false} StartElementNamesRead(w: Writer, t: Table, ids: seq<int32>, names: seq<Str>, afterNames: seq<byte>,
    count: nat, afterCount: seq<byte>, attributes: Attributes, t1: Table, rest: seq<byte>)
    requires Sync(w, t) && Sent(w, ids, names) && |names| == 3
    requires Operand(afterNames) == Ok((count, afterCount))
    requires AttributesFrom(afterCount, t, count, []) == Ok((attributes, t1, rest))
    ensures StartElementOp(EncodedIds(ids[0..]) + afterNames, t) ==
      Ok(Step([StartElement(names[0], names[1], names[2], attributes)], t1, rest))
  {
    var x2 := Encoded(ids[2]) + afterNames;
    var x1 := Encoded(ids[1]) + x2;
    var x0 := Encoded(ids[0]) + x1;
    SyncRef(w, t, ids[0], names[0], x1);
    SyncRef(w, t, ids[1], names[1], x2);
    SyncRef(w, t, ids[2], names[2], afterNames);
    StartElementOpReads(t, names, x0, x1, x2, afterNames, count, afterCount, attributes, t1, rest);
    ThreeIds(ids, afterNames);
  }

  /** The ids of three names, one after the other. */
  lemma {:induction false} ThreeIds(ids: seq<int32>, rest: seq<byte>)
    requires |ids| == 3 && forall k :: 0 <= k < |ids| ==> 0 <= ids[k]
    ensures EncodedIds(ids[0..]) + rest == Encoded(ids[0]) + (Encoded(ids[1]) + (Encoded(ids[2]) + rest))
  {
    IdsStep(ids, 0, rest);
    IdsStep(ids, 1, rest);
    IdsStep(ids, 2, rest);
    assert ids[3..] == [];
  }

  /** The id at `k`, then those after it. */
  lemma {:induction false} IdsStep(ids: seq<int32>, k: nat, rest: seq<byte>)
    requires k < |ids| && forall j :: 0 <= j < |ids| ==> 0 <= ids[j]
    ensures EncodedIds(ids[k..]) + rest == Encoded(ids[k]) + (EncodedIds(ids[k + 1..]) + rest)
  {
    assert ids[k..][1..] == ids[k + 1..];
  }

  /** The attribute count of a start-element record. */
  lemma {:induction false} CountRead(count: nat, attributeBytes: seq<byte>, rest: seq<byte>)
    requires count <= MAX_INT
    ensures Operand(Encoded(count) + attributeBytes + rest) == Ok((count, attributeBytes + rest))
  {
    Regrouped(Encoded(count), attributeBytes, rest);
    OperandReadsEncodings(Encoded(count) + attributeBytes + rest, count, attributeBytes + rest);
  }

  /** `startElement` writes the element record, then the attribute count, then the attribute records. */
  lemma {:induction false} StartElementWritten(w: Writer, uri: Str, localName: Str, qName: Str, attributes: Attributes)
    requires StartElementRecord(w, uri, localName, qName, attributes).Ok?
    ensures Record(w, OP_START_ELEMENT, [uri, localName, qName]).Ok?
    ensures var w1 := Record(w, OP_START_ELEMENT, [uri, localName, qName]).value;
      var counted := w1.(out := w1.out + Encoded(|attributes|));
      StartElementRecord(w, uri, localName, qName, attributes) == AttributeRecords(counted, attributes) &&
      Grows(w, counted)
  {
    Record3Agrees(w, OP_START_ELEMENT, uri, localName, qName);
    RecordGrows(w, OP_START_ELEMENT, [uri, localName, qName]);
  }

  /**
   * A start element written on a writer in step with the reader's table: the record loop reads
   * it as that start element with those attributes, into a table in step with the writer after it.
   */
  lemma {:induction false} StartElementReplay(w: Writer, t: Table, uri: Str, localName: Str, qName: Str, attributes: Attributes,
    rest: seq<byte>, delivered: seq<Event>) returns (t2: Table)
    requires Sync(w, t) && StartElementRecord(w, uri, localName, qName, attributes).Ok?
    ensures var w2 := StartElementRecord(w, uri, localName, qName, attributes).value;
      Sync(w2, t2) && Grows(w, w2) &&
      Ops(w2.out[|w.out|..] + rest, t, delivered) ==
        Ops(rest, t2, delivered + [StartElement(uri, localName, qName, attributes)])
  {
    var names := [uri, localName, qName];
    StartElementWritten(w, uri, localName, qName, attributes);
    var w1 := Record(w, OP_START_ELEMENT, names).value;
    var counted := w1.(out := w1.out + Encoded(|attributes|));
    var w2 := AttributeRecords(counted, attributes).value;
    AttributeRecordsGrow(counted, attributes);
    var attributeBytes := w2.out[|counted.out|..];
    var afterNames := Encoded(|attributes|) + attributeBytes + rest;
    var t1, ids := RecordReplay(w, t, OP_START_ELEMENT, names, afterNames, delivered);
    t2 := AttributesReplay(counted, t1, attributes, [], rest);
    assert [] + attributes == attributes;
    StartElementRead(w1, t1, ids, names, attributes, attributeBytes, t2, rest, delivered);
    CountedAppended(w.out, w1.out, Encoded(|attributes|), w2.out, rest);
    GrowsTransitive(w, counted, w2);
  }

  /*
   * One event
   */

  /**
   * The event the reader delivers for an event the writer handled: a character range arrives as
   * the whole array of the characters in it.
   */
  function Delivered(e: Event): (d: Event)
    ensures (e.Characters? || e.IgnorableWhitespace?) ==>
      d.Characters? == e.Characters? && d.IgnorableWhitespace? == e.IgnorableWhitespace? &&
      d.start == 0 && d.length as int == |d.ch| && d.ch == Slice(e.ch, e.start, e.length)
    ensures !e.Characters? && !e.IgnorableWhitespace? ==> d == e
  {
    match e
    case Characters(ch, start, length) =>
      var s := Slice(ch, start, length);
      Characters(s, 0, |s| as int32)
    case IgnorableWhitespace(ch, start, length) =>
      var s := Slice(ch, start, length);
      IgnorableWhitespace(s, 0, |s| as int32)
    case _ => e
  }

  /**
   * An event the reader has a record for after the header: neither the start of the document,
   * which the writer sends as the header, nor the two DTD declarations, which it writes under
   * opcodes the reader does not dispatch.
   */
  predicate Replayable(e: Event)
  {
    !e.StartDocument? && !e.NotationDecl? && !e.UnparsedEntityDecl?
  }

  lemma {:induction false} EndDocumentReplay(w: Writer, t: Table, rest: seq<byte>, delivered: seq<Event>)
    requires Sync(w, t)
    ensures var w1 := w.(out := w.out + SmallInt(OP_END_DOCUMENT));
      Sync(w1, t) && Grows(w, w1) && Ops(w1.out[|w.out|..] + rest, t, delivered) == Ops(rest, t, delivered + [EndDocument])
  {
    var w1 := w.(out := w.out + SmallInt(OP_END_DOCUMENT));
    assert w1.out[|w.out|..] == SmallInt(OP_END_DOCUMENT);
    OpcodeRead(OP_END_DOCUMENT, rest, t, delivered);
    DispatchesEndDocument(rest, t);
  }

  lemma {:induction false} EndElementReplay(w: Writer, t: Table, uri: Str, localName: Str, qName: Str, rest: seq<byte>,
    delivered: seq<Event>) returns (t1: Table)
    requires Sync(w, t) && Record3(w, OP_END_ELEMENT, uri, localName, qName).Ok?
    ensures var w1 := Record3(w, OP_END_ELEMENT, uri, localName, qName).value;
      Sync(w1, t1) && Grows(w, w1) &&
      Ops(w1.out[|w.out|..] + rest, t, delivered) == Ops(rest, t1, delivered + [EndElement(uri, localName, qName)])
  {
    Record3Agrees(w, OP_END_ELEMENT, uri, localName, qName);
    var ids;
    t1, ids := RecordReplay(w, t, OP_END_ELEMENT, [uri, localName, qName], rest, delivered);
    EndElementRead(Record3(w, OP_END_ELEMENT, uri, localName, qName).value, t1, ids, [uri, localName, qName], rest, delivered);
  }

  lemma {:induction false} StartPrefixMappingReplay(w: Writer, t: Table, prefix: Str, uri: Str, rest: seq<byte>,
    delivered: seq<Event>) returns (t1: Table)
    requires Sync(w, t) && Record2(w, OP_START_PREFIX_MAPPING, prefix, uri).Ok?
    ensures var w1 := Record2(w, OP_START_PREFIX_MAPPING, prefix, uri).value;
      Sync(w1, t1) && Grows(w, w1) &&
      Ops(w1.out[|w.out|..] + rest, t, delivered) == Ops(rest, t1, delivered + [StartPrefixMapping(prefix, uri)])
  {
    Record2Agrees(w, OP_START_PREFIX_MAPPING, prefix, uri);
    var ids;
    t1, ids := RecordReplay(w, t, OP_START_PREFIX_MAPPING, [prefix, uri], rest, delivered);
    StartPrefixMappingRead(Record2(w, OP_START_PREFIX_MAPPING, prefix, uri).value, t1, ids, [prefix, uri], rest, delivered);
  }

  lemma {:induction false} ProcessingInstructionReplay(w: Writer, t: Table, target: Str, data: Str, rest: seq<byte>,
    delivered: seq<Event>) returns (t1: Table)
    requires Sync(w, t) && Record2(w, OP_PROCESSING_INSTRUCTION, target, data).Ok?
    ensures var w1 := Record2(w, OP_PROCESSING_INSTRUCTION, target, data).value;
      Sync(w1, t1) && Grows(w, w1) &&
      Ops(w1.out[|w.out|..] + rest, t, delivered) == Ops(rest, t1, delivered + [ProcessingInstruction(target, data)])
  {
    Record2Agrees(w, OP_PROCESSING_INSTRUCTION, target, data);
    var ids;
    t1, ids := RecordReplay(w, t, OP_PROCESSING_INSTRUCTION, [target, data], rest, delivered);
    ProcessingInstructionRead(Record2(w, OP_PROCESSING_INSTRUCTION, target, data).value, t1, ids, [target, data], rest, delivered);
  }

  lemma {:induction false} EndPrefixMappingReplay(w: Writer, t: Table, prefix: Str, rest: seq<byte>, delivered: seq<Event>)
    returns (t1: Table)
    requires Sync(w, t) && Record1(w, OP_END_PREFIX_MAPPING, prefix).Ok?
    ensures var w1 := Record1(w, OP_END_PREFIX_MAPPING, prefix).value;
      Sync(w1, t1) && Grows(w, w1) &&
      Ops(w1.out[|w.out|..] + rest, t, delivered) == Ops(rest, t1, delivered + [EndPrefixMapping(prefix)])
  {
    Record1Agrees(w, OP_END_PREFIX_MAPPING, prefix);
    var ids;
    t1, ids := RecordReplay(w, t, OP_END_PREFIX_MAPPING, [prefix], rest, delivered);
    EndPrefixMappingRead(Record1(w, OP_END_PREFIX_MAPPING, prefix).value, t1, ids, [prefix], rest, delivered);
  }

  lemma {:induction false} SkippedEntityReplay(w: Writer, t: Table, name: Str, rest: seq<byte>, delivered: seq<Event>)
    returns (t1: Table)
    requires Sync(w, t) && Record1(w, OP_SKIPPED_ENTITY, name).Ok?
    ensures var w1 := Record1(w, OP_SKIPPED_ENTITY, name).value;
      Sync(w1, t1) && Grows(w, w1) &&
      Ops(w1.out[|w.out|..] + rest, t, delivered) == Ops(rest, t1, delivered + [SkippedEntity(name)])
  {
    Record1Agrees(w, OP_SKIPPED_ENTITY, name);
    var ids;
    t1, ids := RecordReplay(w, t, OP_SKIPPED_ENTITY, [name], rest, delivered);
    SkippedEntityRead(Record1(w, OP_SKIPPED_ENTITY, name).value, t1, ids, [name], rest, delivered);
  }

  lemma {:induction false} CharactersReplay(w: Writer, t: Table, ch: Bytes, start: int32, length: int32, rest: seq<byte>,
    delivered: seq<Event>) returns (t1: Table)
    requires Sync(w, t) && CharsRecord(w, OP_CHARACTERS, ch, start, length).Ok?
    ensures var w1 := CharsRecord(w, OP_CHARACTERS, ch, start, length).value;
      Sync(w1, t1) && Grows(w, w1) &&
      Ops(w1.out[|w.out|..] + rest, t, delivered) == Ops(rest, t1, delivered + [Delivered(Characters(ch, start, length))])
  {
    var s := Text(Slice(ch, start, length));
    CharsRecordIsRecord(w, OP_CHARACTERS, ch, start, length);
    Record1Agrees(w, OP_CHARACTERS, s);
    var ids;
    t1, ids := RecordReplay(w, t, OP_CHARACTERS, [s], rest, delivered);
    CharactersRead(Record1(w, OP_CHARACTERS, s).value, t1, ids, [s], rest, delivered);
  }

  lemma {:induction false} IgnorableWhitespaceReplay(w: Writer, t: Table, ch: Bytes, start: int32, length: int32, rest: seq<byte>,
    delivered: seq<Event>) returns (t1: Table)
    requires Sync(w, t) && CharsRecord(w, OP_IGNORABLE_WHITESPACE, ch, start, length).Ok?
    ensures var w1 := CharsRecord(w, OP_IGNORABLE_WHITESPACE, ch, start, length).value;
      Sync(w1, t1) && Grows(w, w1) &&
      Ops(w1.out[|w.out|..] + rest, t, delivered) ==
        Ops(rest, t1, delivered + [Delivered(IgnorableWhitespace(ch, start, length))])
  {
    var s := Text(Slice(ch, start, length));
    CharsRecordIsRecord(w, OP_IGNORABLE_WHITESPACE, ch, start, length);
    Record1Agrees(w, OP_IGNORABLE_WHITESPACE, s);
    var ids;
    t1, ids := RecordReplay(w, t, OP_IGNORABLE_WHITESPACE, [s], rest, delivered);
    IgnorableWhitespaceRead(Record1(w, OP_IGNORABLE_WHITESPACE, s).value, t1, ids, [s], rest, delivered);
  }

  /**
   * An event after the start of the document, handled by a writer in step with the reader's
   * table: the record loop reads what the writer appended as the delivered form of that event,
   * into a table in step with the writer after it.
   */
  lemma {:induction false} EmitReplay(w: Writer, t: Table, e: Event, rest: seq<byte>, delivered: seq<Event>) returns (t1: Table)
    requires Sync(w, t) && Replayable(e) && Emit(w, e).Ok?
    ensures var w1 := Emit(w, e).value;
      Sync(w1, t1) && Grows(w, w1) && Ops(w1.out[|w.out|..] + rest, t, delivered) == Ops(rest, t1, delivered + [Delivered(e)])
  {
    match e
    case EndDocument =>
      EndDocumentReplay(w, t, rest, delivered);
      t1 := t;
    case StartElement(uri, localName, qName, attributes) =>
      t1 := StartElementReplay(w, t, uri, localName, qName, attributes, rest, delivered);
    case EndElement(uri, localName, qName) =>
      t1 := EndElementReplay(w, t, uri, localName, qName, rest, delivered);
    case Characters(ch, start, length) =>
      t1 := CharactersReplay(w, t, ch, start, length, rest, delivered);
    case IgnorableWhitespace(ch, start, length) =>
      t1 := IgnorableWhitespaceReplay(w, t, ch, start, length, rest, delivered);
    case StartPrefixMapping(prefix, uri) =>
      t1 := StartPrefixMappingReplay(w, t, prefix, uri, rest, delivered);
    case EndPrefixMapping(prefix) =>
      t1 := EndPrefixMappingReplay(w, t, prefix, rest, delivered);
    case ProcessingInstruction(target, data) =>
      t1 := ProcessingInstructionReplay(w, t, target, data, rest, delivered);
    case SkippedEntity(name) =>
      t1 := SkippedEntityReplay(w, t, name, rest, delivered);
  }

  /*
   * A whole document
   */

  /** The events the reader delivers for `events`, one for one. */
  function DeliveredAll(events: seq<Event>): (delivered: seq<Event>)
    ensures |delivered| == |events|
    decreases events
  {
    if events == [] then [] else [Delivered(events[0])] + DeliveredAll(events[1..])
  }

  /** `DeliveredAll` delivers each event as `Delivered` does. */
  lemma {:induction false} DeliveredEach(events: seq<Event>, i: nat)
    requires i < |events|
    ensures DeliveredAll(events)[i] == Delivered(events[i])
    decreases events
  {
    if i > 0 {
      DeliveredEach(events[1..], i - 1);
    }
  }

  /**
   * Events after the start of the document, handled in order by a writer in step with the
   * reader's table: the record loop reads what the writer appended as the delivered events.
   */
  lemma {:induction false} EmitAllReplay(w: Writer, t: Table, events: seq<Event>, rest: seq<byte>,
    delivered: seq<Event>) returns (t1: Table)
    requires Sync(w, t) && (forall i :: 0 <= i < |events| ==> Replayable(events[i])) && EmitAll(w, events).Ok?
    ensures var w1 := EmitAll(w, events).value;
      Grows(w, w1) && Sync(w1, t1) &&
      Ops(w1.out[|w.out|..] + rest, t, delivered) == Ops(rest, t1, delivered + DeliveredAll(events))
    decreases events
  {
    EmitAllGrows(w, events);
    if events == [] {
      assert w.out[|w.out|..] + rest == rest;
      assert delivered + [] == delivered;
      t1 := t;
    } else {
      var e, later := events[0], events[1..];
      var w1 := Emit(w, e).value;
      var w2 := EmitAll(w1, later).value;
      assert EmitAll(w, events) == EmitAll(w1, later);
      EmitGrows(w, e);
      EmitAllGrows(w1, later);
      var t0 := EmitReplay(w, t, e, w2.out[|w1.out|..] + rest, delivered);
      t1 := EmitAllReplay(w1, t0, later, rest, delivered + [Delivered(e)]);
      ReplayedInTurn(w.out, w1.out, w2.out, t, t0, t1, e, later, rest, delivered);
      assert [e] + later == events;
    }
  }

  /** One event read after another: the events of the first, then those of the rest. */
  lemma {:induction false} ReplayedInTurn(out: seq<byte>, out1: seq<byte>, out2: seq<byte>, t: Table, t0: Table, t1: Table, e: Event,
    later: seq<Event>, rest: seq<byte>, delivered: seq<Event>)
    requires out <= out1 <= out2
    requires Ops(out1[|out|..] + (out2[|out1|..] + rest), t, delivered) ==
      Ops(out2[|out1|..] + rest, t0, delivered + [Delivered(e)])
    requires Ops(out2[|out1|..] + rest, t0, delivered + [Delivered(e)]) ==
      Ops(rest, t1, delivered + [Delivered(e)] + DeliveredAll(later))
    ensures Ops(out2[|out|..] + rest, t, delivered) == Ops(rest, t1, delivered + DeliveredAll([e] + later))
  {
    Appended(out, out1, out2, rest);
    assert ([e] + later)[1..] == later;
    assert DeliveredAll([e] + later) == [Delivered(e)] + DeliveredAll(later);
    Regrouped(delivered, [Delivered(e)], DeliveredAll(later));
  }

  /** The start of the document is the header followed by a start-document record. */
  lemma {:induction false} StartDocumentWritten(w: Writer, body: seq<byte>)
    requires w == Emit(Fresh([]), StartDocument).value
    ensures Sync(w, Initial(UNLIMITED_STRING_TABLE_SIZE))
    ensures Parsed(w.out + body) == Ops(body, Initial(UNLIMITED_STRING_TABLE_SIZE), [StartDocument])
  {
    var header := MAGIC + SmallInt(VERSION) + SmallInt(UNLIMITED_STRING_TABLE_SIZE);
    assert w.out + body == header + (SmallInt(OP_START_DOCUMENT) + body);
    var t := Initial(UNLIMITED_STRING_TABLE_SIZE);
    WrittenHeaderAccepted(SmallInt(OP_START_DOCUMENT) + body);
    assert Parsed(w.out + body) == Ops(SmallInt(OP_START_DOCUMENT) + body, t, []);
    OpcodeRead(OP_START_DOCUMENT, body, t, []);
    DispatchesStartDocument(body, t);
    assert [] + [StartDocument] == [StartDocument];
  }

  /**
   * The round trip of the Binary SAX format: a document whose first event is the start of the
   * document and whose later events are ones the reader has records for, written by a fresh
   * `SAXWriter` without error, is parsed by `BSAXReader` into the same events (character ranges
   * as whole arrays), and the parse ends without an exception.
   */
  lemma {:induction false} WrittenDocumentParses(events: seq<Event>)
    requires |events| > 0 && events[0] == StartDocument
    requires forall i :: 1 <= i < |events| ==> Replayable(events[i])
    requires EmitAll(Fresh([]), events).Ok?
    ensures Parsed(EmitAll(Fresh([]), events).value.out) == Run(DeliveredAll(events), None)
  {
    var w1 := Emit(Fresh([]), StartDocument).value;
    var later := events[1..];
    var w2 := EmitAll(w1, later).value;
    EmitAllGrows(w1, later);
    var body := w2.out[|w1.out|..];
    assert w2.out == w1.out + body;
    StartDocumentWritten(w1, body);
    assert forall i :: 0 <= i < |later| ==> Replayable(later[i]) by {
      forall i | 0 <= i < |later|
        ensures Replayable(later[i])
      {
        assert later[i] == events[i + 1];
      }
    }
    var t1 := EmitAllReplay(w1, Initial(UNLIMITED_STRING_TABLE_SIZE), later, [], [StartDocument]);
    assert body + [] == body;
    OpsEndAtBoundary(t1, [StartDocument] + DeliveredAll(later));
  }

  /*
   * The counter `init` leaves
   */

  /** A definition under the id of "" ends the parse: the reader refuses reserved ids. */
  lemma {:induction false} ReservedDefinitionRefused(bytes: Bytes, rest: seq<byte>, t: Table, delivered: seq<Event>)
    ensures Ops(Definition(EMPTY_STRING_ID, bytes) + rest, t, delivered) ==
      Run(delivered, Some(ReservedEntry(EMPTY_STRING_ID)))
  {
    var afterId := WrittenString(bytes) + rest;
    var afterOp := Encoded(EMPTY_STRING_ID) + afterId;
    assert Definition(EMPTY_STRING_ID, bytes) + rest == SmallInt(OP_STRING) + afterOp;
    OperandReadsEncodings(afterOp, EMPTY_STRING_ID, afterId);
    OpcodeRead(OP_STRING, afterOp, t, delivered);
  }

  /**
   * `init` as written sets the counter to 1, the id of "": the first new string a writer reset
   * that way meets is defined under 1, and the reader refuses that definition, whatever its table.
   */
  lemma {:induction false} InitAsWrittenDefinitionRefused(out: seq<byte>, bytes: Bytes, rest: seq<byte>, t: Table, delivered: seq<Event>)
    requires bytes != []
    ensures var r := StringId(Writer(map[], EMPTY_STRING_ID, out), Text(bytes));
      r.Ok? && r.value.0 == EMPTY_STRING_ID && out <= r.value.1.out &&
      Ops(r.value.1.out[|out|..] + rest, t, delivered) == Run(delivered, Some(ReservedEntry(EMPTY_STRING_ID)))
  {
    var w := Writer(map[], EMPTY_STRING_ID, out);
    NewStringId(w, bytes);
    var w1 := StringId(w, Text(bytes)).value.1;
    assert w1.out[|out|..] == Definition(EMPTY_STRING_ID, bytes);
    ReservedDefinitionRefused(bytes, rest, t, delivered);
  }

  /*
   * The counter shared by every writer
   */

  /**
   * The counter is a static field, and no constructor resets it: a writer created after others
   * have defined strings starts from their count `k`, above the first free id. Its document is the
   * header and start-document record, then the definition of its first new string under `k`,
   * which a fresh reader refuses: its unlimited table holds only the two reserved entries.
   */
  lemma {:induction false} LaterWriterDefinitionRefused(k: int32, bytes: Bytes, rest: seq<byte>)
    requires FIRST_FREE_STRING_ID < k && bytes != []
    ensures Emit(Writer(map[], k, []), StartDocument).Ok?
    ensures var w1 := Emit(Writer(map[], k, []), StartDocument).value;
      var r := StringId(w1, Text(bytes));
      r.Ok? && r.value.0 == k && w1.out <= r.value.1.out &&
      Parsed(r.value.1.out + rest) == Run([StartDocument], Some(BeyondTableEnd(k)))
  {
    var w1 := Emit(Writer(map[], k, []), StartDocument).value;
    var w0 := Emit(Fresh([]), StartDocument).value;
    assert w1.out == w0.out;
    NewStringId(w1, bytes);
    var w2 := StringId(w1, Text(bytes)).value.1;
    var body := Definition(k, bytes) + rest;
    assert w2.out + rest == w0.out + body;
    StartDocumentWritten(w0, body);
    BeyondEndDefinitionRefused(k, bytes, rest, Initial(UNLIMITED_STRING_TABLE_SIZE), [StartDocument]);
  }

  /** A definition more than one past the end of an unlimited table ends the parse. */
  lemma {:induction false} BeyondEndDefinitionRefused(id: int32, bytes: Bytes, rest: seq<byte>, t: Table, delivered: seq<Event>)
    requires t.Valid() && t.max == UNLIMITED_STRING_TABLE_SIZE && |t.entries| < id
    ensures Ops(Definition(id, bytes) + rest, t, delivered) == Run(delivered, Some(BeyondTableEnd(id)))
  {
    var afterOp := Encoded(id) + WrittenString(bytes) + rest;
    assert Definition(id, bytes) + rest == SmallInt(OP_STRING) + afterOp;
    StringOpStores(id, bytes, rest, t);
    OpcodeRead(OP_STRING, afterOp, t, delivered);
  }
}
