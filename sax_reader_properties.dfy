/**
 * What `BSAXReader.java` promises about its string table and its record loop, stated on the
 * pure model of `SaxReader`: the table stays well formed, a definition record stores exactly
 * what it carries, a reference reads exactly what is stored, and the loop refuses the records
 * it does not know.
 */
module SaxReaderProperties {
  import opened Wrappers
  import opened JavaTypes
  import opened Utf8Codec
  import opened BSAXConstants
  import opened BSAXUtil
  import opened SaxEvents
  import opened BSAXHeader
  import opened SaxReader

  /*
   * String definitions
   */

  /**
   * The ids a definition record may set in `t`: not a reserved one, and in an unlimited table
   * at most one past the end, in a bounded one below the declared size.
   */
  predicate Definable(t: Table, id: int)
  {
    2 <= id &&
    if t.max == UNLIMITED_STRING_TABLE_SIZE then id <= |t.entries| else id < t.max
  }

  /**
   * `after` is `before` with `s` at `id`: every other entry is kept, and the ones between the
   * old end and `id` are null.
   */
  predicate Defines(before: seq<Str>, after: seq<Str>, id: nat, s: Str)
  {
    |after| == (if id < |before| then |before| else id + 1) &&
    after[id] == s &&
    (forall k :: 0 <= k < |before| && k != id ==> after[k] == before[k]) &&
    (forall k :: |before| <= k < |after| && k != id ==> after[k] == Null)
  }

  /** Where a definable id is stored, the table is updated as `Defines` says. */
  lemma {:induction false} StoredDefines(t: Table, id: nat, s: Str)
    requires t.Valid() && Definable(t, id)
    ensures Stored(t, id, s).Ok? && Defines(t.entries, Stored(t, id, s).value, id, s)
  {
    if t.max != UNLIMITED_STRING_TABLE_SIZE {
      var padded := Padded(t.entries, id);
      forall k | 0 <= k < |t.entries|
        ensures padded[k] == t.entries[k]
      {
        assert padded[..|t.entries|][k] == padded[k];
      }
    }
  }

  /**
   * A definition record of `id` and `value` followed by `rest`: the reserved ids and the ids
   * beyond what the table allows are refused, and any other id is set to the string, the record
   * consuming exactly its own bytes.
   */
  lemma {:induction false} StringOpStores(id: int, value: Bytes, rest: seq<byte>, t: Table)
    requires t.Valid() && 0 <= id <= MAX_INT
    ensures var r := StringOp(Encoded(id) + WrittenString(value) + rest, t);
      (id < 2 ==> r == Err(ReservedEntry(id))) &&
      (2 <= id && t.max != UNLIMITED_STRING_TABLE_SIZE && id >= t.max ==> r == Err(BeyondFixedTable(id))) &&
      (2 <= id && t.max == UNLIMITED_STRING_TABLE_SIZE && id > |t.entries| ==> r == Err(BeyondTableEnd(id))) &&
      (Definable(t, id) ==>
        r.Ok? && r.value.1 == rest && r.value.0.max == t.max &&
        Defines(t.entries, r.value.0.entries, id, Text(value)))
  {
    var input := Encoded(id) + WrittenString(value) + rest;
    assert input == Encoded(id) + (WrittenString(value) + rest);
    OperandReadsEncodings(input, id, WrittenString(value) + rest);
    PayloadReadsWrittenStrings(WrittenString(value) + rest, value, rest);
    if Definable(t, id) {
      StoredDefines(t, id, Text(value));
    }
  }

  /** Every table a definition record leaves behind is as well formed as the one before. */
  lemma {:induction false} StringOpKeepsValid(input: seq<byte>, t: Table)
    requires t.Valid() && StringOp(input, t).Ok?
    ensures StringOp(input, t).value.0.Valid()
  {
    var (id, afterId) := Operand(input).value;
    var (value, rest) := Payload(afterId).value;
    OperandReadsEncodings(input, id, afterId);
    PayloadReadsWrittenStrings(afterId, value, rest);
    assert input == Encoded(id) + WrittenString(value) + rest;
    StringOpStores(id, value, rest, t);
  }

  /*
   * String references
   */

  /**
   * In a well-formed table a reference is a lookup: an id the table holds reads its entry (the
   * two reserved ids included), any other id is refused.
   */
  lemma {:induction false} RefIsLookup(id: int, rest: seq<byte>, t: Table)
    requires t.Valid() && 0 <= id <= MAX_INT
    ensures Ref(Encoded(id) + rest, t) ==
      if id < |t.entries| then Ok((t.entries[id], rest))
      else if t.max != UNLIMITED_STRING_TABLE_SIZE && id >= t.max then Err(BeyondFixedReference(id))
      else Err(BeyondCurrentReference(id))
  {
    OperandReadsEncodings(Encoded(id) + rest, id, rest);
  }

  /** A string defined under an id is what a later reference to that id reads. */
  lemma {:induction false} DefinedStringIsRead(id: int, value: Bytes, rest: seq<byte>, t: Table, after: seq<byte>)
    requires t.Valid() && 0 <= id <= MAX_INT && Definable(t, id)
    ensures var r := StringOp(Encoded(id) + WrittenString(value) + rest, t);
      r.Ok? && Ref(Encoded(id) + after, r.value.0) == Ok((Text(value), after))
  {
    StringOpStores(id, value, rest, t);
    var r := StringOp(Encoded(id) + WrittenString(value) + rest, t);
    StringOpKeepsValid(Encoded(id) + WrittenString(value) + rest, t);
    RefIsLookup(id, after, r.value.0);
  }

  /** A definition leaves every other reference reading what it read before. */
  lemma {:induction false} DefinitionKeepsOtherStrings(id: int, value: Bytes, rest: seq<byte>, t: Table, other: int, after: seq<byte>)
    requires t.Valid() && 0 <= id <= MAX_INT && Definable(t, id)
    requires 0 <= other <= MAX_INT && other != id && other < |t.entries|
    ensures var r := StringOp(Encoded(id) + WrittenString(value) + rest, t);
      r.Ok? && Ref(Encoded(other) + after, r.value.0) == Ref(Encoded(other) + after, t)
  {
    StringOpStores(id, value, rest, t);
    var r := StringOp(Encoded(id) + WrittenString(value) + rest, t);
    StringOpKeepsValid(Encoded(id) + WrittenString(value) + rest, t);
    RefIsLookup(other, after, t);
    RefIsLookup(other, after, r.value.0);
  }

  /*
   * Well-formed tables throughout a parse
   */

  /** The definitions before an attribute keep the table well formed. */
  lemma {:induction false} AttributeOpcodeKeepsValid(input: seq<byte>, t: Table)
    requires t.Valid() && AttributeOpcode(input, t).Ok?
    ensures AttributeOpcode(input, t).value.0.Valid()
    decreases |input|, 1
  {
    var (op, afterOp) := Operand(input).value;
    AfterOpcodeKeepsValid(op, afterOp, t);
  }

  lemma {:induction false} AfterOpcodeKeepsValid(op: int, input: seq<byte>, t: Table)
    requires t.Valid() && AfterOpcode(op, input, t).Ok?
    ensures AfterOpcode(op, input, t).value.0.Valid()
    decreases |input|, 0
  {
    if op == OP_STRING {
      StringOpKeepsValid(input, t);
      var (t1, rest) := StringOp(input, t).value;
      AttributeOpcodeKeepsValid(rest, t1);
    }
  }

  /** A result whose table, when there is one, is well formed. */
  predicate ValidAttributes(r: Result<(seq<Attribute>, Table, seq<byte>), ReadError>)
  {
    r.Ok? ==> r.value.1.Valid()
  }

  /** One turn of the attribute loop keeps the table well formed. */
  lemma {:induction false} NextAttributeKeepsValid(input: seq<byte>, t: Table)
    requires t.Valid()
    ensures NextAttribute(input, t).Ok? ==> NextAttribute(input, t).value.1.Valid()
  {
    if NextAttribute(input, t).Ok? {
      AttributeOpcodeKeepsValid(input, t);
    }
  }

  /** The attribute loop keeps the table well formed, whatever is left of it. */
  lemma {:induction false} AttributesFromKeepsValid(input: seq<byte>, t: Table, remaining: nat, read: seq<Attribute>)
    requires t.Valid()
    ensures ValidAttributes(AttributesFrom(input, t, remaining, read))
    decreases remaining
  {
    if remaining > 0 {
      var next := NextAttribute(input, t);
      if next.Ok? {
        var (a, t0, tail) := next.value;
        var left: nat := remaining - 1;
        NextAttributeKeepsValid(input, t);
        AttributesFromKeepsValid(tail, t0, left, read + [a]);
        AttributesFromTurn(input, t, left, read, a, t0, tail);
      } else {
        AttributesFromStops(input, t, remaining, read);
      }
    }
  }

  /** One accepted turn of the attribute loop hands the rest of the loop its table and input. */
  lemma {:induction false} AttributesFromTurn(input: seq<byte>, t: Table, left: nat, read: seq<Attribute>,
    a: Attribute, t0: Table, tail: seq<byte>)
    requires NextAttribute(input, t) == Ok((a, t0, tail))
    ensures AttributesFrom(input, t, left + 1, read) == AttributesFrom(tail, t0, left, read + [a])
  {
    AttributesFromStep(input, t, left + 1, read);
  }

  /** A refused turn stops the attribute loop. */
  lemma {:induction false} AttributesFromStops(input: seq<byte>, t: Table, remaining: nat, read: seq<Attribute>)
    requires remaining > 0 && NextAttribute(input, t).Err?
    ensures AttributesFrom(input, t, remaining, read).Err?
  {
    AttributesFromStep(input, t, remaining, read);
  }

  /** A start element's attribute loop keeps the table well formed. */
  lemma {:induction false} StartElementKeepsValid(input: seq<byte>, t: Table)
    requires t.Valid() && StartElementOp(input, t).Ok?
    ensures StartElementOp(input, t).value.table.Valid()
  {
    var afterUri := Ref(input, t).value.1;
    var afterLocalName := Ref(afterUri, t).value.1;
    var afterQName := Ref(afterLocalName, t).value.1;
    var count := Operand(afterQName).value;
    AttributesFromKeepsValid(count.1, t, count.0, []);
  }

  /** Every record, the definitions inside a start element included, keeps the table well formed. */
  lemma {:induction false} OperationKeepsValid(op: int, input: seq<byte>, t: Table)
    requires t.Valid() && Operation(op, input, t).Ok?
    ensures Operation(op, input, t).value.table.Valid()
  {
    if op == OP_STRING {
      StringOpKeepsValid(input, t);
    } else if op == OP_START_ELEMENT {
      StartElementKeepsValid(input, t);
    }
  }

  /**
   * Every table the record loop works with, from `t` until the loop stops, is well formed: `t`
   * itself and the table each accepted record leaves for the next.
   */
  predicate TablesValid(input: seq<byte>, t: Table)
    decreases |input|
  {
    t.Valid() &&
    match Opcode(input)
    case Err(_) => true
    case Ok((op, afterOp)) =>
      op == -1 ||
      match Operation(op, afterOp, t)
      case Err(_) => true
      case Ok(step) => TablesValid(step.rest, step.table)
  }

  /** From a well-formed table, the record loop only ever works with well-formed tables. */
  lemma {:induction false} OpsKeepsValid(input: seq<byte>, t: Table)
    requires t.Valid()
    ensures TablesValid(input, t)
    decreases |input|
  {
    var next := Opcode(input);
    if next.Ok? && next.value.0 != -1 {
      var (op, afterOp) := next.value;
      var result := Operation(op, afterOp, t);
      if result.Ok? {
        OperationKeepsValid(op, afterOp, t);
        OpsKeepsValid(result.value.rest, result.value.table);
      }
    }
  }

  /** A parse whose header is accepted works with well-formed tables throughout. */
  lemma {:induction false} ParsedKeepsValid(input: seq<byte>)
    requires Header(input).Ok?
    ensures TablesValid(Header(input).value.1, Initial(Header(input).value.0))
  {
    var (max, rest) := Header(input).value;
    HeaderAccepts(input, max, rest);
    OpsKeepsValid(rest, Initial(max));
  }

  /*
   * The record loop
   */

  /** The loop ends, successfully, when the input ends at an opcode boundary. */
  lemma {:induction false} OpsEndAtBoundary(t: Table, delivered: seq<Event>)
    ensures Ops([], t, delivered) == Run(delivered, None)
  {
    assert Opcode([]) == Ok((-1, []));
  }

  /** An attribute record outside a start-element record ends the parse with an error. */
  lemma {:induction false} AttributeOutsideElementRefused(rest: seq<byte>, t: Table, delivered: seq<Event>)
    ensures Ops(Encoded(OP_ATTRIBUTE) + rest, t, delivered) == Run(delivered, Some(AttributeOutsideElement))
  {
    OperandReadsEncodings(Encoded(OP_ATTRIBUTE) + rest, OP_ATTRIBUTE, rest);
  }

  /**
   * The notation and unparsed-entity declarations, and every opcode past the last one, are not
   * recognised: the parse ends there with an error and no further call.
   */
  lemma {:induction false} UnrecognizedOpcodeRefused(op: int, rest: seq<byte>, t: Table, delivered: seq<Event>)
    requires op == OP_NOTATION_DECL || op == OP_UNPARSED_ENTITY_DECL || MAX_OP < op <= MAX_INT
    ensures Ops(Encoded(op) + rest, t, delivered) == Run(delivered, Some(UnrecognizedOpcode(op)))
  {
    OperandReadsEncodings(Encoded(op) + rest, op, rest);
    OperationRefuses(op, rest, t);
    OpsStep(Encoded(op) + rest, t, delivered, op, rest);
  }

  /** The dispatch has no case for the declarations and the opcodes past the last one. */
  lemma {:induction false} OperationRefuses(op: int, input: seq<byte>, t: Table)
    requires op == OP_NOTATION_DECL || op == OP_UNPARSED_ENTITY_DECL || MAX_OP < op
    ensures Operation(op, input, t) == Err(UnrecognizedOpcode(op))
  {
  }

  /** A stream holding only the header the writer emits parses without a call or an error. */
  lemma {:induction false} EmptyStreamParses()
    ensures Parsed(MAGIC + SmallInt(VERSION) + SmallInt(UNLIMITED_STRING_TABLE_SIZE)) == Run([], None)
  {
    var input := MAGIC + SmallInt(VERSION) + SmallInt(UNLIMITED_STRING_TABLE_SIZE);
    assert input == input + [];
    WrittenHeaderAccepted([]);
    OpsEndAtBoundary(Initial(UNLIMITED_STRING_TABLE_SIZE), []);
  }
}
