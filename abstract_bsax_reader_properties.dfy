/**
 * What `AbstractBSAXReader.java` promises its subclass, stated on the pure model of
 * `AbstractReader`: hook calls are only ever added, `doStartStream` comes first and once,
 * `doOpAttribute` is called once per declared attribute, numbered in order, between
 * `doOpStartElement` and `doOpStartElementFinalize`, and the string-table counter refuses and
 * accepts exactly the definitions the table-keeping `BSAXReader` does.
 */
module AbstractReaderProperties {
  import opened Wrappers
  import opened JavaTypes
  import opened Utf8Codec
  import opened BSAXConstants
  import opened BSAXUtil
  import opened SaxEvents
  import opened BSAXHeader
  import opened AbstractReader
  import SaxReader

  /*
   * Hook calls are only added
   */

  /** A record's outcome keeps the calls made before it, on success and on failure. */
  predicate Extends(s: State, r: Result<(State, seq<byte>), Stopped>)
  {
    if r.Ok? then s.calls <= r.value.0.calls else s.calls <= r.error.calls
  }

  lemma {:induction false} IdExtends(input: seq<byte>, s: State)
    ensures var r := Id(input, s); r.Err? ==> r.error.calls == s.calls
  {
  }

  lemma {:induction false} DefinitionExtends(input: seq<byte>, s: State)
    ensures var r := Definition(input, s);
      Extends(s, r) && (r.Ok? ==> |r.value.0.calls| == |s.calls| + 1 && r.value.0.calls[|s.calls|].OpString?)
  {
  }

  lemma {:induction false} AttributeOpcodeExtends(input: seq<byte>, s: State)
    ensures Extends(s, AttributeOpcode(input, s))
    decreases |input|, 1
  {
    var id := Id(input, s);
    if id.Ok? {
      AfterOpcodeExtends(id.value.0, id.value.1, s);
    }
  }

  lemma {:induction false} AfterOpcodeExtends(op: int, input: seq<byte>, s: State)
    ensures Extends(s, AfterOpcode(op, input, s))
    decreases |input|, 0
  {
    if op == OP_STRING {
      var d := Definition(input, s);
      DefinitionExtends(input, s);
      if d.Ok? {
        AttributeOpcodeExtends(d.value.1, d.value.0);
      }
    }
  }

  /** An attribute record adds one `doOpAttribute` call, `h`, with the attribute's number. */
  lemma {:induction false} AttributeRecordAdds(input: seq<byte>, s: State, i: int) returns (h: Hook)
    ensures var r := AttributeRecord(input, s, i);
      (r.Ok? ==> r.value.0.calls == s.calls + [h] && h.OpAttribute? && h.index == i) &&
      (r.Err? ==> r.error.calls == s.calls)
  {
    h := OpAttribute(i, 0, 0, 0, 0, 0);
    var uri := Id(input, s);
    if uri.Err? { return; }
    var localName := Id(uri.value.1, s);
    if localName.Err? { return; }
    var qName := Id(localName.value.1, s);
    if qName.Err? { return; }
    var attrType := Id(qName.value.1, s);
    if attrType.Err? { return; }
    var value := Id(attrType.value.1, s);
    if value.Err? { return; }
    h := OpAttribute(i, uri.value.0, localName.value.0, qName.value.0, attrType.value.0, value.value.0);
  }

  lemma {:induction false} NextAttributeExtends(input: seq<byte>, s: State, i: int)
    ensures Extends(s, NextAttribute(input, s, i))
  {
    AttributeOpcodeExtends(input, s);
    var opcode := AttributeOpcode(input, s);
    if opcode.Ok? {
      var _ := AttributeRecordAdds(opcode.value.1, opcode.value.0, i);
    }
  }

  lemma {:induction false} AttributesFromExtends(input: seq<byte>, s: State, i: int, count: int)
    ensures Extends(s, AttributesFrom(input, s, i, count))
    decreases count - i
  {
    if i < count {
      var next := NextAttribute(input, s, i);
      NextAttributeExtends(input, s, i);
      if next.Ok? {
        AttributesFromExtends(next.value.1, next.value.0, i + 1, count);
      }
    }
  }

  lemma {:induction false} StartElementExtends(input: seq<byte>, s: State)
    ensures Extends(s, StartElementOp(input, s))
  {
    var start := ElementStart(input, s);
    if start.Ok? {
      var (h, afterCount) := start.value;
      AttributesFromExtends(afterCount, s.Call(h), 0, h.attributeCount);
    }
  }

  lemma {:induction false} DispatchExtends(op: int, input: seq<byte>, s: State)
    ensures Extends(s, Dispatch(op, input, s))
  {
    if op == OP_STRING {
      DefinitionExtends(input, s);
    } else if op == OP_START_ELEMENT {
      StartElementExtends(input, s);
    } else if op == OP_END_ELEMENT {
      assert Dispatch(op, input, s) == EndElementOp(input, s);
    } else if op == OP_CHARACTERS {
      assert Dispatch(op, input, s) == CharactersOp(input, s);
    } else if op == OP_IGNORABLE_WHITESPACE {
      assert Dispatch(op, input, s) == IgnorableWhitespaceOp(input, s);
    } else if op == OP_START_PREFIX_MAPPING {
      assert Dispatch(op, input, s) == StartPrefixMappingOp(input, s);
    } else if op == OP_END_PREFIX_MAPPING {
      assert Dispatch(op, input, s) == EndPrefixMappingOp(input, s);
    } else if op == OP_PROCESSING_INSTRUCTION {
      assert Dispatch(op, input, s) == ProcessingInstructionOp(input, s);
    } else if op == OP_SKIPPED_ENTITY {
      assert Dispatch(op, input, s) == SkippedEntityOp(input, s);
    }
  }

  /** The whole loop only adds calls to those made before it. */
  lemma {:induction false} RecordsExtends(input: seq<byte>, s: State)
    ensures s.calls <= Records(input, s).calls
    decreases |input|
  {
    var next := Opcode(input);
    if next.Ok? && next.value.0 != -1 {
      var (op, afterOp) := next.value;
      RecordsStep(input, s, op, afterOp);
      DispatchExtends(op, afterOp, s);
      var result := Dispatch(op, afterOp, s);
      if result.Ok? {
        RecordsExtends(result.value.1, result.value.0);
      }
    }
  }

  /**
   * A parse makes no call before its header is accepted, and then calls `doStartStream` before
   * anything else.
   */
  lemma {:induction false} StartStreamFirst(input: seq<byte>, before: seq<Hook>)
    ensures var outcome := Traced(input, before);
      if Header(input).Err? then outcome == Outcome(before, Some(Header(input).error))
      else |outcome.calls| > |before| && outcome.calls[..|before| + 1] == before + [StartStream]
  {
    if Header(input).Ok? {
      var (max, rest) := Header(input).value;
      HeaderAccepts(input, max, rest);
      RecordsExtends(rest, State(max, Start(max), before + [StartStream]));
    }
  }

  /*
   * Attributes
   */

  /** The indices `doOpAttribute` is given, in call order. */
  function AttributeIndices(calls: seq<Hook>): (indices: seq<int>)
    ensures |indices| <= |calls|
  {
    if calls == [] then []
    else
      var last := calls[|calls| - 1];
      AttributeIndices(calls[..|calls| - 1]) + if last.OpAttribute? then [last.index] else []
  }

  /** The integers from `i` up to `count`. */
  function Range(i: int, count: int): (r: seq<int>)
    ensures |r| == if i < count then count - i else 0
    ensures forall k :: 0 <= k < |r| ==> r[k] == i + k
    decreases count - i
  {
    if i >= count then [] else [i] + Range(i + 1, count)
  }

  lemma {:induction false} AttributeIndicesAppend(calls: seq<Hook>, added: seq<Hook>)
    ensures AttributeIndices(calls + added) == AttributeIndices(calls) + AttributeIndices(added)
    decreases |added|
  {
    if added == [] {
      assert calls + added == calls;
    } else {
      var last := added[|added| - 1];
      var front := added[..|added| - 1];
      assert (calls + added)[..|calls + added| - 1] == calls + front;
      AttributeIndicesAppend(calls, front);
    }
  }

  /** The definitions before an attribute record call `doOpString` only. */
  lemma {:induction false} AttributeOpcodeCallsNoAttribute(input: seq<byte>, s: State)
    ensures var r := AttributeOpcode(input, s);
      r.Ok? ==> s.calls <= r.value.0.calls && AttributeIndices(r.value.0.calls) == AttributeIndices(s.calls)
    decreases |input|, 1
  {
    var id := Id(input, s);
    if id.Ok? {
      AfterOpcodeCallsNoAttribute(id.value.0, id.value.1, s);
    }
  }

  lemma {:induction false} AfterOpcodeCallsNoAttribute(op: int, input: seq<byte>, s: State)
    ensures var r := AfterOpcode(op, input, s);
      r.Ok? ==> s.calls <= r.value.0.calls && AttributeIndices(r.value.0.calls) == AttributeIndices(s.calls)
    decreases |input|, 0
  {
    if op == OP_STRING {
      var d := Definition(input, s);
      if d.Ok? {
        DefinitionExtends(input, s);
        var added := d.value.0.calls[|s.calls|..];
        assert d.value.0.calls == s.calls + added;
        AttributeIndicesAppend(s.calls, added);
        assert added == [] + [added[0]];
        AttributeOpcodeCallsNoAttribute(d.value.1, d.value.0);
      }
    }
  }

  /** Attribute number `i` adds `i` to the indices, after the definitions before it. */
  lemma {:induction false} NextAttributeIndices(input: seq<byte>, s: State, i: int)
    ensures var r := NextAttribute(input, s, i);
      r.Ok? ==> (s.calls <= r.value.0.calls &&
        AttributeIndices(r.value.0.calls) == AttributeIndices(s.calls) + [i])
  {
    var opcode := AttributeOpcode(input, s);
    if opcode.Ok? {
      AttributeOpcodeCallsNoAttribute(input, s);
      var s1 := opcode.value.0;
      var record := AttributeRecord(opcode.value.1, s1, i);
      var h := AttributeRecordAdds(opcode.value.1, s1, i);
      if record.Ok? {
        AttributeIndicesAppend(s1.calls, [h]);
        assert AttributeIndices([h]) == [i] by {
          assert [h][..0] == [];
        }
      }
    }
  }

  /** Attributes `i` to `count` call `doOpAttribute` with exactly those indices, in order. */
  lemma {:induction false} AttributesFromIndices(input: seq<byte>, s: State, i: int, count: int)
    ensures var r := AttributesFrom(input, s, i, count);
      r.Ok? ==> (s.calls <= r.value.0.calls &&
        AttributeIndices(r.value.0.calls) == AttributeIndices(s.calls) + Range(i, count))
    decreases count - i
  {
    var r := AttributesFrom(input, s, i, count);
    if i >= count {
      assert AttributeIndices(s.calls) + Range(i, count) == AttributeIndices(s.calls);
    } else {
      AttributesFromStep(input, s, i, count);
      var next := NextAttribute(input, s, i);
      if next.Ok? {
        var (s1, rest) := next.value;
        NextAttributeIndices(input, s, i);
        AttributesFromIndices(rest, s1, i + 1, count);
        if r.Ok? {
          IndicesInTurn(AttributeIndices(s.calls), AttributeIndices(s1.calls), AttributeIndices(r.value.0.calls), i, count);
        }
      }
    }
  }

  /** Index `i`, then the indices after it, make the range from `i`. */
  lemma {:induction false} IndicesInTurn(before: seq<int>, middle: seq<int>, after: seq<int>, i: int, count: int)
    requires i < count && middle == before + [i] && after == middle + Range(i + 1, count)
    ensures after == before + Range(i, count)
  {
    assert [i] + Range(i + 1, count) == Range(i, count);
    assert before + [i] + Range(i + 1, count) == before + ([i] + Range(i + 1, count));
  }

  /** Indices added after `calls` are the indices of what was added. */
  lemma {:induction false} AddedIndices(calls: seq<Hook>, after: seq<Hook>, range: seq<int>)
    requires calls <= after && AttributeIndices(after) == AttributeIndices(calls) + range
    ensures AttributeIndices(after[|calls|..]) == range
  {
    var middle := after[|calls|..];
    assert after == calls + middle;
    AttributeIndicesAppend(calls, middle);
    var before := AttributeIndices(calls);
    assert AttributeIndices(middle) == (before + AttributeIndices(middle))[|before|..];
    assert range == (before + range)[|before|..];
  }

  /** A start record, then attribute records, then the finalizing call: its indices are theirs. */
  lemma {:induction false} ElementIndices(h: Hook, middle: seq<Hook>)
    requires !h.OpAttribute?
    ensures AttributeIndices([h] + middle + [OpStartElementFinalize]) == AttributeIndices(middle)
  {
    AttributeIndicesAppend([h], middle);
    AttributeIndicesAppend([h] + middle, [OpStartElementFinalize]);
    assert AttributeIndices([h]) == [] by {
      assert [h][..0] == [];
    }
    assert AttributeIndices([OpStartElementFinalize]) == [] by {
      assert [OpStartElementFinalize][..0] == [];
    }
    assert AttributeIndices([h] + middle) + [] == [] + AttributeIndices(middle);
  }

  /**
   * The calls after `before`: the start call `h`, attribute calls reaching `attributes`, and the
   * finalizing call.
   */
  lemma {:induction false} ElementShape(before: seq<Hook>, h: Hook, attributes: seq<Hook>)
    requires h.OpStartElement? && before + [h] <= attributes
    requires AttributeIndices(attributes) == AttributeIndices(before + [h]) + Range(0, h.attributeCount)
    ensures var calls := attributes + [OpStartElementFinalize];
      before <= calls &&
      var added := calls[|before|..];
      |added| >= 2 && added[0].OpStartElement? && added[|added| - 1] == OpStartElementFinalize &&
      AttributeIndices(added) == Range(0, added[0].attributeCount)
  {
    AddedIndices(before + [h], attributes, Range(0, h.attributeCount));
    var middle := attributes[|before + [h]|..];
    ElementIndices(h, middle);
    var calls := attributes + [OpStartElementFinalize];
    assert calls == before + ([h] + middle + [OpStartElementFinalize]);
    assert calls[|before|..] == [h] + middle + [OpStartElementFinalize];
  }

  /**
   * `internalOpStartElement` tells the subclass the declared count first, then calls
   * `doOpAttribute` for attribute 0, 1, ... up to that count, and `doOpStartElementFinalize` last.
   */
  lemma {:induction false} StartElementCallsInOrder(input: seq<byte>, s: State)
    ensures var r := StartElementOp(input, s);
      r.Ok? ==>
        s.calls <= r.value.0.calls &&
        var added := r.value.0.calls[|s.calls|..];
        |added| >= 2 && added[0].OpStartElement? && added[|added| - 1] == OpStartElementFinalize &&
        AttributeIndices(added) == Range(0, added[0].attributeCount)
  {
    var start := ElementStart(input, s);
    if start.Ok? {
      var (h, afterCount) := start.value;
      var attributes := AttributesFrom(afterCount, s.Call(h), 0, h.attributeCount);
      if attributes.Ok? {
        AttributesFromIndices(afterCount, s.Call(h), 0, h.attributeCount);
        ElementShape(s.calls, h, attributes.value.0.calls);
      }
    }
  }

  /*
   * The dispatch
   */

  /**
   * Opcodes outside `MIN_OP`..`MAX_OP` are refused by the range check, and the two declarations
   * inside it by the switch's default; an attribute record is refused outside an element.
   */
  lemma {:induction false} DispatchRefuses(op: int, input: seq<byte>, s: State)
    ensures (op < MIN_OP || MAX_OP < op || op == OP_NOTATION_DECL || op == OP_UNPARSED_ENTITY_DECL) ==>
      Dispatch(op, input, s) == Err(Stopped(s.calls, UnrecognizedOpcode(op)))
    ensures op == OP_ATTRIBUTE ==> Dispatch(op, input, s) == Err(Stopped(s.calls, AttributeOutsideElement))
  {
  }

  /*
   * The counter against the table
   */

  /**
   * The counter stands for a table: in an unlimited table it is the number of entries, in a
   * bounded one the declared size.
   */
  predicate Counts(s: State, t: SaxReader.Table)
  {
    s.max == t.max &&
    s.current == if t.max == UNLIMITED_STRING_TABLE_SIZE then |t.entries| else t.max
  }

  /**
   * Right after an accepted header the counter stands for the table `BSAXReader` starts from:
   * the two reserved entries of an unlimited table, or the declared size of a bounded one.
   */
  lemma {:induction false} StartCountsInitialTable(max: int, calls: seq<Hook>)
    requires max == UNLIMITED_STRING_TABLE_SIZE || MINIMUM_STRING_TABLE_SIZE <= max <= MAX_INT
    ensures SaxReader.Initial(max).Valid() && Counts(State(max, Start(max), calls), SaxReader.Initial(max))
  {
  }

  /**
   * A definition record is refused by the counting reader exactly when the table-keeping reader
   * refuses it, with the same exception; when it is accepted, both leave the same bytes, the
   * counter still counts the new table, and the subclass is told the id and the string the table
   * now holds there. (The table must hold fewer than `MAX_INT` entries: at that many the counter
   * wraps around.)
   */
  lemma {:induction false} DefinitionAgreesWithTable(input: seq<byte>, s: State, t: SaxReader.Table)
    requires t.Valid() && Counts(s, t) && |t.entries| < MAX_INT
    ensures var d := Definition(input, s);
      var r := SaxReader.StringOp(input, t);
      (d.Ok? <==> r.Ok?) &&
      (d.Err? ==> d.error == Stopped(s.calls, r.error)) &&
      (d.Ok? ==>
        d.value.1 == r.value.1 && Counts(d.value.0, r.value.0) &&
        |d.value.0.calls| == |s.calls| + 1 && d.value.0.calls[..|s.calls|] == s.calls &&
        var h := d.value.0.calls[|s.calls|];
        h.OpString? && 0 <= h.id < |r.value.0.entries| && r.value.0.entries[h.id] == Text(h.value))
  {
    var d := Definition(input, s);
    var r := SaxReader.StringOp(input, t);
    var operand := Operand(input);
    if operand.Ok? {
      var (id, afterId) := operand.value;
      var payload := Payload(afterId);
      if 2 <= id && (t.max == UNLIMITED_STRING_TABLE_SIZE || id < t.max) && payload.Ok? {
        var (value, rest) := payload.value;
        if t.max != UNLIMITED_STRING_TABLE_SIZE {
          assert |SaxReader.Padded(t.entries, id)| == if id < |t.entries| then |t.entries| else id + 1;
        }
      }
    }
  }
}
