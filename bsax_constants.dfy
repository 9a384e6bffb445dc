/**
 * The constants of the Binary SAX stream format (`BSAXConstants.java`): the header, the reserved
 * string ids and the opcode numbering.
 */
module BSAXConstants {
  import opened JavaTypes

  /** The four header bytes, "BSAX" in ASCII. */
  const MAGIC: seq<byte> := [0x42, 0x53, 0x41, 0x58]

  const VERSION: int := 1

  /**
   * The version the second reader accepts. It is not defined in the constants file; it is taken
   * to be the one version there is.
   */
  const VERSION_LATEST: int := VERSION

  /** The version the second reader holds before a header is read. Not defined in the constants file. */
  const VERSION_UNKNOWN: int := 0

  /** A declared string table size of 0 means the table may grow without bound. */
  const UNLIMITED_STRING_TABLE_SIZE: int := 0
  const MINIMUM_STRING_TABLE_SIZE: int := 7

  /** The initial size of an unlimited table: the two reserved entries. Not defined in the constants file either. */
  const STARTING_STRING_TABLE_SIZE: int := 2

  const NULL_STRING_ID: int := 0
  const EMPTY_STRING_ID: int := 1

  const OP_STRING: int := 0
  const OP_START_DOCUMENT: int := 1
  const OP_END_DOCUMENT: int := 2
  const OP_START_ELEMENT: int := 3
  const OP_ATTRIBUTE: int := 4
  const OP_END_ELEMENT: int := 5
  const OP_CHARACTERS: int := 6
  const OP_IGNORABLE_WHITESPACE: int := 7
  const OP_START_PREFIX_MAPPING: int := 8
  const OP_END_PREFIX_MAPPING: int := 9
  const OP_NOTATION_DECL: int := 10
  const OP_PROCESSING_INSTRUCTION: int := 11
  const OP_SKIPPED_ENTITY: int := 12
  const OP_UNPARSED_ENTITY_DECL: int := 13

  /** The range the second reader checks before dispatching; not defined in the constants file. */
  const MIN_OP: int := OP_STRING
  const MAX_OP: int := OP_UNPARSED_ENTITY_DECL

  /** Every opcode, in numbering order. */
  const OPCODES: seq<int> := [
    OP_STRING, OP_START_DOCUMENT, OP_END_DOCUMENT, OP_START_ELEMENT, OP_ATTRIBUTE,
    OP_END_ELEMENT, OP_CHARACTERS, OP_IGNORABLE_WHITESPACE, OP_START_PREFIX_MAPPING,
    OP_END_PREFIX_MAPPING, OP_NOTATION_DECL, OP_PROCESSING_INSTRUCTION, OP_SKIPPED_ENTITY,
    OP_UNPARSED_ENTITY_DECL]

  /**
   * The number of integer operands that follow an opcode, as documented beside each opcode.
   * A string definition is followed by an id and a length-prefixed string, so it has one integer
   * operand here; a start element is followed by three string ids and the attribute count.
   */
  function OperandCount(op: int): (n: int)
    requires MIN_OP <= op <= MAX_OP
    ensures 0 <= n <= 5
  {
    if op == OP_STRING then 1
    else if op == OP_START_DOCUMENT || op == OP_END_DOCUMENT then 0
    else if op == OP_START_ELEMENT then 4
    else if op == OP_ATTRIBUTE then 5
    else if op == OP_END_ELEMENT || op == OP_NOTATION_DECL then 3
    else if op == OP_START_PREFIX_MAPPING || op == OP_PROCESSING_INSTRUCTION then 2
    else if op == OP_UNPARSED_ENTITY_DECL then 4
    else 1
  }

  /** The magic spells "BSAX" in ASCII. */
  lemma {:induction false} MagicSpellsBSAX()
    ensures |MAGIC| == 4
    ensures forall i :: 0 <= i < 4 ==> MAGIC[i] == "BSAX"[i] as int
  {
  }

  /** The opcodes are the numbers 0 to 13, each used once. */
  lemma {:induction false} OpcodesAreDistinct()
    ensures |OPCODES| == MAX_OP - MIN_OP + 1
    ensures forall i :: 0 <= i < |OPCODES| ==> OPCODES[i] == MIN_OP + i
    ensures forall i, j :: 0 <= i < j < |OPCODES| ==> OPCODES[i] != OPCODES[j]
  {
  }

  /**
   * The smallest bounded table holds the two reserved entries and the five strings of the
   * operator with the most string operands, an attribute.
   */
  lemma {:induction false} MinimumTableHoldsAnAttribute()
    ensures MINIMUM_STRING_TABLE_SIZE == 2 + OperandCount(OP_ATTRIBUTE)
    ensures forall op :: MIN_OP <= op <= MAX_OP ==> OperandCount(op) <= OperandCount(OP_ATTRIBUTE)
    ensures STARTING_STRING_TABLE_SIZE == EMPTY_STRING_ID + 1 && NULL_STRING_ID < EMPTY_STRING_ID
  {
  }
}
