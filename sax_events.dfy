/**
 * The SAX events a Binary SAX stream carries: the calls `SAXWriter` receives and the calls
 * `BSAXReader` makes on its content handler. A Java `String` that may be `null` is a `Str`; its
 * characters are its UTF-8 bytes, which is what the stream stores.
 */
module SaxEvents {
  import opened JavaTypes

  /** A `String` or `null`. */
  datatype Str = Null | Text(bytes: Bytes)

  const EMPTY: Str := Text([])

  /** One attribute of `Attributes`, in the order of its getters. */
  datatype Attribute = Attribute(uri: Str, localName: Str, qName: Str, attrType: Str, value: Str)

  /** An `Attributes` list: `getLength()` is a Java `int`. */
  type Attributes = s: seq<Attribute> | |s| <= 0x7FFF_FFFF

  /**
   * A `ContentHandler` or `DTDHandler` call with its arguments. The character events keep the
   * `char[]`, start and length arguments of the SAX call.
   */
  datatype Event =
    | StartDocument
    | EndDocument
    | StartElement(uri: Str, localName: Str, qName: Str, attributes: Attributes)
    | EndElement(uri: Str, localName: Str, qName: Str)
    | Characters(ch: Bytes, start: int32, length: int32)
    | IgnorableWhitespace(ch: Bytes, start: int32, length: int32)
    | StartPrefixMapping(prefix: Str, uri: Str)
    | EndPrefixMapping(prefix: Str)
    | ProcessingInstruction(target: Str, data: Str)
    | SkippedEntity(name: Str)
    | NotationDecl(name: Str, publicId: Str, systemId: Str)
    | UnparsedEntityDecl(name: Str, publicId: Str, systemId: Str, notationName: Str)

  /** The five strings of an attribute, in the order they are written. */
  function AttributeFields(a: Attribute): (fields: seq<Str>)
    ensures |fields| == 5 && fields[0] == a.uri && fields[4] == a.value
  {
    [a.uri, a.localName, a.qName, a.attrType, a.value]
  }

  /** The attribute whose fields, in writing order, are `fields`. */
  function AttributeOf(fields: seq<Str>): (a: Attribute)
    requires |fields| == 5
    ensures AttributeFields(a) == fields
  {
    Attribute(fields[0], fields[1], fields[2], fields[3], fields[4])
  }
}
