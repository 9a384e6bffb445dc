/**
 * The two `java.io` streams the format is read from and written to, reduced to what the source
 * uses: an input stream is its bytes and a cursor, an output stream the bytes written so far.
 */
module Streams {
  import opened JavaTypes

  /** An `InputStream` over a fixed sequence of bytes; `pos` is the index of the next byte to read. */
  class InputStream {
    var data: seq<byte>
    var pos: nat

    predicate Valid()
      reads this
    {
      pos <= |data|
    }

    /** The bytes not yet read. */
    function Remaining(): seq<byte>
      reads this
      requires Valid()
    {
      data[pos..]
    }

    constructor (data: seq<byte>)
      ensures Valid() && this.data == data && pos == 0
    {
      this.data := data;
      pos := 0;
    }

    /** `read()`: the next byte, or -1 at end of input. */
    method Read() returns (b: int)
      requires Valid()
      modifies this
      ensures Valid() && data == old(data)
      ensures old(Remaining()) == [] ==> b == -1 && pos == old(pos)
      ensures old(Remaining()) != [] ==> b == old(Remaining())[0] && Remaining() == old(Remaining())[1..]
    {
      if pos == |data| {
        return -1;
      }
      b := data[pos];
      pos := pos + 1;
    }

    /**
     * `read(buffer, offset, count)`: up to `count` bytes. The caller compares how many it got with
     * `count`; a stream that returns fewer bytes than it still holds is not modelled.
     */
    method ReadBytes(count: nat) returns (bytes: seq<byte>)
      requires Valid()
      modifies this
      ensures Valid() && data == old(data)
      ensures var n := if count <= |old(Remaining())| then count else |old(Remaining())|;
        bytes == old(Remaining())[..n] && Remaining() == old(Remaining())[n..]
    {
      var n := if count <= |data| - pos then count else |data| - pos;
      bytes := data[pos..pos + n];
      pos := pos + n;
    }

    /**
     * `read(buffer)`: fills the front of `buffer` with up to `buffer.Length` bytes and returns how
     * many it stored, or -1 at end of input. The rest of `buffer` keeps its contents.
     */
    method ReadInto(buffer: array<byte>) returns (count: int)
      requires Valid()
      modifies this, buffer
      ensures Valid() && data == old(data)
      ensures var n := if buffer.Length <= |old(Remaining())| then buffer.Length else |old(Remaining())|;
        Remaining() == old(Remaining())[n..] &&
        buffer[..n] == old(Remaining())[..n] && buffer[n..] == old(buffer[n..]) &&
        count == if n == 0 && buffer.Length > 0 then -1 else n
    {
      var n := if buffer.Length <= |data| - pos then buffer.Length else |data| - pos;
      forall j | 0 <= j < n {
        buffer[j] := data[pos + j];
      }
      pos := pos + n;
      count := if n == 0 && buffer.Length > 0 then -1 else n;
    }
  }

  /** An `OutputStream`: everything written, in order. */
  class OutputStream {
    var written: seq<byte>

    constructor ()
      ensures written == []
    {
      written := [];
    }

    /** `write(bytes)`. */
    method Write(bytes: seq<byte>)
      modifies this
      ensures written == old(written) + bytes
    {
      written := written + bytes;
    }
  }
}
