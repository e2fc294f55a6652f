/** The buffered sample writer: a fixed 16 KiB staging array in front of the
    output file, flushed whenever it fills up and once more at the end.
 */
module Buffering {
  import opened CasFormat

  class WriteBuffer {
    /** Everything written so far: what reached the file, then what is still staged. */
    ghost var Contents: seq<bv8>

    /** The bytes handed to the output file so far. */
    var file: seq<bv8>
    /** The staging area and the number of bytes waiting in it. */
    const buffer: array<bv8>
    var position: nat

    /** The staged count fits the array; holds even in the middle of putByte. */
    ghost predicate Staged()
      reads this, buffer
    {
      buffer.Length == WRITE_BUFFER_SIZE && position <= WRITE_BUFFER_SIZE &&
      Contents == file + buffer[..position]
    }

    /** Between calls the staging area is never full. */
    ghost predicate Valid()
      reads this, buffer
    {
      Staged() && position < WRITE_BUFFER_SIZE
    }

    /** initWriteBuffer: an empty staging area in front of a file holding `initial`. */
    constructor (initial: seq<bv8>)
      ensures Valid() && fresh(buffer)
      ensures file == initial && position == 0 && Contents == initial
    {
      file := initial;
      buffer := new bv8[WRITE_BUFFER_SIZE];
      position := 0;
      Contents := initial;
    }

    /** flushWriteBuffer: hands the staged bytes to the file; does nothing when none are staged. */
    method Flush()
      requires Staged()
      modifies this
      ensures Valid() && position == 0
      ensures file == old(file) + old(buffer[..position])
      ensures file == Contents && Contents == old(Contents)
      ensures old(position) == 0 ==> file == old(file)
    {
      if position > 0 {
        file := file + buffer[..position];
        position := 0;
      }
    }

    /** putByte: stages one byte and flushes when the staging area is full. */
    method PutByte(x: bv8)
      requires Valid()
      modifies this, buffer
      ensures Valid()
      ensures Contents == old(Contents) + [x]
      ensures old(position) + 1 < WRITE_BUFFER_SIZE ==>
        file == old(file) && position == old(position) + 1
      ensures old(position) + 1 == WRITE_BUFFER_SIZE ==>
        file == Contents && position == 0
    {
      buffer[position] := x;
      position := position + 1;
      Contents := Contents + [x];
      assert buffer[..position] == old(buffer[..position]) + [x];
      if position >= WRITE_BUFFER_SIZE {
        Flush();
      }
    }
  }
}
