/** The buffered append file: a fixed buffer in front of a file that only grows. */
module AppendFile {

  import opened Common
  import opened Varint

  const BUFFER_SIZE: nat := 65536

  class AppendFile {
    const buffer: array<Byte>
    var offset: nat
    var file: Bytes

    ghost predicate Valid()
      reads this, buffer
    {
      buffer.Length == BUFFER_SIZE && offset < BUFFER_SIZE
    }

    /** Everything appended so far. */
    ghost function Contents(): Bytes
      requires Valid()
      reads this, buffer
    {
      file + buffer[..offset]
    }

    constructor ()
      ensures Valid() && fresh(buffer) && Contents() == [] && offset == 0
    {
      buffer := new Byte[BUFFER_SIZE](_ => 0);
      offset := 0;
      file := [];
    }

    method WriteDirect(data: Bytes)
      modifies `file
      ensures file == old(file) + data
    {
      file := file + data;
    }

    /** Copies bytes into the buffer, from the offset on. */
    method Copy(data: Bytes)
      requires offset + |data| <= buffer.Length
      modifies `offset, buffer
      ensures offset == old(offset) + |data|
      ensures buffer[..offset] == old(buffer[..offset]) + data
    {
      ghost var before := buffer[..offset];
      ghost var start := offset;
      var i := 0;
      while i < |data|
        invariant i <= |data| && offset == start
        invariant buffer[..start] == before
        invariant forall k: nat | k < i :: buffer[start + k] == data[k]
      {
        buffer[offset + i] := data[i];
        i := i + 1;
      }
      offset := offset + |data|;
      assert buffer[start..offset] == data;
      assert buffer[..offset] == buffer[..start] + buffer[start..offset];
    }

    method FlushBuffer()
      requires offset <= buffer.Length
      modifies `file, `offset
      ensures offset == 0 && file == old(file + buffer[..offset])
    {
      WriteDirect(buffer[..offset]);
      offset := 0;
    }

    /**
     Data that leaves room in the buffer is only copied. Otherwise the buffer is filled and written, and the rest
     is copied when it is under a quarter of the buffer, and written directly when it is not.
     */
    method Append(data: Bytes)
      requires Valid()
      modifies this, buffer
      ensures Valid() && Contents() == old(Contents()) + data
      ensures offset == 0 ==> file == Contents()
      ensures file == old(file) <==> old(offset) + |data| < 65536
      ensures old(offset) + |data| >= 65536 ==>
                offset == (var rest := old(offset) + |data| - 65536; if rest < 16384 then rest else 0)
    {
      if buffer.Length - offset > |data| {
        Copy(data);
        return;
      }
      ghost var all := Contents() + data;
      var bufRemainSize := buffer.Length - offset;
      Copy(data[..bufRemainSize]);
      FlushBuffer();
      assert data == data[..bufRemainSize] + data[bufRemainSize..];
      assert file + data[bufRemainSize..] == all;
      var dataRemainSize := |data| - bufRemainSize;
      if dataRemainSize < BUFFER_SIZE / 4 {
        Copy(data[bufRemainSize..]);
      } else {
        WriteDirect(data[bufRemainSize..]);
      }
    }

    /** Any run of appends, flushed: the file alone holds all of it, in order. */
    method AppendAll(parts: seq<Bytes>)
      requires Valid()
      modifies this, buffer
      ensures Valid() && offset == 0 && file == old(Contents()) + Joined(parts)
    {
      var i := 0;
      while i < |parts|
        invariant i <= |parts| && Valid()
        invariant Contents() == old(Contents()) + Joined(parts[..i])
      {
        Append(parts[i]);
        assert parts[..i + 1][..i] == parts[..i];
        i := i + 1;
      }
      assert parts[..i] == parts;
      FlushBuffer();
    }
  }
}
