/** The byte buffer: a vector with a read and a write index, which slides its contents to the
    front before it grows. */
module ByteBuffer {
  import opened Bytes

  const CHEAP_PREPEND := 8
  const INITIAL_SIZE := 1024
  const EXTRA_SIZE := 65536

  /** Where "\r\n" starts in `s`. */
  predicate CrlfAt(s: seq<Byte>, i: int) {
    0 <= i && i + 1 < |s| && s[i] == 13 && s[i + 1] == 10
  }

  /** What readv yields: the bytes that came, or an error number. */
  datatype Readv = Got(bytes: seq<Byte>) | Failed(errno: int)

  class Buffer {
    var buffer: array<Byte>
    var readerIndex: nat
    var writerIndex: nat

    ghost predicate Valid()
      reads this
    {
      readerIndex <= writerIndex <= buffer.Length && CHEAP_PREPEND <= buffer.Length
    }

    /** The readable bytes. */
    ghost function Contents(): (s: seq<Byte>)
      requires Valid()
      reads this, buffer
      ensures |s| == writerIndex - readerIndex
    {
      buffer[readerIndex..writerIndex]
    }

    constructor (initialSize: nat := INITIAL_SIZE)
      ensures Valid() && fresh(buffer) && Contents() == []
      ensures readerIndex == CHEAP_PREPEND && WritableBytes() == initialSize
    {
      buffer := new Byte[CHEAP_PREPEND + initialSize](_ => 0);
      readerIndex, writerIndex := CHEAP_PREPEND, CHEAP_PREPEND;
    }

    function ReadableBytes(): (n: nat)
      requires Valid()
      reads this, buffer
      ensures n == |Contents()|
    {
      writerIndex - readerIndex
    }

    function WritableBytes(): nat
      requires Valid()
      reads this
    {
      buffer.Length - writerIndex
    }

    method Retrieve(len: nat)
      requires Valid() && len <= |Contents()|
      modifies this
      ensures Valid() && buffer == old(buffer)
      ensures Contents() == old(Contents())[len..]
      ensures readerIndex >= old(readerIndex) || readerIndex == CHEAP_PREPEND
    {
      if len < ReadableBytes() {
        readerIndex := readerIndex + len;
      } else {
        RetrieveAll();
      }
    }

    method RetrieveAll()
      requires Valid()
      modifies this
      ensures Valid() && buffer == old(buffer)
      ensures Contents() == [] && readerIndex == CHEAP_PREPEND
    {
      readerIndex, writerIndex := CHEAP_PREPEND, CHEAP_PREPEND;
    }

    method Unwrite(len: nat)
      requires Valid() && len <= |Contents()|
      modifies this
      ensures Valid() && buffer == old(buffer) && readerIndex == old(readerIndex)
      ensures Contents() == old(Contents())[..|old(Contents())| - len]
    {
      writerIndex := writerIndex - len;
    }

    /** Moves the readable bytes to the front, or makes the vector longer. */
    method MakeSpace(len: nat)
      requires Valid() && WritableBytes() < len
      modifies this, buffer
      ensures Valid() && (buffer == old(buffer) || fresh(buffer))
      ensures Contents() == old(Contents()) && WritableBytes() >= len
      ensures readerIndex == old(readerIndex) || readerIndex == CHEAP_PREPEND < old(readerIndex)
    {
      ghost var was := Contents();
      if WritableBytes() + readerIndex < len + CHEAP_PREPEND {
        Resize(writerIndex + len);
      } else {
        assert CHEAP_PREPEND < readerIndex;
        var readable := ReadableBytes();
        var i := 0;
        while i < readable
          invariant 0 <= i <= readable
          invariant buffer == old(buffer) && readerIndex == old(readerIndex) && writerIndex == old(writerIndex)
          invariant forall k :: 0 <= k < i ==> buffer[CHEAP_PREPEND + k] == was[k]
          invariant forall k :: i <= k < readable ==> buffer[readerIndex + k] == was[k]
        {
          buffer[CHEAP_PREPEND + i] := buffer[readerIndex + i];
          i := i + 1;
        }
        readerIndex := CHEAP_PREPEND;
        writerIndex := readerIndex + readable;
      }
    }

    /** The vector's resize to a larger size. */
    method Resize(size: nat)
      requires Valid() && buffer.Length <= size
      modifies this
      ensures Valid() && fresh(buffer) && buffer.Length == size
      ensures readerIndex == old(readerIndex) && writerIndex == old(writerIndex)
      ensures Contents() == old(Contents())
    {
      var larger := new Byte[size](_ => 0);
      var i := 0;
      while i < buffer.Length
        invariant 0 <= i <= buffer.Length && buffer == old(buffer)
        invariant readerIndex == old(readerIndex) && writerIndex == old(writerIndex)
        invariant forall k :: 0 <= k < i ==> larger[k] == buffer[k]
      {
        larger[i] := buffer[i];
        i := i + 1;
      }
      buffer := larger;
    }

    method EnsureWritableBytes(len: nat)
      requires Valid()
      modifies this, buffer
      ensures Valid() && (buffer == old(buffer) || fresh(buffer))
      ensures Contents() == old(Contents()) && WritableBytes() >= len
      ensures old(WritableBytes()) >= len ==> WritableBytes() == old(WritableBytes())
      ensures readerIndex == old(readerIndex) || readerIndex == CHEAP_PREPEND < old(readerIndex)
    {
      if WritableBytes() < len {
        MakeSpace(len);
      }
    }

    method Append(data: seq<Byte>)
      requires Valid()
      modifies this, buffer
      ensures Valid() && (buffer == old(buffer) || fresh(buffer))
      ensures Contents() == old(Contents()) + data
      ensures old(WritableBytes()) >= |data| ==> WritableBytes() == old(WritableBytes()) - |data|
      ensures readerIndex == old(readerIndex) || readerIndex == CHEAP_PREPEND < old(readerIndex)
    {
      ghost var was := Contents();
      EnsureWritableBytes(|data|);
      assert Contents() == was;
      Write(writerIndex, data);
      assert Contents() == was;
      writerIndex := writerIndex + |data|;
      assert Contents() == was + data;
    }

    /** Copies `data` into the vector from index `at` on. */
    method Write(at: nat, data: seq<Byte>)
      requires at + |data| <= buffer.Length
      modifies buffer
      ensures buffer[at..at + |data|] == data
      ensures forall k :: 0 <= k < buffer.Length && !(at <= k < at + |data|) ==> buffer[k] == old(buffer[k])
    {
      var i := 0;
      while i < |data|
        invariant 0 <= i <= |data|
        invariant forall k :: 0 <= k < i ==> buffer[at + k] == data[k]
        invariant forall k :: 0 <= k < buffer.Length && !(at <= k < at + |data|) ==> buffer[k] == old(buffer[k])
      {
        buffer[at + i] := data[i];
        i := i + 1;
      }
    }

    method Prepend(data: seq<Byte>)
      requires Valid() && |data| <= readerIndex
      modifies this, buffer
      ensures Valid() && buffer == old(buffer)
      ensures Contents() == data + old(Contents())
      ensures readerIndex == old(readerIndex) - |data|
    {
      readerIndex := readerIndex - |data|;
      Write(readerIndex, data);
    }

    method Shrink(reserve: nat)
      requires Valid()
      modifies this
      ensures Valid() && fresh(buffer)
      ensures Contents() == old(Contents()) && WritableBytes() >= reserve
      ensures readerIndex == CHEAP_PREPEND
    {
      var other := new Buffer();
      other.EnsureWritableBytes(ReadableBytes() + reserve);
      other.Append(buffer[readerIndex..writerIndex]);
      buffer, readerIndex, writerIndex := other.buffer, other.readerIndex, other.writerIndex;
    }

    /** How much readv is offered: the vector's tail, and an array outside the buffer when the tail
        is the smaller one. */
    function Room(): nat
      requires Valid()
      reads this
    {
      WritableBytes() + if WritableBytes() < EXTRA_SIZE then EXTRA_SIZE else 0
    }

    /** Reads what the kernel has: into the vector's tail first, and what does not fit there
        by way of an array outside the buffer. A failure leaves everything but the error number. */
    method ReadFd(res: Readv, errno: int) returns (n: int, savedErrno: int)
      requires Valid() && (res.Got? ==> |res.bytes| <= Room())
      modifies this, buffer
      ensures Valid() && (buffer == old(buffer) || fresh(buffer))
      ensures res.Got? ==> n == |res.bytes| && savedErrno == errno && Contents() == old(Contents()) + res.bytes
      ensures res.Failed? ==> n < 0 && savedErrno == res.errno && Contents() == old(Contents())
      ensures readerIndex == old(readerIndex) || readerIndex == CHEAP_PREPEND < old(readerIndex)
    {
      var writable := WritableBytes();
      n, savedErrno := if res.Got? then |res.bytes| else -1, errno;
      if n < 0 {
        savedErrno := res.errno;
      } else if n <= writable {
        Write(writerIndex, res.bytes);
        writerIndex := writerIndex + n;
      } else {
        ghost var was := Contents();
        Write(writerIndex, res.bytes[..writable]);
        writerIndex := buffer.Length;
        assert Contents() == was + res.bytes[..writable];
        Append(res.bytes[writable..]);
        assert res.bytes == res.bytes[..writable] + res.bytes[writable..];
      }
    }

    method PeekInt(width: nat) returns (x: int)
      requires Valid() && 0 < width <= |Contents()|
      ensures x == DecodeInt(Contents()[..width])
    {
      x := DecodeInt(buffer[readerIndex..readerIndex + width]);
      assert Contents()[..width] == buffer[readerIndex..readerIndex + width];
    }

    method ReadInt(width: nat) returns (x: int)
      requires Valid() && 0 < width <= |Contents()|
      modifies this
      ensures Valid() && buffer == old(buffer)
      ensures x == DecodeInt(old(Contents())[..width]) && Contents() == old(Contents())[width..]
    {
      x := PeekInt(width);
      Retrieve(width);
    }

    method AppendInt(x: int, width: nat)
      requires Valid() && Fits(x, width)
      modifies this, buffer
      ensures Valid() && (buffer == old(buffer) || fresh(buffer))
      ensures Contents() == old(Contents()) + EncodeInt(x, width)
    {
      Append(EncodeInt(x, width));
    }

    /** Where the first line end starts, counted from the first readable byte; -1 if there is none. */
    method FindCrlf() returns (at: int)
      requires Valid()
      ensures at == -1 ==> forall i :: !CrlfAt(Contents(), i)
      ensures at != -1 ==> CrlfAt(Contents(), at) && forall i :: i < at ==> !CrlfAt(Contents(), i)
    {
      at := 0;
      while at + 1 < ReadableBytes()
        invariant 0 <= at
        invariant forall i :: i < at ==> !CrlfAt(Contents(), i)
      {
        if buffer[readerIndex + at] == 13 && buffer[readerIndex + at + 1] == 10 {
          return;
        }
        at := at + 1;
      }
      at := -1;
    }
  }
}
