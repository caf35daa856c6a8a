/** The compacting receive buffer. */
module RecvBuffers {
  import opened CoreValues

  const BUFFER_COUNT := 10

  class RecvBuffer {
    const bufferSize: nat
    const buffer: array<Byte>
    var readPos: nat
    var writePos: nat

    ghost predicate Valid()
      reads this
    {
      readPos <= writePos <= buffer.Length == bufferSize * BUFFER_COUNT
    }

    /** The unread bytes. */
    ghost function Contents(): seq<Byte>
      requires Valid()
      reads this, buffer
    {
      buffer[readPos..writePos]
    }

    function DataSize(): nat
      requires Valid()
      reads this
    {
      writePos - readPos
    }

    function FreeSize(): nat
      requires Valid()
      reads this
    {
      buffer.Length - writePos
    }

    constructor (bufferSize: nat)
      ensures Valid() && Contents() == [] && fresh(buffer)
      ensures this.bufferSize == bufferSize && readPos == writePos == 0
    {
      this.bufferSize := bufferSize;
      buffer := new Byte[bufferSize * BUFFER_COUNT](_ => 0);
      readPos, writePos := 0, 0;
    }

    /** memcpy to the front of the same array, byte by byte from the low end: source and
        target may overlap, and a shift towards lower addresses is still exact. */
    method ShiftDown(count: nat)
      requires Valid() && readPos + count <= buffer.Length
      modifies buffer
      ensures buffer[..count] == old(buffer[readPos..readPos + count])
      ensures buffer[count..] == old(buffer[count..])
    {
      var i := 0;
      while i < count
        invariant 0 <= i <= count
        invariant forall k :: 0 <= k < i ==> buffer[k] == old(buffer[readPos + k])
        invariant forall k :: i <= k < buffer.Length ==> buffer[k] == old(buffer[k])
      {
        buffer[i] := buffer[readPos + i];
        i := i + 1;
      }
    }

    /** The unread bytes survive; they move to the front exactly when more than
        bufferSize bytes are still free, and an empty buffer starts over. */
    method Clean()
      requires Valid()
      modifies this, buffer
      ensures Valid() && Contents() == old(Contents())
      ensures readPos == if old(DataSize() == 0 || FreeSize() > bufferSize) then 0 else old(readPos)
    {
      var dataSize := DataSize();
      if dataSize == 0 {
        readPos, writePos := 0, 0;
      } else if FreeSize() > bufferSize {
        ShiftDown(dataSize);
        readPos := 0;
        writePos := dataSize;
      }
    }

    method OnRead(numOfBytes: nat) returns (ok: bool)
      requires Valid()
      modifies this`readPos
      ensures Valid() && ok == (numOfBytes <= old(DataSize()))
      ensures Contents() == if ok then old(Contents())[numOfBytes..] else old(Contents())
    {
      if numOfBytes > DataSize() {
        return false;
      }
      readPos := readPos + numOfBytes;
      return true;
    }

    /** Takes in bytes the kernel has already placed behind writePos. */
    method OnWrite(numOfBytes: nat) returns (ok: bool)
      requires Valid()
      modifies this`writePos
      ensures Valid() && ok == (numOfBytes <= old(FreeSize()))
      ensures writePos == old(writePos) + if ok then numOfBytes else 0
      ensures Contents() == old(Contents()) + buffer[old(writePos)..writePos]
    {
      if numOfBytes > FreeSize() {
        return false;
      }
      writePos := writePos + numOfBytes;
      return true;
    }
  }
}
