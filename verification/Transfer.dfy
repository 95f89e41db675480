/** The loops that turn short and interrupted transfers into whole ones. */
module Transfer {
  import opened Bytes
  import opened Errors
  import opened FlatView
  import opened Bridges

  /** Reads `size` bytes at `offset` into the front of the buffer, or returns a negative errno.
      How the transfer was cut up does not show, and no other byte of the buffer changes. */
  method PreadAll(bridge: Bridge, fd: int, buffer: array<byte>, size: nat, offset: nat, ghost path: string)
    returns (result: int)
    requires bridge.Valid() && bridge.Denotes(fd, path) && size <= buffer.Length
    modifies bridge`interrupts, bridge`faults, buffer
    ensures bridge.faults >= old(bridge.faults)
    ensures bridge.Valid() && bridge.Untouched()
    ensures result == size || result < 0
    // It fails of its own accord only if the file ends too early.
    ensures result < 0 && bridge.faults == old(bridge.faults) ==> offset + size > |bridge.Contents()[path]|
    ensures result >= 0 && size > 0 ==> offset + size <= |bridge.Contents()[path]|
    ensures result >= 0 ==>
              forall k :: 0 <= k < size ==> buffer[k] == ByteOrZero(bridge.Contents()[path], offset + k)
    ensures forall k :: size <= k < buffer.Length ==> buffer[k] == old(buffer[k])
  {
    var transferred: nat := 0;
    while transferred < size
      invariant transferred <= size
      invariant bridge.Valid() && bridge.Untouched() && bridge.faults >= old(bridge.faults)
      invariant transferred > 0 ==> offset + transferred <= |bridge.Contents()[path]|
      invariant forall k :: 0 <= k < transferred ==> buffer[k] == ByteOrZero(bridge.Contents()[path], offset + k)
      invariant forall k :: size <= k < buffer.Length ==> buffer[k] == old(buffer[k])
      decreases size - transferred, bridge.interrupts
    {
      var n, errno := bridge.Pread(fd, buffer, transferred, size - transferred, offset + transferred, path);
      if n < 0 && errno == EINTR {
        continue;
      }
      if n < 0 {
        return -(if errno == 0 then EIO else errno);
      }
      if n == 0 || n > size - transferred {
        return -EIO;
      }
      transferred := transferred + n;
    }
    return transferred;
  }

  /** Writes the first `size` bytes of the buffer at `offset`, or returns a negative errno after
      a prefix of them, `written` bytes long, was written. */
  method PwriteAll(bridge: Bridge, fd: int, buffer: array<byte>, size: nat, offset: nat, ghost path: string)
    returns (result: int, ghost written: nat)
    requires bridge.Valid() && bridge.Denotes(fd, path) && bridge.handles[fd].writable && size <= buffer.Length
    modifies bridge`interrupts, bridge`bodies, bridge`faults
    ensures bridge.faults >= old(bridge.faults)
    ensures bridge.Valid() && bridge.names == old(bridge.names) && bridge.handles == old(bridge.handles)
    ensures result == size || result < 0
    ensures result < 0 ==> bridge.faults > old(bridge.faults)
    ensures written <= size && (result >= 0 ==> written == size)
    ensures path in old(bridge.Contents())
    ensures bridge.Contents() ==
            old(bridge.Contents())[path := WriteAt(old(bridge.Contents())[path], offset, buffer[..written])]
  {
    hide *;
    ErrnoPositive();
    var transferred: nat := 0;
    ghost var before := bridge.Contents();
    bridge.DenotesContents(fd, path);
    WriteAtNothing(before, path, offset, buffer[..0]);
    while transferred < size
      invariant transferred <= size
      invariant bridge.Denotes(fd, path) && fd in bridge.handles && bridge.handles[fd].writable
      invariant bridge.Valid() && bridge.names == old(bridge.names) && bridge.handles == old(bridge.handles)
      invariant bridge.Contents() == before[path := WriteAt(before[path], offset, buffer[..transferred])]
      invariant bridge.faults >= old(bridge.faults)
      decreases size - transferred, bridge.interrupts
    {
      var n, errno := bridge.Pwrite(fd, buffer, transferred, size - transferred, offset + transferred, path);
      if n < 0 && errno == EINTR {
        continue;
      }
      if n < 0 {
        return -(if errno == 0 then EIO else errno), transferred;
      }
      if n == 0 || n > size - transferred {
        return -EIO, transferred;
      }
      WriteAtConcat(before[path], offset, buffer[..transferred], buffer[transferred..transferred + n]);
      assert buffer[..transferred] + buffer[transferred..transferred + n] == buffer[..transferred + n];
      transferred := transferred + n;
    }
    return transferred, transferred;
  }
}
