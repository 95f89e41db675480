/** Copying one public file to another path. */
module PublicCopy {
  import opened Bytes
  import opened Errors
  import opened Layout
  import opened Paths
  import opened FlatView
  import opened Bridges
  import opened Directories
  import opened Transfer

  /** What a copy loop has written when `copied` bytes of `data` went to `offset`. */
  function Partly(store: Store, path: string, offset: nat, data: seq<byte>, copied: nat): Store
    requires path in store && copied <= |data|
  {
    store[path := WriteAt(store[path], offset, data[..copied])]
  }

  /** A chunk read into the buffer and written behind the ones before. */
  lemma NextChunk(store: Store, path: string, offset: nat, data: seq<byte>, copied: nat, chunk: seq<byte>, after: Store)
    requires path in store && copied + |chunk| <= |data|
    requires forall k :: 0 <= k < |chunk| ==> chunk[k] == ByteOrZero(data, copied + k)
    requires
      var before := Partly(store, path, offset, data, copied);
      after == before[path := WriteAt(before[path], offset + copied, chunk)]
    ensures after == Partly(store, path, offset, data, copied + |chunk|)
  {
    assert chunk == data[copied..copied + |chunk|];
    WriteAtConcat(store[path], offset, data[..copied], chunk);
    assert data[..copied] + chunk == data[..copied + |chunk|];
  }

  lemma NoChunk(store: Store, path: string, offset: nat, data: seq<byte>)
    requires path in store
    ensures Partly(store, path, offset, data, 0) == store
  {
  }

  lemma PartlyOutside(store: Store, path: string, offset: nat, data: seq<byte>, copied: nat)
    requires path in store && copied <= |data|
    ensures SameOutside(store, Partly(store, path, offset, data, copied), {path})
    ensures path in Partly(store, path, offset, data, copied)
    ensures forall p :: p != path && p in store ==>
                          && p in Partly(store, path, offset, data, copied)
                          && Partly(store, path, offset, data, copied)[p] == store[p]
  {
  }

  /** Copying does not disturb what is still to be read, even of a file copied onto itself. */
  lemma ReadsOn(store: Store, from: string, to: string, copied: nat)
    requires from in store && to in store && copied <= |store[from]|
    ensures from in Partly(store, to, 0, store[from], copied)
    ensures Partly(store, to, 0, store[from], copied)[from] == store[from]
  {
    if from == to {
      SameBytes(WriteAt(store[to], 0, store[from][..copied]), store[to]);
    }
  }

  lemma CutToSize(store: Store, path: string, data: seq<byte>)
    requires path in store && |store[path]| == |data|
    ensures Partly(store, path, 0, data, |data|) == store[path := data]
  {
    assert data[..|data|] == data;
    WriteAtWhole(store[path], data);
  }

  /** The chunk loop: after `copied` bytes the destination holds them, written at its start. */
  method CopyLoop(bridge: Bridge, source: int, destination: int, size: nat, index: int,
                  ghost from: string, ghost to: string)
    returns (ok: bool, error: StorageError)
    requires bridge.Valid()
    requires bridge.Denotes(source, from) && bridge.Denotes(destination, to) && bridge.handles[destination].writable
    modifies bridge`interrupts, bridge`bodies, bridge`faults
    ensures bridge.faults >= old(bridge.faults)
    ensures bridge.Valid() && bridge.names == old(bridge.names) && bridge.handles == old(bridge.handles)
    ensures ok <==> error.NoError?
    ensures
      var before := old(bridge.Contents());
      && from in before && to in before
      && SameOutside(before, bridge.Contents(), {to})
      && (ok ==> size <= |before[from]| && bridge.Contents() == Partly(before, to, 0, before[from][..size], size))
      && (!ok && bridge.faults == old(bridge.faults) ==> size > |before[from]|)
  {
    hide *;
    ErrnoPositive();
    var buffer := new byte[DEFAULT_BLOCK_SIZE];
    ghost var before := bridge.Contents();
    bridge.DenotesContents(source, from);
    bridge.DenotesContents(destination, to);
    ghost var data := before[from];
    NoChunk(before, to, 0, data);
    var copied: nat := 0;
    PartlyOutside(before, to, 0, data, 0);
    while copied < size
      invariant copied <= size && (copied > 0 ==> copied <= |data|)
      invariant fresh(buffer) && buffer.Length == DEFAULT_BLOCK_SIZE
      invariant bridge.Valid() && bridge.names == old(bridge.names) && bridge.handles == old(bridge.handles)
      invariant bridge.Denotes(source, from) && bridge.Denotes(destination, to)
      invariant destination in bridge.handles && bridge.handles[destination].writable
      invariant bridge.Contents() == Partly(before, to, 0, data, copied)
      invariant bridge.faults >= old(bridge.faults)
    {
      BlockSizePositive();
      PartlyOutside(before, to, 0, data, copied);
      ReadsOn(before, from, to, copied);
      var length := Min(buffer.Length, size - copied);
      var result := PreadAll(bridge, source, buffer, length, copied, from);
      if result < 0 {
        return false, MakeError(result, index, FileRead);
      }
      ghost var written;
      result, written := PwriteAll(bridge, destination, buffer, length, copied, to);
      NextChunk(before, to, 0, data, copied, buffer[..written], bridge.Contents());
      PartlyOutside(before, to, 0, data, copied + written);
      if result < 0 {
        return false, MakeError(result, index, FileWrite);
      }
      copied := copied + length;
    }
    PartlyOutside(before, to, 0, data, copied);
    SamePart(before, to, data, size);
    return true, NoError;
  }

  lemma BlockSizePositive()
    ensures DEFAULT_BLOCK_SIZE > 0
  {
  }

  lemma SamePart(store: Store, path: string, data: seq<byte>, size: nat)
    requires path in store
    ensures size <= |data| ==> Partly(store, path, 0, data[..size], size) == Partly(store, path, 0, data, size)
  {
    if size <= |data| {
      assert data[..size][..size] == data[..size];
    }
  }

  /** Files outside `gone` keep their identities; new ones may have come. */
  predicate NamesKeptOutside(names: map<string, nat>, names': map<string, nat>, gone: set<string>) {
    forall p :: p in names && p !in gone ==> p in names' && names'[p] == names[p]
  }

  predicate NamesKept(names: map<string, nat>, names': map<string, nat>) {
    NamesKeptOutside(names, names', {})
  }

  lemma NamesKeptNone(names: map<string, nat>, gone: set<string>)
    ensures NamesKeptOutside(names, names, gone)
  {
  }

  lemma NamesKeptMinus(a: map<string, nat>, b: map<string, nat>, gone: set<string>, path: string)
    requires NamesKeptOutside(a, b, gone) && path in gone
    ensures NamesKeptOutside(a, b - {path}, gone)
  {
  }

  lemma NamesKeptWider(a: map<string, nat>, b: map<string, nat>, gone: set<string>)
    requires NamesKept(a, b)
    ensures NamesKeptOutside(a, b, gone)
  {
  }

  /** What the copy of a file is measured against: the source's first bytes, all of them there. A
      file copied onto itself is brought to the size. */
  ghost predicate Copied(before: Store, after: Store, from: string, to: string, size: nat) {
    && from in before && (size <= |before[from]| || from == to)
    && after == before[to := Resize(before[from], size)]
  }

  /** The source ends before the bytes to be copied; a file copied onto itself never does, being cut
      or extended first. */
  ghost predicate ShortSource(before: Store, from: string, to: string, size: nat) {
    from in before && from != to && size > |before[from]|
  }

  lemma ShortWas(before: Store, mid: Store, cut: Store, from: string, to: string, size: nat)
    requires from in before && from in cut && size > |cut[from]|
    requires mid == if to in before then before else before[to := []]
    requires cut == mid[to := Resize(mid[to], size)]
    ensures ShortSource(before, from, to, size)
  {
  }

  lemma CopiedWhole(before: Store, mid: Store, cut: Store, after: Store, from: string, to: string, size: nat)
    requires from in before
    requires mid == if to in before then before else before[to := []]
    requires cut == mid[to := Resize(mid[to], size)]
    requires size <= |cut[from]| && after == Partly(cut, to, 0, cut[from][..size], size)
    ensures Copied(before, after, from, to, size)
  {
    SameBytes(cut[from][..size], Resize(before[from], size));
    CutToSize(cut, to, cut[from][..size]);
  }

  lemma TouchedOne(before: Store, mid: Store, after: Store, to: string)
    requires mid == if to in before then before else before[to := []]
    requires SameOutside(mid, after, {to})
    ensures SameOutside(before, after, {to})
  {
  }

  lemma TouchedTwo(before: Store, mid: Store, body: seq<byte>, after: Store, to: string)
    requires mid == if to in before then before else before[to := []]
    requires SameOutside(mid[to := body], after, {to})
    ensures SameOutside(before, after, {to})
  {
  }

  lemma HandlesRestored(before: map<int, Handle>, during: map<int, Handle>, fd: int)
    requires fd !in before && during.Keys == before.Keys + {fd}
    requires forall h :: h in before ==> during[h] == before[h]
    ensures during - {fd} == before
  {
    var after := during - {fd};
    assert after.Keys == before.Keys;
    assert forall h :: h in before ==> after[h] == during[h] == before[h];
  }

  /** Opens, cuts and fills the destination; its descriptor is closed on every way out. */
  method CopyTo(bridge: Bridge, source: int, from: string, to: string, size: nat, index: int)
    returns (ok: bool, error: StorageError)
    requires bridge.Valid() && bridge.Denotes(source, from)
    modifies bridge`names, bridge`bodies, bridge`handles, bridge`interrupts, bridge`faults
    ensures bridge.faults >= old(bridge.faults)
    ensures bridge.Valid() && bridge.handles == old(bridge.handles) && NamesKept(old(bridge.names), bridge.names)
    ensures ok <==> error.NoError?
    ensures ok ==> Copied(old(bridge.Contents()), bridge.Contents(), from, to, size)
    ensures !ok && bridge.faults == old(bridge.faults) ==> ShortSource(old(bridge.Contents()), from, to, size)
    ensures SameOutside(old(bridge.Contents()), bridge.Contents(), {to})
  {
    hide *;
    bridge.DenotesContents(source, from);
    bridge.NamesContents(to);
    ghost var before, handles := bridge.Contents(), bridge.handles;
    NothingTouched(before, {to});
    NamesKeptSame(bridge.names);
    var destination := bridge.OpenFile(to, ReadWrite);
    if destination < 0 {
      return false, MakeError(destination, index, FileWrite);
    }
    ghost var mid := bridge.Contents();
    NamesKeptIntro(old(bridge.names), bridge.names);
    bridge.StillDenotes(source, from, old(bridge.handles), old(bridge.names));
    HandlesRestored(handles, bridge.handles, destination);
    var result, errno := bridge.Ftruncate(destination, size, to);
    if result != 0 {
      NothingTouched(mid, {to});
      TouchedOne(before, mid, bridge.Contents(), to);
      bridge.Close(destination);
      return false, MakeError(-errno, index, FileTruncate);
    }
    ghost var cut := bridge.Contents();
    ok, error := CopyLoop(bridge, source, destination, size, index, from, to);
    TouchedTwo(before, mid, cut[to], bridge.Contents(), to);
    if ok {
      CopiedWhole(before, mid, cut, bridge.Contents(), from, to, size);
    } else if size > |cut[from]| {
      ShortWas(before, mid, cut, from, to, size);
    }
    bridge.Close(destination);
  }

  lemma NothingTouched(store: Store, touched: set<string>)
    ensures SameOutside(store, store, touched)
  {
  }

  lemma NamesKeptSame(names: map<string, nat>)
    ensures NamesKept(names, names)
  {
  }

  lemma NamesKeptIntro(names: map<string, nat>, names': map<string, nat>)
    requires forall p :: p in names ==> p in names' && names'[p] == names[p]
    ensures NamesKept(names, names')
  {
  }

  /** Copies a public file. On success the destination is exactly the first `size` bytes of the
      source, whatever it was before; on failure only the destination may have changed. Either way
      no descriptor is left open. */
  method CopyPublicFile(bridge: Bridge, from: string, to: string, size: nat, index: int)
    returns (ok: bool, error: StorageError)
    requires bridge.Valid()
    modifies bridge`names, bridge`bodies, bridge`handles, bridge`directories, bridge`interrupts, bridge`faults
    ensures bridge.faults >= old(bridge.faults)
    ensures bridge.Valid() && bridge.handles == old(bridge.handles) && NamesKept(old(bridge.names), bridge.names)
    ensures ok <==> error.NoError?
    ensures ok ==> Safe(from) && Safe(to) && Copied(old(bridge.Contents()), bridge.Contents(), from, to, size)
    // Paths and source alone decide whether it works, unless the bridge fails.
    ensures !ok && bridge.faults == old(bridge.faults) ==>
              !Safe(from) || !Safe(to) || from !in old(bridge.Contents()) ||
              ShortSource(old(bridge.Contents()), from, to, size)
    ensures SameOutside(old(bridge.Contents()), bridge.Contents(), {to})
  {
    hide *;
    NothingTouched(bridge.Contents(), {to});
    NamesKeptSame(bridge.names);
    InvalidArgumentFails(index, FileRename);
    var safe := SafeRelativePath(from);
    if safe {
      safe := SafeRelativePath(to);
    }
    if !safe {
      return false, InvalidArgument(index, FileRename);
    }
    ghost var asked;
    ok, error, asked := EnsureParentDirectories(bridge, to, index);
    if !ok {
      return;
    }
    ghost var handles := bridge.handles;
    bridge.NamesContents(from);
    var source := bridge.OpenFile(from, ReadOnly);
    if source < 0 {
      return false, MakeError(source, index, FileRead);
    }
    HandlesRestored(handles, bridge.handles, source);
    NamesKeptIntro(old(bridge.names), bridge.names);
    ghost var names := bridge.names;
    ok, error := CopyTo(bridge, source, from, to, size, index);
    NamesKeptTransitive(old(bridge.names), names, bridge.names);
    bridge.Close(source);
  }

  lemma NamesKeptTransitive(a: map<string, nat>, b: map<string, nat>, c: map<string, nat>)
    requires NamesKept(a, b) && NamesKept(b, c)
    ensures NamesKept(a, c)
  {
  }
}
