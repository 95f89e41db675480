/** The bounded cache of open descriptors. */
module DescriptorCaches {
  import opened Bytes
  import opened Errors
  import opened Paths
  import opened FlatView
  import opened Bridges
  import opened Directories
  import opened Descriptors

  class DescriptorCache {
    const bridge: Bridge
    var descriptors: seq<OpenDescriptor>
    var descriptorLimit: int
    var useCounter: nat
    // The same entries, least recently used first.
    ghost var recency: seq<OpenDescriptor>

    ghost predicate Valid()
      reads this, bridge`names, bridge`bodies, bridge`handles
    {
      && bridge.Valid()
      && descriptorLimit >= 1
      && CacheInv(descriptors, recency, useCounter, bridge.handles, bridge.names)
    }

    lemma ValidParts()
      requires Valid()
      ensures bridge.Valid() && descriptorLimit >= 1
      ensures CacheInv(descriptors, recency, useCounter, bridge.handles, bridge.names)
      ensures |descriptors| == |recency|
      ensures multiset(descriptors) == multiset(recency) && Apart(descriptors)
    {
      SameMembers(descriptors, recency);
    }

    lemma BridgeValid()
      requires Valid()
      ensures bridge.Valid()
    {
    }

    /** Writing through an open descriptor leaves the cache as it was. */
    twostate lemma StaysValid()
      requires old(Valid()) && bridge.Valid()
      requires descriptors == old(descriptors) && recency == old(recency) && useCounter == old(useCounter)
      requires descriptorLimit == old(descriptorLimit)
      requires bridge.names == old(bridge.names) && bridge.handles == old(bridge.handles)
      ensures Valid()
    {
    }

    /** So does giving names to, or taking them from, files that are not in it. */
    twostate lemma SurvivesNames()
      requires old(Valid()) && bridge.Valid()
      requires descriptors == old(descriptors) && recency == old(recency) && useCounter == old(useCounter)
      requires descriptorLimit == old(descriptorLimit) && bridge.handles == old(bridge.handles)
      requires forall d :: d in descriptors && d.path in old(bridge.names) ==>
                             d.path in bridge.names && bridge.names[d.path] == old(bridge.names)[d.path]
      ensures Valid()
    {
      OtherNames(descriptors, recency, useCounter, bridge.handles, old(bridge.names), bridge.names);
    }

    lemma ValidFromParts()
      requires bridge.Valid() && descriptorLimit >= 1
      requires CacheInv(descriptors, recency, useCounter, bridge.handles, bridge.names)
      ensures Valid()
    {
    }

    constructor (bridge: Bridge, filePoolSize: int)
      requires bridge.Valid() && bridge.handles == map[]
      ensures Valid() && this.bridge == bridge && descriptors == []
    {
      this.bridge := bridge;
      descriptors, recency, useCounter := [], [], 0;
      descriptorLimit := Max(1, filePoolSize);
    }

    method SettingsUpdated(filePoolSize: int)
      requires Valid()
      modifies this`descriptorLimit
      ensures Valid() && descriptorLimit == Max(1, filePoolSize)
    {
      descriptorLimit := Max(1, filePoolSize);
    }

    /** Closes the m-th entry's descriptor and takes the entry out. */
    method Erase(m: nat)
      requires Valid() && m < |descriptors|
      modifies this`descriptors, this`recency, bridge`handles
      ensures Valid() && bridge.Contents() == old(bridge.Contents())
      ensures descriptors == EraseAt(old(descriptors), m)
      ensures recency == Drop(old(recency), OfKey(old(descriptors)[m].Key()))
    {
      EraseInv(descriptors, recency, useCounter, bridge.handles, bridge.names, m);
      bridge.Close(descriptors[m].descriptor);
      recency := Drop(recency, OfKey(descriptors[m].Key()));
      descriptors := EraseAt(descriptors, m);
    }

    /** Evicts the least recently used entry. */
    method EvictOne()
      requires Valid()
      modifies this`descriptors, this`recency, bridge`handles
      ensures Valid() && bridge.Contents() == old(bridge.Contents())
      ensures old(descriptors) == [] ==> descriptors == [] && recency == []
      ensures old(descriptors) != [] ==>
                && recency == old(recency)[1..]
                && descriptors == Drop(old(descriptors), OfKey(old(recency)[0].Key()))
                && |descriptors| == |old(descriptors)| - 1
    {
      SameMembers(descriptors, recency);
      if descriptors == [] {
        return;
      }
      var oldest := 0;
      for i := 1 to |descriptors|
        invariant oldest < |descriptors|
        invariant forall k :: 0 <= k < i ==> descriptors[oldest].lastUse <= descriptors[k].lastUse
      {
        if descriptors[i].lastUse < descriptors[oldest].lastUse {
          oldest := i;
        }
      }
      OldestIsFirst(descriptors, recency, useCounter, oldest);
      DropFirst(descriptors, recency);
      EraseIsDrop(descriptors, oldest);
      Erase(oldest);
    }

    /** The entries the selection does not match stay, in their order. */
    method CloseWhere(selection: Selection)
      requires Valid()
      modifies this`descriptors, this`recency, bridge`handles
      ensures Valid() && bridge.Contents() == old(bridge.Contents())
      ensures descriptors == Drop(old(descriptors), selection) && recency == Drop(old(recency), selection)
    {
      hide *;
      var i := 0;
      while i < |descriptors|
        invariant Valid() && bridge.Contents() == old(bridge.Contents())
        invariant i <= |descriptors|
        invariant forall k :: 0 <= k < i ==> !selection.Matches(descriptors[k])
        invariant Drop(descriptors, selection) == Drop(old(descriptors), selection)
        invariant Drop(recency, selection) == Drop(old(recency), selection)
        decreases |descriptors| - i
      {
        ValidParts();
        if selection.Matches(descriptors[i]) {
          EraseSelected(descriptors, recency, i, selection);
          forall k | 0 <= k < i
            ensures EraseAt(descriptors, i)[k] == descriptors[k]
          {
            ErasedBefore(descriptors, i, k);
          }
          Erase(i);
        } else {
          i := i + 1;
        }
      }
      ValidParts();
      NothingSelected(descriptors, recency, selection);
    }

    method CloseStorage(storage: nat)
      requires Valid()
      modifies this`descriptors, this`recency, bridge`handles
      ensures Valid() && bridge.Contents() == old(bridge.Contents())
      ensures descriptors == Drop(old(descriptors), OfStorage(storage))
    {
      CloseWhere(OfStorage(storage));
    }

    method CloseFile(storage: nat, file: int)
      requires Valid()
      modifies this`descriptors, this`recency, bridge`handles
      ensures Valid() && bridge.Contents() == old(bridge.Contents())
      ensures descriptors == Drop(old(descriptors), OfFile(storage, file))
    {
      CloseWhere(OfFile(storage, file));
    }

    /** After this no descriptor obtained from the bridge is open any more. */
    method CloseAll()
      requires Valid()
      modifies this`descriptors, this`recency, bridge`handles
      ensures Valid() && bridge.Contents() == old(bridge.Contents())
      ensures descriptors == [] && bridge.handles == map[]
    {
      CloseWhere(Everything);
      DropAll(old(descriptors));
    }

    /** The index of the entry with the key, or the number of entries. */
    method FindEntry(key: FileKey) returns (i: nat)
      requires Valid()
      ensures i <= |descriptors|
      ensures i < |descriptors| ==> descriptors[i].Key() == key
      ensures i == |descriptors| ==> key !in Keys(descriptors) && (forall d :: d in descriptors ==> d.Key() != key)
    {
      i := 0;
      while i < |descriptors|
        invariant i <= |descriptors|
        invariant forall k :: 0 <= k < i ==> descriptors[k].Key() != key
      {
        if descriptors[i].Key() == key {
          return;
        }
        i := i + 1;
      }
      KeyAbsent(descriptors, key);
    }

    /** A hit moves the entry to the end of the order of use. */
    method Touch(i: nat)
      requires Valid() && i < |descriptors|
      modifies this`descriptors, this`recency, this`useCounter
      ensures Valid() && Keys(descriptors) == Keys(old(descriptors))
      ensures |descriptors| == |old(descriptors)|
      ensures var d := old(descriptors)[i].(lastUse := old(useCounter) + 1);
              recency == Drop(old(recency), OfKey(d.Key())) + [d]
    {
      hide *;
      ValidParts();
      var d := descriptors[i].(lastUse := useCounter + 1);
      TouchInv(descriptors, recency, useCounter, bridge.handles, bridge.names, i);
      TouchKeys(descriptors, i, d);
      useCounter := d.lastUse;
      descriptors := descriptors[i := d];
      recency := Drop(recency, OfKey(d.Key())) + [d];
      ValidFromParts();
    }

    /** Evicts until there is room for one more; the limit being at least one, this ends. */
    method MakeRoom()
      requires Valid()
      modifies this`descriptors, this`recency, bridge`handles
      ensures Valid() && bridge.Contents() == old(bridge.Contents())
      ensures |descriptors| < descriptorLimit
      ensures Keys(descriptors) <= Keys(old(descriptors))
      ensures recency == MostRecent(old(recency), descriptorLimit)
    {
      hide *;
      ValidParts();
      ghost var n: nat := 0;
      while |descriptors| >= descriptorLimit
        invariant Valid() && bridge.Contents() == old(bridge.Contents())
        invariant n <= |old(recency)| && recency == old(recency)[n..] && |recency| == |descriptors|
        invariant n == 0 || |descriptors| + 1 >= descriptorLimit
        invariant Keys(descriptors) <= Keys(old(descriptors))
        decreases |descriptors|
      {
        KeysDrop(descriptors, OfKey(recency[0].Key()));
        EvictOne();
        ValidParts();
        n := n + 1;
      }
      MostRecentIs(old(recency), descriptorLimit, n);
    }

    /** Opens the file and enters its descriptor. */
    method OpenNew(key: FileKey, write: bool) returns (result: int)
      requires Valid() && key !in Keys(descriptors)
      modifies this`descriptors, this`recency, this`useCounter, bridge`names, bridge`bodies, bridge`handles
      modifies bridge`faults
      ensures bridge.faults >= old(bridge.faults)
      ensures Valid()
      ensures result < 0 ==>
                descriptors == old(descriptors) && recency == old(recency) && bridge.Contents() == old(bridge.Contents())
      ensures result < 0 && bridge.faults == old(bridge.faults) ==> !write && key.path !in old(bridge.Contents())
      ensures result >= 0 ==>
                && bridge.Contents() == Opened(old(bridge.Contents()), key.path, write)
                && Keys(descriptors) == Keys(old(descriptors)) + {key}
                && |descriptors| == |old(descriptors)| + 1
                && (write || key.path in old(bridge.names))
                && Entered(old(recency), key, result, write)
    {
      ghost var handles, names := bridge.handles, bridge.names;
      result := bridge.OpenFile(key.path, if write then ReadWrite else ReadOnly);
      if result < 0 {
        return;
      }
      Enter(OpenDescriptor(key.storage, key.file, key.path, result, write, useCounter + 1), handles, names);
    }

    /** Adds an entry for a descriptor opened since the tree had these names. */
    method Enter(d: OpenDescriptor, ghost handles: map<int, Handle>, ghost names: map<string, nat>)
      requires bridge.Valid() && descriptorLimit >= 1
      requires CacheInv(descriptors, recency, useCounter, handles, names)
      requires d.Key() !in Keys(descriptors) && d.descriptor !in handles && d.lastUse == useCounter + 1
      requires bridge.handles.Keys == handles.Keys + {d.descriptor} && Backed(d, bridge.handles, bridge.names)
      requires forall fd :: fd in handles ==> bridge.handles[fd] == handles[fd]
      requires forall p :: p in names ==> p in bridge.names && bridge.names[p] == names[p]
      modifies this`descriptors, this`recency, this`useCounter
      ensures Valid()
      ensures descriptors == old(descriptors) + [d] && recency == old(recency) + [d]
      ensures Keys(descriptors) == Keys(old(descriptors)) + {d.Key()}
    {
      PushInv(descriptors, recency, useCounter, handles, names, d, bridge.handles, bridge.names);
      FdsKeysAppend(descriptors, d);
      useCounter := d.lastUse;
      descriptors, recency := descriptors + [d], recency + [d];
    }

    /** The lookup ended with this entry, and these were left before it. */
    ghost predicate Entered(kept: seq<OpenDescriptor>, key: FileKey, descriptor: int, write: bool)
      reads this, bridge`names, bridge`bodies, bridge`handles
    {
      && recency != []
      && var newest := recency[|recency| - 1];
      && recency == kept + [newest]
      && newest.Key() == key && newest.descriptor == descriptor && (write ==> newest.writable)
      && bridge.Denotes(descriptor, key.path)
      && (write ==> bridge.handles[descriptor].writable)
    }

    /** The rest of a lookup that missed. */
    method OpenMissing(key: FileKey, write: bool, operation: Operation) returns (descriptor: int, error: StorageError)
      requires Valid() && key !in Keys(descriptors)
      modifies this`descriptors, this`recency, this`useCounter
      modifies bridge`names, bridge`bodies, bridge`handles, bridge`directories, bridge`faults
      ensures bridge.faults >= old(bridge.faults)
      ensures Valid()
      ensures descriptor < 0 <==> error.Failed?
      ensures error.Failed? ==> error.code.Errno?
      ensures error.Failed? ==> bridge.Contents() == old(bridge.Contents())
      ensures error.NoError? ==> bridge.Contents() == Opened(old(bridge.Contents()), key.path, write)
      ensures error.NoError? ==> write || key.path in old(bridge.Contents())
      ensures error.Failed? && bridge.faults == old(bridge.faults) ==>
                !Safe(key.path) || (!write && key.path !in old(bridge.Contents()))
      ensures Keys(descriptors) <= Keys(old(descriptors)) + {key}
      ensures error.NoError? ==>
                && |descriptors| <= descriptorLimit
                && Entered(MostRecent(old(recency), descriptorLimit), key, descriptor, write)
    {
      hide *;
      InvalidArgumentFails(key.file, operation);
      BridgeValid();
      bridge.NamesContents(key.path);
      if write {
        var ok, failure, _ := EnsureParentDirectories(bridge, key.path, key.file);
        if !ok {
          return -1, failure;
        }
      }
      var safe := SafeRelativePath(key.path);
      if !safe {
        return -1, InvalidArgument(key.file, operation);
      }
      MakeRoom();
      var result := OpenNew(key, write);
      if result < 0 {
        return -1, MakeError(result, key.file, operation);
      }
      return result, NoError;
    }

    /** Looks for an entry to use; one that is open for reading only is closed when the file is to
        be written. */
    method Reuse(key: FileKey, write: bool) returns (descriptor: int)
      requires Valid()
      modifies this`descriptors, this`recency, this`useCounter, bridge`handles
      ensures Valid() && bridge.Contents() == old(bridge.Contents())
      ensures descriptor >= 0 <==> Hit(old(recency), key, write)
      ensures descriptor >= 0 ==>
                && Entered(Drop(old(recency), OfKey(key)), key, descriptor, write)
                && Keys(descriptors) == Keys(old(descriptors)) && key in Keys(descriptors)
                && |descriptors| == |old(descriptors)|
      ensures descriptor < 0 ==>
                && recency == Drop(old(recency), OfKey(key))
                && Keys(descriptors) == Keys(old(descriptors)) - {key}
    {
      var i := FindEntry(key);
      SameMembers(descriptors, recency);
      if i == |descriptors| {
        DropNone(recency, OfKey(key));
        return -1;
      }
      var entry := descriptors[i];
      assert entry in recency && Backed(entry, bridge.handles, bridge.names);
      FdsKeysMembers(descriptors);
      if !write || entry.writable {
        Touch(i);
        return entry.descriptor;
      }
      OnlyEntry(descriptors, recency, i);
      KeysDrop(descriptors, OfKey(key));
      EraseIsDrop(descriptors, i);
      Erase(i);
      return -1;
    }

    /** Finds or makes an open descriptor for the file. */
    method OpenFile(storage: nat, file: int, path: string, write: bool, operation: Operation)
      returns (descriptor: int, error: StorageError)
      requires Valid()
      modifies this`descriptors, this`recency, this`useCounter
      modifies bridge`names, bridge`bodies, bridge`handles, bridge`directories, bridge`faults
      ensures bridge.faults >= old(bridge.faults)
      ensures Valid()
      ensures descriptor < 0 <==> error.Failed?
      ensures error.Failed? ==> error.code.Errno?
      ensures error.Failed? ==> bridge.Contents() == old(bridge.Contents())
      ensures error.NoError? ==> bridge.Contents() == Opened(old(bridge.Contents()), path, write)
      ensures error.NoError? ==> bridge.Denotes(descriptor, path) && (write ==> bridge.handles[descriptor].writable)
      ensures error.NoError? ==> write || path in old(bridge.Contents())
      // Unless the bridge fails, only an unsafe path or a missing file cannot be opened.
      ensures error.Failed? && bridge.faults == old(bridge.faults) ==>
                !Safe(path) || (!write && path !in old(bridge.Contents()))
      ensures Keys(descriptors) <= Keys(old(descriptors)) + {FileKey(storage, file, path)}
      ensures
        var key := FileKey(storage, file, path);
        && (error.NoError? ==> Entered(LruKept(old(recency), key, write, descriptorLimit), key, descriptor, write))
        && (error.NoError? && !Hit(old(recency), key, write) ==> |descriptors| <= descriptorLimit)
        && (error.Failed? ==> !Hit(old(recency), key, write))
    {
      var key := FileKey(storage, file, path);
      descriptor := Reuse(key, write);
      if descriptor >= 0 {
        error := NoError;
      } else {
        descriptor, error := OpenMissing(key, write, operation);
      }
    }
  }

  /** The tree after a file was opened: for writing it is created if missing. */
  function Opened(store: Store, path: string, write: bool): Store {
    if write && path !in store then store[path := []] else store
  }

  /** An entry that is read-only is no hit for writing, being the only one with its key. */
  lemma OnlyEntry(ds: seq<OpenDescriptor>, recency: seq<OpenDescriptor>, i: nat)
    requires multiset(ds) == multiset(recency) && Apart(ds) && i < |ds| && !ds[i].writable
    ensures !Hit(recency, ds[i].Key(), true)
  {
    SameMembers(ds, recency);
    EraseIsDrop(ds, i);
    DropMembers(ds, OfKey(ds[i].Key()));
    forall d | d in recency && d.Key() == ds[i].Key()
      ensures d == ds[i]
    {
      SplitErased(ds, i, d);
    }
  }

  lemma {:induction false} SplitErased(ds: seq<OpenDescriptor>, m: nat, d: OpenDescriptor)
    requires m < |ds| && d in ds
    ensures d == ds[m] || d in EraseAt(ds, m)
  {
    if m > 0 && d != ds[0] {
      SplitErased(ds[1..], m - 1, d);
    }
  }
}
