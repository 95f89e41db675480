/** The list of cached descriptors as a value: what keeps it a set of open files with an order
    of use, and how erasing, adding and touching entries affects it. */
module Descriptors {
  import opened Bridges

  datatype FileKey = FileKey(storage: nat, file: int, path: string)

  /** `file` is -1 for the part file. */
  datatype OpenDescriptor =
    OpenDescriptor(storage: nat, file: int, path: string, descriptor: int, writable: bool, lastUse: nat)
  {
    function Key(): FileKey {
      FileKey(storage, file, path)
    }
  }

  /** The entries a close operation is about. */
  datatype Selection = OfStorage(storage: nat) | OfFile(storage: nat, file: int) | OfKey(key: FileKey) | Everything
  {
    predicate Matches(d: OpenDescriptor) {
      match this
      case OfStorage(s) => d.storage == s
      case OfFile(s, f) => d.storage == s && d.file == f
      case OfKey(k) => d.Key() == k
      case Everything => true
    }
  }

  /** The list without the selected entries, in the same order. */
  function Drop(ds: seq<OpenDescriptor>, s: Selection): seq<OpenDescriptor> {
    if ds == [] then []
    else if s.Matches(ds[0]) then Drop(ds[1..], s)
    else [ds[0]] + Drop(ds[1..], s)
  }

  lemma {:induction false} DropMembers(ds: seq<OpenDescriptor>, s: Selection)
    ensures forall d :: d in Drop(ds, s) <==> d in ds && !s.Matches(d)
    ensures |Drop(ds, s)| <= |ds|
  {
    if ds != [] {
      DropMembers(ds[1..], s);
    }
  }

  lemma {:induction false} DropNone(ds: seq<OpenDescriptor>, s: Selection)
    requires forall d :: d in ds ==> !s.Matches(d)
    ensures Drop(ds, s) == ds
  {
    if ds != [] {
      DropNone(ds[1..], s);
    }
  }

  lemma DropAll(ds: seq<OpenDescriptor>)
    ensures Drop(ds, Everything) == []
  {
  }

  lemma {:induction false} DropTwice(ds: seq<OpenDescriptor>, narrow: Selection, wide: Selection)
    requires forall d :: d in ds && narrow.Matches(d) ==> wide.Matches(d)
    ensures Drop(Drop(ds, narrow), wide) == Drop(ds, wide)
  {
    if ds != [] {
      DropTwice(ds[1..], narrow, wide);
      if !narrow.Matches(ds[0]) {
        assert Drop(ds, narrow)[1..] == Drop(ds[1..], narrow);
      }
    }
  }

  lemma {:induction false} DropMultiset(ds: seq<OpenDescriptor>, s: Selection, x: OpenDescriptor)
    ensures multiset(Drop(ds, s))[x] == if s.Matches(x) then 0 else multiset(ds)[x]
  {
    if ds != [] {
      DropMultiset(ds[1..], s, x);
      assert ds == [ds[0]] + ds[1..];
    }
  }

  // ---- No two entries with one key or one descriptor

  predicate Clash(d: OpenDescriptor, e: OpenDescriptor) {
    d.Key() == e.Key() || d.descriptor == e.descriptor
  }

  predicate Apart(ds: seq<OpenDescriptor>) {
    ds == [] || ((forall e :: e in ds[1..] ==> !Clash(ds[0], e)) && Apart(ds[1..]))
  }

  lemma {:induction false} DropApart(ds: seq<OpenDescriptor>, s: Selection)
    requires Apart(ds)
    ensures Apart(Drop(ds, s))
  {
    if ds != [] {
      DropApart(ds[1..], s);
      DropMembers(ds[1..], s);
      if !s.Matches(ds[0]) {
        assert Drop(ds, s)[1..] == Drop(ds[1..], s);
      }
    }
  }

  lemma {:induction false} AppendApart(ds: seq<OpenDescriptor>, d: OpenDescriptor)
    requires Apart(ds) && forall e :: e in ds ==> !Clash(e, d)
    ensures Apart(ds + [d])
  {
    if ds != [] {
      AppendApart(ds[1..], d);
      assert (ds + [d])[1..] == ds[1..] + [d];
    }
  }

  lemma {:induction false} TouchApart(ds: seq<OpenDescriptor>, i: nat, d: OpenDescriptor)
    requires Apart(ds) && i < |ds| && d.Key() == ds[i].Key() && d.descriptor == ds[i].descriptor
    ensures Apart(ds[i := d])
    ensures Fds(ds[i := d]) == Fds(ds)
  {
    if i == 0 {
      assert ds[i := d][1..] == ds[1..];
    } else {
      TouchApart(ds[1..], i - 1, d);
      TouchMembers(ds[1..], i - 1, d);
      assert ds[i := d][1..] == ds[1..][i - 1 := d];
      assert ds[i] in ds[1..];
    }
  }

  lemma TouchKeys(ds: seq<OpenDescriptor>, i: nat, d: OpenDescriptor)
    requires i < |ds| && d == ds[i].(lastUse := d.lastUse)
    ensures Keys(ds[i := d]) == Keys(ds)
  {
    if i == 0 {
      assert ds[i := d][1..] == ds[1..];
    } else {
      TouchKeys(ds[1..], i - 1, d);
      assert ds[i := d][1..] == ds[1..][i - 1 := d];
    }
  }

  lemma TouchMembers(ds: seq<OpenDescriptor>, i: nat, d: OpenDescriptor)
    requires i < |ds|
    ensures forall e :: e in ds[i := d] ==> e == d || e in ds
  {
  }

  /** The list without its m-th entry. */
  function EraseAt(ds: seq<OpenDescriptor>, m: nat): (r: seq<OpenDescriptor>)
    requires m < |ds|
    ensures |r| == |ds| - 1
  {
    if m == 0 then ds[1..] else [ds[0]] + EraseAt(ds[1..], m - 1)
  }

  lemma {:induction false} EraseMultiset(ds: seq<OpenDescriptor>, m: nat)
    requires m < |ds|
    ensures multiset(EraseAt(ds, m)) == multiset(ds) - multiset{ds[m]}
  {
    assert ds == [ds[0]] + ds[1..];
    if m > 0 {
      EraseMultiset(ds[1..], m - 1);
    }
  }

  lemma {:induction false} EraseMembers(ds: seq<OpenDescriptor>, m: nat)
    requires m < |ds|
    ensures forall e :: e in EraseAt(ds, m) ==> e in ds
  {
    if m > 0 {
      EraseMembers(ds[1..], m - 1);
    }
  }

  lemma {:induction false} ErasedBefore(ds: seq<OpenDescriptor>, m: nat, k: nat)
    requires k < m < |ds|
    ensures EraseAt(ds, m)[k] == ds[k]
  {
    if k > 0 {
      ErasedBefore(ds[1..], m - 1, k - 1);
    }
  }

  /** Erasing one entry is dropping its key. */
  lemma {:induction false} EraseIsDrop(ds: seq<OpenDescriptor>, m: nat)
    requires Apart(ds) && m < |ds|
    ensures EraseAt(ds, m) == Drop(ds, OfKey(ds[m].Key()))
  {
    if m == 0 {
      DropNone(ds[1..], OfKey(ds[0].Key()));
    } else {
      EraseIsDrop(ds[1..], m - 1);
      assert ds[m] == ds[1..][m - 1] && ds[m] in ds[1..];
    }
  }

  lemma {:induction false} NotInFds(ds: seq<OpenDescriptor>, fd: int)
    requires forall e :: e in ds ==> e.descriptor != fd
    ensures fd !in Fds(ds)
  {
    if ds != [] {
      NotInFds(ds[1..], fd);
    }
  }

  lemma {:induction false} EraseFds(ds: seq<OpenDescriptor>, m: nat)
    requires Apart(ds) && m < |ds|
    ensures Fds(EraseAt(ds, m)) == Fds(ds) - {ds[m].descriptor}
  {
    if m == 0 {
      NotInFds(ds[1..], ds[0].descriptor);
    } else {
      EraseFds(ds[1..], m - 1);
      assert ds[m] == ds[1..][m - 1] && ds[m] in ds[1..];
    }
  }

  // ---- The order of use

  /** The stamps rise strictly and none is ahead of the counter. */
  predicate Rising(recency: seq<OpenDescriptor>, counter: nat) {
    recency == [] || (
      && recency[0].lastUse <= counter
      && (forall e :: e in recency[1..] ==> recency[0].lastUse < e.lastUse)
      && Rising(recency[1..], counter))
  }

  lemma {:induction false} DropRising(recency: seq<OpenDescriptor>, counter: nat, s: Selection)
    requires Rising(recency, counter)
    ensures Rising(Drop(recency, s), counter)
  {
    if recency != [] {
      DropRising(recency[1..], counter, s);
      DropMembers(recency[1..], s);
      if !s.Matches(recency[0]) {
        assert Drop(recency, s)[1..] == Drop(recency[1..], s);
      }
    }
  }

  lemma {:induction false} AppendRising(recency: seq<OpenDescriptor>, counter: nat, d: OpenDescriptor)
    requires Rising(recency, counter) && d.lastUse == counter + 1
    ensures Rising(recency + [d], counter + 1)
  {
    if recency == [] {
      assert ([d])[1..] == [];
    } else {
      AppendRising(recency[1..], counter, d);
      assert (recency + [d])[1..] == recency[1..] + [d];
    }
  }

  // ---- The invariant

  function Fds(ds: seq<OpenDescriptor>): set<int> {
    if ds == [] then {} else {ds[0].descriptor} + Fds(ds[1..])
  }

  function Keys(ds: seq<OpenDescriptor>): set<FileKey> {
    if ds == [] then {} else {ds[0].Key()} + Keys(ds[1..])
  }

  lemma {:induction false} FdsKeysMembers(ds: seq<OpenDescriptor>)
    ensures forall d :: d in ds ==> d.descriptor in Fds(ds) && d.Key() in Keys(ds)
  {
    if ds != [] {
      FdsKeysMembers(ds[1..]);
    }
  }

  lemma {:induction false} FdsKeysAppend(ds: seq<OpenDescriptor>, d: OpenDescriptor)
    ensures Fds(ds + [d]) == Fds(ds) + {d.descriptor} && Keys(ds + [d]) == Keys(ds) + {d.Key()}
  {
    if ds == [] {
      assert ds + [d] == [d] && [d][1..] == [];
    } else {
      FdsKeysAppend(ds[1..], d);
      assert (ds + [d])[1..] == ds[1..] + [d];
    }
  }

  /** What is left after dropping a selection has keys from before, none of them selected. */
  lemma {:induction false} KeysDrop(ds: seq<OpenDescriptor>, s: Selection)
    ensures Keys(Drop(ds, s)) <= Keys(ds)
    ensures s.OfKey? ==> Keys(Drop(ds, s)) == Keys(ds) - {s.key}
  {
    if ds != [] {
      KeysDrop(ds[1..], s);
    }
  }

  /** The keys that are not of the storage. */
  function Elsewhere(keys: set<FileKey>, storage: nat): set<FileKey> {
    set key | key in keys && key.storage != storage
  }

  lemma {:induction false} KeysElsewhere(ds: seq<OpenDescriptor>, storage: nat)
    ensures Keys(Drop(ds, OfStorage(storage))) == Elsewhere(Keys(ds), storage)
  {
    if ds != [] {
      KeysElsewhere(ds[1..], storage);
      assert Elsewhere(Keys(ds), storage)
          == Elsewhere(Keys(ds[1..]), storage) + if ds[0].storage != storage then {ds[0].Key()} else {};
    }
  }

  /** The entry's descriptor is open, as recorded, on the file its path names now. */
  predicate Backed(d: OpenDescriptor, handles: map<int, Handle>, names: map<string, nat>) {
    d.descriptor in handles && d.path in names && handles[d.descriptor] == Handle(names[d.path], d.writable)
  }

  predicate Coherent(ds: seq<OpenDescriptor>, handles: map<int, Handle>, names: map<string, nat>) {
    forall d :: d in ds ==> Backed(d, handles, names)
  }

  /** The invariant of the cache: the list and its order of use hold the same entries, keys are
      unique, every open descriptor is in it exactly once, and every entry is coherent. */
  predicate CacheInv(ds: seq<OpenDescriptor>, recency: seq<OpenDescriptor>, counter: nat,
                     handles: map<int, Handle>, names: map<string, nat>)
  {
    && multiset(ds) == multiset(recency)
    && Apart(ds)
    && Rising(recency, counter)
    && handles.Keys == Fds(ds)
    && Coherent(ds, handles, names)
  }

  lemma SameMembers(ds: seq<OpenDescriptor>, recency: seq<OpenDescriptor>)
    requires multiset(ds) == multiset(recency)
    ensures |ds| == |recency|
    ensures forall d :: d in ds <==> d in recency
  {
    assert |multiset(ds)| == |ds| && |multiset(recency)| == |recency|;
    forall d
      ensures d in ds <==> d in recency
    {
      assert d in ds <==> d in multiset(ds);
      assert d in recency <==> d in multiset(recency);
    }
  }

  lemma DropSameMultiset(ds: seq<OpenDescriptor>, recency: seq<OpenDescriptor>, s: Selection)
    requires multiset(ds) == multiset(recency)
    ensures multiset(Drop(ds, s)) == multiset(Drop(recency, s))
  {
    forall x
      ensures multiset(Drop(ds, s))[x] == multiset(Drop(recency, s))[x]
    {
      DropMultiset(ds, s, x);
      DropMultiset(recency, s, x);
    }
  }

  /** Erasing an entry and closing its descriptor keeps the invariant. */
  lemma EraseInv(ds: seq<OpenDescriptor>, recency: seq<OpenDescriptor>, counter: nat,
                 handles: map<int, Handle>, names: map<string, nat>, m: nat)
    requires CacheInv(ds, recency, counter, handles, names) && m < |ds|
    ensures ds[m].descriptor in handles
    ensures CacheInv(EraseAt(ds, m), Drop(recency, OfKey(ds[m].Key())), counter,
                     handles - {ds[m].descriptor}, names)
  {
    var entry := OfKey(ds[m].Key());
    EraseIsDrop(ds, m);
    EraseFds(ds, m);
    DropSameMultiset(ds, recency, entry);
    DropApart(ds, entry);
    DropRising(recency, counter, entry);
    assert Backed(ds[m], handles, names);
    EraseCoherent(ds, handles, names, m);
  }

  lemma EraseCoherent(ds: seq<OpenDescriptor>, handles: map<int, Handle>, names: map<string, nat>, m: nat)
    requires Apart(ds) && Coherent(ds, handles, names) && m < |ds|
    ensures Coherent(EraseAt(ds, m), handles - {ds[m].descriptor}, names)
  {
    EraseFds(ds, m);
    FdsKeysMembers(EraseAt(ds, m));
    EraseMembers(ds, m);
    forall e | e in EraseAt(ds, m)
      ensures Backed(e, handles - {ds[m].descriptor}, names)
    {
      assert Backed(e, handles, names);
    }
  }

  /** A new entry, stamped last, on a newly opened descriptor. */
  lemma PushInv(ds: seq<OpenDescriptor>, recency: seq<OpenDescriptor>, counter: nat,
                handles: map<int, Handle>, names: map<string, nat>, d: OpenDescriptor,
                handles': map<int, Handle>, names': map<string, nat>)
    requires CacheInv(ds, recency, counter, handles, names)
    requires d.Key() !in Keys(ds) && d.descriptor !in handles && d.lastUse == counter + 1
    requires handles'.Keys == handles.Keys + {d.descriptor} && Backed(d, handles', names')
    requires forall fd :: fd in handles ==> handles'[fd] == handles[fd]
    requires forall p :: p in names ==> p in names' && names'[p] == names[p]
    ensures CacheInv(ds + [d], recency + [d], counter + 1, handles', names')
  {
    FdsKeysMembers(ds);
    AppendApart(ds, d);
    AppendRising(recency, counter, d);
    FdsKeysAppend(ds, d);
    forall e | e in ds + [d]
      ensures Backed(e, handles', names')
    {
      if e in ds {
        assert Backed(e, handles, names);
      }
    }
  }

  /** A hit: the entry keeps its place in the list and becomes the most recently used. */
  lemma TouchInv(ds: seq<OpenDescriptor>, recency: seq<OpenDescriptor>, counter: nat,
                 handles: map<int, Handle>, names: map<string, nat>, i: nat)
    requires CacheInv(ds, recency, counter, handles, names) && i < |ds|
    ensures
      var d := ds[i].(lastUse := counter + 1);
      CacheInv(ds[i := d], Drop(recency, OfKey(d.Key())) + [d], counter + 1, handles, names)
  {
    var d := ds[i].(lastUse := counter + 1);
    var s := OfKey(d.Key());
    DropRising(recency, counter, s);
    AppendRising(Drop(recency, s), counter, d);
    TouchMultiset(ds, recency, i, d);
    TouchApart(ds, i, d);
    TouchMembers(ds, i, d);
    assert Backed(ds[i], handles, names);
  }

  lemma TouchMultiset(ds: seq<OpenDescriptor>, recency: seq<OpenDescriptor>, i: nat, d: OpenDescriptor)
    requires multiset(ds) == multiset(recency) && Apart(ds) && i < |ds| && d.Key() == ds[i].Key()
    ensures multiset(ds[i := d]) == multiset(Drop(recency, OfKey(d.Key())) + [d])
  {
    EraseIsDrop(ds, i);
    EraseMultiset(ds, i);
    DropSameMultiset(ds, recency, OfKey(d.Key()));
    assert multiset(ds[i := d]) == multiset(EraseAt(ds, i)) + multiset{d};
  }

  /** The entry with the least stamp is the least recently used one. */
  lemma OldestIsFirst(ds: seq<OpenDescriptor>, recency: seq<OpenDescriptor>, counter: nat, oldest: nat)
    requires multiset(ds) == multiset(recency) && Apart(ds) && Rising(recency, counter) && oldest < |ds|
    requires forall k :: 0 <= k < |ds| ==> ds[oldest].lastUse <= ds[k].lastUse
    ensures recency != [] && ds[oldest] == recency[0]
  {
    SameMembers(ds, recency);
    assert recency[0] in recency && ds[oldest] in ds;
    var k :| 0 <= k < |ds| && ds[k] == recency[0];
    assert recency == [recency[0]] + recency[1..];
  }

  lemma DropFirst(ds: seq<OpenDescriptor>, recency: seq<OpenDescriptor>)
    requires multiset(ds) == multiset(recency) && Apart(ds) && recency != []
    ensures Drop(recency, OfKey(recency[0].Key())) == recency[1..]
  {
    var s := OfKey(recency[0].Key());
    SameMembers(ds, recency);
    assert recency[0] in recency;
    var m :| 0 <= m < |ds| && ds[m] == recency[0];
    EraseIsDrop(ds, m);
    DropSameMultiset(ds, recency, s);
    SameMembers(Drop(ds, s), Drop(recency, s));
    DropMembers(recency[1..], s);
    assert |Drop(ds, s)| == |ds| - 1;
    DropFull(recency[1..], s);
  }

  lemma {:induction false} DropFull(ds: seq<OpenDescriptor>, s: Selection)
    requires |Drop(ds, s)| == |ds|
    ensures Drop(ds, s) == ds
  {
    if ds != [] {
      DropMembers(ds[1..], s);
      DropFull(ds[1..], s);
    }
  }

  /** Erasing a selected entry leaves the same entries to be kept. */
  lemma EraseSelected(ds: seq<OpenDescriptor>, recency: seq<OpenDescriptor>, i: nat, s: Selection)
    requires multiset(ds) == multiset(recency) && Apart(ds) && i < |ds| && s.Matches(ds[i])
    ensures Drop(EraseAt(ds, i), s) == Drop(ds, s)
    ensures Drop(Drop(recency, OfKey(ds[i].Key())), s) == Drop(recency, s)
  {
    EraseIsDrop(ds, i);
    DropTwice(ds, OfKey(ds[i].Key()), s);
    DropTwice(recency, OfKey(ds[i].Key()), s);
  }

  lemma NothingSelected(ds: seq<OpenDescriptor>, recency: seq<OpenDescriptor>, s: Selection)
    requires multiset(ds) == multiset(recency)
    requires forall k :: 0 <= k < |ds| ==> !s.Matches(ds[k])
    ensures Drop(ds, s) == ds && Drop(recency, s) == recency
  {
    SameMembers(ds, recency);
    DropNone(ds, s);
    DropNone(recency, s);
  }

  /** Changes to names no entry was opened under do not concern the cache. */
  lemma OtherNames(ds: seq<OpenDescriptor>, recency: seq<OpenDescriptor>, counter: nat,
                   handles: map<int, Handle>, names: map<string, nat>, names': map<string, nat>)
    requires CacheInv(ds, recency, counter, handles, names)
    requires forall d :: d in ds && d.path in names ==> d.path in names' && names'[d.path] == names[d.path]
    ensures CacheInv(ds, recency, counter, handles, names')
  {
  }

  lemma {:induction false} KeyAbsent(ds: seq<OpenDescriptor>, key: FileKey)
    requires forall d :: d in ds ==> d.Key() != key
    ensures key !in Keys(ds)
  {
    if ds != [] {
      KeyAbsent(ds[1..], key);
    }
  }

  // ---- The reference: a list of entries, least recently used first

  /** A lookup finds an entry it can use; a read-only one is no use for writing. */
  predicate Hit(recency: seq<OpenDescriptor>, key: FileKey, write: bool) {
    exists d :: d in recency && d.Key() == key && (write ==> d.writable)
  }

  /** As many of the most recent entries as leave room for one more. */
  function MostRecent(recency: seq<OpenDescriptor>, limit: nat): seq<OpenDescriptor>
    requires limit >= 1
  {
    if |recency| < limit then recency else recency[|recency| + 1 - limit..]
  }

  lemma MostRecentIs(recency: seq<OpenDescriptor>, limit: nat, n: nat)
    requires limit >= 1 && n <= |recency| && |recency| - n < limit
    requires n == 0 || |recency| - n + 1 >= limit
    ensures recency[n..] == MostRecent(recency, limit)
  {
  }

  /** What a lookup leaves in front of the entry it ends with: on a hit all others; on a miss the
      most recent of them, so many that there is room for the new one. */
  function LruKept(recency: seq<OpenDescriptor>, key: FileKey, write: bool, limit: nat): seq<OpenDescriptor>
    requires limit >= 1
  {
    var others := Drop(recency, OfKey(key));
    if Hit(recency, key, write) then others else MostRecent(others, limit)
  }
}
