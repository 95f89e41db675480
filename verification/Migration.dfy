/** Moving one file's bytes between its public file and the part file, on values. */
module Migration {
  import opened Bytes
  import opened Layout
  import opened FlatView
  import opened PublicCopy

  /** File j's bytes read the same in both states, and none became unreadable. */
  predicate FileKept(t: Torrent, before: Store, t': Torrent, after: Store, j: nat)
    requires t.WellFormed() && t'.WellFormed() && t.files == t'.files && j < |t.files|
  {
    var body, body' := Content(before, t.HomePath(j)), Content(after, t'.HomePath(j));
    forall o: nat :: o < t.files[j].size ==>
                       && ByteOrZero(body', t'.HomeOffset(j, o)) == ByteOrZero(body, t.HomeOffset(j, o))
                       && (t.HomeOffset(j, o) < |body| ==> t'.HomeOffset(j, o) < |body'|)
  }

  lemma FlatByFiles(t: Torrent, before: Store, t': Torrent, after: Store)
    requires t.WellFormed() && t'.WellFormed() && t.files == t'.files
    requires forall j :: 0 <= j < |t.files| && !t.files[j].pad ==> FileKept(t, before, t', after, j)
    ensures Flat(t', after) == Flat(t, before)
    ensures KeepsPresent(t, before, t', after)
  {
    forall p | 0 <= p < Total(t.files)
      ensures FlatByte(t', after, p) == FlatByte(t, before, p)
      ensures Present(t, before, p) ==> Present(t', after, p)
    {
      var j := FileAt(t.files, p);
      if !t.files[j].pad {
        assert FileKept(t, before, t', after, j);
        assert p - Offset(t.files, j) < t.files[j].size;
      }
    }
  }

  /** And conversely. */
  lemma FilesByFlat(t: Torrent, before: Store, t': Torrent, after: Store, i: nat)
    requires t.WellFormed() && t'.WellFormed() && t.files == t'.files
    requires Flat(t', after) == Flat(t, before) && KeepsPresent(t, before, t', after)
    requires i < |t.files| && !t.files[i].pad
    ensures FileKept(t, before, t', after, i)
  {
    forall o: nat | o < t.files[i].size
      ensures
        var body, body' := Content(before, t.HomePath(i)), Content(after, t'.HomePath(i));
        && ByteOrZero(body', t'.HomeOffset(i, o)) == ByteOrZero(body, t.HomeOffset(i, o))
        && (t.HomeOffset(i, o) < |body| ==> t'.HomeOffset(i, o) < |body'|)
    {
      var p := Offset(t.files, i) + o;
      FileAtUnique(t.files, i, p);
      assert Flat(t, before)[p] == FlatByte(t, before, p) && Flat(t', after)[p] == FlatByte(t', after, p);
      assert Present(t, before, p) ==> Present(t', after, p);
    }
  }

  /** The torrent with file i's priority changed. */
  function WithPriority(t: Torrent, i: nat, priority: nat): Torrent
    requires t.WellFormed() && i < |t.files|
  {
    t.(priorities := t.priorities[i := priority])
  }

  /** A change of priority that leaves the file where it is, or is about a file without bytes on
      disk, changes nothing. */
  lemma SamePlace(t: Torrent, store: Store, i: nat, priority: nat)
    requires t.WellFormed() && i < |t.files|
    requires t.files[i].pad || t.files[i].size == 0 || (t.Skipped(i) <==> priority == DONT_DOWNLOAD)
    ensures Flat(WithPriority(t, i, priority), store) == Flat(t, store)
    ensures KeepsPresent(t, store, WithPriority(t, i, priority), store)
  {
  }

  /** n bytes at an offset, zero beyond the end. */
  function Stretch(body: seq<byte>, offset: nat, n: nat): (r: seq<byte>)
    ensures |r| == n
    ensures forall k :: 0 <= k < n ==> r[k] == ByteOrZero(body, offset + k)
  {
    seq(n, k requires 0 <= k < n => ByteOrZero(body, offset + k))
  }

  /** File i's bytes, wherever they are now. */
  function FileBytes(t: Torrent, store: Store, i: nat): (r: seq<byte>)
    requires t.WellFormed() && i < |t.files|
    ensures |r| == t.files[i].size
  {
    Stretch(Content(store, t.HomePath(i)), t.HomeOffset(i, 0), t.files[i].size)
  }

  /** Where the bytes of file i go when it is, or is no longer, skipped. */
  function TargetPath(t: Torrent, i: nat, toPart: bool): string
    requires t.WellFormed() && i < |t.files|
  {
    if toPart then t.part else t.paths[i]
  }

  /** m bytes of file i have been copied; the place they came from is untouched. The part file
      changed at most where file i's bytes belong. */
  ghost predicate CopiedSoFar(t: Torrent, before: Store, after: Store, i: nat, toPart: bool, m: nat)
    requires t.WellFormed() && i < |t.files|
  {
    && m <= t.files[i].size
    && SameOutside(before, after, {TargetPath(t, i, toPart)})
    && (toPart ==>
          Content(after, t.part) == WriteAt(Content(before, t.part), Offset(t.files, i), FileBytes(t, before, i)[..m]))
  }

  predicate Migratable(t: Torrent, i: nat, toPart: bool) {
    t.Distinct() && i < |t.files| && !t.files[i].pad && t.Skipped(i) != toPart
  }

  /** The place being filled holds no byte of any other file. */
  lemma OthersKept(t: Torrent, before: Store, after: Store, i: nat, toPart: bool, m: nat, j: nat)
    requires Migratable(t, i, toPart) && CopiedSoFar(t, before, after, i, toPart, m)
    requires j < |t.files| && !t.files[j].pad && j != i
    ensures FileKept(t, before, t, after, j)
  {
    hide Offset, Total, FileBytes, WriteAt, Content, FileAt;
    var to := TargetPath(t, i, toPart);
    if t.HomePath(j) == to {
      assert toPart && t.Skipped(j);
      forall o: nat | o < t.files[j].size
        ensures !(Offset(t.files, i) <= t.HomeOffset(j, o) < Offset(t.files, i) + m)
      {
        if Offset(t.files, i) <= Offset(t.files, j) + o < Offset(t.files, i) + m {
          FileAtUnique(t.files, i, Offset(t.files, j) + o);
          FileAtUnique(t.files, j, Offset(t.files, j) + o);
        }
      }
    }
  }

  /** Until the switch the torrent reads as before, however far the copy got. */
  lemma CopyInvisible(t: Torrent, before: Store, after: Store, i: nat, toPart: bool, m: nat)
    requires Migratable(t, i, toPart) && CopiedSoFar(t, before, after, i, toPart, m)
    ensures Flat(t, after) == Flat(t, before)
    ensures KeepsPresent(t, before, t, after)
  {
    forall j | 0 <= j < |t.files| && !t.files[j].pad
      ensures FileKept(t, before, t, after, j)
    {
      if j != i {
        OthersKept(t, before, after, i, toPart, m, j);
      } else {
        assert t.HomePath(i) != TargetPath(t, i, toPart);
      }
    }
    FlatByFiles(t, before, t, after);
  }

  /** The copy is complete: the new place holds file i's bytes. */
  ghost predicate CopiedAll(t: Torrent, before: Store, after: Store, i: nat, toPart: bool)
    requires t.WellFormed() && i < |t.files|
  {
    && CopiedSoFar(t, before, after, i, toPart, t.files[i].size)
    && (!toPart ==> Content(after, t.paths[i]) == FileBytes(t, before, i))
  }

  lemma ArrivedAt(t: Torrent, before: Store, after: Store, i: nat, toPart: bool, priority: nat)
    requires Migratable(t, i, toPart) && (priority == DONT_DOWNLOAD <==> toPart)
    requires CopiedAll(t, before, after, i, toPart)
    ensures FileKept(t, before, WithPriority(t, i, priority), after, i)
  {
    hide *;
    ArrivedBytes(t, before, after, i, toPart, priority);
    KeptIntro(t, before, WithPriority(t, i, priority), after, i);
  }

  lemma KeptIntro(t: Torrent, before: Store, t': Torrent, after: Store, i: nat)
    requires t.WellFormed() && t'.WellFormed() && t.files == t'.files && i < |t.files|
    requires forall o: nat :: o < t.files[i].size ==>
                                && ByteOrZero(Content(after, t'.HomePath(i)), t'.HomeOffset(i, o)) == FileBytes(t, before, i)[o]
                                && t'.HomeOffset(i, o) < |Content(after, t'.HomePath(i))|
    ensures FileKept(t, before, t', after, i)
  {
  }

  lemma ArrivedBytes(t: Torrent, before: Store, after: Store, i: nat, toPart: bool, priority: nat)
    requires Migratable(t, i, toPart) && (priority == DONT_DOWNLOAD <==> toPart)
    requires CopiedAll(t, before, after, i, toPart)
    ensures t.WellFormed() && WithPriority(t, i, priority).WellFormed() && i < |t.files|
    ensures WithPriority(t, i, priority).files == t.files
    ensures
      var t' := WithPriority(t, i, priority);
      forall o: nat :: o < t.files[i].size ==>
                         && ByteOrZero(Content(after, t'.HomePath(i)), t'.HomeOffset(i, o)) == FileBytes(t, before, i)[o]
                         && t'.HomeOffset(i, o) < |Content(after, t'.HomePath(i))|
  {
    var t' := WithPriority(t, i, priority);
    forall o: nat | o < t.files[i].size
      ensures ByteOrZero(Content(after, t'.HomePath(i)), t'.HomeOffset(i, o)) == FileBytes(t, before, i)[o]
      ensures t'.HomeOffset(i, o) < |Content(after, t'.HomePath(i))|
    {
      ArrivedByte(t, before, after, i, toPart, priority, o);
    }
  }

  lemma ArrivedByte(t: Torrent, before: Store, after: Store, i: nat, toPart: bool, priority: nat, o: nat)
    requires Migratable(t, i, toPart) && (priority == DONT_DOWNLOAD <==> toPart)
    requires CopiedAll(t, before, after, i, toPart) && o < t.files[i].size
    ensures
      var t' := WithPriority(t, i, priority);
      && ByteOrZero(Content(after, t'.HomePath(i)), t'.HomeOffset(i, o)) == FileBytes(t, before, i)[o]
      && t'.HomeOffset(i, o) < |Content(after, t'.HomePath(i))|
  {
    hide Offset, FileBytes, WriteAt, Content;
    var data := FileBytes(t, before, i);
    assert data[..t.files[i].size] == data;
  }

  /** The switch: with the new priority the torrent reads as before, and still does after the old
      public file is removed. */
  lemma SwitchInvisible(t: Torrent, before: Store, mid: Store, after: Store, i: nat, toPart: bool, priority: nat)
    requires Migratable(t, i, toPart) && (priority == DONT_DOWNLOAD <==> toPart)
    requires CopiedAll(t, before, mid, i, toPart)
    requires if toPart then SameOutside(mid, after, {t.paths[i]}) else after == mid
    ensures Flat(WithPriority(t, i, priority), after) == Flat(t, before)
    ensures KeepsPresent(t, before, WithPriority(t, i, priority), after)
  {
    var t' := WithPriority(t, i, priority);
    forall j | 0 <= j < |t.files| && !t.files[j].pad
      ensures FileKept(t, before, t', after, j)
    {
      if j != i {
        OthersKept(t, before, mid, i, toPart, t.files[i].size, j);
        RemovedElsewhere(t, before, mid, after, i, toPart, priority, j);
      } else {
        ArrivedAt(t, before, mid, i, toPart, priority);
        RemovedBehind(t, before, mid, after, i, toPart, priority);
      }
    }
    FlatByFiles(t, before, t', after);
  }

  lemma RemovedElsewhere(t: Torrent, before: Store, mid: Store, after: Store, i: nat, toPart: bool, priority: nat,
                         j: nat)
    requires Migratable(t, i, toPart) && j < |t.files| && !t.files[j].pad && j != i
    requires FileKept(t, before, t, mid, j)
    requires if toPart then SameOutside(mid, after, {t.paths[i]}) else after == mid
    ensures FileKept(t, before, WithPriority(t, i, priority), after, j)
  {
  }

  lemma RemovedBehind(t: Torrent, before: Store, mid: Store, after: Store, i: nat, toPart: bool, priority: nat)
    requires Migratable(t, i, toPart) && (priority == DONT_DOWNLOAD <==> toPart)
    requires FileKept(t, before, WithPriority(t, i, priority), mid, i)
    requires if toPart then SameOutside(mid, after, {t.paths[i]}) else after == mid
    ensures FileKept(t, before, WithPriority(t, i, priority), after, i)
  {
  }

  /** With no file skipped the part file is nobody's. */
  lemma PartUnused(t: Torrent, before: Store, after: Store)
    requires t.Distinct() && (forall i :: 0 <= i < |t.files| ==> t.priorities[i] != DONT_DOWNLOAD)
    requires SameOutside(before, after, {t.part})
    ensures Flat(t, after) == Flat(t, before)
    ensures KeepsPresent(t, before, t, after)
  {
  }
}
