/** The environment of the disk backend: the `flow_saf_storage` callbacks the application
    supplies and the POSIX calls on the descriptors they hand out.

    A path names a file identity and a descriptor denotes one, so that a file which is removed,
    or whose name is given to another file, lives on behind a descriptor opened before. What
    the environment may do is chosen without any further constraint: any call may fail, and a
    failing call changes nothing; a transfer may be short or be interrupted. */
module Bridges {
  import opened Bytes
  import opened Errors
  import opened FlatView

  datatype Handle = Handle(file: nat, writable: bool)

  /** A size that was asked for, and what came back. */
  datatype Query = Query(path: string, answer: int)

  datatype OpenMode = ReadOnly | ReadWrite

  class Bridge {
    var names: map<string, nat>
    var bodies: map<nat, seq<byte>>
    var handles: map<int, Handle>
    // How many more transfers a signal will interrupt: any finite number.
    var interrupts: nat
    // The directories asked for so far.
    ghost var directories: seq<string>
    // The removals asked for so far, whether or not they succeeded.
    ghost var removals: seq<string>
    // The sizes asked for so far.
    ghost var queries: seq<Query>
    // The calls so far that failed although nothing about the files made them fail.
    ghost var faults: nat

    ghost predicate Valid()
      reads this`names, this`bodies, this`handles
    {
      && (forall path :: path in names ==> names[path] in bodies)
      && (forall p, q :: p in names && q in names && p != q ==> names[p] != names[q])
      && (forall fd :: fd in handles ==> fd >= 0 && handles[fd].file in bodies)
    }

    /** The contents of the granted tree. */
    ghost function Contents(): Store
      reads this`names, this`bodies
    {
      map path | path in names && names[path] in bodies :: bodies[names[path]]
    }

    /** The descriptor is open on the file that has this name now. */
    ghost predicate Denotes(fd: int, path: string)
      reads this`names, this`handles
    {
      fd in handles && path in names && handles[fd].file == names[path]
    }

    lemma DenotesContents(fd: int, path: string)
      requires Valid() && Denotes(fd, path)
      ensures fd in handles && path in names && path in Contents() && handles[fd].file == names[path]
    {
    }

    lemma NamesContents(path: string)
      requires Valid()
      ensures path in names <==> path in Contents()
    {
    }

    /** Opening another file leaves a descriptor on the file it was on. */
    lemma StillDenotes(fd: int, path: string, handles0: map<int, Handle>, names0: map<string, nat>)
      requires fd in handles0 && path in names0 && handles0[fd].file == names0[path]
      requires forall h :: h in handles0 ==> h in handles && handles[h] == handles0[h]
      requires forall p :: p in names0 ==> p in names && names[p] == names0[p]
      ensures Denotes(fd, path)
    {
    }

    /** Nothing that a reader of the tree or an open descriptor could see has changed. */
    twostate predicate Untouched()
      reads this`names, this`bodies, this`handles
    {
      names == old(names) && bodies == old(bodies) && handles == old(handles)
    }

    constructor ()
      ensures Valid() && handles == map[]
    {
      names, bodies, handles := map[], map[], map[];
      interrupts := 0;
      directories, removals, queries, faults := [], [], [], 0;
    }

    method ValidatePath(path: string) returns (result: int)
      modifies this`faults
      ensures result <= 0
      ensures faults == old(faults) + if result < 0 then 1 else 0
    {
      result :| result <= 0;
      faults := faults + if result < 0 then 1 else 0;
    }

    method CreateDirectory(path: string) returns (result: int)
      modifies this`directories, this`faults
      ensures result <= 0
      ensures directories == old(directories) + [path]
      ensures faults == old(faults) + if result < 0 && result != -EEXIST then 1 else 0
    {
      directories := directories + [path];
      result :| result <= 0;
      faults := faults + if result < 0 && result != -EEXIST then 1 else 0;
    }

    /** Read/write mode creates a missing file; -ENOENT is the truth about it. */
    method OpenFile(path: string, mode: OpenMode) returns (result: int)
      requires Valid()
      modifies this`names, this`bodies, this`handles, this`faults
      ensures Valid()
      ensures faults == old(faults) + if result < 0 && !(mode.ReadOnly? && result == -ENOENT) then 1 else 0
      ensures result < 0 ==> names == old(names) && handles == old(handles) && Contents() == old(Contents())
      ensures result == -ENOENT ==> path !in names
      ensures result >= 0 ==>
                && result !in old(handles)
                && handles.Keys == old(handles).Keys + {result}
                && (forall fd :: fd in old(handles) ==> handles[fd] == old(handles)[fd])
                && Denotes(result, path) && handles[result].writable == mode.ReadWrite?
                && Contents() == (if path in old(names) then old(Contents()) else old(Contents())[path := []])
                && (mode.ReadOnly? ==> path in old(names))
                && (forall p :: p in old(names) ==> p in names && names[p] == old(names)[p])
    {
      if path !in names && mode.ReadOnly? {
        return -ENOENT;
      }
      result :| result == -ENOENT ==> path !in names;
      if result in handles {
        result := -EIO;
      }
      if result < 0 {
        faults := faults + 1;
        return;
      }
      if path !in names {
        UnusedExists(bodies.Keys);
        var file: nat :| file !in bodies.Keys;
        names, bodies := names[path := file], bodies[file := []];
        assert Contents() == old(Contents())[path := []];
      }
      handles := handles[result := Handle(names[path], mode.ReadWrite?)];
    }

    method FileSize(path: string) returns (result: int)
      requires Valid()
      modifies this`queries, this`faults
      ensures faults == old(faults) + if result < 0 && result != -ENOENT then 1 else 0
      ensures queries == old(queries) + [Query(path, result)]
      ensures result >= 0 ==> path in names && result == |Contents()[path]|
      ensures result == -ENOENT ==> path !in names
    {
      if * {
        result :| result < 0 && result != -ENOENT;
        faults := faults + 1;
      } else if path in names {
        result := |bodies[names[path]]|;
      } else {
        result := -ENOENT;
      }
      queries := queries + [Query(path, result)];
    }

    /** The file takes over the new name; a file that had it loses it. */
    method Rename(oldPath: string, newPath: string) returns (result: int)
      requires Valid()
      modifies this`names, this`faults
      ensures Valid()
      ensures faults == old(faults) + if result < 0 && oldPath in old(names) then 1 else 0
      ensures result < 0 ==> names == old(names) && Contents() == old(Contents())
      ensures result >= 0 ==>
                && oldPath in old(names)
                && names == (old(names) - {oldPath})[newPath := old(names)[oldPath]]
                && Contents() == (old(Contents()) - {oldPath})[newPath := old(Contents())[oldPath]]
    {
      if oldPath !in names {
        return -ENOENT;
      }
      result :| result <= 0;
      if result < 0 {
        faults := faults + 1;
      } else {
        names := (names - {oldPath})[newPath := names[oldPath]];
      }
    }

    method Remove(path: string) returns (result: int)
      requires Valid()
      modifies this`names, this`removals, this`faults
      ensures Valid()
      ensures faults == old(faults) + if result < 0 && result != -ENOENT then 1 else 0
      ensures removals == old(removals) + [path]
      ensures result < 0 ==> names == old(names) && Contents() == old(Contents())
      ensures result == -ENOENT ==> path !in names
      ensures result >= 0 ==> names == old(names) - {path} && Contents() == old(Contents()) - {path}
    {
      removals := removals + [path];
      if path !in names {
        return -ENOENT;
      }
      result :| result <= 0 && result != -ENOENT;
      if result < 0 {
        faults := faults + 1;
      } else {
        names := names - {path};
      }
    }

    /** Closing a descriptor that is not open is the caller's error. */
    method Close(fd: int)
      requires Valid() && fd in handles
      modifies this`handles
      ensures Valid()
      ensures handles == old(handles) - {fd}
      ensures names == old(names) && bodies == old(bodies) && Contents() == old(Contents())
    {
      handles := handles - {fd};
    }

    method Ftruncate(fd: int, size: nat, ghost path: string) returns (result: int, errno: int)
      requires Valid() && Denotes(fd, path) && handles[fd].writable
      modifies this`bodies, this`faults
      ensures faults == old(faults) + if result != 0 then 1 else 0
      ensures Valid() && names == old(names) && handles == old(handles)
      ensures result != 0 ==> errno > 0 && bodies == old(bodies) && Contents() == old(Contents())
      ensures result == 0 ==> Contents() == old(Contents())[path := Resize(old(Contents())[path], size)]
    {
      if * {
        result := -1;
        errno :| errno > 0;
        faults := faults + 1;
      } else {
        result, errno := 0, 0;
        var file := handles[fd].file;
        bodies := bodies[file := Resize(bodies[file], size)];
      }
    }

    /** `pread` into buffer[at .. at + count]. Every caller shows that its descriptor still
        denotes the file named `path`. */
    method Pread(fd: int, buffer: array<byte>, at: nat, count: nat, offset: nat, ghost path: string)
      returns (result: int, errno: int)
      requires Valid() && Denotes(fd, path) && 0 < count && at + count <= buffer.Length
      modifies this`interrupts, this`faults, buffer
      ensures faults == old(faults) + if result < 0 && errno != EINTR then 1 else 0
      ensures Valid() && Untouched()
      ensures result < 0 ==> errno > 0 && buffer[..] == old(buffer[..])
      ensures interrupts <= old(interrupts)
      ensures result < 0 && errno == EINTR ==> interrupts < old(interrupts)
      ensures result == 0 ==> offset >= |Contents()[path]|
      ensures result >= 0 ==>
                && result <= count
                && (result > 0 ==> offset + result <= |Contents()[path]|)
                && (forall k :: 0 <= k < buffer.Length ==>
                                  buffer[k] == if at <= k < at + result then ByteOrZero(Contents()[path], offset + k - at)
                                               else old(buffer[k]))
    {
      var interrupted: bool := *;
      if interrupts > 0 && interrupted {
        interrupts := interrupts - 1;
        return -1, EINTR;
      }
      if * {
        errno :| errno > 0 && errno != EINTR;
        faults := faults + 1;
        return -1, errno;
      }
      var body := bodies[handles[fd].file];
      errno := 0;
      if offset >= |body| {
        return 0, 0;
      }
      result :| 1 <= result <= count && offset + result <= |body|;
      forall k | at <= k < at + result {
        buffer[k] := body[offset + k - at];
      }
    }

    /** `pwrite` from buffer[at .. at + count]. */
    method Pwrite(fd: int, buffer: array<byte>, at: nat, count: nat, offset: nat, ghost path: string)
      returns (result: int, errno: int)
      requires Valid() && Denotes(fd, path) && handles[fd].writable && 0 < count && at + count <= buffer.Length
      modifies this`interrupts, this`bodies, this`faults
      ensures faults == old(faults) + if result == 0 || (result < 0 && errno != EINTR) then 1 else 0
      ensures Valid() && names == old(names) && handles == old(handles)
      ensures result < 0 ==> errno > 0
      ensures result <= 0 ==> bodies == old(bodies) && Contents() == old(Contents())
      ensures interrupts <= old(interrupts)
      ensures result < 0 && errno == EINTR ==> interrupts < old(interrupts)
      ensures result > 0 ==>
                && result <= count
                && Contents() == old(Contents())[path := WriteAt(old(Contents())[path], offset, buffer[at..at + result])]
    {
      var interrupted: bool := *;
      if interrupts > 0 && interrupted {
        interrupts := interrupts - 1;
        return -1, EINTR;
      }
      if * {
        errno :| errno > 0 && errno != EINTR;
        faults := faults + 1;
        return -1, errno;
      }
      errno := 0;
      result :| 0 <= result <= count;
      if result > 0 {
        var file := handles[fd].file;
        bodies := bodies[file := WriteAt(bodies[file], offset, buffer[at..at + result])];
      } else {
        faults := faults + 1;
      }
    }
  }

  lemma UnusedExists(used: set<nat>)
    ensures exists n: nat :: n !in used
  {
    if used == {} {
      assert 0 !in used;
    } else {
      var m := Greatest(used);
      assert m + 1 !in used;
    }
  }

  lemma Greatest(used: set<nat>) returns (m: nat)
    requires used != {}
    ensures m in used && forall n :: n in used ==> n <= m
  {
    var x :| x in used;
    var rest := used - {x};
    if rest == {} {
      assert used == {x};
      m := x;
    } else {
      var g := Greatest(rest);
      m := if x <= g then g else x;
      assert used == rest + {x};
    }
  }
}
