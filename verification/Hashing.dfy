/** Hashing pieces: SHA-1 over a whole v1 piece, SHA-256 over the 16 KiB leaf blocks of a v2
    piece. The hash functions themselves are parameters. */
module Hashing {
  import opened Bytes
  import opened Errors
  import opened Layout
  import opened FlatView
  import opened Bridges
  import opened Descriptors
  import opened DescriptorCaches
  import opened Torrents
  import opened BlockLayer

  /** The leaf blocks of BEP 52: cut off 16 KiB as long as there is something left. */
  function Leaves(s: seq<byte>): (leaves: seq<seq<byte>>)
    ensures |s| > 0 ==> |leaves| > 0
    decreases |s|
  {
    if s == [] then []
    else
      var n := Min(DEFAULT_BLOCK_SIZE, |s|);
      [s[..n]] + Leaves(s[n..])
  }

  function Joined(leaves: seq<seq<byte>>): seq<byte> {
    if leaves == [] then [] else leaves[0] + Joined(leaves[1..])
  }

  /** The leaves cover everything, in order and without overlap. */
  lemma {:induction false} LeavesJoin(s: seq<byte>)
    ensures Joined(Leaves(s)) == s
    decreases |s|
  {
    if s != [] {
      var n := Min(DEFAULT_BLOCK_SIZE, |s|);
      LeavesJoin(s[n..]);
      assert Leaves(s)[1..] == Leaves(s[n..]);
    }
  }

  /** Every leaf but the last is a full block. */
  lemma {:induction false} LeavesFull(s: seq<byte>, k: nat)
    requires k < |Leaves(s)|
    ensures 0 < |Leaves(s)[k]| <= DEFAULT_BLOCK_SIZE
    ensures k + 1 < |Leaves(s)| ==> |Leaves(s)[k]| == DEFAULT_BLOCK_SIZE
    decreases k
  {
    var n := Min(DEFAULT_BLOCK_SIZE, |s|);
    if k > 0 {
      LeavesFull(s[n..], k - 1);
    }
  }

  /** `blocks_in_piece2`: the ceiling quotient. */
  function Blocks(size: nat): nat {
    (size + DEFAULT_BLOCK_SIZE - 1) / DEFAULT_BLOCK_SIZE
  }

  /** The length of the range hashed at an offset, not positive when nothing is there. */
  function LeafLength(size: nat, offset: nat): (n: int)
    ensures n <= DEFAULT_BLOCK_SIZE && offset + n <= size
  {
    Min(DEFAULT_BLOCK_SIZE, size - offset)
  }

  lemma BlocksStep(size: nat)
    ensures size > DEFAULT_BLOCK_SIZE ==> Blocks(size) == Blocks(size - DEFAULT_BLOCK_SIZE) + 1
    ensures 0 < size <= DEFAULT_BLOCK_SIZE ==> Blocks(size) == 1
    ensures Blocks(0) == 0
  {
  }

  lemma {:induction false} LeavesCount(s: seq<byte>)
    ensures |Leaves(s)| == Blocks(|s|)
    decreases |s|
  {
    BlocksStep(|s|);
    if s != [] {
      hide Blocks;
      LeavesCount(s[Min(DEFAULT_BLOCK_SIZE, |s|)..]);
    }
  }

  /** Offsets counted in blocks reach exactly the leaves: there are as many as the ceiling quotient
      says, and the range at the k-th offset is the k-th leaf. */
  lemma LeafAt(s: seq<byte>, k: nat)
    ensures |Leaves(s)| == Blocks(|s|)
    ensures k < |Leaves(s)| <==> LeafLength(|s|, k * DEFAULT_BLOCK_SIZE) > 0
    ensures k < |Leaves(s)| ==>
              Leaves(s)[k] == Sub(s, k * DEFAULT_BLOCK_SIZE, LeafLength(|s|, k * DEFAULT_BLOCK_SIZE))
  {
    hide Leaves, Sub;
    LeavesCount(s);
    if k < |Leaves(s)| {
      LeafRange(s, k);
    }
  }

  lemma LeavesTail(s: seq<byte>, k: nat)
    requires 0 < k < |Leaves(s)|
    ensures |s| > DEFAULT_BLOCK_SIZE && k - 1 < |Leaves(s[DEFAULT_BLOCK_SIZE..])|
    ensures Leaves(s)[k] == Leaves(s[DEFAULT_BLOCK_SIZE..])[k - 1]
  {
  }

  lemma LeavesHead(s: seq<byte>)
    requires |Leaves(s)| > 0
    ensures |s| > 0 && Leaves(s)[0] == s[..Min(DEFAULT_BLOCK_SIZE, |s|)]
  {
  }

  lemma SliceShift(s: seq<byte>, n: nat, from: nat, to: nat)
    requires n <= from <= to <= |s|
    ensures s[n..][from - n..to - n] == s[from..to]
  {
  }

  lemma {:induction false} LeafRange(s: seq<byte>, k: nat)
    requires k < |Leaves(s)|
    ensures k * DEFAULT_BLOCK_SIZE < |s|
    ensures Leaves(s)[k] == s[k * DEFAULT_BLOCK_SIZE..Min((k + 1) * DEFAULT_BLOCK_SIZE, |s|)]
    decreases k
  {
    hide Leaves;
    if k == 0 {
      LeavesHead(s);
    } else {
      LeavesTail(s, k);
      var n := DEFAULT_BLOCK_SIZE;
      LeafRange(s[n..], k - 1);
      var from, to := k * n, Min((k + 1) * n, |s|);
      SliceShift(s, n, from, to);
    }
  }

  /** The bytes of the piece that belong to its file: what a v2 hash is about. */
  ghost function Piece2(files: FileStorage, flat: seq<byte>, piece: nat): (s: seq<byte>)
    requires files.Valid() && piece < files.NumPieces() && |flat| == files.TotalSize()
  {
    files.PieceExists(piece);
    Sub(flat, files.PieceStart(piece), files.PieceSize2(piece))
  }

  ghost function Piece1(files: FileStorage, flat: seq<byte>, piece: nat): (s: seq<byte>)
    requires files.Valid() && piece < files.NumPieces() && |flat| == files.TotalSize()
  {
    Sub(flat, files.PieceStart(piece), files.PieceBytes(piece))
  }

  /** The sizes of an existing piece: the v2 part is a prefix of the v1 piece. */
  method PieceSizes(files: FileStorage, piece: nat) returns (size1: nat, size2: nat)
    requires files.Valid() && piece < files.NumPieces()
    ensures size1 == files.PieceBytes(piece) && files.PieceStart(piece) < files.TotalSize()
    ensures size2 == files.PieceSize2(piece)
    ensures files.PieceStart(piece) + size1 <= files.TotalSize() && size2 <= size1
    ensures forall flat: seq<byte> :: |flat| == files.TotalSize() ==>
                                        && Piece1(files, flat, piece) == Sub(flat, files.PieceStart(piece), size1)
                                        && Piece2(files, flat, piece) == Sub(flat, files.PieceStart(piece), size2)
    ensures 0 < size2
  {
    files.PieceExists(piece);
    size1, size2 := files.PieceBytes(piece), files.PieceSize2(piece);
  }

  /** How far into the piece its hashes look. */
  function HashedBytes(files: FileStorage, piece: nat, v1: bool, v2: bool): nat
    requires files.Valid() && piece < files.NumPieces()
  {
    files.PieceExists(piece);
    BytesToRead(if v1 then files.PieceBytes(piece) else 0, if v2 then files.PieceSize2(piece) else 0)
  }

  lemma HashedBytesAre(files: FileStorage, piece: nat, v1: bool, v2: bool)
    requires files.Valid() && piece < files.NumPieces()
    ensures
      files.PieceStart(piece) + files.PieceBytes(piece) <= files.TotalSize() &&
      HashedBytes(files, piece, v1, v2) ==
      BytesToRead(if v1 then files.PieceBytes(piece) else 0, if v2 then files.PieceSize2(piece) else 0)
  {
    files.PieceExists(piece);
  }

  lemma PieceSize2Within(files: FileStorage, piece: nat)
    requires files.Valid() && piece < files.NumPieces()
    ensures files.PieceStart(piece) < files.TotalSize() && files.PieceSize2(piece) <= files.PieceBytes(piece)
  {
    files.PieceExists(piece);
  }

  lemma StoppedShort(t: Torrent, store: Store, from: nat, n: nat, at: nat)
    requires t.WellFormed() && at < n && from + n <= Total(t.files)
    ensures !Present(t, store, from + at) ==> !AllPresent(t, store, from, n)
  {
  }

  lemma NoBytes(t: Torrent, store: Store, from: nat)
    requires t.WellFormed()
    ensures AllPresent(t, store, from, 0)
  {
  }

  function BytesToRead(pieceSize: nat, pieceSize2: nat): (n: nat)
    ensures n >= pieceSize && n >= pieceSize2 && (n == pieceSize || n == pieceSize2)
  {
    Max(pieceSize, pieceSize2)
  }

  lemma ClampWhole(files: FileStorage, piece: nat, offset: nat, size: nat)
    requires files.PieceStart(piece) + offset + size <= files.TotalSize()
    ensures files.Request(piece, offset, size) == size
  {
  }

  lemma SubOfSub(flat: seq<byte>, from: nat, size: nat, n: nat)
    requires from + size <= |flat| && n <= size
    ensures Sub(flat, from, size)[..n] == Sub(flat, from, n)
  {
  }

  lemma SubWithin(flat: seq<byte>, from: nat, size: nat, offset: nat, n: nat)
    requires from + size <= |flat| && offset + n <= size
    ensures |Sub(flat, from, size)| == size
    ensures Sub(Sub(flat, from, size), offset, n) == Sub(flat, from + offset, n)
  {
  }

  /** The digests of the first `done` leaves are in place, the other entries are as before. */
  ghost predicate Digested<V2(!new)>(hashes: seq<V2>, before: seq<V2>, leaves: seq<seq<byte>>, done: nat,
                                     sha256: seq<byte> -> V2)
  {
    && |hashes| == |before| && done <= |leaves| && done <= |hashes|
    && (forall k :: 0 <= k < done ==> hashes[k] == sha256(leaves[k]))
    && (forall k :: done <= k < |hashes| ==> hashes[k] == before[k])
  }

  lemma DigestNext<V2(!new)>(hashes: seq<V2>, before: seq<V2>, leaves: seq<seq<byte>>, done: nat,
                             sha256: seq<byte> -> V2)
    requires Digested(hashes, before, leaves, done, sha256) && done < |leaves| && done < |hashes|
    ensures Digested(hashes[done := sha256(leaves[done])], before, leaves, done + 1, sha256)
  {
  }

  lemma DigestNothing<V2(!new)>(hashes: seq<V2>, leaves: seq<seq<byte>>, sha256: seq<byte> -> V2)
    ensures Digested(hashes, hashes, leaves, 0, sha256)
  {
  }

  /** The loop of `async_hash` over the blocks of a piece of which `bytes` holds the first
      `size` bytes. */
  method HashLeaves<V2(!new)>(bytes: seq<byte>, hashes: array<V2>, sha256: seq<byte> -> V2)
    returns (error: StorageError)
    modifies hashes
    ensures error.Failed? <==> hashes.Length < |Leaves(bytes)|
    ensures error.Failed? ==> error.code.Errno? && hashes[..] == old(hashes[..])
    ensures error.NoError? ==> Digested(hashes[..], old(hashes[..]), Leaves(bytes), |Leaves(bytes)|, sha256)
  {
    hide *;
    var blocks := Blocks(|bytes|);
    LeafAt(bytes, 0);
    InvalidArgumentFails(-1, FileRead);
    if hashes.Length < blocks {
      return InvalidArgument(-1, FileRead);
    }
    DigestNothing(hashes[..], Leaves(bytes), sha256);
    for block := 0 to blocks
      invariant Digested(hashes[..], old(hashes[..]), Leaves(bytes), block, sha256)
    {
      LeafAt(bytes, block);
      ghost var before := hashes[..];
      DigestNext(before, old(hashes[..]), Leaves(bytes), block, sha256);
      var offset := block * DEFAULT_BLOCK_SIZE;
      var length := LeafLength(|bytes|, offset);
      hashes[block] := sha256(bytes[offset..offset + length]);
      assert hashes[..] == before[block := sha256(Leaves(bytes)[block])];
    }
    return NoError;
  }

  /** `async_hash`: on success the v1 digest is that of the whole piece and block k's digest is
      that of leaf k of the piece's v2 part; on error nothing was filled in. */
  method HashPiece<V1, V2(!new)>(cache: DescriptorCache, torrent: TorrentStorage, storage: nat, piece: nat,
                          needV1: bool,
                                 hashes: array<V2>, sha1: seq<byte> -> V1, sha256: seq<byte> -> V2, noHash: V1)
    returns (result: V1, error: StorageError)
    requires cache.Valid() && torrent.Valid() && torrent.files.Valid() && piece < torrent.files.NumPieces()
    modifies cache`descriptors, cache`recency, cache`useCounter, hashes
    modifies cache.bridge`names, cache.bridge`bodies, cache.bridge`handles, cache.bridge`directories, cache.bridge`interrupts
    modifies cache.bridge`faults
    ensures cache.bridge.faults >= old(cache.bridge.faults)
    ensures cache.Valid() && cache.bridge.Contents() == old(cache.bridge.Contents())
    ensures Keys(cache.descriptors) <= Keys(old(cache.descriptors)) + torrent.HomeKeys(storage)
    ensures
      var flat := Flat(torrent.View(), cache.bridge.Contents());
      |flat| == torrent.files.TotalSize() &&
      var leaves := Leaves(Piece2(torrent.files, flat, piece));
      && (error.NoError? ==> result == if needV1 then sha1(Piece1(torrent.files, flat, piece)) else noHash)
      && (error.NoError? && hashes.Length > 0 ==> Digested(hashes[..], old(hashes[..]), leaves, |leaves|, sha256))
      && (0 < hashes.Length < |leaves| ==> error.Failed?)
      // Bytes that cannot be read, or too few places for the digests, are what makes it fail.
      && (error.NoError? ==>
            AllPresent(torrent.View(), cache.bridge.Contents(), torrent.files.PieceStart(piece),
                       HashedBytes(torrent.files, piece, needV1, hashes.Length > 0)))
      && (error.Failed? && cache.bridge.faults == old(cache.bridge.faults) ==>
            || !HomesSafe(torrent.View()) || 0 < hashes.Length < |leaves|
            || !AllPresent(torrent.View(), cache.bridge.Contents(), torrent.files.PieceStart(piece),
                           HashedBytes(torrent.files, piece, needV1, hashes.Length > 0)))
    ensures error.Failed? ==> result == noHash && hashes[..] == old(hashes[..])
  {
    hide *;
    var size1, size2 := PieceSizes(torrent.files, piece);
    torrent.ViewWellFormed();
    torrent.files.TotalIs();
    ghost var t, store := torrent.View(), cache.bridge.Contents();
    ghost var flat := Flat(t, store);
    HashedBytesAre(torrent.files, piece, needV1, hashes.Length > 0);
    NoBytes(t, store, torrent.files.PieceStart(piece));
    var needV2 := hashes.Length > 0;
    var bytesToRead := BytesToRead(if needV1 then size1 else 0, if needV2 then size2 else 0);
    ClampWhole(torrent.files, piece, 0, bytesToRead);
    var bytes := new byte[bytesToRead](_ => 0);
    result, error := noHash, NoError;
    if bytesToRead > 0 {
      var transferred;
      transferred, error := ReadBlock(cache, torrent, storage, piece, 0, bytesToRead, bytes);
      if error.Failed? {
        StoppedShort(t, store, torrent.files.PieceStart(piece), bytesToRead, transferred);
        return;
      }
      assert bytes[..] == bytes[..bytesToRead];
      SubOfSub(flat, torrent.files.PieceStart(piece), bytesToRead, size2);
    }
    if needV2 {
      error := HashLeaves(bytes[..size2], hashes, sha256);
    }
    if needV1 && error.NoError? {
      result := sha1(bytes[..size1]);
    }
  }

  /** The digest of up to a block at the offset, refused exactly behind the end; at block k's offset
      it is that of leaf k. */
  ghost predicate BlockDigest<V2(!new)>(part: seq<byte>, offset: nat, sha256: seq<byte> -> V2, result: V2,
                                 error: StorageError) {
    && (error.NoError? ==> offset < |part| && result == sha256(Sub(part, offset, LeafLength(|part|, offset))))
    && (offset >= |part| ==> error == InvalidArgument(-1, FileRead))
    && forall k: nat :: offset == k * DEFAULT_BLOCK_SIZE ==>
                          && (error.NoError? ==> k < |Leaves(part)| && result == sha256(Leaves(part)[k]))
                          && (k >= |Leaves(part)| ==> error == InvalidArgument(-1, FileRead))
  }

  lemma BlockDigestIntro<V2(!new)>(part: seq<byte>, offset: nat, sha256: seq<byte> -> V2, result: V2,
                            error: StorageError)
    requires error.NoError? ==> offset < |part| && result == sha256(Sub(part, offset, LeafLength(|part|, offset)))
    requires offset >= |part| ==> error == InvalidArgument(-1, FileRead)
    ensures BlockDigest(part, offset, sha256, result, error)
  {
    hide Leaves, Sub;
    forall k: nat | offset == k * DEFAULT_BLOCK_SIZE
      ensures k < |Leaves(part)| <==> offset < |part|
      ensures offset < |part| ==> Leaves(part)[k] == Sub(part, offset, LeafLength(|part|, offset))
    {
      LeafAt(part, k);
    }
  }

  lemma LeafLengthIs(size: nat, offset: nat)
    ensures LeafLength(size, offset) > 0 <==> offset < size
  {
  }

  /** `async_hash2`: the digest at block k's offset is the digest `async_hash` stores for block k;
      an offset behind the last block is refused. */
  method HashBlock<V2(!new)>(cache: DescriptorCache, torrent: TorrentStorage, storage: nat, piece: nat, offset: nat,
                             sha256: seq<byte> -> V2, noHash: V2)
    returns (result: V2, error: StorageError)
    requires cache.Valid() && torrent.Valid() && torrent.files.Valid() && piece < torrent.files.NumPieces()
    modifies cache`descriptors, cache`recency, cache`useCounter
    modifies cache.bridge`names, cache.bridge`bodies, cache.bridge`handles, cache.bridge`directories, cache.bridge`interrupts
    modifies cache.bridge`faults
    ensures cache.bridge.faults >= old(cache.bridge.faults)
    ensures cache.Valid() && cache.bridge.Contents() == old(cache.bridge.Contents())
    ensures Keys(cache.descriptors) <= Keys(old(cache.descriptors)) + torrent.HomeKeys(storage)
    ensures
      var flat := Flat(torrent.View(), cache.bridge.Contents());
      |flat| == torrent.files.TotalSize() &&
      BlockDigest(Piece2(torrent.files, flat, piece), offset, sha256, result, error)
    // A block in the piece is hashed exactly if all of it can be read, unless the bridge fails.
    ensures
      var t, store := torrent.View(), cache.bridge.Contents();
      var size := |Piece2(torrent.files, Flat(t, store), piece)|;
      var from, length := torrent.files.PieceStart(piece) + offset, LeafLength(size, offset);
      && (error.NoError? ==> AllPresent(t, store, from, length))
      && (error.Failed? && offset < size && cache.bridge.faults == old(cache.bridge.faults) ==>
            !HomesSafe(t) || !AllPresent(t, store, from, length))
    ensures error.Failed? ==> result == noHash
  {
    hide *;
    var size1, size2 := PieceSizes(torrent.files, piece);
    torrent.ViewWellFormed();
    torrent.files.TotalIs();
    ghost var flat := Flat(torrent.View(), cache.bridge.Contents());
    InvalidArgumentFails(-1, FileRead);
    ghost var part := Piece2(torrent.files, flat, piece);
    var length := LeafLength(size2, offset);
    LeafLengthIs(size2, offset);
    SubWithin(flat, torrent.files.PieceStart(piece), size2, if length > 0 then offset else 0, if length > 0 then length else 0);
    if length <= 0 {
      BlockDigestIntro(part, offset, sha256, noHash, InvalidArgument(-1, FileRead));
      return noHash, InvalidArgument(-1, FileRead);
    }
    var bytes := new byte[length](_ => 0);
    ClampWhole(torrent.files, piece, offset, length);
    var transferred;
    transferred, error := ReadBlock(cache, torrent, storage, piece, offset, length, bytes);
    if error.Failed? {
      StoppedShort(torrent.View(), cache.bridge.Contents(), torrent.files.PieceStart(piece) + offset, length, transferred);
      BlockDigestIntro(part, offset, sha256, noHash, error);
      return noHash, error;
    }
    assert bytes[..] == bytes[..length];
    result := sha256(bytes[..]);
    BlockDigestIntro(part, offset, sha256, result, error);
  }
}
