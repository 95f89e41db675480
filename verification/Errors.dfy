/** Error codes, as the disk jobs report them to their handlers. */
module Errors {
  import opened Bytes

  const ENOENT: int := 2
  const EINTR: int := 4
  const EIO: int := 5
  const EEXIST: int := 17
  const EINVAL: int := 22
  const EOPNOTSUPP: int := 95
  const INT_MAX: int := 0x7fff_ffff

  datatype ErrorCode = Errno(value: nat) | EndOfFile | OperationAborted

  datatype Operation =
    | FileOpen | FileRead | FileWrite | FileStat | FileTruncate | FileRename | FileRemove
    | PartfileRead | PartfileWrite | Mkdir | FileHardLink

  /** `file` is -1 when the error is not about one file. */
  datatype StorageError = NoError | Failed(code: ErrorCode, file: int, operation: Operation)

  /** A bridge reports failure as a negative errno, which is capped to an `int`. */
  function MakeError(result: int, file: int, operation: Operation): (e: StorageError)
    ensures e.Failed? <==> result < 0
    ensures e.Failed? ==> e.code.Errno? && e.file == file
    ensures -INT_MAX <= result < 0 ==> e == Failed(Errno(-result), file, operation)
    ensures result < -INT_MAX ==> e == Failed(Errno(INT_MAX), file, operation)
  {
    if result >= 0 then NoError else Failed(Errno(Min(-result, INT_MAX)), file, operation)
  }

  /** The status flags a job reports besides its error. */
  datatype Status = Status(fatalDiskError: bool, needFullCheck: bool, fileExist: bool, oversizedFile: bool)

  const NO_STATUS: Status := Status(false, false, false, false)

  lemma NoStatus()
    ensures NO_STATUS == Status(false, false, false, false)
  {
  }

  function InvalidArgument(file: int, operation: Operation): StorageError {
    Failed(Errno(EINVAL), file, operation)
  }

  lemma InvalidArgumentFails(file: int, operation: Operation)
    ensures InvalidArgument(file, operation) == Failed(Errno(22), file, operation)
  {
  }

  lemma ErrnoPositive()
    ensures EIO > 0 && EINTR > 0 && ENOENT > 0
  {
  }
}
