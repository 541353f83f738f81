/**
  The vocabulary of the FatFs disk-I/O contract and file API that the SD
  card driver implements and calls: disk status flags, disk results, ioctl
  command codes and file-function results. The FatFs library itself is not
  modelled; its calls appear in the model only as the results they returned.
 */
module FatFs {
  import opened Hal

  /** DSTATUS: a bit set of drive status flags; 0 means "ready". */
  type DStatus = uint8

  const StaNoInit: DStatus := 0x01
  const StaNoDisk: DStatus := 0x02
  const StaProtect: DStatus := 0x04

  predicate HasFlag(s: DStatus, flag: DStatus)
    requires flag in {StaNoInit, StaNoDisk, StaProtect}
  {
    (s / flag) % 2 == 1
  }

  /** A drive is usable when it is neither uninitialised nor missing. */
  predicate DriveReady(s: DStatus)
  {
    !HasFlag(s, StaNoInit) && !HasFlag(s, StaNoDisk)
  }

  /** DRESULT, in declaration order. */
  datatype DResult = ResOk | ResError | ResWrPrt | ResNotRdy | ResParErr

  /** Numeric value of a DRESULT (the enumeration starts at 0). */
  function DResultCode(r: DResult): (c: uint8)
    ensures c == 0 <==> r == ResOk
  {
    match r
    case ResOk => 0
    case ResError => 1
    case ResWrPrt => 2
    case ResNotRdy => 3
    case ResParErr => 4
  }

  /** Generic ioctl command codes. */
  const CtrlSync: uint8 := 0
  const GetSectorCount: uint8 := 1
  const GetSectorSize: uint8 := 2
  const GetBlockSize: uint8 := 3

  /** FRESULT, the result of every FatFs file function. */
  datatype FResult =
    | FrOk
    | FrDiskErr
    | FrIntErr
    | FrNotReady
    | FrNoFile
    | FrNoPath
    | FrInvalidName
    | FrDenied
    | FrExist
    | FrInvalidObject
    | FrWriteProtected
    | FrInvalidDrive
    | FrNotEnabled
    | FrNoFilesystem
    | FrMkfsAborted
    | FrTimeout
    | FrLocked
    | FrNotEnoughCore
    | FrTooManyOpenFiles
    | FrInvalidParameter
}
