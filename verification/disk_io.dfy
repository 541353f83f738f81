/**
  The disk-I/O bridge: the five free functions of the FatFs driver table
  (`SD_initialize`, `SD_status`, `SD_read`, `SD_write`, `SD_ioctl`) that
  reach the single SdCard instance. `lun` is accepted and ignored, as in
  the driver.

  `SD_read` and `SD_write` turn the sector number into a byte address by a
  `DWORD` multiplication, which wraps modulo 2^32 before the product is
  widened to 64 bits; `SdRead`/`SdWrite` model that as written and
  `SdReadIntended`/`SdWriteIntended` the 64-bit product the byte address
  evidently should be. Likewise `SdIoctl` models `GET_BLOCK_SIZE` leaving
  the result at `RES_ERROR`, and `SdIoctlIntended` the evident intent.
 */
module DiskIo {
  import opened Hal
  import opened FatFs
  import opened SdTransfer

  /** `SdCard::SDHC_BLOCK_SIZE`: the native sector size of an SDHC card. */
  const SdhcBlockSize: uint32 := 512

  /** What the bridge hands back to FatFs from a read or write, together
      with the transfer it delegated to. */
  datatype DiskTransfer = DiskTransfer(result: DResult, io: BlockIo)

  /** What `SD_ioctl` left in the caller's buffer. */
  datatype IoctlBuffer = Untouched | DwordValue(dword: uint32) | WordValue(word: uint16)

  datatype IoctlResult = IoctlResult(result: DResult, buffer: IoctlBuffer)

  /** `SD_initialize`: reports the drive ready, whatever `lun` is. */
  function SdInitialize(lun: uint8): (s: DStatus)
    ensures DriveReady(s) && !HasFlag(s, StaProtect)
    ensures s == 0
  {
    DResultCode(ResOk)
  }

  /** `SD_status`: reports the drive ready, whatever `lun` is. */
  function SdStatus(lun: uint8): (s: DStatus)
    ensures DriveReady(s) && !HasFlag(s, StaProtect)
    ensures s == 0
  {
    DResultCode(ResOk)
  }

  /** The `DRESULT` the bridge reports for a transfer status. */
  function ToDResult(status: SdError): (r: DResult)
    ensures r == ResOk <==> status == SdOk
    ensures r == ResOk || r == ResError
  {
    if status != SdOk then ResError else ResOk
  }

  /** Byte address of a sector as `SD_read`/`SD_write` compute it. */
  function SectorAddress32(sector: uint32): (addr: uint64)
    ensures addr < 0x1_0000_0000
    ensures sector < 0x80_0000 ==> addr == sector * SdhcBlockSize
  {
    Mul32(sector, SdhcBlockSize)
  }

  /** Byte address of a sector computed without wrap-around. */
  function SectorAddress64(sector: uint32): (addr: uint64)
    ensures addr % SdhcBlockSize == 0 && addr / SdhcBlockSize == sector
  {
    sector * SdhcBlockSize
  }

  /** `SD_read` as written. */
  function SdRead(lun: uint8, sector: uint32, count: uint32, started: SdError, check: nat -> SdError): (r: DiskTransfer)
    ensures |r.io.calls| >= 1
    ensures r.io.calls[0] == ReadBlocksDma(TransferRequest((sector * SdhcBlockSize) % 0x1_0000_0000, SdhcBlockSize, count))
    ensures r.io == ReadBlocks(r.io.calls[0].req, started, check)
    ensures r.result == ResOk <==> r.io.status == SdOk
    ensures r.result == ResOk || r.result == ResError
  {
    var io := ReadBlocks(TransferRequest(SectorAddress32(sector), SdhcBlockSize, count), started, check);
    DiskTransfer(ToDResult(io.status), io)
  }

  /** `SD_write` as written. */
  function SdWrite(lun: uint8, sector: uint32, count: uint32, started: SdError, check: nat -> SdError): (r: DiskTransfer)
    ensures |r.io.calls| >= 1
    ensures r.io.calls[0] == WriteBlocksDma(TransferRequest((sector * SdhcBlockSize) % 0x1_0000_0000, SdhcBlockSize, count))
    ensures r.io == WriteBlocks(r.io.calls[0].req, started, check)
    ensures r.result == ResOk <==> r.io.status == SdOk
    ensures r.result == ResOk || r.result == ResError
  {
    var io := WriteBlocks(TransferRequest(SectorAddress32(sector), SdhcBlockSize, count), started, check);
    DiskTransfer(ToDResult(io.status), io)
  }

  /** `SD_read` with the byte address computed in 64 bits. */
  function SdReadIntended(lun: uint8, sector: uint32, count: uint32, started: SdError, check: nat -> SdError): (r: DiskTransfer)
    ensures |r.io.calls| >= 1
    ensures r.io.calls[0].ReadBlocksDma?
    ensures r.io.calls[0].req.addr / SdhcBlockSize == sector && r.io.calls[0].req.addr % SdhcBlockSize == 0
    ensures r.io.calls[0].req.blockSize == SdhcBlockSize && r.io.calls[0].req.numOfBlocks == count
    ensures r.io == ReadBlocks(r.io.calls[0].req, started, check)
    ensures r.result == ResOk <==> r.io.status == SdOk
    ensures r.result == ResOk || r.result == ResError
  {
    var io := ReadBlocks(TransferRequest(SectorAddress64(sector), SdhcBlockSize, count), started, check);
    DiskTransfer(ToDResult(io.status), io)
  }

  /** `SD_write` with the byte address computed in 64 bits. */
  function SdWriteIntended(lun: uint8, sector: uint32, count: uint32, started: SdError, check: nat -> SdError): (r: DiskTransfer)
    ensures |r.io.calls| >= 1
    ensures r.io.calls[0].WriteBlocksDma?
    ensures r.io.calls[0].req.addr / SdhcBlockSize == sector && r.io.calls[0].req.addr % SdhcBlockSize == 0
    ensures r.io.calls[0].req.blockSize == SdhcBlockSize && r.io.calls[0].req.numOfBlocks == count
    ensures r.io == WriteBlocks(r.io.calls[0].req, started, check)
    ensures r.result == ResOk <==> r.io.status == SdOk
    ensures r.result == ResOk || r.result == ResError
  {
    var io := WriteBlocks(TransferRequest(SectorAddress64(sector), SdhcBlockSize, count), started, check);
    DiskTransfer(ToDResult(io.status), io)
  }

  /** Number of whole sectors on a card, as the `DWORD` `GET_SECTOR_COUNT`
      stores (truncated to 32 bits). */
  function SectorCount(cardCapacity: uint64): (n: uint32)
    ensures cardCapacity < 0x200_0000_0000 ==> n * SdhcBlockSize <= cardCapacity < (n + 1) * SdhcBlockSize
  {
    (cardCapacity / SdhcBlockSize) % 0x1_0000_0000
  }

  /** `SD_ioctl` as written. */
  function SdIoctl(lun: uint8, cmd: uint8, cardCapacity: uint64): (r: IoctlResult)
    ensures r.result == ResParErr <==> cmd > GetBlockSize
    ensures r.result == ResOk <==> cmd < GetBlockSize
    ensures cmd == GetBlockSize ==> r.result == ResError
    ensures r.buffer == Untouched <==> cmd == CtrlSync || cmd > GetBlockSize
    ensures cmd == GetSectorCount ==> r.buffer.DwordValue?
    ensures cmd == GetSectorCount && cardCapacity < 0x200_0000_0000 ==>
      r.buffer.dword * SdhcBlockSize <= cardCapacity < (r.buffer.dword + 1) * SdhcBlockSize
    ensures cmd == GetSectorSize ==> r.buffer == WordValue(SdhcBlockSize)
    ensures cmd == GetBlockSize ==> r.buffer == DwordValue(SdhcBlockSize)
  {
    if cmd == CtrlSync then IoctlResult(ResOk, Untouched)
    else if cmd == GetSectorCount then IoctlResult(ResOk, DwordValue(SectorCount(cardCapacity)))
    else if cmd == GetSectorSize then IoctlResult(ResOk, WordValue(SdhcBlockSize))
    else if cmd == GetBlockSize then IoctlResult(ResError, DwordValue(SdhcBlockSize))
    else IoctlResult(ResParErr, Untouched)
  }

  /** `SD_ioctl` with `GET_BLOCK_SIZE` reporting success like the other
      supported commands. */
  function SdIoctlIntended(lun: uint8, cmd: uint8, cardCapacity: uint64): (r: IoctlResult)
    ensures r.result == ResOk <==> cmd <= GetBlockSize
    ensures r.result == ResOk || r.result == ResParErr
    ensures r.result == ResParErr ==> r.buffer == Untouched
    ensures r.buffer == SdIoctl(lun, cmd, cardCapacity).buffer
    ensures cmd == GetSectorCount ==> r.buffer == DwordValue(SectorCount(cardCapacity))
    ensures cmd == GetSectorSize ==> r.buffer == WordValue(SdhcBlockSize)
    ensures cmd == GetBlockSize ==> r.buffer == DwordValue(SdhcBlockSize)
  {
    var r := SdIoctl(lun, cmd, cardCapacity);
    if cmd == GetBlockSize then IoctlResult(ResOk, r.buffer) else r
  }

  /** The as-written ioctl reports an error for a command it supports and
      answers: the buffer is written, yet the result is `RES_ERROR`. */
  lemma IoctlBlockSizeReportsError(lun: uint8, cardCapacity: uint64)
    ensures SdIoctl(lun, GetBlockSize, cardCapacity).buffer != Untouched
    ensures SdIoctl(lun, GetBlockSize, cardCapacity).result == ResError
    ensures SdIoctlIntended(lun, GetBlockSize, cardCapacity).result == ResOk
  {
  }

  /** The example capacity of 8 GiB reports 16,777,216 sectors. */
  lemma SectorCountOf8GiB()
    ensures SdIoctl(0, GetSectorCount, 0x2_0000_0000) == IoctlResult(ResOk, DwordValue(16_777_216))
  {
  }

  /** Every sector that `GET_SECTOR_COUNT` reports lies inside the card
      when addressed in 64 bits, and distinct sectors get distinct
      addresses. */
  lemma IntendedAddressesInsideCard(cardCapacity: uint64, s1: uint32, s2: uint32)
    requires cardCapacity < 0x200_0000_0000
    requires s1 < SectorCount(cardCapacity) && s2 < SectorCount(cardCapacity)
    ensures SectorAddress64(s1) + SdhcBlockSize <= cardCapacity
    ensures s1 != s2 ==> SectorAddress64(s1) != SectorAddress64(s2)
  {
  }

  /** Below 4 GiB the as-written address equals the intended one. */
  lemma AddressesAgreeBelow4GiB(lun: uint8, sector: uint32, count: uint32, started: SdError, check: nat -> SdError)
    requires sector < 0x80_0000
    ensures SdRead(lun, sector, count, started, check) == SdReadIntended(lun, sector, count, started, check)
    ensures SdWrite(lun, sector, count, started, check) == SdWriteIntended(lun, sector, count, started, check)
  {
  }

  /** On an 8 GiB card, sector 0x80_0000 is one that `GET_SECTOR_COUNT`
      reports, yet `SD_read` and `SD_write` as written address it at byte 0,
      the address of sector 0. */
  lemma SectorAddressWrapsOn8GiBCard(lun: uint8, count: uint32, started: SdError, check: nat -> SdError)
    ensures 0x80_0000 < SectorCount(0x2_0000_0000)
    ensures SdRead(lun, 0x80_0000, count, started, check) == SdRead(lun, 0, count, started, check)
    ensures SdWrite(lun, 0x80_0000, count, started, check) == SdWrite(lun, 0, count, started, check)
    ensures SdReadIntended(lun, 0x80_0000, count, started, check).io.calls[0].req.addr == 0x1_0000_0000
  {
  }
}
