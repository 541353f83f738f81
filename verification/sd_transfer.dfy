/**
  DMA-backed block transfer of the SD card driver (`SdCard::readBlocks` and
  `SdCard::writeBlocks`): start the DMA transfer, then poll the completion
  primitive, retrying only while it reports a data timeout, for at most
  255 polls because the retry counter is a `uint8_t` starting at 0xFF.

  The HAL is an input: `started` is what `HAL_SD_ReadBlocks_DMA` (or
  `HAL_SD_WriteBlocks_DMA`) returned and `check(i)` is what the (i+1)-th
  call of `HAL_SD_CheckReadOperation` (or `HAL_SD_CheckWriteOperation`)
  would return.
 */
module SdTransfer {
  import opened Hal

  /** Initial value of the `uint8_t repeatNr` counter, and hence the
      largest number of completion checks one transfer makes. */
  const RetryLimit: uint8 := 0xFF

  /** Arguments handed to the HAL's DMA start call. */
  datatype TransferRequest = TransferRequest(addr: uint64, blockSize: uint32, numOfBlocks: uint32)

  /** The HAL SD calls one transfer makes, in order. */
  datatype SdCall =
    | ReadBlocksDma(req: TransferRequest)
    | CheckReadOperation
    | WriteBlocksDma(req: TransferRequest)
    | CheckWriteOperation

  /** Outcome of one transfer: the status returned to the caller and the
      HAL calls made. */
  datatype BlockIo = BlockIo(status: SdError, calls: seq<SdCall>)

  /** Outcome of the polling loop alone. */
  datatype Completion = Completion(status: SdError, checks: nat)

  /** Reference description of a finished polling loop that made `n`
      checks and ended with `status`: the loop stopped at the first
      status other than a data timeout, or after 255 timeouts. */
  ghost predicate IsCompletion(check: nat -> SdError, status: SdError, n: nat)
  {
    && 1 <= n <= RetryLimit
    && status == check(n - 1)
    && (forall i :: 0 <= i < n - 1 ==> check(i) == SdDataTimeout)
    && (status == SdDataTimeout ==> n == RetryLimit)
  }

  /** The do-while loop: `done` checks have been made and the counter holds
      `repeatNr`; the next check is made, and the loop goes on only while it
      reports a data timeout and `--repeatNr > 0`. */
  function PollLoop(check: nat -> SdError, done: nat, repeatNr: uint8): (c: Completion)
    requires 0 < repeatNr && done + repeatNr == RetryLimit
    decreases repeatNr
    ensures done < c.checks <= RetryLimit
    ensures c.status == check(c.checks - 1)
    ensures forall i :: done <= i < c.checks - 1 ==> check(i) == SdDataTimeout
    ensures c.status == SdDataTimeout ==> c.checks == RetryLimit
  {
    var status := check(done);
    if status == SdDataTimeout && Dec8(repeatNr) > 0 then
      PollLoop(check, done + 1, Dec8(repeatNr))
    else
      Completion(status, done + 1)
  }

  /** The whole loop, from the counter's initial value. */
  function Poll(check: nat -> SdError): (c: Completion)
    ensures IsCompletion(check, c.status, c.checks)
  {
    PollLoop(check, 0, RetryLimit)
  }

  /** `SdCard::readBlocks`. */
  function ReadBlocks(req: TransferRequest, started: SdError, check: nat -> SdError): (io: BlockIo)
    ensures |io.calls| >= 1 && io.calls[0] == ReadBlocksDma(req)
    ensures forall i :: 1 <= i < |io.calls| ==> io.calls[i] == CheckReadOperation
    ensures started != SdOk ==> io.status == started && |io.calls| == 1
    ensures started == SdOk ==> IsCompletion(check, io.status, |io.calls| - 1)
  {
    if started != SdOk then
      BlockIo(started, [ReadBlocksDma(req)])
    else
      var c := Poll(check);
      BlockIo(c.status, [ReadBlocksDma(req)] + seq(c.checks, _ => CheckReadOperation))
  }

  /** `SdCard::writeBlocks`: the same policy in the outbound direction. */
  function WriteBlocks(req: TransferRequest, started: SdError, check: nat -> SdError): (io: BlockIo)
    ensures |io.calls| >= 1 && io.calls[0] == WriteBlocksDma(req)
    ensures forall i :: 1 <= i < |io.calls| ==> io.calls[i] == CheckWriteOperation
    ensures started != SdOk ==> io.status == started && |io.calls| == 1
    ensures started == SdOk ==> IsCompletion(check, io.status, |io.calls| - 1)
  {
    if started != SdOk then
      BlockIo(started, [WriteBlocksDma(req)])
    else
      var c := Poll(check);
      BlockIo(c.status, [WriteBlocksDma(req)] + seq(c.checks, _ => CheckWriteOperation))
  }

  /** The reference description pins the loop's outcome down: at most one
      (status, count) pair fits a given sequence of poll results. */
  lemma CompletionIsUnique(check: nat -> SdError, s1: SdError, n1: nat, s2: SdError, n2: nat)
    requires IsCompletion(check, s1, n1) && IsCompletion(check, s2, n2)
    ensures s1 == s2 && n1 == n2
  {
  }

  /** If the first `n` polls (n < 255) time out and poll n+1 reports anything
      else, both transfers return that status after exactly n+1 checks. */
  lemma StopsAtFirstNonTimeout(req: TransferRequest, check: nat -> SdError, n: nat)
    requires n < RetryLimit
    requires forall i :: 0 <= i < n ==> check(i) == SdDataTimeout
    requires check(n) != SdDataTimeout
    ensures ReadBlocks(req, SdOk, check).status == check(n)
    ensures |ReadBlocks(req, SdOk, check).calls| == n + 2
    ensures WriteBlocks(req, SdOk, check).status == check(n)
    ensures |WriteBlocks(req, SdOk, check).calls| == n + 2
  {
  }

  /** Timeouts followed by success: `n` timeouts then `SD_OK` gives `SD_OK`
      after exactly n+1 checks. */
  lemma TimeoutsThenOk(req: TransferRequest, check: nat -> SdError, n: nat)
    requires n < RetryLimit
    requires forall i :: 0 <= i < n ==> check(i) == SdDataTimeout
    requires check(n) == SdOk
    ensures ReadBlocks(req, SdOk, check) == BlockIo(SdOk, [ReadBlocksDma(req)] + seq(n + 1, _ => CheckReadOperation))
    ensures WriteBlocks(req, SdOk, check) == BlockIo(SdOk, [WriteBlocksDma(req)] + seq(n + 1, _ => CheckWriteOperation))
  {
  }

  /** 255 timeouts in a row exhaust the counter: the transfer returns
      `SD_DATA_TIMEOUT` after exactly 255 checks. */
  lemma AllTimeouts(req: TransferRequest, check: nat -> SdError)
    requires forall i :: 0 <= i < RetryLimit ==> check(i) == SdDataTimeout
    ensures ReadBlocks(req, SdOk, check).status == SdDataTimeout
    ensures |ReadBlocks(req, SdOk, check).calls| == RetryLimit + 1
    ensures WriteBlocks(req, SdOk, check).status == SdDataTimeout
    ensures |WriteBlocks(req, SdOk, check).calls| == RetryLimit + 1
  {
  }
}
