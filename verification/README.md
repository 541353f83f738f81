# SD card driver and time-keeping of StmPlusPlus, in Dafny

This project models the sequential logic at the core of the StmPlusPlus
driver library for STM32F4 boards:

- **Block transfer with bounded retry** (`SdCard::readBlocks`,
  `SdCard::writeBlocks`). A DMA transfer is started, then its completion
  is polled. Polling continues only while the HAL reports
  `SD_DATA_TIMEOUT`, and for at most 255 polls, because the counter is a
  `uint8_t` that starts at 0xFF and is pre-decremented.
- **The FatFs disk-I/O bridge** (`SD_initialize`, `SD_status`, `SD_read`,
  `SD_write`, `SD_ioctl`). These turn sector numbers into byte addresses,
  map transfer statuses to `DRESULT`, and answer the generic ioctl
  commands.
- **The SdCard lifecycle.**
  - `start`: presence check, bus bring-up, wide bus, card status, SDIO
    interrupt, both DMA streams and their interrupts. It stops at the
    first failing call and undoes nothing.
  - `stop`, `mountFatFs` and `openAppend`.
- **Time-keeping.** The `RealTimeClock` millisecond and second
  interrupt handlers, and the `PeriodicalEvent` scheduler with its
  optional occurrence limit.
- **`AnalogToDigitConverter::getValue`**: a guard with a fallback value.

Every HAL and FatFs call is an input to the model: the status it returned.

- `HAL_SD_CheckReadOperation`/`HAL_SD_CheckWriteOperation` are a total
  function `check: nat -> SdError`, where `check(i)` is the result of poll
  i+1.
- The lifecycle operations take a record of step outcomes. They return
  whether they succeeded and the trace of effects they performed, in
  order.

The model uses no I/O, clock or randomness.

Modules: `Hal` (fixed-width integers, `--` on `uint8_t`, `DWORD`
multiplication, HAL statuses), `FatFs` (FatFs result and command
vocabulary), `SdTransfer`, `DiskIo`, `SdCard`, `Rtc`, `PeriodicalEvents`,
`Adc`.

Facts about the code that the model keeps as they are:

- The retry loop makes at most 255 checks in total, that is, 254 retries.
- `GET_BLOCK_SIZE` answers `RES_ERROR`, not success.
- `SD_read`/`SD_write` pass the byte address through unchanged. Nothing
  truncates it to block granularity, apart from the 32-bit wrap of the
  product.

## Model

| member | source | states |
|---|---|---|
| `SdTransfer.PollLoop` | src/src/StmPlusPlus/Devices/SdCard.cpp:389-394 | From a counter value `repeatNr`, the do-while loop makes at least one and at most `repeatNr` more checks. It returns the last check's status, every check before that was a data timeout, and a final timeout means the counter ran out. |
| `SdTransfer.Poll` | src/src/StmPlusPlus/Devices/SdCard.cpp:389-394 | From the initial 0xFF, the loop's outcome satisfies `IsCompletion`: 1 to 255 checks, stopped at the first non-timeout status or after 255 timeouts. |
| `SdTransfer.ReadBlocks` | src/src/StmPlusPlus/Devices/SdCard.cpp:384-406 | The first call is always `HAL_SD_ReadBlocks_DMA` with the request, and every later call is `HAL_SD_CheckReadOperation`. If the start fails, its status is returned unchanged and no check is made. Otherwise the checks and the result follow the bounded-retry description. |
| `SdTransfer.WriteBlocks` | src/src/StmPlusPlus/Devices/SdCard.cpp:409-431 | The same as `ReadBlocks` for the outbound direction, with `HAL_SD_WriteBlocks_DMA` and `HAL_SD_CheckWriteOperation`. |
| `SdTransfer.CompletionIsUnique` | src/src/StmPlusPlus/Devices/SdCard.cpp:389-396 | The bounded-retry description fixes the outcome: at most one (status, number of checks) pair fits a given series of poll results. |
| `SdTransfer.StopsAtFirstNonTimeout` | src/src/StmPlusPlus/Devices/SdCard.cpp:389-405 | If the first N polls (N < 255) time out and poll N+1 reports anything else, both transfers return that status after exactly N+1 checks. |
| `SdTransfer.TimeoutsThenOk` | src/src/StmPlusPlus/Devices/SdCard.cpp:389-396 | N timeouts (N < 255) followed by `SD_OK` make both transfers return `SD_OK`, with exactly N+1 check calls after the start. |
| `SdTransfer.AllTimeouts` | src/src/StmPlusPlus/Devices/SdCard.cpp:389-396 | 255 timeouts in a row make both transfers return `SD_DATA_TIMEOUT` after exactly 255 checks. |
| `DiskIo.SdInitialize` | src/src/StmPlusPlus/Devices/SdCard.cpp:41-44 | The returned drive status is 0 for any `lun`: neither the not-initialised nor the no-disk nor the write-protect flag is set. |
| `DiskIo.SdStatus` | src/src/StmPlusPlus/Devices/SdCard.cpp:51-54 | The returned drive status is 0 for any `lun`: neither the not-initialised nor the no-disk nor the write-protect flag is set. |
| `DiskIo.ToDResult` | src/src/StmPlusPlus/Devices/SdCard.cpp:68 | `RES_OK` exactly when the transfer status is `SD_OK`, and otherwise `RES_ERROR`. The specific status is lost. |
| `DiskIo.SectorAddress32` | src/src/StmPlusPlus/Devices/SdCard.cpp:67 | The as-written byte address is below 2^32. It equals sector × 512 only for sectors below 0x800000, that is, below 4 GiB. |
| `DiskIo.SectorAddress64` | src/src/StmPlusPlus/Devices/SdCard.cpp:67 | The intended byte address is block-aligned and divides back to the sector number. |
| `DiskIo.SdRead` | src/src/StmPlusPlus/Devices/SdCard.cpp:64-69 | Delegates to `readBlocks` with address (sector × 512) mod 2^32, block size 512 and `count` unchanged. The result is `RES_OK` iff the transfer returned `SD_OK`, and `RES_ERROR` otherwise. |
| `DiskIo.SdWrite` | src/src/StmPlusPlus/Devices/SdCard.cpp:79-84 | Delegates to `writeBlocks` with address (sector × 512) mod 2^32, block size 512 and `count` unchanged. The result is `RES_OK` iff the transfer returned `SD_OK`, and `RES_ERROR` otherwise. |
| `DiskIo.SdReadIntended` | src/src/StmPlusPlus/Devices/SdCard.cpp:64-69 | The corrected read: its address divides back to the sector. Otherwise it behaves as `SD_read`: block size 512, `count` unchanged, and `RES_OK` iff the transfer returned `SD_OK`, else `RES_ERROR`. |
| `DiskIo.SdWriteIntended` | src/src/StmPlusPlus/Devices/SdCard.cpp:79-84 | The corrected write: its address divides back to the sector. Otherwise it behaves as `SD_write`: block size 512, `count` unchanged, and `RES_OK` iff the transfer returned `SD_OK`, else `RES_ERROR`. |
| `DiskIo.SectorCount` | src/src/StmPlusPlus/Devices/SdCard.cpp:105-108 | For cards below 2 TiB, the stored `DWORD` is the number of whole 512-byte sectors that fit in `CardCapacity`. |
| `DiskIo.SdIoctl` | src/src/StmPlusPlus/Devices/SdCard.cpp:93-125 | `RES_PARERR` exactly for unknown commands, and `RES_OK` exactly for `CTRL_SYNC`, `GET_SECTOR_COUNT` and `GET_SECTOR_SIZE`. `GET_BLOCK_SIZE` writes 512 yet answers `RES_ERROR`. The buffer is untouched exactly for `CTRL_SYNC` and unknown commands. `GET_SECTOR_COUNT` stores the whole-sector count as a `DWORD`, and `GET_SECTOR_SIZE` stores 512 as a `WORD`. |
| `DiskIo.SdIoctlIntended` | src/src/StmPlusPlus/Devices/SdCard.cpp:116-119 | The corrected ioctl: `RES_OK` exactly for the four supported commands and `RES_PARERR` otherwise. For every command the buffer is exactly what the as-written ioctl leaves in it. |
| `DiskIo.IoctlBlockSizeReportsError` | src/src/StmPlusPlus/Devices/SdCard.cpp:116-119 | For `GET_BLOCK_SIZE`, the as-written ioctl fills the buffer yet reports `RES_ERROR`, where the corrected one reports `RES_OK`. |
| `DiskIo.SectorCountOf8GiB` | src/src/StmPlusPlus/Devices/SdCard.cpp:105-108 | An 8 GiB card reports 16,777,216 sectors. |
| `DiskIo.IntendedAddressesInsideCard` | src/src/StmPlusPlus/Devices/SdCard.cpp:64-69 | Every sector below the reported sector count is addressed inside the card by the corrected bridge, and distinct sectors get distinct addresses. |
| `DiskIo.AddressesAgreeBelow4GiB` | src/src/StmPlusPlus/Devices/SdCard.cpp:64-69 | For sectors below 0x800000, the as-written read and write equal the corrected ones. |
| `DiskIo.SectorAddressWrapsOn8GiBCard` | src/src/StmPlusPlus/Devices/SdCard.cpp:64-69 | On an 8 GiB card, sector 0x800000 is within the reported sector count, yet as written it is read and written at byte 0, the address of sector 0. |
| `SdCard.Start` | src/src/StmPlusPlus/Devices/SdCard.cpp:162-276 | With no card present: false, and no port-mode, clock or HAL effect. With a card, the trace is a prefix of the full start sequence in source order. On success it is the whole sequence. On failure it ends exactly at the first failing checked call, and no earlier checked call failed. |
| `SdCard.StartOkIff` | src/src/StmPlusPlus/Devices/SdCard.cpp:162-276 | `start` returns true iff a card is present and `HAL_SD_Init`, the wide-bus configuration, the card-status read and both `HAL_DMA_Init` calls succeed. |
| `SdCard.StartNeverRollsBack` | src/src/StmPlusPlus/Devices/SdCard.cpp:185-254 | No trace of `start` contains a disable, de-init or clock-off effect. In particular, once the card is up the SDIO interrupt stays enabled even when the RX or the TX DMA stream then fails to initialise. |
| `SdCard.StartPriorities` | src/src/StmPlusPlus/Devices/SdCard.cpp:207-265 | After a successful `start`, the SDIO interrupt is set to `irqPrio.first`, both DMA interrupts to `irqPrio.first + 1`, and all three are enabled. |
| `SdCard.Stop` | src/src/StmPlusPlus/Devices/SdCard.cpp:372-381 | `stop` disables the SDIO, RX DMA and TX DMA interrupts, de-initialises both DMA streams and the card, and switches the SDIO clock off as its last effect. |
| `SdCard.StopOnlyTearsDown` | src/src/StmPlusPlus/Devices/SdCard.cpp:372-381 | Every effect of `stop` is a teardown effect: nothing is enabled or initialised. |
| `SdCard.TeardownOfFullStart` | src/src/StmPlusPlus/Devices/SdCard.cpp:162-276 | Undoing a full `start` in reverse order gives the DMA interrupts, the TX stream, the RX stream, the SDIO interrupt, the card and the SDIO clock, in that order. |
| `SdCard.StopReversesStart` | src/src/StmPlusPlus/Devices/SdCard.cpp:372-381 | `stop` is exactly the undo of every undoable effect of a full `start`, in reverse order: TX IRQ, RX IRQ, TX DMA, RX DMA, SDIO IRQ, SD de-init, clock off. |
| `SdCard.MountFatFs` | src/src/StmPlusPlus/Devices/SdCard.cpp:279-315 | Succeeds iff link, mount, get-label and get-cwd all succeed. It runs them in that order and stops right after the first failure. |
| `SdCard.OpenAtEnd` | src/src/StmPlusPlus/Devices/SdCard.cpp:358-368 | The trace is a prefix of open, seek, close, in that order. Seeks iff the open succeeded. Closes iff the open succeeded and the seek failed, and then returns the seek's error. A failed open returns the open's result. The result is `FR_OK` iff both succeeded. |
| `SdCard.OpenAppend` | src/src/StmPlusPlus/Devices/SdCard.cpp:348-369 | A failed `start` gives `FR_NOT_READY` with nothing after it. A failed mount gives `FR_NO_FILESYSTEM` with no file call. Otherwise the start, mount and file phases run in sequence. `FR_OK` iff every step succeeded. |
| `Rtc.OnMilliSecondInterrupt` | src/src/StmPlusPlus/StmPlusPlus.cpp:534-543 | `syncMs2` always increments. `timeMillisec` and `syncMs1` move together, by one exactly when `syncMs1 < 999`. The clock invariant is preserved. |
| `Rtc.OnSecondInterrupt` | src/src/StmPlusPlus/StmPlusPlus.cpp:546-567 | With the wake-up flag clear, nothing changes. With it set: `timeSec` increments, `timeMillisec` becomes `timeSec*1000`, `errorMs` becomes the old `syncMs2 + 1 - 1000`, and both sync counters become 0. The invariant is preserved, and the millisecond time strictly increases. |
| `Rtc.RunKeepsValid` | src/src/StmPlusPlus/StmPlusPlus.cpp:534-567 | Any sequence of interrupts keeps `timeMillisec == timeSec*1000 + syncMs1` with `0 <= syncMs1 <= 999`. It never decreases the millisecond time, and it advances `timeSec` by the number of wake-ups. |
| `Rtc.ReachableClockIsValid` | src/src/StmPlusPlus/StmPlusPlus.cpp:465-471 | From the constructor's all-zero state, every reachable clock satisfies the invariant, has `timeMillisec / 1000 == timeSec`, and has counted exactly the wake-ups. |
| `PeriodicalEvents.NewPeriodicalEvent` | src/src/StmPlusPlus/StmPlusPlus.cpp:711-719 | A new event has last-event time 0 and occurrence count 0, keeps its delay and limit, is within its limit and is not exhausted. |
| `PeriodicalEvents.ResetTime` | src/src/StmPlusPlus/StmPlusPlus.cpp:722-726 | Sets the last event time to the RTC's millisecond time and the count to 0. The result is not exhausted. |
| `PeriodicalEvents.IsOccured` | src/src/StmPlusPlus/StmPlusPlus.cpp:729-745 | When exhausted: false, with the state unchanged. Otherwise it fires iff `now >= lastEventTime + delay`. Firing sets `lastEventTime := now`, and not firing changes nothing. The count increments only on a firing with a positive limit. The bound on the count is preserved. |
| `PeriodicalEvents.OccurrencesWithinLimit` | src/src/StmPlusPlus/StmPlusPlus.cpp:729-745 | With a positive limit, any series of polls fires at most `maxOccurrence - occurred` times, and the count records each firing. |
| `PeriodicalEvents.NewUnlimitedEventNeverExhausts` | src/src/StmPlusPlus/StmPlusPlus.cpp:711-719 | An event constructed with the default limit -1 is not exhausted after any series of polls. |
| `PeriodicalEvents.UnlimitedNeverExhausts` | src/src/StmPlusPlus/StmPlusPlus.cpp:738-741 | With a non-positive limit, such as the default -1, the count stays 0 over any series of polls, so the event is never exhausted. |
| `PeriodicalEvents.OccurrencesAreSpaced` | src/src/StmPlusPlus/StmPlusPlus.cpp:735-743 | Of two adjacent polls that both fire, the second one's RTC time is at least `delay` milliseconds after the first one's. Polls that do not fire leave the event unchanged (`IsOccured`), so this spacing holds between any two consecutive occurrences. |
| `Adc.GetValue` | src/src/StmPlusPlus/StmPlusPlus.cpp:858-874 | With `hadc` NULL: `INVALID_VALUE` and no HAL call. Otherwise `HAL_ADC_Start` comes first and `HAL_ADC_Stop` last, exactly once. The poll happens iff the start succeeded. The value is read, and returned, iff both succeeded; otherwise the result is `INVALID_VALUE`. Before the stop, the calls are a prefix of start, poll, read: each at most once, and the read only after the poll. |
| `Adc.ValidReadingIsConversion` | src/src/StmPlusPlus/StmPlusPlus.cpp:858-874 | Any result other than `INVALID_VALUE` is the converted value from a started ADC whose start and poll both succeeded. |

## Left out

- HAL internals (`HAL_SD_*`, `HAL_DMA_*`, `HAL_NVIC_*`, `HAL_ADC_*`) and the FatFs library are foreign code. Each call is an input status, and the data they move is not modelled. So the read-after-write round trip and the append-position behaviour of `openAppend` cannot be stated.
- The SDIO and DMA configuration field values written in `start` are hardware constants. The trace records only the calls, their order and the interrupt priorities.
- `SDHC_BLOCK_SIZE` and `INVALID_VALUE` are declared in `SdCard.h` and `StmPlusPlus.h`, which are not part of this model. They are taken as 512, the SDHC sector size, and 0xFFFFFFFF.
- The widths of `time_ms`, the `syncMs` counters, `errorMs`, `delay` and `occurred` are declared in headers that are not part of this model. They are unbounded integers, so any overflow of `lastEventTime + delay` is not modelled.
- The singleton `SdCard::getInstance()` and `getSdCardInfo()` are not modelled as objects. The bridge takes the transfer outcomes and the card capacity as arguments, and `lun` is ignored as in the source.
- `isCardInserted` is an input, `inserted`, read once.
- `clearPort` is never called by the modelled operations.
- The volume label, serial number and current directory that `mountFatFs` reads are not kept. Only whether each call succeeded is modelled.
- `SdCard::listFiles` and all `USART_DEBUG` logging only produce log output.
- `HAL_IncTick` in the millisecond handler is left out. So are the user `onRtcWakeUp` handler and the flag-clearing in the second handler.
- Preemption and races between the two RTC handlers are left out: the handlers are sequential transitions.
- `PeriodicalEvent` keeps a reference to the RTC. Here each call receives the RTC state instead, and `isOccured`'s two reads of `getTimeMillisec()` see the same value.
- `AnalogToDigitConverter::getVoltage` uses floating point.
- `AnalogToDigitConverter` start/stop/constructor, `RealTimeClock::start`/`stop`, `System::setClock`, `IOPort`/`IOPin`, `Usart`, `Timer` and `Spi` are left out. They are straight-line register configuration.
- The constructor's default interrupt priority `irqPrio(5,0)` is not a constant of the model. `Start` takes the priority as a parameter, and its lemmas hold for every priority.
- The 10,000 ms timeout that `getValue` passes to `HAL_ADC_PollForConversion` is not modelled. Whether the poll succeeds is an input.
- `stop` leaves the DMA2 clock enabled and the ports in alternate-function mode. `StopReversesStart` states this by giving those effects no undo.

## Findings

| source | as written | input that shows it | evidently intended | confidence | as-written member | corrected member |
|---|---|---|---|---|---|---|
| src/src/StmPlusPlus/Devices/SdCard.cpp:67 | `sector * SDHC_BLOCK_SIZE` is multiplied as a 32-bit `DWORD` and only then widened to `uint64_t` | Sector 0x800000 on an 8 GiB card, which `GET_SECTOR_COUNT` reports as 16,777,216 sectors, is read from byte address 0, the address of sector 0. | the 64-bit byte address sector × 512 | high, provided `SDHC_BLOCK_SIZE` is a 32-bit constant; not executed | `DiskIo.SdRead` (shown by `DiskIo.SectorAddressWrapsOn8GiBCard`) | `DiskIo.SdReadIntended` (proved in `DiskIo.IntendedAddressesInsideCard`) |
| src/src/StmPlusPlus/Devices/SdCard.cpp:82 | the same 32-bit product in `SD_write` | Sector 0x800000 on an 8 GiB card is written at byte address 0, overwriting sector 0. | the 64-bit byte address sector × 512 | high, provided `SDHC_BLOCK_SIZE` is a 32-bit constant; not executed | `DiskIo.SdWrite` (shown by `DiskIo.SectorAddressWrapsOn8GiBCard`) | `DiskIo.SdWriteIntended` |
| src/src/StmPlusPlus/Devices/SdCard.cpp:117-119 | `GET_BLOCK_SIZE` writes the buffer but never sets `res = RES_OK` | `cmd = GET_BLOCK_SIZE` returns `RES_ERROR` with the buffer filled. | `RES_OK`, as for the other supported commands | medium; not executed | `DiskIo.SdIoctl` (shown by `DiskIo.IoctlBlockSizeReportsError`) | `DiskIo.SdIoctlIntended` |
