/**
  Fixed-width integer types and the status enumerations of the STM32 HAL
  that the SD card driver and the StmPlusPlus wrappers consume. The HAL
  itself is not modelled: every HAL call appears in the model only as the
  status value it returned.
 */
module Hal {

  type uint8 = x: int | 0 <= x < 0x100
  type uint16 = x: int | 0 <= x < 0x1_0000
  type uint32 = x: int | 0 <= x < 0x1_0000_0000
  type uint64 = x: int | 0 <= x < 0x1_0000_0000_0000_0000

  /** C's prefix decrement `--x` on a `uint8_t`: wraps from 0 to 0xFF. */
  function Dec8(x: uint8): (r: uint8)
    ensures (r + 1) % 0x100 == x
  {
    if x == 0 then 0xFF else x - 1
  }

  /** C's `uint32_t` multiplication: the product reduced modulo 2^32. */
  function Mul32(a: uint32, b: uint32): (r: uint32)
    ensures a * b < 0x1_0000_0000 ==> r == a * b
    ensures (a * b - r) % 0x1_0000_0000 == 0
  {
    (a * b) % 0x1_0000_0000
  }

  /** HAL_SD_ErrorTypedef: the SD layer's status. Only `SD_OK` and
      `SD_DATA_TIMEOUT` are told apart by the driver; every other code
      (CRC failure, command error, address error, ...) is a `SdFault`. */
  datatype SdError = SdOk | SdDataTimeout | SdFault(code: nat)

  /** HAL_StatusTypeDef. */
  datatype HalStatus = HalOk | HalError | HalBusy | HalTimeout
}
