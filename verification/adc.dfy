/**
  `AnalogToDigitConverter::getValue`: one software-started conversion, with
  `INVALID_VALUE` returned whenever the converter is not started or a HAL
  step fails. `hadc` is set by `start()` and cleared by `stop()`; the
  model takes whether it is set as an input, together with what the HAL
  calls report.
 */
module Adc {
  import opened Hal

  /** `INVALID_VALUE`: all bits set, which no 12-bit conversion produces. */
  const InvalidValue: uint32 := 0xFFFF_FFFF

  datatype AdcCall = AdcStart | AdcPollForConversion | AdcGetValue | AdcStop

  /** What the HAL ADC calls report. */
  datatype AdcOutcomes = AdcOutcomes(start: HalStatus, poll: HalStatus, value: uint32)

  datatype Reading = Reading(value: uint32, calls: seq<AdcCall>)

  /** `AnalogToDigitConverter::getValue`; `started` says whether `hadc` is
      non-NULL. */
  function GetValue(started: bool, o: AdcOutcomes): (r: Reading)
    ensures !started ==> r == Reading(InvalidValue, [])
    ensures started ==> 2 <= |r.calls| && r.calls[0] == AdcStart && r.calls[|r.calls| - 1] == AdcStop
    ensures started ==> (AdcPollForConversion in r.calls <==> o.start == HalOk)
    ensures AdcGetValue in r.calls <==> started && o.start == HalOk && o.poll == HalOk
    ensures AdcGetValue in r.calls ==> r.value == o.value
    ensures AdcGetValue !in r.calls ==> r.value == InvalidValue
    ensures multiset(r.calls)[AdcStop] == (if started then 1 else 0)
    ensures started ==> r.calls[..|r.calls| - 1] <= [AdcStart, AdcPollForConversion, AdcGetValue]
  {
    if !started then Reading(InvalidValue, [])
    else if o.start != HalOk then Reading(InvalidValue, [AdcStart, AdcStop])
    else if o.poll != HalOk then Reading(InvalidValue, [AdcStart, AdcPollForConversion, AdcStop])
    else Reading(o.value, [AdcStart, AdcPollForConversion, AdcGetValue, AdcStop])
  }

  /** A value other than `INVALID_VALUE` is always a genuine conversion
      result. */
  lemma ValidReadingIsConversion(started: bool, o: AdcOutcomes)
    requires GetValue(started, o).value != InvalidValue
    ensures started && o.start == HalOk && o.poll == HalOk && GetValue(started, o).value == o.value
  {
  }
}
