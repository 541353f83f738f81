/**
  The software counters of `RealTimeClock`: a millisecond counter driven by
  the 1 ms system tick (`onMilliSecondInterrupt`) and re-synchronised by the
  RTC's one-second wake-up interrupt (`onSecondInterrupt`).

  The handlers are modelled as sequential state transitions; whether the
  wake-up timer's pending flag is set is an input of the second handler.
 */
module Rtc {

  datatype RealTimeClock = RealTimeClock(
    syncMs1: int,       // milliseconds counted into the current second, capped at 999
    syncMs2: int,       // milliseconds counted since the last wake-up, uncapped
    errorMs: int,       // drift measured at the last wake-up
    timeMillisec: int,  // what getTimeMillisec() reports
    timeSec: int)       // seconds counted by the wake-up interrupt

  /** The state the constructor leaves: every counter zero. */
  const Initial := RealTimeClock(0, 0, 0, 0, 0)

  /** The clock's invariant: the millisecond time is the second count
      scaled to milliseconds plus the milliseconds of the current second,
      and that part never reaches a full second. */
  ghost predicate Valid(c: RealTimeClock)
  {
    0 <= c.syncMs1 <= 999 && c.timeMillisec == c.timeSec * 1000 + c.syncMs1
  }

  /** `RealTimeClock::onMilliSecondInterrupt` (the HAL tick increment it also
      makes is not part of the model). */
  function OnMilliSecondInterrupt(c: RealTimeClock): (r: RealTimeClock)
    ensures r.syncMs2 == c.syncMs2 + 1
    ensures r.timeSec == c.timeSec && r.errorMs == c.errorMs
    ensures r.timeMillisec - c.timeMillisec == r.syncMs1 - c.syncMs1
    ensures r.timeMillisec == c.timeMillisec + 1 <==> c.syncMs1 < 999
    ensures r.timeMillisec == c.timeMillisec || r.timeMillisec == c.timeMillisec + 1
    ensures Valid(c) ==> Valid(r)
  {
    if c.syncMs1 < 999 then
      c.(timeMillisec := c.timeMillisec + 1, syncMs1 := c.syncMs1 + 1, syncMs2 := c.syncMs2 + 1)
    else
      c.(syncMs2 := c.syncMs2 + 1)
  }

  /** `RealTimeClock::onSecondInterrupt`; `wakeUpFlag` is the pending state
      of the wake-up timer flag. The user handler it may call is not part
      of the model. */
  function OnSecondInterrupt(c: RealTimeClock, wakeUpFlag: bool): (r: RealTimeClock)
    ensures !wakeUpFlag ==> r == c
    ensures wakeUpFlag ==> r.timeSec == c.timeSec + 1 && r.timeMillisec == r.timeSec * 1000
    ensures wakeUpFlag ==> r.errorMs == (c.syncMs2 + 1) - 1000
    ensures wakeUpFlag ==> r.syncMs1 == 0 && r.syncMs2 == 0
    ensures Valid(c) ==> Valid(r)
    ensures Valid(c) && wakeUpFlag ==> c.timeMillisec < r.timeMillisec
  {
    if wakeUpFlag then
      var syncMs2 := c.syncMs2 + 1;
      var timeSec := c.timeSec + 1;
      RealTimeClock(0, 0, syncMs2 - 1000, timeSec * 1000, timeSec)
    else
      c
  }

  /** One interrupt delivered to the clock. */
  datatype Interrupt = MilliSecond | Second(wakeUpFlag: bool)

  function Handle(c: RealTimeClock, i: Interrupt): RealTimeClock
  {
    match i
    case MilliSecond => OnMilliSecondInterrupt(c)
    case Second(flag) => OnSecondInterrupt(c, flag)
  }

  /** The clock after a sequence of interrupts, first one first. */
  function Run(c: RealTimeClock, interrupts: seq<Interrupt>): RealTimeClock
    decreases |interrupts|
  {
    if |interrupts| == 0 then c else Run(Handle(c, interrupts[0]), interrupts[1..])
  }

  /** Number of wake-ups (second interrupts with the flag set). */
  function WakeUps(interrupts: seq<Interrupt>): nat
  {
    if |interrupts| == 0 then 0
    else (if interrupts[0] == Second(true) then 1 else 0) + WakeUps(interrupts[1..])
  }

  /** Any sequence of interrupts keeps the invariant, never moves the
      millisecond time backwards, and advances the second count by the
      number of wake-ups. */
  lemma {:induction false} RunKeepsValid(c: RealTimeClock, interrupts: seq<Interrupt>)
    requires Valid(c)
    ensures Valid(Run(c, interrupts))
    ensures c.timeMillisec <= Run(c, interrupts).timeMillisec
    ensures Run(c, interrupts).timeSec == c.timeSec + WakeUps(interrupts)
    decreases |interrupts|
  {
    if |interrupts| > 0 {
      RunKeepsValid(Handle(c, interrupts[0]), interrupts[1..]);
    }
  }

  /** A valid clock's millisecond time lies within its counted second. */
  lemma ValidIsWithinSecond(c: RealTimeClock)
    requires Valid(c)
    ensures c.timeMillisec / 1000 == c.timeSec
  {
  }

  /** From the constructor's state, every reachable clock satisfies the
      invariant, so its millisecond time lies within the counted second. */
  lemma ReachableClockIsValid(interrupts: seq<Interrupt>)
    ensures Valid(Run(Initial, interrupts))
    ensures Run(Initial, interrupts).timeMillisec / 1000 == Run(Initial, interrupts).timeSec
    ensures Run(Initial, interrupts).timeSec == WakeUps(interrupts)
  {
    RunKeepsValid(Initial, interrupts);
    ValidIsWithinSecond(Run(Initial, interrupts));
  }
}
