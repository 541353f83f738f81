/**
  `PeriodicalEvent`: a scheduler polled from the main loop that reports an
  event once at least `delay` milliseconds of RTC time have passed since
  the last one, optionally at most `maxOccurrence` times.

  The RTC is read through its millisecond time; both reads in `isOccured`
  see the same value because the model is sequential.
 */
module PeriodicalEvents {
  import opened Rtc

  datatype PeriodicalEvent = PeriodicalEvent(
    lastEventTime: int,
    delay: int,
    maxOccurrence: int,   // a positive value limits the occurrences; -1 (the default) does not
    occurred: int)

  /** The constructor's default `_maxOccurrence`. */
  const Unlimited := -1

  /** The occurrence count stays within the limit when there is one, and
      stays zero when there is none. */
  ghost predicate Bounded(e: PeriodicalEvent)
  {
    if e.maxOccurrence > 0 then 0 <= e.occurred <= e.maxOccurrence else e.occurred == 0
  }

  /** The limit has been reached: the event will not occur again until it
      is reset. */
  predicate Exhausted(e: PeriodicalEvent)
  {
    e.maxOccurrence > 0 && e.occurred >= e.maxOccurrence
  }

  /** `PeriodicalEvent::PeriodicalEvent(rtc, delay, maxOccurrence)`. */
  function NewPeriodicalEvent(delay: int, maxOccurrence: int): (e: PeriodicalEvent)
    ensures Bounded(e) && !Exhausted(e)
    ensures e.lastEventTime == 0 && e.occurred == 0
    ensures e.delay == delay && e.maxOccurrence == maxOccurrence
  {
    PeriodicalEvent(0, delay, maxOccurrence, 0)
  }

  /** `PeriodicalEvent::resetTime`. */
  function ResetTime(e: PeriodicalEvent, rtc: RealTimeClock): (r: PeriodicalEvent)
    ensures r.lastEventTime == rtc.timeMillisec && r.occurred == 0
    ensures r.delay == e.delay && r.maxOccurrence == e.maxOccurrence
    ensures Bounded(r) && !Exhausted(r)
  {
    e.(lastEventTime := rtc.timeMillisec, occurred := 0)
  }

  /** Outcome of one poll: whether the event occurred, and the new state. */
  datatype Poll = Poll(fired: bool, event: PeriodicalEvent)

  /** `PeriodicalEvent::isOccured`. */
  function IsOccured(e: PeriodicalEvent, rtc: RealTimeClock): (p: Poll)
    ensures Exhausted(e) ==> p == Poll(false, e)
    ensures !Exhausted(e) ==> (p.fired <==> rtc.timeMillisec >= e.lastEventTime + e.delay)
    ensures !p.fired ==> p.event == e
    ensures p.fired ==> p.event.lastEventTime == rtc.timeMillisec
    ensures p.event.delay == e.delay && p.event.maxOccurrence == e.maxOccurrence
    ensures p.event.occurred == e.occurred + (if p.fired && e.maxOccurrence > 0 then 1 else 0)
    ensures Bounded(e) ==> Bounded(p.event)
  {
    if Exhausted(e) then Poll(false, e)
    else if rtc.timeMillisec >= e.lastEventTime + e.delay then
      Poll(true, e.(lastEventTime := rtc.timeMillisec,
                    occurred := if e.maxOccurrence > 0 then e.occurred + 1 else e.occurred))
    else Poll(false, e)
  }

  /** Polls the event once per clock reading, in order; returns how many
      polls reported an occurrence and the final state. */
  function PollAll(e: PeriodicalEvent, readings: seq<RealTimeClock>): (r: (nat, PeriodicalEvent))
    decreases |readings|
  {
    if |readings| == 0 then (0, e)
    else
      var p := IsOccured(e, readings[0]);
      var rest := PollAll(p.event, readings[1..]);
      ((if p.fired then 1 else 0) + rest.0, rest.1)
  }

  /** With a positive limit, a series of polls reports at most as many
      occurrences as the limit leaves, and the count records each one. */
  lemma {:induction false} OccurrencesWithinLimit(e: PeriodicalEvent, readings: seq<RealTimeClock>)
    requires Bounded(e) && e.maxOccurrence > 0
    ensures PollAll(e, readings).0 <= e.maxOccurrence - e.occurred
    ensures PollAll(e, readings).1.occurred == e.occurred + PollAll(e, readings).0
    decreases |readings|
  {
    if |readings| > 0 {
      OccurrencesWithinLimit(IsOccured(e, readings[0]).event, readings[1..]);
    }
  }

  /** Without a limit the count never moves off zero, so the event is never
      exhausted however often it occurs. */
  lemma {:induction false} UnlimitedNeverExhausts(e: PeriodicalEvent, readings: seq<RealTimeClock>)
    requires Bounded(e) && e.maxOccurrence <= 0
    ensures PollAll(e, readings).1.occurred == 0
    ensures !Exhausted(PollAll(e, readings).1)
    decreases |readings|
  {
    if |readings| > 0 {
      UnlimitedNeverExhausts(IsOccured(e, readings[0]).event, readings[1..]);
    }
  }

  /** An event built with the default limit is never exhausted, however
      many polls it gets. */
  lemma NewUnlimitedEventNeverExhausts(delay: int, readings: seq<RealTimeClock>)
    ensures !Exhausted(PollAll(NewPeriodicalEvent(delay, Unlimited), readings).1)
  {
    UnlimitedNeverExhausts(NewPeriodicalEvent(delay, Unlimited), readings);
  }

  /** Two occurrences are at least `delay` apart: right after the event
      occurs at time t, a poll fires only at time t + delay or later. */
  lemma OccurrencesAreSpaced(e: PeriodicalEvent, first: RealTimeClock, second: RealTimeClock)
    requires IsOccured(e, first).fired
    requires IsOccured(IsOccured(e, first).event, second).fired
    ensures second.timeMillisec >= first.timeMillisec + e.delay
  {
  }
}
