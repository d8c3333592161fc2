/**
 * The exceptions of the older driver (bin/weepwr/__init__.py) and the two
 * library errors its packet code can run into.  Every class declared there
 * derives from WeePwrIOError, which derives from IOError.
 */
module Weepwr {

  /** Why an EndError was raised. */
  datatype EndReason = BadHeaderOrFooter | BadPacketId(got: int, expected: int)

  datatype GemError =
    | EndError(reason: EndReason)
    | CheckSumError
    | ResponseError
    | CounterResetError(channel: nat, before: int, after: int)
    | ReadError                 // WeePwrIOError raised by the byte source itself
    | CalendarError(month: int) // ValueError from calendar.timegm: month outside 1..12
    | ZeroDivision              // ZeroDivisionError from _calc_pe when no second has elapsed

  /** The errors `except weepwr.WeePwrIOError` catches: every subclass of WeePwrIOError. */
  predicate IsIOError(e: GemError)
  {
    !(e.CalendarError? || e.ZeroDivision?)
  }
}
