/** The reporting period: all UNIX seconds from midnight of the start date up to
    23:59:59 of the end date, both ends included. */
module TimeWindow {

  const SecondsPerDay := 86400
  /** 23 hours, 59 minutes and 59 seconds, the offset added to the end date. */
  const EndOfDayOffset := 23 * 3600 + 59 * 60 + 59

  datatype Window = Window(startTs: int, endTs: int)

  /** `start_ts <= t <= end_ts`. */
  predicate InWindow(w: Window, t: int) {
    w.startTs <= t <= w.endTs
  }

  /** The window for a start date and an end date, given the timestamps of
      their midnights. It covers whole days: from the first second of the
      start date up to, and not including, the midnight that follows the end
      date. A start date a day or more after the end date gives a window
      nothing is in. */
  function MakeWindow(startMidnight: int, endMidnight: int): (w: Window)
    ensures forall t :: InWindow(w, t) <==> startMidnight <= t < endMidnight + SecondsPerDay
    ensures startMidnight <= endMidnight ==> InWindow(w, startMidnight)
    ensures !InWindow(w, endMidnight + SecondsPerDay)
    ensures startMidnight >= endMidnight + SecondsPerDay ==> forall t :: !InWindow(w, t)
  {
    Window(startMidnight, endMidnight + EndOfDayOffset)
  }
}
