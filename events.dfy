/** The normalised conflict-event record that both aggregations consume. */
module Events {

  /** One conflict event after loading: its fatality count and its date, the
      latter as a JavaScript Date's time value (milliseconds since the Unix
      epoch, UTC). */
  datatype Event = Event(fatalities: int, eventDate: int)

  const MillisPerDay: int := 86_400_000

  /** The UTC calendar day an event falls on, counted in days since
      1970-01-01. `toISOString().split('T')[0]` is the ISO date part of the
      instant, which names exactly this day, and distinct days give distinct
      date parts, so the day number stands for the string key. */
  function DayKey(e: Event): (day: int)
    ensures day * MillisPerDay <= e.eventDate < (day + 1) * MillisPerDay
  {
    e.eventDate / MillisPerDay
  }

  /** The day key names the day whose milliseconds hold the event's instant,
      so two events share a key exactly when they fall on the same UTC day. */
  lemma DayKeyIsTheDay(e: Event, day: int)
    ensures DayKey(e) == day <==> day * MillisPerDay <= e.eventDate < (day + 1) * MillisPerDay
  {
    var k := DayKey(e);
    if day < k {
      assert (day + 1) * MillisPerDay <= k * MillisPerDay;
    } else if day > k {
      assert (k + 1) * MillisPerDay <= day * MillisPerDay;
    }
  }
}
