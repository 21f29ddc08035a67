/** Quiet hours of the service time zone (backend/internal/campaigns/policy.go).
    An instant is a number of nanoseconds; Damascus is three hours ahead, with no daylight saving. */
module Quiet {

  const HOUR := 3_600_000_000_000
  const DAY := 24 * HOUR
  const OFFSET := 3 * HOUR

  datatype QuietHours = QuietHours(from: int, to: int)

  /** The local midnight that starts the day of t. */
  function DayStart(t: int): (m: int)
    ensures m <= t < m + DAY && (m + OFFSET) % DAY == 0
  {
    (t + OFFSET) / DAY * DAY - OFFSET
  }

  /** The local hour of t. */
  function HourOf(t: int): (h: int)
    ensures 0 <= h < 24
    ensures DayStart(t) + h * HOUR <= t < DayStart(t) + (h + 1) * HOUR
  {
    (t - DayStart(t)) / HOUR
  }

  predicate InQuiet(q: QuietHours, t: int) {
    if q.from == q.to then false
    else if q.from < q.to then q.from <= HourOf(t) < q.to
    else HourOf(t) >= q.from || HourOf(t) < q.to
  }

  /** The local hour is one of those from `from` on, round the clock, to before `to`. */
  predicate Silent(q: QuietHours, t: int) {
    (HourOf(t) - q.from) % 24 < (q.to - q.from) % 24
  }

  lemma InQuietIsSilent(q: QuietHours)
    requires 0 <= q.from < 24 && 0 <= q.to < 24
    ensures forall t :: InQuiet(q, t) <==> Silent(q, t)
  {
    hide HourOf;
  }

  function NextAllowed(q: QuietHours, t: int): int {
    if !InQuiet(q, t) then t
    else
      var next := DayStart(t) + q.to * HOUR;
      if next > t then next else next + DAY
  }

  /** Days are DAY long, so an instant of the same local day has the same midnight. */
  lemma SameDay(t: int, u: int)
    requires DayStart(t) <= u < DayStart(t) + DAY
    ensures DayStart(u) == DayStart(t)
  {
    var k, l := (t + OFFSET) / DAY, (u + OFFSET) / DAY;
    assert k * DAY <= u + OFFSET < (k + 1) * DAY;
    assert l * DAY <= u + OFFSET < (l + 1) * DAY;
  }

  lemma NextDay(t: int)
    ensures DayStart(DayStart(t) + DAY) == DayStart(t) + DAY
  {
    var k := (t + OFFSET) / DAY;
    assert (k * DAY + DAY) / DAY == k + 1;
  }

  lemma HourAt(t: int, h: int)
    requires 0 <= h < 24 && t == DayStart(t) + h * HOUR
    ensures HourOf(t) == h
  {
    hide DayStart, HourOf;
  }

  /** The quiet hours end later today. */
  lemma EndsToday(q: QuietHours, t: int, u: int)
    requires 0 <= q.from < 24 && 0 <= q.to < 24 && InQuiet(q, t) && DayStart(t) + q.to * HOUR > t
    ensures !InQuiet(q, DayStart(t) + q.to * HOUR)
    ensures t <= u < DayStart(t) + q.to * HOUR ==> InQuiet(q, u)
  {
    hide DayStart, HourOf;
    var next := DayStart(t) + q.to * HOUR;
    SameDay(t, next);
    HourAt(next, q.to);
    if t <= u < next {
      SameDay(t, u);
    }
  }

  /** They end tomorrow. */
  lemma EndsTomorrow(q: QuietHours, t: int, u: int)
    requires 0 <= q.from < 24 && 0 <= q.to < 24 && InQuiet(q, t) && DayStart(t) + q.to * HOUR <= t
    ensures !InQuiet(q, DayStart(t) + q.to * HOUR + DAY)
    ensures t <= u < DayStart(t) + q.to * HOUR + DAY ==> InQuiet(q, u)
  {
    hide DayStart, HourOf;
    var next := DayStart(t) + q.to * HOUR + DAY;
    NextDay(t);
    SameDay(DayStart(t) + DAY, next);
    HourAt(next, q.to);
    if t <= u < DayStart(t) + DAY {
      SameDay(t, u);
    } else if t <= u < next {
      SameDay(DayStart(t) + DAY, u);
    }
  }

  /** NextAllowed is the least instant from t on that is outside quiet hours, across midnight and in
      both orders of the bounds. */
  lemma NextAllowedIsLeast(q: QuietHours, t: int, u: int)
    requires 0 <= q.from < 24 && 0 <= q.to < 24
    ensures NextAllowed(q, t) >= t && !InQuiet(q, NextAllowed(q, t))
    ensures t <= u && !InQuiet(q, u) ==> NextAllowed(q, t) <= u
  {
    hide DayStart, HourOf, InQuiet;
    if InQuiet(q, t) {
      if DayStart(t) + q.to * HOUR > t {
        EndsToday(q, t, u);
      } else {
        EndsTomorrow(q, t, u);
      }
    }
  }
}
