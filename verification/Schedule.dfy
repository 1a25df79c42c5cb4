/**
 When a campaign target is next due: calling windows and retries.

 An instant and a time of day are counted in microseconds, a day is its ordinal
 (day 1 is a Monday). A zone gives the instant of a local day and time, and the
 local day of an instant.
 */
module Schedule {
  import opened Options

  const DAY := 86_400_000_000
  const HOUR := 3_600_000_000

  type Instant = int
  type TimeOfDay = t: int | 0 <= t < DAY

  datatype RawZone = RawZone(
    instant: (int, TimeOfDay) -> Instant,
    midnight: int -> Instant,
    localDay: Instant -> int)

  /** Each day's times fall between its midnight and the next one, and an instant's
      local day is the one whose midnights it lies between. A spring-forward gap
      may still put two of a day's times out of order. */
  ghost predicate DaysInOrder(z: RawZone) {
    && (forall d: int, at: TimeOfDay {:trigger z.instant(d, at)} ::
          z.midnight(d) <= z.instant(d, at) < z.midnight(d + 1))
    && (forall t: Instant {:trigger z.localDay(t)} ::
          z.midnight(z.localDay(t)) <= t < z.midnight(z.localDay(t) + 1))
  }

  const UTC := RawZone((d: int, at: TimeOfDay) => d * DAY + at, (d: int) => d * DAY, (t: Instant) => t / DAY)

  type Zone = z: RawZone | DaysInOrder(z) witness UTC

  type Weekdays = s: set<int> | (exists d :: d in s) && forall d :: d in s ==> 1 <= d <= 7 witness {1}

  /** Local hours [start, end) on the given ISO weekdays. */
  datatype CallingWindow = CallingWindow(start: TimeOfDay, end: TimeOfDay, days: Weekdays)
  {
    predicate Allows(day: int) {
      IsoWeekday(day) in days
    }

    function Opens(z: Zone, day: int): Instant {
      z.instant(day, start)
    }

    function Closes(z: Zone, day: int): Instant {
      z.instant(day, end)
    }

    /** Now is before this day's window is over. */
    predicate NotOver(z: Zone, day: int, now: Instant) {
      Allows(day) && (now < Opens(z, day) || now < Closes(z, day))
    }
  }

  function IsoWeekday(day: int): (w: int)
    ensures 1 <= w <= 7
  {
    (day + 6) % 7 + 1
  }

  // ----- the eight-day loop

  function DayNotOver(z: Zone, w: CallingWindow, now: Instant, day: int, tries: nat): (d: Option<int>)
    ensures d.Some? ==> day <= d.value < day + tries && w.NotOver(z, d.value, now)
    ensures d.Some? ==> forall e :: day <= e < d.value ==> !w.NotOver(z, e, now)
    ensures d.None? ==> forall e :: day <= e < day + tries ==> !w.NotOver(z, e, now)
    decreases tries
  {
    if tries == 0 then None
    else if w.NotOver(z, day, now) then Some(day)
    else DayNotOver(z, w, now, day + 1, tries - 1)
  }

  lemma {:induction false} MidnightsInOrder(z: Zone, d: int, e: int)
    requires d <= e
    ensures z.midnight(d) <= z.midnight(e)
    decreases e - d
  {
    if d < e {
      assert z.midnight(e - 1) <= z.instant(e - 1, 0) < z.midnight(e);
      MidnightsInOrder(z, d, e - 1);
    }
  }

  lemma WeekdayAhead(from: int, ahead: int)
    requires 0 <= ahead < 7
    ensures IsoWeekday(from + ahead) ==
      if IsoWeekday(from) + ahead <= 7 then IsoWeekday(from) + ahead else IsoWeekday(from) + ahead - 7
  {
  }

  lemma SomeDayInSeven(w: CallingWindow, from: int) returns (d: int)
    ensures from <= d < from + 7 && w.Allows(d)
  {
    var day :| day in w.days;
    var ahead := if IsoWeekday(from) <= day then day - IsoWeekday(from) else day + 7 - IsoWeekday(from);
    WeekdayAhead(from, ahead);
    d := from + ahead;
  }

  /** Within eight days there is always a window still to come. */
  lemma EightDaysSuffice(z: Zone, w: CallingWindow, now: Instant)
    ensures DayNotOver(z, w, now, z.localDay(now), 8).Some?
  {
    var today := z.localDay(now);
    var d := SomeDayInSeven(w, today + 1);
    MidnightsInOrder(z, today + 1, d);
    assert w.NotOver(z, d, now);
  }

  /** The first allowed day, today or later, whose window is not over. */
  function OpeningDay(z: Zone, w: CallingWindow, now: Instant): (d: int)
    ensures z.localDay(now) <= d && w.NotOver(z, d, now)
    ensures forall e :: z.localDay(now) <= e < d ==> !w.NotOver(z, e, now)
  {
    EightDaysSuffice(z, w, now);
    DayNotOver(z, w, now, z.localDay(now), 8).value
  }

  /** `now` when the target may be called now, else when its window next opens. */
  function NextOpen(z: Zone, window: Option<CallingWindow>, now: Instant): Instant {
    match window
    case None => now
    case Some(w) =>
      var opens := w.Opens(z, OpeningDay(z, w, now));
      if now < opens then opens else now
  }

  lemma OneDayOn(z: Zone, w: CallingWindow, now: Instant, day: int, tries: nat)
    requires tries > 0
    ensures DayNotOver(z, w, now, day, tries) ==
      if w.NotOver(z, day, now) then Some(day) else DayNotOver(z, w, now, day + 1, tries - 1)
  {
  }

  /** `next_open`: the loop never falls through. */
  method ComputeNextOpen(now: Instant, z: Zone, window: Option<CallingWindow>) returns (r: Instant)
    ensures r == NextOpen(z, window, now)
  {
    if window.None? { return now; }
    var w := window.value;
    var today := z.localDay(now);
    for offset := 0 to 8
      invariant DayNotOver(z, w, now, today, 8) == DayNotOver(z, w, now, today + offset, 8 - offset)
    {
      var day := today + offset;
      OneDayOn(z, w, now, day, 8 - offset);
      if w.Allows(day) {
        var opens := w.Opens(z, day);
        if now < opens { return opens; }
        if now < w.Closes(z, day) { return now; }
      }
      assert !w.NotOver(z, day, now);
    }
    EightDaysSuffice(z, w, now);
    assert false;
  }

  // ----- what it answers

  ghost predicate InWindow(z: Zone, w: CallingWindow, t: Instant) {
    exists d :: w.Allows(d) && w.Opens(z, d) <= t < w.Closes(z, d)
  }

  ghost predicate MayCallAt(z: Zone, window: Option<CallingWindow>, t: Instant) {
    window.Some? ==> InWindow(z, window.value, t)
  }

  ghost predicate LeastOpen(z: Zone, window: Option<CallingWindow>, now: Instant, r: Instant) {
    && now <= r && MayCallAt(z, window, r)
    && forall t :: now <= t && MayCallAt(z, window, t) ==> r <= t
  }

  /** The day's end is after its start, as it is but where a gap swallows it. */
  predicate DayOpens(z: Zone, w: CallingWindow, now: Instant) {
    var d := OpeningDay(z, w, now);
    w.Opens(z, d) < w.Closes(z, d)
  }

  predicate OpensNext(z: Zone, window: Option<CallingWindow>, now: Instant) {
    window.Some? ==> DayOpens(z, window.value, now)
  }

  /** Whatever the zone, "call now" is only ever answered inside the window. */
  lemma NowIsInWindow(z: Zone, window: Option<CallingWindow>, now: Instant)
    ensures now <= NextOpen(z, window, now)
    ensures NextOpen(z, window, now) == now ==> MayCallAt(z, window, now)
  {
    if window.Some? {
      var d := OpeningDay(z, window.value, now);
      assert window.value.NotOver(z, d, now);
    }
  }

  /** A window on an earlier day is over before a later day begins. */
  lemma DaysApart(z: Zone, w: CallingWindow, d: int, e: int)
    requires d < e
    ensures w.Opens(z, d) < z.midnight(e) <= w.Opens(z, e)
    ensures w.Closes(z, d) < z.midnight(e) <= w.Closes(z, e)
  {
    MidnightsInOrder(z, d + 1, e);
  }

  /** No instant the target may be called at is passed over, in any case. */
  lemma NothingPassedOver(z: Zone, w: CallingWindow, now: Instant, t: Instant)
    requires now <= t && InWindow(z, w, t)
    ensures NextOpen(z, Some(w), now) <= t
  {
    var e :| w.Allows(e) && w.Opens(z, e) <= t < w.Closes(z, e);
    var today, d := z.localDay(now), OpeningDay(z, w, now);
    if e < today {
      DaysApart(z, w, e, today);
    } else {
      OpeningDayIsFirst(z, w, now, e);
      if d < e {
        DaysApart(z, w, d, e);
      }
    }
  }

  lemma OpeningDayIsFirst(z: Zone, w: CallingWindow, now: Instant, e: int)
    requires z.localDay(now) <= e && w.NotOver(z, e, now)
    ensures OpeningDay(z, w, now) <= e
  {
  }

  lemma SwallowedIsNotOpen(z: Zone, w: CallingWindow, now: Instant)
    requires !DayOpens(z, w, now)
    ensures !InWindow(z, w, NextOpen(z, Some(w), now))
  {
    var d := OpeningDay(z, w, now);
    var r := NextOpen(z, Some(w), now);
    assert r == w.Opens(z, d);
    forall e | w.Allows(e) ensures !(w.Opens(z, e) <= r < w.Closes(z, e)) {
      if e < d {
        DaysApart(z, w, e, d);
      } else if d < e {
        DaysApart(z, w, d, e);
      }
    }
  }

  /** `next_open` answers the least instant from now on at which the target may be
      called, for every zone and window, exactly when the window of the day it
      picks is not swallowed by a gap in that day. */
  lemma NextOpenIsLeast(z: Zone, window: Option<CallingWindow>, now: Instant)
    ensures LeastOpen(z, window, now, NextOpen(z, window, now)) <==> OpensNext(z, window, now)
  {
    NowIsInWindow(z, window, now);
    if window.Some? {
      var w, r := window.value, NextOpen(z, window, now);
      if DayOpens(z, w, now) {
        assert InWindow(z, w, r) by {
          assert w.Allows(OpeningDay(z, w, now));
        }
        forall t | now <= t && InWindow(z, w, t) ensures r <= t {
          NothingPassedOver(z, w, now, t);
        }
      } else {
        SwallowedIsNotOpen(z, w, now);
      }
    }
  }

  /** `r` is when a target due at `from` may be called: `next_open`'s answer, which is the
      least such instant but for a window a gap swallows. */
  ghost predicate OpensAt(z: Zone, window: Option<CallingWindow>, from: Instant, r: Instant) {
    && from <= r && r == NextOpen(z, window, from)
    && (OpensNext(z, window, from) ==> LeastOpen(z, window, from, r))
  }

  lemma NextOpenOpens(z: Zone, window: Option<CallingWindow>, from: Instant)
    ensures OpensAt(z, window, from, NextOpen(z, window, from))
    ensures NextOpen(z, window, from) <= from ==> MayCallAt(z, window, from)
  {
    NowIsInWindow(z, window, from);
    NextOpenIsLeast(z, window, from);
  }

  /** A later "now" never opens earlier. */
  lemma NextOpenIsMonotone(z: Zone, window: Option<CallingWindow>, now: Instant, later: Instant)
    requires now <= later
    ensures NextOpen(z, window, now) <= NextOpen(z, window, later)
  {
    if window.Some? {
      var w := window.value;
      var d, e := OpeningDay(z, w, now), OpeningDay(z, w, later);
      LaterDay(z, now, later);
      assert w.NotOver(z, e, now);
      if d < e {
        DaysApart(z, w, d, e);
      }
    }
  }

  lemma LaterDay(z: Zone, now: Instant, later: Instant)
    requires now <= later
    ensures z.localDay(now) <= z.localDay(later)
  {
    if z.localDay(later) < z.localDay(now) {
      MidnightsInOrder(z, z.localDay(later) + 1, z.localDay(now));
    }
  }

  /** Asking again at the answer changes nothing, under the same condition. */
  lemma NextOpenIsIdempotent(z: Zone, window: Option<CallingWindow>, now: Instant)
    ensures var r := NextOpen(z, window, now);
      NextOpen(z, window, r) == r <==> OpensNext(z, window, now)
  {
    var r := NextOpen(z, window, now);
    NextOpenIsLeast(z, window, now);
    NowIsInWindow(z, window, r);
    if window.Some? {
      if DayOpens(z, window.value, now) {
        OpenNowIsNow(z, window.value, r);
      } else {
        SwallowedIsNotOpen(z, window.value, now);
      }
    }
  }

  /** Inside its window a target is due now. */
  lemma OpenNowIsNow(z: Zone, w: CallingWindow, t: Instant)
    requires InWindow(z, w, t)
    ensures NextOpen(z, Some(w), t) == t
  {
    var e :| w.Allows(e) && w.Opens(z, e) <= t < w.Closes(z, e);
    var today := z.localDay(t);
    if e < today {
      DaysApart(z, w, e, today);
    } else if today < e {
      MidnightsInOrder(z, today + 1, e);
    }
    assert w.NotOver(z, e, t);
  }

  // ----- a window in a spring-forward gap

  const SUNDAY := 7

  /** A zone that skips 02:00 to 03:00 on a Sunday: before that its clock is UTC, after
      it an hour ahead; a time in the gap reads with the offset before it. */
  const SPRING := RawZone(
    (d: int, at: TimeOfDay) =>
      if d < SUNDAY || (d == SUNDAY && at < 3 * HOUR) then d * DAY + at else d * DAY + at - HOUR,
    (d: int) => if d <= SUNDAY then d * DAY else d * DAY - HOUR,
    (t: Instant) => if t < SUNDAY * DAY + 2 * HOUR then t / DAY else (t + HOUR) / DAY)

  const HALF_PAST_TWO := CallingWindow(2 * HOUR + HOUR / 2, 3 * HOUR + HOUR / 4, {SUNDAY})

  /** On that day a window from 02:30 to 03:15 closes before it opens, and what
      `next_open` answers at midnight is past its end. */
  lemma SwallowedByTheGap()
    ensures DaysInOrder(SPRING)
    ensures NextOpen(SPRING, Some(HALF_PAST_TWO), SUNDAY * DAY) == SUNDAY * DAY + 2 * HOUR + HOUR / 2
    ensures !LeastOpen(SPRING, Some(HALF_PAST_TWO), SUNDAY * DAY, NextOpen(SPRING, Some(HALF_PAST_TWO), SUNDAY * DAY))
  {
    assert DaysInOrder(SPRING);
    var z: Zone := SPRING;
    assert HALF_PAST_TWO.NotOver(z, SUNDAY, SUNDAY * DAY);
    assert OpeningDay(z, HALF_PAST_TWO, SUNDAY * DAY) == SUNDAY;
    NextOpenIsLeast(z, Some(HALF_PAST_TWO), SUNDAY * DAY);
  }

  // ----- retries

  datatype Rule = Rule(maxAttempts: int, spacing: int)

  /** When to dial a target again after a call ended this way, or never. */
  function RetryAt(policy: map<string, Rule>, reason: string, attempts: int, now: Instant,
                   z: Zone, window: Option<CallingWindow>): Option<Instant>
  {
    if reason !in policy || attempts >= policy[reason].maxAttempts then None
    else Some(NextOpen(z, window, now + policy[reason].spacing))
  }

  /** A call is dialled again exactly when its ending has a rule that allows one more, and
      then at the first open instant once the rule's spacing has passed. */
  lemma RetryOpens(policy: map<string, Rule>, reason: string, attempts: int, now: Instant,
                   z: Zone, window: Option<CallingWindow>)
    ensures
      var at := RetryAt(policy, reason, attempts, now, z, window);
      && (at.Some? <==> reason in policy && attempts < policy[reason].maxAttempts)
      && (at.Some? ==> OpensAt(z, window, now + policy[reason].spacing, at.value))
  {
    if reason in policy {
      NextOpenOpens(z, window, now + policy[reason].spacing);
    }
  }
}
