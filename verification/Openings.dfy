/** The next opening (internal/modules/restaurant/domain/slots.go:165-202) and whether the shop
    is open now, decided by comparing clock texts (internal/modules/restaurant/domain/restaurant.go:114-135). */
module Openings {
  import opened Prelude
  import opened Slots

  // ---------------------------------------------------------------------------
  // The next opening
  // ---------------------------------------------------------------------------

  const LOOKAHEAD: nat := 7

  /** The shop opens at this minute of the day that is `offset` days ahead. */
  predicate OpensOn(cfg: Config, overrides: Overrides, today: Date, offset: int, t: int) {
    var schedule := OpeningSchedule(cfg, overrides, today + offset);
    schedule.Some? &&
    ((schedule.value.open.At? && t == offset * DAY + schedule.value.open.minutes) ||
     (schedule.value.dinnerOpen.At? && t == offset * DAY + schedule.value.dinnerOpen.minutes))
  }

  ghost predicate OpensWithin(cfg: Config, overrides: Overrides, today: Date, days: int, t: int) {
    exists offset :: 0 <= offset < days && OpensOn(cfg, overrides, today, offset, t)
  }

  /** The openings of each day lie within it. */
  ghost predicate WithinTheirDays(cfg: Config, overrides: Overrides, today: Date) {
    forall offset, t :: 0 <= offset < LOOKAHEAD && OpensOn(cfg, overrides, today, offset, t) ==>
      offset * DAY <= t < (offset + 1) * DAY
  }

  /** Dinner opens before its day does, and has yet to. */
  predicate DinnerFirst(cfg: Config, overrides: Overrides, today: Date, offset: int, now: Instant) {
    var schedule := OpeningSchedule(cfg, overrides, today + offset);
    && schedule.Some? && schedule.value.open.At? && schedule.value.dinnerOpen.At?
    && schedule.value.dinnerOpen.minutes < schedule.value.open.minutes
    && After(offset * DAY + schedule.value.dinnerOpen.minutes, now)
  }

  /** No opening of these days that is still ahead is earlier. */
  ghost predicate Least(cfg: Config, overrides: Overrides, today: Date, days: int, now: Instant, next: int) {
    forall t :: OpensWithin(cfg, overrides, today, days, t) && After(t, now) ==> next <= t
  }

  ghost predicate LeastOn(cfg: Config, overrides: Overrides, today: Date, offset: int, now: Instant, next: int) {
    forall t :: OpensOn(cfg, overrides, today, offset, t) && After(t, now) ==> next <= t
  }

  predicate After(t: int, now: Instant) {
    now.Before(Instant(t, 0.0))
  }

  /** Ahead is later than the current minute. */
  lemma AheadMeansLater(t: int, now: Instant)
    requires now.Valid()
    ensures After(t, now) <==> t > now.minute
  {
  }

  /** When a day opens: at its own opening and at dinner's, by the opening hours of its weekday or
      by its override. */
  lemma OpensByHours(cfg: Config, overrides: Overrides, today: Date, offset: int, t: int, days: map<int, DaySchedule>)
    requires cfg.opening == Weekly(days)
    ensures var date := today + offset;
      OpensOn(cfg, overrides, today, offset, t) <==>
        if date in overrides then overrides[date].Special? && OpensAt(overrides[date].schedule, t - 1440 * offset)
        else date % 7 in days && OpensAt(days[date % 7], t - 1440 * offset)
  {
  }

  predicate OpensAt(s: DaySchedule, minute: int) {
    (s.open.At? && s.open.minutes == minute) || (s.dinnerOpen.At? && s.dinnerOpen.minutes == minute)
  }

  lemma NoHoursNoOpenings(cfg: Config, overrides: Overrides, today: Date, offset: int, t: int)
    requires !cfg.opening.Weekly?
    ensures !OpensOn(cfg, overrides, today, offset, t)
  {
  }

  /** An opening after now among the seven days from today on, if there is any. It is the first
      one unless, on its day, dinner opens before the day does and is still ahead. */
  method NextOpeningAt(cfg: Config, overrides: Overrides, today: Date, now: Instant) returns (next: Option<int>)
    requires now.Valid()
    ensures next.None? <==> forall t :: OpensWithin(cfg, overrides, today, 7, t) ==> !After(t, now)
    ensures next.Some? ==> OpensWithin(cfg, overrides, today, 7, next.value) && After(next.value, now)
    ensures next.Some? && WithinTheirDays(cfg, overrides, today) ==>
      (Least(cfg, overrides, today, 7, now, next.value) <==>
       !DinnerFirst(cfg, overrides, today, next.value / DAY, now))
  {
    for offset := 0 to LOOKAHEAD
      invariant forall o, t :: 0 <= o < offset && OpensOn(cfg, overrides, today, o, t) ==> !After(t, now)
    {
      next := NextOpeningOn(cfg, overrides, today, offset, now);
      if next.Some? {
        if WithinTheirDays(cfg, overrides, today) {
          LeastOnItsDay(cfg, overrides, today, offset, now, next.value);
        }
        return;
      }
    }
    next := None;
  }

  lemma LeastOnItsDay(cfg: Config, overrides: Overrides, today: Date, offset: nat, now: Instant, next: int)
    requires WithinTheirDays(cfg, overrides, today)
    requires offset < LOOKAHEAD && OpensOn(cfg, overrides, today, offset, next)
    requires forall o, t :: 0 <= o < offset && OpensOn(cfg, overrides, today, o, t) ==> !After(t, now)
    ensures next / DAY == offset
    ensures Least(cfg, overrides, today, LOOKAHEAD, now, next) <==> LeastOn(cfg, overrides, today, offset, now, next)
  {
  }

  /** The inner loop: the first of the day's openings, as listed, that is after now. */
  method NextOpeningOn(cfg: Config, overrides: Overrides, today: Date, offset: nat, now: Instant) returns (next: Option<int>)
    requires now.Valid()
    ensures next.None? <==> forall t :: OpensOn(cfg, overrides, today, offset, t) ==> !After(t, now)
    ensures next.Some? ==> OpensOn(cfg, overrides, today, offset, next.value) && After(next.value, now)
    ensures next.Some? ==>
      (LeastOn(cfg, overrides, today, offset, now, next.value) <==> !DinnerFirst(cfg, overrides, today, offset, now))
  {
    var schedule := OpeningSchedule(cfg, overrides, today + offset);
    if schedule.None? {
      return None;
    }
    var openings := [schedule.value.open];
    if !schedule.value.dinnerOpen.Blank? {
      openings := openings + [schedule.value.dinnerOpen];
    }
    assert openings[0] == schedule.value.open;
    for i := 0 to |openings|
      invariant forall j :: 0 <= j < i && openings[j].At? ==> !After(offset * DAY + openings[j].minutes, now)
    {
      if openings[i].At? {
        var candidate := offset * DAY + openings[i].minutes;
        if now.Before(Instant(candidate, 0.0)) {
          assert OpensOn(cfg, overrides, today, offset, candidate) && After(candidate, now);
          if DinnerFirst(cfg, overrides, today, offset, now) {
            assert OpensOn(cfg, overrides, today, offset, offset * DAY + schedule.value.dinnerOpen.minutes);
          }
          return Some(candidate);
        }
      }
    }
    forall t | OpensOn(cfg, overrides, today, offset, t)
      ensures !After(t, now)
    {
      assert openings[0].At? ==> !After(offset * DAY + openings[0].minutes, now);
      assert |openings| == 2 && openings[1].At? ==> !After(offset * DAY + openings[1].minutes, now);
    }
    next := None;
  }

  /** Mondays, with dinner from 11:00 to 14:00 and the other hours from 17:00 on. */
  const DINNER_FIRST: Config :=
    Config(Weekly(map[0 := DaySchedule(At(1020, true), At(1320, true), At(660, true), At(840, true))]), NotSet, 30)

  /** A minute after midnight on a Monday, 17:00 is announced although the shop opens at 11:00. */
  method DinnerIsMissed() returns (next: Option<int>)
    ensures next == Some(1020)
    ensures OpensOn(DINNER_FIRST, map[], 0, 0, 660) && After(660, Instant(1, 0.0))
  {
    var now := Instant(1, 0.0);
    next := NextOpeningAt(DINNER_FIRST, map[], 0, now);
    assert OpensOn(DINNER_FIRST, map[], 0, 0, 1020) && After(1020, now);
    assert OpensWithin(DINNER_FIRST, map[], 0, LOOKAHEAD, 1020);
    assert WithinTheirDays(DINNER_FIRST, map[], 0);
    assert DinnerFirst(DINNER_FIRST, map[], 0, 0, now);
  }

  // ---------------------------------------------------------------------------
  // Clock texts
  // ---------------------------------------------------------------------------

  /** A minute of the day as HH:MM. */
  function Text(minute: int): string
    requires 0 <= minute < DAY
  {
    var h, m := minute / 60, minute % 60;
    [Digit(h / 10), Digit(h % 10), ':', Digit(m / 10), Digit(m % 10)]
  }

  /** The order of strings: the first difference decides, and a proper prefix is smaller. */
  predicate Less(a: string, b: string) {
    if b == "" then false
    else if a == "" then true
    else a[0] < b[0] || (a[0] == b[0] && Less(a[1..], b[1..]))
  }

  /** A schedule as it is stored. */
  datatype Texts = Texts(open: string, close: string, dinnerOpen: string, dinnerClose: string)

  /** Whether the shop is open at a minute of the day. */
  predicate IsWithin(s: Texts, minute: int)
    requires 0 <= minute < DAY
  {
    var current := Text(minute);
    || (!Less(current, s.open) && Less(current, s.close))
    || (s.dinnerOpen != "" && s.dinnerClose != "" && !Less(current, s.dinnerOpen) && Less(current, s.dinnerClose))
  }

  /** HH:MM texts are ordered as the minutes they stand for. */
  lemma TextOrder(m: int, n: int)
    requires 0 <= m < DAY && 0 <= n < DAY
    ensures Less(Text(m), Text(n)) <==> m < n
  {
    var a, b := Text(m), Text(n);
    LessUnrolled(a, b);
    assert m == 60 * (10 * (m / 60 / 10) + m / 60 % 10) + 10 * (m % 60 / 10) + m % 60 % 10;
    assert n == 60 * (10 * (n / 60 / 10) + n / 60 % 10) + 10 * (n % 60 / 10) + n % 60 % 10;
  }

  lemma LessUnrolled(a: string, b: string)
    requires |a| == 5 && |b| == 5
    ensures Less(a, b) <==>
      a[0] < b[0] || (a[0] == b[0] && (a[1] < b[1] || (a[1] == b[1] && (a[2] < b[2] || (a[2] == b[2] &&
      (a[3] < b[3] || (a[3] == b[3] && a[4] < b[4])))))))
  {
    assert Less(a, b) <==> a[0] < b[0] || (a[0] == b[0] && Less(a[1..], b[1..]));
    assert Less(a[1..], b[1..]) <==> a[1] < b[1] || (a[1] == b[1] && Less(a[1..][1..], b[1..][1..]));
    assert a[1..][1..] == a[2..] && b[1..][1..] == b[2..];
    assert Less(a[2..], b[2..]) <==> a[2] < b[2] || (a[2] == b[2] && Less(a[2..][1..], b[2..][1..]));
    assert a[2..][1..] == a[3..] && b[2..][1..] == b[3..];
    assert Less(a[3..], b[3..]) <==> a[3] < b[3] || (a[3] == b[3] && Less(a[3..][1..], b[3..][1..]));
    assert a[3..][1..] == a[4..] && b[3..][1..] == b[4..];
    assert Less(a[4..], b[4..]) <==> a[4] < b[4] || (a[4] == b[4] && Less(a[4..][1..], b[4..][1..]));
    assert a[4..][1..] == "" && b[4..][1..] == "";
  }

  /** With HH:MM texts, open means from opening until before closing. */
  lemma WithinMeansBetween(open: int, close: int, dinner: Option<(int, int)>, minute: int)
    requires 0 <= minute < DAY && 0 <= open < DAY && 0 <= close < DAY
    requires dinner.Some? ==> 0 <= dinner.value.0 < DAY && 0 <= dinner.value.1 < DAY
    ensures var s := if dinner.Some? then Texts(Text(open), Text(close), Text(dinner.value.0), Text(dinner.value.1))
                     else Texts(Text(open), Text(close), "", "");
      IsWithin(s, minute) <==>
        open <= minute < close || (dinner.Some? && dinner.value.0 <= minute < dinner.value.1)
  {
    TextOrder(minute, open);
    TextOrder(minute, close);
    if dinner.Some? {
      TextOrder(minute, dinner.value.0);
      TextOrder(minute, dinner.value.1);
    }
  }

  /** An opening hour written without its leading zero, like 9:30, is never reached. */
  lemma UnpaddedNeverOpens(open: string, minute: int)
    requires 0 <= minute < DAY
    requires open != "" && '3' <= open[0] <= '9'
    ensures Less(Text(minute), open)
  {
  }
}
