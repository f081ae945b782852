/** Opening hours and the ordering slots on offer
    (internal/modules/restaurant/domain/slots.go:11-92, restaurant.go:12-112).

    Time is the restaurant's wall clock: a minute, counted from the midnight that begins the
    current day, and what has passed of that minute. Dates are day numbers, day 0 being a
    Monday. */
module Slots {
  import opened Prelude

  const QUARTER: int := 15
  const DAY: int := 1440

  /** part: seconds and nanoseconds, as a fraction of the minute. */
  datatype Instant = Instant(minute: int, part: real)
  {
    predicate Valid() { 0.0 <= part < 1.0 }

    predicate Whole() { part == 0.0 }

    predicate Before(other: Instant) {
      minute < other.minute || (minute == other.minute && part < other.part)
    }

    function Add(minutes: int): Instant { Instant(minute + minutes, part) }
  }

  type Date = int

  predicate IsWeekday(d: Date) {
    d % 7 < 5
  }

  // ---------------------------------------------------------------------------
  // Schedules
  // ---------------------------------------------------------------------------

  /** A clock text. One that reads as "number:number" has its minutes; it is exact when it is
      also an HH:MM of the day, which is what the stricter of the two parsers asks for. */
  datatype Clock = Blank | Garbled | At(minutes: int, exact: bool)
  {
    predicate Valid() { At? && exact ==> 0 <= minutes < 1440 }
  }

  datatype DaySchedule = DaySchedule(open: Clock, close: Clock, dinnerOpen: Clock, dinnerClose: Clock)
  {
    predicate Valid() { open.Valid() && close.Valid() && dinnerOpen.Valid() && dinnerClose.Valid() }

    /** Nothing but HH:MM texts, and both or none for dinner. */
    predicate Exact() {
      && open.At? && open.exact && close.At? && close.exact
      && (dinnerOpen.Blank? || (dinnerOpen.At? && dinnerOpen.exact))
      && (dinnerClose.Blank? || (dinnerClose.At? && dinnerClose.exact))
      && Valid()
    }
  }

  datatype Override = Closed | Unreadable | Special(schedule: DaySchedule)

  datatype Hours = NotSet | Malformed | Weekly(days: map<int, DaySchedule>)

  datatype Config = Config(opening: Hours, ordering: Hours, preparation: int)

  type Overrides = map<Date, Override>

  /** An override for the date wins over the weekly hours. */
  function Resolve(days: map<int, DaySchedule>, overrides: Overrides, d: Date): Option<DaySchedule> {
    if d in overrides then
      if overrides[d].Special? then Some(overrides[d].schedule) else None
    else if d % 7 in days then Some(days[d % 7]) else None
  }

  /** The hours orders are taken in, as the generator reads them: hours that do not parse
      mean that nothing is offered. */
  function GeneratorSchedule(cfg: Config, overrides: Overrides, d: Date): Option<DaySchedule> {
    match cfg.ordering
    case Weekly(days) => Resolve(days, overrides, d)
    case Malformed => None
    case NotSet => OpeningSchedule(cfg, overrides, d)
  }

  function OpeningSchedule(cfg: Config, overrides: Overrides, d: Date): Option<DaySchedule> {
    if cfg.opening.Weekly? then Resolve(cfg.opening.days, overrides, d) else None
  }

  /** The validator's own version: an override wins before any hours are read, and ordering
      hours that do not parse count as not set. */
  function ValidatorSchedule(cfg: Config, overrides: Overrides, d: Date): Option<DaySchedule> {
    if d in overrides then Resolve(map[], overrides, d)
    else if cfg.ordering.Weekly? then Resolve(cfg.ordering.days, overrides, d)
    else OpeningSchedule(cfg, overrides, d)
  }

  predicate HoursReadable(cfg: Config) {
    cfg.ordering.Weekly? || (cfg.ordering.NotSet? && cfg.opening.Weekly?)
  }

  lemma SchedulesAgree(cfg: Config, overrides: Overrides, d: Date)
    ensures HoursReadable(cfg) ==> ValidatorSchedule(cfg, overrides, d) == GeneratorSchedule(cfg, overrides, d)
    ensures !HoursReadable(cfg) ==> GeneratorSchedule(cfg, overrides, d).None?
  {
  }

  datatype Interval = Interval(open: Clock, close: Clock)

  function Intervals(s: DaySchedule): seq<Interval> {
    [Interval(s.open, s.close)] +
    if !s.dinnerOpen.Blank? && !s.dinnerClose.Blank? then [Interval(s.dinnerOpen, s.dinnerClose)] else []
  }

  // ---------------------------------------------------------------------------
  // The generator
  // ---------------------------------------------------------------------------

  predicate OnQuarter(t: int) {
    t % QUARTER == 0
  }

  lemma NextQuarter(cur: int)
    requires OnQuarter(cur)
    ensures OnQuarter(cur + QUARTER)
    ensures forall t :: OnQuarter(t) ==> (t < cur + QUARTER <==> t <= cur)
  {
  }

  lemma Remainder(t: int, h: int, q: int, rem: int)
    requires 0 <= rem < QUARTER && t == 60 * h + QUARTER * q + rem
    ensures OnQuarter(t - rem)
  {
  }

  /** The next quarter of an hour; the caller has dropped the seconds. */
  function RoundUp(t: int): (r: int)
    ensures OnQuarter(r) && t <= r < t + QUARTER
  {
    var rem := t % 60 % QUARTER;
    Remainder(t, t / 60, t % 60 / QUARTER, rem);
    if rem == 0 then t else NextQuarter(t - rem); t + QUARTER - rem
  }

  lemma RoundUpIsLeast(t: int, u: int)
    requires OnQuarter(u)
    ensures RoundUp(t) <= u <==> t <= u
  {
    if t <= u < RoundUp(t) {
      QuartersApart(u, RoundUp(t));
    }
  }

  lemma QuartersApart(u: int, v: int)
    requires OnQuarter(u) && OnQuarter(v) && u < v
    ensures u + QUARTER <= v
  {
  }

  function Prep(cfg: Config): int {
    if cfg.preparation <= 0 then 30 else cfg.preparation
  }

  /** The earliest instant an interval can serve. */
  function From(iv: Interval, prep: int, now: Instant): int
    requires iv.open.At?
  {
    Max(iv.open.minutes + prep, now.minute + prep)
  }

  /** The quarters of an hour that an interval serves. */
  predicate Serves(iv: Interval, prep: int, now: Instant, t: int) {
    && iv.open.At? && iv.close.At? && OnQuarter(t)
    && From(iv, prep, now) <= t <= iv.close.minutes
  }

  /** The slots of the day: what the generator is for. */
  ghost predicate Offered(cfg: Config, overrides: Overrides, today: Date, now: Instant, t: int) {
    var schedule := GeneratorSchedule(cfg, overrides, today);
    schedule.Some? && ServedBy(Intervals(schedule.value), Prep(cfg), now, t)
  }

  // ---------------------------------------------------------------------------
  // Which quarters that is, by the hours alone
  // ---------------------------------------------------------------------------

  /** A preparation time that is not set is half an hour. */
  function Preparation(preparation: int): int {
    if preparation > 0 then preparation else 30
  }

  /** Without an override, a day has the hours of its weekday: quarters of an hour, from the
      preparation time after opening and after now, to closing, at lunch or at dinner. */
  lemma OfferedByTheWeek(cfg: Config, overrides: Overrides, today: Date, now: Instant, t: int,
                         s: DaySchedule, days: map<int, DaySchedule>)
    requires cfg.ordering == Weekly(days) || (cfg.ordering == NotSet && cfg.opening == Weekly(days))
    requires today !in overrides
    ensures today % 7 !in days ==> !Offered(cfg, overrides, today, now, t)
    ensures today % 7 in days && days[today % 7] == s ==>
      (Offered(cfg, overrides, today, now, t) <==> InHours(s, Preparation(cfg.preparation), now, t))
  {
    OfferedOn(s, Preparation(cfg.preparation), now, t);
  }

  predicate InHours(s: DaySchedule, prep: int, now: Instant, t: int) {
    t % 15 == 0 && now.minute + prep <= t &&
    (Between(s.open, s.close, prep, t) || (s.dinnerOpen != Blank && s.dinnerClose != Blank &&
                                           Between(s.dinnerOpen, s.dinnerClose, prep, t)))
  }

  predicate Between(open: Clock, close: Clock, prep: int, t: int) {
    open.At? && close.At? && open.minutes + prep <= t <= close.minutes
  }

  lemma OfferedOn(s: DaySchedule, prep: int, now: Instant, t: int)
    ensures ServedBy(Intervals(s), prep, now, t) <==> InHours(s, prep, now, t)
  {
    var ivs := Intervals(s);
    assert Serves(ivs[0], prep, now, t) ==> ServedBy(ivs, prep, now, t);
    if |ivs| == 2 {
      assert Serves(ivs[1], prep, now, t) ==> ServedBy(ivs, prep, now, t);
    }
  }

  /** An override replaces the hours of its date, when the weekly ones can be read: by none when it
      is closed or cannot be read, by those of any other schedule otherwise. */
  lemma OfferedByOverride(cfg: Config, overrides: Overrides, today: Date, now: Instant, t: int)
    requires cfg.ordering.Weekly? || (cfg.ordering == NotSet && cfg.opening.Weekly?)
    requires today in overrides
    ensures overrides[today] == Closed || overrides[today] == Unreadable ==> !Offered(cfg, overrides, today, now, t)
    ensures overrides[today].Special? ==>
      (Offered(cfg, overrides, today, now, t) <==>
       InHours(overrides[today].schedule, Preparation(cfg.preparation), now, t))
  {
    if overrides[today].Special? {
      OfferedOn(overrides[today].schedule, Preparation(cfg.preparation), now, t);
    }
  }

  /** Hours that are missing or cannot be read offer nothing, override or not. */
  lemma OfferedWithoutHours(cfg: Config, overrides: Overrides, today: Date, now: Instant, t: int)
    requires cfg.ordering == Malformed || (cfg.ordering == NotSet && !cfg.opening.Weekly?)
    ensures !Offered(cfg, overrides, today, now, t)
  {
  }

  /** lunchOnly: served by the first interval, on a day from Monday to Friday. */
  datatype Slot = Slot(value: int, lunchOnly: bool)

  predicate Marked(slot: Slot, isFirst: bool, today: Date) {
    slot.lunchOnly == (isFirst && IsWeekday(today + slot.value / DAY))
  }

  predicate FromLunch(s: DaySchedule, prep: int, today: Date, now: Instant, t: int) {
    Serves(Interval(s.open, s.close), prep, now, t) && IsWeekday(today + t / DAY)
  }

  ghost predicate Has(slots: seq<Slot>, t: int) {
    exists k :: 0 <= k < |slots| && slots[k].value == t
  }

  ghost predicate Distinct(slots: seq<Slot>) {
    forall j, k :: 0 <= j < k < |slots| ==> slots[j].value != slots[k].value
  }

  ghost predicate Increasing(slots: seq<Slot>) {
    forall j, k :: 0 <= j < k < |slots| ==> slots[j].value < slots[k].value
  }

  /** The mark, by the hours and the day of the week: lunch serves the quarter, and its date is one
      from Monday to Friday. */
  lemma MarkedByTheWeek(s: DaySchedule, prep: int, today: Date, now: Instant, t: int)
    ensures FromLunch(s, prep, today, now, t) <==>
      && (today + t / 1440) % 7 in {0, 1, 2, 3, 4}
      && t % 15 == 0 && now.minute + prep <= t && Between(s.open, s.close, prep, t)
  {
  }

  /** From the rounded start on, the quarters are those from the unrounded start on. */
  lemma StartIsRight(iv: Interval, prep: int, now: Instant, t: int)
    requires iv.open.At? && OnQuarter(t)
    ensures var start := RoundUp(Max(iv.open.minutes + prep, RoundUp(now.minute + prep)));
      start <= t <==> From(iv, prep, now) <= t
  {
    var minAllowed := RoundUp(now.minute + prep);
    RoundUpIsLeast(now.minute + prep, t);
    RoundUpIsLeast(Max(iv.open.minutes + prep, minAllowed), t);
  }

  lemma StartServes(iv: Interval, prep: int, now: Instant, start: int)
    requires iv.open.At? && iv.close.At?
    requires start == RoundUp(Max(iv.open.minutes + prep, RoundUp(now.minute + prep)))
    ensures forall t :: Serves(iv, prep, now, t) <==> OnQuarter(t) && start <= t <= iv.close.minutes
  {
    forall t | OnQuarter(t)
      ensures start <= t <==> From(iv, prep, now) <= t
    {
      StartIsRight(iv, prep, now, t);
    }
  }

  lemma HasAppend(slots: seq<Slot>, more: seq<Slot>)
    ensures forall t :: Has(slots + more, t) <==> Has(slots, t) || Has(more, t)
  {
    forall t
      ensures Has(slots + more, t) <==> Has(slots, t) || Has(more, t)
    {
      if Has(slots, t) {
        var k :| 0 <= k < |slots| && slots[k].value == t;
        assert (slots + more)[k].value == t;
      } else if Has(more, t) {
        var k :| 0 <= k < |more| && more[k].value == t;
        assert (slots + more)[|slots| + k].value == t;
      }
    }
  }

  lemma HasOneMore(slots: seq<Slot>, more: Slot)
    ensures forall t :: Has(slots + [more], t) <==> Has(slots, t) || t == more.value
  {
    HasAppend(slots, [more]);
    assert [more][0].value == more.value;
  }

  /** The slots of one interval that have not been seen yet, in order. */
  method SlotsOfInterval(iv: Interval, isFirst: bool, prep: int, today: Date, now: Instant, seenBefore: set<int>)
    returns (slots: seq<Slot>, seen: set<int>)
    ensures forall t :: t in seen <==> t in seenBefore || Serves(iv, prep, now, t)
    ensures forall t :: Has(slots, t) <==> t !in seenBefore && Serves(iv, prep, now, t)
    ensures forall k :: 0 <= k < |slots| ==> Marked(slots[k], isFirst, today)
    ensures Increasing(slots)
  {
    slots, seen := [], seenBefore;
    if !iv.open.At? || !iv.close.At? {
      return;
    }
    var openPlusPrep := iv.open.minutes + prep;
    var intervalEnd := iv.close.minutes;
    if intervalEnd < openPlusPrep {
      return;
    }
    var minAllowed := RoundUp(now.Add(prep).minute);
    var cur := RoundUp(Max(openPlusPrep, minAllowed));
    ghost var start := cur;
    StartServes(iv, prep, now, start);
    while cur <= intervalEnd
      invariant OnQuarter(cur) && start <= cur
      invariant forall t :: t in seen <==> t in seenBefore || (OnQuarter(t) && start <= t < cur && t <= intervalEnd)
      invariant forall t :: Has(slots, t) <==> t !in seenBefore && t in seen
      invariant forall k :: 0 <= k < |slots| ==> slots[k].value < cur
      invariant forall k :: 0 <= k < |slots| ==> Marked(slots[k], isFirst, today)
      invariant Increasing(slots)
    {
      if cur !in seen {
        seen := seen + {cur};
        var slot := Slot(cur, isFirst && IsWeekday(today + cur / DAY));
        HasOneMore(slots, slot);
        slots := slots + [slot];
      }
      NextQuarter(cur);
      cur := cur + QUARTER;
    }
  }

  ghost predicate ServedBy(ivs: seq<Interval>, prep: int, now: Instant, t: int) {
    exists i :: 0 <= i < |ivs| && Serves(ivs[i], prep, now, t)
  }

  lemma ServedByOneMore(ivs: seq<Interval>, i: nat, prep: int, now: Instant)
    requires i < |ivs|
    ensures forall t :: ServedBy(ivs[..i + 1], prep, now, t) <==>
      ServedBy(ivs[..i], prep, now, t) || Serves(ivs[i], prep, now, t)
  {
  }

  lemma HasItsOwn(slots: seq<Slot>, k: nat)
    requires k < |slots|
    ensures Has(slots, slots[k].value)
  {
  }

  lemma DistinctAppend(slots: seq<Slot>, more: seq<Slot>)
    requires Distinct(slots) && Increasing(more)
    requires forall t :: Has(more, t) ==> !Has(slots, t)
    ensures Distinct(slots + more)
  {
    var all := slots + more;
    forall j, k | 0 <= j < k < |all|
      ensures all[j].value != all[k].value
    {
      if j < |slots| <= k {
        HasItsOwn(slots, j);
        HasItsOwn(more, k - |slots|);
      }
    }
  }

  /** Lunch is over before dinner could serve its first slot. */
  predicate LunchBeforeDinner(ivs: seq<Interval>, prep: int) {
    |ivs| > 1 && ivs[0].close.At? && ivs[1].open.At? ==> ivs[0].close.minutes < ivs[1].open.minutes + prep
  }

  lemma FlagsAppend(s: DaySchedule, i: nat, prep: int, today: Date, now: Instant, slots: seq<Slot>, more: seq<Slot>)
    requires i < |Intervals(s)|
    requires forall t :: Has(more, t) ==> Serves(Intervals(s)[i], prep, now, t) && !ServedBy(Intervals(s)[..i], prep, now, t)
    requires forall k :: 0 <= k < |more| ==> Marked(more[k], i == 0, today)
    requires forall k :: 0 <= k < |slots| ==> slots[k].lunchOnly == FromLunch(s, prep, today, now, slots[k].value)
    ensures forall k :: 0 <= k < |slots + more| ==>
      (slots + more)[k].lunchOnly == FromLunch(s, prep, today, now, (slots + more)[k].value)
  {
    forall k | 0 <= k < |more|
      ensures more[k].lunchOnly == FromLunch(s, prep, today, now, more[k].value)
    {
      HasItsOwn(more, k);
      if i > 0 {
        assert Intervals(s)[..i][0] == Interval(s.open, s.close);
      }
    }
  }

  /** In the order of time, but for the slots that only dinner serves, which come last. */
  ghost predicate LunchFirst(s: DaySchedule, prep: int, now: Instant, slots: seq<Slot>) {
    forall j, k :: 0 <= j < k < |slots| ==>
      slots[j].value < slots[k].value || (InLunch(s, prep, now, slots[j]) && !InLunch(s, prep, now, slots[k]))
  }

  predicate InLunch(s: DaySchedule, prep: int, now: Instant, slot: Slot) {
    Serves(Interval(s.open, s.close), prep, now, slot.value)
  }

  lemma LunchFirstAppend(s: DaySchedule, i: nat, prep: int, now: Instant, slots: seq<Slot>, more: seq<Slot>)
    requires i < |Intervals(s)| && LunchFirst(s, prep, now, slots) && Increasing(more)
    requires forall t :: Has(slots, t) ==> ServedBy(Intervals(s)[..i], prep, now, t)
    requires forall t :: Has(more, t) ==> !ServedBy(Intervals(s)[..i], prep, now, t)
    ensures LunchFirst(s, prep, now, slots + more)
  {
    var all := slots + more;
    forall j, k | 0 <= j < k < |all|
      ensures all[j].value < all[k].value || (InLunch(s, prep, now, all[j]) && !InLunch(s, prep, now, all[k]))
    {
      if j < |slots| <= k {
        HasItsOwn(slots, j);
        HasItsOwn(more, k - |slots|);
        assert Intervals(s)[..i][0] == Interval(s.open, s.close);
      }
    }
  }

  /** So they are in the order of time when lunch ends early enough. */
  lemma LunchFirstIncreases(s: DaySchedule, prep: int, now: Instant, slots: seq<Slot>)
    requires LunchFirst(s, prep, now, slots) && LunchBeforeDinner(Intervals(s), prep)
    requires forall t :: Has(slots, t) ==> ServedBy(Intervals(s), prep, now, t)
    ensures Increasing(slots)
  {
    forall j, k | 0 <= j < k < |slots|
      ensures slots[j].value < slots[k].value
    {
      HasItsOwn(slots, k);
    }
  }

  /** The generator gives exactly the slots the schedule offers, each once, marked for lunch
      exactly when lunch serves them; those of lunch in order, and then the others in order. */
  method AvailableSlotsToday(cfg: Config, overrides: Overrides, today: Date, now: Instant) returns (slots: seq<Slot>)
    ensures forall t :: Has(slots, t) <==> Offered(cfg, overrides, today, now, t)
    ensures Distinct(slots)
    ensures var schedule := GeneratorSchedule(cfg, overrides, today);
      schedule.Some? ==>
        && (forall k :: 0 <= k < |slots| ==>
              slots[k].lunchOnly == FromLunch(schedule.value, Prep(cfg), today, now, slots[k].value))
        && LunchFirst(schedule.value, Prep(cfg), now, slots)
        && (LunchBeforeDinner(Intervals(schedule.value), Prep(cfg)) ==> Increasing(slots))
  {
    slots := [];
    var schedule := GeneratorSchedule(cfg, overrides, today);
    if schedule.None? {
      return;
    }
    var ivs, prep := Intervals(schedule.value), Prep(cfg);
    var seen: set<int> := {};
    for i := 0 to |ivs|
      invariant forall t :: t in seen <==> ServedBy(ivs[..i], prep, now, t)
      invariant forall t :: Has(slots, t) <==> t in seen
      invariant Distinct(slots)
      invariant forall k :: 0 <= k < |slots| ==>
        slots[k].lunchOnly == FromLunch(schedule.value, prep, today, now, slots[k].value)
      invariant LunchFirst(schedule.value, prep, now, slots)
    {
      var more: seq<Slot>;
      more, seen := SlotsOfInterval(ivs[i], i == 0, prep, today, now, seen);
      ServedByOneMore(ivs, i, prep, now);
      HasAppend(slots, more);
      DistinctAppend(slots, more);
      FlagsAppend(schedule.value, i, prep, today, now, slots, more);
      LunchFirstAppend(schedule.value, i, prep, now, slots, more);
      slots := slots + more;
    }
    assert ivs[..|ivs|] == ivs;
    if LunchBeforeDinner(ivs, prep) {
      LunchFirstIncreases(schedule.value, prep, now, slots);
    }
  }
}
