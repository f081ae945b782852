/** The check of a requested ready time (internal/api/graphql/resolver/mappers.go:479-571) and
    how it compares with the slots on offer; the lunch-only rule for instants
    (internal/modules/restaurant/domain/slots.go:124-163). */
module ReadyTime {
  import opened Prelude
  import opened Slots

  // ---------------------------------------------------------------------------
  // The validator
  // ---------------------------------------------------------------------------

  /** The validator's minimum after opening, in minutes, whatever the preparation time. */
  const AFTER_OPENING: int := 30

  predicate Allows(iv: Interval, minute: int) {
    && iv.open.At? && iv.open.exact && iv.close.At? && iv.close.exact
    && iv.open.minutes + AFTER_OPENING <= minute <= iv.close.minutes
  }

  ghost predicate AllowedBy(s: DaySchedule, minute: int) {
    exists i :: 0 <= i < |Intervals(s)| && Allows(Intervals(s)[i], minute)
  }

  predicate InDay(t: Instant) {
    t.Valid() && 0 <= t.minute < DAY
  }

  /** The requested times that pass. */
  ghost predicate Accepted(cfg: Config, overrides: Overrides, today: Date, now: Instant, slot: Instant) {
    && InDay(slot) && slot.Whole() && OnQuarter(slot.minute)
    && !slot.Before(now.Add(Max(cfg.preparation, 15)))
    && var schedule := ValidatorSchedule(cfg, overrides, today);
       schedule.Some? && AllowedBy(schedule.value, slot.minute)
  }

  method IsSlotInAllowedInterval(minute: int, s: DaySchedule) returns (ok: bool)
    ensures ok <==> AllowedBy(s, minute)
  {
    var intervals := [Interval(s.open, s.close)];
    if !s.dinnerOpen.Blank? && !s.dinnerClose.Blank? {
      intervals := intervals + [Interval(s.dinnerOpen, s.dinnerClose)];
    }
    assert intervals == Intervals(s);
    for i := 0 to |intervals|
      invariant forall j :: 0 <= j < i ==> !Allows(intervals[j], minute)
    {
      var iv := intervals[i];
      if iv.open.At? && iv.open.exact && iv.close.At? && iv.close.exact {
        var firstAllowed := iv.open.minutes + AFTER_OPENING;
        if minute >= firstAllowed && minute <= iv.close.minutes {
          assert Allows(intervals[i], minute);
          return true;
        }
      }
    }
    ok := false;
  }

  lemma QuarterOfHour(t: int)
    ensures t % 60 % 15 == 0 <==> OnQuarter(t)
  {
  }

  /** today is the date of now. Without a requested time the shop has to be open. */
  method ValidatePreferredReadyTime(preferred: Option<Instant>, cfg: Config, overrides: Overrides, today: Date,
                                    now: Instant, isOpenNow: bool) returns (ok: bool)
    requires InDay(now) && (preferred.Some? ==> preferred.value.Valid())
    ensures preferred.None? ==> (ok <==> isOpenNow)
    ensures preferred.Some? ==> (ok <==> Accepted(cfg, overrides, today, now, preferred.value))
  {
    if preferred.None? {
      return isOpenNow;
    }
    var slot := preferred.value;
    if slot.minute / DAY != 0 {
      return false;
    }
    var prepBuffer := Max(cfg.preparation, 15);
    if slot.Before(now.Add(prepBuffer)) {
      return false;
    }
    QuarterOfHour(slot.minute);
    if slot.minute % 60 % 15 != 0 || slot.part != 0.0 {
      return false;
    }
    var schedule := ValidatorSchedule(cfg, overrides, today);
    if schedule.None? {
      return false;
    }
    ok := IsSlotInAllowedInterval(slot.minute, schedule.value);
  }

  // ---------------------------------------------------------------------------
  // Which times that is, by the hours alone
  // ---------------------------------------------------------------------------

  /** The validator's interval: HH:MM texts, and from half an hour after opening to closing. */
  predicate HasMinute(open: Clock, close: Clock, minute: int) {
    open.At? && open.exact && close.At? && close.exact && open.minutes + 30 <= minute <= close.minutes
  }

  predicate HoursAllow(s: DaySchedule, minute: int) {
    HasMinute(s.open, s.close, minute) ||
    (s.dinnerOpen != Blank && s.dinnerClose != Blank && HasMinute(s.dinnerOpen, s.dinnerClose, minute))
  }

  /** A quarter of an hour of the day itself, on the second, as far ahead as preparation takes, and
      a quarter of an hour at least. */
  predicate InTime(preparation: int, now: Instant, slot: Instant) {
    && 0 <= slot.minute < 1440 && slot.minute % 15 == 0 && slot.part == 0.0
    && var first := now.minute + if preparation > 15 then preparation else 15;
       first < slot.minute || (first == slot.minute && now.part <= 0.0)
  }

  lemma AllowedByHours(s: DaySchedule, minute: int)
    ensures AllowedBy(s, minute) <==> HoursAllow(s, minute)
  {
    var ivs := Intervals(s);
    assert Allows(ivs[0], minute) ==> AllowedBy(s, minute);
    if |ivs| == 2 {
      assert Allows(ivs[1], minute) ==> AllowedBy(s, minute);
    }
  }

  /** Without an override a day has the hours of its weekday: the ordering hours, or the opening
      hours where there are none or they cannot be read. */
  lemma AcceptedByTheWeek(cfg: Config, overrides: Overrides, today: Date, now: Instant, slot: Instant,
                          s: DaySchedule, days: map<int, DaySchedule>)
    requires cfg.ordering == Weekly(days) || (!cfg.ordering.Weekly? && cfg.opening == Weekly(days))
    requires today !in overrides
    ensures today % 7 !in days ==> !Accepted(cfg, overrides, today, now, slot)
    ensures today % 7 in days && days[today % 7] == s ==>
      (Accepted(cfg, overrides, today, now, slot) <==> InTime(cfg.preparation, now, slot) && HoursAllow(s, slot.minute))
  {
    AllowedByHours(s, slot.minute);
  }

  /** An override replaces the hours of its date, whatever the weekly ones. */
  lemma AcceptedByOverride(cfg: Config, overrides: Overrides, today: Date, now: Instant, slot: Instant)
    requires today in overrides
    ensures overrides[today] == Closed || overrides[today] == Unreadable ==> !Accepted(cfg, overrides, today, now, slot)
    ensures overrides[today].Special? ==>
      (Accepted(cfg, overrides, today, now, slot) <==>
       InTime(cfg.preparation, now, slot) && HoursAllow(overrides[today].schedule, slot.minute))
  {
    if overrides[today].Special? {
      AllowedByHours(overrides[today].schedule, slot.minute);
    }
  }

  /** Without hours that can be read, and without an override, nothing is accepted. */
  lemma AcceptedWithoutHours(cfg: Config, overrides: Overrides, today: Date, now: Instant, slot: Instant)
    requires !cfg.ordering.Weekly? && !cfg.opening.Weekly? && today !in overrides
    ensures !Accepted(cfg, overrides, today, now, slot)
  {
  }

  // ---------------------------------------------------------------------------
  // Generator and validator
  // ---------------------------------------------------------------------------

  /** The day's hours are written as HH:MM throughout. */
  predicate ExactToday(cfg: Config, overrides: Overrides, today: Date) {
    var schedule := GeneratorSchedule(cfg, overrides, today);
    schedule.Some? ==> schedule.value.Exact()
  }

  function Whole(minute: int): Instant {
    Instant(minute, 0.0)
  }

  /** With a preparation time of half an hour or more, or none set, every slot on offer is
      accepted, but for one: the seconds the generator drops can leave a slot that lies
      less than the preparation time ahead. */
  lemma OfferedIsAccepted(cfg: Config, overrides: Overrides, today: Date, now: Instant, t: int)
    requires ExactToday(cfg, overrides, today) && InDay(now)
    requires cfg.preparation <= 0 || cfg.preparation >= 30
    requires Offered(cfg, overrides, today, now, t)
    ensures Accepted(cfg, overrides, today, now, Whole(t)) <==>
      !(cfg.preparation >= 30 && now.part > 0.0 && t == now.minute + cfg.preparation)
  {
  }

  /** With a preparation time of exactly half an hour nothing else is accepted. */
  lemma AcceptedIsOffered(cfg: Config, overrides: Overrides, today: Date, now: Instant, slot: Instant)
    requires HoursReadable(cfg) && ExactToday(cfg, overrides, today) && InDay(now)
    requires cfg.preparation == 30
    requires Accepted(cfg, overrides, today, now, slot)
    ensures slot == Whole(slot.minute) && Offered(cfg, overrides, today, now, slot.minute)
  {
  }

  /** Whatever the hours and whenever asked, on the minute. */
  ghost predicate EveryOfferIsAccepted(preparation: int) {
    forall cfg: Config, overrides: Overrides, today: Date, now: Instant, t: int ::
      cfg.preparation == preparation && ExactToday(cfg, overrides, today) && InDay(now) && now.Whole() &&
      Offered(cfg, overrides, today, now, t) ==>
        Accepted(cfg, overrides, today, now, Whole(t))
  }

  ghost predicate OfferedAndAcceptedCoincide(preparation: int) {
    forall cfg: Config, overrides: Overrides, today: Date, now: Instant, t: int ::
      cfg.preparation == preparation && ExactToday(cfg, overrides, today) && InDay(now) && now.Whole() &&
      HoursReadable(cfg) ==>
        (Offered(cfg, overrides, today, now, t) <==> Accepted(cfg, overrides, today, now, Whole(t)))
  }

  /** Open from one minute of the day until its last, every day. */
  function OpenFrom(minute: int, preparation: int): Config {
    var day := DaySchedule(At(minute, true), At(1439, true), Blank, Blank);
    Config(Weekly(map[0 := day]), NotSet, preparation)
  }

  lemma OpenFromOffers(minute: int, preparation: int, now: int, t: int)
    requires 0 <= minute < DAY && 0 <= now < DAY && OnQuarter(t)
    ensures ExactToday(OpenFrom(minute, preparation), map[], 0) && HoursReadable(OpenFrom(minute, preparation))
    ensures var prep := Prep(OpenFrom(minute, preparation));
      Offered(OpenFrom(minute, preparation), map[], 0, Whole(now), t) <==>
      Max(minute + prep, now + prep) <= t <= 1439
    ensures Accepted(OpenFrom(minute, preparation), map[], 0, Whole(now), Whole(t)) <==>
      Max(now + Max(preparation, 15), minute + 30) <= t <= 1439
  {
    var cfg := OpenFrom(minute, preparation);
    var s := GeneratorSchedule(cfg, map[], 0).value;
    assert Intervals(s) == [Interval(At(minute, true), At(1439, true))];
    var iv := Intervals(s)[0];
    assert ServedBy(Intervals(s), Prep(cfg), Whole(now), t) <==> Serves(iv, Prep(cfg), Whole(now), t);
    assert AllowedBy(s, t) <==> Allows(iv, t);
  }

  /** The preparation times for which an offer is never refused. */
  lemma WhenEveryOfferIsAccepted(preparation: int)
    ensures EveryOfferIsAccepted(preparation) <==> preparation <= 0 || preparation >= 30
  {
    if 0 < preparation < 30 {
      OpenFromOffers(30 - preparation, preparation, 0, 30);
    } else {
      forall cfg: Config, overrides: Overrides, today: Date, now: Instant, t: int |
        cfg.preparation == preparation && ExactToday(cfg, overrides, today) && InDay(now) && now.Whole() &&
        Offered(cfg, overrides, today, now, t)
        ensures Accepted(cfg, overrides, today, now, Whole(t))
      {
        OfferedIsAccepted(cfg, overrides, today, now, t);
      }
    }
  }

  /** The preparation times for which offered and accepted are the same: half an hour, or one
      so long that nothing is left of any day. */
  lemma WhenOfferedAndAcceptedCoincide(preparation: int)
    ensures OfferedAndAcceptedCoincide(preparation) <==> preparation == 30 || preparation > 1425
  {
    if preparation <= 0 {
      OpenFromOffers(0, preparation, 60, 75);
    } else if preparation < 30 {
      OpenFromOffers(30 - preparation, preparation, 0, 30);
    } else if 30 < preparation <= 1425 {
      var t := RoundUp(preparation);
      RoundUpIsLeast(preparation, 1425);
      OpenFromOffers(t - 30, preparation, 0, t);
    } else {
      forall cfg: Config, overrides: Overrides, today: Date, now: Instant, t: int |
        cfg.preparation == preparation && ExactToday(cfg, overrides, today) && InDay(now) && now.Whole() &&
        HoursReadable(cfg)
        ensures Offered(cfg, overrides, today, now, t) <==> Accepted(cfg, overrides, today, now, Whole(t))
      {
        OneHalfHourOrNothing(cfg, overrides, today, now, t);
      }
    }
  }

  lemma OneHalfHourOrNothing(cfg: Config, overrides: Overrides, today: Date, now: Instant, t: int)
    requires HoursReadable(cfg) && ExactToday(cfg, overrides, today) && InDay(now) && now.Whole()
    requires cfg.preparation == 30 || cfg.preparation > 1425
    ensures Offered(cfg, overrides, today, now, t) <==> Accepted(cfg, overrides, today, now, Whole(t))
  {
  }

  // ---------------------------------------------------------------------------
  // The lunch-only rule
  // ---------------------------------------------------------------------------

  /** The rule for an instant of its own: inside the first interval of its date, from Monday
      to Friday. */
  predicate LunchOnlyAllowed(cfg: Config, overrides: Overrides, today: Date, t: Instant) {
    var date := today + t.minute / DAY;
    var schedule := GeneratorSchedule(cfg, overrides, date);
    && IsWeekday(date) && schedule.Some?
    && schedule.value.open.At? && schedule.value.close.At?
    && schedule.value.open.minutes <= t.minute % DAY <= schedule.value.close.minutes
  }

  /** The rule, by the hours: on a date from Monday to Friday, from the opening of the first interval
      to its closing, both included. An override counts where the weekly hours can be read. */
  lemma LunchRuleByHours(cfg: Config, overrides: Overrides, today: Date, t: Instant, days: map<int, DaySchedule>)
    requires cfg.ordering == Weekly(days) || (cfg.ordering == NotSet && cfg.opening == Weekly(days))
    ensures var date, minute := today + t.minute / 1440, t.minute % 1440;
      LunchOnlyAllowed(cfg, overrides, today, t) <==>
        && date % 7 in {0, 1, 2, 3, 4}
        && (date in overrides ==> overrides[date].Special? && LunchHas(overrides[date].schedule, minute))
        && (date !in overrides ==> date % 7 in days && LunchHas(days[date % 7], minute))
  {
  }

  predicate LunchHas(s: DaySchedule, minute: int) {
    s.open.At? && s.close.At? && s.open.minutes <= minute <= s.close.minutes
  }

  /** A slot's mark and the rule agree, except on weekday slots that dinner serves in the first
      minutes of lunch, before lunch itself serves any. */
  lemma LunchMarkAgrees(cfg: Config, overrides: Overrides, today: Date, now: Instant, t: int)
    requires ExactToday(cfg, overrides, today) && InDay(now)
    requires Offered(cfg, overrides, today, now, t)
    ensures var s := GeneratorSchedule(cfg, overrides, today).value;
      (FromLunch(s, Prep(cfg), today, now, t) == LunchOnlyAllowed(cfg, overrides, today, Whole(t))) <==>
      !(IsWeekday(today) && s.open.minutes <= t < s.open.minutes + Prep(cfg) && t <= s.close.minutes)
  {
  }

  /** Lunch from 12:00 to 14:00 on Mondays, and dinner hours from 11:00 to 15:00. */
  const EARLY_DINNER: Config :=
    Config(Weekly(map[0 := DaySchedule(At(720, true), At(840, true), At(660, true), At(900, true))]), NotSet, 30)

  /** Such a slot: 12:00, which is offered without the mark although the rule allows it. */
  lemma LunchMarkCanBeMissing()
    ensures Offered(EARLY_DINNER, map[], 0, Whole(0), 720)
    ensures !FromLunch(GeneratorSchedule(EARLY_DINNER, map[], 0).value, Prep(EARLY_DINNER), 0, Whole(0), 720)
    ensures LunchOnlyAllowed(EARLY_DINNER, map[], 0, Whole(720))
  {
    var ivs := Intervals(GeneratorSchedule(EARLY_DINNER, map[], 0).value);
    assert |ivs| == 2 && Serves(ivs[1], Prep(EARLY_DINNER), Whole(0), 720);
  }

  /** So they always agree when lunch ends before dinner serves, or dinner opens no earlier
      than lunch. */
  lemma LunchMarksAgree(cfg: Config, overrides: Overrides, today: Date, now: Instant, t: int)
    requires ExactToday(cfg, overrides, today) && InDay(now)
    requires Offered(cfg, overrides, today, now, t)
    requires var s := GeneratorSchedule(cfg, overrides, today).value;
      LunchBeforeDinner(Intervals(s), Prep(cfg)) || (s.dinnerOpen.At? ==> s.open.minutes <= s.dinnerOpen.minutes)
    ensures FromLunch(GeneratorSchedule(cfg, overrides, today).value, Prep(cfg), today, now, t) ==
      LunchOnlyAllowed(cfg, overrides, today, Whole(t))
  {
  }
}
