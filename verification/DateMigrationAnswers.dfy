// What the date migration answers: how every record is classified and why, and exactly what a preview
// proposes, reports and warns of.
module DateMigrationAnswers {
  import opened Options
  import opened Strings
  import opened Calendar
  import opened DateMigration

  // ---------------------------------------------------------------- start times

  // A start time is two digits of an hour, a colon, and two digits of a minute.
  lemma {:induction false} StartTimeIff(s: string)
    ensures IsStartTime(s) <==> exists h: nat, m: nat :: h < 24 && m < 60 && IsClock(s, h, m)
    ensures forall h: nat, m: nat :: h < 24 && m < 60 && IsClock(s, h, m) && IsStartTime(s) ==>
      StartTimeMilliseconds(s) == (h * 60 + m) * 60_000
  {
    Widths();
    if IsStartTime(s) {
      var h, m := Parse(s[..2]), Parse(s[3..]);
      PadParse(s[..2]);
      PadParse(s[3..]);
      assert s == s[..2] + ":" + s[3..];
      assert IsClock(s, h, m);
    }
    forall h: nat, m: nat | h < 24 && m < 60 && IsClock(s, h, m)
      ensures IsStartTime(s) && StartTimeMilliseconds(s) == (h * 60 + m) * 60_000
    {
      StartTimeRoundTrip(Parts(1, 1, 1, h, m, 0));
    }
  }

  predicate IsClock(s: string, h: nat, m: nat)
    requires h < 24 && m < 60
  {
    Widths();
    s == Pad(2, h) + ":" + Pad(2, m)
  }

  // ---------------------------------------------------------------- classification

  // The stored text names this day.
  predicate NamesDay(dateOnly: string, day: int) {
    IsDateOnly(dateOnly) && DayNumber(ParseDateOnly(dateOnly).value) == day
  }

  // Why a record would be quarantined.
  predicate Objection(reason: Reason, date: StoredDate, dateOnly: StoredText, startTime: StoredText) {
    match reason
    case MissingOrInvalidDate => date.NoDate? || date.InvalidDate?
    case InvalidDateOnly => dateOnly.NotText? || (dateOnly.Text? && !IsDateOnly(dateOnly.value))
    case InvalidStartTime => startTime.NotText? || (startTime.Text? && !IsStartTime(startTime.value))
    case StartTimeWithoutDateOnly => dateOnly.Absent? && startTime.Text? && IsStartTime(startTime.value)
    case DateShadowMismatch =>
      date.Instant? && dateOnly.Text? && IsDateOnly(dateOnly.value)
      && !(TimeOfDay(date.milliseconds) == 0 && NamesDay(dateOnly.value, DayOf(date.milliseconds)))
    case _ => false
  }

  // A record is quarantined exactly with all its objections; without any it is canonical with a date-only
  // value, ambiguous at a midnight without one, and legacy at any other time.
  lemma {:induction false} ClassIff(date: StoredDate, dateOnly: StoredText, startTime: StoredText)
    ensures var c := Classify(Timecard(date, dateOnly, startTime));
      if exists reason :: Objection(reason, date, dateOnly, startTime) then
        && c.class_ == Quarantined && !c.migratable
        && forall reason :: reason in c.reasons <==> Objection(reason, date, dateOnly, startTime)
      else
        && date.Instant?
        && c == if dateOnly.Text? then Classification(Canonical, false, [CanonicalDateFields])
                else if TimeOfDay(date.milliseconds) == 0 then Classification(Ambiguous, true, [UtcMidnightHasNoTimeIntent])
                else Classification(Legacy, true, [CombinedDateAndTime])
    ensures Classify(NotObject) == Classification(Quarantined, false, [RecordNotObject])
  {
    if date.Instant? && dateOnly.Text? && IsDateOnly(dateOnly.value) { ShadowIff(date.milliseconds, dateOnly.value); }
    hide IsDateOnly, IsStartTime, NamesDay, DateParse, TimeOfDay, DayOf;
    ReasonsAre(date, dateOnly, startTime);
    var reasons := QuarantineReasons(date, dateOnly, startTime);
    if reasons != [] { assert reasons[0] in reasons; }
    MidnightTest(date);
  }

  lemma MidnightTest(date: StoredDate)
    ensures date.Instant? ==> (date.milliseconds % MILLISECONDS_PER_DAY == 0 <==> TimeOfDay(date.milliseconds) == 0)
  {
  }

  lemma {:induction false} ShadowIff(milliseconds: int, dateOnly: string)
    requires IsDateOnly(dateOnly)
    ensures milliseconds == DateParse(dateOnly) <==>
      TimeOfDay(milliseconds) == 0 && NamesDay(dateOnly, DayOf(milliseconds))
  {
    FormatParse(dateOnly);
    var day := DayNumber(ParseDateOnly(dateOnly).value);
    hide IsDateOnly, ParseDateOnly, DayNumber, FormatDateOnly, Valid;
    InDay(day, 0);
    assert MidnightUtc(day) + 0 == MidnightUtc(day);
    DayAndTime(milliseconds);
  }

  lemma {:induction false} ReasonsAre(date: StoredDate, dateOnly: StoredText, startTime: StoredText)
    requires date.Instant? && dateOnly.Text? && IsDateOnly(dateOnly.value) ==>
      (date.milliseconds == DateParse(dateOnly.value) <==>
        TimeOfDay(date.milliseconds) == 0 && NamesDay(dateOnly.value, DayOf(date.milliseconds)))
    ensures forall reason ::
      reason in QuarantineReasons(date, dateOnly, startTime) <==> Objection(reason, date, dateOnly, startTime)
  {
    hide IsDateOnly, IsStartTime, NamesDay, DateParse, TimeOfDay, DayOf;
  }

  // ---------------------------------------------------------------- previews

  // Days of the years 1 to 9999.
  predicate InYears(day: int) {
    366 <= day < 3_652_425
  }

  lemma {:induction false} YearOf(day: nat)
    ensures InYears(day) <==> 1 <= CivilOf(day).year <= 9999
    ensures day < 3_652_425 <==> CivilOf(day).year <= 9999
  {
    CivilOfCounts(day);
    var c := CivilOf(day);
    YearStartClosed(1);
    YearStartClosed(10000);
    MonthsFillYear(c.year, c.month);
    if c.year > 0 { YearStartGrowsWeakly(1, c.year); }
    if c.year > 9999 { YearStartGrowsWeakly(10000, c.year); } else { YearStartGrowsWeakly(c.year + 1, 10000); }
    hide CivilOf;
    assert YearStart(c.year + 1) == YearStart(c.year) + YearLength(c.year);
  }

  lemma YearStartGrowsWeakly(a: nat, b: nat)
    requires a <= b
    ensures YearStart(a) <= YearStart(b)
  {
    if a < b { YearStartGrows(a, b); }
  }

  predicate Extracts(mode: Mode, policy: Option<StartTimePolicy>) {
    if policy == None then mode != DateOnly else policy.value == Extract
  }

  predicate InZone(mode: Mode) {
    mode == InstantInZone || mode == LegacyDisplayInZone
  }

  // What each warning says.
  predicate Warranted(warning: Warning, mode: Mode, extracts: bool, source: int, zone: int, clock: int, day: int) {
    match warning
    case AmbiguousUtcMidnight => TimeOfDay(source) == 0
    case StartTimeOmitted => !extracts
    case SubMinutePrecisionLoss => TimeOfDay(clock) % 60_000 != 0
    case CalendarDayShiftBackward => day < DayOf(source)
    case CalendarDayShiftForward => day > DayOf(source)
    case ZonedClockFromPreviousDay => mode == LegacyDisplayInZone && DayOf(zone) < DayOf(source)
    case ZonedClockFromNextDay => mode == LegacyDisplayInZone && DayOf(zone) > DayOf(source)
  }

  // For a legacy record of the years 1 to 9999 the preview proposes the day in UTC or in the zone, its
  // midnight and the minute of the clock, reports both shifts and what is below the minute, and warns of
  // exactly what applies.
  lemma {:induction false} ProposedExactly(source: int, mode: Mode, policy: Option<StartTimePolicy>, offset: int -> int)
    requires mode == DateOnly ==> policy != Some(Extract)
    requires InYears(DayOf(source)) && (InZone(mode) ==> InYears(DayOf(source + offset(source) * 1000)))
    ensures var preview := PreviewMigration(LegacyRecord(source), mode, policy, offset);
      var zone := source + offset(source) * 1000;
      var clock := if InZone(mode) then zone else source;
      var day := if mode == InstantInZone then DayOf(zone) else DayOf(source);
      preview.Proposed? && ProposesExactly(preview, mode, Extracts(mode, policy), source, zone, clock, day)
  {
    hide *;
    var zone := source + offset(source) * 1000;
    var clock := if InZone(mode) then zone else source;
    PartsNameDay(source);
    PartsNameDay(clock) by { ClockInYears(source, mode, offset); }
    PolicyChosen(mode, policy);
    PreviewIsProposal(source, mode, policy, offset);
    ClockParts(Classify(LegacyRecord(source)), source, mode, policy, offset);
    BelowSecond(source, offset(source));
    ProposedFrom(source, mode, policy, zone, clock);
  }

  ghost predicate ProposesExactly(preview: Preview, mode: Mode, extracts: bool, source: int, zone: int, clock: int, day: int)
    requires preview.Proposed?
  {
    var p := preview.proposal;
    && NamesDay(p.dateOnly, day) && p.date == MidnightUtc(day)
    && (if extracts
        then p.startTime.Some? && IsStartTime(p.startTime.value)
             && StartTimeMilliseconds(p.startTime.value) == TimeOfDay(clock) - TimeOfDay(clock) % 60_000
        else p.startTime == None)
    && preview.dayShift == day - DayOf(source)
    && preview.zonedDayShift == (if InZone(mode) then Some(DayOf(zone) - DayOf(source)) else None)
    && preview.lostMilliseconds == TimeOfDay(clock) % 60_000
    && (forall w :: w in preview.warnings <==> Warranted(w, mode, extracts, source, zone, clock, day))
    && (forall i, j :: 0 <= i < j < |preview.warnings| ==> preview.warnings[i] != preview.warnings[j])
  }

  lemma ClockInYears(source: int, mode: Mode, offset: int -> int)
    requires InYears(DayOf(source)) && (InZone(mode) ==> InYears(DayOf(source + offset(source) * 1000)))
    ensures InYears(DayOf(if InZone(mode) then source + offset(source) * 1000 else source))
  {
  }

  lemma PolicyChosen(mode: Mode, policy: Option<StartTimePolicy>)
    requires mode == DateOnly ==> policy != Some(Extract)
    ensures Policy(mode, policy) == Some(if Extracts(mode, policy) then Extract else Omit)
  {
  }

  // The parts of an instant of these years name its day, and its minute.
  lemma {:induction false} PartsNameDay(milliseconds: int)
    requires InYears(DayOf(milliseconds))
    ensures Readable(milliseconds)
    ensures InClock(PartsOf(milliseconds)) && PartsOf(milliseconds).year >= 1 && FormatParts(PartsOf(milliseconds)).Some?
  {
    var day := DayOf(milliseconds);
    YearOf(day);
    CivilOfCounts(day);
    assert CivilOfAny(day) == CivilOf(day);
    PartsInRange(milliseconds);
    FormattedIsDateOnly(PartsOf(milliseconds));
    StartTimeRoundTrip(PartsOf(milliseconds));
    DayAndTime(milliseconds);
    MinuteParts(TimeOfDay(milliseconds));
    hide FormatDateOnly, ParseDateOnly, FormatStartTime, IsStartTime, StartTimeMilliseconds, DayNumber, Valid, CivilOf;
  }

  lemma {:induction false} MinuteParts(t: nat)
    ensures t / 3_600_000 * 3_600_000 + t / 60_000 % 60 * 60_000 == t - t % 60_000
    ensures t / 1000 % 60 * 1000 + t % 1000 == t % 60_000
  {
    Nested(t, 60_000, 60);
    Nested(t, 1000, 60);
  }

  lemma {:induction false} Nested(t: nat, a: nat, b: nat)
    requires (a == 60_000 || a == 1000) && b == 60
    ensures t / (a * b) * (a * b) + t / a % b * a + t % a == t
  {
    if a == 1000 { assert t / 60_000 == t / 1000 / 60; } else { assert t / 3_600_000 == t / 60_000 / 60; }
  }

  lemma BelowSecond(source: int, seconds: int)
    ensures (source + seconds * 1000) % 1000 == source % 1000
  {
  }

  // Which parts the clock time is read from.
  lemma {:induction false} ClockParts(c: Classification, source: int, mode: Mode, policy: Option<StartTimePolicy>, offset: int -> int)
    requires FormatParts(PartsOf(source)).Some? && Policy(mode, policy).Some?
    requires var clock := if InZone(mode) then source + offset(source) * 1000 else source;
      InClock(PartsOf(clock)) && PartsOf(clock).year >= 1
    ensures var clock := if InZone(mode) then source + offset(source) * 1000 else source;
      Propose(c, source, mode, Policy(mode, policy).value, offset)
        == ProposeFrom(c, PartsOf(source), PartsOf(clock), source % 1000, mode, Policy(mode, policy).value)
  {
    if InZone(mode) { ZonedIsShifted(c, source, mode, Policy(mode, policy).value, offset); }
    hide FormatParts, PartsOf, ProposeFrom;
  }

  lemma {:induction false} ProposedFrom(source: int, mode: Mode, policy: Option<StartTimePolicy>, zone: int, clock: int)
    requires Policy(mode, policy) == Some(if Extracts(mode, policy) then Extract else Omit)
    requires clock == (if InZone(mode) then zone else source) && clock % 1000 == source % 1000
    requires Readable(source) && Readable(clock)
    ensures FormatParts(PartsOf(source)).Some? && InClock(PartsOf(clock))
    ensures var day := if mode == InstantInZone then DayOf(zone) else DayOf(source);
      var preview := ProposeFrom(Classify(LegacyRecord(source)), PartsOf(source), PartsOf(clock), source % 1000, mode,
                                 Policy(mode, policy).value);
      preview.Proposed? && ProposesExactly(preview, mode, Extracts(mode, policy), source, zone, clock, day)
  {
    hide Classify, CalendarDayDifference, DateParse, FormatParts, PartsOf, FormatStartTime, IsStartTime, ProposesExactly,
      StartTimeMilliseconds, Warnings, DayOf, TimeOfDay, MidnightUtc, Policy, Extracts, IsDateOnly, ProposeFrom, NamesDay;
    var extracts := Extracts(mode, policy);
    var day := if mode == InstantInZone then DayOf(zone) else DayOf(source);
    var dateOnly := FormatParts(PartsOf(if mode == InstantInZone then clock else source)).value;
    var c := Classify(LegacyRecord(source));
    var lost := TimeOfDay(clock) % 60_000;
    Fields(c, PartsOf(source), PartsOf(clock), source % 1000, mode, extracts, DayOf(source), DayOf(clock), lost);
    NamedMidnight(dateOnly, day);
    Ambiguity(source);
    FieldsFit(c, dateOnly, FormatStartTime(PartsOf(clock)), mode, extracts, source, zone, clock, day, lost);
  }

  // The fields of a proposal from two readings of a clock.
  lemma {:induction false} Fields(c: Classification, sourceParts: Parts, clockParts: Parts, milliseconds: int, mode: Mode,
                                  extracts: bool, from: int, to: int, lost: int)
    requires InClock(clockParts) && FormatParts(sourceParts).Some? && FormatParts(clockParts).Some?
    requires NamesDay(FormatParts(sourceParts).value, from) && NamesDay(FormatParts(clockParts).value, to)
    requires clockParts.second * 1000 + milliseconds == lost
    ensures IsDateOnly(FormatParts(if mode == InstantInZone then clockParts else sourceParts).value)
    ensures var dateOnly := FormatParts(if mode == InstantInZone then clockParts else sourceParts).value;
      var shift := if mode == InstantInZone then to - from else 0;
      var zoned := if InZone(mode) then Some(to - from) else None;
      var policy := if extracts then Extract else Omit;
      ProposeFrom(c, sourceParts, clockParts, milliseconds, mode, policy)
        == Proposed(c, Proposal(DateParse(dateOnly), dateOnly, if extracts then Some(FormatStartTime(clockParts)) else None),
                    shift, zoned, lost, Warnings(c, policy, mode, lost, shift, zoned))
  {
    hide CalendarDayDifference, DateParse, FormatStartTime, Warnings, FormatParts, IsDateOnly, NamesDay;
    var a, b := FormatParts(sourceParts).value, FormatParts(clockParts).value;
    NamedDifference(a, b, from, to);
    NamedDifference(a, a, from, from);
  }

  lemma {:induction false} FieldsFit(c: Classification, dateOnly: string, startTime: string, mode: Mode, extracts: bool,
                                     source: int, zone: int, clock: int, day: int, lost: int)
    requires NamesDay(dateOnly, day) && IsDateOnly(dateOnly) && DateParse(dateOnly) == MidnightUtc(day)
    requires day == if mode == InstantInZone then DayOf(zone) else DayOf(source)
    requires IsStartTime(startTime) && StartTimeMilliseconds(startTime) == TimeOfDay(clock) - TimeOfDay(clock) % 60_000
    requires c.class_ == (if TimeOfDay(source) == 0 then Ambiguous else Legacy) && lost == TimeOfDay(clock) % 60_000
    ensures var shift := if mode == InstantInZone then DayOf(zone) - DayOf(source) else 0;
      var zoned := if InZone(mode) then Some(DayOf(zone) - DayOf(source)) else None;
      var preview := Proposed(c, Proposal(DateParse(dateOnly), dateOnly, if extracts then Some(startTime) else None), shift, zoned,
                              lost, Warnings(c, if extracts then Extract else Omit, mode, lost, shift, zoned));
      ProposesExactly(preview, mode, extracts, source, zone, clock, day)
  {
    hide DateParse, NamesDay, IsStartTime, StartTimeMilliseconds, Warnings, DayOf, TimeOfDay, MidnightUtc, IsDateOnly;
    var shift := if mode == InstantInZone then DayOf(zone) - DayOf(source) else 0;
    var zoned := if InZone(mode) then Some(DayOf(zone) - DayOf(source)) else None;
    WarningsAre(c, if extracts then Extract else Omit, mode, lost, shift, zoned);
  }

  lemma {:induction false} NamedMidnight(a: string, day: int)
    requires NamesDay(a, day)
    ensures IsDateOnly(a) && DateParse(a) == MidnightUtc(day)
  {
  }

  lemma {:induction false} NamedDifference(a: string, b: string, from: int, to: int)
    requires NamesDay(a, from) && NamesDay(b, to)
    ensures IsDateOnly(a) && IsDateOnly(b) && CalendarDayDifference(a, b) == to - from
  {
    DifferenceCountsDays(a, b, a);
    hide IsDateOnly, CalendarDayDifference, ParseDateOnly, DayNumber;
  }

  lemma Ambiguity(source: int)
    ensures Classify(LegacyRecord(source)).class_ == if TimeOfDay(source) == 0 then Ambiguous else Legacy
  {
  }

  lemma {:induction false} WarningsAre(c: Classification, policy: StartTimePolicy, mode: Mode, lost: int, dayShift: int,
                                       zonedDayShift: Option<int>)
    ensures forall w :: w in Warnings(c, policy, mode, lost, dayShift, zonedDayShift) <==>
      match w
      case AmbiguousUtcMidnight => c.class_ == Ambiguous
      case StartTimeOmitted => policy == Omit
      case SubMinutePrecisionLoss => lost != 0
      case CalendarDayShiftBackward => dayShift < 0
      case CalendarDayShiftForward => dayShift > 0
      case ZonedClockFromPreviousDay => mode == LegacyDisplayInZone && zonedDayShift.Some? && zonedDayShift.value < 0
      case ZonedClockFromNextDay => mode == LegacyDisplayInZone && zonedDayShift.Some? && zonedDayShift.value > 0
    ensures var all := Warnings(c, policy, mode, lost, dayShift, zonedDayShift);
      forall i, j :: 0 <= i < j < |all| ==> all[i] != all[j]
  {
  }

  predicate Readable(milliseconds: int) {
    var p := PartsOf(milliseconds);
    && InClock(p) && p.year >= 1
    && FormatParts(p).Some? && NamesDay(FormatParts(p).value, DayOf(milliseconds))
    && IsStartTime(FormatStartTime(p))
    && StartTimeMilliseconds(FormatStartTime(p)) == TimeOfDay(milliseconds) - TimeOfDay(milliseconds) % 60_000
    && p.second * 1000 + milliseconds % 1000 == TimeOfDay(milliseconds) % 60_000
  }

  // Everything else: a start time asked for in date-only mode is refused; a record without a valid date, or
  // with one of the newer fields, is reported unchanged; dates outside the years 0 to 9999 are out of range.
  lemma {:induction false} NotProposed(timecard: Timecard, mode: Mode, policy: Option<StartTimePolicy>, offset: int -> int)
    ensures var preview := PreviewMigration(timecard, mode, policy, offset);
      if mode == DateOnly && policy == Some(Extract) then preview == OptionsRejected
      else if timecard.NotObject? || !timecard.date.Instant? then preview == Inert(Classify(timecard))
      else
        var day := DayOf(timecard.date.milliseconds);
        && (day < 0 || day >= 3_652_425 ==> preview == OutOfRange)
        && (0 <= day < 3_652_425 && !(timecard.dateOnly == Absent && timecard.startTime == Absent) ==>
              preview == Inert(Classify(timecard)))
  {
    MigratableIff(timecard);
    if timecard.Timecard? && timecard.date.Instant? { FormattedIff(timecard.date.milliseconds); }
    hide Classify, FormatParts, PartsOf, Propose, DayOf;
  }

  lemma {:induction false} FormattedIff(milliseconds: int)
    ensures FormatParts(PartsOf(milliseconds)).Some? <==> 0 <= DayOf(milliseconds) < 3_652_425
  {
    hide CivilOf, FormatDateOnly, DayOf, TimeOfDay;
    DayFormats(DayOf(milliseconds));
  }

  lemma {:induction false} DayFormats(day: int)
    ensures var c := CivilOfAny(day); Valid(c) && c.year <= 9999 <==> 0 <= day < 3_652_425
  {
    if day >= 0 {
      YearOf(day);
      CivilOfCounts(day);
      hide CivilOf, Valid;
    } else {
      NegativeYear(day);
      hide CivilOf, CivilOfAny;
    }
  }

  lemma {:induction false} NegativeYear(day: int)
    requires day < 0
    ensures CivilOfAny(day).year < 0
  {
    var n := Eras(day);
    var shifted := day + n * DAYS_PER_ERA;
    CivilOfCounts(shifted);
    var c := CivilOf(shifted);
    WithinEra(c);
    YearStartClosed(400);
    if c.year == 400 { assert shifted >= YearStart(400); }
    hide CivilOf, YearStart, MonthStart, Valid, YearLength, MonthLength;
  }
}
