// classifyTimecardDate and previewTimecardDateMigration of imports/utils/timecardDateMigration.js.
// A time zone is any function from instants to whole-second offsets.
module DateMigration {
  import opened Options
  import opened Strings
  import opened Calendar

  // ---------------------------------------------------------------- records

  // What validDate makes of the stored date.
  datatype StoredDate = NoDate | InvalidDate | Instant(milliseconds: int)

  datatype StoredText = Absent | NotText | Text(value: string)

  datatype Timecard = NotObject | Timecard(date: StoredDate, dateOnly: StoredText, startTime: StoredText)

  datatype Class = Canonical | Legacy | Ambiguous | Quarantined

  datatype Reason =
    | RecordNotObject | MissingOrInvalidDate | InvalidDateOnly | InvalidStartTime | StartTimeWithoutDateOnly
    | DateShadowMismatch | CanonicalDateFields | UtcMidnightHasNoTimeIntent | CombinedDateAndTime

  datatype Classification = Classification(class_: Class, migratable: bool, reasons: seq<Reason>)

  predicate IsStartTime(s: string) {
    && |s| == 5 && s[2] == ':' && AllDigits(s[..2]) && AllDigits(s[3..])
    && Parse(s[..2]) < 24 && Parse(s[3..]) < 60
  }

  function QuarantineReasons(date: StoredDate, dateOnly: StoredText, startTime: StoredText): seq<Reason> {
    (if date.Instant? then [] else [MissingOrInvalidDate])
    + (if dateOnly.NotText? || (dateOnly.Text? && !IsDateOnly(dateOnly.value)) then [InvalidDateOnly] else [])
    + (if startTime.NotText? || (startTime.Text? && !IsStartTime(startTime.value)) then [InvalidStartTime] else [])
    + (if dateOnly.Absent? && startTime.Text? && IsStartTime(startTime.value) then [StartTimeWithoutDateOnly] else [])
    + (if date.Instant? && dateOnly.Text? && IsDateOnly(dateOnly.value)
          && date.milliseconds != DateParse(dateOnly.value) then [DateShadowMismatch] else [])
  }

  function Classify(timecard: Timecard): Classification {
    match timecard
    case NotObject => Classification(Quarantined, false, [RecordNotObject])
    case Timecard(date, dateOnly, startTime) =>
      var reasons := QuarantineReasons(date, dateOnly, startTime);
      if reasons != [] || !date.Instant? then Classification(Quarantined, false, reasons)
      else if !dateOnly.Absent? then Classification(Canonical, false, [CanonicalDateFields])
      else if date.milliseconds % MILLISECONDS_PER_DAY == 0
      then Classification(Ambiguous, true, [UtcMidnightHasNoTimeIntent])
      else Classification(Legacy, true, [CombinedDateAndTime])
  }

  // A record is migratable exactly when it has a valid date and neither of the two newer fields.
  lemma MigratableIff(timecard: Timecard)
    ensures Classify(timecard).migratable <==>
      timecard.Timecard? && timecard.date.Instant? && timecard.dateOnly.Absent? && timecard.startTime.Absent?
  {
  }

  // ---------------------------------------------------------------- clocks

  datatype Parts = Parts(year: int, month: int, day: int, hour: int, minute: int, second: int)

  function PartsOf(milliseconds: int): Parts {
    var c := CivilOfAny(DayOf(milliseconds));
    var t := TimeOfDay(milliseconds);
    Parts(c.year, c.month, c.day, t / 3_600_000, t / 60_000 % 60, t / 1000 % 60)
  }

  // Intl formats years without their era: the year before year 1 comes out as year 1 again.
  function ZonedParts(milliseconds: int, offset: int -> int): Parts {
    var parts := PartsOf(milliseconds + offset(milliseconds) * 1000);
    parts.(year := if parts.year >= 1 then parts.year else 1 - parts.year)
  }

  // formatDateOnly throws for anything that is not a four-digit calendar date.
  function FormatParts(parts: Parts): Option<string> {
    var c := Civil(parts.year, parts.month, parts.day);
    if Valid(c) && c.year <= 9999 then Some(FormatDateOnly(c)) else None
  }

  function FormatStartTime(parts: Parts): string
    requires 0 <= parts.hour < 24 && 0 <= parts.minute < 60
  {
    Widths();
    Pad(2, parts.hour) + ":" + Pad(2, parts.minute)
  }

  function StartTimeMilliseconds(s: string): nat
    requires IsStartTime(s)
  {
    Parse(s[..2]) * 3_600_000 + Parse(s[3..]) * 60_000
  }

  // calendarDayDifference: both arguments are midnights, so nothing is left to round.
  function CalendarDayDifference(from: string, to: string): int
    requires IsDateOnly(from) && IsDateOnly(to)
  {
    (DateParse(to) - DateParse(from)) / MILLISECONDS_PER_DAY
  }

  // ---------------------------------------------------------------- the preview

  datatype Mode = UtcWallClock | InstantInZone | LegacyDisplayInZone | DateOnly

  datatype StartTimePolicy = Extract | Omit

  datatype Warning =
    | AmbiguousUtcMidnight | StartTimeOmitted | SubMinutePrecisionLoss | CalendarDayShiftBackward
    | CalendarDayShiftForward | ZonedClockFromPreviousDay | ZonedClockFromNextDay

  datatype Proposal = Proposal(date: int, dateOnly: string, startTime: Option<string>)

  datatype Preview =
    | OptionsRejected
    | OutOfRange
    | Inert(classification: Classification)
    | Proposed(classification: Classification, proposal: Proposal, dayShift: int, zonedDayShift: Option<int>,
               lostMilliseconds: int, warnings: seq<Warning>)

  predicate Zoned(mode: Mode) {
    mode.InstantInZone? || mode.LegacyDisplayInZone?
  }

  // validateMigrationOptions: the default policy, and the one combination it refuses.
  function Policy(mode: Mode, policy: Option<StartTimePolicy>): Option<StartTimePolicy> {
    var chosen := if policy.Some? then policy.value else if mode.DateOnly? then Omit else Extract;
    if mode.DateOnly? && chosen.Extract? then None else Some(chosen)
  }

  function Warnings(c: Classification, policy: StartTimePolicy, mode: Mode, lost: int, dayShift: int, zonedDayShift: Option<int>): seq<Warning> {
    (if c.class_.Ambiguous? then [AmbiguousUtcMidnight] else [])
    + (if policy.Omit? then [StartTimeOmitted] else [])
    + (if lost != 0 then [SubMinutePrecisionLoss] else [])
    + (if dayShift < 0 then [CalendarDayShiftBackward] else if dayShift > 0 then [CalendarDayShiftForward] else [])
    + (if mode.LegacyDisplayInZone? && zonedDayShift.Some? && zonedDayShift.value < 0 then [ZonedClockFromPreviousDay]
       else if mode.LegacyDisplayInZone? && zonedDayShift.Some? && zonedDayShift.value > 0 then [ZonedClockFromNextDay]
       else [])
  }

  lemma PartsInRange(milliseconds: int)
    ensures var p := PartsOf(milliseconds); 0 <= p.hour < 24 && 0 <= p.minute < 60 && 0 <= p.second < 60
  {
  }

  lemma FormattedIsDateOnly(parts: Parts)
    ensures FormatParts(parts).Some? ==>
      && IsDateOnly(FormatParts(parts).value)
      && ParseDateOnly(FormatParts(parts).value) == Some(Civil(parts.year, parts.month, parts.day))
  {
    if FormatParts(parts).Some? { ParseFormat(Civil(parts.year, parts.month, parts.day)); }
  }

  function PreviewMigration(timecard: Timecard, mode: Mode, policy: Option<StartTimePolicy>, offset: int -> int): Preview {
    var classification := Classify(timecard);
    if Policy(mode, policy).None? then OptionsRejected
    else if !timecard.Timecard? || !timecard.date.Instant? then Inert(classification)
    else if FormatParts(PartsOf(timecard.date.milliseconds)).None? then OutOfRange
    else if !classification.migratable then Inert(classification)
    else Propose(classification, timecard.date.milliseconds, mode, Policy(mode, policy).value, offset)
  }

  predicate InClock(p: Parts) {
    0 <= p.hour < 24 && 0 <= p.minute < 60
  }

  function Propose(c: Classification, source: int, mode: Mode, policy: StartTimePolicy, offset: int -> int): Preview
    requires FormatParts(PartsOf(source)).Some?
  {
    PartsInRange(source);
    PartsInRange(source + offset(source) * 1000);
    ProposeFrom(c, PartsOf(source), if Zoned(mode) then ZonedParts(source, offset) else PartsOf(source),
                source % 1000, mode, policy)
  }

  // The preview from the parts of the source in UTC and the parts the clock time is read from.
  function ProposeFrom(c: Classification, sourceParts: Parts, timeParts: Parts, milliseconds: int, mode: Mode, policy: StartTimePolicy): Preview
    requires FormatParts(sourceParts).Some? && InClock(timeParts)
  {
    FormattedIsDateOnly(sourceParts);
    FormattedIsDateOnly(timeParts);
    if FormatParts(timeParts).None? then OutOfRange
    else
      var sourceDateOnly := FormatParts(sourceParts).value;
      var clockDateOnly := FormatParts(timeParts).value;
      var zonedDayShift := if Zoned(mode) then Some(CalendarDayDifference(sourceDateOnly, clockDateOnly)) else None;
      var dateOnly := if mode.InstantInZone? then clockDateOnly else sourceDateOnly;
      var dayShift := CalendarDayDifference(sourceDateOnly, dateOnly);
      var lost := timeParts.second * 1000 + milliseconds;
      var startTime := if policy.Extract? then Some(FormatStartTime(timeParts)) else None;
      Proposed(c, Proposal(DateParse(dateOnly), dateOnly, startTime), dayShift, zonedDayShift, lost,
               Warnings(c, policy, mode, lost, dayShift, zonedDayShift))
  }

  // ---------------------------------------------------------------- what a migration keeps

  // The record the caller would store.
  function Migrated(p: Proposal): Timecard {
    Timecard(Instant(p.date), Text(p.dateOnly), if p.startTime.Some? then Text(p.startTime.value) else Absent)
  }

  lemma StartTimeRoundTrip(parts: Parts)
    requires 0 <= parts.hour < 24 && 0 <= parts.minute < 60
    ensures IsStartTime(FormatStartTime(parts))
    ensures StartTimeMilliseconds(FormatStartTime(parts)) == parts.hour * 3_600_000 + parts.minute * 60_000
  {
    Widths();
    var s := FormatStartTime(parts);
    assert s[..2] == Pad(2, parts.hour) && s[3..] == Pad(2, parts.minute);
    ParsePad(2, parts.hour);
    ParsePad(2, parts.minute);
  }

  // A proposal consists of a date-only value, its midnight, and possibly a start time.
  predicate WellFormed(p: Proposal) {
    IsDateOnly(p.dateOnly) && p.date == DateParse(p.dateOnly) && (p.startTime.Some? ==> IsStartTime(p.startTime.value))
  }

  lemma {:induction false} ProposalWellFormed(c: Classification, sourceParts: Parts, timeParts: Parts, milliseconds: int, mode: Mode, policy: StartTimePolicy)
    requires FormatParts(sourceParts).Some? && InClock(timeParts)
    ensures var preview := ProposeFrom(c, sourceParts, timeParts, milliseconds, mode, policy);
      preview.Proposed? ==> WellFormed(preview.proposal)
  {
    FormattedIsDateOnly(sourceParts);
    FormattedIsDateOnly(timeParts);
    StartTimeRoundTrip(timeParts);
  }

  lemma WellFormedIsCanonical(p: Proposal)
    requires WellFormed(p)
    ensures Classify(Migrated(p)) == Classification(Canonical, false, [CanonicalDateFields])
  {
  }

  lemma {:induction false} ProposeWellFormed(c: Classification, source: int, mode: Mode, policy: StartTimePolicy, offset: int -> int)
    requires FormatParts(PartsOf(source)).Some?
    ensures var preview := Propose(c, source, mode, policy, offset);
      preview.Proposed? ==> WellFormed(preview.proposal)
  {
    PartsInRange(source);
    PartsInRange(source + offset(source) * 1000);
    var timeParts := if Zoned(mode) then ZonedParts(source, offset) else PartsOf(source);
    ProposalWellFormed(c, PartsOf(source), timeParts, source % 1000, mode, policy);
  }

  // Whatever is proposed reclassifies as canonical, so migrating twice proposes nothing more.
  lemma {:induction false} ProposalIsCanonical(timecard: Timecard, mode: Mode, policy: Option<StartTimePolicy>, offset: int -> int)
    ensures var preview := PreviewMigration(timecard, mode, policy, offset);
      preview.Proposed? ==>
        && Classify(timecard).migratable
        && Classify(Migrated(preview.proposal)) == Classification(Canonical, false, [CanonicalDateFields])
        && !PreviewMigration(Migrated(preview.proposal), mode, policy, offset).Proposed?
  {
    var preview := PreviewMigration(timecard, mode, policy, offset);
    if preview.Proposed? {
      ProposeWellFormed(Classify(timecard), timecard.date.milliseconds, mode, Policy(mode, policy).value, offset);
      WellFormedIsCanonical(preview.proposal);
    }
  }

  lemma SplitClock(t: nat)
    ensures t / 3_600_000 * 3_600_000 + t / 60_000 % 60 * 60_000 + t / 1000 % 60 * 1000 + t % 1000 == t
  {
    var seconds, minutes, hours := t / 1000, t / 60_000, t / 3_600_000;
    assert t == 1000 * seconds + t % 1000;
    assert minutes == seconds / 60 && hours == minutes / 60 by { Quotients(t); }
    assert seconds == 60 * minutes + seconds % 60;
    assert minutes == 60 * hours + minutes % 60;
  }

  lemma Quotients(t: nat)
    ensures t / 60_000 == t / 1000 / 60
    ensures t / 3_600_000 == t / 60_000 / 60
  {
  }

  lemma DayAndTime(milliseconds: int)
    ensures MidnightUtc(DayOf(milliseconds)) + TimeOfDay(milliseconds) == milliseconds
    ensures TimeOfDay(milliseconds) % 1000 == milliseconds % 1000
  {
  }

  lemma SameBelowSecond(milliseconds: int, seconds: int)
    ensures (milliseconds + seconds * 1000) % 1000 == milliseconds % 1000
  {
  }

  // The instant is taken apart without loss: its midnight, hours and minutes, and what is below a minute.
  lemma {:induction false} SplitTime(milliseconds: int)
    ensures var p := PartsOf(milliseconds);
      MidnightUtc(DayOf(milliseconds)) + p.hour * 3_600_000 + p.minute * 60_000
        + p.second * 1000 + milliseconds % 1000 == milliseconds
  {
    DayAndTime(milliseconds);
    SplitClock(TimeOfDay(milliseconds));
  }

  lemma WithinEra(c: Civil)
    requires Valid(c) && DayNumber(c) <= DAYS_PER_ERA
    ensures c.year <= 400
  {
    YearStartClosed(400);
    if c.year > 400 { YearStartGrows(400, c.year); }
  }

  // Years from 1 on are days from 0 on: earlier days are read in an earlier era.
  lemma PositiveYear(day: int)
    requires CivilOfAny(day).year >= 1
    ensures day >= 0
  {
    CivilOfCounts(day + Eras(day) * DAYS_PER_ERA);
    if day < 0 { WithinEra(CivilOf(day + Eras(day) * DAYS_PER_ERA)); }
  }

  // Within years 1 to 9999 a formatted date names the day of its instant.
  lemma {:induction false} FormattedDay(milliseconds: int)
    requires 1 <= PartsOf(milliseconds).year && FormatParts(PartsOf(milliseconds)).Some?
    ensures DayOf(milliseconds) >= 0
    ensures IsDateOnly(FormatParts(PartsOf(milliseconds)).value)
    ensures DateParse(FormatParts(PartsOf(milliseconds)).value) == MidnightUtc(DayOf(milliseconds))
  {
    PositiveYear(DayOf(milliseconds));
    assert CivilOfAny(DayOf(milliseconds)) == CivilOf(DayOf(milliseconds));
    FormattedIsDateOnly(PartsOf(milliseconds));
    CivilOfCounts(DayOf(milliseconds));
  }

  // The time a proposal accounts for.
  function Accounted(preview: Preview): int
    requires preview.Proposed? && preview.proposal.startTime.Some? && IsStartTime(preview.proposal.startTime.value)
  {
    preview.proposal.date + StartTimeMilliseconds(preview.proposal.startTime.value) + preview.lostMilliseconds
  }

  // Date, start time and the rest, read off these parts, add up to the total.
  predicate Reads(p: Parts, milliseconds: int, total: int) {
    && InClock(p) && FormatParts(p).Some? && IsDateOnly(FormatParts(p).value) && IsStartTime(FormatStartTime(p))
    && DateParse(FormatParts(p).value) + StartTimeMilliseconds(FormatStartTime(p)) + p.second * 1000 + milliseconds == total
  }

  lemma ClockRead(milliseconds: int)
    requires 1 <= PartsOf(milliseconds).year && FormatParts(PartsOf(milliseconds)).Some?
    ensures Reads(PartsOf(milliseconds), milliseconds % 1000, milliseconds)
  {
    PartsInRange(milliseconds);
    FormattedDay(milliseconds);
    StartTimeRoundTrip(PartsOf(milliseconds));
    SplitTime(milliseconds);
  }

  // The preview proposes a start time, and accounts for exactly this instant.
  predicate Accounts(preview: Preview, instant: int) {
    && preview.Proposed? && preview.proposal.startTime.Some? && IsStartTime(preview.proposal.startTime.value)
    && Accounted(preview) == instant
  }

  // Date and time from the same clock: nothing is lost but what is reported.
  lemma OneClockConserved(c: Classification, sourceParts: Parts, timeParts: Parts, milliseconds: int, mode: Mode, total: int)
    requires FormatParts(sourceParts).Some? && Reads(timeParts, milliseconds, total)
    requires mode.InstantInZone? || timeParts == sourceParts
    ensures Accounts(ProposeFrom(c, sourceParts, timeParts, milliseconds, mode, Extract), total)
  {
  }

  // The date from one clock and the time from another: whole days apart.
  lemma {:induction false} TwoClocksConserved(c: Classification, sourceParts: Parts, timeParts: Parts, milliseconds: int, total: int, from: nat, to: nat)
    requires FormatParts(sourceParts).Some? && Reads(timeParts, milliseconds, total)
    requires IsDateOnly(FormatParts(sourceParts).value) && DateParse(FormatParts(sourceParts).value) == MidnightUtc(from)
    requires DateParse(FormatParts(timeParts).value) == MidnightUtc(to)
    ensures var preview := ProposeFrom(c, sourceParts, timeParts, milliseconds, LegacyDisplayInZone, Extract);
      && preview.Proposed? && preview.zonedDayShift == Some(to - from)
      && Accounts(preview, total - (to - from) * MILLISECONDS_PER_DAY)
  {
    hide FormatParts, FormatStartTime, StartTimeMilliseconds, IsDateOnly, IsStartTime, DateParse, MidnightUtc;
    DayShift(from, to);
    var a, b := FormatParts(sourceParts).value, FormatParts(timeParts).value;
    assert CalendarDayDifference(a, b) == to - from;
    var preview := ProposeFrom(c, sourceParts, timeParts, milliseconds, LegacyDisplayInZone, Extract);
    assert preview.Proposed? && preview.proposal == Proposal(DateParse(a), a, Some(FormatStartTime(timeParts)));
    assert preview.lostMilliseconds == timeParts.second * 1000 + milliseconds;
  }

  lemma DayShift(from: nat, to: nat)
    ensures (MidnightUtc(to) - MidnightUtc(from)) / MILLISECONDS_PER_DAY == to - from
    ensures MidnightUtc(to) - MidnightUtc(from) == (to - from) * MILLISECONDS_PER_DAY
  {
  }

  // The difference of two date-only texts counts the calendar days from one to the other: it is zero
  // only for equal texts, positive exactly when the second is the later text, and adds up along the way.
  lemma {:induction false} DifferenceCountsDays(from: string, to: string, via: string)
    requires IsDateOnly(from) && IsDateOnly(to) && IsDateOnly(via)
    ensures CalendarDayDifference(from, to) == DayNumber(ParseDateOnly(to).value) - DayNumber(ParseDateOnly(from).value)
    ensures CalendarDayDifference(from, to) == 0 <==> from == to
    ensures CalendarDayDifference(from, to) >= 0 <==> StringLe(from, to)
    ensures CalendarDayDifference(from, via) + CalendarDayDifference(via, to) == CalendarDayDifference(from, to)
  {
    hide FormatDateOnly, ParseDateOnly, DayNumber, StringLe, Valid;
    FormatParse(from);
    FormatParse(to);
    FormatParse(via);
    var a, b, c := ParseDateOnly(from).value, ParseDateOnly(to).value, ParseDateOnly(via).value;
    DayShift(DayNumber(a), DayNumber(b));
    DayShift(DayNumber(a), DayNumber(c));
    DayShift(DayNumber(c), DayNumber(b));
    DateOnlyOrder(a, b);
    DayOrder(a, b);
  }

  // In years from 1 on the zone's parts are those of the shifted instant.
  lemma ZonedIsShifted(c: Classification, source: int, mode: Mode, policy: StartTimePolicy, offset: int -> int)
    requires FormatParts(PartsOf(source)).Some? && Zoned(mode) && 1 <= PartsOf(source + offset(source) * 1000).year
    ensures InClock(PartsOf(source + offset(source) * 1000))
    ensures Propose(c, source, mode, policy, offset) ==
      ProposeFrom(c, PartsOf(source), PartsOf(source + offset(source) * 1000), source % 1000, mode, policy)
  {
  }

  // By MigratableIff, every migratable record is one of these.
  function LegacyRecord(source: int): Timecard {
    Timecard(Instant(source), Absent, Absent)
  }

  lemma PreviewIsProposal(source: int, mode: Mode, policy: Option<StartTimePolicy>, offset: int -> int)
    requires Policy(mode, policy).Some? && FormatParts(PartsOf(source)).Some?
    ensures PreviewMigration(LegacyRecord(source), mode, policy, offset)
      == Propose(Classify(LegacyRecord(source)), source, mode, Policy(mode, policy).value, offset)
  {
  }

  lemma {:induction false} InRange(source: int, mode: Mode, policy: Option<StartTimePolicy>, offset: int -> int)
    requires PreviewMigration(LegacyRecord(source), mode, policy, offset).Proposed?
    ensures Policy(mode, policy).Some? && FormatParts(PartsOf(source)).Some?
  {
  }

  lemma UnzonedIsSource(c: Classification, source: int, policy: StartTimePolicy, offset: int -> int)
    requires FormatParts(PartsOf(source)).Some?
    ensures InClock(PartsOf(source))
    ensures Propose(c, source, UtcWallClock, policy, offset) ==
      ProposeFrom(c, PartsOf(source), PartsOf(source), source % 1000, UtcWallClock, policy)
  {
  }

  lemma {:induction false} ZonedInRange(c: Classification, source: int, zoned: int, mode: Mode)
    requires FormatParts(PartsOf(source)).Some? && InClock(PartsOf(zoned))
    requires ProposeFrom(c, PartsOf(source), PartsOf(zoned), source % 1000, mode, Extract).Proposed?
    ensures FormatParts(PartsOf(zoned)).Some?
  {
  }

  // With the extract policy nothing is lost but what the preview reports: the proposed midnight, the
  // start time and the lost milliseconds add up to the source instant, in UTC or in the zone.
  lemma {:induction false} TimeConserved(source: int, mode: Mode, policy: Option<StartTimePolicy>, offset: int -> int)
    requires PreviewMigration(LegacyRecord(source), mode, policy, offset).Proposed? && Policy(mode, policy) == Some(Extract)
    requires mode.UtcWallClock? || mode.InstantInZone?
    requires 1 <= PartsOf(if mode.UtcWallClock? then source else source + offset(source) * 1000).year
    ensures Accounts(PreviewMigration(LegacyRecord(source), mode, policy, offset),
                     if mode.UtcWallClock? then source else source + offset(source) * 1000)
  {
    hide *;
    InRange(source, mode, policy, offset);
    PreviewIsProposal(source, mode, policy, offset);
    var c, zoned := Classify(LegacyRecord(source)), source + offset(source) * 1000;
    if mode.UtcWallClock? {
      UnzonedIsSource(c, source, Extract, offset);
      ClockRead(source);
      OneClockConserved(c, PartsOf(source), PartsOf(source), source % 1000, mode, source);
    } else {
      ZonedIsShifted(c, source, mode, Extract, offset);
      ZonedInRange(c, source, zoned, mode);
      SameBelowSecond(source, offset(source));
      ClockRead(zoned);
      OneClockConserved(c, PartsOf(source), PartsOf(zoned), source % 1000, InstantInZone, zoned);
    }
  }

  // Where only the clock is taken from the zone, the sum is short by the whole days the zone is away.
  lemma {:induction false} LegacyTimeConserved(source: int, policy: Option<StartTimePolicy>, offset: int -> int)
    requires PreviewMigration(LegacyRecord(source), LegacyDisplayInZone, policy, offset).Proposed?
    requires Policy(LegacyDisplayInZone, policy) == Some(Extract)
    requires 1 <= PartsOf(source).year && 1 <= PartsOf(source + offset(source) * 1000).year
    ensures var preview := PreviewMigration(LegacyRecord(source), LegacyDisplayInZone, policy, offset);
      var shift := DayOf(source + offset(source) * 1000) - DayOf(source);
      && preview.zonedDayShift == Some(shift)
      && Accounts(preview, source + offset(source) * 1000 - shift * MILLISECONDS_PER_DAY)
  {
    hide *;
    InRange(source, LegacyDisplayInZone, policy, offset);
    PreviewIsProposal(source, LegacyDisplayInZone, policy, offset);
    var c, zoned := Classify(LegacyRecord(source)), source + offset(source) * 1000;
    ZonedIsShifted(c, source, LegacyDisplayInZone, Extract, offset);
    ZonedInRange(c, source, zoned, LegacyDisplayInZone);
    SameBelowSecond(source, offset(source));
    ClockRead(zoned);
    FormattedDay(source);
    FormattedDay(zoned);
    TwoClocksConserved(c, PartsOf(source), PartsOf(zoned), source % 1000, zoned, DayOf(source), DayOf(zoned));
  }
}
