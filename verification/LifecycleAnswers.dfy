// What project edits answer: a success means that the caller's expectations held of the stored project,
// an undisturbed administrator whose expectations hold is not refused, a commit writes exactly what was
// asked for, and a tag is good for one commit.
module LifecycleAnswers {
  import opened Options
  import opened Strings
  import opened Calendar
  import opened ResourceRevision
  import opened ProjectLifecycle

  // ---------------------------------------------------------------- what a caller expects

  function Stored(p: Project, field: string): Value {
    if field in p then p[field] else Null
  }

  // The stored field reads as this value: dates by their day, flags by being set, a description through
  // sanitizing and from its older copy if need be.
  predicate ReadsAs(sanitize: Value -> Value, p: Project, field: string, value: Value) {
    var x := Stored(p, field);
    if field == "description" then
      if x != Null then value == sanitize(x)
      else if Stored(p, "desc") != Null then value == sanitize(Stored(p, "desc"))
      else value == Null
    else if field == "startDate" || field == "endDate" then
      if x.Moment? then value.Text? && IsDateOnly(value.text) && TextDay(value.text) == DayOf(x.milliseconds)
      else value == x
    else if field == "public" || field == "notbillable" then value == Flag(x == Flag(true))
    else value == x
  }

  // The project carries no lifecycle lock and the expected revision, and reads as expected.
  ghost predicate Expected(sanitize: Value -> Value, p: Project, change: Change) {
    && Stored(p, "lifecycleLock") == Null
    && (if change.expectedRevision == None then "projectRevision" !in p
        else "projectRevision" in p && p["projectRevision"] == Number(change.expectedRevision.value))
    && match change
       case EditDetails(body, _) => forall f <- body.expected :: ReadsAs(sanitize, p, f, body.expected[f])
       case SetArchived(_, expectedArchived, _) => expectedArchived == (Stored(p, "archived") == Flag(true))
  }

  // For a value a request may carry, reading is exactly that.
  lemma {:induction false} ReadsIff(sanitize: Value -> Value, p: Project, field: string, value: Value)
    requires field in DETAIL_FIELDS && ValidDetail(field, value)
    ensures Normalize(sanitize, p, field) == value <==> ReadsAs(sanitize, p, field, value)
  {
    var x := Stored(p, field);
    if IsDateField(field) && x.Moment? && value.Text? {
      DayTextIff(x.milliseconds, value.text);
    }
    hide IsDateOnly, IsoDate, TextDay, DayOf;
  }

  // A date-only text is the text of an instant exactly when the instant is on its day.
  lemma {:induction false} DayTextIff(milliseconds: int, text: string)
    requires IsDateOnly(text)
    ensures IsoDate(milliseconds) == text <==> TextDay(text) == DayOf(milliseconds)
  {
    hide FormatDateOnly, ParseDateOnly, DayNumber, CivilOf, Valid;
    var day := DayOf(milliseconds);
    FormatParse(text);
    TextDayInRange(text);
    CivilOfDayNumber(ParseDateOnly(text).value);
    FirstCharacter(milliseconds);
    FirstCharacter(MidnightUtc(TextDay(text)));
    InDay(TextDay(text), 0);
    assert MidnightUtc(TextDay(text)) + 0 == MidnightUtc(TextDay(text));
    if IsoDate(milliseconds) == text {
      assert IsoDate(MidnightUtc(TextDay(text))) == text;
      ParseFormat(CivilOf(day));
      CivilOfCounts(day);
    }
  }

  // After the year 9999 the kept characters are a sign, six digits of the year and the month, so two such
  // dates compare as their months.
  lemma {:induction false} LateDatesOrder(a: int, b: int)
    requires AfterYear9999(DayOf(a)) && AfterYear9999(DayOf(b))
    requires CivilOfAny(DayOf(a)).year < 1_000_000 && CivilOfAny(DayOf(b)).year < 1_000_000
    ensures |IsoDate(a)| == 10
    ensures var x, y := CivilOfAny(DayOf(a)), CivilOfAny(DayOf(b));
      StringLe(IsoDate(a), IsoDate(b)) <==> x.year < y.year || (x.year == y.year && x.month <= y.month)
  {
    var x, y := CivilOfAny(DayOf(a)), CivilOfAny(DayOf(b));
    LateText(a);
    LateText(b);
    MonthOrder(x.year, x.month, y.year, y.month);
    hide IsoDate, StringLe, CivilOfAny, Pad, Pow10;
  }

  lemma {:induction false} LateText(milliseconds: int)
    requires AfterYear9999(DayOf(milliseconds)) && CivilOfAny(DayOf(milliseconds)).year < 1_000_000
    ensures var c := CivilOfAny(DayOf(milliseconds));
      && 0 <= c.year && 1 <= c.month <= 12 && Pow10(6) == 1_000_000 && Pow10(2) == 100
      && IsoDate(milliseconds) == "+" + Pad(6, c.year) + "-" + Pad(2, c.month)
  {
    hide Pad, CivilOf, DayNumber, FormatDateOnly, StringLe;
    SixDigits();
    Widths();
    var day := DayOf(milliseconds);
    CivilOfCounts(day);
    assert Eras(day) == 0 && CivilOfAny(day) == CivilOf(day);
    assert IsoDate(milliseconds) == SignedYearMonth(day);
  }

  lemma SixDigits()
    ensures Pow10(6) == 1_000_000 && Pow10(2) == 100
  {
    assert Pow10(3) == 1000;
  }

  lemma {:induction false} MonthOrder(year: nat, month: nat, year': nat, month': nat)
    requires Pow10(6) == 1_000_000 && Pow10(2) == 100
    requires year < 1_000_000 && year' < 1_000_000 && month < 100 && month' < 100
    ensures StringLe("+" + Pad(6, year) + "-" + Pad(2, month), "+" + Pad(6, year') + "-" + Pad(2, month'))
      <==> year < year' || (year == year' && month <= month')
  {
    hide Pad, Pow10;
    var p, q := "+" + Pad(6, year), "+" + Pad(6, year');
    StringLeConcat("+", Pad(6, year), "+", Pad(6, year'));
    PadOrder(6, year, year');
    PadInjective(6, year, year');
    PadOrder(2, month, month');
    StringLeConcat(p + "-", Pad(2, month), q + "-", Pad(2, month'));
    StringLeConcat(p, "-", q, "-");
    StringLeTotal("+", "+");
    StringLeTotal("-", "-");
    assert p == q <==> year == year' by { assert p[1..] == Pad(6, year) && q[1..] == Pad(6, year'); }
    assert p + "-" == q + "-" <==> p == q by { assert (p + "-")[..7] == p && (q + "-")[..7] == q; }
    hide StringLe;
  }

  // What is validated is that and the order of the dates.
  lemma {:induction false} ValidatedIff(sanitize: Value -> Value, p: Project, change: Change)
    requires change.EditDetails? ==> ValidBody(change.body)
    ensures Validated(sanitize, p, change) <==>
      Expected(sanitize, p, change) && (change.EditDetails? ==> CandidateOrdered(sanitize, p, change.body))
  {
    if change.EditDetails? {
      forall f <- change.body.expected
        ensures Normalize(sanitize, p, f) == change.body.expected[f] <==> ReadsAs(sanitize, p, f, change.body.expected[f])
      {
        ReadsIff(sanitize, p, f, change.body.expected[f]);
      }
    }
    hide Normalize, ReadsAs, CandidateOrdered, ValidDetail;
  }

  // The project's own tag is the one the caller sent.
  lemma {:induction false} ExpectedTag(sanitize: Value -> Value, p: Project, change: Change)
    requires Expected(sanitize, p, change)
    ensures ETag(ProjectKind, RevisionOf(p)) == ETag(ProjectKind, change.expectedRevision)
  {
    hide ReadsAs;
  }

  // ---------------------------------------------------------------- a success means it was expected

  // The stored project is as the caller expects it, and its tag is the tag the caller sent.
  ghost predicate MeetsExpectation(sanitize: Value -> Value, s: State, change: Change) {
    && s.project.Some? && Expected(sanitize, s.project.value, change)
    && ETag(ProjectKind, RevisionOf(s.project.value)) == ETag(ProjectKind, change.expectedRevision)
  }

  predicate Succeeded(e: Editor) {
    e.phase.Done? && !e.phase.outcome.Refused?
  }

  // In every run, whichever step ends an edit or an archive request with success, the stored project meets
  // the caller's expectation at that instant.
  lemma {:induction false} SuccessWasExpected(sanitize: Value -> Value, s0: State, steps: seq<Step>, step: Step, id: nat)
    requires Initial(s0)
    requires var s := Exec(sanitize, s0, steps);
      id in s.editors && !Succeeded(s.editors[id]) && Succeeded(Next(sanitize, s, step).editors[id])
    ensures var s := Exec(sanitize, s0, steps); MeetsExpectation(sanitize, s, s.editors[id].change)
  {
    RunKeepsInv(sanitize, s0, steps);
    var s := Exec(sanitize, s0, steps);
    assert EditorInv(sanitize, s.editors[id]);
    hide Exec, Initial;
    OnlyThree(sanitize, s, step, id);
    SuccessStep(sanitize, s, step, id);
  }

  // Only an editor's own read, write or confirmation ends it with success.
  lemma {:induction false} OnlyThree(sanitize: Value -> Value, s: State, step: Step, id: nat)
    requires id in s.editors && !Succeeded(s.editors[id])
    requires id in Next(sanitize, s, step).editors && Succeeded(Next(sanitize, s, step).editors[id])
    ensures (step.Read? || step.Write? || step.Confirm?) && step.id == id
  {
    hide Validated, ETag, SnapshotMatches, Modify, ValidBody;
  }

  lemma {:induction false} SuccessStep(sanitize: Value -> Value, s: State, step: Step, id: nat)
    requires id in s.editors && EditorInv(sanitize, s.editors[id]) && !Succeeded(s.editors[id])
    requires (step.Read? || step.Write? || step.Confirm?) && step.id == id
    requires id in Next(sanitize, s, step).editors && Succeeded(Next(sanitize, s, step).editors[id])
    ensures MeetsExpectation(sanitize, s, s.editors[id].change)
  {
    hide Validated, ETag, SnapshotMatches, Modify, ValidBody, Expected;
    var e := s.editors[id];
    if step.Write? { WriteCommits(sanitize, s, id); }
    if step.Confirm? { ConfirmConfirms(sanitize, s, id); }
    if s.project.Some? && Validated(sanitize, s.project.value, e.change) {
      ValidatedIff(sanitize, s.project.value, e.change);
      ExpectedTag(sanitize, s.project.value, e.change);
    }
  }

  // ---------------------------------------------------------------- what a request may carry

  // A body names the same details on both sides, each with an allowed value.
  lemma BodyIff(body: Body)
    ensures ValidBody(body) <==>
      && body.changes != map[] && body.changes.Keys == body.expected.Keys
      && forall f <- body.changes :: Allowed(f, body.changes[f]) && Allowed(f, body.expected[f])
  {
    if body.changes.Keys == body.expected.Keys {
      forall f <- body.changes
        ensures Allowed(f, body.changes[f]) <==> f in DETAIL_FIELDS && ValidDetail(f, body.changes[f])
        ensures Allowed(f, body.expected[f]) <==> f in DETAIL_FIELDS && ValidDetail(f, body.expected[f])
      {
        AllowedIff(f, body.changes[f]);
        AllowedIff(f, body.expected[f]);
      }
    }
    hide Allowed, ValidDetail;
  }

  lemma {:induction false} AllowedIff(field: string, value: Value)
    ensures Allowed(field, value) <==> field in DETAIL_FIELDS && ValidDetail(field, value)
  {
    hide IsDateOnly;
    match value
    case Text(text) =>
      if field == "color" && |text| == 7 {
        assert forall i :: 1 <= i < 7 ==> text[1..][i - 1] == text[i];
        forall i | 1 <= i < 7 ensures HexDigit(text[i]) <==> text[i] in "0123456789abcdefABCDEF" { HexDigitIff(text[i]); }
        hide HexDigit;
      }
    case _ =>
  }

  lemma {:induction false} HexDigitIff(c: char)
    ensures HexDigit(c) <==> c in "0123456789abcdefABCDEF"
  {
    var digits := "0123456789abcdefABCDEF";
    if '0' <= c <= '9' { assert digits[c as int - '0' as int] == c; }
    if 'a' <= c <= 'f' { assert digits[c as int - 'a' as int + 10] == c; }
    if 'A' <= c <= 'F' { assert digits[c as int - 'A' as int + 16] == c; }
  }

  predicate Allowed(field: string, value: Value) {
    match value
    case Null => field in {"description", "color", "customer", "rate", "budget", "startDate", "endDate"}
    case Number(number) => field in {"rate", "budget"} && number >= 0
    case Flag(_) => field in {"public", "notbillable"}
    case Moment(_) => false
    case Text(text) =>
      || (field == "name" && |text| <= 200 && exists c <- text :: c !in WHITE_SPACE)
      || (field == "description" && |text| <= 50_000)
      || (field == "color" && |text| == 7 && text[0] == '#' && forall i :: 1 <= i < 7 ==> text[i] in "0123456789abcdefABCDEF")
      || (field == "customer" && |text| <= 500)
      || ((field == "startDate" || field == "endDate") && IsDateOnly(text))
  }

  // ---------------------------------------------------------------- whoever is right gets through

  predicate WantsWrite(change: Change) {
    match change
    case EditDetails(body, _) => exists f :: f in body.changes && f in body.expected && body.changes[f] != body.expected[f]
    case SetArchived(archived, expectedArchived, _) => archived != expectedArchived
  }

  lemma WritesIff(change: Change)
    requires change.EditDetails? ==> ValidBody(change.body)
    ensures Writes(change) <==> WantsWrite(change)
  {
    hide ValidDetail;
  }

  // The steps of one administrator's request with nothing in between.
  function RequestAlone(sanitize: Value -> Value, s: State, id: nat, change: Change): State {
    var s2 := Next(sanitize, Next(sanitize, s, Start(id, change)), Read(id, true));
    Next(sanitize, Next(sanitize, s2, Write(id)), Confirm(id))
  }

  // Left alone, a request gets through exactly if the project is there and as expected, the dates fit, and
  // a write does not meet the last revision; then a write commits, and a request that changes nothing is
  // confirmed. Otherwise nothing changes.
  lemma {:induction false} UndisturbedRequest(sanitize: Value -> Value, s: State, id: nat, change: Change)
    requires id !in s.editors && Safe(change.expectedRevision) && (change.EditDetails? ==> ValidBody(change.body))
    ensures var t := RequestAlone(sanitize, s, id, change);
      && id in t.editors && t.editors[id].phase.Done?
      && if s.project.Some? && Expected(sanitize, s.project.value, change)
            && (change.EditDetails? ==> CandidateOrdered(sanitize, s.project.value, change.body))
            && (WantsWrite(change) ==> change.expectedRevision != Some(9_007_199_254_740_991))
         then
           if WantsWrite(change) then
             && t.editors[id].phase.outcome.Committed? && t.project == Some(Modify(s.project.value, change))
             && t.editors[id].phase.outcome.etag == ETag(ProjectKind, RevisionOf(t.project.value))
           else
             && t.editors[id].phase.outcome == Unchanged(ETag(ProjectKind, RevisionOf(s.project.value)))
             && t.project == s.project
         else t.editors[id].phase.outcome.Refused? && t.project == s.project
  {
    var e := Editor(change, Reading, None);
    assert Next(sanitize, s, Start(id, change)) == SetEditor(s, id, e);
    WritesIff(change);
    if s.project.Some? {
      ValidatedIff(sanitize, s.project.value, change);
      if Expected(sanitize, s.project.value, change) { LastRevisionIff(sanitize, s.project.value, change); }
    }
    hide Next, Validated, Expected, Writes, WantsWrite, CandidateOrdered, ValidBody, ETag, Modify, Safe;
    RunsAlone(sanitize, s, id, change);
  }

  lemma LastRevisionIff(sanitize: Value -> Value, p: Project, change: Change)
    requires Expected(sanitize, p, change)
    ensures AtLastRevision(p) <==> change.expectedRevision == Some(9_007_199_254_740_991)
  {
    hide ReadsAs;
  }

  lemma {:induction false} RunsAlone(sanitize: Value -> Value, s: State, id: nat, change: Change)
    requires WellFormedEditor(Editor(change, Reading, None))
    ensures var s1 := SetEditor(s, id, Editor(change, Reading, None));
      var t := Next(sanitize, Next(sanitize, Next(sanitize, s1, Read(id, true)), Write(id)), Confirm(id));
      && id in t.editors && t.editors[id].phase.Done?
      && if s.project.Some? && Validated(sanitize, s.project.value, change)
            && (Writes(change) ==> !AtLastRevision(s.project.value))
         then
           if Writes(change) then
             && t.editors[id].phase.outcome.Committed? && t.project == Some(Modify(s.project.value, change))
             && t.editors[id].phase.outcome.etag == ETag(ProjectKind, RevisionOf(t.project.value))
           else
             && t.editors[id].phase.outcome == Unchanged(ETag(ProjectKind, RevisionOf(s.project.value)))
             && t.project == s.project
         else t.editors[id].phase.outcome.Refused? && t.project == s.project
  {
    hide Validated, Writes, ETag, ValidBody, AtLastRevision, SnapshotMatches, Modify;
    var s1 := SetEditor(s, id, Editor(change, Reading, None));
    var s2 := Next(sanitize, s1, Read(id, true));
    if s.project.Some? && Validated(sanitize, s.project.value, change) && (Writes(change) ==> !AtLastRevision(s.project.value)) {
      var p := s.project.value;
      MatchesItself(p);
      if Writes(change) {
        WriteCommits(sanitize, s2, id);
        assert Next(sanitize, s2, Write(id)).editors[id].phase.outcome.Committed?;
      } else if change.EditDetails? {
        assert Next(sanitize, s2, Write(id)) == s2;
      }
    }
  }

  lemma MatchesItself(p: Project)
    ensures SnapshotMatches(p, p)
  {
  }

  // The dates fit if they are in years 0 to 9999 and the start day is not after the end day, or one is missing.
  lemma {:induction false} DatesFitIff(sanitize: Value -> Value, p: Project, body: Body, start: Option<int>, end: Option<int>)
    requires ValidBody(body) && LeavesDay(p, body, "startDate", start) && LeavesDay(p, body, "endDate", end)
    ensures CandidateOrdered(sanitize, p, body) <==> (start.Some? && end.Some? ==> start.value <= end.value)
  {
    DayText(sanitize, p, body, "startDate", start);
    DayText(sanitize, p, body, "endDate", end);
    hide StringLe, IsoDate, LeavesDay, FourDigitYear, DayOf, MidnightUtc;
    if start.Some? && end.Some? { IsoOrder(MidnightUtc(start.value), MidnightUtc(end.value)); }
    if start.Some? { Midnights(start.value); FirstCharacter(MidnightUtc(start.value)); }
    if end.Some? { Midnights(end.value); FirstCharacter(MidnightUtc(end.value)); }
  }

  lemma Midnights(day: int)
    ensures DayOf(MidnightUtc(day)) == day
  {
    InDay(day, 0);
  }

  // After the edit the date would be on this day, of a year of at most four digits, or missing.
  predicate LeavesDay(p: Project, body: Body, field: string, day: Option<int>) {
    var x := if field in body.changes then body.changes[field] else Stored(p, field);
    if day == None then x == Null
    else
      && FourDigitYear(day.value)
      && if field in body.changes then x.Text? && IsDateOnly(x.text) && TextDay(x.text) == day.value
         else x.Moment? && DayOf(x.milliseconds) == day.value
  }

  lemma {:induction false} DayText(sanitize: Value -> Value, p: Project, body: Body, field: string, day: Option<int>)
    requires IsDateField(field) && LeavesDay(p, body, field, day)
    ensures CandidateDetail(sanitize, p, body, field) ==
      if day == None then Null else Text(IsoDate(MidnightUtc(day.value)))
    ensures day.Some? ==> FourDigitYear(day.value)
  {
    if day.Some? {
      Midnights(day.value);
      if field in body.changes { DayTextIff(MidnightUtc(day.value), body.changes[field].text); }
    }
    hide IsDateOnly, TextDay, FourDigitYear, MidnightUtc, FormatDateOnly;
  }

  // ---------------------------------------------------------------- what a commit writes

  // The field holds the stored form of the value, or is gone if the value is none.
  predicate Holds(q: Project, field: string, value: Value) {
    if value == Null then field !in q
    else if field == "startDate" || field == "endDate" then
      field in q && value.Text? && IsDateOnly(value.text) && q[field] == Moment(MidnightUtc(TextDay(value.text)))
    else field in q && q[field] == value
  }

  // An edit writes its changed fields, the description to both copies and the dates as midnights, removes
  // those that were emptied, counts the revision up, and leaves every other field alone.
  lemma {:induction false} EditWritesExactly(p: Project, body: Body, revision: Revision, field: string)
    requires ValidBody(body)
    ensures var q := Modify(p, EditDetails(body, revision));
      if field == "projectRevision" then
        field in q && q[field] == Number((if RevisionOf(p) == None then 0 else RevisionOf(p).value) + 1)
      else
        var source := if field == "desc" then "description" else field;
        if source in body.changes && body.changes[source] != body.expected[source] then
          Holds(q, field, body.changes[source])
        else (field in q <==> field in p) && Stored(q, field) == Stored(p, field)
  {
    FieldOfModifier(body, field);
    if field in SetFields(body) && (field == "startDate" || field == "endDate") { WrittenMidnight(body.changes[field]); }
    assert "projectRevision" !in body.changes;
    hide SetFields, UnsetFields, IsDateOnly, TextDay, MidnightUtc, ValidBody, DateValue, RevisionOf, Incremented, Modify;
    assert Incremented(p) == Number((if RevisionOf(p) == None then 0 else RevisionOf(p).value) + 1) by { CountsOne(p); }
    Written(p, body, revision, field);
  }

  lemma CountsOne(p: Project)
    ensures Incremented(p) == Number((if RevisionOf(p) == None then 0 else RevisionOf(p).value) + 1)
  {
    hide RevisionOf;
  }

  // One field of the written project, by what the modifier has for it.
  lemma {:induction false} Written(p: Project, body: Body, revision: Revision, field: string)
    requires ValidBody(body)
    ensures var q := Modify(p, EditDetails(body, revision));
      && (field == "projectRevision" ==> field in q && q[field] == Incremented(p))
      && (field != "projectRevision" ==>
            if field in UnsetFields(body) then field !in q
            else if field in SetFields(body) then field in q && q[field] == SetFields(body)[field]
            else (field in q <==> field in p) && Stored(q, field) == Stored(p, field))
  {
    hide SetFields, UnsetFields, ValidBody, Incremented;
  }

  lemma {:induction false} FieldOfModifier(body: Body, field: string)
    requires ValidBody(body)
    ensures var source := if field == "desc" then "description" else field;
      var changed := source in body.changes && body.changes[source] != body.expected[source];
      && (field in UnsetFields(body) <==> changed && body.changes[source] == Null)
      && (field in SetFields(body) <==> changed && body.changes[source] != Null)
      && (field in SetFields(body) ==>
            if field == "startDate" || field == "endDate"
            then body.changes[field].Text? && IsDateOnly(body.changes[field].text) && SetFields(body)[field] == DateValue(body.changes[field])
            else SetFields(body)[field] == body.changes[source])
  {
    assert "desc" !in body.changes;
    if field in body.changes { assert ValidDetail(field, body.changes[field]); }
    hide IsDateOnly, DateValue;
  }

  lemma WrittenMidnight(value: Value)
    requires value.Text? && IsDateOnly(value.text)
    ensures DateValue(value) == Moment(MidnightUtc(TextDay(value.text)))
  {
  }

  lemma {:induction false} ArchiveWritesExactly(p: Project, archived: bool, expectedArchived: bool, revision: Revision, field: string)
    ensures var q := Modify(p, SetArchived(archived, expectedArchived, revision));
      if field == "projectRevision" then
        field in q && q[field] == Number((if RevisionOf(p) == None then 0 else RevisionOf(p).value) + 1)
      else if field == "archived" then field in q && q[field] == Flag(archived)
      else (field in q <==> field in p) && Stored(q, field) == Stored(p, field)
  {
  }

  // A write commits exactly if the project is still there and none of these fields has changed, appeared
  // or disappeared since the read whose snapshot it holds.
  lemma {:induction false} WriteIff(sanitize: Value -> Value, s: State, id: nat)
    requires id in s.editors && s.editors[id].phase.Writing? && WellFormedEditor(s.editors[id])
    ensures var snapshot := s.editors[id].phase.snapshot;
      var t := Next(sanitize, s, Write(id));
      && id in t.editors && t.editors[id].phase.Done?
      && (t.editors[id].phase.outcome.Committed? <==>
            s.project.Some? && forall f <- {
              "userId", "admins", "team", "projectRevision", "name", "description", "desc", "color", "customer", "rate",
              "budget", "startDate", "endDate", "public", "notbillable", "archived", "defaultTask", "rates", "priority",
              "lifecycleLock"} ::
                (f in s.project.value <==> f in snapshot) && (f in snapshot ==> Stored(s.project.value, f) == snapshot[f]))
    ensures forall administrator, other :: other in s.editors && s.editors[other].phase.Reading? ==>
      var t := Next(sanitize, s, Read(other, administrator));
      t.editors[other].phase.Writing? ==> s.project == Some(t.editors[other].phase.snapshot)
  {
    hide Validated, ETag, Modify, ValidBody, AtLastRevision;
  }

  // ---------------------------------------------------------------- a tag is good for one commit

  // Later revisions are larger; a project without the field comes first.
  function Count(revision: Revision): nat {
    if revision == None then 0 else revision.value + 1
  }

  // Other code never takes the revision back.
  predicate KeepsCount(s: State, step: Step) {
    step.Foreign? && s.project.Some? && step.project.Some? ==>
      Count(RevisionOf(s.project.value)) <= Count(RevisionOf(step.project.value))
  }

  predicate NeverBack(sanitize: Value -> Value, s: State, steps: seq<Step>) {
    steps == [] ||
    (NeverBack(sanitize, s, steps[..|steps| - 1])
     && KeepsCount(Exec(sanitize, s, steps[..|steps| - 1]), steps[|steps| - 1]))
  }

  // The stored revision has passed this one, or the project is gone.
  predicate Passed(s: State, revision: Revision) {
    s.project.Some? ==> Count(RevisionOf(s.project.value)) > Count(revision)
  }

  lemma {:induction false} AppliedPasses(sanitize: Value -> Value, s: State, step: Step, id: nat)
    requires Inv(sanitize, s) && (step == Write(id) || step == Land(id)) && id in s.editors
    requires Next(sanitize, s, step).project != s.project
    ensures Passed(Next(sanitize, s, step), s.editors[id].change.expectedRevision)
    ensures s.project.Some? && Count(RevisionOf(s.project.value)) == Count(s.editors[id].change.expectedRevision)
  {
    var e := s.editors[id];
    assert EditorInv(sanitize, e);
    hide Inv, ETag;
    var snapshot := if step.Write? then e.phase.snapshot else e.late.value;
    ValidatedBySnapshot(sanitize, s.project.value, snapshot, e.change);
    CountsUp(sanitize, s.project.value, e.change);
    hide Validated, SnapshotMatches, Modify, ValidBody;
  }

  lemma {:induction false} CountsUp(sanitize: Value -> Value, p: Project, change: Change)
    requires change.EditDetails? ==> ValidBody(change.body)
    requires RevisionMatches(p, change.expectedRevision)
    ensures Count(RevisionOf(p)) == Count(change.expectedRevision)
    ensures Count(RevisionOf(Modify(p, change))) > Count(change.expectedRevision)
  {
    hide ValidBody, SetFields, UnsetFields;
  }

  lemma {:induction false} StaysPassed(sanitize: Value -> Value, s: State, step: Step, revision: Revision)
    requires Inv(sanitize, s) && KeepsCount(s, step) && Passed(s, revision)
    ensures Passed(Next(sanitize, s, step), revision)
  {
    hide Inv, ETag, Validated, Modify, ValidBody, SnapshotMatches, Exec;
    if step.Write? || step.Land? {
      if step.id in s.editors && Next(sanitize, s, step).project != s.project { AppliedPasses(sanitize, s, step, step.id); }
    }
  }

  lemma {:induction false} RunStaysPassed(sanitize: Value -> Value, s0: State, a: seq<Step>, b: seq<Step>, revision: Revision)
    requires Initial(s0) && NeverBack(sanitize, s0, a + b) && Passed(Exec(sanitize, s0, a), revision)
    ensures Passed(Exec(sanitize, s0, a + b), revision)
  {
    if b == [] {
      assert a + b == a;
    } else {
      var front := b[..|b| - 1];
      assert (a + b)[..|a + b| - 1] == a + front;
      RunStaysPassed(sanitize, s0, a, front, revision);
      RunKeepsInv(sanitize, s0, a + front);
      hide Inv, Next, Passed;
      StaysPassed(sanitize, Exec(sanitize, s0, a + front), b[|b| - 1], revision);
    }
  }

  // Once a change was written under a revision, at once or late, no other change that expects the same
  // revision is ever written: of all editors holding one tag at most one commits.
  lemma {:induction false} TagGoodForOneCommit(sanitize: Value -> Value, s0: State, a: seq<Step>, first: Step, i: nat,
                                               b: seq<Step>, second: Step, j: nat)
    requires Initial(s0) && NeverBack(sanitize, s0, a + [first] + b)
    requires (first == Write(i) || first == Land(i)) && (second == Write(j) || second == Land(j))
    requires var s := Exec(sanitize, s0, a);
      i in s.editors && Next(sanitize, s, first).project != s.project
    requires var t := Exec(sanitize, s0, a + [first] + b);
      j in t.editors && t.editors[j].change.expectedRevision == Exec(sanitize, s0, a).editors[i].change.expectedRevision
    ensures var t := Exec(sanitize, s0, a + [first] + b);
      Next(sanitize, t, second).project == t.project
  {
    var revision := Exec(sanitize, s0, a).editors[i].change.expectedRevision;
    RunKeepsInv(sanitize, s0, a);
    assert (a + [first])[..|a|] == a;
    hide Inv, Next, Passed, NeverBack;
    AppliedPasses(sanitize, Exec(sanitize, s0, a), first, i);
    assert Exec(sanitize, s0, a + [first]) == Next(sanitize, Exec(sanitize, s0, a), first);
    RunStaysPassed(sanitize, s0, a + [first], b, revision);
    RunKeepsInv(sanitize, s0, a + [first] + b);
    NotAgain(sanitize, Exec(sanitize, s0, a + [first] + b), second, j, revision);
  }

  lemma {:induction false} NotAgain(sanitize: Value -> Value, s: State, step: Step, id: nat, revision: Revision)
    requires Inv(sanitize, s) && (step == Write(id) || step == Land(id)) && id in s.editors && Passed(s, revision)
    requires s.editors[id].change.expectedRevision == revision
    ensures Next(sanitize, s, step).project == s.project
  {
    hide Inv, Next;
    if Next(sanitize, s, step).project != s.project { AppliedPasses(sanitize, s, step, id); }
  }

  // ---------------------------------------------------------------- lost replies

  // A write whose reply was lost does to the project, when it lands, what it would have done at once.
  lemma LostWriteLands(sanitize: Value -> Value, s: State, id: nat)
    requires id in s.editors && s.editors[id].phase.Writing? && WellFormedEditor(s.editors[id])
    ensures var lost := Next(sanitize, s, Lose(id));
      lost.project == s.project && Next(sanitize, lost, Land(id)).project == Next(sanitize, s, Write(id)).project
  {
  }
}
