// editProjectDetails and setProjectArchived of imports/api/projects/server/projectLifecycle.js:
// read, validate, then compare-and-swap on the whole snapshot, by any number of editors at once.
module ProjectLifecycle {
  import opened Options
  import opened Strings
  import opened Calendar
  import opened ResourceRevision

  // ---------------------------------------------------------------- stored projects

  datatype Value = Null | Text(text: string) | Number(number: int) | Flag(flag: bool) | Moment(milliseconds: int)

  // The fields a project document has; a missing field is not a key.
  type Project = map<string, Value>

  const SNAPSHOT_FIELDS := {
    "userId", "admins", "team", "projectRevision", "name", "description", "desc",
    "color", "customer", "rate", "budget", "startDate", "endDate", "public",
    "notbillable", "archived", "defaultTask", "rates", "priority", "lifecycleLock"
  }

  const DETAIL_FIELDS := {
    "name", "description", "color", "customer", "rate", "budget", "startDate", "endDate", "public", "notbillable"
  }

  predicate SameField(a: Project, b: Project, field: string) {
    (field in a <==> field in b) && (field in a && field in b ==> a[field] == b[field])
  }

  // projectSnapshotSelector: every listed field is present with the same value, or absent from both.
  predicate SnapshotMatches(stored: Project, snapshot: Project) {
    forall f <- SNAPSHOT_FIELDS :: SameField(stored, snapshot, f)
  }

  function Get(p: Project, field: string): Value {
    if field in p then p[field] else Null
  }

  function RevisionOf(p: Project): Revision {
    if "projectRevision" in p && p["projectRevision"].Number? && p["projectRevision"].number >= 0
    then Some(p["projectRevision"].number) else None
  }

  // matchesResourceRevision: null means the field must be absent.
  predicate RevisionMatches(p: Project, expected: Revision) {
    if expected.None? then "projectRevision" !in p
    else "projectRevision" in p && p["projectRevision"] == Number(expected.value)
  }

  // ---------------------------------------------------------------- normalized details

  predicate FourDigitYear(day: int)
    ensures FourDigitYear(day) ==> day >= 0 && Valid(CivilOf(day)) && CivilOf(day).year <= 9999
  {
    if day < 0 then false
    else
      CivilOfCounts(day);
      CivilOf(day).year <= 9999
  }

  predicate AfterYear9999(day: int) {
    day >= 0 && !FourDigitYear(day)
  }

  // Years outside 0 to 9999 are written with a sign and six digits, which moves the day out of the
  // ten characters that are kept.
  function SignedYearMonth(day: int): string {
    CivilOfCounts(day + Eras(day) * DAYS_PER_ERA);
    Widths();
    var c := CivilOfAny(day);
    var year := if day < 0 then -c.year else c.year;
    (if day < 0 then "-" else "+") + (if 0 <= year < Pow10(6) then Pad(6, year) else "") + "-" + Pad(2, c.month)
  }

  // toISOString().slice(0, 10).
  function IsoDate(milliseconds: int): string {
    var day := DayOf(milliseconds);
    if FourDigitYear(day) then FormatDateOnly(CivilOf(day)) else SignedYearMonth(day)
  }

  // sanitize is projectDescriptionText.
  function Normalize(sanitize: Value -> Value, p: Project, field: string): Value {
    if field == "description" then
      var value := if Get(p, "description") != Null then Get(p, "description") else Get(p, "desc");
      if value == Null then Null else sanitize(value)
    else if field == "rate" || field == "budget" || field == "startDate" || field == "endDate" then
      if Get(p, field).Moment? then Text(IsoDate(p[field].milliseconds)) else Get(p, field)
    else if field == "public" || field == "notbillable" then Flag(Get(p, field) == Flag(true))
    else Get(p, field)
  }

  // What trim removes.
  const WHITE_SPACE := {
    '\t', '\n', '\U{b}', '\U{c}', '\r', ' ', '\U{a0}', '\U{1680}', '\U{2000}', '\U{2001}', '\U{2002}', '\U{2003}',
    '\U{2004}', '\U{2005}', '\U{2006}', '\U{2007}', '\U{2008}', '\U{2009}', '\U{200a}', '\U{2028}', '\U{2029}',
    '\U{202f}', '\U{205f}', '\U{3000}', '\U{feff}'
  }

  predicate HexDigit(c: char) {
    '0' <= c <= '9' || 'a' <= c <= 'f' || 'A' <= c <= 'F'
  }

  // Characters are code points, so texts are well formed and their length is what the source counts.
  predicate ValidDetail(field: string, value: Value) {
    if field == "name" then value.Text? && |value.text| <= 200 && exists c :: c in value.text && c !in WHITE_SPACE
    else if field == "description" then value.Null? || (value.Text? && |value.text| <= 50000)
    else if field == "color" then
      value.Null? || (value.Text? && |value.text| == 7 && value.text[0] == '#' && forall c <- value.text[1..] :: HexDigit(c))
    else if field == "customer" then value.Null? || (value.Text? && |value.text| <= 500)
    else if field == "rate" || field == "budget" then value.Null? || (value.Number? && value.number >= 0)
    else if field == "startDate" || field == "endDate" then value.Null? || (value.Text? && IsDateOnly(value.text))
    else value.Flag?
  }

  datatype Body = Body(expected: map<string, Value>, changes: map<string, Value>)

  predicate ValidBody(body: Body) {
    && body.changes != map[] && body.changes.Keys == body.expected.Keys && body.changes.Keys <= DETAIL_FIELDS
    && forall f <- body.changes :: ValidDetail(f, body.expected[f]) && ValidDetail(f, body.changes[f])
  }

  // ---------------------------------------------------------------- what an edit checks and writes

  datatype Change =
    | EditDetails(body: Body, expectedRevision: Revision)
    | SetArchived(archived: bool, expectedArchived: bool, expectedRevision: Revision)

  function CandidateDetail(sanitize: Value -> Value, snapshot: Project, body: Body, field: string): Value {
    if field in body.changes then body.changes[field] else Normalize(sanitize, snapshot, field)
  }

  predicate Truthy(value: Value) {
    value.Moment? || (value.Text? && value.text != "") || (value.Number? && value.number != 0) || value == Flag(true)
  }

  // The check on the candidate: both dates set means start is not after end, as strings.
  predicate CandidateOrdered(sanitize: Value -> Value, snapshot: Project, body: Body) {
    var start, end := CandidateDetail(sanitize, snapshot, body, "startDate"), CandidateDetail(sanitize, snapshot, body, "endDate");
    Truthy(start) && Truthy(end) && start.Text? && end.Text? ==> StringLe(start.text, end.text)
  }

  predicate Locked(p: Project) {
    "lifecycleLock" in p && p["lifecycleLock"] != Null
  }

  predicate Changed(body: Body, field: string)
    requires body.changes.Keys == body.expected.Keys
  {
    field in body.changes && body.expected[field] != body.changes[field]
  }

  // Everything that is validated against the project that was read.
  predicate Validated(sanitize: Value -> Value, p: Project, change: Change) {
    && !Locked(p) && RevisionMatches(p, change.expectedRevision)
    && match change
       case EditDetails(body, _) =>
         && ValidBody(body)
         && (forall f <- body.expected :: Normalize(sanitize, p, f) == body.expected[f])
         && CandidateOrdered(sanitize, p, body)
       case SetArchived(_, expectedArchived, _) => (Get(p, "archived") == Flag(true)) == expectedArchived
  }

  predicate Writes(change: Change) {
    match change
    case EditDetails(body, _) => body.changes != body.expected
    case SetArchived(archived, expectedArchived, _) => archived != expectedArchived
  }

  predicate AtLastRevision(p: Project) {
    Get(p, "projectRevision") == Number(MAX_SAFE_INTEGER)
  }

  function DateValue(value: Value): Value
    requires value.Text? && IsDateOnly(value.text)
  {
    Moment(DateParse(value.text))
  }

  // The fields set by $set, in the stored form of the new values.
  function SetFields(body: Body): Project
    requires ValidBody(body)
  {
    (map f | f in body.changes && Changed(body, f) && body.changes[f] != Null ::
       if f == "startDate" || f == "endDate" then DateValue(body.changes[f]) else body.changes[f])
    + (if Changed(body, "description") && body.changes["description"] != Null
       then map["desc" := body.changes["description"]] else map[])
  }

  function UnsetFields(body: Body): set<string>
    requires ValidBody(body)
  {
    (set f | f in body.changes && Changed(body, f) && body.changes[f] == Null)
    + (if Changed(body, "description") && body.changes["description"] == Null then {"desc"} else {})
  }

  // $inc starts from zero when the field is absent.
  function Incremented(p: Project): Value {
    Number((if RevisionOf(p).Some? then RevisionOf(p).value else 0) + 1)
  }

  function Modify(p: Project, change: Change): Project
    requires change.EditDetails? ==> ValidBody(change.body)
  {
    match change
    case EditDetails(body, _) => ((p + SetFields(body)) - UnsetFields(body))["projectRevision" := Incremented(p)]
    case SetArchived(archived, _, _) => p["archived" := Flag(archived)]["projectRevision" := Incremented(p)]
  }

  // ---------------------------------------------------------------- concurrent editors

  datatype Outcome = Committed(etag: string) | Unchanged(etag: string) | Refused

  datatype Phase = Reading | Writing(snapshot: Project) | Confirming(snapshot: Project) | Done(outcome: Outcome)

  // late is a write whose reply was lost: it may still be applied once.
  datatype Editor = Editor(change: Change, phase: Phase, late: Option<Project>)

  datatype State = State(project: Option<Project>, editors: map<nat, Editor>)

  datatype Step =
    | Start(id: nat, change: Change)
    | Read(id: nat, administrator: bool)
    | Write(id: nat)
    | Confirm(id: nat)
    | Lose(id: nat)
    | Land(id: nat)
    | Foreign(project: Option<Project>)

  function SetEditor(s: State, id: nat, e: Editor): State {
    s.(editors := s.editors[id := e])
  }

  // The compare-and-swap.
  function Swap(s: State, snapshot: Project, change: Change): State
    requires change.EditDetails? ==> ValidBody(change.body)
  {
    if s.project.Some? && SnapshotMatches(s.project.value, snapshot)
    then s.(project := Some(Modify(s.project.value, change))) else s
  }

  // The body was validated, and the expected revision was parsed from a tag.
  predicate WellFormedEditor(e: Editor) {
    Safe(e.change.expectedRevision) && (e.change.EditDetails? ==> ValidBody(e.change.body))
  }

  function NextRead(sanitize: Value -> Value, s: State, id: nat, administrator: bool): State
    requires id in s.editors
  {
    var e := s.editors[id];
    if s.project.None? || !administrator || !Validated(sanitize, s.project.value, e.change)
       || (Writes(e.change) && AtLastRevision(s.project.value))
    then SetEditor(s, id, e.(phase := Done(Refused)))
    else SetEditor(s, id, e.(phase :=
      if Writes(e.change) then Writing(s.project.value)
      else if e.change.EditDetails? then Confirming(s.project.value)
      else Done(Unchanged(ETag(ProjectKind, RevisionOf(s.project.value))))))
  }

  function NextWrite(s: State, id: nat): State
    requires id in s.editors && s.editors[id].phase.Writing? && WellFormedEditor(s.editors[id])
  {
    var e := s.editors[id];
    var matched := s.project.Some? && SnapshotMatches(s.project.value, e.phase.snapshot);
    var next := Incremented(e.phase.snapshot).number;
    SetEditor(Swap(s, e.phase.snapshot, e.change), id,
              e.(phase := Done(if matched then Committed(ETag(ProjectKind, Some(next))) else Refused)))
  }

  function NextConfirm(s: State, id: nat): State
    requires id in s.editors && s.editors[id].phase.Confirming?
  {
    var e := s.editors[id];
    var matched := s.project.Some? && SnapshotMatches(s.project.value, e.phase.snapshot);
    SetEditor(s, id, e.(phase := Done(
      if matched then Unchanged(ETag(ProjectKind, RevisionOf(e.phase.snapshot))) else Refused)))
  }

  function Next(sanitize: Value -> Value, s: State, step: Step): State {
    match step
    case Start(id, change) =>
      if id in s.editors || !WellFormedEditor(Editor(change, Reading, None)) then s
      else SetEditor(s, id, Editor(change, Reading, None))
    case Read(id, administrator) =>
      if id in s.editors && s.editors[id].phase.Reading? then NextRead(sanitize, s, id, administrator) else s
    case Write(id) =>
      if id in s.editors && s.editors[id].phase.Writing? && WellFormedEditor(s.editors[id]) then NextWrite(s, id) else s
    case Confirm(id) =>
      if id in s.editors && s.editors[id].phase.Confirming? then NextConfirm(s, id) else s
    case Lose(id) =>
      if id !in s.editors || s.editors[id].phase.Done? then s
      else SetEditor(s, id, s.editors[id].(phase := Done(Refused),
        late := if s.editors[id].phase.Writing? then Some(s.editors[id].phase.snapshot) else None))
    case Land(id) =>
      if id !in s.editors || s.editors[id].late.None? || !WellFormedEditor(s.editors[id]) then s
      else SetEditor(Swap(s, s.editors[id].late.value, s.editors[id].change), id, s.editors[id].(late := None))
    // Other code changes or deletes the project as it likes.
    case Foreign(project) => if s.project.Some? then s.(project := project) else s
  }

  function Exec(sanitize: Value -> Value, s: State, steps: seq<Step>): State {
    if steps == [] then s else Next(sanitize, Exec(sanitize, s, steps[..|steps| - 1]), steps[|steps| - 1])
  }

  // ---------------------------------------------------------------- what every editor holds

  // What the editor holds was validated against the snapshot it will compare with.
  predicate EditorInv(sanitize: Value -> Value, e: Editor) {
    && WellFormedEditor(e)
    && (e.phase.Writing? ==> Validated(sanitize, e.phase.snapshot, e.change) && Writes(e.change) && !AtLastRevision(e.phase.snapshot))
    && (e.phase.Confirming? ==> Validated(sanitize, e.phase.snapshot, e.change))
    && (e.late.Some? ==> Validated(sanitize, e.late.value, e.change) && Writes(e.change) && !AtLastRevision(e.late.value))
  }

  ghost predicate Inv(sanitize: Value -> Value, s: State) {
    forall i <- s.editors :: EditorInv(sanitize, s.editors[i])
  }

  // Any project, stored by whatever code.
  ghost predicate Initial(s: State) {
    s.editors == map[]
  }

  lemma {:induction false} StepKeeps(sanitize: Value -> Value, s: State, step: Step)
    requires Inv(sanitize, s)
    ensures Inv(sanitize, Next(sanitize, s, step))
  {
    hide Validated, ValidBody, Modify, Writes, ETag, SnapshotMatches;
    forall i <- Next(sanitize, s, step).editors ensures EditorInv(sanitize, Next(sanitize, s, step).editors[i]) {
      if i in s.editors { assert EditorInv(sanitize, s.editors[i]); }
    }
  }

  lemma {:induction false} RunKeepsInv(sanitize: Value -> Value, s: State, steps: seq<Step>)
    requires Initial(s)
    ensures Inv(sanitize, Exec(sanitize, s, steps))
  {
    if steps != [] {
      RunKeepsInv(sanitize, s, steps[..|steps| - 1]);
      StepKeeps(sanitize, Exec(sanitize, s, steps[..|steps| - 1]), steps[|steps| - 1]);
    }
  }

  // ---------------------------------------------------------------- what a success means

  lemma SameDetails(sanitize: Value -> Value, stored: Project, snapshot: Project, field: string)
    requires SnapshotMatches(stored, snapshot) && field in DETAIL_FIELDS
    ensures Normalize(sanitize, stored, field) == Normalize(sanitize, snapshot, field)
  {
  }

  lemma {:induction false} ValidatedBySnapshot(sanitize: Value -> Value, stored: Project, snapshot: Project, change: Change)
    requires SnapshotMatches(stored, snapshot) && Validated(sanitize, snapshot, change)
    ensures Validated(sanitize, stored, change)
  {
    hide Normalize, StringLe, ValidDetail;
    assert SameField(stored, snapshot, "lifecycleLock") && SameField(stored, snapshot, "projectRevision");
    assert SameField(stored, snapshot, "archived");
    forall f <- DETAIL_FIELDS ensures Normalize(sanitize, stored, f) == Normalize(sanitize, snapshot, f) {
      SameDetails(sanitize, stored, snapshot, f);
    }
  }

  // A success commits against exactly the state it validated: all its checks hold of the stored
  // project at the instant of the write, the revision rises by one, and the returned tag is the
  // stored one. Anything else leaves the project alone.
  lemma {:induction false} CommitMatchesValidation(sanitize: Value -> Value, s0: State, steps: seq<Step>, id: nat)
    requires Initial(s0)
    requires var s := Exec(sanitize, s0, steps); id in s.editors && s.editors[id].phase.Writing?
    ensures var s := Exec(sanitize, s0, steps);
      var s' := Next(sanitize, s, Write(id));
      if s'.editors[id].phase.Done? && s'.editors[id].phase.outcome.Committed? then
        && s.project.Some? && Validated(sanitize, s.project.value, s.editors[id].change)
        && s'.project == Some(Modify(s.project.value, s.editors[id].change))
        && RevisionOf(s'.project.value)
             == Some((if RevisionOf(s.project.value).Some? then RevisionOf(s.project.value).value else 0) + 1)
        && s'.editors[id].phase.outcome.etag == ETag(ProjectKind, RevisionOf(s'.project.value))
        && ParseETag(ProjectKind, s'.editors[id].phase.outcome.etag) == Accepted(RevisionOf(s'.project.value))
      else s'.project == s.project
  {
    RunKeepsInv(sanitize, s0, steps);
    var s := Exec(sanitize, s0, steps);
    WriteCommits(sanitize, s, id);
  }

  lemma {:induction false} WriteCommits(sanitize: Value -> Value, s: State, id: nat)
    requires id in s.editors && s.editors[id].phase.Writing? && EditorInv(sanitize, s.editors[id])
    ensures var s' := NextWrite(s, id);
      if s'.editors[id].phase.outcome.Committed? then
        && s.project.Some? && Validated(sanitize, s.project.value, s.editors[id].change)
        && s'.project == Some(Modify(s.project.value, s.editors[id].change))
        && RevisionOf(s'.project.value)
             == Some((if RevisionOf(s.project.value).Some? then RevisionOf(s.project.value).value else 0) + 1)
        && s'.editors[id].phase.outcome.etag == ETag(ProjectKind, RevisionOf(s'.project.value))
        && ParseETag(ProjectKind, s'.editors[id].phase.outcome.etag) == Accepted(RevisionOf(s'.project.value))
      else s'.project == s.project
  {
    var e := s.editors[id];
    if s.project.Some? && SnapshotMatches(s.project.value, e.phase.snapshot) {
      ValidatedBySnapshot(sanitize, s.project.value, e.phase.snapshot, e.change);
      assert SameField(s.project.value, e.phase.snapshot, "projectRevision");
      var after := Modify(s.project.value, e.change);
      assert after["projectRevision"] == Incremented(s.project.value) == Incremented(e.phase.snapshot);
      TagRoundTrip(ProjectKind, RevisionOf(after));
    }
  }

  // A success that changes nothing confirms the validated state and returns the stored tag.
  lemma {:induction false} ConfirmMatchesValidation(sanitize: Value -> Value, s0: State, steps: seq<Step>, id: nat)
    requires Initial(s0)
    requires var s := Exec(sanitize, s0, steps); id in s.editors && s.editors[id].phase.Confirming?
    ensures var s := Exec(sanitize, s0, steps);
      var s' := Next(sanitize, s, Confirm(id));
      && s'.project == s.project
      && (s'.editors[id].phase.outcome.Unchanged? ==>
            && s.project.Some? && Validated(sanitize, s.project.value, s.editors[id].change)
            && s'.editors[id].phase.outcome.etag == ETag(ProjectKind, RevisionOf(s.project.value)))
  {
    RunKeepsInv(sanitize, s0, steps);
    var s := Exec(sanitize, s0, steps);
    hide Exec, Initial, Validated, SnapshotMatches, ETag;
    ConfirmConfirms(sanitize, s, id);
  }

  lemma {:induction false} ConfirmConfirms(sanitize: Value -> Value, s: State, id: nat)
    requires id in s.editors && s.editors[id].phase.Confirming? && EditorInv(sanitize, s.editors[id])
    ensures var s' := NextConfirm(s, id);
      && s'.project == s.project && id in s'.editors && s'.editors[id].phase.Done?
      && (s'.editors[id].phase.outcome.Unchanged? ==>
            && s.project.Some? && Validated(sanitize, s.project.value, s.editors[id].change)
            && s'.editors[id].phase.outcome.etag == ETag(ProjectKind, RevisionOf(s.project.value)))
  {
    hide Validated, ETag;
    var e := s.editors[id];
    if s.project.Some? && SnapshotMatches(s.project.value, e.phase.snapshot) {
      ValidatedBySnapshot(sanitize, s.project.value, e.phase.snapshot, e.change);
      assert SameField(s.project.value, e.phase.snapshot, "projectRevision");
    }
  }

  // An archive request that changes nothing is answered from its one read.
  lemma ArchiveConfirmedByRead(sanitize: Value -> Value, s: State, id: nat, administrator: bool)
    requires id in s.editors && s.editors[id].phase.Reading? && s.editors[id].change.SetArchived?
    requires WellFormedEditor(s.editors[id])
    ensures var s' := Next(sanitize, s, Read(id, administrator));
      && s'.project == s.project
      && (s'.editors[id].phase.Done? && s'.editors[id].phase.outcome.Unchanged? ==>
            && s.project.Some? && Validated(sanitize, s.project.value, s.editors[id].change)
            && !Writes(s.editors[id].change)
            && s'.editors[id].phase.outcome.etag == ETag(ProjectKind, RevisionOf(s.project.value))
            && ParseETag(ProjectKind, s'.editors[id].phase.outcome.etag) == Accepted(RevisionOf(s.project.value)))
  {
    hide ETag, ParseETag, Modify;
    if s.project.Some? && Validated(sanitize, s.project.value, s.editors[id].change) {
      TagRoundTrip(ProjectKind, RevisionOf(s.project.value));
    }
  }

  // ---------------------------------------------------------------- what the response echoes

  // After a commit the stored project normalizes to the details the response reports, except that a
  // changed description is echoed as it was sent and stored text is sanitized when read again.
  lemma {:induction false} ResponseEchoesStored(sanitize: Value -> Value, stored: Project, snapshot: Project, body: Body, revision: Revision, field: string)
    requires SnapshotMatches(stored, snapshot) && Validated(sanitize, snapshot, EditDetails(body, revision))
    requires field in DETAIL_FIELDS
    ensures var after := Modify(stored, EditDetails(body, revision));
      Normalize(sanitize, after, field) == CandidateDetail(sanitize, snapshot, body, field) <==>
        (field == "description" && Changed(body, field) && body.changes[field] != Null ==>
           sanitize(body.changes[field]) == body.changes[field])
  {
    SameDetails(sanitize, stored, snapshot, field);
    if field in body.changes { assert ValidDetail(field, body.changes[field]); }
    if IsDateField(field) {
      EchoedDate(sanitize, stored, body, revision, field);
    } else {
      EchoedField(sanitize, stored, body, revision, field);
    }
    if field in body.changes && !Changed(body, field) {
      assert body.expected[field] == Normalize(sanitize, snapshot, field);
    }
  }

  lemma ModifiedField(stored: Project, body: Body, revision: Revision, field: string)
    requires field in DETAIL_FIELDS && !IsDateField(field) && ValidBody(body)
    ensures Get(Modify(stored, EditDetails(body, revision)), field) ==
      if Changed(body, field) then body.changes[field] else Get(stored, field)
  {
  }

  // The older copy of the description is written and cleared together with it.
  lemma ModifiedDesc(stored: Project, body: Body, revision: Revision)
    requires ValidBody(body)
    ensures Get(Modify(stored, EditDetails(body, revision)), "desc") ==
      if Changed(body, "description") then body.changes["description"] else Get(stored, "desc")
  {
    hide IsDateOnly, DateValue;
    assert "desc" !in body.changes;
  }

  lemma {:induction false} EchoedField(sanitize: Value -> Value, stored: Project, body: Body, revision: Revision, field: string)
    requires field in DETAIL_FIELDS && !IsDateField(field) && ValidBody(body)
    ensures Normalize(sanitize, Modify(stored, EditDetails(body, revision)), field) ==
      if !Changed(body, field) then Normalize(sanitize, stored, field)
      else if field == "description" && body.changes[field] != Null then sanitize(body.changes[field])
      else body.changes[field]
  {
    hide IsoDate, Modify;
    ModifiedField(stored, body, revision, field);
    ModifiedDesc(stored, body, revision);
    if field in body.changes { assert ValidDetail(field, body.changes[field]); }
    EchoedValue(sanitize, stored, Modify(stored, EditDetails(body, revision)), body, field);
  }

  lemma EchoedValue(sanitize: Value -> Value, stored: Project, after: Project, body: Body, field: string)
    requires field in DETAIL_FIELDS && !IsDateField(field) && body.changes.Keys == body.expected.Keys
    requires Changed(body, field) ==> ValidDetail(field, body.changes[field])
    requires Get(after, field) == if Changed(body, field) then body.changes[field] else Get(stored, field)
    requires Get(after, "desc") == if Changed(body, "description") then body.changes["description"] else Get(stored, "desc")
    ensures Normalize(sanitize, after, field) ==
      if !Changed(body, field) then Normalize(sanitize, stored, field)
      else if field == "description" && body.changes[field] != Null then sanitize(body.changes[field])
      else body.changes[field]
  {
  }

  // ---------------------------------------------------------------- date texts

  function TextDay(text: string): nat
    requires IsDateOnly(text)
  {
    FormatParse(text);
    DayNumber(ParseDateOnly(text).value)
  }

  lemma {:induction false} TextDayInRange(text: string)
    requires IsDateOnly(text)
    ensures FourDigitYear(TextDay(text))
  {
    FormatParse(text);
    hide FormatDateOnly, ParseDateOnly, DayNumber, CivilOf, Valid;
    CivilOfDayNumber(ParseDateOnly(text).value);
  }

  // A date-only value is stored as the midnight of its day.
  lemma {:induction false} DateValueClean(value: Value)
    requires value.Text? && IsDateOnly(value.text)
    ensures DateValue(value).Moment?
    ensures var m := DateValue(value).milliseconds;
      TimeOfDay(m) == 0 && DayOf(m) == TextDay(value.text) && FourDigitYear(DayOf(m))
  {
    hide FormatDateOnly, ParseDateOnly, DayNumber, CivilOf, Valid, FourDigitYear;
    TextDayInRange(value.text);
    InDay(TextDay(value.text), 0);
  }

  predicate IsDateField(field: string) {
    field == "startDate" || field == "endDate"
  }

  // What an edit does to one of the dates.
  lemma ModifiedDate(stored: Project, body: Body, revision: Revision, field: string)
    requires IsDateField(field) && ValidBody(body)
    requires Changed(body, field) && body.changes[field] != Null ==> IsDateOnly(body.changes[field].text)
    ensures Get(Modify(stored, EditDetails(body, revision)), field) ==
      if !Changed(body, field) then Get(stored, field)
      else if body.changes[field] == Null then Null else DateValue(body.changes[field])
  {
  }

  // The date an edit leaves behind reads back as the text it was checked with, whatever was stored.
  lemma {:induction false} DateOutcome(sanitize: Value -> Value, stored: Project, snapshot: Project, body: Body, revision: Revision, field: string)
    requires IsDateField(field) && SnapshotMatches(stored, snapshot)
    requires Validated(sanitize, snapshot, EditDetails(body, revision))
    ensures Normalize(sanitize, Modify(stored, EditDetails(body, revision)), field)
      == CandidateDetail(sanitize, snapshot, body, field)
  {
    EchoedDate(sanitize, stored, body, revision, field);
    SameDetails(sanitize, stored, snapshot, field);
    hide IsDateOnly, IsoDate, Normalize, CandidateOrdered, Modify;
    if field in body.changes && !Changed(body, field) {
      assert body.expected[field] == Normalize(sanitize, snapshot, field);
    }
  }

  lemma {:induction false} EchoedDate(sanitize: Value -> Value, stored: Project, body: Body, revision: Revision, field: string)
    requires IsDateField(field) && ValidBody(body)
    ensures Normalize(sanitize, Modify(stored, EditDetails(body, revision)), field) ==
      if Changed(body, field) then body.changes[field] else Normalize(sanitize, stored, field)
  {
    hide IsoDate, IsDateOnly, DateValue, FourDigitYear, Modify;
    if field in body.changes { assert ValidDetail(field, body.changes[field]); }
    ModifiedDate(stored, body, revision, field);
    if Changed(body, field) && body.changes[field] != Null { WrittenDateText(body.changes[field]); }
  }

  // The midnight stored for a date-only value reads back as that value.
  lemma {:induction false} WrittenDateText(value: Value)
    requires value.Text? && IsDateOnly(value.text)
    ensures DateValue(value).Moment? && IsoDate(DateValue(value).milliseconds) == value.text
  {
    hide FormatDateOnly, ParseDateOnly, DayNumber, CivilOf, Valid;
    DateValueClean(value);
    FormatParse(value.text);
    CivilOfDayNumber(ParseDateOnly(value.text).value);
  }

  // Texts of years 0 to 9999 are ordered like their days; all other texts come before them.
  lemma IsoOrder(a: int, b: int)
    ensures FourDigitYear(DayOf(a)) && FourDigitYear(DayOf(b)) ==> (StringLe(IsoDate(a), IsoDate(b)) <==> DayOf(a) <= DayOf(b))
    ensures !FourDigitYear(DayOf(a)) && FourDigitYear(DayOf(b)) ==> StringLe(IsoDate(a), IsoDate(b))
    ensures FourDigitYear(DayOf(a)) && !FourDigitYear(DayOf(b)) ==> !StringLe(IsoDate(a), IsoDate(b))
  {
    FirstCharacter(a);
    FirstCharacter(b);
    if FourDigitYear(DayOf(a)) && FourDigitYear(DayOf(b)) {
      CivilOfCounts(DayOf(a));
      CivilOfCounts(DayOf(b));
      hide FormatDateOnly, StringLe, CivilOf, DayNumber;
      DateOnlyOrder(CivilOf(DayOf(a)), CivilOf(DayOf(b)));
    } else {
      hide IsoDate;
    }
  }

  lemma {:induction false} FirstCharacter(milliseconds: int)
    ensures var text := IsoDate(milliseconds);
      text != "" && if FourDigitYear(DayOf(milliseconds)) then '0' <= text[0] <= '9' else text[0] < '0'
  {
    var day := DayOf(milliseconds);
    if FourDigitYear(day) {
      var c := CivilOf(day);
      Widths();
      assert IsoDate(milliseconds)[0] == Pad(4, c.year)[0];
    }
  }

  lemma LaterYear(a: int, b: int)
    requires AfterYear9999(a) && FourDigitYear(b)
    ensures a > b
  {
    CivilOfCounts(a);
    CivilOfCounts(b);
    DayOrder(CivilOf(b), CivilOf(a));
  }

  // ---------------------------------------------------------------- one commit and the dates

  predicate BothDates(p: Project) {
    Get(p, "startDate").Moment? && Get(p, "endDate").Moment?
  }

  predicate InstantsOrdered(p: Project) {
    BothDates(p) ==> p["startDate"].milliseconds <= p["endDate"].milliseconds
  }

  predicate DaysOrdered(p: Project) {
    BothDates(p) ==> DayOf(p["startDate"].milliseconds) <= DayOf(p["endDate"].milliseconds)
  }

  // Only the end date is set, and the start date stays at an instant.
  predicate SetsEndOnly(stored: Project, change: Change)
    requires change.EditDetails? ==> ValidBody(change.body)
  {
    && change.EditDetails? && Changed(change.body, "endDate") && change.body.changes["endDate"] != Null
    && !Changed(change.body, "startDate") && Get(stored, "startDate").Moment?
  }

  // The start date is in a year whose text comes before every end date that can be set.
  predicate StartAfterYear9999(stored: Project, change: Change)
    requires change.EditDetails? ==> ValidBody(change.body)
  {
    SetsEndOnly(stored, change) && AfterYear9999(DayOf(stored["startDate"].milliseconds))
  }

  // The start date is later in the very day the end date is set to.
  predicate StartLaterThatDay(stored: Project, change: Change)
    requires change.EditDetails? ==> ValidBody(change.body)
  {
    && SetsEndOnly(stored, change)
    && TimeOfDay(stored["startDate"].milliseconds) != 0
    && ValidDetail("endDate", change.body.changes["endDate"])
    && DayOf(stored["startDate"].milliseconds) == TextDay(change.body.changes["endDate"].text)
  }

  // The texts of the dates a committed edit leaves behind are in order.
  lemma {:induction false} TextsOrdered(sanitize: Value -> Value, stored: Project, snapshot: Project, change: Change)
    requires SnapshotMatches(stored, snapshot) && Validated(sanitize, snapshot, change) && change.EditDetails?
    ensures var after := Modify(stored, change);
      BothDates(after) ==> StringLe(IsoDate(after["startDate"].milliseconds), IsoDate(after["endDate"].milliseconds))
  {
    DateOutcome(sanitize, stored, snapshot, change.body, change.expectedRevision, "startDate");
    DateOutcome(sanitize, stored, snapshot, change.body, change.expectedRevision, "endDate");
    var after := Modify(stored, change);
    if BothDates(after) {
      FirstCharacter(after["startDate"].milliseconds);
      FirstCharacter(after["endDate"].milliseconds);
    }
    hide IsoDate, StringLe, Modify, SnapshotMatches;
  }

  // The dates after an edit, each either as stored or the midnight of a day.
  lemma {:induction false} DatesAfter(stored: Project, change: Change, field: string)
    requires IsDateField(field) && change.EditDetails? && ValidBody(change.body)
    ensures var after := Get(Modify(stored, change), field);
      if !Changed(change.body, field) then after == Get(stored, field)
      else if change.body.changes[field] == Null then after == Null
      else
        && ValidDetail(field, change.body.changes[field]) && after.Moment?
        && TimeOfDay(after.milliseconds) == 0 && FourDigitYear(DayOf(after.milliseconds))
        && DayOf(after.milliseconds) == TextDay(change.body.changes[field].text)
  {
    hide IsDateOnly, DateValue, FourDigitYear, TextDay;
    if field in change.body.changes { assert ValidDetail(field, change.body.changes[field]); }
    ModifiedDate(stored, change.body, change.expectedRevision, field);
    if Changed(change.body, field) && change.body.changes[field] != Null { DateValueClean(change.body.changes[field]); }
  }

  lemma DayAndInstant(a: int, b: int)
    ensures DayOf(a) < DayOf(b) ==> a < b
    ensures DayOf(a) == DayOf(b) && TimeOfDay(b) == 0 ==> (a <= b <==> TimeOfDay(a) == 0)
    ensures DayOf(a) == DayOf(b) && TimeOfDay(a) == 0 ==> a <= b
  {
  }

  // A commit on ordered instants leaves them ordered exactly unless it sets only the end date, to
  // the day on which the start date has a time of day, or below a start date after the year 9999.
  lemma {:induction false} CommitKeepsInstantsIff(sanitize: Value -> Value, stored: Project, snapshot: Project, change: Change)
    requires SnapshotMatches(stored, snapshot) && Validated(sanitize, snapshot, change) && InstantsOrdered(stored)
    ensures InstantsOrdered(Modify(stored, change))
      <==> !StartLaterThatDay(stored, change) && !StartAfterYear9999(stored, change)
  {
    var after := Modify(stored, change);
    if change.EditDetails? {
      TextsOrdered(sanitize, stored, snapshot, change);
      DatesAfter(stored, change, "startDate");
      DatesAfter(stored, change, "endDate");
      hide Modify, Validated, SnapshotMatches, ValidDetail, TextDay, FourDigitYear, IsoDate, StringLe, DayOf;
      if BothDates(after) {
        var start, end := after["startDate"].milliseconds, after["endDate"].milliseconds;
        IsoOrder(start, end);
        DayAndInstant(start, end);
        DayAndInstant(end, start);
        if AfterYear9999(DayOf(start)) && FourDigitYear(DayOf(end)) { LaterYear(DayOf(start), DayOf(end)); }
      }
    } else {
      assert Get(after, "startDate") == Get(stored, "startDate") && Get(after, "endDate") == Get(stored, "endDate");
    }
  }

  // A commit on ordered days leaves them ordered exactly unless it sets only the end date, below a
  // start date after the year 9999.
  lemma {:induction false} CommitKeepsDaysIff(sanitize: Value -> Value, stored: Project, snapshot: Project, change: Change)
    requires SnapshotMatches(stored, snapshot) && Validated(sanitize, snapshot, change) && DaysOrdered(stored)
    ensures DaysOrdered(Modify(stored, change)) <==> !StartAfterYear9999(stored, change)
  {
    var after := Modify(stored, change);
    if change.EditDetails? {
      TextsOrdered(sanitize, stored, snapshot, change);
      DatesAfter(stored, change, "startDate");
      DatesAfter(stored, change, "endDate");
      hide Modify, Validated, SnapshotMatches, ValidDetail, TextDay, FourDigitYear, IsoDate, StringLe;
      if BothDates(after) {
        var start, end := after["startDate"].milliseconds, after["endDate"].milliseconds;
        IsoOrder(start, end);
        if AfterYear9999(DayOf(start)) && FourDigitYear(DayOf(end)) { LaterYear(DayOf(start), DayOf(end)); }
      }
    } else {
      assert Get(after, "startDate") == Get(stored, "startDate") && Get(after, "endDate") == Get(stored, "endDate");
    }
  }

  // ---------------------------------------------------------------- the dates in every run

  // The start date is absent, no instant, or not after the year 9999.
  predicate StartInRange(p: Project) {
    Get(p, "startDate").Moment? ==> !AfterYear9999(DayOf(p["startDate"].milliseconds))
  }

  predicate StartAtMidnight(p: Project) {
    Get(p, "startDate").Moment? ==> TimeOfDay(p["startDate"].milliseconds) == 0
  }

  predicate DatesInv(p: Project) {
    DaysOrdered(p) && StartInRange(p)
  }

  predicate InstantsInv(p: Project) {
    InstantsOrdered(p) && StartInRange(p) && StartAtMidnight(p)
  }

  // A step other than an edit that leaves both dates alone.
  predicate LeavesDates(s: State, step: Step) {
    step.Foreign? && s.project.Some? && step.project.Some? ==>
      SameField(s.project.value, step.project.value, "startDate") && SameField(s.project.value, step.project.value, "endDate")
  }

  // Only edits change the dates.
  predicate OnlyEditsDate(sanitize: Value -> Value, s: State, steps: seq<Step>) {
    steps == [] ||
    (OnlyEditsDate(sanitize, s, steps[..|steps| - 1])
     && LeavesDates(Exec(sanitize, s, steps[..|steps| - 1]), steps[|steps| - 1]))
  }

  lemma {:induction false} CommitKeepsDates(sanitize: Value -> Value, stored: Project, snapshot: Project, change: Change)
    requires SnapshotMatches(stored, snapshot) && Validated(sanitize, snapshot, change)
    ensures DatesInv(stored) ==> DatesInv(Modify(stored, change))
    ensures InstantsInv(stored) ==> InstantsInv(Modify(stored, change))
  {
    if DatesInv(stored) { CommitKeepsDaysIff(sanitize, stored, snapshot, change); }
    if InstantsInv(stored) { CommitKeepsInstantsIff(sanitize, stored, snapshot, change); }
    if change.EditDetails? { DatesAfter(stored, change, "startDate"); }
    hide Modify, Validated, SnapshotMatches, ValidDetail, TextDay, FourDigitYear;
    assert change.SetArchived? ==> Get(Modify(stored, change), "startDate") == Get(stored, "startDate");
  }

  lemma {:induction false} StepKeepsDates(sanitize: Value -> Value, s: State, step: Step)
    requires Inv(sanitize, s) && LeavesDates(s, step) && s.project.Some?
    ensures var t := Next(sanitize, s, step);
      t.project.Some? ==>
        && (DatesInv(s.project.value) ==> DatesInv(t.project.value))
        && (InstantsInv(s.project.value) ==> InstantsInv(t.project.value))
  {
    hide Validated, ValidBody, Modify, Writes, ETag, SnapshotMatches, FourDigitYear;
    match step
    case Write(id) =>
      if id in s.editors && s.editors[id].phase.Writing? {
        var e := s.editors[id];
        assert EditorInv(sanitize, e);
        if SnapshotMatches(s.project.value, e.phase.snapshot) {
          CommitKeepsDates(sanitize, s.project.value, e.phase.snapshot, e.change);
        }
      }
    case Land(id) =>
      if id in s.editors && s.editors[id].late.Some? {
        var e := s.editors[id];
        assert EditorInv(sanitize, e);
        if SnapshotMatches(s.project.value, e.late.value) {
          CommitKeepsDates(sanitize, s.project.value, e.late.value, e.change);
        }
      }
    case _ =>
  }

  lemma {:induction false} RunKeepsDates(sanitize: Value -> Value, s: State, steps: seq<Step>)
    requires Initial(s) && OnlyEditsDate(sanitize, s, steps) && Exec(sanitize, s, steps).project.Some?
    ensures s.project.Some?
    ensures DatesInv(s.project.value) ==> DatesInv(Exec(sanitize, s, steps).project.value)
    ensures InstantsInv(s.project.value) ==> InstantsInv(Exec(sanitize, s, steps).project.value)
  {
    if steps != [] {
      var before := Exec(sanitize, s, steps[..|steps| - 1]);
      hide DatesInv, InstantsInv;
      NeverRecreated(sanitize, before, steps[|steps| - 1]);
      RunKeepsDates(sanitize, s, steps[..|steps| - 1]);
      RunKeepsInv(sanitize, s, steps[..|steps| - 1]);
      StepKeepsDates(sanitize, before, steps[|steps| - 1]);
    }
  }

  lemma NeverRecreated(sanitize: Value -> Value, s: State, step: Step)
    requires Next(sanitize, s, step).project.Some?
    ensures s.project.Some?
  {
  }

  // Over any stored dates that start in order and not after the year 9999: in every run in which only
  // edits change the dates, the start day is never after the end day. There is no write skew between
  // editors of different dates, whatever other fields change and however late a write lands.
  lemma {:induction false} DatesOrderedInAnyRun(sanitize: Value -> Value, s: State, steps: seq<Step>)
    requires Initial(s) && OnlyEditsDate(sanitize, s, steps) && Exec(sanitize, s, steps).project.Some?
    requires s.project.Some? ==> DaysOrdered(s.project.value) && StartInRange(s.project.value)
    ensures DaysOrdered(Exec(sanitize, s, steps).project.value)
  {
    RunKeepsDates(sanitize, s, steps);
  }

  // The instants themselves stay in order if the first start date is a midnight.
  lemma {:induction false} InstantsOrderedInAnyRun(sanitize: Value -> Value, s: State, steps: seq<Step>)
    requires Initial(s) && OnlyEditsDate(sanitize, s, steps) && Exec(sanitize, s, steps).project.Some?
    requires s.project.Some? ==> InstantsInv(s.project.value)
    ensures InstantsOrdered(Exec(sanitize, s, steps).project.value)
  {
    RunKeepsDates(sanitize, s, steps);
  }

  // ---------------------------------------------------------------- the exception, as a run

  // A project that starts some time into one day and ends at the midnight of another.
  function DatedProject(start: Civil, timeOfDay: int, end: Civil): Project
    requires Valid(start) && Valid(end)
  {
    map["startDate" := Moment(MidnightUtc(DayNumber(start)) + timeOfDay), "endDate" := Moment(MidnightUtc(DayNumber(end)))]
  }

  // An edit that moves the end date from one day to another.
  function MoveEnd(from: Civil, to: Civil): Change
    requires Valid(from) && Valid(to) && from.year <= 9999 && to.year <= 9999
  {
    EditDetails(Body(map["endDate" := Text(FormatDateOnly(from))], map["endDate" := Text(FormatDateOnly(to))]), None)
  }

  // Whenever the start date has a time of day, moving the end date to its day is accepted and stores an
  // end before the start.
  lemma {:induction false} EndMovedToStartDay(sanitize: Value -> Value, start: Civil, timeOfDay: int, end: Civil)
    requires Valid(start) && Valid(end) && start.year <= 9999 && end.year <= 9999
    requires DayNumber(start) < DayNumber(end) && 0 < timeOfDay < MILLISECONDS_PER_DAY
    ensures var project := DatedProject(start, timeOfDay, end);
      var s := State(Some(project), map[]);
      var t := Exec(sanitize, s, [Start(0, MoveEnd(end, start)), Read(0, true), Write(0)]);
      InstantsOrdered(project) && t.project.Some? && !InstantsOrdered(t.project.value)
  {
    var project, change := DatedProject(start, timeOfDay, end), MoveEnd(end, start);
    DatedValidates(sanitize, start, timeOfDay, end);
    CommitKeepsInstantsIff(sanitize, project, project, change);
    hide Validated, Modify, InstantsOrdered, StartLaterThatDay, StartAfterYear9999, ETag, DatedProject, MoveEnd, ValidBody;
    ThreeSteps(sanitize, project, change);
  }

  lemma {:induction false} DatedValidates(sanitize: Value -> Value, start: Civil, timeOfDay: int, end: Civil)
    requires Valid(start) && Valid(end) && start.year <= 9999 && end.year <= 9999
    requires DayNumber(start) < DayNumber(end) && 0 < timeOfDay < MILLISECONDS_PER_DAY
    ensures var project, change := DatedProject(start, timeOfDay, end), MoveEnd(end, start);
      && ValidBody(change.body) && Validated(sanitize, project, change) && Writes(change) && !AtLastRevision(project)
      && InstantsOrdered(project) && StartLaterThatDay(project, change)
  {
    hide FormatDateOnly, IsDateOnly, IsoDate, DayNumber, StringLe, TextDay, MidnightUtc, DayOf, Validated, StartLaterThatDay,
      ValidBody;
    var from, to := FormatDateOnly(end), FormatDateOnly(start);
    DatedTexts(start, timeOfDay);
    DatedTexts(end, 0);
    StringLeTotal(to, to);
    EndEditValidates(sanitize, MidnightUtc(DayNumber(start)) + timeOfDay, MidnightUtc(DayNumber(end)), from, to);
  }

  lemma {:induction false} EndEditValidates(sanitize: Value -> Value, a: int, b: int, from: string, to: string)
    requires IsDateOnly(from) && IsDateOnly(to) && TextDay(from) != TextDay(to) && StringLe(to, to)
    requires IsoDate(a) == to && IsoDate(b) == from && DayOf(a) == TextDay(to) && DayOf(a) < DayOf(b)
    requires TimeOfDay(a) != 0
    ensures var project: Project := map["startDate" := Moment(a), "endDate" := Moment(b)];
      var change := EditDetails(Body(map["endDate" := Text(from)], map["endDate" := Text(to)]), None);
      && ValidBody(change.body) && Validated(sanitize, project, change) && Writes(change) && !AtLastRevision(project)
      && InstantsOrdered(project) && StartLaterThatDay(project, change)
  {
    hide IsDateOnly, IsoDate, StringLe, TextDay;
    var project: Project := map["startDate" := Moment(a), "endDate" := Moment(b)];
    var change := EditDetails(Body(map["endDate" := Text(from)], map["endDate" := Text(to)]), None);
    assert from != to;
    DayAndInstant(a, b);
    assert ValidDetail("endDate", Text(from)) && ValidDetail("endDate", Text(to));
    assert Normalize(sanitize, project, "endDate") == Text(from) && Normalize(sanitize, project, "startDate") == Text(to);
    assert change.body.changes.Keys == {"endDate"} && "endDate" in DETAIL_FIELDS && |"startDate"| != |"endDate"|;
    assert CandidateDetail(sanitize, project, change.body, "startDate") == Text(to);
    assert ValidBody(change.body) && CandidateOrdered(sanitize, project, change.body);
  }

  // An instant reads as the text of its day.
  lemma {:induction false} DatedTexts(c: Civil, timeOfDay: int)
    requires Valid(c) && c.year <= 9999 && 0 <= timeOfDay < MILLISECONDS_PER_DAY
    ensures IsDateOnly(FormatDateOnly(c)) && TextDay(FormatDateOnly(c)) == DayNumber(c)
    ensures DayOf(MidnightUtc(DayNumber(c)) + timeOfDay) == DayNumber(c) && TimeOfDay(MidnightUtc(DayNumber(c)) + timeOfDay) == timeOfDay
    ensures IsoDate(MidnightUtc(DayNumber(c)) + timeOfDay) == FormatDateOnly(c)
  {
    hide FormatDateOnly, ParseDateOnly, DayNumber, CivilOf, Valid;
    InDay(DayNumber(c), timeOfDay);
    ParseFormat(c);
    CivilOfDayNumber(c);
    assert DayOf(MidnightUtc(DayNumber(c)) + timeOfDay) == DayNumber(c);
    hide MidnightUtc, DayOf;
    assert FourDigitYear(DayNumber(c));
  }

  // One editor alone: it reads, validates and commits.
  lemma {:induction false} ThreeSteps(sanitize: Value -> Value, project: Project, change: Change)
    requires WellFormedEditor(Editor(change, Reading, None))
    requires Validated(sanitize, project, change) && Writes(change) && !AtLastRevision(project)
    ensures Exec(sanitize, State(Some(project), map[]), [Start(0, change), Read(0, true), Write(0)]).project
      == Some(Modify(project, change))
  {
    hide Validated, Writes, AtLastRevision, Modify, ETag, ValidBody;
    var s0 := State(Some(project), map[]);
    var steps := [Start(0, change), Read(0, true), Write(0)];
    var s1 := Next(sanitize, s0, Start(0, change));
    var s2 := Next(sanitize, s1, Read(0, true));
    assert s2.editors[0] == Editor(change, Writing(project), None);
    assert steps[..2][..1] == steps[..1] && steps[..1][..0] == [];
    assert Exec(sanitize, s0, steps[..1]) == Next(sanitize, Exec(sanitize, s0, []), steps[0]);
    assert Exec(sanitize, s0, steps[..2]) == Next(sanitize, Exec(sanitize, s0, steps[..1]), steps[1]);
  }

  // An edit that sets the missing end date.
  function SetEnd(end: string): Change {
    EditDetails(Body(map["endDate" := Null], map["endDate" := Text(end)]), None)
  }

  // Whenever the start date is after the year 9999, setting any end date is accepted and stores an end
  // before the start, as days and as instants.
  lemma {:induction false} EndSetBelowLateStart(sanitize: Value -> Value, start: int, end: string)
    requires AfterYear9999(DayOf(start)) && IsDateOnly(end)
    ensures var project: Project := map["startDate" := Moment(start)];
      var t := Exec(sanitize, State(Some(project), map[]), [Start(0, SetEnd(end)), Read(0, true), Write(0)]);
      && DaysOrdered(project) && InstantsOrdered(project)
      && t.project.Some? && !DaysOrdered(t.project.value) && !InstantsOrdered(t.project.value)
  {
    var project: Project, change := map["startDate" := Moment(start)], SetEnd(end);
    LateStartValidates(sanitize, start, end);
    CommitKeepsDaysIff(sanitize, project, project, change);
    CommitKeepsInstantsIff(sanitize, project, project, change);
    hide Validated, Modify, DaysOrdered, InstantsOrdered, StartLaterThatDay, StartAfterYear9999, ETag, SetEnd, ValidBody;
    ThreeSteps(sanitize, project, change);
  }

  lemma {:induction false} LateStartValidates(sanitize: Value -> Value, start: int, end: string)
    requires AfterYear9999(DayOf(start)) && IsDateOnly(end)
    ensures var project: Project, change := map["startDate" := Moment(start)], SetEnd(end);
      && ValidBody(change.body) && Validated(sanitize, project, change) && Writes(change) && !AtLastRevision(project)
      && StartAfterYear9999(project, change)
  {
    hide IsDateOnly, IsoDate, StringLe, FourDigitYear, DateParse, DayOf, TextDay;
    WrittenDateText(Text(end));
    DateValueClean(Text(end));
    IsoOrder(start, DateParse(end));
    var project: Project, change := map["startDate" := Moment(start)], SetEnd(end);
    assert ValidDetail("endDate", Null) && ValidDetail("endDate", Text(end));
    assert Normalize(sanitize, project, "endDate") == Null;
    assert change.body.changes.Keys == {"endDate"} && "endDate" in DETAIL_FIELDS && |"startDate"| != |"endDate"|;
    assert CandidateDetail(sanitize, project, change.body, "startDate") == Text(IsoDate(start));
    assert ValidBody(change.body) && CandidateOrdered(sanitize, project, change.body);
  }

  // Whenever sanitizing changes a text, sending it as a description is accepted, and the project then
  // reads back differently from what the response reports.
  lemma {:induction false} EchoedTextDiffers(sanitize: Value -> Value, name: string, text: string)
    requires sanitize(Text(text)) != Text(text) && |text| <= 50000
    ensures var project: Project := map["name" := Text(name)];
      var body := Body(map["description" := Null], map["description" := Text(text)]);
      var t := Exec(sanitize, State(Some(project), map[]), [Start(0, EditDetails(body, None)), Read(0, true), Write(0)]);
      t.project.Some? &&
        Normalize(sanitize, t.project.value, "description") != CandidateDetail(sanitize, project, body, "description")
  {
    var project: Project := map["name" := Text(name)];
    var body := Body(map["description" := Null], map["description" := Text(text)]);
    var change := EditDetails(body, None);
    assert body.changes.Keys == {"description"} && "description" in DETAIL_FIELDS;
    assert ValidDetail("description", Null) && ValidDetail("description", Text(text));
    assert |"startDate"| != |"description"| && Get(project, "description") == Null && Get(project, "desc") == Null;
    assert ValidBody(body);
    assert CandidateOrdered(sanitize, project, body);
    assert Validated(sanitize, project, change);
    ResponseEchoesStored(sanitize, project, project, body, None, "description");
    hide Validated, Modify, Normalize, ETag, ValidBody, CandidateDetail;
    ThreeSteps(sanitize, project, change);
  }

  // For one: a start at noon of 2024-01-01 and an end at 2024-01-02, moved to 2024-01-01.
  lemma {:induction false} NoonStart(sanitize: Value -> Value)
    ensures var start, end := Civil(2024, 1, 1), Civil(2024, 1, 2);
      var project := DatedProject(start, MILLISECONDS_PER_DAY / 2, end);
      var t := Exec(sanitize, State(Some(project), map[]), [Start(0, MoveEnd(end, start)), Read(0, true), Write(0)]);
      InstantsOrdered(project) && t.project.Some? && !InstantsOrdered(t.project.value)
  {
    EndMovedToStartDay(sanitize, Civil(2024, 1, 1), MILLISECONDS_PER_DAY / 2, Civil(2024, 1, 2));
  }
}
