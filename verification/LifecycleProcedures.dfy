// editProjectDetails and setProjectArchived of imports/api/projects/server/projectLifecycle.js as
// they are written: a read, the checks, the building of the modifier, and one conditional update,
// with other editors and other code acting in between.
module LifecycleProcedures {
  import opened Options
  import opened ResourceRevision
  import opened ProjectLifecycle
  import opened LifecycleAnswers

  // Steps that move this editor on.
  predicate Moves(step: Step, id: nat) {
    match step
    case Read(i, _) => i == id
    case Write(i) => i == id
    case Confirm(i) => i == id
    case Lose(i) => i == id
    case _ => false
  }

  predicate Around(steps: seq<Step>, id: nat) {
    forall step <- steps :: !Moves(step, id)
  }

  ghost predicate Same(s: State, t: State, id: nat) {
    id in s.editors && id in t.editors && t.editors[id] == s.editors[id]
  }

  lemma OthersKeep(sanitize: Value -> Value, s: State, step: Step, id: nat)
    requires id in s.editors && s.editors[id].late.None? && !Moves(step, id)
    ensures Same(s, Next(sanitize, s, step), id)
  {
  }

  // The stored form of a new value.
  function StoredValue(body: Body, field: string): Value
    requires ValidBody(body) && field in body.changes && body.changes[field] != Null
  {
    if field == "startDate" || field == "endDate" then DateValue(body.changes[field]) else body.changes[field]
  }

  // The loop that turns the changed fields into $set and $unset.
  method BuildModifier(body: Body) returns (toSet: Project, toUnset: set<string>)
    requires ValidBody(body)
    ensures toSet == SetFields(body) && toUnset == UnsetFields(body)
  {
    toSet, toUnset := map[], {};
    var fields := body.changes.Keys;
    assert body.expected.Keys == fields;
    AllFields(body);
    hide ValidBody, StoredValue, SetFields, UnsetFields;
    while fields != {}
      invariant fields <= body.changes.Keys
      invariant toSet == SetSoFar(body, body.changes.Keys - fields)
      invariant toUnset == UnsetSoFar(body, body.changes.Keys - fields)
    {
      var field :| field in fields;
      ghost var done := body.changes.Keys - fields;
      OneMoreSet(body, done, field);
      OneMoreUnset(body, done, field);
      assert body.changes.Keys - (fields - {field}) == done + {field};
      hide SetSoFar, UnsetSoFar;
      fields := fields - {field};
      if body.expected[field] != body.changes[field] {
        if body.changes[field] == Null {
          toUnset := toUnset + if field == "description" then {"description", "desc"} else {field};
        } else {
          toSet := toSet[field := StoredValue(body, field)];
          if field == "description" {
            toSet := toSet["desc" := StoredValue(body, field)];
          }
        }
      }
    }
    assert body.changes.Keys - fields == body.changes.Keys;
  }

  ghost function SetSoFar(body: Body, done: set<string>): Project
    requires ValidBody(body) && done <= body.changes.Keys
  {
    (map f | f in done && Changed(body, f) && body.changes[f] != Null :: StoredValue(body, f))
    + (if "description" in done && Changed(body, "description") && body.changes["description"] != Null
       then map["desc" := StoredValue(body, "description")] else map[])
  }

  ghost function UnsetSoFar(body: Body, done: set<string>): set<string>
    requires ValidBody(body) && done <= body.changes.Keys
  {
    (set f | f in done && Changed(body, f) && body.changes[f] == Null)
    + (if "description" in done && Changed(body, "description") && body.changes["description"] == Null then {"desc"} else {})
  }

  lemma NoDesc(body: Body)
    requires ValidBody(body)
    ensures "desc" !in body.changes && body.changes.Keys == body.expected.Keys
  {
  }

  lemma {:induction false} OneMoreSet(body: Body, done: set<string>, field: string)
    requires ValidBody(body) && done <= body.changes.Keys && field in body.changes && field !in done
    ensures var (was, now) := (SetSoFar(body, done), SetSoFar(body, done + {field}));
      now == (if !(field in body.expected && body.expected[field] != body.changes[field]) || body.changes[field] == Null then was
              else if field == "description" then was[field := StoredValue(body, field)]["desc" := StoredValue(body, field)]
              else was[field := StoredValue(body, field)])
  {
    NoDesc(body);
    hide ValidBody, StoredValue;
  }

  lemma OneMoreUnset(body: Body, done: set<string>, field: string)
    requires ValidBody(body) && done <= body.changes.Keys && field in body.changes && field !in done
    ensures var (was, now) := (UnsetSoFar(body, done), UnsetSoFar(body, done + {field}));
      now == (if !(field in body.expected && body.expected[field] != body.changes[field]) || body.changes[field] != Null then was
              else if field == "description" then was + {"description", "desc"} else was + {field})
  {
  }

  lemma AllFields(body: Body)
    requires ValidBody(body)
    ensures SetSoFar(body, body.changes.Keys) == SetFields(body)
    ensures UnsetSoFar(body, body.changes.Keys) == UnsetFields(body)
  {
  }

  // The projects collection, as far as one project goes, reached from some start by some run.
  class ProjectStore {
    const sanitize: Value -> Value
    ghost const start: State
    ghost var history: seq<Step>
    var state: State

    ghost predicate Valid()
      reads this
    {
      Initial(start) && state == Exec(sanitize, start, history)
    }

    method Take(step: Step)
      requires Valid()
      modifies this
      ensures Valid() && state == Next(sanitize, old(state), step) && history == old(history) + [step]
    {
      state := Next(sanitize, state, step);
      history := history + [step];
      assert history[..|history| - 1] == old(history);
    }

    method Wait(steps: seq<Step>, id: nat)
      requires Valid() && id in state.editors && state.editors[id].late.None? && Around(steps, id)
      modifies this
      ensures Valid() && old(history) <= history && Same(old(state), state, id)
    {
      hide Next, Exec, Moves, Initial;
      for i := 0 to |steps|
        invariant Valid() && old(history) <= history && Same(old(state), state, id)
      {
        OthersKeep(sanitize, state, steps[i], id);
        Take(steps[i]);
      }
    }

    // Both procedures; they differ in their checks and in what they write.
    method EditProject(id: nat, administrator: bool, beforeWrite: seq<Step>) returns (outcome: Outcome)
      requires Valid() && id in state.editors && state.editors[id].phase.Reading? && state.editors[id].late.None?
      requires WellFormedEditor(state.editors[id]) && Around(beforeWrite, id)
      modifies this
      ensures Valid() && old(history) <= history
      ensures id in state.editors && state.editors[id].phase == Done(outcome)
      ensures outcome.Committed? ==> exists was: Project ::
        Validated(sanitize, was, old(state).editors[id].change)
        && Expected(sanitize, was, old(state).editors[id].change)
        && ETag(ProjectKind, RevisionOf(was)) == ETag(ProjectKind, old(state).editors[id].change.expectedRevision)
        && state.project == Some(Modify(was, old(state).editors[id].change))
        && outcome.etag == ETag(ProjectKind, RevisionOf(state.project.value))
      ensures outcome.Unchanged? ==>
        && state.project.Some? && Validated(sanitize, state.project.value, old(state).editors[id].change)
        && Expected(sanitize, state.project.value, old(state).editors[id].change)
        && !Writes(old(state).editors[id].change)
        && outcome.etag == ETag(ProjectKind, old(state).editors[id].change.expectedRevision)
        && outcome.etag == ETag(ProjectKind, RevisionOf(state.project.value))
    {
      hide Next, Exec, Moves, Initial, Validated, ETag, SnapshotMatches, Expected;
      var change := state.editors[id].change;
      var found := state.project;
      ReadStep(sanitize, state, id, administrator);
      InvOfRun();
      if change.SetArchived? { ArchiveConfirmedByRead(sanitize, state, id, administrator); }
      Take(Read(id, administrator));
      if found.None? || !administrator || !Validated(sanitize, found.value, change) {
        return Refused;
      }
      var project := found.value;
      if Writes(change) && AtLastRevision(project) {
        return Refused;
      }
      var revision := RevisionOf(project);
      if Writes(change) {
        var toSet, toUnset := map["archived" := Flag(change.SetArchived? && change.archived)], {};
        if change.EditDetails? {
          toSet, toUnset := BuildModifier(change.body);
        }
        Wait(beforeWrite, id);
        ghost var was := state.project;
        InvOfRun();
        WriteStep(sanitize, state, id);
        var matched := state.project.Some? && SnapshotMatches(state.project.value, project);
        Take(Write(id));
        if !matched {
          return Refused;
        }
        outcome := Committed(ETag(ProjectKind, Some(Incremented(project).number)));
        assert Validated(sanitize, was.value, change);
        ValidatedIff(sanitize, was.value, change);
        ExpectedTag(sanitize, was.value, change);
        BuiltModifier(was.value, change, toSet, toUnset);
      } else if change.EditDetails? {
        Wait(beforeWrite, id);
        InvOfRun();
        ConfirmStep(sanitize, state, id);
        var matched := state.project.Some? && SnapshotMatches(state.project.value, project);
        if matched {
          ValidatedIff(sanitize, state.project.value, change);
          ExpectedTag(sanitize, state.project.value, change);
        }
        Take(Confirm(id));
        outcome := if matched then Unchanged(ETag(ProjectKind, revision)) else Refused;
      } else {
        ValidatedIff(sanitize, project, change);
        ExpectedTag(sanitize, project, change);
        outcome := Unchanged(ETag(ProjectKind, revision));
      }
    }

    lemma InvOfRun()
      requires Valid()
      ensures Inv(sanitize, state)
    {
      RunKeepsInv(sanitize, start, history);
    }
  }

  // The modifier that was built is the one the machine applies.
  lemma BuiltModifier(p: Project, change: Change, toSet: Project, toUnset: set<string>)
    requires change.EditDetails? ==> ValidBody(change.body)
    requires if change.EditDetails? then toSet == SetFields(change.body) && toUnset == UnsetFields(change.body)
             else toSet == map["archived" := Flag(change.archived)] && toUnset == {}
    ensures Modify(p, change) == ((p + toSet) - toUnset)["projectRevision" := Incremented(p)]
  {
  }

  lemma ReadStep(sanitize: Value -> Value, s: State, id: nat, administrator: bool)
    requires id in s.editors && s.editors[id].phase.Reading?
    ensures var e := s.editors[id];
      var t := Next(sanitize, s, Read(id, administrator));
      id in t.editors && t.editors[id] == e.(phase :=
        if s.project.None? || !administrator || !Validated(sanitize, s.project.value, e.change)
           || (Writes(e.change) && AtLastRevision(s.project.value)) then Done(Refused)
        else if Writes(e.change) then Writing(s.project.value)
        else if e.change.EditDetails? then Confirming(s.project.value)
        else Done(Unchanged(ETag(ProjectKind, RevisionOf(s.project.value)))))
  {
  }

  lemma {:induction false} WriteStep(sanitize: Value -> Value, s: State, id: nat)
    requires id in s.editors && s.editors[id].phase.Writing? && EditorInv(sanitize, s.editors[id])
    ensures var e := s.editors[id];
      var matched := s.project.Some? && SnapshotMatches(s.project.value, e.phase.snapshot);
      var t := Next(sanitize, s, Write(id));
      && id in t.editors
      && t.editors[id].phase ==
           Done(if matched then Committed(ETag(ProjectKind, Some(Incremented(e.phase.snapshot).number))) else Refused)
      && (matched ==>
            && Validated(sanitize, s.project.value, e.change)
            && t.project == Some(Modify(s.project.value, e.change))
            && ETag(ProjectKind, RevisionOf(t.project.value)) == ETag(ProjectKind, Some(Incremented(e.phase.snapshot).number)))
  {
    WriteCommits(sanitize, s, id);
    hide Validated, ETag, SnapshotMatches, Modify;
  }

  lemma {:induction false} ConfirmStep(sanitize: Value -> Value, s: State, id: nat)
    requires id in s.editors && s.editors[id].phase.Confirming? && EditorInv(sanitize, s.editors[id])
    ensures var e := s.editors[id];
      var matched := s.project.Some? && SnapshotMatches(s.project.value, e.phase.snapshot);
      var t := Next(sanitize, s, Confirm(id));
      && id in t.editors && t.project == s.project
      && t.editors[id].phase ==
           Done(if matched then Unchanged(ETag(ProjectKind, RevisionOf(e.phase.snapshot))) else Refused)
      && (matched ==>
            && Validated(sanitize, s.project.value, e.change)
            && ETag(ProjectKind, RevisionOf(e.phase.snapshot)) == ETag(ProjectKind, RevisionOf(s.project.value)))
  {
    ConfirmConfirms(sanitize, s, id);
    hide Validated, ETag, SnapshotMatches;
  }
}
