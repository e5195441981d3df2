// The procedures of imports/api/projects/server/projectChildFence.js as they are written, with their
// flags and finally blocks, over a store that other processes change between any two operations.
// Each is proved to take the steps of the state machine in ProjectChildFence and to end as it does.
module ProjectFenceProcedures {
  import opened Options
  import opened ProjectChildFence
  import opened ProjectChildFenceProofs
  import opened ProjectChildFenceAnswers

  // How the child operation passed in ends.
  datatype Operation = Completes(created: Option<ChildId>) | ThrowsNoWrite | ThrowsUnknown

  // Steps that move the creator with this number on; its own child writes do not.
  predicate MovesCreator(step: Step, id: nat) {
    match step
    case Acquire(i, _) => i == id
    case OperationReturned(i, _) => i == id
    case OperationThrew(i, _) => i == id
    case Verify(i) => i == id
    case RemoveCreated(i) => i == id
    case Release(i) => i == id
    case LoseCreator(i) => i == id
    case _ => false
  }

  predicate MovesDeleter(step: Step, id: nat) {
    match step
    case Lock(i, _) => i == id
    case CountTimecards(i) => i == id
    case CountTasks(i) => i == id
    case Delete(i) => i == id
    case Unlock(i) => i == id
    case LoseDeleter(i) => i == id
    case _ => false
  }

  // What everybody else does while a creator waits. The process of the creator keeps running.
  predicate AroundCreator(steps: seq<Step>, id: nat) {
    forall step <- steps :: !MovesCreator(step, id) && !step.Restart? && !step.LateWrite?
  }

  predicate AroundDeleter(steps: seq<Step>, id: nat) {
    forall step <- steps :: !MovesDeleter(step, id) && !step.Restart? && !step.LateWrite?
  }

  ghost predicate SameCreator(s: State, t: State, id: nat) {
    id in s.creators && id in t.creators && t.creators[id] == s.creators[id] && t.boot == s.boot
  }

  ghost predicate SameDeleter(s: State, t: State, id: nat) {
    id in s.deleters && id in t.deleters && t.deleters[id] == s.deleters[id] && t.boot == s.boot
  }

  // A creator's step moves its own record, or lands an operation that it gave up.
  ghost predicate CreatorStep(s: State, t: State, step: Step) {
    && t.deleters == s.deleters && t.boot == s.boot
    && forall i <- s.creators :: i in t.creators &&
         (t.creators[i] == s.creators[i] || MovesCreator(step, i) || !s.creators[i].pending.NoOp?)
  }

  lemma AcquireKeepsOthers(s: State, step: Step)
    requires step.Acquire?
    ensures CreatorStep(s, NextCreator(s, step), step)
  {
  }

  lemma CheckKeepsOthers(s: State, step: Step)
    requires step.Verify? || step.Release?
    ensures CreatorStep(s, NextCreator(s, step), step)
  {
  }

  lemma MoveKeepsOthers(s: State, step: Step)
    requires step.OperationReturned? || step.OperationThrew? || step.RemoveCreated? || step.LoseCreator?
    ensures CreatorStep(s, NextCreator(s, step), step)
  {
  }

  lemma LandKeepsOthers(s: State, step: Step)
    requires step.LandCreator?
    ensures CreatorStep(s, NextCreator(s, step), step)
  {
    var (id, visible, child) := (step.id, step.visible, step.child);
    if id in s.creators { LandsAlone(s, id, visible, child); }
    hide LandCreatorOp;
  }

  lemma LandsAlone(s: State, id: nat, visible: bool, child: ChildId)
    requires id in s.creators
    ensures var t := LandCreatorOp(s, id, s.creators[id], visible, child);
      && t.deleters == s.deleters && t.boot == s.boot && (s.creators[id].pending.NoOp? ==> t == s)
      && forall i <- s.creators :: i in t.creators && (i == id || t.creators[i] == s.creators[i])
  {
    hide AcquireMatches, AcquireUpdate, ReleaseMatches, ReleaseUpdate, Protected;
  }

  lemma StartKeepsOthers(s: State, step: Step)
    requires step.StartCreator? || step.Write? || step.LateWrite?
    ensures CreatorStep(s, NextCreator(s, step), step)
  {
  }

  lemma {:induction false} CreatorsKeep(s: State, step: Step)
    ensures CreatorStep(s, NextCreator(s, step), step)
  {
    if step.Acquire? {
      AcquireKeepsOthers(s, step);
    } else if step.Verify? || step.Release? {
      CheckKeepsOthers(s, step);
    } else if step.OperationReturned? || step.OperationThrew? || step.RemoveCreated? || step.LoseCreator? {
      MoveKeepsOthers(s, step);
    } else if step.LandCreator? {
      LandKeepsOthers(s, step);
    } else if step.StartCreator? || step.Write? || step.LateWrite? {
      StartKeepsOthers(s, step);
    } else {
      assert NextCreator(s, step) == s;
    }
    hide NextCreator;
  }

  ghost predicate DeleterStep(s: State, t: State, step: Step) {
    && t.creators == s.creators && t.boot == s.boot
    && forall i <- s.deleters :: i in t.deleters &&
         (t.deleters[i] == s.deleters[i] || MovesDeleter(step, i) || !s.deleters[i].pending.NoDelete?)
  }

  lemma LockKeepsOthers(s: State, step: Step)
    requires step.Lock? || step.LandDeleter?
    ensures DeleterStep(s, NextDeleter(s, step), step)
  {
    hide LockMatches;
  }

  lemma CountKeepsOthers(s: State, step: Step)
    requires step.CountTimecards? || step.CountTasks? || step.StartDeleter? || step.LoseDeleter?
    ensures DeleterStep(s, NextDeleter(s, step), step)
  {
  }

  lemma DeleteKeepsOthers(s: State, step: Step)
    requires step.Delete? || step.Unlock?
    ensures DeleterStep(s, NextDeleter(s, step), step)
  {
  }

  lemma DeletersKeep(s: State, step: Step)
    ensures DeleterStep(s, NextDeleter(s, step), step)
  {
    if step.Lock? || step.LandDeleter? {
      LockKeepsOthers(s, step);
    } else if step.CountTimecards? || step.CountTasks? || step.StartDeleter? || step.LoseDeleter? {
      CountKeepsOthers(s, step);
    } else if step.Delete? || step.Unlock? {
      DeleteKeepsOthers(s, step);
    } else {
      assert NextDeleter(s, step) == s;
    }
    hide NextDeleter;
  }

  lemma RecoverersKeep(s: State, step: Step)
    ensures var t := NextRecoverer(s, step);
      t.creators == s.creators && t.deleters == s.deleters && t.boot == s.boot
  {
  }

  lemma EnvironmentKeeps(s: State, step: Step)
    requires !step.Restart?
    ensures var t := NextEnvironment(s, step);
      t.creators == s.creators && t.deleters == s.deleters && t.boot == s.boot
  {
  }

  lemma {:induction false} OthersKeepCreator(s: State, step: Step, id: nat)
    requires id in s.creators && s.creators[id].pending.NoOp? && !MovesCreator(step, id) && !step.Restart?
    ensures SameCreator(s, Next(s, step), id)
  {
    CreatorsKeep(s, step);
    DeletersKeep(s, step);
    RecoverersKeep(s, step);
    EnvironmentKeeps(s, step);
    hide NextCreator, NextDeleter, NextRecoverer, NextEnvironment;
  }

  lemma {:induction false} OthersKeepDeleter(s: State, step: Step, id: nat)
    requires id in s.deleters && s.deleters[id].pending.NoDelete? && !MovesDeleter(step, id) && !step.Restart?
    ensures SameDeleter(s, Next(s, step), id)
  {
    CreatorsKeep(s, step);
    DeletersKeep(s, step);
    RecoverersKeep(s, step);
    EnvironmentKeeps(s, step);
    hide NextCreator, NextDeleter, NextRecoverer, NextEnvironment;
  }

  // The projects collection and the processes around it, reached from some start by some run.
  class Store {
    ghost const start: State
    ghost var history: seq<Step>
    var state: State

    ghost predicate Valid()
      reads this
    {
      Initial(start) && Disciplined(history) && state == Exec(start, history)
    }

    // One atomic store operation, or one stretch of code between two.
    method Take(step: Step)
      requires Valid() && !step.LateWrite?
      modifies this
      ensures Valid() && state == Next(old(state), step) && history == old(history) + [step]
    {
      state := Next(state, step);
      history := history + [step];
      assert history[..|history| - 1] == old(history);
    }

    method WaitAsCreator(steps: seq<Step>, id: nat)
      requires Valid() && AroundCreator(steps, id)
      requires id in state.creators && state.creators[id].pending.NoOp?
      modifies this
      ensures Valid() && old(history) <= history
      ensures SameCreator(old(state), state, id)
    {
      hide Next, Exec, MovesCreator;
      for i := 0 to |steps|
        invariant Valid() && old(history) <= history
        invariant SameCreator(old(state), state, id)
      {
        OthersKeepCreator(state, steps[i], id);
        Take(steps[i]);
      }
    }

    method WaitAsDeleter(steps: seq<Step>, id: nat)
      requires Valid() && AroundDeleter(steps, id)
      requires id in state.deleters && state.deleters[id].pending.NoDelete?
      modifies this
      ensures Valid() && old(history) <= history
      ensures SameDeleter(old(state), state, id) && old(state).retired <= state.retired
    {
      hide Next, Exec, MovesDeleter;
      for i := 0 to |steps|
        invariant Valid() && old(history) <= history
        invariant SameDeleter(old(state), state, id) && old(state).retired <= state.retired
      {
        OthersKeepDeleter(state, steps[i], id);
        RetiredStay(state, steps[i]);
        Take(steps[i]);
      }
    }

    // Wherever a procedure has got to, no child is without its project.
    lemma NoOrphan()
      requires Valid()
      ensures forall child <- state.children :: state.children[child] in state.projects
    {
      NoOrphanInAnyRun(start, history);
    }

    // A project that was deleted stays away, and so do its children.
    lemma StaysDeleted(project: string)
      requires Valid() && project in state.retired
      ensures project !in state.projects && forall child <- state.children :: state.children[child] != project
    {
      RunKeepsInv(start, history);
    }

    // acquireProjectChildWriter
    method AcquireProjectChildWriter(id: nat, visible: bool) returns (acquired: bool)
      requires Valid() && LiveCreator(state, id) && state.creators[id].phase.Acquiring?
      modifies this
      ensures Valid() && state == Next(old(state), Acquire(id, visible)) && history == old(history) + [Acquire(id, visible)]
      ensures state.boot == old(state).boot && id in state.creators
      ensures state.creators[id] ==
        old(state).creators[id].(phase := if acquired then Operating else CreatorDone(WriteBlocked))
      ensures var k := old(state).creators[id];
        && (acquired <==>
              && k.project in old(state).projects && visible
              && old(state).projects[k.project].lock == None && !old(state).projects[k.project].graphLock
              && k.meta.reservationId !in old(state).projects[k.project].writers
              && |old(state).projects[k.project].metadata| < 64)
        && state.projects == if !acquired then old(state).projects else
             old(state).projects[k.project := Appended(old(state).projects[k.project], k.meta)]
    {
      AcquireIff(start, history, id, visible);
      var k := state.creators[id];
      acquired := false;
      if k.project in state.projects && visible && AcquireMatches(state.projects[k.project], k.meta.reservationId) {
        var after := AcquireUpdate(state.projects[k.project], k.meta);
        var tracked := Tracked(after.metadata, k.meta.reservationId);
        acquired := k.meta.reservationId in after.writers && |tracked| == 1 && tracked[0].bootId == k.meta.bootId;
      }
      Take(Acquire(id, visible));
    }

    // verifyProjectChildWriter
    method VerifyProjectChildWriter(id: nat) returns (verified: bool)
      requires Valid() && LiveCreator(state, id) && state.creators[id].phase.Verifying?
      modifies this
      ensures Valid() && state == Next(old(state), Verify(id)) && history == old(history) + [Verify(id)]
      ensures state.boot == old(state).boot && id in state.creators
      ensures var k := old(state).creators[id];
        state.creators[id] == k.(phase :=
          if verified then Releasing(true, Returned)
          else if k.mode == Run then CreatorDone(OutcomeUnknown)
          else if k.phase.created.Some? then Removing(k.phase.created.value)
          else Releasing(false, WriteBlocked))
    {
      var k := state.creators[id];
      verified := k.project in state.projects && VerifyMatches(state.projects[k.project], k.meta);
      Take(Verify(id));
    }

    // releaseProjectChildWriter, whose result is thrown away unless a match is required.
    method ReleaseProjectChildWriter(id: nat) returns (released: bool)
      requires Valid() && LiveCreator(state, id) && state.creators[id].phase.Releasing?
      modifies this
      ensures Valid() && state == Next(old(state), Release(id)) && history == old(history) + [Release(id)]
      ensures var k := old(state).creators[id];
        id in state.creators && state.creators[id].phase == CreatorDone(
          if k.phase.mustMatch && !released then OutcomeUnknown else k.phase.result)
    {
      var k := state.creators[id];
      released := k.project in state.projects && ReleaseMatches(state.projects[k.project], k.meta);
      Take(Release(id));
    }

    // createProjectChildWithFence (mode Create) and runWithProjectChildWriter (mode Run), with others
    // acting before the acquisition, during the operation, before the verification, before a removal
    // and before the release.
    method WithProjectChildWriter(
      id: nat, mode: CreatorMode, project: string, reservationId: string, kind: WriterKind, resourceId: string,
      clock: int, visible: bool, operation: Operation, others: seq<seq<Step>>) returns (result: CreatorResult)
      requires Valid() && id !in state.creators
      requires |others| == 5 && forall steps <- others :: AroundCreator(steps, id)
      requires ValidMetadata(Metadata(reservationId, kind, resourceId, clock, state.boot))
      modifies this
      ensures Valid() && old(history) <= history
      ensures id in state.creators && state.creators[id].phase == CreatorDone(result)
      ensures forall child <- state.children :: state.children[child] in state.projects
    {
      hide Next, Exec, Disciplined, Initial, ValidMetadata, MovesCreator;
      Starts(state, id, mode, project, reservationId, kind, resourceId, clock);
      Take(StartCreator(id, mode, project, reservationId, kind, resourceId, clock));
      WaitAsCreator(others[0], id);
      var acquired := AcquireProjectChildWriter(id, visible);
      if !acquired {
        NoOrphan();
        return WriteBlocked;
      }
      var releaseReservation, releaseMustMatch;
      result, releaseReservation, releaseMustMatch := Attempt(id, operation, others[1], others[2], others[3]);
      // finally
      if releaseReservation {
        WaitAsCreator(others[4], id);
        var released := ReleaseProjectChildWriter(id);
        if releaseMustMatch && !released {
          result := OutcomeUnknown;
        }
      }
      NoOrphan();
    }

    // The body of the try block: the operation, the verification and the compensation.
    method Attempt(id: nat, operation: Operation, during: seq<Step>, beforeVerify: seq<Step>, beforeRemove: seq<Step>)
      returns (result: CreatorResult, releaseReservation: bool, releaseMustMatch: bool)
      requires Valid() && LiveCreator(state, id) && state.creators[id].phase.Operating? && state.creators[id].pending.NoOp?
      requires AroundCreator(during, id) && AroundCreator(beforeVerify, id) && AroundCreator(beforeRemove, id)
      modifies this
      ensures Valid() && old(history) <= history && id in state.creators
      ensures var k := state.creators[id];
        if releaseReservation then
          LiveCreator(state, id) && k.pending.NoOp? && k.phase == Releasing(releaseMustMatch, result)
        else
          k.phase == CreatorDone(result)
    {
      hide Next, Exec, Disciplined, Initial, MovesCreator;
      releaseReservation, releaseMustMatch := false, true;
      WaitAsCreator(during, id);
      Ends(state, id, operation);
      match operation {
        case ThrowsNoWrite =>
          Take(OperationThrew(id, true));
          releaseReservation := true;
          result := NoWrite;
        case ThrowsUnknown =>
          Take(OperationThrew(id, false));
          result := Threw;
        case Completes(created) =>
          Take(OperationReturned(id, created));
          WaitAsCreator(beforeVerify, id);
          var mode := state.creators[id].mode;
          var verified := VerifyProjectChildWriter(id);
          if verified {
            releaseReservation := true;
            result := Returned;
          } else if mode == Run {
            result := OutcomeUnknown;
          } else {
            if created.Some? {
              WaitAsCreator(beforeRemove, id);
              Removes(state, id);
              Take(RemoveCreated(id));
            }
            releaseReservation := true;
            releaseMustMatch := false;
            result := WriteBlocked;
          }
      }
    }

    // deleteEmptyProjectWithFence, with others acting before every operation.
    method DeleteEmptyProjectWithFence(
      id: nat, project: string, lockId: string, visible: bool, countThrows: bool, deleteThrows: bool,
      tasksFirst: bool, others: seq<seq<Step>>) returns (result: DeleteResult)
      requires Valid() && id !in state.deleters && ValidFenceId(lockId)
      requires |others| == 5 && forall steps <- others :: AroundDeleter(steps, id)
      modifies this
      ensures Valid() && old(history) <= history
      ensures id in state.deleters && state.deleters[id].phase == DeleterDone(result)
      ensures forall child <- state.children :: state.children[child] in state.projects
      ensures result.Deleted? ==> project !in state.projects && forall child <- state.children :: state.children[child] != project
    {
      hide Next, Exec, Disciplined, Initial, MovesDeleter, AroundDeleter, LockMatches, ValidFenceId;
      DeleterStarts(state, id, project, lockId);
      Take(StartDeleter(id, project, lockId));
      WaitAsDeleter(others[0], id);
      var locked := project in state.projects && visible && LockMatches(state.projects[project]);
      DeleterLocks(state, id, visible);
      Take(Lock(id, visible));
      if !locked {
        NoOrphan();
        return DeleteConflict;
      }
      WaitAsDeleter(others[1], id);
      if countThrows {
        DeleterLost(state, id);
        Take(LoseDeleter(id));
        NoOrphan();
        return DeleteThrew;
      }
      var empty := CountChildren(id, tasksFirst, others[2]);
      var keepLock := false;
      WaitAsDeleter(others[3], id);
      DeleterLost(state, id);
      if !empty {
        result := NotEmpty;
      } else if deleteThrows {
        Take(LoseDeleter(id));
        keepLock := true;
        result := DeleteThrew;
      } else {
        var removed := project in state.projects && state.projects[project].lock == Some(lockId);
        DeleterDeletes(state, id);
        Take(Delete(id));
        if removed {
          result := Deleted;
        } else {
          keepLock := true;
          result := DeleteConflict;
        }
      }
      // finally
      if !keepLock {
        WaitAsDeleter(others[4], id);
        DeleterUnlocks(state, id);
        Take(Unlock(id));
      }
      NoOrphan();
      if result.Deleted? { StaysDeleted(project); }
    }

    // The two counts run at once and may finish in either order.
    method CountChildren(id: nat, tasksFirst: bool, others: seq<Step>) returns (empty: bool)
      requires Valid() && LiveDeleter(state, id) && state.deleters[id].phase == Counting(None, None)
      requires state.deleters[id].pending.NoDelete? && AroundDeleter(others, id)
      modifies this
      ensures Valid() && old(history) <= history && state.boot == old(state).boot && id in state.deleters
      ensures state.deleters[id] ==
        old(state).deleters[id].(phase := if empty then Deleting else Unlocking(NotEmpty))
    {
      hide Next, Exec, Disciplined, Initial, MovesDeleter, Count;
      var project := state.deleters[id].project;
      var timecards, tasks;
      if tasksFirst {
        tasks := Count(state, project, Task);
        DeleterCounts(state, id);
        Take(CountTasks(id));
        WaitAsDeleter(others, id);
        timecards := Count(state, project, Timecard);
        DeleterCounts(state, id);
        Take(CountTimecards(id));
      } else {
        timecards := Count(state, project, Timecard);
        DeleterCounts(state, id);
        Take(CountTimecards(id));
        WaitAsDeleter(others, id);
        tasks := Count(state, project, Task);
        DeleterCounts(state, id);
        Take(CountTasks(id));
      }
      empty := timecards == 0 && tasks == 0;
    }
  }

  ghost predicate Moved(s: State, t: State, id: nat, phase: DeleterPhase) {
    id in s.deleters && id in t.deleters && t.boot == s.boot && t.deleters[id] == s.deleters[id].(phase := phase)
  }

  lemma RetiredStay(s: State, step: Step)
    ensures s.retired <= Next(s, step).retired
  {
    CreatorsRetire(s, step);
    OthersRetire(s, step);
    hide NextCreator, NextRecoverer, NextEnvironment;
  }

  lemma CreatorsRetire(s: State, step: Step)
    ensures NextCreator(s, step).retired == s.retired
  {
    hide AcquireMatches, AcquireUpdate, AcquireConfirmed, ReleaseMatches, ReleaseUpdate, VerifyMatches, Protected,
      ValidMetadata;
  }

  lemma OthersRetire(s: State, step: Step)
    ensures NextRecoverer(s, step).retired == s.retired && NextEnvironment(s, step).retired == s.retired
  {
    hide ClearMatches, Analyze, ReleaseUpdate;
  }

  lemma DeleterStarts(s: State, id: nat, project: string, lockId: string)
    requires id !in s.deleters && ValidFenceId(lockId)
    ensures var t := Next(s, StartDeleter(id, project, lockId));
      id in t.deleters && t.boot == s.boot && t.deleters[id] == Deleter(project, lockId, s.boot, Locking, NoDelete)
  {
  }

  lemma DeleterLocks(s: State, id: nat, visible: bool)
    requires LiveDeleter(s, id) && s.deleters[id].phase.Locking?
    ensures var project := s.deleters[id].project;
      var locked := project in s.projects && visible && LockMatches(s.projects[project]);
      Moved(s, Next(s, Lock(id, visible)), id, if locked then Counting(None, None) else DeleterDone(DeleteConflict))
  {
  }

  lemma DeleterCounts(s: State, id: nat)
    requires LiveDeleter(s, id) && s.deleters[id].phase.Counting?
    ensures var d := s.deleters[id];
      && Moved(s, Next(s, CountTimecards(id)), id,
               AfterCounts(d.phase.(timecards := Some(Count(s, d.project, Timecard)))))
      && Moved(s, Next(s, CountTasks(id)), id, AfterCounts(d.phase.(tasks := Some(Count(s, d.project, Task)))))
  {
  }

  lemma DeleterLost(s: State, id: nat)
    requires id in s.deleters && !s.deleters[id].phase.DeleterDone?
    ensures var t := Next(s, LoseDeleter(id));
      id in t.deleters && t.deleters[id].phase == DeleterDone(DeleteThrew)
  {
  }

  lemma DeleterDeletes(s: State, id: nat)
    requires LiveDeleter(s, id) && s.deleters[id].phase.Deleting?
    ensures var d := s.deleters[id];
      var removed := d.project in s.projects && s.projects[d.project].lock == Some(d.lockId);
      Moved(s, Next(s, Delete(id)), id, if removed then Unlocking(Deleted) else DeleterDone(DeleteConflict))
    ensures var d := s.deleters[id];
      d.project in s.projects && s.projects[d.project].lock == Some(d.lockId) ==> d.project in Next(s, Delete(id)).retired
  {
  }

  lemma DeleterUnlocks(s: State, id: nat)
    requires LiveDeleter(s, id) && s.deleters[id].phase.Unlocking?
    ensures Moved(s, Next(s, Unlock(id)), id, DeleterDone(s.deleters[id].phase.result))
    ensures Next(s, Unlock(id)).retired == s.retired
  {
  }

  lemma Starts(s: State, id: nat, mode: CreatorMode, project: string, reservationId: string, kind: WriterKind,
               resourceId: string, clock: int)
    requires id !in s.creators && ValidMetadata(Metadata(reservationId, kind, resourceId, clock, s.boot))
    ensures var t := Next(s, StartCreator(id, mode, project, reservationId, kind, resourceId, clock));
      && id in t.creators && t.boot == s.boot
      && t.creators[id] == Creator(mode, project, Metadata(reservationId, kind, resourceId, clock, s.boot), Acquiring, NoOp)
  {
  }

  lemma Ends(s: State, id: nat, operation: Operation)
    requires LiveCreator(s, id) && s.creators[id].phase.Operating?
    ensures var t := Next(s, OperationThrew(id, true));
      id in t.creators && t.boot == s.boot && t.creators[id] == s.creators[id].(phase := Releasing(true, NoWrite))
    ensures var t := Next(s, OperationThrew(id, false));
      id in t.creators && t.creators[id].phase == CreatorDone(Threw)
    ensures operation.Completes? ==>
      var t := Next(s, OperationReturned(id, operation.created));
      id in t.creators && t.boot == s.boot && t.creators[id] == s.creators[id].(phase := Verifying(operation.created))
  {
  }

  lemma Removes(s: State, id: nat)
    requires LiveCreator(s, id) && s.creators[id].phase.Removing?
    ensures var t := Next(s, RemoveCreated(id));
      id in t.creators && t.boot == s.boot && t.creators[id] == s.creators[id].(phase := Releasing(false, WriteBlocked))
  {
  }
}
