// What the fence answers in every reachable state: exactly when a reservation, a lock, a delete and a
// recovery succeed, what each of them stores, and that an undisturbed call gets through.
module ProjectChildFenceAnswers {
  import opened Options
  import opened ProjectChildFence
  import opened ProjectChildFenceProofs

  // ---------------------------------------------------------------- identifiers

  const UPPER := "ABCDEFGHIJKLMNOPQRSTUVWXYZ"
  const LOWER := "abcdefghijklmnopqrstuvwxyz"
  const OTHERS := "0123456789._:-"

  lemma {:induction false} UpperIff(c: char)
    ensures c in UPPER <==> 'A' <= c <= 'Z'
  {
    if 'A' <= c <= 'Z' { assert UPPER[c as int - 'A' as int] == c; }
  }

  lemma {:induction false} LowerIff(c: char)
    ensures c in LOWER <==> 'a' <= c <= 'z'
  {
    if 'a' <= c <= 'z' { assert LOWER[c as int - 'a' as int] == c; }
  }

  lemma {:induction false} OthersIff(c: char)
    ensures c in OTHERS <==> '0' <= c <= '9' || c == '.' || c == '_' || c == ':' || c == '-'
  {
    if '0' <= c <= '9' { assert OTHERS[c as int - '0' as int] == c; }
    assert OTHERS[10] == '.' && OTHERS[11] == '_' && OTHERS[12] == ':' && OTHERS[13] == '-';
  }

  ghost predicate Spelled(value: string) {
    forall c <- value :: c in UPPER || c in LOWER || c in OTHERS
  }

  // Creators, deletes and recoveries begin exactly with identifiers of 8 to 128 of these characters; a
  // resource may have a shorter one.
  lemma {:induction false} BeginsIff(s: State, id: nat, mode: CreatorMode, project: string, m: Metadata, value: string)
    ensures id !in s.creators ==>
      (id in Next(s, StartCreator(id, mode, project, m.reservationId, m.kind, m.resourceId, m.acquiredAt)).creators <==>
         && 8 <= |m.reservationId| <= 128 && Spelled(m.reservationId)
         && 1 <= |m.resourceId| <= 128 && Spelled(m.resourceId))
    ensures id !in s.deleters ==>
      (id in Next(s, StartDeleter(id, project, value)).deleters <==> 8 <= |value| <= 128 && Spelled(value))
    ensures id !in s.recoverers ==>
      (id in Next(s, StartRecoverer(id, project, value, true)).recoverers <==> 8 <= |value| <= 128 && Spelled(value))
  {
    ValidIff(m.reservationId);
    ValidIff(m.resourceId);
    ValidIff(value);
    hide ValidFenceId, ValidResourceId, Spelled;
  }

  lemma {:induction false} ValidIff(value: string)
    ensures ValidFenceId(value) <==> 8 <= |value| <= 128 && Spelled(value)
    ensures ValidResourceId(value) <==> 1 <= |value| <= 128 && Spelled(value)
  {
    forall c: char ensures FenceChar(c) <==> c in UPPER || c in LOWER || c in OTHERS 
    {
      UpperIff(c);
      LowerIff(c);
      OthersIff(c);
    }
    hide FenceChar;
    if Spelled(value) {
      assert forall i :: 0 <= i < |value| ==> value[i] in value;
    }
  }

  // ---------------------------------------------------------------- creators

  // Nothing stands in the way of one more reservation with this id.
  predicate Admits(s: State, project: string, id: string, visible: bool) {
    && project in s.projects && visible
    && s.projects[project].lock == None && !s.projects[project].graphLock
    && id !in s.projects[project].writers && |s.projects[project].metadata| < 64
  }

  function Appended(p: Project, m: Metadata): Project {
    Project(p.lock, p.graphLock, p.writers + [m.reservationId], p.metadata + [m])
  }

  // A creator gets its reservation exactly when the project is there for it, carries no lock, does not
  // list its id and holds fewer than 64 reservations; then its entry is appended to both lists.
  lemma {:induction false} AcquireIff(s0: State, steps: seq<Step>, id: nat, visible: bool)
    requires Initial(s0) && Disciplined(steps)
    requires LiveCreator(Exec(s0, steps), id) && Exec(s0, steps).creators[id].phase.Acquiring?
    ensures var s := Exec(s0, steps);
      AcquireAnswer(s, Next(s, Acquire(id, visible)), id, visible)
  {
    RunKeepsInv(s0, steps);
    AcquireStep(Exec(s0, steps), id, visible);
  }

  ghost predicate AcquireAnswer(s: State, t: State, id: nat, visible: bool)
    requires id in s.creators
  {
    var k := s.creators[id];
    if Admits(s, k.project, k.meta.reservationId, visible) then
      t == s.(creators := s.creators[id := k.(phase := Operating)],
              projects := s.projects[k.project := Appended(s.projects[k.project], k.meta)])
    else
      t == s.(creators := s.creators[id := k.(phase := CreatorDone(WriteBlocked))])
  }

  lemma {:induction false} AcquireStep(s: State, id: nat, visible: bool)
    requires Inv(s) && LiveCreator(s, id) && s.creators[id].phase.Acquiring?
    ensures AcquireAnswer(s, Next(s, Acquire(id, visible)), id, visible)
  {
    var k := s.creators[id];
    if k.project in s.projects {
      assert ProjectInv(s.projects[k.project], s.boot);
      assert CreatorInv(s, k);
      if AcquireMatches(s.projects[k.project], k.meta.reservationId) {
        AcquireUpdateKeeps(s.projects[k.project], k.meta, s.boot);
      }
    }
    hide Inv, AcquireConfirmed, ProjectInv, CreatorInv;
  }

  // A creator that starts in any reachable state and is left alone gets exactly one of two answers: it
  // is admitted, its child is stored, and the fence is as before; or it is blocked and nothing changes.
  lemma {:induction false} UndisturbedCreate(s0: State, steps: seq<Step>, id: nat, mode: CreatorMode, project: string,
                                             m: Metadata, visible: bool, child: ChildId)
    requires Initial(s0) && Disciplined(steps)
    requires var s := Exec(s0, steps); id !in s.creators && m.bootId == s.boot && ValidMetadata(m)
    ensures var s := Exec(s0, steps);
      var t := CreateAlone(s, id, mode, project, m, visible, child);
      && t.creators.Keys == s.creators.Keys + {id} && t.projects == s.projects
      && if Admits(s, project, m.reservationId, visible)
         then t.creators[id].phase == CreatorDone(Returned) && t.children == s.children[child := project]
         else t.creators[id].phase == CreatorDone(WriteBlocked) && t.children == s.children
  {
    RunKeepsInv(s0, steps);
    CreatesAlone(Exec(s0, steps), id, mode, project, m, visible, child);
  }

  // The steps of one creator with nothing in between.
  function CreateAlone(s: State, id: nat, mode: CreatorMode, project: string, m: Metadata, visible: bool,
                       child: ChildId): State {
    var s1 := Next(s, StartCreator(id, mode, project, m.reservationId, m.kind, m.resourceId, m.acquiredAt));
    var s2 := Next(s1, Acquire(id, visible));
    var s3 := Next(s2, Write(id, child));
    var s4 := Next(s3, OperationReturned(id, Some(child)));
    var s5 := Next(s4, Verify(id));
    Next(s5, Release(id))
  }

  lemma {:induction false} CreatesAlone(s: State, id: nat, mode: CreatorMode, project: string, m: Metadata,
                                        visible: bool, child: ChildId)
    requires Inv(s) && id !in s.creators && m.bootId == s.boot && ValidMetadata(m)
    ensures var t := CreateAlone(s, id, mode, project, m, visible, child);
      && t.creators.Keys == s.creators.Keys + {id} && t.projects == s.projects
      && if Admits(s, project, m.reservationId, visible)
         then t.creators[id].phase == CreatorDone(Returned) && t.children == s.children[child := project]
         else t.creators[id].phase == CreatorDone(WriteBlocked) && t.children == s.children
  {
    var k := Creator(mode, project, m, Acquiring, NoOp);
    BeginsAndAcquires(s, id, k, visible);
    hide Inv, Next, Appended, ValidMetadata;
    if Admits(s, project, m.reservationId, visible) {
      GetsThrough(s, id, k, child);
    } else {
      BlockedStays(SetCreator(s, id, k.(phase := CreatorDone(WriteBlocked))), id, child);
    }
  }

  lemma {:induction false} BeginsAndAcquires(s: State, id: nat, k: Creator, visible: bool)
    requires Inv(s) && id !in s.creators && k.meta.bootId == s.boot && ValidMetadata(k.meta) && k.phase == Acquiring && k.pending == NoOp
    ensures var start := StartCreator(id, k.mode, k.project, k.meta.reservationId, k.meta.kind, k.meta.resourceId, k.meta.acquiredAt);
      Next(Next(s, start), Acquire(id, visible)) ==
        if Admits(s, k.project, k.meta.reservationId, visible)
        then WithCreator(s, k.(phase := Operating), id, Appended(s.projects[k.project], k.meta), s.children)
        else SetCreator(s, id, k.(phase := CreatorDone(WriteBlocked)))
  {
    var start := StartCreator(id, k.mode, k.project, k.meta.reservationId, k.meta.kind, k.meta.resourceId, k.meta.acquiredAt);
    hide Inv, Next, Appended, ValidMetadata, AcquireMatches, AcquireUpdate, Exec;
    Begins(s, id, k, start);
    StepKeeps(s, start);
    AcquireStep(SetCreator(s, id, k), id, visible);
    assert s.creators[id := k][id := k.(phase := Operating)] == s.creators[id := k.(phase := Operating)];
  }

  lemma Begins(s: State, id: nat, k: Creator, start: Step)
    requires id !in s.creators && k.meta.bootId == s.boot && ValidMetadata(k.meta) && k.phase == Acquiring && k.pending == NoOp
    requires start == StartCreator(id, k.mode, k.project, k.meta.reservationId, k.meta.kind, k.meta.resourceId, k.meta.acquiredAt)
    ensures Next(s, start) == SetCreator(s, id, k)
  {
  }

  lemma BlockedStays(s: State, id: nat, child: ChildId)
    requires id in s.creators && s.creators[id].phase.CreatorDone?
    ensures Next(s, Write(id, child)) == s && Next(s, OperationReturned(id, Some(child))) == s
    ensures Next(s, Verify(id)) == s && Next(s, Release(id)) == s
  {
  }

  // The state with one creator, its project and the children replaced.
  function WithCreator(s: State, k: Creator, id: nat, p: Project, children: map<ChildId, string>): State {
    s.(creators := s.creators[id := k], projects := s.projects[k.project := p], children := children)
  }

  lemma {:induction false} GetsThrough(s: State, id: nat, k: Creator, child: ChildId)
    requires Inv(s) && k.meta.bootId == s.boot && k.project in s.projects && s.projects[k.project].lock == None
    requires k.meta.reservationId !in s.projects[k.project].writers && id !in s.creators
    ensures var s2 := WithCreator(s, k.(phase := Operating), id, Appended(s.projects[k.project], k.meta), s.children);
      var s4 := Next(Next(s2, Write(id, child)), OperationReturned(id, Some(child)));
      Next(Next(s4, Verify(id)), Release(id)) ==
        s.(creators := s.creators[id := k.(phase := CreatorDone(Returned))], children := s.children[child := k.project])
  {
    var p, children := s.projects[k.project], s.children[child := k.project];
    assert ProjectInv(p, s.boot);
    hide Inv;
    Writes(s, id, k.(phase := Operating), Appended(p, k.meta), child);
    Verifies(s, id, k.(phase := Verifying(Some(child))), Appended(p, k.meta), children);
    GivesBack(p, k.meta, s.boot);
    Releases(s, id, k.(phase := Releasing(true, Returned)), Appended(p, k.meta), children);
    hide Next, Appended;
    assert s.projects[k.project := p] == s.projects;
  }

  lemma {:induction false} Writes(s: State, id: nat, k: Creator, p: Project, child: ChildId)
    requires k.meta.bootId == s.boot && k.phase.Operating?
    ensures Next(Next(WithCreator(s, k, id, p, s.children), Write(id, child)), OperationReturned(id, Some(child)))
      == WithCreator(s, k.(phase := Verifying(Some(child))), id, p, s.children[child := k.project])
  {
    var s2 := WithCreator(s, k, id, p, s.children);
    var s3 := Next(s2, Write(id, child));
    assert s3 == WithCreator(s, k, id, p, s.children[child := k.project]);
  }

  lemma {:induction false} Verifies(s: State, id: nat, k: Creator, p: Project, children: map<ChildId, string>)
    requires k.meta.bootId == s.boot && k.phase.Verifying?
    requires p.lock == None && k.meta.reservationId in p.writers && k.meta in p.metadata
    ensures Next(WithCreator(s, k, id, p, children), Verify(id))
      == WithCreator(s, k.(phase := Releasing(true, Returned)), id, p, children)
  {
  }

  lemma {:induction false} Releases(s: State, id: nat, k: Creator, p: Project, children: map<ChildId, string>)
    requires k.meta.bootId == s.boot && k.phase.Releasing? && ReleaseMatches(p, k.meta)
    ensures Next(WithCreator(s, k, id, p, children), Release(id))
      == WithCreator(s, k.(phase := CreatorDone(k.phase.result)), id, ReleaseUpdate(p, k.meta), children)
  {
    hide ReleaseMatches, ReleaseUpdate;
  }

  lemma {:induction false} GivesBack(p: Project, m: Metadata, boot: nat)
    requires ProjectInv(p, boot) && m.reservationId !in p.writers
    ensures ReleaseMatches(Appended(p, m), m) && ReleaseUpdate(Appended(p, m), m) == p
  {
    PulledLast(p.writers, p.metadata, m);
  }

  lemma {:induction false} PulledLast(writers: seq<string>, metadata: seq<Metadata>, m: Metadata)
    requires writers == Ids(metadata) && m.reservationId !in writers
    ensures PullWriter(writers + [m.reservationId], m.reservationId) == writers
    ensures PullMetadata(metadata + [m], m) == metadata
  {
    if metadata == [] {
      assert writers + [m.reservationId] == [m.reservationId] && metadata + [m] == [m];
    } else {
      assert metadata[0].reservationId == writers[0];
      assert (writers + [m.reservationId])[1..] == writers[1..] + [m.reservationId];
      assert (metadata + [m])[1..] == metadata[1..] + [m];
      assert writers[1..] == Ids(metadata[1..]);
      PulledLast(writers[1..], metadata[1..], m);
    }
  }

  // An operation that throws before it writes gives back exactly its reservation; one that throws
  // otherwise keeps it, so that the project cannot be deleted under a write that may still land.
  lemma {:induction false} ThrowingOperation(s0: State, steps: seq<Step>, id: nat)
    requires Initial(s0) && Disciplined(steps)
    requires LiveCreator(Exec(s0, steps), id) && Exec(s0, steps).creators[id].phase.Operating?
    ensures var s := Exec(s0, steps);
      var k := s.creators[id];
      var t := Next(Next(s, OperationThrew(id, true)), Release(id));
      && id in t.creators && t.creators[id].phase == CreatorDone(NoWrite) && t.children == s.children
      && k.project in s.projects && t.projects.Keys == s.projects.Keys
      && (forall p <- s.projects :: p != k.project ==> t.projects[p] == s.projects[p])
      && RemovesExactly(s.projects[k.project], t.projects[k.project], k.meta)
    ensures var s := Exec(s0, steps);
      var k := s.creators[id];
      var t := Next(s, OperationThrew(id, false));
      && id in t.creators && t.creators[id].phase == CreatorDone(Threw) && t.children == s.children
      && t.projects == s.projects && k.project in t.projects && k.meta in t.projects[k.project].metadata
  {
    hide Exec, Initial, Disciplined, RemovesExactly;
    RunKeepsInv(s0, steps);
    ThrowStep(Exec(s0, steps), id);
  }

  lemma {:induction false} ThrowStep(s: State, id: nat)
    requires Inv(s) && LiveCreator(s, id) && s.creators[id].phase.Operating?
    ensures var k := s.creators[id];
      var t := Next(Next(s, OperationThrew(id, true)), Release(id));
      && id in t.creators && t.creators[id].phase == CreatorDone(NoWrite) && t.children == s.children
      && k.project in s.projects && t.projects.Keys == s.projects.Keys
      && (forall p <- s.projects :: p != k.project ==> t.projects[p] == s.projects[p])
      && RemovesExactly(s.projects[k.project], t.projects[k.project], k.meta)
    ensures var k := s.creators[id];
      var t := Next(s, OperationThrew(id, false));
      && id in t.creators && t.creators[id].phase == CreatorDone(Threw) && t.children == s.children
      && t.projects == s.projects && k.project in t.projects && k.meta in t.projects[k.project].metadata
  {
    hide RemovesExactly, Inv;
    LiveReservation(s, id);
    Throws(s, id);
    StepKeeps(s, OperationThrew(id, true));
    LiveCreatorStep(Next(s, OperationThrew(id, true)), id);
    ReleaseTouchesNoChild(Next(s, OperationThrew(id, true)), id);
    hide Next;
  }

  lemma Throws(s: State, id: nat)
    requires LiveCreator(s, id) && s.creators[id].phase.Operating?
    ensures Next(s, OperationThrew(id, true)) == SetCreator(s, id, s.creators[id].(phase := Releasing(true, NoWrite)))
    ensures Next(s, OperationThrew(id, false))
      == SetCreator(s, id, s.creators[id].(phase := CreatorDone(Threw), pending := PendingWrite))
  {
  }

  lemma ReleaseTouchesNoChild(s: State, id: nat)
    ensures Next(s, Release(id)).children == s.children && s.creators.Keys == Next(s, Release(id)).creators.Keys
  {
  }

  // ---------------------------------------------------------------- deleters

  // Nothing stands in the way of the delete lock.
  predicate Lockable(s: State, project: string, visible: bool) {
    && project in s.projects && visible
    && s.projects[project] == Project(None, false, [], [])
  }

  predicate Empty(s: State, project: string) {
    forall c <- s.children :: s.children[c] != project
  }

  // The steps of one delete with nothing in between.
  function DeleteAlone(s: State, id: nat, project: string, lockId: string, visible: bool, tasksFirst: bool): State {
    var s2 := Next(Next(s, StartDeleter(id, project, lockId)), Lock(id, visible));
    var s4 := if tasksFirst then Next(Next(s2, CountTasks(id)), CountTimecards(id))
              else Next(Next(s2, CountTimecards(id)), CountTasks(id));
    Next(Next(s4, Delete(id)), Unlock(id))
  }

  // A delete takes its lock exactly when the project is there for it with no lock, no reservation and
  // no tracked entry; otherwise nothing changes.
  lemma {:induction false} LockIff(s: State, id: nat, visible: bool)
    requires LiveDeleter(s, id) && s.deleters[id].phase.Locking?
    ensures var d := s.deleters[id];
      var t := Next(s, Lock(id, visible));
      if Lockable(s, d.project, visible) then
        t == s.(deleters := s.deleters[id := d.(phase := Counting(None, None))],
                projects := s.projects[d.project := Project(Some(d.lockId), false, [], [])])
      else t == s.(deleters := s.deleters[id := d.(phase := DeleterDone(DeleteConflict))])
  {
  }

  // A delete that starts in any state and is left alone deletes a free project without children,
  // leaves a free project with children as it was, and otherwise conflicts; children are never touched.
  lemma {:induction false} UndisturbedDelete(s: State, id: nat, project: string, lockId: string, visible: bool, tasksFirst: bool)
    requires id !in s.deleters && ValidFenceId(lockId)
    ensures var t := DeleteAlone(s, id, project, lockId, visible, tasksFirst);
      && t.children == s.children && t.creators == s.creators && id in t.deleters
      && if !Lockable(s, project, visible) then
           t.deleters[id].phase == DeleterDone(DeleteConflict) && t.projects == s.projects && t.retired == s.retired
         else if !Empty(s, project) then
           t.deleters[id].phase == DeleterDone(NotEmpty) && t.projects == s.projects && t.retired == s.retired
         else
           && t.deleters[id].phase == DeleterDone(Deleted)
           && t.projects == s.projects - {project} && t.retired == s.retired + {project}
  {
    hide Next, Empty, ValidFenceId;
    var d := Deleter(project, lockId, s.boot, Locking, NoDelete);
    var s1 := SetDeleter(s, id, d);
    StartsDelete(s, id, project, lockId);
    LockIff(s1, id, visible);
    if Lockable(s, project, visible) {
      assert s1.deleters[id := d.(phase := Counting(None, None))] == s.deleters[id := d.(phase := Counting(None, None))];
      LocksThenDecides(s, id, d.(phase := Counting(None, None)), tasksFirst);
    } else {
      ConflictStays(s1.(deleters := s1.deleters[id := d.(phase := DeleterDone(DeleteConflict))]), id);
    }
  }

  lemma StartsDelete(s: State, id: nat, project: string, lockId: string)
    requires id !in s.deleters && ValidFenceId(lockId)
    ensures Next(s, StartDeleter(id, project, lockId)) == SetDeleter(s, id, Deleter(project, lockId, s.boot, Locking, NoDelete))
  {
  }

  lemma ConflictStays(s: State, id: nat)
    requires id in s.deleters && s.deleters[id].phase.DeleterDone?
    ensures Next(s, CountTimecards(id)) == s && Next(s, CountTasks(id)) == s
    ensures Next(s, Delete(id)) == s && Next(s, Unlock(id)) == s
  {
  }

  // The state in which a free project has been locked.
  function LockedState(s: State, id: nat, d: Deleter): State {
    s.(deleters := s.deleters[id := d], projects := s.projects[d.project := Project(Some(d.lockId), false, [], [])])
  }

  lemma {:induction false} LocksThenDecides(s: State, id: nat, d: Deleter, tasksFirst: bool)
    requires d.bootId == s.boot && d.phase == Counting(None, None) && Lockable(s, d.project, true)
    ensures var s2 := LockedState(s, id, d);
      var s4 := if tasksFirst then Next(Next(s2, CountTasks(id)), CountTimecards(id))
                else Next(Next(s2, CountTimecards(id)), CountTasks(id));
      var t := Next(Next(s4, Delete(id)), Unlock(id));
      && t.children == s.children && t.creators == s.creators && id in t.deleters
      && if !Empty(s, d.project) then
           t.deleters[id].phase == DeleterDone(NotEmpty) && t.projects == s.projects && t.retired == s.retired
         else
           && t.deleters[id].phase == DeleterDone(Deleted)
           && t.projects == s.projects - {d.project} && t.retired == s.retired + {d.project}
  {
    hide Next, Empty;
    CountsDecide(s, id, d, tasksFirst);
    if Empty(s, d.project) { Deletes(s, id, d.(phase := Deleting)); }
    else { Unlocks(s, id, d.(phase := Unlocking(NotEmpty))); }
  }

  lemma {:induction false} Deletes(s: State, id: nat, d: Deleter)
    requires d.bootId == s.boot && d.phase.Deleting? && d.project in s.projects
    ensures Next(Next(LockedState(s, id, d), Delete(id)), Unlock(id)) ==
      s.(deleters := s.deleters[id := d.(phase := DeleterDone(Deleted))],
         projects := s.projects - {d.project}, retired := s.retired + {d.project})
  {
    var s4 := LockedState(s, id, d);
    var s5 := Next(s4, Delete(id));
    assert s5.projects == s.projects - {d.project};
    assert s5 == s.(deleters := s.deleters[id := d.(phase := Unlocking(Deleted))],
                    projects := s.projects - {d.project}, retired := s.retired + {d.project});
  }

  lemma {:induction false} Unlocks(s: State, id: nat, d: Deleter)
    requires d.bootId == s.boot && d.phase.Unlocking? && d.project in s.projects && s.projects[d.project] == EMPTY_FENCE
    ensures Next(Next(LockedState(s, id, d), Delete(id)), Unlock(id)) ==
      s.(deleters := s.deleters[id := d.(phase := DeleterDone(d.phase.result))])
  {
    var s4 := LockedState(s, id, d);
    assert Next(s4, Delete(id)) == s4;
    assert s4.projects[d.project := EMPTY_FENCE] == s.projects;
  }

  lemma {:induction false} CountsDecide(s: State, id: nat, d: Deleter, tasksFirst: bool)
    requires d.bootId == s.boot && d.phase == Counting(None, None)
    ensures var s2 := LockedState(s, id, d);
      (if tasksFirst then Next(Next(s2, CountTasks(id)), CountTimecards(id))
       else Next(Next(s2, CountTimecards(id)), CountTasks(id))) ==
        LockedState(s, id, d.(phase := if Empty(s, d.project) then Deleting else Unlocking(NotEmpty)))
  {
    hide Next, Empty, Count;
    var s2 := LockedState(s, id, d);
    var timecards, tasks := Count(s2, d.project, Timecard), Count(s2, d.project, Task);
    EmptyIff(s, s2, d.project);
    CountsStep(s, id, d);
    CountsStep(s, id, d.(phase := Counting(None, Some(tasks))));
    CountsStep(s, id, d.(phase := Counting(Some(timecards), None)));
    CountApart(s2, LockedState(s, id, d.(phase := Counting(None, Some(tasks)))), d.project);
    CountApart(s2, LockedState(s, id, d.(phase := Counting(Some(timecards), None))), d.project);
  }

  lemma EmptyIff(s: State, s2: State, project: string)
    requires s2.children == s.children
    ensures Empty(s, project) <==> Count(s2, project, Timecard) == 0 && Count(s2, project, Task) == 0
  {
    CountZero(s2, project, Timecard);
    CountZero(s2, project, Task);
    assert forall c: ChildId :: c.resourceType == Timecard || c.resourceType == Task;
  }

  lemma CountApart(s: State, t: State, project: string)
    requires s.children == t.children
    ensures Count(s, project, Timecard) == Count(t, project, Timecard) && Count(s, project, Task) == Count(t, project, Task)
  {
  }

  lemma {:induction false} CountsStep(s: State, id: nat, d: Deleter)
    requires d.bootId == s.boot && d.phase.Counting?
    ensures var s3 := LockedState(s, id, d);
      && Next(s3, CountTimecards(id)) ==
           LockedState(s, id, d.(phase := AfterCounts(d.phase.(timecards := Some(Count(s3, d.project, Timecard))))))
      && Next(s3, CountTasks(id)) ==
           LockedState(s, id, d.(phase := AfterCounts(d.phase.(tasks := Some(Count(s3, d.project, Task))))))
  {
    hide Count, AfterCounts;
  }

  // ---------------------------------------------------------------- recoveries

  // The steps of one recovery with nothing in between.
  function RecoverAlone(s: State, id: nat, project: string, reservationId: string, allowed: bool, visible: bool): State {
    var s2 := Next(Next(s, StartRecoverer(id, project, reservationId, allowed)), ReadProject(id, visible));
    Next(Next(s2, FindResource(id)), Clear(id, visible))
  }

  // What a recovery of the reservation at this place of the list reports.
  function Verdict(s: State, project: string, m: Metadata, allowed: bool): RecoveryStatus
    requires project in s.projects
  {
    var kindOfTask := {ProjectDefaultTask, ProjectTaskCreate, ProjectTaskRecover, ProjectTaskUpdate};
    var child := ChildId(if m.kind in kindOfTask then Task else Timecard, m.resourceId);
    if s.projects[project].graphLock then Untracked
    else if !allowed then DeploymentDisabled
    else if m.bootId == s.boot then ActiveProcess
    else if s.now - m.acquiredAt < 900_000 then TooYoung
    else if child in s.children && s.children[child] != project then ResourceUnexpected
    else Cleared
  }

  ghost predicate RecoveryAnswer(s: State, t: State, id: nat, project: string, reservationId: string, allowed: bool,
                                 visible: bool) {
    && id in t.recoverers && t.children == s.children && t.creators == s.creators && t.deleters == s.deleters
    && if project !in s.projects || !visible then
         t.recoverers[id].phase == RecovererDone(NotAuthorized) && t.projects == s.projects
       else if reservationId !in s.projects[project].writers then
         t.recoverers[id].phase == RecovererDone(NotFound) && t.projects == s.projects
       else
         exists i :: 0 <= i < |s.projects[project].metadata| && i < |s.projects[project].writers|
           && s.projects[project].metadata[i].reservationId == reservationId
           && var verdict := Verdict(s, project, s.projects[project].metadata[i], allowed);
              && t.recoverers[id].phase == RecovererDone(verdict)
              && t.projects == if verdict != Cleared then s.projects else
                   var p := s.projects[project];
                   s.projects[project := p.(writers := p.writers[..i] + p.writers[i + 1..],
                                            metadata := p.metadata[..i] + p.metadata[i + 1..])]
  }

  // A recovery that starts in any reachable state and is left alone clears a reservation exactly when an
  // older boot took it at least fifteen minutes ago, recovery is allowed, the task graph is not locked
  // and its resource is not in another project; every other case is told apart and changes nothing.
  lemma {:induction false} UndisturbedRecovery(s0: State, steps: seq<Step>, id: nat, project: string, reservationId: string,
                                               allowed: bool, visible: bool)
    requires Initial(s0) && Disciplined(steps)
    requires id !in Exec(s0, steps).recoverers && ValidFenceId(reservationId)
    ensures var s := Exec(s0, steps);
      RecoveryAnswer(s, RecoverAlone(s, id, project, reservationId, allowed, visible), id, project, reservationId, allowed, visible)
  {
    RunKeepsInv(s0, steps);
    RecoversAlone(Exec(s0, steps), id, project, reservationId, allowed, visible);
  }

  lemma {:induction false} RecoversAlone(s: State, id: nat, project: string, reservationId: string, allowed: bool, visible: bool)
    requires Inv(s) && id !in s.recoverers && ValidFenceId(reservationId)
    ensures RecoveryAnswer(s, RecoverAlone(s, id, project, reservationId, allowed, visible), id, project, reservationId,
                           allowed, visible)
  {
    hide Next, ValidFenceId, ProjectInv, Analyze, Verdict, CreatorsInv, DeletersInv, RecoverersInv, NoOrphans;
    var r := Recoverer(project, reservationId, s.boot, allowed, Reading, None);
    StartsRecovery(s, id, r);
    if project in s.projects { assert ProjectInv(s.projects[project], s.boot); }
    if project !in s.projects || !visible {
      ReadEnds(s, id, r, visible, NotAuthorized);
    } else if reservationId !in s.projects[project].writers {
      NobodyTracked(s, project, reservationId, allowed);
      ReadEnds(s, id, r, visible, NotFound);
    } else {
      RecoversTracked(s, id, r);
    }
  }

  lemma StartsRecovery(s: State, id: nat, r: Recoverer)
    requires id !in s.recoverers && ValidFenceId(r.reservationId) && r.bootId == s.boot && r.phase == Reading && r.pending == None
    ensures Next(s, StartRecoverer(id, r.project, r.reservationId, r.allowed)) == SetRecoverer(s, id, r)
  {
  }

  lemma {:induction false} ReadEnds(s: State, id: nat, r: Recoverer, visible: bool, status: RecoveryStatus)
    requires r.bootId == s.boot && r.phase.Reading?
    requires if r.project !in s.projects || !visible then status == NotAuthorized
             else Analyze(s.projects[r.project], r.reservationId, s.now, s.boot, r.allowed) == Blocked(status)
    ensures var s1 := SetRecoverer(s, id, r);
      Next(Next(Next(s1, ReadProject(id, visible)), FindResource(id)), Clear(id, visible))
        == SetRecoverer(s, id, r.(phase := RecovererDone(status)))
  {
    hide Analyze;
    var s1 := SetRecoverer(s, id, r);
    var s2 := SetRecoverer(s, id, r.(phase := RecovererDone(status)));
    assert Next(s1, ReadProject(id, visible)) == s2;
    assert Next(s2, FindResource(id)) == s2 && Next(s2, Clear(id, visible)) == s2;
  }

  lemma {:induction false} NobodyTracked(s: State, project: string, id: string, allowed: bool)
    requires project in s.projects && ProjectInv(s.projects[project], s.boot) && id !in s.projects[project].writers
    ensures Analyze(s.projects[project], id, s.now, s.boot, allowed) == Blocked(NotFound)
  {
    var p := s.projects[project];
    OccursOnce(p.writers, id);
    TrackedNone(p.metadata, id);
  }

  lemma {:induction false} TrackedNone(ms: seq<Metadata>, id: string)
    requires id !in Ids(ms)
    ensures Tracked(ms, id) == []
  {
    if ms != [] {
      assert Ids(ms)[0] == ms[0].reservationId && Ids(ms[1..]) == Ids(ms)[1..];
      TrackedNone(ms[1..], id);
    }
  }

  lemma {:induction false} OccursOnce(writers: seq<string>, id: string)
    requires Distinct(writers)
    ensures Occurrences(writers, id) == if id in writers then 1 else 0
  {
    if writers != [] {
      OccursOnce(writers[1..], id);
      assert writers == [writers[0]] + writers[1..];
    }
  }

  // The one entry of a listed reservation is what the analysis sees.
  lemma {:induction false} OneTracked(p: Project, id: string, boot: nat) returns (i: nat)
    requires ProjectInv(p, boot) && id in p.writers
    ensures i < |p.metadata| && p.metadata[i].reservationId == id && p.lock == None && ValidMetadata(p.metadata[i])
    ensures Occurrences(p.writers, id) == 1 && Tracked(p.metadata, id) == [p.metadata[i]]
  {
    i :| 0 <= i < |p.writers| && p.writers[i] == id;
    OccursOnce(p.writers, id);
    TrackedMembers(p.metadata, id);
    TrackedOnce(p.metadata, id);
    assert p.metadata[i] in p.metadata && p.metadata[i] in Tracked(p.metadata, id);
  }

  lemma {:induction false} RecoversTracked(s: State, id: nat, r: Recoverer)
    requires r.project in s.projects && ProjectInv(s.projects[r.project], s.boot)
    requires r.reservationId in s.projects[r.project].writers && r.bootId == s.boot && r.phase.Reading?
    ensures var s1 := SetRecoverer(s, id, r);
      var t := Next(Next(Next(s1, ReadProject(id, true)), FindResource(id)), Clear(id, true));
      RecoveryAnswer(s, t, id, r.project, r.reservationId, r.allowed, true)
  {
    var p := s.projects[r.project];
    var i := OneTracked(p, r.reservationId, s.boot);
    var m := p.metadata[i];
    var verdict := Verdict(s, r.project, m, r.allowed);
    hide ValidMetadata;
    if verdict == ResourceUnexpected || verdict == Cleared {
      CandidateFound(s, id, r, m);
      if verdict == Cleared { PullsPlace(p, i, s.boot); }
    } else {
      ReadEnds(s, id, r, true, verdict);
    }
    hide Next, ProjectInv, Verdict;
  }

  lemma {:induction false} PullsPlace(p: Project, i: nat, boot: nat)
    requires ProjectInv(p, boot) && i < |p.metadata|
    ensures ReleaseUpdate(p, p.metadata[i]) ==
      p.(writers := p.writers[..i] + p.writers[i + 1..], metadata := p.metadata[..i] + p.metadata[i + 1..])
  {
    var j := PullOne(p.metadata, p.metadata[i]);
    assert p.writers[i] == p.writers[j];
  }

  lemma {:induction false} CandidateFound(s: State, id: nat, r: Recoverer, m: Metadata)
    requires r.project in s.projects && r.bootId == s.boot && r.phase.Reading?
    requires Analyze(s.projects[r.project], r.reservationId, s.now, s.boot, r.allowed) == Candidate(m)
    requires m in s.projects[r.project].metadata && m.reservationId in s.projects[r.project].writers
    requires s.projects[r.project].lock == None && !s.projects[r.project].graphLock
    requires m.bootId != s.boot && s.now - m.acquiredAt >= 900_000
    ensures var s1 := SetRecoverer(s, id, r);
      var t := Next(Next(Next(s1, ReadProject(id, true)), FindResource(id)), Clear(id, true));
      t == if Verdict(s, r.project, m, true) == ResourceUnexpected
           then SetRecoverer(s, id, r.(phase := RecovererDone(ResourceUnexpected)))
           else SetRecoverer(SetProject(s, r.project, ReleaseUpdate(s.projects[r.project], m)), id,
                             r.(phase := RecovererDone(Cleared)))
  {
    hide Next, Analyze, ReleaseUpdate, Verdict;
    ReadsCandidate(s, id, r, m);
    FindsResource(s, id, r.(phase := FindingResource(m)), m);
    ClearsOrStays(s, id, r, m);
  }

  lemma ReadsCandidate(s: State, id: nat, r: Recoverer, m: Metadata)
    requires r.project in s.projects && r.bootId == s.boot && r.phase.Reading?
    requires Analyze(s.projects[r.project], r.reservationId, s.now, s.boot, r.allowed) == Candidate(m)
    ensures Next(SetRecoverer(s, id, r), ReadProject(id, true)) == SetRecoverer(s, id, r.(phase := FindingResource(m)))
  {
    hide Analyze;
  }

  lemma FindsResource(s: State, id: nat, r: Recoverer, m: Metadata)
    requires r.project in s.projects && r.bootId == s.boot && r.phase == FindingResource(m)
    requires !s.projects[r.project].graphLock && m.bootId != s.boot && s.now - m.acquiredAt >= 900_000
    ensures Next(SetRecoverer(s, id, r), FindResource(id)) == SetRecoverer(s, id, r.(phase :=
      if Verdict(s, r.project, m, true) == ResourceUnexpected then RecovererDone(ResourceUnexpected) else Clearing(m)))
  {
  }

  lemma {:induction false} ClearsOrStays(s: State, id: nat, r: Recoverer, m: Metadata)
    requires r.project in s.projects && r.bootId == s.boot
    requires m in s.projects[r.project].metadata && m.reservationId in s.projects[r.project].writers
    requires s.projects[r.project].lock == None && !s.projects[r.project].graphLock
    ensures Next(SetRecoverer(s, id, r.(phase := Clearing(m))), Clear(id, true)) ==
      SetRecoverer(SetProject(s, r.project, ReleaseUpdate(s.projects[r.project], m)), id, r.(phase := RecovererDone(Cleared)))
    ensures var s3 := SetRecoverer(s, id, r.(phase := RecovererDone(ResourceUnexpected)));
      Next(s3, Clear(id, true)) == s3
  {
    hide ReleaseUpdate;
  }

  // ---------------------------------------------------------------- any document

  // How often a document's lists name a reservation, and whether this is the one entry.
  ghost predicate NamesOnce(p: Project, id: string, m: Metadata) {
    && multiset(p.writers)[id] == 1
    && exists i :: 0 <= i < |p.metadata| && p.metadata[i] == m && OnlyAt(p.metadata, id, i)
  }

  ghost predicate OnlyAt(metadata: seq<Metadata>, id: string, i: nat) {
    && i < |metadata| && metadata[i].reservationId == id
    && forall j :: 0 <= j < |metadata| && j != i ==> metadata[j].reservationId != id
  }

  ghost predicate Nameless(p: Project, id: string) {
    id !in p.writers && forall m <- p.metadata :: m.reservationId != id
  }

  // What the analysis says of any document, also of one that older code left with a writer and no metadata.
  lemma {:induction false} AnalyzeIff(p: Project, id: string, now: int, boot: nat, allowed: bool, m: Metadata)
    ensures var r := Analyze(p, id, now, boot, allowed);
      && (r == Blocked(NotFound) <==> Nameless(p, id))
      && (NamesOnce(p, id, m) && ValidMetadata(m) && p.lock.None? && !p.graphLock ==>
            r == if !allowed then Blocked(DeploymentDisabled)
                 else if m.bootId == boot then Blocked(ActiveProcess)
                 else if now - m.acquiredAt < 15 * 60 * 1000 then Blocked(TooYoung)
                 else Candidate(m))
      && (r == Candidate(m) ==> NamesOnce(p, id, m) && ValidMetadata(m) && p.lock.None? && !p.graphLock)
      && (r.Blocked? && r.status != NotFound && r.status != Untracked ==>
            exists k :: NamesOnce(p, id, k) && ValidMetadata(k) && p.lock.None? && !p.graphLock)
  {
    OccurrencesAre(p.writers, id);
    TrackedAre(p.metadata, id);
    var tracked := Tracked(p.metadata, id);
    hide Tracked, Occurrences, ValidMetadata;
    if |tracked| == 1 && multiset(p.writers)[id] == 1 {
      var i :| 0 <= i < |p.metadata| && p.metadata[i] == tracked[0] && OnlyAt(p.metadata, id, i);
      assert NamesOnce(p, id, tracked[0]);
    }
  }

  lemma {:induction false} OccurrencesAre(writers: seq<string>, id: string)
    ensures Occurrences(writers, id) == multiset(writers)[id]
  {
    if writers != [] {
      OccurrencesAre(writers[1..], id);
      assert writers == [writers[0]] + writers[1..];
    }
  }

  lemma {:induction false} TrackedAre(metadata: seq<Metadata>, id: string)
    ensures Tracked(metadata, id) == [] <==> forall m <- metadata :: m.reservationId != id
    ensures forall i: nat :: OnlyAt(metadata, id, i) ==> Tracked(metadata, id) == [metadata[i]]
    ensures |Tracked(metadata, id)| == 1 ==>
      exists i :: 0 <= i < |metadata| && metadata[i] == Tracked(metadata, id)[0] && OnlyAt(metadata, id, i)
  {
    if metadata != [] {
      var first, rest := metadata[0], metadata[1..];
      TrackedAre(rest, id);
      assert metadata == [first] + rest;
      if first.reservationId == id {
        assert Tracked(metadata, id) == [first] + Tracked(rest, id);
        assert OnlyAt(metadata, id, 0) <==> forall m <- rest :: m.reservationId != id;
        assert forall i: nat :: OnlyAt(metadata, id, i) ==> i == 0;
      } else {
        assert Tracked(metadata, id) == Tracked(rest, id);
        hide Tracked;
        forall i: nat ensures OnlyAt(metadata, id, i + 1) <==> OnlyAt(rest, id, i) { OnlyAtRest(metadata, id, i); }
        assert forall i: nat :: OnlyAt(metadata, id, i) ==> i > 0 && OnlyAt(rest, id, i - 1);
        if |Tracked(rest, id)| == 1 {
          var i :| 0 <= i < |rest| && rest[i] == Tracked(rest, id)[0] && OnlyAt(rest, id, i);
          assert OnlyAt(metadata, id, i + 1) && metadata[i + 1] == rest[i];
        }
      }
    }
  }

  lemma OnlyAtRest(metadata: seq<Metadata>, id: string, i: nat)
    requires metadata != [] && metadata[0].reservationId != id
    ensures OnlyAt(metadata, id, i + 1) <==> OnlyAt(metadata[1..], id, i)
  {
    var rest := metadata[1..];
    assert forall j :: 0 < j < |metadata| ==> metadata[j] == rest[j - 1];
    assert forall j :: 0 <= j < |rest| ==> rest[j] == metadata[j + 1];
  }

  // ---------------------------------------------------------------- lost replies

  // An operation whose reply was lost does to the store, when it lands, what it would have done at once.
  ghost predicate LandsAsApplied(landed: State, applied: State) {
    landed.projects == applied.projects && landed.children == applied.children && landed.retired == applied.retired
  }

  lemma {:induction false} LostCreatorLands(s: State, id: nat, visible: bool, child: ChildId)
    requires LiveCreator(s, id) && !s.creators[id].phase.CreatorDone?
    ensures var phase := s.creators[id].phase;
      var lost := Next(s, LoseCreator(id));
      && LandsAsApplied(lost, s)
      && (phase.Acquiring? ==> LandsAsApplied(Next(lost, LandCreator(id, visible, child)), Next(s, Acquire(id, visible))))
      && (phase.Operating? ==> LandsAsApplied(Next(lost, LateWrite(id, child)), Next(s, Write(id, child))))
      && (phase.Removing? ==> LandsAsApplied(Next(lost, LandCreator(id, visible, child)), Next(s, RemoveCreated(id))))
      && (phase.Releasing? ==> LandsAsApplied(Next(lost, LandCreator(id, visible, child)), Next(s, Release(id))))
      && (phase.Verifying? ==> LandsAsApplied(Next(lost, LandCreator(id, visible, child)), s))
  {
    hide Next, LandsAsApplied;
    var k := s.creators[id];
    var lost := Lost(s, id);
    if k.phase.Acquiring? {
      AcquireLands(s, lost, id, visible, child);
    } else if k.phase.Releasing? {
      ReleaseLands(s, lost, id, visible, child);
    } else {
      OthersLand(s, lost, id, visible, child);
    }
    SameStore(s, lost);
  }

  // The creator has given up on its operation.
  lemma {:induction false} Lost(s: State, id: nat) returns (lost: State)
    requires LiveCreator(s, id) && !s.creators[id].phase.CreatorDone?
    ensures var k := s.creators[id];
      lost == Next(s, LoseCreator(id))
      && lost == SetCreator(s, id, k.(phase := CreatorDone(Threw), pending := AbandonedOp(k.phase)))
  {
    lost := Next(s, LoseCreator(id));
  }

  lemma SameStore(s: State, t: State)
    requires t.projects == s.projects && t.children == s.children && t.retired == s.retired
    ensures LandsAsApplied(t, s)
  {
  }

  lemma {:induction false} AcquireLands(s: State, lost: State, id: nat, visible: bool, child: ChildId)
    requires LiveCreator(s, id) && s.creators[id].phase.Acquiring?
    requires lost == SetCreator(s, id, s.creators[id].(phase := CreatorDone(Threw), pending := PendingAcquire))
    ensures LandsAsApplied(Next(lost, LandCreator(id, visible, child)), Next(s, Acquire(id, visible)))
  {
    hide AcquireMatches, AcquireUpdate, AcquireConfirmed;
  }

  lemma {:induction false} ReleaseLands(s: State, lost: State, id: nat, visible: bool, child: ChildId)
    requires LiveCreator(s, id) && s.creators[id].phase.Releasing?
    requires lost == SetCreator(s, id, s.creators[id].(phase := CreatorDone(Threw), pending := PendingRelease))
    ensures LandsAsApplied(Next(lost, LandCreator(id, visible, child)), Next(s, Release(id)))
  {
    hide ReleaseMatches;
  }

  lemma {:induction false} OthersLand(s: State, lost: State, id: nat, visible: bool, child: ChildId)
    requires LiveCreator(s, id)
    requires var k := s.creators[id];
      (k.phase.Operating? || k.phase.Removing? || k.phase.Verifying?)
      && lost == SetCreator(s, id, k.(phase := CreatorDone(Threw), pending := AbandonedOp(k.phase)))
    ensures var phase := s.creators[id].phase;
      && (phase.Operating? ==> LandsAsApplied(Next(lost, LateWrite(id, child)), Next(s, Write(id, child))))
      && (phase.Removing? ==> LandsAsApplied(Next(lost, LandCreator(id, visible, child)), Next(s, RemoveCreated(id))))
      && (phase.Verifying? ==> LandsAsApplied(Next(lost, LandCreator(id, visible, child)), s))
  {
  }

  lemma {:induction false} LostDeleterLands(s: State, id: nat, visible: bool)
    requires LiveDeleter(s, id) && !s.deleters[id].phase.DeleterDone?
    ensures var phase := s.deleters[id].phase;
      var lost := Next(s, LoseDeleter(id));
      && LandsAsApplied(lost, s)
      && (phase.Locking? ==> LandsAsApplied(Next(lost, LandDeleter(id, visible)), Next(s, Lock(id, visible))))
      && (phase.Deleting? ==> LandsAsApplied(Next(lost, LandDeleter(id, visible)), Next(s, Delete(id))))
      && (phase.Unlocking? ==> LandsAsApplied(Next(lost, LandDeleter(id, visible)), Next(s, Unlock(id))))
      && (phase.Counting? ==> LandsAsApplied(Next(lost, LandDeleter(id, visible)), s))
  {
    var d := s.deleters[id];
    var pending :=
      match d.phase
      case Locking => PendingLock
      case Deleting => PendingDelete
      case Unlocking(_) => PendingUnlock
      case _ => NoDelete;
    var lost := SetDeleter(s, id, d.(phase := DeleterDone(DeleteThrew), pending := pending));
    assert Next(s, LoseDeleter(id)) == lost;
    DeleterLands(s, lost, id, visible);
    hide Next;
  }

  lemma {:induction false} DeleterLands(s: State, lost: State, id: nat, visible: bool)
    requires LiveDeleter(s, id) && id in lost.deleters
    requires var d := s.deleters[id];
      && lost == SetDeleter(s, id, lost.deleters[id])
      && lost.deleters[id].project == d.project && lost.deleters[id].lockId == d.lockId
      && lost.deleters[id].pending ==
           match d.phase
           case Locking => PendingLock
           case Deleting => PendingDelete
           case Unlocking(_) => PendingUnlock
           case _ => NoDelete
    ensures var phase := s.deleters[id].phase;
      && (phase.Locking? ==> LandsAsApplied(Next(lost, LandDeleter(id, visible)), Next(s, Lock(id, visible))))
      && (phase.Deleting? ==> LandsAsApplied(Next(lost, LandDeleter(id, visible)), Next(s, Delete(id))))
      && (phase.Unlocking? ==> LandsAsApplied(Next(lost, LandDeleter(id, visible)), Next(s, Unlock(id))))
      && (phase.Counting? ==> LandsAsApplied(Next(lost, LandDeleter(id, visible)), s))
  {
    hide LockMatches;
  }

  lemma LostRecoveryLands(s: State, id: nat, visible: bool)
    requires LiveRecoverer(s, id)
    ensures var lost := Next(s, LoseRecoverer(id));
      var landed := Next(lost, LandRecoverer(id, visible));
      lost.projects == s.projects
      && (s.recoverers[id].phase.Clearing? ==> landed.projects == Next(s, Clear(id, visible)).projects)
  {
  }
}
