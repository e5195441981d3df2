// The project-side fence of imports/api/projects/server/projectChildFence.js: child creators
// reserve a slot on the project document, an empty-project delete locks the same document, and
// an age- and boot-checked recovery clears reservations whose outcome was never learned.
module ProjectChildFence {
  import opened Options

  const MAX_PROJECT_CHILD_WRITERS := 64
  const MINIMUM_FENCE_RECOVERY_AGE_MS := 15 * 60 * 1000

  // ---------------------------------------------------------------- stored documents

  datatype WriterKind =
    | ProjectDefaultTask | ProjectTaskCreate | ProjectTaskRecover | ProjectTaskUpdate
    | TimecardCreate | TimecardDetailsMove | TimecardRecover | TimecardTaskEdit
    | TimecardUpdate | TimecardWeekUpsert

  datatype ResourceType = Task | Timecard

  function ResourceTypeOf(kind: WriterKind): ResourceType {
    match kind
    case ProjectDefaultTask | ProjectTaskCreate | ProjectTaskRecover | ProjectTaskUpdate => Task
    case _ => Timecard
  }

  // Boot identifiers are random and never repeat; they are numbered here in the order of the boots.
  datatype Metadata = Metadata(
    reservationId: string, kind: WriterKind, resourceId: string, acquiredAt: int, bootId: nat)

  // The fence fields of one project. A missing list and an empty one match the same selectors.
  datatype Project = Project(
    lock: Option<string>, graphLock: bool, writers: seq<string>, metadata: seq<Metadata>)

  // Tasks and timecards are separate collections, so a child is named by its kind and its id.
  datatype ChildId = ChildId(resourceType: ResourceType, id: string)

  const EMPTY_FENCE := Project(None, false, [], [])

  predicate FenceChar(c: char) {
    'A' <= c <= 'Z' || 'a' <= c <= 'z' || '0' <= c <= '9' || c == '.' || c == '_' || c == ':' || c == '-'
  }

  predicate ValidFenceId(value: string) {
    8 <= |value| <= 128 && forall i :: 0 <= i < |value| ==> FenceChar(value[i])
  }

  predicate ValidResourceId(value: string) {
    0 < |value| <= 128 && forall i :: 0 <= i < |value| ==> FenceChar(value[i])
  }

  predicate ValidMetadata(m: Metadata) {
    ValidFenceId(m.reservationId) && ValidResourceId(m.resourceId)
  }

  // ---------------------------------------------------------------- atomic document operations

  function Ids(metadata: seq<Metadata>): (ids: seq<string>)
    ensures |ids| == |metadata|
    ensures forall i :: 0 <= i < |metadata| ==> ids[i] == metadata[i].reservationId
  {
    seq(|metadata|, i requires 0 <= i < |metadata| => metadata[i].reservationId)
  }

  function PullWriter(writers: seq<string>, id: string): seq<string> {
    if writers == [] then []
    else (if writers[0] == id then [] else [writers[0]]) + PullWriter(writers[1..], id)
  }

  function PullMetadata(metadata: seq<Metadata>, m: Metadata): seq<Metadata> {
    if metadata == [] then []
    else (if metadata[0] == m then [] else [metadata[0]]) + PullMetadata(metadata[1..], m)
  }

  function Tracked(metadata: seq<Metadata>, id: string): seq<Metadata> {
    if metadata == [] then []
    else (if metadata[0].reservationId == id then [metadata[0]] else []) + Tracked(metadata[1..], id)
  }

  predicate AcquireMatches(p: Project, id: string) {
    p.lock.None? && !p.graphLock && id !in p.writers && |p.metadata| < MAX_PROJECT_CHILD_WRITERS
  }

  function AcquireUpdate(p: Project, m: Metadata): Project {
    p.(writers := if m.reservationId in p.writers then p.writers else p.writers + [m.reservationId],
       metadata := p.metadata + [m])
  }

  // The check on the returned document: one tracked entry, written by this boot.
  predicate AcquireConfirmed(p: Project, m: Metadata) {
    var tracked := Tracked(p.metadata, m.reservationId);
    m.reservationId in p.writers && |tracked| == 1 && tracked[0].bootId == m.bootId
  }

  predicate ReleaseMatches(p: Project, m: Metadata) {
    m.reservationId in p.writers && m in p.metadata
  }

  function ReleaseUpdate(p: Project, m: Metadata): Project {
    p.(writers := PullWriter(p.writers, m.reservationId), metadata := PullMetadata(p.metadata, m))
  }

  predicate VerifyMatches(p: Project, m: Metadata) {
    p.lock.None? && m.reservationId in p.writers && m in p.metadata
  }

  predicate LockMatches(p: Project) {
    p.lock.None? && !p.graphLock && p.writers == [] && p.metadata == []
  }

  predicate ClearMatches(p: Project, m: Metadata) {
    p.lock.None? && !p.graphLock && ReleaseMatches(p, m)
  }

  // ---------------------------------------------------------------- recovery analysis

  datatype RecoveryStatus =
    | NotAuthorized | NotFound | Untracked | DeploymentDisabled | ActiveProcess | TooYoung
    | ResourceUnexpected | Cleared | RecoveryConflict | RecoveryThrew

  datatype Analysis = Blocked(status: RecoveryStatus) | Candidate(metadata: Metadata)

  function Occurrences(writers: seq<string>, id: string): nat {
    if writers == [] then 0
    else (if writers[0] == id then 1 else 0) + Occurrences(writers[1..], id)
  }

  // Every check analyzeProjectChildWriterRecovery makes before it looks for the resource.
  function Analyze(p: Project, id: string, now: int, bootId: nat, allowed: bool): Analysis {
    var tracked := Tracked(p.metadata, id);
    if Occurrences(p.writers, id) == 0 && |tracked| == 0 then Blocked(NotFound)
    else if Occurrences(p.writers, id) != 1 || |tracked| != 1 || !ValidMetadata(tracked[0])
            || p.lock.Some? || p.graphLock then Blocked(Untracked)
    else if !allowed then Blocked(DeploymentDisabled)
    else if tracked[0].bootId == bootId then Blocked(ActiveProcess)
    else if now - tracked[0].acquiredAt < MINIMUM_FENCE_RECOVERY_AGE_MS then Blocked(TooYoung)
    else Candidate(tracked[0])
  }

  // ---------------------------------------------------------------- processes

  // Create is createProjectChildWithFence, Run is runWithProjectChildWriter.
  datatype CreatorMode = Create | Run

  datatype CreatorResult = Returned | WriteBlocked | OutcomeUnknown | NoWrite | Threw

  datatype CreatorPhase =
    | Acquiring
    | Operating
    | Verifying(created: Option<ChildId>)
    | Removing(child: ChildId)
    | Releasing(mustMatch: bool, result: CreatorResult)
    | CreatorDone(result: CreatorResult)

  // A store operation whose caller stopped waiting: it may still be applied, once, later.
  datatype CreatorPending = NoOp | PendingAcquire | PendingWrite | PendingRemove(child: ChildId) | PendingRelease

  datatype Creator = Creator(
    mode: CreatorMode, project: string, meta: Metadata, phase: CreatorPhase, pending: CreatorPending)

  datatype DeleteResult = Deleted | NotEmpty | DeleteConflict | DeleteThrew

  datatype DeleterPhase =
    | Locking
    | Counting(timecards: Option<nat>, tasks: Option<nat>)
    | Deleting
    | Unlocking(result: DeleteResult)
    | DeleterDone(result: DeleteResult)

  datatype DeleterPending = NoDelete | PendingLock | PendingDelete | PendingUnlock

  datatype Deleter = Deleter(
    project: string, lockId: string, bootId: nat, phase: DeleterPhase, pending: DeleterPending)

  datatype RecovererPhase =
    | Reading
    | FindingResource(candidate: Metadata)
    | Clearing(candidate: Metadata)
    | RecovererDone(status: RecoveryStatus)

  datatype Recoverer = Recoverer(
    project: string, reservationId: string, bootId: nat, allowed: bool,
    phase: RecovererPhase, pending: Option<Metadata>)

  datatype State = State(
    projects: map<string, Project>,
    retired: set<string>,
    children: map<ChildId, string>,
    creators: map<nat, Creator>,
    deleters: map<nat, Deleter>,
    recoverers: map<nat, Recoverer>,
    boot: nat,
    now: int)

  datatype Step =
    // a child creator
    | StartCreator(id: nat, mode: CreatorMode, project: string, reservationId: string,
                   kind: WriterKind, resourceId: string, clock: int)
    | Acquire(id: nat, visible: bool)
    | Write(id: nat, child: ChildId)
    | OperationReturned(id: nat, created: Option<ChildId>)
    | OperationThrew(id: nat, noWrite: bool)
    | Verify(id: nat)
    | RemoveCreated(id: nat)
    | Release(id: nat)
    | LoseCreator(id: nat)
    | LandCreator(id: nat, visible: bool, child: ChildId)
    // an empty-project delete
    | StartDeleter(id: nat, project: string, lockId: string)
    | Lock(id: nat, visible: bool)
    | CountTimecards(id: nat)
    | CountTasks(id: nat)
    | Delete(id: nat)
    | Unlock(id: nat)
    | LoseDeleter(id: nat)
    | LandDeleter(id: nat, visible: bool)
    // a recovery
    | StartRecoverer(id: nat, project: string, reservationId: string, allowed: bool)
    | ReadProject(id: nat, visible: bool)
    | FindResource(id: nat)
    | Clear(id: nat, visible: bool)
    | LoseRecoverer(id: nat)
    | LandRecoverer(id: nat, visible: bool)
    // everything else
    | CreateProject(project: string)
    | SetGraphLock(project: string, on: bool)
    | DeleteChild(child: ChildId)
    | Tick(elapsed: nat)
    | Restart
    | LateWrite(id: nat, child: ChildId)

  // The single-instance assumption. A reservation still protects its project while its own boot
  // runs, and for fifteen minutes after it was taken: only then have the writes of an older boot settled.
  predicate Protected(s: State, m: Metadata) {
    m.bootId == s.boot || s.now < m.acquiredAt + MINIMUM_FENCE_RECOVERY_AGE_MS
  }

  function SetProject(s: State, id: string, p: Project): State {
    s.(projects := s.projects[id := p])
  }

  function SetCreator(s: State, id: nat, k: Creator): State {
    s.(creators := s.creators[id := k])
  }

  function SetDeleter(s: State, id: nat, d: Deleter): State {
    s.(deleters := s.deleters[id := d])
  }

  function SetRecoverer(s: State, id: nat, r: Recoverer): State {
    s.(recoverers := s.recoverers[id := r])
  }

  predicate LiveCreator(s: State, id: nat) {
    id in s.creators && s.creators[id].meta.bootId == s.boot
  }

  predicate LiveDeleter(s: State, id: nat) {
    id in s.deleters && s.deleters[id].bootId == s.boot
  }

  predicate LiveRecoverer(s: State, id: nat) {
    id in s.recoverers && s.recoverers[id].bootId == s.boot
  }

  function ApplyAcquire(s: State, project: string, m: Metadata, visible: bool): State {
    if project in s.projects && visible && AcquireMatches(s.projects[project], m.reservationId)
    then SetProject(s, project, AcquireUpdate(s.projects[project], m))
    else s
  }

  function ApplyRelease(s: State, project: string, m: Metadata): State {
    if project in s.projects && ReleaseMatches(s.projects[project], m)
    then SetProject(s, project, ReleaseUpdate(s.projects[project], m))
    else s
  }

  function ApplyClear(s: State, project: string, m: Metadata, visible: bool): State {
    if project in s.projects && visible && ClearMatches(s.projects[project], m)
    then SetProject(s, project, ReleaseUpdate(s.projects[project], m))
    else s
  }

  function ApplyLock(s: State, project: string, lockId: string, visible: bool): State {
    if project in s.projects && visible && LockMatches(s.projects[project])
    then SetProject(s, project, s.projects[project].(lock := Some(lockId)))
    else s
  }

  function ApplyDelete(s: State, project: string, lockId: string): State {
    if project in s.projects && s.projects[project].lock == Some(lockId)
    then s.(projects := s.projects - {project}, retired := s.retired + {project})
    else s
  }

  function ApplyUnlock(s: State, project: string, lockId: string): State {
    if project in s.projects && s.projects[project].lock == Some(lockId)
    then SetProject(s, project, s.projects[project].(lock := None))
    else s
  }

  // Inserting a child, or moving an existing one, into the project.
  function ApplyWrite(s: State, project: string, child: ChildId): State {
    s.(children := s.children[child := project])
  }

  function Count(s: State, project: string, resourceType: ResourceType): nat {
    |set c | c in s.children && c.resourceType == resourceType && s.children[c] == project|
  }

  // ---------------------------------------------------------------- creator steps

  function LandCreatorOp(s: State, id: nat, k: Creator, visible: bool, child: ChildId): State {
    match k.pending
    case NoOp => s
    case PendingAcquire =>
      SetCreator(ApplyAcquire(s, k.project, k.meta, visible), id, k.(pending := NoOp))
    case PendingWrite =>
      if Protected(s, k.meta) then ApplyWrite(s, k.project, child) else s
    case PendingRemove(c) =>
      SetCreator(s.(children := s.children - {c}), id, k.(pending := NoOp))
    case PendingRelease =>
      SetCreator(ApplyRelease(s, k.project, k.meta), id, k.(pending := NoOp))
  }

  function AbandonedOp(phase: CreatorPhase): CreatorPending {
    match phase
    case Acquiring => PendingAcquire
    case Operating => PendingWrite
    case Removing(child) => PendingRemove(child)
    case Releasing(_, _) => PendingRelease
    case _ => NoOp
  }

  function NextCreator(s: State, step: Step): State {
    match step
    case StartCreator(id, mode, project, reservationId, kind, resourceId, clock) =>
      var m := Metadata(reservationId, kind, resourceId, clock, s.boot);
      if id in s.creators || !ValidMetadata(m) then s
      else SetCreator(s, id, Creator(mode, project, m, Acquiring, NoOp))
    case Acquire(id, visible) =>
      if !LiveCreator(s, id) || !s.creators[id].phase.Acquiring? then s else
        var k := s.creators[id];
        var s' := ApplyAcquire(s, k.project, k.meta, visible);
        var acquired := k.project in s.projects && visible
                        && AcquireMatches(s.projects[k.project], k.meta.reservationId)
                        && AcquireConfirmed(s'.projects[k.project], k.meta);
        SetCreator(s', id, k.(phase := if acquired then Operating else CreatorDone(WriteBlocked)))
    case Write(id, child) =>
      if !LiveCreator(s, id) || !s.creators[id].phase.Operating? then s
      else ApplyWrite(s, s.creators[id].project, child)
    case OperationReturned(id, created) =>
      if !LiveCreator(s, id) || !s.creators[id].phase.Operating? then s
      else SetCreator(s, id, s.creators[id].(phase := Verifying(created)))
    case OperationThrew(id, noWrite) =>
      if !LiveCreator(s, id) || !s.creators[id].phase.Operating? then s
      else SetCreator(s, id,
                      if noWrite then s.creators[id].(phase := Releasing(true, NoWrite))
                      else s.creators[id].(phase := CreatorDone(Threw), pending := PendingWrite))
    case Verify(id) =>
      if !LiveCreator(s, id) || !s.creators[id].phase.Verifying? then s else
        var k := s.creators[id];
        var verified := k.project in s.projects && VerifyMatches(s.projects[k.project], k.meta);
        SetCreator(s, id, k.(phase :=
          if verified then Releasing(true, Returned)
          else if k.mode == Run then CreatorDone(OutcomeUnknown)
          else if k.phase.created.Some? then Removing(k.phase.created.value)
          else Releasing(false, WriteBlocked)))
    case RemoveCreated(id) =>
      if !LiveCreator(s, id) || !s.creators[id].phase.Removing? then s else
        var k := s.creators[id];
        SetCreator(s.(children := s.children - {k.phase.child}), id, k.(phase := Releasing(false, WriteBlocked)))
    case Release(id) =>
      if !LiveCreator(s, id) || !s.creators[id].phase.Releasing? then s else
        var k := s.creators[id];
        var matched := k.project in s.projects && ReleaseMatches(s.projects[k.project], k.meta);
        SetCreator(ApplyRelease(s, k.project, k.meta), id, k.(phase := CreatorDone(
          if k.phase.mustMatch && !matched then OutcomeUnknown else k.phase.result)))
    case LoseCreator(id) =>
      if id !in s.creators || s.creators[id].phase.CreatorDone? then s else
        var k := s.creators[id];
        SetCreator(s, id, k.(phase := CreatorDone(Threw), pending := AbandonedOp(k.phase)))
    case LandCreator(id, visible, child) =>
      if id !in s.creators then s
      else LandCreatorOp(s, id, s.creators[id], visible, child)
    case LateWrite(id, child) =>
      if id !in s.creators || !s.creators[id].pending.PendingWrite? then s
      else ApplyWrite(s, s.creators[id].project, child)
    case _ => s
  }

  // ---------------------------------------------------------------- deleter steps

  // Both counts are known: the branch the code takes after Promise.all.
  function AfterCounts(phase: DeleterPhase): DeleterPhase {
    match phase
    case Counting(Some(timecards), Some(tasks)) =>
      if timecards != 0 || tasks != 0 then Unlocking(NotEmpty) else Deleting
    case _ => phase
  }

  function NextDeleter(s: State, step: Step): State {
    match step
    case StartDeleter(id, project, lockId) =>
      if id in s.deleters || !ValidFenceId(lockId) then s
      else SetDeleter(s, id, Deleter(project, lockId, s.boot, Locking, NoDelete))
    case Lock(id, visible) =>
      if !LiveDeleter(s, id) || !s.deleters[id].phase.Locking? then s else
        var d := s.deleters[id];
        var locked := d.project in s.projects && visible && LockMatches(s.projects[d.project]);
        SetDeleter(ApplyLock(s, d.project, d.lockId, visible), id,
                   d.(phase := if locked then Counting(None, None) else DeleterDone(DeleteConflict)))
    case CountTimecards(id) =>
      if !LiveDeleter(s, id) || !s.deleters[id].phase.Counting? then s else
        var d := s.deleters[id];
        SetDeleter(s, id, d.(phase :=
          AfterCounts(d.phase.(timecards := Some(Count(s, d.project, Timecard))))))
    case CountTasks(id) =>
      if !LiveDeleter(s, id) || !s.deleters[id].phase.Counting? then s else
        var d := s.deleters[id];
        SetDeleter(s, id, d.(phase := AfterCounts(d.phase.(tasks := Some(Count(s, d.project, Task))))))
    case Delete(id) =>
      if !LiveDeleter(s, id) || !s.deleters[id].phase.Deleting? then s else
        var d := s.deleters[id];
        var matched := d.project in s.projects && s.projects[d.project].lock == Some(d.lockId);
        SetDeleter(ApplyDelete(s, d.project, d.lockId), id,
                   d.(phase := if matched then Unlocking(Deleted) else DeleterDone(DeleteConflict)))
    case Unlock(id) =>
      if !LiveDeleter(s, id) || !s.deleters[id].phase.Unlocking? then s else
        var d := s.deleters[id];
        SetDeleter(ApplyUnlock(s, d.project, d.lockId), id, d.(phase := DeleterDone(d.phase.result)))
    case LoseDeleter(id) =>
      if id !in s.deleters || s.deleters[id].phase.DeleterDone? then s else
        var d := s.deleters[id];
        SetDeleter(s, id, d.(phase := DeleterDone(DeleteThrew), pending :=
          match d.phase
          case Locking => PendingLock
          case Deleting => PendingDelete
          case Unlocking(_) => PendingUnlock
          case _ => NoDelete))
    case LandDeleter(id, visible) =>
      if id !in s.deleters then s else
        var d := s.deleters[id];
        var s' :=
          match d.pending
          case NoDelete => s
          case PendingLock => ApplyLock(s, d.project, d.lockId, visible)
          case PendingDelete => ApplyDelete(s, d.project, d.lockId)
          case PendingUnlock => ApplyUnlock(s, d.project, d.lockId);
        SetDeleter(s', id, d.(pending := NoDelete))
    case _ => s
  }

  // ---------------------------------------------------------------- recovery steps

  function NextRecoverer(s: State, step: Step): State {
    match step
    case StartRecoverer(id, project, reservationId, allowed) =>
      if id in s.recoverers || !ValidFenceId(reservationId) then s
      else SetRecoverer(s, id, Recoverer(project, reservationId, s.boot, allowed, Reading, None))
    case ReadProject(id, visible) =>
      if !LiveRecoverer(s, id) || !s.recoverers[id].phase.Reading? then s else
        var r := s.recoverers[id];
        SetRecoverer(s, id, r.(phase :=
          if r.project !in s.projects || !visible then RecovererDone(NotAuthorized)
          else match Analyze(s.projects[r.project], r.reservationId, s.now, s.boot, r.allowed)
               case Blocked(status) => RecovererDone(status)
               case Candidate(m) => FindingResource(m)))
    case FindResource(id) =>
      if !LiveRecoverer(s, id) || !s.recoverers[id].phase.FindingResource? then s else
        var r := s.recoverers[id];
        var m := r.phase.candidate;
        var c := ChildId(ResourceTypeOf(m.kind), m.resourceId);
        var unexpected := c in s.children && s.children[c] != r.project;
        SetRecoverer(s, id, r.(phase :=
          if unexpected then RecovererDone(ResourceUnexpected) else Clearing(m)))
    case Clear(id, visible) =>
      if !LiveRecoverer(s, id) || !s.recoverers[id].phase.Clearing? then s else
        var r := s.recoverers[id];
        var m := r.phase.candidate;
        var matched := r.project in s.projects && visible && ClearMatches(s.projects[r.project], m);
        SetRecoverer(ApplyClear(s, r.project, m, visible), id,
                     r.(phase := RecovererDone(if matched then Cleared else RecoveryConflict)))
    case LoseRecoverer(id) =>
      if id !in s.recoverers || s.recoverers[id].phase.RecovererDone? then s else
        var r := s.recoverers[id];
        SetRecoverer(s, id, r.(phase := RecovererDone(RecoveryThrew),
                               pending := if r.phase.Clearing? then Some(r.phase.candidate) else None))
    case LandRecoverer(id, visible) =>
      if id !in s.recoverers || s.recoverers[id].pending.None? then s else
        var r := s.recoverers[id];
        SetRecoverer(ApplyClear(s, r.project, r.pending.value, visible), id, r.(pending := None))
    case _ => s
  }

  // ---------------------------------------------------------------- environment steps

  function NextEnvironment(s: State, step: Step): State {
    match step
    case CreateProject(project) =>
      if project in s.projects || project in s.retired then s else SetProject(s, project, EMPTY_FENCE)
    case SetGraphLock(project, on) =>
      if project !in s.projects then s
      else SetProject(s, project, s.projects[project].(graphLock := on))
    case DeleteChild(child) => s.(children := s.children - {child})
    case Tick(elapsed) => s.(now := s.now + elapsed)
    case Restart => s.(boot := s.boot + 1)
    case _ => s
  }

  function Next(s: State, step: Step): State {
    if step.StartCreator? || step.Acquire? || step.Write? || step.OperationReturned? || step.OperationThrew?
       || step.Verify? || step.RemoveCreated? || step.Release? || step.LoseCreator? || step.LandCreator?
       || step.LateWrite? then NextCreator(s, step)
    else if step.StartDeleter? || step.Lock? || step.CountTimecards? || step.CountTasks? || step.Delete?
            || step.Unlock? || step.LoseDeleter? || step.LandDeleter? then NextDeleter(s, step)
    else if step.StartRecoverer? || step.ReadProject? || step.FindResource? || step.Clear?
            || step.LoseRecoverer? || step.LandRecoverer? then NextRecoverer(s, step)
    else NextEnvironment(s, step)
  }

  function Exec(s: State, steps: seq<Step>): State {
    if steps == [] then s else Next(Exec(s, steps[..|steps| - 1]), steps[|steps| - 1])
  }
}
