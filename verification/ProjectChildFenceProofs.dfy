// Safety of the project child fence over every run: any number of creators, deleters and
// recoveries, interleaved at their atomic operations, with crashes, restarts and lost replies.
module ProjectChildFenceProofs {
  import opened Options
  import opened ProjectChildFence

  // ---------------------------------------------------------------- the invariant

  ghost predicate Distinct<T>(xs: seq<T>) {
    forall i, j :: 0 <= i < j < |xs| ==> xs[i] != xs[j]
  }

  // The two lists name the same distinct reservations, in the same order; a held lock excludes them.
  ghost predicate ProjectInv(p: Project, boot: nat) {
    && p.writers == Ids(p.metadata)
    && Distinct(p.writers)
    && |p.writers| <= MAX_PROJECT_CHILD_WRITERS
    && (p.lock.Some? ==> p.writers == [])
    && forall m <- p.metadata :: ValidMetadata(m) && m.bootId <= boot
  }

  ghost predicate ProjectsInv(s: State) {
    forall p <- s.projects :: p !in s.retired && ProjectInv(s.projects[p], s.boot)
  }

  // The creator may still write, or still has its reservation to give back.
  predicate Owning(k: Creator) {
    k.phase.Operating? || k.phase.Verifying? || k.phase.Releasing?
    || k.pending.PendingWrite? || k.pending.PendingRelease?
  }

  predicate Reserved(s: State, project: string, m: Metadata) {
    project in s.projects && m in s.projects[project].metadata
  }

  ghost predicate CreatorInv(s: State, k: Creator) {
    && ValidMetadata(k.meta) && k.meta.bootId <= s.boot
    && (!k.phase.CreatorDone? ==> k.pending.NoOp?)
    && !k.phase.Removing? && !k.pending.PendingRemove?
    && (k.phase.Releasing? ==> k.phase.mustMatch && k.phase.result != OutcomeUnknown)
    && k.phase != CreatorDone(OutcomeUnknown)
    && (Owning(k) && Protected(s, k.meta) ==> Reserved(s, k.project, k.meta))
  }

  predicate ActiveOwner(s: State, i: nat) {
    i in s.creators && Owning(s.creators[i]) && Protected(s, s.creators[i].meta)
  }

  ghost predicate CreatorsInv(s: State) {
    && (forall i <- s.creators :: CreatorInv(s, s.creators[i]))
    && forall i, j :: ActiveOwner(s, i) && ActiveOwner(s, j) && i != j
         && s.creators[i].project == s.creators[j].project
         ==> s.creators[i].meta.reservationId != s.creators[j].meta.reservationId
  }

  // Between taking the lifecycle lock and giving it up or deleting the project.
  predicate InSection(d: Deleter) {
    d.phase.Counting? || d.phase.Deleting? || d.phase.Unlocking?
    || d.pending.PendingDelete? || d.pending.PendingUnlock?
  }

  predicate Locked(s: State, project: string, lockId: string) {
    project in s.projects && s.projects[project].lock == Some(lockId)
  }

  ghost predicate NoneOf(s: State, project: string, resourceType: ResourceType) {
    forall c <- s.children :: c.resourceType == resourceType ==> s.children[c] != project
  }

  ghost predicate DeleterInv(s: State, d: Deleter) {
    && (!d.phase.DeleterDone? ==> d.pending.NoDelete?)
    && (InSection(d) ==> Locked(s, d.project, d.lockId) || d.project in s.retired)
    && (d.phase.Counting? && d.phase.timecards == Some(0) ==> NoneOf(s, d.project, Timecard))
    && (d.phase.Counting? && d.phase.tasks == Some(0) ==> NoneOf(s, d.project, Task))
    && (d.phase.Deleting? || d.pending.PendingDelete? ==>
          NoneOf(s, d.project, Timecard) && NoneOf(s, d.project, Task))
  }

  predicate LockOwner(s: State, i: nat) {
    i in s.deleters && InSection(s.deleters[i]) && s.deleters[i].project in s.projects
  }

  ghost predicate DeletersInv(s: State) {
    && (forall i <- s.deleters :: DeleterInv(s, s.deleters[i]))
    && forall i, j :: LockOwner(s, i) && LockOwner(s, j) && i != j
         ==> s.deleters[i].project != s.deleters[j].project
  }

  // A recovery only ever clears a reservation that no longer protects anything.
  ghost predicate RecovererInv(s: State, r: Recoverer) {
    && (r.phase.FindingResource? || r.phase.Clearing? ==> !Protected(s, r.phase.candidate) && r.phase.candidate.bootId <= s.boot)
    && (r.pending.Some? ==> !Protected(s, r.pending.value) && r.pending.value.bootId <= s.boot)
  }

  ghost predicate RecoverersInv(s: State) {
    forall i <- s.recoverers :: RecovererInv(s, s.recoverers[i])
  }

  ghost predicate NoOrphans(s: State) {
    forall c <- s.children :: s.children[c] in s.projects
  }

  ghost predicate Inv(s: State) {
    ProjectsInv(s) && CreatorsInv(s) && DeletersInv(s) && RecoverersInv(s) && NoOrphans(s)
  }

  // Any projects with an empty fence, any children of them, and no process yet.
  ghost predicate Initial(s: State) {
    && (forall p <- s.projects :: p !in s.retired && s.projects[p].lock.None?
                                 && s.projects[p].writers == [] && s.projects[p].metadata == [])
    && s.creators == map[] && s.deleters == map[] && s.recoverers == map[]
    && NoOrphans(s)
  }

  // ---------------------------------------------------------------- the reservation lists

  // Releasing or recovering one reservation removes exactly its own entry from both lists.
  lemma {:induction false} PullOne(ms: seq<Metadata>, m: Metadata) returns (i: nat)
    requires Distinct(Ids(ms)) && m in ms
    ensures i < |ms| && ms[i] == m
    ensures PullMetadata(ms, m) == ms[..i] + ms[i + 1..]
    ensures PullWriter(Ids(ms), m.reservationId) == Ids(ms)[..i] + Ids(ms)[i + 1..]
  {
    i :| 0 <= i < |ms| && ms[i] == m;
    var ids := Ids(ms);
    assert ids[i] == m.reservationId;
    assert forall j :: 0 <= j < |ids| && j != i ==> ids[j] != m.reservationId;
    assert forall j :: 0 <= j < |ms| && j != i ==> ids[j] == ms[j].reservationId;
    hide Ids, Distinct;
    PullWriterAt(ids, m.reservationId, i);
    PullMetadataAt(ms, m, i);
  }

  lemma {:induction false} PullWriterAt(ids: seq<string>, id: string, i: nat)
    requires i < |ids| && ids[i] == id && forall j :: 0 <= j < |ids| && j != i ==> ids[j] != id
    ensures PullWriter(ids, id) == ids[..i] + ids[i + 1..]
  {
    if i == 0 {
      PullsNoWriter(ids[1..], id);
    } else {
      PullWriterAt(ids[1..], id, i - 1);
      DropInTail(ids, i - 1);
    }
  }

  lemma {:induction false} PullsNoWriter(ids: seq<string>, id: string)
    requires id !in ids
    ensures PullWriter(ids, id) == ids
  {
    if ids != [] {
      assert ids[0] in ids && ids == [ids[0]] + ids[1..];
      PullsNoWriter(ids[1..], id);
    }
  }

  lemma {:induction false} PullMetadataAt(ms: seq<Metadata>, m: Metadata, i: nat)
    requires i < |ms| && ms[i] == m && forall j :: 0 <= j < |ms| && j != i ==> ms[j] != m
    ensures PullMetadata(ms, m) == ms[..i] + ms[i + 1..]
  {
    if i == 0 {
      PullsNoMetadata(ms[1..], m);
    } else {
      PullMetadataAt(ms[1..], m, i - 1);
      DropInTail(ms, i - 1);
    }
  }

  lemma {:induction false} PullsNoMetadata(ms: seq<Metadata>, m: Metadata)
    requires m !in ms
    ensures PullMetadata(ms, m) == ms
  {
    if ms != [] {
      assert ms[0] in ms && ms == [ms[0]] + ms[1..];
      PullsNoMetadata(ms[1..], m);
    }
  }

  lemma DropInTail<T>(xs: seq<T>, j: nat)
    requires j + 1 < |xs|
    ensures [xs[0]] + (xs[1..][..j] + xs[1..][j + 1..]) == xs[..j + 1] + xs[j + 2..]
  {
  }

  lemma {:induction false} TrackedMembers(ms: seq<Metadata>, id: string)
    ensures forall m :: m in Tracked(ms, id) <==> m in ms && m.reservationId == id
  {
    if ms != [] {
      TrackedMembers(ms[1..], id);
    }
  }

  lemma NothingInside(ms: seq<Metadata>)
    ensures ms == [] || ms[0] in ms
  {
  }

  lemma {:induction false} TrackedOnce(ms: seq<Metadata>, id: string)
    requires Distinct(Ids(ms))
    ensures |Tracked(ms, id)| <= 1
  {
    if ms != [] {
      assert Ids(ms)[1..] == Ids(ms[1..]);
      if ms[0].reservationId == id {
        forall m <- ms[1..] ensures m.reservationId != id {
          var j :| 0 <= j < |ms[1..]| && ms[1..][j] == m;
          assert Ids(ms)[0] != Ids(ms)[j + 1];
        }
        TrackedMembers(ms[1..], id);
        NothingInside(Tracked(ms[1..], id));
      } else {
        TrackedOnce(ms[1..], id);
      }
    }
  }

  lemma WithoutOne<T>(xs: seq<T>, i: nat)
    requires i < |xs| && Distinct(xs)
    ensures Distinct(xs[..i] + xs[i + 1..])
    ensures forall x :: x in xs[..i] + xs[i + 1..] <==> x in xs && x != xs[i]
  {
  }

  lemma ReleaseUpdateKeeps(p: Project, m: Metadata, boot: nat)
    requires ProjectInv(p, boot) && m in p.metadata
    ensures ProjectInv(ReleaseUpdate(p, m), boot)
    ensures forall x :: x in ReleaseUpdate(p, m).metadata <==> x in p.metadata && x != m
    ensures |ReleaseUpdate(p, m).metadata| == |p.metadata| - 1
  {
    var q := ReleaseUpdate(p, m);
    var i := PullOne(p.metadata, m);
    assert q.writers == Ids(q.metadata);
    assert Distinct(p.metadata) by {
      assert forall i :: 0 <= i < |p.metadata| ==> p.writers[i] == p.metadata[i].reservationId;
    }
    WithoutOne(p.metadata, i);
    WithoutOne(p.writers, i);
  }

  lemma {:induction false} AcquireUpdateKeeps(p: Project, m: Metadata, boot: nat)
    requires ProjectInv(p, boot) && AcquireMatches(p, m.reservationId) && ValidMetadata(m) && m.bootId <= boot
    ensures ProjectInv(AcquireUpdate(p, m), boot)
    ensures AcquireConfirmed(AcquireUpdate(p, m), m)
  {
    var q := AcquireUpdate(p, m);
    assert q.writers == Ids(q.metadata);
    TrackedMembers(q.metadata, m.reservationId);
    TrackedOnce(q.metadata, m.reservationId);
    assert m in q.metadata;
    assert m in Tracked(q.metadata, m.reservationId);
  }

  // ---------------------------------------------------------------- changing one component

  lemma {:induction false} SetProjectKeeps(s: State, id: string, q: Project)
    requires Inv(s) && id !in s.retired && ProjectInv(q, s.boot)
    requires id in s.projects ==>
      forall i :: ActiveOwner(s, i) && s.creators[i].project == id ==> s.creators[i].meta in q.metadata
    requires id in s.projects ==>
      forall i :: LockOwner(s, i) && s.deleters[i].project == id ==> q.lock == Some(s.deleters[i].lockId)
    ensures Inv(SetProject(s, id, q))
  {
    var s' := SetProject(s, id, q);
    forall i <- s'.creators ensures CreatorInv(s', s'.creators[i]) {
      assert ActiveOwner(s', i) == ActiveOwner(s, i);
    }
    forall i <- s'.deleters ensures DeleterInv(s', s'.deleters[i]) {
      assert DeleterInv(s, s.deleters[i]);
      assert NoneOf(s, s.deleters[i].project, Timecard) == NoneOf(s', s.deleters[i].project, Timecard);
      assert NoneOf(s, s.deleters[i].project, Task) == NoneOf(s', s.deleters[i].project, Task);
    }
    forall i, j | LockOwner(s', i) && LockOwner(s', j) && i != j
      ensures s'.deleters[i].project != s'.deleters[j].project
    {
      assert DeleterInv(s, s.deleters[i]) && DeleterInv(s, s.deleters[j]);
    }
    assert RecoverersInv(s') by {
      forall i <- s'.recoverers ensures RecovererInv(s', s'.recoverers[i]) {
        assert RecovererInv(s, s.recoverers[i]);
      }
    }
  }

  lemma SetCreatorKeeps(s: State, id: nat, k: Creator)
    requires Inv(s) && CreatorInv(s, k)
    requires Owning(k) && Protected(s, k.meta) ==>
      forall j :: ActiveOwner(s, j) && j != id && s.creators[j].project == k.project
        ==> s.creators[j].meta.reservationId != k.meta.reservationId
    ensures Inv(SetCreator(s, id, k))
  {
    var s' := SetCreator(s, id, k);
    forall i <- s'.creators ensures CreatorInv(s', s'.creators[i]) {
      if i != id { assert CreatorInv(s, s.creators[i]); }
    }
    forall i, j | ActiveOwner(s', i) && ActiveOwner(s', j) && i != j && s'.creators[i].project == s'.creators[j].project
      ensures s'.creators[i].meta.reservationId != s'.creators[j].meta.reservationId
    {
      assert i == id || ActiveOwner(s, i);
      assert j == id || ActiveOwner(s, j);
    }
    assert DeletersInv(s') by { UnchangedDeleters(s, s'); }
    assert RecoverersInv(s') by {
      forall i <- s'.recoverers ensures RecovererInv(s', s'.recoverers[i]) {
        assert RecovererInv(s, s.recoverers[i]);
      }
    }
  }

  lemma UnchangedDeleters(s: State, s': State)
    requires DeletersInv(s)
    requires s'.projects == s.projects && s'.retired == s.retired && s'.deleters == s.deleters
    requires s'.children.Keys <= s.children.Keys && forall c <- s'.children :: s'.children[c] == s.children[c]
    ensures DeletersInv(s')
  {
  }

  lemma {:induction false} SetDeleterKeeps(s: State, id: nat, d: Deleter)
    requires Inv(s) && DeleterInv(s, d)
    requires InSection(d) && d.project in s.projects ==>
      forall j :: LockOwner(s, j) && j != id ==> s.deleters[j].project != d.project
    ensures Inv(SetDeleter(s, id, d))
  {
    var s' := SetDeleter(s, id, d);
    forall i <- s'.deleters ensures DeleterInv(s', s'.deleters[i]) {
      if i != id { assert DeleterInv(s, s.deleters[i]); }
      var e := s'.deleters[i];
      assert NoneOf(s, e.project, Timecard) == NoneOf(s', e.project, Timecard);
      assert NoneOf(s, e.project, Task) == NoneOf(s', e.project, Task);
    }
    forall i, j | LockOwner(s', i) && LockOwner(s', j) && i != j
      ensures s'.deleters[i].project != s'.deleters[j].project
    {
      assert i == id || LockOwner(s, i);
      assert j == id || LockOwner(s, j);
    }
    UnchangedCreators(s, s');
    assert RecoverersInv(s') by {
      forall i <- s'.recoverers ensures RecovererInv(s', s'.recoverers[i]) {
        assert RecovererInv(s, s.recoverers[i]);
      }
    }
  }

  lemma UnchangedCreators(s: State, s': State)
    requires CreatorsInv(s)
    requires s'.projects == s.projects && s'.creators == s.creators && s'.boot == s.boot && s'.now == s.now
    ensures CreatorsInv(s')
  {
  }

  lemma SetRecovererKeeps(s: State, id: nat, r: Recoverer)
    requires Inv(s) && RecovererInv(s, r)
    ensures Inv(SetRecoverer(s, id, r))
  {
    var s' := SetRecoverer(s, id, r);
    UnchangedCreators(s, s');
    UnchangedDeleters(s, s');
    forall i <- s'.recoverers ensures RecovererInv(s', s'.recoverers[i]) {
      if i != id { assert RecovererInv(s, s.recoverers[i]); }
    }
  }

  // ---------------------------------------------------------------- the atomic operations

  // While a protected reservation stands, nobody holds or takes the lifecycle lock.
  lemma ReservationExcludesLock(s: State, project: string, m: Metadata)
    requires Inv(s) && Reserved(s, project, m)
    ensures s.projects[project].lock.None? && m.reservationId in s.projects[project].writers
    ensures VerifyMatches(s.projects[project], m) && ReleaseMatches(s.projects[project], m)
  {
  }

  lemma AcquireKeeps(s: State, project: string, m: Metadata, visible: bool)
    requires Inv(s) && ValidMetadata(m) && m.bootId <= s.boot
    ensures Inv(ApplyAcquire(s, project, m, visible))
    ensures project in s.projects && visible && AcquireMatches(s.projects[project], m.reservationId) ==>
      var s' := ApplyAcquire(s, project, m, visible);
      && AcquireConfirmed(s'.projects[project], m) && Reserved(s', project, m)
      && forall j :: ActiveOwner(s', j) && s'.creators[j].project == project
           ==> s'.creators[j].meta.reservationId != m.reservationId
  {
    if project in s.projects && visible && AcquireMatches(s.projects[project], m.reservationId) {
      var p := s.projects[project];
      assert ProjectInv(p, s.boot);
      AcquireUpdateKeeps(p, m, s.boot);
      forall i | ActiveOwner(s, i) && s.creators[i].project == project
        ensures s.creators[i].meta in AcquireUpdate(p, m).metadata
        ensures s.creators[i].meta.reservationId != m.reservationId
      {
        assert CreatorInv(s, s.creators[i]);
        ReservationExcludesLock(s, project, s.creators[i].meta);
      }
      forall i | LockOwner(s, i) ensures s.deleters[i].project != project {
        assert DeleterInv(s, s.deleters[i]);
      }
      SetProjectKeeps(s, project, AcquireUpdate(p, m));
      var s' := ApplyAcquire(s, project, m, visible);
      forall j | ActiveOwner(s', j) && s'.creators[j].project == project
        ensures s'.creators[j].meta.reservationId != m.reservationId
      {
        assert ActiveOwner(s, j);
      }
    }
  }

  // Pulling an entry no active owner relies on.
  lemma ReleaseKeeps(s: State, project: string, m: Metadata)
    requires Inv(s)
    requires forall j :: ActiveOwner(s, j) && s.creators[j].project == project ==> s.creators[j].meta != m
    ensures Inv(ApplyRelease(s, project, m))
  {
    if project in s.projects && ReleaseMatches(s.projects[project], m) {
      var p := s.projects[project];
      assert ProjectInv(p, s.boot);
      ReleaseUpdateKeeps(p, m, s.boot);
      forall i | ActiveOwner(s, i) && s.creators[i].project == project
        ensures s.creators[i].meta in ReleaseUpdate(p, m).metadata
      {
        assert CreatorInv(s, s.creators[i]);
      }
      forall i | LockOwner(s, i) ensures s.deleters[i].project != project {
        assert DeleterInv(s, s.deleters[i]);
        if s.deleters[i].project == project { ReservationExcludesLock(s, project, m); }
      }
      SetProjectKeeps(s, project, ReleaseUpdate(p, m));
    }
  }

  lemma ClearKeeps(s: State, project: string, m: Metadata, visible: bool)
    requires Inv(s) && !Protected(s, m)
    ensures Inv(ApplyClear(s, project, m, visible))
  {
    if project in s.projects && visible && ClearMatches(s.projects[project], m) {
      ReleaseKeeps(s, project, m);
    }
  }

  // A write under an active reservation: the project exists and no deleter is counting it.
  lemma WriteKeeps(s: State, id: nat, child: ChildId)
    requires Inv(s) && ActiveOwner(s, id)
    ensures Inv(ApplyWrite(s, s.creators[id].project, child))
  {
    var k := s.creators[id];
    assert CreatorInv(s, k);
    ReservationExcludesLock(s, k.project, k.meta);
    var s' := ApplyWrite(s, k.project, child);
    UnchangedCreators(s, s');
    forall i <- s'.deleters ensures DeleterInv(s', s'.deleters[i]) {
      var d := s.deleters[i];
      assert DeleterInv(s, d);
      if InSection(d) {
        assert d.project != k.project;
        assert NoneOf(s, d.project, Timecard) ==> NoneOf(s', d.project, Timecard);
        assert NoneOf(s, d.project, Task) ==> NoneOf(s', d.project, Task);
      }
    }
    forall i, j | LockOwner(s', i) && LockOwner(s', j) && i != j
      ensures s'.deleters[i].project != s'.deleters[j].project
    {
      assert LockOwner(s, i) && LockOwner(s, j);
    }
    assert RecoverersInv(s') by {
      forall i <- s'.recoverers ensures RecovererInv(s', s'.recoverers[i]) {
        assert RecovererInv(s, s.recoverers[i]);
      }
    }
  }

  lemma RemoveChildKeeps(s: State, child: ChildId)
    requires Inv(s)
    ensures Inv(s.(children := s.children - {child}))
  {
  }

  lemma {:induction false} LockKeeps(s: State, project: string, lockId: string, visible: bool)
    requires Inv(s)
    ensures Inv(ApplyLock(s, project, lockId, visible))
    ensures project in s.projects && visible && LockMatches(s.projects[project]) ==>
      var s' := ApplyLock(s, project, lockId, visible);
      Locked(s', project, lockId) && forall j :: LockOwner(s', j) ==> s'.deleters[j].project != project
  {
    if project in s.projects && visible && LockMatches(s.projects[project]) {
      assert ProjectInv(s.projects[project], s.boot);
      forall i | ActiveOwner(s, i) ensures s.creators[i].project != project {
        assert CreatorInv(s, s.creators[i]);
      }
      forall i | LockOwner(s, i) ensures s.deleters[i].project != project {
        assert DeleterInv(s, s.deleters[i]);
      }
      SetProjectKeeps(s, project, s.projects[project].(lock := Some(lockId)));
      var s' := ApplyLock(s, project, lockId, visible);
      forall j | LockOwner(s', j) ensures s'.deleters[j].project != project {
        assert LockOwner(s, j);
      }
    }
  }

  lemma UnlockKeeps(s: State, project: string, lockId: string)
    requires Inv(s)
    requires forall j :: LockOwner(s, j) ==> s.deleters[j].project != project
    ensures Inv(ApplyUnlock(s, project, lockId))
  {
    if Locked(s, project, lockId) {
      assert ProjectInv(s.projects[project], s.boot);
      forall i | ActiveOwner(s, i) ensures s.creators[i].project != project {
        assert CreatorInv(s, s.creators[i]);
      }
      SetProjectKeeps(s, project, s.projects[project].(lock := None));
    }
  }

  // Deleting the locked project: nothing reserves it, nothing else holds it, and it has no child.
  lemma DeleteKeeps(s: State, project: string, lockId: string)
    requires Inv(s) && NoneOf(s, project, Timecard) && NoneOf(s, project, Task)
    ensures Inv(ApplyDelete(s, project, lockId))
  {
    if Locked(s, project, lockId) {
      var s' := ApplyDelete(s, project, lockId);
      assert ProjectInv(s.projects[project], s.boot);
      forall i <- s'.creators ensures CreatorInv(s', s'.creators[i]) {
        assert CreatorInv(s, s.creators[i]);
      }
      forall i, j | ActiveOwner(s', i) && ActiveOwner(s', j) && i != j && s'.creators[i].project == s'.creators[j].project
        ensures s'.creators[i].meta.reservationId != s'.creators[j].meta.reservationId
      {
        assert ActiveOwner(s, i) && ActiveOwner(s, j);
      }
      forall i <- s'.deleters ensures DeleterInv(s', s'.deleters[i]) {
        var d := s.deleters[i];
        assert DeleterInv(s, d);
        assert NoneOf(s, d.project, Timecard) ==> NoneOf(s', d.project, Timecard);
        assert NoneOf(s, d.project, Task) ==> NoneOf(s', d.project, Task);
      }
      forall i, j | LockOwner(s', i) && LockOwner(s', j) && i != j
        ensures s'.deleters[i].project != s'.deleters[j].project
      {
        assert LockOwner(s, i) && LockOwner(s, j);
      }
      forall i <- s'.recoverers ensures RecovererInv(s', s'.recoverers[i]) {
        assert RecovererInv(s, s.recoverers[i]);
      }
      forall c <- s'.children ensures s'.children[c] in s'.projects {
        assert c.resourceType == Timecard || c.resourceType == Task;
      }
    }
  }

  lemma CountZero(s: State, project: string, resourceType: ResourceType)
    ensures Count(s, project, resourceType) == 0 <==> NoneOf(s, project, resourceType)
  {
    var members := set c | c in s.children && c.resourceType == resourceType && s.children[c] == project;
    if !NoneOf(s, project, resourceType) {
      var c :| c in s.children && c.resourceType == resourceType && s.children[c] == project;
      assert c in members;
    } else {
      assert members == {};
    }
  }

  // ---------------------------------------------------------------- every step

  // A live creator's reservation is always there when it verifies or releases.
  lemma LiveReservation(s: State, id: nat)
    requires Inv(s) && LiveCreator(s, id) && Owning(s.creators[id])
    ensures ActiveOwner(s, id) && Reserved(s, s.creators[id].project, s.creators[id].meta)
    ensures VerifyMatches(s.projects[s.creators[id].project], s.creators[id].meta)
    ensures ReleaseMatches(s.projects[s.creators[id].project], s.creators[id].meta)
    ensures forall j ::
      ActiveOwner(s, j) && j != id && s.creators[j].project == s.creators[id].project
      ==> s.creators[j].meta.reservationId != s.creators[id].meta.reservationId
  {
  }

  // Nobody else relies on the entry an owner is about to pull.
  lemma OwnEntryOnly(s: State, id: nat, k: Creator)
    requires Inv(s) && id in s.creators && Owning(s.creators[id])
    requires k.meta == s.creators[id].meta && k.project == s.creators[id].project && !Owning(k)
    ensures var s1 := SetCreator(s, id, k);
      forall j :: ActiveOwner(s1, j) && s1.creators[j].project == k.project ==> s1.creators[j].meta != k.meta
  {
  }

  lemma StartCreatorKeeps(s: State, step: Step)
    requires Inv(s) && step.StartCreator?
    ensures Inv(NextCreator(s, step))
  {
    if NextCreator(s, step) != s {
      SetCreatorKeeps(s, step.id, NextCreator(s, step).creators[step.id]);
    }
  }

  lemma {:induction false} OperationStepKeeps(s: State, step: Step)
    requires Inv(s) && (step.OperationReturned? || step.OperationThrew?)
    ensures Inv(NextCreator(s, step))
  {
    if LiveCreator(s, step.id) && s.creators[step.id].phase.Operating? {
      LiveReservation(s, step.id);
      assert CreatorInv(s, s.creators[step.id]);
      SetCreatorKeeps(s, step.id, NextCreator(s, step).creators[step.id]);
    }
  }

  lemma VerifyStepKeeps(s: State, id: nat)
    requires Inv(s)
    ensures Inv(NextCreator(s, Verify(id)))
  {
    if LiveCreator(s, id) && s.creators[id].phase.Verifying? {
      LiveReservation(s, id);
      assert CreatorInv(s, s.creators[id]);
      SetCreatorKeeps(s, id, s.creators[id].(phase := Releasing(true, Returned)));
    }
  }

  lemma {:induction false} AcquireStepKeeps(s: State, id: nat, visible: bool)
    requires Inv(s)
    ensures Inv(NextCreator(s, Acquire(id, visible)))
  {
    if LiveCreator(s, id) && s.creators[id].phase.Acquiring? {
      var k := s.creators[id];
      assert CreatorInv(s, k);
      AcquireKeeps(s, k.project, k.meta, visible);
      var s1 := ApplyAcquire(s, k.project, k.meta, visible);
      assert s1.creators == s.creators && s1.boot == s.boot && s1.now == s.now;
      hide AcquireUpdate, AcquireConfirmed, Inv;
      SetCreatorKeeps(s1, id, NextCreator(s, Acquire(id, visible)).creators[id]);
    }
  }

  lemma WriteStepKeeps(s: State, id: nat, child: ChildId)
    requires Inv(s)
    ensures Inv(NextCreator(s, Write(id, child)))
  {
    if LiveCreator(s, id) && s.creators[id].phase.Operating? { WriteKeeps(s, id, child); }
  }

  lemma {:induction false} ReleaseStepKeeps(s: State, id: nat)
    requires Inv(s)
    ensures Inv(NextCreator(s, Release(id)))
  {
    if LiveCreator(s, id) && s.creators[id].phase.Releasing? {
      var k := s.creators[id];
      assert CreatorInv(s, k);
      LiveReservation(s, id);
      var k' := k.(phase := CreatorDone(k.phase.result));
      SetCreatorKeeps(s, id, k');
      OwnEntryOnly(s, id, k');
      ReleaseKeeps(SetCreator(s, id, k'), k.project, k.meta);
    }
  }

  lemma {:induction false} LoseCreatorKeeps(s: State, id: nat)
    requires Inv(s)
    ensures Inv(NextCreator(s, LoseCreator(id)))
  {
    if id in s.creators && !s.creators[id].phase.CreatorDone? {
      var k := s.creators[id];
      assert CreatorInv(s, k);
      var k' := k.(phase := CreatorDone(Threw), pending := AbandonedOp(k.phase));
      if Owning(k') && Protected(s, k'.meta) { assert ActiveOwner(s, id); }
      SetCreatorKeeps(s, id, k');
    }
  }

  lemma {:induction false} LandCreatorKeeps(s: State, id: nat, visible: bool, child: ChildId)
    requires Inv(s)
    ensures Inv(NextCreator(s, LandCreator(id, visible, child)))
  {
    if id in s.creators {
      var k := s.creators[id];
      assert CreatorInv(s, k);
      var k' := k.(pending := NoOp);
      match k.pending
      case NoOp =>
      case PendingAcquire =>
        AcquireKeeps(s, k.project, k.meta, visible);
        SetCreatorKeeps(ApplyAcquire(s, k.project, k.meta, visible), id, k');
      case PendingWrite => if Protected(s, k.meta) { WriteKeeps(s, id, child); }
      case PendingRemove(c) =>
      case PendingRelease =>
        SetCreatorKeeps(s, id, k');
        OwnEntryOnly(s, id, k');
        ReleaseKeeps(SetCreator(s, id, k'), k.project, k.meta);
    }
  }

  lemma {:induction false} LockStepKeeps(s: State, id: nat, visible: bool)
    requires Inv(s)
    ensures Inv(NextDeleter(s, Lock(id, visible)))
  {
    if LiveDeleter(s, id) && s.deleters[id].phase.Locking? {
      var d := s.deleters[id];
      assert DeleterInv(s, d);
      LockKeeps(s, d.project, d.lockId, visible);
      SetDeleterKeeps(ApplyLock(s, d.project, d.lockId, visible), id, NextDeleter(s, Lock(id, visible)).deleters[id]);
    }
  }

  lemma {:induction false} DeleteStepKeeps(s: State, id: nat)
    requires Inv(s)
    ensures Inv(NextDeleter(s, Delete(id)))
  {
    if LiveDeleter(s, id) && s.deleters[id].phase.Deleting? {
      var d := s.deleters[id];
      var d1 := d.(phase := DeleterDone(DeleteConflict));
      assert DeleterInv(s, d);
      var s1 := DeleteOnceCounted(s, id, d1);
      if Locked(s, d.project, d.lockId) {
        var d2 := d.(phase := Unlocking(Deleted));
        DeletedProjectUnlocking(s1, id, d2);
        assert s1.deleters[id := d2] == s.deleters[id := d2];
      }
    }
  }

  lemma DeletedProjectUnlocking(s: State, id: nat, d: Deleter)
    requires Inv(s) && d.phase == Unlocking(Deleted) && d.pending == NoDelete && d.project in s.retired
    ensures Inv(SetDeleter(s, id, d))
  {
    SetDeleterKeeps(s, id, d);
  }

  lemma DeleteOnceCounted(s: State, id: nat, d': Deleter) returns (s': State)
    requires Inv(s) && id in s.deleters && InSection(s.deleters[id])
    requires s.deleters[id].phase.Deleting? || s.deleters[id].pending.PendingDelete?
    requires d'.project == s.deleters[id].project && d'.phase.DeleterDone? && !InSection(d')
    ensures s' == SetDeleter(ApplyDelete(s, d'.project, d'.lockId), id, d') && Inv(s')
  {
    assert DeleterInv(s, s.deleters[id]);
    LeaveSection(s, id, d');
    var s1 := SetDeleter(s, id, d');
    assert NoneOf(s1, d'.project, Timecard) && NoneOf(s1, d'.project, Task);
    DeleteKeeps(s1, d'.project, d'.lockId);
    s' := ApplyDelete(s1, d'.project, d'.lockId);
  }

  // The section's one owner leaves it: nobody else is in the section of a project that still exists.
  lemma LeaveSection(s: State, id: nat, d': Deleter)
    requires Inv(s) && id in s.deleters && InSection(s.deleters[id])
    requires d'.project == s.deleters[id].project && d'.phase.DeleterDone? && !InSection(d')
    ensures Inv(SetDeleter(s, id, d'))
    ensures var s1 := SetDeleter(s, id, d');
      d'.project in s.projects ==> forall j :: LockOwner(s1, j) ==> s1.deleters[j].project != d'.project
  {
    SetDeleterKeeps(s, id, d');
    var s1 := SetDeleter(s, id, d');
    forall j | d'.project in s.projects && LockOwner(s1, j) ensures s1.deleters[j].project != d'.project {
      assert LockOwner(s, j) && LockOwner(s, id) && j != id;
    }
  }

  lemma LoseDeleterKeeps(s: State, id: nat)
    requires Inv(s)
    ensures Inv(NextDeleter(s, LoseDeleter(id)))
  {
    if id in s.deleters && !s.deleters[id].phase.DeleterDone? {
      var d' := NextDeleter(s, LoseDeleter(id)).deleters[id];
      assert DeleterInv(s, s.deleters[id]);
      if InSection(d') && d'.project in s.projects { assert LockOwner(s, id); }
      SetDeleterKeeps(s, id, d');
    }
  }

  lemma {:induction false} UnlockStepKeeps(s: State, id: nat, d': Deleter)
    requires Inv(s) && id in s.deleters && InSection(s.deleters[id])
    requires d'.project == s.deleters[id].project && d'.phase.DeleterDone? && !InSection(d')
    ensures Inv(SetDeleter(ApplyUnlock(s, d'.project, d'.lockId), id, d'))
  {
    LeaveSection(s, id, d');
    if d'.project in s.projects { UnlockKeeps(SetDeleter(s, id, d'), d'.project, d'.lockId); }
  }

  lemma {:induction false} FinishSection(s: State, id: nat)
    requires Inv(s) && LiveDeleter(s, id) && s.deleters[id].phase.Unlocking?
    ensures Inv(NextDeleter(s, Unlock(id)))
  {
    var d := s.deleters[id];
    assert DeleterInv(s, d);
    UnlockStepKeeps(s, id, d.(phase := DeleterDone(d.phase.result)));
  }

  lemma StartDeleterKeeps(s: State, id: nat, project: string, lockId: string)
    requires Inv(s)
    ensures Inv(NextDeleter(s, StartDeleter(id, project, lockId)))
  {
    if id !in s.deleters && ValidFenceId(lockId) {
      SetDeleterKeeps(s, id, Deleter(project, lockId, s.boot, Locking, NoDelete));
    }
  }

  lemma CountStepKeeps(s: State, id: nat, resourceType: ResourceType)
    requires Inv(s)
    ensures Inv(NextDeleter(s, if resourceType == Timecard then CountTimecards(id) else CountTasks(id)))
  {
    if LiveDeleter(s, id) && s.deleters[id].phase.Counting? {
      var d := s.deleters[id];
      assert DeleterInv(s, d);
      CountZero(s, d.project, resourceType);
      if d.project in s.projects { assert LockOwner(s, id); }
      SetDeleterKeeps(s, id,
        NextDeleter(s, if resourceType == Timecard then CountTimecards(id) else CountTasks(id)).deleters[id]);
    }
  }

  lemma {:induction false} LandDeleterKeeps(s: State, id: nat, visible: bool)
    requires Inv(s)
    ensures Inv(NextDeleter(s, LandDeleter(id, visible)))
  {
    if id in s.deleters {
      var d := s.deleters[id];
      assert DeleterInv(s, d);
      var d' := d.(pending := NoDelete);
      match d.pending
      case NoDelete =>
        assert SetDeleter(s, id, d') == s;
      case PendingLock =>
        LockKeeps(s, d.project, d.lockId, visible);
        SetDeleterKeeps(ApplyLock(s, d.project, d.lockId, visible), id, d');
      case PendingDelete => var s' := DeleteOnceCounted(s, id, d');
      case PendingUnlock => UnlockStepKeeps(s, id, d');
    }
  }

  // Only an entry of an older boot, at least fifteen minutes old, becomes a candidate.
  lemma CandidateUnprotected(s: State, project: string, id: string, allowed: bool)
    requires Inv(s) && project in s.projects
    requires Analyze(s.projects[project], id, s.now, s.boot, allowed).Candidate?
    ensures var m := Analyze(s.projects[project], id, s.now, s.boot, allowed).metadata;
      !Protected(s, m) && m.bootId <= s.boot && m.reservationId == id && Reserved(s, project, m)
  {
    var p := s.projects[project];
    assert ProjectInv(p, s.boot);
    TrackedMembers(p.metadata, id);
    assert Tracked(p.metadata, id)[0] in Tracked(p.metadata, id);
  }

  lemma ReadProjectKeeps(s: State, id: nat, visible: bool)
    requires Inv(s)
    ensures Inv(NextRecoverer(s, ReadProject(id, visible)))
  {
    if LiveRecoverer(s, id) && s.recoverers[id].phase.Reading? {
      var r := s.recoverers[id];
      assert RecovererInv(s, r);
      if r.project in s.projects && Analyze(s.projects[r.project], r.reservationId, s.now, s.boot, r.allowed).Candidate? {
        CandidateUnprotected(s, r.project, r.reservationId, r.allowed);
      }
      SetRecovererKeeps(s, id, NextRecoverer(s, ReadProject(id, visible)).recoverers[id]);
    }
  }

  lemma {:induction false} ClearStepKeeps(s: State, id: nat, visible: bool)
    requires Inv(s)
    ensures Inv(NextRecoverer(s, Clear(id, visible)))
  {
    hide PullWriter, PullMetadata, Tracked, Occurrences;
    if LiveRecoverer(s, id) && s.recoverers[id].phase.Clearing? {
      var r := s.recoverers[id];
      assert RecovererInv(s, r);
      ClearKeeps(s, r.project, r.phase.candidate, visible);
      var s1 := ApplyClear(s, r.project, r.phase.candidate, visible);
      hide ReleaseUpdate, Analyze, Inv;
      SetRecovererKeeps(s1, id, NextRecoverer(s, Clear(id, visible)).recoverers[id]);
    }
  }

  lemma {:induction false} LandRecovererKeeps(s: State, id: nat, visible: bool)
    requires Inv(s)
    ensures Inv(NextRecoverer(s, LandRecoverer(id, visible)))
  {
    if id in s.recoverers && s.recoverers[id].pending.Some? {
      var r := s.recoverers[id];
      assert RecovererInv(s, r);
      ClearKeeps(s, r.project, r.pending.value, visible);
      SetRecovererKeeps(ApplyClear(s, r.project, r.pending.value, visible), id, r.(pending := None));
    }
  }

  // Starting a recovery, looking for its resource, and losing its reply touch only the recovery itself.
  lemma {:induction false} OtherRecovererStepKeeps(s: State, step: Step)
    requires Inv(s) && (step.StartRecoverer? || step.FindResource? || step.LoseRecoverer?)
    ensures Inv(NextRecoverer(s, step))
  {
    var s' := NextRecoverer(s, step);
    if s' != s {
      if step.id in s.recoverers { assert RecovererInv(s, s.recoverers[step.id]); }
      SetRecovererKeeps(s, step.id, s'.recoverers[step.id]);
    }
  }

  // Time and restarts only ever withdraw protection.
  lemma TimeKeeps(s: State, s': State)
    requires Inv(s)
    requires s' == s.(boot := s'.boot, now := s'.now) && s.boot <= s'.boot && s.now <= s'.now
    ensures Inv(s')
  {
    forall p <- s'.projects ensures p !in s'.retired && ProjectInv(s'.projects[p], s'.boot) {
      assert ProjectInv(s.projects[p], s.boot);
    }
    forall i <- s'.creators ensures CreatorInv(s', s'.creators[i]) {
      assert CreatorInv(s, s.creators[i]);
    }
    forall i, j | ActiveOwner(s', i) && ActiveOwner(s', j) && i != j && s'.creators[i].project == s'.creators[j].project
      ensures s'.creators[i].meta.reservationId != s'.creators[j].meta.reservationId
    {
      assert CreatorInv(s, s.creators[i]) && CreatorInv(s, s.creators[j]);
      assert ActiveOwner(s, i) && ActiveOwner(s, j);
    }
    UnchangedDeleters(s, s');
    forall i <- s'.recoverers ensures RecovererInv(s', s'.recoverers[i]) {
      assert RecovererInv(s, s.recoverers[i]);
    }
  }

  lemma {:induction false} GraphLockKeeps(s: State, project: string, on: bool)
    requires Inv(s)
    ensures Inv(NextEnvironment(s, SetGraphLock(project, on)))
  {
    if project in s.projects {
      var p := s.projects[project];
      assert ProjectInv(p, s.boot);
      forall i | ActiveOwner(s, i) && s.creators[i].project == project ensures s.creators[i].meta in p.metadata {
        assert CreatorInv(s, s.creators[i]);
      }
      forall i | LockOwner(s, i) && s.deleters[i].project == project ensures p.lock == Some(s.deleters[i].lockId) {
        assert DeleterInv(s, s.deleters[i]);
      }
      SetProjectKeeps(s, project, p.(graphLock := on));
    }
  }

  lemma {:induction false} EnvironmentStepKeeps(s: State, step: Step)
    requires Inv(s)
    ensures Inv(NextEnvironment(s, step))
  {
    match step
    case CreateProject(project) =>
      if project !in s.projects && project !in s.retired {
        SetProjectKeeps(s, project, EMPTY_FENCE);
      }
    case SetGraphLock(project, on) => GraphLockKeeps(s, project, on);
    case DeleteChild(child) => RemoveChildKeeps(s, child);
    case Tick(elapsed) => TimeKeeps(s, NextEnvironment(s, step));
    case Restart => TimeKeeps(s, NextEnvironment(s, step));
    case _ =>
  }

  lemma RemoveCreatedKeeps(s: State, id: nat)
    requires Inv(s)
    ensures Inv(NextCreator(s, RemoveCreated(id)))
  {
  }

  lemma NotCreatorStep(s: State, step: Step)
    requires !step.StartCreator? && !step.Acquire? && !step.Write? && !step.OperationReturned? && !step.OperationThrew?
    requires !step.Verify? && !step.RemoveCreated? && !step.Release? && !step.LoseCreator? && !step.LandCreator?
    requires !step.LateWrite?
    ensures NextCreator(s, step) == s
  {
  }

  lemma {:induction false} CreatorStepKeeps(s: State, step: Step)
    requires Inv(s) && !step.LateWrite?
    ensures Inv(NextCreator(s, step))
  {
    hide *;
    match step
    case StartCreator(_, _, _, _, _, _, _) => StartCreatorKeeps(s, step);
    case Acquire(id, visible) => AcquireStepKeeps(s, id, visible);
    case Write(id, child) => WriteStepKeeps(s, id, child);
    case OperationReturned(_, _) => OperationStepKeeps(s, step);
    case OperationThrew(_, _) => OperationStepKeeps(s, step);
    case Verify(id) => VerifyStepKeeps(s, id);
    case RemoveCreated(id) => RemoveCreatedKeeps(s, id);
    case Release(id) => ReleaseStepKeeps(s, id);
    case LoseCreator(id) => LoseCreatorKeeps(s, id);
    case LandCreator(id, visible, child) => LandCreatorKeeps(s, id, visible, child);
    case _ => NotCreatorStep(s, step);
  }

  lemma {:induction false} FinishStepKeeps(s: State, id: nat)
    requires Inv(s)
    ensures Inv(NextDeleter(s, Unlock(id)))
  {
    if LiveDeleter(s, id) && s.deleters[id].phase.Unlocking? { FinishSection(s, id); }
  }

  lemma NotDeleterStep(s: State, step: Step)
    requires !step.StartDeleter? && !step.Lock? && !step.CountTimecards? && !step.CountTasks? && !step.Delete?
    requires !step.Unlock? && !step.LoseDeleter? && !step.LandDeleter?
    ensures NextDeleter(s, step) == s
  {
  }

  lemma {:induction false} DeleterStepKeeps(s: State, step: Step)
    requires Inv(s)
    ensures Inv(NextDeleter(s, step))
  {
    hide *;
    match step
    case StartDeleter(id, project, lockId) => StartDeleterKeeps(s, id, project, lockId);
    case Lock(id, visible) => LockStepKeeps(s, id, visible);
    case CountTimecards(id) => CountStepKeeps(s, id, Timecard);
    case CountTasks(id) => CountStepKeeps(s, id, Task);
    case Delete(id) => DeleteStepKeeps(s, id);
    case Unlock(id) => FinishStepKeeps(s, id);
    case LoseDeleter(id) => LoseDeleterKeeps(s, id);
    case LandDeleter(id, visible) => LandDeleterKeeps(s, id, visible);
    case _ => NotDeleterStep(s, step);
  }

  lemma {:induction false} RecovererStepKeeps(s: State, step: Step)
    requires Inv(s)
    ensures Inv(NextRecoverer(s, step))
  {
    match step
    case StartRecoverer(_, _, _, _) => OtherRecovererStepKeeps(s, step);
    case ReadProject(id, visible) => ReadProjectKeeps(s, id, visible);
    case FindResource(_) => OtherRecovererStepKeeps(s, step);
    case Clear(id, visible) => ClearStepKeeps(s, id, visible);
    case LoseRecoverer(_) => OtherRecovererStepKeeps(s, step);
    case LandRecoverer(id, visible) => LandRecovererKeeps(s, id, visible);
    case _ =>
  }

  lemma {:induction false} StepKeeps(s: State, step: Step)
    requires Inv(s) && !step.LateWrite?
    ensures Inv(Next(s, step))
  {
    CreatorStepKeeps(s, step);
    DeleterStepKeeps(s, step);
    RecovererStepKeeps(s, step);
    EnvironmentStepKeeps(s, step);
  }

  // ---------------------------------------------------------------- every run

  // The run respects the single-instance assumption: no write lands after it stopped being protected.
  predicate Disciplined(steps: seq<Step>) {
    forall i :: 0 <= i < |steps| ==> !steps[i].LateWrite?
  }

  lemma InitialInv(s: State)
    requires Initial(s)
    ensures Inv(s)
  {
  }

  lemma {:induction false} RunKeepsInv(s: State, steps: seq<Step>)
    requires Initial(s) && Disciplined(steps)
    ensures Inv(Exec(s, steps))
  {
    if steps == [] {
      InitialInv(s);
    } else {
      RunKeepsInv(s, steps[..|steps| - 1]);
      StepKeeps(Exec(s, steps[..|steps| - 1]), steps[|steps| - 1]);
    }
  }

  // No interleaving of creators, deletes and recoveries ever leaves a child without its project.
  lemma {:induction false} NoOrphanInAnyRun(s: State, steps: seq<Step>)
    requires Initial(s) && Disciplined(steps)
    ensures forall c <- Exec(s, steps).children :: Exec(s, steps).children[c] in Exec(s, steps).projects
  {
    RunKeepsInv(s, steps);
  }

  // In every run the two lists of a project name the same distinct reservations, never more than
  // 64, and never next to a held lock; and at most one deleter is inside the lock's section.
  lemma {:induction false} FenceShapeInAnyRun(s: State, steps: seq<Step>, project: string)
    requires Initial(s) && Disciplined(steps) && project in Exec(s, steps).projects
    ensures var p := Exec(s, steps).projects[project];
      && p.writers == Ids(p.metadata) && Distinct(p.writers)
      && |p.writers| <= MAX_PROJECT_CHILD_WRITERS
      && (p.lock.None? || p.writers == [])
    ensures var s' := Exec(s, steps);
      forall i, j | LockOwner(s', i) && LockOwner(s', j)
        && s'.deleters[i].project == project && s'.deleters[j].project == project :: i == j
    ensures var s' := Exec(s, steps);
      forall i :: LockOwner(s', i) && s'.deleters[i].project == project
        ==> s'.projects[project].lock == Some(s'.deleters[i].lockId)
  {
    RunKeepsInv(s, steps);
    var s' := Exec(s, steps);
    assert ProjectInv(s'.projects[project], s'.boot);
    forall i | LockOwner(s', i) && s'.deleters[i].project == project
      ensures s'.projects[project].lock == Some(s'.deleters[i].lockId)
    {
      assert DeleterInv(s', s'.deleters[i]);
    }
  }

  // A running creator never finds its reservation gone: it verifies, gives back exactly its own
  // entry, and no child it created is ever removed behind its back.
  lemma {:induction false} LiveCreatorSucceeds(s: State, steps: seq<Step>, id: nat)
    requires Initial(s) && Disciplined(steps)
    requires LiveCreator(Exec(s, steps), id)
    ensures var s1 := Exec(s, steps);
      s1.creators[id].phase.Verifying? ==> Next(s1, Verify(id)).creators[id].phase == Releasing(true, Returned)
    ensures var s1 := Exec(s, steps);
      var k := s1.creators[id];
      k.phase.Releasing? ==>
        var s2 := Next(s1, Release(id));
        && s2.creators[id].phase == CreatorDone(k.phase.result)
        && k.project in s1.projects && s2.projects.Keys == s1.projects.Keys
        && (forall p <- s1.projects :: p != k.project ==> s2.projects[p] == s1.projects[p])
        && RemovesExactly(s1.projects[k.project], s2.projects[k.project], k.meta)
    ensures !Exec(s, steps).creators[id].phase.Removing?
  {
    RunKeepsInv(s, steps);
    hide Exec, Initial, Disciplined, Inv;
    LiveCreatorStep(Exec(s, steps), id);
  }

  lemma {:induction false} LiveCreatorStep(s1: State, id: nat)
    requires Inv(s1) && LiveCreator(s1, id)
    ensures s1.creators[id].phase.Verifying? ==> Next(s1, Verify(id)).creators[id].phase == Releasing(true, Returned)
    ensures var k := s1.creators[id];
      k.phase.Releasing? ==>
        var s2 := Next(s1, Release(id));
        && s2.creators[id].phase == CreatorDone(k.phase.result)
        && k.project in s1.projects && s2.projects.Keys == s1.projects.Keys
        && (forall p <- s1.projects :: p != k.project ==> s2.projects[p] == s1.projects[p])
        && RemovesExactly(s1.projects[k.project], s2.projects[k.project], k.meta)
    ensures !s1.creators[id].phase.Removing?
  {
    var k := s1.creators[id];
    assert CreatorInv(s1, k);
    if Owning(k) {
      LiveReservation(s1, id);
      assert ProjectInv(s1.projects[k.project], s1.boot);
      ReleaseRemovesExactly(s1.projects[k.project], k.meta, s1.boot);
    }
    hide ReleaseUpdate, RemovesExactly, AcquireMatches, AcquireUpdate, Inv;
  }

  // q is p without the reservation m: the same order otherwise, nothing else touched.
  ghost predicate RemovesExactly(p: Project, q: Project, m: Metadata) {
    && q.lock == p.lock && q.graphLock == p.graphLock
    && exists i :: 0 <= i < |p.metadata| && p.metadata[i] == m
         && q.metadata == p.metadata[..i] + p.metadata[i + 1..]
         && |p.writers| == |p.metadata| && q.writers == p.writers[..i] + p.writers[i + 1..]
  }

  lemma ReleaseRemovesExactly(p: Project, m: Metadata, boot: nat)
    requires ProjectInv(p, boot) && m in p.metadata
    ensures RemovesExactly(p, ReleaseUpdate(p, m), m)
  {
    var i := PullOne(p.metadata, m);
    assert p.metadata[i] == m;
  }

  // A recovery that reports success removed exactly one reservation, of an older boot and at least
  // fifteen minutes old; any other outcome changed no project.
  lemma {:induction false} RecoveryClearsExactly(s: State, steps: seq<Step>, id: nat, visible: bool)
    requires Initial(s) && Disciplined(steps)
    requires LiveRecoverer(Exec(s, steps), id) && Exec(s, steps).recoverers[id].phase.Clearing?
    ensures ClearedExactly(Exec(s, steps), Next(Exec(s, steps), Clear(id, visible)), id)
  {
    RunKeepsInv(s, steps);
    ClearStepExact(Exec(s, steps), id, visible);
  }

  ghost predicate ClearedExactly(s1: State, s2: State, id: nat)
    requires id in s1.recoverers && s1.recoverers[id].phase.Clearing? && id in s2.recoverers
  {
    var r := s1.recoverers[id];
    var m := r.phase.candidate;
    if s2.recoverers[id].phase == RecovererDone(Cleared) then
      && r.project in s1.projects && s2.projects.Keys == s1.projects.Keys
      && (forall p <- s1.projects :: p != r.project ==> s2.projects[p] == s1.projects[p])
      && RemovesExactly(s1.projects[r.project], s2.projects[r.project], m)
      && m.bootId < s1.boot && s1.now - m.acquiredAt >= MINIMUM_FENCE_RECOVERY_AGE_MS
    else s2.projects == s1.projects
  }

  lemma ClearStepExact(s1: State, id: nat, visible: bool)
    requires Inv(s1) && LiveRecoverer(s1, id) && s1.recoverers[id].phase.Clearing?
    ensures ClearedExactly(s1, NextRecoverer(s1, Clear(id, visible)), id)
  {
    CandidateIsStale(s1, id);
    hide Analyze, ReleaseUpdate, RemovesExactly, Inv;
  }

  lemma CandidateIsStale(s1: State, id: nat)
    requires Inv(s1) && LiveRecoverer(s1, id) && s1.recoverers[id].phase.Clearing?
    ensures var r, m := s1.recoverers[id], s1.recoverers[id].phase.candidate;
      && m.bootId < s1.boot && s1.now - m.acquiredAt >= MINIMUM_FENCE_RECOVERY_AGE_MS
      && (r.project in s1.projects && ClearMatches(s1.projects[r.project], m) ==>
            RemovesExactly(s1.projects[r.project], ReleaseUpdate(s1.projects[r.project], m), m))
  {
    hide Analyze, ReleaseUpdate, RemovesExactly;
    var r := s1.recoverers[id];
    assert RecovererInv(s1, r);
    if r.project in s1.projects && ClearMatches(s1.projects[r.project], r.phase.candidate) {
      assert ProjectInv(s1.projects[r.project], s1.boot);
      ReleaseRemovesExactly(s1.projects[r.project], r.phase.candidate, s1.boot);
    }
  }

  // ---------------------------------------------------------------- the assumption is needed

  ghost predicate Reaches(s: State, s': State) {
    exists steps :: Disciplined(steps) && Exec(s, steps) == s'
  }

  lemma Then(s0: State, s: State, step: Step)
    requires Reaches(s0, s) && !step.LateWrite?
    ensures Reaches(s0, Next(s, step))
  {
    var steps :| Disciplined(steps) && Exec(s0, steps) == s;
    assert (steps + [step])[..|steps|] == steps;
    assert Exec(s0, steps + [step]) == Next(s, step);
  }

  lemma ThenDeleter(s0: State, s: State, step: Step)
    requires Reaches(s0, s) && (step.StartDeleter? || step.Lock? || step.CountTimecards? || step.CountTasks? || step.Delete?)
    ensures Reaches(s0, NextDeleter(s, step))
  {
    Then(s0, s, step);
  }

  lemma ThenRecoverer(s0: State, s: State, step: Step)
    requires Reaches(s0, s) && (step.StartRecoverer? || step.ReadProject? || step.FindResource? || step.Clear?)
    ensures Reaches(s0, NextRecoverer(s, step))
  {
    Then(s0, s, step);
  }

  lemma ThenEnvironment(s0: State, s: State, step: Step)
    requires Reaches(s0, s) && (step.Restart? || step.Tick?)
    ensures Reaches(s0, NextEnvironment(s, step))
  {
    Then(s0, s, step);
  }

  function OneProject(p: string, m: Metadata): State {
    State(map[p := EMPTY_FENCE], {}, map[], map[], map[], map[], m.bootId, m.acquiredAt)
  }

  function StaleWriter(p: string, m: Metadata, phase: CreatorPhase, pending: CreatorPending): State {
    OneProject(p, m).(projects := map[p := Project(None, false, [m.reservationId], [m])],
                      creators := map[0 := Creator(Create, p, m, phase, pending)])
  }

  // A creator whose write ended with an unknown outcome.
  lemma UnknownOutcome(p: string, m: Metadata)
    requires ValidMetadata(m)
    ensures Reaches(OneProject(p, m), StaleWriter(p, m, CreatorDone(Threw), PendingWrite))
  {
    var s0 := OneProject(p, m);
    assert Exec(s0, []) == s0 && Disciplined([]);
    var start := StartCreator(0, Create, p, m.reservationId, m.kind, m.resourceId, m.acquiredAt);
    Then(s0, s0, start);
    var s1 := Next(s0, start);
    assert s1 == s0.(creators := map[0 := Creator(Create, p, m, Acquiring, NoOp)]);
    assert AcquireUpdate(EMPTY_FENCE, m) == Project(None, false, [m.reservationId], [m]);
    assert Tracked([m], m.reservationId) == [m];
    hide ValidMetadata, Tracked, PullWriter, PullMetadata;
    Then(s0, s1, Acquire(0, true));
    var s2 := StaleWriter(p, m, Operating, NoOp);
    assert Next(s1, Acquire(0, true)) == s2;
    Then(s0, s2, OperationThrew(0, false));
    assert Next(s2, OperationThrew(0, false)) == StaleWriter(p, m, CreatorDone(Threw), PendingWrite);
  }

  lemma RecoveryStarts(s0: State, s: State, p: string, m: Metadata) returns (s': State)
    requires Reaches(s0, s) && s.boot == m.bootId && s.now == m.acquiredAt && s.recoverers == map[] && ValidMetadata(m)
    ensures Reaches(s0, s')
    ensures s' == s.(boot := m.bootId + 1, now := m.acquiredAt + MINIMUM_FENCE_RECOVERY_AGE_MS,
                     recoverers := map[0 := Recoverer(p, m.reservationId, m.bootId + 1, true, Reading, None)])
  {
    hide NextCreator, NextDeleter;
    ThenEnvironment(s0, s, Restart);
    var s1 := NextEnvironment(s, Restart);
    ThenEnvironment(s0, s1, Tick(MINIMUM_FENCE_RECOVERY_AGE_MS));
    var s2 := NextEnvironment(s1, Tick(MINIMUM_FENCE_RECOVERY_AGE_MS));
    ThenRecoverer(s0, s2, StartRecoverer(0, p, m.reservationId, true));
    s' := NextRecoverer(s2, StartRecoverer(0, p, m.reservationId, true));
  }

  lemma AnalyzeStale(m: Metadata)
    requires ValidMetadata(m)
    ensures Analyze(Project(None, false, [m.reservationId], [m]), m.reservationId,
                    m.acquiredAt + MINIMUM_FENCE_RECOVERY_AGE_MS, m.bootId + 1, true) == Candidate(m)
    ensures ReleaseUpdate(Project(None, false, [m.reservationId], [m]), m) == EMPTY_FENCE
  {
    assert Tracked([m], m.reservationId) == [m];
    assert Occurrences([m.reservationId], m.reservationId) == 1;
    assert PullWriter([m.reservationId], m.reservationId) == [];
    assert PullMetadata([m][1..], m) == [];
  }

  // The new boot finds no resource, so the stale reservation may be cleared.
  lemma RecoveryFindsNothing(s0: State, s: State, p: string, m: Metadata) returns (s': State)
    requires Reaches(s0, s) && ValidMetadata(m)
    requires s.projects == map[p := Project(None, false, [m.reservationId], [m])] && s.children == map[]
    requires s.boot == m.bootId + 1 && s.now == m.acquiredAt + MINIMUM_FENCE_RECOVERY_AGE_MS
    requires s.recoverers == map[0 := Recoverer(p, m.reservationId, s.boot, true, Reading, None)]
    ensures Reaches(s0, s')
    ensures s' == s.(recoverers := map[0 := Recoverer(p, m.reservationId, s.boot, true, Clearing(m), None)])
  {
    AnalyzeStale(m);
    ThenRecoverer(s0, s, ReadProject(0, true));
    var s1 := NextRecoverer(s, ReadProject(0, true));
    assert s1 == s.(recoverers := map[0 := s.recoverers[0].(phase := FindingResource(m))]);
    ThenRecoverer(s0, s1, FindResource(0));
    s' := NextRecoverer(s1, FindResource(0));
  }

  lemma RecoveryClears(s0: State, s: State, p: string, m: Metadata) returns (s': State)
    requires Reaches(s0, s) && ValidMetadata(m)
    requires s.projects == map[p := Project(None, false, [m.reservationId], [m])]
    requires s.recoverers == map[0 := Recoverer(p, m.reservationId, s.boot, true, Clearing(m), None)]
    ensures Reaches(s0, s')
    ensures s' == s.(projects := map[p := EMPTY_FENCE], recoverers := s'.recoverers)
  {
    hide Reaches, NextRecoverer, ValidMetadata;
    ThenRecoverer(s0, s, Clear(0, true));
    s' := NextRecoverer(s, Clear(0, true));
    ClearsReservation(s, p, m);
  }

  lemma {:induction false} ClearsReservation(s: State, p: string, m: Metadata)
    requires ValidMetadata(m)
    requires s.projects == map[p := Project(None, false, [m.reservationId], [m])]
    requires s.recoverers == map[0 := Recoverer(p, m.reservationId, s.boot, true, Clearing(m), None)]
    ensures var s' := NextRecoverer(s, Clear(0, true));
      s' == s.(projects := map[p := EMPTY_FENCE], recoverers := s'.recoverers)
  {
    AnalyzeStale(m);
    hide ValidMetadata, Analyze, ReleaseUpdate;
    assert ClearMatches(s.projects[p], m);
    assert NextRecoverer(s, Clear(0, true)).projects == map[p := EMPTY_FENCE];
  }

  lemma EmptyProjectLocked(s0: State, s: State, p: string, lockId: string) returns (s': State)
    requires Reaches(s0, s) && ValidFenceId(lockId)
    requires s.projects == map[p := EMPTY_FENCE] && s.deleters == map[]
    ensures Reaches(s0, s')
    ensures s' == s.(projects := map[p := EMPTY_FENCE.(lock := Some(lockId))],
                     deleters := map[0 := Deleter(p, lockId, s.boot, Counting(None, None), NoDelete)])
  {
    hide Reaches, Count, AfterCounts;
    ThenDeleter(s0, s, StartDeleter(0, p, lockId));
    var s1 := NextDeleter(s, StartDeleter(0, p, lockId));
    assert s1 == s.(deleters := map[0 := Deleter(p, lockId, s.boot, Locking, NoDelete)]);
    hide ValidFenceId;
    ThenDeleter(s0, s1, Lock(0, true));
    s' := NextDeleter(s1, Lock(0, true));
  }

  lemma EmptyProjectCounted(s0: State, s: State, p: string, d: Deleter) returns (s': State)
    requires Reaches(s0, s) && s.children == map[] && s.deleters == map[0 := d]
    requires d.phase == Counting(None, None) && d.bootId == s.boot
    ensures Reaches(s0, s') && s' == s.(deleters := map[0 := d.(phase := Deleting)])
  {
    CountZero(s, d.project, Timecard);
    ThenDeleter(s0, s, CountTimecards(0));
    var s1 := NextDeleter(s, CountTimecards(0));
    assert s1 == s.(deleters := map[0 := d.(phase := Counting(Some(0), None))]);
    CountZero(s1, d.project, Task);
    ThenDeleter(s0, s1, CountTasks(0));
    s' := NextDeleter(s1, CountTasks(0));
  }

  lemma ReservedProjectDeleted(p: string, m: Metadata, lockId: string) returns (s: State)
    requires ValidMetadata(m) && ValidFenceId(lockId)
    ensures Reaches(OneProject(p, m), s)
    ensures s.projects == map[] && s.children == map[]
    ensures s.creators == map[0 := Creator(Create, p, m, CreatorDone(Threw), PendingWrite)]
  {
    var s0 := OneProject(p, m);
    UnknownOutcome(p, m);
    var s1 := RecoveryStarts(s0, StaleWriter(p, m, CreatorDone(Threw), PendingWrite), p, m);
    var s2 := RecoveryFindsNothing(s0, s1, p, m);
    var s3 := RecoveryClears(s0, s2, p, m);
    var s4 := EmptyProjectLocked(s0, s3, p, lockId);
    var s5 := EmptyProjectCounted(s0, s4, p, s4.deleters[0]);
    ThenDeleter(s0, s5, Delete(0));
    s := NextDeleter(s5, Delete(0));
  }

  // The assumption cannot be dropped: whatever the reservation, one write of an older boot that
  // lands after the fifteen minutes orphans a child of a project recovered and deleted meanwhile.
  lemma LateWriteOrphans(p: string, m: Metadata, lockId: string, c: ChildId) returns (s: State)
    requires ValidMetadata(m) && ValidFenceId(lockId)
    ensures Initial(OneProject(p, m)) && Reaches(OneProject(p, m), s)
    ensures NoOrphans(s) && !NoOrphans(Next(s, LateWrite(0, c)))
  {
    s := ReservedProjectDeleted(p, m, lockId);
    assert Next(s, LateWrite(0, c)).children[c] == p;
  }
}
