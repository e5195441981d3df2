// What the idempotency protocol keeps in every run: the replay window, the tombstone of a deleted
// resource, and, while no request outlives the receipt it is bound to, at-most-once creation.
module IdempotentCreateProofs {
  import opened Options
  import opened IdempotentCreate

  // ---------------------------------------------------------------- invariant of every run

  predicate MayInsert(r: Request) {
    r.phase.Creating? || r.lateInsert.Some?
  }

  // The request has not reached its own create call.
  predicate BeforeCreate(phase: Phase) {
    phase.Probing? || phase.Guarding? || phase.Rechecking? || phase.RecheckRecovering?
    || phase.Reserving? || phase.Rereading? || phase.Recovering?
  }

  // The request made the reservation it is working on.
  predicate Owner(phase: Phase) {
    (phase.Recovering? && phase.allowCreate) || phase.Creating? || phase.InsertRecovering? || phase.RecoveringAfter?
    || (phase.Completing? && !phase.replayed) || (phase.Confirming? && !phase.replayed)
  }

  ghost predicate RequestInv(s: State, r: Request) {
    && (r.phase.Recovering? && r.phase.allowCreate ==> r.phase.resourceId == r.candidateId)
    && (r.phase.Creating? || r.phase.InsertRecovering? || r.phase.RecoveringAfter? ==> r.phase.resourceId == r.candidateId)
    && (r.lateInsert.Some? ==> r.lateInsert.value == r.candidateId)
    && (BeforeCreate(r.phase) || r.phase.Creating? ==> r.lateInsert.None?)
    && (r.lateReserve.Some? || r.lateComplete.Some? ==> r.phase.Rejected?)
    && (r.lateReserve.Some? ==> r.lateReserve.value.completion.None?)
    && (r.candidateId in s.inserted ==> !MayInsert(r) && !BeforeCreate(r.phase))
  }

  ghost predicate RequestsInv(s: State) {
    && (forall i <- s.requests :: RequestInv(s, s.requests[i]))
    && forall i, j :: i in s.requests && j in s.requests && i != j
         ==> s.requests[i].candidateId != s.requests[j].candidateId
  }

  predicate ReceiptInv(receipt: Option<Receipt>) {
    receipt.Some? && receipt.value.completion.Some? ==>
      receipt.value.expiresAt == receipt.value.completion.value.replayExpiresAt + IDEMPOTENCY_EXPIRY_GRACE_MS
  }

  // The stored receipt is the one the response reported.
  predicate Stored(s: State, r: Response) {
    && s.receipt.Some?
    && s.receipt.value.fingerprint == r.fingerprint
    && s.receipt.value.resourceId == r.resourceId
    && s.receipt.value.completion == Some(Completion(r.result, r.replayExpiresAt))
  }

  ghost predicate WindowInv(s: State) {
    forall k :: 0 <= k < |s.responses| && s.now <= s.responses[k].replayExpiresAt ==> Stored(s, s.responses[k])
  }

  ghost predicate Inv(s: State) {
    RequestsInv(s) && ReceiptInv(s.receipt) && WindowInv(s)
  }

  // No receipt, no request and no history yet; any resources may exist.
  ghost predicate Initial(s: State) {
    && s.receipt.None? && s.requests == map[] && s.reserver.None?
    && s.generation == 0 && s.createStarts == [] && s.inserted == {} && s.responses == []
  }

  // ---------------------------------------------------------------- preservation

  lemma SetPhaseKeeps(s: State, id: nat, phase: Phase)
    requires Inv(s) && id in s.requests && RequestInv(s, s.requests[id].(phase := phase))
    ensures Inv(SetPhase(s, id, phase))
  {
  }

  // A response repeats the stored, completed receipt, so it is covered until that receipt expires.
  lemma RespondKeeps(s: State, id: nat, replayed: bool)
    requires Inv(s) && id in s.requests && s.receipt.Some? && s.receipt.value.completion.Some?
    requires s.receipt.value.fingerprint == s.requests[id].fingerprint
    requires RequestInv(s, s.requests[id].(phase := Responded))
    ensures Inv(Respond(s, id, replayed, s.receipt.value))
  {
  }

  // The receipt may change only while it is not completed: no response depends on it then.
  lemma ReceiptChangeKeeps(s: State, s': State)
    requires Inv(s) && (s.receipt.Some? ==> s.receipt.value.completion.None?) && ReceiptInv(s'.receipt)
    requires s'.requests == s.requests && s'.inserted == s.inserted && s'.now == s.now && s'.responses == s.responses
    ensures Inv(s')
  {
  }

  lemma ResumeKeeps(s: State, id: nat)
    requires Inv(s) && id in s.requests && s.receipt.Some?
    requires s.requests[id].phase.Probing? || s.requests[id].phase.Rereading?
    ensures Inv(ResumeExisting(s, id))
  {
  }

  lemma StartKeeps(s: State, step: Step)
    requires Inv(s) && step.Start?
    ensures Inv(Next(s, step))
  {
  }

  lemma {:induction false} FindStepKeeps(s: State, step: Step)
    requires Inv(s) && (step.Probe? || step.Reread?)
    ensures Inv(Next(s, step))
  {
    if Next(s, step) != s {
      assert RequestInv(s, s.requests[step.id]);
      if s.receipt.Some? { ResumeKeeps(s, step.id); }
      else { SetPhaseKeeps(s, step.id, if step.Probe? then Guarding else Rejected); }
    }
  }

  lemma GuardStepKeeps(s: State, step: Step)
    requires Inv(s) && (step.GuardPasses? || step.GuardFails?)
    ensures Inv(Next(s, step))
  {
  }

  lemma RecheckKeeps(s: State, id: nat)
    requires Inv(s)
    ensures Inv(NextRecheck(s, id))
  {
    if At(s, id, Rechecking) {
      assert RequestInv(s, s.requests[id]);
      if NextRecheck(s, id).requests[id].phase.Responded? { RespondKeeps(s, id, true); }
      else { SetPhaseKeeps(s, id, NextRecheck(s, id).requests[id].phase); }
    }
  }

  // The recovery reads after the guard failed, after a duplicate insert, and after a failed one.
  lemma {:induction false} RecoverReadKeeps(s: State, s': State, id: nat)
    requires Inv(s)
    requires s' == NextRecheckRecover(s, id) || s' == NextInsertRecover(s, id) || s' == NextRecoverAfter(s, id)
    ensures Inv(s')
  {
    if id in s.requests && s' != s {
      assert RequestInv(s, s.requests[id]);
      SetPhaseKeeps(s, id, s'.requests[id].phase);
    }
  }

  lemma ReserveKeeps(s: State, id: nat)
    requires Inv(s)
    ensures Inv(NextReserve(s, id))
  {
  }

  lemma RecoverKeeps(s: State, id: nat)
    requires Inv(s)
    ensures Inv(NextRecover(s, id))
  {
    if id in s.requests && s.requests[id].phase.Recovering? {
      var r := s.requests[id];
      assert RequestInv(s, r);
      var phase := NextRecover(s, id).requests[id].phase;
      SetPhaseKeeps(s, id, phase);
      HistoryIrrelevant(SetPhase(s, id, phase), NextRecover(s, id).createStarts);
    }
  }

  lemma HistoryIrrelevant(s: State, starts: seq<CreateStart>)
    requires Inv(s)
    ensures Inv(s.(createStarts := starts))
  {
  }

  lemma InsertKeeps(s: State, id: nat)
    requires Inv(s)
    ensures Inv(NextInsert(s, id))
  {
  }

  lemma InsertFailsKeeps(s: State, id: nat)
    requires Inv(s)
    ensures Inv(NextInsertFails(s, id))
  {
  }

  lemma CompleteKeeps(s: State, id: nat)
    requires Inv(s)
    ensures Inv(NextComplete(s, id))
  {
    if id in s.requests && s.requests[id].phase.Completing? {
      var r := s.requests[id];
      assert RequestInv(s, r);
      if CompleteMatches(s.receipt, r.fingerprint) {
        var stored := Completed(s, s.receipt.value, r.phase.result, r.phase.completedAt);
        ReceiptChangeKeeps(s, s.(receipt := Some(stored)));
        RespondKeeps(s.(receipt := Some(stored)), id, r.phase.replayed);
      } else {
        SetPhaseKeeps(s, id, Confirming(r.phase.replayed));
      }
    }
  }

  lemma ConfirmKeeps(s: State, id: nat)
    requires Inv(s)
    ensures Inv(NextConfirm(s, id))
  {
    if id in s.requests && s.requests[id].phase.Confirming? {
      assert RequestInv(s, s.requests[id]);
      if ValidReservation(s.receipt, s.requests[id].fingerprint) && s.receipt.value.completion.Some? {
        RespondKeeps(s, id, s.requests[id].phase.replayed);
      } else {
        SetPhaseKeeps(s, id, Rejected);
      }
    }
  }

  lemma LoseKeeps(s: State, id: nat)
    requires Inv(s)
    ensures Inv(NextLose(s, id))
  {
  }

  lemma LandReserveKeeps(s: State, id: nat)
    requires Inv(s)
    ensures Inv(NextLandReserve(s, id))
  {
  }

  lemma LandInsertKeeps(s: State, id: nat)
    requires Inv(s)
    ensures Inv(NextLandInsert(s, id))
  {
  }

  lemma LandCompleteKeeps(s: State, id: nat)
    requires Inv(s)
    ensures Inv(NextLandComplete(s, id))
  {
  }

  lemma DropKeeps(s: State, id: nat, operation: LostOperation)
    requires Inv(s)
    ensures Inv(NextDrop(s, id, operation))
  {
  }

  // TTL deletion never reaches a completed receipt inside its advertised window.
  lemma EnvironmentKeeps(s: State, step: Step)
    requires Inv(s)
    ensures Inv(NextEnvironment(s, step))
  {
  }

  lemma {:induction false} StepKeeps(s: State, step: Step)
    requires Inv(s)
    ensures Inv(Next(s, step))
  {
    hide Inv;
    match step
    case Start(_, _, _, _) => StartKeeps(s, step);
    case Reserve(id) => ReserveKeeps(s, id);
    case Recover(id) => RecoverKeeps(s, id);
    case Insert(id) => InsertKeeps(s, id);
    case InsertFails(id) => InsertFailsKeeps(s, id);
    case Complete(id) => CompleteKeeps(s, id);
    case Confirm(id) => ConfirmKeeps(s, id);
    case Lose(id) => LoseKeeps(s, id);
    case LandReserve(id) => LandReserveKeeps(s, id);
    case LandInsert(id) => LandInsertKeeps(s, id);
    case LandComplete(id) => LandCompleteKeeps(s, id);
    case Drop(id, operation) => DropKeeps(s, id, operation);
    case EditResource(_, _) => EnvironmentKeeps(s, step);
    case DeleteResource(_) => EnvironmentKeeps(s, step);
    case Tick(_) => EnvironmentKeeps(s, step);
    case Expire(_) => EnvironmentKeeps(s, step);
    case Probe(_) => FindStepKeeps(s, step);
    case Reread(_) => FindStepKeeps(s, step);
    case Recheck(id) => RecheckKeeps(s, id);
    case RecheckRecover(id) => RecoverReadKeeps(s, NextRecheckRecover(s, id), id);
    case InsertRecover(id) => RecoverReadKeeps(s, NextInsertRecover(s, id), id);
    case RecoverAfter(id) => RecoverReadKeeps(s, NextRecoverAfter(s, id), id);
    case _ => GuardStepKeeps(s, step);
  }

  lemma {:induction false} RunKeepsInv(s: State, steps: seq<Step>)
    requires Initial(s)
    ensures Inv(Exec(s, steps))
  {
    if steps != [] {
      RunKeepsInv(s, steps[..|steps| - 1]);
      StepKeeps(Exec(s, steps[..|steps| - 1]), steps[|steps| - 1]);
    }
  }

  // ---------------------------------------------------------------- every run, expiry included

  // Whatever expires and whenever, a retry of a request that got a response, made up to the
  // advertised replayExpiresAt, is answered at its first read with the same resource and result.
  lemma {:induction false} RetryInsideWindow(s0: State, steps: seq<Step>, k: nat, id: nat)
    requires Initial(s0)
    requires k < |Exec(s0, steps).responses|
    requires At(Exec(s0, steps), id, Probing)
    requires Exec(s0, steps).requests[id].fingerprint == Exec(s0, steps).responses[k].fingerprint
    requires Exec(s0, steps).now <= Exec(s0, steps).responses[k].replayExpiresAt
    ensures var s := Exec(s0, steps);
      var s' := Next(s, Probe(id));
      && At(s', id, Responded)
      && s'.responses == s.responses + [s.responses[k].(request := id, generation := s.generation, replayed := true)]
      && s'.createStarts == s.createStarts && s'.resources == s.resources && s'.receipt == s.receipt
  {
    var s := Exec(s0, steps);
    RunKeepsInv(s0, steps);
    assert Stored(s, s.responses[k]);
  }

  // One step never brings back an identifier that was inserted and is gone.
  lemma StepKeepsTombstone(s: State, step: Step, resourceId: string)
    requires Inv(s) && resourceId in s.inserted && resourceId !in s.resources
    ensures resourceId in Next(s, step).inserted && resourceId !in Next(s, step).resources
  {
    if step.Insert? && step.id in s.requests { assert RequestInv(s, s.requests[step.id]); }
    if step.LandInsert? && step.id in s.requests { assert RequestInv(s, s.requests[step.id]); }
  }

  // A resource the protocol created and somebody deleted never reappears, in any run.
  lemma {:induction false} DeletedNeverReappears(s0: State, a: seq<Step>, b: seq<Step>, resourceId: string)
    requires Initial(s0)
    requires resourceId in Exec(s0, a).inserted && resourceId !in Exec(s0, a).resources
    ensures resourceId in Exec(s0, a + b).inserted && resourceId !in Exec(s0, a + b).resources
  {
    if b == [] {
      assert a + b == a;
    } else {
      var front := b[..|b| - 1];
      assert (a + b)[..|a + b| - 1] == a + front;
      DeletedNeverReappears(s0, a, front, resourceId);
      RunKeepsInv(s0, a + front);
      StepKeepsTombstone(Exec(s0, a + front), b[|b| - 1], resourceId);
    }
  }

  // ---------------------------------------------------------------- runs in which no request outlives its receipt

  // The request has read the current receipt and will act on it.
  predicate Bound(r: Request) {
    r.phase.RecheckRecovering? || r.phase.Recovering? || r.phase.Creating? || r.phase.InsertRecovering?
    || r.phase.RecoveringAfter? || r.phase.Completing? || r.phase.Confirming? || r.lateComplete.Some?
  }

  // A receipt expires only when no request is still bound to it; a run without expiry is one case.
  ghost predicate CleanStep(s: State, step: Step) {
    step.Expire? && ExpiryDue(s, step.ttlClock) ==> forall i <- s.requests :: !Bound(s.requests[i])
  }

  ghost predicate CleanRun(s: State, steps: seq<Step>) {
    steps == [] || (CleanRun(s, steps[..|steps| - 1]) && CleanStep(Exec(s, steps[..|steps| - 1]), steps[|steps| - 1]))
  }

  // The resource the request is working on.
  predicate BoundTo(r: Request, resourceId: string) {
    && ((r.phase.RecheckRecovering? || r.phase.Recovering? || r.phase.Creating?
         || r.phase.InsertRecovering? || r.phase.RecoveringAfter?) ==> r.phase.resourceId == resourceId)
    && (r.phase.Completing? ==> r.phase.result.resourceId == resourceId)
    && (r.lateComplete.Some? ==> r.lateComplete.value.result.resourceId == resourceId)
  }

  ghost predicate BoundInv(s: State, i: nat)
    requires i in s.requests
  {
    var r := s.requests[i];
    && (Bound(r) ==> s.receipt.Some? && s.receipt.value.fingerprint == r.fingerprint && BoundTo(r, s.receipt.value.resourceId))
    && (Owner(r.phase) ==> s.reserver == Some(i))
  }

  ghost predicate StartsInv(s: State) {
    && (forall k :: 0 <= k < |s.createStarts| ==>
          var c := s.createStarts[k];
          && c.generation <= s.generation
          && (c.generation == s.generation ==>
                s.receipt.Some? && s.reserver == Some(c.request)
                && c.request in s.requests && !BeforeCreate(s.requests[c.request].phase)))
    && forall k, l :: 0 <= k < l < |s.createStarts| ==> s.createStarts[k].generation != s.createStarts[l].generation
  }

  ghost predicate ResponseInv(s: State, r: Response) {
    && r.generation <= s.generation
    && r.result.resourceId == r.resourceId
    && r.request in s.requests && s.requests[r.request].phase.Responded?
    && (r.generation == s.generation ==> Stored(s, r) && (!r.replayed ==> s.reserver == Some(r.request)))
  }

  // Two responses of one generation report the same thing, to different requests, at most one as its creator.
  ghost predicate Agree(a: Response, b: Response) {
    a.generation == b.generation ==>
      && a.fingerprint == b.fingerprint && a.resourceId == b.resourceId
      && a.result == b.result && a.replayExpiresAt == b.replayExpiresAt
      && a.request != b.request && (a.replayed || b.replayed)
  }

  ghost predicate ResponsesInv(s: State) {
    && (forall k :: 0 <= k < |s.responses| ==> ResponseInv(s, s.responses[k]))
    && forall k, l :: 0 <= k < l < |s.responses| ==> Agree(s.responses[k], s.responses[l])
  }

  ghost predicate CleanInv(s: State) {
    && (forall i <- s.requests :: BoundInv(s, i))
    && StartsInv(s)
    && ResponsesInv(s)
    && (s.receipt.Some? && s.receipt.value.completion.Some? ==>
          s.receipt.value.completion.value.result.resourceId == s.receipt.value.resourceId)
  }

  // One request moves on, without responding, while the receipt and the history stay.
  lemma MoveKeepsClean(s: State, s': State, id: nat)
    requires CleanInv(s) && id in s.requests && s'.requests.Keys == s.requests.Keys
    requires forall i <- s.requests :: i != id ==> s'.requests[i] == s.requests[i]
    requires s.requests[id].phase.Responded? ==> s'.requests[id].phase.Responded?
    requires !BeforeCreate(s.requests[id].phase) ==> !BeforeCreate(s'.requests[id].phase)
    requires s'.receipt == s.receipt && s'.reserver == s.reserver && s'.generation == s.generation
    requires s'.createStarts == s.createStarts && s'.responses == s.responses
    requires BoundInv(s', id)
    ensures CleanInv(s')
  {
  }

  // A response is one more report of the stored receipt; only its reserver reports a creation.
  lemma RespondKeepsClean(s: State, id: nat, replayed: bool)
    requires CleanInv(s) && id in s.requests && s.receipt.Some? && s.receipt.value.completion.Some?
    requires s.receipt.value.fingerprint == s.requests[id].fingerprint
    requires !s.requests[id].phase.Responded? && s.requests[id].lateComplete.None?
    requires !replayed ==> s.reserver == Some(id)
    ensures CleanInv(Respond(s, id, replayed, s.receipt.value))
  {
  }

  // While no response of this generation exists, the receipt may be written.
  lemma ReceiptChangeKeepsClean(s: State, s': State)
    requires CleanInv(s) && s.receipt.Some? && s.receipt.value.completion.None? && s'.receipt.Some?
    requires s'.receipt.value.resourceId == s.receipt.value.resourceId
    requires s'.receipt.value.fingerprint == s.receipt.value.fingerprint
    requires s'.receipt.value.completion.Some? ==>
      s'.receipt.value.completion.value.result.resourceId == s.receipt.value.resourceId
    requires s' == s.(receipt := s'.receipt)
    ensures CleanInv(s')
  {
  }

  // A reservation lands on an empty slot: nobody was bound, and this generation has no history.
  lemma NewReservationKeepsClean(s: State, id: nat, receipt: Receipt)
    requires CleanInv(s) && s.receipt.None? && id in s.requests && receipt.completion.None?
    ensures CleanInv(s.(receipt := Some(receipt), reserver := Some(id)))
  {
  }

  // The reserver calls create: the first call of its generation.
  lemma CreateStartKeepsClean(s: State, id: nat)
    requires CleanInv(s) && id in s.requests && s.requests[id].phase.Creating? && s.receipt.Some?
    requires forall k :: 0 <= k < |s.createStarts| ==> s.createStarts[k].generation < s.generation
    ensures CleanInv(s.(createStarts := s.createStarts + [CreateStart(id, s.generation)]))
  {
  }

  lemma ResumeKeepsClean(s: State, id: nat)
    requires Inv(s) && CleanInv(s) && id in s.requests && s.receipt.Some?
    requires s.requests[id].phase.Probing? || s.requests[id].phase.Rereading?
    ensures CleanInv(ResumeExisting(s, id))
  {
    assert RequestInv(s, s.requests[id]) && BoundInv(s, id);
    if ValidReservation(s.receipt, s.requests[id].fingerprint) && s.receipt.value.completion.Some? {
      RespondKeepsClean(s, id, true);
    } else {
      MoveKeepsClean(s, ResumeExisting(s, id), id);
    }
  }

  lemma StartKeepsClean(s: State, step: Step)
    requires CleanInv(s) && step.Start?
    ensures CleanInv(Next(s, step))
  {
  }

  lemma {:induction false} FindStepKeepsClean(s: State, step: Step)
    requires Inv(s) && CleanInv(s) && (step.Probe? || step.Reread?)
    ensures CleanInv(Next(s, step))
  {
    if Next(s, step) != s {
      assert RequestInv(s, s.requests[step.id]) && BoundInv(s, step.id);
      if s.receipt.Some? { ResumeKeepsClean(s, step.id); }
      else { MoveKeepsClean(s, Next(s, step), step.id); }
    }
  }

  lemma GuardStepKeepsClean(s: State, step: Step)
    requires Inv(s) && CleanInv(s) && (step.GuardPasses? || step.GuardFails?)
    ensures CleanInv(Next(s, step))
  {
    if At(s, step.id, Guarding) {
      assert RequestInv(s, s.requests[step.id]) && BoundInv(s, step.id);
      MoveKeepsClean(s, Next(s, step), step.id);
    }
  }

  lemma RecheckKeepsClean(s: State, id: nat)
    requires Inv(s) && CleanInv(s)
    ensures CleanInv(NextRecheck(s, id))
  {
    if At(s, id, Rechecking) {
      assert RequestInv(s, s.requests[id]) && BoundInv(s, id);
      if NextRecheck(s, id).requests[id].phase.Responded? { RespondKeepsClean(s, id, true); }
      else { MoveKeepsClean(s, NextRecheck(s, id), id); }
    }
  }

  // The recovery reads after the guard failed, after a duplicate insert, and after a failed one.
  lemma {:induction false} RecoverReadKeepsClean(s: State, s': State, id: nat)
    requires Inv(s) && CleanInv(s)
    requires s' == NextRecheckRecover(s, id) || s' == NextInsertRecover(s, id) || s' == NextRecoverAfter(s, id)
    ensures CleanInv(s')
  {
    if id in s.requests && s' != s {
      assert RequestInv(s, s.requests[id]) && BoundInv(s, id);
      var phase := s'.requests[id].phase;
      assert s' == SetPhase(s, id, phase);
      MoveKeepsClean(s, SetPhase(s, id, phase), id);
    }
  }

  lemma ReserveKeepsClean(s: State, id: nat)
    requires Inv(s) && CleanInv(s)
    ensures CleanInv(NextReserve(s, id))
  {
    if id in s.requests && s.requests[id].phase.Reserving? {
      var r := s.requests[id];
      assert RequestInv(s, r) && BoundInv(s, id);
      if s.receipt.Some? {
        MoveKeepsClean(s, NextReserve(s, id), id);
      } else {
        NewReservationKeepsClean(s, id, Candidate(s, r, r.phase.reservedAt));
        var s1 := s.(receipt := Some(Candidate(s, r, r.phase.reservedAt)), reserver := Some(id));
        MoveKeepsClean(s1, NextReserve(s, id), id);
      }
    }
  }

  lemma RecoverKeepsClean(s: State, id: nat)
    requires Inv(s) && CleanInv(s)
    ensures CleanInv(NextRecover(s, id))
  {
    if id in s.requests && s.requests[id].phase.Recovering? {
      var r := s.requests[id];
      assert RequestInv(s, r) && BoundInv(s, id);
      var phase := NextRecover(s, id).requests[id].phase;
      var s1 := SetPhase(s, id, phase);
      MoveKeepsClean(s, s1, id);
      if phase.Creating? { CreateStartKeepsClean(s1, id); }
      else { assert NextRecover(s, id) == s1; }
    }
  }

  lemma InsertStepKeepsClean(s: State, step: Step)
    requires Inv(s) && CleanInv(s) && (step.Insert? || step.InsertFails?)
    ensures CleanInv(Next(s, step))
  {
    if step.id in s.requests && s.requests[step.id].phase.Creating? {
      assert RequestInv(s, s.requests[step.id]) && BoundInv(s, step.id);
      MoveKeepsClean(s, Next(s, step), step.id);
    }
  }

  lemma CompleteKeepsClean(s: State, id: nat)
    requires Inv(s) && CleanInv(s)
    ensures CleanInv(NextComplete(s, id))
  {
    if id in s.requests && s.requests[id].phase.Completing? {
      var r := s.requests[id];
      assert RequestInv(s, r) && BoundInv(s, id);
      if CompleteMatches(s.receipt, r.fingerprint) {
        var stored := Completed(s, s.receipt.value, r.phase.result, r.phase.completedAt);
        ReceiptChangeKeepsClean(s, s.(receipt := Some(stored)));
        RespondKeepsClean(s.(receipt := Some(stored)), id, r.phase.replayed);
      } else {
        MoveKeepsClean(s, NextComplete(s, id), id);
      }
    }
  }

  lemma ConfirmKeepsClean(s: State, id: nat)
    requires Inv(s) && CleanInv(s)
    ensures CleanInv(NextConfirm(s, id))
  {
    if id in s.requests && s.requests[id].phase.Confirming? {
      assert RequestInv(s, s.requests[id]) && BoundInv(s, id);
      if ValidReservation(s.receipt, s.requests[id].fingerprint) && s.receipt.value.completion.Some? {
        RespondKeepsClean(s, id, s.requests[id].phase.replayed);
      } else {
        MoveKeepsClean(s, NextConfirm(s, id), id);
      }
    }
  }

  lemma LoseKeepsClean(s: State, id: nat)
    requires Inv(s) && CleanInv(s)
    ensures CleanInv(NextLose(s, id))
  {
  }

  lemma LandReserveKeepsClean(s: State, id: nat)
    requires Inv(s) && CleanInv(s)
    ensures CleanInv(NextLandReserve(s, id))
  {
  }

  lemma LandInsertKeepsClean(s: State, id: nat)
    requires Inv(s) && CleanInv(s)
    ensures CleanInv(NextLandInsert(s, id))
  {
  }

  lemma LandCompleteKeepsClean(s: State, id: nat)
    requires Inv(s) && CleanInv(s)
    ensures CleanInv(NextLandComplete(s, id))
  {
  }

  lemma DropKeepsClean(s: State, id: nat, operation: LostOperation)
    requires CleanInv(s)
    ensures CleanInv(NextDrop(s, id, operation))
  {
    if id in s.requests {
      assert BoundInv(s, id);
      MoveKeepsClean(s, NextDrop(s, id, operation), id);
    }
  }

  lemma EnvironmentKeepsClean(s: State, step: Step)
    requires CleanInv(s) && CleanStep(s, step)
    ensures CleanInv(NextEnvironment(s, step))
  {
  }

  lemma {:induction false} StepKeepsClean(s: State, step: Step)
    requires Inv(s) && CleanInv(s) && CleanStep(s, step)
    ensures CleanInv(Next(s, step))
  {
    hide Inv, CleanInv;
    match step
    case Start(_, _, _, _) => StartKeepsClean(s, step);
    case Reserve(id) => ReserveKeepsClean(s, id);
    case Recover(id) => RecoverKeepsClean(s, id);
    case RecheckRecover(id) => RecoverReadKeepsClean(s, NextRecheckRecover(s, id), id);
    case InsertRecover(id) => RecoverReadKeepsClean(s, NextInsertRecover(s, id), id);
    case RecoverAfter(id) => RecoverReadKeepsClean(s, NextRecoverAfter(s, id), id);
    case Insert(_) => InsertStepKeepsClean(s, step);
    case InsertFails(_) => InsertStepKeepsClean(s, step);
    case Complete(id) => CompleteKeepsClean(s, id);
    case Confirm(id) => ConfirmKeepsClean(s, id);
    case Lose(id) => LoseKeepsClean(s, id);
    case LandReserve(id) => LandReserveKeepsClean(s, id);
    case LandInsert(id) => LandInsertKeepsClean(s, id);
    case LandComplete(id) => LandCompleteKeepsClean(s, id);
    case Drop(id, operation) => DropKeepsClean(s, id, operation);
    case EditResource(_, _) => EnvironmentKeepsClean(s, step);
    case DeleteResource(_) => EnvironmentKeepsClean(s, step);
    case Tick(_) => EnvironmentKeepsClean(s, step);
    case Expire(_) => EnvironmentKeepsClean(s, step);
    case Probe(_) => FindStepKeepsClean(s, step);
    case Reread(_) => FindStepKeepsClean(s, step);
    case Recheck(id) => RecheckKeepsClean(s, id);
    case _ => GuardStepKeepsClean(s, step);
  }

  lemma {:induction false} CleanRunKeepsInv(s: State, steps: seq<Step>)
    requires Initial(s) && CleanRun(s, steps)
    ensures CleanInv(Exec(s, steps))
  {
    if steps != [] {
      CleanRunKeepsInv(s, steps[..|steps| - 1]);
      RunKeepsInv(s, steps[..|steps| - 1]);
      StepKeepsClean(Exec(s, steps[..|steps| - 1]), steps[|steps| - 1]);
    }
  }

  // Per receipt generation: create is called at most once, every successful response reports the
  // same resource and result, and at most one of them says it was not a replay.
  lemma {:induction false} AtMostOnceAndAgreement(s: State, steps: seq<Step>)
    requires Initial(s) && CleanRun(s, steps)
    ensures var s' := Exec(s, steps);
      forall k, l :: 0 <= k < l < |s'.createStarts| ==> s'.createStarts[k].generation != s'.createStarts[l].generation
    ensures var s' := Exec(s, steps);
      forall k, l | 0 <= k < l < |s'.responses| && s'.responses[k].generation == s'.responses[l].generation ::
        && s'.responses[k].resourceId == s'.responses[l].resourceId
        && s'.responses[k].result == s'.responses[l].result
        && s'.responses[k].fingerprint == s'.responses[l].fingerprint
        && (s'.responses[k].replayed || s'.responses[l].replayed)
    ensures var s' := Exec(s, steps);
      forall k | 0 <= k < |s'.responses| :: s'.responses[k].result.resourceId == s'.responses[k].resourceId
  {
    CleanRunKeepsInv(s, steps);
    var s' := Exec(s, steps);
    forall k, l | 0 <= k < l < |s'.responses| ensures Agree(s'.responses[k], s'.responses[l]) {}
    forall k | 0 <= k < |s'.responses| ensures ResponseInv(s', s'.responses[k]) {}
  }

  predicate NoExpiry(steps: seq<Step>) {
    forall i :: 0 <= i < |steps| ==> !steps[i].Expire?
  }

  lemma {:induction false} NoExpiryIsClean(s: State, steps: seq<Step>)
    requires Initial(s) && NoExpiry(steps)
    ensures CleanRun(s, steps) && Exec(s, steps).generation == 0
    ensures forall k :: 0 <= k < |Exec(s, steps).createStarts| ==> Exec(s, steps).createStarts[k].generation == 0
    ensures forall k :: 0 <= k < |Exec(s, steps).responses| ==> Exec(s, steps).responses[k].generation == 0
  {
    if steps != [] {
      NoExpiryIsClean(s, steps[..|steps| - 1]);
      StepAddsCurrent(Exec(s, steps[..|steps| - 1]), steps[|steps| - 1]);
    }
  }

  // History only grows, by at most one entry, tagged with the current generation.
  lemma StepAddsCurrent(s: State, step: Step)
    requires !step.Expire?
    ensures Next(s, step).generation == s.generation
    ensures s.createStarts <= Next(s, step).createStarts && s.responses <= Next(s, step).responses
    ensures forall k | |s.createStarts| <= k < |Next(s, step).createStarts| ::
      Next(s, step).createStarts[k].generation == s.generation
    ensures forall k | |s.responses| <= k < |Next(s, step).responses| ::
      Next(s, step).responses[k].generation == s.generation
  {
  }

  // Without expiry, over any interleaving: create starts at most once, at most one response is not
  // a replay, and all successful responses carry the same resource and result.
  lemma {:induction false} WithoutExpiryCreatedOnce(s: State, steps: seq<Step>)
    requires Initial(s) && NoExpiry(steps)
    ensures |Exec(s, steps).createStarts| <= 1
    ensures var s' := Exec(s, steps);
      forall k, l | 0 <= k < l < |s'.responses| ::
        && s'.responses[k].resourceId == s'.responses[l].resourceId
        && s'.responses[k].result == s'.responses[l].result
        && (s'.responses[k].replayed || s'.responses[l].replayed)
  {
    var starts := Exec(s, steps).createStarts;
    var generations := if |starts| > 1 then [starts[0].generation, starts[1].generation] else [];
    NoExpiryIsClean(s, steps);
    AtMostOnceAndAgreement(s, steps);
  }

  // ---------------------------------------------------------------- what an early expiry can do

  ghost predicate Reaches(s: State, s': State) {
    exists steps :: Exec(s, steps) == s'
  }

  lemma Then(s0: State, s: State, step: Step)
    requires Reaches(s0, s)
    ensures Reaches(s0, Next(s, step))
  {
    var steps :| Exec(s0, steps) == s;
    assert (steps + [step])[..|steps|] == steps;
    assert Exec(s0, steps + [step]) == Next(s, step);
  }

  function WithRequest(s: State, id: nat, r: Request): State {
    s.(requests := s.requests[id := r])
  }

  function Fresh(f: string, d: string, c: string, phase: Phase): Request {
    Request(f, d, c, phase, None, None, None)
  }

  lemma Starts(s0: State, s: State, id: nat, f: string, d: string, c: string)
    requires Reaches(s0, s) && id !in s.requests && c !in s.inserted
    requires forall i <- s.requests :: s.requests[i].candidateId != c
    ensures Reaches(s0, WithRequest(s, id, Fresh(f, d, c, Probing)))
  {
    Then(s0, s, Start(id, f, d, c));
    assert NextStart(s, id, f, d, c) == WithRequest(s, id, Fresh(f, d, c, Probing));
  }

  lemma Guards(s0: State, s: State, id: nat, f: string, d: string, c: string)
    requires s.receipt.None? && Reaches(s0, WithRequest(s, id, Fresh(f, d, c, Probing)))
    ensures Reaches(s0, WithRequest(s, id, Fresh(f, d, c, Reserving(s.now))))
  {
    var s1 := WithRequest(s, id, Fresh(f, d, c, Probing));
    Then(s0, s1, Probe(id));
    var s2 := WithRequest(s, id, Fresh(f, d, c, Guarding));
    assert NextProbe(s1, id) == s2;
    Then(s0, s2, GuardPasses(id));
    assert SetPhase(s2, id, Reserving(s.now)) == WithRequest(s, id, Fresh(f, d, c, Reserving(s.now)));
  }

  // A fresh request finds nothing, passes its guard and reserves.
  lemma Reserves(s0: State, s: State, id: nat, f: string, d: string, c: string) returns (s': State)
    requires Reaches(s0, s) && s.receipt.None? && id !in s.requests && c !in s.inserted
    requires forall i <- s.requests :: s.requests[i].candidateId != c
    ensures Reaches(s0, s')
    ensures s' == WithRequest(s, id, Fresh(f, d, c, Recovering(c, true))).(reserver := Some(id),
      receipt := Some(Receipt(f, c, None, s.now + s.pendingRetention + IDEMPOTENCY_EXPIRY_GRACE_MS)))
  {
    Starts(s0, s, id, f, d, c);
    Guards(s0, s, id, f, d, c);
    var s1 := WithRequest(s, id, Fresh(f, d, c, Reserving(s.now)));
    Then(s0, s1, Reserve(id));
    s' := NextReserve(s1, id);
    assert s'.requests == s.requests[id := Fresh(f, d, c, Recovering(c, true))];
  }

  // The reserver inserts its resource and crashes before completing.
  lemma InsertsAndCrashes(s0: State, s: State, id: nat) returns (s': State)
    requires Reaches(s0, s) && id in s.requests && s.requests[id].phase == Recovering(s.requests[id].candidateId, true)
    requires s.requests[id].candidateId !in s.resources && s.requests[id].lateInsert.None?
    ensures Reaches(s0, s') && s'.receipt == s.receipt && s'.requests.Keys == s.requests.Keys
    ensures s'.resources == s.resources[s.requests[id].candidateId := s.requests[id].document]
    ensures s'.inserted == s.inserted + {s.requests[id].candidateId}
    ensures s'.now == s.now && s'.pendingRetention == s.pendingRetention && s'.responses == s.responses
    ensures forall i <- s.requests :: s'.requests[i].candidateId == s.requests[i].candidateId
  {
    hide Reaches;
    Then(s0, s, Recover(id));
    var s1 := Next(s, Recover(id));
    assert s1.requests[id].phase.Creating?;
    Then(s0, s1, Insert(id));
    var s2 := Next(s1, Insert(id));
    assert s2.requests[id].phase.Completing?;
    Then(s0, s2, Lose(id));
    s' := Next(s2, Lose(id));
  }

  // A retry binds to the reserved receipt just before TTL deletion removes it.
  lemma BindsAndExpires(s0: State, s: State, id: nat, f: string, d: string, c: string, r: Receipt) returns (s': State)
    requires Reaches(s0, s) && id !in s.requests && c !in s.inserted
    requires forall i <- s.requests :: s.requests[i].candidateId != c
    requires s.receipt == Some(r) && r.completion.None? && r.fingerprint == f
    requires r.expiresAt == s.now + s.pendingRetention + IDEMPOTENCY_EXPIRY_GRACE_MS
    ensures Reaches(s0, s')
    ensures s' == WithRequest(s, id, Fresh(f, d, c, Recovering(r.resourceId, false))).(
      receipt := None, reserver := None, generation := s.generation + 1, now := s.now + s.pendingRetention + 1)
  {
    var s1 := s.(now := s.now + s.pendingRetention + 1);
    Then(s0, s, Tick(s.pendingRetention + 1));
    Binds(s0, s1, id, f, d, c, r);
    var s3 := WithRequest(s1, id, Fresh(f, d, c, Recovering(r.resourceId, false)));
    Then(s0, s3, Expire(r.expiresAt));
    s' := NextEnvironment(s3, Expire(r.expiresAt));
  }

  lemma Binds(s0: State, s: State, id: nat, f: string, d: string, c: string, r: Receipt)
    requires Reaches(s0, s) && id !in s.requests && c !in s.inserted
    requires forall i <- s.requests :: s.requests[i].candidateId != c
    requires s.receipt == Some(r) && r.completion.None? && r.fingerprint == f
    ensures Reaches(s0, WithRequest(s, id, Fresh(f, d, c, Recovering(r.resourceId, false))))
  {
    Starts(s0, s, id, f, d, c);
    var s1 := WithRequest(s, id, Fresh(f, d, c, Probing));
    Then(s0, s1, Probe(id));
    assert NextProbe(s1, id) == WithRequest(s, id, Fresh(f, d, c, Recovering(r.resourceId, false)));
  }

  // A bound retry finds the old resource and completes whatever reservation is stored by then.
  lemma CompletesStored(s0: State, s: State, id: nat, r: Request, a: string, c: string) returns (s': State)
    requires Reaches(s0, s) && id in s.requests && s.requests[id] == r && r.phase == Recovering(a, false)
    requires a in s.resources && s.resources[a] == r.document && s.responses == []
    requires s.receipt.Some? && s.receipt.value.completion.None?
    requires s.receipt.value.fingerprint == r.fingerprint && s.receipt.value.resourceId == c
    ensures Reaches(s0, s') && |s'.responses| == 1
    ensures s'.responses[0].resourceId == c && s'.responses[0].result == Result(a, r.document, false)
  {
    Then(s0, s, Recover(id));
    var s1 := NextRecover(s, id);
    assert s1 == SetPhase(s, id, Completing(Result(a, r.document, false), true, s.now));
    Then(s0, s1, Complete(id));
    s' := NextComplete(s1, id);
  }

  // The completion filter names the fingerprint but not the resource: a retry bound to an expired
  // receipt completes the next one, and its response pairs one resource with the result of another.
  lemma MixedGenerations(s0: State, f: string, d: string, a: string, b: string, c: string) returns (s: State)
    requires Initial(s0) && a !in s0.resources && a != b && a != c && b != c
    ensures Reaches(s0, s) && |s.responses| == 1
    ensures s.responses[0].resourceId == c && s.responses[0].result == Result(a, d, false)
  {
    assert Exec(s0, []) == s0;
    var s1 := Reserves(s0, s0, 0, f, d, a);
    var s2 := InsertsAndCrashes(s0, s1, 0);
    assert s2.requests.Keys == {0};
    var s3 := BindsAndExpires(s0, s2, 1, f, d, b, s2.receipt.value);
    assert s3.requests.Keys == {0, 1} && s3.requests[0].candidateId == a;
    var s4 := Reserves(s0, s3, 2, f, d, c);
    assert s4.requests[1] == Fresh(f, d, b, Recovering(a, false));
    s := CompletesStored(s0, s4, 1, s4.requests[1], a, c);
  }
}
