// executeIdempotentCreate of server/apiIdempotency.js as it is written, with its nested resume and
// complete functions, over a store that other requests change between any two operations. It is
// proved to take the steps of the state machine in IdempotentCreate and to answer what that records.
module IdempotentProcedure {
  import opened Options
  import opened IdempotentCreate
  import opened IdempotentCreateProofs
  import opened IdempotentAnswers

  datatype Outcome = Answered(resourceId: string, result: Result, replayed: bool, expiresAt: int) | Threw

  // The steps that move a request on, as opposed to those that start it or end a late operation.
  predicate Moves(step: Step, id: nat) {
    match step
    case Start(_, _, _, _) => false
    case LandReserve(_) => false
    case LandInsert(_) => false
    case LandComplete(_) => false
    case Drop(_, _) => false
    case EditResource(_, _) => false
    case DeleteResource(_) => false
    case Tick(_) => false
    case Expire(_) => false
    case _ => step.id == id
  }

  predicate Around(steps: seq<Step>, id: nat) {
    forall step <- steps :: !Moves(step, id)
  }

  // A request may only lose its late operations by what others do.
  ghost predicate Same(s: State, t: State, id: nat) {
    && id in s.requests && id in t.requests
    && t.requests[id].fingerprint == s.requests[id].fingerprint
    && t.requests[id].document == s.requests[id].document
    && t.requests[id].candidateId == s.requests[id].candidateId
    && t.requests[id].phase == s.requests[id].phase
  }

  // A step changes the request it is about and no other.
  ghost predicate Only(s: State, t: State, id: nat) {
    forall i <- s.requests :: i in t.requests && (i == id || t.requests[i] == s.requests[i])
  }

  lemma {:induction false} ReadsAlone(s: State, id: nat)
    ensures Only(s, NextProbe(s, id), id) && Only(s, NextRecheck(s, id), id) && Only(s, NextReread(s, id), id)
    ensures Only(s, NextConfirm(s, id), id)
  {
    hide ValidReservation;
  }

  predicate IsRead(step: Step) {
    step.Probe? || step.Recheck? || step.Reread? || step.Confirm? || step.GuardPasses? || step.GuardFails?
  }

  predicate IsWrite(step: Step) {
    step.Reserve? || step.Complete? || step.Insert? || step.InsertFails? || step.Lose?
  }

  predicate IsRecovery(step: Step) {
    step.Recover? || step.RecheckRecover? || step.InsertRecover? || step.RecoverAfter?
  }

  predicate IsLanding(step: Step) {
    step.LandReserve? || step.LandInsert? || step.LandComplete? || step.Drop?
  }

  lemma ReadKeeps(s: State, step: Step, id: nat)
    requires id in s.requests && IsRead(step) && step.id != id
    ensures Same(s, Next(s, step), id)
  {
    ReadsAlone(s, step.id);
    hide NextProbe, NextRecheck, NextReread, NextConfirm;
  }

  lemma WriteKeeps(s: State, step: Step, id: nat)
    requires id in s.requests && IsWrite(step) && step.id != id
    ensures Same(s, Next(s, step), id)
  {
  }

  lemma RecoveryKeeps(s: State, step: Step, id: nat)
    requires id in s.requests && IsRecovery(step) && step.id != id
    ensures Same(s, Next(s, step), id)
  {
  }

  lemma LandingKeeps(s: State, step: Step, id: nat)
    requires id in s.requests && IsLanding(step)
    ensures Same(s, Next(s, step), id)
  {
  }

  lemma OthersKeep(s: State, step: Step, id: nat)
    requires id in s.requests && !Moves(step, id)
    ensures Same(s, Next(s, step), id)
  {
    hide Next, Same;
    if IsRead(step) {
      ReadKeeps(s, step, id);
    } else if IsWrite(step) {
      WriteKeeps(s, step, id);
    } else if IsRecovery(step) {
      RecoveryKeeps(s, step, id);
    } else if IsLanding(step) {
      LandingKeeps(s, step, id);
    } else {
      EnvironmentKeeps(s, step, id);
    }
  }

  lemma EnvironmentKeeps(s: State, step: Step, id: nat)
    requires id in s.requests
    requires step.Start? || step.EditResource? || step.DeleteResource? || step.Tick? || step.Expire?
    ensures Same(s, Next(s, step), id)
  {
  }

  // What the machine has recorded for a finished request.
  ghost predicate Recorded(s: State, id: nat, outcome: Outcome) {
    && id in s.requests
    && match outcome
       case Threw => s.requests[id].phase.Rejected?
       case Answered(resourceId, result, replayed, expiresAt) =>
         && s.requests[id].phase.Responded? && s.responses != []
         && s.responses[|s.responses| - 1] ==
              Response(id, s.requests[id].fingerprint, s.generation, replayed, resourceId, result, expiresAt)
  }

  // The answer's document was really stored, the retention before the advertised deadline.
  ghost predicate ReallyStored(start: State, history: seq<Step>, outcome: Outcome)
    requires outcome.Answered?
  {
    exists n :: 0 <= n <= |history|
      && var u := Exec(start, history[..n]);
         && outcome.result.resourceId in u.resources
         && u.resources[outcome.result.resourceId] == outcome.result.document
         && outcome.expiresAt == u.now + start.retention
  }

  lemma {:induction false} AnswerStored(start: State, history: seq<Step>, id: nat, outcome: Outcome)
    requires Initial(start) && Recorded(Exec(start, history), id, outcome) && outcome.Answered?
    ensures ReallyStored(start, history, outcome)
  {
    var k := |Exec(start, history).responses| - 1;
    ResponsesReportStored(start, history, k);
    var response := Exec(start, history).responses[k];
    assert response.result == outcome.result && response.replayExpiresAt == outcome.expiresAt;
  }

  function CompletedResponse(reservation: Receipt): Outcome
    requires reservation.completion.Some?
  {
    Answered(reservation.resourceId, reservation.completion.value.result, true,
             reservation.completion.value.replayExpiresAt)
  }

  // The receipt store, the resources and the requests around it, reached from some start by some run.
  class Store {
    ghost const start: State
    ghost var history: seq<Step>
    var state: State

    ghost predicate Valid()
      reads this
    {
      Initial(start) && state == Exec(start, history)
    }

    method Take(step: Step)
      requires Valid()
      modifies this
      ensures Valid() && state == Next(old(state), step) && history == old(history) + [step]
    {
      state := Next(state, step);
      history := history + [step];
      assert history[..|history| - 1] == old(history);
    }

    method Wait(steps: seq<Step>, id: nat)
      requires Valid() && id in state.requests && Around(steps, id)
      modifies this
      ensures Valid() && old(history) <= history && Same(old(state), state, id)
    {
      hide Next, Exec, Moves, Initial;
      for i := 0 to |steps|
        invariant Valid() && old(history) <= history && Same(old(state), state, id)
      {
        OthersKeep(state, steps[i], id);
        Take(steps[i]);
      }
    }

    // completeReservation. A completion that does not match is read back once.
    method CompleteReservation(id: nat, before: seq<Step>, beforeConfirm: seq<Step>) returns (outcome: Outcome)
      requires Valid() && id in state.requests && state.requests[id].phase.Completing?
      requires Around(before, id) && Around(beforeConfirm, id)
      modifies this
      ensures Valid() && old(history) <= history && Recorded(state, id, outcome)
    {
      hide Next, Exec, Moves, Initial;
      Wait(before, id);
      var r := state.requests[id];
      var replayed := r.phase.replayed;
      var stored := None;
      if CompleteMatches(state.receipt, r.fingerprint) {
        stored := Some(Completed(state, state.receipt.value, r.phase.result, r.phase.completedAt));
      }
      CompleteStep(state, id);
      Take(Complete(id));
      if stored.None? {
        Wait(beforeConfirm, id);
        stored := state.receipt;
        ConfirmStep(state, id);
        Take(Confirm(id));
        if !ValidReservation(stored, r.fingerprint) || stored.value.completion.None? {
          return Threw;
        }
      }
      outcome := Answered(stored.value.resourceId, stored.value.completion.value.result, replayed,
                          stored.value.completion.value.replayExpiresAt);
    }

    // The catch block around create: one authoritative read decides.
    method RecoverAfterCreate(id: nat, before: seq<Step>) returns (result: Option<Result>)
      requires Valid() && id in state.requests && state.requests[id].phase.RecoveringAfter? && Around(before, id)
      modifies this
      ensures Valid() && old(history) <= history && id in state.requests
      ensures result.None? ==> Recorded(state, id, Threw)
      ensures result.Some? ==> state.requests[id].phase.Completing? && state.requests[id].phase.result == result.value
    {
      hide Next, Exec, Moves, Initial;
      Wait(before, id);
      var r := state.requests[id];
      var recovery := RecoverDocument(state.resources, r.document, r.phase.resourceId);
      RecoverAfterStep(state, id);
      Take(RecoverAfter(id));
      result := if recovery.Found? then Some(recovery.result) else None;
    }

    // create: insertDocumentWithId, whose insert may be answered, refused as a duplicate, or fail.
    method Create(id: nat, replies: bool, before: seq<Step>, beforeRead: seq<Step>, beforeLast: seq<Step>)
      returns (result: Option<Result>)
      requires Valid() && id in state.requests && state.requests[id].phase.Creating?
      requires Around(before, id) && Around(beforeRead, id) && Around(beforeLast, id)
      modifies this
      ensures Valid() && old(history) <= history && id in state.requests
      ensures result.None? ==> Recorded(state, id, Threw)
      ensures result.Some? ==> state.requests[id].phase.Completing? && state.requests[id].phase.result == result.value
    {
      hide Next, Exec, Moves, Initial;
      Wait(before, id);
      InsertSteps(state, id);
      var r := state.requests[id];
      var resourceId := r.phase.resourceId;
      if !replies {
        Take(InsertFails(id));
      } else {
        var duplicate := resourceId in state.resources;
        Take(Insert(id));
        if !duplicate {
          return Some(Result(resourceId, r.document, true));
        }
        Wait(beforeRead, id);
        var recovery := RecoverDocument(state.resources, r.document, resourceId);
        InsertRecoverStep(state, id);
        Take(InsertRecover(id));
        if recovery.Found? {
          return Some(recovery.result);
        }
      }
      result := RecoverAfterCreate(id, beforeLast);
    }

    // resumeReservation, once the reservation has been validated.
    method ResumeReservation(id: nat, reservation: Receipt, allowCreate: bool, replies: bool, others: nat -> seq<Step>)
      returns (outcome: Outcome)
      requires Valid() && id in state.requests && forall n: nat :: Around(others(n), id)
      requires if reservation.completion.Some? then Recorded(state, id, CompletedResponse(reservation))
               else state.requests[id].phase == Recovering(reservation.resourceId, allowCreate)
      modifies this
      ensures Valid() && old(history) <= history && Recorded(state, id, outcome)
    {
      if reservation.completion.Some? {
        return CompletedResponse(reservation);
      }
      hide Next, Exec, Moves, Initial, Around;
      Wait(others(0), id);
      var recovery := RecoverDocument(state.resources, state.requests[id].document, reservation.resourceId);
      RecoverStep(state, id);
      Take(Recover(id));
      if recovery.Conflicting? || (recovery.Absent? && !allowCreate) {
        return Threw;
      }
      if recovery.Absent? {
        var result := Create(id, replies, others(1), others(2), others(3));
        if result.None? {
          return Threw;
        }
      }
      outcome := CompleteReservation(id, others(4), others(5));
    }

    // The request fails its guard: only an exact replay of what somebody else made is allowed.
    method AfterGuardError(id: nat, others: nat -> seq<Step>) returns (outcome: Outcome)
      requires Valid() && At(state, id, Rechecking) && forall n: nat :: Around(others(n), id)
      modifies this
      ensures Valid() && old(history) <= history && Recorded(state, id, outcome)
    {
      hide Next, Exec, Moves, Initial, Around;
      Wait(others(0), id);
      var raced := state.receipt;
      RecheckStep(state, id);
      Take(Recheck(id));
      if raced.None? || !ValidReservation(raced, state.requests[id].fingerprint) {
        return Threw;
      }
      if raced.value.completion.Some? {
        return CompletedResponse(raced.value);
      }
      Wait(others(1), id);
      var recovery := RecoverDocument(state.resources, state.requests[id].document, raced.value.resourceId);
      RecheckRecoverStep(state, id);
      Take(RecheckRecover(id));
      if !recovery.Found? {
        return Threw;
      }
      outcome := CompleteReservation(id, others(2), others(3));
    }

    // guardPasses is the outcome of beforeCreate, replies that of the insert;
    // others(n) is what everybody else does before the nth operation of a part.
    method Execute(id: nat, guardPasses: bool, replies: bool, others: nat -> seq<Step>)
      returns (outcome: Outcome)
      requires Valid() && At(state, id, Probing) && forall n: nat :: Around(others(n), id)
      modifies this
      ensures Valid() && old(history) <= history && Recorded(state, id, outcome)
    {
      hide Next, Exec, Moves, Initial, Around;
      var fingerprint := state.requests[id].fingerprint;
      Wait(others(0), id);
      var existing := state.receipt;
      ProbeStep(state, id);
      Take(Probe(id));
      if existing.Some? {
        if !ValidReservation(existing, fingerprint) {
          return Threw;
        }
        outcome := ResumeReservation(id, existing.value, false, replies, others);
        return;
      }
      Wait(others(1), id);
      GuardSteps(state, id);
      if !guardPasses {
        Take(GuardFails(id));
        outcome := AfterGuardError(id, others);
        return;
      }
      Take(GuardPasses(id));
      outcome := ReserveAndResume(id, replies, others);
    }

    // executeIdempotentCreate. While no receipt has expired, whatever other requests answered before agrees
    // with this answer, and at most one of all answers was no replay; while no request outlived its
    // receipt, the answer's result is that of the answered resource.
    method ExecuteIdempotentCreate(id: nat, guardPasses: bool, replies: bool, others: nat -> seq<Step>)
      returns (outcome: Outcome)
      requires Valid() && At(state, id, Probing) && forall n: nat :: Around(others(n), id)
      modifies this
      ensures Valid() && old(history) <= history && Recorded(state, id, outcome)
      ensures outcome.Answered? ==> ReallyStored(start, history, outcome)
      ensures outcome.Answered? && CleanRun(start, history) ==> outcome.result.resourceId == outcome.resourceId
      ensures outcome.Answered? && NoExpiry(history) ==>
        && |state.createStarts| <= 1
        && forall k :: 0 <= k < |state.responses| ==>
             state.responses[k].resourceId == outcome.resourceId && state.responses[k].result == outcome.result
             && (k < |state.responses| - 1 ==> state.responses[k].replayed || outcome.replayed)
    {
      outcome := Execute(id, guardPasses, replies, others);
      hide Exec, CleanRun, NoExpiry, Initial, Recorded, ReallyStored;
      if outcome.Answered? {
        AnswerStored(start, history, id, outcome);
        Agreement(id, outcome);
      }
    }

    lemma Agreement(id: nat, outcome: Outcome)
      requires Valid() && Recorded(state, id, outcome) && outcome.Answered?
      ensures CleanRun(start, history) ==> outcome.result.resourceId == outcome.resourceId
      ensures NoExpiry(history) ==>
        && |state.createStarts| <= 1
        && forall k :: 0 <= k < |state.responses| ==>
             state.responses[k].resourceId == outcome.resourceId && state.responses[k].result == outcome.result
             && (k < |state.responses| - 1 ==> state.responses[k].replayed || outcome.replayed)
    {
      if CleanRun(start, history) { CleanAnswer(start, history, id, outcome); }
      if NoExpiry(history) { AllAgree(start, history, id, outcome); }
      hide Exec, CleanRun, NoExpiry, Initial, Recorded;
    }

    // All guards have passed: reserve, or take up the reservation that is already there.
    method ReserveAndResume(id: nat, replies: bool, others: nat -> seq<Step>) returns (outcome: Outcome)
      requires Valid() && id in state.requests && state.requests[id].phase.Reserving?
      requires forall n: nat :: Around(others(n), id)
      modifies this
      ensures Valid() && old(history) <= history && Recorded(state, id, outcome)
    {
      hide Next, Exec, Moves, Initial, Around;
      var fingerprint, reservedAt := state.requests[id].fingerprint, state.requests[id].phase.reservedAt;
      Wait(others(2), id);
      var candidate := Candidate(state, state.requests[id], reservedAt);
      var inserted := state.receipt.None?;
      ReserveStep(state, id);
      Take(Reserve(id));
      var reservation := candidate;
      if !inserted {
        Wait(others(3), id);
        var found := state.receipt;
        RereadStep(state, id);
        Take(Reread(id));
        if found.None? || !ValidReservation(found, fingerprint) {
          return Threw;
        }
        reservation := found.value;
      }
      outcome := ResumeReservation(id, reservation, inserted, replies, others);
    }
  }

  lemma {:induction false} CleanAnswer(start: State, history: seq<Step>, id: nat, outcome: Outcome)
    requires Initial(start) && CleanRun(start, history) && outcome.Answered?
    requires Recorded(Exec(start, history), id, outcome)
    ensures outcome.result.resourceId == outcome.resourceId
  {
    hide Exec, CleanRun, Initial;
    AtMostOnceAndAgreement(start, history);
    var s := Exec(start, history);
    var last := s.responses[|s.responses| - 1];
    assert last.result == outcome.result && last.resourceId == outcome.resourceId;
    assert last.result.resourceId == last.resourceId;
  }

  lemma {:induction false} AllAgree(start: State, history: seq<Step>, id: nat, outcome: Outcome)
    requires Initial(start) && NoExpiry(history) && outcome.Answered?
    requires Recorded(Exec(start, history), id, outcome)
    ensures var s := Exec(start, history);
      && |s.createStarts| <= 1
      && forall k :: 0 <= k < |s.responses| ==>
           s.responses[k].resourceId == outcome.resourceId && s.responses[k].result == outcome.result
           && (k < |s.responses| - 1 ==> s.responses[k].replayed || outcome.replayed)
  {
    hide Exec, NoExpiry, Initial;
    WithoutExpiryCreatedOnce(start, history);
  }

  // ---------------------------------------------------------------- single steps

  // Acting on a receipt that was just read, if it is valid.
  ghost predicate Resumed(s: State, t: State, id: nat, receipt: Option<Receipt>, pending: Phase)
    requires receipt.Some?
  {
    && id in s.requests && id in t.requests
    && t.requests[id].fingerprint == s.requests[id].fingerprint && t.requests[id].document == s.requests[id].document
    && if !ValidReservation(receipt, s.requests[id].fingerprint) then Recorded(t, id, Threw)
       else if receipt.value.completion.Some? then Recorded(t, id, CompletedResponse(receipt.value))
       else t.requests[id].phase == pending
  }

  lemma ProbeStep(s: State, id: nat)
    requires At(s, id, Probing)
    ensures var t := Next(s, Probe(id));
      if s.receipt.None? then Same(SetPhase(s, id, Guarding), t, id)
      else Resumed(s, t, id, s.receipt, Recovering(s.receipt.value.resourceId, false))
  {
  }

  lemma RecheckStep(s: State, id: nat)
    requires At(s, id, Rechecking)
    ensures var t := Next(s, Recheck(id));
      if s.receipt.None? then Recorded(t, id, Threw)
      else Resumed(s, t, id, s.receipt, RecheckRecovering(s.receipt.value.resourceId))
  {
  }

  lemma RereadStep(s: State, id: nat)
    requires At(s, id, Rereading)
    ensures var t := Next(s, Reread(id));
      if s.receipt.None? then Recorded(t, id, Threw)
      else Resumed(s, t, id, s.receipt, Recovering(s.receipt.value.resourceId, false))
  {
  }

  lemma GuardSteps(s: State, id: nat)
    requires At(s, id, Guarding)
    ensures Same(SetPhase(s, id, Reserving(s.now)), Next(s, GuardPasses(id)), id)
    ensures Same(SetPhase(s, id, Rechecking), Next(s, GuardFails(id)), id)
  {
  }

  lemma ReserveStep(s: State, id: nat)
    requires id in s.requests && s.requests[id].phase.Reserving?
    ensures Same(SetPhase(s, id, if s.receipt.None? then Recovering(s.requests[id].candidateId, true) else Rereading),
                 Next(s, Reserve(id)), id)
  {
  }

  lemma RecoverStep(s: State, id: nat)
    requires id in s.requests && s.requests[id].phase.Recovering?
    ensures var r := s.requests[id];
      var t := Next(s, Recover(id));
      id in t.requests &&
      match RecoverDocument(s.resources, r.document, r.phase.resourceId)
      case Found(result) => t.requests[id].phase == Completing(result, !r.phase.allowCreate, s.now)
      case Conflicting => Recorded(t, id, Threw)
      case Absent => if r.phase.allowCreate then t.requests[id].phase == Creating(r.phase.resourceId)
                     else Recorded(t, id, Threw)
  {
  }

  lemma RecheckRecoverStep(s: State, id: nat)
    requires id in s.requests && s.requests[id].phase.RecheckRecovering?
    ensures var r := s.requests[id];
      var recovery := RecoverDocument(s.resources, r.document, r.phase.resourceId);
      var t := Next(s, RecheckRecover(id));
      id in t.requests &&
      if recovery.Found? then t.requests[id].phase == Completing(recovery.result, true, s.now) else Recorded(t, id, Threw)
  {
  }

  lemma InsertSteps(s: State, id: nat)
    requires id in s.requests && s.requests[id].phase.Creating?
    ensures var r := s.requests[id];
      Same(SetPhase(s, id, if r.phase.resourceId in s.resources then InsertRecovering(r.phase.resourceId)
                           else Completing(Result(r.phase.resourceId, r.document, true), false, s.now)),
           Next(s, Insert(id)), id)
    ensures Same(SetPhase(s, id, RecoveringAfter(s.requests[id].phase.resourceId)), Next(s, InsertFails(id)), id)
  {
  }

  lemma InsertRecoverStep(s: State, id: nat)
    requires id in s.requests && s.requests[id].phase.InsertRecovering?
    ensures var r := s.requests[id];
      var recovery := RecoverDocument(s.resources, r.document, r.phase.resourceId);
      Same(SetPhase(s, id, if recovery.Found? then Completing(recovery.result, false, s.now)
                           else RecoveringAfter(r.phase.resourceId)),
           Next(s, InsertRecover(id)), id)
  {
  }

  lemma RecoverAfterStep(s: State, id: nat)
    requires id in s.requests && s.requests[id].phase.RecoveringAfter?
    ensures var r := s.requests[id];
      var recovery := RecoverDocument(s.resources, r.document, r.phase.resourceId);
      var t := Next(s, RecoverAfter(id));
      id in t.requests &&
      if recovery.Found? then t.requests[id].phase == Completing(recovery.result, false, s.now) else Recorded(t, id, Threw)
  {
  }

  lemma CompleteStep(s: State, id: nat)
    requires id in s.requests && s.requests[id].phase.Completing?
    ensures var r := s.requests[id];
      var t := Next(s, Complete(id));
      if CompleteMatches(s.receipt, r.fingerprint) then
        var stored := Completed(s, s.receipt.value, r.phase.result, r.phase.completedAt);
        Recorded(t, id, Answered(stored.resourceId, stored.completion.value.result, r.phase.replayed,
                                 stored.completion.value.replayExpiresAt))
      else Same(SetPhase(s, id, Confirming(r.phase.replayed)), t, id)
  {
  }

  lemma ConfirmStep(s: State, id: nat)
    requires id in s.requests && s.requests[id].phase.Confirming?
    ensures var t := Next(s, Confirm(id));
      if ValidReservation(s.receipt, s.requests[id].fingerprint) && s.receipt.value.completion.Some? then
        Recorded(t, id, Answered(s.receipt.value.resourceId, s.receipt.value.completion.value.result,
                                 s.requests[id].phase.replayed, s.receipt.value.completion.value.replayExpiresAt))
      else Recorded(t, id, Threw)
  {
  }
}
