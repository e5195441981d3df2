// What the idempotency protocol answers: every reported document was really stored, the replay deadline
// is a completion time plus the retention, and an undisturbed request gets the answer its receipt calls for.
module IdempotentAnswers {
  import opened Options
  import opened IdempotentCreate
  import opened IdempotentCreateProofs
  import opened IdempotentTiming

  // ---------------------------------------------------------------- reported documents

  predicate Stores(s: State, result: Result) {
    result.resourceId in s.resources && s.resources[result.resourceId] == result.document
  }

  predicate AtCompleting(s: State, id: nat) {
    id in s.requests && s.requests[id].phase.Completing?
  }

  // Whoever takes up a result, by a recovery or an insert, does so while the resource holds that document.
  lemma {:induction false} TakenUpFromStore(s: State, step: Step, id: nat)
    requires !AtCompleting(s, id) && AtCompleting(Next(s, step), id)
    ensures var t := Next(s, step);
      Stores(t, t.requests[id].phase.result) && t.requests[id].phase.completedAt == t.now
  {
    hide ValidReservation;
  }

  // At some point of the run the clock showed this and the resource held the reported document.
  ghost predicate Held(s: State, steps: seq<Step>, result: Result, time: int) {
    exists n :: 0 <= n <= |steps| && Stores(Exec(s, steps[..n]), result) && Exec(s, steps[..n]).now == time
  }

  ghost predicate RequestBacked(r: Request, held: (Result, int) -> bool) {
    && (r.phase.Completing? ==> held(r.phase.result, r.phase.completedAt))
    && (r.lateComplete.Some? ==> held(r.lateComplete.value.result, r.lateComplete.value.completedAt))
  }

  // Everything that is or will be reported is backed, with its completion time.
  ghost predicate Backed(s: State, held: (Result, int) -> bool) {
    && (forall i <- s.requests :: RequestBacked(s.requests[i], held))
    && (s.receipt.Some? && s.receipt.value.completion.Some? ==>
          held(s.receipt.value.completion.value.result, s.receipt.value.completion.value.replayExpiresAt - s.retention))
    && forall k :: 0 <= k < |s.responses| ==> held(s.responses[k].result, s.responses[k].replayExpiresAt - s.retention)
  }

  ghost predicate TakesUpBacked(s: State, step: Step, held: (Result, int) -> bool) {
    forall i :: !AtCompleting(s, i) && AtCompleting(Next(s, step), i) ==>
      held(Next(s, step).requests[i].phase.result, Next(s, step).requests[i].phase.completedAt)
  }

  // One request moves on; everything else that is backed stays.
  lemma {:induction false} MoveKeepsBacked(s: State, t: State, id: nat, held: (Result, int) -> bool)
    requires Backed(s, held) && id in s.requests && t.requests.Keys == s.requests.Keys && t.retention == s.retention
    requires forall i <- s.requests :: i != id ==> t.requests[i] == s.requests[i]
    requires t.receipt == s.receipt && t.responses == s.responses && RequestBacked(t.requests[id], held)
    ensures Backed(t, held)
  {
  }

  predicate Answering(step: Step) {
    step.Probe? || step.Recheck? || step.Reread? || step.Confirm?
  }

  // A read answers with the stored receipt, or moves its request on to no completion.
  lemma {:induction false} AnsweringKeepsBacked(s: State, step: Step, held: (Result, int) -> bool)
    requires Backed(s, held) && Answering(step)
    ensures Backed(Next(s, step), held)
  {
    hide Backed;
    var t := Next(s, step);
    if t != s {
      var id := step.id;
      AnswersOnce(s, step);
      hide Next;
      assert RequestBacked(s.requests[id], held) by { BackedParts(s, id, held); }
      if t.responses == s.responses {
        MoveKeepsBacked(s, t, id, held);
      } else {
        RespondKeepsBacked(s, t, id, held);
      }
    }
  }

  lemma {:induction false} BackedParts(s: State, id: nat, held: (Result, int) -> bool)
    requires Backed(s, held) && id in s.requests
    ensures RequestBacked(s.requests[id], held)
  {
  }

  lemma {:induction false} AnswersOnce(s: State, step: Step)
    requires Answering(step) && Next(s, step) != s
    ensures var t := Next(s, step);
      && step.id in s.requests && t.requests.Keys == s.requests.Keys && t.retention == s.retention && t.receipt == s.receipt
      && (forall i <- s.requests :: i != step.id ==> t.requests[i] == s.requests[i])
      && t.requests[step.id] == s.requests[step.id].(phase := t.requests[step.id].phase)
      && !t.requests[step.id].phase.Completing?
      && (t.responses == s.responses || AddsStored(s, t))
  {
    if s.receipt.Some? && s.receipt.value.completion.Some? && step.id in s.requests {
      RespondAdds(s, step.id, true);
      if s.requests[step.id].phase.Confirming? { RespondAdds(s, step.id, s.requests[step.id].phase.replayed); }
    }
    hide AddsStored;
  }

  lemma RespondAdds(s: State, id: nat, replayed: bool)
    requires id in s.requests && s.receipt.Some? && s.receipt.value.completion.Some?
    ensures AddsStored(s, Respond(s, id, replayed, s.receipt.value))
  {
    var t := Respond(s, id, replayed, s.receipt.value);
    assert t.responses[..|s.responses|] == s.responses;
  }

  // One more response, which repeats the stored completion.
  ghost predicate AddsStored(s: State, t: State) {
    && t.receipt.Some? && t.receipt.value.completion.Some? && |t.responses| == |s.responses| + 1
    && t.responses[..|s.responses|] == s.responses
    && t.responses[|s.responses|].result == t.receipt.value.completion.value.result
    && t.responses[|s.responses|].replayExpiresAt == t.receipt.value.completion.value.replayExpiresAt
  }

  lemma {:induction false} RespondKeepsBacked(s: State, t: State, id: nat, held: (Result, int) -> bool)
    requires Backed(s, held) && id in s.requests && t.requests.Keys == s.requests.Keys && t.retention == s.retention
    requires forall i <- s.requests :: i != id ==> t.requests[i] == s.requests[i]
    requires RequestBacked(t.requests[id], held) && AddsStored(s, t)
    requires held(t.receipt.value.completion.value.result, t.receipt.value.completion.value.replayExpiresAt - t.retention)
      || t.receipt == s.receipt
    ensures Backed(t, held)
  {
    forall k | 0 <= k < |t.responses| ensures held(t.responses[k].result, t.responses[k].replayExpiresAt - t.retention) {
      if k < |s.responses| { assert t.responses[k] == t.responses[..|s.responses|][k]; }
    }
  }

  predicate Moving(step: Step) {
    step.GuardPasses? || step.GuardFails? || step.Recover? || step.RecheckRecover? || step.Insert? || step.InsertFails?
    || step.InsertRecover? || step.RecoverAfter? || step.Lose? || step.LandInsert? || step.Drop?
  }

  lemma {:induction false} MovingKeepsBacked(s: State, step: Step, held: (Result, int) -> bool)
    requires Backed(s, held) && Moving(step) && TakesUpBacked(s, step, held)
    ensures Backed(Next(s, step), held)
  {
    var t := Next(s, step);
    if t != s {
      MovesOnce(s, step);
      BackedParts(s, step.id, held);
      hide Backed, Next;
      assert AtCompleting(t, step.id) && !AtCompleting(s, step.id) ==>
        held(t.requests[step.id].phase.result, t.requests[step.id].phase.completedAt);
      MoveKeepsBacked(s, t, step.id, held);
    }
  }

  // A step of a request that is not an answer: it completes with what it had, or sends that off, or drops it.
  lemma {:induction false} MovesOnce(s: State, step: Step)
    requires Moving(step) && Next(s, step) != s
    ensures var t := Next(s, step);
      && step.id in s.requests && t.requests.Keys == s.requests.Keys && t.retention == s.retention
      && t.receipt == s.receipt && t.responses == s.responses
      && (forall i <- s.requests :: i != step.id ==> t.requests[i] == s.requests[i])
      && var (r, q) := (s.requests[step.id], t.requests[step.id]);
         && (q.phase.Completing? && r.phase.Completing? ==> q.phase == r.phase)
         && (q.lateComplete == r.lateComplete || q.lateComplete.None?
             || (r.phase.Completing? && q.lateComplete == Some(LateComplete(r.phase.result, r.phase.completedAt))))
  {
    hide RecoverDocument;
  }

  lemma {:induction false} ReserveKeepsBacked(s: State, step: Step, held: (Result, int) -> bool)
    requires Backed(s, held) && (step.Reserve? || step.LandReserve?) && Inv(s)
    ensures Backed(Next(s, step), held)
  {
    var t := Next(s, step);
    if step.id in s.requests { assert RequestInv(s, s.requests[step.id]) && RequestBacked(s.requests[step.id], held); }
    assert t.receipt == s.receipt || (t.receipt.Some? && t.receipt.value.completion.None?);
    forall i <- t.requests ensures RequestBacked(t.requests[i], held) {
      assert RequestBacked(s.requests[i], held);
    }
  }

  lemma {:induction false} CompleteKeepsBacked(s: State, id: nat, held: (Result, int) -> bool)
    requires Backed(s, held)
    ensures Backed(NextComplete(s, id), held)
  {
    var t := NextComplete(s, id);
    if t != s {
      assert RequestBacked(s.requests[id], held);
      if CompleteMatches(s.receipt, s.requests[id].fingerprint) {
        assert t.responses[..|s.responses|] == s.responses;
        RespondKeepsBacked(s, t, id, held);
      } else {
        MoveKeepsBacked(s, t, id, held);
      }
    }
  }

  lemma {:induction false} LandCompleteKeepsBacked(s: State, id: nat, held: (Result, int) -> bool)
    requires Backed(s, held)
    ensures Backed(NextLandComplete(s, id), held)
  {
    var t := NextLandComplete(s, id);
    if t != s {
      assert RequestBacked(s.requests[id], held);
      forall i <- t.requests ensures RequestBacked(t.requests[i], held) { assert RequestBacked(s.requests[i], held); }
    }
  }

  lemma {:induction false} OutsideKeepsBacked(s: State, step: Step, held: (Result, int) -> bool)
    requires Backed(s, held) && (Outside(step) || step.Start?)
    ensures Backed(Next(s, step), held)
  {
    var t := Next(s, step);
    forall i <- t.requests ensures RequestBacked(t.requests[i], held) {
      if i in s.requests { assert RequestBacked(s.requests[i], held); }
    }
  }

  lemma {:induction false} StepKeepsBacked(s: State, step: Step, held: (Result, int) -> bool)
    requires Inv(s) && Backed(s, held) && TakesUpBacked(s, step, held)
    ensures Backed(Next(s, step), held)
  {
    hide Backed, Inv, TakesUpBacked, NextComplete, NextLandComplete;
    if Answering(step) { AnsweringKeepsBacked(s, step, held); }
    else if Moving(step) { MovingKeepsBacked(s, step, held); }
    else if step.Reserve? || step.LandReserve? { ReserveKeepsBacked(s, step, held); }
    else if step.Complete? { CompleteKeepsBacked(s, step.id, held); }
    else if step.LandComplete? { LandCompleteKeepsBacked(s, step.id, held); }
    else { OutsideKeepsBacked(s, step, held); }
  }

  lemma {:induction false} HeldOnwards(s: State, steps: seq<Step>, result: Result, time: int)
    requires steps != [] && Held(s, steps[..|steps| - 1], result, time)
    ensures Held(s, steps, result, time)
  {
    var front := steps[..|steps| - 1];
    var n :| 0 <= n <= |front| && Stores(Exec(s, front[..n]), result) && Exec(s, front[..n]).now == time;
    assert steps[..n] == front[..n];
  }

  lemma {:induction false} BackedWeaker(s: State, narrow: (Result, int) -> bool, wide: (Result, int) -> bool)
    requires Backed(s, narrow) && forall result, time :: narrow(result, time) ==> wide(result, time)
    ensures Backed(s, wide)
  {
    forall i <- s.requests ensures RequestBacked(s.requests[i], wide) { assert RequestBacked(s.requests[i], narrow); }
  }

  lemma {:induction false} RunIsBacked(s: State, steps: seq<Step>)
    requires Initial(s)
    ensures Backed(Exec(s, steps), (result, time) => Held(s, steps, result, time))
  {
    var held := (result, time) => Held(s, steps, result, time);
    if steps != [] {
      var front, last := steps[..|steps| - 1], steps[|steps| - 1];
      var before := Exec(s, front);
      RunIsBacked(s, front);
      RunKeepsInv(s, front);
      forall result, time | Held(s, front, result, time) ensures held(result, time) {
        HeldOnwards(s, steps, result, time);
      }
      BackedWeaker(before, (result, time) => Held(s, front, result, time), held);
      forall i | !AtCompleting(before, i) && AtCompleting(Next(before, last), i)
        ensures held(Next(before, last).requests[i].phase.result, Next(before, last).requests[i].phase.completedAt)
      {
        TakenUpFromStore(before, last, i);
        assert steps[..|steps|] == steps;
      }
      hide Backed, Inv, Next, Held;
      StepKeepsBacked(before, last, held);
    }
  }

  // In every run each response reports a document its resource really held, at a time from which the
  // advertised replay deadline is exactly the retention away.
  lemma {:induction false} ResponsesReportStored(s: State, steps: seq<Step>, k: nat)
    requires Initial(s) && k < |Exec(s, steps).responses|
    ensures var response := Exec(s, steps).responses[k];
      exists n :: 0 <= n <= |steps|
        && var u := Exec(s, steps[..n]);
           && response.result.resourceId in u.resources
           && u.resources[response.result.resourceId] == response.result.document
           && response.replayExpiresAt == u.now + s.retention
  {
    RunIsBacked(s, steps);
    SettingsStay(s, steps);
    var response := Exec(s, steps).responses[k];
    assert Held(s, steps, response.result, response.replayExpiresAt - s.retention);
    var n :| 0 <= n <= |steps| && Stores(Exec(s, steps[..n]), response.result)
      && Exec(s, steps[..n]).now == response.replayExpiresAt - s.retention;
  }

  // ---------------------------------------------------------------- refused recoveries

  // A recovery that meets another document, or that finds nothing where it may not create, ends the
  // request and changes nothing else.
  lemma {:induction false} RecoveryRefuses(s: State, id: nat)
    requires id in s.requests
    requires s.requests[id].phase.RecheckRecovering? || s.requests[id].phase.Recovering? || s.requests[id].phase.RecoveringAfter?
    ensures var r := s.requests[id];
      var t := Next(s, if r.phase.Recovering? then Recover(id) else if r.phase.RecoveringAfter? then RecoverAfter(id)
                       else RecheckRecover(id));
      && id in t.requests
      && (if r.phase.resourceId in s.resources then s.resources[r.phase.resourceId] != r.document
          else !(r.phase.Recovering? && r.phase.allowCreate)) ==>
           t.requests[id].phase.Rejected? && t.receipt == s.receipt && t.resources == s.resources && t.responses == s.responses
           && t.createStarts == s.createStarts
  {
  }

  // A duplicate insert of another document is refused after two reads.
  lemma {:induction false} DuplicateRefused(s: State, id: nat)
    requires id in s.requests && s.requests[id].phase.Creating?
    requires var r := s.requests[id]; r.phase.resourceId in s.resources && s.resources[r.phase.resourceId] != r.document
    ensures var t := Next(Next(Next(s, Insert(id)), InsertRecover(id)), RecoverAfter(id));
      && id in t.requests && t.requests[id].phase.Rejected?
      && t.receipt == s.receipt && t.resources == s.resources && t.responses == s.responses
  {
  }

  // ---------------------------------------------------------------- undisturbed requests

  // The steps of one request with nothing in between; steps its phase does not call for do nothing.
  function RunAlone(s: State, id: nat): State {
    var s3 := Next(Next(Next(s, Probe(id)), GuardPasses(id)), Reserve(id));
    Next(Next(Next(s3, Recover(id)), Insert(id)), Complete(id))
  }

  function RunGuarded(s: State, id: nat): State {
    var s3 := Next(Next(Next(s, Probe(id)), GuardFails(id)), Recheck(id));
    Next(Next(Next(s3, RecheckRecover(id)), Recover(id)), Complete(id))
  }

  // What a request gets from a receipt that is there: a replay of the completion, or a completion with the
  // stored resource if it holds the request's document, or nothing.
  ghost predicate Resumes(s: State, t: State, id: nat, x: Receipt)
    requires id in s.requests
  {
    var r := s.requests[id];
    && id in t.requests && t.resources == s.resources && t.createStarts == s.createStarts
    && if x.fingerprint != r.fingerprint then
         t.requests[id].phase.Rejected? && t.responses == s.responses && t.receipt == s.receipt
       else if x.completion.Some? then
         && t.requests[id].phase.Responded? && t.receipt == s.receipt
         && t.responses == s.responses + [Response(id, r.fingerprint, s.generation, true, x.resourceId,
                                                   x.completion.value.result, x.completion.value.replayExpiresAt)]
       else if x.resourceId in s.resources && s.resources[x.resourceId] == r.document then
         var result := Result(x.resourceId, r.document, false);
         && t.requests[id].phase.Responded?
         && t.receipt == Some(Receipt(x.fingerprint, x.resourceId, Some(Completion(result, s.now + s.retention)),
                                      s.now + s.retention + 86_400_000))
         && t.responses == s.responses + [Response(id, r.fingerprint, s.generation, true, x.resourceId, result, s.now + s.retention)]
       else
         t.requests[id].phase.Rejected? && t.responses == s.responses && t.receipt == s.receipt
  }

  // What the first request of a key gets: its resource is created under its own identifier.
  ghost predicate Creates(s: State, t: State, id: nat)
    requires id in s.requests
  {
    var r := s.requests[id];
    var result := Result(r.candidateId, r.document, true);
    && id in t.requests && t.requests[id].phase.Responded?
    && t.resources == s.resources[r.candidateId := r.document]
    && t.createStarts == s.createStarts + [CreateStart(id, s.generation)]
    && t.receipt == Some(Receipt(r.fingerprint, r.candidateId, Some(Completion(result, s.now + s.retention)),
                                 s.now + s.retention + 86_400_000))
    && t.responses == s.responses + [Response(id, r.fingerprint, s.generation, false, r.candidateId, result, s.now + s.retention)]
  }

  lemma SettledStays(s: State, id: nat)
    requires id in s.requests && (s.requests[id].phase.Responded? || s.requests[id].phase.Rejected?)
    ensures Next(s, GuardPasses(id)) == s && Next(s, GuardFails(id)) == s && Next(s, Reserve(id)) == s
    ensures Next(s, Recheck(id)) == s && Next(s, RecheckRecover(id)) == s
    ensures Next(s, Recover(id)) == s && Next(s, Insert(id)) == s && Next(s, Complete(id)) == s
  {
  }

  lemma CompletedStays(s: State, id: nat)
    requires id in s.requests && s.requests[id].phase.Completing?
    ensures Next(s, Recover(id)) == s && Next(s, Insert(id)) == s
  {
  }

  // A bound retry that may not create.
  lemma {:induction false} ResumesReserved(s: State, id: nat, x: Receipt)
    requires id in s.requests && s.receipt == Some(x) && x.completion.None? && x.fingerprint == s.requests[id].fingerprint
    ensures var s1 := SetPhase(s, id, Recovering(x.resourceId, false));
      Resumes(s, Next(Next(Next(s1, Recover(id)), Insert(id)), Complete(id)), id, x)
    ensures var s2 := SetPhase(s, id, RecheckRecovering(x.resourceId));
      Resumes(s, Next(Next(Next(s2, RecheckRecover(id)), Recover(id)), Complete(id)), id, x)
  {
    var s1, s2 := SetPhase(s, id, Recovering(x.resourceId, false)), SetPhase(s, id, RecheckRecovering(x.resourceId));
    var r := s.requests[id];
    if x.resourceId in s.resources && s.resources[x.resourceId] == r.document {
      var taken := SetPhase(s, id, Completing(Result(x.resourceId, r.document, false), true, s.now));
      assert Next(s1, Recover(id)) == taken && Next(s2, RecheckRecover(id)) == taken;
      CompletedStays(taken, id);
      hide Next;
      CompletesReserved(s, id, x);
    } else {
      RecoveryRefuses(s1, id);
      RecoveryRefuses(s2, id);
      SettledStays(Next(s1, Recover(id)), id);
      SettledStays(Next(s2, RecheckRecover(id)), id);
      hide Next;
    }
  }

  lemma {:induction false} CompletesReserved(s: State, id: nat, x: Receipt)
    requires id in s.requests && s.receipt == Some(x) && x.completion.None? && x.fingerprint == s.requests[id].fingerprint
    requires x.resourceId in s.resources && s.resources[x.resourceId] == s.requests[id].document
    ensures Resumes(s, Next(SetPhase(s, id, Completing(Result(x.resourceId, s.requests[id].document, false), true, s.now)),
                            Complete(id)), id, x)
  {
  }

  lemma {:induction false} ProbeFinds(s: State, id: nat, x: Receipt)
    requires Inv(s) && At(s, id, Probing) && s.receipt == Some(x)
    ensures Resumes(s, RunAlone(s, id), id, x) && Resumes(s, RunGuarded(s, id), id, x)
  {
    var s1 := Next(s, Probe(id));
    if x.fingerprint == s.requests[id].fingerprint && x.completion.None? {
      assert s1 == SetPhase(s, id, Recovering(x.resourceId, false));
      RecoveringStays(s1, id);
      ResumesReserved(s, id, x);
      NoInsert(Next(s1, Recover(id)), id);
      hide Next;
    } else {
      assert ReceiptInv(s.receipt);
      SettledStays(s1, id);
      hide Next, Inv;
      ProbeSettles(s, id, x);
    }
  }

  lemma RecoveringStays(s: State, id: nat)
    requires id in s.requests && s.requests[id].phase.Recovering?
    ensures Next(s, GuardPasses(id)) == s && Next(s, GuardFails(id)) == s && Next(s, Reserve(id)) == s
    ensures Next(s, Recheck(id)) == s && Next(s, RecheckRecover(id)) == s
  {
  }

  lemma NoInsert(s: State, id: nat)
    requires id in s.requests && !s.requests[id].phase.Creating?
    ensures Next(s, Insert(id)) == s
  {
  }

  lemma {:induction false} ProbeSettles(s: State, id: nat, x: Receipt)
    requires At(s, id, Probing) && s.receipt == Some(x) && ReceiptInv(s.receipt)
    requires x.fingerprint == s.requests[id].fingerprint ==> x.completion.Some?
    ensures Resumes(s, Next(s, Probe(id)), id, x)
    ensures Next(s, Probe(id)).requests[id].phase.Responded? || Next(s, Probe(id)).requests[id].phase.Rejected?
  {
  }

  // In every reachable state a request that is left alone gets exactly this.
  lemma {:induction false} UndisturbedRequest(s0: State, steps: seq<Step>, id: nat)
    requires Initial(s0) && At(Exec(s0, steps), id, Probing)
    requires var s := Exec(s0, steps); s.requests[id].candidateId !in s.resources
    ensures var s := Exec(s0, steps);
      if s.receipt.None? then Creates(s, RunAlone(s, id), id)
      else Resumes(s, RunAlone(s, id), id, s.receipt.value)
    ensures var s := Exec(s0, steps);
      var t := RunGuarded(s, id);
      if s.receipt.None? then
        && id in t.requests && t.requests[id].phase.Rejected? && t.receipt.None?
        && t.resources == s.resources && t.responses == s.responses && t.createStarts == s.createStarts
      else Resumes(s, t, id, s.receipt.value)
  {
    RunKeepsInv(s0, steps);
    var s := Exec(s0, steps);
    hide Exec, Initial, Resumes, Creates;
    if s.receipt.None? {
      CreatesAlone(s, id);
      GuardRefuses(s, id);
    } else {
      ProbeFinds(s, id, s.receipt.value);
    }
  }

  lemma {:induction false} GuardRefuses(s: State, id: nat)
    requires At(s, id, Probing) && s.receipt.None?
    ensures var t := RunGuarded(s, id);
      && id in t.requests && t.requests[id].phase.Rejected? && t.receipt.None?
      && t.resources == s.resources && t.responses == s.responses && t.createStarts == s.createStarts
  {
    var s3 := Next(Next(Next(s, Probe(id)), GuardFails(id)), Recheck(id));
    assert s3.requests[id].phase.Rejected?;
    SettledStays(s3, id);
  }

  lemma {:induction false} CreatesAlone(s: State, id: nat)
    requires At(s, id, Probing) && s.receipt.None? && s.requests[id].candidateId !in s.resources
    ensures Creates(s, RunAlone(s, id), id)
  {
    hide Next, Candidate;
    ReservesAlone(s, id);
    InsertsAlone(s, id);
  }

  lemma {:induction false} ReservesAlone(s: State, id: nat)
    requires At(s, id, Probing) && s.receipt.None?
    ensures var r := s.requests[id];
      Next(Next(Next(s, Probe(id)), GuardPasses(id)), Reserve(id)) ==
        SetPhase(s.(receipt := Some(Candidate(s, r, s.now)), reserver := Some(id)), id, Recovering(r.candidateId, true))
  {
    var r := s.requests[id];
    assert Next(s, Probe(id)) == SetPhase(s, id, Guarding);
    var s2 := SetPhase(s, id, Reserving(s.now));
    assert Next(SetPhase(s, id, Guarding), GuardPasses(id)) == s2;
    assert s2.requests[id := s2.requests[id].(phase := Recovering(r.candidateId, true))]
      == s.requests[id := r.(phase := Recovering(r.candidateId, true))];
  }

  lemma {:induction false} InsertsAlone(s: State, id: nat)
    requires id in s.requests && s.requests[id].candidateId !in s.resources
    ensures var r := s.requests[id];
      var s3 := SetPhase(s.(receipt := Some(Candidate(s, r, s.now)), reserver := Some(id)), id, Recovering(r.candidateId, true));
      Creates(s, Next(Next(Next(s3, Recover(id)), Insert(id)), Complete(id)), id)
  {
    var r := s.requests[id];
    var s3 := SetPhase(s.(receipt := Some(Candidate(s, r, s.now)), reserver := Some(id)), id, Recovering(r.candidateId, true));
    var s4 := Next(s3, Recover(id));
    assert s4 == SetPhase(s3, id, Creating(r.candidateId)).(createStarts := s.createStarts + [CreateStart(id, s.generation)]);
    var s5 := Next(s4, Insert(id));
    assert s5.requests[id].phase == Completing(Result(r.candidateId, r.document, true), false, s.now);
  }

  // A request that loses the race for the receipt, or fails its guard while another one reserved, gets
  // what that receipt has for it.
  lemma {:induction false} RaceLost(s0: State, steps: seq<Step>, id: nat)
    requires Initial(s0) && id in Exec(s0, steps).requests && Exec(s0, steps).receipt.Some?
    ensures var s := Exec(s0, steps);
      s.requests[id].phase.Reserving? ==>
        Resumes(s, Next(Next(Next(Next(Next(s, Reserve(id)), Reread(id)), Recover(id)), Insert(id)), Complete(id)), id,
                s.receipt.value)
    ensures var s := Exec(s0, steps);
      s.requests[id].phase.Rechecking? ==>
        Resumes(s, Next(Next(Next(Next(s, Recheck(id)), RecheckRecover(id)), Recover(id)), Complete(id)), id, s.receipt.value)
  {
    RunKeepsInv(s0, steps);
    var s := Exec(s0, steps);
    assert ReceiptInv(s.receipt);
    hide Exec, Initial, Resumes, Inv;
    if s.requests[id].phase.Reserving? { RereadFinds(s, id, s.receipt.value); }
    if s.requests[id].phase.Rechecking? { RecheckFinds(s, id, s.receipt.value); }
  }

  lemma {:induction false} RereadFinds(s: State, id: nat, x: Receipt)
    requires id in s.requests && s.requests[id].phase.Reserving? && s.receipt == Some(x) && ReceiptInv(s.receipt)
    ensures Resumes(s, Next(Next(Next(Next(Next(s, Reserve(id)), Reread(id)), Recover(id)), Insert(id)), Complete(id)), id, x)
  {
    var s1 := SetPhase(s, id, Rereading);
    assert Next(s, Reserve(id)) == s1;
    if x.fingerprint == s.requests[id].fingerprint && x.completion.None? {
      assert Next(s1, Reread(id)) == SetPhase(s, id, Recovering(x.resourceId, false));
      hide Next, Resumes;
      ResumesReserved(s, id, x);
    } else {
      SettledStays(Next(s1, Reread(id)), id);
      RereadSettles(s, id, x);
      hide Next, Resumes;
    }
  }

  lemma {:induction false} RereadSettles(s: State, id: nat, x: Receipt)
    requires id in s.requests && s.receipt == Some(x) && ReceiptInv(s.receipt)
    requires x.fingerprint == s.requests[id].fingerprint ==> x.completion.Some?
    ensures Resumes(s, Next(SetPhase(s, id, Rereading), Reread(id)), id, x)
  {
  }

  lemma {:induction false} RecheckFinds(s: State, id: nat, x: Receipt)
    requires id in s.requests && s.requests[id].phase.Rechecking? && s.receipt == Some(x) && ReceiptInv(s.receipt)
    ensures Resumes(s, Next(Next(Next(Next(s, Recheck(id)), RecheckRecover(id)), Recover(id)), Complete(id)), id, x)
  {
    if x.fingerprint == s.requests[id].fingerprint && x.completion.None? {
      assert Next(s, Recheck(id)) == SetPhase(s, id, RecheckRecovering(x.resourceId));
      hide Next, Resumes;
      ResumesReserved(s, id, x);
    } else {
      SettledStays(Next(s, Recheck(id)), id);
      RecheckSettles(s, id, x);
      hide Next, Resumes;
    }
  }

  lemma {:induction false} RecheckSettles(s: State, id: nat, x: Receipt)
    requires id in s.requests && s.requests[id].phase.Rechecking? && s.receipt == Some(x) && ReceiptInv(s.receipt)
    requires x.fingerprint == s.requests[id].fingerprint ==> x.completion.Some?
    ensures Resumes(s, Next(s, Recheck(id)), id, x)
  {
  }

  // A completion that does not match is read back: the request answers with what is completed under its
  // own fingerprint, and otherwise throws.
  lemma {:induction false} ReadBack(s0: State, steps: seq<Step>, id: nat)
    requires Initial(s0) && id in Exec(s0, steps).requests && Exec(s0, steps).requests[id].phase.Confirming?
    ensures var s := Exec(s0, steps);
      var t := Next(s, Confirm(id));
      && id in t.requests && t.receipt == s.receipt && t.resources == s.resources
      && if s.receipt.Some? && s.receipt.value.fingerprint == s.requests[id].fingerprint && s.receipt.value.completion.Some?
         then var x := s.receipt.value;
           && t.requests[id].phase.Responded?
           && t.responses == s.responses + [Response(id, x.fingerprint, s.generation, s.requests[id].phase.replayed, x.resourceId,
                                                     x.completion.value.result, x.completion.value.replayExpiresAt)]
         else t.requests[id].phase.Rejected? && t.responses == s.responses
  {
    RunKeepsInv(s0, steps);
    assert ReceiptInv(Exec(s0, steps).receipt);
    hide Exec, Initial, Inv;
  }

  // ---------------------------------------------------------------- lost replies

  // An operation whose reply was lost does to the store, when it lands, what it would have done at once.
  lemma {:induction false} LostReplyLands(s: State, id: nat)
    requires id in s.requests
    ensures s.requests[id].phase.Reserving? ==>
      var landed, applied := Next(Next(s, Lose(id)), LandReserve(id)), Next(s, Reserve(id));
      landed.receipt == applied.receipt && landed.reserver == applied.reserver && landed.resources == s.resources
    ensures s.requests[id].phase.Creating? ==>
      var landed, applied := Next(Next(s, Lose(id)), LandInsert(id)), Next(s, Insert(id));
      landed.resources == applied.resources && landed.inserted == applied.inserted && landed.receipt == s.receipt
    ensures s.requests[id].phase.Creating? ==>
      var landed, applied := Next(Next(s, InsertFails(id)), LandInsert(id)), Next(s, Insert(id));
      landed.resources == applied.resources && landed.inserted == applied.inserted && landed.receipt == s.receipt
    ensures s.requests[id].phase.Completing? ==>
      var landed, applied := Next(Next(s, Lose(id)), LandComplete(id)), Next(s, Complete(id));
      landed.receipt == applied.receipt && landed.resources == s.resources
  {
    if s.requests[id].phase.Reserving? { LostReserveLands(s, id); }
    if s.requests[id].phase.Creating? {
      LostInsertLands(s, id);
      FailedInsertLands(s, id);
    }
    if s.requests[id].phase.Completing? { LostCompletionLands(s, id); }
    hide Next;
  }

  lemma {:induction false} LostReserveLands(s: State, id: nat)
    requires id in s.requests && s.requests[id].phase.Reserving?
    ensures var landed, applied := Next(Next(s, Lose(id)), LandReserve(id)), Next(s, Reserve(id));
      landed.receipt == applied.receipt && landed.reserver == applied.reserver && landed.resources == s.resources
  {
  }

  lemma {:induction false} LostInsertLands(s: State, id: nat)
    requires id in s.requests && s.requests[id].phase.Creating?
    ensures var landed, applied := Next(Next(s, Lose(id)), LandInsert(id)), Next(s, Insert(id));
      landed.resources == applied.resources && landed.inserted == applied.inserted && landed.receipt == s.receipt
  {
  }

  lemma {:induction false} FailedInsertLands(s: State, id: nat)
    requires id in s.requests && s.requests[id].phase.Creating?
    ensures var landed, applied := Next(Next(s, InsertFails(id)), LandInsert(id)), Next(s, Insert(id));
      landed.resources == applied.resources && landed.inserted == applied.inserted && landed.receipt == s.receipt
  {
  }

  lemma {:induction false} LostCompletionLands(s: State, id: nat)
    requires id in s.requests && s.requests[id].phase.Completing?
    ensures var landed, applied := Next(Next(s, Lose(id)), LandComplete(id)), Next(s, Complete(id));
      landed.receipt == applied.receipt && landed.resources == s.resources
  {
  }
}
