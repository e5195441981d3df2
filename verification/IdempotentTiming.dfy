// When a client of the idempotency protocol is safe from expiry: conditions on when its attempts begin
// and end, under which no receipt expires while a request is still bound to it.
module IdempotentTiming {
  import opened Options
  import opened IdempotentCreate
  import opened IdempotentCreateProofs

  // ---------------------------------------------------------------- finishing before the earliest expiry

  // TTL deletion may come as soon as the servers' clocks pass this: reservedAt plus the pending
  // retention for a reservation, replayExpiresAt once completed.
  function EarliestExpiry(receipt: Receipt): int {
    receipt.expiresAt - IDEMPOTENCY_EXPIRY_GRACE_MS
  }

  lemma {:induction false} EarliestExpiryIs(s: State, steps: seq<Step>, r: Request, reservedAt: int)
    requires Initial(s)
    ensures EarliestExpiry(Candidate(s, r, reservedAt)) == reservedAt + s.pendingRetention
    ensures var receipt := Exec(s, steps).receipt;
      receipt.Some? && receipt.value.completion.Some? ==>
        EarliestExpiry(receipt.value) == receipt.value.completion.value.replayExpiresAt
  {
    RunKeepsInv(s, steps);
  }

  // Whoever is still bound to the receipt is so no later than its earliest expiry.
  ghost predicate Prompt(s: State) {
    s.receipt.Some? ==> forall i <- s.requests :: Bound(s.requests[i]) ==> s.now <= EarliestExpiry(s.receipt.value)
  }

  ghost predicate PromptRun(s: State, steps: seq<Step>) {
    Prompt(Exec(s, steps)) && (steps == [] || PromptRun(s, steps[..|steps| - 1]))
  }

  lemma {:induction false} PromptIsClean(s: State, steps: seq<Step>)
    requires PromptRun(s, steps)
    ensures CleanRun(s, steps)
  {
    if steps != [] {
      var front := steps[..|steps| - 1];
      assert PromptRun(s, front);
      PromptIsClean(s, front);
      PromptStateIsClean(Exec(s, front), steps[|steps| - 1]);
    }
  }

  lemma {:induction false} PromptStateIsClean(s: State, step: Step)
    requires Prompt(s)
    ensures CleanStep(s, step)
  {
  }

  // ---------------------------------------------------------------- what a client can see to

  // When each request began.
  ghost function Begun(s: State, steps: seq<Step>): map<nat, int> {
    if steps == [] then map[]
    else
      var front, last := steps[..|steps| - 1], steps[|steps| - 1];
      NowBegun(Begun(s, front), Exec(s, front), last)
  }

  ghost function NowBegun(begun: map<nat, int>, s: State, step: Step): map<nat, int> {
    if step.Start? && step.id !in s.requests && step.id in Next(s, step).requests then begun[step.id := s.now] else begun
  }

  // The request, or a completion it has sent, may still act.
  predicate Unsettled(r: Request) {
    !(r.phase.Responded? || r.phase.Rejected?) || r.lateComplete.Some?
  }

  // Everything a client controls: its attempts begin no earlier than first and early enough to end
  // within the pending retention of it, and none acts for longer than limit.
  ghost predicate Timely(s: State, begun: map<nat, int>, first: int, limit: int) {
    forall i <- s.requests :: i in begun
      && first <= begun[i] <= first + s.pendingRetention - limit
      && (Unsettled(s.requests[i]) ==> s.now <= begun[i] + limit)
  }

  ghost predicate TimelyRun(s: State, steps: seq<Step>, first: int, limit: int) {
    Timely(Exec(s, steps), Begun(s, steps), first, limit)
    && (steps == [] || TimelyRun(s, steps[..|steps| - 1], first, limit))
  }

  // The source demands that the pending retention is no shorter than the retention.
  ghost predicate Limits(s: State, limit: int) {
    0 <= 2 * limit <= s.retention <= s.pendingRetention
  }

  // ---------------------------------------------------------------- what such runs keep

  ghost predicate RequestTimed(s: State, r: Request, begun: int, first: int) {
    && begun <= s.now
    && (r.phase.Reserving? ==> r.phase.reservedAt >= first)
    && (r.phase.Completing? ==> r.phase.completedAt >= begun)
    && (r.lateReserve.Some? ==> ReservedTimed(s, r.lateReserve.value, first))
    && (r.lateComplete.Some? ==> r.lateComplete.value.completedAt >= begun)
  }

  ghost predicate ReservedTimed(s: State, receipt: Receipt, first: int) {
    receipt.completion.None? ==> EarliestExpiry(receipt) >= first + s.pendingRetention
  }

  // No request that is bound to a completed receipt outlasts it.
  ghost predicate CompletedTimed(s: State, begun: map<nat, int>, limit: int) {
    s.receipt.Some? && s.receipt.value.completion.Some? ==>
      forall i <- s.requests :: i in begun && Bound(s.requests[i]) ==> begun[i] + limit <= EarliestExpiry(s.receipt.value)
  }

  ghost predicate Timed(s: State, begun: map<nat, int>, first: int, limit: int) {
    && begun.Keys == s.requests.Keys
    && (forall i <- s.requests :: RequestTimed(s, s.requests[i], begun[i], first))
    && (s.receipt.Some? ==> ReservedTimed(s, s.receipt.value, first))
    && CompletedTimed(s, begun, limit)
  }

  // A timed state of a timely run is prompt.
  lemma {:induction false} TimedIsPrompt(s: State, begun: map<nat, int>, first: int, limit: int)
    requires Timed(s, begun, first, limit) && Timely(s, begun, first, limit)
    ensures Prompt(s)
  {
    forall i <- s.requests | Bound(s.requests[i]) && s.receipt.Some?
      ensures s.now <= EarliestExpiry(s.receipt.value)
    {
      assert Unsettled(s.requests[i]);
    }
  }

  // One request moves on and binds itself at most to a reservation; the receipt stays.
  lemma {:induction false} MoveKeepsTimed(s: State, t: State, begun: map<nat, int>, first: int, limit: int, id: nat)
    requires Timed(s, begun, first, limit) && id in s.requests && t.requests.Keys == s.requests.Keys
    requires forall i <- s.requests :: i != id ==> t.requests[i] == s.requests[i]
    requires t.receipt == s.receipt && t.now == s.now && t.pendingRetention == s.pendingRetention
    requires RequestTimed(s, t.requests[id], begun[id], first)
    requires s.receipt.Some? && s.receipt.value.completion.Some? && Bound(t.requests[id]) ==> Bound(s.requests[id])
    ensures Timed(t, begun, first, limit)
  {
    forall i <- t.requests ensures RequestTimed(t, t.requests[i], begun[i], first) {
      assert RequestTimed(s, s.requests[i], begun[i], first);
    }
  }

  predicate Reads(step: Step) {
    step.Probe? || step.Recheck? || step.Reread? || step.Confirm?
  }

  lemma {:induction false} ReadsKeepTimed(s: State, step: Step, begun: map<nat, int>, first: int, limit: int)
    requires Timed(s, begun, first, limit) && Reads(step)
    ensures Timed(Next(s, step), begun, first, limit)
  {
    hide Timed, ReservedTimed;
    if Next(s, step) != s {
      ReadOutcome(s, step);
      RequestIsTimed(s, begun, first, limit, step.id);
      hide Next, ValidReservation;
      MoveKeepsTimed(s, Next(s, step), begun, first, limit, step.id);
    }
  }

  lemma {:induction false} RequestIsTimed(s: State, begun: map<nat, int>, first: int, limit: int, id: nat)
    requires Timed(s, begun, first, limit) && id in s.requests
    ensures id in begun && RequestTimed(s, s.requests[id], begun[id], first)
  {
  }

  // A read changes the phase of its request; it binds only to a reservation.
  lemma {:induction false} ReadOutcome(s: State, step: Step)
    requires Reads(step) && Next(s, step) != s
    ensures var t := Next(s, step);
      && step.id in s.requests && t.receipt == s.receipt && t.now == s.now && t.pendingRetention == s.pendingRetention
      && t.requests.Keys == s.requests.Keys && (forall i <- s.requests :: i != step.id ==> t.requests[i] == s.requests[i])
      && t.requests[step.id] == s.requests[step.id].(phase := t.requests[step.id].phase)
      && !t.requests[step.id].phase.Reserving? && !t.requests[step.id].phase.Completing?
      && (s.receipt.Some? && s.receipt.value.completion.Some? && Bound(t.requests[step.id]) ==> Bound(s.requests[step.id]))
  {
    hide ValidReservation;
  }

  lemma {:induction false} GuardsKeepTimed(s: State, step: Step, begun: map<nat, int>, first: int, limit: int)
    requires Timed(s, begun, first, limit) && Timely(s, begun, first, limit) && (step.GuardPasses? || step.GuardFails?)
    ensures Timed(Next(s, step), begun, first, limit)
  {
    if Next(s, step) != s {
      RequestIsTimed(s, begun, first, limit, step.id);
      MoveKeepsTimed(s, Next(s, step), begun, first, limit, step.id);
    }
  }

  predicate Recovers(step: Step) {
    step.Recover? || step.RecheckRecover? || step.InsertRecover? || step.RecoverAfter?
  }

  // A recovery changes the phase of its request, which was bound before; a result is taken up now.
  lemma {:induction false} RecoverOutcome(s: State, step: Step)
    requires Recovers(step) && Next(s, step) != s
    ensures var t := Next(s, step);
      && step.id in s.requests && t.receipt == s.receipt && t.now == s.now && t.pendingRetention == s.pendingRetention
      && t.requests.Keys == s.requests.Keys && (forall i <- s.requests :: i != step.id ==> t.requests[i] == s.requests[i])
      && t.requests[step.id] == s.requests[step.id].(phase := t.requests[step.id].phase)
      && !t.requests[step.id].phase.Reserving? && Bound(s.requests[step.id])
      && (t.requests[step.id].phase.Completing? ==> t.requests[step.id].phase.completedAt == s.now)
  {
    hide RecoverDocument;
  }

  lemma {:induction false} RecoversKeepTimed(s: State, step: Step, begun: map<nat, int>, first: int, limit: int)
    requires Timed(s, begun, first, limit) && Recovers(step)
    ensures Timed(Next(s, step), begun, first, limit)
  {
    hide Timed, ReservedTimed, Bound;
    if Next(s, step) != s {
      RecoverOutcome(s, step);
      RequestIsTimed(s, begun, first, limit, step.id);
      hide Next;
      MoveKeepsTimed(s, Next(s, step), begun, first, limit, step.id);
    }
  }

  predicate Inserts(step: Step) {
    step.Insert? || step.InsertFails? || step.Lose? || step.LandInsert? || step.Drop?
  }

  lemma {:induction false} InsertsKeepTimed(s: State, step: Step, begun: map<nat, int>, first: int, limit: int)
    requires Timed(s, begun, first, limit) && Inserts(step)
    ensures Timed(Next(s, step), begun, first, limit)
  {
    if Next(s, step) != s {
      assert RequestTimed(s, s.requests[step.id], begun[step.id], first);
      MoveKeepsTimed(s, Next(s, step), begun, first, limit, step.id);
    }
  }

  lemma {:induction false} OthersTimed(s: State, t: State, begun: map<nat, int>, first: int, limit: int, id: nat)
    requires Timed(s, begun, first, limit) && id in s.requests && t.requests.Keys == s.requests.Keys
    requires forall i <- s.requests :: i != id ==> t.requests[i] == s.requests[i]
    requires t.now == s.now && t.pendingRetention == s.pendingRetention
    requires RequestTimed(t, t.requests[id], begun[id], first)
    ensures forall i <- t.requests :: i in begun && RequestTimed(t, t.requests[i], begun[i], first)
  {
    forall i <- t.requests ensures i in begun && RequestTimed(t, t.requests[i], begun[i], first) {
      assert RequestTimed(s, s.requests[i], begun[i], first);
    }
  }

  lemma {:induction false} ReserveKeepsTimed(s: State, id: nat, begun: map<nat, int>, first: int, limit: int)
    requires Timed(s, begun, first, limit)
    ensures Timed(NextReserve(s, id), begun, first, limit)
  {
    var t := NextReserve(s, id);
    if t != s {
      RequestIsTimed(s, begun, first, limit, id);
      OthersTimed(s, t, begun, first, limit, id);
    }
  }

  lemma {:induction false} LandReserveKeepsTimed(s: State, id: nat, begun: map<nat, int>, first: int, limit: int)
    requires Timed(s, begun, first, limit) && Inv(s)
    ensures Timed(NextLandReserve(s, id), begun, first, limit)
  {
    var t := NextLandReserve(s, id);
    if t != s {
      assert RequestInv(s, s.requests[id]);
      RequestIsTimed(s, begun, first, limit, id);
      OthersTimed(s, t, begun, first, limit, id);
    }
  }

  // A receipt is completed for at least twice the limit after its completer began, and whoever is
  // bound to it by then began within the limit of that.
  lemma {:induction false} CompletedLongEnough(s: State, begun: map<nat, int>, first: int, limit: int, id: nat, completedAt: int)
    requires Timely(s, begun, first, limit) && Limits(s, limit) && begun.Keys == s.requests.Keys
    requires id in s.requests && Unsettled(s.requests[id]) && completedAt >= begun[id]
    requires forall i <- s.requests :: begun[i] <= s.now
    ensures forall i <- s.requests :: begun[i] + limit <= completedAt + s.retention
  {
  }

  lemma {:induction false} CompleteKeepsTimed(s: State, id: nat, begun: map<nat, int>, first: int, limit: int)
    requires Timed(s, begun, first, limit) && Timely(s, begun, first, limit) && Limits(s, limit)
    ensures Timed(NextComplete(s, id), begun, first, limit)
  {
    var t := NextComplete(s, id);
    if t != s {
      RequestIsTimed(s, begun, first, limit, id);
      forall i <- s.requests ensures begun[i] <= s.now { RequestIsTimed(s, begun, first, limit, i); }
      CompletedLongEnough(s, begun, first, limit, id, s.requests[id].phase.completedAt);
      hide Timely, Limits;
      OthersTimed(s, t, begun, first, limit, id);
    }
  }

  lemma {:induction false} LandCompleteKeepsTimed(s: State, id: nat, begun: map<nat, int>, first: int, limit: int)
    requires Timed(s, begun, first, limit) && Timely(s, begun, first, limit) && Limits(s, limit)
    ensures Timed(NextLandComplete(s, id), begun, first, limit)
  {
    var t := NextLandComplete(s, id);
    if t != s {
      RequestIsTimed(s, begun, first, limit, id);
      forall i <- s.requests ensures begun[i] <= s.now { RequestIsTimed(s, begun, first, limit, i); }
      CompletedLongEnough(s, begun, first, limit, id, s.requests[id].lateComplete.value.completedAt);
      hide Timely, Limits;
      OthersTimed(s, t, begun, first, limit, id);
    }
  }

  predicate Outside(step: Step) {
    step.EditResource? || step.DeleteResource? || step.Tick? || step.Expire?
  }

  lemma {:induction false} OutsideKeepsTimed(s: State, step: Step, begun: map<nat, int>, first: int, limit: int)
    requires Timed(s, begun, first, limit) && Outside(step)
    ensures Timed(Next(s, step), begun, first, limit)
  {
    var t := Next(s, step);
    forall i <- t.requests ensures RequestTimed(t, t.requests[i], begun[i], first) {
      assert RequestTimed(s, s.requests[i], begun[i], first);
    }
  }

  lemma {:induction false} StartKeepsTimed(s: State, step: Step, begun: map<nat, int>, first: int, limit: int)
    requires Timed(s, begun, first, limit) && step.Start?
    ensures Timed(Next(s, step), NowBegun(begun, s, step), first, limit)
  {
    var t, now := Next(s, step), NowBegun(begun, s, step);
    forall i <- t.requests ensures i in now && RequestTimed(t, t.requests[i], now[i], first) {
      if i in s.requests { assert RequestTimed(s, s.requests[i], begun[i], first); }
    }
  }

  lemma {:induction false} StepKeepsTimed(s: State, step: Step, begun: map<nat, int>, first: int, limit: int)
    requires Inv(s) && Timed(s, begun, first, limit) && Timely(s, begun, first, limit) && Limits(s, limit)
    ensures Timed(Next(s, step), NowBegun(begun, s, step), first, limit)
  {
    hide Timed, Timely, Inv, Limits, NextReserve, NextLandReserve, NextComplete, NextLandComplete;
    if step.Start? { StartKeepsTimed(s, step, begun, first, limit); }
    else if Reads(step) { ReadsKeepTimed(s, step, begun, first, limit); }
    else if step.GuardPasses? || step.GuardFails? { GuardsKeepTimed(s, step, begun, first, limit); }
    else if Recovers(step) { RecoversKeepTimed(s, step, begun, first, limit); }
    else if Inserts(step) { InsertsKeepTimed(s, step, begun, first, limit); }
    else if Outside(step) { OutsideKeepsTimed(s, step, begun, first, limit); }
    else if step.Reserve? { ReserveKeepsTimed(s, step.id, begun, first, limit); }
    else if step.LandReserve? { LandReserveKeepsTimed(s, step.id, begun, first, limit); }
    else if step.Complete? { CompleteKeepsTimed(s, step.id, begun, first, limit); }
    else { LandCompleteKeepsTimed(s, step.id, begun, first, limit); }
  }

  lemma {:induction false} SettingsStay(s: State, steps: seq<Step>)
    ensures Exec(s, steps).retention == s.retention && Exec(s, steps).pendingRetention == s.pendingRetention
  {
    if steps != [] {
      SettingsStay(s, steps[..|steps| - 1]);
      SettingsStayOnce(Exec(s, steps[..|steps| - 1]), steps[|steps| - 1]);
    }
  }

  lemma {:induction false} SettingsStayOnce(s: State, step: Step)
    ensures Next(s, step).retention == s.retention && Next(s, step).pendingRetention == s.pendingRetention
  {
  }

  lemma {:induction false} TimelyIsTimed(s: State, steps: seq<Step>, first: int, limit: int)
    requires Initial(s) && Limits(s, limit) && TimelyRun(s, steps, first, limit)
    ensures Timed(Exec(s, steps), Begun(s, steps), first, limit)
  {
    if steps != [] {
      var front := steps[..|steps| - 1];
      assert TimelyRun(s, front, first, limit);
      hide Timed, Inv, Next;
      TimelyIsTimed(s, front, first, limit);
      RunKeepsInv(s, front);
      SettingsStay(s, front);
      StepKeepsTimed(Exec(s, front), steps[|steps| - 1], Begun(s, front), first, limit);
    }
  }

  lemma {:induction false} TimelyIsPrompt(s: State, steps: seq<Step>, first: int, limit: int)
    requires Initial(s) && Limits(s, limit) && TimelyRun(s, steps, first, limit)
    ensures PromptRun(s, steps)
  {
    hide Timed, Next;
    TimelyIsTimed(s, steps, first, limit);
    TimedIsPrompt(Exec(s, steps), Begun(s, steps), first, limit);
    if steps != [] { TimelyIsPrompt(s, steps[..|steps| - 1], first, limit); }
  }

  // ---------------------------------------------------------------- at most once, restated

  // For each receipt: create is called once, every response reports the same resource and result, and
  // at most one is no replay.
  ghost predicate OncePerReceipt(s: State) {
    && (forall k, l :: 0 <= k < l < |s.createStarts| ==> s.createStarts[k].generation != s.createStarts[l].generation)
    && (forall k, l | 0 <= k < l < |s.responses| && s.responses[k].generation == s.responses[l].generation ::
          && s.responses[k].resourceId == s.responses[l].resourceId
          && s.responses[k].result == s.responses[l].result
          && (s.responses[k].replayed || s.responses[l].replayed))
    && (forall k | 0 <= k < |s.responses| :: s.responses[k].result.resourceId == s.responses[k].resourceId)
  }

  // If every request is done with its receipt before the receipt's earliest expiry.
  lemma {:induction false} PromptRunsCreateOnce(s: State, steps: seq<Step>)
    requires Initial(s) && PromptRun(s, steps)
    ensures OncePerReceipt(Exec(s, steps))
  {
    PromptIsClean(s, steps);
    AtMostOnceAndAgreement(s, steps);
  }

  // A client can see to that: it makes all its attempts within the pending retention, less a limit,
  // after the first one, and ends each of them within the limit, which is at most half the retention.
  lemma {:induction false} TimelyClientsCreateOnce(s: State, steps: seq<Step>, first: int, limit: int)
    requires Initial(s) && Limits(s, limit) && TimelyRun(s, steps, first, limit)
    ensures OncePerReceipt(Exec(s, steps))
  {
    TimelyIsPrompt(s, steps, first, limit);
    PromptRunsCreateOnce(s, steps);
  }
}
