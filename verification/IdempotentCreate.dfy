// executeIdempotentCreate of server/apiIdempotency.js with the create and recover callbacks of
// imports/api/apiidempotency/server/resourceCreate.js, for one user, operation and key: any number
// of requests interleaved at their store operations, with crashes and lost replies.
module IdempotentCreate {
  import opened Options

  const IDEMPOTENCY_EXPIRY_GRACE_MS := 24 * 60 * 60 * 1000

  // ---------------------------------------------------------------- stored documents

  datatype Result = Result(resourceId: string, document: string, created: bool)

  datatype Completion = Completion(result: Result, replayExpiresAt: int)

  // completion.None? is the status "reserved", completion.Some? the status "completed".
  datatype Receipt = Receipt(fingerprint: string, resourceId: string, completion: Option<Completion>, expiresAt: int)

  // ---------------------------------------------------------------- requests

  datatype Phase =
    | Probing
    | Guarding
    | Rechecking
    | RecheckRecovering(resourceId: string)
    | Reserving(reservedAt: int)
    | Rereading
    | Recovering(resourceId: string, allowCreate: bool)
    | Creating(resourceId: string)
    | InsertRecovering(resourceId: string)
    | RecoveringAfter(resourceId: string)
    | Completing(result: Result, replayed: bool, completedAt: int)
    | Confirming(replayed: bool)
    | Responded
    | Rejected

  datatype LateComplete = LateComplete(result: Result, completedAt: int)

  // Store operations whose reply was lost; each may still be applied once, later, or never.
  datatype Request = Request(
    fingerprint: string, document: string, candidateId: string, phase: Phase,
    lateReserve: Option<Receipt>, lateInsert: Option<string>, lateComplete: Option<LateComplete>)

  datatype CreateStart = CreateStart(request: nat, generation: nat)

  datatype Response = Response(
    request: nat, fingerprint: string, generation: nat, replayed: bool,
    resourceId: string, result: Result, replayExpiresAt: int)

  // The last five fields are history: who made the current reservation, how many receipts have
  // expired, and every create call, resource insert and successful response so far.
  datatype State = State(
    retention: nat,
    pendingRetention: nat,
    now: int,
    receipt: Option<Receipt>,
    resources: map<string, string>,
    requests: map<nat, Request>,
    reserver: Option<nat>,
    generation: nat,
    createStarts: seq<CreateStart>,
    inserted: set<string>,
    responses: seq<Response>)

  datatype LostOperation = LostReserve | LostInsert | LostComplete

  datatype Step =
    | Start(id: nat, fingerprint: string, document: string, candidateId: string)
    | Probe(id: nat)
    | GuardPasses(id: nat)
    | GuardFails(id: nat)
    | Recheck(id: nat)
    | RecheckRecover(id: nat)
    | Reserve(id: nat)
    | Reread(id: nat)
    | Recover(id: nat)
    | Insert(id: nat)
    | InsertFails(id: nat)
    | InsertRecover(id: nat)
    | RecoverAfter(id: nat)
    | Complete(id: nat)
    | Confirm(id: nat)
    | Lose(id: nat)
    | LandReserve(id: nat)
    | LandInsert(id: nat)
    | LandComplete(id: nat)
    | Drop(id: nat, operation: LostOperation)
    | EditResource(resourceId: string, document: string)
    | DeleteResource(resourceId: string)
    | Tick(elapsed: nat)
    | Expire(ttlClock: int)

  // ---------------------------------------------------------------- callbacks and validation

  datatype Recovery = Absent | Found(result: Result) | Conflicting

  // recoverCreatedDocument: the stored document must be the one this request would have written.
  function RecoverDocument(resources: map<string, string>, document: string, resourceId: string): Recovery {
    if resourceId !in resources then Absent
    else if resources[resourceId] == document then Found(Result(resourceId, document, false))
    else Conflicting
  }

  // validateReservation, for receipts of this user, operation and key.
  predicate ValidReservation(receipt: Option<Receipt>, fingerprint: string) {
    && receipt.Some?
    && receipt.value.fingerprint == fingerprint
    && (receipt.value.completion.Some? ==> receipt.value.expiresAt > receipt.value.completion.value.replayExpiresAt)
  }

  function Candidate(s: State, r: Request, reservedAt: int): Receipt {
    Receipt(r.fingerprint, r.candidateId, None, reservedAt + s.pendingRetention + IDEMPOTENCY_EXPIRY_GRACE_MS)
  }

  // The atomic completion filter of the store: this document, this fingerprint, still reserved.
  predicate CompleteMatches(receipt: Option<Receipt>, fingerprint: string) {
    receipt.Some? && receipt.value.fingerprint == fingerprint && receipt.value.completion.None?
  }

  function Completed(s: State, receipt: Receipt, result: Result, completedAt: int): Receipt {
    var replayExpiresAt := completedAt + s.retention;
    receipt.(completion := Some(Completion(result, replayExpiresAt)),
             expiresAt := replayExpiresAt + IDEMPOTENCY_EXPIRY_GRACE_MS)
  }

  // ---------------------------------------------------------------- steps of one request

  predicate At(s: State, id: nat, phase: Phase) {
    id in s.requests && s.requests[id].phase == phase
  }

  function SetPhase(s: State, id: nat, phase: Phase): State
    requires id in s.requests
  {
    s.(requests := s.requests[id := s.requests[id].(phase := phase)])
  }

  function Respond(s: State, id: nat, replayed: bool, receipt: Receipt): State
    requires id in s.requests && receipt.completion.Some?
  {
    SetPhase(s, id, Responded).(responses := s.responses + [
      Response(id, s.requests[id].fingerprint, s.generation, replayed, receipt.resourceId,
               receipt.completion.value.result, receipt.completion.value.replayExpiresAt)])
  }

  // resumeReservation on a receipt another request may have written.
  function ResumeExisting(s: State, id: nat): State
    requires id in s.requests && s.receipt.Some?
  {
    if !ValidReservation(s.receipt, s.requests[id].fingerprint) then SetPhase(s, id, Rejected)
    else if s.receipt.value.completion.Some? then Respond(s, id, true, s.receipt.value)
    else SetPhase(s, id, Recovering(s.receipt.value.resourceId, false))
  }

  function NextProbe(s: State, id: nat): State {
    if !At(s, id, Probing) then s
    else if s.receipt.None? then SetPhase(s, id, Guarding)
    else ResumeExisting(s, id)
  }

  function NextRecheck(s: State, id: nat): State {
    if !At(s, id, Rechecking) then s
    else if !ValidReservation(s.receipt, s.requests[id].fingerprint) then SetPhase(s, id, Rejected)
    else if s.receipt.value.completion.Some? then Respond(s, id, true, s.receipt.value)
    else SetPhase(s, id, RecheckRecovering(s.receipt.value.resourceId))
  }

  // A recovery read either yields the result to complete with, or gives up.
  function RecoveredPhase(s: State, document: string, resourceId: string, replayed: bool, absent: Phase): Phase {
    match RecoverDocument(s.resources, document, resourceId)
    case Found(result) => Completing(result, replayed, s.now)
    case Absent => absent
    case Conflicting => Rejected
  }

  function NextReserve(s: State, id: nat): State {
    if id !in s.requests || !s.requests[id].phase.Reserving? then s
    else if s.receipt.Some? then SetPhase(s, id, Rereading)
    else
      var r := s.requests[id];
      SetPhase(s.(receipt := Some(Candidate(s, r, r.phase.reservedAt)), reserver := Some(id)), id,
               Recovering(r.candidateId, true))
  }

  function NextReread(s: State, id: nat): State {
    if !At(s, id, Rereading) then s
    else if s.receipt.None? then SetPhase(s, id, Rejected)
    else ResumeExisting(s, id)
  }

  function NextRecover(s: State, id: nat): State {
    if id !in s.requests || !s.requests[id].phase.Recovering? then s
    else
      var r := s.requests[id];
      var resourceId := r.phase.resourceId;
      if !r.phase.allowCreate
      then SetPhase(s, id, RecoveredPhase(s, r.document, resourceId, true, Rejected))
      else
        var phase := RecoveredPhase(s, r.document, resourceId, false, Creating(resourceId));
        SetPhase(s, id, phase).(createStarts :=
          if phase.Creating? then s.createStarts + [CreateStart(id, s.generation)] else s.createStarts)
  }

  function NextInsert(s: State, id: nat): State {
    if id !in s.requests || !s.requests[id].phase.Creating? then s
    else
      var r := s.requests[id];
      var resourceId := r.phase.resourceId;
      if resourceId in s.resources then SetPhase(s, id, InsertRecovering(resourceId))
      else SetPhase(s.(resources := s.resources[resourceId := r.document], inserted := s.inserted + {resourceId}),
                    id, Completing(Result(resourceId, r.document, true), false, s.now))
  }

  // The insert was rejected, but it may still be applied.
  function NextInsertFails(s: State, id: nat): State {
    if id !in s.requests || !s.requests[id].phase.Creating? then s
    else
      var r := s.requests[id];
      s.(requests := s.requests[id :=
        r.(phase := RecoveringAfter(r.phase.resourceId), lateInsert := Some(r.phase.resourceId))])
  }

  function NextInsertRecover(s: State, id: nat): State {
    if id !in s.requests || !s.requests[id].phase.InsertRecovering? then s
    else
      var r := s.requests[id];
      match RecoverDocument(s.resources, r.document, r.phase.resourceId)
      case Found(result) => SetPhase(s, id, Completing(result, false, s.now))
      case _ => SetPhase(s, id, RecoveringAfter(r.phase.resourceId))
  }

  function NextRecoverAfter(s: State, id: nat): State {
    if id !in s.requests || !s.requests[id].phase.RecoveringAfter? then s
    else
      var r := s.requests[id];
      SetPhase(s, id, RecoveredPhase(s, r.document, r.phase.resourceId, false, Rejected))
  }

  function NextRecheckRecover(s: State, id: nat): State {
    if id !in s.requests || !s.requests[id].phase.RecheckRecovering? then s
    else
      var r := s.requests[id];
      SetPhase(s, id, RecoveredPhase(s, r.document, r.phase.resourceId, true, Rejected))
  }

  function NextComplete(s: State, id: nat): State {
    if id !in s.requests || !s.requests[id].phase.Completing? then s
    else
      var r := s.requests[id];
      if CompleteMatches(s.receipt, r.fingerprint) then
        var stored := Completed(s, s.receipt.value, r.phase.result, r.phase.completedAt);
        Respond(s.(receipt := Some(stored)), id, r.phase.replayed, stored)
      else SetPhase(s, id, Confirming(r.phase.replayed))
  }

  function NextConfirm(s: State, id: nat): State {
    if id !in s.requests || !s.requests[id].phase.Confirming? then s
    else if ValidReservation(s.receipt, s.requests[id].fingerprint) && s.receipt.value.completion.Some?
    then Respond(s, id, s.requests[id].phase.replayed, s.receipt.value)
    else SetPhase(s, id, Rejected)
  }

  // The request crashes, or the reply to its current store operation is lost.
  function NextLose(s: State, id: nat): State {
    if id !in s.requests || s.requests[id].phase.Responded? || s.requests[id].phase.Rejected? then s
    else
      var r := s.requests[id];
      s.(requests := s.requests[id := r.(
        phase := Rejected,
        lateReserve := if r.phase.Reserving? then Some(Candidate(s, r, r.phase.reservedAt)) else None,
        lateInsert := if r.phase.Creating? then Some(r.phase.resourceId) else r.lateInsert,
        lateComplete := if r.phase.Completing? then Some(LateComplete(r.phase.result, r.phase.completedAt)) else None)])
  }

  function NextLandReserve(s: State, id: nat): State {
    if id !in s.requests || s.requests[id].lateReserve.None? then s
    else
      var r := s.requests[id];
      var s' := s.(requests := s.requests[id := r.(lateReserve := None)]);
      if s.receipt.Some? then s' else s'.(receipt := r.lateReserve, reserver := Some(id))
  }

  function NextLandInsert(s: State, id: nat): State {
    if id !in s.requests || s.requests[id].lateInsert.None? then s
    else
      var r := s.requests[id];
      var resourceId := r.lateInsert.value;
      var s' := s.(requests := s.requests[id := r.(lateInsert := None)]);
      if resourceId in s.resources then s'
      else s'.(resources := s.resources[resourceId := r.document], inserted := s.inserted + {resourceId})
  }

  function NextLandComplete(s: State, id: nat): State {
    if id !in s.requests || s.requests[id].lateComplete.None? then s
    else
      var r := s.requests[id];
      var late := r.lateComplete.value;
      var s' := s.(requests := s.requests[id := r.(lateComplete := None)]);
      if CompleteMatches(s.receipt, r.fingerprint)
      then s'.(receipt := Some(Completed(s, s.receipt.value, late.result, late.completedAt)))
      else s'
  }

  // The operation never reached the store and will not be applied.
  function NextDrop(s: State, id: nat, operation: LostOperation): State {
    if id !in s.requests then s
    else
      var r := s.requests[id];
      s.(requests := s.requests[id :=
        match operation
        case LostReserve => r.(lateReserve := None)
        case LostInsert => r.(lateInsert := None)
        case LostComplete => r.(lateComplete := None)])
  }

  // TTL deletion: the deleting clock runs ahead of the servers by less than the grace.
  predicate ExpiryDue(s: State, ttlClock: int) {
    s.receipt.Some? && s.receipt.value.expiresAt <= ttlClock < s.now + IDEMPOTENCY_EXPIRY_GRACE_MS
  }

  function NextEnvironment(s: State, step: Step): State {
    match step
    case EditResource(resourceId, document) =>
      if resourceId !in s.resources then s else s.(resources := s.resources[resourceId := document])
    case DeleteResource(resourceId) => s.(resources := s.resources - {resourceId})
    case Tick(elapsed) => s.(now := s.now + elapsed)
    case Expire(ttlClock) =>
      if ExpiryDue(s, ttlClock) then s.(receipt := None, reserver := None, generation := s.generation + 1) else s
    case _ => s
  }

  // Resource identifiers are random and never repeat.
  function NextStart(s: State, id: nat, fingerprint: string, document: string, candidateId: string): State {
    if id in s.requests || (exists i <- s.requests :: s.requests[i].candidateId == candidateId)
       || candidateId in s.inserted then s
    else s.(requests := s.requests[id := Request(fingerprint, document, candidateId, Probing, None, None, None)])
  }

  function Next(s: State, step: Step): State {
    match step
    case Start(id, fingerprint, document, candidateId) => NextStart(s, id, fingerprint, document, candidateId)
    case Probe(id) => NextProbe(s, id)
    case GuardPasses(id) => if At(s, id, Guarding) then SetPhase(s, id, Reserving(s.now)) else s
    case GuardFails(id) => if At(s, id, Guarding) then SetPhase(s, id, Rechecking) else s
    case Recheck(id) => NextRecheck(s, id)
    case RecheckRecover(id) => NextRecheckRecover(s, id)
    case Reserve(id) => NextReserve(s, id)
    case Reread(id) => NextReread(s, id)
    case Recover(id) => NextRecover(s, id)
    case Insert(id) => NextInsert(s, id)
    case InsertFails(id) => NextInsertFails(s, id)
    case InsertRecover(id) => NextInsertRecover(s, id)
    case RecoverAfter(id) => NextRecoverAfter(s, id)
    case Complete(id) => NextComplete(s, id)
    case Confirm(id) => NextConfirm(s, id)
    case Lose(id) => NextLose(s, id)
    case LandReserve(id) => NextLandReserve(s, id)
    case LandInsert(id) => NextLandInsert(s, id)
    case LandComplete(id) => NextLandComplete(s, id)
    case Drop(id, operation) => NextDrop(s, id, operation)
    case _ => NextEnvironment(s, step)
  }

  function Exec(s: State, steps: seq<Step>): State {
    if steps == [] then s else Next(Exec(s, steps[..|steps| - 1]), steps[|steps| - 1])
  }
}
