// sendOncePerUtcDay and its store, imports/api/notifications/server/dailyMailDelivery.js, as a
// machine whose steps are the single store operations and the outcome of send.
module DailyMail {
  // Recipient and day; the SHA-256 of both names the row.
  datatype Key = Key(recipient: string, day: int)

  // owner is the reservationId; a sent row keeps it here as history only.
  datatype Row = Reserved(owner: nat) | Sent(owner: nat)

  datatype Phase =
    | Ready            // past the check for mail sent before the upgrade
    | Lost             // the insert was answered with an error and may still be applied
    | Sending
    | Releasing        // send has thrown
    | Abandoned        // the release was answered with an error and may still be applied
    | Delivered        // send has returned, or the process has ended after the message was accepted
    | Unrecorded       // threw because the completion was not confirmed; it may still be applied
    | Returned(answer: bool)
    | Threw

  datatype Call = Call(key: Key, phase: Phase)

  // A call is named by its reservationId, which is its own. expired holds the keys whose row the
  // store's retention has removed. The last two fields are history: the mails that went out, and those
  // of them whose send threw although the mail server had accepted the message.
  datatype State = State(
    rows: map<Key, Row>, calls: map<nat, Call>, expired: set<Key>, mailed: multiset<Key>, misreported: multiset<Key>)

  const INITIAL := State(map[], map[], {}, multiset{}, multiset{})

  datatype Step =
    | Begin(call: nat, key: Key, legacySent: bool)
    | Reserve(call: nat, answered: bool)
    | ReserveFails(call: nat)
    | LandReserve(call: nat)
    | SendReturns(call: nat)
    | SendThrows(call: nat, accepted: bool)
    | Release(call: nat)
    | ReleaseFails(call: nat)
    | LandRelease(call: nat)
    | Complete(call: nat, answered: bool)
    | CompleteFails(call: nat)
    | LandComplete(call: nat)
    | Expire(key: Key)

  predicate Is(s: State, c: nat, phase: Phase) {
    c in s.calls && s.calls[c].phase == phase
  }

  function To(s: State, c: nat, phase: Phase): State
    requires c in s.calls
  {
    s.(calls := s.calls[c := s.calls[c].(phase := phase)])
  }

  // insertOne: nothing happens when the row is there.
  function Inserted(s: State, key: Key, c: nat): State {
    if key in s.rows then s else s.(rows := s.rows[key := Reserved(c)])
  }

  predicate Owns(s: State, key: Key, c: nat) {
    key in s.rows && s.rows[key] == Reserved(c)
  }

  // deleteOne and updateOne with the state and the reservationId in the filter.
  function Removed(s: State, key: Key, c: nat): State {
    if Owns(s, key, c) then s.(rows := s.rows - {key}) else s
  }

  function Completed(s: State, key: Key, c: nat): State {
    if Owns(s, key, c) then s.(rows := s.rows[key := Sent(c)]) else s
  }

  function Mailed(s: State, key: Key): State {
    s.(mailed := s.mailed + multiset{key})
  }

  function Misreported(s: State, key: Key): State {
    Mailed(s, key).(misreported := s.misreported + multiset{key})
  }

  predicate Over(phase: Phase) {
    phase.Unrecorded? || phase.Returned? || phase.Threw? || phase.Abandoned? || phase.Lost?
  }

  function Next(s: State, step: Step): State {
    match step
    case Begin(c, key, legacySent) =>
      if c in s.calls || key in s.expired then s
      else s.(calls := s.calls[c := Call(key, if legacySent then Returned(false) else Ready)])
    case Reserve(c, answered) =>
      if !Is(s, c, Ready) then s
      else if s.calls[c].key in s.rows then To(s, c, Returned(false))
      else To(Inserted(s, s.calls[c].key, c), c, if answered then Sending else Threw)
    case ReserveFails(c) => if Is(s, c, Ready) then To(s, c, Lost) else s
    case LandReserve(c) => if Is(s, c, Lost) then To(Inserted(s, s.calls[c].key, c), c, Threw) else s
    case SendReturns(c) => if Is(s, c, Sending) then To(Mailed(s, s.calls[c].key), c, Delivered) else s
    case SendThrows(c, accepted) =>
      if !Is(s, c, Sending) then s
      else To(if accepted then Misreported(s, s.calls[c].key) else s, c, Releasing)
    case Release(c) => if Is(s, c, Releasing) then To(Removed(s, s.calls[c].key, c), c, Threw) else s
    case ReleaseFails(c) => if Is(s, c, Releasing) then To(s, c, Abandoned) else s
    case LandRelease(c) => if Is(s, c, Abandoned) then To(Removed(s, s.calls[c].key, c), c, Threw) else s
    case Complete(c, answered) =>
      if !Is(s, c, Delivered) then s
      else To(Completed(s, s.calls[c].key, c), c,
              if answered && Owns(s, s.calls[c].key, c) then Returned(true) else Unrecorded)
    case CompleteFails(c) => if Is(s, c, Delivered) then To(s, c, Unrecorded) else s
    case LandComplete(c) => if Is(s, c, Unrecorded) then Completed(s, s.calls[c].key, c) else s
    // The row outlives its day by a week: by then no call of that day is running or will begin.
    case Expire(key) =>
      if key !in s.rows || exists c :: c in s.calls && s.calls[c].key == key && !Over(s.calls[c].phase) then s
      else s.(rows := s.rows - {key}, expired := s.expired + {key})
  }

  function Exec(s: State, steps: seq<Step>): State {
    if steps == [] then s else Next(Exec(s, steps[..|steps| - 1]), steps[|steps| - 1])
  }

  // ---------------------------------------------------------------- what every step keeps

  // The mail is out.
  predicate HasDelivered(phase: Phase) {
    phase.Delivered? || phase.Unrecorded? || phase == Returned(true)
  }

  // The call is sending or has delivered.
  predicate Holds(phase: Phase) {
    phase.Sending? || HasDelivered(phase)
  }

  ghost predicate HoldersOwn(s: State) {
    forall c <- s.calls :: Holds(s.calls[c].phase) && s.calls[c].key !in s.expired ==>
      s.calls[c].key in s.rows && s.rows[s.calls[c].key].owner == c
  }

  ghost predicate HoldersUnique(s: State) {
    forall c, d | c in s.calls && d in s.calls && s.calls[c].key == s.calls[d].key
      :: Holds(s.calls[c].phase) && Holds(s.calls[d].phase) ==> c == d
  }

  // Nothing is going on for a key whose row has expired.
  ghost predicate ExpiredIsOver(s: State) {
    forall c <- s.calls :: s.calls[c].key in s.expired ==> Over(s.calls[c].phase)
  }

  ghost predicate Inv(s: State) {
    HoldersOwn(s) && HoldersUnique(s) && ExpiredIsOver(s)
  }

  // The history plays no part in it.
  lemma HistoryIrrelevant(s: State, mailed: multiset<Key>, misreported: multiset<Key>)
    requires Inv(s)
    ensures Inv(s.(mailed := mailed, misreported := misreported))
  {
  }

  // A move that makes no new holder, and leaves an expired key alone.
  lemma ToKeeps(s: State, c: nat, phase: Phase)
    requires Inv(s) && c in s.calls && (Holds(phase) ==> Holds(s.calls[c].phase))
    requires Over(phase) || !Over(s.calls[c].phase)
    ensures Inv(To(s, c, phase))
  {
  }

  lemma InsertedKeeps(s: State, key: Key, c: nat)
    requires Inv(s)
    ensures Inv(Inserted(s, key, c))
  {
  }

  lemma CompletedKeeps(s: State, key: Key, c: nat)
    requires Inv(s)
    ensures Inv(Completed(s, key, c))
  {
  }

  // The call that inserts the row becomes its only holder.
  lemma ReserveKeeps(s: State, c: nat, phase: Phase)
    requires Inv(s) && Is(s, c, Ready) && s.calls[c].key !in s.rows && (phase.Sending? || phase.Threw?)
    ensures Inv(To(Inserted(s, s.calls[c].key, c), c, phase))
  {
  }

  lemma ExpireKeeps(s: State, key: Key)
    requires Inv(s)
    ensures Inv(Next(s, Expire(key)))
  {
  }

  lemma BeginKeeps(s: State, c: nat, key: Key, legacySent: bool)
    requires Inv(s)
    ensures Inv(Next(s, Begin(c, key, legacySent)))
  {
  }

  lemma {:induction false} NextKeeps(s: State, step: Step)
    requires Inv(s)
    ensures Inv(Next(s, step))
  {
    hide HoldersOwn, HoldersUnique, ExpiredIsOver, Inv;
    match step
    case Begin(c, key, legacySent) => BeginKeeps(s, c, key, legacySent);
    case Reserve(c, answered) =>
      if Is(s, c, Ready) {
        if s.calls[c].key in s.rows { ToKeeps(s, c, Returned(false)); }
        else { ReserveKeeps(s, c, if answered then Sending else Threw); }
      }
    case ReserveFails(c) => if Is(s, c, Ready) { ToKeeps(s, c, Lost); }
    case LandReserve(c) =>
      if Is(s, c, Lost) {
        InsertedKeeps(s, s.calls[c].key, c);
        ToKeeps(Inserted(s, s.calls[c].key, c), c, Threw);
      }
    case SendReturns(c) =>
      if Is(s, c, Sending) {
        var t := Mailed(s, s.calls[c].key);
        HistoryIrrelevant(s, t.mailed, s.misreported);
        ToKeeps(t, c, Delivered);
      }
    case SendThrows(c, accepted) =>
      if Is(s, c, Sending) {
        var t := if accepted then Misreported(s, s.calls[c].key) else s;
        HistoryIrrelevant(s, t.mailed, t.misreported);
        ToKeeps(t, c, Releasing);
      }
    case Release(c) => if Is(s, c, Releasing) { LeaveKeeps(s, c); }
    case ReleaseFails(c) => if Is(s, c, Releasing) { ToKeeps(s, c, Abandoned); }
    case LandRelease(c) => if Is(s, c, Abandoned) { LeaveKeeps(s, c); }
    case Complete(c, answered) =>
      if Is(s, c, Delivered) {
        var recorded := answered && Owns(s, s.calls[c].key, c);
        CompletedKeeps(s, s.calls[c].key, c);
        ToKeeps(Completed(s, s.calls[c].key, c), c, if recorded then Returned(true) else Unrecorded);
      }
    case CompleteFails(c) => if Is(s, c, Delivered) { ToKeeps(s, c, Unrecorded); }
    case LandComplete(c) => if Is(s, c, Unrecorded) { CompletedKeeps(s, s.calls[c].key, c); }
    case Expire(key) => ExpireKeeps(s, key);
  }

  lemma LeaveKeeps(s: State, c: nat)
    requires Inv(s) && c in s.calls && !Holds(s.calls[c].phase)
    ensures Inv(To(Removed(s, s.calls[c].key, c), c, Threw))
  {
  }

  lemma {:induction false} RunKeeps(steps: seq<Step>)
    ensures Inv(Exec(INITIAL, steps))
  {
    if steps != [] {
      RunKeeps(steps[..|steps| - 1]);
      hide Inv, Next;
      NextKeeps(Exec(INITIAL, steps[..|steps| - 1]), steps[|steps| - 1]);
    }
  }

  // ---------------------------------------------------------------- one delivery

  // Delivery is final: nothing turns a call that has delivered into anything else, nor its key.
  lemma {:induction false} DeliveryIsFinal(s: State, steps: seq<Step>, c: nat)
    requires c in s.calls && HasDelivered(s.calls[c].phase)
    ensures var t := Exec(s, steps);
      c in t.calls && t.calls[c].key == s.calls[c].key && HasDelivered(t.calls[c].phase)
  {
    if steps != [] {
      DeliveryIsFinal(s, steps[..|steps| - 1], c);
      OneStepIsFinal(Exec(s, steps[..|steps| - 1]), steps[|steps| - 1], c);
    }
  }

  lemma OneStepIsFinal(s: State, step: Step, c: nat)
    requires c in s.calls && HasDelivered(s.calls[c].phase)
    ensures var t := Next(s, step);
      c in t.calls && t.calls[c].key == s.calls[c].key && HasDelivered(t.calls[c].phase)
  {
  }

  lemma {:induction false} ExecAppend(s: State, a: seq<Step>, b: seq<Step>)
    ensures Exec(s, a + b) == Exec(Exec(s, a), b)
  {
    if b == [] {
      assert a + b == a;
    } else {
      assert (a + b)[..|a + b| - 1] == a + b[..|b| - 1];
      ExecAppend(s, a, b[..|b| - 1]);
    }
  }

  // Once a call has delivered a recipient's mail of one day, it has for good, and from then on no other
  // call of that recipient and day is ever sending or has delivered.
  lemma {:induction false} DeliveredAtMostOnce(a: seq<Step>, b: seq<Step>, c: nat, d: nat)
    requires var s := Exec(INITIAL, a); c in s.calls && HasDelivered(s.calls[c].phase)
    requires var t := Exec(INITIAL, a + b);
      d in t.calls && t.calls[d].key == Exec(INITIAL, a).calls[c].key && Holds(t.calls[d].phase)
    ensures c == d && HasDelivered(Exec(INITIAL, a + b).calls[c].phase)
  {
    ExecAppend(INITIAL, a, b);
    DeliveryIsFinal(Exec(INITIAL, a), b, c);
    RunKeeps(a + b);
  }

  // ---------------------------------------------------------------- the mails that go out

  ghost predicate MailIsOut(s: State, key: Key) {
    exists c :: c in s.calls && s.calls[c].key == key && HasDelivered(s.calls[c].phase)
  }

  // Every mail was misreported, or is the delivery of its key.
  ghost predicate Accounted(s: State, key: Key) {
    s.mailed[key] == s.misreported[key] + if MailIsOut(s, key) then 1 else 0
  }

  // Steps that send nothing deliver nothing.
  lemma {:induction false} SilentCall(s: State, step: Step, c: nat)
    requires !step.SendReturns? && !step.SendThrows?
    ensures var t := Next(s, step);
      if c in s.calls then
        && c in t.calls && t.calls[c].key == s.calls[c].key
        && (HasDelivered(t.calls[c].phase) <==> HasDelivered(s.calls[c].phase))
      else c in t.calls ==> !HasDelivered(t.calls[c].phase)
  {
  }

  lemma {:induction false} SilentHistory(s: State, step: Step)
    requires !step.SendReturns? && !step.SendThrows?
    ensures Next(s, step).mailed == s.mailed && Next(s, step).misreported == s.misreported
  {
  }

  lemma {:induction false} SilentStep(s: State, step: Step, key: Key)
    requires !step.SendReturns? && !step.SendThrows? && Accounted(s, key)
    ensures Accounted(Next(s, step), key)
  {
    hide Next;
    var t := Next(s, step);
    SilentHistory(s, step);
    if MailIsOut(s, key) {
      var c :| c in s.calls && s.calls[c].key == key && HasDelivered(s.calls[c].phase);
      SilentCall(s, step, c);
    }
    if MailIsOut(t, key) {
      var c :| c in t.calls && t.calls[c].key == key && HasDelivered(t.calls[c].phase);
      SilentCall(s, step, c);
    }
  }

  lemma {:induction false} SendReturnsAccounts(s: State, c: nat, key: Key)
    requires Inv(s) && Accounted(s, key) && Is(s, c, Sending)
    ensures Accounted(Next(s, SendReturns(c)), key)
  {
    var t := Next(s, SendReturns(c));
    if key == s.calls[c].key {
      assert !MailIsOut(s, key);
      assert HasDelivered(t.calls[c].phase);
    } else {
      assert forall d <- s.calls :: d != c ==> t.calls[d] == s.calls[d];
    }
  }

  lemma {:induction false} SendThrowsAccounts(s: State, c: nat, accepted: bool, key: Key)
    requires Accounted(s, key) && Is(s, c, Sending)
    ensures Accounted(Next(s, SendThrows(c, accepted)), key)
  {
    var t := Next(s, SendThrows(c, accepted));
    assert forall d <- s.calls :: d != c ==> t.calls[d] == s.calls[d];
  }

  lemma {:induction false} RunAccounts(steps: seq<Step>, key: Key)
    ensures Accounted(Exec(INITIAL, steps), key)
  {
    if steps != [] {
      var front, last := steps[..|steps| - 1], steps[|steps| - 1];
      RunAccounts(front, key);
      RunKeeps(front);
      var s := Exec(INITIAL, front);
      hide Inv, Next, Accounted;
      match last
      case SendReturns(c) => if Is(s, c, Sending) { SendReturnsAccounts(s, c, key); } else { IdleSend(s, last); }
      case SendThrows(c, accepted) =>
        if Is(s, c, Sending) { SendThrowsAccounts(s, c, accepted, key); } else { IdleSend(s, last); }
      case _ => SilentStep(s, last, key);
    }
  }

  lemma IdleSend(s: State, step: Step)
    requires (step.SendReturns? || step.SendThrows?) && !Is(s, step.call, Sending)
    ensures Next(s, step) == s
  {
  }

  // With n sends of a recipient and day that threw although the message was accepted, at most n + 1
  // mails go out; without any, at most one.
  lemma {:induction false} MailsBounded(steps: seq<Step>, key: Key)
    ensures var s := Exec(INITIAL, steps); s.mailed[key] <= s.misreported[key] + 1
  {
    RunAccounts(steps, key);
  }

  // After a refused delivery whose release was confirmed the day's mail can be sent by the next call.
  lemma {:induction false} ReleaseReopens(s: State, c: nat, d: nat)
    requires Is(s, c, Releasing) && Owns(s, s.calls[c].key, c) && d !in s.calls
    requires s.calls[c].key !in s.expired
    ensures var key := s.calls[c].key;
      var t := Next(Next(Next(s, Release(c)), Begin(d, key, false)), Reserve(d, true));
      && Is(t, d, Sending) && t.calls[d].key == key && Owns(t, key, d) && t.expired == s.expired
      && t.calls.Keys == s.calls.Keys + {d} && t.mailed == s.mailed && t.misreported == s.misreported
  {
  }

  lemma OneMore(s: State, steps: seq<Step>, step: Step)
    ensures Exec(s, steps + [step]) == Next(Exec(s, steps), step)
  {
    assert (steps + [step])[..|steps|] == steps;
  }

  // Call n is sending, and all before it had their message accepted and threw.
  ghost predicate NthSends(s: State, key: Key, n: nat) {
    && Is(s, n, Sending) && s.calls[n].key == key && Owns(s, key, n) && s.expired == {}
    && (forall c <- s.calls :: c <= n) && s.mailed[key] == n && s.misreported[key] == n
  }

  lemma {:induction false} NextThrows(s: State, key: Key, n: nat)
    requires NthSends(s, key, n)
    ensures var t := Next(s, SendThrows(n, true));
      NthSends(Next(Next(Next(t, Release(n)), Begin(n + 1, key, false)), Reserve(n + 1, true)), key, n + 1)
  {
    var t := Next(s, SendThrows(n, true));
    assert Is(t, n, Releasing) && Owns(t, key, n) && t.calls[n].key == key && t.calls.Keys == s.calls.Keys;
    assert t.mailed[key] == n + 1 && t.misreported[key] == n + 1 && t.expired == {};
    ReleaseReopens(t, n, n + 1);
    hide Next;
  }

  lemma {:induction false} FirstSends(key: Key)
    ensures NthSends(Next(Next(INITIAL, Begin(0, key, false)), Reserve(0, true)), key, 0)
  {
    assert Next(INITIAL, Begin(0, key, false)) == INITIAL.(calls := map[0 := Call(key, Ready)]);
  }

  lemma {:induction false} ThrowingCalls(key: Key, n: nat) returns (steps: seq<Step>)
    ensures NthSends(Exec(INITIAL, steps), key, n)
  {
    hide Next, NthSends;
    if n == 0 {
      FirstSends(key);
      OneMore(INITIAL, [], Begin(0, key, false));
      OneMore(INITIAL, [] + [Begin(0, key, false)], Reserve(0, true));
      steps := [] + [Begin(0, key, false)] + [Reserve(0, true)];
    } else {
      hide Exec;
      var front := ThrowingCalls(key, n - 1);
      var threw := front + [SendThrows(n - 1, true)];
      NextThrows(Exec(INITIAL, front), key, n - 1);
      OneMore(INITIAL, front, SendThrows(n - 1, true));
      OneMore(INITIAL, threw, Release(n - 1));
      OneMore(INITIAL, threw + [Release(n - 1)], Begin(n, key, false));
      OneMore(INITIAL, threw + [Release(n - 1)] + [Begin(n, key, false)], Reserve(n, true));
      steps := threw + [Release(n - 1)] + [Begin(n, key, false)] + [Reserve(n, true)];
    }
  }

  // The bound is reached: for every n a run with n such sends in which n + 1 mails go out.
  lemma {:induction false} MisreportedSends(key: Key, n: nat) returns (steps: seq<Step>)
    ensures var s := Exec(INITIAL, steps); s.misreported[key] == n && s.mailed[key] == n + 1
  {
    var front := ThrowingCalls(key, n);
    steps := front + [SendReturns(n)];
    OneMore(INITIAL, front, SendReturns(n));
  }

  // ---------------------------------------------------------------- a call left alone

  // The steps of one call with nothing in between; its send returns.
  function CallAlone(s: State, c: nat, key: Key, legacySent: bool): State {
    Next(Next(Next(Next(s, Begin(c, key, legacySent)), Reserve(c, true)), SendReturns(c)), Complete(c, true))
  }

  // And the same when its send throws.
  function ThrowAlone(s: State, c: nat, key: Key, accepted: bool): State {
    Next(Next(Next(Next(s, Begin(c, key, false)), Reserve(c, true)), SendThrows(c, accepted)), Release(c))
  }

  // A call that is left alone sends exactly if nothing was sent before the upgrade and its recipient and day
  // have no row; then it answers true and leaves the row sent. If its send throws, the row is gone again.
  // Every other call answers false and changes nothing.
  lemma {:induction false} UndisturbedMail(s: State, c: nat, key: Key, legacySent: bool, accepted: bool)
    requires c !in s.calls && key !in s.expired
    ensures var t := CallAlone(s, c, key, legacySent);
      && c in t.calls && t.misreported == s.misreported
      && if !legacySent && key !in s.rows
         then t.calls[c] == Call(key, Returned(true)) && t.rows == s.rows[key := Sent(c)] && t.mailed == s.mailed + multiset{key}
         else t.calls[c] == Call(key, Returned(false)) && t.rows == s.rows && t.mailed == s.mailed
    ensures var t := ThrowAlone(s, c, key, accepted);
      && c in t.calls && t.rows == s.rows
      && if key !in s.rows
         then t.calls[c] == Call(key, Threw) && t.mailed == s.mailed + (if accepted then multiset{key} else multiset{})
         else t.calls[c] == Call(key, Returned(false)) && t.mailed == s.mailed
  {
    if key in s.rows || legacySent {
      AnsweredFalse(s, c, key, legacySent);
    }
    if key !in s.rows {
      ReservedAlone(s, c, key);
      var s2 := SendingState(s, c, key);
      hide Next;
      SentAlone(s, c, key);
      ThrownAlone(s, c, key, accepted);
      AnsweredFalse(s, c, key, true);
    } else {
      AnsweredFalse(s, c, key, false);
      hide Next;
    }
  }

  function SendingState(s: State, c: nat, key: Key): State {
    s.(calls := s.calls[c := Call(key, Sending)], rows := s.rows[key := Reserved(c)])
  }

  lemma {:induction false} ReservedAlone(s: State, c: nat, key: Key)
    requires c !in s.calls && key !in s.expired && key !in s.rows
    ensures Next(Next(s, Begin(c, key, false)), Reserve(c, true)) == SendingState(s, c, key)
  {
    assert Next(s, Begin(c, key, false)) == s.(calls := s.calls[c := Call(key, Ready)]);
  }

  lemma {:induction false} SentAlone(s: State, c: nat, key: Key)
    ensures Next(Next(SendingState(s, c, key), SendReturns(c)), Complete(c, true)) ==
      s.(calls := s.calls[c := Call(key, Returned(true))], rows := s.rows[key := Sent(c)], mailed := s.mailed + multiset{key})
  {
    var s3 := Next(SendingState(s, c, key), SendReturns(c));
    assert s3 == s.(calls := s.calls[c := Call(key, Delivered)], rows := s.rows[key := Reserved(c)],
                    mailed := s.mailed + multiset{key});
  }

  lemma {:induction false} ThrownAlone(s: State, c: nat, key: Key, accepted: bool)
    requires key !in s.rows
    ensures var t := Next(Next(SendingState(s, c, key), SendThrows(c, accepted)), Release(c));
      && c in t.calls && t.rows == s.rows && t.calls[c] == Call(key, Threw)
      && t.mailed == s.mailed + (if accepted then multiset{key} else multiset{})
  {
    var s3 := Next(SendingState(s, c, key), SendThrows(c, accepted));
    assert s3.rows == s.rows[key := Reserved(c)] && s3.calls == s.calls[c := Call(key, Releasing)];
    assert s3.rows - {key} == s.rows;
  }

  lemma {:induction false} AnsweredFalse(s: State, c: nat, key: Key, legacySent: bool)
    requires c !in s.calls && key !in s.expired && (key in s.rows || legacySent)
    ensures var t := s.(calls := s.calls[c := Call(key, Returned(false))]);
      && CallAlone(s, c, key, legacySent) == t
      && (!legacySent ==> forall accepted :: ThrowAlone(s, c, key, accepted) == t)
  {
    var t := s.(calls := s.calls[c := Call(key, Returned(false))]);
    assert Next(Next(s, Begin(c, key, legacySent)), Reserve(c, true)) == t;
  }

  // An operation that failed without its caller knowing how does to the rows, when it lands, what it would
  // have done at once.
  lemma {:induction false} LostReplyLands(s: State, c: nat)
    requires c in s.calls
    ensures s.calls[c].phase.Ready? ==>
      Next(Next(s, ReserveFails(c)), LandReserve(c)).rows == Next(s, Reserve(c, false)).rows
    ensures s.calls[c].phase.Releasing? ==> Next(Next(s, ReleaseFails(c)), LandRelease(c)).rows == Next(s, Release(c)).rows
    ensures s.calls[c].phase.Delivered? ==>
      Next(Next(s, CompleteFails(c)), LandComplete(c)).rows == Next(s, Complete(c, false)).rows
  {
    if s.calls[c].phase.Ready? {
      assert Next(s, ReserveFails(c)) == To(s, c, Lost);
    } else if s.calls[c].phase.Releasing? {
      assert Next(s, ReleaseFails(c)) == To(s, c, Abandoned);
    } else if s.calls[c].phase.Delivered? {
      assert Next(s, CompleteFails(c)) == To(s, c, Unrecorded);
    }
  }
}
