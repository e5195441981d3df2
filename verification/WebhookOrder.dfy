// The last-writer rule of server/webhookVerificationRoute.js and the lock decision it drives in
// imports/utils/publicationAuthentication.js: delivery order and repeats must not matter.
module WebhookOrder {
  import Calendar
  import opened Options
  import opened Strings

  datatype Action = CompleteAction | IncompleteAction

  datatype Event = Event(timestamp: int, id: string, action: Action)

  // A missing verification period makes the computed deadline an invalid date.
  datatype Interface = Interface(id: string, verificationPeriod: Option<int>)

  // deadline.None? stands for a missing or invalid deadline.
  datatype Verification = Verification(
    required: bool, webhookInterfaceId: Option<string>, completed: bool, completedAt: Option<int>, deadline: Option<int>,
    eventInterfaceId: Option<string>, eventTimestamp: Option<int>, eventId: Option<string>)

  // ---------------------------------------------------------------- the order of events

  // Event identifiers are ASCII, where the store's order and the order of characters agree.
  predicate EventLe(a: Event, b: Event) {
    a.timestamp < b.timestamp || (a.timestamp == b.timestamp && StringLe(a.id, b.id))
  }

  function Later(a: Event, b: Event): Event {
    if EventLe(a, b) then b else a
  }

  function Latest(events: seq<Event>): Event
    requires events != []
  {
    if |events| == 1 then events[0] else Later(Latest(events[..|events| - 1]), events[|events| - 1])
  }

  // ---------------------------------------------------------------- the stored update

  // webhookEventOrderSelector.
  predicate Accepts(v: Verification, interfaceId: string, e: Event) {
    || v.eventInterfaceId.None?
    || v.eventInterfaceId.value != interfaceId
    || v.eventTimestamp.None?
    || v.eventTimestamp.value < e.timestamp
    || (v.eventTimestamp.value == e.timestamp && (v.eventId.None? || StringLe(v.eventId.value, e.id)))
  }

  predicate Targets(v: Verification, i: Interface) {
    v.required && v.webhookInterfaceId == Some(i.id)
  }

  function Deadline(i: Interface, e: Event): Option<int> {
    if i.verificationPeriod.None? then None
    else Some(e.timestamp + i.verificationPeriod.value * Calendar.MILLISECONDS_PER_DAY)
  }

  function WithMetadata(v: Verification, i: Interface, e: Event): Verification {
    v.(eventInterfaceId := Some(i.id), eventTimestamp := Some(e.timestamp), eventId := Some(e.id))
  }

  function ApplyEvent(v: Verification, i: Interface, e: Event): Verification {
    if !Targets(v, i) || !Accepts(v, i.id, e) then v
    else match e.action
         case CompleteAction => WithMetadata(v, i, e).(completed := true, completedAt := Some(e.timestamp))
         case IncompleteAction =>
           WithMetadata(v, i, e).(completed := false, completedAt := None, deadline := Deadline(i, e))
  }

  function Deliver(v: Verification, i: Interface, events: seq<Event>): Verification {
    if events == [] then v
    else ApplyEvent(Deliver(v, i, events[..|events| - 1]), i, events[|events| - 1])
  }

  // actionVerificationBlocksAccess.
  predicate BlocksAccess(v: Verification, now: int) {
    v.required && !v.completed && (v.deadline.None? || now > v.deadline.value)
  }

  class UserRecord {
    var verification: Verification

    constructor (v: Verification)
      ensures verification == v
    {
      verification := v;
    }

    // applyResult: one conditional update of the user document.
    method ApplyResult(i: Interface, e: Event) returns (matched: bool)
      modifies this
      ensures verification == ApplyEvent(old(verification), i, e)
      ensures matched <==> Targets(old(verification), i) && Accepts(old(verification), i.id, e)
      ensures matched ==> verification.eventTimestamp == Some(e.timestamp) && verification.eventId == Some(e.id)
    {
      matched := Targets(verification, i) && Accepts(verification, i.id, e);
      if !matched {
        return;
      }
      if e.action == CompleteAction {
        verification := verification.(completed := true, completedAt := Some(e.timestamp));
      } else {
        verification := verification.(completed := false, deadline := Deadline(i, e), completedAt := None);
      }
      verification := WithMetadata(verification, i, e);
    }
  }

  // ---------------------------------------------------------------- convergence

  // One timestamp and one payload per event identifier: a repeat is the same event.
  ghost predicate FixedEvents(events: seq<Event>) {
    forall j, k :: 0 <= j < |events| && 0 <= k < |events| && events[j].id == events[k].id ==> events[j] == events[k]
  }

  // The same decision at every time, and the same place in the event order.
  predicate SameDecision(v: Verification, w: Verification) {
    && v.required == w.required && v.completed == w.completed && (!v.completed ==> v.deadline == w.deadline)
    && v.eventInterfaceId == w.eventInterfaceId && v.eventTimestamp == w.eventTimestamp && v.eventId == w.eventId
  }

  lemma {:induction false} LatestIsMaximum(events: seq<Event>)
    requires events != []
    ensures Latest(events) in events
    ensures forall e <- events :: EventLe(e, Latest(events))
  {
    var n := |events| - 1;
    StringLeTotal(events[n].id, events[n].id);
    if n > 0 {
      var front := events[..n];
      LatestIsMaximum(front);
      StringLeTotal(Latest(front).id, events[n].id);
      forall e <- events ensures EventLe(e, Latest(events)) {
        if e in front && EventLe(Latest(front), events[n]) && e.timestamp == events[n].timestamp {
          StringLeTransitive(e.id, Latest(front).id, events[n].id);
        }
      }
    }
  }

  // Once an event is accepted, every later one is.
  lemma AcceptsUpwards(v: Verification, interfaceId: string, a: Event, b: Event)
    requires Accepts(v, interfaceId, a) && EventLe(a, b)
    ensures Accepts(v, interfaceId, b)
  {
    if v.eventId.Some? && v.eventTimestamp.Some? && v.eventTimestamp.value == a.timestamp == b.timestamp
       && StringLe(v.eventId.value, a.id) {
      StringLeTransitive(v.eventId.value, a.id, b.id);
    }
  }

  // Delivered in any order with any repeats, the stored event ends at the latest one and every later
  // access decision is that of applying the latest event alone; if the stored event was already
  // later than all of them, nothing changes.
  lemma {:induction false} Converges(v: Verification, i: Interface, events: seq<Event>)
    requires events != [] && FixedEvents(events) && Targets(v, i)
    ensures var w := Deliver(v, i, events);
      var m := Latest(events);
      && Targets(w, i)
      && (Accepts(v, i.id, m) ==>
            && w.eventInterfaceId == Some(i.id) && w.eventTimestamp == Some(m.timestamp) && w.eventId == Some(m.id)
            && SameDecision(w, ApplyEvent(v, i, m)))
      && (!Accepts(v, i.id, m) ==> w == v)
  {
    var n := |events| - 1;
    var e := events[n];
    var front := events[..n];
    StringLeTotal(e.id, e.id);
    if n == 0 {
      assert Deliver(v, i, front) == v;
    } else {
      Converges(v, i, front);
      LatestIsMaximum(front);
      var m := Latest(front);
      StringLeTotal(m.id, e.id);
      if EventLe(m, e) && Accepts(v, i.id, m) { AcceptsUpwards(v, i.id, m, e); }
      if EventLe(e, m) && Accepts(v, i.id, e) { AcceptsUpwards(v, i.id, e, m); }
      if EventLe(m, e) && EventLe(e, m) { StringLeAntisymmetric(m.id, e.id); }
    }
  }

  lemma DecisionEverywhere(v: Verification, w: Verification, now: int)
    requires SameDecision(v, w)
    ensures BlocksAccess(v, now) == BlocksAccess(w, now)
  {
  }

  // Two deliveries of the same set of events end with the same decision at every time.
  lemma {:induction false} DeliveryOrderIrrelevant(v: Verification, i: Interface, a: seq<Event>, b: seq<Event>, now: int)
    requires FixedEvents(a + b) && Targets(v, i) && forall e :: e in a <==> e in b
    ensures BlocksAccess(Deliver(v, i, a), now) == BlocksAccess(Deliver(v, i, b), now)
    ensures SameDecision(Deliver(v, i, a), Deliver(v, i, b))
  {
    assert |b| > 0 ==> b[0] in a;
    assert |a| > 0 ==> a[0] in b;
    if a != [] {
      assert FixedEvents(a) by { assert forall j :: 0 <= j < |a| ==> (a + b)[j] == a[j]; }
      assert FixedEvents(b) by { assert forall j :: 0 <= j < |b| ==> (a + b)[|a| + j] == b[j]; }
      LatestIsMaximum(a);
      LatestIsMaximum(b);
      var m, n := Latest(a), Latest(b);
      StringLeAntisymmetric(m.id, n.id);
      assert m in a && n in a;
      Converges(v, i, a);
      Converges(v, i, b);
    }
  }

  // The raw deadline does not converge, which is why only the decision is compared.
  lemma DeadlineDependsOnOrder(v: Verification, i: Interface, a: Event, b: Event)
    requires Targets(v, i) && v.eventInterfaceId.None? && v.deadline != Deadline(i, a)
    requires a.action == IncompleteAction && b.action == CompleteAction && a.timestamp < b.timestamp
    ensures Deliver(v, i, [a, b]).deadline != Deliver(v, i, [b, a]).deadline
    ensures SameDecision(Deliver(v, i, [a, b]), Deliver(v, i, [b, a]))
  {
    assert [a, b][..1] == [a] && [b, a][..1] == [b] && [a][..0] == [] && [b][..0] == [];
    assert Deliver(v, i, []) == v;
    assert Deliver(v, i, [a]) == ApplyEvent(v, i, a) && Deliver(v, i, [b]) == ApplyEvent(v, i, b);
  }

  // ---------------------------------------------------------------- what is decided

  // After any delivery whose latest event is accepted, that event alone decides: a complete one never
  // blocks, an incomplete one blocks exactly once the period has passed, or always when there is none.
  lemma {:induction false} LatestDecides(v: Verification, i: Interface, events: seq<Event>, m: Event, now: int)
    requires FixedEvents(events) && v.required && v.webhookInterfaceId == Some(i.id)
    requires m in events && forall e <- events :: EventLe(e, m)
    requires v.eventInterfaceId == Some(i.id) && v.eventTimestamp.Some? ==>
      v.eventTimestamp.value < m.timestamp
      || (v.eventTimestamp.value == m.timestamp && (v.eventId.None? || StringLe(v.eventId.value, m.id)))
    ensures BlocksAccess(Deliver(v, i, events), now) <==>
      && m.action == IncompleteAction
      && (i.verificationPeriod.None? || now > m.timestamp + i.verificationPeriod.value * 86_400_000)
  {
    LatestIsMaximum(events);
    StringLeAntisymmetric(m.id, Latest(events).id);
    Converges(v, i, events);
    hide StringLe;
  }

  // A record the events do not reach keeps its decision: nothing is delivered to another interface's
  // record, and nothing that is already later is overwritten.
  lemma {:induction false} OthersUntouched(v: Verification, i: Interface, events: seq<Event>)
    requires !v.required || v.webhookInterfaceId != Some(i.id) || forall e <- events ::
      v.eventInterfaceId == Some(i.id) && v.eventTimestamp.Some? &&
      (v.eventTimestamp.value > e.timestamp
       || (v.eventTimestamp.value == e.timestamp && v.eventId.Some? && !StringLe(v.eventId.value, e.id)))
    ensures Deliver(v, i, events) == v
  {
    if events != [] {
      var front, last := events[..|events| - 1], events[|events| - 1];
      OthersUntouched(v, i, front);
      assert last in events;
    }
  }

  // An unrequired or completed verification never blocks; a required, uncompleted one does once its
  // deadline has passed, and always without one.
  lemma LockDecision(v: Verification, now: int)
    ensures !v.required || v.completed ==> !BlocksAccess(v, now)
    ensures v.required && !v.completed && v.deadline.None? ==> BlocksAccess(v, now)
    ensures v.required && !v.completed && v.deadline.Some? ==>
      (BlocksAccess(v, now) <==> v.deadline.value < now)
  {
  }

  // Once blocked, a record that nothing is delivered to stays blocked; it can be blocked at some time
  // exactly when it is required and not completed.
  lemma BlocksFromThenOn(v: Verification, now: int, later: int)
    requires now <= later
    ensures BlocksAccess(v, now) ==> BlocksAccess(v, later)
    ensures v.required && !v.completed <==> exists t :: BlocksAccess(v, t)
  {
    if v.required && !v.completed {
      assert BlocksAccess(v, if v.deadline.Some? then v.deadline.value + 1 else now);
    }
  }
}
