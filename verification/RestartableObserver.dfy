// createRestartableDocumentObserver of imports/utils/reactivePublication.js. Each method is one
// stretch of code between awaits; an interleaving is a sequence of such stretches.
module RestartableObserver {
  import opened Options
  import opened PublicationReconciler

  datatype Callback = DocumentAdded(id: string, fields: Fields) | DocumentChanged(id: string, fields: Fields)
                    | DocumentRemoved(id: string)

  // applyObserverChange: undefined clears a field; a change of an unknown document creates it.
  function ApplyFields(document: Fields, fields: Fields): Fields {
    map k | k in document.Keys + fields.Keys && (k in fields ==> fields[k].Val?)
      :: if k in fields then fields[k] else document[k]
  }

  lemma ApplyOneMore(document: Fields, fields: Fields, key: string, value: Value)
    ensures ApplyFields(document, fields[key := value]) ==
      if value.Undefined? then ApplyFields(document, fields) - {key} else ApplyFields(document, fields)[key := value]
  {
  }

  method ApplyObserverChange(documents: Documents, id: string, fields: Fields) returns (updated: Documents)
    ensures updated == ApplyCallback(documents, DocumentChanged(id, fields))
  {
    var before: Fields := if id in documents then documents[id] else map["_id" := Val(id)];
    var document := before;
    var keys := fields.Keys;
    ghost var seen: Fields := map[];
    while keys != {}
      invariant keys <= fields.Keys && seen.Keys == fields.Keys - keys
      invariant forall k <- seen :: seen[k] == fields[k]
      invariant document == ApplyFields(before, seen)
    {
      var key :| key in keys;
      keys := keys - {key};
      ApplyOneMore(before, seen, key, fields[key]);
      if fields[key].Undefined? {
        document := document - {key};
      } else {
        document := document[key := fields[key]];
      }
      seen := seen[key := fields[key]];
    }
    assert seen == fields;
    updated := documents[id := document];
  }

  function ApplyCallback(documents: Documents, callback: Callback): Documents {
    match callback
    case DocumentAdded(id, fields) => documents[id := map["_id" := Val(id)] + fields]
    case DocumentChanged(id, fields) =>
      documents[id := ApplyFields(if id in documents then documents[id] else map["_id" := Val(id)], fields)]
    case DocumentRemoved(id) => documents - {id}
  }

  method Apply(documents: Documents, callback: Callback) returns (updated: Documents)
    ensures updated == ApplyCallback(documents, callback)
  {
    match callback
    case DocumentAdded(id, fields) => updated := documents[id := map["_id" := Val(id)] + fields];
    case DocumentChanged(id, fields) => updated := ApplyObserverChange(documents, id, fields);
    case DocumentRemoved(id) => updated := documents - {id};
  }

  // ---------------------------------------------------------------- the observer as a state machine

  datatype Attempt = Initializing(pending: Documents) | Ready | Dropped

  // One entry of attempts per observe call, named by its generation; open holds every handle
  // obtained and not stopped. reported is history: what each observer has told us so far.
  datatype Observer = Observer(
    activeHandle: Option<nat>,
    documents: Documents,
    generation: nat,
    stopped: bool,
    attempts: map<nat, Attempt>,
    open: set<nat>,
    reported: map<nat, Documents>)

  datatype Event =
    | RestartNull
    | RestartScope
    | Observed(generation: nat, callback: Callback)
    | Completed(generation: nat)
    | Failed(generation: nat)
    | Stop

  const INITIAL := Observer(None, map[], 0, false, map[], {}, map[])

  // The documents passed to documentsChanged, if the stretch calls it.
  type Notification = Option<Documents>

  predicate Current(o: Observer, generation: nat) {
    !o.stopped && generation == o.generation
  }

  function BeginRestart(o: Observer): Observer {
    o.(generation := o.generation + 1, activeHandle := None,
       open := if o.activeHandle.Some? then o.open - {o.activeHandle.value} else o.open)
  }

  function OnCallback(o: Observer, generation: nat, callback: Callback): (Observer, Notification)
    requires generation in o.attempts && generation in o.reported
  {
    var heard := o.(reported := o.reported[generation := ApplyCallback(o.reported[generation], callback)]);
    if !Current(o, generation) then (heard, None)
    else match o.attempts[generation]
         case Initializing(pending) =>
           (heard.(attempts := o.attempts[generation := Initializing(ApplyCallback(pending, callback))]), None)
         case Dropped => (heard, None)
         case Ready =>
           var documents := ApplyCallback(o.documents, callback);
           (heard.(documents := documents), Some(documents))
  }

  function OnCompleted(o: Observer, generation: nat): (Observer, Notification)
    requires generation in o.attempts && o.attempts[generation].Initializing?
  {
    if !Current(o, generation) then (o.(attempts := o.attempts[generation := Dropped]), None)
    else
      var documents := o.attempts[generation].pending;
      (o.(documents := documents, activeHandle := Some(generation), open := o.open + {generation},
          attempts := o.attempts[generation := Ready]), Some(documents))
  }

  function OnFailed(o: Observer, generation: nat): Observer
    requires generation in o.attempts && o.attempts[generation].Initializing?
  {
    var o' := o.(attempts := o.attempts[generation := Dropped]);
    if !Current(o, generation) then o' else o'.(documents := map[])
  }

  function OnStop(o: Observer): Observer {
    if o.stopped then o
    else o.(stopped := true, generation := o.generation + 1, activeHandle := None, documents := map[],
            open := if o.activeHandle.Some? then o.open - {o.activeHandle.value} else o.open)
  }

  predicate Enabled(o: Observer, event: Event) {
    match event
    case Observed(g, _) => g in o.attempts && g in o.reported
    case Completed(g) => g in o.attempts && o.attempts[g].Initializing?
    case Failed(g) => g in o.attempts && o.attempts[g].Initializing?
    case _ => true
  }

  function Step(o: Observer, event: Event): (Observer, Notification) {
    if !Enabled(o, event) then (o, None)
    else match event
         case RestartNull => (BeginRestart(o).(documents := map[]), Some(map[]))
         case RestartScope =>
           var o' := BeginRestart(o);
           (o'.(attempts := o'.attempts[o'.generation := Initializing(map[])],
                reported := o'.reported[o'.generation := map[]]), None)
         case Observed(g, callback) => OnCallback(o, g, callback)
         case Completed(g) => OnCompleted(o, g)
         case Failed(g) => (OnFailed(o, g), None)
         case Stop => (OnStop(o), None)
  }

  function Run(o: Observer, events: seq<Event>): Observer {
    if events == [] then o else Step(Run(o, events[..|events| - 1]), events[|events| - 1]).0
  }

  // ---------------------------------------------------------------- what every run keeps

  ghost predicate Inv(o: Observer) {
    && (forall g <- o.attempts :: g in o.reported && 0 < g <= o.generation)
    && (o.stopped ==> o.documents == map[] && o.activeHandle.None?)
    && (o.activeHandle.Some? ==>
          var h := o.activeHandle.value;
          Current(o, h) && h in o.attempts && o.attempts[h].Ready? && o.documents == o.reported[h])
    && (o.open == if o.activeHandle.Some? then {o.activeHandle.value} else {})
    && (Current(o, o.generation) && o.generation in o.attempts ==>
          match o.attempts[o.generation]
          case Initializing(pending) => pending == o.reported[o.generation]
          case Ready => o.activeHandle == Some(o.generation)
          case Dropped => o.documents == map[])
  }

  lemma StepKeeps(o: Observer, event: Event)
    requires Inv(o)
    ensures Inv(Step(o, event).0)
  {
  }

  lemma {:induction false} RunKeepsInv(events: seq<Event>)
    ensures Inv(Run(INITIAL, events))
  {
    if events != [] {
      RunKeepsInv(events[..|events| - 1]);
      StepKeeps(Run(INITIAL, events[..|events| - 1]), events[|events| - 1]);
    }
  }

  // In every interleaving: the active observer's documents are exactly what it has reported, it is
  // the one handle left open, and nothing is shown after stop.
  lemma {:induction false} ShownIsReported(events: seq<Event>)
    ensures var o := Run(INITIAL, events);
      && (o.activeHandle.Some? ==>
            && o.activeHandle.value == o.generation && !o.stopped && o.generation in o.reported
            && o.documents == o.reported[o.generation])
      && o.open == (if o.activeHandle.Some? then {o.activeHandle.value} else {})
      && (o.stopped ==> o.documents == map[] && o.open == {})
  {
    RunKeepsInv(events);
  }

  // A callback of a replaced, stopped or still initializing observer neither changes the documents
  // nor announces any.
  lemma {:induction false} StaleCallbackInert(events: seq<Event>, generation: nat, callback: Callback)
    ensures var o := Run(INITIAL, events);
      var (o', notification) := Step(o, Observed(generation, callback));
      o.activeHandle != Some(generation) ==> o'.documents == o.documents && notification.None?
  {
    RunKeepsInv(events);
  }

  // Only the latest restart can take over, and it takes over with everything it reported meanwhile.
  lemma {:induction false} LatestRestartTakesOver(events: seq<Event>, generation: nat)
    requires Enabled(Run(INITIAL, events), Completed(generation))
    ensures var o := Run(INITIAL, events);
      var (o', notification) := Step(o, Completed(generation));
      if Current(o, generation)
      then generation in o.reported && o'.documents == o.reported[generation]
           && o'.activeHandle == Some(generation) && notification == Some(o'.documents)
      else o'.documents == o.documents && generation !in o'.open && notification.None?
  {
    RunKeepsInv(events);
  }

  // A callback of the active observer is applied and announced; a restart without a cursor announces the
  // empty set, and one with a cursor leaves the documents as they are until it has started.
  lemma {:induction false} ActiveIsAnnounced(events: seq<Event>, generation: nat, callback: Callback)
    ensures var o := Run(INITIAL, events);
      var (o', notification) := Step(o, Observed(generation, callback));
      o.activeHandle == Some(generation) ==>
        o'.documents == ApplyCallback(o.documents, callback) && notification == Some(o'.documents)
    ensures var (o', notification) := Step(Run(INITIAL, events), RestartNull);
      o'.documents == map[] && notification == Some(map[]) && o'.activeHandle.None? && o'.open == {}
    ensures var o := Run(INITIAL, events);
      var (o', notification) := Step(o, RestartScope);
      && o'.documents == o.documents && notification.None? && o'.activeHandle.None? && o'.open == {}
      && o'.generation in o'.attempts && o'.attempts[o'.generation] == Initializing(map[])
  {
    RunKeepsInv(events);
    StepKeeps(Run(INITIAL, events), RestartNull);
    StepKeeps(Run(INITIAL, events), RestartScope);
    hide ApplyCallback;
  }

  // ---------------------------------------------------------------- what callbacks add up to

  function Replay(callbacks: seq<Callback>): Documents {
    if callbacks == [] then map[] else ApplyCallback(Replay(callbacks[..|callbacks| - 1]), callbacks[|callbacks| - 1])
  }

  // The callback decides alone what the document's field is.
  predicate Settles(callback: Callback, id: string, field: string) {
    callback.id == id && (callback.DocumentChanged? ==> field in callback.fields)
  }

  ghost predicate LastAbout(callbacks: seq<Callback>, i: nat, id: string) {
    i < |callbacks| && callbacks[i].id == id && forall j :: i < j < |callbacks| ==> callbacks[j].id != id
  }

  // A document is known exactly when the last callback about it is no removal.
  lemma {:induction false} KnownIff(callbacks: seq<Callback>, id: string)
    ensures id in Replay(callbacks) <==> exists i: nat :: LastAbout(callbacks, i, id) && !callbacks[i].DocumentRemoved?
  {
    hide ApplyFields;
    if callbacks != [] {
      var n := |callbacks| - 1;
      var front, last := callbacks[..n], callbacks[n];
      KnownIff(front, id);
      if last.id == id {
        assert LastAbout(callbacks, n, id);
      } else {
        assert id in Replay(callbacks) <==> id in Replay(front);
        assert forall i: nat :: LastAbout(front, i, id) <==> LastAbout(callbacks, i, id);
      }
    }
  }

  // A known document's field is what the last callback that decides it says: the given value, nothing for
  // undefined or after the document began anew without it, and the identifier for _id.
  lemma {:induction false} FieldIsLastWord(callbacks: seq<Callback>, i: nat, id: string, field: string)
    requires i < |callbacks| && Settles(callbacks[i], id, field)
    requires forall j :: i < j < |callbacks| ==> !Settles(callbacks[j], id, field)
    requires id in Replay(callbacks)
    ensures var document := Replay(callbacks)[id];
      match callbacks[i]
      case DocumentChanged(_, fields) =>
        if fields[field].Undefined? then field !in document else field in document && document[field] == fields[field]
      case DocumentAdded(_, fields) =>
        if field in fields then field in document && document[field] == fields[field]
        else if field == "_id" then field in document && document[field] == Val(id)
        else field !in document
      case DocumentRemoved(_) =>
        if field == "_id" then field in document && document[field] == Val(id) else field !in document
  {
    var n := |callbacks| - 1;
    var front, last := callbacks[..n], callbacks[n];
    if i < n {
      assert front[i] == callbacks[i] && !Settles(last, id, field);
      if id in Replay(front) {
        FieldIsLastWord(front, i, id, field);
      } else {
        assert last.DocumentChanged? && last.id == id;
        UnknownMeansRemoved(front, i, id, field);
      }
    }
  }

  lemma {:induction false} UnknownMeansRemoved(callbacks: seq<Callback>, i: nat, id: string, field: string)
    requires i < |callbacks| && Settles(callbacks[i], id, field) && id !in Replay(callbacks)
    requires forall j :: i < j < |callbacks| ==> !Settles(callbacks[j], id, field)
    ensures callbacks[i].DocumentRemoved?
  {
    hide ApplyFields;
    if i < |callbacks| - 1 {
      var front, last := callbacks[..|callbacks| - 1], callbacks[|callbacks| - 1];
      assert front[i] == callbacks[i] && !Settles(last, id, field);
      UnknownMeansRemoved(front, i, id, field);
    }
  }

  // ---------------------------------------------------------------- the closure with its variables

  class RestartableDocumentObserver {
    var activeHandle: Option<nat>
    var documents: Documents
    var generation: nat
    var stopped: bool
    // The variables each restart closes over, and the handles not stopped yet.
    var attempts: map<nat, Attempt>
    var open: set<nat>
    ghost var reported: map<nat, Documents>

    ghost function State(): Observer
      reads this
    {
      Observer(activeHandle, documents, generation, stopped, attempts, open, reported)
    }

    ghost predicate Valid()
      reads this
    {
      Inv(State())
    }

    constructor ()
      ensures State() == INITIAL && Valid()
    {
      activeHandle, documents, generation, stopped := None, map[], 0, false;
      attempts, open, reported := map[], {}, map[];
    }

    // restart up to its first await; scoped says whether the scope has a cursor.
    method Restart(scoped: bool) returns (notification: Notification)
      requires Valid()
      modifies this
      ensures Valid()
      ensures (State(), notification) == Step(old(State()), if scoped then RestartScope else RestartNull)
    {
      generation := generation + 1;
      if activeHandle.Some? {
        open := open - {activeHandle.value};
      }
      activeHandle := None;
      if !scoped {
        documents := map[];
        notification := Some(documents);
      } else {
        attempts := attempts[generation := Initializing(map[])];
        reported := reported[generation := map[]];
        notification := None;
      }
      StepKeeps(old(State()), if scoped then RestartScope else RestartNull);
    }

    method OnObserved(current: nat, callback: Callback) returns (notification: Notification)
      requires Valid() && Enabled(State(), Observed(current, callback))
      modifies this
      ensures Valid()
      ensures (State(), notification) == Step(old(State()), Observed(current, callback))
    {
      StepKeeps(State(), Observed(current, callback));
      notification := None;
      reported := reported[current := ApplyCallback(reported[current], callback)];
      if stopped || current != generation {
        return;
      }
      match attempts[current] {
        case Initializing(pending) =>
          var updated := Apply(pending, callback);
          attempts := attempts[current := Initializing(updated)];
        case Dropped =>
        case Ready =>
          documents := Apply(documents, callback);
          notification := Some(documents);
      }
    }

    // observeChangesAsync resolved for the restart with this generation.
    method OnResolved(current: nat) returns (notification: Notification)
      requires Valid() && Enabled(State(), Completed(current))
      modifies this
      ensures Valid()
      ensures (State(), notification) == Step(old(State()), Completed(current))
    {
      StepKeeps(State(), Completed(current));
      open := open + {current};
      if stopped || current != generation {
        assert current !in old(open);
        open := open - {current};
        attempts := attempts[current := Dropped];
        notification := None;
      } else {
        documents := attempts[current].pending;
        activeHandle := Some(current);
        attempts := attempts[current := Ready];
        notification := Some(documents);
      }
    }

    method OnRejected(current: nat)
      requires Valid() && Enabled(State(), Failed(current))
      modifies this
      ensures Valid()
      ensures State() == Step(old(State()), Failed(current)).0
    {
      StepKeeps(State(), Failed(current));
      attempts := attempts[current := Dropped];
      if !stopped && current == generation {
        documents := map[];
      }
    }

    method Halt()
      requires Valid()
      modifies this
      ensures Valid()
      ensures State() == Step(old(State()), Stop).0
    {
      StepKeeps(State(), Stop);
      if !stopped {
        stopped := true;
        generation := generation + 1;
        if activeHandle.Some? {
          open := open - {activeHandle.value};
        }
        activeHandle := None;
        documents := map[];
      }
    }
  }
}
