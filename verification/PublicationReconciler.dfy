// The publication reconciler of imports/utils/reactivePublication.js: it diffs a complete desired
// set against what it last published and emits added, changed and removed messages.
module PublicationReconciler {
  // An own property may hold undefined explicitly; a missing property reads as undefined too.
  datatype Value = Undefined | Val(content: string)

  type Fields = map<string, Value>

  type Documents = map<string, Fields>

  datatype Message = Added(id: string, fields: Fields) | Changed(id: string, fields: Fields) | Removed(id: string)

  // ---------------------------------------------------------------- the client

  // What a client can see of a document: its fields that hold a value.
  type Shown = map<string, string>

  function Visible(fields: Fields): Shown {
    map k | k in fields && fields[k].Val? :: fields[k].content
  }

  function VisibleDocuments(documents: Documents): map<string, Shown> {
    map id | id in documents :: Visible(documents[id])
  }

  function Merge(shown: Shown, fields: Fields): Shown {
    map k | k in shown.Keys + fields.Keys && (k in fields ==> fields[k].Val?)
      :: if k in fields then fields[k].content else shown[k]
  }

  predicate WellFormed(client: map<string, Shown>, message: Message) {
    match message
    case Added(id, _) => id !in client
    case Changed(id, _) => id in client
    case Removed(id) => id in client
  }

  function Receive(client: map<string, Shown>, message: Message): map<string, Shown> {
    match message
    case Added(id, fields) => client[id := Visible(fields)]
    case Changed(id, fields) => if id in client then client[id := Merge(client[id], fields)] else client
    case Removed(id) => client - {id}
  }

  function View(messages: seq<Message>): map<string, Shown> {
    if messages == [] then map[]
    else Receive(View(messages[..|messages| - 1]), messages[|messages| - 1])
  }

  ghost predicate AllWellFormed(messages: seq<Message>) {
    forall i :: 0 <= i < |messages| ==> WellFormed(View(messages[..i]), messages[i])
  }

  // ---------------------------------------------------------------- the difference of two documents

  function Get(fields: Fields, key: string): Value {
    if key in fields then fields[key] else Undefined
  }

  function FieldChanges(previous: Fields, current: Fields): Fields {
    map k | k in previous.Keys + current.Keys && (k !in current || Get(previous, k) != current[k]) :: Get(current, k)
  }

  method ChangedPublicationFields(previous: Fields, current: Fields) returns (changes: Fields)
    ensures changes == FieldChanges(previous, current)
    ensures Merge(Visible(previous), changes) == Visible(current)
    ensures changes == map[] ==> Visible(previous) == Visible(current)
  {
    changes := map[];
    var keys := previous.Keys + current.Keys;
    while keys != {}
      invariant keys <= previous.Keys + current.Keys
      invariant changes == map k | k in FieldChanges(previous, current) && k !in keys :: Get(current, k)
    {
      var key :| key in keys;
      keys := keys - {key};
      if key !in current {
        changes := changes[key := Undefined];
      } else if Get(previous, key) != current[key] {
        changes := changes[key := current[key]];
      }
    }
    MergeChanges(previous, current);
  }

  // Applying the difference to what the client shows gives what it should show, field for field.
  lemma MergeChanges(previous: Fields, current: Fields)
    ensures Merge(Visible(previous), FieldChanges(previous, current)) == Visible(current)
    ensures FieldChanges(previous, current) == map[] ==> Visible(previous) == Visible(current)
  {
  }

  // The difference holds nothing superfluous: every listed field really changed.
  lemma ChangesAreChanges(previous: Fields, current: Fields, key: string)
    requires key in FieldChanges(previous, current)
    ensures key !in current || Get(previous, key) != Get(current, key)
  {
  }

  lemma {:induction false} Extend(messages: seq<Message>, message: Message)
    requires AllWellFormed(messages) && WellFormed(View(messages), message)
    ensures AllWellFormed(messages + [message])
    ensures View(messages + [message]) == Receive(View(messages), message)
  {
    var all := messages + [message];
    assert all[..|messages|] == messages;
    forall i | 0 <= i < |all| ensures WellFormed(View(all[..i]), all[i]) {
      assert i < |messages| ==> all[..i] == messages[..i];
    }
  }

  // ---------------------------------------------------------------- the reconciler

  class Reconciler {
    var published: Documents
    // The added, changed and removed calls made so far, in order.
    var sent: seq<Message>

    // Folding every message ever sent gives what is published, and each message was legal in turn.
    ghost predicate Valid()
      reads this
    {
      AllWellFormed(sent) && View(sent) == VisibleDocuments(published)
    }

    constructor ()
      ensures Valid() && published == map[] && sent == []
    {
      published, sent := map[], [];
    }

    method Reconcile(desired: Documents)
      requires Valid()
      modifies this
      ensures Valid()
      ensures published == desired
      ensures old(sent) <= sent
      ensures View(sent) == VisibleDocuments(desired)
      ensures forall i :: |old(sent)| <= i < |sent| ==> Justified(old(published), desired, sent[i])
    {
      RemoveUndesired(desired);
      PublishDesired(desired, published.Keys, old(published));
      assert published == desired;
    }

    method PublishDesired(desired: Documents, ghost kept: set<string>, ghost before: Documents)
      requires Valid() && published.Keys == kept && kept <= desired.Keys
      requires forall id :: id in before && id in desired <==> id in published
      requires forall id <- published :: published[id] == before[id]
      modifies this
      ensures Valid() && published.Keys == desired.Keys
      ensures forall id <- published :: published[id] == desired[id]
      ensures old(sent) <= sent
      ensures forall i :: |old(sent)| <= i < |sent| ==> Justified(before, desired, sent[i])
    {
      var ids := desired.Keys;
      while ids != {}
        invariant Valid() && ids <= desired.Keys
        invariant forall id :: id in published <==> id in kept || (id in desired && id !in ids)
        invariant forall id <- published :: if id in ids then id in before && published[id] == before[id] else published[id] == desired[id]
        invariant old(sent) <= sent
        invariant forall i :: |old(sent)| <= i < |sent| ==> Justified(before, desired, sent[i])
      {
        var id :| id in ids;
        ids := ids - {id};
        Publish(id, desired[id]);
      }
    }

    // Every message names a document that has to appear, to go, or to change.
    static predicate Justified(before: Documents, desired: Documents, message: Message) {
      match message
      case Added(id, fields) => id !in before && id in desired && fields == desired[id]
      case Changed(id, fields) =>
        id in before && id in desired && fields != map[] && fields == FieldChanges(before[id], desired[id])
      case Removed(id) => id in before && id !in desired
    }

    method RemoveUndesired(desired: Documents)
      requires Valid()
      modifies this
      ensures Valid()
      ensures forall id :: id in published <==> id in old(published) && id in desired
      ensures forall id <- published :: published[id] == old(published)[id]
      ensures old(sent) <= sent
      ensures forall i :: |old(sent)| <= i < |sent| ==> Justified(old(published), desired, sent[i])
    {
      var ids := published.Keys;
      while ids != {}
        invariant Valid()
        invariant forall id :: id in published <==> id in old(published) && (id in desired || id in ids)
        invariant forall id <- published :: published[id] == old(published)[id]
        invariant old(sent) <= sent
        invariant forall i :: |old(sent)| <= i < |sent| ==> Justified(old(published), desired, sent[i])
      {
        var id :| id in ids;
        ids := ids - {id};
        if id in published && id !in desired {
          Retract(id);
        }
      }
    }

    method Retract(id: string)
      requires Valid() && id in published
      modifies this
      ensures Valid() && published == old(published) - {id} && sent == old(sent) + [Removed(id)]
    {
      Extend(sent, Removed(id));
      assert VisibleDocuments(published - {id}) == VisibleDocuments(published) - {id};
      sent := sent + [Removed(id)];
      published := published - {id};
    }

    method Publish(id: string, fields: Fields)
      requires Valid()
      modifies this
      ensures Valid() && published == old(published)[id := fields]
      ensures sent == old(sent)
           || (id !in old(published) && sent == old(sent) + [Added(id, fields)])
           || (id in old(published) && FieldChanges(old(published)[id], fields) != map[]
               && sent == old(sent) + [Changed(id, FieldChanges(old(published)[id], fields))])
    {
      assert VisibleDocuments(published[id := fields]) == VisibleDocuments(published)[id := Visible(fields)];
      if id !in published {
        Extend(sent, Added(id, fields));
        sent := sent + [Added(id, fields)];
      } else {
        var updates := ChangedPublicationFields(published[id], fields);
        if updates != map[] {
          Extend(sent, Changed(id, updates));
          sent := sent + [Changed(id, updates)];
        }
      }
      published := published[id := fields];
    }

    method RemoveAll()
      requires Valid()
      modifies this
      ensures Valid() && published == map[] && old(sent) <= sent && View(sent) == map[]
    {
      Reconcile(map[]);
    }
  }

  // Whatever sets are reconciled one after another, starting from an empty client: the messages are
  // legal throughout and leave the client with the last set.
  method ReconcileAll(desired: seq<Documents>) returns (messages: seq<Message>)
    ensures AllWellFormed(messages)
    ensures View(messages) == if desired == [] then map[] else VisibleDocuments(desired[|desired| - 1])
  {
    var reconciler := new Reconciler();
    for i := 0 to |desired|
      invariant reconciler.Valid()
      invariant reconciler.published == if i == 0 then map[] else desired[i - 1]
    {
      reconciler.Reconcile(desired[i]);
    }
    messages := reconciler.sent;
  }
}
