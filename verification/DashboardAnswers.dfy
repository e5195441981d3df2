// What the public dashboard publication shows: an undisturbed refresh puts exactly the public fields of
// what its observer reports before the client, and every other way for it to end is told apart.
module DashboardAnswers {
  import opened Options
  import opened PublicationReconciler
  import opened RestartableObserver
  import opened DashboardPublication

  // ---------------------------------------------------------------- what is shown

  predicate Streams(dashboard: Option<Dashboard>, password: Value) {
    && dashboard.Some? && dashboard.value.projectId.Some?
    && dashboard.value.timePeriod in {"currentMonth", "currentWeek", "currentYear", "lastMonth", "last3months", "lastWeek",
                                      "lastYear", "custom"}
    && (dashboard.value.projectId == Some("all") ==> dashboard.value.allProjectsAuthorized)
    && dashboard.value.password == password
  }

  predicate IsPublic(field: string) {
    field in {"userId", "projectId", "date", "dateOnly", "startTime", "hours", "task", "dateRevision"}
  }

  // The same documents, each with exactly its public fields.
  ghost predicate ShowsPublic(reported: Documents, published: Documents) {
    && published.Keys == reported.Keys
    && forall id <- published ::
         && (forall k :: k in published[id] <==> k in reported[id] && IsPublic(k))
         && (forall k <- published[id] :: published[id][k] == reported[id][k])
  }

  lemma SafeIsPublic(documents: Documents)
    ensures ShowsPublic(documents, SafeDocuments(documents))
  {
  }

  // ---------------------------------------------------------------- how a refresh goes on

  // A refresh begins with every change of the dashboard.
  lemma ChangeBeginsRefresh(expectedPassword: Value, p: Publication, dashboard: Option<Dashboard>)
    ensures var t := Next(expectedPassword, p, DashboardObserved(dashboard));
      && t.dashboard == dashboard && t.stopped == p.stopped && t.failed == p.failed
      && t.refreshGeneration == p.refreshGeneration + 1
      && t.refreshGeneration in t.refreshes && t.refreshes[t.refreshGeneration] == AwaitingClear
  {
  }

  // A change of the projects begins one once they are initialized, and too many of them fail the publication.
  lemma ProjectsBeginRefresh(expectedPassword: Value, p: Publication, count: nat)
    requires !p.stopped && !p.failed
    ensures var t := Next(expectedPassword, p, ProjectsObserved(count));
      && (t.failed <==> count > 500)
      && (t.failed ==> t.published == map[] && t.refreshGeneration == p.refreshGeneration)
      && (!t.failed && !p.projectInitialized ==> t == p)
      && (!t.failed && p.projectInitialized ==>
            && t.dashboard == p.dashboard && t.refreshGeneration == p.refreshGeneration + 1
            && t.refreshGeneration in t.refreshes && t.refreshes[t.refreshGeneration] == AwaitingClear)
  {
  }

  // The first refresh begins like any other, and from then on the projects count: once they are initialized
  // every change of them begins a refresh, unless they are too many.
  lemma ProjectsCount(expectedPassword: Value, p: Publication, count: nat)
    requires !p.stopped && !p.failed && count <= 500
    ensures var t := Next(expectedPassword, Next(expectedPassword, p, ProjectsInitialized), ProjectsObserved(count));
      && t.dashboard == p.dashboard && t.refreshGeneration == p.refreshGeneration + 1
      && t.refreshGeneration in t.refreshes && t.refreshes[t.refreshGeneration] == AwaitingClear
    ensures var t := Next(expectedPassword, p, FirstRefresh);
      && t.dashboard == p.dashboard && t.refreshGeneration == p.refreshGeneration + 1
      && t.refreshGeneration in t.refreshes && t.refreshes[t.refreshGeneration] == AwaitingClear
  {
  }

  // A publication that has stopped or failed neither fails again nor shows anything more.
  lemma OverIsOver(expectedPassword: Value, p: Publication, event: PublicationEvent)
    requires p.stopped || (p.failed && p.authorizedGeneration == 0 && p.refreshGeneration > 0)
    ensures var t := Next(expectedPassword, p, event);
      t.failed == p.failed && (p.stopped ==> t.stopped) && (t.published == p.published || t.published == map[])
  {
    hide Step, SafeDocuments, Authorized;
    match event
    case DashboardObserved(_) =>
    case ProjectsObserved(_) =>
    case SelectorResolved(_, _) =>
    case SubscriptionStopped =>
    case _ =>
  }

  // A resumed refresh goes on exactly if it is still the latest, nothing has stopped or failed, and the
  // dashboard may be streamed with the password it was opened with.
  lemma ResumeIff(expectedPassword: Value, p: Publication, refresh: nat)
    requires refresh in p.refreshes && p.refreshes[refresh] == AwaitingClear
    ensures var t := Next(expectedPassword, p, RefreshResumed(refresh));
      if !p.stopped && !p.failed && refresh == p.refreshGeneration && Streams(p.dashboard, expectedPassword)
      then t == p.(refreshes := p.refreshes[refresh := AwaitingSelector(p.dashboard.value)])
      else t == p.(refreshes := p.refreshes[refresh := Ended])
  {
  }

  // ---------------------------------------------------------------- the stages of the latest refresh

  predicate Latest(p: Publication, r: nat) {
    !p.stopped && !p.failed && r == p.refreshGeneration && r in p.refreshes && r > 0
  }

  // The timecard observer was cleared, and its next one will be g.
  predicate Unobserved(p: Publication, g: nat) {
    p.observer.generation + 1 == g && p.observer.generation !in p.observer.attempts && !p.observer.stopped
  }

  predicate Clearing(expectedPassword: Value, p: Publication, r: nat, g: nat) {
    Latest(p, r) && p.refreshes[r].AwaitingClear? && Streams(p.dashboard, expectedPassword) && Unobserved(p, g)
  }

  predicate Selecting(p: Publication, r: nat, g: nat) {
    Latest(p, r) && p.refreshes[r].AwaitingSelector? && Unobserved(p, g)
  }

  predicate Starting(p: Publication, r: nat, g: nat, heard: Documents) {
    && Latest(p, r) && p.refreshes[r].Ended? && p.authorizedGeneration == r
    && p.observer.generation == g && !p.observer.stopped && p.published == map[]
    && g in p.observer.attempts && p.observer.attempts[g] == Initializing(heard)
    && g in p.observer.reported && p.observer.reported[g] == heard
  }

  ghost predicate Shown(p: Publication, r: nat, g: nat, heard: Documents) {
    && Latest(p, r) && p.refreshes[r].Ended? && p.authorizedGeneration == r
    && p.observer.generation == g && !p.observer.stopped
    && g in p.observer.attempts && p.observer.attempts[g].Ready? && p.observer.documents == heard
    && g in p.observer.reported && p.observer.reported[g] == heard
    && ShowsPublic(heard, p.published)
  }

  // What would get in the way of refresh r and its observer g.
  predicate Disturbs(event: PublicationEvent, r: nat, g: nat) {
    match event
    case DashboardObserved(_) => true
    case ProjectsObserved(_) => true
    case FirstRefresh => true
    case SubscriptionStopped => true
    case SelectorResolved(refresh, outcome) => refresh == r && !outcome.Computed?
    case ObserverFailed(h) => h == g
    case _ => false
  }

  // What observer g has reported by an event.
  function Hearing(heard: Documents, event: PublicationEvent, g: nat): Documents {
    if event.TimecardsObserved? && event.generation == g then ApplyCallback(heard, event.callback) else heard
  }

  // What observer g has reported by these events, starting with nothing.
  function Heard(events: seq<PublicationEvent>, g: nat): Documents {
    if events == [] then map[] else Hearing(Heard(events[..|events| - 1], g), events[|events| - 1], g)
  }

  function CallbacksOf(events: seq<PublicationEvent>, g: nat): seq<Callback> {
    if events == [] then []
    else
      var last := events[|events| - 1];
      CallbacksOf(events[..|events| - 1], g)
      + if last.TimecardsObserved? && last.generation == g then [last.callback] else []
  }

  // That is the replay of its callbacks and nothing else.
  lemma {:induction false} HeardIsReplay(events: seq<PublicationEvent>, g: nat)
    ensures Heard(events, g) == Replay(CallbacksOf(events, g))
  {
    if events != [] {
      HeardIsReplay(events[..|events| - 1], g);
      var all := CallbacksOf(events, g);
      assert |all| > 0 ==> all[..|all| - 1] + [all[|all| - 1]] == all;
      var last := events[|events| - 1];
      if last.TimecardsObserved? && last.generation == g {
        assert all[..|all| - 1] == CallbacksOf(events[..|events| - 1], g);
      } else {
        assert all == CallbacksOf(events[..|events| - 1], g);
      }
      hide ApplyCallback;
    }
  }

  // ---------------------------------------------------------------- nothing else interferes

  // A refresh that is still waiting has cleared the observer.
  ghost predicate Cleared(p: Publication) {
    && p.observer.stopped == p.stopped
    && (!p.stopped && p.refreshGeneration in p.refreshes && !p.refreshes[p.refreshGeneration].Ended? ==>
          p.observer.generation !in p.observer.attempts)
  }

  lemma {:induction false} RestartClears(p: Publication)
    requires Inv(p.observer) && p.observer.stopped == p.stopped
    ensures Cleared(BeginRefresh(p))
  {
  }

  lemma {:induction false} StartKeepsCleared(expectedPassword: Value, p: Publication, refresh: nat, outcome: SelectorOutcome)
    requires Cleared(p)
    ensures Cleared(StartObserver(p, refresh, outcome))
  {
  }

  lemma {:induction false} ObserverKeepsCleared(p: Publication, event: Event)
    requires Cleared(p) && Inv(p.observer) && (event.Observed? || event.Completed? || event.Failed?)
    ensures Cleared(OnTimecards(p, event))
  {
    ObserverStep(p.observer, event);
    StopsOnlyOnce(p.observer, event);
    hide Step;
  }

  lemma {:induction false} StopsOnlyOnce(o: Observer, event: Event)
    requires event.Observed? || event.Completed? || event.Failed?
    ensures Step(o, event).0.stopped == o.stopped
  {
    hide ApplyCallback;
  }

  lemma {:induction false} NextKeepsCleared(expectedPassword: Value, p: Publication, event: PublicationEvent)
    requires Cleared(p) && Inv(p.observer)
    ensures Cleared(Next(expectedPassword, p, event))
  {
    hide Inv, Step;
    match event
    case DashboardObserved(dashboard) => RestartClears(p.(dashboard := dashboard, published := map[]));
    case ProjectsObserved(count) => RestartClears(p.(published := map[]));
    case FirstRefresh => RestartClears(p);
    case SelectorResolved(refresh, outcome) => StartKeepsCleared(expectedPassword, p, refresh, outcome);
    case TimecardsObserved(g, callback) => ObserverKeepsCleared(p, Observed(g, callback));
    case ObserverStarted(g) => ObserverKeepsCleared(p, Completed(g));
    case ObserverFailed(g) => ObserverKeepsCleared(p, Failed(g));
    case SubscriptionStopped => StopClears(expectedPassword, p);
    case _ =>
  }

  lemma {:induction false} StopClears(expectedPassword: Value, p: Publication)
    requires Cleared(p)
    ensures Cleared(Next(expectedPassword, p, SubscriptionStopped))
  {
  }

  lemma {:induction false} RunKeepsCleared(expectedPassword: Value, events: seq<PublicationEvent>)
    ensures Cleared(After(expectedPassword, events))
  {
    if events != [] {
      RunKeepsCleared(expectedPassword, events[..|events| - 1]);
      RunKeepsPublication(expectedPassword, events[..|events| - 1]);
      hide Cleared, Next;
      NextKeepsCleared(expectedPassword, After(expectedPassword, events[..|events| - 1]), events[|events| - 1]);
    }
  }

  predicate OfObserver(event: PublicationEvent) {
    event.TimecardsObserved? || event.ObserverStarted? || event.ObserverFailed?
  }

  // While there is no observer, what earlier ones do is not shown.
  lemma {:induction false} EarlierObservers(expectedPassword: Value, p: Publication, event: PublicationEvent, g: nat)
    requires Unobserved(p, g) && Inv(p.observer) && OfObserver(event)
    ensures var t := Next(expectedPassword, p, event);
      Unobserved(t, g) && t == p.(observer := t.observer)
  {
    hide ApplyCallback;
  }

  lemma {:induction false} ClearingGoesOn(expectedPassword: Value, p: Publication, event: PublicationEvent, r: nat, g: nat)
    requires Clearing(expectedPassword, p, r, g) && !Disturbs(event, r, g) && Inv(p.observer)
    ensures var t := Next(expectedPassword, p, event);
      if event == RefreshResumed(r) then Selecting(t, r, g) else Clearing(expectedPassword, t, r, g)
  {
    if OfObserver(event) {
      EarlierObservers(expectedPassword, p, event, g);
      hide Next;
    } else if event.RefreshResumed? && event.refresh in p.refreshes && p.refreshes[event.refresh] == AwaitingClear {
      ResumeIff(expectedPassword, p, event.refresh);
      hide Next;
    }
  }

  lemma {:induction false} SelectingGoesOn(expectedPassword: Value, p: Publication, event: PublicationEvent, r: nat, g: nat)
    requires Selecting(p, r, g) && !Disturbs(event, r, g) && PublicationInv(expectedPassword, p)
    ensures var t := Next(expectedPassword, p, event);
      if event == SelectorResolved(r, Computed) then Starting(t, r, g, map[]) else Selecting(t, r, g)
  {
    if OfObserver(event) {
      EarlierObservers(expectedPassword, p, event, g);
      hide Next;
    } else if event.SelectorResolved? && event.refresh == r {
      assert p.published == map[];
      assert StartObserver(p, r, Computed).observer.attempts[g] == Initializing(map[]);
    }
  }

  lemma {:induction false} StartingGoesOn(expectedPassword: Value, p: Publication, event: PublicationEvent, r: nat, g: nat,
                                          heard: Documents)
    requires Starting(p, r, g, heard) && !Disturbs(event, r, g)
    requires event == ObserverStarted(g) ==> |heard| <= 5000
    ensures var t := Next(expectedPassword, p, event);
      if event == ObserverStarted(g) then Shown(t, r, g, heard) else Starting(t, r, g, Hearing(heard, event, g))
  {
    hide ApplyCallback, ShowsPublic;
    SafeIsPublic(heard);
  }

  lemma {:induction false} ShownGoesOn(expectedPassword: Value, p: Publication, event: PublicationEvent, r: nat, g: nat,
                                       heard: Documents)
    requires Shown(p, r, g, heard) && !Disturbs(event, r, g) && |Hearing(heard, event, g)| <= 5000
    ensures Shown(Next(expectedPassword, p, event), r, g, Hearing(heard, event, g))
  {
    hide ApplyCallback, ShowsPublic;
    SafeIsPublic(Hearing(heard, event, g));
  }

  // What observer g reports beyond the limit fails the publication for good and empties the client.
  lemma {:induction false} TooManyFail(expectedPassword: Value, p: Publication, event: PublicationEvent, r: nat, g: nat,
                                       heard: Documents)
    requires if event == ObserverStarted(g) then Starting(p, r, g, heard) else Shown(p, r, g, heard)
    requires event == ObserverStarted(g) || (event.TimecardsObserved? && event.generation == g)
    requires |Hearing(heard, event, g)| > 5000
    ensures var t := Next(expectedPassword, p, event); t.failed && t.published == map[]
  {
    hide ApplyCallback, ShowsPublic;
  }

  // ---------------------------------------------------------------- the latest refresh, left alone

  // Refresh r and its observer g get through: they resume at a, have their selector at b, start at c.
  ghost predicate GetsThrough(rest: seq<PublicationEvent>, r: nat, g: nat, a: nat, b: nat, c: nat) {
    && a < b < c < |rest|
    && rest[a] == RefreshResumed(r) && rest[b] == SelectorResolved(r, Computed) && rest[c] == ObserverStarted(g)
    && (forall i :: 0 <= i < |rest| ==> !Disturbs(rest[i], r, g))
    && (forall i :: 0 <= i < |rest| && i != b ==> rest[i] != SelectorResolved(r, Computed))
    && (forall i :: 0 <= i < |rest| && i != c ==> rest[i] != ObserverStarted(g))
  }

  // What observer g has reported after n of these events.
  ghost function HeardBy(rest: seq<PublicationEvent>, g: nat, b: nat, n: nat): Documents
    requires b < n <= |rest|
  {
    Heard(rest[b + 1..n], g)
  }

  // Once it has started, observer g never reports more than the limit.
  ghost predicate WithinLimit(rest: seq<PublicationEvent>, g: nat, b: nat, c: nat)
    requires b < c
  {
    forall m :: c < m <= |rest| ==> |HeardBy(rest, g, b, m)| <= 5000
  }

  lemma HeardOneMore(rest: seq<PublicationEvent>, g: nat, b: nat, n: nat)
    requires b < n < |rest|
    ensures HeardBy(rest, g, b, n + 1) == Hearing(HeardBy(rest, g, b, n), rest[n], g)
  {
    var longer := rest[b + 1..n + 1];
    assert longer[..|longer| - 1] == rest[b + 1..n] && longer[|longer| - 1] == rest[n];
  }

  ghost predicate StageAfter(expectedPassword: Value, p: Publication, rest: seq<PublicationEvent>, r: nat, g: nat,
                             a: nat, b: nat, c: nat, n: nat)
    requires n <= |rest|
  {
    if n <= a then Clearing(expectedPassword, p, r, g) || Selecting(p, r, g)
    else if n <= b then Selecting(p, r, g)
    else if n <= c then Starting(p, r, g, HeardBy(rest, g, b, n))
    else Shown(p, r, g, HeardBy(rest, g, b, n))
  }

  lemma {:induction false} StageStep(expectedPassword: Value, p: Publication, rest: seq<PublicationEvent>, r: nat, g: nat,
                                     a: nat, b: nat, c: nat, n: nat)
    requires GetsThrough(rest, r, g, a, b, c) && n < |rest| && PublicationInv(expectedPassword, p)
    requires StageAfter(expectedPassword, p, rest, r, g, a, b, c, n)
    requires n >= c ==> |HeardBy(rest, g, b, n + 1)| <= 5000
    ensures StageAfter(expectedPassword, Next(expectedPassword, p, rest[n]), rest, r, g, a, b, c, n + 1)
  {
    hide Clearing, Selecting, Starting, Shown, Next, HeardBy, PublicationInv;
    if n > b { HeardOneMore(rest, g, b, n); }
    if n == b { NothingHeard(rest, g, b); }
    if n <= a && Clearing(expectedPassword, p, r, g) {
      ObserverIsSound(expectedPassword, p);
      ClearingGoesOn(expectedPassword, p, rest[n], r, g);
    } else if n <= b {
      SelectingGoesOn(expectedPassword, p, rest[n], r, g);
    } else if n <= c {
      StartingGoesOn(expectedPassword, p, rest[n], r, g, HeardBy(rest, g, b, n));
    } else {
      ShownGoesOn(expectedPassword, p, rest[n], r, g, HeardBy(rest, g, b, n));
    }
  }

  lemma NothingHeard(rest: seq<PublicationEvent>, g: nat, b: nat)
    requires b < |rest|
    ensures HeardBy(rest, g, b, b + 1) == map[]
  {
  }

  lemma ObserverIsSound(expectedPassword: Value, p: Publication)
    requires PublicationInv(expectedPassword, p)
    ensures Inv(p.observer)
  {
  }

  lemma FirstStage(expectedPassword: Value, p: Publication, rest: seq<PublicationEvent>, r: nat, g: nat, a: nat, b: nat, c: nat)
    requires Clearing(expectedPassword, p, r, g)
    ensures StageAfter(expectedPassword, p, rest, r, g, a, b, c, 0)
  {
    hide Clearing;
  }

  lemma {:induction false} StagesReached(expectedPassword: Value, events: seq<PublicationEvent>, rest: seq<PublicationEvent>,
                                         r: nat, g: nat, a: nat, b: nat, c: nat, n: nat)
    requires GetsThrough(rest, r, g, a, b, c) && n <= |rest|
    requires Clearing(expectedPassword, After(expectedPassword, events), r, g)
    requires WithinLimit(rest, g, b, c)
    ensures StageAfter(expectedPassword, After(expectedPassword, events + rest[..n]), rest, r, g, a, b, c, n)
  {
    hide StageAfter, GetsThrough, Next, HeardBy, Clearing;
    if n == 0 {
      assert events + rest[..0] == events;
      FirstStage(expectedPassword, After(expectedPassword, events), rest, r, g, a, b, c);
    } else {
      StagesReached(expectedPassword, events, rest, r, g, a, b, c, n - 1);
      var all := events + rest[..n];
      assert all[..|all| - 1] == events + rest[..n - 1] && all[|all| - 1] == rest[n - 1];
      RunKeepsPublication(expectedPassword, events + rest[..n - 1]);
      StageStep(expectedPassword, After(expectedPassword, events + rest[..n - 1]), rest, r, g, a, b, c, n - 1);
    }
  }

  // From every reachable state in which a refresh of a streamable dashboard with an unchanged password is
  // waiting: if it gets through and nothing newer, no stop and no failure intervenes, the client holds
  // exactly the public fields of what its observer reported, as long as that was never more than 5000.
  lemma {:induction false} LatestRefreshShows(expectedPassword: Value, events: seq<PublicationEvent>,
                                              rest: seq<PublicationEvent>, a: nat, b: nat, c: nat)
    requires var p := After(expectedPassword, events);
      && !p.stopped && !p.failed && p.refreshGeneration in p.refreshes
      && p.refreshes[p.refreshGeneration] == AwaitingClear && Streams(p.dashboard, expectedPassword)
      && GetsThrough(rest, p.refreshGeneration, p.observer.generation + 1, a, b, c)
      && WithinLimit(rest, p.observer.generation + 1, b, c)
    ensures var p := After(expectedPassword, events);
      var q := After(expectedPassword, events + rest);
      && !q.failed && !q.stopped
      && ShowsPublic(Replay(CallbacksOf(rest[b + 1..], p.observer.generation + 1)), q.published)
  {
    hide After, Next, ShowsPublic, Replay, CallbacksOf, Heard, Clearing, Disturbs, WithinLimit, Streams;
    var p := After(expectedPassword, events);
    var r, g := p.refreshGeneration, p.observer.generation + 1;
    WaitingIsClear(expectedPassword, events);
    StagesReached(expectedPassword, events, rest, r, g, a, b, c, |rest|);
    assert rest[..|rest|] == rest && rest[b + 1..|rest|] == rest[b + 1..];
    HeardIsReplay(rest[b + 1..], g);
  }

  lemma {:induction false} WaitingIsClear(expectedPassword: Value, events: seq<PublicationEvent>)
    requires var p := After(expectedPassword, events);
      && !p.stopped && !p.failed && p.refreshGeneration in p.refreshes
      && p.refreshes[p.refreshGeneration] == AwaitingClear && Streams(p.dashboard, expectedPassword)
    ensures var p := After(expectedPassword, events);
      Clearing(expectedPassword, p, p.refreshGeneration, p.observer.generation + 1)
  {
    RunKeepsPublication(expectedPassword, events);
    RunKeepsCleared(expectedPassword, events);
    hide After, Streams, Inv;
  }
}
