// The dashboardTimecardsById publication of imports/api/dashboards/server/publications.js: refreshes
// with generation tokens around a restartable timecard observer and a reconciler.
module DashboardPublication {
  import opened Options
  import opened PublicationReconciler
  import opened RestartableObserver

  const MAX_PUBLIC_DASHBOARD_TIMECARDS := 5000
  const MAX_PUBLIC_DASHBOARD_PROJECTS := 500
  const BOUNDED_PUBLIC_DASHBOARD_PERIODS := {
    "currentMonth", "currentWeek", "currentYear", "lastMonth", "last3months", "lastWeek", "lastYear", "custom"
  }
  const PUBLIC_TIMECARD_FIELDS := {
    "userId", "projectId", "date", "dateOnly", "startTime", "hours", "task", "dateRevision"
  }

  datatype Dashboard = Dashboard(
    projectId: Option<string>, timePeriod: string, allProjectsAuthorized: bool, password: Value, details: Fields)

  predicate MayStreamTimecards(dashboard: Option<Dashboard>) {
    && dashboard.Some? && dashboard.value.projectId.Some?
    && dashboard.value.timePeriod in BOUNDED_PUBLIC_DASHBOARD_PERIODS
    && (dashboard.value.projectId.value != "all" || dashboard.value.allProjectsAuthorized)
  }

  predicate CredentialUnchanged(dashboard: Option<Dashboard>, expectedPassword: Value) {
    dashboard.Some? && dashboard.value.password == expectedPassword
  }

  // Both checks a refresh makes before it starts an observer.
  predicate Authorized(dashboard: Option<Dashboard>, expectedPassword: Value) {
    MayStreamTimecards(dashboard) && CredentialUnchanged(dashboard, expectedPassword)
  }

  function SafeFields(fields: Fields): Fields {
    map k | k in fields && k in PUBLIC_TIMECARD_FIELDS :: fields[k]
  }

  function SafeDocuments(documents: Documents): Documents {
    map id | id in documents :: SafeFields(documents[id])
  }

  // ---------------------------------------------------------------- one subscription

  // A refresh that is waiting for its continuation; dashboard is the document its selector is computed from.
  datatype Refresh = AwaitingClear | AwaitingSelector(dashboard: Dashboard) | Ended

  datatype SelectorOutcome = Computed | NoSelector | SelectorThrew

  // published is what the reconciler last published. sources is history: the dashboard document
  // behind the selector of each observer.
  datatype Publication = Publication(
    dashboard: Option<Dashboard>,
    projectInitialized: bool,
    stopped: bool,
    failed: bool,
    refreshGeneration: nat,
    authorizedGeneration: nat,
    refreshes: map<nat, Refresh>,
    observer: Observer,
    published: Documents,
    sources: map<nat, Dashboard>)

  datatype PublicationEvent =
    | DashboardObserved(dashboard: Option<Dashboard>)
    | ProjectsObserved(count: nat)
    | ProjectsInitialized
    | FirstRefresh
    | RefreshResumed(refresh: nat)
    | SelectorResolved(refresh: nat, outcome: SelectorOutcome)
    | TimecardsObserved(generation: nat, callback: Callback)
    | ObserverStarted(generation: nat)
    | ObserverFailed(generation: nat)
    | SubscriptionStopped

  const SUBSCRIBED := Publication(None, false, false, false, 0, 0, map[], INITIAL, map[], map[])

  function FailPublication(p: Publication): Publication {
    if p.stopped || p.failed then p
    else p.(failed := true, authorizedGeneration := 0, published := map[])
  }

  function DocumentsChanged(p: Publication, notification: Notification): Publication {
    if notification.None? then p
    else if |notification.value| > MAX_PUBLIC_DASHBOARD_TIMECARDS then FailPublication(p)
    else if !p.stopped && p.authorizedGeneration == p.refreshGeneration
    then p.(published := SafeDocuments(notification.value))
    else p
  }

  function OnTimecards(p: Publication, event: Event): Publication {
    var (observer, notification) := Step(p.observer, event);
    DocumentsChanged(p.(observer := observer), notification)
  }

  function ClearForRefresh(p: Publication): Publication {
    var generation := p.refreshGeneration + 1;
    p.(refreshGeneration := generation, authorizedGeneration := 0, published := map[],
       refreshes := p.refreshes[generation := AwaitingClear])
  }

  // refresh up to its first await.
  function BeginRefresh(p: Publication): Publication {
    OnTimecards(ClearForRefresh(p), RestartNull)
  }

  function ResumeRefresh(expectedPassword: Value, p: Publication, refresh: nat): Publication {
    if refresh !in p.refreshes || !p.refreshes[refresh].AwaitingClear? then p
    else if p.stopped || p.failed || refresh != p.refreshGeneration || !Authorized(p.dashboard, expectedPassword)
    then p.(refreshes := p.refreshes[refresh := Ended])
    else p.(refreshes := p.refreshes[refresh := AwaitingSelector(p.dashboard.value)])
  }

  function StartObserver(p: Publication, refresh: nat, outcome: SelectorOutcome): Publication {
    if refresh !in p.refreshes || !p.refreshes[refresh].AwaitingSelector? then p
    else
      var source := p.refreshes[refresh].dashboard;
      var ended := p.(refreshes := p.refreshes[refresh := Ended]);
      if !outcome.Computed? || p.stopped || p.failed || refresh != p.refreshGeneration then ended
      else
        var started := OnTimecards(ended.(authorizedGeneration := refresh), RestartScope);
        started.(sources := started.sources[started.observer.generation := source])
  }

  function Next(expectedPassword: Value, p: Publication, event: PublicationEvent): Publication {
    match event
    case DashboardObserved(dashboard) => BeginRefresh(p.(dashboard := dashboard, published := map[]))
    case ProjectsObserved(count) =>
      if count > MAX_PUBLIC_DASHBOARD_PROJECTS then FailPublication(p)
      else if p.projectInitialized then BeginRefresh(p.(published := map[]))
      else p
    case ProjectsInitialized => if p.stopped then p else p.(projectInitialized := true)
    case FirstRefresh => BeginRefresh(p)
    case RefreshResumed(refresh) => ResumeRefresh(expectedPassword, p, refresh)
    case SelectorResolved(refresh, outcome) => StartObserver(p, refresh, outcome)
    case TimecardsObserved(g, callback) => OnTimecards(p, Observed(g, callback))
    case ObserverStarted(g) => OnTimecards(p, Completed(g))
    case ObserverFailed(g) => OnTimecards(p, Failed(g))
    case SubscriptionStopped =>
      OnTimecards(p.(stopped := true, refreshGeneration := p.refreshGeneration + 1), Stop)
  }

  // The subscription, opened with this password, after these events.
  function After(expectedPassword: Value, events: seq<PublicationEvent>): Publication {
    if events == [] then SUBSCRIBED
    else Next(expectedPassword, After(expectedPassword, events[..|events| - 1]), events[|events| - 1])
  }

  // ---------------------------------------------------------------- what every run keeps

  // The current generation is authorized: its observer was started from the dashboard as it is now.
  predicate Live(p: Publication) {
    !p.stopped && p.refreshGeneration > 0 && p.authorizedGeneration == p.refreshGeneration
  }

  ghost predicate PublicationInv(expectedPassword: Value, p: Publication) {
    && Inv(p.observer)
    && p.authorizedGeneration <= p.refreshGeneration
    && (forall g <- p.refreshes :: 0 < g <= p.refreshGeneration)
    && (p.refreshGeneration == 0 ==> p.observer == INITIAL && p.published == map[])
    && (Live(p) ==>
          && !p.failed && Authorized(p.dashboard, expectedPassword)
          && p.observer.generation in p.observer.attempts && p.observer.generation in p.sources
          && p.sources[p.observer.generation] == p.dashboard.value)
    && (p.refreshGeneration in p.refreshes && p.refreshes[p.refreshGeneration].AwaitingSelector? ==>
          && Authorized(p.dashboard, expectedPassword)
          && p.refreshes[p.refreshGeneration].dashboard == p.dashboard.value)
    && (p.refreshGeneration in p.refreshes && !p.refreshes[p.refreshGeneration].Ended? ==> !Live(p))
    && (!p.stopped && p.published != map[] ==> Showing(p))
  }

  predicate Showing(p: Publication) {
    && Live(p) && p.observer.activeHandle.Some?
    && p.published == SafeDocuments(p.observer.documents)
    && |p.observer.documents| <= MAX_PUBLIC_DASHBOARD_TIMECARDS
  }

  lemma BeginRefreshKeeps(expectedPassword: Value, p: Publication)
    requires Inv(p.observer) && forall g <- p.refreshes :: 0 < g <= p.refreshGeneration
    ensures PublicationInv(expectedPassword, BeginRefresh(p)) && BeginRefresh(p).published == map[]
  {
    StepKeeps(p.observer, RestartNull);
  }

  lemma ResumeKeeps(expectedPassword: Value, p: Publication, refresh: nat)
    requires PublicationInv(expectedPassword, p)
    ensures PublicationInv(expectedPassword, ResumeRefresh(expectedPassword, p, refresh))
  {
  }

  lemma StartKeeps(expectedPassword: Value, p: Publication, refresh: nat, outcome: SelectorOutcome)
    requires PublicationInv(expectedPassword, p)
    ensures PublicationInv(expectedPassword, StartObserver(p, refresh, outcome))
  {
    StepKeeps(p.observer, RestartScope);
  }

  // A callback, start or failure of an observer: what it announces is what is then shown, and
  // without an announcement nothing that is shown changes.
  lemma ObserverStep(o: Observer, event: Event)
    requires Inv(o) && (event.Observed? || event.Completed? || event.Failed?)
    ensures var (o', notification) := Step(o, event);
      && Inv(o') && o'.generation == o.generation && o'.attempts.Keys == o.attempts.Keys
      && (o.attempts == map[] ==> o' == o && notification.None?)
      && (notification.Some? ==> notification.value == o'.documents && o'.activeHandle.Some?)
      && (notification.None? && o.activeHandle.Some? ==>
            o'.activeHandle == o.activeHandle && o'.documents == o.documents)
  {
    StepKeeps(o, event);
  }

  // The observer moved on and announced nothing.
  lemma SilentStepKeeps(expectedPassword: Value, p: Publication, o': Observer)
    requires PublicationInv(expectedPassword, p)
    requires Inv(o') && o'.generation == p.observer.generation && o'.attempts.Keys == p.observer.attempts.Keys
    requires p.refreshGeneration == 0 ==> o' == p.observer
    requires p.observer.activeHandle.Some? ==> o'.activeHandle == p.observer.activeHandle && o'.documents == p.observer.documents
    ensures PublicationInv(expectedPassword, p.(observer := o'))
  {
  }

  // The active observer announced its documents.
  lemma AnnouncedStepKeeps(expectedPassword: Value, p: Publication, o': Observer)
    requires PublicationInv(expectedPassword, p) && p.refreshGeneration > 0
    requires Inv(o') && o'.generation == p.observer.generation && o'.attempts.Keys == p.observer.attempts.Keys
    requires o'.activeHandle.Some?
    ensures PublicationInv(expectedPassword, DocumentsChanged(p.(observer := o'), Some(o'.documents)))
  {
  }

  lemma {:induction false} TimecardsKeep(expectedPassword: Value, p: Publication, event: Event)
    requires PublicationInv(expectedPassword, p) && (event.Observed? || event.Completed? || event.Failed?)
    ensures PublicationInv(expectedPassword, OnTimecards(p, event))
  {
    ObserverStep(p.observer, event);
    var (o', notification) := Step(p.observer, event);
    if notification.None? {
      SilentStepKeeps(expectedPassword, p, o');
    } else {
      AnnouncedStepKeeps(expectedPassword, p, o');
    }
  }

  lemma StopKeeps(expectedPassword: Value, p: Publication)
    requires PublicationInv(expectedPassword, p)
    ensures PublicationInv(expectedPassword, Next(expectedPassword, p, SubscriptionStopped))
  {
  }

  lemma {:induction false} ProjectsKeep(expectedPassword: Value, p: Publication, count: nat)
    requires PublicationInv(expectedPassword, p)
    ensures PublicationInv(expectedPassword, Next(expectedPassword, p, ProjectsObserved(count)))
  {
    BeginRefreshKeeps(expectedPassword, p.(published := map[]));
  }

  lemma {:induction false} NextKeeps(expectedPassword: Value, p: Publication, event: PublicationEvent)
    requires PublicationInv(expectedPassword, p)
    ensures PublicationInv(expectedPassword, Next(expectedPassword, p, event))
  {
    match event
    case DashboardObserved(dashboard) => BeginRefreshKeeps(expectedPassword, p.(dashboard := dashboard, published := map[]));
    case ProjectsObserved(count) => ProjectsKeep(expectedPassword, p, count);
    case ProjectsInitialized =>
    case FirstRefresh => BeginRefreshKeeps(expectedPassword, p);
    case RefreshResumed(refresh) => ResumeKeeps(expectedPassword, p, refresh);
    case SelectorResolved(refresh, outcome) => StartKeeps(expectedPassword, p, refresh, outcome);
    case TimecardsObserved(g, callback) => TimecardsKeep(expectedPassword, p, Observed(g, callback));
    case ObserverStarted(g) => TimecardsKeep(expectedPassword, p, Completed(g));
    case ObserverFailed(g) => TimecardsKeep(expectedPassword, p, Failed(g));
    case SubscriptionStopped => StopKeeps(expectedPassword, p);
  }

  lemma {:induction false} RunKeepsPublication(expectedPassword: Value, events: seq<PublicationEvent>)
    ensures PublicationInv(expectedPassword, After(expectedPassword, events))
  {
    if events != [] {
      RunKeepsPublication(expectedPassword, events[..|events| - 1]);
      NextKeeps(expectedPassword, After(expectedPassword, events[..|events| - 1]), events[|events| - 1]);
    }
  }

  // Whenever the client of a running subscription holds a timecard, it holds exactly the public
  // fields of what the active observer has reported, that observer was started from the dashboard
  // document as last observed, and the password is still the one the subscription was opened with.
  lemma {:induction false} ClientShowsCurrentDashboard(expectedPassword: Value, events: seq<PublicationEvent>)
    ensures var p := After(expectedPassword, events);
      !p.stopped && p.published != map[] ==>
        && p.observer.activeHandle.Some?
        && var h := p.observer.activeHandle.value;
           && h in p.sources && h in p.observer.reported
           && p.dashboard == Some(p.sources[h])
           && MayStreamTimecards(p.dashboard) && p.dashboard.value.password == expectedPassword
           && p.published == SafeDocuments(p.observer.reported[h])
           && |p.observer.reported[h]| <= MAX_PUBLIC_DASHBOARD_TIMECARDS
  {
    RunKeepsPublication(expectedPassword, events);
  }

  // A change of the dashboard, its removal included, empties the client in the same stretch, and a
  // publication that failed stays empty.
  lemma {:induction false} ChangeClearsClient(expectedPassword: Value, events: seq<PublicationEvent>, dashboard: Option<Dashboard>)
    ensures var p := After(expectedPassword, events);
      && Next(expectedPassword, p, DashboardObserved(dashboard)).published == map[]
      && (p.failed && !p.stopped ==> p.published == map[])
  {
    RunKeepsPublication(expectedPassword, events);
    var p := After(expectedPassword, events);
    BeginRefreshKeeps(expectedPassword, p.(dashboard := dashboard, published := map[]));
  }

  // ---------------------------------------------------------------- the publish function with its variables

  class DashboardTimecards {
    const expectedPassword: Value
    const observer: RestartableDocumentObserver
    const reconciler: Reconciler
    var dashboard: Option<Dashboard>
    var projectInitialized: bool
    var stopped: bool
    var failed: bool
    var refreshGeneration: nat
    var authorizedGeneration: nat
    var refreshes: map<nat, Refresh>
    ghost var sources: map<nat, Dashboard>

    ghost function State(): Publication
      reads this, observer, reconciler
    {
      Publication(dashboard, projectInitialized, stopped, failed, refreshGeneration, authorizedGeneration,
                  refreshes, observer.State(), reconciler.published, sources)
    }

    // The client's view is the fold of the messages sent, and it is what the state says is published.
    ghost predicate Wired()
      reads this, observer, reconciler
    {
      observer.Valid() && reconciler.Valid()
    }

    constructor (password: Value)
      ensures Wired() && State() == SUBSCRIBED && expectedPassword == password
      ensures fresh(observer) && fresh(reconciler)
    {
      expectedPassword := password;
      observer := new RestartableDocumentObserver();
      reconciler := new Reconciler();
      dashboard, projectInitialized, stopped, failed := None, false, false, false;
      refreshGeneration, authorizedGeneration, refreshes, sources := 0, 0, map[], map[];
    }

    method Fail()
      requires Wired()
      modifies this, reconciler
      ensures Wired() && State() == FailPublication(old(State()))
    {
      if stopped || failed {
        return;
      }
      failed := true;
      authorizedGeneration := 0;
      reconciler.RemoveAll();
    }

    method OnDocumentsChanged(notification: Notification)
      requires Wired()
      modifies this, reconciler
      ensures Wired() && State() == DocumentsChanged(old(State()), notification)
    {
      if notification.None? {
        return;
      }
      if |notification.value| > MAX_PUBLIC_DASHBOARD_TIMECARDS {
        Fail();
      } else if !stopped && authorizedGeneration == refreshGeneration {
        reconciler.Reconcile(SafeDocuments(notification.value));
      }
    }

    method ClearClient()
      requires Wired()
      modifies this, reconciler
      ensures Wired() && State() == ClearForRefresh(old(State()))
    {
      refreshGeneration := refreshGeneration + 1;
      authorizedGeneration := 0;
      refreshes := refreshes[refreshGeneration := AwaitingClear];
      reconciler.RemoveAll();
    }

    method Refresh()
      requires Wired()
      modifies this, observer, reconciler
      ensures Wired() && State() == BeginRefresh(old(State()))
    {
      ClearClient();
      RestartTimecards(false);
    }

    method RestartTimecards(scoped: bool)
      requires Wired()
      modifies this, observer, reconciler
      ensures Wired() && State() == OnTimecards(old(State()), if scoped then RestartScope else RestartNull)
    {
      var notification := observer.Restart(scoped);
      OnDocumentsChanged(notification);
    }

    method OnDashboard(observed: Option<Dashboard>)
      requires Wired()
      modifies this, observer, reconciler
      ensures Wired() && State() == BeginRefresh(old(State()).(dashboard := observed, published := map[]))
    {
      dashboard := observed;
      reconciler.RemoveAll();
      Refresh();
    }

    method OnProjects(count: nat)
      requires Wired()
      modifies this, observer, reconciler
      ensures Wired() && State() == Next(expectedPassword, old(State()), ProjectsObserved(count))
    {
      if count > MAX_PUBLIC_DASHBOARD_PROJECTS {
        Fail();
      } else if projectInitialized {
        reconciler.RemoveAll();
        Refresh();
      }
    }

    // The continuation of a refresh after the observer was cleared.
    method OnResumed(refresh: nat)
      requires Wired()
      modifies this
      ensures Wired() && State() == ResumeRefresh(expectedPassword, old(State()), refresh)
    {
      if refresh !in refreshes || !refreshes[refresh].AwaitingClear? {
        return;
      }
      if stopped || failed || refresh != refreshGeneration
         || !MayStreamTimecards(dashboard) || !CredentialUnchanged(dashboard, expectedPassword) {
        refreshes := refreshes[refresh := Ended];
      } else {
        refreshes := refreshes[refresh := AwaitingSelector(dashboard.value)];
      }
    }

    method OnSelector(refresh: nat, outcome: SelectorOutcome)
      requires Wired()
      modifies this, observer, reconciler
      ensures Wired() && State() == StartObserver(old(State()), refresh, outcome)
    {
      if refresh !in refreshes || !refreshes[refresh].AwaitingSelector? {
        return;
      }
      ghost var source := refreshes[refresh].dashboard;
      refreshes := refreshes[refresh := Ended];
      if !outcome.Computed? || stopped || failed || refresh != refreshGeneration {
        return;
      }
      authorizedGeneration := refresh;
      RestartTimecards(true);
      sources := sources[observer.generation := source];
    }

    method OnCallback(current: nat, callback: Callback)
      requires Wired() && Enabled(observer.State(), Observed(current, callback))
      modifies this, observer, reconciler
      ensures Wired() && State() == OnTimecards(old(State()), Observed(current, callback))
    {
      var notification := observer.OnObserved(current, callback);
      OnDocumentsChanged(notification);
    }

    method OnStarted(current: nat)
      requires Wired() && Enabled(observer.State(), Completed(current))
      modifies this, observer, reconciler
      ensures Wired() && State() == OnTimecards(old(State()), Completed(current))
    {
      var notification := observer.OnResolved(current);
      OnDocumentsChanged(notification);
    }

    method OnRejected(current: nat)
      requires Wired() && Enabled(observer.State(), Failed(current))
      modifies observer
      ensures Wired() && State() == OnTimecards(old(State()), Failed(current))
    {
      observer.OnRejected(current);
    }

    method OnStop()
      requires Wired()
      modifies this, observer
      ensures Wired() && State() == Next(expectedPassword, old(State()), SubscriptionStopped)
    {
      stopped := true;
      refreshGeneration := refreshGeneration + 1;
      observer.Halt();
    }
  }
}
