// The dashboard quota: createDashboardCreationCoordinator of
// imports/api/dashboards/server/creationSecurity.js serializes the check-and-insert of addDashboard
// (imports/api/dashboards/server/methods.js) for each creator, by a chain of promises.
module DashboardQuota {
  import opened Options

  const MAX_DASHBOARDS_PER_CREATOR := 100

  // What one call of run has reached. Done means that its finally block has run; pending tells
  // that its insert was reported as failed although the store may still apply it.
  datatype Phase = Waiting | Authorizing | Counted | Inserted | Done(pending: bool)

  // previous is the call whose tail this call found in the map and awaits.
  datatype Call = Call(user: string, previous: Option<nat>, phase: Phase)

  // Calls in arrival order; tails as in the source, with a promise named by its call; owned counts
  // the stored dashboards of a creator. late is history: inserts applied after their call was done.
  datatype State = State(calls: seq<Call>, tails: map<string, nat>, owned: map<string, nat>, late: map<string, nat>)

  function Tally(counts: map<string, nat>, user: string): nat {
    if user in counts then counts[user] else 0
  }

  function Incremented(counts: map<string, nat>, user: string): map<string, nat> {
    counts[user := Tally(counts, user) + 1]
  }

  // The tail of a call resolves once its predecessors' tails have and it has been released itself.
  predicate TailResolved(calls: seq<Call>, i: nat) {
    && i < |calls| && calls[i].phase.Done?
    && (calls[i].previous.None? || (calls[i].previous.value < i && TailResolved(calls, calls[i].previous.value)))
  }

  predicate MayBegin(calls: seq<Call>, i: nat) {
    && i < |calls| && calls[i].phase.Waiting?
    && (calls[i].previous.None? || TailResolved(calls, calls[i].previous.value))
  }

  // The quota query is limited to the maximum.
  predicate QuotaAvailable(owned: nat) {
    var existing := if owned < MAX_DASHBOARDS_PER_CREATOR then owned else MAX_DASHBOARDS_PER_CREATOR;
    existing < MAX_DASHBOARDS_PER_CREATOR
  }

  datatype Step =
    | Arrive(user: string)
    | Begin(call: nat)
    | Refuse(call: nat)                    // not authorized, or a lookup throws
    | Count(call: nat)                     // read the quota: go on, or throw
    | Insert(call: nat)
    | Fail(call: nat, mayLand: bool)       // the insert throws
    | Return(call: nat)                    // the insert is answered, or its answer is lost
    | LandLate(call: nat)
    | Delete(user: string)

  function InPhase(s: State, i: nat, phase: Phase): State
    requires i < |s.calls|
  {
    s.(calls := s.calls[i := s.calls[i].(phase := phase)])
  }

  // The finally block: release, and clear the map entry if it is still this call's.
  function Leave(s: State, i: nat, pending: bool): State
    requires i < |s.calls|
  {
    var user := s.calls[i].user;
    InPhase(s, i, Done(pending)).(
      tails := if user in s.tails && s.tails[user] == i then s.tails - {user} else s.tails)
  }

  function Entered(s: State, user: string): State {
    var previous := if user in s.tails then Some(s.tails[user]) else None;
    s.(calls := s.calls + [Call(user, previous, Waiting)], tails := s.tails[user := |s.calls|])
  }

  function Next(s: State, step: Step): State {
    match step
    case Arrive(user) => Entered(s, user)
    case Begin(i) => if MayBegin(s.calls, i) then InPhase(s, i, Authorizing) else s
    case Refuse(i) => if i < |s.calls| && s.calls[i].phase.Authorizing? then Leave(s, i, false) else s
    case Count(i) =>
      if i < |s.calls| && s.calls[i].phase.Authorizing? then
        if QuotaAvailable(Tally(s.owned, s.calls[i].user)) then InPhase(s, i, Counted) else Leave(s, i, false)
      else s
    case Insert(i) =>
      if i < |s.calls| && s.calls[i].phase.Counted?
      then InPhase(s, i, Inserted).(owned := Incremented(s.owned, s.calls[i].user)) else s
    case Fail(i, mayLand) => if i < |s.calls| && s.calls[i].phase.Counted? then Leave(s, i, mayLand) else s
    case Return(i) => if i < |s.calls| && s.calls[i].phase.Inserted? then Leave(s, i, false) else s
    case LandLate(i) =>
      if i < |s.calls| && s.calls[i].phase == Done(true) then
        InPhase(s, i, Done(false)).(owned := Incremented(s.owned, s.calls[i].user),
                                    late := Incremented(s.late, s.calls[i].user))
      else s
    case Delete(user) =>
      if Tally(s.owned, user) > 0 then s.(owned := s.owned[user := Tally(s.owned, user) - 1]) else s
  }

  function Exec(s: State, steps: seq<Step>): State {
    if steps == [] then s else Next(Exec(s, steps[..|steps| - 1]), steps[|steps| - 1])
  }

  // A process that has just started, over any stored dashboards.
  function Initial(owned: map<string, nat>): State {
    State([], map[], owned, map[])
  }

  // ---------------------------------------------------------------- what every step keeps

  // Nobody gets past the waiting line before all earlier calls of the same creator are done.
  ghost predicate InOrder(calls: seq<Call>) {
    forall i, j :: 0 <= i < j < |calls| && calls[i].user == calls[j].user && !calls[j].phase.Waiting?
      ==> calls[i].phase.Done?
  }

  ghost predicate Between(calls: seq<Call>, low: int, high: nat, user: string) {
    exists k :: low < k < high && 0 <= k < |calls| && calls[k].user == user && !calls[k].phase.Done?
  }

  // previous names a call of the same creator, after which no unfinished one came before this one.
  ghost predicate Linked(calls: seq<Call>, j: nat)
    requires j < |calls|
  {
    match calls[j].previous
    case None => !Between(calls, -1, j, calls[j].user)
    case Some(p) => p < j && calls[p].user == calls[j].user && !Between(calls, p, j, calls[j].user)
  }

  ghost predicate Chained(calls: seq<Call>) {
    forall j :: 0 <= j < |calls| ==> Linked(calls, j)
  }

  // The map holds exactly the creators with an unfinished call, and the last of their calls.
  ghost predicate TailsAreLast(s: State) {
    forall user: string ::
      if user in s.tails then
        && s.tails[user] < |s.calls| && s.calls[s.tails[user]].user == user
        && !s.calls[s.tails[user]].phase.Done? && !Between(s.calls, s.tails[user], |s.calls|, user)
      else !Between(s.calls, -1, |s.calls|, user)
  }

  ghost predicate Inv(s: State) {
    InOrder(s.calls) && Chained(s.calls) && TailsAreLast(s)
  }

  // A creator exceeds the maximum by no more than the inserts that landed late.
  ghost predicate WithinQuota(s: State, user: string) {
    && Tally(s.owned, user) <= MAX_DASHBOARDS_PER_CREATOR + Tally(s.late, user)
    && forall i :: 0 <= i < |s.calls| && s.calls[i].user == user && s.calls[i].phase.Counted?
         ==> Tally(s.owned, user) < MAX_DASHBOARDS_PER_CREATOR + Tally(s.late, user)
  }

  // A resolved tail means that every call of the creator up to it is done.
  lemma {:induction false} ResolvedMeansAllDone(calls: seq<Call>, i: nat)
    requires Chained(calls) && i < |calls| && TailResolved(calls, i)
    ensures forall k :: 0 <= k <= i && calls[k].user == calls[i].user ==> calls[k].phase.Done?
  {
    assert Linked(calls, i);
    if calls[i].previous.Some? { ResolvedMeansAllDone(calls, calls[i].previous.value); }
  }

  lemma {:induction false} AllDoneMeansResolved(calls: seq<Call>, i: nat)
    requires Chained(calls) && i < |calls|
    requires forall k :: 0 <= k <= i && calls[k].user == calls[i].user ==> calls[k].phase.Done?
    ensures TailResolved(calls, i)
  {
    assert Linked(calls, i);
    if calls[i].previous.Some? { AllDoneMeansResolved(calls, calls[i].previous.value); }
  }

  // A waiting call may begin exactly when all earlier calls of its creator are done, however they ended.
  lemma MayBeginIff(s: State, i: nat)
    requires Inv(s) && i < |s.calls| && s.calls[i].phase.Waiting?
    ensures MayBegin(s.calls, i) <==>
      forall k :: 0 <= k < i && s.calls[k].user == s.calls[i].user ==> s.calls[k].phase.Done?
  {
    assert Linked(s.calls, i);
    if s.calls[i].previous.Some? {
      var p := s.calls[i].previous.value;
      if TailResolved(s.calls, p) {
        ResolvedMeansAllDone(s.calls, p);
      } else if forall k :: 0 <= k < i && s.calls[k].user == s.calls[i].user ==> s.calls[k].phase.Done? {
        AllDoneMeansResolved(s.calls, p);
      }
    }
  }

  lemma EnteredKeeps(s: State, user: string)
    requires Inv(s)
    ensures Inv(Entered(s, user))
  {
    var t := Entered(s, user);
    forall j | 0 <= j < |t.calls| ensures Linked(t.calls, j) {
      if j < |s.calls| { assert Linked(s.calls, j); }
    }
    forall u: string ensures u in t.tails || !Between(t.calls, -1, |t.calls|, u) {
    }
  }

  // Moving a call forward, with all of its predecessors done.
  lemma InPhaseKeeps(s: State, i: nat, phase: Phase)
    requires Inv(s) && i < |s.calls|
    requires !phase.Waiting? && (s.calls[i].phase.Done? <==> phase.Done?)
    requires s.calls[i].phase.Waiting? ==> MayBegin(s.calls, i)
    ensures Inv(InPhase(s, i, phase))
  {
    var t := InPhase(s, i, phase);
    if s.calls[i].phase.Waiting? { MayBeginIff(s, i); }
    forall j | 0 <= j < |t.calls| ensures Linked(t.calls, j) {
      assert Linked(s.calls, j);
    }
  }

  lemma LeaveKeeps(s: State, i: nat, pending: bool)
    requires Inv(s) && i < |s.calls| && !s.calls[i].phase.Waiting? && !s.calls[i].phase.Done?
    ensures Inv(Leave(s, i, pending))
  {
    var t := Leave(s, i, pending);
    forall j | 0 <= j < |t.calls| ensures Linked(t.calls, j) {
      assert Linked(s.calls, j);
    }
  }

  lemma NextKeeps(s: State, step: Step)
    requires Inv(s)
    ensures Inv(Next(s, step))
  {
    hide InOrder, Chained, TailsAreLast;
    match step
    case Arrive(user) => EnteredKeeps(s, user);
    case Begin(i) => if MayBegin(s.calls, i) { InPhaseKeeps(s, i, Authorizing); }
    case Refuse(i) => if Next(s, step) != s { LeaveKeeps(s, i, false); }
    case Count(i) =>
      if Next(s, step) != s {
        LeaveKeeps(s, i, false);
        InPhaseKeeps(s, i, Counted);
      }
    case Insert(i) =>
      if Next(s, step) != s {
        InPhaseKeeps(s, i, Inserted);
        OwnedIsApart(InPhase(s, i, Inserted), Next(s, step));
      }
    case Fail(i, mayLand) => if Next(s, step) != s { LeaveKeeps(s, i, mayLand); }
    case Return(i) => if Next(s, step) != s { LeaveKeeps(s, i, false); }
    case LandLate(i) =>
      if Next(s, step) != s {
        InPhaseKeeps(s, i, Done(false));
        OwnedIsApart(InPhase(s, i, Done(false)), Next(s, step));
      }
    case Delete(user) => OwnedIsApart(s, Next(s, step));
  }

  lemma OwnedIsApart(s: State, t: State)
    requires Inv(s) && t.calls == s.calls && t.tails == s.tails
    ensures Inv(t)
  {
  }

  lemma QuotaKeeps(s: State, step: Step, user: string)
    requires Inv(s) && WithinQuota(s, user)
    ensures WithinQuota(Next(s, step), user)
  {
  }

  lemma {:induction false} RunKeeps(owned: map<string, nat>, steps: seq<Step>)
    ensures Inv(Exec(Initial(owned), steps))
  {
    if steps != [] {
      RunKeeps(owned, steps[..|steps| - 1]);
      NextKeeps(Exec(Initial(owned), steps[..|steps| - 1]), steps[|steps| - 1]);
    }
  }

  // ---------------------------------------------------------------- the promises

  // Operations of one creator never overlap, and they run in arrival order.
  lemma {:induction false} NeverOverlapInOrder(owned: map<string, nat>, steps: seq<Step>, i: nat, j: nat)
    requires i < j < |Exec(Initial(owned), steps).calls|
    requires var calls := Exec(Initial(owned), steps).calls; calls[i].user == calls[j].user
    ensures var calls := Exec(Initial(owned), steps).calls;
      calls[j].phase.Waiting? || calls[i].phase.Done?
  {
    RunKeeps(owned, steps);
  }

  // A creator has a map entry exactly while some call is unfinished.
  lemma {:induction false} EntryIffUnfinished(owned: map<string, nat>, steps: seq<Step>, user: string)
    ensures var s := Exec(Initial(owned), steps);
      user in s.tails <==> exists k :: 0 <= k < |s.calls| && s.calls[k].user == user && !s.calls[k].phase.Done?
  {
    RunKeeps(owned, steps);
    var s := Exec(Initial(owned), steps);
    assert Between(s.calls, -1, |s.calls|, user) <==>
      exists k :: 0 <= k < |s.calls| && s.calls[k].user == user && !s.calls[k].phase.Done?;
  }

  lemma {:induction false} QuotaHolds(owned: map<string, nat>, steps: seq<Step>, user: string)
    requires Tally(owned, user) <= MAX_DASHBOARDS_PER_CREATOR
    ensures var s := Exec(Initial(owned), steps);
      Tally(s.owned, user) <= MAX_DASHBOARDS_PER_CREATOR + Tally(s.late, user)
    ensures WithinQuota(Exec(Initial(owned), steps), user)
  {
    if steps != [] {
      QuotaHolds(owned, steps[..|steps| - 1], user);
      RunKeeps(owned, steps[..|steps| - 1]);
      QuotaKeeps(Exec(Initial(owned), steps[..|steps| - 1]), steps[|steps| - 1], user);
    }
  }

  // While every failed insert really has not been applied, nobody who starts within the maximum exceeds it.
  lemma {:induction false} QuotaNeverExceeded(owned: map<string, nat>, steps: seq<Step>, user: string)
    requires Tally(owned, user) <= MAX_DASHBOARDS_PER_CREATOR
    requires forall i :: 0 <= i < |steps| ==> !steps[i].LandLate?
    ensures Tally(Exec(Initial(owned), steps).owned, user) <= MAX_DASHBOARDS_PER_CREATOR
  {
    QuotaHolds(owned, steps, user);
    NothingLate(owned, steps);
  }

  lemma {:induction false} NothingLate(owned: map<string, nat>, steps: seq<Step>)
    requires forall i :: 0 <= i < |steps| ==> !steps[i].LandLate?
    ensures Exec(Initial(owned), steps).late == map[]
  {
    if steps != [] { NothingLate(owned, steps[..|steps| - 1]); }
  }

  // The bound is tight: inserts reported as failed let later calls in and land after their counts, and
  // every number of them is reached as an excess.
  lemma {:induction false} LateInsertsExceed(user: string, n: nat) returns (steps: seq<Step>)
    ensures var s := Exec(Initial(map[user := MAX_DASHBOARDS_PER_CREATOR - 1]), steps);
      Tally(s.late, user) == n && Tally(s.owned, user) == MAX_DASHBOARDS_PER_CREATOR + n
  {
    var nearlyFull := Initial(map[user := MAX_DASHBOARDS_PER_CREATOR - 1]);
    hide Next;
    var failed := AllFail(nearlyFull, user, n);
    var s := Exec(nearlyFull, failed);
    var inserted := Insertion(user, n);
    InsertRound(s, user);
    Joined(nearlyFull, failed, inserted);
    var t := Exec(s, inserted);
    var landed := AllLand(t, user, n);
    Joined(nearlyFull, failed + inserted, landed);
    steps := failed + inserted + landed;
  }

  // All of a creator's calls are done and their inserts may still land.
  ghost predicate AllPending(s: State, user: string, n: nat) {
    |s.calls| == n && s.tails == map[] && forall i :: 0 <= i < n ==> s.calls[i] == Call(user, None, Done(true))
  }

  lemma {:induction false} AllFail(s: State, user: string, n: nat) returns (steps: seq<Step>)
    requires AllPending(s, user, 0) && Tally(s.owned, user) == MAX_DASHBOARDS_PER_CREATOR - 1
    ensures var t := Exec(s, steps); AllPending(t, user, n) && t.owned == s.owned && t.late == s.late
  {
    hide Next;
    steps := [];
    if n > 0 {
      var before := AllFail(s, user, n - 1);
      var round := Failure(user, n - 1);
      FailRound(Exec(s, before), user);
      Joined(s, before, round);
      steps := before + round;
    }
  }

  function Failure(user: string, i: nat): seq<Step> {
    [Arrive(user), Begin(i), Count(i), Fail(i, true)]
  }

  function Insertion(user: string, i: nat): seq<Step> {
    [Arrive(user), Begin(i), Count(i), Insert(i)]
  }

  // One call that counts, and whose insert is reported as failed.
  lemma {:induction false} FailRound(s: State, user: string)
    requires AllPending(s, user, |s.calls|) && Tally(s.owned, user) < MAX_DASHBOARDS_PER_CREATOR
    ensures var t := Exec(s, Failure(user, |s.calls|));
      t == s.(calls := s.calls + [Call(user, None, Done(true))])
  {
    var i := |s.calls|;
    var s1 := Next(s, Arrive(user));
    assert s1 == s.(calls := s.calls + [Call(user, None, Waiting)], tails := map[user := i]);
    var s2 := Next(s1, Begin(i));
    assert s2 == s1.(calls := s.calls + [Call(user, None, Authorizing)]);
    var s3 := Next(s2, Count(i));
    assert s3 == s1.(calls := s.calls + [Call(user, None, Counted)]);
    var s4 := Next(s3, Fail(i, true));
    assert s4 == s.(calls := s.calls + [Call(user, None, Done(true))]);
    hide Next;
    Four(s, Failure(user, i));
  }

  // One call whose insert is answered.
  lemma {:induction false} InsertRound(s: State, user: string)
    requires AllPending(s, user, |s.calls|) && Tally(s.owned, user) < MAX_DASHBOARDS_PER_CREATOR
    ensures var t := Exec(s, Insertion(user, |s.calls|));
      t == s.(calls := s.calls + [Call(user, None, Inserted)], tails := map[user := |s.calls|],
              owned := Incremented(s.owned, user))
  {
    var i := |s.calls|;
    var s1 := Next(s, Arrive(user));
    assert s1 == s.(calls := s.calls + [Call(user, None, Waiting)], tails := map[user := i]);
    var s2 := Next(s1, Begin(i));
    assert s2 == s1.(calls := s.calls + [Call(user, None, Authorizing)]);
    var s3 := Next(s2, Count(i));
    assert s3 == s1.(calls := s.calls + [Call(user, None, Counted)]);
    var s4 := Next(s3, Insert(i));
    assert s4 == s1.(calls := s.calls + [Call(user, None, Inserted)], owned := Incremented(s.owned, user));
    hide Next;
    Four(s, Insertion(user, i));
  }

  // The pending inserts of the first n calls land one after another.
  lemma {:induction false} AllLand(s: State, user: string, n: nat) returns (steps: seq<Step>)
    requires n <= |s.calls| && forall i :: 0 <= i < n ==> s.calls[i] == Call(user, None, Done(true))
    ensures var t := Exec(s, steps);
      && |t.calls| == |s.calls| && (forall i :: n <= i < |s.calls| ==> t.calls[i] == s.calls[i])
      && Tally(t.owned, user) == Tally(s.owned, user) + n && Tally(t.late, user) == Tally(s.late, user) + n
  {
    steps := [];
    if n > 0 {
      var before := AllLand(s, user, n - 1);
      steps := before + [LandLate(n - 1)];
      assert steps[..|steps| - 1] == before;
    }
  }

  lemma {:induction false} Four(s: State, steps: seq<Step>)
    requires |steps| == 4
    ensures Exec(s, steps) == Next(Next(Next(Next(s, steps[0]), steps[1]), steps[2]), steps[3])
  {
    hide Next;
    assert steps[..3][..2] == steps[..2] && steps[..2][..1] == steps[..1] && steps[..1][..0] == [];
    assert Exec(s, steps[..1]) == Next(Exec(s, []), steps[0]);
    assert Exec(s, steps[..2]) == Next(Exec(s, steps[..1]), steps[1]);
    assert Exec(s, steps[..3]) == Next(Exec(s, steps[..2]), steps[2]);
  }

  lemma {:induction false} Joined(s: State, a: seq<Step>, b: seq<Step>)
    ensures Exec(s, a + b) == Exec(Exec(s, a), b)
  {
    if b == [] {
      assert a + b == a;
    } else {
      Joined(s, a, b[..|b| - 1]);
      assert (a + b)[..|a + b| - 1] == a + b[..|b| - 1];
    }
  }

  // ---------------------------------------------------------------- nobody is stuck

  // One way for a call to end: every operation that has begun throws.
  function Ending(phase: Phase, i: nat): seq<Step> {
    match phase
    case Waiting => [Begin(i), Refuse(i)]
    case Authorizing => [Refuse(i)]
    case Counted => [Fail(i, false)]
    case Inserted => [Return(i)]
    case Done(_) => []
  }

  lemma EndOne(s: State, i: nat)
    requires Inv(s) && i < |s.calls| && forall k :: 0 <= k < i ==> s.calls[k].phase.Done?
    ensures var t := Exec(s, Ending(s.calls[i].phase, i));
      && Inv(t) && |t.calls| == |s.calls|
      && t.calls[i].phase.Done? && forall k :: 0 <= k < i ==> t.calls[k].phase.Done?
  {
    hide InOrder, Chained, TailsAreLast, TailResolved;
    var steps := Ending(s.calls[i].phase, i);
    if s.calls[i].phase.Waiting? {
      EndWaiting(s, i);
    } else if steps != [] {
      NextKeeps(s, steps[0]);
      assert Exec(s, steps) == Next(Exec(s, steps[..0]), steps[0]);
    }
  }

  lemma EndWaiting(s: State, i: nat)
    requires Inv(s) && i < |s.calls| && s.calls[i].phase.Waiting? && forall k :: 0 <= k < i ==> s.calls[k].phase.Done?
    ensures var t := Exec(s, [Begin(i), Refuse(i)]);
      && Inv(t) && |t.calls| == |s.calls|
      && t.calls[i].phase.Done? && forall k :: 0 <= k < i ==> t.calls[k].phase.Done?
  {
    hide InOrder, Chained, TailsAreLast, TailResolved, Exec;
    MayBeginIff(s, i);
    NextKeeps(s, Begin(i));
    NextKeeps(Next(s, Begin(i)), Refuse(i));
    Two(s, Begin(i), Refuse(i));
  }

  lemma Two(s: State, a: Step, b: Step)
    ensures Exec(s, [a, b]) == Next(Next(s, a), b)
  {
    assert [a, b][..1] == [a] && [a][..0] == [];
    assert Exec(s, [a]) == Next(Exec(s, []), a);
  }

  // From any reachable state every call can still end, even if every operation throws, and then the
  // map is empty.
  lemma {:induction false} ThrowingNeverBlocks(owned: map<string, nat>, steps: seq<Step>) returns (rest: seq<Step>)
    ensures var t := Exec(Initial(owned), steps + rest);
      && |t.calls| == |Exec(Initial(owned), steps).calls|
      && (forall k :: 0 <= k < |t.calls| ==> t.calls[k].phase.Done?)
      && t.tails == map[]
  {
    var s := Exec(Initial(owned), steps);
    RunKeeps(owned, steps);
    rest := [];
    for i := 0 to |s.calls|
      invariant var t := Exec(s, rest);
        Inv(t) && |t.calls| == |s.calls| && forall k :: 0 <= k < i ==> t.calls[k].phase.Done?
    {
      var t := Exec(s, rest);
      var ending := Ending(t.calls[i].phase, i);
      EndOne(t, i);
      Joined(s, rest, ending);
      rest := rest + ending;
    }
    Joined(Initial(owned), steps, rest);
    var t := Exec(s, rest);
    assert forall user: string :: user !in t.tails;
  }

  // ---------------------------------------------------------------- who may create

  // A creator's stored dashboards decide: below 100 the call goes on to insert, otherwise it is over. The
  // insert counts one more, at once or late, and a deletion one less.
  lemma CountDecides(s: State, i: nat)
    requires i < |s.calls|
    ensures var user := s.calls[i].user;
      var owned := if user in s.owned then s.owned[user] else 0;
      && (s.calls[i].phase.Authorizing? ==>
            var t := Next(s, Count(i));
            t.owned == s.owned && |t.calls| == |s.calls|
            && t.calls[i].phase == if owned < 100 then Counted else Done(false))
      && (s.calls[i].phase.Counted? ==>
            var t := Next(s, Insert(i));
            t.owned == s.owned[user := owned + 1] && |t.calls| == |s.calls| && t.calls[i].phase == Inserted
            && Next(Next(s, Fail(i, true)), LandLate(i)).owned == t.owned)
      && (owned > 0 ==> Next(s, Delete(user)).owned == s.owned[user := owned - 1])
  {
  }

  // The steps of one authorized call with nothing in between.
  function CallAlone(s: State, user: string): State {
    var i := |s.calls|;
    Next(Next(Next(Next(Next(s, Arrive(user)), Begin(i)), Count(i)), Insert(i)), Return(i))
  }

  // In every reachable state, a call that finds all calls of its creator done and is left alone adds one
  // dashboard exactly if the creator has fewer than 100, and clears its map entry in either case.
  lemma {:induction false} UndisturbedCall(owned: map<string, nat>, steps: seq<Step>, user: string)
    requires var calls := Exec(Initial(owned), steps).calls;
      forall k :: 0 <= k < |calls| && calls[k].user == user ==> calls[k].phase.Done?
    ensures var s := Exec(Initial(owned), steps);
      var t := CallAlone(s, user);
      var stored := if user in s.owned then s.owned[user] else 0;
      && |t.calls| == |s.calls| + 1 && t.calls[|s.calls|].phase == Done(false) && t.tails == s.tails && user !in t.tails
      && t.owned == if stored < 100 then s.owned[user := stored + 1] else s.owned
  {
    RunKeeps(owned, steps);
    EntryIffUnfinished(owned, steps, user);
    hide Exec, Initial;
    RunsAlone(Exec(Initial(owned), steps), user);
  }

  lemma {:induction false} RunsAlone(s: State, user: string)
    requires user !in s.tails
    ensures var t := CallAlone(s, user);
      var stored := if user in s.owned then s.owned[user] else 0;
      && |t.calls| == |s.calls| + 1 && t.calls[|s.calls|].phase == Done(false) && t.tails == s.tails && user !in t.tails
      && t.owned == if stored < 100 then s.owned[user := stored + 1] else s.owned
  {
    var i := |s.calls|;
    var s1 := Next(s, Arrive(user));
    var tails := s.tails[user := i];
    assert s1 == s.(calls := s.calls + [Call(user, None, Waiting)], tails := tails);
    var s2 := Next(s1, Begin(i));
    assert s2 == s1.(calls := s.calls + [Call(user, None, Authorizing)]);
    CountsAlone(s2, i);
    assert tails - {user} == s.tails;
  }

  lemma {:induction false} CountsAlone(s: State, i: nat)
    requires i < |s.calls| && s.calls[i].phase.Authorizing? && s.calls[i].user in s.tails && s.tails[s.calls[i].user] == i
    ensures var user := s.calls[i].user;
      var t := Next(Next(Next(s, Count(i)), Insert(i)), Return(i));
      var stored := if user in s.owned then s.owned[user] else 0;
      && t.calls == s.calls[i := s.calls[i].(phase := Done(false))] && t.tails == s.tails - {user}
      && t.owned == if stored < 100 then s.owned[user := stored + 1] else s.owned
  {
  }

  // ---------------------------------------------------------------- the coordinator

  // The synchronous stretches of run: entering up to the await, and the finally block. Only tails is
  // the coordinator's; the other fields stand for the promises and the store.
  class DashboardCreationCoordinator {
    var tails: map<string, nat>
    ghost var calls: seq<Call>
    ghost var owned: map<string, nat>
    ghost var late: map<string, nat>
    var created: nat

    ghost predicate Valid()
      reads this
    {
      Inv(Model()) && created == |calls|
    }

    ghost function Model(): State
      reads this
    {
      State(calls, tails, owned, late)
    }

    constructor (ghost stored: map<string, nat>)
      ensures Valid() && Model() == Initial(stored)
    {
      tails, created := map[], 0;
      calls, owned, late := [], stored, map[];
    }

    // Up to the await: which promise to wait for, and the name of the call's own tail.
    method Enter(userId: string) returns (previous: Option<nat>, tail: nat)
      requires Valid()
      modifies this
      ensures Valid() && Model() == Next(old(Model()), Arrive(userId))
      ensures tail == |old(calls)| && previous == calls[tail].previous
    {
      NextKeeps(Model(), Arrive(userId));
      previous := if userId in tails then Some(tails[userId]) else None;
      tail := created;
      created := created + 1;
      tails := tails[userId := tail];
      calls := calls + [Call(userId, previous, Waiting)];
    }

    // The finally block of a call that has begun.
    method Finish(userId: string, tail: nat, ghost mayLand: bool)
      requires Valid() && tail < |calls| && calls[tail].user == userId
      requires !calls[tail].phase.Waiting? && !calls[tail].phase.Done?
      modifies this
      ensures Valid() && Model() == Leave(old(Model()), tail, mayLand)
    {
      LeaveKeeps(Model(), tail, mayLand);
      calls := calls[tail := calls[tail].(phase := Done(mayLand))];
      if userId in tails && tails[userId] == tail {
        tails := tails - {userId};
      }
    }
  }
}
