// What the tracker and the aggregation of imports/utils/projectStats.js compute, said without their
// functions: plain sums over a list of the records, with each record's hours and rate read off its fields.
module ProjectStatsAnswers {
  import opened Options
  import opened ProjectStats

  // ---------------------------------------------------------------- reading one record

  // The number a tracker reads from a value: a text counts by its numeric start, a missing value as 0.
  ghost predicate TrackerReads(v: Value, x: real) {
    && (v.Number? ==> x == v.value)
    && (v.Text? ==> x == v.prefix)
    && (v.Undefined? || v.Null? ==> x == 0.0)
  }

  // The number the store reads: a text counts only as a whole.
  ghost predicate StoreReads(v: Value, x: real) {
    && (v.Number? ==> x == v.value)
    && (v.Text? ==> x == v.whole)
    && (v.Undefined? || v.Null? ==> x == 0.0)
  }

  // A rate that is set: neither 0 nor empty nor missing.
  ghost predicate IsSet(v: Value) {
    (v.Number? && v.value != 0.0) || (v.Text? && !v.empty)
  }

  ghost predicate ListedAt(config: Config, owner: string, i: nat, x: real) {
    i < |config.rates| && config.rates[i].0 == owner && IsSet(config.rates[i].1) && TrackerReads(config.rates[i].1, x)
  }

  ghost predicate Unlisted(config: Config, owner: string) {
    forall i :: 0 <= i < |config.rates| && config.rates[i].0 == owner ==> !IsSet(config.rates[i].1)
  }

  // An owner's own rate comes before the project's.
  ghost predicate OwnerBilled(config: Config, owner: string, x: real) {
    (exists i: nat :: ListedAt(config, owner, i, x)) || (Unlisted(config, owner) && TrackerReads(config.rate, x))
  }

  // The rate of a record in the tracker: a task rate that is set comes first, where a project has them.
  ghost predicate TrackerBills(config: Config, fields: Fields, x: real) {
    if config.individual && IsSet(fields.taskRate) then TrackerReads(fields.taskRate, x)
    else OwnerBilled(config, if fields.userId.Some? then fields.userId.value else "undefined", x)
  }

  // In the store every text is a task rate, and a record without an owner takes the project's rate.
  ghost predicate StoreBills(config: Config, fields: Fields, x: real) {
    if config.individual && (IsSet(fields.taskRate) || fields.taskRate.Text?) then StoreReads(fields.taskRate, x)
    else if fields.userId.Some? then OwnerBilled(config, fields.userId.value, x)
    else TrackerReads(config.rate, x)
  }

  lemma {:induction false} FoundAt(rates: seq<(string, Value)>, key: string, i: nat)
    requires DistinctRates(rates) && i < |rates| && rates[i].0 == key
    ensures Lookup(rates, key) == rates[i].1
  {
    if rates[0].0 != key { FoundAt(rates[1..], key, i - 1); }
  }

  lemma {:induction false} OwnerBilledIff(config: Config, owner: string, x: real)
    requires DistinctRates(config.rates)
    ensures var own := Lookup(config.rates, owner);
      OwnerBilled(config, owner, x) <==> x == FiniteNumber(if Truthy(own) then own else config.rate)
  {
    forall i | 0 <= i < |config.rates| && config.rates[i].0 == owner
      ensures Lookup(config.rates, owner) == config.rates[i].1
    {
      FoundAt(config.rates, owner, i);
    }
    hide DistinctRates;
    if i :| 0 <= i < |config.rates| && config.rates[i].0 == owner {
      assert ListedAt(config, owner, i, x) <==> IsSet(config.rates[i].1) && TrackerReads(config.rates[i].1, x);
    } else {
      NotListed(config.rates, owner);
    }
    hide Lookup;
  }

  lemma TrackerBillsIff(config: Config, fields: Fields, x: real)
    requires DistinctRates(config.rates)
    ensures TrackerBills(config, fields, x) <==> x == FiniteNumber(Rate(config, fields))
  {
    OwnerBilledIff(config, OwnerKey(fields), x);
    hide OwnerBilled, Lookup;
  }

  lemma StoreBillsIff(config: Config, fields: Fields, x: real)
    requires DistinctRates(config.rates)
    ensures StoreBills(config, fields, x) <==> x == Evaluate(RateExpression(config), fields)
  {
    UserRate(config, fields);
    OwnerBilledIff(config, OwnerKey(fields), x);
    var branches, fallback := Branches(config.rates), FiniteNumber(config.rate);
    var userRate := if branches != [] then OwnerSwitch(branches, fallback) else Constant(fallback);
    assert Evaluate(userRate, fields) == FirstBranch(branches, fallback, fields.userId);
    assert Evaluate(TaskRate, fields) == Converted(fields.taskRate);
    hide OwnerBilled, Lookup, FirstBranch, Branches;
  }

  // ---------------------------------------------------------------- sums over a list

  ghost predicate Lists(documents: Collection, ids: seq<string>) {
    && (forall id :: id in documents <==> id in ids)
    && (forall i, j :: 0 <= i < j < |ids| ==> ids[i] != ids[j])
  }

  // What was read from one record.
  datatype Reading = Reading(date: Option<int>, hours: real, rate: real)

  ghost function Hours(readings: seq<Reading>): real {
    if readings == [] then 0.0 else readings[0].hours + Hours(readings[1..])
  }

  ghost function Revenue(readings: seq<Reading>): real {
    if readings == [] then 0.0 else readings[0].hours * readings[0].rate + Revenue(readings[1..])
  }

  // The hours of the records dated from the first day through the last.
  ghost function HoursWithin(readings: seq<Reading>, range: Range): real {
    if readings == [] then 0.0
    else
      var first := readings[0];
      var counted := first.date.Some? && range.start <= first.date.value && first.date.value <= range.end;
      (if counted then first.hours else 0.0) + HoursWithin(readings[1..], range)
  }

  ghost function TotalOf(readings: seq<Reading>, config: Config, field: StatField): real {
    match field
    case TotalHours => Hours(readings)
    case TotalRevenue => Revenue(readings)
    case CurrentMonth => HoursWithin(readings, config.current)
    case PreviousMonth => HoursWithin(readings, config.previous)
    case BeforePreviousMonth => HoursWithin(readings, config.beforePrevious)
  }

  lemma {:induction false} SumOfList(config: Config, documents: Collection, ids: seq<string>, readings: seq<Reading>,
                                     field: StatField, amount: Fields -> real)
    requires Lists(documents, ids) && |readings| == |ids|
    requires forall k :: 0 <= k < |ids| ==> amount(documents[ids[k]]) == TotalOf([readings[k]], config, field)
    ensures Sum(documents, amount) == TotalOf(readings, config, field)
  {
    if ids == [] {
      assert documents == map[];
    } else {
      hide TotalOf, Sum, Lists;
      assert ids[0] in documents && Lists(documents - {ids[0]}, ids[1..])
        && forall k :: 0 <= k < |ids| ==> ids[k] in documents by { ListsRest(documents, ids); }
      var rest := documents - {ids[0]};
      SumWithout(documents, amount, ids[0]);
      forall k | 0 <= k < |ids| - 1
        ensures ids[1..][k] in rest && amount(rest[ids[1..][k]]) == TotalOf([readings[1..][k]], config, field)
      {
        ListsRest(documents, ids);
        assert ids[1..][k] == ids[k + 1] && readings[1..][k] == readings[k + 1];
      }
      SumOfList(config, rest, ids[1..], readings[1..], field, amount);
      FirstAndRest(readings, config, field);
    }
  }

  lemma ListsRest(documents: Collection, ids: seq<string>)
    requires Lists(documents, ids) && ids != []
    ensures Lists(documents - {ids[0]}, ids[1..])
    ensures forall k :: 0 <= k < |ids| ==> ids[k] in documents
    ensures forall k :: 0 < k < |ids| ==> ids[k] in documents - {ids[0]}
  {
    forall id ensures id in documents - {ids[0]} <==> id in ids[1..] {
      if id in ids && id != ids[0] {
        var k :| 0 <= k < |ids| && ids[k] == id;
        assert ids[1..][k - 1] == id;
      }
    }
  }

  lemma {:induction false} Single(r: Reading, range: Range)
    ensures Hours([r]) == r.hours && Revenue([r]) == r.hours * r.rate
    ensures HoursWithin([r], range) ==
      if r.date.Some? && range.start <= r.date.value <= range.end then r.hours else 0.0
  {
    assert [r][1..] == [];
    assert Hours([r][1..]) == 0.0 && Revenue([r][1..]) == 0.0 && HoursWithin([r][1..], range) == 0.0;
  }

  lemma Singles(r: Reading, config: Config)
    ensures Hours([r]) == r.hours && Revenue([r]) == r.hours * r.rate
    ensures forall range :: range in {config.current, config.previous, config.beforePrevious} ==>
      HoursWithin([r], range) == if r.date.Some? && range.start <= r.date.value <= range.end then r.hours else 0.0
  {
    Single(r, config.current);
    Single(r, config.previous);
    Single(r, config.beforePrevious);
  }

  lemma {:induction false} FirstAndRest(readings: seq<Reading>, config: Config, field: StatField)
    requires readings != []
    ensures TotalOf(readings, config, field) == TotalOf([readings[0]], config, field) + TotalOf(readings[1..], config, field)
  {
    Singles(readings[0], config);
    assert field in FIELDS by { EveryField(field); }
  }

  ghost predicate TrackerReading(config: Config, fields: Fields, r: Reading) {
    r.date == fields.date && TrackerReads(fields.hours, r.hours) && TrackerBills(config, fields, r.rate)
  }

  ghost predicate StoreReading(config: Config, fields: Fields, r: Reading) {
    r.date == fields.date && StoreReads(fields.hours, r.hours) && StoreBills(config, fields, r.rate)
  }

  // The totals the tracker keeps, for any list of the records and what a tracker reads from each.
  lemma {:induction false} TrackerTotals(config: Config, documents: Collection, ids: seq<string>,
                                         readings: seq<Reading>, field: StatField)
    requires DistinctRates(config.rates) && Lists(documents, ids) && |readings| == |ids|
    requires forall k :: 0 <= k < |ids| ==> TrackerReading(config, documents[ids[k]], readings[k])
    ensures Recomputed(config, documents, field) == TotalOf(readings, config, field)
  {
    forall k | 0 <= k < |ids|
      ensures AmountOf(config, field)(documents[ids[k]]) == TotalOf([readings[k]], config, field)
    {
      TrackerAmount(config, documents[ids[k]], readings[k], field);
    }
    SumOfList(config, documents, ids, readings, field, AmountOf(config, field));
  }

  lemma TrackerAmount(config: Config, fields: Fields, r: Reading, field: StatField)
    requires DistinctRates(config.rates) && TrackerReading(config, fields, r)
    ensures Amount(config, fields, field) == TotalOf([r], config, field)
  {
    TrackerBillsIff(config, fields, r.rate);
    Singles(r, config);
    hide TrackerBills, Rate;
  }

  // The totals the aggregation computes, for what the store reads from each record.
  lemma {:induction false} StoreTotals(config: Config, documents: Collection, ids: seq<string>,
                                       readings: seq<Reading>, field: StatField)
    requires DistinctRates(config.rates) && Lists(documents, ids) && |readings| == |ids|
    requires forall k :: 0 <= k < |ids| ==> StoreReading(config, documents[ids[k]], readings[k])
    ensures Aggregated(config, documents, field) == TotalOf(readings, config, field)
  {
    forall k | 0 <= k < |ids|
      ensures MeaningOf(Group(config, field))(documents[ids[k]]) == TotalOf([readings[k]], config, field)
    {
      StoreAmount(config, documents[ids[k]], readings[k], field);
    }
    SumOfList(config, documents, ids, readings, field, MeaningOf(Group(config, field)));
  }

  lemma StoreAmount(config: Config, fields: Fields, r: Reading, field: StatField)
    requires DistinctRates(config.rates) && StoreReading(config, fields, r)
    ensures Evaluate(Group(config, field), fields) == TotalOf([r], config, field)
  {
    StoreBillsIff(config, fields, r.rate);
    assert Evaluate(ProjectStats.Hours, fields) == Converted(fields.hours);
    Singles(r, config);
    if field == TotalRevenue {
      assert Evaluate(Group(config, field), fields) == Converted(fields.hours) * Evaluate(RateExpression(config), fields);
    }
    hide StoreBills, RateExpression;
  }

  // ---------------------------------------------------------------- what the events leave

  ghost predicate Drops(e: Event, id: string) {
    e.Cleared? || (e.Removed? && e.id == id)
  }

  ghost predicate AddedLast(events: seq<Event>, id: string, i: nat) {
    && i < |events| && events[i].Added? && events[i].id == id
    && forall j :: i < j < |events| ==> !Drops(events[j], id)
  }

  // A record is there exactly when it was added and neither removed nor cleared away since.
  lemma {:induction false} ThereIff(events: seq<Event>, id: string)
    ensures id in AllReported(events) <==> exists i: nat :: AddedLast(events, id, i)
  {
    if events != [] {
      var n := |events| - 1;
      var before := events[..n];
      ThereIff(before, id);
      assert AddedLast(events, id, n) <==> events[n].Added? && events[n].id == id;
      if !Drops(events[n], id) {
        assert forall i: nat :: AddedLast(before, id, i) ==> AddedLast(events, id, i);
        assert forall i: nat :: i < n && AddedLast(events, id, i) ==> AddedLast(before, id, i);
      }
    }
  }

  ghost predicate GivesDate(e: Event, id: string, date: Option<int>) {
    (e.Added? && e.id == id && e.fields.date == date) || (e.Changed? && e.id == id && e.patch.date == Some(date))
  }

  ghost predicate GivesHours(e: Event, id: string, hours: Value) {
    (e.Added? && e.id == id && e.fields.hours == hours) || (e.Changed? && e.id == id && e.patch.hours == Some(hours))
  }

  ghost predicate GivesOwner(e: Event, id: string, owner: Option<string>) {
    (e.Added? && e.id == id && e.fields.userId == owner) || (e.Changed? && e.id == id && e.patch.userId == Some(owner))
  }

  ghost predicate GivesRate(e: Event, id: string, rate: Value) {
    (e.Added? && e.id == id && e.fields.taskRate == rate) || (e.Changed? && e.id == id && e.patch.taskRate == Some(rate))
  }

  // Each field of a record that stays is what the last event that names the field said.
  lemma {:induction false} LastWord(events: seq<Event>, id: string, i: nat)
    requires i < |events| && id in AllReported(events[..i + 1])
    requires forall j :: i < j < |events| ==> !Drops(events[j], id)
    ensures id in AllReported(events)
    ensures (forall j, x :: i < j < |events| ==> !GivesDate(events[j], id, x)) ==>
      forall d :: GivesDate(events[i], id, d) ==> AllReported(events)[id].date == d
    ensures (forall j, x :: i < j < |events| ==> !GivesHours(events[j], id, x)) ==>
      forall h :: GivesHours(events[i], id, h) ==> AllReported(events)[id].hours == h
    ensures (forall j, x :: i < j < |events| ==> !GivesOwner(events[j], id, x)) ==>
      forall o :: GivesOwner(events[i], id, o) ==> AllReported(events)[id].userId == o
    ensures (forall j, x :: i < j < |events| ==> !GivesRate(events[j], id, x)) ==>
      forall r :: GivesRate(events[i], id, r) ==> AllReported(events)[id].taskRate == r
  {
    var n := |events| - 1;
    if i == n {
      assert events[..i + 1] == events;
    } else {
      var before := events[..n];
      assert before[..i + 1] == events[..i + 1];
      LastWord(before, id, i);
      LastEventKeeps(events, id);
    }
  }

  lemma LastEventKeeps(events: seq<Event>, id: string)
    requires events != [] && id in AllReported(events[..|events| - 1]) && !Drops(events[|events| - 1], id)
    ensures id in AllReported(events)
    ensures var last, was, now := events[|events| - 1], AllReported(events[..|events| - 1])[id], AllReported(events)[id];
      && ((forall d :: !GivesDate(last, id, d)) ==> now.date == was.date)
      && ((forall h :: !GivesHours(last, id, h)) ==> now.hours == was.hours)
      && ((forall o :: !GivesOwner(last, id, o)) ==> now.userId == was.userId)
      && ((forall r :: !GivesRate(last, id, r)) ==> now.taskRate == was.taskRate)
  {
    var last, now := events[|events| - 1], AllReported(events)[id];
    if (last.Added? || last.Changed?) && last.id == id {
      assert last.Added? ==> GivesDate(last, id, now.date) && GivesHours(last, id, now.hours)
                             && GivesOwner(last, id, now.userId) && GivesRate(last, id, now.taskRate);
      assert last.Changed? && last.patch.date.Some? ==> GivesDate(last, id, last.patch.date.value);
      assert last.Changed? && last.patch.hours.Some? ==> GivesHours(last, id, last.patch.hours.value);
      assert last.Changed? && last.patch.userId.Some? ==> GivesOwner(last, id, last.patch.userId.value);
      assert last.Changed? && last.patch.taskRate.Some? ==> GivesRate(last, id, last.patch.taskRate.value);
    }
  }
}
