// Project statistics of imports/utils/projectStats.js: the tracker that keeps totals up to date from
// observer events, against the aggregation pipeline that computes them in the store. Arithmetic is exact.
module ProjectStats {
  import opened Options

  // ---------------------------------------------------------------- values and records

  // A stored value. For a text, prefix is the number parseFloat reads from its start and whole is the
  // number the store's conversion reads from all of it; both are 0 when nothing can be read.
  datatype Value = Undefined | Null | Number(value: real) | Text(prefix: real, whole: real, empty: bool)

  function FiniteNumber(v: Value): real {
    match v case Number(value) => value case Text(prefix, _, _) => prefix case _ => 0.0
  }

  function Converted(v: Value): real {
    match v case Number(value) => value case Text(_, whole, _) => whole case _ => 0.0
  }

  predicate Truthy(v: Value) {
    match v case Number(value) => value != 0.0 case Text(_, _, empty) => !empty case _ => false
  }

  // The store's conditions take every text for true.
  predicate StoreTruthy(v: Value) {
    match v case Number(value) => value != 0.0 case Text(_, _, _) => true case _ => false
  }

  datatype Fields = Fields(date: Option<int>, hours: Value, userId: Option<string>, taskRate: Value)

  datatype StatField = TotalHours | TotalRevenue | CurrentMonth | PreviousMonth | BeforePreviousMonth

  const FIELDS: seq<StatField> := [TotalHours, TotalRevenue, CurrentMonth, PreviousMonth, BeforePreviousMonth]

  datatype Totals = Totals(hours: real, revenue: real, current: real, previous: real, beforePrevious: real) {
    function Of(field: StatField): real {
      match field
      case TotalHours => hours
      case TotalRevenue => revenue
      case CurrentMonth => current
      case PreviousMonth => previous
      case BeforePreviousMonth => beforePrevious
    }

    function With(field: StatField, value: real): Totals {
      match field
      case TotalHours => this.(hours := value)
      case TotalRevenue => this.(revenue := value)
      case CurrentMonth => this.(current := value)
      case PreviousMonth => this.(previous := value)
      case BeforePreviousMonth => this.(beforePrevious := value)
    }
  }

  const EMPTY := Totals(0.0, 0.0, 0.0, 0.0, 0.0)

  lemma SameTotals(a: Totals, b: Totals)
    ensures a == b <==> forall f: StatField :: a.Of(f) == b.Of(f)
  {
    if forall f: StatField :: a.Of(f) == b.Of(f) {
      assert a.Of(TotalHours) == b.Of(TotalHours) && a.Of(TotalRevenue) == b.Of(TotalRevenue);
      assert a.Of(CurrentMonth) == b.Of(CurrentMonth) && a.Of(PreviousMonth) == b.Of(PreviousMonth);
      assert a.Of(BeforePreviousMonth) == b.Of(BeforePreviousMonth);
    }
  }

  datatype Range = Range(start: int, end: int)

  datatype Config = Config(rate: Value, rates: seq<(string, Value)>, individual: bool,
                           current: Range, previous: Range, beforePrevious: Range)

  // The rates are the entries of an object: every key once.
  ghost predicate DistinctRates(rates: seq<(string, Value)>) {
    forall i, j :: 0 <= i < j < |rates| ==> rates[i].0 != rates[j].0
  }

  function Lookup(rates: seq<(string, Value)>, key: string): Value {
    if rates == [] then Undefined else if rates[0].0 == key then rates[0].1 else Lookup(rates[1..], key)
  }

  // ---------------------------------------------------------------- what one record contributes

  // A missing owner is looked up as a property named "undefined".
  function OwnerKey(fields: Fields): string {
    if fields.userId.Some? then fields.userId.value else "undefined"
  }

  // The rate when it does not take the task rate.
  function OwnerRate(config: Config, fields: Fields): Value {
    var own := Lookup(config.rates, OwnerKey(fields));
    if Truthy(own) then own else config.rate
  }

  function Rate(config: Config, fields: Fields): Value {
    if config.individual && Truthy(fields.taskRate) then fields.taskRate else OwnerRate(config, fields)
  }

  predicate Inside(range: Range, date: Option<int>) {
    date.Some? && range.start <= date.value <= range.end
  }

  function Amount(config: Config, fields: Fields, field: StatField): real {
    var hours := FiniteNumber(fields.hours);
    match field
    case TotalHours => hours
    case TotalRevenue => hours * FiniteNumber(Rate(config, fields))
    case CurrentMonth => if Inside(config.current, fields.date) then hours else 0.0
    case PreviousMonth => if Inside(config.previous, fields.date) then hours else 0.0
    case BeforePreviousMonth => if Inside(config.beforePrevious, fields.date) then hours else 0.0
  }

  function Contribution(config: Config, fields: Fields): Totals {
    Totals(Amount(config, fields, TotalHours), Amount(config, fields, TotalRevenue),
           Amount(config, fields, CurrentMonth), Amount(config, fields, PreviousMonth),
           Amount(config, fields, BeforePreviousMonth))
  }

  // ---------------------------------------------------------------- sums over a collection

  type Collection = map<string, Fields>

  ghost function Sum(documents: Collection, amount: Fields -> real): real {
    if documents == map[] then 0.0
    else
      var id :| id in documents;
      amount(documents[id]) + Sum(documents - {id}, amount)
  }

  // The order of the records does not matter.
  lemma {:induction false} SumWithout(documents: Collection, amount: Fields -> real, id: string)
    requires id in documents
    ensures Sum(documents, amount) == amount(documents[id]) + Sum(documents - {id}, amount)
    decreases |documents|
  {
    var first :| first in documents &&
      Sum(documents, amount) == amount(documents[first]) + Sum(documents - {first}, amount);
    if first != id {
      SumWithout(documents - {first}, amount, id);
      SumWithout(documents - {id}, amount, first);
      assert documents - {first} - {id} == documents - {id} - {first};
    }
  }

  lemma SumWith(documents: Collection, amount: Fields -> real, id: string, fields: Fields)
    ensures Sum(documents[id := fields], amount) ==
      Sum(documents, amount) - (if id in documents then amount(documents[id]) else 0.0) + amount(fields)
  {
    var updated := documents[id := fields];
    SumWithout(updated, amount, id);
    assert updated - {id} == documents - {id};
    if id in documents {
      SumWithout(documents, amount, id);
    } else {
      assert documents - {id} == documents;
    }
  }

  lemma {:induction false} SumSame(documents: Collection, a: Fields -> real, b: Fields -> real)
    requires forall id <- documents :: a(documents[id]) == b(documents[id])
    ensures Sum(documents, a) == Sum(documents, b)
    decreases |documents|
  {
    if documents != map[] {
      var id :| id in documents;
      SumWithout(documents, a, id);
      SumWithout(documents, b, id);
      SumSame(documents - {id}, a, b);
    }
  }

  function AmountOf(config: Config, field: StatField): Fields -> real {
    fields => Amount(config, fields, field)
  }

  ghost function Recomputed(config: Config, documents: Collection, field: StatField): real {
    Sum(documents, AmountOf(config, field))
  }

  // ---------------------------------------------------------------- the aggregation

  datatype Expression =
    | Constant(value: real)
    | Hours
    | TaskRate
    | Multiply(left: Expression, right: Expression)
    | IfTaskRate(yes: Expression, no: Expression)
    | OwnerSwitch(branches: seq<(string, real)>, fallback: real)
    | IfInside(range: Range, yes: Expression)

  function Evaluate(e: Expression, fields: Fields): real {
    match e
    case Constant(value) => value
    case Hours => Converted(fields.hours)
    case TaskRate => Converted(fields.taskRate)
    case Multiply(left, right) => Evaluate(left, fields) * Evaluate(right, fields)
    case IfTaskRate(yes, no) => if StoreTruthy(fields.taskRate) then Evaluate(yes, fields) else Evaluate(no, fields)
    case OwnerSwitch(branches, fallback) => FirstBranch(branches, fallback, fields.userId)
    case IfInside(range, yes) => if Inside(range, fields.date) then Evaluate(yes, fields) else 0.0
  }

  function FirstBranch(branches: seq<(string, real)>, fallback: real, userId: Option<string>): real {
    if branches == [] then fallback
    else if userId == Some(branches[0].0) then branches[0].1
    else FirstBranch(branches[1..], fallback, userId)
  }

  function Branches(rates: seq<(string, Value)>): seq<(string, real)> {
    if rates == [] then []
    else
      var rest := Branches(rates[1..]);
      if Truthy(rates[0].1) then [(rates[0].0, FiniteNumber(rates[0].1))] + rest else rest
  }

  function RateExpression(config: Config): Expression {
    var branches := Branches(config.rates);
    var userRate :=
      if branches != [] then OwnerSwitch(branches, FiniteNumber(config.rate))
      else Constant(FiniteNumber(config.rate));
    if config.individual then IfTaskRate(TaskRate, userRate) else userRate
  }

  // The group stage of buildProjectStatsAggregation.
  function Group(config: Config, field: StatField): Expression {
    match field
    case TotalHours => Hours
    case TotalRevenue => Multiply(Hours, RateExpression(config))
    case CurrentMonth => IfInside(config.current, Hours)
    case PreviousMonth => IfInside(config.previous, Hours)
    case BeforePreviousMonth => IfInside(config.beforePrevious, Hours)
  }

  function MeaningOf(e: Expression): Fields -> real {
    fields => Evaluate(e, fields)
  }

  ghost function Aggregated(config: Config, documents: Collection, field: StatField): real {
    Sum(documents, MeaningOf(Group(config, field)))
  }

  // ---------------------------------------------------------------- the two agree

  // Both sides read the same number: always so for numbers and for missing values.
  predicate ReadsAlike(v: Value) {
    v.Text? ==> v.prefix == v.whole
  }

  // When both sides find the same rate. An empty task rate is taken by the store only; a record
  // without an owner finds a rate filed under the name "undefined" in the tracker only.
  predicate RatesAlike(config: Config, fields: Fields) {
    if config.individual && fields.taskRate.Text? && fields.taskRate.empty then
      fields.taskRate.whole == FiniteNumber(OwnerRate(config, fields))
    else if config.individual && Truthy(fields.taskRate) then ReadsAlike(fields.taskRate)
    else fields.userId.Some? || FiniteNumber(OwnerRate(config, fields)) == FiniteNumber(config.rate)
  }

  // When both sides compute the same from a record.
  predicate Alike(config: Config, fields: Fields) {
    ReadsAlike(fields.hours) && (FiniteNumber(fields.hours) == 0.0 || RatesAlike(config, fields))
  }

  lemma {:induction false} SwitchIsLookup(rates: seq<(string, Value)>, fallback: Value, key: string)
    requires DistinctRates(rates)
    ensures FirstBranch(Branches(rates), FiniteNumber(fallback), Some(key)) ==
      FiniteNumber(if Truthy(Lookup(rates, key)) then Lookup(rates, key) else fallback)
  {
    if rates != [] {
      var rest := rates[1..];
      SwitchIsLookup(rest, fallback, key);
      if rates[0].0 == key && !Truthy(rates[0].1) { NotListed(rest, key); }
      if Truthy(rates[0].1) { assert Branches(rates)[1..] == Branches(rest); }
    }
  }

  lemma {:induction false} NotListed(rates: seq<(string, Value)>, key: string)
    requires forall i :: 0 <= i < |rates| ==> rates[i].0 != key
    ensures Lookup(rates, key) == Undefined
  {
    if rates != [] { NotListed(rates[1..], key); }
  }

  lemma {:induction false} NobodySwitch(branches: seq<(string, real)>, fallback: real)
    ensures FirstBranch(branches, fallback, None) == fallback
  {
    if branches != [] { NobodySwitch(branches[1..], fallback); }
  }

  // The user's rate in the pipeline, after the switch.
  lemma {:induction false} UserRate(config: Config, fields: Fields)
    requires DistinctRates(config.rates)
    ensures FirstBranch(Branches(config.rates), FiniteNumber(config.rate), fields.userId) ==
      if fields.userId.Some? then FiniteNumber(OwnerRate(config, fields)) else FiniteNumber(config.rate)
  {
    if fields.userId.Some? {
      SwitchIsLookup(config.rates, config.rate, fields.userId.value);
    } else {
      NobodySwitch(Branches(config.rates), FiniteNumber(config.rate));
    }
  }

  lemma {:induction false} RatesAgreeIff(config: Config, fields: Fields)
    requires DistinctRates(config.rates)
    ensures Evaluate(RateExpression(config), fields) == FiniteNumber(Rate(config, fields)) <==> RatesAlike(config, fields)
  {
    var branches, fallback := Branches(config.rates), FiniteNumber(config.rate);
    UserRate(config, fields);
    var userRate := if branches != [] then OwnerSwitch(branches, fallback) else Constant(fallback);
    assert Evaluate(userRate, fields) == FirstBranch(branches, fallback, fields.userId);
    assert Evaluate(TaskRate, fields) == Converted(fields.taskRate);
    hide Lookup, FirstBranch, Branches;
  }

  // Hours agree where they are counted, exactly when they are read alike.
  lemma {:induction false} HoursFieldAgreesIff(config: Config, fields: Fields, field: StatField)
    requires !field.TotalRevenue?
    ensures Evaluate(Group(config, field), fields) == Amount(config, fields, field) <==>
      match field
      case CurrentMonth => Inside(config.current, fields.date) ==> ReadsAlike(fields.hours)
      case PreviousMonth => Inside(config.previous, fields.date) ==> ReadsAlike(fields.hours)
      case BeforePreviousMonth => Inside(config.beforePrevious, fields.date) ==> ReadsAlike(fields.hours)
      case _ => ReadsAlike(fields.hours)
  {
    assert Evaluate(Hours, fields) == Converted(fields.hours);
  }

  lemma ProductsAgreeIff(a: real, b: real, r: real)
    ensures r * a == r * b <==> r == 0.0 || a == b
    ensures a * r == b * r <==> r == 0.0 || a == b
  {
    if r * a == r * b { assert r * (a - b) == 0.0; }
    if a * r == b * r { assert (a - b) * r == 0.0; }
  }

  // Revenue agrees for hours read alike exactly when they are none or the rates agree, and for rates
  // that agree exactly when the hours do or the rate is none. Where both differ only chance can help.
  lemma {:induction false} RevenueAgreesIff(config: Config, fields: Fields)
    requires DistinctRates(config.rates)
    ensures var agrees := Evaluate(Group(config, TotalRevenue), fields) == Amount(config, fields, TotalRevenue);
      && (ReadsAlike(fields.hours) ==> (agrees <==> FiniteNumber(fields.hours) == 0.0 || RatesAlike(config, fields)))
      && (RatesAlike(config, fields) ==>
            (agrees <==> ReadsAlike(fields.hours) || FiniteNumber(Rate(config, fields)) == 0.0))
  {
    RatesAgreeIff(config, fields);
    var hours, converted := FiniteNumber(fields.hours), Converted(fields.hours);
    var rate, stored := FiniteNumber(Rate(config, fields)), Evaluate(RateExpression(config), fields);
    ProductsAgreeIff(stored, rate, hours);
    ProductsAgreeIff(converted, hours, rate);
    assert Evaluate(Group(config, TotalRevenue), fields) == converted * stored;
    hide RateExpression, Rate, RatesAlike, Evaluate, Group;
  }

  // All five amounts agree exactly for the records that are read alike.
  lemma {:induction false} AllAmountsAgreeIff(config: Config, fields: Fields)
    requires DistinctRates(config.rates)
    ensures (forall field: StatField :: Evaluate(Group(config, field), fields) == Amount(config, fields, field))
      <==> Alike(config, fields)
  {
    RevenueAgreesIff(config, fields);
    forall field: StatField | !field.TotalRevenue? { HoursFieldAgreesIff(config, fields, field); }
    HoursFieldAgreesIff(config, fields, TotalHours);
    hide RatesAlike, Evaluate, Group, Amount;
  }

  // The pipeline's expressions mean the tracker's contribution.
  lemma {:induction false} ExpressionIsAmount(config: Config, fields: Fields, field: StatField)
    requires DistinctRates(config.rates) && Alike(config, fields)
    ensures Evaluate(Group(config, field), fields) == Amount(config, fields, field)
  {
    hide Alike, Evaluate, Group, Amount;
    AllAmountsAgreeIff(config, fields);
  }

  lemma AggregationIsRecomputation(config: Config, documents: Collection, field: StatField)
    requires DistinctRates(config.rates) && forall id <- documents :: Alike(config, documents[id])
    ensures Aggregated(config, documents, field) == Recomputed(config, documents, field)
  {
    forall id <- documents
      ensures Evaluate(Group(config, field), documents[id]) == Amount(config, documents[id], field)
    {
      ExpressionIsAmount(config, documents[id], field);
    }
    SumSame(documents, MeaningOf(Group(config, field)), AmountOf(config, field));
  }

  lemma {:induction false} SumOfOne(id: string, fields: Fields, amount: Fields -> real)
    ensures Sum(map[id := fields], amount) == amount(fields)
  {
    var one: Collection := map[id := fields];
    SumWithout(one, amount, id);
    assert one - {id} == map[];
  }

  // For a single record the two hour totals agree exactly when its hours read alike. "7h" does not.
  lemma {:induction false} HoursAgreeIff(config: Config, id: string, fields: Fields)
    ensures Aggregated(config, map[id := fields], TotalHours) == Recomputed(config, map[id := fields], TotalHours)
      <==> ReadsAlike(fields.hours)
  {
    SumOfOne(id, fields, MeaningOf(Group(config, TotalHours)));
    SumOfOne(id, fields, AmountOf(config, TotalHours));
  }

  // For a single record all five totals agree exactly when it is read alike, so the condition of
  // AggregationIsRecomputation cannot be weakened for any record.
  lemma {:induction false} TotalsAgreeIff(config: Config, id: string, fields: Fields)
    requires DistinctRates(config.rates)
    ensures var one: Collection := map[id := fields];
      (forall field: StatField :: Aggregated(config, one, field) == Recomputed(config, one, field))
        <==> Alike(config, fields)
  {
    forall field: StatField
      ensures Aggregated(config, map[id := fields], field) == Evaluate(Group(config, field), fields)
      ensures Recomputed(config, map[id := fields], field) == Amount(config, fields, field)
    {
      SumOfOne(id, fields, MeaningOf(Group(config, field)));
      SumOfOne(id, fields, AmountOf(config, field));
    }
    AllAmountsAgreeIff(config, fields);
    hide Alike, Evaluate, Group, Amount, Aggregated, Recomputed;
  }

  // ---------------------------------------------------------------- events

  // A changed event carries some fields; a carried field that is undefined is dropped from the record.
  datatype Patch = Patch(date: Option<Option<int>>, hours: Option<Value>, userId: Option<Option<string>>,
                         taskRate: Option<Value>)

  function Merge(fields: Fields, patch: Patch): Fields {
    Fields(if patch.date.Some? then patch.date.value else fields.date,
           if patch.hours.Some? then patch.hours.value else fields.hours,
           if patch.userId.Some? then patch.userId.value else fields.userId,
           if patch.taskRate.Some? then patch.taskRate.value else fields.taskRate)
  }

  datatype Event = Added(id: string, fields: Fields) | Changed(id: string, patch: Patch) | Removed(id: string) | Cleared

  // What the observer has reported.
  function Reported(documents: Collection, event: Event): Collection {
    match event
    case Added(id, fields) => documents[id := fields]
    case Changed(id, patch) => if id in documents then documents[id := Merge(documents[id], patch)] else documents
    case Removed(id) => documents - {id}
    case Cleared => map[]
  }

  function AllReported(events: seq<Event>): Collection {
    if events == [] then map[] else Reported(AllReported(events[..|events| - 1]), events[|events| - 1])
  }

  // ---------------------------------------------------------------- the tracker

  // The first fields have moved by the difference of two contributions, the others not yet.
  ghost predicate Moved(was: Totals, now: Totals, previous: Totals, next: Totals, upTo: nat) {
    && upTo <= |FIELDS|
    && (forall j :: 0 <= j < upTo ==>
          now.Of(FIELDS[j]) == was.Of(FIELDS[j]) + next.Of(FIELDS[j]) - previous.Of(FIELDS[j]))
    && (forall j :: upTo <= j < |FIELDS| ==> now.Of(FIELDS[j]) == was.Of(FIELDS[j]))
  }

  ghost predicate Differ(previous: Totals, next: Totals, upTo: nat)
    requires upTo <= |FIELDS|
  {
    exists j :: 0 <= j < upTo && next.Of(FIELDS[j]) != previous.Of(FIELDS[j])
  }

  lemma MoveOne(was: Totals, now: Totals, previous: Totals, next: Totals, i: nat, value: real)
    requires i < |FIELDS| && Moved(was, now, previous, next, i)
    requires value == now.Of(FIELDS[i]) + next.Of(FIELDS[i]) - previous.Of(FIELDS[i])
    ensures Moved(was, now.With(FIELDS[i], value), previous, next, i + 1)
    ensures value == now.Of(FIELDS[i]) ==> now.With(FIELDS[i], value) == now
    ensures Differ(previous, next, i + 1) <==> Differ(previous, next, i) || next.Of(FIELDS[i]) != previous.Of(FIELDS[i])
  {
  }

  lemma AllMoved(was: Totals, now: Totals, previous: Totals, next: Totals)
    requires Moved(was, now, previous, next, |FIELDS|)
    ensures forall f: StatField :: now.Of(f) == was.Of(f) + next.Of(f) - previous.Of(f)
    ensures was != now <==> Differ(previous, next, |FIELDS|)
  {
    forall f: StatField ensures now.Of(f) == was.Of(f) + next.Of(f) - previous.Of(f) {
      EveryField(f);
    }
    if !Differ(previous, next, |FIELDS|) {
      forall f: StatField ensures now.Of(f) == was.Of(f) { EveryField(f); }
      SameTotals(was, now);
    }
  }

  // The field loop of replace: the flag tells whether any total has moved.
  method SwapContribution(was: Totals, previous: Totals, next: Totals) returns (now: Totals, changed: bool)
    ensures forall f: StatField :: now.Of(f) == was.Of(f) + next.Of(f) - previous.Of(f)
    ensures changed <==> now != was
  {
    hide Totals.Of, Totals.With, Moved, Differ;
    now, changed := was, false;
    StartMoving(was, previous, next);
    for i := 0 to |FIELDS|
      invariant Moved(was, now, previous, next, i)
      invariant changed <==> Differ(previous, next, i)
    {
      var field := FIELDS[i];
      MoveOne(was, now, previous, next, i, now.Of(field) + next.Of(field) - previous.Of(field));
      if next.Of(field) != previous.Of(field) {
        now := now.With(field, now.Of(field) + (next.Of(field) - previous.Of(field)));
        changed := true;
      }
    }
    AllMoved(was, now, previous, next);
  }

  // The field loops of removed.
  method DropContribution(was: Totals, previous: Totals) returns (now: Totals, changed: bool)
    ensures forall f: StatField :: now.Of(f) == was.Of(f) - previous.Of(f)
    ensures changed <==> now != was
  {
    now, changed := was, false;
    assert forall f: StatField :: EMPTY.Of(f) == 0.0;
    hide Totals.Of, Totals.With, Moved, Differ;
    StartMoving(was, previous, EMPTY);
    for i := 0 to |FIELDS|
      invariant Moved(was, now, previous, EMPTY, i)
      invariant changed <==> Differ(previous, EMPTY, i)
    {
      var field := FIELDS[i];
      MoveOne(was, now, previous, EMPTY, i, now.Of(field) + EMPTY.Of(field) - previous.Of(field));
      changed := changed || previous.Of(field) != 0.0;
      now := now.With(field, now.Of(field) - previous.Of(field));
    }
    AllMoved(was, now, previous, EMPTY);
  }

  lemma StartMoving(was: Totals, previous: Totals, next: Totals)
    ensures Moved(was, was, previous, next, 0) && !Differ(previous, next, 0)
  {
  }

  datatype Record = Record(fields: Fields, contribution: Totals)

  ghost function FieldsOf(records: map<string, Record>): Collection {
    map id <- records :: records[id].fields
  }

  // The kept contributions are those of the kept fields, and the totals are their sums.
  ghost predicate Tracked(config: Config, records: map<string, Record>, totals: Totals) {
    && (forall id <- records :: records[id].contribution == Contribution(config, records[id].fields))
    && (forall f: StatField :: totals.Of(f) == Recomputed(config, FieldsOf(records), f))
  }

  lemma ReplaceKeeps(config: Config, records: map<string, Record>, totals: Totals, id: string, fields: Fields,
                     now: Totals)
    requires Tracked(config, records, totals)
    requires var previous := if id in records then records[id].contribution else EMPTY;
      forall f: StatField :: now.Of(f) == totals.Of(f) + Contribution(config, fields).Of(f) - previous.Of(f)
    ensures var updated := records[id := Record(fields, Contribution(config, fields))];
      FieldsOf(updated) == FieldsOf(records)[id := fields] && Tracked(config, updated, now)
  {
    var updated := records[id := Record(fields, Contribution(config, fields))];
    assert FieldsOf(updated) == FieldsOf(records)[id := fields];
    assert forall f: StatField :: EMPTY.Of(f) == 0.0;
    Replaced(config, FieldsOf(records), id, fields);
    hide Recomputed, Contribution, Totals.Of;
  }

  lemma RemoveKeeps(config: Config, records: map<string, Record>, totals: Totals, id: string, now: Totals)
    requires Tracked(config, records, totals) && id in records
    requires forall f: StatField :: now.Of(f) == totals.Of(f) - records[id].contribution.Of(f)
    ensures FieldsOf(records - {id}) == FieldsOf(records) - {id} && Tracked(config, records - {id}, now)
  {
    hide Recomputed, Contribution, Totals.Of;
    assert FieldsOf(records - {id}) == FieldsOf(records) - {id};
    Dropped(config, FieldsOf(records), id);
  }

  lemma NothingLeft(config: Config, records: map<string, Record>, totals: Totals)
    requires Tracked(config, records, totals) && |records| == 0
    ensures totals == EMPTY
  {
    assert FieldsOf(records) == map[];
    SameTotals(totals, EMPTY);
  }

  class Tracker {
    const config: Config
    var records: map<string, Record>
    var totals: Totals

    ghost predicate Valid()
      reads this
    {
      Tracked(config, records, totals)
    }

    ghost function Documents(): Collection
      reads this
    {
      FieldsOf(records)
    }

    constructor (config: Config)
      ensures Valid() && Documents() == map[] && this.config == config
    {
      this.config := config;
      records := map[];
      totals := EMPTY;
    }

    // replace: swaps the old contribution for the new one, field by field.
    method Replace(id: string, fields: Fields) returns (changed: bool)
      requires Valid()
      modifies this
      ensures Valid() && Documents() == old(Documents())[id := fields]
      ensures changed <==> totals != old(totals)
    {
      var previous := if id in records then records[id].contribution else EMPTY;
      var next := Contribution(config, fields);
      ghost var was := records;
      records := records[id := Record(fields, next)];
      totals, changed := SwapContribution(totals, previous, next);
      ReplaceKeeps(config, was, old(totals), id, fields, totals);
    }

    method Added(id: string, fields: Fields) returns (changed: bool)
      requires Valid()
      modifies this
      ensures Valid() && Documents() == Reported(old(Documents()), Event.Added(id, fields))
      ensures changed <==> totals != old(totals)
    {
      changed := Replace(id, fields);
    }

    method Changed(id: string, patch: Patch) returns (changed: bool)
      requires Valid()
      modifies this
      ensures Valid() && Documents() == Reported(old(Documents()), Event.Changed(id, patch))
      ensures changed <==> totals != old(totals)
    {
      if id !in records {
        return false;
      }
      changed := Replace(id, Merge(records[id].fields, patch));
    }

    method Removed(id: string) returns (changed: bool)
      requires Valid()
      modifies this
      ensures Valid() && Documents() == Reported(old(Documents()), Event.Removed(id))
      ensures changed <==> totals != old(totals)
    {
      hide Tracked, Totals.Of, Sum, Contribution, Moved, Differ, Amount;
      if id !in records {
        assert Documents() - {id} == Documents();
        return false;
      }
      var previous := records[id].contribution;
      ghost var was := records;
      records := records - {id};
      totals, changed := DropContribution(totals, previous);
      RemoveKeeps(config, was, old(totals), id, totals);
      if |records| == 0 {
        NothingLeft(config, records, totals);
        totals := EMPTY;
      }
    }

    method Clear()
      requires Valid()
      modifies this
      ensures Valid() && Documents() == Reported(old(Documents()), Cleared)
    {
      records := map[];
      totals := EMPTY;
    }
  }

  lemma Replaced(config: Config, documents: Collection, id: string, fields: Fields)
    ensures forall f: StatField ::
      Recomputed(config, documents[id := fields], f) == Recomputed(config, documents, f)
        + Contribution(config, fields).Of(f)
        - (if id in documents then Contribution(config, documents[id]).Of(f) else 0.0)
  {
    forall f: StatField
      ensures Recomputed(config, documents[id := fields], f) == Recomputed(config, documents, f)
        + Contribution(config, fields).Of(f)
        - (if id in documents then Contribution(config, documents[id]).Of(f) else 0.0)
    {
      SumWith(documents, AmountOf(config, f), id, fields);
    }
  }

  lemma Dropped(config: Config, documents: Collection, id: string)
    requires id in documents
    ensures forall f: StatField ::
      Recomputed(config, documents - {id}, f) == Recomputed(config, documents, f) - Contribution(config, documents[id]).Of(f)
  {
    forall f: StatField
      ensures Recomputed(config, documents - {id}, f)
        == Recomputed(config, documents, f) - Contribution(config, documents[id]).Of(f)
    {
      SumWithout(documents, AmountOf(config, f), id);
    }
  }

  lemma EveryField(f: StatField)
    ensures f in FIELDS
  {
  }

  // Whatever events arrive, the tracker shows what the aggregation over the reported records computes.
  method Track(config: Config, events: seq<Event>) returns (snapshot: Totals)
    requires DistinctRates(config.rates)
    ensures forall f: StatField :: snapshot.Of(f) == Recomputed(config, AllReported(events), f)
    ensures (forall id <- AllReported(events) :: Alike(config, AllReported(events)[id])) ==>
      forall f: StatField :: snapshot.Of(f) == Aggregated(config, AllReported(events), f)
  {
    var tracker := new Tracker(config);
    for i := 0 to |events|
      invariant fresh(tracker) && tracker.config == config && tracker.Valid()
      invariant tracker.Documents() == AllReported(events[..i])
    {
      assert events[..i + 1][..i] == events[..i];
      match events[i] {
        case Added(id, fields) => var _ := tracker.Added(id, fields);
        case Changed(id, patch) => var _ := tracker.Changed(id, patch);
        case Removed(id) => var _ := tracker.Removed(id);
        case Cleared => tracker.Clear();
      }
    }
    assert events[..|events|] == events;
    snapshot := tracker.totals;
    if forall id <- AllReported(events) :: Alike(config, AllReported(events)[id]) {
      forall f: StatField { AggregationIsRecomputation(config, AllReported(events), f); }
    }
  }
}
