// normalizeCanonicalValue and requestFingerprint of server/apiIdempotency.js: when two requests are the
// same to the idempotency protocol. The fingerprint is the SHA-256 of the JSON of the normalized
// request; both are taken as injective.
module RequestFingerprint {
  import opened Options
  import opened SortedKeys
  import opened Strings

  // JavaScript values. A finite number other than -0 is named by its bit pattern; objects list their
  // own keys in insertion order. Hole is a place of an array without an element, Other a function, a
  // symbol, a big integer or an object with another prototype.
  datatype Value =
    | Undefined
    | Null
    | Text(text: string)
    | Boolean(truth: bool)
    | NegativeZero
    | Number(bits: nat)
    | NotFinite
    | Date(time: int)
    | InvalidDate
    | List(items: seq<Value>)
    | Object(entries: seq<(string, Value)>)
    | Hole
    | Other

  // Objects have every key once.
  ghost predicate Proper(v: Value) {
    match v
    case List(items) => forall i :: 0 <= i < |items| ==> Proper(items[i])
    case Object(entries) => DistinctKeys(entries) && forall i :: 0 <= i < |entries| ==> Proper(entries[i].1)
    case _ => true
  }

  // Anything else is thrown at; the loop over an array skips holes.
  predicate Accepted(v: Value) {
    match v
    case List(items) => forall i :: 0 <= i < |items| ==> items[i].Hole? || Accepted(items[i])
    case Object(entries) => forall i :: 0 <= i < |entries| ==> entries[i].1.Undefined? || Accepted(entries[i].1)
    case _ => !v.Undefined? && !v.NotFinite? && !v.InvalidDate? && !v.Hole? && !v.Other?
  }

  // What JSON.stringify prints. Objects print their keys in an order that depends on the keys alone, so
  // the ascending list stands for the text.
  datatype Json =
    | JNull
    | JText(text: string)
    | JBoolean(truth: bool)
    | JNumber(bits: nat)
    | JList(items: seq<Json>)
    | JObject(entries: seq<(string, Json)>)

  const DATE_KEY := "$date"

  // Assigning to this key of a plain object makes no entry.
  const PROTOTYPE_KEY := "__proto__"

  // The entry comes back in the normalized object.
  predicate Live(entry: (string, Value)) {
    entry.0 != PROTOTYPE_KEY && !entry.1.Undefined?
  }

  function Normalized(iso: int -> string, v: Value): Json
    requires Accepted(v)
  {
    match v
    case Null => JNull
    case Text(text) => JText(text)
    case Boolean(truth) => JBoolean(truth)
    case NegativeZero => JNumber(0)
    case Number(bits) => JNumber(bits)
    case Date(time) => JObject([(DATE_KEY, JText(iso(time)))])
    case List(items) =>
      JList(seq(|items|, i requires 0 <= i < |items| =>
        if items[i].Hole? then JNull else Normalized(iso, items[i])))
    case Object(entries) =>
      var coded := seq(|entries|, i requires 0 <= i < |entries| =>
        (entries[i].0, if Live(entries[i]) then Some(Normalized(iso, entries[i].1)) else None));
      JObject(Present(SortByKey(coded)))
  }

  function Present(entries: seq<(string, Option<Json>)>): seq<(string, Json)> {
    if entries == [] then []
    else if entries[0].1.None? then Present(entries[1..])
    else [(entries[0].0, entries[0].1.value)] + Present(entries[1..])
  }

  function Fingerprint(iso: int -> string, digest: Json -> string, v: Value): string
    requires Accepted(v)
  {
    digest(Normalized(iso, v))
  }

  ghost predicate Injects(iso: int -> string) {
    forall a, b :: iso(a) == iso(b) ==> a == b
  }

  ghost predicate DigestInjects(digest: Json -> string) {
    forall a, b :: digest(a) == digest(b) ==> a == b
  }

  // ---------------------------------------------------------------- the same request

  // Equal up to key order, entries that are undefined or named __proto__, the sign of zero, holes for
  // null, and a date for the object that spells it.
  ghost predicate Same(iso: int -> string, v: Value, w: Value)
    decreases v, 0
  {
    match (v, w)
    case (List(a), List(b)) => |a| == |b| && forall i :: 0 <= i < |a| ==> SameItem(iso, a[i], b[i])
    case (Object(a), Object(b)) =>
      && (forall i :: 0 <= i < |a| && Live(a[i]) ==> Named(iso, a[i], b))
      && (forall j :: 0 <= j < |b| && Live(b[j]) ==> HasLive(a, b[j].0))
    case (Date(time), Object(entries)) => SpellsDate(iso, time, entries)
    case (Object(entries), Date(time)) => SpellsDate(iso, time, entries)
    case _ => !v.List? && !v.Object? && (v == w || (IsZero(v) && IsZero(w)))
  }

  ghost predicate SameItem(iso: int -> string, v: Value, w: Value)
    decreases v, 1
  {
    if v.Hole? || w.Hole? then (v.Hole? || v.Null?) && (w.Hole? || w.Null?) else Same(iso, v, w)
  }

  ghost predicate Named(iso: int -> string, entry: (string, Value), others: seq<(string, Value)>)
    decreases entry.1, 1
  {
    exists j :: 0 <= j < |others| && Live(others[j]) && entry.0 == others[j].0 && Same(iso, entry.1, others[j].1)
  }

  predicate HasLive(entries: seq<(string, Value)>, key: string) {
    exists i :: 0 <= i < |entries| && Live(entries[i]) && entries[i].0 == key
  }

  predicate IsZero(v: Value) {
    v == NegativeZero || v == Number(0)
  }

  predicate SpellsDate(iso: int -> string, time: int, entries: seq<(string, Value)>) {
    && (DATE_KEY, Text(iso(time))) in entries
    && forall j :: 0 <= j < |entries| && Live(entries[j]) ==> entries[j].0 == DATE_KEY
  }

  // ---------------------------------------------------------------- normal forms

  function Coded(iso: int -> string, entries: seq<(string, Value)>): seq<(string, Option<Json>)>
    requires Accepted(Object(entries))
  {
    seq(|entries|, i requires 0 <= i < |entries| =>
      (entries[i].0, if Live(entries[i]) then Some(Normalized(iso, entries[i].1)) else None))
  }

  lemma {:induction false} PresentFacts(entries: seq<(string, Option<Json>)>)
    ensures forall e :: e in Present(entries) <==> (e.0, Some(e.1)) in entries
    ensures KeysAscend(entries) ==> KeysAscend(Present(entries))
  {
    if entries != [] {
      hide KeysAscend;
      assert entries == [entries[0]] + entries[1..];
      PresentFacts(entries[1..]);
      var rest := Present(entries[1..]);
      assert forall e :: e in Present(entries) <==> (e.0, Some(e.1)) in entries;
      if KeysAscend(entries) { PresentAscends(entries); }
    }
  }

  lemma {:induction false} PresentAscends(entries: seq<(string, Option<Json>)>)
    requires entries != [] && KeysAscend(entries) && KeysAscend(Present(entries[1..]))
    requires forall e :: e in Present(entries[1..]) <==> (e.0, Some(e.1)) in entries[1..]
    ensures KeysAscend(Present(entries))
  {
    hide StringLe;
    var rest := Present(entries[1..]);
    forall j | 0 <= j < |rest| ensures entries[0].0 != rest[j].0 && StringLe(entries[0].0, rest[j].0) {
      assert (rest[j].0, Some(rest[j].1)) in entries[1..];
    }
  }

  ghost predicate SameMembers(c: seq<(string, Option<Json>)>, d: seq<(string, Option<Json>)>) {
    forall key: string, j: Json :: (key, Some(j)) in c <==> (key, Some(j)) in d
  }

  // Sorting and dropping forgets the order of the entries and the dropped ones, and nothing else.
  lemma {:induction false} PresentSorted(c: seq<(string, Option<Json>)>, d: seq<(string, Option<Json>)>)
    requires DistinctKeys(c) && DistinctKeys(d)
    ensures Present(SortByKey(c)) == Present(SortByKey(d)) <==> SameMembers(c, d)
  {
    SortFacts(c);
    SortFacts(d);
    PresentFacts(SortByKey(c));
    PresentFacts(SortByKey(d));
    hide Present, SortByKey, KeysAscend, DistinctKeys;
    var p, q := Present(SortByKey(c)), Present(SortByKey(d));
    assert forall e :: (e in p <==> (e.0, Some(e.1)) in c) && (e in q <==> (e.0, Some(e.1)) in d);
    if SameMembers(c, d) {
      AscendingUnique(p, q);
    }
    if p == q {
      forall key: string, j: Json ensures (key, Some(j)) in c <==> (key, Some(j)) in d {
        assert (key, j) in p <==> (key, j) in q;
      }
    }
  }

  ghost predicate CodedBy(iso: int -> string, entries: seq<(string, Value)>, i: nat, key: string, j: Json)
    requires Accepted(Object(entries)) && i < |entries|
  {
    Live(entries[i]) && entries[i].0 == key && Normalized(iso, entries[i].1) == j
  }

  lemma {:induction false} CodedMember(iso: int -> string, entries: seq<(string, Value)>, key: string, j: Json)
    requires Accepted(Object(entries))
    ensures (key, Some(j)) in Coded(iso, entries) <==> exists i :: 0 <= i < |entries| && CodedBy(iso, entries, i, key, j)
  {
    hide Normalized, Live;
    var c := Coded(iso, entries);
    if (key, Some(j)) in c {
      var i :| 0 <= i < |c| && c[i] == (key, Some(j));
      assert CodedBy(iso, entries, i, key, j);
    }
    if i :| 0 <= i < |entries| && CodedBy(iso, entries, i, key, j) {
      assert c[i] == (key, Some(j));
    }
  }

  // ---------------------------------------------------------------- when fingerprints coincide

  // The values of live entries have the same normal form exactly when they are the same.
  ghost predicate EntriesAlike(iso: int -> string, a: seq<(string, Value)>, b: seq<(string, Value)>)
    requires Accepted(Object(a)) && Accepted(Object(b))
  {
    forall i, j | 0 <= i < |a| && 0 <= j < |b| && Live(a[i]) && Live(b[j]) ::
      Normalized(iso, a[i].1) == Normalized(iso, b[j].1) <==> Same(iso, a[i].1, b[j].1)
  }

  lemma {:induction false} ObjectsIff(iso: int -> string, a: seq<(string, Value)>, b: seq<(string, Value)>)
    requires Accepted(Object(a)) && Accepted(Object(b)) && DistinctKeys(a) && DistinctKeys(b) && EntriesAlike(iso, a, b)
    ensures Normalized(iso, Object(a)) == Normalized(iso, Object(b)) <==> Same(iso, Object(a), Object(b))
  {
    var c, d := Coded(iso, a), Coded(iso, b);
    assert DistinctKeys(c) && DistinctKeys(d);
    assert Normalized(iso, Object(a)) == JObject(Present(SortByKey(c)));
    assert Normalized(iso, Object(b)) == JObject(Present(SortByKey(d)));
    hide Normalized, Same;
    PresentSorted(c, d);
    if SameMembers(c, d) { MembersThenSame(iso, a, b); }
    if Same(iso, Object(a), Object(b)) { SameThenMembers(iso, a, b); }
  }

  lemma {:induction false} MembersThenSame(iso: int -> string, a: seq<(string, Value)>, b: seq<(string, Value)>)
    requires Accepted(Object(a)) && Accepted(Object(b)) && EntriesAlike(iso, a, b)
    requires SameMembers(Coded(iso, a), Coded(iso, b))
    ensures Same(iso, Object(a), Object(b))
  {
    forall i | 0 <= i < |a| && Live(a[i]) ensures Named(iso, a[i], b) {
      var json := Normalized(iso, a[i].1);
      hide Normalized, Coded, Same, Accepted;
      CodedMember(iso, a, a[i].0, json);
      CodedMember(iso, b, a[i].0, json);
      assert CodedBy(iso, a, i, a[i].0, json);
      var j :| 0 <= j < |b| && CodedBy(iso, b, j, a[i].0, json);
      assert Same(iso, a[i].1, b[j].1);
    }
    forall j | 0 <= j < |b| && Live(b[j]) ensures HasLive(a, b[j].0) {
      var json := Normalized(iso, b[j].1);
      hide Normalized, Coded, Same, Accepted;
      CodedMember(iso, b, b[j].0, json);
      CodedMember(iso, a, b[j].0, json);
      assert CodedBy(iso, b, j, b[j].0, json);
    }
  }

  lemma {:induction false} FirstHasIt(iso: int -> string, a: seq<(string, Value)>, b: seq<(string, Value)>, i: nat) returns (j: nat)
    requires Accepted(Object(a)) && Accepted(Object(b)) && EntriesAlike(iso, a, b)
    requires Same(iso, Object(a), Object(b)) && i < |a| && Live(a[i])
    ensures j < |b| && CodedBy(iso, b, j, a[i].0, Normalized(iso, a[i].1))
  {
    assert Named(iso, a[i], b);
    hide Normalized, Same, Accepted, Live;
    j :| 0 <= j < |b| && Live(b[j]) && a[i].0 == b[j].0 && Same(iso, a[i].1, b[j].1);
  }

  lemma {:induction false} SecondHasIt(iso: int -> string, a: seq<(string, Value)>, b: seq<(string, Value)>, j: nat) returns (i: nat)
    requires Accepted(Object(a)) && Accepted(Object(b)) && DistinctKeys(b) && EntriesAlike(iso, a, b)
    requires Same(iso, Object(a), Object(b)) && j < |b| && Live(b[j])
    ensures i < |a| && CodedBy(iso, a, i, b[j].0, Normalized(iso, b[j].1))
  {
    assert HasLive(a, b[j].0);
    i :| 0 <= i < |a| && Live(a[i]) && a[i].0 == b[j].0;
    var k := FirstHasIt(iso, a, b, i);
    assert k == j;
  }

  lemma {:induction false} SameThenMembers(iso: int -> string, a: seq<(string, Value)>, b: seq<(string, Value)>)
    requires Accepted(Object(a)) && Accepted(Object(b)) && DistinctKeys(b) && EntriesAlike(iso, a, b)
    requires Same(iso, Object(a), Object(b))
    ensures SameMembers(Coded(iso, a), Coded(iso, b))
  {
    hide Normalized, Coded, Same, Accepted, Live, EntriesAlike, DistinctKeys;
    forall key: string, json: Json ensures (key, Some(json)) in Coded(iso, a) <==> (key, Some(json)) in Coded(iso, b) {
      CodedMember(iso, a, key, json);
      CodedMember(iso, b, key, json);
      if i :| 0 <= i < |a| && CodedBy(iso, a, i, key, json) { var j := FirstHasIt(iso, a, b, i); }
      if j :| 0 <= j < |b| && CodedBy(iso, b, j, key, json) { var i := SecondHasIt(iso, a, b, j); }
    }
  }

  lemma {:induction false} ListsIff(iso: int -> string, a: seq<Value>, b: seq<Value>)
    requires Accepted(List(a)) && Accepted(List(b))
    requires forall i, j | 0 <= i < |a| && 0 <= j < |b| && !a[i].Hole? && !b[j].Hole? ::
      Normalized(iso, a[i]) == Normalized(iso, b[j]) <==> Same(iso, a[i], b[j])
    ensures Normalized(iso, List(a)) == Normalized(iso, List(b)) <==> Same(iso, List(a), List(b))
  {
    var c, d := Normalized(iso, List(a)).items, Normalized(iso, List(b)).items;
    assert |c| == |a| && |d| == |b|;
    assert Normalized(iso, List(a)) == JList(c) && Normalized(iso, List(b)) == JList(d);
    forall i | 0 <= i < |a| && i < |b| ensures c[i] == d[i] <==> SameItem(iso, a[i], b[i]) {
      ItemsIff(iso, a[i], b[i]);
    }
    if c == d {
      forall i | 0 <= i < |a| ensures SameItem(iso, a[i], b[i]) { assert c[i] == d[i]; }
    }
  }

  lemma {:induction false} ItemsIff(iso: int -> string, v: Value, w: Value)
    requires (v.Hole? || Accepted(v)) && (w.Hole? || Accepted(w))
    requires !v.Hole? && !w.Hole? ==> (Normalized(iso, v) == Normalized(iso, w) <==> Same(iso, v, w))
    ensures (if v.Hole? then JNull else Normalized(iso, v)) == (if w.Hole? then JNull else Normalized(iso, w))
      <==> SameItem(iso, v, w)
  {
  }

  lemma {:induction false} DateIff(iso: int -> string, time: int, entries: seq<(string, Value)>)
    requires Accepted(Object(entries)) && DistinctKeys(entries)
    ensures Normalized(iso, Object(entries)) == Normalized(iso, Date(time)) <==> SpellsDate(iso, time, entries)
  {
    var c, d := Coded(iso, entries), [(DATE_KEY, Some(JText(iso(time))))];
    assert DistinctKeys(c) && Normalized(iso, Object(entries)) == JObject(Present(SortByKey(c)));
    assert Present(SortByKey(d)) == [(DATE_KEY, JText(iso(time)))];
    PresentSorted(c, d);
    hide Present, SortByKey;
    if SameMembers(c, d) { MembersSpell(iso, time, entries); }
    if SpellsDate(iso, time, entries) { SpelledMembers(iso, time, entries); }
  }

  lemma {:induction false} MembersSpell(iso: int -> string, time: int, entries: seq<(string, Value)>)
    requires Accepted(Object(entries))
    requires SameMembers(Coded(iso, entries), [(DATE_KEY, Some(JText(iso(time))))])
    ensures SpellsDate(iso, time, entries)
  {
    var c, d := Coded(iso, entries), [(DATE_KEY, Some(JText(iso(time))))];
    assert (DATE_KEY, Some(JText(iso(time)))) in d;
    CodedMember(iso, entries, DATE_KEY, JText(iso(time)));
    var i :| 0 <= i < |entries| && CodedBy(iso, entries, i, DATE_KEY, JText(iso(time)));
    assert entries[i] == (DATE_KEY, Text(iso(time)));
    forall j | 0 <= j < |entries| && Live(entries[j]) ensures entries[j].0 == DATE_KEY {
      var json := Normalized(iso, entries[j].1);
      CodedMember(iso, entries, entries[j].0, json);
      assert CodedBy(iso, entries, j, entries[j].0, json);
      assert (entries[j].0, Some(json)) in d;
    }
  }

  lemma {:induction false} SpelledMembers(iso: int -> string, time: int, entries: seq<(string, Value)>)
    requires Accepted(Object(entries)) && DistinctKeys(entries) && SpellsDate(iso, time, entries)
    ensures SameMembers(Coded(iso, entries), [(DATE_KEY, Some(JText(iso(time))))])
  {
    var i :| 0 <= i < |entries| && entries[i] == (DATE_KEY, Text(iso(time)));
    forall key: string, json: Json
      ensures (key, Some(json)) in Coded(iso, entries) <==> key == DATE_KEY && json == JText(iso(time))
    {
      CodedMember(iso, entries, key, json);
      assert CodedBy(iso, entries, i, DATE_KEY, JText(iso(time)));
      if j :| 0 <= j < |entries| && CodedBy(iso, entries, j, key, json) { assert j == i; }
    }
  }

  lemma {:induction false} NormalizedIff(iso: int -> string, v: Value, w: Value)
    requires Injects(iso) && Proper(v) && Proper(w) && Accepted(v) && Accepted(w)
    ensures Normalized(iso, v) == Normalized(iso, w) <==> Same(iso, v, w)
    decreases v, 1
  {
    hide Normalized, Same, Live, Injects;
    if v.List? && w.List? {
      ItemsNormalizedIff(iso, v.items, w.items);
      hide Accepted, Proper;
      ListsIff(iso, v.items, w.items);
    } else if v.Object? && w.Object? {
      EntriesNormalizedIff(iso, v.entries, w.entries);
      ObjectsIff(iso, v.entries, w.entries);
    } else if v.Object? && w.Date? {
      DateIff(iso, w.time, v.entries);
      DatesAlike(iso, w.time, v.entries);
    } else if v.Date? && w.Object? {
      DateIff(iso, v.time, w.entries);
      DatesAlike(iso, v.time, w.entries);
    } else {
      LeavesIff(iso, v, w);
    }
  }

  lemma DatesAlike(iso: int -> string, time: int, entries: seq<(string, Value)>)
    ensures Same(iso, Date(time), Object(entries)) == Same(iso, Object(entries), Date(time)) == SpellsDate(iso, time, entries)
  {
  }

  lemma {:induction false} ItemsNormalizedIff(iso: int -> string, a: seq<Value>, b: seq<Value>)
    requires Injects(iso) && Proper(List(a)) && Proper(List(b)) && Accepted(List(a)) && Accepted(List(b))
    ensures forall i, j | 0 <= i < |a| && 0 <= j < |b| && !a[i].Hole? && !b[j].Hole? ::
      Normalized(iso, a[i]) == Normalized(iso, b[j]) <==> Same(iso, a[i], b[j])
    decreases List(a), 0
  {
    hide Normalized, Same, Injects;
    forall i, j | 0 <= i < |a| && 0 <= j < |b| && !a[i].Hole? && !b[j].Hole?
      ensures Normalized(iso, a[i]) == Normalized(iso, b[j]) <==> Same(iso, a[i], b[j])
    {
      NormalizedIff(iso, a[i], b[j]);
    }
  }

  lemma {:induction false} EntriesNormalizedIff(iso: int -> string, a: seq<(string, Value)>, b: seq<(string, Value)>)
    requires Injects(iso) && Proper(Object(a)) && Proper(Object(b)) && Accepted(Object(a)) && Accepted(Object(b))
    ensures EntriesAlike(iso, a, b)
    decreases Object(a), 0
  {
    hide Normalized, Same, Injects;
    forall i, j | 0 <= i < |a| && 0 <= j < |b| && Live(a[i]) && Live(b[j])
      ensures Normalized(iso, a[i].1) == Normalized(iso, b[j].1) <==> Same(iso, a[i].1, b[j].1)
    {
      NormalizedIff(iso, a[i].1, b[j].1);
    }
  }

  lemma {:induction false} LeavesIff(iso: int -> string, v: Value, w: Value)
    requires Injects(iso) && Accepted(v) && Accepted(w)
    requires !(v.List? && w.List?) && !(v.Object? && (w.Object? || w.Date?)) && !(v.Date? && w.Object?)
    ensures Normalized(iso, v) == Normalized(iso, w) <==> Same(iso, v, w)
  {
  }

  // Two requests share a fingerprint exactly when they are the same request.
  lemma {:induction false} FingerprintIff(iso: int -> string, digest: Json -> string, v: Value, w: Value)
    requires Injects(iso) && DigestInjects(digest) && Proper(v) && Proper(w) && Accepted(v) && Accepted(w)
    ensures Fingerprint(iso, digest, v) == Fingerprint(iso, digest, w) <==> Same(iso, v, w)
  {
    NormalizedIff(iso, v, w);
  }

  // ---------------------------------------------------------------- what is refused

  // x is v or somewhere inside it.
  ghost predicate Occurs(x: Value, v: Value) {
    || x == v
    || (v.List? && exists i :: 0 <= i < |v.items| && Occurs(x, v.items[i]))
    || (v.Object? && exists i :: 0 <= i < |v.entries| && Occurs(x, v.entries[i].1))
  }

  // Data, with undefined only as a value of an object and holes only in arrays.
  predicate InPlace(x: Value) {
    && !x.NotFinite? && !x.InvalidDate? && !x.Other?
    && (x.List? ==> Undefined !in x.items)
    && (x.Object? ==> forall i :: 0 <= i < |x.entries| ==> x.entries[i].1 != Hole)
  }

  ghost predicate AllInPlace(v: Value) {
    forall x :: Occurs(x, v) ==> InPlace(x)
  }

  // A request is refused exactly if it is undefined or something in it is out of place.
  lemma {:induction false} AcceptedIff(v: Value)
    ensures Accepted(v) <==> v != Undefined && v != Hole && AllInPlace(v)
  {
    assert Occurs(v, v);
    match v
    case List(items) =>
      forall i | 0 <= i < |items|
        ensures Accepted(items[i]) <==> items[i] != Undefined && items[i] != Hole && AllInPlace(items[i])
      {
        AcceptedIff(items[i]);
      }
      assert AllInPlace(v) <==> InPlace(v) && forall i :: 0 <= i < |items| ==> AllInPlace(items[i]);
    case Object(entries) =>
      forall i | 0 <= i < |entries|
        ensures Accepted(entries[i].1) <==> entries[i].1 != Undefined && entries[i].1 != Hole && AllInPlace(entries[i].1)
      {
        AcceptedIff(entries[i].1);
      }
      assert AllInPlace(v) <==> InPlace(v) && forall i :: 0 <= i < |entries| ==> AllInPlace(entries[i].1);
    case _ =>
  }
}
