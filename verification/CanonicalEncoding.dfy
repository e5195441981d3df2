// The recovery validator of server/projectFenceRecovery.js: canonical, stablePreview and the inputs
// of projectRecoveryETag. The validator is the SHA-256 of the JSON of the canonical value; both are
// taken as injective, so two validators agree exactly when the canonical values do.
module CanonicalEncoding {
  import opened SortedKeys
  import opened Strings

  // JavaScript values. A finite number other than -0 is named by its bit pattern; objects list their
  // own keys in insertion order. Instance is an object with another prototype, Other everything that
  // is neither data nor an object (undefined, functions, symbols, big integers).
  datatype Value =
    | Null
    | Text(text: string)
    | Boolean(truth: bool)
    | NegativeZero
    | Number(bits: nat)
    | NotFinite
    | Date(time: int)
    | InvalidDate
    | List(items: seq<Value>)
    | Object(entries: seq<(string, Value)>)
    | Instance(entries: seq<(string, Value)>)
    | Other

  // Objects have every key once.
  ghost predicate Proper(v: Value) {
    match v
    case List(items) => forall i :: 0 <= i < |items| ==> Proper(items[i])
    case Object(entries) => DistinctKeys(entries) && forall i :: 0 <= i < |entries| ==> Proper(entries[i].1)
    case Instance(entries) => DistinctKeys(entries) && forall i :: 0 <= i < |entries| ==> Proper(entries[i].1)
    case _ => true
  }

  // canonical throws on anything else.
  predicate Accepted(v: Value) {
    match v
    case NotFinite => false
    case InvalidDate => false
    case Instance(_) => false
    case Other => false
    case List(items) => forall i :: 0 <= i < |items| ==> Accepted(items[i])
    case Object(entries) => forall i :: 0 <= i < |entries| ==> Accepted(entries[i].1)
    case _ => true
  }

  // The nested arrays of strings and booleans handed to JSON.
  datatype Code = CText(text: string) | CBoolean(truth: bool) | CList(items: seq<Code>)

  // String(number) and toISOString.
  datatype Printers = Printers(number: nat -> string, iso: int -> string)

  ghost predicate Faithful(p: Printers) {
    && (forall a, b :: p.number(a) == p.number(b) ==> a == b)
    && (forall a :: p.number(a) != "-0")
    && (forall a, b :: p.iso(a) == p.iso(b) ==> a == b)
  }

  // ---------------------------------------------------------------- canonical

  function Canonical(p: Printers, v: Value): Code
    requires Accepted(v)
  {
    match v
    case Null => CList([CText("null")])
    case Text(text) => CList([CText("string"), CText(text)])
    case Boolean(truth) => CList([CText("boolean"), CBoolean(truth)])
    case NegativeZero => CList([CText("number"), CText("-0")])
    case Number(bits) => CList([CText("number"), CText(p.number(bits))])
    case Date(time) => CList([CText("date"), CText(p.iso(time))])
    case List(items) =>
      CList([CText("array"), CList(seq(|items|, i requires 0 <= i < |items| => Canonical(p, items[i])))])
    case Object(entries) =>
      var coded := seq(|entries|, i requires 0 <= i < |entries| => (entries[i].0, Canonical(p, entries[i].1)));
      CList([CText("object"), CList(Pairs(SortByKey(coded)))])
  }

  function Pairs(entries: seq<(string, Code)>): seq<Code> {
    seq(|entries|, i requires 0 <= i < |entries| => CList([CText(entries[i].0), entries[i].1]))
  }

  lemma PairsInjective(a: seq<(string, Code)>, b: seq<(string, Code)>)
    ensures Pairs(a) == Pairs(b) <==> a == b
  {
    if Pairs(a) == Pairs(b) {
      assert |a| == |Pairs(a)| && |b| == |Pairs(b)|;
      forall i | 0 <= i < |a| ensures a[i] == b[i] {
        assert Pairs(a)[i] == CList([CText(a[i].0), a[i].1]);
        assert Pairs(b)[i] == CList([CText(b[i].0), b[i].1]);
        assert Pairs(a)[i].items[0] == CText(a[i].0) && Pairs(a)[i].items[1] == a[i].1;
      }
    }
  }

  // ---------------------------------------------------------------- equality up to key order

  ghost predicate Same(v: Value, w: Value)
    decreases v, 0
  {
    match (v, w)
    case (List(a), List(b)) => |a| == |b| && forall i :: 0 <= i < |a| ==> Same(a[i], b[i])
    case (Object(a), Object(b)) =>
      (forall i :: 0 <= i < |a| ==> Named(a[i], b)) && (forall j :: 0 <= j < |b| ==> HasKey(a, b[j].0))
    case _ => v == w && !v.List? && !v.Object?
  }

  ghost predicate Named(entry: (string, Value), others: seq<(string, Value)>)
    decreases entry.1, 1
  {
    exists j :: 0 <= j < |others| && entry.0 == others[j].0 && Same(entry.1, others[j].1)
  }

  function Coded(p: Printers, entries: seq<(string, Value)>): seq<(string, Code)>
    requires forall i :: 0 <= i < |entries| ==> Accepted(entries[i].1)
  {
    seq(|entries|, i requires 0 <= i < |entries| => (entries[i].0, Canonical(p, entries[i].1)))
  }

  // canonical forgets the order of keys and nothing else.
  lemma {:induction false} CanonicalIff(p: Printers, v: Value, w: Value)
    requires Faithful(p) && Proper(v) && Proper(w) && Accepted(v) && Accepted(w)
    ensures Canonical(p, v) == Canonical(p, w) <==> Same(v, w)
    decreases v
  {
    match (v, w)
    case (List(a), List(b)) =>
      forall i, j | 0 <= i < |a| && 0 <= j < |b| ensures Canonical(p, a[i]) == Canonical(p, b[j]) <==> Same(a[i], b[j]) {
        CanonicalIff(p, a[i], b[j]);
      }
      ListsIff(p, a, b);
    case (Object(a), Object(b)) =>
      forall i, j | 0 <= i < |a| && 0 <= j < |b|
        ensures Canonical(p, a[i].1) == Canonical(p, b[j].1) <==> Same(a[i].1, b[j].1)
      {
        CanonicalIff(p, a[i].1, b[j].1);
      }
      ObjectsIff(p, a, b);
    case _ => LeavesIff(p, v, w);
  }

  lemma {:induction false} ListsIff(p: Printers, a: seq<Value>, b: seq<Value>)
    requires Accepted(List(a)) && Accepted(List(b))
    requires forall i, j :: 0 <= i < |a| && 0 <= j < |b| ==> (Canonical(p, a[i]) == Canonical(p, b[j]) <==> Same(a[i], b[j]))
    ensures Canonical(p, List(a)) == Canonical(p, List(b)) <==> Same(List(a), List(b))
  {
    var c, d := Canonical(p, List(a)).items[1].items, Canonical(p, List(b)).items[1].items;
    assert |c| == |a| && |d| == |b|;
    assert forall i :: 0 <= i < |a| ==> c[i] == Canonical(p, a[i]);
    assert forall i :: 0 <= i < |b| ==> d[i] == Canonical(p, b[i]);
    assert Canonical(p, List(a)) == CList([CText("array"), CList(c)]);
    assert Canonical(p, List(b)) == CList([CText("array"), CList(d)]);
    if c == d {
      forall i | 0 <= i < |a| ensures Same(a[i], b[i]) { assert c[i] == d[i]; }
    }
  }

  lemma {:induction false} ObjectsIff(p: Printers, a: seq<(string, Value)>, b: seq<(string, Value)>)
    requires Accepted(Object(a)) && Accepted(Object(b)) && DistinctKeys(a) && DistinctKeys(b)
    requires forall i, j :: 0 <= i < |a| && 0 <= j < |b| ==>
      (Canonical(p, a[i].1) == Canonical(p, b[j].1) <==> Same(a[i].1, b[j].1))
    ensures Canonical(p, Object(a)) == Canonical(p, Object(b)) <==> Same(Object(a), Object(b))
  {
    var c, d := Coded(p, a), Coded(p, b);
    assert DistinctKeys(c) && DistinctKeys(d);
    SortForgetsOrder(c, d);
    PairsInjective(SortByKey(c), SortByKey(d));
    assert Canonical(p, Object(a)) == CList([CText("object"), CList(Pairs(SortByKey(c)))]);
    assert Canonical(p, Object(b)) == CList([CText("object"), CList(Pairs(SortByKey(d)))]);
    CodedEntriesAgree(p, a, b);
  }

  lemma {:induction false} CodedEntriesAgree(p: Printers, a: seq<(string, Value)>, b: seq<(string, Value)>)
    requires Accepted(Object(a)) && Accepted(Object(b)) && DistinctKeys(b)
    requires forall i, j :: 0 <= i < |a| && 0 <= j < |b| ==>
      (Canonical(p, a[i].1) == Canonical(p, b[j].1) <==> Same(a[i].1, b[j].1))
    ensures SameEntries(Coded(p, a), Coded(p, b)) <==> Same(Object(a), Object(b))
  {
    CoveredIff(p, a, b);
    CoveredIff(p, b, a);
    assert SameEntries(Coded(p, a), Coded(p, b)) <==>
      (forall i :: 0 <= i < |a| ==> CodedIn(p, a[i], b)) && (forall j :: 0 <= j < |b| ==> CodedIn(p, b[j], a));
    if SameEntries(Coded(p, a), Coded(p, b)) { EntriesThenSame(p, a, b); }
    if Same(Object(a), Object(b)) { SameThenEntries(p, a, b); }
  }

  ghost predicate CodedIn(p: Printers, entry: (string, Value), others: seq<(string, Value)>)
    requires Accepted(entry.1) && forall j :: 0 <= j < |others| ==> Accepted(others[j].1)
  {
    exists j :: 0 <= j < |others| && entry.0 == others[j].0 && Canonical(p, entry.1) == Canonical(p, others[j].1)
  }

  lemma {:induction false} EntriesThenSame(p: Printers, a: seq<(string, Value)>, b: seq<(string, Value)>)
    requires Accepted(Object(a)) && Accepted(Object(b))
    requires forall i, j :: 0 <= i < |a| && 0 <= j < |b| ==>
      (Canonical(p, a[i].1) == Canonical(p, b[j].1) <==> Same(a[i].1, b[j].1))
    requires forall i :: 0 <= i < |a| ==> CodedIn(p, a[i], b)
    requires forall j :: 0 <= j < |b| ==> CodedIn(p, b[j], a)
    ensures Same(Object(a), Object(b))
  {
    hide Canonical, CodedIn, Named, Same;
    forall i | 0 <= i < |a| ensures Named(a[i], b) {
      assert CodedIn(p, a[i], b);
      NamedFrom(p, a[i], b);
    }
    forall j | 0 <= j < |b| ensures HasKey(a, b[j].0) {
      assert CodedIn(p, b[j], a);
      KeyFrom(p, b[j], a);
    }
    SameObjectsIff(a, b);
  }

  lemma {:induction false} NamedFrom(p: Printers, entry: (string, Value), others: seq<(string, Value)>)
    requires Accepted(entry.1) && forall j :: 0 <= j < |others| ==> Accepted(others[j].1)
    requires forall j :: 0 <= j < |others| ==>
      (Canonical(p, entry.1) == Canonical(p, others[j].1) <==> Same(entry.1, others[j].1))
    requires CodedIn(p, entry, others)
    ensures Named(entry, others)
  {
  }

  lemma {:induction false} KeyFrom(p: Printers, entry: (string, Value), others: seq<(string, Value)>)
    requires Accepted(entry.1) && forall j :: 0 <= j < |others| ==> Accepted(others[j].1)
    requires CodedIn(p, entry, others)
    ensures HasKey(others, entry.0)
  {
  }

  lemma {:induction false} SameThenEntries(p: Printers, a: seq<(string, Value)>, b: seq<(string, Value)>)
    requires Accepted(Object(a)) && Accepted(Object(b)) && DistinctKeys(b)
    requires forall i, j :: 0 <= i < |a| && 0 <= j < |b| ==>
      (Canonical(p, a[i].1) == Canonical(p, b[j].1) <==> Same(a[i].1, b[j].1))
    requires Same(Object(a), Object(b))
    ensures forall i :: 0 <= i < |a| ==> CodedIn(p, a[i], b)
    ensures forall j :: 0 <= j < |b| ==> CodedIn(p, b[j], a)
  {
  }

  lemma {:induction false} CoveredIff(p: Printers, a: seq<(string, Value)>, b: seq<(string, Value)>)
    requires Accepted(Object(a)) && Accepted(Object(b))
    ensures (forall e <- Coded(p, a) :: e in Coded(p, b)) <==> (forall i :: 0 <= i < |a| ==> CodedIn(p, a[i], b))
  {
    hide Canonical;
    var c, d := Coded(p, a), Coded(p, b);
    assert |c| == |a| && |d| == |b|;
    if forall e <- c :: e in d {
      forall i | 0 <= i < |a| ensures CodedIn(p, a[i], b) {
        assert c[i] in d;
        var j :| 0 <= j < |d| && d[j] == c[i];
        assert d[j] == (b[j].0, Canonical(p, b[j].1));
      }
    }
    if forall i :: 0 <= i < |a| ==> CodedIn(p, a[i], b) {
      forall e <- c ensures e in d {
        var i :| 0 <= i < |c| && c[i] == e;
        assert CodedIn(p, a[i], b);
        var j :| 0 <= j < |b| && a[i].0 == b[j].0 && Canonical(p, a[i].1) == Canonical(p, b[j].1);
        assert d[j] == c[i];
      }
    }
  }

  // Different kinds have different tags, and leaves of one kind different texts.
  lemma {:induction false} LeavesIff(p: Printers, v: Value, w: Value)
    requires Faithful(p) && Accepted(v) && Accepted(w) && !(v.List? && w.List?) && !(v.Object? && w.Object?)
    ensures Canonical(p, v) == Canonical(p, w) <==> v == w
    ensures !Same(v, w) || v == w
  {
  }

  // ---------------------------------------------------------------- stablePreview

  const AGE := "ageMs"

  function WithoutAge(entries: seq<(string, Value)>): seq<(string, Value)> {
    if entries == [] then []
    else if entries[0].0 == AGE then WithoutAge(entries[1..])
    else [entries[0]] + WithoutAge(entries[1..])
  }

  // Other prototypes are lost here: an instance comes back as a plain object.
  function StablePreview(v: Value): Value {
    match v
    case List(items) => List(seq(|items|, i requires 0 <= i < |items| => StablePreview(items[i])))
    case Object(entries) =>
      Object(WithoutAge(seq(|entries|, i requires 0 <= i < |entries| => (entries[i].0, StablePreview(entries[i].1)))))
    case Instance(entries) =>
      Object(WithoutAge(seq(|entries|, i requires 0 <= i < |entries| => (entries[i].0, StablePreview(entries[i].1)))))
    case _ => v
  }

  predicate IsRecord(v: Value) {
    v.Object? || v.Instance?
  }

  // Equality up to key order that does not look at any ageMs.
  ghost predicate SameButAge(v: Value, w: Value)
    decreases v, 0
  {
    if v.List? && w.List? then
      |v.items| == |w.items| && forall i :: 0 <= i < |v.items| ==> SameButAge(v.items[i], w.items[i])
    else if IsRecord(v) && IsRecord(w) then
      && (forall i :: 0 <= i < |v.entries| && v.entries[i].0 != AGE ==> NamedButAge(v.entries[i], w.entries))
      && (forall j :: 0 <= j < |w.entries| && w.entries[j].0 != AGE ==> HasKey(v.entries, w.entries[j].0))
    else
      v == w && !v.List? && !IsRecord(v)
  }

  ghost predicate NamedButAge(entry: (string, Value), others: seq<(string, Value)>)
    decreases entry.1, 1
  {
    exists j :: 0 <= j < |others| && entry.0 == others[j].0 && SameButAge(entry.1, others[j].1)
  }

  lemma {:induction false} WithoutAgeFacts(entries: seq<(string, Value)>)
    ensures forall e :: e in WithoutAge(entries) <==> e in entries && e.0 != AGE
    ensures DistinctKeys(entries) ==> DistinctKeys(WithoutAge(entries))
  {
    if entries != [] {
      WithoutAgeFacts(entries[1..]);
      var rest := WithoutAge(entries[1..]);
      assert entries == [entries[0]] + entries[1..];
      if DistinctKeys(entries) {
        forall i | 0 <= i < |rest| ensures rest[i].0 != entries[0].0 {
          assert rest[i] in entries[1..];
        }
      }
    }
  }

  // The entries of a stable record, before the ages are taken out.
  function Stabilized(entries: seq<(string, Value)>): (r: seq<(string, Value)>)
    ensures |r| == |entries|
    ensures forall i :: 0 <= i < |entries| ==> r[i] == (entries[i].0, StablePreview(entries[i].1))
  {
    seq(|entries|, i requires 0 <= i < |entries| => (entries[i].0, StablePreview(entries[i].1)))
  }

  lemma {:induction false} StableRecord(v: Value)
    requires IsRecord(v)
    ensures StablePreview(v) == Object(WithoutAge(Stabilized(v.entries)))
  {
  }

  lemma {:induction false} StableKeepsProper(v: Value)
    requires Proper(v)
    ensures Proper(StablePreview(v))
    decreases v
  {
    if v.List? {
      forall i | 0 <= i < |v.items| { StableKeepsProper(v.items[i]); }
    } else if IsRecord(v) {
      forall i | 0 <= i < |v.entries| { StableKeepsProper(v.entries[i].1); }
      StableRecord(v);
      var kept := WithoutAge(Stabilized(v.entries));
      WithoutAgeFacts(Stabilized(v.entries));
      forall i | 0 <= i < |kept| ensures Proper(kept[i].1) {
        assert kept[i] in Stabilized(v.entries);
      }
    }
  }

  // Two stable previews are the same exactly when the previews differ in nothing but ages.
  lemma {:induction false} StableIff(v: Value, w: Value)
    ensures Same(StablePreview(v), StablePreview(w)) <==> SameButAge(v, w)
    decreases v
  {
    if v.List? && w.List? {
      forall i | 0 <= i < |v.items| && i < |w.items| { StableIff(v.items[i], w.items[i]); }
      StableLists(v, w);
    } else if IsRecord(v) && IsRecord(w) {
      forall i, j | 0 <= i < |v.entries| && 0 <= j < |w.entries|
        ensures Same(StablePreview(v.entries[i].1), StablePreview(w.entries[j].1)) <==>
          SameButAge(v.entries[i].1, w.entries[j].1)
      {
        StableIff(v.entries[i].1, w.entries[j].1);
      }
      StableRecord(v);
      StableRecord(w);
      hide Same, SameButAge, StablePreview, WithoutAge;
      RecordsIff(v, w);
    } else {
      StableLeaves(v, w);
    }
  }

  lemma {:induction false} StableLists(v: Value, w: Value)
    requires v.List? && w.List?
    requires forall i :: 0 <= i < |v.items| && i < |w.items| ==>
      (Same(StablePreview(v.items[i]), StablePreview(w.items[i])) <==> SameButAge(v.items[i], w.items[i]))
    ensures Same(StablePreview(v), StablePreview(w)) <==> SameButAge(v, w)
  {
    var a, b := StablePreview(v).items, StablePreview(w).items;
    assert |a| == |v.items| && |b| == |w.items|;
    assert forall i :: 0 <= i < |a| && i < |b| ==> (Same(a[i], b[i]) <==> SameButAge(v.items[i], w.items[i]));
  }

  lemma {:induction false} StableLeaves(v: Value, w: Value)
    requires !(v.List? && w.List?) && !(IsRecord(v) && IsRecord(w))
    ensures Same(StablePreview(v), StablePreview(w)) <==> SameButAge(v, w)
  {
    hide WithoutAge;
  }

  lemma {:induction false} RecordsIff(v: Value, w: Value)
    requires IsRecord(v) && IsRecord(w) && ValuesAgree(v, w)
    ensures Same(Object(WithoutAge(Stabilized(v.entries))), Object(WithoutAge(Stabilized(w.entries))))
      <==> SameButAge(v, w)
  {
    var a, b := Stabilized(v.entries), Stabilized(w.entries);
    WithoutAgeFacts(a);
    WithoutAgeFacts(b);
    var c, d := WithoutAge(a), WithoutAge(b);
    assert Kept(c, v.entries) && Kept(d, w.entries);
    hide StablePreview, WithoutAge, Kept, Stabilized, Same, SameButAge, ValuesAgree;
    if Same(Object(c), Object(d)) { RecordsForward(v, w, c, d); }
    if SameButAge(v, w) { RecordsBack(v, w, c, d); }
  }

  ghost predicate Kept(kept: seq<(string, Value)>, entries: seq<(string, Value)>) {
    forall e :: e in kept <==> e in Stabilized(entries) && e.0 != AGE
  }

  // The values of two records agree before the ages are taken out exactly when they do after it.
  ghost predicate ValuesAgree(v: Value, w: Value)
    requires IsRecord(v) && IsRecord(w)
  {
    forall i, j :: 0 <= i < |v.entries| && 0 <= j < |w.entries| ==>
      (Same(StablePreview(v.entries[i].1), StablePreview(w.entries[j].1)) <==>
        SameButAge(v.entries[i].1, w.entries[j].1))
  }

  // What is kept of an entry, and where it comes from.
  lemma {:induction false} KeptEntry(entries: seq<(string, Value)>, kept: seq<(string, Value)>, i: nat) returns (k: nat)
    requires Kept(kept, entries) && i < |entries| && entries[i].0 != AGE
    ensures k < |kept| && kept[k] == (entries[i].0, StablePreview(entries[i].1))
  {
    hide StablePreview;
    assert Stabilized(entries)[i] in kept;
    k :| 0 <= k < |kept| && kept[k] == Stabilized(entries)[i];
  }

  lemma {:induction false} EntryOf(entries: seq<(string, Value)>, kept: seq<(string, Value)>, k: nat) returns (i: nat)
    requires Kept(kept, entries) && k < |kept|
    ensures i < |entries| && entries[i].0 != AGE && kept[k] == (entries[i].0, StablePreview(entries[i].1))
  {
    hide StablePreview;
    assert kept[k] in Stabilized(entries);
    i :| 0 <= i < |entries| && Stabilized(entries)[i] == kept[k];
  }

  lemma {:induction false} RecordsForward(v: Value, w: Value, c: seq<(string, Value)>, d: seq<(string, Value)>)
    requires IsRecord(v) && IsRecord(w) && Kept(c, v.entries) && Kept(d, w.entries) && ValuesAgree(v, w)
    requires Same(Object(c), Object(d))
    ensures SameButAge(v, w)
  {
    SameObjectsIff(c, d);
    hide Same, StablePreview, Stabilized, Kept;
    forall i | 0 <= i < |v.entries| && v.entries[i].0 != AGE ensures NamedButAge(v.entries[i], w.entries) {
      var k := KeptEntry(v.entries, c, i);
      assert Named(c[k], d);
      var l :| 0 <= l < |d| && c[k].0 == d[l].0 && Same(c[k].1, d[l].1);
      var j := EntryOf(w.entries, d, l);
      assert SameButAge(v.entries[i].1, w.entries[j].1);
    }
    forall j | 0 <= j < |w.entries| && w.entries[j].0 != AGE ensures HasKey(v.entries, w.entries[j].0) {
      var l := KeptEntry(w.entries, d, j);
      assert HasKey(c, d[l].0);
      var k :| 0 <= k < |c| && c[k].0 == d[l].0;
      var i := EntryOf(v.entries, c, k);
    }
  }

  lemma {:induction false} RecordsBack(v: Value, w: Value, c: seq<(string, Value)>, d: seq<(string, Value)>)
    requires IsRecord(v) && IsRecord(w) && Kept(c, v.entries) && Kept(d, w.entries) && ValuesAgree(v, w)
    requires SameButAge(v, w)
    ensures Same(Object(c), Object(d))
  {
    hide Same, StablePreview, Stabilized, Kept;
    forall k | 0 <= k < |c| ensures Named(c[k], d) {
      var i := EntryOf(v.entries, c, k);
      assert NamedButAge(v.entries[i], w.entries);
      var j :| 0 <= j < |w.entries| && v.entries[i].0 == w.entries[j].0 && SameButAge(v.entries[i].1, w.entries[j].1);
      var l := KeptEntry(w.entries, d, j);
      assert Same(c[k].1, d[l].1);
    }
    forall l | 0 <= l < |d| ensures HasKey(c, d[l].0) {
      var j := EntryOf(w.entries, d, l);
      assert HasKey(v.entries, w.entries[j].0);
      var i :| 0 <= i < |v.entries| && v.entries[i].0 == w.entries[j].0;
      var k := KeptEntry(v.entries, c, i);
    }
    SameObjectsIff(c, d);
  }

  // ---------------------------------------------------------------- projectRecoveryETag

  const FENCE_FIELDS: seq<string> := ["lifecycleLock", "lifecycleWriters", "lifecycleWriterMetadata", "taskGraphLock"]

  function Lookup(entries: seq<(string, Value)>, key: string): (v: Value)
    requires HasKey(entries, key)
    ensures exists i :: 0 <= i < |entries| && entries[i] == (key, v)
  {
    if entries[0].0 == key then entries[0].1 else Lookup(entries[1..], key)
  }

  function ExactFenceField(project: seq<(string, Value)>, field: string): Value {
    if HasKey(project, field) then Object([("present", Boolean(true)), ("value", Lookup(project, field))])
    else Object([("present", Boolean(false))])
  }

  function Fence(project: seq<(string, Value)>): Value {
    Object(seq(|FENCE_FIELDS|, i requires 0 <= i < |FENCE_FIELDS| =>
      (FENCE_FIELDS[i], ExactFenceField(project, FENCE_FIELDS[i]))))
  }

  function ValidatorState(projectId: string, project: seq<(string, Value)>, payload: Value): Value {
    Object([("projectId", Text(projectId)), ("fence", Fence(project)), ("preview", StablePreview(payload))])
  }

  ghost predicate SameField(a: seq<(string, Value)>, b: seq<(string, Value)>, field: string) {
    && (HasKey(a, field) <==> HasKey(b, field))
    && (HasKey(a, field) && HasKey(b, field) ==> Same(Lookup(a, field), Lookup(b, field)))
  }

  // Objects with the same keys in the same order are compared value by value.
  lemma {:induction false} Aligned(a: seq<(string, Value)>, b: seq<(string, Value)>)
    requires |a| == |b| && DistinctKeys(b) && forall i :: 0 <= i < |a| ==> a[i].0 == b[i].0
    ensures Same(Object(a), Object(b)) <==> forall i :: 0 <= i < |a| ==> Same(a[i].1, b[i].1)
  {
  }

  lemma {:induction false} SameObjectsIff(a: seq<(string, Value)>, b: seq<(string, Value)>)
    ensures Same(Object(a), Object(b)) <==>
      (forall i :: 0 <= i < |a| ==> Named(a[i], b)) && (forall j :: 0 <= j < |b| ==> HasKey(a, b[j].0))
  {
  }

  lemma {:induction false} FieldIff(a: seq<(string, Value)>, b: seq<(string, Value)>, field: string)
    ensures Same(ExactFenceField(a, field), ExactFenceField(b, field)) <==> SameField(a, b, field)
  {
    var absent := [("present", Boolean(false))];
    assert |"present"| != |"value"|;
    if HasKey(a, field) && HasKey(b, field) {
      var x, y := Lookup(a, field), Lookup(b, field);
      var c, d := [("present", Boolean(true)), ("value", x)], [("present", Boolean(true)), ("value", y)];
      Aligned(c, d);
      assert c[0].1 == d[0].1 && c[1].1 == x && d[1].1 == y;
    } else if HasKey(a, field) {
      var c := [("present", Boolean(true)), ("value", Lookup(a, field))];
      assert c[1].0 == "value";
      assert !Named(c[1], absent);
    } else if HasKey(b, field) {
      var d := [("present", Boolean(true)), ("value", Lookup(b, field))];
      assert d[1].0 == "value";
      assert !HasKey(absent, d[1].0);
    } else {
      Aligned(absent, absent);
      assert absent[0].1 == Boolean(false);
    }
  }

  lemma FenceKeysDiffer()
    ensures forall i, j :: 0 <= i < j < |FENCE_FIELDS| ==> FENCE_FIELDS[i] != FENCE_FIELDS[j]
  {
  }

  lemma {:induction false} FenceIff(a: seq<(string, Value)>, b: seq<(string, Value)>)
    ensures Same(Fence(a), Fence(b)) <==> forall f <- FENCE_FIELDS :: SameField(a, b, f)
  {
    var c, d := Fence(a).entries, Fence(b).entries;
    FenceKeysDiffer();
    forall i | 0 <= i < |FENCE_FIELDS|
      ensures Same(c[i].1, d[i].1) <==> SameField(a, b, FENCE_FIELDS[i])
    {
      FieldIff(a, b, FENCE_FIELDS[i]);
    }
    hide Same, SameField, ExactFenceField;
    Aligned(c, d);
  }

  lemma FenceIsProper(project: seq<(string, Value)>)
    requires forall i :: 0 <= i < |project| ==> Proper(project[i].1)
    ensures Proper(Fence(project))
  {
  }

  // The inputs of two recovery validators coincide exactly when the project, the four fence fields
  // with their presence, and the previews apart from ages do.
  lemma {:induction false} ValidatorsCoincideIff(
      p: Printers, idA: string, projectA: seq<(string, Value)>, payloadA: Value,
      idB: string, projectB: seq<(string, Value)>, payloadB: Value)
    requires Faithful(p) && Proper(Object(projectA)) && Proper(Object(projectB)) && Proper(payloadA) && Proper(payloadB)
    requires Accepted(ValidatorState(idA, projectA, payloadA)) && Accepted(ValidatorState(idB, projectB, payloadB))
    ensures Canonical(p, ValidatorState(idA, projectA, payloadA)) == Canonical(p, ValidatorState(idB, projectB, payloadB))
      <==> idA == idB && (forall f <- FENCE_FIELDS :: SameField(projectA, projectB, f)) && SameButAge(payloadA, payloadB)
  {
    var a, b := ValidatorState(idA, projectA, payloadA), ValidatorState(idB, projectB, payloadB);
    StateIsProper(idA, projectA, payloadA);
    StateIsProper(idB, projectB, payloadB);
    CanonicalIff(p, a, b);
    StateIff(idA, projectA, payloadA, idB, projectB, payloadB);
  }

  lemma {:induction false} StateIsProper(id: string, project: seq<(string, Value)>, payload: Value)
    requires Proper(Object(project)) && Proper(payload)
    ensures Proper(ValidatorState(id, project, payload)) && DistinctKeys(ValidatorState(id, project, payload).entries)
  {
    FenceIsProper(project);
    StableKeepsProper(payload);
    assert |"projectId"| == 9 && |"fence"| == 5 && |"preview"| == 7;
  }

  lemma {:induction false} StateIff(idA: string, projectA: seq<(string, Value)>, payloadA: Value,
                                    idB: string, projectB: seq<(string, Value)>, payloadB: Value)
    ensures Same(ValidatorState(idA, projectA, payloadA), ValidatorState(idB, projectB, payloadB))
      <==> idA == idB && (forall f <- FENCE_FIELDS :: SameField(projectA, projectB, f)) && SameButAge(payloadA, payloadB)
  {
    var a, b := ValidatorState(idA, projectA, payloadA).entries, ValidatorState(idB, projectB, payloadB).entries;
    assert |"projectId"| == 9 && |"fence"| == 5 && |"preview"| == 7;
    FenceIff(projectA, projectB);
    StableIff(payloadA, payloadB);
    assert Same(Text(idA), Text(idB)) <==> idA == idB;
    hide Same, SameField, SameButAge, Fence, StablePreview;
    Aligned(a, b);
    assert a[0].1 == Text(idA) && a[1].1 == Fence(projectA) && a[2].1 == StablePreview(payloadA);
    assert b[0].1 == Text(idB) && b[1].1 == Fence(projectB) && b[2].1 == StablePreview(payloadB);
  }

  // ---------------------------------------------------------------- what is refused

  // x is v or somewhere inside it.
  ghost predicate Occurs(x: Value, v: Value) {
    || x == v
    || (v.List? && exists i :: 0 <= i < |v.items| && Occurs(x, v.items[i]))
    || (v.Object? && exists i :: 0 <= i < |v.entries| && Occurs(x, v.entries[i].1))
  }

  ghost predicate AllData(v: Value) {
    forall x :: Occurs(x, v) ==> !x.NotFinite? && !x.InvalidDate? && !x.Instance? && !x.Other?
  }

  // canonical throws exactly for values in which something occurs that is no data: a number that is not
  // finite, an invalid date, an object of another prototype, or something else.
  lemma {:induction false} AcceptedIff(v: Value)
    ensures Accepted(v) <==> AllData(v)
  {
    assert Occurs(v, v);
    match v
    case List(items) =>
      forall i | 0 <= i < |items| ensures Accepted(items[i]) <==> AllData(items[i]) { AcceptedIff(items[i]); }
      assert AllData(v) <==> forall i :: 0 <= i < |items| ==> AllData(items[i]);
    case Object(entries) =>
      forall i | 0 <= i < |entries| ensures Accepted(entries[i].1) <==> AllData(entries[i].1) { AcceptedIff(entries[i].1); }
      assert AllData(v) <==> forall i :: 0 <= i < |entries| ==> AllData(entries[i].1);
    case _ =>
  }
}
