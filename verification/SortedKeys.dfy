// Lists of entries sorted by key, as both canonical encodings sort the own keys of an object.
module SortedKeys {
  import opened Strings

  ghost predicate DistinctKeys<T>(entries: seq<(string, T)>) {
    forall i, j :: 0 <= i < j < |entries| ==> entries[i].0 != entries[j].0
  }

  predicate HasKey<T>(entries: seq<(string, T)>, key: string) {
    exists i :: 0 <= i < |entries| && entries[i].0 == key
  }

  function InsertByKey<T>(entry: (string, T), sorted: seq<(string, T)>): seq<(string, T)> {
    if sorted == [] then [entry]
    else if StringLe(entry.0, sorted[0].0) then [entry] + sorted
    else [sorted[0]] + InsertByKey(entry, sorted[1..])
  }

  function SortByKey<T>(entries: seq<(string, T)>): seq<(string, T)> {
    if entries == [] then [] else InsertByKey(entries[0], SortByKey(entries[1..]))
  }

  ghost predicate KeysAscend<T>(s: seq<(string, T)>) {
    forall i, j :: 0 <= i < j < |s| ==> s[i].0 != s[j].0 && StringLe(s[i].0, s[j].0)
  }

  lemma {:induction false} InsertFacts<T>(entry: (string, T), sorted: seq<(string, T)>)
    requires KeysAscend(sorted) && forall i :: 0 <= i < |sorted| ==> sorted[i].0 != entry.0
    ensures var r := InsertByKey(entry, sorted);
      && KeysAscend(r) && entry in r && (forall e <- sorted :: e in r)
      && (forall e <- r :: e == entry || e in sorted)
  {
    hide StringLe;
    if sorted != [] {
      assert sorted == [sorted[0]] + sorted[1..];
      if StringLe(entry.0, sorted[0].0) {
        forall j | 0 < j < |sorted| ensures StringLe(entry.0, sorted[j].0) {
          StringLeTransitive(entry.0, sorted[0].0, sorted[j].0);
        }
      } else {
        StringLeTotal(entry.0, sorted[0].0);
        InsertFacts(entry, sorted[1..]);
        var rest := InsertByKey(entry, sorted[1..]);
        forall j | 0 <= j < |rest| ensures rest[j].0 != sorted[0].0 && StringLe(sorted[0].0, rest[j].0) {
          assert rest[j] in rest;
        }
      }
    }
  }

  lemma {:induction false} SortFacts<T>(entries: seq<(string, T)>)
    requires DistinctKeys(entries)
    ensures KeysAscend(SortByKey(entries)) && SameEntries(entries, SortByKey(entries))
  {
    if entries != [] {
      SortFacts(entries[1..]);
      assert entries == [entries[0]] + entries[1..];
      var rest := SortByKey(entries[1..]);
      forall i | 0 <= i < |rest| ensures rest[i].0 != entries[0].0 {
        assert rest[i] in entries[1..];
      }
      InsertFacts(entries[0], rest);
    }
  }

  ghost predicate SameEntries<T>(a: seq<(string, T)>, b: seq<(string, T)>) {
    (forall e <- a :: e in b) && (forall e <- b :: e in a)
  }

  lemma Heads<T>(a: seq<(string, T)>, b: seq<(string, T)>)
    requires KeysAscend(a) && KeysAscend(b) && SameEntries(a, b) && a != [] && b != []
    ensures a[0] == b[0]
  {
    hide StringLe;
    assert a[0] in b && b[0] in a;
    var i :| 0 <= i < |a| && a[i] == b[0];
    var j :| 0 <= j < |b| && b[j] == a[0];
    if i > 0 && j > 0 {
      StringLeAntisymmetric(a[0].0, b[0].0);
    }
  }

  lemma TailsAgree<T>(a: seq<(string, T)>, b: seq<(string, T)>)
    requires KeysAscend(a) && KeysAscend(b) && SameEntries(a, b) && a != [] && b != [] && a[0] == b[0]
    ensures KeysAscend(a[1..]) && KeysAscend(b[1..]) && SameEntries(a[1..], b[1..])
  {
    hide StringLe;
    forall e <- a[1..] ensures e in b[1..] {
      assert e in a && e in b && e != b[0];
    }
    forall e <- b[1..] ensures e in a[1..] {
      assert e in b && e in a && e != a[0];
    }
  }

  // Ascending lists of the same entries are the same list.
  lemma {:induction false} AscendingUnique<T>(a: seq<(string, T)>, b: seq<(string, T)>)
    requires KeysAscend(a) && KeysAscend(b) && SameEntries(a, b)
    ensures a == b
  {
    assert |a| > 0 ==> a[0] in b;
    assert |b| > 0 ==> b[0] in a;
    if a != [] {
      Heads(a, b);
      TailsAgree(a, b);
      AscendingUnique(a[1..], b[1..]);
      assert a == [a[0]] + a[1..] && b == [b[0]] + b[1..];
    }
  }

  // The order of the keys drops out of a sorted list, and nothing else does.
  lemma SortForgetsOrder<T>(a: seq<(string, T)>, b: seq<(string, T)>)
    requires DistinctKeys(a) && DistinctKeys(b)
    ensures SortByKey(a) == SortByKey(b) <==> SameEntries(a, b)
  {
    SortFacts(a);
    SortFacts(b);
    if SameEntries(a, b) {
      AscendingUnique(SortByKey(a), SortByKey(b));
    }
  }
}
