// Keyset pagination of server/apiPagination.js: selectorAfter, fetchTimeentryPage, and a client that
// follows nextCursor while other people insert and delete entries.
module ApiPagination {
  import opened Options
  import opened Strings
  import CursorCodec

  // The sort key of an entry. Keys are immutable and identifiers are compared as the store does.
  datatype Key = Key(date: int, id: string)

  predicate KeyLess(a: Key, b: Key) {
    a.date < b.date || (a.date == b.date && a.id != b.id && StringLe(a.id, b.id))
  }

  lemma KeyOrder(a: Key, b: Key, c: Key)
    ensures !(KeyLess(a, b) && KeyLess(b, a))
    ensures KeyLess(a, b) || KeyLess(b, a) || a == b
    ensures KeyLess(a, b) && KeyLess(b, c) ==> KeyLess(a, c)
  {
    StringLeTotal(a.id, b.id);
    if StringLe(a.id, b.id) && StringLe(b.id, a.id) { StringLeAntisymmetric(a.id, b.id); }
    if StringLe(a.id, b.id) && StringLe(b.id, c.id) {
      StringLeTransitive(a.id, b.id, c.id);
      if a.id == c.id { StringLeAntisymmetric(a.id, b.id); }
    }
  }

  ghost predicate Ascending(keys: seq<Key>) {
    forall i, j :: 0 <= i < j < |keys| ==> KeyLess(keys[i], keys[j])
  }

  // ---------------------------------------------------------------- one page

  // The store holds a malformed document where a date or an identifier is missing.
  datatype Document = Malformed | Entry(key: Key)

  datatype Page = Page(items: seq<Key>, complete: bool, next: Option<Key>)

  datatype Fetched = InvalidEntry | OutOfOrder | InvalidCursorId | Fetched(page: Page)

  function Keys(documents: seq<Document>): seq<Key>
    requires forall i :: 0 <= i < |documents| ==> documents[i].Entry?
  {
    seq(|documents|, i requires 0 <= i < |documents| => documents[i].key)
  }

  function Items(documents: seq<Document>, limit: nat): seq<Document> {
    if |documents| <= limit then documents else documents[..limit]
  }

  predicate CursorId(id: string) {
    0 < |id| <= 128
  }

  // The entries before an index are well formed and in order.
  ghost predicate GoodUpTo(items: seq<Document>, index: nat) {
    index <= |items| && (forall i :: 0 <= i < index ==> items[i].Entry?) && Ascending(Keys(items[..index]))
  }

  // fetchTimeentryPage, given whatever the query callback returned for limit + 1 documents.
  method FetchTimeentryPage(documents: seq<Document>, limit: nat) returns (r: Fetched)
    requires limit >= 1
    ensures var items := Items(documents, limit);
      match r
      case InvalidEntry => exists i :: 0 <= i < |items| && GoodUpTo(items, i) && items[i].Malformed?
      case OutOfOrder => exists i :: 0 < i < |items| && GoodUpTo(items, i) && items[i].Entry?
                                      && !KeyLess(items[i - 1].key, items[i].key)
      case InvalidCursorId => |documents| > limit && GoodUpTo(items, limit) && !(1 <= |items[limit - 1].key.id| <= 128)
      case Fetched(page) =>
        && GoodUpTo(items, |items|)
        && page.items == Keys(items)
        && (page.complete <==> |documents| <= limit)
        && (page.complete ==> page.next == None)
        && (!page.complete ==> page.next == Some(page.items[limit - 1]) && 1 <= |page.items[limit - 1].id| <= 128)
  {
    var hasMore := |documents| > limit;
    var items := Items(documents, limit);
    for index := 0 to |items|
      invariant GoodUpTo(items, index)
    {
      var item := items[index];
      if item.Malformed? {
        return InvalidEntry;
      }
      if index > 0 && !KeyLess(items[index - 1].key, item.key) {
        return OutOfOrder;
      }
      OneMore(items, index);
    }
    assert items[..|items|] == items;
    var keys := Keys(items);
    if hasMore && !CursorId(keys[|keys| - 1].id) {
      return InvalidCursorId;
    }
    r := Fetched(Page(keys, !hasMore, if hasMore then Some(keys[|keys| - 1]) else None));
  }

  lemma OneMore(items: seq<Document>, index: nat)
    requires GoodUpTo(items, index) && index < |items| && items[index].Entry?
    requires index > 0 ==> KeyLess(items[index - 1].key, items[index].key)
    ensures GoodUpTo(items, index + 1)
  {
    var keys, longer := Keys(items[..index]), Keys(items[..index + 1]);
    forall i, j | 0 <= i < j < |longer| ensures KeyLess(longer[i], longer[j]) {
      if j < index {
        assert KeyLess(keys[i], keys[j]);
      } else if i < index - 1 {
        assert KeyLess(keys[i], keys[index - 1]);
        KeyOrder(keys[i], items[index - 1].key, items[index].key);
      }
    }
  }

  // ---------------------------------------------------------------- the store's answer

  predicate Behind(position: Option<Key>, e: Key) {
    position.None? || KeyLess(position.value, e)
  }

  // selectorAfter: the entries behind the position.
  function After(entries: set<Key>, position: Option<Key>): set<Key> {
    set e | e in entries && Behind(position, e)
  }

  lemma MinimumExists(entries: set<Key>)
    requires entries != {}
    ensures exists m :: m in entries && forall e <- entries :: e == m || KeyLess(m, e)
  {
    var x :| x in entries;
    if entries != {x} {
      var rest := entries - {x};
      MinimumExists(rest);
      var m :| m in rest && forall e <- rest :: e == m || KeyLess(m, e);
      var least := if KeyLess(x, m) then x else m;
      forall e <- entries ensures e == least || KeyLess(least, e) {
        KeyOrder(x, m, e);
        KeyOrder(m, x, e);
      }
      assert least in entries;
    }
  }

  // The entries in the order of the sort.
  ghost function Sorted(entries: set<Key>): seq<Key> {
    if entries == {} then []
    else
      MinimumExists(entries);
      var m :| m in entries && forall e <- entries :: e == m || KeyLess(m, e);
      [m] + Sorted(entries - {m})
  }

  lemma {:induction false} SortedIsSorted(entries: set<Key>)
    ensures Ascending(Sorted(entries))
    ensures forall e :: e in Sorted(entries) <==> e in entries
    ensures |Sorted(entries)| == |entries|
  {
    hide KeyLess;
    if entries != {} {
      var sorted := Sorted(entries);
      var m := sorted[0];
      var rest := Sorted(entries - {m});
      SortedIsSorted(entries - {m});
      assert sorted == [m] + rest;
      forall i, j | 0 <= i < j < |sorted| ensures KeyLess(sorted[i], sorted[j]) {
        if i == 0 { assert sorted[j] in rest; } else { assert KeyLess(rest[i - 1], rest[j - 1]); }
      }
    }
  }

  // Two ascending sequences of the same entries are the same sequence.
  lemma {:induction false} AscendingUnique(a: seq<Key>, b: seq<Key>)
    requires Ascending(a) && Ascending(b) && forall e :: e in a <==> e in b
    ensures a == b
  {
    assert |b| > 0 ==> b[0] in a;
    assert |a| > 0 ==> a[0] in b;
    if a != [] {
      KeyOrder(a[0], b[0], a[0]);
      assert a[0] == b[0];
      forall e ensures e in a[1..] <==> e in b[1..] {
        TailMembers(a, e);
        TailMembers(b, e);
      }
      AscendingUnique(a[1..], b[1..]);
      assert a == [a[0]] + a[1..] && b == [b[0]] + b[1..];
    }
  }

  lemma TailMembers(a: seq<Key>, e: Key)
    requires Ascending(a) && a != []
    ensures e in a[1..] <==> e in a && e != a[0]
  {
  }

  // A correct store answers with the first limit + 1 entries behind the position, in order.
  ghost function PageOf(entries: set<Key>, position: Option<Key>, limit: nat): Page
    requires limit >= 1
  {
    SortedIsSorted(After(entries, position));
    var found := Sorted(After(entries, position));
    if |found| <= limit then Page(found, true, None) else Page(found[..limit], false, Some(found[limit - 1]))
  }

  // On a correct answer the loop finds nothing to object to, and the page is PageOf.
  lemma CorrectAnswerAccepted(entries: set<Key>, position: Option<Key>, limit: nat, documents: seq<Document>)
    requires limit >= 1 && forall i :: 0 <= i < |documents| ==> documents[i].Entry?
    requires var found := Sorted(After(entries, position));
      Keys(documents) == if |found| <= limit + 1 then found else found[..limit + 1]
    ensures var items := Items(documents, limit);
      GoodUpTo(items, |items|) && PageOf(entries, position, limit) ==
        Page(Keys(items), |documents| <= limit, if |documents| <= limit then None else Some(Keys(items)[limit - 1]))
  {
    hide KeyLess, Sorted, After;
    var found := Sorted(After(entries, position));
    SortedIsSorted(After(entries, position));
    var items := Items(documents, limit);
    assert |documents| == |Keys(documents)| && items[..|items|] == items;
    FirstKeys(documents, limit);
    assert Keys(items) == if |found| <= limit then found else found[..limit];
    assert Ascending(Keys(items));
  }

  lemma FirstKeys(documents: seq<Document>, limit: nat)
    requires forall i :: 0 <= i < |documents| ==> documents[i].Entry?
    ensures var items := Items(documents, limit);
      Keys(items) == if |documents| <= limit then Keys(documents) else Keys(documents)[..limit]
  {
  }

  // ---------------------------------------------------------------- following nextCursor

  // What one request of a walk meets: the collection at that moment and the requested limit.
  datatype Visit = Visit(entries: set<Key>, limit: nat)

  ghost predicate Answerable(visits: seq<Visit>) {
    forall v <- visits :: v.limit >= 1 && forall e <- v.entries :: Encodable(e)
  }

  predicate Encodable(key: Key) {
    CursorId(key.id) && -CursorCodec.MAX_TIME <= key.date <= CursorCodec.MAX_TIME
  }

  // A client hands every nextCursor back, until a page says complete or it stops asking.
  datatype Walked = Walked(items: seq<Key>, finished: bool)

  ghost function Walk(f: CursorCodec.Formats, digest: string, visits: seq<Visit>, cursor: Option<string>): Walked
    requires Answerable(visits)
  {
    if visits == [] then Walked([], false)
    else
      var decoded := if cursor.None? then CursorCodec.InvalidCursor
                     else CursorCodec.DecodeCursor(f, digest, cursor.value);
      if cursor.Some? && !decoded.Position? then Walked([], false)
      else
        var position := if cursor.None? then None else Some(Key(decoded.date, decoded.id));
        var page := PageOf(visits[0].entries, position, visits[0].limit);
        if page.complete then Walked(page.items, true)
        else
          var next := CursorCodec.EncodeCursor(f, digest, page.next.value.date, page.next.value.id);
          var rest := Walk(f, digest, visits[1..], Some(next));
          Walked(page.items + rest.items, rest.finished)
  }

  // The same walk on positions, without the cursor text.
  ghost function Steps(visits: seq<Visit>, position: Option<Key>): Walked
    requires Answerable(visits)
  {
    if visits == [] then Walked([], false)
    else
      var page := PageOf(visits[0].entries, position, visits[0].limit);
      if page.complete then Walked(page.items, true)
      else
        var rest := Steps(visits[1..], page.next);
        Walked(page.items + rest.items, rest.finished)
  }

  ghost function CursorFor(f: CursorCodec.Formats, digest: string, position: Option<Key>): Option<string> {
    if position.None? then None
    else Some(CursorCodec.EncodeCursor(f, digest, position.value.date, position.value.id))
  }

  lemma {:induction false} WalkTakesSteps(f: CursorCodec.Formats, digest: string, visits: seq<Visit>,
                                          position: Option<Key>)
    requires CursorCodec.Faithful(f) && |digest| == 64 && Answerable(visits)
    requires position.Some? ==> Encodable(position.value)
    ensures Walk(f, digest, visits, CursorFor(f, digest, position)) == Steps(visits, position)
  {
    if visits != [] {
      if position.Some? {
        CursorCodec.CursorRoundTrip(f, digest, position.value.date, position.value.id);
      }
      var page := PageOf(visits[0].entries, position, visits[0].limit);
      if !page.complete {
        PageFacts(visits[0].entries, position, visits[0].limit);
        assert page.next.value in visits[0].entries;
        WalkTakesSteps(f, digest, visits[1..], page.next);
      }
    }
  }

  // A page holds the entries behind the position up to its own last key, and only those. Every page
  // but the last is full.
  lemma {:induction false} PageFacts(entries: set<Key>, position: Option<Key>, limit: nat)
    requires limit >= 1
    ensures var page := PageOf(entries, position, limit);
      && Ascending(page.items) && |page.items| <= limit && (page.complete || |page.items| == limit)
      && (forall e <- page.items :: e in entries && Behind(position, e))
      && (page.complete ==> forall e <- entries :: Behind(position, e) ==> e in page.items)
      && (!page.complete ==>
            && page.next.Some? && page.next.value in page.items
            && (forall e <- page.items :: e == page.next.value || KeyLess(e, page.next.value))
            && (forall e <- entries :: Behind(position, e) ==> e in page.items || KeyLess(page.next.value, e)))
  {
    hide KeyLess, Sorted;
    var found := Sorted(After(entries, position));
    SortedIsSorted(After(entries, position));
    var page := PageOf(entries, position, limit);
    forall e | e in page.items ensures e in After(entries, position) {
      assert e in found;
    }
    if |found| <= limit {
      forall e | e in entries && Behind(position, e) ensures e in page.items {
        assert e in After(entries, position);
      }
    } else {
      assert page.items[limit - 1] == found[limit - 1];
      forall e | e in entries && Behind(position, e) ensures e in page.items || KeyLess(page.next.value, e) {
        assert e in After(entries, position) && e in found;
        var i :| 0 <= i < |found| && found[i] == e;
        if i < limit { assert page.items[i] == e; }
      }
    }
  }

  // Nothing is repeated and the order is kept, whatever happens to the collection between requests.
  lemma {:induction false} StepsAscend(visits: seq<Visit>, position: Option<Key>)
    requires Answerable(visits)
    ensures Ascending(Steps(visits, position).items)
    ensures forall e <- Steps(visits, position).items ::
      Behind(position, e) && exists v :: v in visits && e in v.entries
  {
    if visits != [] {
      var page := PageOf(visits[0].entries, position, visits[0].limit);
      PageFacts(visits[0].entries, position, visits[0].limit);
      if !page.complete {
        StepsAscend(visits[1..], page.next);
        var rest := Steps(visits[1..], page.next).items;
        forall e | e in rest ensures Behind(position, e) && exists v :: v in visits && e in v.entries {
          if position.Some? { KeyOrder(position.value, page.next.value, e); }
          var v :| v in visits[1..] && e in v.entries;
          assert v in visits;
        }
        forall a, b | a in page.items && b in rest ensures KeyLess(a, b) {
          KeyOrder(a, page.next.value, b);
        }
        AscendingConcat(page.items, rest);
      }
    }
  }

  lemma AscendingConcat(a: seq<Key>, b: seq<Key>)
    requires Ascending(a) && Ascending(b) && forall x, y :: x in a && y in b ==> KeyLess(x, y)
    ensures Ascending(a + b)
  {
  }

  // An entry that is there in every snapshot is returned by a walk that reaches the last page.
  lemma {:induction false} StepsMissNothing(visits: seq<Visit>, position: Option<Key>, e: Key)
    requires Answerable(visits) && Steps(visits, position).finished
    requires Behind(position, e) && forall v <- visits :: e in v.entries
    ensures e in Steps(visits, position).items
  {
    var page := PageOf(visits[0].entries, position, visits[0].limit);
    PageFacts(visits[0].entries, position, visits[0].limit);
    if !page.complete && e !in page.items {
      StepsMissNothing(visits[1..], page.next, e);
    }
  }

  // On a fixed collection every page but the last is full, so enough requests reach the last page.
  lemma {:induction false} FixedWalkFinishes(visits: seq<Visit>, position: Option<Key>, entries: set<Key>)
    requires Answerable(visits) && forall v <- visits :: v.entries == entries
    requires |visits| > 0 && |visits| >= |After(entries, position)|
    ensures Steps(visits, position).finished
  {
    var page := PageOf(entries, position, visits[0].limit);
    PageFacts(entries, position, visits[0].limit);
    SortedIsSorted(After(entries, position));
    if !page.complete {
      assert |After(entries, page.next)| < |After(entries, position)| by {
        forall e | e in After(entries, page.next) ensures e in After(entries, position) {
          if position.Some? { KeyOrder(position.value, page.next.value, e); }
        }
        var last := page.next.value;
        KeyOrder(last, last, last);
        assert last in After(entries, position) && last !in After(entries, page.next);
        Shrinks(After(entries, page.next), After(entries, position), last);
      }
      assert |After(entries, position)| >= 2;
      FixedWalkFinishes(visits[1..], page.next, entries);
    }
  }

  lemma Shrinks<T>(a: set<T>, b: set<T>, x: T)
    requires a <= b && x in b && x !in a
    ensures |a| < |b|
  {
    assert a <= b - {x};
    var rest := (b - {x}) - a;
    assert a + rest == b - {x} && a !! rest;
    assert |b - {x}| == |a| + |rest|;
  }

  // Dates never go back, and on one date the identifiers go up.
  ghost predicate InOrder(keys: seq<Key>) {
    forall i, j :: 0 <= i < j < |keys| ==>
      keys[i].date <= keys[j].date && (keys[i].date == keys[j].date ==> Precedes(keys[i].id, keys[j].id))
  }

  lemma AscendingIsInOrder(keys: seq<Key>)
    requires Ascending(keys)
    ensures InOrder(keys)
  {
    forall i, j | 0 <= i < j < |keys|
      ensures keys[i].date <= keys[j].date && (keys[i].date == keys[j].date ==> Precedes(keys[i].id, keys[j].id))
    {
      assert KeyLess(keys[i], keys[j]);
      StringLeIff(keys[i].id, keys[j].id);
    }
  }

  // The whole promise for a client that follows nextCursor from the start while others insert and
  // delete entries.
  lemma {:induction false} FollowingNextCursor(f: CursorCodec.Formats, digest: string, visits: seq<Visit>)
    requires CursorCodec.Faithful(f) && |digest| == 64 && Answerable(visits)
    ensures var walk := Walk(f, digest, visits, None);
      && InOrder(walk.items)
      && (forall e <- walk.items :: exists v :: v in visits && e in v.entries)
      && (walk.finished ==> forall e: Key :: (forall v <- visits :: e in v.entries) ==> e in walk.items)
  {
    WalkTakesSteps(f, digest, visits, None);
    StepsAscend(visits, None);
    var walk := Steps(visits, None);
    AscendingIsInOrder(walk.items);
    if walk.finished {
      forall e: Key | forall v <- visits :: e in v.entries ensures e in walk.items {
        StepsMissNothing(visits, None, e);
      }
    }
  }

  // On a fixed collection the pages concatenate to the whole sorted collection.
  lemma {:induction false} FixedCollection(f: CursorCodec.Formats, digest: string, visits: seq<Visit>, entries: set<Key>)
    requires CursorCodec.Faithful(f) && |digest| == 64 && Answerable(visits)
    requires (forall v <- visits :: v.entries == entries) && |visits| > 0 && |visits| >= |entries|
    ensures Walk(f, digest, visits, None) == Walked(Sorted(entries), true)
    ensures InOrder(Sorted(entries)) && forall e :: e in Sorted(entries) <==> e in entries
  {
    WalkTakesSteps(f, digest, visits, None);
    assert After(entries, None) == entries;
    FixedWalkFinishes(visits, None, entries);
    FollowingNextCursor(f, digest, visits);
    SortedIsSorted(entries);
    AscendingIsInOrder(Sorted(entries));
    StepsAscend(visits, None);
    var items := Steps(visits, None).items;
    forall e ensures e in items <==> e in Sorted(entries) {
      if e in entries { StepsMissNothing(visits, None, e); }
    }
    AscendingUnique(items, Sorted(entries));
  }
}
