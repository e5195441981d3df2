// collectExportPages of imports/utils/exportCollection.js: collecting a paged export from a server
// that may answer anything.
module ExportCollection {
  import opened Options

  datatype Code = Cancelled | Timeout | FetchFailed | Incomplete | TooLarge | Changed

  // A row is a plain object or something else; its contents do not matter here.
  datatype Row = Plain(content: string) | Foreign

  // A key of the wrong shape is not a well-formed text of 1 to 2048 characters.
  datatype RowKey = RowKey(text: string) | BadKey

  // size is the length of the page's JSON in bytes, None if it has none.
  datatype Reply = NoReply | Reply(page: int, totalEntries: int, rows: seq<Row>, keys: seq<RowKey>, size: Option<nat>)

  // What happens while a page is awaited, what is answered, and what the last check of the turn sees.
  datatype Turn = Turn(before: Option<Code>, reply: Reply, after: Option<Code>)

  // Page n + 1 is answered by turns(n).
  datatype Export = Export(turns: nat -> Turn, pageSize: nat, maxRows: nat, maxBytes: nat)

  datatype Outcome = Collected(rows: seq<Row>) | Failed(code: Code)

  // ---------------------------------------------------------------- what has been collected

  function Rows(e: Export, n: nat): seq<Row> {
    if n == 0 then [] else Rows(e, n - 1) + PageRows(e, n - 1)
  }

  function Keys(e: Export, n: nat): seq<RowKey> {
    if n == 0 then [] else Keys(e, n - 1) + PageKeys(e, n - 1)
  }

  function Bytes(e: Export, n: nat): nat {
    if n == 0 then 0 else Bytes(e, n - 1) + PageSize(e, n - 1)
  }

  function PageRows(e: Export, n: nat): seq<Row> {
    if e.turns(n).reply.Reply? then e.turns(n).reply.rows else []
  }

  function PageKeys(e: Export, n: nat): seq<RowKey> {
    if e.turns(n).reply.Reply? then e.turns(n).reply.keys else []
  }

  function PageSize(e: Export, n: nat): nat {
    if e.turns(n).reply.Reply? && e.turns(n).reply.size.Some? then e.turns(n).reply.size.value else 0
  }

  // The total announced by the first page.
  function Total(e: Export): int {
    if e.turns(0).reply.Reply? then e.turns(0).reply.totalEntries else 0
  }

  function Expected(e: Export, n: nat): int {
    var left := Total(e) - |Rows(e, n)|;
    if e.pageSize < left then e.pageSize else left
  }

  // The first key that is malformed or was there before decides.
  function KeyProblem(seen: seq<RowKey>, keys: seq<RowKey>): Option<Code>
    decreases |keys|
  {
    if keys == [] then None
    else if keys[0].BadKey? then Some(Incomplete)
    else if keys[0] in seen then Some(Changed)
    else KeyProblem(seen + [keys[0]], keys[1..])
  }

  // The checks of one turn, in the order of the source; None if the page is taken over.
  function Problem(e: Export, n: nat): Option<Code> {
    var turn := e.turns(n);
    if turn.before.Some? then turn.before
    else match turn.reply
         case NoReply => Some(Incomplete)
         case Reply(page, totalEntries, rows, keys, size) =>
           if page != n + 1 || totalEntries < 0 || |rows| != |keys| then Some(Incomplete)
           else if totalEntries > e.maxRows then Some(TooLarge)
           else if totalEntries != Total(e) then Some(Changed)
           else if |rows| != Expected(e, n) then Some(Incomplete)
           else if Foreign in rows then Some(Incomplete)
           else if KeyProblem(Keys(e, n), keys).Some? then KeyProblem(Keys(e, n), keys)
           else if size.None? then Some(Incomplete)
           else if Bytes(e, n) + size.value > e.maxBytes then Some(TooLarge)
           else turn.after
  }

  ghost predicate GoodUpTo(e: Export, n: nat) {
    forall m :: 0 <= m < n ==> Problem(e, m) == None && (m > 0 ==> |Rows(e, m)| != Total(e))
  }

  // ---------------------------------------------------------------- the loop

  method CollectExportPages(e: Export) returns (r: Outcome)
    requires e.pageSize >= 1
    ensures match r
      case Collected(rows) =>
        exists n :: n >= 1 && GoodUpTo(e, n) && rows == Rows(e, n) && |rows| == Total(e)
      case Failed(code) =>
        exists n :: GoodUpTo(e, n) && (n > 0 ==> |Rows(e, n)| != Total(e)) && Problem(e, n) == Some(code)
  {
    hide Problem, PageRows, PageKeys, PageSize;
    var rows: seq<Row>, seen, bytes, total, page := [], [], 0, None, 0;
    while true
      invariant GoodUpTo(e, page) && (page > 0 ==> |rows| < Total(e))
      invariant rows == Rows(e, page) && seen == Keys(e, page) && bytes == Bytes(e, page)
      invariant total == if page == 0 then None else Some(Total(e))
      decreases if page == 0 then e.maxRows + 1 else Total(e) - |rows|
    {
      var problem;
      problem, rows, seen, bytes, total := TakePage(e, page, rows, seen, bytes, total);
      if problem.Some? { return Failed(problem.value); }
      page := page + 1;
      if |rows| == total.value {
        assert page >= 1 && GoodUpTo(e, page) && rows == Rows(e, page) && |rows| == Total(e);
        return Collected(rows);
      }
    }
  }

  // One turn of the loop: take the next page over, or say what is wrong with it.
  method TakePage(e: Export, page: nat, rows: seq<Row>, seen: seq<RowKey>, bytes: nat, total: Option<int>)
    returns (problem: Option<Code>, moreRows: seq<Row>, moreSeen: seq<RowKey>, moreBytes: nat, known: Option<int>)
    requires e.pageSize >= 1 && rows == Rows(e, page) && seen == Keys(e, page) && bytes == Bytes(e, page)
    requires total == if page == 0 then None else Some(Total(e))
    ensures problem == Problem(e, page)
    ensures problem.None? ==>
      && moreRows == Rows(e, page + 1) && moreSeen == Keys(e, page + 1) && moreBytes == Bytes(e, page + 1)
      && known == Some(Total(e)) && Total(e) <= e.maxRows
      && (|rows| < Total(e) ==> |rows| < |moreRows| <= Total(e))
      && (page == 0 ==> |moreRows| <= Total(e))
  {
    moreRows, moreSeen, moreBytes, known := rows, seen, bytes, total;
    var turn := e.turns(page);
    if turn.before.Some? { return turn.before, moreRows, moreSeen, moreBytes, known; }
    if turn.reply.NoReply? { return Some(Incomplete), moreRows, moreSeen, moreBytes, known; }
    var reply := turn.reply;
    if reply.page != page + 1 || reply.totalEntries < 0 || |reply.rows| != |reply.keys| {
      return Some(Incomplete), moreRows, moreSeen, moreBytes, known;
    }
    if reply.totalEntries > e.maxRows { return Some(TooLarge), moreRows, moreSeen, moreBytes, known; }
    if total.None? {
      known := Some(reply.totalEntries);
    } else if total.value != reply.totalEntries {
      return Some(Changed), moreRows, moreSeen, moreBytes, known;
    }
    var left := known.value - |rows|;
    if |reply.rows| != (if e.pageSize < left then e.pageSize else left) {
      return Some(Incomplete), moreRows, moreSeen, moreBytes, known;
    }
    if Foreign in reply.rows { return Some(Incomplete), moreRows, moreSeen, moreBytes, known; }
    problem, moreSeen := TakeKeys(seen, reply.keys);
    if problem.Some? { return; }
    if reply.size.None? { return Some(Incomplete), moreRows, moreSeen, moreBytes, known; }
    moreBytes := bytes + reply.size.value;
    if moreBytes > e.maxBytes { return Some(TooLarge), moreRows, moreSeen, moreBytes, known; }
    moreRows := rows + reply.rows;
    problem := turn.after;
  }

  method TakeKeys(before: seq<RowKey>, keys: seq<RowKey>) returns (problem: Option<Code>, seen: seq<RowKey>)
    ensures problem == KeyProblem(before, keys)
    ensures problem.None? ==> seen == before + keys
  {
    seen := before;
    for i := 0 to |keys|
      invariant seen == before + keys[..i]
      invariant KeyProblem(before, keys) == KeyProblem(seen, keys[i..])
    {
      if keys[i].BadKey? { return Some(Incomplete), seen; }
      if keys[i] in seen { return Some(Changed), seen; }
      seen := seen + [keys[i]];
      assert keys[i..][1..] == keys[i + 1..];
    }
    assert keys[..|keys|] == keys;
    problem := None;
  }

  // ---------------------------------------------------------------- what a finished export is

  ghost predicate Distinct(keys: seq<RowKey>) {
    forall i, j :: 0 <= i < j < |keys| ==> keys[i] != keys[j]
  }

  lemma {:induction false} KeysStayDistinct(seen: seq<RowKey>, keys: seq<RowKey>)
    requires Distinct(seen) && KeyProblem(seen, keys).None?
    ensures Distinct(seen + keys) && BadKey !in keys
    decreases |keys|
  {
    if keys == [] {
      assert seen + keys == seen;
    } else {
      KeysStayDistinct(seen + [keys[0]], keys[1..]);
      assert seen + [keys[0]] + keys[1..] == seen + keys;
      assert keys == [keys[0]] + keys[1..];
    }
  }

  // What a page that is taken over adds.
  lemma {:induction false} PageFits(e: Export, n: nat)
    requires Problem(e, n).None?
    ensures |PageKeys(e, n)| == |PageRows(e, n)| == Expected(e, n) && Foreign !in PageRows(e, n)
    ensures KeyProblem(Keys(e, n), PageKeys(e, n)).None? && Bytes(e, n) + PageSize(e, n) <= e.maxBytes
    ensures 0 <= Total(e) <= e.maxRows
  {
    hide KeyProblem, Rows, Keys, Bytes;
  }

  lemma OneMoreFull(n: nat, pageSize: nat)
    ensures (n + 1) * pageSize == n * pageSize + pageSize
  {
  }

  // Every page of a finished export but the last is full; keys name its rows one to one; the limits hold.
  lemma {:induction false} GoodPages(e: Export, n: nat)
    requires GoodUpTo(e, n) && e.pageSize >= 1
    ensures Distinct(Keys(e, n)) && BadKey !in Keys(e, n) && Foreign !in Rows(e, n)
    ensures |Keys(e, n)| == |Rows(e, n)| && Bytes(e, n) <= e.maxBytes
    ensures n > 0 ==> 0 <= |Rows(e, n)| <= Total(e) <= e.maxRows
    ensures n > 0 && |Rows(e, n)| < Total(e) ==> |Rows(e, n)| == n * e.pageSize
    ensures n > 1 ==> |Rows(e, n - 1)| == (n - 1) * e.pageSize < Total(e)
  {
    if n > 0 {
      hide Problem, PageRows, PageKeys, PageSize, KeyProblem, Distinct, Total;
      GoodPages(e, n - 1);
      PageFits(e, n - 1);
      KeysStayDistinct(Keys(e, n - 1), PageKeys(e, n - 1));
      OneMoreFull(n - 1, e.pageSize);
    }
  }

  // The server that answers every page from one unchanging list of rows with distinct keys, without
  // interruption and within the limits.
  ghost predicate Honest(e: Export, rows: seq<Row>, keys: seq<RowKey>) {
    && e.pageSize >= 1 && |rows| == |keys| <= e.maxRows && Foreign !in rows && BadKey !in keys && Distinct(keys)
    && forall n: nat :: HonestTurn(e, rows, keys, n)
  }

  ghost predicate HonestTurn(e: Export, rows: seq<Row>, keys: seq<RowKey>, n: nat)
    requires |rows| == |keys|
  {
    var from, to := Bound(e, rows, n), Bound(e, rows, n + 1);
    var turn := e.turns(n);
    && turn.before.None? && turn.after.None? && turn.reply.Reply? && turn.reply.size.Some?
    && turn.reply.page == n + 1 && turn.reply.totalEntries == |rows|
    && turn.reply.rows == rows[from..to] && turn.reply.keys == keys[from..to]
    && Bytes(e, n) + turn.reply.size.value <= e.maxBytes
  }

  function Bound(e: Export, rows: seq<Row>, n: nat): (b: nat)
    ensures b <= |rows| && (n > 0 ==> Bound(e, rows, n - 1) <= b)
  {
    if n == 0 then 0
    else if Bound(e, rows, n - 1) + e.pageSize < |rows| then Bound(e, rows, n - 1) + e.pageSize else |rows|
  }

  lemma {:induction false} DistinctIsNoProblem(seen: seq<RowKey>, keys: seq<RowKey>)
    requires Distinct(seen + keys) && BadKey !in keys
    ensures KeyProblem(seen, keys).None?
    decreases |keys|
  {
    if keys != [] {
      assert seen + keys == seen + [keys[0]] + keys[1..];
      assert forall i :: 0 <= i < |seen| ==> (seen + keys)[i] == seen[i];
      assert (seen + keys)[|seen|] == keys[0];
      DistinctIsNoProblem(seen + [keys[0]], keys[1..]);
    }
  }

  lemma HonestPage(e: Export, rows: seq<Row>, keys: seq<RowKey>, n: nat)
    requires Honest(e, rows, keys)
    ensures Bound(e, rows, n) <= Bound(e, rows, n + 1) <= |rows| == |keys|
    ensures PageRows(e, n) == rows[Bound(e, rows, n)..Bound(e, rows, n + 1)]
    ensures PageKeys(e, n) == keys[Bound(e, rows, n)..Bound(e, rows, n + 1)]
  {
    assert HonestTurn(e, rows, keys, n);
  }

  lemma SliceOn<T>(s: seq<T>, from: nat, to: nat)
    requires from <= to <= |s|
    ensures s[..from] + s[from..to] == s[..to]
  {
  }

  lemma {:induction false} HonestPrefix(e: Export, rows: seq<Row>, keys: seq<RowKey>, n: nat)
    requires Honest(e, rows, keys)
    ensures |rows| == |keys|
    ensures Rows(e, n) == rows[..Bound(e, rows, n)] && Keys(e, n) == keys[..Bound(e, rows, n)]
  {
    hide Honest, PageRows, PageKeys;
    HonestPage(e, rows, keys, n);
    if n == 0 {
      assert Bound(e, rows, 0) == 0;
    } else {
      var from, to := Bound(e, rows, n - 1), Bound(e, rows, n);
      hide Bound;
      HonestPrefix(e, rows, keys, n - 1);
      HonestPage(e, rows, keys, n - 1);
      assert Rows(e, n) == rows[..from] + rows[from..to] && Keys(e, n) == keys[..from] + keys[from..to];
      SliceOn(rows, from, to);
      SliceOn(keys, from, to);
    }
  }

  lemma HonestNeverFails(e: Export, rows: seq<Row>, keys: seq<RowKey>, n: nat)
    requires Honest(e, rows, keys)
    ensures Problem(e, n).None? && Total(e) == |rows|
  {
    HonestPrefix(e, rows, keys, n);
    assert HonestTurn(e, rows, keys, 0) && HonestTurn(e, rows, keys, n);
    var from, to := Bound(e, rows, n), Bound(e, rows, n + 1);
    assert keys[..from] + keys[from..to] == keys[..to];
    DistinctIsNoProblem(keys[..from], keys[from..to]);
    assert Foreign !in rows[from..to];
    assert |Rows(e, n)| == from;
    assert Bound(e, rows, n + 1) == if from + e.pageSize < |rows| then from + e.pageSize else |rows|;
  }

  // The whole promise: an honest server's list comes out complete and in order, and whatever any
  // server answers, only a full set of distinct rows is ever offered.
  method ExportFrom(e: Export, ghost rows: seq<Row>, ghost keys: seq<RowKey>) returns (r: Outcome)
    requires e.pageSize >= 1
    ensures Honest(e, rows, keys) ==> r == Collected(rows)
    ensures r.Collected? ==> exists n ::
      n >= 1 && GoodUpTo(e, n) && r.rows == Rows(e, n)
      && |r.rows| == |Keys(e, n)| == Total(e) <= e.maxRows && Distinct(Keys(e, n))
  {
    r := CollectExportPages(e);
    if r.Collected? {
      ghost var n :| n >= 1 && GoodUpTo(e, n) && r.rows == Rows(e, n) && |r.rows| == Total(e);
      GoodPages(e, n);
      if Honest(e, rows, keys) {
        HonestPrefix(e, rows, keys, n);
        HonestNeverFails(e, rows, keys, 0);
        assert rows[..|rows|] == rows;
      }
    } else if Honest(e, rows, keys) {
      ghost var n :| GoodUpTo(e, n) && Problem(e, n) == Some(r.code);
      HonestNeverFails(e, rows, keys, n);
    }
  }

  // ---------------------------------------------------------------- what each check is

  // The keys of a page are acceptable: well formed, and none was there before.
  ghost predicate FreshKeys(seen: seq<RowKey>, keys: seq<RowKey>) {
    && (forall i :: 0 <= i < |keys| ==> keys[i].RowKey? && keys[i] !in seen)
    && (forall i, j :: 0 <= i < j < |keys| ==> keys[i] != keys[j])
  }

  lemma {:induction false} KeyProblemIff(seen: seq<RowKey>, keys: seq<RowKey>)
    ensures KeyProblem(seen, keys).None? <==> FreshKeys(seen, keys)
    ensures KeyProblem(seen, keys).Some? ==> KeyProblem(seen, keys).value in {Incomplete, Changed}
    ensures KeyProblem(seen, keys) == Some(Incomplete) ==> BadKey in keys
    decreases |keys|
  {
    if keys != [] && keys[0].RowKey? && keys[0] !in seen {
      KeyProblemIff(seen + [keys[0]], keys[1..]);
      assert keys == [keys[0]] + keys[1..];
      if FreshKeys(seen + [keys[0]], keys[1..]) {
        forall i, j | 0 <= i < j < |keys| ensures keys[i] != keys[j] {
          assert keys[j] == keys[1..][j - 1];
          if i > 0 { assert keys[i] == keys[1..][i - 1]; }
        }
      }
      if FreshKeys(seen, keys) {
        forall i | 0 <= i < |keys[1..]| ensures keys[1..][i].RowKey? && keys[1..][i] !in seen + [keys[0]] {
          assert keys[1..][i] == keys[i + 1];
        }
      }
    }
  }

  // A page is taken over exactly if nothing interrupts, it is the page that was asked for with one key for
  // each row, the total is as announced and allowed, it is full or the last, its rows are plain, its keys
  // are fresh, and it fits.
  lemma {:induction false} TakenOverIff(e: Export, n: nat)
    ensures Problem(e, n) == None <==>
      var turn := e.turns(n);
      && turn.before == None && turn.after == None && turn.reply.Reply?
      && turn.reply.page == n + 1 && |turn.reply.rows| == |turn.reply.keys|
      && 0 <= turn.reply.totalEntries <= e.maxRows && turn.reply.totalEntries == Total(e)
      && |turn.reply.rows| == (if |Rows(e, n)| + e.pageSize <= Total(e) then e.pageSize else Total(e) - |Rows(e, n)|)
      && (forall row <- turn.reply.rows :: row.Plain?)
      && FreshKeys(Keys(e, n), turn.reply.keys)
      && turn.reply.size.Some? && Bytes(e, n) + turn.reply.size.value <= e.maxBytes
  {
    if e.turns(n).reply.Reply? { KeyProblemIff(Keys(e, n), e.turns(n).reply.keys); }
    hide KeyProblem, FreshKeys, Rows, Keys, Bytes, Total;
  }

  // An interruption comes before everything else it could be, and each code names a reason that is there.
  lemma {:induction false} CodesAreTrue(e: Export, n: nat)
    ensures var turn := e.turns(n);
      && (turn.before.Some? ==> Problem(e, n) == turn.before)
      && (turn.before == None && Problem(e, n).Some? && turn.reply.Reply? ==>
            match Problem(e, n).value
            case TooLarge =>
              || turn.reply.totalEntries > e.maxRows || turn.after == Some(TooLarge)
              || (turn.reply.size.Some? && Bytes(e, n) + turn.reply.size.value > e.maxBytes)
            case Changed =>
              || turn.reply.totalEntries != Total(e) || !FreshKeys(Keys(e, n), turn.reply.keys) || turn.after == Some(Changed)
            case Incomplete => true
            case _ => turn.after == Problem(e, n))
      && (turn.before == None && turn.reply.NoReply? ==> Problem(e, n) == Some(Incomplete))
  {
    if e.turns(n).reply.Reply? { KeyProblemIff(Keys(e, n), e.turns(n).reply.keys); }
    hide KeyProblem, FreshKeys, Rows, Keys, Bytes, Total;
  }
}
