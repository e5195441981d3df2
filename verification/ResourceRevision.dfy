// Revision tags of imports/utils/resourceRevision.js: printed from a resource, parsed from If-Match,
// and compared with the stored revision.
module ResourceRevision {
  import opened Options
  import opened Strings

  const MAX_SAFE_INTEGER := 9_007_199_254_740_991

  // String(n): decimal digits without leading zeros.
  function Decimal(n: nat): (s: string)
    ensures s != [] && AllDigits(s)
  {
    if n < 10 then [Digit(n)] else Decimal(n / 10) + [Digit(n % 10)]
  }

  predicate CanonicalDigits(s: string) {
    s != [] && AllDigits(s) && (s[0] == '0' ==> |s| == 1)
  }

  lemma {:induction false} DecimalRoundTrip(n: nat)
    ensures Parse(Decimal(n)) == n && CanonicalDigits(Decimal(n)) && (n > 0 ==> Decimal(n)[0] != '0')
  {
    if n >= 10 {
      DecimalRoundTrip(n / 10);
      assert Decimal(n)[..|Decimal(n)| - 1] == Decimal(n / 10);
    } else {
      assert Decimal(n)[..0] == [];
    }
  }

  datatype Kind = ProjectKind | ProjectTaskKind | TaskSuggestionKind | TimerKind

  function Prefix(kind: Kind): string {
    match kind
    case ProjectKind => "\"titra-project-revision-"
    case ProjectTaskKind => "\"titra-project-task-revision-"
    case TaskSuggestionKind => "\"titra-task-suggestion-revision-"
    case TimerKind => "\"titra-timer-revision-"
  }

  // The revision field: None when the resource does not have it.
  type Revision = Option<nat>

  function ETag(kind: Kind, revision: Revision): string {
    Prefix(kind) + (if revision.None? then "legacy" else Decimal(revision.value)) + "\""
  }

  datatype Parsed = Rejected | Accepted(revision: Revision)

  // After trimming: the prefix, "legacy" or the canonical digits of a safe integer, and the quote.
  function ParseETag(kind: Kind, value: string): Parsed {
    var n := |Prefix(kind)|;
    if |value| <= n || value[..n] != Prefix(kind) || value[|value| - 1] != '"' then Rejected
    else
      var body := value[n..|value| - 1];
      if body == "legacy" then Accepted(None)
      else if CanonicalDigits(body) && Parse(body) <= MAX_SAFE_INTEGER then Accepted(Some(Parse(body)))
      else Rejected
  }

  predicate Safe(revision: Revision) {
    revision.Some? ==> revision.value <= MAX_SAFE_INTEGER
  }

  lemma Wrapped(kind: Kind, body: string)
    ensures var tag := Prefix(kind) + body + "\"";
      && |tag| > |Prefix(kind)| && tag[..|Prefix(kind)|] == Prefix(kind)
      && tag[|tag| - 1] == '"' && tag[|Prefix(kind)|..|tag| - 1] == body
  {
  }

  lemma DigitsAreNotLegacy(digits: string)
    requires digits != [] && AllDigits(digits)
    ensures digits != "legacy"
  {
    assert "legacy"[0] == 'l';
  }

  // A printed tag parses back to the revision it was printed from.
  lemma TagRoundTrip(kind: Kind, revision: Revision)
    requires Safe(revision)
    ensures ParseETag(kind, ETag(kind, revision)) == Accepted(revision)
  {
    if revision.None? {
      Wrapped(kind, "legacy");
    } else {
      Wrapped(kind, Decimal(revision.value));
      DecimalRoundTrip(revision.value);
      DigitsAreNotLegacy(Decimal(revision.value));
    }
  }

  // Nothing else is accepted: a text parses to a revision exactly if it is that revision's tag.
  lemma {:induction false} ParseIff(kind: Kind, value: string, revision: Revision)
    ensures ParseETag(kind, value) == Accepted(revision) <==> Safe(revision) && value == ETag(kind, revision)
  {
    if Safe(revision) { TagRoundTrip(kind, revision); }
    if ParseETag(kind, value) == Accepted(revision) { AcceptedIsTag(kind, value, revision); }
    hide ParseETag, ETag;
  }

  lemma {:induction false} AcceptedIsTag(kind: Kind, value: string, revision: Revision)
    requires ParseETag(kind, value) == Accepted(revision)
    ensures Safe(revision) && value == ETag(kind, revision)
  {
    hide Prefix, CanonicalDigits, Decimal;
    var n := |Prefix(kind)|;
    var body := value[n..|value| - 1];
    assert value == Prefix(kind) + body + "\"";
    if revision.Some? { CanonicalIsDecimal(body); }
  }

  lemma {:induction false} CanonicalIsDecimal(s: string)
    requires CanonicalDigits(s)
    ensures Decimal(Parse(s)) == s
  {
    var n := |s| - 1;
    assert s == s[..n] + [s[n]];
    if n > 0 {
      CanonicalIsDecimal(s[..n]);
      PositiveValue(s[..n]);
      assert Parse(s) == 10 * Parse(s[..n]) + DigitValue(s[n]);
    } else {
      assert s[..0] == [] && Parse(s) == DigitValue(s[0]);
    }
  }

  lemma {:induction false} PositiveValue(s: string)
    requires s != [] && AllDigits(s) && s[0] != '0'
    ensures Parse(s) > 0
  {
    if |s| > 1 { PositiveValue(s[..|s| - 1]); } else { assert s[..0] == []; }
  }

  // Two revisions share a tag only when they are the same revision.
  lemma TagsDistinguish(kind: Kind, a: Revision, b: Revision)
    requires Safe(a) && Safe(b)
    ensures ETag(kind, a) == ETag(kind, b) <==> a == b
  {
    TagRoundTrip(kind, a);
    TagRoundTrip(kind, b);
  }

  // A tag of one kind of resource is never accepted for another.
  lemma KindsDistinguish(a: Kind, b: Kind, revision: Revision)
    requires a != b
    ensures ParseETag(b, ETag(a, revision)) == Rejected
  {
    var tag := ETag(a, revision);
    var i := if a.TimerKind? || b.TimerKind? then 8 else if a.TaskSuggestionKind? || b.TaskSuggestionKind? then 7 else 15;
    assert tag[i] == Prefix(a)[i] != Prefix(b)[i];
    if |tag| > |Prefix(b)| { assert tag[..|Prefix(b)|][i] == tag[i]; }
  }
}
