// escapeLdapFilterValue and escapeLdapRdnValue of imports/utils/ldapSecurity.js, as printers whose
// readers are those of RFC 4515 section 3 and RFC 4514 section 3. A character is a Unicode scalar
// value; length limits and the check for lone surrogates come before the escapers.
module LdapEscaping {
  import opened Options

  // ---------------------------------------------------------------- hexadecimal pairs

  function HexValue(c: char): Option<nat> {
    if '0' <= c <= '9' then Some(c as int - '0' as int)
    else if 'a' <= c <= 'f' then Some(c as int - 'a' as int + 10)
    else if 'A' <= c <= 'F' then Some(c as int - 'A' as int + 10)
    else None
  }

  function HexDigit(d: nat): char
    requires d < 16
  {
    if d < 10 then '0' + d as char else 'a' + (d - 10) as char
  }

  // A single byte, which is all that escapers and readers need below 0x80.
  function HexPair(high: char, low: char): Option<char> {
    var h, l := HexValue(high), HexValue(low);
    if h.Some? && l.Some? && h.value < 8 then Some((h.value * 16 + l.value) as char) else None
  }

  function ByteEscape(c: char): string
    requires c as int < 128
  {
    ['\\', HexDigit(c as int / 16), HexDigit(c as int % 16)]
  }

  // ---------------------------------------------------------------- filter values

  const NUL: char := 0 as char

  predicate FilterSpecial(c: char) {
    c == '\\' || c == '*' || c == '(' || c == ')' || c == NUL
  }

  function FilterPiece(c: char): string {
    if c == '\\' then "\\5c"
    else if c == '*' then "\\2a"
    else if c == '(' then "\\28"
    else if c == ')' then "\\29"
    else if c == NUL then "\\00"
    else [c]
  }

  function EscapeFilter(s: string): string {
    if s == "" then "" else FilterPiece(s[0]) + EscapeFilter(s[1..])
  }

  // The assertion value of section 3 of RFC 4515: ordinary characters and backslash pairs.
  function ReadFilter(t: string): Option<string> {
    if t == "" then Some("")
    else if t[0] != '\\' then
      if FilterSpecial(t[0]) then None else Prepend(t[0], ReadFilter(t[1..]))
    else if |t| < 3 || HexPair(t[1], t[2]).None? then None
    else Prepend(HexPair(t[1], t[2]).value, ReadFilter(t[3..]))
  }

  function Prepend(c: char, rest: Option<string>): Option<string> {
    if rest.Some? then Some([c] + rest.value) else None
  }

  lemma FilterPieceReads(c: char, rest: string)
    ensures ReadFilter(FilterPiece(c) + rest) == Prepend(c, ReadFilter(rest))
  {
  }

  // Escaped text is a well-formed filter value that stands for exactly the text that was escaped.
  lemma {:induction false} FilterRoundTrip(s: string)
    ensures ReadFilter(EscapeFilter(s)) == Some(s)
  {
    if s != "" {
      FilterRoundTrip(s[1..]);
      FilterPieceReads(s[0], EscapeFilter(s[1..]));
      assert s == [s[0]] + s[1..];
    }
  }

  // No metacharacter survives, wherever the escaped text is put.
  lemma {:induction false} FilterIsInert(s: string)
    ensures forall c <- EscapeFilter(s) :: FilterSpecial(c) ==> c == '\\'
  {
    if s != "" { FilterIsInert(s[1..]); }
  }

  // ---------------------------------------------------------------- values of distinguished names

  predicate RdnSpecial(c: char) {
    c in {',', '+', '"', '\\', '<', '>', ';', '='}
  }

  predicate Control(c: char) {
    c as int < 32 || c as int == 127
  }

  function LeadingSpaces(s: string): nat {
    if s != "" && s[0] == ' ' then 1 + LeadingSpaces(s[1..]) else 0
  }

  function TrailingSpaces(s: string): nat {
    if s != "" && s[|s| - 1] == ' ' then 1 + TrailingSpaces(s[..|s| - 1]) else 0
  }

  predicate BoundarySpace(s: string, i: nat)
    requires i < |s|
  {
    s[i] == ' ' && (i < LeadingSpaces(s) || i >= |s| - TrailingSpaces(s))
  }

  function RdnPiece(s: string, i: nat): string
    requires i < |s|
  {
    if BoundarySpace(s, i) || (s[i] == '#' && i == 0) then ['\\', s[i]]
    else if Control(s[i]) then ByteEscape(s[i])
    else if RdnSpecial(s[i]) then ['\\', s[i]]
    else [s[i]]
  }

  function RdnFrom(s: string, i: nat): string
    requires i <= |s|
    decreases |s| - i
  {
    if i == |s| then "" else RdnPiece(s, i) + RdnFrom(s, i + 1)
  }

  function EscapeRdn(s: string): string {
    RdnFrom(s, 0)
  }

  // The trailing-space loop of the source.
  method CountTrailingSpaces(s: string) returns (trailing: nat)
    ensures trailing == TrailingSpaces(s)
  {
    trailing := 0;
    assert s[..|s|] == s;
    while trailing < |s| && s[|s| - 1 - trailing] == ' '
      invariant trailing <= |s| && TrailingSpaces(s) == trailing + TrailingSpaces(s[..|s| - trailing])
    {
      assert s[..|s| - trailing][..|s| - trailing - 1] == s[..|s| - (trailing + 1)];
      trailing := trailing + 1;
    }
  }

  // The string form of section 3 of RFC 4514, cut into its units: a character as itself, a
  // backslash and a special, space or sharp character, or a backslash pair.
  datatype Unit = Plain(c: char) | Pair(c: char)

  function ReadUnits(t: string): Option<seq<Unit>> {
    if t == "" then Some([])
    else if t[0] != '\\' then More(Plain(t[0]), ReadUnits(t[1..]))
    else if |t| < 2 then None
    else if RdnSpecial(t[1]) || t[1] == ' ' || t[1] == '#' then More(Pair(t[1]), ReadUnits(t[2..]))
    else if |t| < 3 || HexPair(t[1], t[2]).None? then None
    else More(Pair(HexPair(t[1], t[2]).value), ReadUnits(t[3..]))
  }

  function More(unit: Unit, rest: Option<seq<Unit>>): Option<seq<Unit>> {
    if rest.Some? then Some([unit] + rest.value) else None
  }

  // What may stand for itself: nothing special or NUL, no sharp or space in front, no space at the end.
  ghost predicate WellFormed(units: seq<Unit>) {
    && (forall i :: 0 <= i < |units| && units[i].Plain? ==>
          units[i].c != NUL && units[i].c !in {'"', '+', ',', ';', '<', '>', '\\'})
    && (units != [] && units[0].Plain? ==> units[0].c != ' ' && units[0].c != '#')
    && (units != [] && units[|units| - 1].Plain? ==> units[|units| - 1].c != ' ')
  }

  function UnitAt(s: string, i: nat): Unit
    requires i < |s|
  {
    if RdnPiece(s, i) == [s[i]] then Plain(s[i]) else Pair(s[i])
  }

  function Units(s: string, i: nat): (units: seq<Unit>)
    requires i <= |s|
    ensures |units| == |s| - i && forall k :: 0 <= k < |units| ==> units[k] == UnitAt(s, i + k)
    decreases |s| - i
  {
    if i == |s| then [] else [UnitAt(s, i)] + Units(s, i + 1)
  }

  lemma PieceReads(s: string, i: nat, rest: string)
    requires i < |s|
    ensures ReadUnits(RdnPiece(s, i) + rest) == More(UnitAt(s, i), ReadUnits(rest))
  {
  }

  lemma {:induction false} RdnReads(s: string, i: nat)
    requires i <= |s|
    ensures ReadUnits(RdnFrom(s, i)) == Some(Units(s, i))
    decreases |s| - i
  {
    if i < |s| {
      RdnReads(s, i + 1);
      PieceReads(s, i, RdnFrom(s, i + 1));
    }
  }

  // The escaped value is a well-formed attribute value, and its units spell exactly the original.
  lemma RdnRoundTrip(s: string)
    ensures ReadUnits(EscapeRdn(s)).Some?
    ensures var units := ReadUnits(EscapeRdn(s)).value;
      && WellFormed(units)
      && |units| == |s| && forall i :: 0 <= i < |s| ==> units[i].c == s[i]
  {
    RdnReads(s, 0);
    var units := Units(s, 0);
    hide UnitAt, Unescaped, RdnFrom, ReadUnits, WellFormed;
    forall i | 0 <= i < |s|
      ensures units[i].c == s[i] && (units[i].Plain? ==> Unescaped(s, i))
    {
      UnitFacts(s, i);
    }
    UnescapedIsWellFormed(s, units);
  }

  lemma UnescapedIsWellFormed(s: string, units: seq<Unit>)
    requires |units| == |s| && forall i :: 0 <= i < |s| ==> units[i].c == s[i] && (units[i].Plain? ==> Unescaped(s, i))
    ensures WellFormed(units)
  {
  }

  // What UnitAt leaves as it is.
  ghost predicate Unescaped(s: string, i: nat)
    requires i < |s|
  {
    && s[i] != NUL && s[i] !in {'"', '+', ',', ';', '<', '>', '\\'}
    && !(s[i] == ' ' && (i == 0 || i == |s| - 1)) && !(s[i] == '#' && i == 0)
  }

  lemma UnitFacts(s: string, i: nat)
    requires i < |s|
    ensures UnitAt(s, i).c == s[i] && (UnitAt(s, i).Plain? ==> Unescaped(s, i))
  {
  }

  // Both escapers keep different texts apart.
  lemma EscapersInjective(a: string, b: string)
    ensures EscapeFilter(a) == EscapeFilter(b) <==> a == b
    ensures EscapeRdn(a) == EscapeRdn(b) <==> a == b
  {
    FilterRoundTrip(a);
    FilterRoundTrip(b);
    RdnRoundTrip(a);
    RdnRoundTrip(b);
  }

  // ---------------------------------------------------------------- nothing more than needed

  function FilterSpecials(s: string): nat {
    if s == "" then 0
    else (if s[0] in {'\\', '*', '(', ')', 0 as char} then 1 else 0) + FilterSpecials(s[1..])
  }

  // Only the five metacharacters are escaped, each by two more characters; other texts stay as they are.
  lemma {:induction false} FilterIsMinimal(s: string)
    ensures |EscapeFilter(s)| == |s| + 2 * FilterSpecials(s)
    ensures FilterSpecials(s) == 0 ==> EscapeFilter(s) == s
  {
    if s != "" {
      FilterIsMinimal(s[1..]);
      assert s == [s[0]] + s[1..];
    }
  }

  // A space with nothing but spaces before it, or nothing but spaces after it.
  ghost predicate AtTheEdge(s: string, i: nat)
    requires i < |s|
  {
    s[i] == ' ' && ((forall j :: 0 <= j < i ==> s[j] == ' ') || (forall j :: i < j < |s| ==> s[j] == ' '))
  }

  lemma {:induction false} LeadingAre(s: string, i: nat)
    requires i < |s| && s[i] == ' '
    ensures i < LeadingSpaces(s) <==> forall j :: 0 <= j < i ==> s[j] == ' '
  {
    if i > 0 {
      if s[0] == ' ' {
        LeadingAre(s[1..], i - 1);
        assert forall j :: 0 <= j < i - 1 ==> s[1..][j] == s[j + 1];
        assert (forall j :: 0 <= j < i ==> s[j] == ' ') <==> (forall j :: 0 <= j < i - 1 ==> s[1..][j] == ' ') by {
          if forall j :: 0 <= j < i - 1 ==> s[1..][j] == ' ' {
            forall j | 0 <= j < i ensures s[j] == ' ' { if j > 0 { assert s[1..][j - 1] == s[j]; } }
          }
        }
      }
    }
  }

  lemma {:induction false} TrailingAre(s: string, i: nat)
    requires i < |s| && s[i] == ' '
    ensures i >= |s| - TrailingSpaces(s) <==> forall j :: i < j < |s| ==> s[j] == ' '
  {
    if i < |s| - 1 && s[|s| - 1] == ' ' {
      TrailingAre(s[..|s| - 1], i);
    }
  }

  // A character of a distinguished name's value is written as itself exactly if it is no special, no
  // control character, no leading or trailing space, and no sharp in front.
  lemma {:induction false} RdnIsMinimal(s: string, i: nat)
    requires i < |s|
    ensures RdnPiece(s, i) == [s[i]] <==>
      && s[i] !in {',', '+', '"', '\\', '<', '>', ';', '='} && 32 <= s[i] as int != 127
      && !AtTheEdge(s, i) && !(i == 0 && s[i] == '#')
  {
    if s[i] == ' ' {
      LeadingAre(s, i);
      TrailingAre(s, i);
    }
  }
}
