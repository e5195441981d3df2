// editDistance and calculateSimilarity of imports/utils/server_method_helpers.js. Strings are
// sequences of UTF-16 code units, and lower-casing is any function on them.
module EditDistance {
  import opened Options

  type CodeUnit = u: int | 0 <= u < 0x1_0000

  type Text = seq<CodeUnit>

  // ---------------------------------------------------------------- edit scripts

  datatype Edit = Keep | Substitute(unit: CodeUnit) | Insert(unit: CodeUnit) | Delete

  function Append(text: Option<Text>, unit: CodeUnit): Option<Text> {
    match text
    case None => None
    case Some(t) => Some(t + [unit])
  }

  // What the script makes of a text; None when it does not consume exactly that text.
  function Apply(script: seq<Edit>, a: Text): Option<Text> {
    if script == [] then if a == [] then Some([]) else None
    else
      var rest := script[..|script| - 1];
      match script[|script| - 1]
      case Insert(u) => Append(Apply(rest, a), u)
      case Delete => if a == [] then None else Apply(rest, a[..|a| - 1])
      case Keep => if a == [] then None else Append(Apply(rest, a[..|a| - 1]), a[|a| - 1])
      case Substitute(u) => if a == [] then None else Append(Apply(rest, a[..|a| - 1]), u)
  }

  function Cost(script: seq<Edit>): nat {
    if script == [] then 0
    else Cost(script[..|script| - 1]) + if script[|script| - 1].Keep? then 0 else 1
  }

  // ---------------------------------------------------------------- the recurrence

  function Min(x: nat, y: nat): nat {
    if x < y then x else y
  }

  function Distance(a: Text, b: Text): nat
    decreases |a| + |b|
  {
    if a == [] then |b|
    else if b == [] then |a|
    else
      var a', b' := a[..|a| - 1], b[..|b| - 1];
      if a[|a| - 1] == b[|b| - 1] then Distance(a', b')
      else Min(Min(Distance(a', b'), Distance(a, b')), Distance(a', b)) + 1
  }

  // One more unit on either side changes the distance by at most one.
  lemma {:induction false} Lipschitz(a: Text, b: Text)
    ensures b != [] ==> var b' := b[..|b| - 1]; Distance(a, b) <= Distance(a, b') + 1 && Distance(a, b') <= Distance(a, b) + 1
    ensures a != [] ==> var a' := a[..|a| - 1]; Distance(a, b) <= Distance(a', b) + 1 && Distance(a', b) <= Distance(a, b) + 1
    decreases |a| + |b|
  {
    if a != [] && b != [] {
      var a', b' := a[..|a| - 1], b[..|b| - 1];
      Lipschitz(a', b);
      Lipschitz(a, b');
    }
  }

  lemma {:induction false} Achievable(a: Text, b: Text) returns (script: seq<Edit>)
    ensures Apply(script, a) == Some(b) && Cost(script) == Distance(a, b)
    decreases |a| + |b|
  {
    assert b != [] ==> b == b[..|b| - 1] + [b[|b| - 1]];
    if a == [] && b == [] {
      script := [];
    } else if a == [] || (b != [] && a[|a| - 1] != b[|b| - 1] && Distance(a, b) == Distance(a, b[..|b| - 1]) + 1) {
      var rest := Achievable(a, b[..|b| - 1]);
      script := rest + [Insert(b[|b| - 1])];
      assert script[..|script| - 1] == rest;
    } else if b == [] || (a[|a| - 1] != b[|b| - 1] && Distance(a, b) == Distance(a[..|a| - 1], b) + 1) {
      var rest := Achievable(a[..|a| - 1], b);
      script := rest + [Delete];
      assert script[..|script| - 1] == rest;
    } else {
      var rest := Achievable(a[..|a| - 1], b[..|b| - 1]);
      script := rest + [if a[|a| - 1] == b[|b| - 1] then Keep else Substitute(b[|b| - 1])];
      assert script[..|script| - 1] == rest;
    }
  }

  lemma {:induction false} NoneShorter(script: seq<Edit>, a: Text, b: Text)
    requires Apply(script, a) == Some(b)
    ensures Distance(a, b) <= Cost(script)
  {
    if script != [] {
      var rest := script[..|script| - 1];
      Lipschitz(a, b);
      match script[|script| - 1]
      case Insert(u) =>
        NoneShorter(rest, a, Apply(rest, a).value);
        assert b[..|b| - 1] == Apply(rest, a).value;
      case Delete => NoneShorter(rest, a[..|a| - 1], b);
      case _ =>
        var t := Apply(rest, a[..|a| - 1]).value;
        NoneShorter(rest, a[..|a| - 1], t);
        assert b[..|b| - 1] == t;
    }
  }

  function Longer(a: Text, b: Text): nat {
    if |a| < |b| then |b| else |a|
  }

  lemma {:induction false} AtMostLonger(a: Text, b: Text)
    ensures Distance(a, b) <= Longer(a, b)
    decreases |a| + |b|
  {
    if a != [] && b != [] {
      AtMostLonger(a[..|a| - 1], b[..|b| - 1]);
    }
  }

  ghost predicate ShareNothing(a: Text, b: Text) {
    forall u <- a :: u !in b
  }

  // Texts without a common unit are as far apart as their lengths allow.
  lemma {:induction false} NothingShared(a: Text, b: Text)
    requires ShareNothing(a, b)
    ensures Distance(a, b) == Longer(a, b)
    decreases |a| + |b|
  {
    if a != [] && b != [] {
      var a', b' := a[..|a| - 1], b[..|b| - 1];
      assert a[|a| - 1] in a && (forall u <- a' :: u in a) && (forall u <- b' :: u in b);
      NothingShared(a', b');
      NothingShared(a, b');
      NothingShared(a', b);
    }
  }

  lemma {:induction false} ZeroIffEqual(a: Text, b: Text)
    ensures Distance(a, b) == 0 <==> a == b
    decreases |a| + |b|
  {
    if a != [] && b != [] {
      var a', b' := a[..|a| - 1], b[..|b| - 1];
      ZeroIffEqual(a', b');
      assert a == a' + [a[|a| - 1]] && b == b' + [b[|b| - 1]];
    }
  }

  lemma {:induction false} Symmetric(a: Text, b: Text)
    ensures Distance(a, b) == Distance(b, a)
    decreases |a| + |b|
  {
    if a != [] && b != [] {
      var a', b' := a[..|a| - 1], b[..|b| - 1];
      Symmetric(a', b');
      Symmetric(a, b');
      Symmetric(a', b);
    }
  }

  // ---------------------------------------------------------------- the one-row loop

  lemma DistanceOfPrefixes(a: Text, b: Text, i: nat, j: nat)
    requires 0 < i <= |a| && 0 < j <= |b|
    ensures Distance(a[..i], b[..j]) ==
      if a[i - 1] == b[j - 1] then Distance(a[..i - 1], b[..j - 1])
      else Min(Min(Distance(a[..i - 1], b[..j - 1]), Distance(a[..i], b[..j - 1])), Distance(a[..i - 1], b[..j])) + 1
  {
    assert a[..i][..i - 1] == a[..i - 1] && b[..j][..j - 1] == b[..j - 1];
  }

  // The row that already holds row i up to column j, and row i - 1 from there on.
  ghost predicate Row(costs: array<nat>, a: Text, b: Text, i: nat, j: nat)
    requires i <= |a| && costs.Length == |b| + 1
    reads costs
  {
    && (forall k :: 0 <= k < j && k <= |b| ==> costs[k] == Distance(a[..i], b[..k]))
    && (i > 0 ==> forall k :: j <= k <= |b| ==> costs[k] == Distance(a[..i - 1], b[..k]))
  }

  // One step of the inner loop for i > 0 and j > 0: lastValue is the cell to the left, still to be stored.
  method NextCell(costs: array<nat>, a: Text, b: Text, i: nat, j: nat, lastValue: nat) returns (newValue: nat)
    requires 0 < i <= |a| && 0 < j <= |b| && costs.Length == |b| + 1
    requires Row(costs, a, b, i, j - 1) && lastValue == Distance(a[..i], b[..j - 1])
    modifies costs
    ensures Row(costs, a, b, i, j) && newValue == Distance(a[..i], b[..j])
  {
    newValue := costs[j - 1];
    if a[i - 1] != b[j - 1] {
      newValue := Min(Min(newValue, lastValue), costs[j]) + 1;
    }
    DistanceOfPrefixes(a, b, i, j);
    costs[j - 1] := lastValue;
  }

  method FirstRow(costs: array<nat>, a: Text, b: Text)
    requires costs.Length == |b| + 1
    modifies costs
    ensures Row(costs, a, b, 0, |b| + 1)
  {
    for j := 0 to |b| + 1
      invariant Row(costs, a, b, 0, j)
    {
      costs[j] := j;
    }
  }

  method NextRow(costs: array<nat>, a: Text, b: Text, i: nat)
    requires 0 < i <= |a| && costs.Length == |b| + 1
    requires Row(costs, a, b, i - 1, |b| + 1)
    modifies costs
    ensures Row(costs, a, b, i, |b| + 1)
  {
    var lastValue := i;
    for j := 1 to |b| + 1
      invariant Row(costs, a, b, i, j - 1) && lastValue == Distance(a[..i], b[..j - 1])
    {
      lastValue := NextCell(costs, a, b, i, j, lastValue);
    }
    costs[|b|] := lastValue;
  }

  // The loop over one overwritten row returns the least cost of any script turning one lower-cased
  // string into the other.
  method ComputeEditDistance(lower: Text -> Text, string1: Text, string2: Text) returns (distance: nat)
    ensures distance == Distance(lower(string1), lower(string2))
    ensures exists script :: Apply(script, lower(string1)) == Some(lower(string2)) && Cost(script) == distance
    ensures forall script :: Apply(script, lower(string1)) == Some(lower(string2)) ==> distance <= Cost(script)
  {
    var s1, s2 := lower(string1), lower(string2);
    var costs := new nat[|s2| + 1];
    FirstRow(costs, s1, s2);
    for i := 1 to |s1| + 1
      invariant Row(costs, s1, s2, i - 1, |s2| + 1)
    {
      NextRow(costs, s1, s2, i);
    }
    distance := costs[|s2|];
    assert s1[..|s1|] == s1 && s2[..|s2|] == s2;
    var best := Achievable(s1, s2);
    forall script | Apply(script, s1) == Some(s2) ensures distance <= Cost(script) {
      NoneShorter(script, s1, s2);
    }
  }

  // ---------------------------------------------------------------- similarity

  predicate KeepsLength(lower: Text -> Text, s: Text) {
    |lower(s)| == |s|
  }

  // The script does it, and none does it for less.
  ghost predicate Cheapest(script: seq<Edit>, a: Text, b: Text) {
    Apply(script, a) == Some(b) && forall other :: Apply(other, a) == Some(b) ==> Cost(script) <= Cost(other)
  }

  lemma {:induction false} CheapestScript(a: Text, b: Text) returns (script: seq<Edit>)
    ensures Cheapest(script, a, b) && Cost(script) == Distance(a, b)
  {
    script := Achievable(a, b);
    forall other | Apply(other, a) == Some(b) ensures Cost(script) <= Cost(other) { NoneShorter(other, a, b); }
  }

  // Zero when a string is empty; otherwise it is one less the cost of a cheapest script per unit of the
  // longer string: never above 1, and 1 exactly for strings equal ignoring case. Not negative whenever
  // neither lower-cased string is longer than the longer original, and for strings that share nothing in
  // lower case in no other case.
  method CalculateSimilarity(lower: Text -> Text, s1: Text, s2: Text) returns (similarity: real)
    ensures s1 == [] || s2 == [] ==> similarity == 0.0
    ensures s1 != [] && s2 != [] ==> exists script ::
      && Cheapest(script, lower(s1), lower(s2))
      && IsSimilarity(similarity, if |s1| < |s2| then |s2| else |s1|, Cost(script))
    ensures s1 != [] && s2 != [] ==> similarity <= 1.0
    ensures s1 != [] && s2 != [] ==> (similarity == 1.0 <==> lower(s1) == lower(s2))
    ensures s1 != [] && s2 != [] ==> (similarity >= 0.0 <==> Distance(lower(s1), lower(s2)) <= Longer(s1, s2))
    ensures Longer(lower(s1), lower(s2)) <= Longer(s1, s2) ==> similarity >= 0.0
    ensures s1 != [] && s2 != [] && ShareNothing(lower(s1), lower(s2)) ==>
      (similarity >= 0.0 <==> Longer(lower(s1), lower(s2)) <= Longer(s1, s2))
    ensures KeepsLength(lower, s1) && KeepsLength(lower, s2) ==> similarity >= 0.0
  {
    if s1 == [] || s2 == [] {
      return 0.0;
    }
    hide Apply, Cost, Distance, Cheapest, IsSimilarity, ShareNothing;
    var longer, shorter := s1, s2;
    if |s1| < |s2| {
      longer, shorter := s2, s1;
    }
    var distance := ComputeEditDistance(lower, longer, shorter);
    Symmetric(lower(longer), lower(shorter));
    AtMostLonger(lower(s1), lower(s2));
    if ShareNothing(lower(s1), lower(s2)) { NothingShared(lower(s1), lower(s2)); }
    ZeroIffEqual(lower(s1), lower(s2));
    var best := CheapestScript(lower(s1), lower(s2));
    SimilarityRange(|longer|, distance);
    similarity := (|longer| - distance) as real / |longer| as real;
  }

  lemma SimilarityRange(length: nat, distance: nat)
    requires length > 0
    ensures var r := (length - distance) as real / length as real;
      r <= 1.0 && (r == 1.0 <==> distance == 0) && (r >= 0.0 <==> distance <= length)
      && IsSimilarity(r, length, distance)
  {
  }

  // What is left of the length after the cost, per unit of the length.
  predicate IsSimilarity(similarity: real, length: nat, cost: nat) {
    similarity * length as real == (length - cost) as real
  }

  // The bound really needs the lengths: 'dotted capital I' lower-cases to two units, and its
  // similarity to an unrelated letter is negative.
  method NegativeSimilarity() returns (similarity: real)
    ensures similarity < 0.0
  {
    var lower: Text -> Text := s => if s == [0x130] then [0x69, 0x307] else s;
    var a: Text, b: Text := [0x69, 0x307], [0x62];
    assert lower([0x130]) == a && lower([0x62]) == b;
    assert a[..1] == [0x69] && b[..0] == [] && a[..1][..0] == [];
    assert Distance(a[..1], b) == 1;
    similarity := CalculateSimilarity(lower, [0x130], [0x62]);
  }
}
