// The order JavaScript's comparison operators and the store put on strings of ASCII characters, and
// fixed-width decimal numbers, on which that order is the order of the numbers.
module Strings {
  predicate StringLe(a: string, b: string) {
    a == [] || (b != [] && (a[0] < b[0] || (a[0] == b[0] && StringLe(a[1..], b[1..]))))
  }

  lemma {:induction false} StringLeAntisymmetric(a: string, b: string)
    requires StringLe(a, b) && StringLe(b, a)
    ensures a == b
  {
    if a != [] && b != [] {
      StringLeAntisymmetric(a[1..], b[1..]);
      assert a == [a[0]] + a[1..] && b == [b[0]] + b[1..];
    }
  }

  lemma {:induction false} StringLeTransitive(a: string, b: string, c: string)
    requires StringLe(a, b) && StringLe(b, c)
    ensures StringLe(a, c)
  {
    if a != [] && a[0] == b[0] && b[0] == c[0] {
      StringLeTransitive(a[1..], b[1..], c[1..]);
    }
  }

  lemma {:induction false} StringLeTotal(a: string, b: string)
    ensures StringLe(a, b) || StringLe(b, a)
    ensures StringLe(a, a)
  {
    if a != [] {
      if b != [] { StringLeTotal(a[1..], b[1..]); }
      else { StringLeTotal(a[1..], []); }
    }
  }

  // One string stops before the other differs, or is smaller at the first place where they differ.
  ghost predicate Precedes(a: string, b: string) {
    (a <= b && a != b) || exists i: nat :: SmallerAt(a, b, i)
  }

  ghost predicate SmallerAt(a: string, b: string, i: nat) {
    i < |a| && i < |b| && a[..i] == b[..i] && a[i] < b[i]
  }

  lemma {:induction false} StringLeIff(a: string, b: string)
    ensures StringLe(a, b) <==> a == b || Precedes(a, b)
  {
    if a != [] && b != [] {
      var x, y := a[1..], b[1..];
      assert a == [a[0]] + x && b == [b[0]] + y;
      assert SmallerAt(a, b, 0) <==> a[0] < b[0];
      if a[0] == b[0] {
        StringLeIff(x, y);
        forall i: nat ensures SmallerAt(x, y, i) <==> SmallerAt(a, b, i + 1) { SameTail(a, b, i); }
        assert forall i: nat :: i > 0 && SmallerAt(a, b, i) ==> SmallerAt(x, y, i - 1);
      }
    }
  }

  lemma SameTail(a: string, b: string, i: nat)
    requires a != [] && b != [] && a[0] == b[0]
    ensures SmallerAt(a[1..], b[1..], i) <==> SmallerAt(a, b, i + 1)
  {
    var x, y := a[1..], b[1..];
    if i < |x| && i < |y| {
      assert x[..i] == a[1..i + 1] && y[..i] == b[1..i + 1];
      assert a[..i + 1] == [a[0]] + a[1..i + 1] && b[..i + 1] == [b[0]] + b[1..i + 1];
    }
  }

  // Strings with prefixes of one length are compared by the prefixes first.
  lemma {:induction false} StringLeConcat(p: string, q: string, r: string, s: string)
    requires |p| == |r|
    ensures StringLe(p + q, r + s) <==> (p != r && StringLe(p, r)) || (p == r && StringLe(q, s))
  {
    if p == [] {
      assert p + q == q && r + s == s;
    } else {
      assert (p + q)[1..] == p[1..] + q && (r + s)[1..] == r[1..] + s;
      StringLeConcat(p[1..], q, r[1..], s);
      assert p == [p[0]] + p[1..] && r == [r[0]] + r[1..];
    }
  }

  // ---------------------------------------------------------------- fixed-width decimals

  function Pow10(width: nat): nat {
    if width == 0 then 1 else 10 * Pow10(width - 1)
  }

  function Digit(d: nat): char
    requires d < 10
  {
    '0' + d as char
  }

  predicate AllDigits(s: string) {
    forall i :: 0 <= i < |s| ==> '0' <= s[i] <= '9'
  }

  function DigitValue(c: char): nat
    requires '0' <= c <= '9'
  {
    c as int - '0' as int
  }

  // String(n).padStart(width, '0') for a number that fits.
  function Pad(width: nat, n: nat): (s: string)
    requires n < Pow10(width)
    ensures |s| == width && AllDigits(s)
  {
    if width == 0 then [] else Pad(width - 1, n / 10) + [Digit(n % 10)]
  }

  function Parse(s: string): nat
    requires AllDigits(s)
  {
    if s == [] then 0 else 10 * Parse(s[..|s| - 1]) + DigitValue(s[|s| - 1])
  }

  lemma {:induction false} ParsePad(width: nat, n: nat)
    requires n < Pow10(width)
    ensures Parse(Pad(width, n)) == n
  {
    if width > 0 {
      ParsePad(width - 1, n / 10);
      assert Pad(width, n)[..width - 1] == Pad(width - 1, n / 10);
    }
  }

  lemma {:induction false} PadParse(s: string)
    requires AllDigits(s)
    ensures Parse(s) < Pow10(|s|) && Pad(|s|, Parse(s)) == s
  {
    if s != [] {
      PadParse(s[..|s| - 1]);
      assert s == s[..|s| - 1] + [s[|s| - 1]];
    }
  }

  lemma DigitOrder(a: nat, b: nat)
    requires a < 10 && b < 10
    ensures StringLe([Digit(a)], [Digit(b)]) <==> a <= b
  {
  }

  lemma PadInjective(width: nat, m: nat, n: nat)
    requires m < Pow10(width) && n < Pow10(width)
    ensures Pad(width, m) == Pad(width, n) <==> m == n
  {
    ParsePad(width, m);
    ParsePad(width, n);
  }

  // On padded numbers of one width the order of strings is the order of numbers.
  lemma {:induction false} PadOrder(width: nat, m: nat, n: nat)
    requires m < Pow10(width) && n < Pow10(width)
    ensures StringLe(Pad(width, m), Pad(width, n)) <==> m <= n
  {
    if width > 0 {
      var a, b := m / 10, n / 10;
      PadOrder(width - 1, a, b);
      PadInjective(width - 1, a, b);
      DigitOrder(m % 10, n % 10);
      StringLeConcat(Pad(width - 1, a), [Digit(m % 10)], Pad(width - 1, b), [Digit(n % 10)]);
      assert m <= n <==> a < b || (a == b && m % 10 <= n % 10);
    }
  }
}
