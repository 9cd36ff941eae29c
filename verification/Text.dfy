/** Decimal rendering of integers and the code-point order Python's `sorted` uses on strings. */
module Text {

  function Digit(d: nat): (c: char)
    requires d < 10
    ensures '0' <= c <= '9'
  {
    '0' + d as char
  }

  /** `str(n)` for a natural number. */
  function NatDecimal(n: nat): (s: string)
    ensures s != [] && forall c :: c in s ==> '0' <= c <= '9'
  {
    if n < 10 then [Digit(n)] else NatDecimal(n / 10) + [Digit(n % 10)]
  }

  /** `str(n)`. */
  function Decimal(n: int): string {
    if n < 0 then "-" + NatDecimal(-n) else NatDecimal(n)
  }

  lemma {:induction false} NatDecimalInjective(m: nat, n: nat)
    requires NatDecimal(m) == NatDecimal(n)
    ensures m == n
  {
    var s, t := NatDecimal(m), NatDecimal(n);
    assert s[|s| - 1] == t[|t| - 1];
    assert Digit(m % 10) == Digit(n % 10);
    if m < 10 || n < 10 {
      NatDecimalLength(m);
      NatDecimalLength(n);
    } else {
      assert s[..|s| - 1] == NatDecimal(m / 10) && t[..|t| - 1] == NatDecimal(n / 10);
      NatDecimalInjective(m / 10, n / 10);
    }
  }

  lemma NatDecimalLength(n: nat)
    ensures |NatDecimal(n)| == 1 <==> n < 10
  {
  }

  lemma {:induction false} DecimalInjective(m: int, n: int)
    requires Decimal(m) == Decimal(n)
    ensures m == n
  {
    assert NatDecimal(if m < 0 then -m else m)[0] in NatDecimal(if m < 0 then -m else m);
    assert NatDecimal(if n < 0 then -n else n)[0] in NatDecimal(if n < 0 then -n else n);
    if m < 0 && n < 0 {
      assert Decimal(m)[1..] == NatDecimal(-m) && Decimal(n)[1..] == NatDecimal(-n);
      NatDecimalInjective(-m, -n);
    } else if m >= 0 && n >= 0 {
      NatDecimalInjective(m, n);
    }
  }

  /** The number a run of digits spells. */
  function DigitsValue(s: string): int {
    if s == [] then 0 else 10 * DigitsValue(s[..|s| - 1]) + (s[|s| - 1] as int - '0' as int)
  }

  /** Decimal digits spell the number they were made from, most significant first. */
  lemma {:induction false} NatDecimalSpells(n: nat)
    ensures DigitsValue(NatDecimal(n)) == n
  {
    var s := NatDecimal(n);
    if n >= 10 {
      NatDecimalSpells(n / 10);
      assert s[..|s| - 1] == NatDecimal(n / 10);
    } else {
      assert s[..|s| - 1] == [];
    }
  }

  /** Lexicographic order by code point; a proper prefix comes first. */
  predicate Before(a: string, b: string) {
    b != [] && (a == [] || a[0] < b[0] || (a[0] == b[0] && Before(a[1..], b[1..])))
  }

  predicate AtMost(a: string, b: string) {
    a == b || Before(a, b)
  }

  lemma {:induction false} BeforeTransitive(a: string, b: string, c: string)
    requires Before(a, b) && Before(b, c)
    ensures Before(a, c)
  {
    if a != [] && a[0] == b[0] == c[0] {
      BeforeTransitive(a[1..], b[1..], c[1..]);
    }
  }

  lemma {:induction false} BeforeIrreflexive(a: string)
    ensures !Before(a, a)
  {
    if a != [] {
      BeforeIrreflexive(a[1..]);
    }
  }

  lemma {:induction false} BeforeTotal(a: string, b: string)
    ensures a == b || Before(a, b) || Before(b, a)
  {
    if a != [] && b != [] && a[0] == b[0] {
      BeforeTotal(a[1..], b[1..]);
      assert a == [a[0]] + a[1..] && b == [b[0]] + b[1..];
    }
  }

  /** Strings ordered by what follows a common prefix. */
  lemma {:induction false} BeforeSamePrefix(p: string, a: string, b: string)
    ensures Before(p + a, p + b) <==> Before(a, b)
  {
    if p == [] {
      assert p + a == a && p + b == b;
    } else {
      BeforeSamePrefix(p[1..], a, b);
      assert (p + a)[1..] == p[1..] + a && (p + b)[1..] == p[1..] + b;
    }
  }

  /** Prefixes of one width settle the order of everything that starts with them. */
  lemma {:induction false} BeforeByPrefix(p: string, q: string, a: string, b: string)
    requires |p| == |q| && Before(p, q)
    ensures Before(p + a, q + b)
  {
    if p[0] == q[0] {
      BeforeByPrefix(p[1..], q[1..], a, b);
      assert (p + a)[1..] == p[1..] + a && (q + b)[1..] == q[1..] + b;
    }
  }

  // ---- Substrings ----

  /** `part in text`, the way it is searched. */
  predicate Contains(text: string, part: string) {
    part <= text || (text != [] && Contains(text[1..], part))
  }

  predicate StandsAt(text: string, part: string, i: nat) {
    i + |part| <= |text| && text[i..i + |part|] == part
  }

  /** `part in text`, as a position. */
  ghost predicate Occurs(text: string, part: string) {
    exists i: nat :: StandsAt(text, part, i)
  }

  lemma {:induction false} StandsShifted(text: string, part: string, i: nat)
    requires text != []
    ensures StandsAt(text, part, i + 1) <==> StandsAt(text[1..], part, i)
  {
    if i + 1 + |part| <= |text| {
      assert text[1..][i..i + |part|] == text[i + 1..i + 1 + |part|];
    }
  }

  lemma {:induction false} StandsFirst(text: string, part: string)
    ensures StandsAt(text, part, 0) <==> part <= text
  {
    if |part| <= |text| {
      assert text[0..0 + |part|] == text[..|part|];
    }
  }

  lemma {:induction false} ContainsIff(text: string, part: string)
    ensures Contains(text, part) <==> Occurs(text, part)
  {
    hide StandsAt;
    StandsFirst(text, part);
    if text == [] {
      NotBeyond(part);
    } else {
      ContainsIff(text[1..], part);
      if i: nat :| StandsAt(text, part, i) {
        if i > 0 {
          StandsShifted(text, part, i - 1);
        }
      }
      if i: nat :| StandsAt(text[1..], part, i) {
        StandsShifted(text, part, i);
      }
    }
  }

  lemma {:induction false} NotBeyond(part: string)
    ensures forall i: nat :: StandsAt("", part, i) ==> i == 0
  {
  }
}
