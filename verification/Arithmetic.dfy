/** Products and remainders behind a name, so that proofs unfold them only where they need to. */
module Arithmetic {
  function Times(a: int, b: int): int {
    a * b
  }

  lemma {:induction false} TimesStep(a: int, b: int)
    ensures Times(a + 1, b) == Times(a, b) + b && Times(0, b) == 0 && Times(1, b) == b && Times(a, b) == Times(b, a)
  {
    assert (a + 1) * b == a * b + b;
  }

  lemma {:induction false} TimesNonNegative(a: nat, b: nat)
    ensures Times(a, b) >= 0
  {
  }

  lemma {:induction false} TimesDistributes(a: int, b: int, m: int)
    ensures Times(a, m) - Times(b, m) == Times(a - b, m)
  {
  }

  lemma {:induction false} TimesAssociates(a: int, b: int, c: int)
    ensures Times(Times(a, b), c) == Times(a, Times(b, c))
  {
  }

  lemma {:induction false} TimesRises(a: int, b: int, c: int)
    requires a < b && c > 0
    ensures Times(a, c) < Times(b, c)
    decreases b - a
  {
    hide Times;
    TimesStep(b - 1, c);
    if a < b - 1 {
      TimesRises(a, b - 1, c);
    }
  }

  lemma {:induction false} TimesAtLeast(a: int, m: int)
    requires a >= 1 && m > 0
    ensures Times(a, m) >= m
  {
    hide Times;
    TimesStep(0, m);
    if a > 1 {
      TimesRises(1, a, m);
    }
  }

  lemma {:induction false} DivMod(v: int, m: int)
    requires m > 0
    ensures v == Times(v / m, m) + v % m && 0 <= v % m < m
    ensures v >= 0 ==> v / m >= 0
  {
  }

  lemma {:induction false} OneQuotient(m: int, q: int, r: int, q': int, r': int)
    requires Times(q, m) + r == Times(q', m) + r' && 0 <= r < m && 0 <= r' < m
    ensures q == q' && r == r'
  {
    hide Times;
    TimesDistributes(q, q', m);
    TimesDistributes(q', q, m);
    if q > q' {
      TimesAtLeast(q - q', m);
    } else if q < q' {
      TimesAtLeast(q' - q, m);
    }
  }

  lemma {:induction false} ModUnique(v: int, m: int, q: int, r: int)
    requires m > 0 && v == Times(q, m) + r && 0 <= r < m
    ensures v % m == r && v / m == q
  {
    hide Times;
    DivMod(v, m);
    OneQuotient(m, q, r, v / m, v % m);
  }

  /** The lowest two digits of a number, and the number above them. */
  lemma {:induction false} TwoDigits(v: int, a: int, b: int, m: int)
    requires a > 0 && b > 0 && m == Times(a, b)
    ensures v % m == Times(v / a % b, a) + v % a && v / m == v / a / b
  {
    hide Times;
    var q := v / a;
    var s, t := q / b, q % b;
    DivMod(v, a);
    DivMod(q, b);
    TimesDistributes(Times(s, b) + t, Times(s, b), a);
    TimesAssociates(s, b, a);
    TimesStep(a, b);
    TimesStep(t, a);
    TimesStep(b - 1, a);
    if t < b - 1 {
      TimesRises(t, b - 1, a);
    }
    TimesNonNegative(t, a);
    ModUnique(v, m, s, Times(t, a) + v % a);
  }
}
