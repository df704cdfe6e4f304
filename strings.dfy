/** Decimal rendering of integers, `padStart`, and the lexicographic
    order of strings by character code point. */
module Strings {

  predicate IsDigit(c: char) {
    '0' <= c <= '9'
  }

  /** The character for a decimal digit. */
  function DigitChar(n: nat): (c: char)
    requires n < 10
    ensures IsDigit(c)
    ensures c as int - '0' as int == n
  {
    (('0' as int) + n) as char
  }

  /** The value of a digit character (inverse of DigitChar). */
  function DigitValue(c: char): (n: nat)
    requires IsDigit(c)
    ensures n < 10 && DigitChar(n) == c
  {
    c as int - '0' as int
  }

  /** `String(n)` for a non-negative integer: shortest decimal form. */
  function NatString(n: nat): (s: string)
    ensures 1 <= |s|
    ensures forall i :: 0 <= i < |s| ==> IsDigit(s[i])
    ensures n < 10 <==> |s| == 1
  {
    if n < 10 then [DigitChar(n)] else NatString(n / 10) + [DigitChar(n % 10)]
  }

  /** `String(i)` for any integer: a minus sign before negative values. */
  function IntString(i: int): (s: string)
  {
    if i < 0 then "-" + NatString(-i) else NatString(i)
  }

  /** `s.padStart(width, fill)` with a one-character filler. */
  function PadStart(s: string, width: nat, fill: char): string {
    if |s| >= width then s
    else
      seq(width - |s|, _ => fill) + s
  }

  /** The padded string is `width` long unless `s` is longer, and is `s`
      preceded by fillers. */
  lemma PadStartShape(s: string, width: nat, fill: char)
    ensures var r := PadStart(s, width, fill);
      |r| == (if |s| < width then width else |s|) &&
      (forall i :: 0 <= i < |r| - |s| ==> r[i] == fill) &&
      r[|r| - |s|..] == s
  {
  }

  /** `String(n).padStart(2, '0')`, as used for months and days. */
  function Pad2(n: nat): string {
    PadStart(NatString(n), 2, '0')
  }

  /** Two decimal digits of a number below 100. */
  function Digits2(n: nat): (s: string)
    requires n < 100
  {
    [DigitChar(n / 10), DigitChar(n % 10)]
  }

  /** The value of a run of digit characters. */
  function DecimalValue(s: string): (n: nat)
    requires forall i :: 0 <= i < |s| ==> IsDigit(s[i])
  {
    if s == [] then 0 else DecimalValue(s[..|s| - 1]) * 10 + DigitValue(s[|s| - 1])
  }

  lemma {:induction false} Pad2IsDigits2(n: nat)
    requires n < 100
    ensures Pad2(n) == Digits2(n)
  {
    if n < 10 {
      assert NatString(n) == [DigitChar(n)];
      var r := Pad2(n);
      assert |r| == 2 && r[1..] == [DigitChar(n)] && r[0] == '0';
      assert DigitChar(0) == '0';
    } else {
      assert NatString(n / 10) == [DigitChar(n / 10)];
    }
  }

  lemma {:induction false} Digits2Value(n: nat)
    requires n < 100
    ensures DecimalValue(Digits2(n)) == n
  {
    var s := Digits2(n);
    assert s[..1] == [DigitChar(n / 10)];
    assert s[..1][..0] == [];
    assert DigitValue(s[0]) == n / 10 && DigitValue(s[1]) == n % 10;
    assert DecimalValue(s[..1]) == n / 10;
  }

  /** For four-digit numbers, `String(y)` is its high and low pairs of digits. */
  lemma {:induction false} NatString4(y: nat)
    requires 1000 <= y <= 9999
    ensures NatString(y) == Digits2(y / 100) + Digits2(y % 100)
  {
    assert y / 10 / 10 == y / 100;
    assert y / 100 / 10 == y / 1000 && y / 1000 < 10;
    assert (y / 100) % 10 == (y / 10 / 10) % 10;
    assert (y % 100) / 10 == (y / 10) % 10;
    assert (y % 100) % 10 == y % 10;
    assert (y / 100) / 10 == y / 1000;
    calc {
      NatString(y);
      NatString(y / 10) + [DigitChar(y % 10)];
      NatString(y / 100) + [DigitChar((y / 10) % 10)] + [DigitChar(y % 10)];
      [DigitChar(y / 1000)] + [DigitChar((y / 100) % 10)] + [DigitChar((y / 10) % 10)] + [DigitChar(y % 10)];
    }
  }

  lemma {:induction false} Digits4Value(y: nat)
    requires 1000 <= y <= 9999
    ensures |NatString(y)| == 4
    ensures DecimalValue(NatString(y)) == y
  {
    NatString4(y);
    var s := NatString(y);
    var hi, lo := y / 100, y % 100;
    assert s[..3] == Digits2(hi) + [DigitChar(lo / 10)];
    assert s[..3][..2] == Digits2(hi);
    Digits2Value(hi);
    assert DecimalValue(s[..3]) == hi * 10 + lo / 10;
  }

  // ---------------------------------------------------------------------
  // Lexicographic order by character code point (what `localeCompare` and
  // the database's text comparison agree on for the ASCII digit-and-hyphen
  // strings compared here).

  /** `a` before `b`: `a` is a proper prefix of `b`, or the first differing
      character of `a` has the smaller code point. */
  predicate LexLess(a: string, b: string)
    ensures |a| < |b| && a == b[..|a|] ==> LexLess(a, b)
    decreases |a|
  {
    if |a| == 0 then |b| > 0
    else if |b| == 0 then false
    else if a[0] != b[0] then a[0] < b[0]
    else LexLess(a[1..], b[1..])
  }

  /** `a <= b` on strings. */
  predicate LexLessEq(a: string, b: string) {
    a == b || LexLess(a, b)
  }

  lemma {:induction false} LexLessIrreflexive(a: string)
    ensures !LexLess(a, a)
  {
    if |a| > 0 { LexLessIrreflexive(a[1..]); }
  }

  lemma {:induction false} LexLessAsymmetric(a: string, b: string)
    ensures !(LexLess(a, b) && LexLess(b, a))
  {
    if |a| > 0 && |b| > 0 && a[0] == b[0] { LexLessAsymmetric(a[1..], b[1..]); }
  }

  lemma {:induction false} LexLessTransitive(a: string, b: string, c: string)
    requires LexLess(a, b) && LexLess(b, c)
    ensures LexLess(a, c)
  {
    if |a| > 0 && a[0] == b[0] && b[0] == c[0] {
      LexLessTransitive(a[1..], b[1..], c[1..]);
    }
  }

  lemma {:induction false} LexLessTotal(a: string, b: string)
    ensures a == b || LexLess(a, b) || LexLess(b, a)
  {
    if |a| > 0 && |b| > 0 && a[0] == b[0] {
      LexLessTotal(a[1..], b[1..]);
      if a[1..] == b[1..] {
        assert a == [a[0]] + a[1..] && b == [b[0]] + b[1..];
      }
    }
  }

  /** Comparing concatenations whose first parts have equal length: the
      first parts decide unless they are equal. */
  lemma {:induction false} LexLessConcat(x: string, u: string, y: string, v: string)
    requires |x| == |y|
    ensures LexLess(x + u, y + v) <==> LexLess(x, y) || (x == y && LexLess(u, v))
    decreases |x|
  {
    if |x| > 0 {
      assert (x + u)[0] == x[0] && (y + v)[0] == y[0];
      assert (x + u)[1..] == x[1..] + u && (y + v)[1..] == y[1..] + v;
      if x[0] == y[0] {
        LexLessConcat(x[1..], u, y[1..], v);
        assert x == y <==> x[1..] == y[1..] by {
          assert x == [x[0]] + x[1..] && y == [y[0]] + y[1..];
        }
      }
    } else {
      assert x + u == u && y + v == v;
    }
  }

  /** Two-digit forms compare as the numbers do. */
  lemma {:induction false} Digits2Order(n: nat, m: nat)
    requires n < 100 && m < 100
    ensures LexLess(Digits2(n), Digits2(m)) <==> n < m
    ensures Digits2(n) == Digits2(m) <==> n == m
  {
    var a, b := Digits2(n), Digits2(m);
    assert a == [a[0]] + [a[1]] && b == [b[0]] + [b[1]];
    LexLessConcat([a[0]], [a[1]], [b[0]], [b[1]]);
    assert LexLess([a[1]], [b[1]]) <==> a[1] < b[1] by {
      assert [a[1]][1..] == [] && [b[1]][1..] == [];
      LexLessIrreflexive([]);
    }
    assert LexLess([a[0]], [b[0]]) <==> a[0] < b[0] by {
      assert [a[0]][1..] == [] && [b[0]][1..] == [];
      LexLessIrreflexive([]);
    }
    assert n == (n / 10) * 10 + n % 10 && m == (m / 10) * 10 + m % 10;
  }

  /** Concatenations whose first parts have equal length are equal just
      when both parts are. */
  lemma ConcatEq(x: string, u: string, y: string, v: string)
    requires |x| == |y|
    ensures x + u == y + v <==> x == y && u == v
  {
    if x + u == y + v {
      assert x == (x + u)[..|x|] && y == (y + v)[..|y|];
      assert u == (x + u)[|x|..] && v == (y + v)[|y|..];
    }
  }

  /** A two-digit field in front decides the order unless it is equal. */
  lemma Digits2Then(p: nat, q: nat, u: string, v: string)
    requires p < 100 && q < 100
    ensures LexLess(Digits2(p) + u, Digits2(q) + v) <==> p < q || (p == q && LexLess(u, v))
    ensures Digits2(p) + u == Digits2(q) + v <==> p == q && u == v
  {
    Digits2Order(p, q);
    LexLessConcat(Digits2(p), u, Digits2(q), v);
    ConcatEq(Digits2(p), u, Digits2(q), v);
  }

  /** A common separator in front does not change the comparison. */
  lemma SeparatorThen(sep: string, u: string, v: string)
    ensures LexLess(sep + u, sep + v) <==> LexLess(u, v)
    ensures sep + u == sep + v <==> u == v
  {
    LexLessIrreflexive(sep);
    LexLessConcat(sep, u, sep, v);
    ConcatEq(sep, u, sep, v);
  }

  /** `hhll-mm-dd`: four two-digit fields. */
  function DateForm(h: nat, l: nat, m: nat, d: nat): string
    requires h < 100 && l < 100 && m < 100 && d < 100
  {
    Digits2(h) + Digits2(l) + "-" + Digits2(m) + "-" + Digits2(d)
  }

  /** `hhll-mm`: three two-digit fields. */
  function MonthForm(h: nat, l: nat, m: nat): string
    requires h < 100 && l < 100 && m < 100
  {
    Digits2(h) + Digits2(l) + "-" + Digits2(m)
  }

  lemma MonthFormOrder(h1: nat, l1: nat, m1: nat, h2: nat, l2: nat, m2: nat)
    requires h1 < 100 && l1 < 100 && m1 < 100
    requires h2 < 100 && l2 < 100 && m2 < 100
    ensures LexLess(MonthForm(h1, l1, m1), MonthForm(h2, l2, m2)) <==>
            h1 < h2 || (h1 == h2 && (l1 < l2 || (l1 == l2 && m1 < m2)))
    ensures MonthForm(h1, l1, m1) == MonthForm(h2, l2, m2) <==> h1 == h2 && l1 == l2 && m1 == m2
  {
    Digits2Order(m1, m2);
    SeparatorThen("-", Digits2(m1), Digits2(m2));
    Digits2Then(l1, l2, "-" + Digits2(m1), "-" + Digits2(m2));
    Digits2Then(h1, h2, Digits2(l1) + ("-" + Digits2(m1)), Digits2(l2) + ("-" + Digits2(m2)));
    assert MonthForm(h1, l1, m1) == Digits2(h1) + (Digits2(l1) + ("-" + Digits2(m1)));
    assert MonthForm(h2, l2, m2) == Digits2(h2) + (Digits2(l2) + ("-" + Digits2(m2)));
  }

  lemma DateFormOrder(h1: nat, l1: nat, m1: nat, d1: nat, h2: nat, l2: nat, m2: nat, d2: nat)
    requires h1 < 100 && l1 < 100 && m1 < 100 && d1 < 100
    requires h2 < 100 && l2 < 100 && m2 < 100 && d2 < 100
    ensures LexLess(DateForm(h1, l1, m1, d1), DateForm(h2, l2, m2, d2)) <==>
            h1 < h2 || (h1 == h2 && (l1 < l2 || (l1 == l2 && (m1 < m2 || (m1 == m2 && d1 < d2)))))
    ensures DateForm(h1, l1, m1, d1) == DateForm(h2, l2, m2, d2) <==>
            h1 == h2 && l1 == l2 && m1 == m2 && d1 == d2
  {
    var u3, v3 := "-" + Digits2(d1), "-" + Digits2(d2);
    var u2, v2 := Digits2(m1) + u3, Digits2(m2) + v3;
    var u1, v1 := "-" + u2, "-" + v2;
    var u0, v0 := Digits2(l1) + u1, Digits2(l2) + v1;
    Digits2Order(d1, d2);
    SeparatorThen("-", Digits2(d1), Digits2(d2));
    Digits2Then(m1, m2, u3, v3);
    SeparatorThen("-", u2, v2);
    Digits2Then(l1, l2, u1, v1);
    Digits2Then(h1, h2, u0, v0);
    assert DateForm(h1, l1, m1, d1) == Digits2(h1) + u0;
    assert DateForm(h2, l2, m2, d2) == Digits2(h2) + v0;
  }

  /** Ten characters, digits except for hyphens at positions 4 and 7. */
  predicate IsIsoDateForm(s: string) {
    |s| == 10 && s[4] == '-' && s[7] == '-' &&
    forall i | 0 <= i < 10 && i != 4 && i != 7 :: IsDigit(s[i])
  }

  /** Where each field of `hhll-mm-dd` sits. */
  lemma DateFormFields(h: nat, l: nat, m: nat, d: nat)
    requires h < 100 && l < 100 && m < 100 && d < 100
    ensures var s := DateForm(h, l, m, d);
      IsIsoDateForm(s) && s[..4] == Digits2(h) + Digits2(l) && s[5..7] == Digits2(m) && s[8..] == Digits2(d)
  {
    var a, b, c, e := Digits2(h), Digits2(l), Digits2(m), Digits2(d);
    var lit := [a[0], a[1], b[0], b[1], '-', c[0], c[1], '-', e[0], e[1]];
    assert DateForm(h, l, m, d) == lit;
    assert lit[..4] == a + b && lit[5..7] == c && lit[8..] == e;
  }

  /** `hhll-mm` is the first seven characters of `hhll-mm-dd`. */
  lemma MonthFormIsPrefix(h: nat, l: nat, m: nat, d: nat)
    requires h < 100 && l < 100 && m < 100 && d < 100
    ensures MonthForm(h, l, m) == DateForm(h, l, m, d)[..7]
  {
    var a, b, c, e := Digits2(h), Digits2(l), Digits2(m), Digits2(d);
    assert DateForm(h, l, m, d) == [a[0], a[1], b[0], b[1], '-', c[0], c[1], '-', e[0], e[1]];
    assert MonthForm(h, l, m) == [a[0], a[1], b[0], b[1], '-', c[0], c[1]];
  }
}

