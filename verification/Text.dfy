/** Decimal rendering and separator-joined text, as produced by fmt.Sprintf. */
module Text {

  function Digit(d: nat): char
    requires d < 10
  {
    '0' + d as char
  }

  /** Rendering of %d for a non-negative number. */
  function Decimal(n: nat): string {
    if n < 10 then [Digit(n)] else Decimal(n / 10) + [Digit(n % 10)]
  }

  /** Rendering of %d for any integer. */
  function Signed(n: int): string {
    if n < 0 then "-" + Decimal(-n) else Decimal(n)
  }

  /** Rendering of %02d for a non-negative number. */
  function TwoDigits(n: nat): string {
    if n < 10 then "0" + Decimal(n) else Decimal(n)
  }

  predicate IsDigit(c: char) { '0' <= c <= '9' }

  ghost predicate AllDigits(s: string) {
    s != "" && forall i :: 0 <= i < |s| ==> IsDigit(s[i])
  }

  lemma {:induction false} DecimalDigits(n: nat)
    ensures AllDigits(Decimal(n))
  {
    if n >= 10 {
      DecimalDigits(n / 10);
    }
  }

  lemma {:induction false} DecimalInjective(m: nat, n: nat)
    requires Decimal(m) == Decimal(n)
    ensures m == n
  {
    DecimalDigits(m / 10);
    DecimalDigits(n / 10);
    var a, b := Decimal(m), Decimal(n);
    assert a[|a| - 1] == b[|b| - 1];
    assert m % 10 == n % 10;
    if m >= 10 && n >= 10 {
      assert a[..|a| - 1] == Decimal(m / 10);
      assert b[..|b| - 1] == Decimal(n / 10);
      DecimalInjective(m / 10, n / 10);
    }
  }

  lemma SignedInjective(m: int, n: int)
    requires Signed(m) == Signed(n)
    ensures m == n
  {
    if m >= 0 { DecimalDigits(m); }
    if n >= 0 { DecimalDigits(n); }
    assert (m < 0) == (Signed(m)[0] == '-');
    assert (n < 0) == (Signed(n)[0] == '-');
    if m < 0 {
      assert Signed(m)[1..] == Decimal(-m) && Signed(n)[1..] == Decimal(-n);
      DecimalInjective(-m, -n);
    } else {
      DecimalInjective(m, n);
    }
  }

  lemma SignedFree(n: int, c: char)
    requires c != '-' && !IsDigit(c)
    ensures c !in Signed(n)
  {
    DecimalDigits(if n < 0 then -n else n);
  }

  lemma TwoDigitsInjective(m: nat, n: nat)
    requires m < 100 && n < 100 && TwoDigits(m) == TwoDigits(n)
    ensures m == n
  {
    Width(m);
    Width(n);
  }

  /** Two-digit rendering is exactly the tens digit followed by the units digit. */
  lemma Width(n: nat)
    requires n < 100
    ensures TwoDigits(n) == [Digit(n / 10), Digit(n % 10)]
  {
    if n >= 10 {
      assert Decimal(n / 10) == [Digit(n / 10)];
    }
  }

  /** A separator-free head is determined by the text it starts. */
  lemma {:induction false} HeadCancel(sep: char, a: string, x: string, b: string, y: string)
    requires sep !in a && sep !in b
    requires a + [sep] + x == b + [sep] + y
    ensures a == b && x == y
  {
    var s, t := a + [sep] + x, b + [sep] + y;
    assert s[|a|] == sep && t[|b|] == sep;
    assert forall i :: 0 <= i < |a| ==> s[i] == a[i];
    assert forall i :: 0 <= i < |b| ==> t[i] == b[i];
    assert |a| == |b|;
    assert a == s[..|a|] == t[..|b|] == b;
    assert x == s[|a| + 1..] == t[|b| + 1..] == y;
  }

  /** A separator-free tail is determined by the text it ends. */
  lemma {:induction false} TailCancel(sep: char, x: string, a: string, y: string, b: string)
    requires sep !in a && sep !in b
    requires x + [sep] + a == y + [sep] + b
    ensures a == b && x == y
  {
    var s, t := x + [sep] + a, y + [sep] + b;
    assert s[|x|] == sep && t[|y|] == sep;
    assert forall i :: |x| < i < |s| ==> s[i] == a[i - |x| - 1];
    assert forall i :: |y| < i < |t| ==> t[i] == b[i - |y| - 1];
    assert |x| == |y|;
    assert x == s[..|x|] == t[..|y|] == y;
    assert a == s[|x| + 1..] == t[|y| + 1..] == b;
  }

  /** Fields joined by a separator. */
  function Join(sep: char, fields: seq<string>): string
    requires fields != []
  {
    if |fields| == 1 then fields[0] else fields[0] + [sep] + Join(sep, fields[1..])
  }

  ghost predicate Free(sep: char, fields: seq<string>) {
    forall i :: 0 <= i < |fields| ==> sep !in fields[i]
  }

  lemma {:induction false} JoinHasSeparator(sep: char, fields: seq<string>)
    requires |fields| > 1
    ensures sep in Join(sep, fields)
  {
    var s := Join(sep, fields);
    assert s[|fields[0]|] == sep;
  }

  /** Separator-free fields can be read back from the joined text. */
  lemma {:induction false} JoinInjective(sep: char, fs: seq<string>, gs: seq<string>)
    requires fs != [] && gs != [] && Free(sep, fs) && Free(sep, gs)
    requires Join(sep, fs) == Join(sep, gs)
    ensures fs == gs
  {
    if |fs| == 1 || |gs| == 1 {
      if |fs| > 1 { JoinHasSeparator(sep, fs); }
      if |gs| > 1 { JoinHasSeparator(sep, gs); }
    } else {
      HeadCancel(sep, fs[0], Join(sep, fs[1..]), gs[0], Join(sep, gs[1..]));
      JoinInjective(sep, fs[1..], gs[1..]);
      assert fs == [fs[0]] + fs[1..] && gs == [gs[0]] + gs[1..];
    }
  }
}
