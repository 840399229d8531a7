/** Positional numerals in base 2 to 16, most significant digit first, lower-case letters from ten on. */
module Numerals {
  import opened Arithmetic

  function DigitChar(d: nat): char
    requires d < 16
  {
    if d < 10 then (48 + d) as char else (87 + d) as char
  }

  /** 16 for a character that is no digit in any base. */
  function DigitValue(c: char): nat {
    if '0' <= c <= '9' then c as int - 48 else if 'a' <= c <= 'f' then c as int - 87 else 16
  }

  lemma Shrinks(n: nat, base: nat)
    requires 2 <= base <= n
    ensures 0 <= n / base < n && n / base * base + n % base == n
  {
    var q := n / base;
    DividesNonNegative(n, base);
    TimesMonotone(2, base, q);
  }

  function Print(n: nat, base: nat): (s: string)
    requires 2 <= base <= 16
    ensures IsNumeral(s, base)
    decreases n
  {
    if n < base then [DigitChar(n)] else
      Shrinks(n, base);
      Print(n / base, base) + [DigitChar(n % base)]
  }

  predicate IsNumeral(s: string, base: nat) {
    s != [] && forall i :: 0 <= i < |s| ==> DigitValue(s[i]) < base
  }

  function Parse(s: string, base: nat): nat
    requires IsNumeral(s, base)
  {
    if |s| == 1 then DigitValue(s[0])
    else Parse(s[..|s| - 1], base) * base + DigitValue(s[|s| - 1])
  }

  lemma ParseSnoc(front: string, d: nat, base: nat)
    requires d < base <= 16 && IsNumeral(front, base)
    ensures var s := front + [DigitChar(d)]; IsNumeral(s, base) && Parse(s, base) == Parse(front, base) * base + d
  {
    var s := front + [DigitChar(d)];
    assert s[..|s| - 1] == front;
  }

  lemma {:induction false} ParsePrint(n: nat, base: nat)
    requires 2 <= base <= 16
    ensures Parse(Print(n, base), base) == n
    decreases n
  {
    if n >= base {
      Shrinks(n, base);
      var q, d := n / base, n % base;
      ParsePrint(q, base);
      ParseSnoc(Print(q, base), d, base);
    }
  }

  lemma PrintInjective(m: nat, n: nat, base: nat)
    requires 2 <= base <= 16 && Print(m, base) == Print(n, base)
    ensures m == n
  {
    ParsePrint(m, base);
    ParsePrint(n, base);
  }

  lemma ParsePositive(s: string, base: nat)
    requires 2 <= base && IsNumeral(s, base) && s[0] != '0'
    ensures Parse(s, base) > 0
  {
    if |s| > 1 {
      ParsePositive(s[..|s| - 1], base);
    }
  }

  lemma PrintUnfolds(n: nat, base: nat)
    requires 2 <= base <= 16 && base <= n
    ensures n / base >= 0 && Print(n, base) == Print(n / base, base) + [DigitChar(n % base)]
  {
    Shrinks(n, base);
  }

  lemma PrintSnoc(p: nat, d: nat, base: nat)
    requires d < base && 2 <= base <= 16 && p > 0
    ensures Print(p * base + d, base) == Print(p, base) + [DigitChar(d)]
  {
    var n := p * base + d;
    QuotientIs(n, base, p, d);
    TimesMonotone(1, p, base);
    PrintUnfolds(n, base);
  }

  /** A numeral with no leading zero is the one printed for its value. */
  lemma {:induction false} PrintParse(s: string, base: nat)
    requires 2 <= base <= 16 && IsNumeral(s, base)
    requires |s| == 1 || s[0] != '0'
    ensures Print(Parse(s, base), base) == s
  {
    if |s| > 1 {
      var front, d := s[..|s| - 1], DigitValue(s[|s| - 1]);
      assert front[0] == s[0];
      ParsePositive(front, base);
      PrintParse(front, base);
      PrintSnoc(Parse(front, base), d, base);
      assert s == front + [DigitChar(d)];
    }
  }

  function Zeros(n: nat): string {
    seq(n, _ => '0')
  }

  lemma {:induction false} ParseAfterZero(s: string, base: nat)
    requires 2 <= base && IsNumeral(s, base)
    ensures IsNumeral("0" + s, base) && Parse("0" + s, base) == Parse(s, base)
  {
    var t, n := "0" + s, |s|;
    assert t[0] == '0' && forall i :: 0 < i < |t| ==> t[i] == s[i - 1];
    assert t[n] == s[n - 1];
    if n > 1 {
      ParseAfterZero(s[..n - 1], base);
      assert t[..n] == "0" + s[..n - 1];
    } else {
      assert t[..n] == "0";
      assert Parse("0", base) == 0;
    }
  }

  lemma {:induction false} ParsePadded(n: nat, s: string, base: nat)
    requires 2 <= base && IsNumeral(s, base)
    ensures IsNumeral(Zeros(n) + s, base) && Parse(Zeros(n) + s, base) == Parse(s, base)
  {
    if n == 0 {
      assert Zeros(0) + s == s;
    } else {
      ParseAfterZero(s, base);
      ParsePadded(n - 1, "0" + s, base);
      assert Zeros(n) + s == Zeros(n - 1) + ("0" + s);
    }
  }

  /** `toString(base)` of any integer. */
  function PrintSigned(n: int, base: nat): string
    requires 2 <= base <= 16
  {
    if n < 0 then "-" + Print(-n, base) else Print(n, base)
  }

  lemma PrintSignedInjective(m: int, n: int, base: nat)
    requires 2 <= base <= 16 && PrintSigned(m, base) == PrintSigned(n, base)
    ensures m == n
  {
    var s := PrintSigned(m, base);
    assert m < 0 <==> s[0] == '-';
    assert n < 0 <==> s[0] == '-';
    if m < 0 {
      assert s[1..] == Print(-m, base) == Print(-n, base);
      PrintInjective(-m, -n, base);
    } else {
      PrintInjective(m, n, base);
    }
  }

  /** A numeral has no character that is neither a digit nor the sign. */
  lemma PrintSignedPlain(n: int, base: nat, c: char)
    requires 2 <= base <= 16 && DigitValue(c) == 16 && c != '-'
    ensures c !in PrintSigned(n, base)
  {
    var s := PrintSigned(n, base);
    forall i | 0 <= i < |s| ensures s[i] != c {
      if n < 0 && i > 0 {
        assert s[i] == Print(-n, base)[i - 1];
      }
    }
  }
}
