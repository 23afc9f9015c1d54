/** Decimal numerals: writing integers and reading them back. */
module Decimal {
  import opened Options
  import opened Text

  predicate IsDigit(c: char) {
    '0' <= c <= '9'
  }

  predicate AllDigits(s: string) {
    forall k :: 0 <= k < |s| ==> IsDigit(s[k])
  }

  function Digit(d: nat): (c: char)
    requires d < 10
    ensures IsDigit(c)
  {
    ('0' as int + d) as char
  }

  /** `str(n)` */
  function NatText(n: nat): string {
    if n < 10 then [Digit(n)] else NatText(n / 10) + [Digit(n % 10)]
  }

  function NatValue(s: string): nat
    requires AllDigits(s)
  {
    if s == "" then 0 else NatValue(s[..|s| - 1]) * 10 + (s[|s| - 1] as int - '0' as int)
  }

  lemma {:induction false} NatTextReads(n: nat)
    ensures NatText(n) != "" && AllDigits(NatText(n)) && NatValue(NatText(n)) == n
  {
    if n < 10 {
      assert NatText(n)[..0] == "";
    } else {
      NatTextReads(n / 10);
      var s := NatText(n);
      assert s[..|s| - 1] == NatText(n / 10);
    }
  }

  /** Different numbers have different numerals. */
  lemma NatTextInjective(m: nat, n: nat)
    requires NatText(m) == NatText(n)
    ensures m == n
  {
    NatTextReads(m);
    NatTextReads(n);
  }

  lemma {:induction false} NatTextGrows(m: nat, n: nat)
    requires m <= n
    ensures |NatText(m)| <= |NatText(n)|
  {
    if n >= 10 && m >= 10 {
      NatTextGrows(m / 10, n / 10);
    }
  }

  /** `str(i)` */
  function IntText(i: int): string {
    if i < 0 then "-" + NatText(-i) else NatText(i)
  }

  /** `int(s)` for ASCII decimal text, None where it raises. */
  function ParseInt(s: string): Option<int> {
    var t := Strip(s);
    var body := if t != "" && (t[0] == '-' || t[0] == '+') then t[1..] else t;
    if body == "" || !AllDigits(body) then None
    else
      var n: int := NatValue(body);
      Some(if t[0] == '-' then -n else n)
  }

  lemma ParseIntReads(i: int)
    ensures ParseInt(IntText(i)) == Some(i)
    ensures forall k :: 0 <= k < |IntText(i)| ==> IntText(i)[k] != ','
  {
    var n: nat := if i < 0 then -i else i;
    var digits, s := NatText(n), IntText(i);
    NatTextReads(n);
    assert forall k :: 0 <= k < |digits| ==> IsDigit(digits[k]);
    assert s[|s| - 1] == digits[|digits| - 1];
    if i < 0 {
      assert s[0] == '-' && s[1..] == digits;
    } else {
      assert s[0] == digits[0];
    }
    StripNothing(s);
  }

  /** The digits, with a sign in front or not. */
  predicate IsNumeral(t: string, digits: string, n: int) {
    digits != "" && AllDigits(digits) &&
    (((t == digits || t == "+" + digits) && n == NatValue(digits)) || (t == "-" + digits && n + NatValue(digits) == 0))
  }

  /** A text is read exactly when it is a numeral with nothing but white space around it. */
  lemma ParseIntExactly(s: string, n: int)
    ensures ParseInt(s) == Some(n) <==> exists digits :: IsNumeral(Strip(s), digits, n)
  {
    var t := Strip(s);
    if ParseInt(s) == Some(n) {
      var body := if t[0] == '-' || t[0] == '+' then t[1..] else t;
      assert t == [t[0]] + t[1..];
      assert IsNumeral(t, body, n);
    }
    if digits :| IsNumeral(t, digits, n) {
      assert IsDigit(digits[0]);
      assert t != digits ==> t[1..] == digits;
    }
  }
}
