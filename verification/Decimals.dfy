/** Integers as decimal text: formatting as in `%d`, parsing as in Atoi, and the round trip between them. */
module Decimals {
  import opened Prelude

  function Digit(d: nat): char
    requires d < 10
  {
    '0' + d as char
  }

  function DigitValue(c: char): Option<nat> {
    if '0' <= c <= '9' then Some((c - '0') as nat) else None
  }

  lemma DigitRound(d: nat)
    requires d < 10
    ensures DigitValue(Digit(d)) == Some(d) && '0' <= Digit(d) <= '9'
  {
  }

  function Digits(n: nat): string {
    if n < 10 then [Digit(n)] else Digits(n / 10) + [Digit(n % 10)]
  }

  function Format(n: int): string {
    if n < 0 then "-" + Digits(-n) else Digits(n)
  }

  /** The value of a run of digits; an empty run or any other character is an error. */
  function ParseDigits(s: string): Option<nat> {
    if s == [] then None
    else
      var d := DigitValue(s[|s| - 1]);
      if d.None? then None
      else if |s| == 1 then d
      else
        var front := ParseDigits(s[..|s| - 1]);
        if front.None? then None else Some(10 * front.value + d.value)
  }

  predicate Fits(n: int) {
    -(TWO_63 as int) <= n < TWO_63
  }

  /** An optional sign, then digits. */
  function Signed(s: string): Option<int> {
    if s != [] && s[0] == '-' then
      var v := ParseDigits(s[1..]);
      if v.None? then None else Some(-(v.value as int))
    else if s != [] && s[0] == '+' then ParseDigits(s[1..])
    else ParseDigits(s)
  }

  /** A signed number within the range of a 64-bit integer. */
  function Atoi(s: string): Option<int> {
    var v := Signed(s);
    if v.Some? && Fits(v.value) then v else None
  }

  predicate AllDigits(s: string) {
    forall i :: 0 <= i < |s| ==> '0' <= s[i] <= '9'
  }

  lemma {:induction false} DigitsParse(n: nat)
    ensures ParseDigits(Digits(n)) == Some(n) && Digits(n) != [] && AllDigits(Digits(n))
  {
    DigitRound(n % 10);
    if n >= 10 {
      DigitsParse(n / 10);
      var s := Digits(n);
      assert s[..|s| - 1] == Digits(n / 10);
      assert s[|s| - 1] == Digit(n % 10);
    }
  }

  lemma SignedText(ds: string, v: nat)
    requires ParseDigits(ds) == Some(v) && ds != [] && AllDigits(ds)
    ensures Signed("-" + ds) == Some(-(v as int)) && Signed(ds) == Some(v)
  {
    assert ("-" + ds)[1..] == ds;
    assert '0' <= ds[0] <= '9';
  }

  lemma FormatSigned(n: int)
    ensures Signed(Format(n)) == Some(n)
  {
    var v := if n < 0 then -n else n;
    DigitsParse(v);
    SignedText(Digits(v), v);
  }

  /** Formatting and parsing back returns the number. */
  lemma FormatParse(n: int)
    requires Fits(n)
    ensures Atoi(Format(n)) == Some(n)
  {
    FormatSigned(n);
  }

  lemma FormatInjective(m: int, n: int)
    requires Format(m) == Format(n)
    ensures m == n
  {
    FormatSigned(m);
    FormatSigned(n);
  }

  /** Only digits and the minus sign occur. */
  lemma FormatChars(n: int, c: char)
    requires c in Format(n)
    ensures c == '-' || '0' <= c <= '9'
    ensures n >= 0 ==> '0' <= c <= '9'
  {
    DigitsParse(if n < 0 then -n else n);
  }
}
