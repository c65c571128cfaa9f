/**
 Decimal numbers and their texts: which reals are decimals, what a reader and a writer of decimal texts have to
 promise for sums to survive storage as text, and the plain notation, which keeps that promise.
 */
module DecimalText {
  import opened Prelude
  import Decimals

  // ---------------------------------------------------------------- decimals

  function Pow10(k: nat): (p: nat)
    ensures p > 0
  {
    if k == 0 then 1 else 10 * Pow10(k - 1)
  }

  lemma {:induction false} Pow10Sum(j: nat, k: nat)
    ensures Pow10(j + k) == Pow10(j) * Pow10(k)
  {
    if k > 0 {
      Pow10Sum(j, k - 1);
      assert Pow10(j + k) == 10 * (Pow10(j) * Pow10(k - 1));
      assert Pow10(j) * (10 * Pow10(k - 1)) == 10 * (Pow10(j) * Pow10(k - 1));
    }
  }

  /** Moved `k` places to the left, the number is the integer `n`. */
  predicate Scaled(x: real, k: nat, n: int) {
    x * Pow10(k) as real == n as real
  }

  /** An integer divided by a power of ten. */
  ghost predicate IsDecimal(x: real) {
    exists k: nat, n: int :: Scaled(x, k, n)
  }

  lemma IntIsDecimal(n: int)
    ensures IsDecimal(n as real)
  {
    assert Scaled(n as real, 0, n);
  }

  lemma {:induction false} CastProduct(m: int, n: nat)
    ensures (m * n) as real == m as real * n as real
    decreases n
  {
    if n > 0 {
      CastProduct(m, n - 1);
      assert m * n == m * (n - 1) + m;
      assert n as real == (n - 1) as real + 1.0;
      Distributes((n - 1) as real, 1.0, m as real);
    }
  }

  lemma Distributes(a: real, b: real, c: real)
    ensures c * (a + b) == c * a + c * b
  {
  }

  lemma Regroups(a: real, b: real, c: real)
    ensures a * (b * c) == (a * b) * c && a * (b * c) == (a * c) * b
  {
  }

  lemma CrossSum(x: real, p: real, y: real, q: real)
    ensures (x + y) * (p * q) == (x * p) * q + (y * q) * p
  {
    Distributes(x, y, p * q);
    Regroups(x, p, q);
    Regroups(y, p, q);
  }

  lemma SumOfScaled(x: real, p: nat, a: int, y: real, q: nat, b: int, pq: nat) returns (n: int)
    requires x * p as real == a as real && y * q as real == b as real && pq == p * q
    ensures (x + y) * pq as real == n as real
  {
    n := a * q + b * p;
    CastProduct(p, q);
    CastProduct(a, q);
    CastProduct(b, p);
    CrossSum(x, p as real, y, q as real);
  }

  lemma ScaledSum(x: real, j: nat, a: int, y: real, k: nat, b: int)
    requires Scaled(x, j, a) && Scaled(y, k, b)
    ensures IsDecimal(x + y)
  {
    Pow10Sum(j, k);
    var n := SumOfScaled(x, Pow10(j), a, y, Pow10(k), b, Pow10(j + k));
    assert Scaled(x + y, j + k, n);
  }

  lemma ScaledNegated(x: real, k: nat, n: int)
    requires Scaled(x, k, n)
    ensures Scaled(-x, k, -n)
  {
    var p := Pow10(k) as real;
    assert (-x) * p == -(x * p);
  }

  /** Sums and differences of decimals are decimals. */
  lemma DecimalSum(x: real, y: real)
    requires IsDecimal(x) && IsDecimal(y)
    ensures IsDecimal(x + y) && IsDecimal(x - y)
  {
    var j: nat, a: int :| Scaled(x, j, a);
    var k: nat, b: int :| Scaled(y, k, b);
    ScaledSum(x, j, a, y, k, b);
    ScaledNegated(y, k, b);
    ScaledSum(x, j, a, -y, k, -b);
  }

  // ---------------------------------------------------------------- readers and writers

  /** How decimal texts are read and written. */
  datatype Codec = Codec(parse: string -> real, format: real -> string)

  /** An empty text reads as zero, every text reads as a decimal, and a decimal that is written reads as itself. */
  ghost predicate Exact(c: Codec) {
    && c.parse("") == 0.0
    && (forall s :: IsDecimal(c.parse(s)))
    && (forall x :: IsDecimal(x) ==> c.parse(c.format(x)) == x)
  }

  // ---------------------------------------------------------------- plain notation

  /** At least `n` characters, with zeros in front. */
  function Padded(ds: string, n: nat): (r: string)
    ensures |r| >= n && |r| >= |ds|
    decreases n - |ds|
  {
    if |ds| >= n then ds else Padded("0" + ds, n)
  }

  lemma {:induction false} ZeroInFront(ds: string)
    requires ds != [] && Decimals.AllDigits(ds)
    ensures Decimals.ParseDigits("0" + ds) == Decimals.ParseDigits(ds) && Decimals.AllDigits("0" + ds)
    decreases |ds|
  {
    var s := "0" + ds;
    assert s[|s| - 1] == ds[|ds| - 1] && s[..|s| - 1] == "0" + ds[..|ds| - 1];
    if |ds| == 1 {
      assert s[..1] == "0" && Decimals.ParseDigits("0") == Some(0);
    } else {
      ZeroInFront(ds[..|ds| - 1]);
    }
  }

  lemma {:induction false} PaddedReads(ds: string, n: nat)
    requires ds != [] && Decimals.AllDigits(ds)
    ensures Decimals.ParseDigits(Padded(ds, n)) == Decimals.ParseDigits(ds) && Decimals.AllDigits(Padded(ds, n))
    decreases n - |ds|
  {
    if |ds| < n {
      ZeroInFront(ds);
      PaddedReads("0" + ds, n);
    }
  }

  /** Digits with the point `k` places from the right. */
  function Cut(ds: string, k: nat): string
    requires k < |ds|
  {
    if k == 0 then ds else ds[..|ds| - k] + "." + ds[|ds| - k..]
  }

  /** The digits of a number with the point `k` places from the right, and at least one digit before it. */
  function Pointed(n: nat, k: nat): string {
    Cut(Padded(Decimals.Digits(n), k + 1), k)
  }

  function PlainText(n: int, k: nat): string {
    if n < 0 then "-" + Pointed(-n, k) else Pointed(n, k)
  }

  /** Position of the first point, or the length of the text. */
  function Point(s: string): (i: nat)
    ensures i <= |s| && (i < |s| ==> s[i] == '.') && forall j :: 0 <= j < i ==> s[j] != '.'
  {
    if s == [] || s[0] == '.' then 0 else 1 + Point(s[1..])
  }

  /** The text without its first point, and how much follows it. */
  function Uncut(s: string): (string, nat) {
    var i := Point(s);
    if i < |s| then (s[..i] + s[i + 1..], |s| - i - 1) else (s, 0)
  }

  /** A run of digits with at most one point in it: the digits as a number, and how many follow the point. */
  function UnsignedParts(s: string): Option<(nat, nat)> {
    match Decimals.ParseDigits(Uncut(s).0)
    case None => None
    case Some(v) => Some((v, Uncut(s).1))
  }

  /** The same with an optional minus sign; any other text counts as zero. */
  function Parts(s: string): (int, nat) {
    if s != [] && s[0] == '-' then
      match UnsignedParts(s[1..])
      case None => (0, 0)
      case Some((v, k)) => (-(v as int), k)
    else
      match UnsignedParts(s)
      case None => (0, 0)
      case Some((v, k)) => (v as int, k)
  }

  function PlainValue(s: string): real {
    Parts(s).0 as real / Pow10(Parts(s).1) as real
  }

  lemma UncutCut(ds: string, k: nat)
    requires k < |ds| && Decimals.AllDigits(ds)
    ensures Uncut(Cut(ds, k)) == (ds, k) && Cut(ds, k) != [] && Cut(ds, k)[0] == ds[0]
  {
    var s, cut := Cut(ds, k), |ds| - k;
    if k > 0 {
      assert s[cut] == '.' && forall j :: 0 <= j < cut ==> s[j] == ds[j];
      assert Point(s) == cut;
      assert s[..cut] + s[cut + 1..] == ds[..cut] + ds[cut..] == ds;
    } else {
      assert Point(s) == |s|;
    }
  }

  lemma PaddedDigits(n: nat, w: nat)
    ensures var ds := Padded(Decimals.Digits(n), w);
            ds != [] && Decimals.AllDigits(ds) && Decimals.ParseDigits(ds) == Some(n)
  {
    Decimals.DigitsParse(n);
    PaddedReads(Decimals.Digits(n), w);
  }

  lemma PointedReads(n: nat, k: nat)
    ensures UnsignedParts(Pointed(n, k)) == Some((n, k))
    ensures Pointed(n, k) != [] && Pointed(n, k)[0] != '-'
  {
    PaddedDigits(n, k + 1);
    var ds := Padded(Decimals.Digits(n), k + 1);
    assert '0' <= ds[0] <= '9';
    UncutCut(ds, k);
  }

  lemma SignReads(s: string, n: nat, k: nat)
    requires UnsignedParts(s) == Some((n, k)) && s != [] && s[0] != '-'
    ensures Parts(s) == (n as int, k) && Parts("-" + s) == (-(n as int), k)
  {
    assert ("-" + s)[1..] == s;
  }

  /** The plain text of an integer moved `k` places gives both back. */
  lemma TextReads(n: int, k: nat)
    ensures Parts(PlainText(n, k)) == (n, k)
  {
    var m: nat := if n < 0 then -n else n;
    PointedReads(m, k);
    SignReads(Pointed(m, k), m, k);
  }

  lemma QuotientIsScaled(k: nat, n: int)
    ensures Scaled(n as real / Pow10(k) as real, k, n)
  {
  }

  lemma ScaledIsQuotient(x: real, k: nat, n: int)
    requires Scaled(x, k, n)
    ensures x == n as real / Pow10(k) as real
  {
  }

  /** `k` is the least number of places that makes `x` an integer. */
  ghost predicate Least(x: real, k: nat, n: int) {
    Scaled(x, k, n) && forall j: nat, m: int :: Scaled(x, j, m) ==> k <= j
  }

  lemma {:induction false} HasLeast(x: real, k: nat, n: int)
    requires Scaled(x, k, n)
    ensures exists j: nat, m: int :: Least(x, j, m)
    decreases k
  {
    if j: nat, m: int :| j < k && Scaled(x, j, m) {
      HasLeast(x, j, m);
    } else {
      assert Least(x, k, n);
    }
  }

  /** The text of a decimal with as few places as it needs. */
  ghost function Plain(x: real): string {
    if exists k: nat, n: int :: Least(x, k, n) then
      var k: nat, n: int :| Least(x, k, n);
      PlainText(n, k)
    else ""
  }

  lemma PlainReads(x: real)
    requires IsDecimal(x)
    ensures PlainValue(Plain(x)) == x
  {
    var k: nat, n: int :| Scaled(x, k, n);
    HasLeast(x, k, n);
    var j: nat, m: int :| Least(x, j, m) && Plain(x) == PlainText(m, j);
    TextReads(m, j);
    ScaledIsQuotient(x, j, m);
  }

  lemma PlainIsDecimal(s: string)
    ensures IsDecimal(PlainValue(s))
  {
    QuotientIsScaled(Parts(s).1, Parts(s).0);
  }

  /** The plain notation is exact. */
  lemma PlainIsExact()
    ensures Exact(Codec(PlainValue, x => Plain(x)))
  {
    assert PlainValue("") == 0.0;
    forall s
      ensures IsDecimal(PlainValue(s))
    {
      PlainIsDecimal(s);
    }
    forall x | IsDecimal(x)
      ensures PlainValue(Plain(x)) == x
    {
      PlainReads(x);
    }
  }
}
