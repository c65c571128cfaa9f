/**
 Text form of EVM addresses: hexadecimal digits, the address parser of the transaction builder and
 the EIP-55 mixed-case checksum of the address deriver.
 */
module EvmAddress {
  import opened Prelude
  import opened Rlp

  /** White space as Go's unicode.IsSpace has it. */
  predicate IsSpace(c: char) {
    || c in {' ', '\t', '\n', '\r', '\U{0B}', '\U{0C}', '\U{85}', '\U{A0}', '\U{1680}'}
    || '\U{2000}' <= c <= '\U{200A}'
    || c in {'\U{2028}', '\U{2029}', '\U{202F}', '\U{205F}', '\U{3000}'}
  }

  function TrimLeft(s: string): string {
    if s != [] && IsSpace(s[0]) then TrimLeft(s[1..]) else s
  }

  function TrimRight(s: string): string {
    if s != [] && IsSpace(s[|s| - 1]) then TrimRight(s[..|s| - 1]) else s
  }

  function TrimSpace(s: string): string {
    TrimRight(TrimLeft(s))
  }

  // ---------------------------------------------------------------- hexadecimal

  function HexDigit(n: nat): char
    requires n < 16
  {
    if n < 10 then '0' + n as char else 'a' + (n - 10) as char
  }

  function HexNibble(c: char): Option<nat> {
    if '0' <= c <= '9' then Some((c - '0') as nat)
    else if 'a' <= c <= 'f' then Some((c - 'a') as nat + 10)
    else if 'A' <= c <= 'F' then Some((c - 'A') as nat + 10)
    else None
  }

  predicate IsHex(c: char) {
    HexNibble(c).Some?
  }

  predicate AllHex(s: string) {
    forall i :: 0 <= i < |s| ==> IsHex(s[i])
  }

  function LowerChar(c: char): char {
    if 'A' <= c <= 'Z' then c + 32 as char else c
  }

  function UpperChar(c: char): char {
    if 'a' <= c <= 'z' then c - 32 as char else c
  }

  function Lower(s: string): (r: string)
    ensures |r| == |s|
    ensures forall i :: 0 <= i < |s| ==> r[i] == LowerChar(s[i])
  {
    seq(|s|, i requires 0 <= i < |s| => LowerChar(s[i]))
  }

  /** Lower-case hexadecimal text of a byte string, two digits a byte. */
  function Hex(b: Bytes): (r: string)
    ensures |r| == 2 * |b|
  {
    if b == [] then "" else [HexDigit(b[0] / 16), HexDigit(b[0] % 16)] + Hex(b[1..])
  }

  lemma NibbleOfDigit(n: nat)
    requires n < 16
    ensures HexNibble(HexDigit(n)) == Some(n)
    ensures LowerChar(HexDigit(n)) == HexDigit(n)
    ensures HexDigit(n) >= '8' <==> n >= 8
  {
  }

  lemma DigitOfNibble(c: char)
    requires IsHex(c)
    ensures HexNibble(c).value < 16 && HexDigit(HexNibble(c).value) == LowerChar(c)
    ensures IsHex(LowerChar(c)) && IsHex(UpperChar(c))
    ensures LowerChar(UpperChar(c)) == LowerChar(c)
  {
  }

  lemma {:induction false} HexAt(b: Bytes, i: nat)
    requires i < |b|
    ensures Hex(b)[2 * i] == HexDigit(b[i] / 16) && Hex(b)[2 * i + 1] == HexDigit(b[i] % 16)
  {
    if i > 0 {
      HexAt(b[1..], i - 1);
    }
  }

  lemma HexIsLowerHex(b: Bytes)
    ensures AllHex(Hex(b)) && Lower(Hex(b)) == Hex(b)
  {
    forall k | 0 <= k < |Hex(b)|
      ensures IsHex(Hex(b)[k]) && LowerChar(Hex(b)[k]) == Hex(b)[k]
    {
      HexAt(b, k / 2);
      NibbleOfDigit(b[k / 2] / 16);
      NibbleOfDigit(b[k / 2] % 16);
    }
  }

  // ---------------------------------------------------------------- address parser

  const ADDRESS_BYTES: nat := 20
  const ADDRESS_TEXT: nat := 42

  /** `t` spells the 20 bytes `b`: prefix, then two digits a byte in either letter case. */
  predicate Spells(t: string, b: Bytes) {
    |b| == ADDRESS_BYTES && |t| == ADDRESS_TEXT && t[..2] == "0x" && Lower(t[2..]) == Hex(b)
  }

  /** The byte that two hexadecimal digits write. */
  function Pair(a: char, b: char): Option<byte> {
    if IsHex(a) && IsHex(b) then
      DigitOfNibble(a);
      DigitOfNibble(b);
      Some((HexNibble(a).value * 16 + HexNibble(b).value) as byte)
    else None
  }

  lemma NibbleIff(c: char, n: nat)
    requires n < 16
    ensures HexNibble(c) == Some(n) <==> LowerChar(c) == HexDigit(n)
  {
    NibbleOfDigit(n);
    if IsHex(c) {
      DigitOfNibble(c);
      NibbleOfDigit(HexNibble(c).value);
    }
  }

  lemma PairDigits(a: char, b: char, v: byte)
    ensures Pair(a, b) == Some(v) <==> LowerChar(a) == HexDigit(v / 16) && LowerChar(b) == HexDigit(v % 16)
  {
    NibbleIff(a, v / 16);
    NibbleIff(b, v % 16);
    if IsHex(a) && IsHex(b) {
      DigitOfNibble(a);
      DigitOfNibble(b);
    }
  }

  function PairAt(t: string, i: nat): Option<byte>
    requires |t| == ADDRESS_TEXT && i < ADDRESS_BYTES
  {
    Pair(t[2 + 2 * i], t[3 + 2 * i])
  }

  /** A text spells `b` exactly when its digit pairs are the bytes of `b`. */
  lemma SpellsByPairs(t: string, b: Bytes)
    requires |b| == ADDRESS_BYTES && |t| == ADDRESS_TEXT && t[..2] == "0x"
    ensures Spells(t, b) <==> forall i :: 0 <= i < ADDRESS_BYTES ==> PairAt(t, i) == Some(b[i])
  {
    var d := Lower(t[2..]);
    forall i | 0 <= i < ADDRESS_BYTES
      ensures PairAt(t, i) == Some(b[i]) <==> d[2 * i] == Hex(b)[2 * i] && d[2 * i + 1] == Hex(b)[2 * i + 1]
    {
      PairDigits(t[2 + 2 * i], t[3 + 2 * i], b[i]);
      HexAt(b, i);
    }
    EqualByPairs(d, Hex(b));
  }

  lemma EqualByPairs(x: string, y: string)
    requires |x| == |y| == 2 * ADDRESS_BYTES
    ensures x == y <==> forall i :: 0 <= i < ADDRESS_BYTES ==> x[2 * i] == y[2 * i] && x[2 * i + 1] == y[2 * i + 1]
  {
    if forall i :: 0 <= i < ADDRESS_BYTES ==> x[2 * i] == y[2 * i] && x[2 * i + 1] == y[2 * i + 1] {
      forall k | 0 <= k < |x|
        ensures x[k] == y[k]
      {
        var i := k / 2;
        assert x[2 * i] == y[2 * i] && x[2 * i + 1] == y[2 * i + 1];
        assert k == 2 * i || k == 2 * i + 1;
      }
    }
  }

  /** A text spells at most one byte string. */
  lemma SpellsUnique(t: string, b: Bytes, c: Bytes)
    requires Spells(t, b) && Spells(t, c)
    ensures b == c
  {
    SpellsByPairs(t, b);
    SpellsByPairs(t, c);
    forall i | 0 <= i < ADDRESS_BYTES
      ensures b[i] == c[i]
    {
      assert PairAt(t, i) == Some(b[i]);
    }
  }

  predicate WellFormed(t: string) {
    |t| == ADDRESS_TEXT && t[..2] == "0x" && forall i :: 0 <= i < ADDRESS_BYTES ==> PairAt(t, i).Some?
  }

  lemma SpellsWellFormed(t: string, b: Bytes)
    requires Spells(t, b)
    ensures WellFormed(t)
  {
    SpellsByPairs(t, b);
  }

  /** The bytes an address text stands for once white space is trimmed; the parser's specification. */
  function ParsedAddress(s: string): (r: Option<Bytes>)
    ensures r.Some? ==> Spells(TrimSpace(s), r.value)
    ensures r.None? ==> forall b: Bytes :: !Spells(TrimSpace(s), b)
  {
    var t := TrimSpace(s);
    if WellFormed(t) then
      var b: Bytes := seq(ADDRESS_BYTES, i requires 0 <= i < ADDRESS_BYTES => PairAt(t, i).value);
      SpellsByPairs(t, b);
      Some(b)
    else
      assert forall b: Bytes :: !Spells(t, b) by {
        forall b: Bytes | Spells(t, b)
          ensures false
        {
          SpellsWellFormed(t, b);
        }
      }
      None
  }

  /** Reads the digits pair by pair and stops at the first pair that is not hexadecimal. */
  method ParseEvmAddress(s: string) returns (r: Option<Bytes>)
    ensures r == ParsedAddress(s)
  {
    var t := TrimSpace(s);
    if !(|t| >= 2 && t[..2] == "0x") || |t| != ADDRESS_TEXT {
      return None;
    }
    var out: Bytes := [];
    for i := 0 to ADDRESS_BYTES
      invariant |out| == i
      invariant forall k :: 0 <= k < i ==> PairAt(t, k) == Some(out[k])
    {
      var v := PairAt(t, i);
      if v.None? {
        return None;
      }
      out := out + [v.value];
    }
    assert WellFormed(t) && out == ParsedAddress(s).value;
    return Some(out);
  }

  // ---------------------------------------------------------------- EIP-55

  /** A 256-bit digest. */
  type Digest = d: Bytes | |d| == 32 witness seq(32, i => 0)

  function StripPrefix(addr: string): string {
    if |addr| >= 2 && addr[..2] == "0x" then addr[2..] else addr
  }

  /** The i-th digit of the checksummed form of the lower-case text `lower`. */
  function ChecksumChar(keccak: string -> Digest, lower: string, i: nat): char
    requires i < |lower| <= 64
  {
    if '0' <= lower[i] <= '9' then lower[i]
    else if Hex(keccak(lower))[i] >= '8' then UpperChar(lower[i])
    else lower[i]
  }

  function Checksum(keccak: string -> Digest, addr: string): string
    requires |StripPrefix(addr)| <= 64
  {
    var lower := Lower(StripPrefix(addr));
    "0x" + seq(|lower|, i requires 0 <= i < |lower| => ChecksumChar(keccak, lower, i))
  }

  /** Builds the checksummed text character by character. */
  method Eip55Checksum(keccak: string -> Digest, addr: string) returns (out: string)
    requires |StripPrefix(addr)| <= 64 && AllHex(StripPrefix(addr))
    ensures out == Checksum(keccak, addr)
  {
    var lower := Lower(StripPrefix(addr));
    var hh := Hex(keccak(lower));
    out := "0x";
    for i := 0 to |lower|
      invariant |out| == 2 + i && out[..2] == "0x"
      invariant forall k :: 0 <= k < i ==> out[2 + k] == ChecksumChar(keccak, lower, k)
    {
      var c := lower[i];
      if '0' <= c <= '9' {
        out := out + [c];
      } else if hh[i] >= '8' {
        DigitOfNibble(StripPrefix(addr)[i]);
        out := out + [c - 32 as char];
      } else {
        out := out + [c];
      }
    }
    assert out == "0x" + out[2..];
  }

  /** Nibble `i` of a digest, most significant first. */
  function Nibble(d: Digest, i: nat): nat
    requires i < 64
  {
    if i % 2 == 0 then d[i / 2] / 16 else d[i / 2] % 16
  }

  /**
   The Specification section of EIP-55 as a validity test: a letter is a capital exactly when the
   matching nibble of the hash of the lower-case text is 8 or more.
   */
  ghost predicate IsChecksummed(keccak: string -> Digest, t: string)
    requires |t| <= 64
  {
    forall i :: 0 <= i < |t| && !('0' <= t[i] <= '9') ==>
      ('A' <= t[i] <= 'F' <==> Nibble(keccak(Lower(t)), i) >= 8)
  }

  lemma HashDigit(d: Digest, i: nat)
    requires i < 64
    ensures Hex(d)[i] >= '8' <==> Nibble(d, i) >= 8
  {
    HexAt(d, i / 2);
    NibbleOfDigit(d[i / 2] / 16);
    NibbleOfDigit(d[i / 2] % 16);
  }

  /**
   `Checksum` writes the one valid mixed-case spelling: among all texts with the same digits up to
   letter case, exactly its output passes the EIP-55 test.
   */
  lemma ChecksumIsTheValidSpelling(keccak: string -> Digest, addr: string, t: string)
    requires |StripPrefix(addr)| <= 64 && AllHex(StripPrefix(addr))
    requires AllHex(t) && Lower(t) == Lower(StripPrefix(addr))
    ensures IsChecksummed(keccak, t) <==> "0x" + t == Checksum(keccak, addr)
  {
    var lower := Lower(t);
    var d := keccak(lower);
    var c := Checksum(keccak, addr);
    forall i | 0 <= i < |t|
      ensures !('0' <= t[i] <= '9') ==> (t[i] == c[2 + i] <==> ('A' <= t[i] <= 'F' <==> Nibble(d, i) >= 8))
      ensures '0' <= t[i] <= '9' ==> t[i] == c[2 + i]
    {
      HashDigit(d, i);
      DigitOfNibble(t[i]);
      assert c[2 + i] == ChecksumChar(keccak, lower, i);
    }
    if "0x" + t == c {
      assert forall i :: 0 <= i < |t| ==> t[i] == ("0x" + t)[2 + i];
    }
    if IsChecksummed(keccak, t) {
      assert forall i :: 0 <= i < |t| ==> t[i] == c[2 + i];
      assert "0x" + t == c;
    }
  }

  lemma ChecksumKeepsDigits(keccak: string -> Digest, addr: string)
    requires |StripPrefix(addr)| <= 64 && AllHex(StripPrefix(addr))
    ensures var c := Checksum(keccak, addr);
            && StripPrefix(c) == c[2..] && AllHex(c[2..])
            && Lower(c[2..]) == Lower(StripPrefix(addr))
  {
    var c := Checksum(keccak, addr);
    var a := StripPrefix(addr);
    forall i | 0 <= i < |a|
      ensures IsHex(c[2..][i]) && LowerChar(c[2..][i]) == LowerChar(a[i])
    {
      DigitOfNibble(a[i]);
      DigitOfNibble(LowerChar(a[i]));
    }
  }

  /** Checksumming twice is checksumming once, and the letter case of the input does not matter. */
  lemma ChecksumIdempotent(keccak: string -> Digest, addr: string)
    requires |StripPrefix(addr)| <= 64 && AllHex(StripPrefix(addr))
    ensures Checksum(keccak, Checksum(keccak, addr)) == Checksum(keccak, addr)
    ensures forall other: string :: (
              Lower(StripPrefix(other)) == Lower(StripPrefix(addr))
              ==> Checksum(keccak, other) == Checksum(keccak, addr))
  {
    ChecksumKeepsDigits(keccak, addr);
  }

  lemma HexIsNoSpace(c: char)
    requires IsHex(c)
    ensures !IsSpace(c)
  {
  }

  lemma {:induction false} TrimNothing(s: string)
    requires s != [] && !IsSpace(s[0]) && !IsSpace(s[|s| - 1])
    ensures TrimSpace(s) == s
  {
  }

  predicate AllSpace(s: string) {
    forall i :: 0 <= i < |s| ==> IsSpace(s[i])
  }

  predicate Bare(s: string) {
    s == [] || (!IsSpace(s[0]) && !IsSpace(s[|s| - 1]))
  }

  lemma {:induction false} LeftCut(pre: string, rest: string)
    requires AllSpace(pre)
    ensures TrimLeft(pre + rest) == TrimLeft(rest)
  {
    if pre == [] {
      assert pre + rest == rest;
    } else {
      LeftCut(pre[1..], rest);
      assert (pre + rest)[1..] == pre[1..] + rest;
    }
  }

  lemma {:induction false} RightCut(rest: string, post: string)
    requires AllSpace(post)
    ensures TrimRight(rest + post) == TrimRight(rest)
  {
    if post == [] {
      assert rest + post == rest;
    } else {
      var n := |post| - 1;
      RightCut(rest, post[..n]);
      assert (rest + post)[..|rest + post| - 1] == rest + post[..n];
    }
  }

  /** White space on either side is dropped and nothing else. */
  lemma TrimsExactly(pre: string, mid: string, post: string)
    requires AllSpace(pre) && AllSpace(post) && Bare(mid)
    ensures TrimSpace(pre + mid + post) == mid
  {
    assert pre + mid + post == pre + (mid + post);
    LeftCut(pre, mid + post);
    if mid == [] {
      LeftCut(post, []);
      assert mid + post == post + [];
    } else {
      RightCut(mid, post);
    }
  }

  lemma NoPrefix(t: string)
    requires AllHex(t)
    ensures StripPrefix(t) == t
  {
    assert |t| >= 2 ==> t[..2][1] != 'x';
  }

  /** Printing an address with its checksum and parsing the text gives back the 20 bytes. */
  lemma PrintParse(keccak: string -> Digest, b: Bytes)
    requires |b| == ADDRESS_BYTES
    ensures ParsedAddress(Checksum(keccak, Hex(b))) == Some(b)
  {
    HexIsLowerHex(b);
    NoPrefix(Hex(b));
    var c := Checksum(keccak, Hex(b));
    ChecksumKeepsDigits(keccak, Hex(b));
    assert c[..2] == "0x";
    assert IsHex(c[2..][39]);
    HexIsNoSpace(c[0]);
    HexIsNoSpace(c[41]);
    TrimNothing(c);
    assert Spells(TrimSpace(c), b);
    SpellsUnique(c, b, ParsedAddress(c).value);
  }
}
