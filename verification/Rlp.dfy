/**
 Recursive Length Prefix encoding of a list of byte strings, as the EVM transaction builder
 writes it, and an independent decoder that follows Appendix B of the Ethereum Yellow Paper.
 */
module Rlp {
  import opened Prelude

  type Bytes = seq<byte>

  // ---------------------------------------------------------------- big-endian integers

  /** The number that a big-endian byte string denotes. */
  function Value(b: Bytes): nat {
    if b == [] then 0 else 256 * Value(b[..|b| - 1]) + b[|b| - 1]
  }

  /** The shortest big-endian byte string of a number; zero is the empty string. */
  function Minimal(n: nat): Bytes {
    if n == 0 then [] else Minimal(n / 256) + [(n % 256) as byte]
  }

  /** No superfluous leading zero. */
  predicate IsMinimal(b: Bytes) {
    b == [] || b[0] != 0
  }

  function Pow256(k: nat): nat {
    if k == 0 then 1 else 256 * Pow256(k - 1)
  }

  lemma {:induction false} MinimalValue(n: nat)
    ensures Value(Minimal(n)) == n
    ensures IsMinimal(Minimal(n))
  {
    if n != 0 {
      MinimalValue(n / 256);
      var b := Minimal(n);
      assert b[..|b| - 1] == Minimal(n / 256);
      if n / 256 == 0 {
        assert b == [(n % 256) as byte];
      } else {
        assert Minimal(n / 256) != [];
        assert b[0] == Minimal(n / 256)[0];
      }
    }
  }

  lemma MinimalStep(v: nat, d: byte)
    requires v != 0 || d != 0
    ensures Minimal(256 * v + d) == Minimal(v) + [d]
  {
    assert (256 * v + d) / 256 == v && (256 * v + d) % 256 == d;
  }

  lemma {:induction false} ValueMinimal(b: Bytes)
    requires IsMinimal(b)
    ensures Minimal(Value(b)) == b
  {
    if b != [] {
      var init, d := b[..|b| - 1], b[|b| - 1];
      assert b == init + [d];
      assert init != [] ==> init[0] == b[0];
      ValueMinimal(init);
      if init == [] {
        assert b[0] == d;
      } else {
        assert Value(init) != 0 by { assert Minimal(0) == []; }
      }
      ValueStep(init, d);
    }
  }

  lemma ValueStep(init: Bytes, d: byte)
    requires Minimal(Value(init)) == init && (Value(init) != 0 || d != 0)
    ensures Minimal(Value(init + [d])) == init + [d]
  {
    assert (init + [d])[..|init|] == init;
    MinimalStep(Value(init), d);
  }

  lemma {:induction false} MinimalLength(n: nat, k: nat)
    ensures n < Pow256(k) <==> |Minimal(n)| <= k
  {
    if n == 0 {
      Pow256Positive(k);
    } else if k == 0 {
      assert |Minimal(n)| > 0;
    } else {
      MinimalLength(n / 256, k - 1);
    }
  }

  lemma {:induction false} Pow256Positive(k: nat)
    ensures Pow256(k) >= 1
  {
    if k > 0 {
      Pow256Positive(k - 1);
    }
  }

  /** Leading zero bytes do not change the value. */
  lemma {:induction false} SkipZeros(b: Bytes, i: nat)
    requires i <= |b|
    requires forall k :: 0 <= k < i ==> b[k] == 0
    ensures Value(b[i..]) == Value(b)
  {
    if i == |b| {
      ZeroValue(b);
    } else {
      var init := b[..|b| - 1];
      assert b[i..][..|b[i..]| - 1] == init[i..];
      SkipZeros(init, i);
    }
  }

  lemma {:induction false} ZeroValue(b: Bytes)
    requires forall k :: 0 <= k < |b| ==> b[k] == 0
    ensures Value(b) == 0
  {
    if b != [] {
      ZeroValue(b[..|b| - 1]);
    }
  }

  /** The big-endian digits of `n`, padded to `k` bytes (PutUint64 for `k == 8`). */
  function FixedWidth(n: nat, k: nat): (b: Bytes)
    requires n < Pow256(k)
    ensures |b| == k && Value(b) == n
  {
    if k == 0 then []
    else
      var b := FixedWidth(n / 256, k - 1) + [(n % 256) as byte];
      assert b[..|b| - 1] == FixedWidth(n / 256, k - 1);
      b
  }

  lemma Pow256Of8()
    ensures Pow256(8) == TWO_64
  {
    assert Pow256(4) == 0x1_0000_0000;
    assert Pow256(8) == 256 * (256 * (256 * (256 * Pow256(4))));
  }

  /** Writes the 8-byte word and drops its leading zero bytes. */
  method BigUint(n: nat) returns (b: Bytes)
    requires n < TWO_64
    ensures b == Minimal(n)
    ensures |b| <= 8
  {
    Pow256Of8();
    if n == 0 {
      return [];
    }
    var word := FixedWidth(n, 8);
    MinimalLength(n, 8);
    var i := 0;
    while i < 8
      invariant 0 <= i <= 8
      invariant forall k :: 0 <= k < i ==> word[k] == 0
    {
      if word[i] != 0 {
        SkipZeros(word, i);
        ValueMinimal(word[i..]);
        return word[i..];
      }
      i := i + 1;
    }
    ZeroValue(word);
    assert false;
    return [];
  }

  // ---------------------------------------------------------------- encoder

  const SHORT_MAX: nat := 55
  const STRING_BASE: nat := 0x80
  const STRING_LONG_BASE: nat := 0xb7
  const LIST_BASE: nat := 0xc0
  const LIST_LONG_BASE: nat := 0xf7

  /** Length prefix; that every byte stays in range is part of the function being well formed. */
  function LenPrefix(n: nat, base: nat, longBase: nat): (p: Bytes)
    requires n < TWO_64 && base <= LIST_BASE && longBase <= LIST_LONG_BASE
    ensures 1 <= |p| <= 9
  {
    Pow256Of8();
    MinimalLength(n, 8);
    if n <= SHORT_MAX then [(base + n) as byte]
    else [(longBase + |Minimal(n)|) as byte] + Minimal(n)
  }

  function EncodeItem(b: Bytes): (r: Bytes)
    requires |b| < TWO_64
    ensures r != []
  {
    if |b| == 1 && b[0] < STRING_BASE then b
    else LenPrefix(|b|, STRING_BASE, STRING_LONG_BASE) + b
  }

  predicate Encodable(elems: seq<Bytes>) {
    && (forall i :: 0 <= i < |elems| ==> |elems[i]| < TWO_64)
    && |Payload(elems)| < TWO_64
  }

  function Payload(elems: seq<Bytes>): Bytes
    requires forall i :: 0 <= i < |elems| ==> |elems[i]| < TWO_64
  {
    if elems == [] then [] else EncodeItem(elems[0]) + Payload(elems[1..])
  }

  function EncodeList(elems: seq<Bytes>): Bytes
    requires Encodable(elems)
  {
    LenPrefix(|Payload(elems)|, LIST_BASE, LIST_LONG_BASE) + Payload(elems)
  }

  /** A length prefix of the standard in front of a body: `first` for up to 55 bytes, else a length of its own. */
  predicate Prefixed(r: Bytes, body: Bytes, first: nat, firstLong: nat) {
    && r != []
    && if |body| <= 55 then r[0] == first + |body| && r[1..] == body
       else
         var k := r[0] - firstLong + 1;
         && 1 <= k <= 8 && |r| == 1 + k + |body|
         && IsMinimal(r[1..1 + k]) && Value(r[1..1 + k]) == |body| && r[1 + k..] == body
  }

  lemma LenPrefixIs(body: Bytes, base: nat, longBase: nat)
    requires |body| < TWO_64 && base <= LIST_BASE && longBase <= LIST_LONG_BASE
    ensures Prefixed(LenPrefix(|body|, base, longBase) + body, body, base, longBase + 1)
  {
    var n := |body|;
    var p := LenPrefix(n, base, longBase);
    assert (p + body)[|p|..] == body;
    if n > SHORT_MAX {
      MinimalValue(n);
      Pow256Of8();
      MinimalLength(n, 8);
      MinimalLength(n, 0);
      assert (p + body)[1..1 + |Minimal(n)|] == Minimal(n);
    }
  }

  /** Strings in the bytes of the standard: themselves, from 0x80, or from 0xb8. */
  lemma ItemBytes(b: Bytes)
    requires |b| < TWO_64
    ensures if |b| == 1 && b[0] <= 0x7f then EncodeItem(b) == b else Prefixed(EncodeItem(b), b, 0x80, 0xb8)
  {
    LenPrefixIs(b, STRING_BASE, STRING_LONG_BASE);
  }

  /** Lists in the bytes of the standard: the encoded strings one after the other, behind 0xc0 or 0xf8 upward. */
  lemma ListBytes(elems: seq<Bytes>)
    requires Encodable(elems)
    ensures Prefixed(EncodeList(elems), Payload(elems), 0xc0, 0xf8)
  {
    LenPrefixIs(Payload(elems), LIST_BASE, LIST_LONG_BASE);
  }

  method RlpEncodeLenPrefix(n: nat, base: nat, longBase: nat) returns (p: Bytes)
    requires n < TWO_64 && base <= LIST_BASE && longBase <= LIST_LONG_BASE
    ensures p == LenPrefix(n, base, longBase)
  {
    if n <= SHORT_MAX {
      return [(base + n) as byte];
    }
    var lenBytes := BigUint(n);
    p := [(longBase + |lenBytes|) as byte] + lenBytes;
  }

  method RlpEncodeItem(b: Bytes) returns (r: Bytes)
    requires |b| < TWO_64
    ensures r == EncodeItem(b)
  {
    if |b| == 1 && b[0] < STRING_BASE {
      return b;
    }
    var prefix := RlpEncodeLenPrefix(|b|, STRING_BASE, STRING_LONG_BASE);
    r := prefix + b;
  }

  lemma {:induction false} PayloadSnoc(elems: seq<Bytes>, e: Bytes)
    requires forall i :: 0 <= i < |elems| ==> |elems[i]| < TWO_64
    requires |e| < TWO_64
    ensures Payload(elems + [e]) == Payload(elems) + EncodeItem(e)
  {
    if elems == [] {
      assert [e][1..] == [];
    } else {
      assert (elems + [e])[1..] == elems[1..] + [e];
      PayloadSnoc(elems[1..], e);
    }
  }

  /** The buffer-filling loop of the list encoder. */
  method EvmEncodeList(elems: seq<Bytes>) returns (out: Bytes)
    requires Encodable(elems)
    ensures out == EncodeList(elems)
    ensures DecodeList(out) == Some(elems)
  {
    var inner: Bytes := [];
    for i := 0 to |elems|
      invariant inner == Payload(elems[..i])
    {
      var item := RlpEncodeItem(elems[i]);
      PayloadSnoc(elems[..i], elems[i]);
      assert elems[..i + 1] == elems[..i] + [elems[i]];
      inner := inner + item;
    }
    assert elems[..|elems|] == elems;
    var prefix := RlpEncodeLenPrefix(|inner|, LIST_BASE, LIST_LONG_BASE);
    out := prefix + inner;
    RoundTrip(elems);
  }

  // ---------------------------------------------------------------- decoder

  datatype Split = Split(body: Bytes, rest: Bytes)

  /** Reads a length prefix whose first byte lies in `[base, longBase + 8]` and splits off the body. */
  function TakeBody(b: Bytes, base: nat, longBase: nat): Option<Split>
    requires b != [] && base <= b[0]
  {
    if b[0] <= base + SHORT_MAX then
      var n := b[0] - base;
      if |b| < 1 + n then None else Some(Split(b[1..1 + n], b[1 + n..]))
    else if b[0] <= longBase then None
    else
      var k := b[0] - longBase;
      if |b| < 1 + k then None
      else
        var n := Value(b[1..1 + k]);
        // a long form must need its length field and must not pad it
        if !IsMinimal(b[1..1 + k]) || n <= SHORT_MAX || |b| < 1 + k + n then None
        else Some(Split(b[1 + k..1 + k + n], b[1 + k + n..]))
  }

  /** One string item from the front of `b`. */
  function DecodeItem(b: Bytes): (r: Option<Split>)
    ensures r.Some? ==> |r.value.rest| < |b|
  {
    if b == [] then None
    else if b[0] < STRING_BASE then Some(Split(b[..1], b[1..]))
    else if LIST_BASE <= b[0] then None
    else
      match TakeBody(b, STRING_BASE, STRING_LONG_BASE)
      case None => None
      case Some(s) =>
        // a single small byte is its own encoding
        if |s.body| == 1 && s.body[0] < STRING_BASE then None else Some(s)
  }

  function DecodeItems(b: Bytes): Option<seq<Bytes>>
    decreases |b|
  {
    if b == [] then Some([])
    else
      match DecodeItem(b)
      case None => None
      case Some(s) =>
        match DecodeItems(s.rest)
        case None => None
        case Some(tail) => Some([s.body] + tail)
  }

  function DecodeList(b: Bytes): Option<seq<Bytes>> {
    if b == [] || b[0] < LIST_BASE then None
    else
      match TakeBody(b, LIST_BASE, LIST_LONG_BASE)
      case None => None
      case Some(s) => if s.rest != [] then None else DecodeItems(s.body)
  }

  // ---------------------------------------------------------------- round trip, both ways

  lemma TakeAfterPrefix(body: Bytes, rest: Bytes, base: nat, longBase: nat)
    requires |body| < TWO_64
    requires base <= LIST_BASE && longBase == base + SHORT_MAX
    ensures TakeBody(LenPrefix(|body|, base, longBase) + body + rest, base, longBase) == Some(Split(body, rest))
  {
    var n := |body|;
    var p := LenPrefix(n, base, longBase);
    var b := p + body + rest;
    assert b[|p|..|p| + n] == body && b[|p| + n..] == rest;
    if n > SHORT_MAX {
      MinimalValue(n);
      Pow256Of8();
      MinimalLength(n, 8);
      assert b[1..|p|] == Minimal(n);
      MinimalLength(n, 0);
    }
  }

  lemma DecodeEncodedItem(e: Bytes, rest: Bytes)
    requires |e| < TWO_64
    ensures DecodeItem(EncodeItem(e) + rest) == Some(Split(e, rest))
  {
    var b := EncodeItem(e) + rest;
    if |e| == 1 && e[0] < STRING_BASE {
      assert b[..1] == e && b[1..] == rest;
    } else {
      TakeAfterPrefix(e, rest, STRING_BASE, STRING_LONG_BASE);
      Pow256Of8();
      MinimalLength(|e|, 8);
      assert b == LenPrefix(|e|, STRING_BASE, STRING_LONG_BASE) + e + rest;
      assert STRING_BASE <= b[0] < LIST_BASE;
    }
  }

  lemma DecodeStep(b: Bytes, s: Split, tail: seq<Bytes>)
    requires DecodeItem(b) == Some(s) && DecodeItems(s.rest) == Some(tail)
    ensures DecodeItems(b) == Some([s.body] + tail)
  {
  }

  lemma {:induction false} DecodePayload(elems: seq<Bytes>)
    requires forall i :: 0 <= i < |elems| ==> |elems[i]| < TWO_64
    ensures DecodeItems(Payload(elems)) == Some(elems)
  {
    if elems != [] {
      var head, tail := elems[0], elems[1..];
      DecodeEncodedItem(head, Payload(tail));
      DecodePayload(tail);
      DecodeStep(EncodeItem(head) + Payload(tail), Split(head, Payload(tail)), tail);
      assert elems == [head] + tail;
    }
  }

  /** Decoding an encoded list gives back exactly the elements. */
  lemma RoundTrip(elems: seq<Bytes>)
    requires Encodable(elems)
    ensures DecodeList(EncodeList(elems)) == Some(elems)
  {
    var body := Payload(elems);
    TakeAfterPrefix(body, [], LIST_BASE, LIST_LONG_BASE);
    assert EncodeList(elems) + [] == EncodeList(elems);
    DecodePayload(elems);
  }

  /** So two lists with one encoding are one list. */
  lemma Injective(a: seq<Bytes>, b: seq<Bytes>)
    requires Encodable(a) && Encodable(b)
    ensures EncodeList(a) == EncodeList(b) <==> a == b
  {
    RoundTrip(a);
    RoundTrip(b);
  }

  lemma Slices(b: Bytes, i: nat, j: nat, k: nat)
    requires i <= j <= k <= |b|
    ensures b == b[..i] + b[i..j] + b[j..k] + b[k..]
  {
  }

  lemma LongPrefixBeforeTake(b: Bytes, base: nat, longBase: nat)
    requires b != [] && longBase < b[0] && |b| < TWO_64
    requires base <= LIST_BASE && longBase == base + SHORT_MAX
    requires TakeBody(b, base, longBase).Some?
    ensures var s := TakeBody(b, base, longBase).value;
            b == LenPrefix(|s.body|, base, longBase) + s.body + s.rest
  {
    var s := TakeBody(b, base, longBase).value;
    var k := b[0] - longBase;
    var n := Value(b[1..1 + k]);
    ValueMinimal(b[1..1 + k]);
    assert |s.body| == n > SHORT_MAX;
    assert LenPrefix(n, base, longBase) == b[..1] + b[1..1 + k];
    Slices(b, 1, 1 + k, 1 + k + n);
  }

  lemma PrefixBeforeTake(b: Bytes, base: nat, longBase: nat)
    requires b != [] && base <= b[0] && |b| < TWO_64
    requires base <= LIST_BASE && longBase == base + SHORT_MAX
    requires TakeBody(b, base, longBase).Some?
    ensures var s := TakeBody(b, base, longBase).value;
            b == LenPrefix(|s.body|, base, longBase) + s.body + s.rest
  {
    if b[0] <= longBase {
      var s := TakeBody(b, base, longBase).value;
      assert LenPrefix(|s.body|, base, longBase) == b[..1];
      Slices(b, 1, 1 + |s.body|, 1 + |s.body|);
    } else {
      LongPrefixBeforeTake(b, base, longBase);
    }
  }

  lemma EncodeDecodedItem(b: Bytes)
    requires |b| < TWO_64
    requires DecodeItem(b).Some?
    ensures var s := DecodeItem(b).value; |s.body| < TWO_64 && b == EncodeItem(s.body) + s.rest
  {
    if b[0] < STRING_BASE {
      assert b == b[..1] + b[1..];
    } else {
      PrefixBeforeTake(b, STRING_BASE, STRING_LONG_BASE);
    }
  }

  lemma {:induction false} EncodeDecodedItems(b: Bytes)
    requires |b| < TWO_64
    requires DecodeItems(b).Some?
    ensures var elems := DecodeItems(b).value;
            (forall i :: 0 <= i < |elems| ==> |elems[i]| < TWO_64) && Payload(elems) == b
    decreases |b|
  {
    if b != [] {
      EncodeDecodedItem(b);
      var s := DecodeItem(b).value;
      EncodeDecodedItems(s.rest);
      var elems := DecodeItems(b).value;
      assert elems[1..] == DecodeItems(s.rest).value;
    }
  }

  /** The decoder accepts nothing but the encoder's output: every list has one encoding only. */
  lemma Canonical(b: Bytes)
    requires |b| < TWO_64
    requires DecodeList(b).Some?
    ensures Encodable(DecodeList(b).value) && EncodeList(DecodeList(b).value) == b
  {
    PrefixBeforeTake(b, LIST_BASE, LIST_LONG_BASE);
    var s := TakeBody(b, LIST_BASE, LIST_LONG_BASE).value;
    EncodeDecodedItems(s.body);
  }
}
