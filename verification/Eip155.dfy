/**
 Legacy EVM transactions signed under EIP-155: the signing preimage, the signature returned by the
 signer, the signed encoding, and what can be read back from the broadcast bytes.
 */
module Eip155 {
  import opened Prelude
  import opened Rlp

  datatype LegacyTx = LegacyTx(
    nonce: nat, gasPrice: nat, gasLimit: nat, to: Bytes, value: int, data: Bytes)

  datatype Signature = Signature(v: nat, r: nat, s: nat)

  /** The magnitude is what big.Int.Bytes writes; a negative amount loses its sign. */
  function Abs(n: int): nat {
    if n < 0 then -n else n
  }

  /** The six fields common to the preimage and the signed transaction. */
  function Fields(tx: LegacyTx): (f: seq<Bytes>)
    ensures |f| == 6
  {
    [Minimal(tx.nonce), Minimal(tx.gasPrice), Minimal(tx.gasLimit), tx.to, Minimal(Abs(tx.value)), tx.data]
  }

  function SigningElems(tx: LegacyTx, chainId: nat): (e: seq<Bytes>)
    ensures |e| == 9 && e[..6] == Fields(tx)
  {
    Fields(tx) + [Minimal(chainId), [], []]
  }

  function SignedElems(tx: LegacyTx, sig: Signature): (e: seq<Bytes>)
    ensures |e| == 9 && e[..6] == Fields(tx)
  {
    Fields(tx) + [Minimal(sig.v), Minimal(sig.r), Minimal(sig.s)]
  }

  /** The bytes whose hash is signed. */
  function Preimage(tx: LegacyTx, chainId: nat): Bytes
    requires Encodable(SigningElems(tx, chainId))
  {
    EncodeList(SigningElems(tx, chainId))
  }

  function EncodeSigned(tx: LegacyTx, sig: Signature): Bytes
    requires Encodable(SignedElems(tx, sig))
  {
    EncodeList(SignedElems(tx, sig))
  }

  const SIGNATURE_BYTES: nat := 65

  /** Recovery id of a compact-signature header, with the compressed-key bit masked off. */
  function RecoveryId(header: nat): nat
    requires 27 <= header <= 34
  {
    if header - 27 >= 4 then header - 31 else header - 27
  }

  /** Splits the signer's 65-byte answer; `v` carries the chain id as EIP-155 prescribes. */
  function SigFromMpc(sig: Bytes, chainId: nat): Result<Signature> {
    if |sig| != SIGNATURE_BYTES then Err("evm: signature must be 65 bytes")
    else if sig[0] < 27 || sig[0] > 34 then Err("evm: invalid recovery header")
    else Ok(Signature(chainId * 2 + 35 + RecoveryId(sig[0]), Value(sig[1..33]), Value(sig[33..65])))
  }

  // ---------------------------------------------------------------- reading the bytes back

  /** The fields of a nine-element transaction list, with integers required to be minimal. */
  function DecodeSigned(b: Bytes): Option<(seq<Bytes>, Signature)> {
    match DecodeList(b)
    case None => None
    case Some(e) =>
      if |e| != 9 || !IsMinimal(e[6]) || !IsMinimal(e[7]) || !IsMinimal(e[8]) then None
      else Some((e[..6], Signature(Value(e[6]), Value(e[7]), Value(e[8]))))
  }

  /** The nonce a node reads from the bytes. */
  function DecodedNonce(b: Bytes): Option<nat> {
    match DecodeSigned(b)
    case None => None
    case Some((f, _)) => if |f| == 6 && IsMinimal(f[0]) then Some(Value(f[0])) else None
  }

  lemma DecodesToSigned(tx: LegacyTx, sig: Signature)
    requires Encodable(SignedElems(tx, sig))
    ensures DecodeSigned(EncodeSigned(tx, sig)) == Some((Fields(tx), sig))
    ensures DecodedNonce(EncodeSigned(tx, sig)) == Some(tx.nonce)
  {
    RoundTrip(SignedElems(tx, sig));
    MinimalValue(sig.v);
    MinimalValue(sig.r);
    MinimalValue(sig.s);
    MinimalValue(tx.nonce);
  }

  /** Which of the nine elements a node reads as what; an amount is read without its sign. */
  predicate Reads(e: seq<Bytes>, nonce: nat, gasPrice: nat, gasLimit: nat, to: Bytes, value: int, data: Bytes) {
    && |e| == 9 && Value(e[0]) == nonce && Value(e[1]) == gasPrice && Value(e[2]) == gasLimit && e[3] == to
    && (Value(e[4]) == value || Value(e[4]) == -value) && e[5] == data
  }

  lemma FieldsRead(tx: LegacyTx, rest: seq<Bytes>)
    requires |rest| == 3
    ensures Reads(Fields(tx) + rest, tx.nonce, tx.gasPrice, tx.gasLimit, tx.to, tx.value, tx.data)
  {
    MinimalValue(tx.nonce);
    MinimalValue(tx.gasPrice);
    MinimalValue(tx.gasLimit);
    MinimalValue(Abs(tx.value));
  }

  /**
   Read back with the standard's decoder, both encodings hold the transaction's fields in the standard's order;
   the preimage ends in the chain id and two empty strings, the signed transaction in v, r and s.
   */
  lemma FieldOrder(tx: LegacyTx, chainId: nat, sig: Signature)
    requires Encodable(SigningElems(tx, chainId)) && Encodable(SignedElems(tx, sig))
    ensures var e := DecodeList(Preimage(tx, chainId));
            && e.Some? && Reads(e.value, tx.nonce, tx.gasPrice, tx.gasLimit, tx.to, tx.value, tx.data)
            && Value(e.value[6]) == chainId && e.value[7] == [] && e.value[8] == []
    ensures var e := DecodeList(EncodeSigned(tx, sig));
            && e.Some? && Reads(e.value, tx.nonce, tx.gasPrice, tx.gasLimit, tx.to, tx.value, tx.data)
            && Value(e.value[6]) == sig.v && Value(e.value[7]) == sig.r && Value(e.value[8]) == sig.s
  {
    RoundTrip(SigningElems(tx, chainId));
    RoundTrip(SignedElems(tx, sig));
    FieldsRead(tx, [Minimal(chainId), [], []]);
    FieldsRead(tx, [Minimal(sig.v), Minimal(sig.r), Minimal(sig.s)]);
    MinimalValue(chainId);
    MinimalValue(sig.v);
    MinimalValue(sig.r);
    MinimalValue(sig.s);
  }

  /**
   What is broadcast is what was signed: reading the broadcast bytes and putting (chainId, 0, 0) in
   place of (v, r, s) gives the exact preimage that was hashed.
   */
  lemma BroadcastIsWhatWasSigned(tx: LegacyTx, chainId: nat, signature: Bytes)
    requires SigFromMpc(signature, chainId).Ok?
    requires Encodable(SigningElems(tx, chainId))
    requires Encodable(SignedElems(tx, SigFromMpc(signature, chainId).value))
    ensures var bytes := EncodeSigned(tx, SigFromMpc(signature, chainId).value);
            DecodeList(bytes).Some? && |DecodeList(bytes).value| == 9
            && var resigned := DecodeList(bytes).value[..6] + [Minimal(chainId), [], []];
            Encodable(resigned) && EncodeList(resigned) == Preimage(tx, chainId)
  {
    RoundTrip(SignedElems(tx, SigFromMpc(signature, chainId).value));
  }

  lemma {:induction false} FixedWidthOfValue(b: Bytes)
    ensures Value(b) < Pow256(|b|)
    ensures FixedWidth(Value(b), |b|) == b
  {
    if b != [] {
      var init, d := b[..|b| - 1], b[|b| - 1];
      FixedWidthOfValue(init);
      assert Value(b) / 256 == Value(init) && Value(b) % 256 == d;
      assert b == init + [d];
    }
  }

  lemma VFromHeader(signature: Bytes, chainId: nat)
    requires SigFromMpc(signature, chainId).Ok?
    ensures SigFromMpc(signature, chainId).value.v - 35 - 2 * chainId == (signature[0] - 27) % 4
  {
  }

  /**
   With a known chain id the signer's answer is recovered from the broadcast bytes: the recovery id
   from v, and the 32-byte halves r and s digit for digit.
   */
  lemma SignatureRecoverable(tx: LegacyTx, chainId: nat, signature: Bytes)
    requires SigFromMpc(signature, chainId).Ok?
    requires Encodable(SignedElems(tx, SigFromMpc(signature, chainId).value))
    ensures var back := DecodeSigned(EncodeSigned(tx, SigFromMpc(signature, chainId).value));
            && back.Some?
            && back.value.1.v - 35 - 2 * chainId == (signature[0] - 27) % 4
            && back.value.1.r < Pow256(32) && FixedWidth(back.value.1.r, 32) == signature[1..33]
            && back.value.1.s < Pow256(32) && FixedWidth(back.value.1.s, 32) == signature[33..65]
  {
    DecodesToSigned(tx, SigFromMpc(signature, chainId).value);
    VFromHeader(signature, chainId);
    FixedWidthOfValue(signature[1..33]);
    FixedWidthOfValue(signature[33..65]);
  }

  /**
   Two answers of the signer give the same v exactly when their headers differ by nothing or by the
   compressed-key bit: 27 to 30 stand for four different recovery ids, and 31 to 34 for the same four.
   */
  lemma SameVIff(a: Bytes, b: Bytes, chainId: nat)
    requires SigFromMpc(a, chainId).Ok? && SigFromMpc(b, chainId).Ok?
    ensures SigFromMpc(a, chainId).value.v == SigFromMpc(b, chainId).value.v
            <==> a[0] == b[0] || a[0] == b[0] + 4 || b[0] == a[0] + 4
  {
  }

  lemma MinimalInjective(m: nat, n: nat)
    ensures Minimal(m) == Minimal(n) <==> m == n
  {
    MinimalValue(m);
    MinimalValue(n);
  }

  /**
   Preimages are equal exactly when the fields and the chain id are: a signature for one chain or one
   nonce never covers another.
   */
  lemma PreimageInjective(a: LegacyTx, b: LegacyTx, chainA: nat, chainB: nat)
    requires Encodable(SigningElems(a, chainA)) && Encodable(SigningElems(b, chainB))
    ensures Preimage(a, chainA) == Preimage(b, chainB) <==>
            chainA == chainB && a.nonce == b.nonce && a.gasPrice == b.gasPrice && a.gasLimit == b.gasLimit
            && a.to == b.to && Abs(a.value) == Abs(b.value) && a.data == b.data
  {
    var ea, eb := SigningElems(a, chainA), SigningElems(b, chainB);
    Injective(ea, eb);
    MinimalInjective(chainA, chainB);
    MinimalInjective(a.nonce, b.nonce);
    MinimalInjective(a.gasPrice, b.gasPrice);
    MinimalInjective(a.gasLimit, b.gasLimit);
    MinimalInjective(Abs(a.value), Abs(b.value));
    if ea == eb {
      assert forall i :: 0 <= i < 9 ==> ea[i] == eb[i];
      assert ea[0] == eb[0] && ea[1] == eb[1] && ea[2] == eb[2] && ea[3] == eb[3];
      assert ea[4] == eb[4] && ea[5] == eb[5] && ea[6] == eb[6];
    }
  }

  /**
   A signed encoding is a preimage for chain c exactly when its fields agree, its v is c and its r and
   s are zero.
   */
  lemma SignedEqualsPreimage(tx: LegacyTx, sig: Signature, other: LegacyTx, chainId: nat)
    requires Encodable(SignedElems(tx, sig)) && Encodable(SigningElems(other, chainId))
    ensures EncodeSigned(tx, sig) == Preimage(other, chainId) <==>
            Fields(tx) == Fields(other) && sig == Signature(chainId, 0, 0)
  {
    var ea, eb := SignedElems(tx, sig), SigningElems(other, chainId);
    Injective(ea, eb);
    MinimalInjective(sig.v, chainId);
    MinimalInjective(sig.r, 0);
    MinimalInjective(sig.s, 0);
    assert Minimal(0) == [];
    if ea == eb {
      assert ea[..6] == eb[..6];
      assert ea[6] == eb[6] && ea[7] == eb[7] && ea[8] == eb[8];
    }
  }

  /** So for the chain id that was signed for, no broadcast can be taken for something to be signed. */
  lemma SignedIsNoPreimage(tx: LegacyTx, signature: Bytes, other: LegacyTx, chainId: nat)
    requires SigFromMpc(signature, chainId).Ok?
    requires Encodable(SignedElems(tx, SigFromMpc(signature, chainId).value))
    requires Encodable(SigningElems(other, chainId))
    ensures EncodeSigned(tx, SigFromMpc(signature, chainId).value) != Preimage(other, chainId)
  {
    SignedEqualsPreimage(tx, SigFromMpc(signature, chainId).value, other, chainId);
  }
}
