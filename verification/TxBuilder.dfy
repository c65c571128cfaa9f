/**
 The transaction builder as the saga uses it. EVM transactions are built and assembled in full; the BTC
 and Solana serialisers are parameters.
 */
module TxBuilder {
  import opened Prelude
  import opened Rlp
  import opened Domain
  import Eip155
  import EvmAddress
  import Saga

  datatype Config = Config(
    chainId: nat,
    gasPrice: nat,
    parseInt: string -> Option<int>,
    parseDec: string -> Option<int>,
    keccak: Bytes -> Bytes,
    btcPayload: (Request, seq<string>) -> Option<Bytes>,
    btcAssemble: (Request, seq<string>, Bytes) -> Option<Bytes>,
    solPayload: Request -> Option<Bytes>,
    solAssemble: (Request, Bytes) -> Option<Bytes>)

  const GAS_LIMIT: nat := 21000

  /** The legacy transfer of a request; a missing nonce counts as zero. */
  function EvmTx(cfg: Config, req: Request, n: int): Option<Eip155.LegacyTx> {
    var to := EvmAddress.ParsedAddress(req.to);
    var value := cfg.parseInt(req.amount);
    if to.None? || value.None? then None
    else Some(Eip155.LegacyTx(if n < 0 then 0 else n, cfg.gasPrice, GAS_LIMIT, to.value, value.value, []))
  }

  /** What the signer is asked to sign. */
  function BuildEvm(cfg: Config, req: Request, n: int): Option<Bytes> {
    match EvmTx(cfg, req, n)
    case None => None
    case Some(tx) =>
      if Encodable(Eip155.SigningElems(tx, cfg.chainId)) then Some(cfg.keccak(Eip155.Preimage(tx, cfg.chainId)))
      else None
  }

  function AssembleEvm(cfg: Config, req: Request, n: int, sig: Bytes): Option<Bytes> {
    match (EvmTx(cfg, req, n), Eip155.SigFromMpc(sig, cfg.chainId))
    case (Some(tx), Ok(rsv)) =>
      if Encodable(Eip155.SignedElems(tx, rsv)) then Some(Eip155.EncodeSigned(tx, rsv)) else None
    case (_, _) => None
  }

  function Build(cfg: Config, chain: Chain, req: Request, n: int, ops: seq<string>): Option<Bytes> {
    if chain.IsEvm() then BuildEvm(cfg, req, n)
    else if chain.Bitcoin? then (if ops == [] then None else cfg.btcPayload(req, ops))
    else cfg.solPayload(req)
  }

  function Assemble(cfg: Config, chain: Chain, req: Request, n: int, ops: seq<string>, sig: Bytes): Option<Bytes> {
    if chain.IsEvm() then AssembleEvm(cfg, req, n, sig)
    else if chain.Bitcoin? then cfg.btcAssemble(req, ops, sig)
    else cfg.solAssemble(req, sig)
  }

  /** The saga's surroundings with this builder plugged in. */
  function ServiceEnv(wallets: map<Uuid, Chain>, cfg: Config): Saga.Env {
    Saga.Env(
      wallets, cfg.parseDec,
      (req: Request, n: int, ops: seq<string>) =>
        if req.walletId in wallets then Build(cfg, wallets[req.walletId], req, n, ops) else None,
      (req: Request, n: int, ops: seq<string>, sig: Bytes) =>
        if req.walletId in wallets then Assemble(cfg, wallets[req.walletId], req, n, ops, sig) else None)
  }

  /** The nonce a node reads from an assembled EVM transaction is the reserved one, or zero where there is none. */
  lemma AssembledNonce(cfg: Config, req: Request, n: int, sig: Bytes)
    requires AssembleEvm(cfg, req, n, sig).Some?
    ensures n >= 0 ==> Eip155.DecodedNonce(AssembleEvm(cfg, req, n, sig).value) == Some(n)
    ensures n < 0 ==> Eip155.DecodedNonce(AssembleEvm(cfg, req, n, sig).value) == Some(0)
  {
    Eip155.DecodesToSigned(EvmTx(cfg, req, n).value, Eip155.SigFromMpc(sig, cfg.chainId).value);
  }

  /** The bytes are a transfer of `value` to the address that `to` spells, at the configured gas price, with no data. */
  predicate Pays(bytes: Bytes, gasPrice: nat, to: string, value: int) {
    match DecodeList(bytes)
    case None => false
    case Some(e) =>
      && |e| == 9 && Value(e[1]) == gasPrice && Value(e[2]) == 21000
      && EvmAddress.Spells(EvmAddress.TrimSpace(to), e[3])
      && (Value(e[4]) == value || Value(e[4]) == -value) && e[5] == []
  }

  /** An assembled EVM transaction pays the amount of its request to the address of its request. */
  lemma AssembledPays(cfg: Config, req: Request, n: int, sig: Bytes)
    requires AssembleEvm(cfg, req, n, sig).Some?
    ensures cfg.parseInt(req.amount).Some?
    ensures Pays(AssembleEvm(cfg, req, n, sig).value, cfg.gasPrice, req.to, cfg.parseInt(req.amount).value)
  {
    var tx, rsv := EvmTx(cfg, req, n).value, Eip155.SigFromMpc(sig, cfg.chainId).value;
    RoundTrip(Eip155.SignedElems(tx, rsv));
    Eip155.FieldsRead(tx, [Minimal(rsv.v), Minimal(rsv.r), Minimal(rsv.s)]);
  }

  /**
   What is broadcast is what was signed: from the assembled bytes alone, with (chainId, 0, 0) in place of
   (v, r, s), one obtains the preimage whose hash was the signer's payload.
   */
  lemma PayloadFromBytes(cfg: Config, req: Request, n: int, sig: Bytes)
    requires BuildEvm(cfg, req, n).Some? && AssembleEvm(cfg, req, n, sig).Some?
    ensures var bytes := AssembleEvm(cfg, req, n, sig).value;
            DecodeList(bytes).Some? && |DecodeList(bytes).value| == 9
            && var resigned := DecodeList(bytes).value[..6] + [Minimal(cfg.chainId), [], []];
            Encodable(resigned) && BuildEvm(cfg, req, n) == Some(cfg.keccak(EncodeList(resigned)))
  {
    Eip155.BroadcastIsWhatWasSigned(EvmTx(cfg, req, n).value, cfg.chainId, sig);
  }
}
