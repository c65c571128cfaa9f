/** Chains and withdrawal rows shared by the saga and its service. */
module Domain {
  import opened Prelude
  import opened Rlp

  datatype Chain = Ethereum | Polygon | Arbitrum | Base | Optimism | Solana | Bitcoin {
    predicate IsEvm() {
      Ethereum? || Polygon? || Arbitrum? || Base? || Optimism?
    }

    function Name(): string {
      match this
      case Ethereum => "ethereum"
      case Polygon => "polygon"
      case Arbitrum => "arbitrum"
      case Base => "base"
      case Optimism => "optimism"
      case Solana => "solana"
      case Bitcoin => "bitcoin"
    }
  }

  datatype RowState = Pending | Whitelisted | Signed | Broadcast | Confirmed | Failed {
    predicate Terminal() {
      Confirmed? || Failed?
    }
  }

  /** What the caller asked for; never changed after the row is created. */
  datatype Request = Request(walletId: Uuid, to: string, asset: string, amount: string)

  datatype Row = Row(
    req: Request, state: RowState, nonce: Option<int>, outpoints: seq<string>, signed: Bytes,
    decision: string, reason: string, txHash: string)

  /** The recorded nonce, or -1 when there is none. */
  function NoncePtr(row: Row): int {
    if row.nonce.None? then -1 else row.nonce.value
  }

  function DedupKey(req: Request): string {
    req.walletId + "|" + req.to + "|" + req.amount + "|" + req.asset
  }

  /** The policy engine's answer: an error, or a decision. */
  datatype Decision = Decision(approved: bool, reason: string, id: string)

  datatype PolicyAnswer = PolicyAnswer(failed: bool, decision: Option<Decision>)

  predicate Approves(a: PolicyAnswer) {
    !a.failed && a.decision.Some? && a.decision.value.approved
  }

  // ---------------------------------------------------------------- store writes on one row

  /** Empty texts leave the stored ones in place. */
  function Keep(new_: string, stored: string): string {
    if new_ != "" then new_ else stored
  }

  function WithState(row: Row, state: RowState, reason: string, txHash: string, decision: string): Row {
    row.(state := state, reason := Keep(reason, row.reason), txHash := Keep(txHash, row.txHash),
         decision := Keep(decision, row.decision))
  }

  function NewRow(req: Request): Row {
    Row(req, Pending, None, [], [], "", "", "")
  }
}
