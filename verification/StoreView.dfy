/**
 What a reader of the in-memory store sees: its twelve tables with every pointer followed, and what each of the
 store's operations does to them. Row types are generic in what stands for a pointer, so that the same type
 serves for rows as they are stored and for rows as they are seen.
 */
module StoreView {
  import opened Prelude
  import opened Rlp
  import Balances
  import Domain
  import KeyMappings
  import Nonces
  import Sequences

  // ---------------------------------------------------------------- rows

  // `I` stands for a pointer to a number or a time, `U` to a UUID, `S` and `B` for slices of texts and of bytes.

  datatype WalletOf<+I> = Wallet(
    chain: string, kind: string, name: string, state: string, keyId: string, custodian: string,
    rotationDays: I, rotationReceives: I)

  datatype Address = Address(
    wallet: Uuid, chain: string, address: string, path: string, index: int, change: int, state: string, receives: int)

  datatype Balance = Balance(
    wallet: Uuid, asset: string, confirmed: string, pending: string, locked: string, lastBlock: int)

  datatype OutpointOf<+I> = Outpoint(
    wallet: Uuid, value: string, script: string, confirmations: int, lock: string, lockedAt: I, spentAt: I,
    txHash: string)

  datatype WithdrawalOf<+I, +S, +B> = Withdrawal(
    wallet: Uuid, to: string, asset: string, amount: string, state: string, decision: string, reason: string,
    txHash: string, nonce: I, outpoints: S, signed: B)

  datatype MappingOf<+I> = Mapping(key: string, from: int, until: I, phase: KeyMappings.Phase)

  datatype Funding = Funding(wallet: Uuid, asset: string, amount: string, state: string, batch: string, reason: string)

  datatype EventOf<+I, +U, +B> = Event(
    id: Uuid, eventId: Uuid, wallet: U, kind: string, payload: B, seqNo: int, delivered: bool, attempts: int,
    deliveredAt: I)

  datatype RowOf<+I, +U, +S, +B> =
    | WalletRow(wallet: WalletOf<I>)
    | AddressRow(address: Address)
    | BalanceRow(balance: Balance)
    | OutpointRow(outpoint: OutpointOf<I>)
    | NonceRow(nonce: Nonces.Nonce)
    | WithdrawalRow(withdrawal: WithdrawalOf<I, S, B>)
    | MappingRow(mapping: MappingOf<I>)
    | FundingRow(funding: Funding)
    | EventRow(event: EventOf<I, U, B>)

  /** A row as it is seen. */
  type RowView = RowOf<Option<int>, Option<Uuid>, Option<seq<string>>, Option<Bytes>>

  type WalletView = WalletOf<Option<int>>
  type OutpointView = OutpointOf<Option<int>>
  type WithdrawalView = WithdrawalOf<Option<int>, Option<seq<string>>, Option<Bytes>>
  type EventView = EventOf<Option<int>, Option<Uuid>, Option<Bytes>>

  /** Which table a row belongs to and under what key; rows of a list carry their position. */
  datatype RowId =
    | WalletId(id: Uuid)
    | AddressId(id: Uuid)
    | BalanceId(key: string)
    | OutpointId(op: string)
    | NonceId(key: string)
    | WithdrawalId(id: Uuid)
    | MappingId(owner: Uuid, i: nat)
    | FundingId(id: Uuid)
    | EventId(i: nat)

  // ---------------------------------------------------------------- the tables

  datatype View = View(
    wallets: map<Uuid, WalletView>,
    addresses: map<Uuid, Address>,
    balances: map<string, Balance>,
    balanceEvents: set<string>,
    outpoints: map<string, OutpointView>,
    nonces: map<string, Nonces.Nonce>,
    withdrawals: map<Uuid, WithdrawalView>,
    keys: map<Uuid, seq<KeyMappings.Mapping>>,
    funding: map<Uuid, Funding>,
    events: seq<EventView>,
    auditSeq: map<Uuid, int>,
    inflight: set<string>)

  const EMPTY: View := View(map[], map[], map[], {}, map[], map[], map[], map[], map[], [], map[], {})

  function KeysOf(keys: map<Uuid, seq<KeyMappings.Mapping>>, wallet: Uuid): seq<KeyMappings.Mapping> {
    if wallet in keys then keys[wallet] else []
  }

  function AsRow(m: KeyMappings.Mapping): MappingOf<Option<int>> {
    Mapping(m.key, m.from, m.until, m.phase)
  }

  /** The row under an id, if there is one. */
  function At(v: View, k: RowId): Option<RowView> {
    match k
    case WalletId(id) => if id in v.wallets then Some(WalletRow(v.wallets[id])) else None
    case AddressId(id) => if id in v.addresses then Some(AddressRow(v.addresses[id])) else None
    case BalanceId(key) => if key in v.balances then Some(BalanceRow(v.balances[key])) else None
    case OutpointId(op) => if op in v.outpoints then Some(OutpointRow(v.outpoints[op])) else None
    case NonceId(key) => if key in v.nonces then Some(NonceRow(v.nonces[key])) else None
    case WithdrawalId(id) => if id in v.withdrawals then Some(WithdrawalRow(v.withdrawals[id])) else None
    case MappingId(w, i) =>
      if w in v.keys && i < |v.keys[w]| then Some(MappingRow(AsRow(v.keys[w][i]))) else None
    case FundingId(id) => if id in v.funding then Some(FundingRow(v.funding[id])) else None
    case EventId(i) => if i < |v.events| then Some(EventRow(v.events[i])) else None
  }

  // ---------------------------------------------------------------- operations

  datatype WalletOp = CreateWallet(id: Uuid, w: WalletView) | UpdateWalletState(id: Uuid, state: string)

  datatype AddressOp =
    | InsertAddress(id: Uuid, a: Address)
    | DeprecateAddress(id: Uuid)
    | IncrementReceiveCount(id: Uuid)

  datatype BalanceOp = UpsertBalance(b: Balance) | RecordBalanceEvent(key: string)

  datatype OutpointOp =
    | InsertOutpoint(op: string, u: OutpointView)
    | LockOutpoints(ops: seq<string>, now: int)
    | MarkSpent(ops: seq<string>, txHash: string, now: int)
    | RestoreOutpoints(ops: seq<string>)
    | PruneOutpoints(ops: seq<string>)

  datatype NonceOp =
    | UpsertNonce(key: string, n: Nonces.Nonce)
    | IncrementPending(key: string)
    | AdvanceBroadcast(key: string, nonce: int)
    | RollbackPending(key: string, to: int)

  datatype WithdrawalOp =
    | CreateWithdrawal(id: Uuid, w: WithdrawalView)
    | UpdateState(id: Uuid, state: string, reason: string, txHash: string, decision: string)
    | UpdateNonce(id: Uuid, n: int)
    | UpdateOutpoints(id: Uuid, ops: seq<string>)
    | UpdateSigned(id: Uuid, bytes: Bytes)

  datatype KeyOp =
    | BindKey(wallet: Uuid, m: KeyMappings.Mapping)
    | RotateKey(wallet: Uuid, key: string, now: int, cooling: int)
    | ExpireKeys(now: int)

  datatype FundingOp = CreateFunding(id: Uuid, f: Funding) | UpdateFunding(id: Uuid, state: string, batch: string)

  datatype AuditOp = AppendEvent(e: EventView) | MarkDelivered(id: Uuid, now: int) | NextSeq(wallet: Uuid)

  /** Every operation that changes the store, and the look at a row. */
  datatype Op =
    | OnWallet(wallet: WalletOp)
    | OnAddress(address: AddressOp)
    | OnBalance(balance: BalanceOp)
    | OnOutpoint(outpoint: OutpointOp)
    | OnNonce(nonce: NonceOp)
    | OnWithdrawal(withdrawal: WithdrawalOp)
    | OnKey(key: KeyOp)
    | OnFunding(funding: FundingOp)
    | OnAudit(audit: AuditOp)
    | Get(k: RowId)

  /** What a caller gets back. */
  datatype Reply = Done | Refused | Number(n: int) | Found(row: RowView)

  // What the operations do to a row, as stored or as seen.

  const ACTIVE := "ACTIVE"
  const DEPRECATED := "DEPRECATED"
  const FREE := "FREE"
  const LOCKED := "LOCKED"
  const SPENT := "SPENT"
  const REQUESTED := "REQUESTED"

  /** What happens to an outpoint: `at` is the time of the call. */
  datatype ChangeOf<+I> = Lock(at: I) | Spend(txHash: string, at: I) | Restore(none: I)

  function Changed<I>(u: OutpointOf<I>, c: ChangeOf<I>): OutpointOf<I> {
    match c
    case Lock(at) => u.(lock := LOCKED, lockedAt := at)
    case Spend(txHash, at) => u.(lock := SPENT, spentAt := at, txHash := txHash)
    case Restore(none) => u.(lock := FREE, spentAt := none, lockedAt := none, txHash := "")
  }

  function InState<I, S, B>(w: WithdrawalOf<I, S, B>, state: string, reason: string, txHash: string, decision: string)
    : WithdrawalOf<I, S, B>
  {
    w.(state := state, reason := Domain.Keep(reason, w.reason), txHash := Domain.Keep(txHash, w.txHash),
       decision := Domain.Keep(decision, w.decision))
  }

  function DedupKey<I, S, B>(w: WithdrawalOf<I, S, B>): string {
    Domain.DedupKey(Domain.Request(w.wallet, w.to, w.asset, w.amount))
  }

  predicate Terminal(state: string) {
    state == "CONFIRMED" || state == "FAILED"
  }

  function InFunding(f: Funding, state: string, batch: string): Funding {
    f.(state := state, batch := Domain.Keep(batch, f.batch))
  }

  function Delivered<I, U, B>(e: EventOf<I, U, B>, at: I): EventOf<I, U, B> {
    e.(delivered := true, attempts := e.attempts + 1, deliveredAt := at)
  }

  // What the operations do to the tables.

  ghost function DoWallet(v: View, op: WalletOp): (View, Reply) {
    match op
    case CreateWallet(id, w) => if id in v.wallets then (v, Refused) else (v.(wallets := v.wallets[id := w]), Done)
    case UpdateWalletState(id, state) =>
      if id !in v.wallets then (v, Refused)
      else (v.(wallets := v.wallets[id := v.wallets[id].(state := state)]), Done)
  }

  /** The wallet has an active address. */
  ghost predicate HasActive(addresses: map<Uuid, Address>, wallet: Uuid) {
    exists id :: id in addresses && addresses[id].wallet == wallet && addresses[id].state == ACTIVE
  }

  ghost function DoAddress(v: View, op: AddressOp): (View, Reply) {
    match op
    case InsertAddress(id, a) =>
      if id in v.addresses || (a.state == ACTIVE && HasActive(v.addresses, a.wallet)) then (v, Refused)
      else (v.(addresses := v.addresses[id := a]), Done)
    case DeprecateAddress(id) =>
      if id !in v.addresses then (v, Refused)
      else (v.(addresses := v.addresses[id := v.addresses[id].(state := DEPRECATED)]), Done)
    case IncrementReceiveCount(id) =>
      if id !in v.addresses then (v, Refused)
      else (v.(addresses := v.addresses[id := v.addresses[id].(receives := v.addresses[id].receives + 1)]), Done)
  }

  ghost function DoBalance(v: View, op: BalanceOp): (View, Reply) {
    match op
    case UpsertBalance(b) => (v.(balances := v.balances[Balances.BalanceKey(b.wallet, b.asset) := b]), Done)
    case RecordBalanceEvent(key) =>
      if key in v.balanceEvents then (v, Refused) else (v.(balanceEvents := v.balanceEvents + {key}), Done)
  }

  /** Rows are rewritten one by one up to the first outpoint the table lacks. */
  ghost function Rewritten(t: map<string, OutpointView>, ops: seq<string>, c: ChangeOf<Option<int>>)
    : (map<string, OutpointView>, bool)
  {
    if ops == [] then (t, true)
    else if ops[0] !in t then (t, false)
    else Rewritten(t[ops[0] := Changed(t[ops[0]], c)], ops[1..], c)
  }

  /**
   What a rewrite leaves: with `n` the number of outpoints ahead of the first one the table lacks, exactly those
   `n` rows are changed, and the rewrite fails exactly when there is such an outpoint. A failure takes nothing back.
   */
  lemma {:induction false} RewrittenIs(t: map<string, OutpointView>, ops: seq<string>, c: ChangeOf<Option<int>>, n: nat)
    requires n <= |ops| && (forall i :: 0 <= i < n ==> ops[i] in t) && (n < |ops| ==> ops[n] !in t)
    ensures Rewritten(t, ops, c).0 == (map o | o in t :: if o in ops[..n] then Changed(t[o], c) else t[o])
    ensures Rewritten(t, ops, c).1 <==> n == |ops|
  {
    if n == 0 {
      assert t == map o | o in t :: t[o];
    } else {
      var t' := t[ops[0] := Changed(t[ops[0]], c)];
      RewrittenIs(t', ops[1..], c, n - 1);
      assert ops[..n] == [ops[0]] + ops[1..][..n - 1];
    }
  }

  function Named(ops: seq<string>): set<string> {
    set o | o in ops
  }

  predicate AllFree(t: map<string, OutpointView>, ops: seq<string>) {
    forall i :: 0 <= i < |ops| ==> ops[i] in t && t[ops[i]].lock == FREE
  }

  ghost function WithOutpoints(v: View, r: (map<string, OutpointView>, bool)): (View, Reply) {
    (v.(outpoints := r.0), if r.1 then Done else Refused)
  }

  ghost function DoOutpoint(v: View, op: OutpointOp): (View, Reply) {
    match op
    case InsertOutpoint(o, u) => if o in v.outpoints then (v, Refused) else (v.(outpoints := v.outpoints[o := u]), Done)
    case LockOutpoints(ops, now) =>
      if !AllFree(v.outpoints, ops) then (v, Refused)
      else WithOutpoints(v, Rewritten(v.outpoints, ops, Lock(Some(now))))
    case MarkSpent(ops, txHash, now) => WithOutpoints(v, Rewritten(v.outpoints, ops, Spend(txHash, Some(now))))
    case RestoreOutpoints(ops) => WithOutpoints(v, Rewritten(v.outpoints, ops, Restore(None)))
    case PruneOutpoints(ops) => (v.(outpoints := v.outpoints - Named(ops)), Done)
  }

  ghost function DoNonce(v: View, op: NonceOp): (View, Reply) {
    match op
    case UpsertNonce(key, n) => (v.(nonces := v.nonces[key := n]), Done)
    case IncrementPending(key) =>
      (v.(nonces := Nonces.Increment(v.nonces, key)), Number(Nonces.Row(v.nonces, key).pending))
    case AdvanceBroadcast(key, n) => (v.(nonces := Nonces.Advance(v.nonces, key, n)), Done)
    case RollbackPending(key, to) =>
      (v.(nonces := Nonces.Rollback(v.nonces, key, to)),
       Number(if key in v.nonces && v.nonces[key].pending == to + 1 then 1 else 0))
  }

  ghost function WithWithdrawal(v: View, id: Uuid, w: WithdrawalView): View {
    v.(withdrawals := v.withdrawals[id := w])
  }

  ghost function DoWithdrawal(v: View, op: WithdrawalOp): (View, Reply) {
    match op
    case CreateWithdrawal(id, w) =>
      if id in v.withdrawals || DedupKey(w) in v.inflight then (v, Refused)
      else (WithWithdrawal(v, id, w).(inflight := v.inflight + {DedupKey(w)}), Done)
    case UpdateState(id, state, reason, txHash, decision) =>
      if id !in v.withdrawals then (v, Refused)
      else (WithWithdrawal(v, id, InState(v.withdrawals[id], state, reason, txHash, decision))
            .(inflight := if Terminal(state) then v.inflight - {DedupKey(v.withdrawals[id])} else v.inflight), Done)
    case UpdateNonce(id, n) =>
      if id !in v.withdrawals then (v, Refused)
      else (WithWithdrawal(v, id, v.withdrawals[id].(nonce := Some(n))), Done)
    case UpdateOutpoints(id, ops) =>
      if id !in v.withdrawals then (v, Refused)
      else (WithWithdrawal(v, id, v.withdrawals[id].(outpoints := Some(ops))), Done)
    case UpdateSigned(id, bytes) =>
      if id !in v.withdrawals then (v, Refused)
      else (WithWithdrawal(v, id, v.withdrawals[id].(signed := Some(bytes))), Done)
  }

  ghost function WithKeys(v: View, w: Uuid, ms: seq<KeyMappings.Mapping>): View {
    v.(keys := v.keys[w := ms])
  }

  ghost function ExpiredAll(keys: map<Uuid, seq<KeyMappings.Mapping>>, now: int): map<Uuid, seq<KeyMappings.Mapping>> {
    map w | w in keys :: KeyMappings.Expired(keys[w], now)
  }

  ghost function DoKey(v: View, op: KeyOp): (View, Reply) {
    match op
    case BindKey(w, m) =>
      if m.phase.Current? && KeyMappings.HasCurrent(KeysOf(v.keys, w)) then (v, Refused)
      else (WithKeys(v, w, KeysOf(v.keys, w) + [m]), Done)
    case RotateKey(w, key, now, cooling) =>
      (WithKeys(v, w, KeyMappings.Rotated(KeysOf(v.keys, w), key, now, cooling)), Done)
    case ExpireKeys(now) => (v.(keys := ExpiredAll(v.keys, now)), Done)
  }

  predicate OpenRequest(funding: map<Uuid, Funding>, id: Uuid, wallet: Uuid, asset: string) {
    id in funding && funding[id].wallet == wallet && funding[id].asset == asset && funding[id].state == REQUESTED
  }

  /** The wallet has an open request for the asset. */
  ghost predicate HasOpen(funding: map<Uuid, Funding>, wallet: Uuid, asset: string) {
    exists id :: OpenRequest(funding, id, wallet, asset)
  }

  ghost function DoFunding(v: View, op: FundingOp): (View, Reply) {
    match op
    case CreateFunding(id, f) =>
      if HasOpen(v.funding, f.wallet, f.asset) then (v, Refused) else (v.(funding := v.funding[id := f]), Done)
    case UpdateFunding(id, state, batch) =>
      if id !in v.funding then (v, Refused)
      else (v.(funding := v.funding[id := InFunding(v.funding[id], state, batch)]), Done)
  }

  /** No wallet has two open requests for one asset. */
  ghost predicate OneOpen(funding: map<Uuid, Funding>) {
    forall x, y, wallet, asset ::
      OpenRequest(funding, x, wallet, asset) && OpenRequest(funding, y, wallet, asset) ==> x == y
  }

  /** The operation sets a closed request back to open while its wallet has another open one for the asset. */
  ghost predicate Reopens(funding: map<Uuid, Funding>, op: FundingOp) {
    op.UpdateFunding? && op.id in funding && op.state == REQUESTED
    && exists x :: x != op.id && OpenRequest(funding, x, funding[op.id].wallet, funding[op.id].asset)
  }

  /** Open requests stay unique through an operation exactly when it does not reopen one beside another. */
  lemma OneOpenIff(v: View, op: FundingOp)
    requires OneOpen(v.funding)
    ensures OneOpen(DoFunding(v, op).0.funding) <==> !Reopens(v.funding, op)
  {
    var t, t' := v.funding, DoFunding(v, op).0.funding;
    if Reopens(t, op) {
      var f := t[op.id];
      var x :| x != op.id && OpenRequest(t, x, f.wallet, f.asset);
      assert OpenRequest(t', x, f.wallet, f.asset) && OpenRequest(t', op.id, f.wallet, f.asset);
    } else {
      forall x, y, wallet, asset | OpenRequest(t', x, wallet, asset) && OpenRequest(t', y, wallet, asset)
        ensures x == y
      {
        assert x != op.id ==> OpenRequest(t, x, wallet, asset);
        assert y != op.id ==> OpenRequest(t, y, wallet, asset);
      }
    }
  }

  predicate HasEvent(events: seq<EventView>, eventId: Uuid) {
    exists i :: 0 <= i < |events| && events[i].eventId == eventId
  }

  /** Position of the first row with this id, or the length of the list. */
  ghost function FirstWith(events: seq<EventView>, id: Uuid): (i: nat)
    ensures i <= |events| && (i < |events| ==> events[i].id == id)
    ensures forall j :: 0 <= j < i ==> events[j].id != id
  {
    Sequences.FirstIndex(events, (e: EventView) => e.id == id)
  }

  function SeqOf(auditSeq: map<Uuid, int>, w: Uuid): int {
    if w in auditSeq then auditSeq[w] else 0
  }

  ghost function DoAudit(v: View, op: AuditOp): (View, Reply) {
    match op
    case AppendEvent(e) => if HasEvent(v.events, e.eventId) then (v, Refused) else (v.(events := v.events + [e]), Done)
    case MarkDelivered(id, now) =>
      var i := FirstWith(v.events, id);
      if i == |v.events| then (v, Refused)
      else (v.(events := v.events[i := Delivered(v.events[i], Some(now))]), Done)
    case NextSeq(w) =>
      (v.(auditSeq := v.auditSeq[w := SeqOf(v.auditSeq, w) + 1]), Number(SeqOf(v.auditSeq, w) + 1))
  }

  /** The effect of one operation on the tables, and the caller's reply. */
  ghost function Do(v: View, op: Op): (View, Reply) {
    match op
    case OnWallet(o) => DoWallet(v, o)
    case OnAddress(o) => DoAddress(v, o)
    case OnBalance(o) => DoBalance(v, o)
    case OnOutpoint(o) => DoOutpoint(v, o)
    case OnNonce(o) => DoNonce(v, o)
    case OnWithdrawal(o) => DoWithdrawal(v, o)
    case OnKey(o) => DoKey(v, o)
    case OnFunding(o) => DoFunding(v, o)
    case OnAudit(o) => DoAudit(v, o)
    case Get(k) => (v, match At(v, k) case None => Refused case Some(row) => Found(row))
  }
}
