/**
 The balance service over the in-memory store: its four calls as transactions on stored decimal texts. Over every
 run, interleaved with whatever else the store is used for, the stored texts read as the ledger does, and so as the
 sums over the history of confirmation events.
 */
module StoredBalances {
  import opened Prelude
  import opened DecimalText
  import opened StoreView
  import opened TxBodies
  import Balances
  import TxStore

  /** A call of the service; a confirmation comes with its amount as a text. Anything else the store is asked to do. */
  datatype Call =
    | Confirm(e: Balances.Event, amount: string, rowId: Uuid, eventId: Uuid, payload: seq<byte>)
    | Reorg(wallet: Uuid, asset: string)
    | Lock(wallet: Uuid, asset: string, amount: string)
    | Release(wallet: Uuid, asset: string, amount: string)
    | Other(op: Op)

  /** The event with its amount read. */
  function ReadEvent(c: Codec, call: Call): Balances.Event
    requires call.Confirm?
  {
    call.e.(amount := c.parse(call.amount))
  }

  /** Balances are left to the service's calls. */
  predicate Proper(call: Call) {
    call.Other? ==> !call.op.OnBalance?
  }

  /** The transaction of a call, after a confirmation has been recorded. */
  function BodyOf(cfg: Balances.Config, c: Codec, call: Call): Body
    requires !call.Other?
  {
    match call
    case Confirm(_, _, rowId, eventId, payload) => Confirmation(cfg, c, ReadEvent(c, call), rowId, eventId, payload)
    case Reorg(w, asset) => Demotion(c, w, asset)
    case Lock(w, asset, amount) => AddLocked(c, w, asset, amount)
    case Release(w, asset, amount) => ReleaseLocked(c, w, asset, amount)
  }

  /** The tables after a call. */
  ghost function Served(cfg: Balances.Config, c: Codec, v: View, call: Call): View {
    if call.Other? then Do(v, call.op).0
    else if call.Confirm? then
      var (v', r) := DoBalance(v, RecordBalanceEvent(Balances.EventKey(ReadEvent(c, call))));
      if r.Refused? then v' else Atomic(v', [], BodyOf(cfg, c, call)).view
    else Atomic(v, [], BodyOf(cfg, c, call)).view
  }

  ghost function After(cfg: Balances.Config, c: Codec, run: seq<Call>): View {
    if run == [] then EMPTY else Served(cfg, c, After(cfg, c, run[..|run| - 1]), run[|run| - 1])
  }

  // ---------------------------------------------------------------- the ledger of a run

  /** What a call is to the ledger. */
  function OpOf(c: Codec, call: Call): Balances.Op
    requires !call.Other?
  {
    match call
    case Confirm(_, _, _, _, _) =>
      Balances.Confirm(Balances.Keyed(Balances.EventKey(ReadEvent(c, call)), ReadEvent(c, call)))
    case Reorg(w, asset) => Balances.Reorg(w, asset)
    case Lock(w, asset, amount) => Balances.AddLocked(w, asset, c.parse(amount))
    case Release(w, asset, amount) => Balances.ReleaseLocked(w, asset, c.parse(amount))
  }

  function OpsOf(c: Codec, run: seq<Call>): seq<Balances.Op> {
    if run == [] then []
    else OpsOf(c, run[..|run| - 1]) + (if run[|run| - 1].Other? then [] else [OpOf(c, run[|run| - 1])])
  }

  /** A call does to the stored texts what the ledger does to its numbers. */
  lemma ServedIsStep(cfg: Balances.Config, c: Codec, v: View, call: Call)
    requires Exact(c) && !call.Other?
    ensures Ledger(c, Served(cfg, c, v, call)) == Balances.Step(cfg, Ledger(c, v), OpOf(c, call))
  {
    match call
    case Confirm(_, _, rowId, eventId, payload) =>
      ConfirmationIsStep(cfg, c, v, ReadEvent(c, call), rowId, eventId, payload);
    case Reorg(w, asset) => DemotionIsStep(cfg, c, v, w, asset);
    case Lock(w, asset, amount) => AddLockedIsStep(cfg, c, v, w, asset, amount);
    case Release(w, asset, amount) => ReleaseLockedIsStep(cfg, c, v, w, asset, amount);
  }

  ghost predicate SameBalances(v: View, v': View) {
    v'.balances == v.balances && v'.balanceEvents == v.balanceEvents
  }

  lemma WalletsAside(v: View, op: WalletOp)
    ensures SameBalances(v, DoWallet(v, op).0)
  {
  }

  lemma AddressesAside(v: View, op: AddressOp)
    ensures SameBalances(v, DoAddress(v, op).0)
  {
  }

  lemma OutpointsAside(v: View, op: OutpointOp)
    ensures SameBalances(v, DoOutpoint(v, op).0)
  {
  }

  lemma NoncesAside(v: View, op: NonceOp)
    ensures SameBalances(v, DoNonce(v, op).0)
  {
  }

  lemma WithdrawalsAside(v: View, op: WithdrawalOp)
    ensures SameBalances(v, DoWithdrawal(v, op).0)
  {
  }

  lemma KeysAside(v: View, op: KeyOp)
    ensures SameBalances(v, DoKey(v, op).0)
  {
  }

  lemma FundingAside(v: View, op: FundingOp)
    ensures SameBalances(v, DoFunding(v, op).0)
  {
  }

  lemma AuditAside(v: View, op: AuditOp)
    ensures SameBalances(v, DoAudit(v, op).0)
  {
  }

  /** Only balance operations touch balances and recorded events. */
  lemma BalancesStay(v: View, v': View, op: Op)
    requires !op.OnBalance? && v' == Do(v, op).0
    ensures SameBalances(v, v')
  {
    match op
    case OnWallet(o) => WalletsAside(v, o);
    case OnAddress(o) => AddressesAside(v, o);
    case OnOutpoint(o) => OutpointsAside(v, o);
    case OnNonce(o) => NoncesAside(v, o);
    case OnWithdrawal(o) => WithdrawalsAside(v, o);
    case OnKey(o) => KeysAside(v, o);
    case OnFunding(o) => FundingAside(v, o);
    case OnAudit(o) => AuditAside(v, o);
    case Get(_) =>
  }

  /** Over every run the stored texts read as the ledger of its calls. */
  lemma {:induction false} StoredIsLedger(cfg: Balances.Config, c: Codec, run: seq<Call>)
    requires Exact(c) && forall i :: 0 <= i < |run| ==> Proper(run[i])
    ensures Ledger(c, After(cfg, c, run)) == Balances.After(cfg, OpsOf(c, run))
  {
    if run == [] {
      assert Ledger(c, EMPTY) == Balances.EMPTY;
    } else {
      var before, call := run[..|run| - 1], run[|run| - 1];
      StoredIsLedger(cfg, c, before);
      if call.Other? {
        BalancesStay(After(cfg, c, before), After(cfg, c, run), call.op);
        assert OpsOf(c, run) == OpsOf(c, before);
      } else {
        ServedIsStep(cfg, c, After(cfg, c, before), call);
        var ops := OpsOf(c, run);
        assert ops[..|ops| - 1] == OpsOf(c, before) && ops[|ops| - 1] == OpOf(c, call);
      }
    }
  }

  /** The stored balance of a wallet and an asset with its texts read; zero if there is none. */
  ghost function Stored(c: Codec, v: View, w: Uuid, asset: string): Balances.Balance {
    Balances.Held(Ledger(c, v), w, asset)
  }

  /**
   Over every run of the service, interleaved with other uses of the store: read back, the stored confirmed and
   pending texts add up to the sum over the distinct events, the confirmed text is the threshold-passing part since
   the last reorg, and the stored block is the largest height.
   */
  lemma {:induction false} StoredIsHistory(cfg: Balances.Config, c: Codec, run: seq<Call>, w: Uuid, asset: string)
    requires Exact(c) && forall i :: 0 <= i < |run| ==> Proper(run[i])
    ensures var b, ops := Stored(c, After(cfg, c, run), w, asset), OpsOf(c, run);
            && b.confirmed + b.pending == Balances.Sum(Balances.Distinct(ops), Balances.Amount(w, asset))
            && b.confirmed == Balances.Sum(Balances.SinceReorg(cfg, ops, w, asset), Balances.Amount(w, asset))
            && b.last == Balances.MaxHeight(Balances.Distinct(ops), w, asset)
  {
    StoredIsLedger(cfg, c, run);
    Balances.LedgerIsHistory(cfg, OpsOf(c, run), w, asset);
  }

  // ---------------------------------------------------------------- the service on the heap

  class Service {
    const cfg: Balances.Config
    const codec: Codec
    const store: TxStore.Store

    constructor (cfg: Balances.Config, codec: Codec, store: TxStore.Store)
      ensures this.cfg == cfg && this.codec == codec && this.store == store
    {
      this.cfg, this.codec, this.store := cfg, codec, store;
    }

    /** One transaction: the tables are those after the call, and its error is the body's. */
    method Transact(call: Call) returns (ok: bool)
      requires store.Valid() && store.depth == 0 && !call.Other?
      modifies store, store.rows.Repr()
      ensures store.Valid() && store.depth == 0 && fresh(store.rows.Repr() - old(store.rows.Repr()))
      ensures Atomic(old(store.rows.view), [], BodyOf(cfg, codec, call)).view == store.rows.view
      ensures Atomic(old(store.rows.view), [], BodyOf(cfg, codec, call)).ok == ok
    {
      var replies;
      replies, ok := store.InTx(BodyOf(cfg, codec, call), []);
    }

    /** A recorded event is no error and changes nothing; a new one is recorded and credited. */
    method ApplyConfirmationEvent(call: Call) returns (ok: bool)
      requires store.Valid() && store.depth == 0 && call.Confirm?
      modifies store, store.rows.Repr()
      ensures store.Valid() && store.depth == 0 && ok
      ensures store.rows.view == Served(cfg, codec, old(store.rows.view), call)
    {
      var r := store.RecordBalanceEvent(Balances.EventKey(ReadEvent(codec, call)));
      if r.Refused? {
        return true;
      }
      ConfirmationEffect(cfg, codec, store.rows.view, ReadEvent(codec, call), call.rowId, call.eventId, call.payload);
      ok := Transact(call);
    }

    /** Reorgs, locks and releases. */
    method Apply(call: Call) returns (ok: bool)
      requires store.Valid() && store.depth == 0 && !call.Other? && !call.Confirm?
      modifies store, store.rows.Repr()
      ensures store.Valid() && store.depth == 0
      ensures store.rows.view == Served(cfg, codec, old(store.rows.view), call)
      ensures ok == Atomic(old(store.rows.view), [], BodyOf(cfg, codec, call)).ok
    {
      ok := Transact(call);
    }
  }
}
