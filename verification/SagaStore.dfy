/**
 The saga over the in-memory store. Every step of the saga is at most one operation on each of the store's nonce,
 outpoint and withdrawal tables; after every run the stored rows, with their texts for states, locks and values, are
 the tables the saga's theorems speak about.
 */
module SagaStore {
  import opened Prelude
  import opened Rlp
  import opened Domain
  import opened Saga
  import Nonces
  import SagaRecord
  import SagaTheorems
  import StoreView
  import Utxos

  // ---------------------------------------------------------------- what the stored rows say

  function LockText(lock: Utxos.LockState): string {
    match lock
    case Free => "FREE"
    case Locked => "LOCKED"
    case Spent => "SPENT"
  }

  function StateText(state: RowState): string {
    match state
    case Pending => "PENDING"
    case Whitelisted => "WHITELISTED"
    case Signed => "SIGNED"
    case Broadcast => "BROADCAST"
    case Confirmed => "CONFIRMED"
    case Failed => "FAILED"
  }

  /** How values are written as texts and read from them. */
  datatype Values = Values(text: int -> string, read: string -> int) {
    ghost predicate Faithful() {
      forall n :: read(text(n)) == n
    }
  }

  /** A free outpoint has no time stamp, a locked one that of its lock, a spent one that of its spending. */
  predicate Stamped(u: StoreView.OutpointView) {
    && (u.lock == "FREE" ==> u.lockedAt.None? && u.spentAt.None?)
    && (u.lock == "LOCKED" ==> u.lockedAt.Some?) && (u.lock == "SPENT" ==> u.spentAt.Some?)
  }

  predicate SeesOutpoint(c: Values, u: StoreView.OutpointView, o: Utxos.Utxo) {
    && o.walletId == u.wallet && o.value == c.read(u.value) && LockText(o.lock) == u.lock && o.txHash == u.txHash
    && Stamped(u)
  }

  ghost predicate SeesOutpoints(c: Values, t: map<string, StoreView.OutpointView>, u: Utxos.Table) {
    t.Keys == u.Keys && forall op :: op in t ==> SeesOutpoint(c, t[op], u[op])
  }

  function Listed<T>(o: Option<seq<T>>): seq<T> {
    if o.None? then [] else o.value
  }

  predicate SeesRow(w: StoreView.WithdrawalView, row: Row) {
    && row.req == Request(w.wallet, w.to, w.asset, w.amount) && StateText(row.state) == w.state
    && row.nonce == w.nonce && row.outpoints == Listed(w.outpoints) && row.signed == Listed(w.signed)
    && row.decision == w.decision && row.reason == w.reason && row.txHash == w.txHash
  }

  ghost predicate SeesRows(t: map<Uuid, StoreView.WithdrawalView>, wd: map<Uuid, Withdrawal>) {
    t.Keys == wd.Keys && forall id :: id in t ==> SeesRow(t[id], wd[id].row)
  }

  /** The store holds the tables of the saga's state. */
  ghost predicate Sees(c: Values, v: StoreView.View, s: State) {
    && v.nonces == s.nonces && SeesOutpoints(c, v.outpoints, s.utxos)
    && SeesRows(v.withdrawals, s.wd) && v.inflight == s.inflight
  }

  // ---------------------------------------------------------------- what a step asks of the store

  function NonceWrite(key: string, w: Withdrawal, chain: Chain, act: Act, seen: Seen): Option<StoreView.NonceOp> {
    match act
    case CsReserve => Some(StoreView.IncrementPending(key))
    case CsGiveUp => if chain.Bitcoin? then Some(StoreView.RollbackPending(key, -1)) else None
    case CsLock(_, _) => if seen.lockOk then None else Some(StoreView.RollbackPending(key, -1))
    case UndoNonce =>
      if w.pc.Undo? && w.pc.n >= 0 && chain.IsEvm() then Some(StoreView.RollbackPending(key, w.pc.n)) else None
    case Fail(_) =>
      if NoncePtr(w.row) >= 0 && chain.IsEvm() then Some(StoreView.RollbackPending(key, NoncePtr(w.row))) else None
    case BcCommitNonce =>
      if chain.IsEvm() && w.row.nonce.Some? then Some(StoreView.AdvanceBroadcast(key, w.row.nonce.value)) else None
    case _ => None
  }

  /** `now` is the time of the call. */
  function OutpointWrite(w: Withdrawal, chain: Chain, act: Act, now: int): Option<StoreView.OutpointOp> {
    match act
    case CsLock(order, k) => if k > |order| then None else Some(StoreView.LockOutpoints(order[..k], now))
    case UndoOutpoints => if w.pc.UndoOps? then Some(StoreView.RestoreOutpoints(w.pc.ops)) else None
    case BcMarkSpent =>
      if w.pc.BcSpend? && chain.Bitcoin? then Some(StoreView.MarkSpent(w.pc.ops, w.pc.txHash, now)) else None
    case Reorg(ops) => Some(StoreView.RestoreOutpoints(ops))
    case _ => None
  }

  /** What a step writes into the withdrawal's row. */
  datatype RowWrite =
    | Nothing
    | SetState(state: RowState, reason: string, txHash: string, decision: string)
    | SetNonce(n: int)
    | SetOutpoints(ops: seq<string>)
    | SetSigned(bytes: Bytes)

  function RowWriteOf(w: Withdrawal, act: Act, seen: Seen): RowWrite {
    match act
    case Approve(a) =>
      if Approves(a) then RowWrite.SetState(Whitelisted, "", "", a.decision.value.id) else Nothing
    case Reject(reason, decision) => RowWrite.SetState(RowState.Failed, reason, "", decision)
    case CsRecordNonce => if w.pc.CsNonce? then SetNonce(w.pc.n) else Nothing
    case CsRecordOutpoints => if w.pc.CsLocked? then SetOutpoints(w.pc.ops) else Nothing
    case CsPersist => if w.pc.CsAssembled? then SetSigned(w.pc.bytes) else Nothing
    case CsFinish => RowWrite.SetState(Signed, "", "", "")
    case RecordFailure =>
      if w.pc.MarkFailed? then RowWrite.SetState(RowState.Failed, w.pc.reason, "", "") else Nothing
    case BcFinish => if w.pc.BcDone? then RowWrite.SetState(RowState.Broadcast, "", w.pc.txHash, "") else Nothing
    case Confirm(txHash) => RowWrite.SetState(Confirmed, "", txHash, "")
    case Reorg(_) =>
      if seen.allKnown && w.row.state.Confirmed? then RowWrite.SetState(RowState.Broadcast, "reorg", "", "")
      else Nothing
    case _ => Nothing
  }

  /** The row after the write, and the keys in flight. */
  function RowAfter(row: Row, wr: RowWrite): Row {
    match wr
    case Nothing => row
    case SetState(state, reason, txHash, decision) => WithState(row, state, reason, txHash, decision)
    case SetNonce(n) => row.(nonce := Some(n))
    case SetOutpoints(ops) => row.(outpoints := ops)
    case SetSigned(bytes) => row.(signed := bytes)
  }

  function KeysAfter(keys: set<string>, row: Row, wr: RowWrite): set<string> {
    if wr.SetState? && wr.state.Terminal() then keys - {DedupKey(row.req)} else keys
  }

  /** The store's operation for the write. */
  ghost function AfterRow(v: StoreView.View, id: Uuid, wr: RowWrite): StoreView.View {
    match wr
    case Nothing => v
    case SetState(state, reason, txHash, decision) =>
      StoreView.DoWithdrawal(v, StoreView.UpdateState(id, StateText(state), reason, txHash, decision)).0
    case SetNonce(n) => StoreView.DoWithdrawal(v, StoreView.UpdateNonce(id, n)).0
    case SetOutpoints(ops) => StoreView.DoWithdrawal(v, StoreView.UpdateOutpoints(id, ops)).0
    case SetSigned(bytes) => StoreView.DoWithdrawal(v, StoreView.UpdateSigned(id, bytes)).0
  }

  ghost function AfterNonce(v: StoreView.View, op: Option<StoreView.NonceOp>): StoreView.View {
    if op.None? then v else StoreView.DoNonce(v, op.value).0
  }

  ghost function AfterOutpoint(v: StoreView.View, op: Option<StoreView.OutpointOp>): StoreView.View {
    if op.None? then v else StoreView.DoOutpoint(v, op.value).0
  }

  function NewWithdrawal(req: Request): StoreView.WithdrawalView {
    StoreView.Withdrawal(req.walletId, req.to, req.asset, req.amount, "PENDING", "", "", "", None, None, None)
  }

  /** The store after a step; `now` is the time of the call. */
  ghost function Written(env: Env, c: Values, v: StoreView.View, s: State, st: Step, now: int): StoreView.View {
    match st
    case On(id, act) =>
      if id !in s.wd || s.wd[id].row.req.walletId !in env.wallets then v
      else
        var w := s.wd[id];
        var chain, key, seen := env.wallets[w.row.req.walletId], NonceKey(env, w.row.req), Observe(env, s, w, act);
        AfterRow(AfterOutpoint(AfterNonce(v, NonceWrite(key, w, chain, act, seen)), OutpointWrite(w, chain, act, now)),
                 id, RowWriteOf(w, act, seen))
    case Create(id, req) => StoreView.DoWithdrawal(v, StoreView.CreateWithdrawal(id, NewWithdrawal(req))).0
    case ReserveOutside(walletId, chain) =>
      AfterNonce(v, Some(StoreView.IncrementPending(Nonces.Key(walletId, chain))))
    case RestoreOutpoints(ops) => AfterOutpoint(v, Some(StoreView.RestoreOutpoints(ops)))
    case Track(op, walletId, value) =>
      var u := StoreView.Outpoint(walletId, c.text(value), "", 0, "FREE", None, None, "");
      AfterOutpoint(v, Some(StoreView.InsertOutpoint(op, u)))
  }

  /** The store after a run that starts with it empty; `clock` gives the time of each step. */
  ghost function StoreAfter(env: Env, c: Values, run: seq<Step>, clock: nat -> int): StoreView.View
    requires Exec(env, INITIAL, run).Some?
  {
    if run == [] then StoreView.EMPTY
    else
      var front := run[..|run| - 1];
      Written(env, c, StoreAfter(env, c, front, clock), Exec(env, INITIAL, front).value, run[|run| - 1], clock(|front|))
  }

  // ---------------------------------------------------------------- outpoints

  lemma FreeIsStored(c: Values, t: map<string, StoreView.OutpointView>, u: Utxos.Table, ops: seq<string>)
    requires SeesOutpoints(c, t, u)
    ensures StoreView.AllFree(t, ops) <==> Utxos.AllFree(u, ops)
  {
    forall i | 0 <= i < |ops| && ops[i] in t
      ensures t[ops[i]].lock == "FREE" <==> u[ops[i]].lock.Free?
    {
      assert SeesOutpoint(c, t[ops[i]], u[ops[i]]);
    }
  }

  /** A rewrite of stored rows, as the saga's table has it. */
  lemma RewriteIsStored(c: Values, t: map<string, StoreView.OutpointView>, u: Utxos.Table, ops: seq<string>,
                        ch: StoreView.ChangeOf<Option<int>>, f: Utxos.Utxo -> Utxos.Utxo)
    requires SeesOutpoints(c, t, u)
    requires forall x, y :: SeesOutpoint(c, x, y) ==> SeesOutpoint(c, StoreView.Changed(x, ch), f(y))
    ensures var (t', ok) := StoreView.Rewritten(t, ops, ch);
            SeesOutpoints(c, t', Utxos.Rewrite(u, Utxos.Known(u, ops), f)) && (ok <==> Utxos.Known(u, ops) == ops)
  {
    var known := Utxos.Known(u, ops);
    var n := |known|;
    assert ops[..n] == known;
    forall i | 0 <= i < n
      ensures ops[i] in t
    {
      assert ops[i] == known[i];
    }
    StoreView.RewrittenIs(t, ops, ch, n);
    assert n == |ops| ==> ops[..n] == ops;
    forall op | op in t
      ensures SeesOutpoint(c, StoreView.Rewritten(t, ops, ch).0[op], Utxos.Rewrite(u, known, f)[op])
    {
      assert SeesOutpoint(c, t[op], u[op]);
    }
  }

  /** Locking is refused by both or done by both. */
  lemma LockIsStored(c: Values, v: StoreView.View, u: Utxos.Table, ops: seq<string>, now: int)
    requires SeesOutpoints(c, v.outpoints, u)
    ensures var (v', r) := StoreView.DoOutpoint(v, StoreView.LockOutpoints(ops, now));
            match Utxos.LockAll(u, ops)
            case None => v' == v && r.Refused?
            case Some(u') => SeesOutpoints(c, v'.outpoints, u') && v' == v.(outpoints := v'.outpoints) && r.Done?
  {
    FreeIsStored(c, v.outpoints, u, ops);
    if Utxos.AllFree(u, ops) {
      var f := (o: Utxos.Utxo) => o.(lock := Utxos.Locked);
      RewriteIsStored(c, v.outpoints, u, ops, StoreView.Lock(Some(now)), f);
      Utxos.KnownAt(u, ops, |ops|);
      assert ops[..|ops|] == ops;
      assert Utxos.Rewrite(u, ops, f) == Utxos.LockAll(u, ops).value;
    }
  }

  lemma SpendIsStored(c: Values, v: StoreView.View, u: Utxos.Table, ops: seq<string>, txHash: string, now: int)
    requires SeesOutpoints(c, v.outpoints, u)
    ensures var (v', r) := StoreView.DoOutpoint(v, StoreView.MarkSpent(ops, txHash, now));
            && SeesOutpoints(c, v'.outpoints, Utxos.MarkSpent(u, ops, txHash)) && v' == v.(outpoints := v'.outpoints)
            && (r.Done? <==> Utxos.Known(u, ops) == ops)
  {
    var f := (o: Utxos.Utxo) => Utxos.Spend(o, txHash);
    RewriteIsStored(c, v.outpoints, u, ops, StoreView.Spend(txHash, Some(now)), f);
    assert Utxos.Rewrite(u, Utxos.Known(u, ops), f) == Utxos.MarkSpent(u, ops, txHash);
  }

  lemma RestoreIsStored(c: Values, v: StoreView.View, u: Utxos.Table, ops: seq<string>)
    requires SeesOutpoints(c, v.outpoints, u)
    ensures var (v', r) := StoreView.DoOutpoint(v, StoreView.RestoreOutpoints(ops));
            && SeesOutpoints(c, v'.outpoints, Utxos.Restore(u, ops)) && v' == v.(outpoints := v'.outpoints)
            && (r.Done? <==> Utxos.Known(u, ops) == ops)
  {
    RewriteIsStored(c, v.outpoints, u, ops, StoreView.Restore(None), Utxos.Unlock);
  }

  /** The saga's table after the operation. */
  function TableAfter(u: Utxos.Table, op: Option<StoreView.OutpointOp>): Utxos.Table {
    match op
    case Some(LockOutpoints(ops, _)) => (match Utxos.LockAll(u, ops) case None => u case Some(u') => u')
    case Some(MarkSpent(ops, txHash, _)) => Utxos.MarkSpent(u, ops, txHash)
    case Some(RestoreOutpoints(ops)) => Utxos.Restore(u, ops)
    case _ => u
  }

  lemma UtxosAfterIs(u: Utxos.Table, w: Withdrawal, chain: Chain, act: Act, now: int)
    ensures UtxosAfter(u, w, chain, act) == TableAfter(u, OutpointWrite(w, chain, act, now))
    ensures var op := OutpointWrite(w, chain, act, now);
            op.Some? ==> op.value.LockOutpoints? || op.value.MarkSpent? || op.value.RestoreOutpoints?
  {
  }

  lemma OutpointsFollow(c: Values, v: StoreView.View, u: Utxos.Table, op: StoreView.OutpointOp)
    requires SeesOutpoints(c, v.outpoints, u)
    requires op.LockOutpoints? || op.MarkSpent? || op.RestoreOutpoints?
    ensures var v' := StoreView.DoOutpoint(v, op).0;
            SeesOutpoints(c, v'.outpoints, TableAfter(u, Some(op))) && v' == v.(outpoints := v'.outpoints)
  {
    match op
    case LockOutpoints(ops, now) => LockIsStored(c, v, u, ops, now);
    case MarkSpent(ops, txHash, now) => SpendIsStored(c, v, u, ops, txHash, now);
    case RestoreOutpoints(ops) => RestoreIsStored(c, v, u, ops);
  }

  lemma OutpointWritten(c: Values, v: StoreView.View, u: Utxos.Table, w: Withdrawal, chain: Chain, act: Act, now: int)
    requires SeesOutpoints(c, v.outpoints, u)
    ensures var v' := AfterOutpoint(v, OutpointWrite(w, chain, act, now));
            SeesOutpoints(c, v'.outpoints, UtxosAfter(u, w, chain, act)) && v' == v.(outpoints := v'.outpoints)
  {
    var op := OutpointWrite(w, chain, act, now);
    UtxosAfterIs(u, w, chain, act, now);
    if op.Some? {
      OutpointsFollow(c, v, u, op.value);
    }
  }

  lemma NonceWritten(v: StoreView.View, key: string, w: Withdrawal, chain: Chain, act: Act, seen: Seen)
    ensures AfterNonce(v, NonceWrite(key, w, chain, act, seen))
            == v.(nonces := NoncesAfter(v.nonces, key, w, chain, act, seen))
  {
  }

  // ---------------------------------------------------------------- withdrawal rows

  /** The stored row after a write. */
  function StoredAfter(x: StoreView.WithdrawalView, wr: RowWrite): StoreView.WithdrawalView {
    match wr
    case Nothing => x
    case SetState(state, reason, txHash, decision) =>
      StoreView.InState(x, StateText(state), reason, txHash, decision)
    case SetNonce(n) => x.(nonce := Some(n))
    case SetOutpoints(ops) => x.(outpoints := Some(ops))
    case SetSigned(bytes) => x.(signed := Some(bytes))
  }

  lemma RowFollows(x: StoreView.WithdrawalView, row: Row, wr: RowWrite)
    requires SeesRow(x, row)
    ensures SeesRow(StoredAfter(x, wr), RowAfter(row, wr)) && StoreView.DedupKey(x) == DedupKey(row.req)
  {
  }

  lemma AfterRowIs(v: StoreView.View, id: Uuid, wr: RowWrite)
    requires id in v.withdrawals
    ensures AfterRow(v, id, wr)
            == v.(withdrawals := v.withdrawals[id := StoredAfter(v.withdrawals[id], wr)],
                  inflight := if wr.SetState? && wr.state.Terminal()
                              then v.inflight - {StoreView.DedupKey(v.withdrawals[id])} else v.inflight)
  {
    assert v.withdrawals[id := v.withdrawals[id]] == v.withdrawals;
  }

  /** A write to a stored row is the write to the saga's row, empty texts and the in-flight key included. */
  lemma RowIsStored(v: StoreView.View, wd: map<Uuid, Withdrawal>, id: Uuid, wr: RowWrite, w': Withdrawal)
    requires SeesRows(v.withdrawals, wd) && id in wd && w'.row == RowAfter(wd[id].row, wr)
    ensures var v' := AfterRow(v, id, wr);
            && v' == v.(withdrawals := v'.withdrawals, inflight := KeysAfter(v.inflight, wd[id].row, wr))
            && SeesRows(v'.withdrawals, wd[id := w'])
  {
    AfterRowIs(v, id, wr);
    RowFollows(v.withdrawals[id], wd[id].row, wr);
  }

  /** What a step does to its row and to the in-flight keys is that one write. */
  predicate IsWrite(w: Withdrawal, act: Act, seen: Seen, w': Withdrawal) {
    var wr := RowWriteOf(w, act, seen);
    && w'.row == RowAfter(w.row, wr)
    && (act.Reject? || act.RecordFailure? || act.Confirm? <==> wr.SetState? && wr.state.Terminal())
  }

  lemma ReservationWrites(env: Env, w: Withdrawal, chain: Chain, act: Act, seen: Seen, w': Withdrawal)
    requires IsReservation(act) && Reservation(env, w, chain, act, seen) == Some(w')
    ensures IsWrite(w, act, seen, w')
  {
  }

  lemma OthersWrite(env: Env, w: Withdrawal, chain: Chain, act: Act, seen: Seen, w': Withdrawal)
    requires !IsReservation(act) && Next(env, w, chain, act, seen) == Some(w')
    ensures IsWrite(w, act, seen, w')
  {
  }

  lemma RowWritten(env: Env, v: StoreView.View, wd: map<Uuid, Withdrawal>, id: Uuid, chain: Chain, act: Act,
                   seen: Seen, w': Withdrawal)
    requires SeesRows(v.withdrawals, wd) && id in wd && Next(env, wd[id], chain, act, seen) == Some(w')
    ensures var v' := AfterRow(v, id, RowWriteOf(wd[id], act, seen));
            && v' == v.(withdrawals := v'.withdrawals, inflight := InflightAfter(v.inflight, wd[id], act))
            && SeesRows(v'.withdrawals, wd[id := w'])
  {
    if IsReservation(act) {
      ReservationWrites(env, wd[id], chain, act, seen, w');
    } else {
      OthersWrite(env, wd[id], chain, act, seen, w');
    }
    RowIsStored(v, wd, id, RowWriteOf(wd[id], act, seen), w');
  }

  // ---------------------------------------------------------------- steps and runs

  lemma OnStepStored(env: Env, c: Values, v: StoreView.View, s: State, id: Uuid, act: Act, s': State, now: int)
    requires Sees(c, v, s) && Apply(env, s, On(id, act)) == Some(s')
    ensures Sees(c, Written(env, c, v, s, On(id, act), now), s')
  {
    var w := s.wd[id];
    var chain, key, seen := env.wallets[w.row.req.walletId], NonceKey(env, w.row.req), Observe(env, s, w, act);
    var w' := Next(env, w, chain, act, seen).value;
    var v1 := AfterNonce(v, NonceWrite(key, w, chain, act, seen));
    NonceWritten(v, key, w, chain, act, seen);
    OutpointWritten(c, v1, s.utxos, w, chain, act, now);
    RowWritten(env, AfterOutpoint(v1, OutpointWrite(w, chain, act, now)), s.wd, id, chain, act, seen, w');
  }

  lemma CreateStored(env: Env, c: Values, v: StoreView.View, s: State, id: Uuid, req: Request, s': State, now: int)
    requires Sees(c, v, s) && Apply(env, s, Create(id, req)) == Some(s')
    ensures Sees(c, Written(env, c, v, s, Create(id, req), now), s')
  {
    assert SeesRow(NewWithdrawal(req), NewRow(req));
  }

  lemma TrackStored(env: Env, c: Values, v: StoreView.View, s: State, st: Step, s': State, now: int)
    requires c.Faithful() && Sees(c, v, s) && st.Track? && Apply(env, s, st) == Some(s')
    ensures Sees(c, Written(env, c, v, s, st, now), s')
  {
    var u := StoreView.Outpoint(st.walletId, c.text(st.value), "", 0, "FREE", None, None, "");
    assert SeesOutpoint(c, u, Utxos.Utxo(st.walletId, st.value, Utxos.Free, ""));
  }

  lemma OutsideStored(env: Env, c: Values, v: StoreView.View, s: State, st: Step, s': State, now: int)
    requires c.Faithful() && Sees(c, v, s) && !st.On? && Apply(env, s, st) == Some(s')
    ensures Sees(c, Written(env, c, v, s, st, now), s')
  {
    match st
    case Create(id, req) => CreateStored(env, c, v, s, id, req, s', now);
    case ReserveOutside(walletId, chain) =>
    case RestoreOutpoints(ops) => RestoreIsStored(c, v, s.utxos, ops);
    case Track(_, _, _) => TrackStored(env, c, v, s, st, s', now);
  }

  /** After every run the store, written by its own operations alone, holds the tables of the saga's state. */
  lemma {:induction false} StoreIsSaga(env: Env, c: Values, run: seq<Step>, clock: nat -> int)
    requires c.Faithful() && Exec(env, INITIAL, run).Some?
    ensures Sees(c, StoreAfter(env, c, run, clock), Exec(env, INITIAL, run).value)
  {
    if run != [] {
      var front, st := run[..|run| - 1], run[|run| - 1];
      StoreIsSaga(env, c, front, clock);
      var v, s, s' := StoreAfter(env, c, front, clock), Exec(env, INITIAL, front).value, Exec(env, INITIAL, run).value;
      if st.On? {
        OnStepStored(env, c, v, s, st.id, st.act, s', clock(|front|));
      } else {
        OutsideStored(env, c, v, s, st, s', clock(|front|));
      }
    }
  }

  /**
   What the service learns from the store is what the step system says: Create is refused by both or by neither,
   the reserved nonce is the store's reply, and outpoints are locked exactly when the store says so.
   */
  lemma RepliesAgree(env: Env, c: Values, v: StoreView.View, s: State, st: Step, now: int)
    requires Sees(c, v, s)
    ensures st.Create? && st.req.walletId in env.wallets ==>
              (Apply(env, s, st).Some?
               <==> StoreView.DoWithdrawal(v, StoreView.CreateWithdrawal(st.id, NewWithdrawal(st.req))).1.Done?)
    ensures st.On? && st.act.CsReserve? && Apply(env, s, st).Some? ==>
              var key := NonceKey(env, s.wd[st.id].row.req);
              StoreView.DoNonce(v, StoreView.IncrementPending(key)).1
              == StoreView.Number(Apply(env, s, st).value.wd[st.id].pc.n)
    ensures st.On? && st.act.CsLock? && Apply(env, s, st).Some? ==>
              && st.act.k <= |st.act.order|
              && (Apply(env, s, st).value.wd[st.id].pc.CsLocked?
                  <==> StoreView.DoOutpoint(v, StoreView.LockOutpoints(st.act.order[..st.act.k], now)).1.Done?)
  {
    if st.On? && st.act.CsLock? && Apply(env, s, st).Some? {
      LockIsStored(c, v, s.utxos, st.act.order[..st.act.k], now);
    }
  }

  /** Row `id` of the store is SIGNED and lists the outpoint. */
  predicate StoredReserves(v: StoreView.View, id: Uuid, op: string) {
    id in v.withdrawals && v.withdrawals[id].state == "SIGNED" && op in Listed(v.withdrawals[id].outpoints)
  }

  /**
   In the store, with callers that restore only what the tables allow: of the withdrawals with no call under way, at
   most one is SIGNED and lists a given outpoint, and the stored outpoint is then not FREE.
   */
  lemma {:induction false} StoredReservationsExclusive(env: Env, c: Values, run: seq<Step>, clock: nat -> int,
                                                       op: string, a: Uuid, b: Uuid)
    requires c.Faithful() && Exec(env, INITIAL, run).Some?
    requires Disciplined(env, INITIAL, run, SagaRecord.RestoreChecked())
    requires var s := Exec(env, INITIAL, run).value;
             a in s.wd && s.wd[a].pc.Idle? && b in s.wd && s.wd[b].pc.Idle?
    requires var v := StoreAfter(env, c, run, clock); StoredReserves(v, a, op) && StoredReserves(v, b, op)
    ensures var v := StoreAfter(env, c, run, clock); a == b && op in v.outpoints && v.outpoints[op].lock != "FREE"
  {
    var v, s := StoreAfter(env, c, run, clock), Exec(env, INITIAL, run).value;
    StoreIsSaga(env, c, run, clock);
    SagaRecord.CheckedRestoresAreSafe(env, run);
    SagaTheorems.OutpointsExclusive(env, run, op);
    assert SeesRow(v.withdrawals[a], s.wd[a].row) && SeesRow(v.withdrawals[b], s.wd[b].row);
    assert SagaTheorems.SignedReserves(s, a, op) && SagaTheorems.SignedReserves(s, b, op);
    assert SeesOutpoint(c, v.outpoints[op], s.utxos[op]);
  }
}
