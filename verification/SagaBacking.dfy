/**
 What stands behind a holding: every outpoint that a withdrawal or an accepted broadcast holds is tracked for its
 own Bitcoin wallet and worth something, over every run.
 */
module SagaBacking {
  import opened Prelude
  import opened Domain
  import opened Saga
  import opened SagaShape
  import opened SagaUtxo
  import SagaTheorems
  import Utxos

  /** The table has lost no outpoint, and owners and values stand. */
  ghost predicate Grows(t: Utxos.Table, t': Utxos.Table) {
    forall op :: op in t ==> op in t' && t'[op].walletId == t[op].walletId && t'[op].value == t[op].value
  }

  /** Tracked for a Bitcoin wallet, and worth something. */
  ghost predicate Worth(env: Env, t: Utxos.Table, op: string) {
    op in t && t[op].value > 0 && t[op].walletId in env.wallets && env.wallets[t[op].walletId].Bitcoin?
  }

  /** A listing agrees with the table on owner and value. */
  ghost predicate ListedFrom(t: Utxos.Table, free: map<string, int>, walletId: Uuid) {
    forall op :: op in free ==> op in t && t[op].walletId == walletId && t[op].value == free[op]
  }

  ghost predicate ListingOk(t: Utxos.Table, w: Withdrawal) {
    w.pc.CsListed? ==> ListedFrom(t, w.pc.free, w.row.req.walletId)
  }

  /** Tracked for this wallet. */
  predicate Owned(t: Utxos.Table, walletId: Uuid, op: string) {
    op in t && t[op].walletId == walletId
  }

  /** Every outpoint on the row is tracked for the row's wallet. */
  ghost predicate RowOk(t: Utxos.Table, row: Row) {
    forall op :: op in row.outpoints ==> Owned(t, row.req.walletId, op)
  }

  /** The outpoint is tracked for the wallet of the withdrawal or of the accepted broadcast. */
  ghost predicate Belongs(s: State, o: Owner, op: string) {
    match o
    case Call(id) => id in s.wd && Owned(s.utxos, s.wd[id].row.req.walletId, op)
    case Log(i) => i < |s.sent| && Owned(s.utxos, s.sent[i].req.walletId, op)
  }

  ghost predicate Backed(env: Env, s: State) {
    && (forall o, op :: op in HeldBy(s, o) ==> Worth(env, s.utxos, op) && Belongs(s, o, op))
    && (forall id :: id in s.wd ==> ListingOk(s.utxos, s.wd[id]) && RowOk(s.utxos, s.wd[id].row))
  }

  lemma TableGrows(t: Utxos.Table, w: Withdrawal, chain: Chain, act: Act)
    ensures Grows(t, UtxosAfter(t, w, chain, act))
  {
  }

  /** Every outpoint the selection takes is worth something. */
  lemma SelectedIsWorth(v: map<string, int>, order: seq<string>, amount: int, k: nat, i: nat)
    requires Utxos.Arrangement(v, order) && Utxos.StopsAt(v, order, amount, k) && Utxos.Prefix(v, order, k) >= amount
    requires i < k
    ensures order[i] in v && v[order[i]] > 0
  {
    Utxos.DescendingAt(v, order, i, k - 1);
    assert Utxos.Prefix(v, order, k - 1) < amount;
  }

  /** How a step's own withdrawal comes by a listing and by outpoints. */
  ghost predicate Obtains(env: Env, t: Utxos.Table, w: Withdrawal, act: Act, w': Withdrawal) {
    && (w'.pc.CsListed? ==> w'.pc.free == Utxos.Listing(t, w.row.req.walletId) && w'.row.req == w.row.req)
    && (act.CsLock? ==> w.pc.CsListed? && Selects(env, w, act.order, act.k))
    && (w'.row.outpoints == w.row.outpoints || w'.row.outpoints == HeldOps(w))
  }

  lemma ObtainsNext(env: Env, s: State, w: Withdrawal, chain: Chain, act: Act)
    requires w.row.req.walletId in env.wallets && Next(env, w, chain, act, Observe(env, s, w, act)).Some?
    ensures Obtains(env, s.utxos, w, act, Next(env, w, chain, act, Observe(env, s, w, act)).value)
  {
    var seen := Observe(env, s, w, act);
    if IsReservation(act) {
      ReservationObtains(env, s.utxos, w, chain, act, seen);
    } else if IsSigning(act) {
      SigningListsNothing(env, w, act);
    } else {
      OthersListNothing(env, w, chain, act, seen);
    }
  }

  lemma ReservationObtains(env: Env, t: Utxos.Table, w: Withdrawal, chain: Chain, act: Act, seen: Seen)
    requires IsReservation(act) && Reservation(env, w, chain, act, seen).Some?
    requires seen.listing == Utxos.Listing(t, w.row.req.walletId)
    ensures Obtains(env, t, w, act, Reservation(env, w, chain, act, seen).value)
  {
  }

  lemma SigningListsNothing(env: Env, w: Withdrawal, act: Act)
    requires IsSigning(act) && Signing(env, w, act).Some?
    ensures var w' := Signing(env, w, act).value; !w'.pc.CsListed? && w'.row.outpoints == w.row.outpoints
  {
  }

  lemma OthersListNothing(env: Env, w: Withdrawal, chain: Chain, act: Act, seen: Seen)
    requires !IsReservation(act) && !IsSigning(act) && Next(env, w, chain, act, seen).Some?
    ensures var w' := Next(env, w, chain, act, seen).value; !w'.pc.CsListed? && w'.row.outpoints == w.row.outpoints
  {
  }

  lemma LockIsWorth(env: Env, t: Utxos.Table, w: Withdrawal, order: seq<string>, k: nat, op: string)
    requires w.pc.CsListed? && Selects(env, w, order, k) && op in order[..k] && ListingOk(t, w)
    requires w.row.req.walletId in env.wallets && env.wallets[w.row.req.walletId].Bitcoin?
    ensures Worth(env, t, op) && Owned(t, w.row.req.walletId, op)
  {
    var i :| 0 <= i < k && order[i] == op;
    SelectedIsWorth(w.pc.free, order, env.parseDec(w.row.req.amount).value, k, i);
  }

  /** Where every holding after a step comes from: it was there, it passed to the log, or it was locked just now. */
  lemma HeldBefore(s: State, id: Uuid, act: Act, s': State, seen: Seen, o: Owner, op: string)
    requires id in s.wd && id in s'.wd && Transfers(s, id, act, s', s.wd[id], s'.wd[id], seen) && op in HeldBy(s', o)
    ensures || (o != Log(|s.sent|) && op in HeldBy(s, o))
            || (act.BcAccept? && o == Log(|s.sent|) && op in HeldBy(s, Call(id)))
            || (act.CsLock? && o == Call(id) && act.k <= |act.order| && op in act.order[..act.k])
  {
  }

  lemma BackedOn(env: Env, s: State, id: Uuid, act: Act, s': State)
    requires SagaTheorems.Base(env, s) && Backed(env, s) && Apply(env, s, On(id, act)) == Some(s')
    ensures Backed(env, s')
  {
    var chain, seen := UtxoParts(env, s, id, act, s');
    StepParts(env, s, id, act, s');
    var w := s.wd[id];
    assert WithdrawalOk(env, w);
    ObtainsNext(env, s, w, env.wallets[w.row.req.walletId], act);
    NextOk(env, env.wallets[w.row.req.walletId], w, act, Observe(env, s, w, act));
    TableGrows(s.utxos, w, chain, act);
    BackedByHoldings(env, s, id, act, s', seen);
  }

  lemma BackedByHoldings(env: Env, s: State, id: Uuid, act: Act, s': State, seen: Seen)
    requires Backed(env, s) && Grows(s.utxos, s'.utxos) && Writes(s, id, act, s')
    requires Transfers(s, id, act, s', s.wd[id], s'.wd[id], seen) && Obtains(env, s.utxos, s.wd[id], act, s'.wd[id])
    requires WithdrawalOk(env, s.wd[id]) && s'.wd[id].row.req == s.wd[id].row.req
    ensures Backed(env, s')
  {
    forall o, op | op in HeldBy(s', o)
      ensures Worth(env, s'.utxos, op) && Belongs(s', o, op)
    {
      HeldBefore(s, id, act, s', seen, o, op);
      if o != Log(|s.sent|) && op in HeldBy(s, o) {
        StillBacked(env, s, id, act, s', o, op);
      } else if act.BcAccept? {
        assert Worth(env, s.utxos, op) && Belongs(s, Call(id), op);
      } else {
        LockIsWorth(env, s.utxos, s.wd[id], act.order, act.k, op);
      }
    }
    forall x | x in s'.wd
      ensures ListingOk(s'.utxos, s'.wd[x]) && RowOk(s'.utxos, s'.wd[x].row)
    {
      assert ListingOk(s.utxos, s.wd[x]) && RowOk(s.utxos, s.wd[x].row);
      if x == id {
        RowStill(env, s, id, act, s');
      }
    }
  }

  lemma StillBacked(env: Env, s: State, id: Uuid, act: Act, s': State, o: Owner, op: string)
    requires Backed(env, s) && Grows(s.utxos, s'.utxos) && Writes(s, id, act, s')
    requires s'.wd[id].row.req == s.wd[id].row.req && op in HeldBy(s, o)
    ensures Worth(env, s'.utxos, op) && Belongs(s', o, op)
  {
    assert Worth(env, s.utxos, op) && Belongs(s, o, op);
  }

  lemma RowStill(env: Env, s: State, id: Uuid, act: Act, s': State)
    requires Backed(env, s) && Grows(s.utxos, s'.utxos) && Writes(s, id, act, s')
    requires s'.wd[id].row.req == s.wd[id].row.req && Obtains(env, s.utxos, s.wd[id], act, s'.wd[id])
    ensures RowOk(s'.utxos, s'.wd[id].row)
  {
    forall op | op in s'.wd[id].row.outpoints
      ensures Owned(s'.utxos, s.wd[id].row.req.walletId, op)
    {
      if op in s.wd[id].row.outpoints {
        assert RowOk(s.utxos, s.wd[id].row);
      } else {
        assert op in HeldBy(s, Call(id)) && Belongs(s, Call(id), op);
      }
    }
  }

  lemma BackedOutside(env: Env, s: State, st: Step, s': State)
    requires !st.On? && Backed(env, s) && Apply(env, s, st) == Some(s')
    ensures Backed(env, s')
  {
    assert Grows(s.utxos, s'.utxos);
    forall o
      ensures HeldBy(s', o) == HeldBy(s, o)
    {
    }
    BackedStill(env, s, s');
  }

  /** Withdrawals and log as they were, but for new withdrawals. */
  lemma BackedStill(env: Env, s: State, s': State)
    requires Backed(env, s) && Grows(s.utxos, s'.utxos) && s'.sent == s.sent
    requires forall o :: HeldBy(s', o) == HeldBy(s, o)
    requires forall x :: x in s.wd ==> x in s'.wd && s'.wd[x] == s.wd[x]
    requires forall x :: x in s'.wd && x !in s.wd ==> !s'.wd[x].pc.CsListed? && s'.wd[x].row.outpoints == []
    ensures Backed(env, s')
  {
    forall o, op | op in HeldBy(s', o)
      ensures Worth(env, s'.utxos, op) && Belongs(s', o, op)
    {
      assert op in HeldBy(s, o) && Worth(env, s.utxos, op) && Belongs(s, o, op);
    }
    forall x | x in s'.wd
      ensures ListingOk(s'.utxos, s'.wd[x]) && RowOk(s'.utxos, s'.wd[x].row)
    {
      assert x in s.wd ==> ListingOk(s.utxos, s.wd[x]) && RowOk(s.utxos, s.wd[x].row);
    }
  }

  lemma {:induction false} BackedRun(env: Env, run: seq<Step>)
    requires Exec(env, INITIAL, run).Some?
    ensures Backed(env, Exec(env, INITIAL, run).value)
  {
    if run != [] {
      var before, st := run[..|run| - 1], run[|run| - 1];
      BackedRun(env, before);
      SagaTheorems.BaseRun(env, before);
      var s, s' := Exec(env, INITIAL, before).value, Exec(env, INITIAL, run).value;
      if st.On? {
        BackedOn(env, s, st.id, st.act, s');
      } else {
        BackedOutside(env, s, st, s');
      }
    }
  }
}
