/**
 Who holds which outpoint in a saga state, and why no outpoint ever has two holders, with listing and
 locking as separate interleaved steps and Fail allowed from any state. Restoring outpoints after a
 reorg is the one operation that can break this; exactly when it does is proved as an equivalence.
 */
module SagaUtxo {
  import opened Prelude
  import opened Domain
  import opened Saga
  import opened SagaShape
  import Utxos

  /** The outpoints a withdrawal holds: from the lock until they are unlocked or accepted. */
  function HeldOps(w: Withdrawal): seq<string> {
    match w.pc
    case CsLocked(ops) => ops
    case CsReady(_, ops) => ops
    case CsBuilt(_, ops, _) => ops
    case CsAssembled(_, ops, _) => ops
    case CsPersisted(_, ops) => ops
    case Undo(_, ops, _) => ops
    case UndoOps(ops, _) => ops
    case BcSend(_, ops, _) => ops
    case Idle => if w.row.state.Signed? then w.row.outpoints else []
    case _ => []
  }

  /** A withdrawal, or an accepted broadcast. */
  datatype Owner = Call(id: Uuid) | Log(i: nat)

  ghost function HeldBy(s: State, o: Owner): seq<string> {
    match o
    case Call(id) => if id in s.wd then HeldOps(s.wd[id]) else []
    case Log(i) => if i < |s.sent| then s.sent[i].ops else []
  }

  predicate Taken(t: Utxos.Table, op: string) {
    op in t && !t[op].lock.Free?
  }

  predicate Locked(t: Utxos.Table, op: string) {
    op in t && t[op].lock.Locked?
  }

  /** What a held outpoint looks like: locked for a withdrawal, locked or spent for an accepted broadcast. */
  predicate Fits(t: Utxos.Table, o: Owner, op: string) {
    Taken(t, op) && (o.Call? ==> Locked(t, op))
  }

  /** Every held outpoint looks the part. */
  ghost predicate Busy(s: State) {
    forall o, op :: op in HeldBy(s, o) ==> Fits(s.utxos, o, op)
  }

  /** No outpoint has two holders. */
  ghost predicate Exclusive(s: State) {
    forall o, p, op :: o != p && op in HeldBy(s, o) ==> op !in HeldBy(s, p)
  }

  ghost predicate UtxoInv(s: State) {
    Busy(s) && Exclusive(s)
  }

  // ---------------------------------------------------------------- table operations and taken outpoints

  lemma LockTakes(t: Utxos.Table, sel: seq<string>, t': Utxos.Table, op: string)
    requires Utxos.LockAll(t, sel) == Some(t')
    ensures Taken(t', op) <==> Taken(t, op) || op in sel
    ensures Locked(t', op) <==> Locked(t, op) || op in sel
    ensures op in sel ==> !Taken(t, op)
  {
  }

  lemma RestoreFrees(t: Utxos.Table, ops: seq<string>, op: string)
    ensures Taken(Utxos.Restore(t, ops), op) <==> Taken(t, op) && op !in Utxos.Known(t, ops)
    ensures Locked(Utxos.Restore(t, ops), op) <==> Locked(t, op) && op !in Utxos.Known(t, ops)
  {
  }

  lemma SpendFreesNothing(t: Utxos.Table, ops: seq<string>, txHash: string, op: string)
    ensures Taken(t, op) ==> Taken(Utxos.MarkSpent(t, ops, txHash), op)
    ensures Locked(Utxos.MarkSpent(t, ops, txHash), op) <==> Locked(t, op) && op !in Utxos.Known(t, ops)
  {
  }

  // ---------------------------------------------------------------- the four ways holdings change

  /** Holdings stay or are dropped, and what is held keeps its looks. */
  lemma Dropped(s: State, s': State)
    requires UtxoInv(s)
    requires forall o :: HeldBy(s', o) == HeldBy(s, o) || HeldBy(s', o) == []
    requires forall o, op :: op in HeldBy(s, o) && Fits(s.utxos, o, op) ==> Fits(s'.utxos, o, op)
    ensures UtxoInv(s')
  {
    forall o, op | op in HeldBy(s', o)
      ensures Fits(s'.utxos, o, op)
    {
      assert op in HeldBy(s, o);
    }
    forall o, p, op | o != p && op in HeldBy(s', o)
      ensures op !in HeldBy(s', p)
    {
      assert op in HeldBy(s, o);
    }
  }

  /** One owner locks outpoints that were all free. */
  lemma Locks(s: State, s': State, o0: Owner, sel: seq<string>)
    requires UtxoInv(s) && Utxos.LockAll(s.utxos, sel) == Some(s'.utxos)
    requires forall o :: o != o0 ==> HeldBy(s', o) == HeldBy(s, o)
    requires HeldBy(s', o0) == sel
    ensures UtxoInv(s')
  {
    forall o, op | op in HeldBy(s', o)
      ensures Fits(s'.utxos, o, op) && (o != o0 ==> op in HeldBy(s, o) && op !in sel)
    {
      LockTakes(s.utxos, sel, s'.utxos, op);
      assert o != o0 ==> op in HeldBy(s, o) && Fits(s.utxos, o, op);
    }
    forall o, p, op | o != p && op in HeldBy(s', o)
      ensures op !in HeldBy(s', p)
    {
      assert o != o0 ==> op in HeldBy(s, o) && op !in sel;
      assert p != o0 && op in HeldBy(s', p) ==> op in HeldBy(s, p) && op !in sel;
    }
  }

  /** A holder unlocks its outpoints. */
  lemma Unlocks(s: State, s': State, o0: Owner)
    requires UtxoInv(s) && s'.utxos == Utxos.Restore(s.utxos, HeldBy(s, o0))
    requires forall o :: o != o0 ==> HeldBy(s', o) == HeldBy(s, o)
    requires HeldBy(s', o0) == []
    ensures UtxoInv(s')
  {
    forall o, op | op in HeldBy(s', o)
      ensures Fits(s'.utxos, o, op)
    {
      RestoreFrees(s.utxos, HeldBy(s, o0), op);
      assert op in HeldBy(s, o) && Fits(s.utxos, o, op) && op !in HeldBy(s, o0);
    }
    forall o, p, op | o != p && op in HeldBy(s', o)
      ensures op !in HeldBy(s', p)
    {
      assert op in HeldBy(s, o);
    }
  }

  /** Outpoints pass from a withdrawal to the log. */
  lemma Passed(s: State, s': State, o0: Owner, o1: Owner)
    requires UtxoInv(s) && s'.utxos == s.utxos && o0 != o1 && o1.Log?
    requires forall o :: o != o0 && o != o1 ==> HeldBy(s', o) == HeldBy(s, o)
    requires HeldBy(s', o0) == [] && HeldBy(s, o1) == [] && HeldBy(s', o1) == HeldBy(s, o0)
    ensures UtxoInv(s')
  {
    forall o, op | op in HeldBy(s', o)
      ensures Fits(s'.utxos, o, op) && op in HeldBy(s, if o == o1 then o0 else o)
    {
    }
    forall o, p, op | o != p && op in HeldBy(s', o)
      ensures op !in HeldBy(s', p)
    {
      assert op in HeldBy(s, if o == o1 then o0 else o);
    }
  }

  /** The outpoints of an accepted broadcast are marked as spent. */
  lemma Spends(s: State, s': State, i: nat, ops: seq<string>, txHash: string)
    requires UtxoInv(s) && s'.utxos == Utxos.MarkSpent(s.utxos, ops, txHash) && HeldBy(s, Log(i)) == ops
    requires forall o :: HeldBy(s', o) == HeldBy(s, o)
    ensures UtxoInv(s')
  {
    forall o, op | op in HeldBy(s, o) && Fits(s.utxos, o, op)
      ensures Fits(s'.utxos, o, op)
    {
      SpendFreesNothing(s.utxos, ops, txHash, op);
      assert o.Call? ==> op !in HeldBy(s, Log(i));
    }
    Dropped(s, s');
  }

  // ---------------------------------------------------------------- one step

  predicate OpsChange(w: Withdrawal, act: Act, seen: Seen, w': Withdrawal) {
    && (act.CsLock? && seen.lockOk ==> act.k <= |act.order| && HeldOps(w') == act.order[..act.k])
    && (act.UndoOutpoints? ==> w.pc.UndoOps? && HeldOps(w) == w.pc.ops && HeldOps(w') == [])
    && (act.BcAccept? ==> w.pc.BcSend? && HeldOps(w) == w.pc.ops && HeldOps(w') == [])
    && (!(act.CsLock? && seen.lockOk) ==> HeldOps(w') == HeldOps(w) || HeldOps(w') == [])
    && (act.Fail? ==> HeldOps(w) == (if w.row.state.Signed? then w.row.outpoints else []) && HeldOps(w') == [])
    && (HeldOps(w') == HeldOps(w) || act.CsLock? || act.UndoOutpoints? || act.BcAccept? || act.Fail?)
    && (act.CsLock? ==> HeldOps(w) == [])
    && (act.BcMarkSpent? ==> w.pc.BcSpend? && w.sent && w.pc.ops == w.row.outpoints && w' == w.(pc := w'.pc))
  }

  lemma OpsReservation(env: Env, chain: Chain, w: Withdrawal, act: Act, seen: Seen)
    requires IsReservation(act) && InOrder(env, chain, w) && Reservation(env, w, chain, act, seen).Some?
    ensures OpsChange(w, act, seen, Reservation(env, w, chain, act, seen).value)
  {
  }

  lemma OpsSigning(env: Env, chain: Chain, w: Withdrawal, act: Act, seen: Seen)
    requires IsSigning(act) && InOrder(env, chain, w) && Signing(env, w, act).Some?
    ensures OpsChange(w, act, seen, Signing(env, w, act).value)
  {
  }

  lemma OpsBroadcast(env: Env, chain: Chain, w: Withdrawal, act: Act, seen: Seen)
    requires IsBroadcast(act) && InOrder(env, chain, w) && Broadcasting(w, act).Some?
    ensures OpsChange(w, act, seen, Broadcasting(w, act).value)
  {
  }

  lemma OpsRest(env: Env, chain: Chain, w: Withdrawal, act: Act, seen: Seen)
    requires !IsReservation(act) && !IsSigning(act) && !IsBroadcast(act)
    requires InOrder(env, chain, w) && Next(env, w, chain, act, seen).Some?
    ensures OpsChange(w, act, seen, Next(env, w, chain, act, seen).value)
  {
  }

  lemma OpsNext(env: Env, chain: Chain, w: Withdrawal, act: Act, seen: Seen)
    requires InOrder(env, chain, w) && Next(env, w, chain, act, seen).Some?
    ensures OpsChange(w, act, seen, Next(env, w, chain, act, seen).value)
  {
    if IsReservation(act) {
      OpsReservation(env, chain, w, act, seen);
    } else if IsSigning(act) {
      OpsSigning(env, chain, w, act, seen);
    } else if IsBroadcast(act) {
      OpsBroadcast(env, chain, w, act, seen);
    } else {
      OpsRest(env, chain, w, act, seen);
    }
  }

  /** All that a step does to holdings. */
  ghost predicate Transfers(s: State, id: Uuid, act: Act, s': State, w: Withdrawal, w': Withdrawal, seen: Seen) {
    && (forall o :: o != Call(id) && o != Log(|s.sent|) ==> HeldBy(s', o) == HeldBy(s, o))
    && HeldBy(s, Log(|s.sent|)) == []
    && HeldBy(s', Log(|s.sent|)) == (if act.BcAccept? then HeldOps(w) else [])
    && HeldBy(s, Call(id)) == HeldOps(w) && HeldBy(s', Call(id)) == HeldOps(w')
    && OpsChange(w, act, seen, w')
  }

  /** Where a step writes: its own withdrawal, and the log on acceptance. */
  ghost predicate Writes(s: State, id: Uuid, act: Act, s': State) {
    && id in s.wd && id in s'.wd && s'.wd == s.wd[id := s'.wd[id]] && s'.sent == SentAfter(s.sent, id, s.wd[id], act)
  }

  lemma WritesTransfer(s: State, id: Uuid, act: Act, s': State, seen: Seen)
    requires Writes(s, id, act, s') && OpsChange(s.wd[id], act, seen, s'.wd[id])
    ensures Transfers(s, id, act, s', s.wd[id], s'.wd[id], seen)
  {
  }

  lemma StepTransfers(env: Env, s: State, id: Uuid, act: Act, s': State, seen: Seen)
    requires Shape(env, s) && Moves(env, s, id, act, s', seen)
    ensures Transfers(s, id, act, s', s.wd[id], s'.wd[id], seen)
  {
    var w := s.wd[id];
    assert WithdrawalOk(env, w);
    OpsNext(env, env.wallets[w.row.req.walletId], w, act, seen);
    WritesTransfer(s, id, act, s', seen);
  }

  /** The restored outpoints have no holder. */
  ghost predicate RestoreSafe(s: State, ops: seq<string>) {
    forall o, op :: op in Utxos.Known(s.utxos, ops) ==> op !in HeldBy(s, o)
  }

  /** With holdings unchanged, table and holders still agree exactly when the restore frees no held outpoint. */
  lemma RestoreIff(s: State, s': State, ops: seq<string>)
    requires UtxoInv(s) && s'.utxos == Utxos.Restore(s.utxos, ops)
    requires forall o :: HeldBy(s', o) == HeldBy(s, o)
    ensures UtxoInv(s') <==> RestoreSafe(s, ops)
  {
    if RestoreSafe(s, ops) {
      forall o, op | op in HeldBy(s', o)
        ensures Fits(s'.utxos, o, op)
      {
        RestoreFrees(s.utxos, ops, op);
        assert op in HeldBy(s, o) && Fits(s.utxos, o, op) && op !in Utxos.Known(s.utxos, ops);
      }
      assert Exclusive(s');
    } else {
      var o, op :| op in Utxos.Known(s.utxos, ops) && op in HeldBy(s, o);
      RestoreFrees(s.utxos, ops, op);
      assert op in HeldBy(s', o) && !Taken(s'.utxos, op);
    }
  }

  /** What the tables and holdings of a step on one withdrawal do to exclusivity. */
  lemma UtxoByHoldings(s: State, id: Uuid, act: Act, s': State, chain: Chain, w: Withdrawal, w': Withdrawal, seen: Seen)
    requires UtxoInv(s) && !act.Reorg? && Transfers(s, id, act, s', w, w', seen)
    requires s'.utxos == UtxosAfter(s.utxos, w, chain, act)
    requires act.CsLock? ==> (seen.lockOk <==> act.k <= |act.order| && Utxos.AllFree(s.utxos, act.order[..act.k]))
    requires act.BcMarkSpent? && w.pc.BcSpend? ==> exists i: nat :: HeldBy(s, Log(i)) == w.pc.ops
    ensures UtxoInv(s')
  {
    if act.BcAccept? {
      Passed(s, s', Call(id), Log(|s.sent|));
    } else if act.CsLock? && seen.lockOk {
      Locks(s, s', Call(id), act.order[..act.k]);
    } else if act.UndoOutpoints? {
      Unlocks(s, s', Call(id));
    } else if act.BcMarkSpent? && chain.Bitcoin? {
      var i: nat :| HeldBy(s, Log(i)) == w.pc.ops;
      Spends(s, s', i, w.pc.ops, w.pc.txHash);
    } else {
      Dropped(s, s');
    }
  }

  /** The log entry of an accepted withdrawal holds the outpoints on its row. */
  lemma AcceptedHolds(env: Env, s: State, id: Uuid) returns (i: nat)
    requires Shape(env, s) && id in s.wd && s.wd[id].sent
    ensures HeldBy(s, Log(i)) == s.wd[id].row.outpoints
  {
    assert InLog(s.sent, id);
    i :| i < |s.sent| && s.sent[i].id == id;
    assert SentOk(env, s, s.sent[i]);
  }

  lemma ReorgKeepsHoldings(env: Env, chain: Chain, w: Withdrawal, act: Act, seen: Seen)
    requires act.Reorg? && Next(env, w, chain, act, seen).Some?
    ensures HeldOps(Next(env, w, chain, act, seen).value) == HeldOps(w)
  {
  }

  /**
   Every step keeps table and holders in agreement: what is held is locked or spent, and has one holder. A
   reorg does so exactly when what it restores has no holder.
   */
  lemma UtxoStep(env: Env, s: State, id: Uuid, act: Act, s': State)
    requires Shape(env, s) && UtxoInv(s) && Counters(s.nonces) && Apply(env, s, On(id, act)) == Some(s')
    ensures !act.Reorg? ==> UtxoInv(s')
    ensures act.Reorg? ==> (UtxoInv(s') <==> RestoreSafe(s, act.ops))
  {
    var chain, seen := UtxoParts(env, s, id, act, s');
    if act.Reorg? {
      RestoreIff(s, s', act.ops);
    } else {
      UtxoByHoldings(s, id, act, s', chain, s.wd[id], s'.wd[id], seen);
    }
  }

  /** What a step on one withdrawal does to holdings and to the table. */
  lemma UtxoParts(env: Env, s: State, id: Uuid, act: Act, s': State) returns (chain: Chain, seen: Seen)
    requires Shape(env, s) && Counters(s.nonces) && Apply(env, s, On(id, act)) == Some(s')
    ensures id in s.wd && id in s'.wd && Transfers(s, id, act, s', s.wd[id], s'.wd[id], seen)
    ensures s'.utxos == UtxosAfter(s.utxos, s.wd[id], chain, act)
    ensures act.Reorg? ==> forall o :: HeldBy(s', o) == HeldBy(s, o)
    ensures act.CsLock? ==> (seen.lockOk <==> act.k <= |act.order| && Utxos.AllFree(s.utxos, act.order[..act.k]))
    ensures act.BcMarkSpent? && s.wd[id].pc.BcSpend? ==> exists i: nat :: HeldBy(s, Log(i)) == s.wd[id].pc.ops
  {
    StepParts(env, s, id, act, s');
    var w := s.wd[id];
    chain, seen := env.wallets[w.row.req.walletId], Observe(env, s, w, act);
    StepTransfers(env, s, id, act, s', seen);
    if act.Reorg? {
      ReorgKeepsHoldings(env, chain, w, act, seen);
    }
    if act.BcMarkSpent? {
      var i := AcceptedHolds(env, s, id);
    }
  }

  lemma UtxoOutside(env: Env, s: State, st: Step, s': State)
    requires !st.On? && UtxoInv(s) && Apply(env, s, st) == Some(s')
    ensures !st.RestoreOutpoints? ==> UtxoInv(s')
    ensures st.RestoreOutpoints? ==> (UtxoInv(s') <==> RestoreSafe(s, st.ops))
  {
    forall o
      ensures HeldBy(s', o) == HeldBy(s, o)
    {
    }
    if st.RestoreOutpoints? {
      RestoreIff(s, s', st.ops);
    } else {
      Dropped(s, s');
    }
  }

  // ---------------------------------------------------------------- outpoints nobody holds and nobody can take

  /** Locked, with no withdrawal and no accepted broadcast behind it. */
  ghost predicate Stranded(s: State, op: string) {
    Locked(s.utxos, op) && forall o :: op !in HeldBy(s, o)
  }

  /** Locks and holders of `op` are what they were. */
  lemma StrandedAsBefore(s: State, s': State, op: string)
    requires Locked(s'.utxos, op) == Locked(s.utxos, op)
    requires forall o :: op in HeldBy(s', o) <==> op in HeldBy(s, o)
    ensures Stranded(s', op) <==> Stranded(s, op)
  {
  }

  /** A holder lets go of its outpoints and the table stands still: all of them are stranded. */
  lemma LetGo(s: State, s': State, o0: Owner, op: string)
    requires UtxoInv(s) && s'.utxos == s.utxos && o0.Call? && HeldBy(s', o0) == []
    requires forall o :: o != o0 ==> HeldBy(s', o) == HeldBy(s, o)
    ensures Stranded(s', op) <==> Stranded(s, op) || op in HeldBy(s, o0)
  {
    if op in HeldBy(s, o0) {
      forall o
        ensures op !in HeldBy(s', o)
      {
        assert o != o0 ==> op !in HeldBy(s, o);
      }
    } else {
      StrandedAsBefore(s, s', op);
    }
  }

  /** Locking and unlocking what one owner holds strands nothing. */
  lemma LockStrandsNothing(s: State, s': State, o0: Owner, sel: seq<string>, op: string)
    requires Utxos.LockAll(s.utxos, sel) == Some(s'.utxos) && HeldBy(s, o0) == [] && HeldBy(s', o0) == sel
    requires forall o :: o != o0 ==> HeldBy(s', o) == HeldBy(s, o)
    ensures Stranded(s', op) <==> Stranded(s, op)
  {
    LockTakes(s.utxos, sel, s'.utxos, op);
    if op !in sel {
      StrandedAsBefore(s, s', op);
    }
  }

  lemma UnlockStrandsNothing(s: State, s': State, o0: Owner, op: string)
    requires UtxoInv(s) && s'.utxos == Utxos.Restore(s.utxos, HeldBy(s, o0)) && HeldBy(s', o0) == []
    requires forall o :: o != o0 ==> HeldBy(s', o) == HeldBy(s, o)
    ensures Stranded(s', op) <==> Stranded(s, op)
  {
    var ops := HeldBy(s, o0);
    assert forall i :: 0 <= i < |ops| ==> Fits(s.utxos, o0, ops[i]);
    Utxos.KnownAt(s.utxos, ops, |ops|);
    assert ops[..|ops|] == ops;
    RestoreFrees(s.utxos, ops, op);
    if op !in ops {
      StrandedAsBefore(s, s', op);
    }
  }

  lemma PassStrandsNothing(s: State, s': State, o0: Owner, o1: Owner, op: string)
    requires s'.utxos == s.utxos && o0 != o1
    requires forall o :: o != o0 && o != o1 ==> HeldBy(s', o) == HeldBy(s, o)
    requires HeldBy(s', o0) == [] && HeldBy(s, o1) == [] && HeldBy(s', o1) == HeldBy(s, o0)
    ensures Stranded(s', op) <==> Stranded(s, op)
  {
    if o :| op in HeldBy(s, o) {
      assert op in HeldBy(s', if o == o0 then o1 else o);
    }
    if o :| op in HeldBy(s', o) {
      assert op in HeldBy(s, if o == o1 then o0 else o);
    }
  }

  lemma SpendStrandsNothing(s: State, s': State, i: nat, ops: seq<string>, txHash: string, op: string)
    requires s'.utxos == Utxos.MarkSpent(s.utxos, ops, txHash) && HeldBy(s, Log(i)) == ops
    requires forall o :: HeldBy(s', o) == HeldBy(s, o)
    ensures Stranded(s', op) <==> Stranded(s, op)
  {
    SpendFreesNothing(s.utxos, ops, txHash, op);
    if op in ops {
      assert op in HeldBy(s, Log(i)) && op in HeldBy(s', Log(i));
    }
  }

  /** A Fail of a SIGNED row lets go of its outpoints without unlocking them. */
  predicate LetsGo(w: Withdrawal, act: Act, op: string) {
    act.Fail? && w.row.state.Signed? && op in w.row.outpoints
  }

  lemma StrandedByHoldings(s: State, id: Uuid, act: Act, s': State, chain: Chain, w: Withdrawal, w': Withdrawal,
                           seen: Seen, op: string)
    requires UtxoInv(s) && !act.Reorg? && Transfers(s, id, act, s', w, w', seen)
    requires s'.utxos == UtxosAfter(s.utxos, w, chain, act)
    requires act.CsLock? ==> (seen.lockOk <==> act.k <= |act.order| && Utxos.AllFree(s.utxos, act.order[..act.k]))
    requires act.BcMarkSpent? && w.pc.BcSpend? ==> exists i: nat :: HeldBy(s, Log(i)) == w.pc.ops
    ensures Stranded(s', op) <==> Stranded(s, op) || LetsGo(w, act, op)
  {
    if act.BcAccept? {
      PassStrandsNothing(s, s', Call(id), Log(|s.sent|), op);
    } else if act.CsLock? && seen.lockOk {
      LockStrandsNothing(s, s', Call(id), act.order[..act.k], op);
    } else if act.UndoOutpoints? {
      UnlockStrandsNothing(s, s', Call(id), op);
    } else if act.Fail? {
      LetGo(s, s', Call(id), op);
    } else {
      StrandedByOthers(s, id, act, s', chain, w, w', seen, op);
    }
  }

  lemma StrandedByOthers(s: State, id: Uuid, act: Act, s': State, chain: Chain, w: Withdrawal, w': Withdrawal,
                         seen: Seen, op: string)
    requires UtxoInv(s) && Transfers(s, id, act, s', w, w', seen) && (act.CsLock? ==> !seen.lockOk)
    requires !act.Reorg? && !act.BcAccept? && !act.UndoOutpoints? && !act.Fail?
    requires s'.utxos == UtxosAfter(s.utxos, w, chain, act)
    requires act.CsLock? ==> (seen.lockOk <==> act.k <= |act.order| && Utxos.AllFree(s.utxos, act.order[..act.k]))
    requires act.BcMarkSpent? && w.pc.BcSpend? ==> exists i: nat :: HeldBy(s, Log(i)) == w.pc.ops
    ensures Stranded(s', op) <==> Stranded(s, op)
  {
    if act.BcMarkSpent? && chain.Bitcoin? {
      var i: nat :| HeldBy(s, Log(i)) == w.pc.ops;
      SpendStrandsNothing(s, s', i, w.pc.ops, w.pc.txHash, op);
    } else {
      StrandedAsBefore(s, s', op);
    }
  }

  lemma StrandedByRestore(s: State, s': State, ops: seq<string>, op: string)
    requires s'.utxos == Utxos.Restore(s.utxos, ops) && forall o :: HeldBy(s', o) == HeldBy(s, o)
    ensures Stranded(s', op) <==> Stranded(s, op) && op !in Utxos.Known(s.utxos, ops)
  {
    RestoreFrees(s.utxos, ops, op);
  }

  /**
   The one way to strand an outpoint is to fail a SIGNED withdrawal that holds it, which the documentation of
   Fail says to unlock it; and the one way back is a restore that names it.
   */
  lemma StrandedIff(env: Env, s: State, id: Uuid, act: Act, s': State, op: string)
    requires Shape(env, s) && UtxoInv(s) && Counters(s.nonces) && Apply(env, s, On(id, act)) == Some(s')
    ensures id in s.wd
    ensures !act.Reorg? ==> (Stranded(s', op) <==> Stranded(s, op) || LetsGo(s.wd[id], act, op))
    ensures act.Reorg? ==> (Stranded(s', op) <==> Stranded(s, op) && op !in Utxos.Known(s.utxos, act.ops))
  {
    var chain, seen := UtxoParts(env, s, id, act, s');
    if act.Reorg? {
      StrandedByRestore(s, s', act.ops, op);
    } else {
      StrandedByHoldings(s, id, act, s', chain, s.wd[id], s'.wd[id], seen, op);
    }
  }

  lemma StrandedOutside(env: Env, s: State, st: Step, s': State, op: string)
    requires !st.On? && Apply(env, s, st) == Some(s')
    ensures !st.RestoreOutpoints? ==> (Stranded(s', op) <==> Stranded(s, op))
    ensures st.RestoreOutpoints? ==> (Stranded(s', op) <==> Stranded(s, op) && op !in Utxos.Known(s.utxos, st.ops))
  {
    forall o
      ensures HeldBy(s', o) == HeldBy(s, o)
    {
    }
    if st.RestoreOutpoints? {
      StrandedByRestore(s, s', st.ops, op);
    }
  }
}
