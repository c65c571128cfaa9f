/**
 What the stored tables tell about who holds an outpoint: the lock state in the outpoint table and the SIGNED rows
 decide it, at once for free and spent outpoints, and for locked ones while the wallet is at rest. So a caller can
 check beforehand whether a restore frees an outpoint that is held.
 */
module SagaRecord {
  import opened Prelude
  import opened Domain
  import opened Saga
  import opened SagaBacking
  import opened SagaShape
  import opened SagaSteps
  import opened SagaUtxo
  import SagaTheorems
  import Utxos

  predicate MarkedSpent(t: Utxos.Table, op: string) {
    op in t && t[op].lock.Spent?
  }

  /** Accepted broadcast `i` spends the outpoint. */
  predicate SpentIn(log: seq<Accepted>, i: nat, op: string) {
    i < |log| && op in log[i].ops
  }

  /** What is marked as spent is spent by an accepted broadcast. */
  ghost predicate SpentLogged(s: State) {
    forall op :: MarkedSpent(s.utxos, op) ==> exists i :: SpentIn(s.sent, i, op)
  }

  /** The call on withdrawal `id` has been accepted and is about to mark its outpoints as spent. */
  predicate Marking(s: State, id: Uuid) {
    id in s.wd && s.wd[id].pc.BcSpend?
  }

  /** What an accepted broadcast spends is marked, but for a call that is about to do so. */
  ghost predicate LogSettled(s: State) {
    forall i: nat, op :: SpentIn(s.sent, i, op) && Locked(s.utxos, op) ==> Marking(s, s.sent[i].id)
  }

  // ---------------------------------------------------------------- what a step does to marks

  lemma MarksAfter(t: Utxos.Table, w: Withdrawal, chain: Chain, act: Act, op: string)
    ensures var t' := UtxosAfter(t, w, chain, act);
            MarkedSpent(t', op) ==> MarkedSpent(t, op) || (act.BcMarkSpent? && w.pc.BcSpend? && op in w.pc.ops)
  {
  }

  lemma SpentOn(env: Env, s: State, id: Uuid, act: Act, s': State)
    requires SagaTheorems.Base(env, s) && SpentLogged(s) && Apply(env, s, On(id, act)) == Some(s')
    ensures SpentLogged(s')
  {
    StepParts(env, s, id, act, s');
    var w := s.wd[id];
    var chain := env.wallets[w.row.req.walletId];
    forall op | MarkedSpent(s'.utxos, op)
      ensures exists i :: SpentIn(s'.sent, i, op)
    {
      MarksAfter(s.utxos, w, chain, act, op);
      if MarkedSpent(s.utxos, op) {
        var i :| SpentIn(s.sent, i, op);
        assert SpentIn(s'.sent, i, op);
      } else {
        var i := MarkedEntry(env, s, id, op);
        assert SpentIn(s'.sent, i, op);
      }
    }
  }

  /** The entry of a call that marks its outpoints as spent. */
  lemma MarkedEntry(env: Env, s: State, id: Uuid, op: string) returns (i: nat)
    requires Shape(env, s) && id in s.wd && s.wd[id].pc.BcSpend? && op in s.wd[id].pc.ops
    ensures SpentIn(s.sent, i, op)
  {
    assert WithdrawalOk(env, s.wd[id]);
    i := AcceptedHolds(env, s, id);
  }

  /** An outpoint that a step locks was free, so no accepted broadcast spends it. */
  lemma NewlyLocked(s: State, w: Withdrawal, chain: Chain, act: Act, i: nat, op: string)
    requires UtxoInv(s) && SpentIn(s.sent, i, op) && Locked(UtxosAfter(s.utxos, w, chain, act), op)
    ensures Locked(s.utxos, op)
  {
    assert op in HeldBy(s, Log(i)) && Taken(s.utxos, op);
  }

  /** A call leaves the place where it marks outpoints only by marking them. */
  lemma LeavesByMarking(env: Env, chain: Chain, w: Withdrawal, act: Act, seen: Seen)
    requires w.pc.BcSpend? && Next(env, w, chain, act, seen).Some?
    ensures act.BcMarkSpent?
  {
  }

  lemma AcceptedMarks(env: Env, chain: Chain, w: Withdrawal, act: Act, seen: Seen)
    requires act.BcAccept? && Next(env, w, chain, act, seen).Some?
    ensures w.pc.BcSend? && Next(env, w, chain, act, seen).value.pc.BcSpend?
  {
  }

  /** Marking outpoints that are all tracked leaves none of them locked. */
  lemma NoneLocked(t: Utxos.Table, ops: seq<string>, txHash: string, op: string)
    requires op in ops && forall j :: 0 <= j < |ops| ==> ops[j] in t
    ensures !Locked(Utxos.MarkSpent(t, ops, txHash), op)
  {
    Utxos.KnownAt(t, ops, |ops|);
    assert ops[..|ops|] == ops;
    SpendFreesNothing(t, ops, txHash, op);
  }

  /** A call that is about to mark outpoints has a Bitcoin wallet, and its entry spends exactly these. */
  lemma MarksItsEntry(env: Env, s: State, id: Uuid, i: nat, op: string)
    requires Shape(env, s) && UtxoInv(s) && id in s.wd && s.wd[id].pc.BcSpend?
    requires SpentIn(s.sent, i, op) && s.sent[i].id == id
    ensures var w := s.wd[id];
            && w.row.req.walletId in env.wallets && env.wallets[w.row.req.walletId].Bitcoin? && op in w.pc.ops
            && forall j :: 0 <= j < |w.pc.ops| ==> w.pc.ops[j] in s.utxos
  {
    var w := s.wd[id];
    assert WithdrawalOk(env, w) && SentOk(env, s, s.sent[i]);
    assert HeldBy(s, Log(i)) == w.pc.ops;
    assert forall j :: 0 <= j < |w.pc.ops| ==> Fits(s.utxos, Log(i), w.pc.ops[j]);
  }

  lemma SettledOn(env: Env, s: State, id: Uuid, act: Act, s': State)
    requires SagaTheorems.Base(env, s) && UtxoInv(s) && LogSettled(s) && Apply(env, s, On(id, act)) == Some(s')
    ensures LogSettled(s')
  {
    StepParts(env, s, id, act, s');
    var w := s.wd[id];
    var chain, seen := env.wallets[w.row.req.walletId], Observe(env, s, w, act);
    if act.BcAccept? {
      AcceptedMarks(env, chain, w, act, seen);
    }
    if w.pc.BcSpend? {
      LeavesByMarking(env, chain, w, act, seen);
    }
    forall i: nat, op | SpentIn(s'.sent, i, op) && Locked(s'.utxos, op)
      ensures Marking(s', s'.sent[i].id)
    {
      if i < |s.sent| {
        SettledEntry(env, s, id, act, s', chain, i, op);
      }
    }
  }

  lemma SettledEntry(env: Env, s: State, id: Uuid, act: Act, s': State, chain: Chain, i: nat, op: string)
    requires SagaTheorems.Base(env, s) && UtxoInv(s) && LogSettled(s) && Writes(s, id, act, s')
    requires s.wd[id].row.req.walletId in env.wallets && chain == env.wallets[s.wd[id].row.req.walletId]
    requires s'.utxos == UtxosAfter(s.utxos, s.wd[id], chain, act) && Locked(s'.utxos, op)
    requires i < |s.sent| && s'.sent[i] == s.sent[i] && SpentIn(s.sent, i, op)
    requires s.wd[id].pc.BcSpend? ==> act.BcMarkSpent?
    ensures Marking(s', s'.sent[i].id)
  {
    NewlyLocked(s, s.wd[id], chain, act, i, op);
    assert Marking(s, s.sent[i].id);
    if s.sent[i].id == id {
      MarksItsEntry(env, s, id, i, op);
      NoneLocked(s.utxos, s.wd[id].pc.ops, s.wd[id].pc.txHash, op);
    }
  }

  lemma RecordOutside(env: Env, s: State, st: Step, s': State)
    requires !st.On? && SagaTheorems.Base(env, s) && SpentLogged(s) && LogSettled(s) && Apply(env, s, st) == Some(s')
    requires UtxoInv(s)
    ensures SpentLogged(s') && LogSettled(s')
  {
    forall op
      ensures MarkedSpent(s'.utxos, op) ==> MarkedSpent(s.utxos, op)
      ensures Locked(s'.utxos, op) ==> Locked(s.utxos, op)
    {
    }
    forall op | MarkedSpent(s'.utxos, op)
      ensures exists i :: SpentIn(s'.sent, i, op)
    {
      var i :| SpentIn(s.sent, i, op);
      assert SpentIn(s'.sent, i, op);
    }
    forall i: nat, op | SpentIn(s'.sent, i, op) && Locked(s'.utxos, op)
      ensures Marking(s', s'.sent[i].id)
    {
      assert SpentIn(s.sent, i, op) && Marking(s, s.sent[i].id);
    }
  }

  /** What holds in every state of a run that restored nothing held. */
  ghost predicate Recorded(env: Env, s: State) {
    SagaTheorems.Base(env, s) && UtxoInv(s) && Backed(env, s) && SpentLogged(s) && LogSettled(s)
  }

  lemma {:induction false} RecordedRun(env: Env, run: seq<Step>)
    requires Exec(env, INITIAL, run).Some? && Disciplined(env, INITIAL, run, SagaTheorems.RestoreDiscipline())
    ensures Recorded(env, Exec(env, INITIAL, run).value)
  {
    SagaTheorems.BaseRun(env, run);
    SagaTheorems.UtxoRun(env, run);
    BackedRun(env, run);
    if run != [] {
      var before, st := run[..|run| - 1], run[|run| - 1];
      RecordedRun(env, before);
      var s, s' := Exec(env, INITIAL, before).value, Exec(env, INITIAL, run).value;
      if st.On? {
        SpentOn(env, s, st.id, st.act, s');
        SettledOn(env, s, st.id, st.act, s');
      } else {
        RecordOutside(env, s, st, s');
      }
    }
  }

  // ---------------------------------------------------------------- what the tables tell

  /** The row is SIGNED and lists the outpoint. */
  predicate SignedLists(s: State, id: Uuid, op: string) {
    id in s.wd && s.wd[id].row.state.Signed? && op in s.wd[id].row.outpoints
  }

  /** The table says the outpoint is spent, or that it is locked and a SIGNED row lists it. */
  ghost predicate OnRecord(s: State, op: string) {
    MarkedSpent(s.utxos, op) || (Locked(s.utxos, op) && exists id :: SignedLists(s, id, op))
  }

  /** No call is under way on a withdrawal of the wallet. */
  predicate Resting(s: State, walletId: Uuid) {
    forall id :: id in s.wd && s.wd[id].row.req.walletId == walletId ==> s.wd[id].pc.Idle?
  }

  /** The tables decide: the outpoint is free or spent, or its wallet is at rest. */
  predicate Decided(s: State, op: string) {
    op in s.utxos && s.utxos[op].lock.Locked? ==> Resting(s, s.utxos[op].walletId)
  }

  /** Somebody holds the outpoint exactly when it is on record. */
  lemma HeldIffOnRecord(env: Env, s: State, op: string)
    requires Recorded(env, s) && Decided(s, op)
    ensures (exists o :: op in HeldBy(s, o)) <==> OnRecord(s, op)
  {
    if o :| op in HeldBy(s, o) {
      HolderIsOnRecord(env, s, o, op);
    }
    if MarkedSpent(s.utxos, op) {
      var i :| SpentIn(s.sent, i, op);
      assert op in HeldBy(s, Log(i));
    } else if Locked(s.utxos, op) {
      forall id | SignedLists(s, id, op)
        ensures op in HeldBy(s, Call(id))
      {
        assert RowOk(s.utxos, s.wd[id].row);
      }
    }
  }

  lemma HolderIsOnRecord(env: Env, s: State, o: Owner, op: string)
    requires Recorded(env, s) && Decided(s, op) && op in HeldBy(s, o)
    ensures OnRecord(s, op)
  {
    assert Fits(s.utxos, o, op) && Belongs(s, o, op);
    match o
    case Call(id) => assert SignedLists(s, id, op);
    case Log(i) => LogIsMarked(env, s, i, op);
  }

  lemma LogIsMarked(env: Env, s: State, i: nat, op: string)
    requires Recorded(env, s) && Decided(s, op) && SpentIn(s.sent, i, op)
    ensures !Locked(s.utxos, op)
  {
    assert op in HeldBy(s, Log(i)) && Belongs(s, Log(i), op);
    assert SentOk(env, s, s.sent[i]);
    assert Locked(s.utxos, op) ==> Marking(s, s.sent[i].id);
  }

  /** None of the outpoints that the restore would free is on record. */
  ghost predicate OffRecord(s: State, ops: seq<string>) {
    forall op :: op in Utxos.Known(s.utxos, ops) ==> !OnRecord(s, op)
  }

  /** The tables decide about all of them. */
  ghost predicate AllDecided(s: State, ops: seq<string>) {
    forall op :: op in Utxos.Known(s.utxos, ops) ==> Decided(s, op)
  }

  /** A restore frees nothing that is held exactly when none of what it names is on record. */
  lemma SafeIffOffRecord(env: Env, s: State, ops: seq<string>)
    requires Recorded(env, s) && AllDecided(s, ops)
    ensures RestoreSafe(s, ops) <==> OffRecord(s, ops)
  {
    forall op | op in Utxos.Known(s.utxos, ops)
      ensures (exists o :: op in HeldBy(s, o)) <==> OnRecord(s, op)
    {
      HeldIffOnRecord(env, s, op);
    }
  }

  /** A reorg keeps what is held locked or spent exactly when none of what it names is on record. */
  lemma ReorgKeepsIffOffRecord(env: Env, s: State, id: Uuid, ops: seq<string>, s': State)
    requires Recorded(env, s) && AllDecided(s, ops) && Apply(env, s, On(id, Reorg(ops))) == Some(s')
    ensures UtxoInv(s') <==> OffRecord(s, ops)
  {
    SafeIffOffRecord(env, s, ops);
    UtxoStep(env, s, id, Reorg(ops), s');
  }

  /**
   Without any look at the wallet's calls: a restore that names a spent outpoint frees one that is held, and a
   restore of free outpoints frees none.
   */
  lemma SpentIsHeld(env: Env, s: State, ops: seq<string>)
    requires Recorded(env, s)
    ensures (exists op :: op in Utxos.Known(s.utxos, ops) && MarkedSpent(s.utxos, op)) ==> !RestoreSafe(s, ops)
    ensures (forall op :: op in Utxos.Known(s.utxos, ops) ==> !Taken(s.utxos, op)) ==> RestoreSafe(s, ops)
  {
    if op :| op in Utxos.Known(s.utxos, ops) && MarkedSpent(s.utxos, op) {
      HeldIffOnRecord(env, s, op);
    }
    if forall op :: op in Utxos.Known(s.utxos, ops) ==> !Taken(s.utxos, op) {
      SafeIffOffRecord(env, s, ops);
    }
  }

  // ---------------------------------------------------------------- callers that look first

  /** Restores only of outpoints about which the tables decide, and which are not on record. */
  ghost function RestoreChecked(): Discipline {
    (s: State, st: Step) =>
      && (st.RestoreOutpoints? ==> AllDecided(s, st.ops) && OffRecord(s, st.ops))
      && (st.On? && st.act.Reorg? ==> AllDecided(s, st.act.ops) && OffRecord(s, st.act.ops))
  }

  /** Callers that look at the outpoint table and the rows first meet the condition for exclusive outpoints. */
  lemma {:induction false} CheckedRestoresAreSafe(env: Env, run: seq<Step>)
    requires Exec(env, INITIAL, run).Some? && Disciplined(env, INITIAL, run, RestoreChecked())
    ensures Disciplined(env, INITIAL, run, SagaTheorems.RestoreDiscipline())
  {
    if run != [] {
      var before, st := run[..|run| - 1], run[|run| - 1];
      CheckedRestoresAreSafe(env, before);
      RecordedRun(env, before);
      var s := Exec(env, INITIAL, before).value;
      if st.RestoreOutpoints? {
        SafeIffOffRecord(env, s, st.ops);
      } else if st.On? && st.act.Reorg? {
        SafeIffOffRecord(env, s, st.act.ops);
      }
    }
  }
}
