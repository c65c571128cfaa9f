/** Reachable saga states, step by step: the whole state after each kind of step is reachable again. */
module SagaSteps {
  import opened Prelude
  import opened Rlp
  import opened Domain
  import opened Saga
  import Nonces
  import Utxos

  /** What callers allow themselves: the steps they take in a state. */
  type Discipline = (State, Step) -> bool

  /** Steps callers may hold back: a Fail, a reorg, a restore from outside. */
  predicate IsSensitive(st: Step) {
    st.RestoreOutpoints? || (st.On? && (st.act.Fail? || st.act.Reorg?))
  }

  /** A discipline that restricts sensitive steps only. */
  ghost predicate Lenient(ok: Discipline) {
    forall s, st :: !IsSensitive(st) ==> ok(s, st)
  }

  /** Some run of the saga that keeps the discipline ends in `s`. */
  ghost predicate Reachable(env: Env, ok: Discipline, s: State) {
    exists run :: Exec(env, INITIAL, run) == Some(s) && Disciplined(env, INITIAL, run, ok)
  }

  lemma ReachInitial(env: Env, ok: Discipline)
    ensures Reachable(env, ok, INITIAL)
  {
    assert Exec(env, INITIAL, []) == Some(INITIAL) && Disciplined(env, INITIAL, [], ok);
  }

  lemma {:induction false} ExecSnoc(env: Env, run: seq<Step>, s: State, st: Step)
    requires Exec(env, INITIAL, run) == Some(s)
    ensures Exec(env, INITIAL, run + [st]) == Apply(env, s, st)
  {
    var longer := run + [st];
    assert longer != [] && longer[|longer| - 1] == st;
    assert longer[..|longer| - 1] == run;
  }

  lemma ReachNext(env: Env, ok: Discipline, s: State, st: Step, s': State)
    requires Reachable(env, ok, s) && ok(s, st) && Apply(env, s, st) == Some(s')
    ensures Reachable(env, ok, s')
  {
    var run :| Exec(env, INITIAL, run) == Some(s) && Disciplined(env, INITIAL, run, ok);
    ExecSnoc(env, run, s, st);
    assert (run + [st])[..|run|] == run;
    assert Disciplined(env, INITIAL, run + [st], ok);
  }

  // ---------------------------------------------------------------- putting runs together

  /** Adding a step to a run. */
  lemma {:induction false} Then(env: Env, s0: State, run: seq<Step>, s: State, st: Step, s': State)
    requires Exec(env, s0, run) == Some(s) && Apply(env, s, st) == Some(s')
    ensures Exec(env, s0, run + [st]) == Some(s')
  {
    assert (run + [st])[..|run + [st]| - 1] == run;
  }

  lemma TwoSteps(env: Env, s0: State, a: Step, s1: State, b: Step, s2: State)
    requires Apply(env, s0, a) == Some(s1) && Apply(env, s1, b) == Some(s2)
    ensures Exec(env, s0, [a, b]) == Some(s2)
  {
    OneStep(env, s0, a, s1);
    Then(env, s0, [a], s1, b, s2);
    assert [a] + [b] == [a, b];
  }

  lemma OneStep(env: Env, s0: State, a: Step, s1: State)
    requires Apply(env, s0, a) == Some(s1)
    ensures Exec(env, s0, [a]) == Some(s1)
  {
    assert Exec(env, s0, []) == Some(s0);
    Then(env, s0, [], s0, a, s1);
    assert [] + [a] == [a];
  }

  lemma Joined(env: Env, s0: State, a: seq<Step>, s1: State, b: seq<Step>, s2: State)
    requires Exec(env, s0, a) == Some(s1) && Exec(env, s1, b) == Some(s2)
    ensures Exec(env, s0, a + b) == Some(s2)
  {
    ExecConcat(env, s0, a, b);
  }

  /** No step of the run restores outpoints, neither after a reorg nor from outside. */
  predicate NoRestores(run: seq<Step>) {
    forall i :: 0 <= i < |run| ==> !IsRestore(run[i])
  }

  predicate IsRestore(st: Step) {
    st.RestoreOutpoints? || (st.On? && st.act.Reorg?)
  }

  /** Withdrawal `id` exists and its wallet is known. */
  predicate At(env: Env, s: State, id: Uuid) {
    id in s.wd && s.wd[id].row.req.walletId in env.wallets
  }

  function ChainOf(env: Env, s: State, id: Uuid): Chain
    requires At(env, s, id)
  {
    env.wallets[s.wd[id].row.req.walletId]
  }

  function KeyOf(env: Env, s: State, id: Uuid): string
    requires At(env, s, id)
  {
    NonceKey(env, s.wd[id].row.req)
  }

  function Put(s: State, id: Uuid, w: Withdrawal): State {
    s.(wd := s.wd[id := w])
  }

  lemma OnStep(env: Env, s: State, id: Uuid, act: Act, w': Withdrawal)
    requires At(env, s, id)
    requires Next(env, s.wd[id], ChainOf(env, s, id), act, Observe(env, s, s.wd[id], act)) == Some(w')
    ensures Apply(env, s, On(id, act)) == Some(After(env, s, id, s.wd[id], act, w'))
  {
  }

  lemma ReachOn(env: Env, ok: Discipline, s: State, id: Uuid, act: Act, w': Withdrawal)
    requires Reachable(env, ok, s) && At(env, s, id) && ok(s, On(id, act))
    requires Next(env, s.wd[id], ChainOf(env, s, id), act, Observe(env, s, s.wd[id], act)) == Some(w')
    ensures Reachable(env, ok, After(env, s, id, s.wd[id], act, w'))
  {
    OnStep(env, s, id, act, w');
    ReachNext(env, ok, s, On(id, act), After(env, s, id, s.wd[id], act, w'));
  }

  /** An approval that leaves no decision id. */
  const YES := PolicyAnswer(false, Some(Decision(true, "", "")))

  /** Steps that change nothing but their own withdrawal. */
  predicate IsLocal(act: Act) {
    || act.Approve? || act.CsBegin? || act.CsRecordNonce? || act.CsList? || act.CsRecordOutpoints?
      || act.CsNoReservation?
    || IsSigning(act) || act.BcBegin? || act.BcReject? || act.BcFinish?
  }

  lemma LocalStep(env: Env, s: State, id: Uuid, act: Act, w': Withdrawal)
    requires At(env, s, id) && IsLocal(act)
    requires Next(env, s.wd[id], ChainOf(env, s, id), act, Observe(env, s, s.wd[id], act)) == Some(w')
    ensures Apply(env, s, On(id, act)) == Some(Put(s, id, w'))
  {
    OnStep(env, s, id, act, w');
    assert After(env, s, id, s.wd[id], act, w') == Put(s, id, w');
  }

  lemma PutTwice(s: State, id: Uuid, w: Withdrawal, w': Withdrawal)
    ensures Put(Put(s, id, w), id, w') == Put(s, id, w')
  {
    assert s.wd[id := w][id := w'] == s.wd[id := w'];
  }

  lemma PutSame(s: State, id: Uuid)
    requires id in s.wd
    ensures Put(s, id, s.wd[id]) == s
  {
    assert s.wd[id := s.wd[id]] == s.wd;
  }

  /** A local step of withdrawal `id`, added to a run. */
  lemma {:induction false} Locally(env: Env, s0: State, run: seq<Step>, s: State, id: Uuid, w: Withdrawal, act: Act,
                                   w': Withdrawal)
    returns (more: seq<Step>)
    requires Exec(env, s0, run) == Some(Put(s, id, w)) && NoRestores(run) && w.row.req.walletId in env.wallets
             && IsLocal(act)
    requires Next(env, w, env.wallets[w.row.req.walletId], act, Observe(env, Put(s, id, w), w, act)) == Some(w')
    ensures Exec(env, s0, more) == Some(Put(s, id, w')) && NoRestores(more)
  {
    LocalStep(env, Put(s, id, w), id, act, w');
    PutTwice(s, id, w, w');
    Then(env, s0, run, Put(s, id, w), On(id, act), Put(s, id, w'));
    more := run + [On(id, act)];
  }

  lemma ReachLocal(env: Env, ok: Discipline, s: State, id: Uuid, act: Act, w': Withdrawal)
    requires Lenient(ok) && Reachable(env, ok, s) && At(env, s, id) && IsLocal(act)
    requires Next(env, s.wd[id], ChainOf(env, s, id), act, Observe(env, s, s.wd[id], act)) == Some(w')
    ensures Reachable(env, ok, Put(s, id, w'))
  {
    LocalStep(env, s, id, act, w');
    ReachNext(env, ok, s, On(id, act), Put(s, id, w'));
  }

  function Created(s: State, id: Uuid, req: Request): State {
    Put(s.(inflight := s.inflight + {DedupKey(req)}), id, Withdrawal(NewRow(req), CrCheck, false, None, false))
  }

  lemma CreatedStep(env: Env, s: State, id: Uuid, req: Request)
    requires id !in s.wd && req.walletId in env.wallets && DedupKey(req) !in s.inflight
    ensures Apply(env, s, Create(id, req)) == Some(Created(s, id, req))
  {
  }

  lemma ReachCreated(env: Env, ok: Discipline, s: State, id: Uuid, req: Request)
    requires Lenient(ok) && Reachable(env, ok, s) && id !in s.wd && req.walletId in env.wallets
             && DedupKey(req) !in s.inflight
    ensures Reachable(env, ok, Created(s, id, req))
  {
    CreatedStep(env, s, id, req);
    ReachNext(env, ok, s, Create(id, req), Created(s, id, req));
  }

  function Reserved(env: Env, s: State, id: Uuid): State
    requires At(env, s, id)
  {
    var key := KeyOf(env, s, id);
    Put(s.(nonces := Nonces.Increment(s.nonces, key)), id, Goto(s.wd[id], CsNonce(Nonces.Row(s.nonces, key).pending)))
  }

  lemma ReservedStep(env: Env, s: State, id: Uuid)
    requires At(env, s, id) && s.wd[id].pc.CsStart? && ChainOf(env, s, id).IsEvm()
    requires Nonces.Row(s.nonces, KeyOf(env, s, id)).pending < COUNTER_TOP
    ensures Apply(env, s, On(id, CsReserve)) == Some(Reserved(env, s, id))
  {
    OnStep(env, s, id, CsReserve, Goto(s.wd[id], CsNonce(Nonces.Row(s.nonces, KeyOf(env, s, id)).pending)));
  }

  lemma ReachReserved(env: Env, ok: Discipline, s: State, id: Uuid)
    requires Lenient(ok) && Reachable(env, ok, s) && At(env, s, id) && s.wd[id].pc.CsStart?
             && ChainOf(env, s, id).IsEvm()
    requires Nonces.Row(s.nonces, KeyOf(env, s, id)).pending < COUNTER_TOP
    ensures Reachable(env, ok, Reserved(env, s, id))
  {
    ReservedStep(env, s, id);
    ReachNext(env, ok, s, On(id, CsReserve), Reserved(env, s, id));
  }

  function GivenUp(env: Env, s: State, id: Uuid): State
    requires At(env, s, id)
  {
    Put(if ChainOf(env, s, id).Bitcoin? then s.(nonces := Nonces.Rollback(s.nonces, KeyOf(env, s, id), -1)) else s,
        id, Goto(s.wd[id], Idle))
  }

  lemma ReachGivenUp(env: Env, ok: Discipline, s: State, id: Uuid)
    requires Lenient(ok) && Reachable(env, ok, s) && At(env, s, id) && (s.wd[id].pc.CsStart? || s.wd[id].pc.CsListed?)
    ensures Reachable(env, ok, GivenUp(env, s, id))
  {
    ReachOn(env, ok, s, id, CsGiveUp, Goto(s.wd[id], Idle));
  }

  lemma ReachLocked(env: Env, ok: Discipline, s: State, id: Uuid, order: seq<string>, k: nat, t: Utxos.Table)
    requires Lenient(ok) && Reachable(env, ok, s) && At(env, s, id) && s.wd[id].pc.CsListed?
             && Selects(env, s.wd[id], order, k)
    requires Utxos.LockAll(s.utxos, order[..k]) == Some(t)
    ensures Reachable(env, ok, Put(s.(utxos := t), id, Goto(s.wd[id], CsLocked(order[..k]))))
  {
    ReachOn(env, ok, s, id, CsLock(order, k), Goto(s.wd[id], CsLocked(order[..k])));
  }

  function NonceUndone(env: Env, s: State, id: Uuid): State
    requires At(env, s, id) && s.wd[id].pc.Undo?
  {
    var w := s.wd[id];
    Put(if w.pc.n >= 0 && ChainOf(env, s, id).IsEvm()
        then s.(nonces := Nonces.Rollback(s.nonces, KeyOf(env, s, id), w.pc.n)) else s,
        id, Goto(w, UndoOps(w.pc.ops, w.pc.fail)))
  }

  lemma NonceUndoneStep(env: Env, s: State, id: Uuid)
    requires At(env, s, id) && s.wd[id].pc.Undo?
    ensures Apply(env, s, On(id, UndoNonce)) == Some(NonceUndone(env, s, id))
  {
    OnStep(env, s, id, UndoNonce, Goto(s.wd[id], UndoOps(s.wd[id].pc.ops, s.wd[id].pc.fail)));
  }

  lemma ReachNonceUndone(env: Env, ok: Discipline, s: State, id: Uuid)
    requires Lenient(ok) && Reachable(env, ok, s) && At(env, s, id) && s.wd[id].pc.Undo?
    ensures Reachable(env, ok, NonceUndone(env, s, id))
  {
    NonceUndoneStep(env, s, id);
    ReachNext(env, ok, s, On(id, UndoNonce), NonceUndone(env, s, id));
  }

  function OutpointsUndone(s: State, id: Uuid): State
    requires id in s.wd && s.wd[id].pc.UndoOps?
  {
    var w := s.wd[id];
    Put(s.(utxos := Utxos.Restore(s.utxos, w.pc.ops)), id,
        Goto(w, if w.pc.fail == "" then Idle else MarkFailed(w.pc.fail)))
  }

  lemma OutpointsUndoneStep(env: Env, s: State, id: Uuid)
    requires At(env, s, id) && s.wd[id].pc.UndoOps?
    ensures Apply(env, s, On(id, UndoOutpoints)) == Some(OutpointsUndone(s, id))
  {
    var w := s.wd[id];
    OnStep(env, s, id, UndoOutpoints, Goto(w, if w.pc.fail == "" then Idle else MarkFailed(w.pc.fail)));
  }

  lemma ReachOutpointsUndone(env: Env, ok: Discipline, s: State, id: Uuid)
    requires Lenient(ok) && Reachable(env, ok, s) && At(env, s, id) && s.wd[id].pc.UndoOps?
    ensures Reachable(env, ok, OutpointsUndone(s, id))
  {
    OutpointsUndoneStep(env, s, id);
    ReachNext(env, ok, s, On(id, UndoOutpoints), OutpointsUndone(s, id));
  }

  /** A terminal state is entered and the in-flight key is free again. */
  function Closed(s: State, id: Uuid, w': Withdrawal): State
    requires id in s.wd
  {
    Put(s.(inflight := s.inflight - {DedupKey(s.wd[id].row.req)}), id, w')
  }

  lemma ClosedStep(env: Env, s: State, id: Uuid, act: Act, w': Withdrawal)
    requires At(env, s, id) && (act.Reject? || act.RecordFailure? || act.Confirm?)
    requires Next(env, s.wd[id], ChainOf(env, s, id), act, Observe(env, s, s.wd[id], act)) == Some(w')
    ensures Apply(env, s, On(id, act)) == Some(Closed(s, id, w'))
  {
    OnStep(env, s, id, act, w');
  }

  lemma ReachClosed(env: Env, ok: Discipline, s: State, id: Uuid, act: Act, w': Withdrawal)
    requires Lenient(ok) && Reachable(env, ok, s) && At(env, s, id)
             && (act.Reject? || act.RecordFailure? || act.Confirm?)
    requires Next(env, s.wd[id], ChainOf(env, s, id), act, Observe(env, s, s.wd[id], act)) == Some(w')
    ensures Reachable(env, ok, Closed(s, id, w'))
  {
    ClosedStep(env, s, id, act, w');
    ReachNext(env, ok, s, On(id, act), Closed(s, id, w'));
  }

  function AcceptedBy(s: State, id: Uuid, txHash: string): State
    requires id in s.wd && s.wd[id].pc.BcSend?
  {
    var w := s.wd[id];
    Put(s.(sent := s.sent + [Accepted(id, w.row.req, w.pc.bytes, w.pc.n, w.pc.ops)]), id,
        w.(sent := true, pc := BcSpend(w.pc.n, w.pc.ops, txHash)))
  }

  lemma AcceptedStep(env: Env, s: State, id: Uuid, txHash: string)
    requires At(env, s, id) && s.wd[id].pc.BcSend?
    ensures Apply(env, s, On(id, BcAccept(txHash))) == Some(AcceptedBy(s, id, txHash))
  {
    var w := s.wd[id];
    OnStep(env, s, id, BcAccept(txHash), w.(sent := true, pc := BcSpend(w.pc.n, w.pc.ops, txHash)));
  }

  lemma ReachAccepted(env: Env, ok: Discipline, s: State, id: Uuid, txHash: string)
    requires Lenient(ok) && Reachable(env, ok, s) && At(env, s, id) && s.wd[id].pc.BcSend?
    ensures Reachable(env, ok, AcceptedBy(s, id, txHash))
  {
    AcceptedStep(env, s, id, txHash);
    ReachNext(env, ok, s, On(id, BcAccept(txHash)), AcceptedBy(s, id, txHash));
  }

  function Spent(env: Env, s: State, id: Uuid): State
    requires At(env, s, id) && s.wd[id].pc.BcSpend?
  {
    var w := s.wd[id];
    Put(if ChainOf(env, s, id).Bitcoin? then s.(utxos := Utxos.MarkSpent(s.utxos, w.pc.ops, w.pc.txHash)) else s,
        id, Goto(w, BcCommit(w.pc.n, w.pc.txHash)))
  }

  lemma SpentStep(env: Env, s: State, id: Uuid)
    requires At(env, s, id) && s.wd[id].pc.BcSpend?
    ensures Apply(env, s, On(id, BcMarkSpent)) == Some(Spent(env, s, id))
  {
    OnStep(env, s, id, BcMarkSpent, Goto(s.wd[id], BcCommit(s.wd[id].pc.n, s.wd[id].pc.txHash)));
  }

  lemma ReachSpent(env: Env, ok: Discipline, s: State, id: Uuid)
    requires Lenient(ok) && Reachable(env, ok, s) && At(env, s, id) && s.wd[id].pc.BcSpend?
    ensures Reachable(env, ok, Spent(env, s, id))
  {
    SpentStep(env, s, id);
    ReachNext(env, ok, s, On(id, BcMarkSpent), Spent(env, s, id));
  }

  function Committed(env: Env, s: State, id: Uuid): State
    requires At(env, s, id) && s.wd[id].pc.BcCommit?
  {
    var w := s.wd[id];
    Put(if ChainOf(env, s, id).IsEvm() && w.row.nonce.Some?
        then s.(nonces := Nonces.Advance(s.nonces, KeyOf(env, s, id), w.row.nonce.value)) else s,
        id, Goto(w, BcDone(w.pc.txHash)))
  }

  lemma CommittedStep(env: Env, s: State, id: Uuid)
    requires At(env, s, id) && s.wd[id].pc.BcCommit?
    ensures Apply(env, s, On(id, BcCommitNonce)) == Some(Committed(env, s, id))
  {
    OnStep(env, s, id, BcCommitNonce, Goto(s.wd[id], BcDone(s.wd[id].pc.txHash)));
  }

  lemma ReachCommitted(env: Env, ok: Discipline, s: State, id: Uuid)
    requires Lenient(ok) && Reachable(env, ok, s) && At(env, s, id) && s.wd[id].pc.BcCommit?
    ensures Reachable(env, ok, Committed(env, s, id))
  {
    CommittedStep(env, s, id);
    ReachNext(env, ok, s, On(id, BcCommitNonce), Committed(env, s, id));
  }

  function Failing(env: Env, s: State, id: Uuid, reason: string): State
    requires At(env, s, id)
  {
    var n := NoncePtr(s.wd[id].row);
    Put(if n >= 0 && ChainOf(env, s, id).IsEvm() then s.(nonces := Nonces.Rollback(s.nonces, KeyOf(env, s, id), n))
        else s,
        id, Goto(s.wd[id], MarkFailed(reason)))
  }

  lemma FailingStep(env: Env, s: State, id: Uuid, reason: string)
    requires At(env, s, id) && s.wd[id].pc.Idle?
    ensures Apply(env, s, On(id, Fail(reason))) == Some(Failing(env, s, id, reason))
  {
    OnStep(env, s, id, Fail(reason), Goto(s.wd[id], MarkFailed(reason)));
  }

  lemma ReachFailing(env: Env, ok: Discipline, s: State, id: Uuid, reason: string)
    requires Reachable(env, ok, s) && At(env, s, id) && s.wd[id].pc.Idle? && ok(s, On(id, Fail(reason)))
    ensures Reachable(env, ok, Failing(env, s, id, reason))
  {
    FailingStep(env, s, id, reason);
    ReachNext(env, ok, s, On(id, Fail(reason)), Failing(env, s, id, reason));
  }

  function Reorged(s: State, id: Uuid, ops: seq<string>): State
    requires id in s.wd
  {
    var w := s.wd[id];
    Put(s.(utxos := Utxos.Restore(s.utxos, ops)), id,
        if Utxos.Known(s.utxos, ops) == ops && w.row.state.Confirmed?
        then SetState(w, RowState.Broadcast, "reorg", "", "") else w)
  }

  lemma ReorgedStep(env: Env, s: State, id: Uuid, ops: seq<string>)
    requires At(env, s, id) && s.wd[id].pc.Idle?
    ensures Apply(env, s, On(id, Reorg(ops))) == Some(Reorged(s, id, ops))
  {
    var w := s.wd[id];
    OnStep(env, s, id, Reorg(ops),
           if Utxos.Known(s.utxos, ops) == ops && w.row.state.Confirmed?
           then SetState(w, RowState.Broadcast, "reorg", "", "") else w);
  }

  lemma ReachReorged(env: Env, ok: Discipline, s: State, id: Uuid, ops: seq<string>)
    requires Reachable(env, ok, s) && At(env, s, id) && s.wd[id].pc.Idle? && ok(s, On(id, Reorg(ops)))
    ensures Reachable(env, ok, Reorged(s, id, ops))
  {
    ReorgedStep(env, s, id, ops);
    ReachNext(env, ok, s, On(id, Reorg(ops)), Reorged(s, id, ops));
  }
}
