/**
 What every reachable saga state looks like, whatever the discipline: row and call agree, approvals
 precede signatures, a withdrawal is accepted at most once, and stored bytes are the assembled ones.
 */
module SagaShape {
  import opened Prelude
  import opened Rlp
  import opened Domain
  import opened Saga
  import Nonces

  // ---------------------------------------------------------------- one withdrawal

  /** The reservations a call carries are the ones its row records, and fit the chain. */
  predicate Carries(chain: Chain, row: Row, n: int, ops: seq<string>) {
    n == NoncePtr(row) && ops == row.outpoints && (chain.IsEvm() ==> n >= 0)
  }

  /** The signer was asked for this request's own payload, and the bytes are assembled from its answer. */
  predicate IsProduct(env: Env, req: Request, sig: Option<Asked>, n: int, ops: seq<string>, bytes: Bytes) {
    && sig.Some? && env.build(req, n, ops) == Some(sig.value.payload)
    && env.assemble(req, n, ops, sig.value.answer) == Some(bytes)
  }

  predicate PcOk(env: Env, chain: Chain, w: Withdrawal) {
    var row := w.row;
    match w.pc
    case Idle => true
    case CrCheck => row.state.Pending?
    case CsStart => row.state.Whitelisted?
    case CsNonce(n) => row.state.Whitelisted? && chain.IsEvm() && n >= 0
    case CsListed(_) => row.state.Whitelisted? && chain.Bitcoin?
    case CsLocked(_) => row.state.Whitelisted? && chain.Bitcoin?
    case CsReady(n, ops) => row.state.Whitelisted? && Carries(chain, row, n, ops)
    case CsBuilt(n, ops, payload) =>
      row.state.Whitelisted? && Carries(chain, row, n, ops) && env.build(row.req, n, ops) == Some(payload)
    case CsAssembled(n, ops, bytes) =>
      row.state.Whitelisted? && Carries(chain, row, n, ops) && IsProduct(env, row.req, w.sig, n, ops, bytes)
    case CsPersisted(n, ops) =>
      row.state.Whitelisted? && Carries(chain, row, n, ops) && IsProduct(env, row.req, w.sig, n, ops, row.signed)
    case Undo(n, ops, fail) =>
      (row.state.Whitelisted? || (row.state.Signed? && fail != "")) && Carries(chain, row, n, ops) && !w.sent
    case UndoOps(_, fail) => (row.state.Whitelisted? || (row.state.Signed? && fail != "")) && !w.sent
    case MarkFailed(_) => true
    case BcSend(n, ops, bytes) =>
      row.state.Signed? && Carries(chain, row, n, ops) && bytes == row.signed && !w.sent
    case BcSpend(n, ops, _) => row.state.Signed? && Carries(chain, row, n, ops) && w.sent
    case BcCommit(_, _) => row.state.Signed? && w.sent
    case BcDone(_) => row.state.Signed? && w.sent
  }

  predicate AfterAcceptance(pc: Pc) {
    pc.BcSpend? || pc.BcCommit? || pc.BcDone?
  }

  predicate InOrder(env: Env, chain: Chain, w: Withdrawal) {
    var row := w.row;
    && (chain.IsEvm() || row.nonce.None?)
    && (chain.Bitcoin? || row.outpoints == [])
    && (row.nonce.Some? ==> row.nonce.value >= 0)
    && (row.state.Pending? || row.state.Failed? || w.approved)
    && (w.sent ==> w.approved && w.sig.Some?)
    && (w.sent ==> row.state.Broadcast? || row.state.Confirmed? || row.state.Failed?
                   || (row.state.Signed? && AfterAcceptance(w.pc)))
    && (row.state.Broadcast? || row.state.Confirmed? || row.txHash != "" ==> w.sent)
    && (row.state.Signed? ==> && (chain.IsEvm() ==> row.nonce.Some?)
                              && IsProduct(env, row.req, w.sig, NoncePtr(row), row.outpoints, row.signed))
    && PcOk(env, chain, w)
  }

  /** What an accepted broadcast rests on is never changed afterwards. */
  predicate KeepsBasis(w: Withdrawal, w': Withdrawal) {
    && w'.row.req == w.row.req
    && (w.approved ==> w'.approved)
    && (w.sent ==> w'.sent && w'.sig == w.sig && w'.row.nonce == w.row.nonce && w'.row.outpoints == w.row.outpoints)
  }

  /** One step keeps a withdrawal in order and the basis of an acceptance untouched. */
  predicate GoodStep(env: Env, chain: Chain, w: Withdrawal, act: Act, w': Withdrawal) {
    && InOrder(env, chain, w') && KeepsBasis(w, w')
    && (w'.sent != w.sent ==> act.BcAccept?)
    && (act.BcAccept? ==> w.pc.BcSend? && !w.sent && w'.sent && w'.sig == w.sig
                          && Carries(chain, w'.row, w.pc.n, w.pc.ops))
  }

  lemma ReservationOk(env: Env, chain: Chain, w: Withdrawal, act: Act, seen: Seen)
    requires IsReservation(act) && InOrder(env, chain, w) && seen.pending >= 0
             && Reservation(env, w, chain, act, seen).Some?
    ensures GoodStep(env, chain, w, act, Reservation(env, w, chain, act, seen).value)
  {
  }

  lemma SigningOk(env: Env, chain: Chain, w: Withdrawal, act: Act)
    requires IsSigning(act) && InOrder(env, chain, w) && Signing(env, w, act).Some?
    ensures GoodStep(env, chain, w, act, Signing(env, w, act).value)
  {
  }

  lemma RollingBackOk(env: Env, chain: Chain, w: Withdrawal, act: Act)
    requires IsRollback(act) && InOrder(env, chain, w) && RollingBack(w, act).Some?
    ensures GoodStep(env, chain, w, act, RollingBack(w, act).value)
  {
  }

  lemma BroadcastingOk(env: Env, chain: Chain, w: Withdrawal, act: Act)
    requires IsBroadcast(act) && InOrder(env, chain, w) && Broadcasting(w, act).Some?
    ensures GoodStep(env, chain, w, act, Broadcasting(w, act).value)
  {
  }

  lemma FeedbackOk(env: Env, chain: Chain, w: Withdrawal, act: Act, seen: Seen)
    requires IsFeedback(act) && InOrder(env, chain, w) && Feedback(w, act, seen).Some?
    ensures GoodStep(env, chain, w, act, Feedback(w, act, seen).value)
  {
  }

  lemma VerdictOk(env: Env, chain: Chain, w: Withdrawal, act: Act)
    requires (act.Approve? || act.Reject?) && InOrder(env, chain, w) && Verdict(w, act).Some?
    ensures GoodStep(env, chain, w, act, Verdict(w, act).value)
  {
  }

  lemma NextOk(env: Env, chain: Chain, w: Withdrawal, act: Act, seen: Seen)
    requires InOrder(env, chain, w) && seen.pending >= 0
    requires Next(env, w, chain, act, seen).Some?
    ensures GoodStep(env, chain, w, act, Next(env, w, chain, act, seen).value)
  {
    if IsReservation(act) {
      ReservationOk(env, chain, w, act, seen);
    } else if IsSigning(act) {
      SigningOk(env, chain, w, act);
    } else if IsRollback(act) {
      RollingBackOk(env, chain, w, act);
    } else if IsBroadcast(act) {
      BroadcastingOk(env, chain, w, act);
    } else if IsFeedback(act) {
      FeedbackOk(env, chain, w, act, seen);
    } else {
      VerdictOk(env, chain, w, act);
    }
  }

  // ---------------------------------------------------------------- the whole state

  ghost predicate SentOk(env: Env, s: State, a: Accepted) {
    && a.id in s.wd && a.req.walletId in env.wallets
    && var w := s.wd[a.id];
    && w.row.req == a.req && w.sent && w.approved && a.n == NoncePtr(w.row) && a.ops == w.row.outpoints
    && IsProduct(env, a.req, w.sig, a.n, a.ops, a.bytes)
    && (env.wallets[a.req.walletId].IsEvm() ==> a.n >= 0)
  }

  ghost predicate WithdrawalOk(env: Env, w: Withdrawal) {
    w.row.req.walletId in env.wallets && InOrder(env, env.wallets[w.row.req.walletId], w)
  }

  ghost predicate Counters(t: Nonces.Table) {
    forall key :: key in t ==> t[key].pending >= 0
  }

  /** The log has an entry of withdrawal `id`. */
  predicate InLog(log: seq<Accepted>, id: Uuid) {
    exists i :: 0 <= i < |log| && log[i].id == id
  }

  ghost predicate Shape(env: Env, s: State) {
    && (forall id :: id in s.wd ==> WithdrawalOk(env, s.wd[id]))
    && (forall i :: 0 <= i < |s.sent| ==> SentOk(env, s, s.sent[i]))
    && (forall i, j :: 0 <= i < j < |s.sent| ==> s.sent[i].id != s.sent[j].id)
    && (forall id :: id in s.wd && s.wd[id].sent ==> InLog(s.sent, id))
  }

  lemma SentKept(env: Env, s: State, s': State, id: Uuid, a: Accepted)
    requires SentOk(env, s, a)
    requires id in s.wd && id in s'.wd && s'.wd == s.wd[id := s'.wd[id]] && KeepsBasis(s.wd[id], s'.wd[id])
    ensures SentOk(env, s', a)
  {
  }

  /** A step on `id` whose withdrawal-level part is `Next`, whatever it saw in the tables. */
  ghost predicate Moves(env: Env, s: State, id: Uuid, act: Act, s': State, seen: Seen) {
    && id in s.wd && id in s'.wd && s.wd[id].row.req.walletId in env.wallets
    && s'.wd == s.wd[id := s'.wd[id]] && s'.external == s.external
    && Next(env, s.wd[id], env.wallets[s.wd[id].row.req.walletId], act, seen) == Some(s'.wd[id])
    && s'.sent == SentAfter(s.sent, id, s.wd[id], act)
    && seen.pending >= 0
  }

  lemma ShapeNext(env: Env, s: State, id: Uuid, act: Act, s': State, seen: Seen)
    requires Shape(env, s) && Moves(env, s, id, act, s', seen)
    ensures Shape(env, s')
  {
    var w := s.wd[id];
    assert WithdrawalOk(env, w);
    NextOk(env, env.wallets[w.row.req.walletId], w, act, seen);
    ShapeKept(env, s, id, act, s');
  }

  /** What keeps the whole state in shape: the one withdrawal takes a good step, and the log follows it. */
  lemma ShapeKept(env: Env, s: State, id: Uuid, act: Act, s': State)
    requires Shape(env, s) && id in s.wd && id in s'.wd && s'.wd == s.wd[id := s'.wd[id]]
    requires WithdrawalOk(env, s.wd[id])
    requires GoodStep(env, env.wallets[s.wd[id].row.req.walletId], s.wd[id], act, s'.wd[id])
    requires s'.sent == SentAfter(s.sent, id, s.wd[id], act)
    ensures Shape(env, s')
  {
    EntriesKept(env, s, id, act, s');
    LogGrows(s, id, act, s');
  }

  lemma EntriesKept(env: Env, s: State, id: Uuid, act: Act, s': State)
    requires Shape(env, s) && id in s.wd && id in s'.wd && s'.wd == s.wd[id := s'.wd[id]]
    requires WithdrawalOk(env, s.wd[id])
    requires GoodStep(env, env.wallets[s.wd[id].row.req.walletId], s.wd[id], act, s'.wd[id])
    requires s'.sent == SentAfter(s.sent, id, s.wd[id], act)
    ensures forall i :: 0 <= i < |s'.sent| ==> SentOk(env, s', s'.sent[i])
    ensures forall i, j :: 0 <= i < j < |s'.sent| ==> s'.sent[i].id != s'.sent[j].id
  {
    OldEntries(env, s, id, act, s');
    if act.BcAccept? {
      NewEntry(env, s, id, act, s');
    } else {
      assert s'.sent == s.sent;
    }
  }

  lemma OldEntries(env: Env, s: State, id: Uuid, act: Act, s': State)
    requires forall i :: 0 <= i < |s.sent| ==> SentOk(env, s, s.sent[i])
    requires id in s.wd && id in s'.wd && s'.wd == s.wd[id := s'.wd[id]] && KeepsBasis(s.wd[id], s'.wd[id])
    ensures forall i :: 0 <= i < |s.sent| ==> SentOk(env, s', s.sent[i]) && (s.sent[i].id == id ==> s.wd[id].sent)
  {
    forall i | 0 <= i < |s.sent|
      ensures SentOk(env, s', s.sent[i])
    {
      SentKept(env, s, s', id, s.sent[i]);
    }
  }

  lemma NewEntry(env: Env, s: State, id: Uuid, act: Act, s': State)
    requires act.BcAccept? && id in s.wd && id in s'.wd && WithdrawalOk(env, s.wd[id])
    requires GoodStep(env, env.wallets[s.wd[id].row.req.walletId], s.wd[id], act, s'.wd[id])
    requires s'.sent == SentAfter(s.sent, id, s.wd[id], act)
    ensures |s'.sent| == |s.sent| + 1 && s'.sent[..|s.sent|] == s.sent && SentOk(env, s', s'.sent[|s.sent|])
    ensures s'.sent[|s.sent|].id == id && !s.wd[id].sent
  {
  }

  /** Whoever was accepted stays in the log, and an acceptance adds its withdrawal. */
  lemma LogGrows(s: State, id: Uuid, act: Act, s': State)
    requires id in s.wd && id in s'.wd && s'.wd == s.wd[id := s'.wd[id]]
    requires s'.sent == SentAfter(s.sent, id, s.wd[id], act) && (act.BcAccept? ==> s.wd[id].pc.BcSend?)
    requires s'.wd[id].sent != s.wd[id].sent ==> act.BcAccept?
    requires forall x :: x in s.wd && s.wd[x].sent ==> InLog(s.sent, x)
    ensures forall x :: x in s'.wd && s'.wd[x].sent ==> InLog(s'.sent, x)
  {
    forall x | x in s'.wd && s'.wd[x].sent
      ensures InLog(s'.sent, x)
    {
      if x in s.wd && s.wd[x].sent {
        var i :| 0 <= i < |s.sent| && s.sent[i].id == x;
        assert s'.sent[i].id == x;
      } else {
        assert s'.sent[|s.sent|].id == x;
      }
    }
  }

  /** The parts of a step on one withdrawal: what it does to the row, and to each table. */
  lemma StepParts(env: Env, s: State, id: Uuid, act: Act, s': State)
    requires Apply(env, s, On(id, act)) == Some(s') && Counters(s.nonces)
    ensures id in s.wd && s.wd[id].row.req.walletId in env.wallets
    ensures var w := s.wd[id];
            var chain, seen, key := env.wallets[w.row.req.walletId], Observe(env, s, w, act), NonceKey(env, w.row.req);
            && Moves(env, s, id, act, s', seen)
            && s'.nonces == NoncesAfter(s.nonces, key, w, chain, act, seen)
            && s'.utxos == UtxosAfter(s.utxos, w, chain, act)
            && s'.inflight == InflightAfter(s.inflight, w, act)
  {
  }

  lemma ShapeOutside(env: Env, s: State, st: Step, s': State)
    requires !st.On? && Shape(env, s) && Apply(env, s, st) == Some(s')
    ensures Shape(env, s')
  {
    ShapeGrows(env, s, s');
  }

  /** New withdrawals in order, the old ones and the log as they were. */
  lemma ShapeGrows(env: Env, s: State, s': State)
    requires Shape(env, s) && s'.sent == s.sent
    requires forall id :: id in s.wd ==> id in s'.wd && s'.wd[id] == s.wd[id]
    requires forall id :: id in s'.wd && id !in s.wd ==> WithdrawalOk(env, s'.wd[id]) && !s'.wd[id].sent
    ensures Shape(env, s')
  {
    forall i | 0 <= i < |s.sent|
      ensures SentOk(env, s', s.sent[i])
    {
      assert SentOk(env, s, s.sent[i]);
    }
  }
}
