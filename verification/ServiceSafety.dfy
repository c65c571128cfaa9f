/** What the saga's theorems say about every state of the running service. */
module ServiceSafety {
  import opened Prelude
  import opened Rlp
  import opened Domain
  import opened Saga
  import opened SagaSteps
  import Eip155
  import SagaCover
  import SagaDedup
  import SagaRecord
  import SagaTheorems
  import SagaUtxo
  import TxBuilder
  import Utxos
  import WithdrawalService

  lemma ReachableSafe(env: Env, ok: Discipline, s: State, i: nat)
    requires Reachable(env, ok, s) && i < |s.sent|
    ensures var a := s.sent[i];
            && a.id in s.wd && s.wd[a.id].approved && s.wd[a.id].row.req == a.req && s.wd[a.id].sig.Some?
            && env.build(a.req, a.n, a.ops) == Some(s.wd[a.id].sig.value.payload)
            && env.assemble(a.req, a.n, a.ops, s.wd[a.id].sig.value.answer) == Some(a.bytes)
            && forall j :: 0 <= j < |s.sent| && j != i ==> s.sent[j].id != a.id
  {
    var run :| Exec(env, INITIAL, run) == Some(s) && Disciplined(env, INITIAL, run, ok);
    SagaTheorems.SagaSafety(env, run, i);
  }

  /**
   At every point of the service's life, whatever its callers do: a transaction the gateway accepted belongs to
   a stored withdrawal that was created with an answer of the policy engine that is no error and approves, the
   signer was asked for the payload of that request and reservation, the bytes are assembled from its answer, and
   it is the only one of its withdrawal.
   */
  lemma ServiceIsSafe(svc: WithdrawalService.Service, i: nat)
    requires svc.Mirrors() && i < |svc.s.sent|
    ensures var a := svc.s.sent[i];
            && a.id in svc.rows && svc.rows[a.id].req == a.req && svc.s.wd[a.id].sig.Some? && a.id in svc.answers
            && var answer := svc.answers[a.id];
            && !answer.failed && answer.decision.Some? && answer.decision.value.approved
            && svc.env.build(a.req, a.n, a.ops) == Some(svc.s.wd[a.id].sig.value.payload)
            && svc.env.assemble(a.req, a.n, a.ops, svc.s.wd[a.id].sig.value.answer) == Some(a.bytes)
            && forall j :: 0 <= j < |svc.s.sent| && j != i ==> svc.s.sent[j].id != a.id
  {
    ReachableSafe(svc.env, svc.allowed, svc.s, i);
  }

  /** Whatever its callers do, what the service broadcasts for an EVM wallet pays as the stored request says. */
  lemma ServicePays(svc: WithdrawalService.Service, wallets: map<Uuid, Chain>, cfg: TxBuilder.Config, i: nat)
    requires svc.Mirrors() && svc.env == TxBuilder.ServiceEnv(wallets, cfg) && i < |svc.s.sent|
    requires svc.s.sent[i].req.walletId in wallets && wallets[svc.s.sent[i].req.walletId].IsEvm()
    ensures var a := svc.s.sent[i];
            && a.id in svc.rows && var req := svc.rows[a.id].req;
            && cfg.parseInt(req.amount).Some?
            && TxBuilder.Pays(a.bytes, cfg.gasPrice, req.to, cfg.parseInt(req.amount).value)
  {
    var run :| Exec(svc.env, INITIAL, run) == Some(svc.s) && Disciplined(svc.env, INITIAL, run, svc.allowed);
    SagaTheorems.AcceptedPays(wallets, cfg, run, i);
  }

  /** Whatever its callers do, what the service broadcasts for a Bitcoin wallet spends enough, and no more than that. */
  lemma ServiceCovers(svc: WithdrawalService.Service, wallets: map<Uuid, Chain>, cfg: TxBuilder.Config, i: nat)
    requires svc.Mirrors() && svc.env == TxBuilder.ServiceEnv(wallets, cfg) && i < |svc.s.sent|
    requires svc.s.sent[i].req.walletId in wallets && wallets[svc.s.sent[i].req.walletId].Bitcoin?
    ensures var a, t := svc.s.sent[i], svc.utxos.utxos;
            && a.ops != [] && Utxos.NoDup(a.ops) && SagaCover.AllOwned(t, a.req.walletId, a.ops)
            && cfg.parseDec(a.req.amount).Some?
            && SagaCover.Sum(t, a.ops[..|a.ops| - 1]) < cfg.parseDec(a.req.amount).value <= SagaCover.Sum(t, a.ops)
  {
    var run :| Exec(svc.env, INITIAL, run) == Some(svc.s) && Disciplined(svc.env, INITIAL, run, svc.allowed);
    SagaCover.AcceptedIsCovered(wallets, cfg, run, i);
  }

  // ---------------------------------------------------------------- what callers promise

  /** Callers who keep to `ok` keep to `rule`. */
  ghost predicate Within(ok: Discipline, rule: Discipline) {
    forall s, st :: ok(s, st) ==> rule(s, st)
  }

  /** A run of the service, with the rule its callers keep. */
  lemma RunOf(svc: WithdrawalService.Service, rule: Discipline) returns (run: seq<Step>)
    requires svc.Mirrors() && Within(svc.allowed, rule)
    ensures Exec(svc.env, INITIAL, run) == Some(svc.s) && Disciplined(svc.env, INITIAL, run, rule)
  {
    run :| Exec(svc.env, INITIAL, run) == Some(svc.s) && Disciplined(svc.env, INITIAL, run, svc.allowed);
    SagaTheorems.Weaken(svc.env, INITIAL, run, svc.allowed, rule);
  }

  /** With callers that fail only SIGNED rows, accepted EVM transactions of one wallet decode to different nonces. */
  lemma ServiceNoncesDiffer(svc: WithdrawalService.Service, wallets: map<Uuid, Chain>, cfg: TxBuilder.Config, i: nat,
                            j: nat)
    requires svc.Mirrors() && Within(svc.allowed, SagaTheorems.FailOnlySigned())
    requires svc.env == TxBuilder.ServiceEnv(wallets, cfg)
    requires i < j < |svc.s.sent| && svc.s.sent[i].req.walletId == svc.s.sent[j].req.walletId
    requires svc.s.sent[i].req.walletId in wallets && wallets[svc.s.sent[i].req.walletId].IsEvm()
    ensures var a, b := Eip155.DecodedNonce(svc.s.sent[i].bytes), Eip155.DecodedNonce(svc.s.sent[j].bytes);
            a.Some? && b.Some? && a != b
  {
    var run := RunOf(svc, SagaTheorems.FailOnlySigned());
    SagaTheorems.SignedOnlyIsSafe(svc.env, run);
    SagaTheorems.AcceptedNoncesDiffer(wallets, cfg, run, i, j);
  }

  /**
   With callers that restore only what the tables allow, no outpoint is reserved by two SIGNED rows, spent by two
   accepted transactions, or both; and what is reserved or spent is not free in the outpoint store.
   */
  lemma ServiceOutpointsExclusive(svc: WithdrawalService.Service, op: string)
    requires svc.Mirrors() && Within(svc.allowed, SagaRecord.RestoreChecked())
    ensures var s := svc.s;
            && (forall a, b :: SagaTheorems.SignedReserves(s, a, op) && SagaTheorems.SignedReserves(s, b, op) ==>
                a == b)
            && (forall i, j :: SagaTheorems.Spends(s, i, op) && SagaTheorems.Spends(s, j, op) ==> i == j)
            && (forall a, i :: SagaTheorems.SignedReserves(s, a, op) ==> !SagaTheorems.Spends(s, i, op))
            && (forall a :: SagaTheorems.SignedReserves(s, a, op) ==> SagaUtxo.Taken(svc.utxos.utxos, op))
            && (forall i :: SagaTheorems.Spends(s, i, op) ==> SagaUtxo.Taken(svc.utxos.utxos, op))
  {
    var run := RunOf(svc, SagaRecord.RestoreChecked());
    SagaRecord.CheckedRestoresAreSafe(svc.env, run);
    SagaTheorems.OutpointsExclusive(svc.env, run, op);
  }

  /** Row `id` is stored, not closed, and its request has the key. */
  predicate HasKey(rows: map<Uuid, Row>, id: Uuid, key: string) {
    id in rows && !rows[id].state.Terminal() && DedupKey(rows[id].req) == key
  }

  /**
   With callers that fail only rows that are not closed and reorg no CONFIRMED one, a key is in flight exactly when
   a stored row that is not closed has it, and only one does.
   */
  lemma ServiceKeysAreLive(svc: WithdrawalService.Service, key: string)
    requires svc.Mirrors() && Within(svc.allowed, SagaTheorems.LiveFailsOnly())
    ensures key in svc.inflight <==> exists id :: HasKey(svc.rows, id, key)
    ensures forall a, b :: HasKey(svc.rows, a, key) && HasKey(svc.rows, b, key) ==> a == b
  {
    var run := RunOf(svc, SagaTheorems.LiveFailsOnly());
    SagaTheorems.LiveFailsAreSafe(svc.env, run);
    SagaTheorems.DedupRun(svc.env, run);
    forall id
      ensures SagaDedup.LiveKey(svc.s.wd, id, key) <==> HasKey(svc.rows, id, key)
    {
    }
  }

  // ---------------------------------------------------------------- careful callers

  /**
   Callers that fail only SIGNED rows, reorg no CONFIRMED one, and restore only outpoints that the tables decide
   about and that are not on record.
   */
  ghost function Careful(): Discipline {
    (s: State, st: Step) =>
      && (st.On? && st.act.Fail? && st.id in s.wd ==> s.wd[st.id].row.state.Signed?)
      && (st.On? && st.act.Reorg? && st.id in s.wd ==> !s.wd[st.id].row.state.Confirmed?)
      && (st.RestoreOutpoints? ==> SagaRecord.AllDecided(s, st.ops) && SagaRecord.OffRecord(s, st.ops))
      && (st.On? && st.act.Reorg? ==>
            SagaRecord.AllDecided(s, st.act.ops) && SagaRecord.OffRecord(s, st.act.ops))
  }

  /** The outpoint is spent in the table, or locked and listed by a SIGNED row. */
  ghost predicate InUse(t: Utxos.Table, rows: map<Uuid, Row>, op: string) {
    op in t && (t[op].lock.Spent?
                || (t[op].lock.Locked? && exists x :: x in rows && rows[x].state.Signed? && op in rows[x].outpoints))
  }

  lemma InUseIsOnRecord(svc: WithdrawalService.Service, op: string)
    requires svc.Mirrors()
    ensures InUse(svc.utxos.utxos, svc.rows, op) <==> SagaRecord.OnRecord(svc.s, op)
  {
    if x :| x in svc.rows && svc.rows[x].state.Signed? && op in svc.rows[x].outpoints {
      assert SagaRecord.SignedLists(svc.s, x, op);
    }
    if x :| SagaRecord.SignedLists(svc.s, x, op) {
      assert x in svc.rows;
    }
  }

  /**
   What they look at: before a Fail the state of the stored row, and before a reorg, with no call under way, that
   state, the outpoint store and the stored rows.
   */
  lemma CarefulLooksAtTables(svc: WithdrawalService.Service, id: Uuid, reason: string, ops: seq<string>)
    requires svc.Mirrors() && svc.allowed == Careful()
    ensures svc.allowed(svc.s, On(id, Fail(reason))) <==> (id in svc.rows ==> svc.rows[id].state.Signed?)
    ensures (forall x :: x in svc.rows ==> svc.Ready(x)) ==>
              (svc.allowed(svc.s, On(id, Reorg(ops))) <==>
               && (id in svc.rows ==> !svc.rows[id].state.Confirmed?)
               && forall op :: op in Utxos.Known(svc.utxos.utxos, ops) ==> !InUse(svc.utxos.utxos, svc.rows, op))
  {
    forall op
      ensures InUse(svc.utxos.utxos, svc.rows, op) <==> SagaRecord.OnRecord(svc.s, op)
    {
      InUseIsOnRecord(svc, op);
    }
  }

  /** Careful callers keep all three rules. */
  lemma CarefulSuffices()
    ensures Within(Careful(), SagaTheorems.FailOnlySigned()) && Within(Careful(), SagaRecord.RestoreChecked())
    ensures Within(Careful(), SagaTheorems.LiveFailsOnly()) && Lenient(Careful())
  {
  }
}
