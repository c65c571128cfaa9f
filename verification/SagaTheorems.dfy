/** The saga's guarantees over every run from the empty state. */
module SagaTheorems {
  import opened Prelude
  import opened Domain
  import opened Saga
  import opened SagaShape
  import DedupKeys
  import Eip155
  import Rlp
  import SagaNonce
  import SagaUtxo
  import SagaDedup
  import opened SagaSteps
  import TxBuilder

  /** What holds over every run without any discipline. */
  ghost predicate Base(env: Env, s: State) {
    Shape(env, s) && SagaNonce.Counted(env, s.nonces)
  }

  lemma BaseOn(env: Env, s: State, id: Uuid, act: Act, s': State)
    requires Base(env, s) && Apply(env, s, On(id, act)) == Some(s')
    ensures Base(env, s')
  {
    StepParts(env, s, id, act, s');
    var w := s.wd[id];
    var chain, seen := env.wallets[w.row.req.walletId], Observe(env, s, w, act);
    assert WithdrawalOk(env, w);
    ShapeNext(env, s, id, act, s', seen);
    if act.CsLock? {
      SagaNonce.LockIsBitcoin(env, chain, w, act, seen);
    }
    SagaNonce.CountedKept(env, s, act, w, seen);
  }

  lemma BaseOutside(env: Env, s: State, st: Step, s': State)
    requires !st.On? && Base(env, s) && Apply(env, s, st) == Some(s')
    ensures Base(env, s')
  {
    ShapeOutside(env, s, st, s');
  }

  lemma BaseStep(env: Env, s: State, st: Step, s': State)
    requires Base(env, s) && Apply(env, s, st) == Some(s')
    ensures Base(env, s')
  {
    if st.On? {
      BaseOn(env, s, st.id, st.act, s');
    } else {
      BaseOutside(env, s, st, s');
    }
  }

  lemma {:induction false} BaseRun(env: Env, run: seq<Step>)
    requires Exec(env, INITIAL, run).Some?
    ensures Base(env, Exec(env, INITIAL, run).value)
  {
    if run != [] {
      var before := run[..|run| - 1];
      BaseRun(env, before);
      BaseStep(env, Exec(env, INITIAL, before).value, run[|run| - 1], Exec(env, INITIAL, run).value);
    }
  }

  // ---------------------------------------------------------------- saga safety, over all runs

  /**
   Every accepted broadcast belongs to an approved withdrawal, the signer was asked for the payload built
   for that very request and reservation, the bytes are those assembled from its answer, and no withdrawal
   is accepted twice.
   */
  lemma {:induction false} SagaSafety(env: Env, run: seq<Step>, i: nat)
    requires Exec(env, INITIAL, run).Some? && i < |Exec(env, INITIAL, run).value.sent|
    ensures var s := Exec(env, INITIAL, run).value;
            var a := s.sent[i];
            && a.id in s.wd && s.wd[a.id].approved && s.wd[a.id].row.req == a.req
            && s.wd[a.id].sig.Some? && env.build(a.req, a.n, a.ops) == Some(s.wd[a.id].sig.value.payload)
            && env.assemble(a.req, a.n, a.ops, s.wd[a.id].sig.value.answer) == Some(a.bytes)
            && forall j :: 0 <= j < |s.sent| && j != i ==> s.sent[j].id != a.id
  {
    BaseRun(env, run);
    var s := Exec(env, INITIAL, run).value;
    assert SentOk(env, s, s.sent[i]);
  }

  /** Step `k` is the policy engine's answer about withdrawal `id`: no error, and a decision that approves. */
  predicate ApprovedAt(run: seq<Step>, k: nat, id: Uuid, a: PolicyAnswer) {
    k < |run| && run[k] == On(id, Approve(a)) && !a.failed && a.decision.Some? && a.decision.value.approved
  }

  /** The approval flag is set by an approving answer of the policy engine and by nothing else. */
  lemma {:induction false} ApprovalCameFromPolicy(env: Env, run: seq<Step>, id: Uuid)
    requires Exec(env, INITIAL, run).Some?
    requires id in Exec(env, INITIAL, run).value.wd && Exec(env, INITIAL, run).value.wd[id].approved
    ensures exists k, a :: ApprovedAt(run, k, id, a)
  {
    if run != [] {
      var before, st := run[..|run| - 1], run[|run| - 1];
      var t := Exec(env, INITIAL, before).value;
      if id in t.wd && t.wd[id].approved {
        ApprovalCameFromPolicy(env, before, id);
        var k, a :| ApprovedAt(before, k, id, a);
        assert ApprovedAt(run, k, id, a);
      } else {
        BaseRun(env, before);
        FlagsBySteps(env, t, st, Exec(env, INITIAL, run).value, id);
        assert ApprovedAt(run, |run| - 1, id, st.act.answer);
      }
    }
  }

  /** A step that raises the approval flag is the policy engine's approval of that withdrawal. */
  lemma FlagsBySteps(env: Env, s: State, st: Step, s': State, id: Uuid)
    requires Base(env, s) && Apply(env, s, st) == Some(s')
    requires id in s'.wd && s'.wd[id].approved && !(id in s.wd && s.wd[id].approved)
    ensures st.On? && st.id == id && st.act.Approve? && Approves(st.act.answer)
  {
    if st.On? {
      StepParts(env, s, st.id, st.act, s');
      var w := s.wd[st.id];
      var chain, seen := env.wallets[w.row.req.walletId], Observe(env, s, w, st.act);
      if st.act.Approve? {
        ApprovalNeedsAnswer(env, chain, w, st.act, seen);
      } else {
        OnlyApproveApproves(env, chain, w, st.act, seen);
      }
    }
  }

  lemma ApprovalNeedsAnswer(env: Env, chain: Chain, w: Withdrawal, act: Act, seen: Seen)
    requires Next(env, w, chain, act, seen).Some? && act.Approve?
    ensures Approves(act.answer)
  {
  }

  lemma OnlyApproveApproves(env: Env, chain: Chain, w: Withdrawal, act: Act, seen: Seen)
    requires Next(env, w, chain, act, seen).Some? && !act.Approve?
    ensures Next(env, w, chain, act, seen).value.approved == w.approved
  {
    if IsReservation(act) {
      ReservationSignsNothing(env, w, chain, act, seen);
    } else if !IsSigning(act) {
      OthersSignNothing(env, w, chain, act, seen);
    }
  }

  /** Step `k` of the run is the signer's answer to withdrawal `id`, which had asked it to sign the payload. */
  ghost predicate AskedAt(env: Env, run: seq<Step>, k: nat, id: Uuid, asked: Asked) {
    && k < |run| && run[k] == On(id, CsSign(asked.answer)) && Exec(env, INITIAL, run[..k]).Some?
    && var s := Exec(env, INITIAL, run[..k]).value;
    id in s.wd && s.wd[id].pc.CsBuilt? && s.wd[id].pc.payload == asked.payload
  }

  /** The recorded payload and answer are those of a signing step of that withdrawal in the run. */
  lemma {:induction false} SignatureCameFromSigner(env: Env, run: seq<Step>, id: Uuid)
    requires Exec(env, INITIAL, run).Some?
    requires id in Exec(env, INITIAL, run).value.wd && Exec(env, INITIAL, run).value.wd[id].sig.Some?
    ensures exists k: nat :: AskedAt(env, run, k, id, Exec(env, INITIAL, run).value.wd[id].sig.value)
  {
    if run != [] {
      var before, st := run[..|run| - 1], run[|run| - 1];
      var t, s := Exec(env, INITIAL, before).value, Exec(env, INITIAL, run).value;
      if id in t.wd && t.wd[id].sig == s.wd[id].sig {
        SignatureCameFromSigner(env, before, id);
        var k: nat :| AskedAt(env, before, k, id, s.wd[id].sig.value);
        assert before[..k] == run[..k];
        assert AskedAt(env, run, k, id, s.wd[id].sig.value);
      } else {
        BaseRun(env, before);
        SignaturesBySteps(env, t, st, s, id);
        assert AskedAt(env, run, |run| - 1, id, s.wd[id].sig.value);
      }
    }
  }

  /** A step that records a signature is the signer's answer to that withdrawal. */
  lemma SignaturesBySteps(env: Env, s: State, st: Step, s': State, id: Uuid)
    requires Base(env, s) && Apply(env, s, st) == Some(s')
    requires id in s'.wd && s'.wd[id].sig.Some? && !(id in s.wd && s.wd[id].sig == s'.wd[id].sig)
    ensures st == On(id, CsSign(s'.wd[id].sig.value.answer)) && id in s.wd
    ensures s.wd[id].pc.CsBuilt? && s.wd[id].pc.payload == s'.wd[id].sig.value.payload
  {
    if st.On? {
      StepParts(env, s, st.id, st.act, s');
      var w := s.wd[st.id];
      OnlySigningSigns(env, env.wallets[w.row.req.walletId], w, st.act, Observe(env, s, w, st.act));
    }
  }

  lemma OnlySigningSigns(env: Env, chain: Chain, w: Withdrawal, act: Act, seen: Seen)
    requires Next(env, w, chain, act, seen).Some?
    ensures var w' := Next(env, w, chain, act, seen).value;
            w'.sig == w.sig || (act.CsSign? && w.pc.CsBuilt? && w'.sig == Some(Asked(w.pc.payload, act.sig)))
  {
    if IsReservation(act) {
      ReservationSignsNothing(env, w, chain, act, seen);
    } else if !IsSigning(act) {
      OthersSignNothing(env, w, chain, act, seen);
    }
  }

  lemma ReservationSignsNothing(env: Env, w: Withdrawal, chain: Chain, act: Act, seen: Seen)
    requires IsReservation(act) && Reservation(env, w, chain, act, seen).Some?
    ensures var w' := Reservation(env, w, chain, act, seen).value; w'.sig == w.sig && w'.approved == w.approved
  {
  }

  lemma OthersSignNothing(env: Env, w: Withdrawal, chain: Chain, act: Act, seen: Seen)
    requires !IsReservation(act) && !IsSigning(act) && Next(env, w, chain, act, seen).Some?
    ensures var w' := Next(env, w, chain, act, seen).value;
            w'.sig == w.sig && (!act.Approve? ==> w'.approved == w.approved)
  {
  }

  /**
   What the gateway accepted is what the signer was asked to sign: read the accepted bytes of an EVM
   broadcast back, put (chain id, 0, 0) in the place of the signature, and the hash of that list is the
   payload the signer was asked for.
   */
  lemma {:induction false} SentIsWhatWasSigned(wallets: map<Uuid, Chain>, cfg: TxBuilder.Config, run: seq<Step>, i: nat)
    requires var env := TxBuilder.ServiceEnv(wallets, cfg);
             && Exec(env, INITIAL, run).Some? && i < |Exec(env, INITIAL, run).value.sent|
             && var a := Exec(env, INITIAL, run).value.sent[i];
             a.req.walletId in wallets && wallets[a.req.walletId].IsEvm()
    ensures var s := Exec(TxBuilder.ServiceEnv(wallets, cfg), INITIAL, run).value;
            var a := s.sent[i];
            && a.id in s.wd && s.wd[a.id].sig.Some?
            && Rlp.DecodeList(a.bytes).Some? && |Rlp.DecodeList(a.bytes).value| == 9
            && var resigned := Rlp.DecodeList(a.bytes).value[..6] + [Rlp.Minimal(cfg.chainId), [], []];
            Rlp.Encodable(resigned) && s.wd[a.id].sig.value.payload == cfg.keccak(Rlp.EncodeList(resigned))
  {
    SagaSafety(TxBuilder.ServiceEnv(wallets, cfg), run, i);
    var s := Exec(TxBuilder.ServiceEnv(wallets, cfg), INITIAL, run).value;
    TxBuilder.PayloadFromBytes(cfg, s.sent[i].req, s.sent[i].n, s.wd[s.sent[i].id].sig.value.answer);
  }

  /** Over every run, an accepted EVM broadcast pays the amount of its own request to the address of its own request. */
  lemma {:induction false} AcceptedPays(wallets: map<Uuid, Chain>, cfg: TxBuilder.Config, run: seq<Step>, i: nat)
    requires var env := TxBuilder.ServiceEnv(wallets, cfg);
             && Exec(env, INITIAL, run).Some? && i < |Exec(env, INITIAL, run).value.sent|
             && var a := Exec(env, INITIAL, run).value.sent[i];
             a.req.walletId in wallets && wallets[a.req.walletId].IsEvm()
    ensures var s := Exec(TxBuilder.ServiceEnv(wallets, cfg), INITIAL, run).value;
            var a := s.sent[i];
            && a.id in s.wd && s.wd[a.id].row.req == a.req && cfg.parseInt(a.req.amount).Some?
            && TxBuilder.Pays(a.bytes, cfg.gasPrice, a.req.to, cfg.parseInt(a.req.amount).value)
  {
    SagaSafety(TxBuilder.ServiceEnv(wallets, cfg), run, i);
    var s := Exec(TxBuilder.ServiceEnv(wallets, cfg), INITIAL, run).value;
    TxBuilder.AssembledPays(cfg, s.sent[i].req, s.sent[i].n, s.wd[s.sent[i].id].sig.value.answer);
  }

  // ---------------------------------------------------------------- nonces

  /** Fail is used only where it is safe. */
  ghost function FailDiscipline(env: Env): (State, Step) -> bool {
    (s: State, st: Step) => st.On? && st.act.Fail? ==> SagaNonce.FailSafe(env, s, st.id)
  }

  /** Fail is used only on SIGNED rows. */
  ghost function FailOnlySigned(): (State, Step) -> bool {
    (s: State, st: Step) => st.On? && st.act.Fail? && st.id in s.wd ==> s.wd[st.id].row.state.Signed?
  }

  lemma {:induction false} Weaken(env: Env, s: State, run: seq<Step>, strong: (State, Step) -> bool,
                                  weak: (State, Step) -> bool)
    requires Disciplined(env, s, run, strong)
    requires forall t, st :: strong(t, st) ==> weak(t, st)
    ensures Disciplined(env, s, run, weak)
    decreases |run|
  {
    if run != [] {
      Weaken(env, s, run[..|run| - 1], strong, weak);
    }
  }

  lemma {:induction false} SignedOnlyIsSafe(env: Env, run: seq<Step>)
    requires Disciplined(env, INITIAL, run, FailOnlySigned())
    ensures Disciplined(env, INITIAL, run, FailDiscipline(env))
  {
    Weaken(env, INITIAL, run, FailOnlySigned(), FailDiscipline(env));
  }

  /** Fail only where the stored rows and the counter say it is safe; gateways name what they accept. */
  ghost function FailChecked(env: Env): (State, Step) -> bool {
    (s: State, st: Step) => st.On? ==>
      && (st.act.Fail? ==> && (SagaNonce.RowDecides(env, s, st.id) || SagaNonce.WalletAtRest(env, s, st.id))
                           && !SagaNonce.ClashOnRecord(env, s, st.id))
      && (st.act.BcAccept? ==> st.act.txHash != "")
  }

  /** Callers that look at rows and counter first meet the condition under which nonces stay distinct. */
  lemma {:induction false} CheckedFailsAreSafe(env: Env, run: seq<Step>)
    requires Exec(env, INITIAL, run).Some? && Disciplined(env, INITIAL, run, FailChecked(env))
    ensures Disciplined(env, INITIAL, run, FailDiscipline(env))
  {
    if run != [] {
      var before, st := run[..|run| - 1], run[|run| - 1];
      CheckedFailsAreSafe(env, before);
      BaseRun(env, before);
      if st.On? && st.act.Fail? {
        HashedRun(env, before);
        SagaNonce.UnsafeIffOnRecord(env, Exec(env, INITIAL, before).value, st.id);
      }
    }
  }

  /** And gateways that name what they accept leave a hash with every accepted withdrawal. */
  lemma {:induction false} HashedRun(env: Env, run: seq<Step>)
    requires Exec(env, INITIAL, run).Some? && Disciplined(env, INITIAL, run, FailChecked(env))
    ensures SagaNonce.AllHashed(Exec(env, INITIAL, run).value)
  {
    if run != [] {
      var before, st := run[..|run| - 1], run[|run| - 1];
      HashedRun(env, before);
      BaseRun(env, before);
      var s, s' := Exec(env, INITIAL, before).value, Exec(env, INITIAL, run).value;
      if st.On? {
        StepParts(env, s, st.id, st.act, s');
        var w := s.wd[st.id];
        assert WithdrawalOk(env, w);
        SagaNonce.HashedNext(env, env.wallets[w.row.req.walletId], w, st.act, Observe(env, s, w, st.act));
      }
    }
  }

  lemma {:induction false} NonceRun(env: Env, run: seq<Step>)
    requires Exec(env, INITIAL, run).Some? && Disciplined(env, INITIAL, run, FailDiscipline(env))
    ensures SagaNonce.NonceInv(env, Exec(env, INITIAL, run).value)
  {
    if run != [] {
      var before, st := run[..|run| - 1], run[|run| - 1];
      NonceRun(env, before);
      BaseRun(env, before);
      var s, s' := Exec(env, INITIAL, before).value, Exec(env, INITIAL, run).value;
      if st.On? {
        SagaNonce.NonceStep(env, s, st.id, st.act, s');
      } else {
        SagaNonce.NonceOutside(env, s, st, s');
      }
    }
  }

  /**
   Over every interleaved run with arbitrary policy, signer, builder and gateway answers and outside
   reservations, and Fail used only where safe: two accepted EVM broadcasts of one wallet decode to
   different nonces.
   */
  lemma {:induction false} AcceptedNoncesDiffer(wallets: map<Uuid, Chain>, cfg: TxBuilder.Config, run: seq<Step>,
                                                i: nat, j: nat)
    requires var env := TxBuilder.ServiceEnv(wallets, cfg);
             && Exec(env, INITIAL, run).Some? && Disciplined(env, INITIAL, run, FailDiscipline(env))
             && var s := Exec(env, INITIAL, run).value;
             && i < j < |s.sent| && s.sent[i].req.walletId == s.sent[j].req.walletId
             && s.sent[i].req.walletId in wallets && wallets[s.sent[i].req.walletId].IsEvm()
    ensures var s := Exec(TxBuilder.ServiceEnv(wallets, cfg), INITIAL, run).value;
            var a, b := Eip155.DecodedNonce(s.sent[i].bytes), Eip155.DecodedNonce(s.sent[j].bytes);
            a.Some? && b.Some? && a != b
  {
    var env := TxBuilder.ServiceEnv(wallets, cfg);
    var s := Exec(env, INITIAL, run).value;
    NonceRun(env, run);
    BaseRun(env, run);
    SentNonce(wallets, cfg, s, i);
    SentNonce(wallets, cfg, s, j);
    DistinctInLog(env, s, i, j);
  }

  lemma SentNonce(wallets: map<Uuid, Chain>, cfg: TxBuilder.Config, s: State, i: nat)
    requires Shape(TxBuilder.ServiceEnv(wallets, cfg), s) && i < |s.sent|
    requires s.sent[i].req.walletId in wallets && wallets[s.sent[i].req.walletId].IsEvm()
    ensures s.sent[i].n >= 0 && Eip155.DecodedNonce(s.sent[i].bytes) == Some(s.sent[i].n)
  {
    var a := s.sent[i];
    assert SentOk(TxBuilder.ServiceEnv(wallets, cfg), s, a);
    TxBuilder.AssembledNonce(cfg, a.req, a.n, s.wd[a.id].sig.value.answer);
  }

  lemma DistinctInLog(env: Env, s: State, i: nat, j: nat)
    requires SagaNonce.NonceInv(env, s) && i < j < |s.sent|
    requires s.sent[i].req.walletId == s.sent[j].req.walletId
    requires s.sent[i].req.walletId in env.wallets && env.wallets[s.sent[i].req.walletId].IsEvm()
    ensures s.sent[i].n != s.sent[j].n
  {
    var p, q := SagaNonce.Log(i), SagaNonce.Log(j);
    assert SagaNonce.Holding(env, s, p) != SagaNonce.Holding(env, s, q);
  }

  // ---------------------------------------------------------------- outpoints

  /** Reorgs restore only outpoints that nobody holds; a run without reorgs is a special case. */
  ghost function RestoreDiscipline(): (State, Step) -> bool {
    (s: State, st: Step) => && (st.RestoreOutpoints? ==> SagaUtxo.RestoreSafe(s, st.ops))
               && (st.On? && st.act.Reorg? ==> SagaUtxo.RestoreSafe(s, st.act.ops))
  }

  ghost function ReorgFree(): (State, Step) -> bool {
    (s: State, st: Step) => !st.RestoreOutpoints? && !(st.On? && st.act.Reorg?)
  }

  lemma {:induction false} ReorgFreeIsSafe(env: Env, run: seq<Step>)
    requires Disciplined(env, INITIAL, run, ReorgFree())
    ensures Disciplined(env, INITIAL, run, RestoreDiscipline())
  {
    Weaken(env, INITIAL, run, ReorgFree(), RestoreDiscipline());
  }

  lemma {:induction false} UtxoRun(env: Env, run: seq<Step>)
    requires Exec(env, INITIAL, run).Some? && Disciplined(env, INITIAL, run, RestoreDiscipline())
    ensures SagaUtxo.UtxoInv(Exec(env, INITIAL, run).value)
  {
    if run != [] {
      var before, st := run[..|run| - 1], run[|run| - 1];
      UtxoRun(env, before);
      BaseRun(env, before);
      var s, s' := Exec(env, INITIAL, before).value, Exec(env, INITIAL, run).value;
      if st.On? {
        SagaUtxo.UtxoStep(env, s, st.id, st.act, s');
      } else {
        SagaUtxo.UtxoOutside(env, s, st, s');
      }
    }
  }

  /** From any state in which table and holders agree, a run without restores keeps them so. */
  lemma {:induction false} UtxoFrom(env: Env, s: State, run: seq<Step>)
    requires Base(env, s) && SagaUtxo.UtxoInv(s) && NoRestores(run) && Exec(env, s, run).Some?
    ensures Base(env, Exec(env, s, run).value) && SagaUtxo.UtxoInv(Exec(env, s, run).value)
    decreases |run|
  {
    if run != [] {
      var before, st := run[..|run| - 1], run[|run| - 1];
      UtxoFrom(env, s, before);
      var t, t' := Exec(env, s, before).value, Exec(env, s, run).value;
      BaseStep(env, t, st, t');
      if st.On? {
        SagaUtxo.UtxoStep(env, t, st.id, st.act, t');
      } else {
        SagaUtxo.UtxoOutside(env, t, st, t');
      }
    }
  }

  /** A stranded outpoint stays stranded as long as nothing is restored. */
  lemma {:induction false} StrandedFrom(env: Env, s: State, run: seq<Step>, op: string)
    requires Base(env, s) && SagaUtxo.UtxoInv(s) && NoRestores(run) && Exec(env, s, run).Some?
    requires SagaUtxo.Stranded(s, op)
    ensures SagaUtxo.Stranded(Exec(env, s, run).value, op)
    decreases |run|
  {
    if run != [] {
      var before, st := run[..|run| - 1], run[|run| - 1];
      StrandedFrom(env, s, before, op);
      UtxoFrom(env, s, before);
      var t, t' := Exec(env, s, before).value, Exec(env, s, run).value;
      if st.On? {
        SagaUtxo.StrandedIff(env, t, st.id, st.act, t', op);
      } else {
        SagaUtxo.StrandedOutside(env, t, st, t', op);
      }
    }
  }

  /**
   Failing a SIGNED withdrawal is said to unlock its outpoints. Over every run: it leaves each of them locked
   with no holder, and however the service goes on, short of a restore, each stays locked and no withdrawal
   ever holds it again.
   */
  lemma {:induction false} FailStrandsForGood(env: Env, run: seq<Step>, id: Uuid, reason: string, more: seq<Step>,
                                              op: string)
    requires Exec(env, INITIAL, run).Some? && Disciplined(env, INITIAL, run, RestoreDiscipline())
    requires var s := Exec(env, INITIAL, run).value;
             && id in s.wd && s.wd[id].row.state.Signed? && op in s.wd[id].row.outpoints
             && Apply(env, s, On(id, Fail(reason))).Some?
             && Exec(env, Apply(env, s, On(id, Fail(reason))).value, more).Some? && NoRestores(more)
    ensures var t := Exec(env, Apply(env, Exec(env, INITIAL, run).value, On(id, Fail(reason))).value, more).value;
            SagaUtxo.Locked(t.utxos, op) && forall o :: op !in SagaUtxo.HeldBy(t, o)
  {
    var s := Exec(env, INITIAL, run).value;
    var s' := Apply(env, s, On(id, Fail(reason))).value;
    BaseRun(env, run);
    UtxoRun(env, run);
    BaseStep(env, s, On(id, Fail(reason)), s');
    SagaUtxo.UtxoStep(env, s, id, Fail(reason), s');
    SagaUtxo.StrandedIff(env, s, id, Fail(reason), s', op);
    StrandedFrom(env, s', more, op);
  }

  /** A SIGNED withdrawal with no call active has `op` reserved. */
  ghost predicate SignedReserves(s: State, id: Uuid, op: string) {
    id in s.wd && s.wd[id].pc.Idle? && s.wd[id].row.state.Signed? && op in s.wd[id].row.outpoints
  }

  /** Accepted broadcast `i` spends `op`. */
  ghost predicate Spends(s: State, i: nat, op: string) {
    i < |s.sent| && op in s.sent[i].ops
  }

  /**
   Over every such run, with Fail allowed from any state: no outpoint is reserved by two SIGNED
   withdrawals, none is spent by two accepted broadcasts, none reserved by a SIGNED withdrawal has been
   spent, and reserved or spent outpoints are not free.
   */
  lemma {:induction false} OutpointsExclusive(env: Env, run: seq<Step>, op: string)
    requires Exec(env, INITIAL, run).Some? && Disciplined(env, INITIAL, run, RestoreDiscipline())
    ensures var s := Exec(env, INITIAL, run).value;
            && (forall a, b :: SignedReserves(s, a, op) && SignedReserves(s, b, op) ==> a == b)
            && (forall i, j :: Spends(s, i, op) && Spends(s, j, op) ==> i == j)
            && (forall a, i :: SignedReserves(s, a, op) ==> !Spends(s, i, op))
            && (forall a :: SignedReserves(s, a, op) ==> SagaUtxo.Taken(s.utxos, op))
            && (forall i :: Spends(s, i, op) ==> SagaUtxo.Taken(s.utxos, op))
  {
    UtxoRun(env, run);
    ExclusiveHolders(Exec(env, INITIAL, run).value, op);
  }

  lemma ExclusiveHolders(s: State, op: string)
    requires SagaUtxo.UtxoInv(s)
    ensures forall a, b :: SignedReserves(s, a, op) && SignedReserves(s, b, op) ==> a == b
    ensures forall i, j :: Spends(s, i, op) && Spends(s, j, op) ==> i == j
    ensures forall a, i :: SignedReserves(s, a, op) ==> !Spends(s, i, op)
    ensures forall a :: SignedReserves(s, a, op) ==> SagaUtxo.Taken(s.utxos, op)
    ensures forall i :: Spends(s, i, op) ==> SagaUtxo.Taken(s.utxos, op)
  {
    assert forall a :: SignedReserves(s, a, op) ==> op in SagaUtxo.HeldBy(s, SagaUtxo.Call(a));
    assert forall i: nat :: Spends(s, i, op) ==> op in SagaUtxo.HeldBy(s, SagaUtxo.Log(i));
  }

  // ---------------------------------------------------------------- in-flight keys

  /** Fail marks and reorgs that keep the in-flight set in step with the rows. */
  ghost function DedupDiscipline(env: Env): (State, Step) -> bool {
    (s: State, st: Step) => st.On? && st.id in s.wd && s.wd[st.id].row.req.walletId in env.wallets ==>
      SagaDedup.DedupSafe(s, st.id, st.act, Observe(env, s, s.wd[st.id], st.act))
  }

  lemma {:induction false} DedupRun(env: Env, run: seq<Step>)
    requires Exec(env, INITIAL, run).Some? && Disciplined(env, INITIAL, run, DedupDiscipline(env))
    ensures SagaDedup.DedupInv(Exec(env, INITIAL, run).value)
  {
    if run != [] {
      var before, st := run[..|run| - 1], run[|run| - 1];
      DedupRun(env, before);
      BaseRun(env, before);
      var s, s' := Exec(env, INITIAL, before).value, Exec(env, INITIAL, run).value;
      if st.On? {
        SagaDedup.DedupStep(env, s, st.id, st.act, s');
      } else {
        SagaDedup.DedupOutside(env, s, st, s');
      }
    }
  }

  /** What a caller can check: Fail only on live rows, and no reorg on a confirmed one. */
  ghost function LiveFailsOnly(): (State, Step) -> bool {
    (s: State, st: Step) => st.On? && st.id in s.wd ==>
      && (st.act.Fail? ==> SagaDedup.Live(s.wd[st.id]))
      && (st.act.Reorg? ==> !s.wd[st.id].row.state.Confirmed?)
  }

  /** A withdrawal about to be marked failed is live. */
  ghost predicate MarksLive(s: State) {
    forall id :: id in s.wd && s.wd[id].pc.MarkFailed? ==> SagaDedup.Live(s.wd[id])
  }

  lemma NoMark(env: Env, chain: Chain, w: Withdrawal, act: Act, seen: Seen)
    requires Next(env, w, chain, act, seen).Some? && (IsReservation(act) || IsSigning(act))
    ensures !Next(env, w, chain, act, seen).value.pc.MarkFailed?
  {
  }

  lemma MarkNext(env: Env, chain: Chain, w: Withdrawal, act: Act, seen: Seen)
    requires InOrder(env, chain, w) && Next(env, w, chain, act, seen).Some?
    requires !IsReservation(act) && !IsSigning(act) && (act.Fail? ==> SagaDedup.Live(w))
    ensures var w' := Next(env, w, chain, act, seen).value; w'.pc.MarkFailed? ==> SagaDedup.Live(w')
    ensures act.RecordFailure? ==> w.pc.MarkFailed?
  {
  }

  lemma MarksStep(env: Env, s: State, st: Step, s': State)
    requires Base(env, s) && MarksLive(s) && Apply(env, s, st) == Some(s') && LiveFailsOnly()(s, st)
    ensures MarksLive(s') && DedupDiscipline(env)(s, st)
  {
    if st.On? {
      StepParts(env, s, st.id, st.act, s');
      var w := s.wd[st.id];
      assert WithdrawalOk(env, w);
      var chain, seen := env.wallets[w.row.req.walletId], Observe(env, s, w, st.act);
      if IsReservation(st.act) || IsSigning(st.act) {
        NoMark(env, chain, w, st.act, seen);
      } else {
        MarkNext(env, chain, w, st.act, seen);
      }
    }
  }

  /** Callers that fail only live rows and reorg no confirmed one keep the discipline. */
  lemma {:induction false} LiveFailsAreSafe(env: Env, run: seq<Step>)
    requires Exec(env, INITIAL, run).Some? && Disciplined(env, INITIAL, run, LiveFailsOnly())
    ensures MarksLive(Exec(env, INITIAL, run).value)
    ensures Disciplined(env, INITIAL, run, DedupDiscipline(env))
  {
    if run != [] {
      var before := run[..|run| - 1];
      LiveFailsAreSafe(env, before);
      BaseRun(env, before);
      MarksStep(env, Exec(env, INITIAL, before).value, run[|run| - 1], Exec(env, INITIAL, run).value);
    }
  }

  /** Every request made in the run is free of the separator. */
  predicate CleanRequests(run: seq<Step>) {
    forall i :: 0 <= i < |run| && run[i].Create? ==> DedupKeys.Clean(run[i].req)
  }

  lemma RowsByRequests(env: Env, s: State, st: Step, s': State)
    requires Base(env, s) && Apply(env, s, st) == Some(s') && SagaDedup.CleanRows(s)
    requires st.Create? ==> DedupKeys.Clean(st.req)
    ensures SagaDedup.CleanRows(s')
  {
    if st.On? {
      StepParts(env, s, st.id, st.act, s');
      var w := s.wd[st.id];
      assert WithdrawalOk(env, w);
      NextOk(env, env.wallets[w.row.req.walletId], w, st.act, Observe(env, s, w, st.act));
    }
  }

  lemma {:induction false} CleanRun(env: Env, run: seq<Step>)
    requires Exec(env, INITIAL, run).Some? && CleanRequests(run)
    ensures SagaDedup.CleanRows(Exec(env, INITIAL, run).value)
  {
    if run != [] {
      var before := run[..|run| - 1];
      CleanRun(env, before);
      BaseRun(env, before);
      RowsByRequests(env, Exec(env, INITIAL, before).value, run[|run| - 1], Exec(env, INITIAL, run).value);
    }
  }

  /**
   Over every run of clean requests whose callers fail only live rows and reorg no confirmed one: a new request
   on a known wallet is refused exactly when a live row asks for the same wallet, address, amount and asset.
   */
  lemma {:induction false} RefusedIffDuplicate(env: Env, run: seq<Step>, id: Uuid, req: Request)
    requires Exec(env, INITIAL, run).Some? && Disciplined(env, INITIAL, run, LiveFailsOnly()) && CleanRequests(run)
    requires id !in Exec(env, INITIAL, run).value.wd && req.walletId in env.wallets && DedupKeys.Clean(req)
    ensures var s := Exec(env, INITIAL, run).value;
            Apply(env, s, Create(id, req)).None? <==>
            exists x :: x in s.wd && SagaDedup.Live(s.wd[x]) && s.wd[x].row.req == req
  {
    LiveFailsAreSafe(env, run);
    DedupRun(env, run);
    CleanRun(env, run);
    SagaDedup.RefusedIffLiveTwin(Exec(env, INITIAL, run).value, req);
  }
}
