/**
 Failing a withdrawal after its transaction was accepted makes the wallet's next transaction reuse the
 nonce: a run that does so from any state, for any EVM wallet and any two sendable requests.
 */
module SagaCounterexample {
  import opened Prelude
  import opened Rlp
  import opened Domain
  import opened Saga
  import opened SagaSteps
  import Eip155
  import Nonces
  import TxBuilder

  predicate OnEvm(env: Env, w: Withdrawal) {
    w.row.req.walletId in env.wallets && env.wallets[w.row.req.walletId].IsEvm()
  }

  /** The number the wallet's counter hands out next. */
  function NextNonce(env: Env, s: State, req: Request): int
    requires req.walletId in env.wallets
  {
    Nonces.Row(s.nonces, NonceKey(env, req)).pending
  }

  /** The wallet can send this request with nonce `n`: builder and assembler succeed on it. */
  predicate Sendable(env: Env, req: Request, n: int, sig: Asked, bytes: Bytes) {
    && env.build(req, n, []) == Some(sig.payload) && env.assemble(req, n, [], sig.answer) == Some(bytes) && bytes != []
  }

  // ---------------------------------------------------------------- stations of one withdrawal

  function Fresh(req: Request): Withdrawal {
    Withdrawal(NewRow(req), CrCheck, false, None, false)
  }

  function Ready(req: Request): Withdrawal {
    Withdrawal(NewRow(req).(state := Whitelisted), Idle, true, None, false)
  }

  function Numbered(req: Request, n: int): Withdrawal {
    Withdrawal(NewRow(req).(state := Whitelisted, nonce := Some(n)), CsReady(n, []), true, None, false)
  }

  function SignedRow(req: Request, n: int, bytes: Bytes): Row {
    NewRow(req).(state := Signed, nonce := Some(n), signed := bytes)
  }

  function AtSigned(req: Request, n: int, sig: Asked, bytes: Bytes): Withdrawal {
    Withdrawal(SignedRow(req, n, bytes), Idle, true, Some(sig), false)
  }

  function AtSent(req: Request, n: int, sig: Asked, bytes: Bytes): Withdrawal {
    Withdrawal(SignedRow(req, n, bytes).(state := RowState.Broadcast), Idle, true, Some(sig), true)
  }

  /** Create and approve. */
  lemma {:induction false} CreateRun(env: Env, s: State, id: Uuid, req: Request) returns (run: seq<Step>)
    requires id !in s.wd && OnEvm(env, Fresh(req)) && DedupKey(req) !in s.inflight
    ensures Exec(env, s, run) == Some(Put(s.(inflight := s.inflight + {DedupKey(req)}), id, Ready(req)))
    ensures NoRestores(run)
  {
    var s1 := s.(inflight := s.inflight + {DedupKey(req)});
    CreatedStep(env, s, id, req);
    OneStep(env, s, Create(id, req), Put(s1, id, Fresh(req)));
    run := Locally(env, s, [Create(id, req)], s1, id, Fresh(req), Approve(YES), Ready(req));
  }

  /** A step that moves withdrawal `id` on and may write other tables, put into a run. */
  lemma {:induction false} Further(env: Env, s0: State, run: seq<Step>, s: State, id: Uuid, w: Withdrawal, act: Act,
                                   s': State, w': Withdrawal)
    returns (more: seq<Step>)
    requires Exec(env, s0, run) == Some(Put(s, id, w)) && NoRestores(run) && !act.Reorg? && s'.wd == s.wd
    requires Apply(env, Put(s, id, w), On(id, act)) == Some(Put(Put(s', id, w), id, w'))
    ensures Exec(env, s0, more) == Some(Put(s', id, w')) && NoRestores(more)
  {
    PutTwice(s', id, w, w');
    Then(env, s0, run, Put(s, id, w), On(id, act), Put(s', id, w'));
    more := run + [On(id, act)];
  }

  /** From the approved row to the nonce recorded on it. */
  lemma {:induction false} ReserveRun(env: Env, s: State, id: Uuid, req: Request, n: int) returns (run: seq<Step>)
    requires OnEvm(env, Ready(req)) && n == Nonces.Row(s.nonces, NonceKey(env, req)).pending < COUNTER_TOP
    ensures Exec(env, Put(s, id, Ready(req)), run) ==
            Some(Put(s.(nonces := Nonces.Increment(s.nonces, NonceKey(env, req))), id, Numbered(req, n)))
    ensures NoRestores(run)
  {
    var w, s0 := Ready(req), Put(s, id, Ready(req));
    var start, numbered := w.(pc := CsStart), w.(pc := CsNonce(n));
    var s1 := s.(nonces := Nonces.Increment(s.nonces, NonceKey(env, req)));
    run := Locally(env, s0, [], s, id, w, CsBegin, start);
    ReservedStep(env, Put(s, id, start), id);
    run := Further(env, s0, run, s, id, start, CsReserve, s1, numbered);
    run := Locally(env, s0, run, s1, id, numbered, CsRecordNonce, Numbered(req, n));
  }

  function WithBytes(req: Request, n: int, sig: Asked, bytes: Bytes): Withdrawal {
    Numbered(req, n).(pc := CsAssembled(n, [], bytes), sig := Some(sig))
  }

  /** From the recorded nonce to the assembled bytes. */
  lemma {:induction false} BuildRun(env: Env, s: State, id: Uuid, req: Request, n: int, sig: Asked, bytes: Bytes)
    returns (run: seq<Step>)
    requires OnEvm(env, Numbered(req, n)) && Sendable(env, req, n, sig, bytes)
    ensures Exec(env, Put(s, id, Numbered(req, n)), run) == Some(Put(s, id, WithBytes(req, n, sig, bytes)))
    ensures NoRestores(run)
  {
    var w, s0 := Numbered(req, n), Put(s, id, Numbered(req, n));
    var built := w.(pc := CsBuilt(n, [], sig.payload));
    run := Locally(env, s0, [], s, id, w, CsBuild, built);
    run := Locally(env, s0, run, s, id, built, CsSign(sig.answer), WithBytes(req, n, sig, bytes));
  }

  lemma {:induction false} PersistRun(env: Env, s: State, id: Uuid, req: Request, n: int, sig: Asked, bytes: Bytes)
    returns (run: seq<Step>)
    requires OnEvm(env, Numbered(req, n))
    ensures Exec(env, Put(s, id, WithBytes(req, n, sig, bytes)), run) == Some(Put(s, id, AtSigned(req, n, sig, bytes)))
    ensures NoRestores(run)
  {
    var w, s0 := WithBytes(req, n, sig, bytes), Put(s, id, WithBytes(req, n, sig, bytes));
    var persisted := w.(row := w.row.(signed := bytes), pc := CsPersisted(n, []));
    run := Locally(env, s0, [], s, id, w, CsPersist, persisted);
    run := Locally(env, s0, run, s, id, persisted, CsFinish, AtSigned(req, n, sig, bytes));
  }

  /** From the recorded nonce to the SIGNED row. */
  lemma SignRun(env: Env, s: State, id: Uuid, req: Request, n: int, sig: Asked, bytes: Bytes) returns (run: seq<Step>)
    requires OnEvm(env, Numbered(req, n)) && Sendable(env, req, n, sig, bytes)
    ensures Exec(env, Put(s, id, Numbered(req, n)), run) == Some(Put(s, id, AtSigned(req, n, sig, bytes)))
  {
    var a := BuildRun(env, s, id, req, n, sig, bytes);
    var b := PersistRun(env, s, id, req, n, sig, bytes);
    Joined(env, Put(s, id, Numbered(req, n)), a, Put(s, id, WithBytes(req, n, sig, bytes)), b,
           Put(s, id, AtSigned(req, n, sig, bytes)));
    run := a + b;
  }

  /** The withdrawal of an accepted broadcast whose bookkeeping is still to be done. */
  function JustAccepted(req: Request, n: int, sig: Asked, bytes: Bytes): Withdrawal {
    Withdrawal(SignedRow(req, n, bytes), BcSpend(n, [], ""), true, Some(sig), true)
  }

  /** Broadcast of a SIGNED row, accepted by the gateway. */
  lemma {:induction false} AcceptRun(env: Env, s: State, id: Uuid, req: Request, n: int, sig: Asked, bytes: Bytes)
    returns (run: seq<Step>)
    requires OnEvm(env, Ready(req)) && bytes != []
    ensures Exec(env, Put(s, id, AtSigned(req, n, sig, bytes)), run) ==
            Some(Put(s.(sent := s.sent + [Accepted(id, req, bytes, n, [])]), id, JustAccepted(req, n, sig, bytes)))
  {
    var w, s0 := AtSigned(req, n, sig, bytes), Put(s, id, AtSigned(req, n, sig, bytes));
    var sending := w.(pc := BcSend(n, [], bytes));
    run := Locally(env, s0, [], s, id, w, BcBegin, sending);
    AcceptedStep(env, Put(s, id, sending), id, "");
    var s1 := s.(sent := s.sent + [Accepted(id, req, bytes, n, [])]);
    run := Further(env, s0, run, s, id, sending, BcAccept(""), s1, JustAccepted(req, n, sig, bytes));
  }

  lemma {:induction false} MarkRun(env: Env, s: State, id: Uuid, w: Withdrawal) returns (run: seq<Step>)
    requires OnEvm(env, w) && w.pc.BcSpend?
    ensures Exec(env, Put(s, id, w), run) == Some(Put(s, id, w.(pc := BcCommit(w.pc.n, w.pc.txHash))))
    ensures NoRestores(run)
  {
    assert Exec(env, Put(s, id, w), []) == Some(Put(s, id, w));
    SpentStep(env, Put(s, id, w), id);
    run := Further(env, Put(s, id, w), [], s, id, w, BcMarkSpent, s, w.(pc := BcCommit(w.pc.n, w.pc.txHash)));
  }

  /** The bookkeeping of the chain resources. */
  lemma {:induction false} CommitRun(env: Env, s: State, id: Uuid, w: Withdrawal) returns (run: seq<Step>)
    requires OnEvm(env, w) && w.pc.BcSpend? && w.row.nonce.Some?
    ensures Exec(env, Put(s, id, w), run) ==
            Some(Put(s.(nonces := Nonces.Advance(s.nonces, NonceKey(env, w.row.req), w.row.nonce.value)), id,
                     w.(pc := BcDone(w.pc.txHash))))
    ensures NoRestores(run)
  {
    var marked := w.(pc := BcCommit(w.pc.n, w.pc.txHash));
    run := MarkRun(env, s, id, w);
    CommittedStep(env, Put(s, id, marked), id);
    var s1 := s.(nonces := Nonces.Advance(s.nonces, NonceKey(env, w.row.req), w.row.nonce.value));
    run := Further(env, Put(s, id, w), run, s, id, marked, BcCommitNonce, s1, w.(pc := BcDone(w.pc.txHash)));
  }

  /** The bookkeeping after acceptance. */
  lemma {:induction false} BookRun(env: Env, s: State, id: Uuid, req: Request, n: int, sig: Asked, bytes: Bytes)
    returns (run: seq<Step>)
    requires OnEvm(env, Ready(req))
    ensures Exec(env, Put(s, id, JustAccepted(req, n, sig, bytes)), run) ==
            Some(Put(s.(nonces := Nonces.Advance(s.nonces, NonceKey(env, req), n)), id, AtSent(req, n, sig, bytes)))
  {
    var w, s0 := JustAccepted(req, n, sig, bytes), Put(s, id, JustAccepted(req, n, sig, bytes));
    run := CommitRun(env, s, id, w);
    var s1 := s.(nonces := Nonces.Advance(s.nonces, NonceKey(env, req), n));
    run := Locally(env, s0, run, s1, id, w.(pc := BcDone("")), BcFinish, AtSent(req, n, sig, bytes));
  }

  /** The counter after one number was handed out and committed. */
  function Used(t: Nonces.Table, key: string, n: int): Nonces.Table {
    Nonces.Advance(Nonces.Increment(t, key), key, n)
  }

  /** A whole withdrawal, from creation to an accepted broadcast with the next nonce. */
  lemma FullRun(env: Env, s: State, id: Uuid, req: Request, n: int, sig: Asked, bytes: Bytes) returns (run: seq<Step>)
    requires id !in s.wd && OnEvm(env, Ready(req)) && DedupKey(req) !in s.inflight
    requires n == Nonces.Row(s.nonces, NonceKey(env, req)).pending < COUNTER_TOP
    requires Sendable(env, req, n, sig, bytes)
    ensures Exec(env, s, run) ==
            Some(Put(s.(nonces := Used(s.nonces, NonceKey(env, req), n), inflight := s.inflight + {DedupKey(req)},
                       sent := s.sent + [Accepted(id, req, bytes, n, [])]), id, AtSent(req, n, sig, bytes)))
  {
    var s1 := s.(inflight := s.inflight + {DedupKey(req)});
    var s2 := s1.(nonces := Nonces.Increment(s.nonces, NonceKey(env, req)));
    var s3 := s2.(sent := s.sent + [Accepted(id, req, bytes, n, [])]);
    var s4 := s3.(nonces := Used(s.nonces, NonceKey(env, req), n));
    var a := CreateRun(env, s, id, req);
    var b := ReserveRun(env, s1, id, req, n);
    Joined(env, s, a, Put(s1, id, Ready(req)), b, Put(s2, id, Numbered(req, n)));
    var c := SignRun(env, s2, id, req, n, sig, bytes);
    Joined(env, s, a + b, Put(s2, id, Numbered(req, n)), c, Put(s2, id, AtSigned(req, n, sig, bytes)));
    var d := AcceptRun(env, s2, id, req, n, sig, bytes);
    Joined(env, s, a + b + c, Put(s2, id, AtSigned(req, n, sig, bytes)), d,
           Put(s3, id, JustAccepted(req, n, sig, bytes)));
    var e := BookRun(env, s3, id, req, n, sig, bytes);
    Joined(env, s, a + b + c + d, Put(s3, id, JustAccepted(req, n, sig, bytes)), e,
           Put(s4, id, AtSent(req, n, sig, bytes)));
    run := a + b + c + d + e;
  }

  /** The nonce of a failing row is handed back. */
  lemma {:induction false} HandBackRun(env: Env, s: State, id: Uuid, w: Withdrawal) returns (run: seq<Step>)
    requires OnEvm(env, w) && w.pc.Idle? && w.row.nonce.Some? && w.row.nonce.value >= 0
    ensures Exec(env, Put(s, id, w), run) ==
            Some(Put(s.(nonces := Nonces.Rollback(s.nonces, NonceKey(env, w.row.req), w.row.nonce.value)), id,
                     w.(pc := MarkFailed("x"))))
    ensures NoRestores(run)
  {
    assert Exec(env, Put(s, id, w), []) == Some(Put(s, id, w));
    FailingStep(env, Put(s, id, w), id, "x");
    var s1 := s.(nonces := Nonces.Rollback(s.nonces, NonceKey(env, w.row.req), w.row.nonce.value));
    run := Further(env, Put(s, id, w), [], s, id, w, Fail("x"), s1, w.(pc := MarkFailed("x")));
  }

  /** Fail on the broadcast row: its nonce was the last handed out, so the counter steps back onto it. */
  lemma {:induction false} FailRun(env: Env, s: State, id: Uuid, w: Withdrawal) returns (run: seq<Step>, w': Withdrawal)
    requires OnEvm(env, w) && w.pc.Idle? && w.row.nonce.Some? && w.row.nonce.value >= 0
    ensures var s' := s.(nonces := Nonces.Rollback(s.nonces, NonceKey(env, w.row.req), w.row.nonce.value),
                         inflight := s.inflight - {DedupKey(w.row.req)});
            Exec(env, Put(s, id, w), run) == Some(Put(s', id, w'))
  {
    var failing := w.(pc := MarkFailed("x"));
    w' := SetState(failing, RowState.Failed, "x", "", "").(pc := Idle);
    var s1 := s.(nonces := Nonces.Rollback(s.nonces, NonceKey(env, w.row.req), w.row.nonce.value));
    var s2 := s1.(inflight := s.inflight - {DedupKey(w.row.req)});
    run := HandBackRun(env, s, id, w);
    ClosedStep(env, Put(s1, id, failing), id, RecordFailure, w');
    run := Further(env, Put(s, id, w), run, s1, id, failing, RecordFailure, s2, w');
  }

  lemma CounterSteppedBack(t: Nonces.Table, key: string, n: int)
    requires n == Nonces.Row(t, key).pending
    ensures Nonces.Row(Nonces.Rollback(Used(t, key, n), key, n), key).pending == n
  {
  }

  /** Send a withdrawal, have it accepted, fail it: the counter stands where it stood. */
  lemma SendAndFail(env: Env, s: State, id: Uuid, req: Request, n: int, sig: Asked, bytes: Bytes)
    returns (run: seq<Step>, t: State)
    requires id !in s.wd && OnEvm(env, Ready(req)) && DedupKey(req) !in s.inflight
    requires 0 <= n == Nonces.Row(s.nonces, NonceKey(env, req)).pending < COUNTER_TOP
    requires Sendable(env, req, n, sig, bytes)
    ensures Exec(env, s, run) == Some(t)
    ensures Nonces.Row(t.nonces, NonceKey(env, req)).pending == n
    ensures t.sent == s.sent + [Accepted(id, req, bytes, n, [])]
    ensures t.inflight <= s.inflight && t.wd.Keys == s.wd.Keys + {id}
  {
    var key := NonceKey(env, req);
    var first := FullRun(env, s, id, req, n, sig, bytes);
    var s1 := s.(nonces := Used(s.nonces, key, n), inflight := s.inflight + {DedupKey(req)},
                 sent := s.sent + [Accepted(id, req, bytes, n, [])]);
    var w := AtSent(req, n, sig, bytes);
    var fail, w' := FailRun(env, s1, id, w);
    var s2 := s1.(nonces := Nonces.Rollback(s1.nonces, key, n), inflight := s1.inflight - {DedupKey(req)});
    Joined(env, s, first, Put(s1, id, w), fail, Put(s2, id, w'));
    CounterSteppedBack(s.nonces, key, n);
    run, t := first + fail, Put(s2, id, w');
  }

  /**
   From any state: send one withdrawal, have it accepted, fail it, send another from the same wallet. The
   gateway has then accepted two transactions with one nonce.
   */
  lemma FailAfterBroadcastReusesNonce(env: Env, s: State, a: Uuid, reqA: Request, b: Uuid, reqB: Request,
                                      n: int, sigA: Asked, bytesA: Bytes, sigB: Asked, bytesB: Bytes)
    requires a !in s.wd && b !in s.wd && a != b && OnEvm(env, Ready(reqA)) && reqB.walletId == reqA.walletId
    requires DedupKey(reqA) !in s.inflight && DedupKey(reqB) !in s.inflight
    requires 0 <= n == Nonces.Row(s.nonces, NonceKey(env, reqA)).pending < COUNTER_TOP
    requires Sendable(env, reqA, n, sigA, bytesA) && Sendable(env, reqB, n, sigB, bytesB)
    ensures exists run, t :: Exec(env, s, run) == Some(t)
              && t.sent == s.sent + [Accepted(a, reqA, bytesA, n, [])] + [Accepted(b, reqB, bytesB, n, [])]
  {
    var first, s1 := SendAndFail(env, s, a, reqA, n, sigA, bytesA);
    var second, s2 := SendAndFail(env, s1, b, reqB, n, sigB, bytesB);
    Joined(env, s, first, s1, second, s2);
  }

  /** The wallet's builder serves the request with nonce `n`, and the answer of its signer assembles. */
  predicate Served(cfg: TxBuilder.Config, req: Request, n: int, answer: Bytes) {
    TxBuilder.BuildEvm(cfg, req, n).Some? && TxBuilder.AssembleEvm(cfg, req, n, answer).Some?
  }

  lemma ServedIsSendable(wallets: map<Uuid, Chain>, cfg: TxBuilder.Config, req: Request, n: int, answer: Bytes)
    requires req.walletId in wallets && wallets[req.walletId].IsEvm() && n >= 0 && Served(cfg, req, n, answer)
    ensures var env := TxBuilder.ServiceEnv(wallets, cfg);
            var bytes := TxBuilder.AssembleEvm(cfg, req, n, answer).value;
            && Sendable(env, req, n, Asked(TxBuilder.BuildEvm(cfg, req, n).value, answer), bytes)
            && Eip155.DecodedNonce(bytes) == Some(n)
  {
    TxBuilder.AssembledNonce(cfg, req, n, answer);
    assert Eip155.DecodedNonce([]).None?;
  }

  /**
   With the real builder: from any state, in which the wallet's counter has room, for any two requests that builder
   and signer serve, there is a run whose last two accepted transactions, both of this wallet, decode to one nonce.
   */
  lemma ReusedNonceDecodes(wallets: map<Uuid, Chain>, cfg: TxBuilder.Config, s: State, a: Uuid, reqA: Request,
                           b: Uuid, reqB: Request, n: int, answerA: Bytes, answerB: Bytes)
    requires a !in s.wd && b !in s.wd && a != b && DedupKey(reqA) !in s.inflight && DedupKey(reqB) !in s.inflight
    requires reqA.walletId in wallets && wallets[reqA.walletId].IsEvm() && reqB.walletId == reqA.walletId
    requires 0 <= n == NextNonce(TxBuilder.ServiceEnv(wallets, cfg), s, reqA) < COUNTER_TOP
    requires Served(cfg, reqA, n, answerA) && Served(cfg, reqB, n, answerB)
    ensures exists run, t :: Exec(TxBuilder.ServiceEnv(wallets, cfg), s, run) == Some(t)
              && |t.sent| == |s.sent| + 2 && t.sent[|s.sent|].req == reqA && t.sent[|s.sent| + 1].req == reqB
              && Eip155.DecodedNonce(t.sent[|s.sent|].bytes) == Some(n)
              && Eip155.DecodedNonce(t.sent[|s.sent| + 1].bytes) == Some(n)
  {
    var env := TxBuilder.ServiceEnv(wallets, cfg);
    ServedIsSendable(wallets, cfg, reqA, n, answerA);
    ServedIsSendable(wallets, cfg, reqB, n, answerB);
    var bytesA := TxBuilder.AssembleEvm(cfg, reqA, n, answerA).value;
    var bytesB := TxBuilder.AssembleEvm(cfg, reqB, n, answerB).value;
    FailAfterBroadcastReusesNonce(
      env, s, a, reqA, b, reqB, n, Asked(TxBuilder.BuildEvm(cfg, reqA, n).value, answerA), bytesA,
      Asked(TxBuilder.BuildEvm(cfg, reqB, n).value, answerB), bytesB);
    var run, t :| Exec(env, s, run) == Some(t)
      && t.sent == s.sent + [Accepted(a, reqA, bytesA, n, [])] + [Accepted(b, reqB, bytesB, n, [])];
  }
}
