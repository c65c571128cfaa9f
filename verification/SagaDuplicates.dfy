/**
 How the in-flight set comes to miss a live row. Two operations release or ignore its key: a Fail of a row that
 is already closed, and a reorg that revives a confirmed one. From any state each leads to two live withdrawals
 of one and the same request.
 */
module SagaDuplicates {
  import opened Prelude
  import opened Rlp
  import opened Domain
  import opened Saga
  import opened SagaSteps
  import SagaCounterexample
  import SagaDedup

  /** Two live withdrawals ask for the same thing. */
  ghost predicate Twins(s: State, a: Uuid, b: Uuid) {
    && a != b && a in s.wd && b in s.wd && s.wd[a].row.req == s.wd[b].row.req
    && SagaDedup.Live(s.wd[a]) && SagaDedup.Live(s.wd[b])
  }

  /** A new request is created and rejected. */
  lemma {:induction false} RejectRun(env: Env, s: State, id: Uuid, req: Request) returns (run: seq<Step>, t: State)
    requires id !in s.wd && req.walletId in env.wallets && DedupKey(req) !in s.inflight
    ensures Exec(env, s, run) == Some(t) && t.wd.Keys == s.wd.Keys + {id} && t.inflight == s.inflight
    ensures t.wd[id].row.req == req && t.wd[id].pc.Idle?
  {
    CreatedStep(env, s, id, req);
    var s1 := Created(s, id, req);
    var w := SetState(s1.wd[id], RowState.Failed, "no", "", "").(pc := Idle);
    ClosedStep(env, s1, id, Reject("no", ""), w);
    t := Closed(s1, id, w);
    TwoSteps(env, s, Create(id, req), s1, On(id, Reject("no", "")), t);
    run := [Create(id, req), On(id, Reject("no", ""))];
  }

  /** A Fail, whatever the state of the row: its in-flight key is released. */
  lemma {:induction false} FailRun(env: Env, s: State, id: Uuid) returns (run: seq<Step>, t: State)
    requires At(env, s, id) && s.wd[id].pc.Idle?
    ensures Exec(env, s, run) == Some(t) && t.inflight == s.inflight - {DedupKey(s.wd[id].row.req)}
    ensures id in t.wd && t.wd == s.wd[id := t.wd[id]]
  {
    FailingStep(env, s, id, "x");
    var s1 := Failing(env, s, id, "x");
    var w := SetState(s1.wd[id], RowState.Failed, "x", "", "").(pc := Idle);
    ClosedStep(env, s1, id, RecordFailure, w);
    t := Closed(s1, id, w);
    PutTwice(s, id, s1.wd[id], w);
    TwoSteps(env, s, On(id, Fail("x")), s1, On(id, RecordFailure), t);
    run := [On(id, Fail("x")), On(id, RecordFailure)];
  }

  /**
   From any state: a request is rejected, made again, the rejected one is failed once more, and the request is
   made a third time. The second and the third are both live.
   */
  lemma FailOfClosedRowAdmitsTwin(env: Env, s: State, req: Request, a: Uuid, b: Uuid, c: Uuid)
    requires a !in s.wd && b !in s.wd && c !in s.wd && a != b && b != c && a != c
    requires req.walletId in env.wallets && DedupKey(req) !in s.inflight
    ensures exists run, t :: Exec(env, s, run) == Some(t) && Twins(t, b, c)
  {
    var first, s1 := RejectRun(env, s, a, req);
    CreatedStep(env, s1, b, req);
    var s2 := Created(s1, b, req);
    Then(env, s, first, s1, Create(b, req), s2);
    var second, s3 := FailRun(env, s2, a);
    Joined(env, s, first + [Create(b, req)], s2, second, s3);
    CreatedStep(env, s3, c, req);
    var s4 := Created(s3, c, req);
    Then(env, s, first + [Create(b, req)] + second, s3, Create(c, req), s4);
    assert Twins(s4, b, c);
  }

  /** A confirmed withdrawal that asked for `req`, with its key free. */
  lemma {:induction false} ConfirmRun(env: Env, s: State, id: Uuid) returns (run: seq<Step>, t: State)
    requires At(env, s, id) && s.wd[id].pc.Idle? && s.wd[id].row.state.Broadcast?
    ensures Exec(env, s, run) == Some(t) && t.inflight == s.inflight - {DedupKey(s.wd[id].row.req)}
    ensures id in t.wd && t.wd == s.wd[id := t.wd[id]] && t.wd[id].row.req == s.wd[id].row.req
    ensures t.wd[id].row.state.Confirmed? && t.wd[id].pc.Idle?
  {
    var w := SetState(s.wd[id], Confirmed, "", "", "");
    ClosedStep(env, s, id, Confirm(""), w);
    t := Closed(s, id, w);
    OneStep(env, s, On(id, Confirm("")), t);
    run := [On(id, Confirm(""))];
  }

  /** A request like that of a confirmed withdrawal is made, and a reorg revives the confirmed one. */
  lemma {:induction false} ReviveRun(env: Env, s: State, a: Uuid, b: Uuid, req: Request)
    returns (run: seq<Step>, t: State)
    requires At(env, s, a) && s.wd[a].row.req == req && s.wd[a].row.state.Confirmed? && s.wd[a].pc.Idle?
    requires b !in s.wd && DedupKey(req) !in s.inflight
    ensures Exec(env, s, run) == Some(t) && Twins(t, a, b)
  {
    CreatedStep(env, s, b, req);
    var s1 := Created(s, b, req);
    ReorgedStep(env, s1, a, []);
    t := Reorged(s1, a, []);
    TwoSteps(env, s, Create(b, req), s1, On(a, Reorg([])), t);
    run := [Create(b, req), On(a, Reorg([]))];
  }

  /** A withdrawal from creation to BROADCAST, with what matters here about the state it leads to. */
  lemma {:induction false} SentRun(env: Env, s: State, req: Request, a: Uuid, n: int, sig: Asked, bytes: Bytes)
    returns (run: seq<Step>, t: State)
    requires a !in s.wd && DedupKey(req) !in s.inflight
    requires SagaCounterexample.OnEvm(env, SagaCounterexample.Ready(req))
    requires SagaCounterexample.Sendable(env, req, n, sig, bytes)
    requires n == SagaCounterexample.NextNonce(env, s, req) < COUNTER_TOP
    ensures Exec(env, s, run) == Some(t) && t.wd.Keys == s.wd.Keys + {a} && t.inflight == s.inflight + {DedupKey(req)}
    ensures t.wd[a].row.req == req && t.wd[a].row.state.Broadcast? && t.wd[a].pc.Idle?
  {
    run := SagaCounterexample.FullRun(env, s, a, req, n, sig, bytes);
    t := Exec(env, s, run).value;
  }

  /**
   From any state: a withdrawal is sent, accepted and confirmed, the same request is made again, and a reorg
   without outpoints takes the first one back to BROADCAST. Both are live.
   */
  lemma ReorgOfConfirmedRowRevivesTwin(env: Env, s: State, req: Request, a: Uuid, b: Uuid, n: int, sig: Asked,
                                       bytes: Bytes)
    requires a !in s.wd && b !in s.wd && a != b && DedupKey(req) !in s.inflight
    requires SagaCounterexample.OnEvm(env, SagaCounterexample.Ready(req))
    requires SagaCounterexample.Sendable(env, req, n, sig, bytes)
    requires n == SagaCounterexample.NextNonce(env, s, req) < COUNTER_TOP
    ensures exists run, t :: Exec(env, s, run) == Some(t) && Twins(t, a, b)
  {
    var first, s1 := SentRun(env, s, req, a, n, sig, bytes);
    var second, s2 := ConfirmRun(env, s1, a);
    Joined(env, s, first, s1, second, s2);
    var third, t := ReviveRun(env, s2, a, b, req);
    Joined(env, s, first + second, s2, third, t);
  }
}
