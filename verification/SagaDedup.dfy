/**
 The in-flight set against the rows: it holds the keys of the live rows and each key has one live row.
 Two operations can break this, and exactly when they do is proved as an equivalence.
 */
module SagaDedup {
  import opened Prelude
  import opened Domain
  import opened Saga
  import opened SagaShape
  import DedupKeys

  /** A row in PENDING, WHITELISTED, SIGNED or BROADCAST. */
  predicate Live(w: Withdrawal) {
    !w.row.state.Terminal()
  }

  function KeyOf(w: Withdrawal): string {
    DedupKey(w.row.req)
  }

  ghost predicate LiveKey(wd: map<Uuid, Withdrawal>, id: Uuid, key: string) {
    id in wd && Live(wd[id]) && KeyOf(wd[id]) == key
  }

  /** The in-flight set is the set of live keys, and no key has two live rows. */
  ghost predicate Agrees(inflight: set<string>, wd: map<Uuid, Withdrawal>) {
    && (forall id, key :: LiveKey(wd, id, key) ==> key in inflight)
    && (forall key :: key in inflight ==> exists id :: LiveKey(wd, id, key))
    && (forall a, b, key :: LiveKey(wd, a, key) && LiveKey(wd, b, key) ==> a == b)
  }

  ghost predicate DedupInv(s: State) {
    Agrees(s.inflight, s.wd)
  }

  // ---------------------------------------------------------------- how one row can move

  /** A live row stays live. */
  lemma StaysAsItWas(s: State, s': State, id: Uuid)
    requires DedupInv(s) && s'.inflight == s.inflight && id in s.wd && id in s'.wd
    requires s'.wd == s.wd[id := s'.wd[id]] && KeyOf(s'.wd[id]) == KeyOf(s.wd[id])
    requires Live(s'.wd[id]) == Live(s.wd[id])
    ensures DedupInv(s')
  {
    assert forall x, key :: LiveKey(s'.wd, x, key) <==> LiveKey(s.wd, x, key);
  }

  /** A row is closed and its key released: right exactly when it was live, or nobody live has the key. */
  lemma Closes(s: State, s': State, id: Uuid)
    requires DedupInv(s) && id in s.wd && id in s'.wd && s'.inflight == s.inflight - {KeyOf(s.wd[id])}
    requires s'.wd == s.wd[id := s'.wd[id]] && KeyOf(s'.wd[id]) == KeyOf(s.wd[id]) && !Live(s'.wd[id])
    ensures DedupInv(s') <==> Live(s.wd[id]) || forall x :: !LiveKey(s.wd, x, KeyOf(s.wd[id]))
  {
    var k := KeyOf(s.wd[id]);
    assert forall x, key :: LiveKey(s'.wd, x, key) <==> x != id && LiveKey(s.wd, x, key);
    if Live(s.wd[id]) || forall x :: !LiveKey(s.wd, x, k) {
      assert Live(s.wd[id]) ==> LiveKey(s.wd, id, k);
      forall key | key in s'.inflight
        ensures exists x :: LiveKey(s'.wd, x, key)
      {
        var x :| LiveKey(s.wd, x, key);
        assert LiveKey(s'.wd, x, key);
      }
    } else {
      var x :| LiveKey(s.wd, x, k);
      assert LiveKey(s'.wd, x, k);
    }
  }

  /** A closed row comes back to life while the set stands still: never right. */
  lemma Revives(s: State, s': State, id: Uuid)
    requires DedupInv(s) && s'.inflight == s.inflight && id in s.wd && id in s'.wd
    requires s'.wd == s.wd[id := s'.wd[id]] && KeyOf(s'.wd[id]) == KeyOf(s.wd[id])
    requires !Live(s.wd[id]) && Live(s'.wd[id])
    ensures !DedupInv(s')
  {
    var k := KeyOf(s.wd[id]);
    assert LiveKey(s'.wd, id, k);
    if k in s'.inflight {
      var x :| LiveKey(s.wd, x, k);
      assert LiveKey(s'.wd, x, k) && x != id;
    }
  }

  /** A new row with a new key. */
  lemma Opens(s: State, s': State, id: Uuid)
    requires DedupInv(s) && id !in s.wd && id in s'.wd && s'.wd == s.wd[id := s'.wd[id]]
    requires Live(s'.wd[id]) && KeyOf(s'.wd[id]) !in s.inflight && s'.inflight == s.inflight + {KeyOf(s'.wd[id])}
    ensures DedupInv(s')
  {
    var k := KeyOf(s'.wd[id]);
    assert LiveKey(s'.wd, id, k);
    assert forall x, key :: x != id ==> (LiveKey(s'.wd, x, key) <==> LiveKey(s.wd, x, key));
    forall key | key in s'.inflight
      ensures exists x :: LiveKey(s'.wd, x, key)
    {
      if key != k {
        var x :| LiveKey(s.wd, x, key);
        assert LiveKey(s'.wd, x, key);
      }
    }
  }

  // ---------------------------------------------------------------- one step

  /**
   The step leaves set and rows in agreement: a failure mark on a closed row must not release a key that
   a live row uses, and a reorg must not bring a confirmed row back.
   */
  ghost predicate DedupSafe(s: State, id: Uuid, act: Act, seen: Seen)
    requires id in s.wd
  {
    var w := s.wd[id];
    && (act.RecordFailure? ==> Live(w) || forall x :: !LiveKey(s.wd, x, KeyOf(w)))
    && (act.Reorg? ==> !(seen.allKnown && w.row.state.Confirmed?))
  }

  /** How liveness moves with a step. */
  predicate LiveChange(w: Withdrawal, act: Act, seen: Seen, w': Withdrawal) {
    && w'.row.req == w.row.req
    && (act.Reject? || act.Confirm? ==> Live(w) && !Live(w'))
    && (act.RecordFailure? ==> !Live(w'))
    && (act.Reorg? && seen.allKnown && w.row.state.Confirmed? ==> Live(w'))
    && (act.Reorg? && !(seen.allKnown && w.row.state.Confirmed?) ==> w' == w)
    && (!act.Reject? && !act.Confirm? && !act.RecordFailure? && !act.Reorg? ==> Live(w') == Live(w))
  }

  lemma LiveReservation(env: Env, chain: Chain, w: Withdrawal, act: Act, seen: Seen)
    requires IsReservation(act) && Reservation(env, w, chain, act, seen).Some?
    ensures LiveChange(w, act, seen, Reservation(env, w, chain, act, seen).value)
  {
  }

  lemma LiveSigning(env: Env, chain: Chain, w: Withdrawal, act: Act, seen: Seen)
    requires IsSigning(act) && InOrder(env, chain, w) && Signing(env, w, act).Some?
    ensures LiveChange(w, act, seen, Signing(env, w, act).value)
  {
  }

  lemma LiveRest(env: Env, chain: Chain, w: Withdrawal, act: Act, seen: Seen)
    requires !IsReservation(act) && !IsSigning(act)
    requires InOrder(env, chain, w) && Next(env, w, chain, act, seen).Some?
    ensures LiveChange(w, act, seen, Next(env, w, chain, act, seen).value)
  {
  }

  lemma LiveNext(env: Env, chain: Chain, w: Withdrawal, act: Act, seen: Seen)
    requires InOrder(env, chain, w) && Next(env, w, chain, act, seen).Some?
    ensures LiveChange(w, act, seen, Next(env, w, chain, act, seen).value)
  {
    if IsReservation(act) {
      LiveReservation(env, chain, w, act, seen);
    } else if IsSigning(act) {
      LiveSigning(env, chain, w, act, seen);
    } else {
      LiveRest(env, chain, w, act, seen);
    }
  }

  /** After any step, set and rows agree exactly when the step was safe. */
  lemma DedupByLiveness(s: State, id: Uuid, act: Act, s': State, seen: Seen)
    requires DedupInv(s) && id in s.wd && id in s'.wd && s'.wd == s.wd[id := s'.wd[id]]
    requires LiveChange(s.wd[id], act, seen, s'.wd[id])
    requires s'.inflight == InflightAfter(s.inflight, s.wd[id], act)
    ensures DedupInv(s') <==> DedupSafe(s, id, act, seen)
  {
    if act.Reject? || act.Confirm? || act.RecordFailure? {
      Closes(s, s', id);
    } else if act.Reorg? && seen.allKnown && s.wd[id].row.state.Confirmed? {
      Revives(s, s', id);
    } else {
      StaysAsItWas(s, s', id);
    }
  }

  lemma DedupStep(env: Env, s: State, id: Uuid, act: Act, s': State)
    requires Shape(env, s) && DedupInv(s) && Counters(s.nonces) && Apply(env, s, On(id, act)) == Some(s')
    ensures id in s.wd && s.wd[id].row.req.walletId in env.wallets
    ensures DedupInv(s') <==> DedupSafe(s, id, act, Observe(env, s, s.wd[id], act))
  {
    StepParts(env, s, id, act, s');
    var w := s.wd[id];
    var seen := Observe(env, s, w, act);
    assert WithdrawalOk(env, w);
    LiveNext(env, env.wallets[w.row.req.walletId], w, act, seen);
    DedupByLiveness(s, id, act, s', seen);
  }

  lemma DedupOutside(env: Env, s: State, st: Step, s': State)
    requires !st.On? && DedupInv(s) && Apply(env, s, st) == Some(s')
    ensures DedupInv(s')
  {
    if st.Create? {
      Opens(s, s', st.id);
    }
  }

  // ---------------------------------------------------------------- what agreement gives a caller

  /** Every stored request is free of the separator. */
  ghost predicate CleanRows(s: State) {
    forall id :: id in s.wd ==> DedupKeys.Clean(s.wd[id].row.req)
  }

  /**
   A request is refused as a duplicate exactly when a live row asks for the same wallet, address, amount
   and asset.
   */
  lemma RefusedIffLiveTwin(s: State, req: Request)
    requires DedupInv(s) && CleanRows(s) && DedupKeys.Clean(req)
    ensures DedupKey(req) in s.inflight <==> exists id :: id in s.wd && Live(s.wd[id]) && s.wd[id].row.req == req
  {
    if DedupKey(req) in s.inflight {
      var id :| LiveKey(s.wd, id, DedupKey(req));
      DedupKeys.KeyInjective(s.wd[id].row.req, req);
    }
    if id :| id in s.wd && Live(s.wd[id]) && s.wd[id].row.req == req {
      assert LiveKey(s.wd, id, DedupKey(req));
    }
  }
}
