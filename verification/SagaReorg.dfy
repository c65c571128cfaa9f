/**
 What a restore of outpoints can lead to. Marking outpoints free again keeps every holder, so nothing is lost
 at once; but a freed outpoint can be selected again. If the gateway, the signer and the builder answer, two
 accepted broadcasts come to share an outpoint exactly when the restore freed one that was held, which the outpoint
 table and the SIGNED rows tell beforehand.
 */
module SagaReorg {
  import opened Prelude
  import opened Rlp
  import opened Domain
  import opened Saga
  import opened SagaBacking
  import opened SagaRecord
  import opened SagaShape
  import opened SagaSteps
  import opened SagaUtxo
  import Decimals
  import SagaTheorems
  import Utxos

  // ---------------------------------------------------------------- an outside world that answers

  predicate OnBitcoin(env: Env, walletId: Uuid) {
    walletId in env.wallets && env.wallets[walletId].Bitcoin?
  }

  ghost predicate Asks(env: Env, req: Request, walletId: Uuid, amount: int, keys: set<string>) {
    req.walletId == walletId && env.parseDec(req.amount) == Some(amount) && DedupKey(req) !in keys
  }

  ghost predicate HasRequest(env: Env, walletId: Uuid, amount: int, keys: set<string>) {
    exists req :: Asks(env, req, walletId, amount, keys)
  }

  ghost predicate Serves(env: Env, req: Request, ops: seq<string>) {
    env.build(req, -1, ops).Some? && exists sig :: env.assemble(req, -1, ops, sig).Some?
  }

  /**
   Requests for any amount may come in, builder and signer serve every Bitcoin wallet, and an assembled
   transaction is not empty.
   */
  ghost predicate Willing(env: Env) {
    && (forall w, amount, keys :: OnBitcoin(env, w) && amount > 0 ==> HasRequest(env, w, amount, keys))
    && (forall req: Request, ops :: OnBitcoin(env, req.walletId) && ops != [] ==> Serves(env, req, ops))
    && (forall req, n, ops, sig :: env.assemble(req, n, ops, sig) != Some([]))
  }

  /** A length that no text of the set exceeds. */
  lemma {:induction false} LongestIn(keys: set<string>) returns (n: nat)
    ensures forall k :: k in keys ==> |k| <= n
    decreases keys
  {
    n := 0;
    if keys != {} {
      var k :| k in keys;
      n := LongestIn(keys - {k});
      n := if |k| > n then |k| else n;
    }
  }

  /** There are such worlds, for any wallets: amounts in plain decimals, and a builder and a signer that serve all. */
  lemma WillingWorld(wallets: map<Uuid, Chain>)
    ensures Willing(Env(wallets, Decimals.Signed, (req, n, ops) => Some([]), (req, n, ops, sig) => Some([1])))
  {
    var env := Env(wallets, Decimals.Signed, (req, n, ops) => Some([]), (req, n, ops, sig) => Some([1]));
    forall w, amount, keys | OnBitcoin(env, w) && amount > 0
      ensures HasRequest(env, w, amount, keys)
    {
      var n := LongestIn(keys);
      Decimals.FormatSigned(amount);
      var req := Request(w, seq(n + 1, _ => 'x'), "BTC", Decimals.Format(amount));
      assert |DedupKey(req)| > n;
      assert Asks(env, req, w, amount, keys);
    }
    forall req: Request, ops | OnBitcoin(env, req.walletId) && ops != []
      ensures Serves(env, req, ops)
    {
      assert env.assemble(req, -1, ops, []).Some?;
    }
  }

  // ---------------------------------------------------------------- a withdrawal that holds outpoints is sent

  /** The call can still go on to the gateway. */
  predicate Ahead(w: Withdrawal) {
    || w.pc.CsLocked? || w.pc.CsReady? || w.pc.CsBuilt? || w.pc.CsAssembled? || w.pc.CsPersisted? || w.pc.BcSend?
    || (w.pc.Idle? && w.row.state.Signed?)
  }

  function Rank(pc: Pc): nat {
    match pc
    case CsLocked(_) => 6
    case CsReady(_, _) => 5
    case CsBuilt(_, _, _) => 4
    case CsAssembled(_, _, _) => 3
    case CsPersisted(_, _) => 2
    case Idle => 1
    case _ => 0
  }

  /** A step that takes the call nearer to the gateway and touches nothing but its own withdrawal. */
  predicate Nearer(w: Withdrawal, act: Act, w': Withdrawal, op: string) {
    IsLocal(act) && Ahead(w') && Rank(w'.pc) < Rank(w.pc) && op in HeldOps(w') && w'.row.req == w.row.req
  }

  lemma NearerSigning(env: Env, chain: Chain, w: Withdrawal, op: string) returns (act: Act)
    requires Willing(env) && InOrder(env, chain, w) && chain.Bitcoin? && OnBitcoin(env, w.row.req.walletId)
    requires op in HeldOps(w) && (w.pc.CsReady? || w.pc.CsBuilt? || w.pc.CsAssembled? || w.pc.CsPersisted?)
    ensures IsSigning(act) && Signing(env, w, act).Some? && Nearer(w, act, Signing(env, w, act).value, op)
  {
    if w.pc.CsReady? {
      assert Serves(env, w.row.req, w.pc.ops);
      act := CsBuild;
    } else if w.pc.CsBuilt? {
      assert Serves(env, w.row.req, w.pc.ops);
      var sig :| env.assemble(w.row.req, -1, w.pc.ops, sig).Some?;
      act := CsSign(sig);
    } else if w.pc.CsAssembled? {
      act := CsPersist;
    } else {
      act := CsFinish;
    }
  }

  lemma NearerStep(env: Env, s: State, id: Uuid, op: string) returns (act: Act, w': Withdrawal)
    requires Willing(env) && At(env, s, id) && ChainOf(env, s, id).Bitcoin? && Counters(s.nonces)
    requires InOrder(env, ChainOf(env, s, id), s.wd[id])
    requires op in HeldOps(s.wd[id]) && Ahead(s.wd[id]) && !s.wd[id].pc.BcSend?
    ensures Next(env, s.wd[id], ChainOf(env, s, id), act, Observe(env, s, s.wd[id], act)) == Some(w')
    ensures Nearer(s.wd[id], act, w', op) && InOrder(env, ChainOf(env, s, id), w')
  {
    var w, chain := s.wd[id], ChainOf(env, s, id);
    if w.pc.CsLocked? {
      act := CsRecordOutpoints;
    } else if w.pc.Idle? {
      act := BcBegin;
    } else {
      act := NearerSigning(env, chain, w, op);
    }
    w' := Next(env, w, chain, act, Observe(env, s, w, act)).value;
    NextOk(env, chain, w, act, Observe(env, s, w, act));
  }

  /** From wherever it holds the outpoint, a call can go on to the gateway. */
  lemma {:induction false} Forward(env: Env, s: State, id: Uuid, op: string) returns (run: seq<Step>, w: Withdrawal)
    requires Willing(env) && At(env, s, id) && ChainOf(env, s, id).Bitcoin? && Counters(s.nonces)
    requires InOrder(env, ChainOf(env, s, id), s.wd[id]) && op in HeldOps(s.wd[id]) && Ahead(s.wd[id])
    ensures Exec(env, s, run) == Some(Put(s, id, w)) && NoRestores(run)
    ensures w.pc.BcSend? && op in w.pc.ops && w.row.req == s.wd[id].row.req
    decreases Rank(s.wd[id].pc)
  {
    if s.wd[id].pc.BcSend? {
      run, w := [], s.wd[id];
      PutSame(s, id);
    } else {
      var step, w1 := OnceForward(env, s, id, op);
      var more;
      more, w := Forward(env, Put(s, id, w1), id, op);
      PutTwice(s, id, w1, w);
      Joined(env, s, step, Put(s, id, w1), more, Put(s, id, w));
      run := step + more;
    }
  }

  lemma {:induction false} OnceForward(env: Env, s: State, id: Uuid, op: string) returns (run: seq<Step>, w: Withdrawal)
    requires Willing(env) && At(env, s, id) && ChainOf(env, s, id).Bitcoin? && Counters(s.nonces)
    requires InOrder(env, ChainOf(env, s, id), s.wd[id])
    requires op in HeldOps(s.wd[id]) && Ahead(s.wd[id]) && !s.wd[id].pc.BcSend?
    ensures Exec(env, s, run) == Some(Put(s, id, w)) && NoRestores(run)
    ensures Ahead(w) && Rank(w.pc) < Rank(s.wd[id].pc) && op in HeldOps(w) && w.row.req == s.wd[id].row.req
    ensures InOrder(env, ChainOf(env, s, id), w)
  {
    var act;
    act, w := NearerStep(env, s, id, op);
    LocalStep(env, s, id, act, w);
    OneStep(env, s, On(id, act), Put(s, id, w));
    run := [On(id, act)];
  }

  /** The log after one more acceptance, which spends `op`. */
  ghost predicate OneMore(log: seq<Accepted>, log': seq<Accepted>, op: string) {
    |log'| == |log| + 1 && log'[..|log|] == log && op in log'[|log|].ops
  }

  /** A call that holds `op` and can go on is sent and accepted; nothing else changes. */
  lemma {:induction false} SendRun(env: Env, s: State, id: Uuid, op: string) returns (run: seq<Step>, t: State)
    requires Willing(env) && At(env, s, id) && ChainOf(env, s, id).Bitcoin? && Counters(s.nonces)
    requires InOrder(env, ChainOf(env, s, id), s.wd[id]) && op in HeldOps(s.wd[id]) && Ahead(s.wd[id])
    ensures Exec(env, s, run) == Some(t) && NoRestores(run) && OneMore(s.sent, t.sent, op)
    ensures id in t.wd && t.wd == s.wd[id := t.wd[id]] && t.utxos == s.utxos && t.nonces == s.nonces
    ensures t.wd[id].pc.BcSpend? && t.wd[id].row.req == s.wd[id].row.req
  {
    var w;
    run, w := Forward(env, s, id, op);
    var s1 := Put(s, id, w);
    AcceptedStep(env, s1, id, "");
    t := AcceptedBy(s1, id, "");
    Then(env, s, run, s1, On(id, BcAccept("")), t);
    PutTwice(s, id, w, t.wd[id]);
    run := run + [On(id, BcAccept(""))];
  }

  // ---------------------------------------------------------------- a new withdrawal selects a free outpoint

  /** Any set of listed outpoints can be put in largest-first order. */
  lemma {:induction false} Arranged(v: map<string, int>, keys: set<string>) returns (order: seq<string>)
    requires keys <= v.Keys
    ensures Utxos.NoDup(order) && Utxos.Elements(order) == keys && Utxos.Descending(v, order)
    decreases keys
  {
    if keys == {} {
      order := [];
    } else {
      var x :| x in keys;
      var rest := Arranged(v, keys - {x});
      assert x !in rest by {
        assert x !in Utxos.Elements(rest);
      }
      Utxos.InsertDescElements(v, rest, x);
      Utxos.InsertDescSorted(v, rest, x);
      Utxos.InsertDescNoDup(v, rest, x);
      order := Utxos.InsertDesc(v, rest, x);
    }
  }

  /** Over outpoints worth something the running total rises. */
  lemma {:induction false} PrefixRises(v: map<string, int>, order: seq<string>, j: nat, k: nat)
    requires Utxos.InListing(v, order) && j < k <= |order| && forall i :: 0 <= i < k ==> v[order[i]] > 0
    ensures Utxos.Prefix(v, order, j) < Utxos.Prefix(v, order, k)
  {
    if j < k - 1 {
      PrefixRises(v, order, j, k - 1);
    }
  }

  /** For a listed outpoint worth something there is an amount whose selection takes it. */
  lemma Picked(v: map<string, int>, op: string) returns (order: seq<string>, k: nat, amount: int)
    requires op in v && v[op] > 0
    ensures Utxos.Arrangement(v, order) && Utxos.StopsAt(v, order, amount, k) && Utxos.Prefix(v, order, k) >= amount > 0
    ensures op in order[..k]
  {
    order := Arranged(v, v.Keys);
    assert op in Utxos.Elements(order);
    var i :| 0 <= i < |order| && order[i] == op;
    k := i + 1;
    amount := Utxos.Prefix(v, order, k);
    forall j | 0 <= j < k
      ensures v[order[j]] > 0
    {
      Utxos.DescendingAt(v, order, j, i);
    }
    forall j | 0 <= j < k
      ensures Utxos.Prefix(v, order, j) < amount
    {
      PrefixRises(v, order, j, k);
    }
    assert Utxos.Prefix(v, order, 0) == 0;
    assert order[..k][i] == op;
  }

  /** A new request, whitelisted and with the wallet's free outpoints listed. */
  function Listed(s: State, req: Request): Withdrawal {
    Withdrawal(NewRow(req).(state := Whitelisted), CsListed(Utxos.Listing(s.utxos, req.walletId)), true, None, false)
  }

  function Keyed(s: State, req: Request): State {
    s.(inflight := s.inflight + {DedupKey(req)})
  }

  lemma {:induction false} ListRun(env: Env, s: State, id: Uuid, req: Request) returns (run: seq<Step>)
    requires id !in s.wd && OnBitcoin(env, req.walletId) && DedupKey(req) !in s.inflight
    ensures Exec(env, s, run) == Some(Put(Keyed(s, req), id, Listed(s, req))) && NoRestores(run)
  {
    var s1, fresh_ := Keyed(s, req), Withdrawal(NewRow(req), CrCheck, false, None, false);
    OneStep(env, s, Create(id, req), Put(s1, id, fresh_));
    run := [Create(id, req)];
    var ready := Withdrawal(NewRow(req).(state := Whitelisted), Idle, true, None, false);
    run := Locally(env, s, run, s1, id, fresh_, Approve(YES), ready);
    run := Locally(env, s, run, s1, id, ready, CsBegin, ready.(pc := CsStart));
    run := Locally(env, s, run, s1, id, ready.(pc := CsStart), CsList, Listed(s, req));
  }

  lemma LockStep(env: Env, s: State, id: Uuid, w: Withdrawal, order: seq<string>, k: nat, t: Utxos.Table)
    requires OnBitcoin(env, w.row.req.walletId) && w.pc.CsListed? && Selects(env, w, order, k)
    requires Utxos.LockAll(s.utxos, order[..k]) == Some(t)
    ensures Apply(env, Put(s, id, w), On(id, CsLock(order, k))) ==
            Some(Put(s.(utxos := t), id, w.(pc := CsLocked(order[..k]))))
  {
    var w' := w.(pc := CsLocked(order[..k]));
    OnStep(env, Put(s, id, w), id, CsLock(order, k), w');
    assert s.wd[id := w][id := w'] == s.wd[id := w'];
  }

  lemma ListedAreFree(t: Utxos.Table, walletId: Uuid, order: seq<string>, k: nat) returns (t': Utxos.Table)
    requires k <= |order| && Utxos.Elements(order) == Utxos.Listing(t, walletId).Keys
    ensures Utxos.LockAll(t, order[..k]) == Some(t') && Grows(t, t')
    ensures forall op :: op in order[..k] ==> Locked(t', op)
  {
    forall i | 0 <= i < k
      ensures order[i] in t && t[order[i]].lock.Free?
    {
      assert order[i] in Utxos.Elements(order);
    }
    t' := Utxos.LockAll(t, order[..k]).value;
  }

  /** A new withdrawal gets a free outpoint that is worth something. */
  lemma {:induction false} TakeRun(env: Env, s: State, id: Uuid, op: string) returns (run: seq<Step>, t: State)
    requires Willing(env) && id !in s.wd && Worth(env, s.utxos, op) && s.utxos[op].lock.Free?
    ensures Exec(env, s, run) == Some(t) && NoRestores(run)
    ensures id in t.wd && t.wd == s.wd[id := t.wd[id]] && t.sent == s.sent && t.nonces == s.nonces
            && Grows(s.utxos, t.utxos)
    ensures At(env, t, id) && ChainOf(env, t, id).Bitcoin? && InOrder(env, ChainOf(env, t, id), t.wd[id])
    ensures op in HeldOps(t.wd[id]) && Ahead(t.wd[id])
  {
    var walletId := s.utxos[op].walletId;
    var v := Utxos.Listing(s.utxos, walletId);
    var order, k, amount := Picked(v, op);
    assert HasRequest(env, walletId, amount, s.inflight);
    var req :| Asks(env, req, walletId, amount, s.inflight);
    var table := ListedAreFree(s.utxos, walletId, order, k);
    run := LockRun(env, s, id, req, order, k, table);
    t := Put(Keyed(s, req).(utxos := table), id, Listed(s, req).(pc := CsLocked(order[..k])));
  }

  lemma {:induction false} LockRun(env: Env, s: State, id: Uuid, req: Request, order: seq<string>, k: nat,
                                   t: Utxos.Table)
    returns (run: seq<Step>)
    requires id !in s.wd && OnBitcoin(env, req.walletId) && DedupKey(req) !in s.inflight
    requires Selects(env, Listed(s, req), order, k) && Utxos.LockAll(s.utxos, order[..k]) == Some(t)
    ensures Exec(env, s, run) == Some(Put(Keyed(s, req).(utxos := t), id, Listed(s, req).(pc := CsLocked(order[..k]))))
    ensures NoRestores(run)
  {
    run := ListRun(env, s, id, req);
    var s1, w := Keyed(s, req), Listed(s, req);
    LockStep(env, s1, id, w, order, k, t);
    Then(env, s, run, Put(s1, id, w), On(id, CsLock(order, k)),
         Put(s1.(utxos := t), id, w.(pc := CsLocked(order[..k]))));
    run := run + [On(id, CsLock(order, k))];
  }

  /** A new withdrawal selects a free outpoint that is worth something, and is accepted. */
  lemma {:induction false} NewSpend(env: Env, s: State, id: Uuid, op: string) returns (run: seq<Step>, t: State)
    requires Willing(env) && Counters(s.nonces)
    requires id !in s.wd && Worth(env, s.utxos, op) && s.utxos[op].lock.Free?
    ensures Exec(env, s, run) == Some(t) && NoRestores(run) && OneMore(s.sent, t.sent, op)
    ensures id in t.wd && t.wd == s.wd[id := t.wd[id]] && t.nonces == s.nonces && Grows(s.utxos, t.utxos)
    ensures At(env, t, id) && ChainOf(env, t, id).Bitcoin? && t.wd[id].pc.BcSpend?
  {
    var first, s1 := TakeRun(env, s, id, op);
    var second;
    second, t := SendRun(env, s1, id, op);
    Joined(env, s, first, s1, second, t);
    run := first + second;
  }

  // ---------------------------------------------------------------- two broadcasts that share an outpoint

  /** Two accepted broadcasts spend one outpoint. */
  ghost predicate DoubleSpent(s: State) {
    exists i, j, op :: 0 <= i < j < |s.sent| && op in s.sent[i].ops && op in s.sent[j].ops
  }

  /** The service can go on, without any further restore, to a double spend. */
  ghost predicate DoubleSpendAhead(env: Env, s: State) {
    exists run :: NoRestores(run) && Exec(env, s, run).Some? && DoubleSpent(Exec(env, s, run).value)
  }

  lemma {:induction false} GetsThere(env: Env, s: State, a: seq<Step>, s1: State, b: seq<Step>, t: State)
    requires Exec(env, s, a) == Some(s1) && Exec(env, s1, b) == Some(t) && NoRestores(a) && NoRestores(b)
             && DoubleSpent(t)
    ensures DoubleSpendAhead(env, s)
  {
    Joined(env, s, a, s1, b, t);
    assert NoRestores(a + b);
  }

  lemma TwoOfThem(log: seq<Accepted>, log': seq<Accepted>, i: nat, op: string, t: State)
    requires OneMore(log, log', op) && i < |log| && op in log[i].ops && t.sent == log'
    ensures DoubleSpent(t)
  {
    assert log'[i] == log'[..|log|][i];
  }

  /** The freed outpoint belongs to an accepted broadcast. */
  lemma FreedFromLog(env: Env, s: State, i: nat, op: string, a: Uuid)
    requires Willing(env) && Counters(s.nonces) && a !in s.wd && Worth(env, s.utxos, op) && s.utxos[op].lock.Free?
    requires i < |s.sent| && op in s.sent[i].ops
    ensures DoubleSpendAhead(env, s)
  {
    var run, t := NewSpend(env, s, a, op);
    TwoOfThem(s.sent, t.sent, i, op, t);
  }

  /** It belongs to a call that can go on: a new withdrawal takes it, and both are sent. */
  lemma FreedFromCall(env: Env, s: State, id: Uuid, op: string, a: Uuid)
    requires Willing(env) && Counters(s.nonces) && a !in s.wd && Worth(env, s.utxos, op) && s.utxos[op].lock.Free?
    requires At(env, s, id) && ChainOf(env, s, id).Bitcoin? && InOrder(env, ChainOf(env, s, id), s.wd[id])
    requires op in HeldOps(s.wd[id]) && Ahead(s.wd[id])
    ensures DoubleSpendAhead(env, s)
  {
    var first, s1 := NewSpend(env, s, a, op);
    var second, t := SendRun(env, s1, id, op);
    TwoOfThem(s1.sent, t.sent, |s.sent|, op, t);
    GetsThere(env, s, first, s1, second, t);
  }

  lemma {:induction false} UnlockRun(env: Env, s: State, id: Uuid) returns (run: seq<Step>, t: State)
    requires At(env, s, id) && s.wd[id].pc.UndoOps?
    ensures Exec(env, s, run) == Some(t) && NoRestores(run)
    ensures t.utxos == Utxos.Restore(s.utxos, s.wd[id].pc.ops) && t.sent == s.sent && t.nonces == s.nonces
    ensures t.wd.Keys == s.wd.Keys
  {
    OutpointsUndoneStep(env, s, id);
    t := OutpointsUndone(s, id);
    OneStep(env, s, On(id, UndoOutpoints), t);
    run := [On(id, UndoOutpoints)];
  }

  /** A call that is rolling back unlocks its outpoints. */
  lemma {:induction false} UndoRun(env: Env, s: State, id: Uuid) returns (run: seq<Step>, t: State)
    requires At(env, s, id) && (s.wd[id].pc.UndoOps? || (s.wd[id].pc.Undo? && ChainOf(env, s, id).Bitcoin?))
    ensures Exec(env, s, run) == Some(t) && NoRestores(run)
    ensures t.utxos == Utxos.Restore(s.utxos, HeldOps(s.wd[id])) && t.sent == s.sent && t.nonces == s.nonces
    ensures t.wd.Keys == s.wd.Keys
  {
    if s.wd[id].pc.UndoOps? {
      run, t := UnlockRun(env, s, id);
    } else {
      NonceUndoneStep(env, s, id);
      var s1 := NonceUndone(env, s, id);
      OneStep(env, s, On(id, UndoNonce), s1);
      run, t := UnlockRun(env, s1, id);
      Joined(env, s, [On(id, UndoNonce)], s1, run, t);
      run := [On(id, UndoNonce)] + run;
    }
  }

  lemma FreedByUndo(env: Env, t: Utxos.Table, t': Utxos.Table, ops: seq<string>, op: string)
    requires Worth(env, t, op) && op in ops && t' == Utxos.Restore(t, ops) && forall x :: x in ops ==> x in t
    ensures Worth(env, t', op) && t'[op].lock.Free?
  {
    assert forall i :: 0 <= i < |ops| ==> ops[i] in t;
    Utxos.KnownAt(t, ops, |ops|);
    assert ops[..|ops|] == ops;
  }

  /**
   It belongs to a call that is rolling back: a new withdrawal takes it and is sent, the rollback unlocks it
   under the other's feet, and a second new withdrawal takes it again.
   */
  lemma FreedFromUndo(env: Env, s: State, id: Uuid, op: string, a: Uuid, b: Uuid)
    requires Willing(env) && Counters(s.nonces) && Worth(env, s.utxos, op) && s.utxos[op].lock.Free?
    requires a !in s.wd && b !in s.wd && a != b && At(env, s, id)
    requires s.wd[id].pc.UndoOps? || (s.wd[id].pc.Undo? && ChainOf(env, s, id).Bitcoin?)
    requires op in HeldOps(s.wd[id]) && forall x :: x in HeldOps(s.wd[id]) ==> x in s.utxos
    ensures DoubleSpendAhead(env, s)
  {
    var ops := HeldOps(s.wd[id]);
    var first, s1 := NewSpend(env, s, a, op);
    assert s1.wd[id] == s.wd[id];
    var second, s2 := UndoRun(env, s1, id);
    FreedByUndo(env, s1.utxos, s2.utxos, ops, op);
    var third, t := NewSpend(env, s2, b, op);
    Joined(env, s1, second, s2, third, t);
    TwoOfThem(s2.sent, t.sent, |s.sent|, op, t);
    GetsThere(env, s, first, s1, second + third, t);
  }

  // ---------------------------------------------------------------- exactly when

  function RestoredOps(st: Step): seq<string>
    requires IsRestore(st)
  {
    if st.On? then st.act.ops else st.ops
  }

  lemma ReorgParts(env: Env, s: State, id: Uuid, act: Act, s': State)
    requires Counters(s.nonces) && act.Reorg? && Apply(env, s, On(id, act)) == Some(s')
    ensures s'.utxos == Utxos.Restore(s.utxos, act.ops) && s'.wd.Keys == s.wd.Keys
    ensures forall o :: HeldBy(s', o) == HeldBy(s, o)
  {
    StepParts(env, s, id, act, s');
    var w := s.wd[id];
    ReorgKeepsHoldings(env, env.wallets[w.row.req.walletId], w, act, Observe(env, s, w, act));
    HoldersStay(s, id, s');
  }

  lemma HoldersStay(s: State, id: Uuid, s': State)
    requires id in s.wd && id in s'.wd && s'.wd == s.wd[id := s'.wd[id]] && s'.sent == s.sent
    requires HeldOps(s'.wd[id]) == HeldOps(s.wd[id])
    ensures forall o :: HeldBy(s', o) == HeldBy(s, o)
  {
  }

  /** What a restore does: the named outpoints are free, and holders and counters stand. */
  lemma RestoreParts(env: Env, s: State, st: Step, s': State)
    requires SagaTheorems.Base(env, s) && IsRestore(st) && Apply(env, s, st) == Some(s')
    ensures s'.utxos == Utxos.Restore(s.utxos, RestoredOps(st)) && s'.wd.Keys == s.wd.Keys
    ensures forall o :: HeldBy(s', o) == HeldBy(s, o)
  {
    if st.On? {
      ReorgParts(env, s, st.id, st.act, s');
    }
  }

  lemma SafeStaysSingle(env: Env, s: State, st: Step, s': State)
    requires SagaTheorems.Base(env, s) && UtxoInv(s) && IsRestore(st) && Apply(env, s, st) == Some(s')
    requires RestoreSafe(s, RestoredOps(st))
    ensures !DoubleSpendAhead(env, s')
  {
    SagaTheorems.BaseStep(env, s, st, s');
    RestoreParts(env, s, st, s');
    RestoreIff(s, s', RestoredOps(st));
    forall run | NoRestores(run) && Exec(env, s', run).Some?
      ensures !DoubleSpent(Exec(env, s', run).value)
    {
      SagaTheorems.UtxoFrom(env, s', run);
      NoneTwice(Exec(env, s', run).value);
    }
  }

  lemma NoneTwice(s: State)
    requires Exclusive(s)
    ensures !DoubleSpent(s)
  {
    forall i, j, op | 0 <= i < j < |s.sent| && op in s.sent[i].ops
      ensures op !in s.sent[j].ops
    {
      assert op in HeldBy(s, Log(i));
      assert op !in HeldBy(s, Log(j));
    }
  }

  /** In a state with holders as before and `op` free, whoever holds `op`, a double spend lies ahead. */
  lemma HeldAndFree(env: Env, s: State, o: Owner, op: string, a: Uuid, b: Uuid)
    requires Willing(env) && SagaTheorems.Base(env, s) && a !in s.wd && b !in s.wd && a != b
    requires Worth(env, s.utxos, op) && s.utxos[op].lock.Free? && op in HeldBy(s, o)
    requires forall x :: x in HeldBy(s, o) ==> x in s.utxos
    ensures DoubleSpendAhead(env, s)
  {
    match o
    case Log(i) => FreedFromLog(env, s, i, op, a);
    case Call(id) =>
      assert WithdrawalOk(env, s.wd[id]);
      HolderPlace(env, ChainOf(env, s, id), s.wd[id], op);
      if Ahead(s.wd[id]) {
        FreedFromCall(env, s, id, op, a);
      } else {
        FreedFromUndo(env, s, id, op, a, b);
      }
  }

  /** A call that holds outpoints can go on, or is rolling back. */
  lemma HolderPlace(env: Env, chain: Chain, w: Withdrawal, op: string)
    requires InOrder(env, chain, w) && op in HeldOps(w)
    ensures (Ahead(w) && chain.Bitcoin?) || w.pc.UndoOps? || (w.pc.Undo? && chain.Bitcoin?)
  {
  }

  /** What is held is worth something, and the table knows all that its holder has. */
  lemma HeldParts(env: Env, s: State, o: Owner, op: string)
    requires UtxoInv(s) && Backed(env, s) && op in HeldBy(s, o)
    ensures Worth(env, s.utxos, op) && forall x :: x in HeldBy(s, o) ==> x in s.utxos
  {
    assert forall x :: x in HeldBy(s, o) ==> Fits(s.utxos, o, x);
  }

  /** Whoever holds an outpoint that the restore frees, a double spend lies ahead. */
  lemma FreedIsSpentTwice(env: Env, s: State, st: Step, s': State, o: Owner, op: string, a: Uuid, b: Uuid)
    requires Willing(env) && SagaTheorems.Base(env, s) && IsRestore(st) && Apply(env, s, st) == Some(s')
    requires a !in s.wd && b !in s.wd && a != b
    requires op in Utxos.Known(s.utxos, RestoredOps(st)) && op in HeldBy(s, o)
    requires Worth(env, s.utxos, op) && forall x :: x in HeldBy(s, o) ==> x in s.utxos
    ensures DoubleSpendAhead(env, s')
  {
    RestoreParts(env, s, st, s');
    SagaTheorems.BaseStep(env, s, st, s');
    FreeAgain(env, s.utxos, RestoredOps(st), op);
    assert HeldBy(s', o) == HeldBy(s, o);
    HeldAndFree(env, s', o, op, a, b);
  }

  lemma FreeAgain(env: Env, t: Utxos.Table, ops: seq<string>, op: string)
    requires Worth(env, t, op) && op in Utxos.Known(t, ops)
    ensures var t' := Utxos.Restore(t, ops); Worth(env, t', op) && t'[op].lock.Free? && t'.Keys == t.Keys
  {
  }

  /** In terms of holders: a double spend lies ahead exactly when the restore frees an outpoint that is held. */
  lemma AheadIffHeld(env: Env, s: State, st: Step, s': State, a: Uuid, b: Uuid)
    requires Willing(env) && SagaTheorems.Base(env, s) && UtxoInv(s) && Backed(env, s)
    requires IsRestore(st) && Apply(env, s, st) == Some(s') && a !in s.wd && b !in s.wd && a != b
    ensures DoubleSpendAhead(env, s') <==> !RestoreSafe(s, RestoredOps(st))
  {
    if RestoreSafe(s, RestoredOps(st)) {
      SafeStaysSingle(env, s, st, s');
    } else {
      var o, op :| op in Utxos.Known(s.utxos, RestoredOps(st)) && op in HeldBy(s, o);
      HeldParts(env, s, o, op);
      FreedIsSpentTwice(env, s, st, s', o, op, a, b);
    }
  }

  /**
   After a restore, by a reorg or from outside, two accepted broadcasts can come to share an outpoint exactly
   when the restore names an outpoint that is on record: spent, or locked and listed by a SIGNED row. The wallets
   of the locked ones are at rest; spent and free outpoints are decided by the table in every state.
   */
  lemma DoubleSpendIff(env: Env, s: State, st: Step, s': State, a: Uuid, b: Uuid)
    requires Willing(env) && Recorded(env, s) && IsRestore(st) && Apply(env, s, st) == Some(s')
    requires AllDecided(s, RestoredOps(st)) && a !in s.wd && b !in s.wd && a != b
    ensures DoubleSpendAhead(env, s') <==> !OffRecord(s, RestoredOps(st))
  {
    SafeIffOffRecord(env, s, RestoredOps(st));
    AheadIffHeld(env, s, st, s', a, b);
  }

  /** The same over every run that restored nothing held so far. */
  lemma {:induction false} ReorgDoubleSpendsIff(env: Env, run: seq<Step>, st: Step, a: Uuid, b: Uuid)
    requires Willing(env) && Exec(env, INITIAL, run).Some? && IsRestore(st)
    requires Disciplined(env, INITIAL, run, SagaTheorems.RestoreDiscipline())
    requires var s := Exec(env, INITIAL, run).value;
             Apply(env, s, st).Some? && AllDecided(s, RestoredOps(st)) && a !in s.wd && b !in s.wd && a != b
    ensures var s := Exec(env, INITIAL, run).value;
            DoubleSpendAhead(env, Apply(env, s, st).value) <==> !OffRecord(s, RestoredOps(st))
  {
    var s := Exec(env, INITIAL, run).value;
    RecordedRun(env, run);
    DoubleSpendIff(env, s, st, Apply(env, s, st).value, a, b);
  }

  /** And whatever calls are under way: naming a spent outpoint leads there, naming free ones only does not. */
  lemma {:induction false} SpentReorgDoubleSpends(env: Env, run: seq<Step>, st: Step, a: Uuid, b: Uuid)
    requires Willing(env) && Exec(env, INITIAL, run).Some? && IsRestore(st)
    requires Disciplined(env, INITIAL, run, SagaTheorems.RestoreDiscipline())
    requires var s := Exec(env, INITIAL, run).value; Apply(env, s, st).Some? && a !in s.wd && b !in s.wd && a != b
    ensures var s := Exec(env, INITIAL, run).value;
            var s', known := Apply(env, s, st).value, Utxos.Known(s.utxos, RestoredOps(st));
            && ((exists op :: op in known && MarkedSpent(s.utxos, op)) ==> DoubleSpendAhead(env, s'))
            && ((forall op :: op in known ==> !Taken(s.utxos, op)) ==> !DoubleSpendAhead(env, s'))
  {
    var s := Exec(env, INITIAL, run).value;
    RecordedRun(env, run);
    SpentIsHeld(env, s, RestoredOps(st));
    AheadIffHeld(env, s, st, Apply(env, s, st).value, a, b);
  }

  // ---------------------------------------------------------------- the ordinary use of a reorg

  lemma FinishedStep(env: Env, s: State, id: Uuid)
    requires At(env, s, id) && s.wd[id].pc.BcDone?
    ensures Apply(env, s, On(id, BcFinish)) ==
            Some(Put(s, id, SetState(s.wd[id], RowState.Broadcast, "", s.wd[id].pc.txHash, "").(pc := Idle)))
  {
    LocalStep(env, s, id, BcFinish, SetState(s.wd[id], RowState.Broadcast, "", s.wd[id].pc.txHash, "").(pc := Idle));
  }

  /** The bookkeeping of an accepted Bitcoin broadcast: its row is BROADCAST and no call is under way. */
  lemma {:induction false} SettleRun(env: Env, s: State, id: Uuid) returns (run: seq<Step>, t: State)
    requires At(env, s, id) && ChainOf(env, s, id).Bitcoin? && s.wd[id].pc.BcSpend?
    ensures Exec(env, s, run) == Some(t) && At(env, t, id) && t.wd[id].pc.Idle?
    ensures t.wd.Keys == s.wd.Keys && t.sent == s.sent && t.nonces == s.nonces && Grows(s.utxos, t.utxos)
  {
    SpentStep(env, s, id);
    var s1 := Spent(env, s, id);
    CommittedStep(env, s1, id);
    var s2 := Committed(env, s1, id);
    FinishedStep(env, s2, id);
    t := Put(s2, id, SetState(s2.wd[id], RowState.Broadcast, "", s2.wd[id].pc.txHash, "").(pc := Idle));
    TwoSteps(env, s, On(id, BcMarkSpent), s1, On(id, BcCommitNonce), s2);
    Then(env, s, [On(id, BcMarkSpent), On(id, BcCommitNonce)], s2, On(id, BcFinish), t);
    run := [On(id, BcMarkSpent), On(id, BcCommitNonce)] + [On(id, BcFinish)];
  }

  lemma OneRestored(env: Env, t: Utxos.Table, op: string)
    requires Worth(env, t, op)
    ensures var t' := Utxos.Restore(t, [op]); Worth(env, t', op) && t'[op].lock.Free? && Grows(t, t')
  {
    FreedByUndo(env, t, Utxos.Restore(t, [op]), [op], op);
  }

  /** A reorg of a settled withdrawal that names `op` makes it free again. */
  lemma {:induction false} ReorgRun(env: Env, s: State, id: Uuid, op: string) returns (run: seq<Step>, t: State)
    requires At(env, s, id) && ChainOf(env, s, id).Bitcoin? && s.wd[id].pc.BcSpend? && Worth(env, s.utxos, op)
    ensures Exec(env, s, run) == Some(t) && t.wd.Keys == s.wd.Keys && t.sent == s.sent && t.nonces == s.nonces
    ensures Worth(env, t.utxos, op) && t.utxos[op].lock.Free?
  {
    var s1;
    run, s1 := SettleRun(env, s, id);
    ReorgedStep(env, s1, id, [op]);
    t := Reorged(s1, id, [op]);
    OneRestored(env, s1.utxos, op);
    Then(env, s, run, s1, On(id, Reorg([op])), t);
    run := run + [On(id, Reorg([op]))];
  }

  /**
   From any state with a free outpoint that is worth something: a withdrawal spends it and is accepted, a reorg
   of that withdrawal restores it, a second withdrawal selects it and is accepted. The gateway has then
   accepted two transactions that spend one outpoint.
   */
  lemma ReorgAfterBroadcastSpendsTwice(env: Env, s: State, op: string, a: Uuid, b: Uuid)
    requires Willing(env) && Counters(s.nonces) && a !in s.wd && b !in s.wd && a != b
    requires Worth(env, s.utxos, op) && s.utxos[op].lock.Free?
    ensures exists run, t :: Exec(env, s, run) == Some(t) && |t.sent| == |s.sent| + 2
                             && op in t.sent[|s.sent|].ops && op in t.sent[|s.sent| + 1].ops
  {
    var first, s1 := NewSpend(env, s, a, op);
    var second, s2 := ReorgRun(env, s1, a, op);
    var third, t := NewSpend(env, s2, b, op);
    Joined(env, s1, second, s2, third, t);
    Joined(env, s, first, s1, second + third, t);
    assert t.sent[|s.sent|] == t.sent[..|s2.sent|][|s.sent|];
  }
}
