/**
 The withdrawal service as it runs: Create, ConstructAndSign, Broadcast, Confirm, Fail and OnReorg over the
 row table, the in-flight keys, the nonce counters and the outpoint store. The ghost state `s` follows the
 tables; every store write and every outside answer moves it by one step of the saga, so each state of the
 service is a reachable state of the step system.
 */
module WithdrawalService {
  import opened Prelude
  import opened Rlp
  import opened Domain
  import opened Saga
  import opened SagaSteps
  import Nonces
  import SagaNonce
  import SagaTheorems
  import Utxos

  /** The row after the whitelist check: approved, or failed with the engine's reason or "policy_error". */
  function Judged(row: Row, a: PolicyAnswer): Row {
    if Approves(a) then WithState(row, Whitelisted, "", "", a.decision.value.id)
    else if a.decision.None? then WithState(row, RowState.Failed, "policy_error", "", "")
    else
      var reason := if a.decision.value.reason != "" then a.decision.value.reason else "policy_error";
      WithState(row, RowState.Failed, reason, "", a.decision.value.id)
  }

  /** What the outside world answers during ConstructAndSign. */
  datatype Answers = Answers(keyOk: bool, attempt: nat -> Nonces.Attempt, optsOk: bool, signature: Option<Bytes>)

  // What the service writes into the shared tables.

  /** An EVM nonce handed back. */
  function HandedBack(env: Env, t: Nonces.Table, req: Request, n: int): Nonces.Table
    requires req.walletId in env.wallets
  {
    if n >= 0 && env.wallets[req.walletId].IsEvm() then Nonces.Rollback(t, NonceKey(env, req), n) else t
  }

  /** An EVM nonce marked as broadcast. */
  function Advanced(env: Env, t: Nonces.Table, req: Request, nonce: Option<int>): Nonces.Table
    requires req.walletId in env.wallets
  {
    if env.wallets[req.walletId].IsEvm() && nonce.Some? then Nonces.Advance(t, NonceKey(env, req), nonce.value) else t
  }

  /** Bitcoin outpoints marked as spent. */
  function SpentBy(env: Env, t: Utxos.Table, req: Request, ops: seq<string>, txHash: string): Utxos.Table
    requires req.walletId in env.wallets
  {
    if env.wallets[req.walletId].Bitcoin? then Utxos.MarkSpent(t, ops, txHash) else t
  }

  function SignedRow(row: Row, bytes: Bytes): Row {
    WithState(row.(signed := bytes), Signed, "", "", "")
  }

  /** The signed bytes, or why there are none; an empty reason leaves the row as it is. */
  function Signature(env: Env, req: Request, n: int, ops: seq<string>, optsOk: bool,
                     signature: Option<Bytes>): Result<Bytes> {
    if !optsOk || env.build(req, n, ops).None? then Err("") else Assembled(env, req, n, ops, signature)
  }

  function Assembled(env: Env, req: Request, n: int, ops: seq<string>, signature: Option<Bytes>): Result<Bytes> {
    if signature.None? then Err("sign_failed")
    else
      match env.assemble(req, n, ops, signature.value)
      case None => Err("assemble_failed")
      case Some(bytes) => Ok(bytes)
  }

  /** A failed row gives its in-flight key up. */
  function KeysLeft(inflight: set<string>, row: Row): set<string> {
    if row.state.Failed? then inflight - {DedupKey(row.req)} else inflight
  }

  function FailedRow(row: Row, reason: string): Row {
    WithState(row, RowState.Failed, reason, "", "")
  }

  /** The row after signing: SIGNED with the bytes, failed with the reason, or as it was. */
  function Outcome(row: Row, r: Result<Bytes>): Row {
    match r
    case Ok(bytes) => SignedRow(row, bytes)
    case Err(reason) => if reason == "" then row else FailedRow(row, reason)
  }

  /** The row with its reservation recorded. */
  function Noted(env: Env, row: Row, n: int, ops: seq<string>): Row
    requires row.req.walletId in env.wallets
  {
    var chain := env.wallets[row.req.walletId];
    if chain.IsEvm() then row.(nonce := Some(n)) else if chain.Bitcoin? then row.(outpoints := ops) else row
  }

  /** The row after the gateway's answer. */
  function Answered(row: Row, reply: Option<string>): Row {
    if reply.Some? then WithState(row, RowState.Broadcast, "", reply.value, "") else FailedRow(row, "broadcast_failed")
  }

  /** An accepted transaction is logged once, with the row's own bytes; a refused one is not. */
  predicate Delivered(reply: Option<string>, id: Uuid, row: Row, log: seq<Accepted>, log': seq<Accepted>) {
    log' == if reply.None? then log else log + [Accepted(id, row.req, row.signed, NoncePtr(row), row.outpoints)]
  }

  /** Every counter would hand out the same number as before. */
  ghost predicate SamePending(t: Nonces.Table, t': Nonces.Table) {
    forall key :: Nonces.Row(t', key).pending == Nonces.Row(t, key).pending
  }

  /** Every outpoint has the lock state, owner and value it had before. */
  ghost predicate SameLocks(t: Utxos.Table, t': Utxos.Table) {
    t'.Keys == t.Keys && forall op :: op in t ==> t'[op] == t[op].(txHash := t'[op].txHash)
  }

  lemma NonceComesBack(env: Env, t: Nonces.Table, req: Request)
    requires req.walletId in env.wallets && env.wallets[req.walletId].IsEvm()
    requires Nonces.Row(t, NonceKey(env, req)).pending >= 0
    ensures var key := NonceKey(env, req);
            SamePending(t, HandedBack(env, Nonces.Increment(t, key), req, Nonces.Row(t, key).pending))
  {
  }

  lemma OutpointsComeBack(t: Utxos.Table, ops: seq<string>, t': Utxos.Table)
    requires Utxos.LockAll(t, ops) == Some(t')
    ensures SameLocks(t, Utxos.Restore(t', ops))
  {
    Utxos.KnownAt(t', ops, |ops|);
    assert ops[..|ops|] == ops;
  }

  /** Whatever the chain, undoing the reservation restores locks, and on EVM chains numbers. */
  lemma ReservationComesBack(env: Env, t: Utxos.Table, t': Utxos.Table, c: Nonces.Table, req: Request, n: int,
                             ops: seq<string>)
    requires req.walletId in env.wallets
    requires if env.wallets[req.walletId].Bitcoin? then Utxos.LockAll(t, ops) == Some(t') else t' == t && ops == []
    requires env.wallets[req.walletId].IsEvm() ==> n == Nonces.Row(c, NonceKey(env, req)).pending >= 0
    ensures SameLocks(t, Utxos.Restore(t', ops))
    ensures var c' := if env.wallets[req.walletId].IsEvm() then Nonces.Increment(c, NonceKey(env, req)) else c;
            SamePending(c, HandedBack(env, c', req, n))
  {
    if env.wallets[req.walletId].Bitcoin? {
      OutpointsComeBack(t, ops, t');
    } else {
      Utxos.RestoreNothing(t);
    }
    if env.wallets[req.walletId].IsEvm() {
      NonceComesBack(env, c, req);
    }
  }

  /** The tables hold what a reservation takes. */
  ghost predicate Holds(env: Env, req: Request, n: int, ops: seq<string>, t: Utxos.Table, t': Utxos.Table,
                        c: Nonces.Table, c': Nonces.Table)
  {
    && req.walletId in env.wallets
    && (if env.wallets[req.walletId].Bitcoin? then Utxos.LockAll(t, ops) == Some(t') else t' == t && ops == [])
    && (if env.wallets[req.walletId].IsEvm()
        then n == Nonces.Row(c, NonceKey(env, req)).pending && c' == Nonces.Increment(c, NonceKey(env, req))
        else n == -1 && c' == c)
  }

  /** On success the tables hold the reservation; otherwise locks and numbers are what they were. */
  ghost predicate Booked(env: Env, req: Request, ok: bool, got: Option<(int, seq<string>)>, t: Utxos.Table,
                         t': Utxos.Table, c: Nonces.Table, c': Nonces.Table)
  {
    if ok then got.Some? && Holds(env, req, got.value.0, got.value.1, t, t', c, c')
    else SameLocks(t, t') && SamePending(c, c')
  }

  lemma NothingBooked(env: Env, req: Request, t: Utxos.Table, c: Nonces.Table)
    ensures Booked(env, req, false, None, t, t, c, c)
  {
  }

  lemma BookedBy(env: Env, req: Request, ok: bool, n: int, ops: seq<string>, t: Utxos.Table, t1: Utxos.Table,
                 t2: Utxos.Table, c: Nonces.Table, c1: Nonces.Table, c2: Nonces.Table)
    requires Holds(env, req, n, ops, t, t1, c, c1) && Nonces.Row(c, NonceKey(env, req)).pending >= 0
    requires t2 == if ok then t1 else Utxos.Restore(t1, ops)
    requires c2 == if ok then c1 else HandedBack(env, c1, req, n)
    ensures Booked(env, req, ok, Some((n, ops)), t, t2, c, c2)
  {
    ReservationComesBack(env, t, t1, c, req, n, ops);
  }

  lemma KeyBack(t: set<string>, key: string)
    ensures key !in t ==> (t + {key}) - {key} == t
  {
  }

  lemma WrittenTwice(m: map<Uuid, Row>, id: Uuid, a: Row, b: Row)
    ensures m[id := a][id := b] == m[id := b]
  {
  }

  lemma WrittenSame(m: map<Uuid, Row>, id: Uuid)
    ensures id in m ==> m[id := m[id]] == m
  {
  }

  lemma NothingToSpend(t: Utxos.Table, txHash: string)
    ensures Utxos.MarkSpent(t, [], txHash) == t
  {
  }

  lemma SelectedFrom(env: Env, w: Withdrawal, order: seq<string>, k: nat, amount: int)
    requires w.pc.CsListed? && env.parseDec(w.row.req.amount) == Some(amount) && k <= |order|
    requires Utxos.Arrangement(w.pc.free, order) && Utxos.StopsAt(w.pc.free, order, amount, k)
    requires Utxos.Prefix(w.pc.free, order, k) >= amount
    ensures Selects(env, w, order, k)
  {
  }

  /** A stored withdrawal's wallet is known, and counters are sound, in every reachable state. */
  lemma Sound(env: Env, allowed: Discipline, s: State)
    requires Reachable(env, allowed, s)
    ensures SagaNonce.Counted(env, s.nonces)
    ensures forall id :: id in s.wd ==> s.wd[id].row.req.walletId in env.wallets
  {
    var run :| Exec(env, INITIAL, run) == Some(s) && Disciplined(env, INITIAL, run, allowed);
    SagaTheorems.BaseRun(env, run);
  }

  lemma WalletKnown(env: Env, allowed: Discipline, s: State, id: Uuid)
    requires Reachable(env, allowed, s) && id in s.wd
    ensures s.wd[id].row.req.walletId in env.wallets
  {
    Sound(env, allowed, s);
  }

  lemma CounterNatural(env: Env, allowed: Discipline, s: State, req: Request)
    requires Reachable(env, allowed, s) && req.walletId in env.wallets
    ensures Nonces.Row(s.nonces, NonceKey(env, req)).pending >= 0
  {
    Sound(env, allowed, s);
  }

  /** The rollback of a nonce that was never reserved changes nothing. */
  lemma NothingToHandBack(env: Env, t: Nonces.Table, w: Uuid)
    requires SagaNonce.Counted(env, t) && w in env.wallets && env.wallets[w].Bitcoin?
    ensures Nonces.Rollback(t, Nonces.Key(w, env.wallets[w].Name()), -1) == t
  {
  }

  class Service {
    const env: Env
    const nonces: Nonces.Service
    const utxos: Utxos.Store
    var rows: map<Uuid, Row>
    var inflight: set<string>
    ghost const allowed: Discipline
    ghost var s: State
    // the policy answer each withdrawal was created with
    ghost var answers: map<Uuid, PolicyAnswer>

    /**
     The tables are those of a saga state reachable under the callers' discipline, and what is approved was
     created with an approving answer.
     */
    ghost predicate Mirrors()
      reads this, nonces, utxos
    {
      && nonces.nonces == s.nonces && utxos.utxos == s.utxos && inflight == s.inflight && rows.Keys == s.wd.Keys
      && (forall id :: id in rows ==> rows[id] == s.wd[id].row)
      && (forall id :: id in s.wd && s.wd[id].approved ==> id in answers && Approves(answers[id]))
      && Lenient(allowed) && Reachable(env, allowed, s)
    }

    /** A call may start on withdrawal `id`: it has none under way. */
    ghost predicate Ready(id: Uuid)
      reads this, nonces, utxos
    {
      Mirrors() && (id in rows ==> s.wd[id].pc.Idle?)
    }

    /** `allowed` is what the service's callers promise about the sensitive steps. */
    constructor (env: Env, ghost allowed: Discipline)
      requires Lenient(allowed)
      ensures Mirrors() && fresh(nonces) && fresh(utxos) && this.env == env && this.allowed == allowed && rows == map[]
    {
      this.env, this.allowed := env, allowed;
      nonces := new Nonces.Service();
      utxos := new Utxos.Store();
      rows, inflight, s, answers := map[], {}, INITIAL, map[];
      new;
      ReachInitial(env, allowed);
    }

    /** The call on withdrawal `id`, whose wallet is known, stands at `pc`; other calls may stand anywhere. */
    ghost predicate Busy(id: Uuid, pc: Pc)
      reads this, nonces, utxos
    {
      Mirrors() && At(env, s, id) && s.wd[id].pc == pc
    }

    // ---------------------------------------------------------------- single steps

    /** The row stays as it is. */
    ghost method Move(id: Uuid, from: Pc, w': Withdrawal)
      requires Busy(id, from) && w'.row == rows[id] && w'.approved == s.wd[id].approved
      requires Reachable(env, allowed, Put(s, id, w'))
      modifies `s
      ensures Busy(id, w'.pc) && s == Put(old(s), id, w')
    {
      s := Put(s, id, w');
    }

    method WriteRow(id: Uuid, row: Row, ghost from: Pc, ghost w': Withdrawal)
      requires Busy(id, from) && w'.row == row && row.req == rows[id].req && Reachable(env, allowed, Put(s, id, w'))
      requires w'.approved ==> s.wd[id].approved || (id in answers && Approves(answers[id]))
      modifies `rows, `s
      ensures Busy(id, w'.pc) && rows == old(rows)[id := row]
      ensures s.sent == old(s).sent
    {
      rows := rows[id := row];
      s := Put(s, id, w');
    }

    ghost method BeginSigning(id: Uuid)
      requires Busy(id, Idle) && rows[id].state.Whitelisted?
      modifies `s
      ensures Busy(id, CsStart)
    {
      var w' := Goto(s.wd[id], CsStart);
      ReachLocal(env, allowed, s, id, CsBegin, w');
      Move(id, Idle, w');
    }

    method RecordNonce(id: Uuid, n: int)
      requires Busy(id, CsNonce(n))
      modifies `rows, `s
      ensures Busy(id, CsReady(n, [])) && rows == old(rows)[id := old(rows)[id].(nonce := Some(n))]
    {
      var row := rows[id].(nonce := Some(n));
      ghost var w' := s.wd[id].(row := row, pc := CsReady(n, []));
      ReachLocal(env, allowed, s, id, CsRecordNonce, w');
      WriteRow(id, row, CsNonce(n), w');
    }

    method RecordOutpoints(id: Uuid, ops: seq<string>)
      requires Busy(id, CsLocked(ops))
      modifies `rows, `s
      ensures Busy(id, CsReady(-1, ops)) && rows == old(rows)[id := old(rows)[id].(outpoints := ops)]
    {
      var row := rows[id].(outpoints := ops);
      ghost var w' := s.wd[id].(row := row, pc := CsReady(-1, ops));
      ReachLocal(env, allowed, s, id, CsRecordOutpoints, w');
      WriteRow(id, row, CsLocked(ops), w');
    }

    ghost method SkipReservation(id: Uuid)
      requires Busy(id, CsStart) && env.wallets[rows[id].req.walletId].Solana?
      modifies `s
      ensures Busy(id, CsReady(-1, []))
    {
      var w' := Goto(s.wd[id], CsReady(-1, []));
      ReachLocal(env, allowed, s, id, CsNoReservation, w');
      Move(id, CsStart, w');
    }

    /** Enters a terminal state: the row is written and its in-flight key is freed. */
    method CloseRow(id: Uuid, row: Row, ghost from: Pc, ghost w': Withdrawal)
      requires Busy(id, from) && w'.row == row && row.req == rows[id].req && w'.approved == s.wd[id].approved
      requires Reachable(env, allowed, Closed(s, id, w'))
      modifies `rows, `inflight, `s
      ensures Busy(id, w'.pc) && rows == old(rows)[id := row] && inflight == old(inflight) - {DedupKey(row.req)}
      ensures s.sent == old(s).sent
    {
      inflight := inflight - {DedupKey(row.req)};
      rows := rows[id := row];
      s := Closed(s, id, w');
    }

    // ---------------------------------------------------------------- Create

    method InsertRow(id: Uuid, req: Request, ghost answer: PolicyAnswer)
      requires Mirrors() && id !in rows && req.walletId in env.wallets && DedupKey(req) !in inflight
      modifies `rows, `inflight, `s, `answers
      ensures answers == old(answers)[id := answer]
      ensures Busy(id, CrCheck) && rows == old(rows)[id := NewRow(req)] && inflight == old(inflight) + {DedupKey(req)}
    {
      ReachCreated(env, allowed, s, id, req);
      inflight := inflight + {DedupKey(req)};
      rows := rows[id := NewRow(req)];
      s := Created(s, id, req);
      answers := answers[id := answer];
    }

    method Approve(id: Uuid, answer: PolicyAnswer)
      requires Busy(id, CrCheck) && Approves(answer) && id in answers && answers[id] == answer
      modifies `rows, `s
      ensures Busy(id, Idle)
      ensures rows == old(rows)[id := WithState(old(rows)[id], Whitelisted, "", "", answer.decision.value.id)]
    {
      var row := WithState(rows[id], Whitelisted, "", "", answer.decision.value.id);
      ghost var w' := s.wd[id].(row := row, pc := Idle, approved := true);
      ReachLocal(env, allowed, s, id, Act.Approve(answer), w');
      WriteRow(id, row, CrCheck, w');
    }

    method Reject(id: Uuid, reason: string, decision: string)
      requires Busy(id, CrCheck)
      modifies `rows, `inflight, `s
      ensures Busy(id, Idle) && rows == old(rows)[id := WithState(old(rows)[id], RowState.Failed, reason, "", decision)]
      ensures inflight == old(inflight) - {DedupKey(rows[id].req)}
    {
      var row := WithState(rows[id], RowState.Failed, reason, "", decision);
      ghost var w' := s.wd[id].(row := row, pc := Idle);
      ReachClosed(env, allowed, s, id, Act.Reject(reason, decision), w');
      CloseRow(id, row, CrCheck, w');
    }

    /** The synchronous whitelist check. */
    method Decide(id: Uuid, answer: PolicyAnswer)
      requires Busy(id, CrCheck) && id in answers && answers[id] == answer
      modifies `rows, `inflight, `s
      ensures Busy(id, Idle) && rows == old(rows)[id := Judged(old(rows)[id], answer)]
      ensures inflight == if Approves(answer) then old(inflight) else old(inflight) - {DedupKey(old(rows)[id].req)}
    {
      if Approves(answer) {
        Approve(id, answer);
      } else {
        var reason, decision := "policy_error", "";
        if answer.decision.Some? {
          if answer.decision.value.reason != "" {
            reason := answer.decision.value.reason;
          }
          decision := answer.decision.value.id;
        }
        Reject(id, reason, decision);
      }
    }

    method Admit(id: Uuid, req: Request, answer: PolicyAnswer)
      requires Mirrors() && id !in rows && req.walletId in env.wallets && DedupKey(req) !in inflight
      modifies `rows, `inflight, `s, `answers
      ensures Busy(id, Idle) && rows == old(rows)[id := Judged(NewRow(req), answer)]
      ensures answers == old(answers)[id := answer]
      ensures inflight == if Approves(answer) then old(inflight) + {DedupKey(req)} else old(inflight)
    {
      ghost var was, key := rows, DedupKey(req);
      KeyBack(inflight, key);
      InsertRow(id, req, answer);
      Decide(id, answer);
      WrittenTwice(was, id, NewRow(req), Judged(NewRow(req), answer));
    }

    /** `usable`: the wallet is neither retired nor paused. `id` is the new withdrawal's UUID. */
    method Create(id: Uuid, req: Request, usable: bool, answer: PolicyAnswer) returns (r: Result<Row>)
      requires Mirrors()
      modifies `rows, `inflight, `s, `answers
      ensures Mirrors() && (r.Ok? ==> Ready(id))
      ensures r.Ok? <==> req.walletId in env.wallets && usable && id !in old(rows) && DedupKey(req) !in old(inflight)
      ensures r.Err? ==> rows == old(rows) && inflight == old(inflight) && answers == old(answers)
      ensures r.Ok? ==> rows == old(rows)[id := r.value] && answers == old(answers)[id := answer]
      ensures r.Ok? ==>
                (r.value.state == Whitelisted
                 <==> !answer.failed && answer.decision.Some? && answer.decision.value.approved)
      ensures r.Ok? && r.value.state != Whitelisted ==>
                && r.value.state == RowState.Failed
                && r.value.reason == (if answer.decision.Some? && answer.decision.value.reason != ""
                                      then answer.decision.value.reason else "policy_error")
      ensures r.Ok? && r.value.state == Whitelisted ==> r.value.reason == ""
      ensures r.Ok? ==> r.value.decision == if answer.decision.Some? then answer.decision.value.id else ""
      ensures r.Ok? ==>
                r.value == NewRow(req).(state := r.value.state, reason := r.value.reason, decision := r.value.decision)
      ensures r.Ok? ==>
                inflight == if r.value.state == Whitelisted then old(inflight) + {DedupKey(req)} else old(inflight)
    {
      if req.walletId !in env.wallets || !usable {
        return Err("wallet");
      }
      if id in rows {
        return Err("withdrawal exists");
      }
      if DedupKey(req) in inflight {
        return Err("duplicate in-flight withdrawal");
      }
      Admit(id, req, answer);
      return Ok(rows[id]);
    }

    // ---------------------------------------------------------------- reservations

    /** The call to the nonce service: the counter moves exactly when the per-wallet lock is had. */
    method TakeNonce(req: Request, attempt: nat -> Nonces.Attempt) returns (r: Result<int>)
      requires req.walletId in env.wallets
      modifies nonces
      ensures r.Ok? ==> r.value == Nonces.Row(old(nonces.nonces), NonceKey(env, req)).pending
      ensures nonces.nonces ==
              if r.Ok? then Nonces.Increment(old(nonces.nonces), NonceKey(env, req))
              else old(nonces.nonces)
    {
      r := nonces.ReserveNonce(req.walletId, env.wallets[req.walletId].Name(), attempt);
    }

    method ReserveNonce(id: Uuid, attempt: nat -> Nonces.Attempt) returns (r: Result<int>)
      requires Busy(id, CsStart) && env.wallets[rows[id].req.walletId].IsEvm()
      requires Nonces.Row(nonces.nonces, NonceKey(env, rows[id].req)).pending < COUNTER_TOP
      modifies `s, nonces
      ensures r.Ok? ==>
                Busy(id, CsNonce(r.value))
                  && r.value == Nonces.Row(old(nonces.nonces), NonceKey(env, rows[id].req)).pending
      ensures r.Err? ==> Busy(id, Idle)
      ensures nonces.nonces ==
              if r.Ok? then Nonces.Increment(old(nonces.nonces), NonceKey(env, rows[id].req))
              else old(nonces.nonces)
    {
      ReachReserved(env, allowed, s, id);
      ReachGivenUp(env, allowed, s, id);
      r := TakeNonce(rows[id].req, attempt);
      s := if r.Ok? then Reserved(env, s, id) else GivenUp(env, s, id);
    }

    /** The rollback of a nonce that was never reserved, on the error paths of Bitcoin selection. */
    method GiveUp(id: Uuid, ghost from: Pc)
      requires Busy(id, from) && (from.CsStart? || from.CsListed?) && env.wallets[rows[id].req.walletId].Bitcoin?
      modifies `s, nonces
      ensures Busy(id, Idle) && nonces.nonces == old(nonces.nonces)
    {
      var req := rows[id].req;
      Sound(env, allowed, s);
      NothingToHandBack(env, s.nonces, req.walletId);
      ReachGivenUp(env, allowed, s, id);
      var _ := nonces.RollbackPendingNonce(req.walletId, env.wallets[req.walletId].Name(), -1);
      s := GivenUp(env, s, id);
    }

    ghost method NoteListing(id: Uuid)
      requires Busy(id, CsStart) && env.wallets[rows[id].req.walletId].Bitcoin?
      modifies `s
      ensures Busy(id, CsListed(Utxos.Listing(utxos.utxos, rows[id].req.walletId)))
    {
      var w' := Goto(s.wd[id], CsListed(Utxos.Listing(s.utxos, rows[id].req.walletId)));
      ReachLocal(env, allowed, s, id, CsList, w');
      Move(id, CsStart, w');
    }

    /** Selection and locking by the outpoint store, and the saga state it leads to. */
    method TakeOutpoints(id: Uuid, amount: int) returns (r: Option<seq<string>>, ghost s': State)
      requires At(env, s, id) && Lenient(allowed) && Reachable(env, allowed, s) && utxos.utxos == s.utxos
      requires s.wd[id].pc == CsListed(Utxos.Listing(s.utxos, s.wd[id].row.req.walletId))
      requires env.parseDec(s.wd[id].row.req.amount) == Some(amount)
      requires id in rows && rows[id] == s.wd[id].row
      modifies utxos
      ensures r.None? ==> utxos.utxos == old(utxos.utxos)
      ensures r.Some? ==> Utxos.LockAll(old(utxos.utxos), r.value) == Some(utxos.utxos)
      ensures r.Some? ==>
                s' == Put(s.(utxos := utxos.utxos), id, Goto(s.wd[id], CsLocked(r.value)))
                  && Reachable(env, allowed, s')
    {
      s' := s;
      var picked, order := utxos.SelectForAmount(rows[id].req.walletId, amount);
      if picked.None? {
        return None, s;
      }
      var ops := picked.value.0;
      assert order[..|ops|] == ops;
      SelectedFrom(env, s.wd[id], order, |ops|, amount);
      ReachLocked(env, allowed, s, id, order, |ops|, utxos.utxos);
      return Some(ops), Put(s.(utxos := utxos.utxos), id, Goto(s.wd[id], CsLocked(ops)));
    }

    method LockOutpoints(id: Uuid, amount: int) returns (r: Option<seq<string>>)
      requires id in rows && Busy(id, CsListed(Utxos.Listing(utxos.utxos, rows[id].req.walletId)))
      requires env.parseDec(rows[id].req.amount) == Some(amount)
      modifies `s, utxos
      ensures r.Some? ==> Busy(id, CsLocked(r.value)) && Utxos.LockAll(old(utxos.utxos), r.value) == Some(utxos.utxos)
      ensures r.None? ==> s == old(s) && Busy(id, old(s).wd[id].pc) && utxos.utxos == old(utxos.utxos)
    {
      ghost var s';
      r, s' := TakeOutpoints(id, amount);
      if r.Some? {
        s := s';
      }
    }

    method SelectOutpoints(id: Uuid) returns (r: Option<seq<string>>)
      requires Busy(id, CsStart) && env.wallets[rows[id].req.walletId].Bitcoin?
      modifies `s, nonces, utxos
      ensures r.Some? ==> Busy(id, CsLocked(r.value)) && Utxos.LockAll(old(utxos.utxos), r.value) == Some(utxos.utxos)
      ensures r.None? ==> Busy(id, Idle) && utxos.utxos == old(utxos.utxos)
      ensures nonces.nonces == old(nonces.nonces)
    {
      var amount := env.parseDec(rows[id].req.amount);
      if amount.None? {
        GiveUp(id, CsStart);
        return None;
      }
      NoteListing(id);
      ghost var listed := s.wd[id].pc;
      r := LockOutpoints(id, amount.value);
      if r.None? {
        GiveUp(id, listed);
      }
    }

    method ReserveEvm(id: Uuid, attempt: nat -> Nonces.Attempt) returns (r: Option<int>)
      requires Busy(id, CsStart) && env.wallets[rows[id].req.walletId].IsEvm()
      requires Nonces.Row(nonces.nonces, NonceKey(env, rows[id].req)).pending < COUNTER_TOP
      modifies `rows, `s, nonces
      ensures r.Some? ==> Busy(id, CsReady(r.value, [])) && rows == old(rows)[id := old(rows)[id].(nonce := r)]
                          && r.value == Nonces.Row(old(nonces.nonces), NonceKey(env, old(rows)[id].req)).pending
                          && nonces.nonces == Nonces.Increment(old(nonces.nonces), NonceKey(env, old(rows)[id].req))
      ensures r.None? ==> Busy(id, Idle) && rows == old(rows) && nonces.nonces == old(nonces.nonces)
    {
      var n := ReserveNonce(id, attempt);
      if n.Err? {
        return None;
      }
      RecordNonce(id, n.value);
      return Some(n.value);
    }

    method ReserveBitcoin(id: Uuid) returns (r: Option<seq<string>>)
      requires Busy(id, CsStart) && env.wallets[rows[id].req.walletId].Bitcoin?
      modifies `rows, `s, nonces, utxos
      ensures r.Some? ==>
                Busy(id, CsReady(-1, r.value)) && rows == old(rows)[id := old(rows)[id].(outpoints := r.value)]
                          && Utxos.LockAll(old(utxos.utxos), r.value) == Some(utxos.utxos)
      ensures r.None? ==> Busy(id, Idle) && rows == old(rows) && utxos.utxos == old(utxos.utxos)
      ensures nonces.nonces == old(nonces.nonces)
    {
      r := SelectOutpoints(id);
      if r.Some? {
        RecordOutpoints(id, r.value);
      }
    }

    /** Nonce or outpoints are reserved and recorded on the row; on failure the call is over. */
    method Reserve(id: Uuid, attempt: nat -> Nonces.Attempt) returns (r: Option<(int, seq<string>)>)
      requires Busy(id, CsStart)
      requires env.wallets[rows[id].req.walletId].IsEvm() ==>
                 Nonces.Row(nonces.nonces, NonceKey(env, rows[id].req)).pending < COUNTER_TOP
      modifies `rows, `s, nonces, utxos
      ensures r.Some? ==> Busy(id, CsReady(r.value.0, r.value.1))
      ensures r.None? ==> Busy(id, Idle) && rows == old(rows) && utxos.utxos == old(utxos.utxos)
      ensures r.Some? ==> rows == old(rows)[id := Noted(env, old(rows)[id], r.value.0, r.value.1)]
      ensures r.None? ==> nonces.nonces == old(nonces.nonces)
      ensures r.Some? ==> Holds(env, old(rows)[id].req, r.value.0, r.value.1, old(utxos.utxos), utxos.utxos,
                                old(nonces.nonces), nonces.nonces)
    {
      WrittenSame(rows, id);
      var chain := env.wallets[rows[id].req.walletId];
      if chain.IsEvm() {
        var n := ReserveEvm(id, attempt);
        r := if n.Some? then Some((n.value, [])) else None;
      } else if chain.Bitcoin? {
        var ops := ReserveBitcoin(id);
        r := if ops.Some? then Some((-1, ops.value)) else None;
      } else {
        SkipReservation(id);
        r := Some((-1, []));
      }
    }

    // ---------------------------------------------------------------- rollback

    /** The first half of the rollback: an EVM nonce is handed back. */
    method UndoNonce(id: Uuid, n: int, ops: seq<string>, fail: string)
      requires Busy(id, Undo(n, ops, fail))
      modifies `s, nonces
      ensures Busy(id, UndoOps(ops, fail))
      ensures s.sent == old(s).sent
      ensures nonces.nonces == HandedBack(env, old(nonces.nonces), rows[id].req, n)
    {
      var req := rows[id].req;
      ReachNonceUndone(env, allowed, s, id);
      if n >= 0 && env.wallets[req.walletId].IsEvm() {
        var _ := nonces.RollbackPendingNonce(req.walletId, env.wallets[req.walletId].Name(), n);
      }
      s := NonceUndone(env, s, id);
    }

    /** The second half: reserved outpoints are unlocked. */
    method UndoOutpoints(id: Uuid, ops: seq<string>, fail: string)
      requires Busy(id, UndoOps(ops, fail))
      modifies `s, utxos
      ensures Busy(id, if fail == "" then Idle else MarkFailed(fail))
      ensures s.sent == old(s).sent
      ensures utxos.utxos == Utxos.Restore(old(utxos.utxos), ops)
    {
      ReachOutpointsUndone(env, allowed, s, id);
      Utxos.RestoreNothing(utxos.utxos);
      if |ops| > 0 {
        var _ := utxos.RestoreUtxos(ops);
      }
      s := OutpointsUndone(s, id);
    }

    /** The row is marked failed. */
    method RecordFailure(id: Uuid, reason: string)
      requires Busy(id, MarkFailed(reason))
      modifies `rows, `inflight, `s
      ensures Busy(id, Idle) && rows == old(rows)[id := FailedRow(old(rows)[id], reason)]
      ensures inflight == old(inflight) - {DedupKey(old(rows)[id].req)}
      ensures s.sent == old(s).sent
    {
      var row := FailedRow(rows[id], reason);
      ghost var w' := s.wd[id].(row := row, pc := Idle);
      ReachClosed(env, allowed, s, id, Act.RecordFailure, w');
      CloseRow(id, row, MarkFailed(reason), w');
    }

    method UndoReservation(id: Uuid, n: int, ops: seq<string>, fail: string)
      requires Busy(id, Undo(n, ops, fail))
      modifies `s, nonces, utxos
      ensures Busy(id, if fail == "" then Idle else MarkFailed(fail)) && s.sent == old(s).sent
      ensures nonces.nonces == HandedBack(env, old(nonces.nonces), rows[id].req, n)
      ensures utxos.utxos == Utxos.Restore(old(utxos.utxos), ops)
    {
      UndoNonce(id, n, ops, fail);
      UndoOutpoints(id, ops, fail);
    }

    /** Everything reserved is given back; with a reason, the row is marked failed as well. */
    method Rollback(id: Uuid, n: int, ops: seq<string>, fail: string)
      requires Busy(id, Undo(n, ops, fail))
      modifies `rows, `inflight, `s, nonces, utxos
      ensures Busy(id, Idle)
              && rows == (if fail == "" then old(rows) else old(rows)[id := FailedRow(old(rows)[id], fail)])
      ensures inflight == if fail == "" then old(inflight) else old(inflight) - {DedupKey(old(rows)[id].req)}
      ensures nonces.nonces == HandedBack(env, old(nonces.nonces), old(rows)[id].req, n)
      ensures utxos.utxos == Utxos.Restore(old(utxos.utxos), ops)
      ensures s.sent == old(s).sent
    {
      UndoReservation(id, n, ops, fail);
      if fail != "" {
        RecordFailure(id, fail);
      }
    }

    // ---------------------------------------------------------------- ConstructAndSign

    /** Build options are resolved and the unsigned transaction is built. */
    method Build(id: Uuid, n: int, ops: seq<string>, optsOk: bool) returns (payload: Option<Bytes>)
      requires Busy(id, CsReady(n, ops))
      modifies `s
      ensures payload.Some? ==> Busy(id, CsBuilt(n, ops, payload.value))
      ensures payload.None? ==> Busy(id, Undo(n, ops, ""))
      ensures payload == if optsOk then env.build(rows[id].req, n, ops) else None
    {
      payload := if optsOk then env.build(rows[id].req, n, ops) else None;
      ghost var w' := Goto(s.wd[id], if payload.Some? then CsBuilt(n, ops, payload.value) else Undo(n, ops, ""));
      ReachLocal(env, allowed, s, id, if optsOk then CsBuild else CsBuildFail, w');
      Move(id, CsReady(n, ops), w');
    }

    /** The signer answers, and the signature is put into the transaction. */
    method Sign(id: Uuid, n: int, ops: seq<string>, payload: Bytes, signature: Option<Bytes>)
      returns (r: Result<Bytes>)
      requires Busy(id, CsBuilt(n, ops, payload))
      modifies `s
      ensures r == Assembled(env, rows[id].req, n, ops, signature)
      ensures r.Ok? ==> Busy(id, CsAssembled(n, ops, r.value))
      ensures r.Err? ==> Busy(id, Undo(n, ops, r.error)) && r.error != ""
    {
      if signature.None? {
        ghost var w' := Goto(s.wd[id], Undo(n, ops, "sign_failed"));
        ReachLocal(env, allowed, s, id, CsSignFail, w');
        Move(id, CsBuilt(n, ops, payload), w');
        return Err("sign_failed");
      }
      var bytes := env.assemble(rows[id].req, n, ops, signature.value);
      ghost var w' := if bytes.None? then Goto(s.wd[id], Undo(n, ops, "assemble_failed"))
                      else s.wd[id].(sig := Some(Asked(payload, signature.value)),
                                     pc := CsAssembled(n, ops, bytes.value));
      ReachLocal(env, allowed, s, id, CsSign(signature.value), w');
      Move(id, CsBuilt(n, ops, payload), w');
      return if bytes.None? then Err("assemble_failed") else Ok(bytes.value);
    }

    method PersistSigned(id: Uuid, n: int, ops: seq<string>, bytes: Bytes)
      requires Busy(id, CsAssembled(n, ops, bytes))
      modifies `rows, `s
      ensures Busy(id, CsPersisted(n, ops)) && rows == old(rows)[id := old(rows)[id].(signed := bytes)]
    {
      var row := rows[id].(signed := bytes);
      ghost var w' := s.wd[id].(row := row, pc := CsPersisted(n, ops));
      ReachLocal(env, allowed, s, id, CsPersist, w');
      WriteRow(id, row, CsAssembled(n, ops, bytes), w');
    }

    method FinishSigning(id: Uuid, n: int, ops: seq<string>)
      requires Busy(id, CsPersisted(n, ops))
      modifies `rows, `s
      ensures Busy(id, Idle) && rows == old(rows)[id := WithState(old(rows)[id], Signed, "", "", "")]
    {
      var row := WithState(rows[id], Signed, "", "", "");
      ghost var w' := s.wd[id].(row := row, pc := Idle);
      ReachLocal(env, allowed, s, id, CsFinish, w');
      WriteRow(id, row, CsPersisted(n, ops), w');
    }

    /** The signed bytes are stored and the row becomes SIGNED. */
    method KeepSigned(id: Uuid, n: int, ops: seq<string>, bytes: Bytes)
      requires Busy(id, CsAssembled(n, ops, bytes))
      modifies `rows, `s
      ensures Busy(id, Idle) && rows == old(rows)[id := SignedRow(old(rows)[id], bytes)]
    {
      ghost var was := rows;
      PersistSigned(id, n, ops, bytes);
      ghost var mid := rows[id];
      FinishSigning(id, n, ops);
      WrittenTwice(was, id, mid, rows[id]);
    }

    method SignBuilt(id: Uuid, n: int, ops: seq<string>, payload: Bytes, signature: Option<Bytes>)
      returns (r: Result<Bytes>)
      requires Busy(id, CsBuilt(n, ops, payload))
      modifies `rows, `inflight, `s, nonces, utxos
      ensures Busy(id, Idle) && r == Assembled(env, old(rows)[id].req, n, ops, signature)
      ensures r.Err? ==> r.error != ""
      ensures r.Ok? ==> rows == old(rows)[id := SignedRow(old(rows)[id], r.value)] && inflight == old(inflight)
                        && nonces.nonces == old(nonces.nonces) && utxos.utxos == old(utxos.utxos)
      ensures r.Err? ==>
                rows == old(rows)[id := FailedRow(old(rows)[id], r.error)]
                  && inflight == old(inflight) - {DedupKey(old(rows)[id].req)}
                         && nonces.nonces == HandedBack(env, old(nonces.nonces), old(rows)[id].req, n)
                         && utxos.utxos == Utxos.Restore(old(utxos.utxos), ops)
    {
      r := Sign(id, n, ops, payload, signature);
      if r.Err? {
        Rollback(id, n, ops, r.error);
      } else {
        KeepSigned(id, n, ops, r.value);
      }
    }

    /** From the reservation to the SIGNED row, or back through the rollback. */
    method BuildAndSign(id: Uuid, n: int, ops: seq<string>, optsOk: bool, signature: Option<Bytes>)
      returns (r: Result<Bytes>)
      requires Busy(id, CsReady(n, ops))
      modifies `rows, `inflight, `s, nonces, utxos
      ensures Busy(id, Idle) && r == Signature(env, old(rows)[id].req, n, ops, optsOk, signature)
      ensures r.Ok? ==> rows == old(rows)[id := SignedRow(old(rows)[id], r.value)] && inflight == old(inflight)
                        && nonces.nonces == old(nonces.nonces) && utxos.utxos == old(utxos.utxos)
      ensures r.Err? && r.error == "" ==> rows == old(rows) && inflight == old(inflight)
      ensures r.Err? && r.error != "" ==> rows == old(rows)[id := FailedRow(old(rows)[id], r.error)]
                                          && inflight == old(inflight) - {DedupKey(old(rows)[id].req)}
      ensures r.Err? ==> nonces.nonces == HandedBack(env, old(nonces.nonces), old(rows)[id].req, n)
                         && utxos.utxos == Utxos.Restore(old(utxos.utxos), ops)
    {
      var payload := Build(id, n, ops, optsOk);
      if payload.Some? {
        r := SignBuilt(id, n, ops, payload.value, signature);
      } else {
        r := Err("");
        Rollback(id, n, ops, "");
      }
    }

    /** Builds and signs what was reserved for a whitelisted row. */
    method SignReserved(id: Uuid, n: int, ops: seq<string>, a: Answers) returns (ok: bool)
      requires Busy(id, CsReady(n, ops)) && rows[id].state.Whitelisted?
      modifies `rows, `inflight, `s, nonces, utxos
      ensures Busy(id, Idle)
      ensures var r := Signature(env, old(rows)[id].req, n, ops, a.optsOk, a.signature);
              && ok == r.Ok? && rows == old(rows)[id := Outcome(old(rows)[id], r)]
              && inflight == KeysLeft(old(inflight), rows[id])
      ensures nonces.nonces ==
              if ok then old(nonces.nonces)
              else HandedBack(env, old(nonces.nonces), old(rows)[id].req, n)
      ensures utxos.utxos == if ok then old(utxos.utxos) else Utxos.Restore(old(utxos.utxos), ops)
    {
      WrittenSame(rows, id);
      var r := BuildAndSign(id, n, ops, a.optsOk, a.signature);
      return r.Ok?;
    }

    /** The call on a whitelisted row; `got` is what was reserved. */
    method ReserveAndSign(id: Uuid, a: Answers) returns (ok: bool, got: Option<(int, seq<string>)>)
      requires Busy(id, CsStart) && rows[id].state.Whitelisted? && CounterFits(id)
      requires Nonces.Row(nonces.nonces, NonceKey(env, rows[id].req)).pending >= 0
      modifies `rows, `inflight, `s, nonces, utxos
      ensures Busy(id, Idle) && inflight == KeysLeft(old(inflight), rows[id])
      ensures rows == if got.None? then old(rows)
                      else old(rows)[id := Outcome(Noted(env, old(rows)[id], got.value.0, got.value.1),
                                                   Signature(env, old(rows)[id].req, got.value.0, got.value.1,
                                                             a.optsOk, a.signature))]
      ensures ok <==>
              got.Some? && Signature(env, old(rows)[id].req, got.value.0, got.value.1, a.optsOk, a.signature).Ok?
      ensures Booked(env, old(rows)[id].req, ok, got, old(utxos.utxos), utxos.utxos, old(nonces.nonces), nonces.nonces)
    {
      ghost var t, c, req := utxos.utxos, nonces.nonces, rows[id].req;
      got := Reserve(id, a.attempt);
      ok := false;
      if got.None? {
        NothingBooked(env, req, t, c);
      } else {
        ok := SignAndBook(id, got.value.0, got.value.1, a, req, old(rows), t, c);
      }
    }

    /** Signing after a reservation, against the rows and tables of before the reservation. */
    method SignAndBook(id: Uuid, n: int, ops: seq<string>, a: Answers, ghost req: Request, ghost was: map<Uuid, Row>,
                       ghost t: Utxos.Table, ghost c: Nonces.Table) returns (ok: bool)
      requires Busy(id, CsReady(n, ops)) && rows[id].state.Whitelisted? && rows[id].req == req
               && rows == was[id := rows[id]]
      requires Holds(env, req, n, ops, t, utxos.utxos, c, nonces.nonces)
               && Nonces.Row(c, NonceKey(env, req)).pending >= 0
      modifies `rows, `inflight, `s, nonces, utxos
      ensures Busy(id, Idle) && inflight == KeysLeft(old(inflight), rows[id])
      ensures var r := Signature(env, req, n, ops, a.optsOk, a.signature);
              ok == r.Ok? && rows == was[id := Outcome(old(rows)[id], r)]
      ensures Booked(env, req, ok, Some((n, ops)), t, utxos.utxos, c, nonces.nonces)
    {
      ghost var mid, t1, c1 := rows[id], utxos.utxos, nonces.nonces;
      ok := SignReserved(id, n, ops, a);
      BookedBy(env, req, ok, n, ops, t, t1, utxos.utxos, c, c1, nonces.nonces);
      WrittenTwice(was, id, mid, rows[id]);
    }

    method SignWhitelisted(id: Uuid, a: Answers) returns (ok: bool, got: Option<(int, seq<string>)>)
      requires Busy(id, Idle) && rows[id].state.Whitelisted? && CounterFits(id)
      modifies `rows, `inflight, `s, nonces, utxos
      ensures Busy(id, Idle) && inflight == KeysLeft(old(inflight), rows[id])
      ensures rows == if got.None? then old(rows)
                      else old(rows)[id := Outcome(Noted(env, old(rows)[id], got.value.0, got.value.1),
                                                   Signature(env, old(rows)[id].req, got.value.0, got.value.1,
                                                             a.optsOk, a.signature))]
      ensures ok <==>
              got.Some? && Signature(env, old(rows)[id].req, got.value.0, got.value.1, a.optsOk, a.signature).Ok?
      ensures Booked(env, old(rows)[id].req, ok, got, old(utxos.utxos), utxos.utxos, old(nonces.nonces), nonces.nonces)
    {
      CounterNatural(env, allowed, s, rows[id].req);
      BeginSigning(id);
      ok, got := ReserveAndSign(id, a);
    }

    /** The wallet's counter has room for one more number. */
    predicate CounterFits(id: Uuid)
      reads this, nonces
    {
      id in rows && rows[id].req.walletId in env.wallets && env.wallets[rows[id].req.walletId].IsEvm() ==>
        Nonces.Row(nonces.nonces, NonceKey(env, rows[id].req)).pending < COUNTER_TOP
    }

    /**
     Reserves, builds, signs. On success the row carries the reservation and the bytes assembled from it;
     on failure every outpoint has its old lock state and every EVM counter its old number.
     */
    method ConstructAndSign(id: Uuid, a: Answers) returns (ok: bool, got: Option<(int, seq<string>)>)
      requires Ready(id) && CounterFits(id)
      modifies `rows, `inflight, `s, nonces, utxos
      ensures Ready(id) && rows.Keys == old(rows).Keys && (id in rows ==> SameElsewhere(old(rows), rows, id))
      ensures ok ==> && id in rows && old(rows)[id].req.walletId in env.wallets
                     && old(rows)[id].state.Whitelisted? && a.keyOk && rows[id].state.Signed? && got.Some?
                     && rows[id] == SignedRow(Noted(env, old(rows)[id], got.value.0, got.value.1), rows[id].signed)
                     && Signature(env, old(rows)[id].req, got.value.0, got.value.1, a.optsOk, a.signature)
                       == Ok(rows[id].signed)
                     && Holds(env, old(rows)[id].req, got.value.0, got.value.1, old(utxos.utxos), utxos.utxos,
                              old(nonces.nonces), nonces.nonces)
      ensures !ok && id in rows ==>
                rows[id].state == old(rows)[id].state || (old(rows)[id].state.Whitelisted? && rows[id].state.Failed?)
      ensures !ok ==> SameLocks(old(utxos.utxos), utxos.utxos) && SamePending(old(nonces.nonces), nonces.nonces)
      ensures inflight == if id in rows && old(rows)[id].state.Whitelisted? then KeysLeft(old(inflight), rows[id])
                          else old(inflight)
    {
      got := None;
      if id !in rows {
        return false, got;
      }
      if rows[id].state != Whitelisted || rows[id].req.walletId !in env.wallets || !a.keyOk {
        WrittenSame(rows, id);
        return false, got;
      }
      ok, got := SignWhitelisted(id, a);
    }

    // ---------------------------------------------------------------- Broadcast

    ghost method BeginBroadcast(id: Uuid)
      requires Busy(id, Idle) && rows[id].state.Signed? && rows[id].signed != []
      modifies `s
      ensures Busy(id, BcSend(NoncePtr(rows[id]), rows[id].outpoints, rows[id].signed)) && s.sent == old(s).sent
    {
      var w' := Goto(s.wd[id], BcSend(NoncePtr(rows[id]), rows[id].outpoints, rows[id].signed));
      ReachLocal(env, allowed, s, id, BcBegin, w');
      Move(id, Idle, w');
    }

    ghost method NoteReject(id: Uuid, n: int, ops: seq<string>, bytes: Bytes)
      requires Busy(id, BcSend(n, ops, bytes))
      modifies `s
      ensures Busy(id, Undo(n, ops, "broadcast_failed")) && s.sent == old(s).sent
    {
      var w' := Goto(s.wd[id], Undo(n, ops, "broadcast_failed"));
      ReachLocal(env, allowed, s, id, BcReject, w');
      Move(id, BcSend(n, ops, bytes), w');
    }

    ghost method NoteAccept(id: Uuid, n: int, ops: seq<string>, bytes: Bytes, txHash: string)
      requires Busy(id, BcSend(n, ops, bytes))
      modifies `s
      ensures Busy(id, BcSpend(n, ops, txHash)) && s.sent == old(s).sent + [Accepted(id, rows[id].req, bytes, n, ops)]
    {
      ReachAccepted(env, allowed, s, id, txHash);
      s := AcceptedBy(s, id, txHash);
    }

    method MarkSpent(id: Uuid, n: int, ops: seq<string>, txHash: string)
      requires Busy(id, BcSpend(n, ops, txHash))
      modifies `s, utxos
      ensures Busy(id, BcCommit(n, txHash)) && s.sent == old(s).sent
      ensures utxos.utxos == SpentBy(env, old(utxos.utxos), old(rows)[id].req, ops, txHash)
    {
      ReachSpent(env, allowed, s, id);
      NothingToSpend(utxos.utxos, txHash);
      if env.wallets[rows[id].req.walletId].Bitcoin? && |ops| > 0 {
        var _ := utxos.MarkUtxosSpent(ops, txHash);
      }
      s := Spent(env, s, id);
    }

    method CommitNonce(id: Uuid, n: int, txHash: string)
      requires Busy(id, BcCommit(n, txHash))
      modifies `s, nonces
      ensures Busy(id, BcDone(txHash)) && s.sent == old(s).sent
      ensures nonces.nonces == Advanced(env, old(nonces.nonces), rows[id].req, rows[id].nonce)
    {
      var req := rows[id].req;
      ReachCommitted(env, allowed, s, id);
      if env.wallets[req.walletId].IsEvm() && rows[id].nonce.Some? {
        nonces.AdvanceBroadcastNonce(req.walletId, env.wallets[req.walletId].Name(), rows[id].nonce.value);
      }
      s := Committed(env, s, id);
    }

    method FinishBroadcast(id: Uuid, txHash: string)
      requires Busy(id, BcDone(txHash))
      modifies `rows, `s
      ensures Busy(id, Idle) && rows == old(rows)[id := WithState(old(rows)[id], RowState.Broadcast, "", txHash, "")]
      ensures s.sent == old(s).sent
    {
      var row := WithState(rows[id], RowState.Broadcast, "", txHash, "");
      ghost var w' := s.wd[id].(row := row, pc := Idle);
      ReachLocal(env, allowed, s, id, BcFinish, w');
      WriteRow(id, row, BcDone(txHash), w');
    }

    /** After the gateway has accepted: spend, commit, write the row. */
    method Settle(id: Uuid, n: int, ops: seq<string>, txHash: string)
      requires Busy(id, BcSpend(n, ops, txHash))
      modifies `rows, `s, nonces, utxos
      ensures Busy(id, Idle) && rows == old(rows)[id := WithState(old(rows)[id], RowState.Broadcast, "", txHash, "")]
      ensures utxos.utxos == SpentBy(env, old(utxos.utxos), old(rows)[id].req, ops, txHash)
      ensures nonces.nonces == Advanced(env, old(nonces.nonces), old(rows)[id].req, old(rows)[id].nonce)
      ensures s.sent == old(s).sent
    {
      MarkSpent(id, n, ops, txHash);
      CommitNonce(id, n, txHash);
      FinishBroadcast(id, txHash);
    }

    /** The gateway refused: everything reserved is given back and the row is failed. */
    method Refused(id: Uuid, n: int, ops: seq<string>, bytes: Bytes)
      requires Busy(id, BcSend(n, ops, bytes))
      modifies `rows, `inflight, `s, nonces, utxos
      ensures Busy(id, Idle) && s.sent == old(s).sent
              && rows == old(rows)[id := FailedRow(old(rows)[id], "broadcast_failed")]
      ensures inflight == old(inflight) - {DedupKey(old(rows)[id].req)}
      ensures nonces.nonces == HandedBack(env, old(nonces.nonces), old(rows)[id].req, n)
      ensures utxos.utxos == Utxos.Restore(old(utxos.utxos), ops)
    {
      NoteReject(id, n, ops, bytes);
      Rollback(id, n, ops, "broadcast_failed");
    }

    /** The gateway accepted: the transaction is logged, then outpoints, nonce and row are settled. */
    method Taken(id: Uuid, n: int, ops: seq<string>, bytes: Bytes, txHash: string)
      requires Busy(id, BcSend(n, ops, bytes))
      modifies `rows, `s, nonces, utxos
      ensures Busy(id, Idle) && s.sent == old(s).sent + [Accepted(id, old(rows)[id].req, bytes, n, ops)]
      ensures rows == old(rows)[id := WithState(old(rows)[id], RowState.Broadcast, "", txHash, "")]
      ensures utxos.utxos == SpentBy(env, old(utxos.utxos), old(rows)[id].req, ops, txHash)
      ensures nonces.nonces == Advanced(env, old(nonces.nonces), old(rows)[id].req, old(rows)[id].nonce)
    {
      NoteAccept(id, n, ops, bytes, txHash);
      Settle(id, n, ops, txHash);
    }

    method SendSigned(id: Uuid, reply: Option<string>)
      requires Busy(id, Idle) && rows[id].state.Signed? && rows[id].signed != []
      modifies `rows, `inflight, `s, nonces, utxos
      ensures Busy(id, Idle)
      ensures Delivered(reply, id, old(rows)[id], old(s).sent, s.sent)
      ensures rows == old(rows)[id := Answered(old(rows)[id], reply)]
      ensures inflight == if reply.Some? then old(inflight) else old(inflight) - {DedupKey(old(rows)[id].req)}
      ensures var row := old(rows)[id];
              && nonces.nonces == (if reply.Some? then Advanced(env, old(nonces.nonces), row.req, row.nonce)
                                   else HandedBack(env, old(nonces.nonces), row.req, NoncePtr(row)))
              && utxos.utxos == (if reply.Some? then SpentBy(env, old(utxos.utxos), row.req, row.outpoints, reply.value)
                                 else Utxos.Restore(old(utxos.utxos), row.outpoints))
    {
      var n, ops, bytes := NoncePtr(rows[id]), rows[id].outpoints, rows[id].signed;
      BeginBroadcast(id);
      if reply.None? {
        Refused(id, n, ops, bytes);
      } else {
        Taken(id, n, ops, bytes, reply.value);
      }
    }

    /** The row is SIGNED, its wallet is known and it has bytes to send. */
    predicate Sendable(id: Uuid)
      reads this
    {
      id in rows && rows[id].state.Signed? && rows[id].req.walletId in env.wallets && rows[id].signed != []
    }

    /** `reply` is the gateway's answer: a transaction hash, or an error. */
    method Broadcast(id: Uuid, reply: Option<string>) returns (ok: bool)
      requires Ready(id)
      modifies `rows, `inflight, `s, nonces, utxos
      ensures Ready(id) && (ok <==> old(Sendable(id)) && reply.Some?)
      ensures inflight == if old(Sendable(id)) && reply.None? then old(inflight) - {DedupKey(old(rows)[id].req)}
                          else old(inflight)
      ensures !old(Sendable(id)) ==> rows == old(rows) && s.sent == old(s).sent
                                     && nonces.nonces == old(nonces.nonces) && utxos.utxos == old(utxos.utxos)
      ensures old(Sendable(id)) ==>
                && Delivered(reply, id, old(rows)[id], old(s).sent, s.sent)
                && rows == old(rows)[id := Answered(old(rows)[id], reply)]
                && var row := old(rows)[id];
                   && nonces.nonces == (if reply.Some? then Advanced(env, old(nonces.nonces), row.req, row.nonce)
                                        else HandedBack(env, old(nonces.nonces), row.req, NoncePtr(row)))
                   && utxos.utxos ==
                      (if reply.Some? then SpentBy(env, old(utxos.utxos), row.req, row.outpoints, reply.value)
                       else Utxos.Restore(old(utxos.utxos), row.outpoints))
    {
      if id !in rows || rows[id].state != Signed || rows[id].req.walletId !in env.wallets || rows[id].signed == [] {
        return false;
      }
      SendSigned(id, reply);
      return reply.Some?;
    }

    // ---------------------------------------------------------------- Confirm, Fail, OnReorg

    method CloseConfirmed(id: Uuid, txHash: string)
      requires Busy(id, Idle) && rows[id].state.Broadcast?
      modifies `rows, `inflight, `s
      ensures Busy(id, Idle) && rows == old(rows)[id := WithState(old(rows)[id], Confirmed, "", txHash, "")]
      ensures inflight == old(inflight) - {DedupKey(old(rows)[id].req)}
    {
      var row := WithState(rows[id], Confirmed, "", txHash, "");
      ghost var w' := s.wd[id].(row := row);
      ReachClosed(env, allowed, s, id, Act.Confirm(txHash), w');
      CloseRow(id, row, Idle, w');
    }

    method Confirm(id: Uuid, txHash: string) returns (ok: bool)
      requires Ready(id)
      modifies `rows, `inflight, `s
      ensures Ready(id) && (ok <==> id in old(rows) && old(rows)[id].state.Broadcast?)
      ensures rows == if ok then old(rows)[id := WithState(old(rows)[id], Confirmed, "", txHash, "")] else old(rows)
      ensures inflight == if ok then old(inflight) - {DedupKey(old(rows)[id].req)} else old(inflight)
    {
      if id !in rows || rows[id].state != RowState.Broadcast {
        return false;
      }
      Sound(env, allowed, s);
      CloseConfirmed(id, txHash);
      return true;
    }

    method BeginFail(id: Uuid, reason: string)
      requires Busy(id, Idle) && allowed(s, On(id, Act.Fail(reason)))
      modifies `s, nonces
      ensures Busy(id, MarkFailed(reason))
      ensures nonces.nonces == HandedBack(env, old(nonces.nonces), rows[id].req, NoncePtr(rows[id]))
    {
      var req, n := rows[id].req, NoncePtr(rows[id]);
      ReachFailing(env, allowed, s, id, reason);
      if n >= 0 && env.wallets[req.walletId].IsEvm() {
        var _ := nonces.RollbackPendingNonce(req.walletId, env.wallets[req.walletId].Name(), n);
      }
      s := Failing(env, s, id, reason);
    }

    /** Looks at no state; hands an EVM nonce back and leaves the outpoints alone. */
    method Fail(id: Uuid, reason: string) returns (ok: bool)
      requires Ready(id) && allowed(s, On(id, Act.Fail(reason)))
      modifies `rows, `inflight, `s, nonces
      ensures Ready(id) && (ok <==> id in old(rows) && old(rows)[id].req.walletId in env.wallets)
      ensures rows == if ok then old(rows)[id := FailedRow(old(rows)[id], reason)] else old(rows)
      ensures inflight == if ok then old(inflight) - {DedupKey(old(rows)[id].req)} else old(inflight)
      ensures nonces.nonces ==
              if ok then HandedBack(env, old(nonces.nonces), old(rows)[id].req, NoncePtr(old(rows)[id]))
              else old(nonces.nonces)
    {
      if id !in rows || rows[id].req.walletId !in env.wallets {
        return false;
      }
      BeginFail(id, reason);
      RecordFailure(id, reason);
      return true;
    }

    /** Restores the outpoints; a confirmed withdrawal goes back to BROADCAST. */
    method OnReorg(id: Uuid, ops: seq<string>) returns (ok: bool)
      requires Ready(id) && allowed(s, On(id, Reorg(ops)))
      modifies `rows, `s, utxos
      ensures Ready(id) && (ok <==> id in old(rows) && Utxos.Known(old(utxos.utxos), ops) == ops)
      ensures utxos.utxos == if id in old(rows) then Utxos.Restore(old(utxos.utxos), ops) else old(utxos.utxos)
      ensures rows == if ok && old(rows)[id].state.Confirmed?
                      then old(rows)[id := WithState(old(rows)[id], RowState.Broadcast, "reorg", "", "")] else old(rows)
    {
      if id !in rows {
        return false;
      }
      WalletKnown(env, allowed, s, id);
      ReachReorged(env, allowed, s, id, ops);
      ok := utxos.RestoreUtxos(ops);
      if ok && rows[id].state == Confirmed {
        rows := rows[id := WithState(rows[id], RowState.Broadcast, "reorg", "", "")];
      }
      s := Reorged(s, id, ops);
    }
  }

  /** Only the row of `id` differs, and it belongs to the same request. */
  predicate SameElsewhere(a: map<Uuid, Row>, b: map<Uuid, Row>, id: Uuid) {
    id in a && id in b && b == a[id := b[id]] && a[id].req == b[id].req
  }
}
