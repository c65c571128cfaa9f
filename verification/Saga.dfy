/**
 The withdrawal saga as a step system. Every shared-table operation and every call to the policy
 engine, the signer or the gateway is a step of its own; steps of different withdrawals interleave
 freely, and at most one service call is active per withdrawal id. A step is described by what it does
 to its own withdrawal and, table by table, by what it does to the shared state.
 */
module Saga {
  import opened Prelude
  import opened Rlp
  import opened Domain
  import Nonces
  import Utxos

  /**
   What the saga does not look into: the wallets and their chains, decimal parsing, the transaction
   builder (a payload to sign, or failure) and the assembler (signed bytes, or failure).
   */
  datatype Env = Env(
    wallets: map<Uuid, Chain>,
    parseDec: string -> Option<int>,
    build: (Request, int, seq<string>) -> Option<Bytes>,
    assemble: (Request, int, seq<string>, Bytes) -> Option<Bytes>)

  // ---------------------------------------------------------------- state

  /** Where the service call on a withdrawal stands, with its local variables. */
  datatype Pc =
    | Idle
    | CrCheck
    | CsStart
    | CsNonce(n: int)
    | CsListed(free: map<string, int>)
    | CsLocked(ops: seq<string>)
    | CsReady(n: int, ops: seq<string>)
    | CsBuilt(n: int, ops: seq<string>, payload: Bytes)
    | CsAssembled(n: int, ops: seq<string>, bytes: Bytes)
    | CsPersisted(n: int, ops: seq<string>)
    | Undo(n: int, ops: seq<string>, fail: string)
    | UndoOps(ops: seq<string>, fail: string)
    | MarkFailed(reason: string)
    | BcSend(n: int, ops: seq<string>, bytes: Bytes)
    | BcSpend(n: int, ops: seq<string>, txHash: string)
    | BcCommit(n: int, txHash: string)
    | BcDone(txHash: string)

  /** What the signer was asked to sign, and its answer. */
  datatype Asked = Asked(payload: Bytes, answer: Bytes)

  /** A row, the call active on it, and its history: approval, last signature, acceptance. */
  datatype Withdrawal = Withdrawal(row: Row, pc: Pc, approved: bool, sig: Option<Asked>, sent: bool)

  /** A transaction the gateway accepted, with the reservations it was built from. */
  datatype Accepted = Accepted(id: Uuid, req: Request, bytes: Bytes, n: int, ops: seq<string>)

  /** The shared tables, the withdrawals, the gateway's log, and nonces reserved outside the saga. */
  datatype State = State(
    nonces: Nonces.Table,
    utxos: Utxos.Table,
    inflight: set<string>,
    wd: map<Uuid, Withdrawal>,
    sent: seq<Accepted>,
    external: seq<(string, int)>)

  const INITIAL: State := State(map[], map[], {}, map[], [], [])

  /** What can happen to one withdrawal. */
  datatype Act =
    // whitelist verdict
    | Approve(answer: PolicyAnswer)
    | Reject(reason: string, decision: string)
    // ConstructAndSign
    | CsBegin
    | CsGiveUp
    | CsReserve
    | CsRecordNonce
    | CsList
    | CsLock(order: seq<string>, k: nat)
    | CsRecordOutpoints
    | CsNoReservation
    | CsBuild
    | CsBuildFail
    | CsSign(sig: Bytes)
    | CsSignFail
    | CsPersist
    | CsFinish
    // rollback
    | UndoNonce
    | UndoOutpoints
    | RecordFailure
    // Broadcast
    | BcBegin
    | BcAccept(txHash: string)
    | BcReject
    | BcMarkSpent
    | BcCommitNonce
    | BcFinish
    // Confirm, Fail, OnReorg
    | Confirm(txHash: string)
    | Fail(reason: string)
    | Reorg(ops: seq<string>)

  /** A step of an existing withdrawal, or one outside all of them. */
  datatype Step =
    | On(id: Uuid, act: Act)
    | Create(id: Uuid, req: Request)
    | ReserveOutside(walletId: Uuid, chain: string)
    | RestoreOutpoints(ops: seq<string>)
    | Track(op: string, walletId: Uuid, value: int)

  // ---------------------------------------------------------------- what a step does to its withdrawal

  /** What a step reads from the shared tables. */
  datatype Seen = Seen(pending: int, listing: map<string, int>, lockOk: bool, allKnown: bool)

  /** Counters are 64-bit; a reservation needs room for one more. */
  const COUNTER_TOP: int := TWO_63 - 1

  function Goto(w: Withdrawal, pc: Pc): Withdrawal {
    w.(pc := pc)
  }

  function SetState(w: Withdrawal, state: RowState, reason: string, txHash: string, decision: string): Withdrawal {
    w.(row := WithState(w.row, state, reason, txHash, decision))
  }

  ghost function Verdict(w: Withdrawal, act: Act): Option<Withdrawal>
    requires act.Approve? || act.Reject?
  {
    if !w.pc.CrCheck? then None
    else if act.Reject? then Some(SetState(w, RowState.Failed, act.reason, "", act.decision).(pc := Idle))
    else if !Approves(act.answer) then None
    else Some(SetState(w, Whitelisted, "", "", act.answer.decision.value.id).(pc := Idle, approved := true))
  }

  predicate IsReservation(act: Act) {
    || act.CsBegin? || act.CsGiveUp? || act.CsReserve? || act.CsRecordNonce? || act.CsList?
    || act.CsLock? || act.CsRecordOutpoints? || act.CsNoReservation?
  }

  /** ConstructAndSign until nonce or outpoints are reserved and recorded on the row. */
  ghost function Reservation(env: Env, w: Withdrawal, chain: Chain, act: Act, seen: Seen): Option<Withdrawal>
    requires IsReservation(act)
  {
    match act
    case CsBegin =>
      if w.pc.Idle? && w.row.state.Whitelisted? then Some(Goto(w, CsStart)) else None
    case CsGiveUp =>
      if w.pc.CsStart? || w.pc.CsListed? then Some(Goto(w, Idle)) else None
    case CsReserve =>
      if w.pc.CsStart? && chain.IsEvm() && seen.pending < COUNTER_TOP then Some(Goto(w, CsNonce(seen.pending)))
      else None
    case CsRecordNonce =>
      if w.pc.CsNonce? then Some(w.(row := w.row.(nonce := Some(w.pc.n)), pc := CsReady(w.pc.n, []))) else None
    case CsList =>
      if w.pc.CsStart? && chain.Bitcoin? then Some(Goto(w, CsListed(seen.listing))) else None
    case CsLock(order, k) =>
      if !w.pc.CsListed? || !Selects(env, w, order, k) then None
      else if seen.lockOk then Some(Goto(w, CsLocked(order[..k])))
      else Some(Goto(w, Idle))
    case CsRecordOutpoints =>
      if w.pc.CsLocked? then Some(w.(row := w.row.(outpoints := w.pc.ops), pc := CsReady(-1, w.pc.ops))) else None
    case CsNoReservation =>
      if w.pc.CsStart? && chain.Solana? then Some(Goto(w, CsReady(-1, []))) else None
  }

  /** The first `k` outpoints of `order` are what largest-first selection takes from the listing. */
  ghost predicate Selects(env: Env, w: Withdrawal, order: seq<string>, k: nat)
    requires w.pc.CsListed?
    ensures Selects(env, w, order, k) ==> k <= |order|
  {
    var amount := env.parseDec(w.row.req.amount);
    && amount.Some? && Utxos.Arrangement(w.pc.free, order)
    && Utxos.StopsAt(w.pc.free, order, amount.value, k)
    && Utxos.Prefix(w.pc.free, order, k) >= amount.value
  }

  predicate IsSigning(act: Act) {
    act.CsBuild? || act.CsBuildFail? || act.CsSign? || act.CsSignFail? || act.CsPersist? || act.CsFinish?
  }

  /** ConstructAndSign from the builder to the SIGNED row. */
  function Signing(env: Env, w: Withdrawal, act: Act): Option<Withdrawal>
    requires IsSigning(act)
  {
    match act
    case CsBuild =>
      if !w.pc.CsReady? then None
      else
        (match env.build(w.row.req, w.pc.n, w.pc.ops)
         case None => Some(Goto(w, Undo(w.pc.n, w.pc.ops, "")))
         case Some(payload) => Some(Goto(w, CsBuilt(w.pc.n, w.pc.ops, payload))))
    case CsBuildFail =>
      if w.pc.CsReady? then Some(Goto(w, Undo(w.pc.n, w.pc.ops, ""))) else None
    case CsSign(sig) =>
      if !w.pc.CsBuilt? then None
      else
        (match env.assemble(w.row.req, w.pc.n, w.pc.ops, sig)
         case None => Some(Goto(w, Undo(w.pc.n, w.pc.ops, "assemble_failed")))
         case Some(bytes) =>
           Some(w.(sig := Some(Asked(w.pc.payload, sig)), pc := CsAssembled(w.pc.n, w.pc.ops, bytes))))
    case CsSignFail =>
      if w.pc.CsBuilt? then Some(Goto(w, Undo(w.pc.n, w.pc.ops, "sign_failed"))) else None
    case CsPersist =>
      if w.pc.CsAssembled? then Some(w.(row := w.row.(signed := w.pc.bytes), pc := CsPersisted(w.pc.n, w.pc.ops)))
      else None
    case CsFinish =>
      if w.pc.CsPersisted? then Some(SetState(w, Signed, "", "", "").(pc := Idle)) else None
  }

  predicate IsRollback(act: Act) {
    act.UndoNonce? || act.UndoOutpoints? || act.RecordFailure?
  }

  /** Rollback, and the failure mark that follows it when the call says so. */
  function RollingBack(w: Withdrawal, act: Act): Option<Withdrawal>
    requires IsRollback(act)
  {
    match act
    case UndoNonce =>
      if w.pc.Undo? then Some(Goto(w, UndoOps(w.pc.ops, w.pc.fail))) else None
    case UndoOutpoints =>
      if w.pc.UndoOps? then Some(Goto(w, if w.pc.fail == "" then Idle else MarkFailed(w.pc.fail))) else None
    case RecordFailure =>
      if w.pc.MarkFailed? then Some(SetState(w, RowState.Failed, w.pc.reason, "", "").(pc := Idle)) else None
  }

  predicate IsBroadcast(act: Act) {
    act.BcBegin? || act.BcAccept? || act.BcReject? || act.BcMarkSpent? || act.BcCommitNonce? || act.BcFinish?
  }

  function Broadcasting(w: Withdrawal, act: Act): Option<Withdrawal>
    requires IsBroadcast(act)
  {
    match act
    case BcBegin =>
      if w.pc.Idle? && w.row.state.Signed? && w.row.signed != []
      then Some(Goto(w, BcSend(NoncePtr(w.row), w.row.outpoints, w.row.signed))) else None
    case BcAccept(txHash) =>
      if w.pc.BcSend? then Some(w.(sent := true, pc := BcSpend(w.pc.n, w.pc.ops, txHash))) else None
    case BcReject =>
      if w.pc.BcSend? then Some(Goto(w, Undo(w.pc.n, w.pc.ops, "broadcast_failed"))) else None
    case BcMarkSpent =>
      if w.pc.BcSpend? then Some(Goto(w, BcCommit(w.pc.n, w.pc.txHash))) else None
    case BcCommitNonce =>
      if w.pc.BcCommit? then Some(Goto(w, BcDone(w.pc.txHash))) else None
    case BcFinish =>
      if w.pc.BcDone? then Some(SetState(w, RowState.Broadcast, "", w.pc.txHash, "").(pc := Idle)) else None
  }

  predicate IsFeedback(act: Act) {
    act.Confirm? || act.Fail? || act.Reorg?
  }

  /** Confirm, Fail (which looks at no state) and OnReorg. */
  function Feedback(w: Withdrawal, act: Act, seen: Seen): Option<Withdrawal>
    requires IsFeedback(act)
  {
    if !w.pc.Idle? then None
    else
      match act
      case Confirm(txHash) =>
        if w.row.state.Broadcast? then Some(SetState(w, Confirmed, "", txHash, "")) else None
      case Fail(reason) =>
        Some(Goto(w, MarkFailed(reason)))
      case Reorg(_) =>
        Some(if seen.allKnown && w.row.state.Confirmed? then SetState(w, RowState.Broadcast, "reorg", "", "") else w)
  }

  /** The withdrawal after one of its own steps; `None` when the step is not enabled. */
  ghost function Next(env: Env, w: Withdrawal, chain: Chain, act: Act, seen: Seen): Option<Withdrawal>
  {
    if IsReservation(act) then Reservation(env, w, chain, act, seen)
    else if IsSigning(act) then Signing(env, w, act)
    else if IsRollback(act) then RollingBack(w, act)
    else if IsBroadcast(act) then Broadcasting(w, act)
    else if IsFeedback(act) then Feedback(w, act, seen)
    else Verdict(w, act)
  }

  // ---------------------------------------------------------------- what a step does to the shared tables

  /** Nonce counters of a step on withdrawal `w`; `key` is its wallet's counter. */
  function NoncesAfter(t: Nonces.Table, key: string, w: Withdrawal, chain: Chain, act: Act, seen: Seen): Nonces.Table {
    match act
    case CsReserve => Nonces.Increment(t, key)
    case CsGiveUp => if chain.Bitcoin? then Nonces.Rollback(t, key, -1) else t
    case CsLock(_, _) => if seen.lockOk then t else Nonces.Rollback(t, key, -1)
    case UndoNonce => if w.pc.Undo? && w.pc.n >= 0 && chain.IsEvm() then Nonces.Rollback(t, key, w.pc.n) else t
    case Fail(_) => if NoncePtr(w.row) >= 0 && chain.IsEvm() then Nonces.Rollback(t, key, NoncePtr(w.row)) else t
    case BcCommitNonce =>
      if chain.IsEvm() && w.row.nonce.Some? then Nonces.Advance(t, key, w.row.nonce.value) else t
    case _ => t
  }

  function UtxosAfter(t: Utxos.Table, w: Withdrawal, chain: Chain, act: Act): Utxos.Table {
    match act
    case CsLock(order, k) =>
      if k > |order| then t
      else (match Utxos.LockAll(t, order[..k]) case None => t case Some(t') => t')
    case UndoOutpoints => if w.pc.UndoOps? then Utxos.Restore(t, w.pc.ops) else t
    case BcMarkSpent => if w.pc.BcSpend? && chain.Bitcoin? then Utxos.MarkSpent(t, w.pc.ops, w.pc.txHash) else t
    case Reorg(ops) => Utxos.Restore(t, ops)
    case _ => t
  }

  /** Entering a terminal state releases the in-flight key. */
  function InflightAfter(t: set<string>, w: Withdrawal, act: Act): set<string> {
    if act.Reject? || act.RecordFailure? || act.Confirm? then t - {DedupKey(w.row.req)} else t
  }

  function SentAfter(log: seq<Accepted>, id: Uuid, w: Withdrawal, act: Act): seq<Accepted> {
    if act.BcAccept? && w.pc.BcSend? then log + [Accepted(id, w.row.req, w.pc.bytes, w.pc.n, w.pc.ops)] else log
  }

  function NonceKey(env: Env, req: Request): string
    requires req.walletId in env.wallets
  {
    Nonces.Key(req.walletId, env.wallets[req.walletId].Name())
  }

  ghost function Observe(env: Env, s: State, w: Withdrawal, act: Act): Seen
    requires w.row.req.walletId in env.wallets
  {
    Seen(Nonces.Row(s.nonces, NonceKey(env, w.row.req)).pending,
         Utxos.Listing(s.utxos, w.row.req.walletId),
         act.CsLock? && act.k <= |act.order| && Utxos.AllFree(s.utxos, act.order[..act.k]),
         act.Reorg? && Utxos.Known(s.utxos, act.ops) == act.ops)
  }

  // ---------------------------------------------------------------- steps and runs

  /** Steps outside any existing withdrawal: creation, outside reservations, outside restores, tracking. */
  ghost function Outside(env: Env, s: State, st: Step): Option<State>
    requires !st.On?
  {
    match st
    case Create(id, req) =>
      if id in s.wd || req.walletId !in env.wallets || DedupKey(req) in s.inflight then None
      else Some(s.(wd := s.wd[id := Withdrawal(NewRow(req), CrCheck, false, None, false)],
                   inflight := s.inflight + {DedupKey(req)}))
    case ReserveOutside(walletId, chain) =>
      var key := Nonces.Key(walletId, chain);
      var n := Nonces.Row(s.nonces, key).pending;
      if n >= COUNTER_TOP then None
      else Some(s.(nonces := Nonces.Increment(s.nonces, key), external := s.external + [(key, n)]))
    case RestoreOutpoints(ops) =>
      Some(s.(utxos := Utxos.Restore(s.utxos, ops)))
    case Track(op, walletId, value) =>
      if op in s.utxos then None else Some(s.(utxos := s.utxos[op := Utxos.Utxo(walletId, value, Utxos.Free, "")]))
  }

  /** The state after a step on withdrawal `w` has made it `w'`. */
  ghost function After(env: Env, s: State, id: Uuid, w: Withdrawal, act: Act, w': Withdrawal): State
    requires w.row.req.walletId in env.wallets
  {
    var chain, key, seen := env.wallets[w.row.req.walletId], NonceKey(env, w.row.req), Observe(env, s, w, act);
    State(NoncesAfter(s.nonces, key, w, chain, act, seen), UtxosAfter(s.utxos, w, chain, act),
          InflightAfter(s.inflight, w, act), s.wd[id := w'], SentAfter(s.sent, id, w, act), s.external)
  }

  /** One step; `None` when it is not enabled. */
  ghost function Apply(env: Env, s: State, st: Step): Option<State> {
    if !st.On? then Outside(env, s, st)
    else if st.id !in s.wd || s.wd[st.id].row.req.walletId !in env.wallets then None
    else
      var w := s.wd[st.id];
      match Next(env, w, env.wallets[w.row.req.walletId], st.act, Observe(env, s, w, st.act))
      case None => None
      case Some(w') => Some(After(env, s, st.id, w, st.act, w'))
  }

  /** The state after a run; `None` when some step of it was not enabled. */
  ghost function Exec(env: Env, s: State, run: seq<Step>): Option<State>
    decreases |run|
  {
    if run == [] then Some(s)
    else
      match Exec(env, s, run[..|run| - 1])
      case None => None
      case Some(t) => Apply(env, t, run[|run| - 1])
  }

  /** Every step of the run meets the discipline `ok` in the state it is taken from. */
  ghost predicate Disciplined(env: Env, s: State, run: seq<Step>, ok: (State, Step) -> bool)
    decreases |run|
  {
    run == [] ||
    (&& Disciplined(env, s, run[..|run| - 1], ok)
     && Exec(env, s, run[..|run| - 1]).Some?
     && ok(Exec(env, s, run[..|run| - 1]).value, run[|run| - 1]))
  }

  lemma {:induction false} ExecConcat(env: Env, s: State, a: seq<Step>, b: seq<Step>)
    requires Exec(env, s, a).Some?
    ensures Exec(env, s, a + b) == Exec(env, Exec(env, s, a).value, b)
    decreases |b|
  {
    if b == [] {
      assert a + b == a;
    } else {
      ExecConcat(env, s, a, b[..|b| - 1]);
      assert (a + b)[..|a + b| - 1] == a + b[..|b| - 1];
    }
  }
}
