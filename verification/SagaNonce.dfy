/**
 Who holds which EVM nonce in a saga state, and why no two holders ever share one. Failing a withdrawal
 is the one operation that can break this; exactly when it does is proved as an equivalence.
 */
module SagaNonce {
  import opened Prelude
  import opened Domain
  import opened Saga
  import opened SagaShape
  import Nonces

  // ---------------------------------------------------------------- holders

  /** The nonce a withdrawal holds: from its reservation until it is rolled back or accepted. */
  function HeldNonce(chain: Chain, w: Withdrawal): Option<int> {
    if !chain.IsEvm() then None
    else
      match w.pc
      case CsNonce(n) => Some(n)
      case CsReady(n, _) => Some(n)
      case CsBuilt(n, _, _) => Some(n)
      case CsAssembled(n, _, _) => Some(n)
      case CsPersisted(n, _) => Some(n)
      case Undo(n, _, _) => Some(n)
      case BcSend(n, _, _) => Some(n)
      case Idle => if w.row.state.Signed? then w.row.nonce else None
      case _ => None
  }

  /** A withdrawal, an accepted broadcast, or a reservation from outside. */
  datatype Owner = Call(id: Uuid) | Log(i: nat) | Outsider(j: nat)

  type Claim = (string, int)

  /** Counter and number an owner holds. */
  ghost function Holding(env: Env, s: State, o: Owner): Option<Claim> {
    match o
    case Call(id) =>
      if id !in s.wd || s.wd[id].row.req.walletId !in env.wallets then None
      else
        var req := s.wd[id].row.req;
        (match HeldNonce(env.wallets[req.walletId], s.wd[id])
         case None => None
         case Some(n) => Some((NonceKey(env, req), n)))
    case Log(i) =>
      if i >= |s.sent| || s.sent[i].req.walletId !in env.wallets
        || !env.wallets[s.sent[i].req.walletId].IsEvm() then None
      else Some((NonceKey(env, s.sent[i].req), s.sent[i].n))
    case Outsider(j) =>
      if j >= |s.external| then None else Some(s.external[j])
  }

  function Pending(t: Nonces.Table, key: string): int {
    Nonces.Row(t, key).pending
  }

  /** Every held number was handed out by its counter. */
  ghost predicate Below(env: Env, s: State) {
    forall o :: Holding(env, s, o).Some? ==>
      Holding(env, s, o).value.1 < Pending(s.nonces, Holding(env, s, o).value.0)
  }

  /** No number of a counter has two holders. */
  ghost predicate Distinct(env: Env, s: State) {
    forall o, p :: o != p && Holding(env, s, o).Some? ==> Holding(env, s, o) != Holding(env, s, p)
  }

  /** Counters are natural numbers, and those of Bitcoin wallets, if present, have been used. */
  ghost predicate Counted(env: Env, t: Nonces.Table) {
    && Counters(t)
    && forall w: Uuid :: w in env.wallets && env.wallets[w].Bitcoin? && Nonces.Key(w, "bitcoin") in t
                         ==> t[Nonces.Key(w, "bitcoin")].pending > 0
  }

  ghost predicate NonceInv(env: Env, s: State) {
    Below(env, s) && Distinct(env, s) && Counted(env, s.nonces)
  }

  // ---------------------------------------------------------------- the four ways holdings change

  /** Numbers stay or are dropped while the counters stand still. */
  lemma Dropped(env: Env, s: State, s': State)
    requires Below(env, s) && Distinct(env, s)
    requires forall o :: Holding(env, s', o) == Holding(env, s, o) || Holding(env, s', o).None?
    requires forall key :: Pending(s'.nonces, key) == Pending(s.nonces, key)
    ensures Below(env, s') && Distinct(env, s')
  {
  }

  /** One owner takes the next number. */
  lemma Taken(env: Env, s: State, s': State, o0: Owner, key: string)
    requires Below(env, s) && Distinct(env, s)
    requires forall o :: o != o0 ==> Holding(env, s', o) == Holding(env, s, o)
    requires Holding(env, s', o0) == Some((key, Pending(s.nonces, key)))
    requires s'.nonces == Nonces.Increment(s.nonces, key)
    ensures Below(env, s') && Distinct(env, s')
  {
  }

  /** A holder gives its number back; the counter may step down onto it. */
  lemma Released(env: Env, s: State, s': State, o0: Owner, key: string, n: int)
    requires Below(env, s) && Distinct(env, s)
    requires forall o :: o != o0 ==> Holding(env, s', o) == Holding(env, s, o)
    requires Holding(env, s', o0).None?
    requires forall o :: o != o0 ==> Holding(env, s, o) != Some((key, n))
    requires s'.nonces == Nonces.Rollback(s.nonces, key, n)
    ensures Below(env, s') && Distinct(env, s')
  {
    forall o | Holding(env, s', o).Some?
      ensures Holding(env, s', o).value.1 < Pending(s'.nonces, Holding(env, s', o).value.0)
    {
      assert o != o0;
      assert Holding(env, s, o) == Some((Holding(env, s, o).value.0, Holding(env, s, o).value.1));
    }
  }

  /** A number passes from one owner to a new one. */
  lemma Passed(env: Env, s: State, s': State, o0: Owner, o1: Owner)
    requires Below(env, s) && Distinct(env, s) && o0 != o1
    requires forall o :: o != o0 && o != o1 ==> Holding(env, s', o) == Holding(env, s, o)
    requires Holding(env, s', o0).None? && Holding(env, s', o1) == Holding(env, s, o0)
    requires Holding(env, s, o1).None?
    requires s'.nonces == s.nonces
    ensures Below(env, s') && Distinct(env, s')
  {
    forall o, p | o != p && Holding(env, s', o).Some?
      ensures Holding(env, s', o) != Holding(env, s', p)
    {
      var a, b := if o == o1 then o0 else o, if p == o1 then o0 else p;
      if p != o0 {
        assert a != b && Holding(env, s', o) == Holding(env, s, a) && Holding(env, s', p) == Holding(env, s, b);
      }
    }
    forall o | Holding(env, s', o).Some?
      ensures Holding(env, s', o).value.1 < Pending(s'.nonces, Holding(env, s', o).value.0)
    {
      assert Holding(env, s', o) == Holding(env, s, if o == o1 then o0 else o);
    }
  }

  // ---------------------------------------------------------------- one step

  /** How a step changes what its withdrawal holds. */
  predicate HeldChange(chain: Chain, w: Withdrawal, act: Act, seen: Seen, w': Withdrawal) {
    var h, h' := HeldNonce(chain, w), HeldNonce(chain, w');
    && (act.CsReserve? ==> chain.IsEvm() && h.None? && h' == Some(seen.pending))
    && (act.UndoNonce? ==> h'.None? && w.pc.Undo? && (chain.IsEvm() ==> h == Some(w.pc.n)))
    && (act.Fail? ==> h'.None? && (chain.IsEvm() && w.row.state.Signed? ==> h == Some(NoncePtr(w.row))))
    && (act.Fail? && !w.row.state.Signed? ==> h.None?)
    && (act.BcAccept? ==> h'.None? && w.pc.BcSend? && (chain.IsEvm() ==> h == Some(w.pc.n)))
    && (!act.CsReserve? ==> h' == h || h'.None?)
  }

  lemma HeldReservation(env: Env, chain: Chain, w: Withdrawal, act: Act, seen: Seen)
    requires IsReservation(act) && InOrder(env, chain, w) && Reservation(env, w, chain, act, seen).Some?
    ensures HeldChange(chain, w, act, seen, Reservation(env, w, chain, act, seen).value)
  {
  }

  lemma HeldSigning(env: Env, chain: Chain, w: Withdrawal, act: Act, seen: Seen)
    requires IsSigning(act) && InOrder(env, chain, w) && Signing(env, w, act).Some?
    ensures HeldChange(chain, w, act, seen, Signing(env, w, act).value)
  {
  }

  lemma HeldRest(env: Env, chain: Chain, w: Withdrawal, act: Act, seen: Seen)
    requires !IsReservation(act) && !IsSigning(act)
    requires InOrder(env, chain, w) && Next(env, w, chain, act, seen).Some?
    ensures HeldChange(chain, w, act, seen, Next(env, w, chain, act, seen).value)
  {
  }

  lemma HeldNext(env: Env, chain: Chain, w: Withdrawal, act: Act, seen: Seen)
    requires InOrder(env, chain, w) && Next(env, w, chain, act, seen).Some?
    ensures HeldChange(chain, w, act, seen, Next(env, w, chain, act, seen).value)
  {
    if IsReservation(act) {
      HeldReservation(env, chain, w, act, seen);
    } else if IsSigning(act) {
      HeldSigning(env, chain, w, act, seen);
    } else {
      HeldRest(env, chain, w, act, seen);
    }
  }

  /** A step on one withdrawal leaves every other owner alone. */
  lemma OthersKeep(env: Env, s: State, id: Uuid, act: Act, s': State, seen: Seen, o: Owner)
    requires Moves(env, s, id, act, s', seen) && o != Call(id) && o != Log(|s.sent|)
    ensures Holding(env, s', o) == Holding(env, s, o)
  {
  }

  function ClaimOf(key: string, held: Option<int>): Option<Claim> {
    match held
    case None => None
    case Some(n) => Some((key, n))
  }

  /** All that a step does to claims: only its own withdrawal's, and on acceptance the log's new entry. */
  ghost predicate Transfers(env: Env, s: State, id: Uuid, act: Act, s': State, chain: Chain, key: string,
                            w: Withdrawal, w': Withdrawal, seen: Seen)
  {
    && (forall o :: o != Call(id) && o != Log(|s.sent|) ==> Holding(env, s', o) == Holding(env, s, o))
    && Holding(env, s, Log(|s.sent|)).None?
    && (!act.BcAccept? ==> Holding(env, s', Log(|s.sent|)).None?)
    && (act.BcAccept? ==> Holding(env, s', Log(|s.sent|)) == ClaimOf(key, HeldNonce(chain, w)))
    && Holding(env, s, Call(id)) == ClaimOf(key, HeldNonce(chain, w))
    && Holding(env, s', Call(id)) == ClaimOf(key, HeldNonce(chain, w'))
    && HeldChange(chain, w, act, seen, w')
    && (chain.IsEvm() || w.row.nonce.None?)
    && (w.row.nonce.Some? ==> w.row.nonce.value >= 0)
  }

  /** The claim of a withdrawal whose wallet is known. */
  lemma CallClaim(env: Env, s: State, id: Uuid)
    requires id in s.wd && s.wd[id].row.req.walletId in env.wallets
    ensures var req := s.wd[id].row.req;
            Holding(env, s, Call(id)) == ClaimOf(NonceKey(env, req), HeldNonce(env.wallets[req.walletId], s.wd[id]))
  {
  }

  /** The log's new entry claims what its withdrawal held. */
  lemma LogClaim(env: Env, s: State, id: Uuid, act: Act, s': State, seen: Seen)
    requires Moves(env, s, id, act, s', seen)
    requires HeldChange(env.wallets[s.wd[id].row.req.walletId], s.wd[id], act, seen, s'.wd[id])
    ensures var w, o := s.wd[id], Log(|s.sent|);
            && Holding(env, s, o).None? && (!act.BcAccept? ==> Holding(env, s', o).None?)
            && (act.BcAccept? ==>
                  Holding(env, s', o)
                    == ClaimOf(NonceKey(env, w.row.req), HeldNonce(env.wallets[w.row.req.walletId], w)))
  {
  }

  lemma StepTransfers(env: Env, s: State, id: Uuid, act: Act, s': State, seen: Seen)
    requires Shape(env, s) && Moves(env, s, id, act, s', seen)
    ensures var w := s.wd[id];
            Transfers(env, s, id, act, s', env.wallets[w.row.req.walletId], NonceKey(env, w.row.req), w, s'.wd[id],
                      seen)
  {
    forall o | o != Call(id) && o != Log(|s.sent|)
      ensures Holding(env, s', o) == Holding(env, s, o)
    {
      OthersKeep(env, s, id, act, s', seen, o);
    }
    var w := s.wd[id];
    var chain := env.wallets[w.row.req.walletId];
    assert WithdrawalOk(env, w);
    HeldNext(env, chain, w, act, seen);
    NextOk(env, chain, w, act, seen);
    assert s'.wd[id].row.req == w.row.req;
    CallClaim(env, s, id);
    CallClaim(env, s', id);
    LogClaim(env, s, id, act, s', seen);
  }

  // ---------------------------------------------------------------- Fail

  /** Somebody is using the number the counter hands out next. */
  ghost predicate Clashes(env: Env, s: State, key: string) {
    exists o :: Holding(env, s, o) == Some((key, Pending(s.nonces, key)))
  }

  /**
   Failing `id` is safe: its row holds its nonce (SIGNED), or there is nothing to roll back, or the
   recorded nonce is not the last one handed out, or nobody else is using it.
   */
  ghost predicate FailSafe(env: Env, s: State, id: Uuid) {
    id in s.wd && s.wd[id].row.req.walletId in env.wallets ==>
      var row := s.wd[id].row;
      var key := NonceKey(env, row.req);
      || row.state.Signed?
      || !env.wallets[row.req.walletId].IsEvm()
      || row.nonce.None?
      || Pending(s.nonces, key) != row.nonce.value + 1
      || forall o :: Holding(env, s, o) != Some((key, row.nonce.value))
  }

  lemma FailKeeps(env: Env, s: State, id: Uuid, act: Act, s': State, chain: Chain, key: string,
                  w: Withdrawal, w': Withdrawal, seen: Seen)
    requires act.Fail? && Transfers(env, s, id, act, s', chain, key, w, w', seen)
    requires id in s.wd && w == s.wd[id] && w.row.req.walletId in env.wallets
    requires chain == env.wallets[w.row.req.walletId] && key == NonceKey(env, w.row.req)
    requires s'.nonces == NoncesAfter(s.nonces, key, w, chain, act, seen)
    requires Below(env, s) && Distinct(env, s)
    ensures FailSafe(env, s, id) <==> Below(env, s') && Distinct(env, s')
    ensures !FailSafe(env, s, id) ==> Clashes(env, s', key)
  {
    var n := NoncePtr(w.row);
    if n < 0 || !chain.IsEvm() || (Pending(s.nonces, key) != n + 1 && !w.row.state.Signed?) {
      Dropped(env, s, s');
    } else if FailSafe(env, s, id) {
      Released(env, s, s', Call(id), key, n);
    } else {
      var o :| Holding(env, s, o) == Some((key, n));
      assert Holding(env, s', o) == Some((key, n));
      assert Pending(s'.nonces, key) == n;
    }
  }

  lemma ClashesIffUnsafe(env: Env, s: State, id: Uuid, act: Act, s': State)
    requires act.Fail? && Shape(env, s) && NonceInv(env, s) && Apply(env, s, On(id, act)) == Some(s')
    ensures id in s.wd && s.wd[id].row.req.walletId in env.wallets
    ensures Clashes(env, s', NonceKey(env, s.wd[id].row.req)) <==> !FailSafe(env, s, id)
  {
    StepParts(env, s, id, act, s');
    var w := s.wd[id];
    var seen := Observe(env, s, w, act);
    StepTransfers(env, s, id, act, s', seen);
    FailKeeps(env, s, id, act, s', env.wallets[w.row.req.walletId], NonceKey(env, w.row.req), w, s'.wd[id], seen);
  }

  // What the stored rows and counters tell about the nonces in use.

  /** The row says that its transaction was accepted. */
  predicate SaysAccepted(row: Row) {
    row.state.Broadcast? || row.state.Confirmed? || (row.state.Failed? && row.txHash != "")
  }

  /** The row says that its nonce is in use: signed and not sent, or accepted. */
  predicate SaysInUse(row: Row, n: int) {
    row.nonce == Some(n) && (row.state.Signed? || SaysAccepted(row))
  }

  /** Row `id` belongs to the wallet of counter `key` and says that `n` is in use. */
  ghost predicate UsedBy(env: Env, s: State, id: Uuid, key: string, n: int) {
    && id in s.wd && s.wd[id].row.req.walletId in env.wallets && env.wallets[s.wd[id].row.req.walletId].IsEvm()
    && NonceKey(env, s.wd[id].row.req) == key && SaysInUse(s.wd[id].row, n)
  }

  /**
   The guard the source lacks, on stored rows and counters alone: the row is not SIGNED, its nonce is the
   last one handed out, and some row of the wallet, perhaps itself, says that this nonce is in use.
   */
  ghost predicate ClashOnRecord(env: Env, s: State, id: Uuid) {
    && id in s.wd && s.wd[id].row.req.walletId in env.wallets && env.wallets[s.wd[id].row.req.walletId].IsEvm()
    && var row := s.wd[id].row;
    && !row.state.Signed? && row.nonce.Some?
    && Pending(s.nonces, NonceKey(env, row.req)) == row.nonce.value + 1
    && exists x :: UsedBy(env, s, x, NonceKey(env, row.req), row.nonce.value)
  }

  /** No call is under way on the wallet of counter `key`, and nobody outside has reserved from it. */
  ghost predicate AtRest(env: Env, s: State, key: string) {
    && (forall x :: x in s.wd && s.wd[x].row.req.walletId in env.wallets && NonceKey(env, s.wd[x].row.req) == key ==>
          s.wd[x].pc.Idle?)
    && (forall j :: 0 <= j < |s.external| ==> s.external[j].0 != key)
  }

  /** An accepted transaction has a hash, in its call or on its row. */
  predicate Hashed(w: Withdrawal) {
    w.sent ==> if AfterAcceptance(w.pc) then w.pc.txHash != "" else w.row.txHash != ""
  }

  ghost predicate AllHashed(s: State) {
    forall x :: x in s.wd ==> Hashed(s.wd[x])
  }

  lemma HashedEarly(env: Env, chain: Chain, w: Withdrawal, act: Act, seen: Seen)
    requires InOrder(env, chain, w) && Hashed(w) && (IsReservation(act) || IsSigning(act))
    requires Next(env, w, chain, act, seen).Some?
    ensures Hashed(Next(env, w, chain, act, seen).value)
  {
  }

  lemma HashedLate(env: Env, chain: Chain, w: Withdrawal, act: Act, seen: Seen)
    requires InOrder(env, chain, w) && Hashed(w) && (act.BcAccept? ==> act.txHash != "")
    requires !IsReservation(act) && !IsSigning(act) && Next(env, w, chain, act, seen).Some?
    ensures Hashed(Next(env, w, chain, act, seen).value)
  {
  }

  lemma HashedNext(env: Env, chain: Chain, w: Withdrawal, act: Act, seen: Seen)
    requires InOrder(env, chain, w) && Hashed(w) && (act.BcAccept? ==> act.txHash != "")
    requires Next(env, w, chain, act, seen).Some?
    ensures Hashed(Next(env, w, chain, act, seen).value)
  {
    if IsReservation(act) || IsSigning(act) {
      HashedEarly(env, chain, w, act, seen);
    } else {
      HashedLate(env, chain, w, act, seen);
    }
  }

  /** An accepted withdrawal's entry in the log holds the nonce on its row. */
  lemma AcceptedHolds(env: Env, s: State, id: Uuid) returns (o: Owner)
    requires Shape(env, s) && id in s.wd && s.wd[id].sent && s.wd[id].row.req.walletId in env.wallets
    requires env.wallets[s.wd[id].row.req.walletId].IsEvm()
    ensures o != Call(id) && Holding(env, s, o) == Some((NonceKey(env, s.wd[id].row.req), NoncePtr(s.wd[id].row)))
  {
    assert InLog(s.sent, id);
    var i :| 0 <= i < |s.sent| && s.sent[i].id == id;
    assert SentOk(env, s, s.sent[i]);
    o := Log(i);
  }

  lemma SaysAcceptedSent(env: Env, s: State, id: Uuid)
    requires Shape(env, s) && id in s.wd && SaysAccepted(s.wd[id].row)
    ensures s.wd[id].sent
  {
    assert WithdrawalOk(env, s.wd[id]);
  }

  /** With the wallet at rest, whoever holds a number of its counter is a row that says so. */
  lemma HolderIsOnRecord(env: Env, s: State, o: Owner, key: string, n: int)
    requires Shape(env, s) && AllHashed(s) && AtRest(env, s, key) && Holding(env, s, o) == Some((key, n))
    ensures exists x :: UsedBy(env, s, x, key, n)
  {
    match o
    case Call(id) =>
      assert WithdrawalOk(env, s.wd[id]);
      assert UsedBy(env, s, id, key, n);
    case Log(i) =>
      assert SentOk(env, s, s.sent[i]);
      assert WithdrawalOk(env, s.wd[s.sent[i].id]);
      assert UsedBy(env, s, s.sent[i].id, key, n);
    case Outsider(_) =>
  }

  /** And whatever a row at rest says to be in use is held. */
  lemma OnRecordIsHeld(env: Env, s: State, x: Uuid, key: string, n: int) returns (o: Owner)
    requires Shape(env, s) && UsedBy(env, s, x, key, n) && (SaysAccepted(s.wd[x].row) || AtRest(env, s, key))
    ensures Holding(env, s, o) == Some((key, n))
  {
    assert WithdrawalOk(env, s.wd[x]);
    if SaysAccepted(s.wd[x].row) {
      o := AcceptedHolds(env, s, x);
    } else {
      o := Call(x);
    }
  }

  /** Row and counter decide by themselves: the row is SIGNED or accepted, or has no nonce or not the last one. */
  ghost predicate RowDecides(env: Env, s: State, id: Uuid) {
    id in s.wd && s.wd[id].row.req.walletId in env.wallets ==>
      var row := s.wd[id].row;
      || row.state.Signed? || SaysAccepted(row) || row.nonce.None?
      || Pending(s.nonces, NonceKey(env, row.req)) != row.nonce.value + 1
  }

  /** The wallet of withdrawal `id` is at rest. */
  ghost predicate WalletAtRest(env: Env, s: State, id: Uuid) {
    id in s.wd && s.wd[id].row.req.walletId in env.wallets ==> AtRest(env, s, NonceKey(env, s.wd[id].row.req))
  }

  lemma UnsafeIffOnRecord(env: Env, s: State, id: Uuid)
    requires Shape(env, s) && (RowDecides(env, s, id) || (AllHashed(s) && WalletAtRest(env, s, id)))
    ensures !FailSafe(env, s, id) <==> ClashOnRecord(env, s, id)
  {
    if id in s.wd && s.wd[id].row.req.walletId in env.wallets && env.wallets[s.wd[id].row.req.walletId].IsEvm()
       && !s.wd[id].row.state.Signed? && s.wd[id].row.nonce.Some?
       && Pending(s.nonces, NonceKey(env, s.wd[id].row.req)) == s.wd[id].row.nonce.value + 1
    {
      var row := s.wd[id].row;
      var key, n := NonceKey(env, row.req), row.nonce.value;
      if SaysAccepted(row) {
        SaysAcceptedSent(env, s, id);
        var o := AcceptedHolds(env, s, id);
        assert UsedBy(env, s, id, key, n);
      } else {
        if o :| Holding(env, s, o) == Some((key, n)) {
          HolderIsOnRecord(env, s, o, key, n);
        }
        if x :| UsedBy(env, s, x, key, n) {
          var o := OnRecordIsHeld(env, s, x, key, n);
        }
      }
    }
  }

  /**
   Exactly when a Fail makes the wallet's next reservation hand out a number somebody is using, in terms of
   what is stored: rows and counter decide for SIGNED and accepted rows in any state, and for rows whose
   reservation was already handed back when the wallet is at rest.
   */
  lemma NextReservationClashesIff(env: Env, s: State, id: Uuid, act: Act, s': State)
    requires act.Fail? && Shape(env, s) && NonceInv(env, s) && Apply(env, s, On(id, act)) == Some(s')
    requires RowDecides(env, s, id) || (AllHashed(s) && WalletAtRest(env, s, id))
    ensures id in s.wd && s.wd[id].row.req.walletId in env.wallets
    ensures Clashes(env, s', NonceKey(env, s.wd[id].row.req)) <==> ClashOnRecord(env, s, id)
  {
    ClashesIffUnsafe(env, s, id, act, s');
    UnsafeIffOnRecord(env, s, id);
  }

  /** After an accepted broadcast the counter alone decides: it stands right behind the row's nonce. */
  lemma AcceptedFailClashesIff(env: Env, s: State, id: Uuid, act: Act, s': State)
    requires act.Fail? && Shape(env, s) && NonceInv(env, s) && Apply(env, s, On(id, act)) == Some(s')
    requires id in s.wd && s.wd[id].row.req.walletId in env.wallets && env.wallets[s.wd[id].row.req.walletId].IsEvm()
    requires SaysAccepted(s.wd[id].row)
    ensures var row := s.wd[id].row;
            && row.nonce.Some?
            && (Clashes(env, s', NonceKey(env, row.req)) <==>
                Pending(s.nonces, NonceKey(env, row.req)) == row.nonce.value + 1)
  {
    SaysAcceptedSent(env, s, id);
    var i :| 0 <= i < |s.sent| && s.sent[i].id == id;
    assert SentOk(env, s, s.sent[i]);
    assert UsedBy(env, s, id, NonceKey(env, s.wd[id].row.req), s.wd[id].row.nonce.value);
    NextReservationClashesIff(env, s, id, act, s');
  }

  // ---------------------------------------------------------------- every step

  /** Wallets and chains share a counter exactly when both are the same. */
  lemma CountersApart(w1: Uuid, c1: Chain, w2: Uuid, c2: Chain)
    ensures Nonces.Key(w1, c1.Name()) == Nonces.Key(w2, c2.Name()) <==> w1 == w2 && c1 == c2
  {
    Nonces.KeyInjective(w1, c1.Name(), w2, c2.Name());
  }

  lemma EvmKeyIsNotBitcoin(env: Env, req: Request, w: Uuid)
    requires req.walletId in env.wallets && !env.wallets[req.walletId].Bitcoin?
    requires w in env.wallets && env.wallets[w].Bitcoin?
    ensures NonceKey(env, req) != Nonces.Key(w, "bitcoin")
  {
    Nonces.KeyInjective(req.walletId, env.wallets[req.walletId].Name(), w, "bitcoin");
  }

  lemma CountedKept(env: Env, s: State, act: Act, w: Withdrawal, seen: Seen)
    requires Counted(env, s.nonces) && WithdrawalOk(env, w)
    requires act.CsLock? ==> env.wallets[w.row.req.walletId].Bitcoin?
    ensures Counted(env, NoncesAfter(s.nonces, NonceKey(env, w.row.req), w, env.wallets[w.row.req.walletId], act, seen))
  {
    var chain, key := env.wallets[w.row.req.walletId], NonceKey(env, w.row.req);
    if !chain.Bitcoin? {
      forall b: Uuid | b in env.wallets && env.wallets[b].Bitcoin?
        ensures key != Nonces.Key(b, "bitcoin")
      {
        EvmKeyIsNotBitcoin(env, w.row.req, b);
      }
    }
  }

  lemma NonceByClaims(env: Env, s: State, id: Uuid, act: Act, s': State, chain: Chain, key: string,
                      w: Withdrawal, w': Withdrawal, seen: Seen)
    requires !act.Fail? && Transfers(env, s, id, act, s', chain, key, w, w', seen)
    requires seen.pending == Pending(s.nonces, key)
    requires s'.nonces == NoncesAfter(s.nonces, key, w, chain, act, seen)
    requires act.CsLock? ==> chain.Bitcoin?
    requires chain.Bitcoin? && key in s.nonces ==> s.nonces[key].pending > 0
    requires Below(env, s) && Distinct(env, s)
    ensures Below(env, s') && Distinct(env, s')
  {
    if act.BcAccept? {
      Passed(env, s, s', Call(id), Log(|s.sent|));
    } else if act.CsReserve? {
      Taken(env, s, s', Call(id), key);
    } else if act.UndoNonce? && w.pc.n >= 0 && chain.IsEvm() {
      Released(env, s, s', Call(id), key, w.pc.n);
    } else {
      Dropped(env, s, s');
    }
  }

  lemma LockIsBitcoin(env: Env, chain: Chain, w: Withdrawal, act: Act, seen: Seen)
    requires act.CsLock? && InOrder(env, chain, w) && Next(env, w, chain, act, seen).Some?
    ensures chain.Bitcoin?
  {
  }

  /** Every step keeps nonces exclusive, a Fail provided it is safe. */
  lemma NonceStep(env: Env, s: State, id: Uuid, act: Act, s': State)
    requires Shape(env, s) && NonceInv(env, s) && Apply(env, s, On(id, act)) == Some(s')
    requires act.Fail? ==> FailSafe(env, s, id)
    ensures NonceInv(env, s')
  {
    StepParts(env, s, id, act, s');
    var w := s.wd[id];
    var chain, key, seen := env.wallets[w.row.req.walletId], NonceKey(env, w.row.req), Observe(env, s, w, act);
    StepTransfers(env, s, id, act, s', seen);
    assert WithdrawalOk(env, w);
    if act.CsLock? {
      LockIsBitcoin(env, chain, w, act, seen);
    }
    CountedKept(env, s, act, w, seen);
    if act.Fail? {
      FailKeeps(env, s, id, act, s', chain, key, w, s'.wd[id], seen);
    } else {
      NonceByClaims(env, s, id, act, s', chain, key, w, s'.wd[id], seen);
    }
  }

  /** Steps outside every withdrawal hand out at most one number, to an outsider. */
  lemma HoldingOutside(env: Env, s: State, st: Step, s': State, o: Owner)
    requires !st.On? && Outside(env, s, st) == Some(s')
    ensures !st.ReserveOutside? ==> Holding(env, s', o) == Holding(env, s, o) || Holding(env, s', o).None?
    ensures st.ReserveOutside? && o != Outsider(|s.external|) ==> Holding(env, s', o) == Holding(env, s, o)
  {
  }

  lemma NonceOutside(env: Env, s: State, st: Step, s': State)
    requires !st.On? && Shape(env, s) && NonceInv(env, s) && Apply(env, s, st) == Some(s')
    ensures NonceInv(env, s')
  {
    forall o
      ensures !st.ReserveOutside? ==> Holding(env, s', o) == Holding(env, s, o) || Holding(env, s', o).None?
      ensures st.ReserveOutside? && o != Outsider(|s.external|) ==> Holding(env, s', o) == Holding(env, s, o)
    {
      HoldingOutside(env, s, st, s', o);
    }
    if st.ReserveOutside? {
      Taken(env, s, s', Outsider(|s.external|), Nonces.Key(st.walletId, st.chain));
    } else {
      Dropped(env, s, s');
    }
  }
}
