/**
 What a Bitcoin withdrawal spends covers what it was asked to pay: over every run, through stale listings, reorgs
 and failures, the outpoints on a row are distinct, its wallet's own, worth at least the amount, and worth less
 than it without the last one.
 */
module SagaCover {
  import opened Prelude
  import opened Domain
  import opened Saga
  import opened SagaShape
  import opened SagaBacking
  import SagaTheorems
  import TxBuilder
  import Utxos

  ghost predicate AllOwned(t: Utxos.Table, walletId: Uuid, ops: seq<string>) {
    forall i :: 0 <= i < |ops| ==> Owned(t, walletId, ops[i])
  }

  /** What the outpoints are worth together. */
  function Sum(t: Utxos.Table, ops: seq<string>): int
    requires forall i :: 0 <= i < |ops| ==> ops[i] in t
  {
    if ops == [] then 0 else Sum(t, ops[..|ops| - 1]) + t[ops[|ops| - 1]].value
  }

  /** The outpoints are distinct, the wallet's own, worth the amount, and not without the last of them. */
  ghost predicate Covers(env: Env, t: Utxos.Table, req: Request, ops: seq<string>) {
    && Utxos.NoDup(ops) && AllOwned(t, req.walletId, ops)
    && var amount := env.parseDec(req.amount);
    && amount.Some? && Sum(t, ops) >= amount.value
    && (ops != [] ==> Sum(t, ops[..|ops| - 1]) < amount.value)
  }

  ghost predicate CoverOk(env: Env, t: Utxos.Table, w: Withdrawal) {
    && (w.pc.CsLocked? ==> Covers(env, t, w.row.req, w.pc.ops))
    && (w.row.outpoints != [] ==> Covers(env, t, w.row.req, w.row.outpoints))
  }

  ghost predicate Covered(env: Env, s: State) {
    forall id :: id in s.wd ==> CoverOk(env, s.utxos, s.wd[id])
  }

  // ---------------------------------------------------------------- the table moves on

  lemma {:induction false} SumStays(t: Utxos.Table, t': Utxos.Table, ops: seq<string>)
    requires Grows(t, t') && forall i :: 0 <= i < |ops| ==> ops[i] in t
    ensures forall i :: 0 <= i < |ops| ==> ops[i] in t'
    ensures Sum(t', ops) == Sum(t, ops)
  {
    if ops != [] {
      SumStays(t, t', ops[..|ops| - 1]);
    }
  }

  lemma CoversStays(env: Env, t: Utxos.Table, t': Utxos.Table, req: Request, ops: seq<string>)
    requires Grows(t, t') && Covers(env, t, req, ops)
    ensures Covers(env, t', req, ops)
  {
    SumStays(t, t', ops);
    if ops != [] {
      SumStays(t, t', ops[..|ops| - 1]);
    }
  }

  lemma CoverStays(env: Env, t: Utxos.Table, t': Utxos.Table, w: Withdrawal)
    requires Grows(t, t') && CoverOk(env, t, w)
    ensures CoverOk(env, t', w)
  {
    if w.pc.CsLocked? {
      CoversStays(env, t, t', w.row.req, w.pc.ops);
    }
    if w.row.outpoints != [] {
      CoversStays(env, t, t', w.row.req, w.row.outpoints);
    }
  }

  // ---------------------------------------------------------------- selection

  lemma {:induction false} SumIsPrefix(t: Utxos.Table, free: map<string, int>, walletId: Uuid, order: seq<string>,
                                       k: nat)
    requires ListedFrom(t, free, walletId) && k <= |order| && forall i :: 0 <= i < |order| ==> order[i] in free
    ensures forall i :: 0 <= i < k ==> order[..k][i] in t
    ensures Sum(t, order[..k]) == Utxos.Prefix(free, order, k)
  {
    if k > 0 {
      SumIsPrefix(t, free, walletId, order, k - 1);
      assert order[..k][..k - 1] == order[..k - 1];
    }
  }

  /** Selection from a listing, even a stale one, covers the amount as far as the table of now goes. */
  lemma SelectionCovers(env: Env, t: Utxos.Table, w: Withdrawal, order: seq<string>, k: nat)
    requires w.pc.CsListed? && ListingOk(t, w) && Selects(env, w, order, k)
    ensures Covers(env, t, w.row.req, order[..k])
  {
    var ops, free := order[..k], w.pc.free;
    SumIsPrefix(t, free, w.row.req.walletId, order, k);
    if k > 0 {
      SumIsPrefix(t, free, w.row.req.walletId, order, k - 1);
      assert ops[..k - 1] == order[..k - 1];
    }
  }

  // ---------------------------------------------------------------- steps and runs

  /** How a step comes by locked outpoints and by outpoints on the row. */
  ghost predicate Comes(w: Withdrawal, act: Act, w': Withdrawal) {
    && (w'.pc.CsLocked? ==> act.CsLock? && act.k <= |act.order| && w'.pc.ops == act.order[..act.k])
    && (w'.row.outpoints == w.row.outpoints || (w.pc.CsLocked? && w'.row.outpoints == w.pc.ops))
  }

  lemma ReservationComes(env: Env, w: Withdrawal, chain: Chain, act: Act, seen: Seen)
    requires IsReservation(act) && Reservation(env, w, chain, act, seen).Some?
    ensures Comes(w, act, Reservation(env, w, chain, act, seen).value)
  {
  }

  lemma OthersCome(env: Env, w: Withdrawal, chain: Chain, act: Act, seen: Seen)
    requires !IsReservation(act) && Next(env, w, chain, act, seen).Some?
    ensures Comes(w, act, Next(env, w, chain, act, seen).value)
  {
  }

  lemma NextComes(env: Env, w: Withdrawal, chain: Chain, act: Act, seen: Seen)
    requires Next(env, w, chain, act, seen).Some?
    ensures Comes(w, act, Next(env, w, chain, act, seen).value)
  {
    if IsReservation(act) {
      ReservationComes(env, w, chain, act, seen);
    } else {
      OthersCome(env, w, chain, act, seen);
    }
  }

  lemma OwnCover(env: Env, t: Utxos.Table, w: Withdrawal, act: Act, w': Withdrawal)
    requires CoverOk(env, t, w) && ListingOk(t, w) && Comes(w, act, w') && w'.row.req == w.row.req
    requires act.CsLock? ==> w.pc.CsListed? && Selects(env, w, act.order, act.k)
    ensures CoverOk(env, t, w')
  {
    if w'.pc.CsLocked? {
      SelectionCovers(env, t, w, act.order, act.k);
    }
  }

  lemma CoveredOn(env: Env, s: State, id: Uuid, act: Act, s': State)
    requires SagaTheorems.Base(env, s) && Backed(env, s) && Covered(env, s)
    requires Apply(env, s, On(id, act)) == Some(s')
    ensures Covered(env, s')
  {
    StepParts(env, s, id, act, s');
    var w, seen := s.wd[id], Observe(env, s, s.wd[id], act);
    var chain := env.wallets[w.row.req.walletId];
    assert WithdrawalOk(env, w);
    NextOk(env, chain, w, act, seen);
    ObtainsNext(env, s, w, chain, act);
    NextComes(env, w, chain, act, seen);
    TableGrows(s.utxos, w, chain, act);
    CoveredByParts(env, s, id, act, s');
  }

  lemma CoveredByParts(env: Env, s: State, id: Uuid, act: Act, s': State)
    requires Covered(env, s) && Grows(s.utxos, s'.utxos) && id in s.wd && id in s'.wd
    requires s'.wd == s.wd[id := s'.wd[id]] && ListingOk(s.utxos, s.wd[id]) && Comes(s.wd[id], act, s'.wd[id])
    requires s'.wd[id].row.req == s.wd[id].row.req
    requires act.CsLock? ==> s.wd[id].pc.CsListed? && Selects(env, s.wd[id], act.order, act.k)
    ensures Covered(env, s')
  {
    OwnCover(env, s.utxos, s.wd[id], act, s'.wd[id]);
    forall x | x in s'.wd
      ensures CoverOk(env, s'.utxos, s'.wd[x])
    {
      CoverStays(env, s.utxos, s'.utxos, s'.wd[x]);
    }
  }

  lemma CoveredOutside(env: Env, s: State, st: Step, s': State)
    requires !st.On? && Covered(env, s) && Apply(env, s, st) == Some(s')
    ensures Covered(env, s')
  {
    assert Grows(s.utxos, s'.utxos);
    forall x | x in s'.wd
      ensures CoverOk(env, s'.utxos, s'.wd[x])
    {
      if x in s.wd {
        CoverStays(env, s.utxos, s'.utxos, s.wd[x]);
      }
    }
  }

  lemma {:induction false} CoveredRun(env: Env, run: seq<Step>)
    requires Exec(env, INITIAL, run).Some?
    ensures Covered(env, Exec(env, INITIAL, run).value)
  {
    if run != [] {
      var before, st := run[..|run| - 1], run[|run| - 1];
      CoveredRun(env, before);
      BackedRun(env, before);
      SagaTheorems.BaseRun(env, before);
      var s, s' := Exec(env, INITIAL, before).value, Exec(env, INITIAL, run).value;
      if st.On? {
        CoveredOn(env, s, st.id, st.act, s');
      } else {
        CoveredOutside(env, s, st, s');
      }
    }
  }

  /**
   Over every run with the builder, whatever the callers do: an accepted Bitcoin broadcast spends at least one
   outpoint, all of them distinct and its own wallet's, worth the requested amount together and less without the last.
   */
  lemma {:induction false} AcceptedIsCovered(wallets: map<Uuid, Chain>, cfg: TxBuilder.Config, run: seq<Step>, i: nat)
    requires var env := TxBuilder.ServiceEnv(wallets, cfg);
             && Exec(env, INITIAL, run).Some? && i < |Exec(env, INITIAL, run).value.sent|
             && var a := Exec(env, INITIAL, run).value.sent[i];
             a.req.walletId in wallets && wallets[a.req.walletId].Bitcoin?
    ensures var s := Exec(TxBuilder.ServiceEnv(wallets, cfg), INITIAL, run).value;
            var a := s.sent[i];
            && a.ops != [] && Utxos.NoDup(a.ops) && AllOwned(s.utxos, a.req.walletId, a.ops)
            && cfg.parseDec(a.req.amount).Some?
            && Sum(s.utxos, a.ops[..|a.ops| - 1]) < cfg.parseDec(a.req.amount).value <= Sum(s.utxos, a.ops)
  {
    var env := TxBuilder.ServiceEnv(wallets, cfg);
    var s := Exec(env, INITIAL, run).value;
    SagaTheorems.SagaSafety(env, run, i);
    SagaTheorems.BaseRun(env, run);
    CoveredRun(env, run);
    assert SentOk(env, s, s.sent[i]);
    assert CoverOk(env, s.utxos, s.wd[s.sent[i].id]);
  }
}
