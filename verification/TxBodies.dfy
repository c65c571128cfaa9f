/**
 Transaction bodies: programs over the store's operations that branch and compute on every reply they have had,
 with nested transactions. What a nested transaction is, against the reading in which it had a savepoint of
 its own; and the transactions the balance service runs.
 */
module TxBodies {
  import opened Prelude
  import opened DecimalText
  import opened StoreView
  import Balances

  /** `seen` is every reply the body has had so far; nested bodies see and add to the same replies. */
  datatype Body =
    | Return(ok: seq<Reply> -> bool)
    | Call(op: seq<Reply> -> Op, rest: Body)
    | Branch(test: seq<Reply> -> bool, yes: Body, no: Body)
    | Nested(body: Body, good: Body, bad: Body)

  /** Where a body ended: the tables, the replies, and whether it returned without an error. */
  datatype Ran = Ran(view: View, seen: seq<Reply>, ok: bool)

  /** A body run without a transaction of its own: every write stays, whatever is returned. */
  ghost function Eval(v: View, seen: seq<Reply>, b: Body): Ran
    decreases b
  {
    match b
    case Return(ok) => Ran(v, seen, ok(seen))
    case Call(op, rest) => Eval(Do(v, op(seen)).0, seen + [Do(v, op(seen)).1], rest)
    case Branch(test, yes, no) => Eval(v, seen, if test(seen) then yes else no)
    case Nested(body, good, bad) => var r := Eval(v, seen, body); Eval(r.view, r.seen, if r.ok then good else bad)
  }

  /** A body run as an atomic step: all of its writes on success, none on failure. */
  ghost function Atomic(v: View, seen: seq<Reply>, b: Body): Ran {
    var r := Eval(v, seen, b);
    r.(view := if r.ok then r.view else v)
  }

  // ---------------------------------------------------------------- nesting is no transaction of its own

  /** The body with its success and error returns replaced by two continuations. */
  function Graft(b: Body, good: Body, bad: Body): Body {
    match b
    case Return(ok) => Branch(ok, good, bad)
    case Call(op, rest) => Call(op, Graft(rest, good, bad))
    case Branch(test, yes, no) => Branch(test, Graft(yes, good, bad), Graft(no, good, bad))
    case Nested(body, g, h) => Nested(body, Graft(g, good, bad), Graft(h, good, bad))
  }

  /** The body with every nested transaction written out in place. */
  function Flatten(b: Body): Body {
    match b
    case Return(_) => b
    case Call(op, rest) => Call(op, Flatten(rest))
    case Branch(test, yes, no) => Branch(test, Flatten(yes), Flatten(no))
    case Nested(body, g, h) => Graft(Flatten(body), Flatten(g), Flatten(h))
  }

  predicate IsFlat(b: Body) {
    match b
    case Return(_) => true
    case Call(_, rest) => IsFlat(rest)
    case Branch(_, yes, no) => IsFlat(yes) && IsFlat(no)
    case Nested(_, _, _) => false
  }

  lemma {:induction false} GraftEval(v: View, seen: seq<Reply>, b: Body, good: Body, bad: Body)
    ensures Eval(v, seen, Graft(b, good, bad)) ==
            (var r := Eval(v, seen, b); Eval(r.view, r.seen, if r.ok then good else bad))
    ensures IsFlat(b) && IsFlat(good) && IsFlat(bad) ==> IsFlat(Graft(b, good, bad))
    decreases b
  {
    match b
    case Return(_) =>
    case Call(op, rest) => GraftEval(Do(v, op(seen)).0, seen + [Do(v, op(seen)).1], rest, good, bad);
    case Branch(_, yes, no) =>
      GraftEval(v, seen, yes, good, bad);
      GraftEval(v, seen, no, good, bad);
    case Nested(body, g, h) =>
      var r := Eval(v, seen, body);
      GraftEval(r.view, r.seen, g, good, bad);
      GraftEval(r.view, r.seen, h, good, bad);
  }

  /** A nested transaction is no transaction of its own: writing its body out in place changes nothing. */
  lemma {:induction false} NestingIsTransparent(v: View, seen: seq<Reply>, b: Body)
    ensures IsFlat(Flatten(b)) && Eval(v, seen, Flatten(b)) == Eval(v, seen, b)
    decreases b
  {
    match b
    case Return(_) =>
    case Call(op, rest) => NestingIsTransparent(Do(v, op(seen)).0, seen + [Do(v, op(seen)).1], rest);
    case Branch(_, yes, no) =>
      NestingIsTransparent(v, seen, yes);
      NestingIsTransparent(v, seen, no);
    case Nested(body, g, h) =>
      var r := Eval(v, seen, body);
      NestingIsTransparent(v, seen, body);
      NestingIsTransparent(r.view, r.seen, g);
      NestingIsTransparent(r.view, r.seen, h);
      GraftEval(v, seen, Flatten(body), Flatten(g), Flatten(h));
  }

  // ---------------------------------------------------------------- against savepoints

  /** The reading with savepoints: a nested body that fails has its own writes taken back. */
  ghost function Saved(v: View, seen: seq<Reply>, b: Body): Ran
    decreases b
  {
    match b
    case Return(ok) => Ran(v, seen, ok(seen))
    case Call(op, rest) => Saved(Do(v, op(seen)).0, seen + [Do(v, op(seen)).1], rest)
    case Branch(test, yes, no) => Saved(v, seen, if test(seen) then yes else no)
    case Nested(body, good, bad) =>
      var r := Saved(v, seen, body);
      Saved(if r.ok then r.view else v, r.seen, if r.ok then good else bad)
  }

  /** Every nested body that the run comes to and that fails leaves the tables as it found them. */
  ghost predicate Clean(v: View, seen: seq<Reply>, b: Body)
    decreases b
  {
    match b
    case Return(_) => true
    case Call(op, rest) => Clean(Do(v, op(seen)).0, seen + [Do(v, op(seen)).1], rest)
    case Branch(test, yes, no) => Clean(v, seen, if test(seen) then yes else no)
    case Nested(body, good, bad) =>
      var r := Eval(v, seen, body);
      Clean(v, seen, body) && (r.ok || r.view == v) && Clean(r.view, r.seen, if r.ok then good else bad)
  }

  /** What a run shows step by step: the tables after every operation and after every nested body. */
  datatype Trace = End(ok: bool) | After(view: View, rest: Trace) | Sub(inner: Trace, view: View, rest: Trace)

  ghost function TraceOf(v: View, seen: seq<Reply>, b: Body): Trace
    decreases b
  {
    match b
    case Return(ok) => End(ok(seen))
    case Call(op, rest) => After(Do(v, op(seen)).0, TraceOf(Do(v, op(seen)).0, seen + [Do(v, op(seen)).1], rest))
    case Branch(test, yes, no) => TraceOf(v, seen, if test(seen) then yes else no)
    case Nested(body, good, bad) =>
      var r := Eval(v, seen, body);
      Sub(TraceOf(v, seen, body), r.view, TraceOf(r.view, r.seen, if r.ok then good else bad))
  }

  ghost function SavedTrace(v: View, seen: seq<Reply>, b: Body): Trace
    decreases b
  {
    match b
    case Return(ok) => End(ok(seen))
    case Call(op, rest) => After(Do(v, op(seen)).0, SavedTrace(Do(v, op(seen)).0, seen + [Do(v, op(seen)).1], rest))
    case Branch(test, yes, no) => SavedTrace(v, seen, if test(seen) then yes else no)
    case Nested(body, good, bad) =>
      var r := Saved(v, seen, body);
      var v' := if r.ok then r.view else v;
      Sub(SavedTrace(v, seen, body), v', SavedTrace(v', r.seen, if r.ok then good else bad))
  }

  /** On clean runs the two readings end alike. */
  lemma {:induction false} CleanIsSaved(v: View, seen: seq<Reply>, b: Body)
    requires Clean(v, seen, b)
    ensures Saved(v, seen, b) == Eval(v, seen, b)
    decreases b
  {
    match b
    case Return(_) =>
    case Call(op, rest) => CleanIsSaved(Do(v, op(seen)).0, seen + [Do(v, op(seen)).1], rest);
    case Branch(test, yes, no) => CleanIsSaved(v, seen, if test(seen) then yes else no);
    case Nested(body, good, bad) =>
      var r := Eval(v, seen, body);
      CleanIsSaved(v, seen, body);
      CleanIsSaved(r.view, r.seen, if r.ok then good else bad);
  }

  /**
   A body shows, step by step, what it would show if nested transactions had savepoints, exactly when every
   nested body that fails on the way leaves the tables as it found them.
   */
  lemma {:induction false} SavepointIffClean(v: View, seen: seq<Reply>, b: Body)
    ensures TraceOf(v, seen, b) == SavedTrace(v, seen, b) <==> Clean(v, seen, b)
    decreases b
  {
    match b
    case Return(_) =>
    case Call(op, rest) => SavepointIffClean(Do(v, op(seen)).0, seen + [Do(v, op(seen)).1], rest);
    case Branch(test, yes, no) => SavepointIffClean(v, seen, if test(seen) then yes else no);
    case Nested(body, good, bad) =>
      var r := Eval(v, seen, body);
      SavepointIffClean(v, seen, body);
      if Clean(v, seen, body) {
        CleanIsSaved(v, seen, body);
        SavepointIffClean(r.view, r.seen, if r.ok then good else bad);
      }
  }

  // ---------------------------------------------------------------- the balance service's transactions

  function Always(ok: bool): seq<Reply> -> bool {
    (seen: seq<Reply>) => ok
  }

  /** The last reply is a balance row. */
  predicate GotBalance(seen: seq<Reply>) {
    seen != [] && seen[|seen| - 1].Found? && seen[|seen| - 1].row.BalanceRow?
  }

  function Last(seen: seq<Reply>): Balance
    requires GotBalance(seen)
  {
    seen[|seen| - 1].row.balance
  }

  /** Reads a balance and stores `f` of it; an unknown balance ends the body with `ifNone`. */
  function Modify(key: string, f: Balance -> Balance, ifNone: bool): Body {
    Call(
      (seen: seq<Reply>) => Get(BalanceId(key)),
      Branch(
        GotBalance,
        Call((seen: seq<Reply>) =>
               if GotBalance(seen) then OnBalance(UpsertBalance(f(Last(seen)))) else Get(BalanceId(key)),
             Return(Always(true))),
        Return(Always(ifNone))))
  }

  function Locking(c: Codec, w: Uuid, asset: string, amount: string): Balance -> Balance {
    (b: Balance) => Balance(w, asset, b.confirmed, b.pending, c.format(c.parse(b.locked) + c.parse(amount)),
                            b.lastBlock)
  }

  function Releasing(c: Codec, w: Uuid, asset: string, amount: string): Balance -> Balance {
    (b: Balance) => Balance(w, asset, b.confirmed, b.pending,
                            c.format(Balances.Released(c.parse(b.locked), c.parse(amount))), b.lastBlock)
  }

  function Demoting(c: Codec, w: Uuid, asset: string): Balance -> Balance {
    (b: Balance) => Balance(w, asset, c.format(0.0), c.format(c.parse(b.pending) + c.parse(b.confirmed)), b.locked,
                            b.lastBlock)
  }

  /** AddLocked: the locked portion grows. */
  function AddLocked(c: Codec, w: Uuid, asset: string, amount: string): Body {
    Modify(Balances.BalanceKey(w, asset), Locking(c, w, asset, amount), false)
  }

  /** ReleaseLocked: it shrinks, but not below zero. */
  function ReleaseLocked(c: Codec, w: Uuid, asset: string, amount: string): Body {
    Modify(Balances.BalanceKey(w, asset), Releasing(c, w, asset, amount), false)
  }

  /** The demotion of a reorg: confirmed goes to pending; an unknown balance is no error. */
  function Demotion(c: Codec, w: Uuid, asset: string): Body {
    Modify(Balances.BalanceKey(w, asset), Demoting(c, w, asset), true)
  }

  /** Such a transaction changes the one balance, or nothing. */
  lemma ModifyEffect(v: View, key: string, f: Balance -> Balance, ifNone: bool)
    requires forall b :: Balances.BalanceKey(f(b).wallet, f(b).asset) == key
    ensures var r := Atomic(v, [], Modify(key, f, ifNone));
            && r.view == (if key in v.balances then v.(balances := v.balances[key := f(v.balances[key])]) else v)
            && r.ok == (key in v.balances || ifNone)
  {
    var body := Modify(key, f, ifNone);
    var seen := [Do(v, Get(BalanceId(key))).1];
    assert [] + [Do(v, Get(BalanceId(key))).1] == seen;
    if key in v.balances {
      assert GotBalance(seen) && Last(seen) == v.balances[key];
      var upsert := OnBalance(UpsertBalance(f(v.balances[key])));
      var v' := v.(balances := v.balances[key := f(v.balances[key])]);
      assert Do(v, upsert) == (v', Done);
      assert Eval(v, seen, body.rest) == Eval(v, seen, body.rest.yes) == Ran(v', seen + [Done], true);
    } else {
      assert !GotBalance(seen);
      assert Eval(v, seen, body.rest) == Eval(v, seen, body.rest.no) == Ran(v, seen, ifNone);
    }
  }

  // ---------------------------------------------------------------- the same as steps of the ledger

  /** A stored balance with its texts read. */
  function Read(c: Codec, b: Balance): Balances.Balance {
    Balances.Balance(c.parse(b.confirmed), c.parse(b.pending), c.parse(b.locked), b.lastBlock)
  }

  ghost function Ledger(c: Codec, v: View): Balances.Ledger {
    Balances.Ledger(map key | key in v.balances :: Read(c, v.balances[key]), v.balanceEvents)
  }

  lemma LedgerSet(c: Codec, v: View, key: string, b: Balance)
    ensures Ledger(c, v.(balances := v.balances[key := b])) ==
            Ledger(c, v).(balances := Ledger(c, v).balances[key := Read(c, b)])
  {
  }

  lemma ModifyLedger(c: Codec, v: View, key: string, f: Balance -> Balance, ifNone: bool)
    requires forall b :: Balances.BalanceKey(f(b).wallet, f(b).asset) == key
    ensures var r := Atomic(v, [], Modify(key, f, ifNone));
            && Ledger(c, r.view) == (if key !in v.balances then Ledger(c, v)
                                     else Ledger(c, v).(balances := Ledger(c, v).balances
                                                                      [key := Read(c, f(v.balances[key]))]))
            && r.ok == (key in v.balances || ifNone)
  {
    ModifyEffect(v, key, f, ifNone);
    if key in v.balances {
      LedgerSet(c, v, key, f(v.balances[key]));
    }
  }

  // What the transactions write reads as what the ledger computes.

  lemma LockingReads(c: Codec, w: Uuid, asset: string, amount: string, b: Balance)
    requires Exact(c)
    ensures Read(c, Locking(c, w, asset, amount)(b)) ==
            Read(c, b).(locked := c.parse(b.locked) + c.parse(amount))
  {
    DecimalSum(c.parse(b.locked), c.parse(amount));
  }

  lemma ReleasingReads(c: Codec, w: Uuid, asset: string, amount: string, b: Balance)
    requires Exact(c)
    ensures Read(c, Releasing(c, w, asset, amount)(b)) ==
            Read(c, b).(locked := Balances.Released(c.parse(b.locked), c.parse(amount)))
  {
    IntIsDecimal(0);
    DecimalSum(c.parse(b.locked), c.parse(amount));
  }

  lemma DemotingReads(c: Codec, w: Uuid, asset: string, b: Balance)
    requires Exact(c)
    ensures Read(c, Demoting(c, w, asset)(b)) == Balances.Demote(Read(c, b))
  {
    IntIsDecimal(0);
    DecimalSum(c.parse(b.pending), c.parse(b.confirmed));
  }

  lemma AddLockedStep(cfg: Balances.Config, c: Codec, v: View, w: Uuid, asset: string, amount: string)
    requires var key := Balances.BalanceKey(w, asset);
             key in v.balances ==>
               var b := v.balances[key];
               Read(c, Locking(c, w, asset, amount)(b)) == Read(c, b).(locked := c.parse(b.locked) + c.parse(amount))
    ensures var r := Atomic(v, [], AddLocked(c, w, asset, amount));
            && Ledger(c, r.view) == Balances.Step(cfg, Ledger(c, v), Balances.AddLocked(w, asset, c.parse(amount)))
            && (r.ok <==> Balances.BalanceKey(w, asset) in v.balances)
  {
    ModifyLedger(c, v, Balances.BalanceKey(w, asset), Locking(c, w, asset, amount), false);
  }

  lemma ReleaseLockedStep(cfg: Balances.Config, c: Codec, v: View, w: Uuid, asset: string, amount: string)
    requires var key := Balances.BalanceKey(w, asset);
             key in v.balances ==>
               var b := v.balances[key];
               Read(c, Releasing(c, w, asset, amount)(b)) ==
               Read(c, b).(locked := Balances.Released(c.parse(b.locked), c.parse(amount)))
    ensures var r := Atomic(v, [], ReleaseLocked(c, w, asset, amount));
            && Ledger(c, r.view) == Balances.Step(cfg, Ledger(c, v), Balances.ReleaseLocked(w, asset, c.parse(amount)))
            && (r.ok <==> Balances.BalanceKey(w, asset) in v.balances)
  {
    ModifyLedger(c, v, Balances.BalanceKey(w, asset), Releasing(c, w, asset, amount), false);
  }

  lemma DemotionStep(cfg: Balances.Config, c: Codec, v: View, w: Uuid, asset: string)
    requires var key := Balances.BalanceKey(w, asset);
             key in v.balances ==>
               Read(c, Demoting(c, w, asset)(v.balances[key])) == Balances.Demote(Read(c, v.balances[key]))
    ensures var r := Atomic(v, [], Demotion(c, w, asset));
            && Ledger(c, r.view) == Balances.Step(cfg, Ledger(c, v), Balances.Reorg(w, asset))
            && r.ok
  {
    ModifyLedger(c, v, Balances.BalanceKey(w, asset), Demoting(c, w, asset), true);
  }

  /**
   With exact decimals the transactions of the balance service are the steps of the ledger: they do to the
   stored texts what the ledger does to its numbers, and fail exactly where the service reports an error.
   */
  lemma AddLockedIsStep(cfg: Balances.Config, c: Codec, v: View, w: Uuid, asset: string, amount: string)
    requires Exact(c)
    ensures var r := Atomic(v, [], AddLocked(c, w, asset, amount));
            && Ledger(c, r.view) == Balances.Step(cfg, Ledger(c, v), Balances.AddLocked(w, asset, c.parse(amount)))
            && (r.ok <==> Balances.BalanceKey(w, asset) in v.balances)
  {
    if Balances.BalanceKey(w, asset) in v.balances {
      LockingReads(c, w, asset, amount, v.balances[Balances.BalanceKey(w, asset)]);
    }
    AddLockedStep(cfg, c, v, w, asset, amount);
  }

  lemma ReleaseLockedIsStep(cfg: Balances.Config, c: Codec, v: View, w: Uuid, asset: string, amount: string)
    requires Exact(c)
    ensures var r := Atomic(v, [], ReleaseLocked(c, w, asset, amount));
            && Ledger(c, r.view) == Balances.Step(cfg, Ledger(c, v), Balances.ReleaseLocked(w, asset, c.parse(amount)))
            && (r.ok <==> Balances.BalanceKey(w, asset) in v.balances)
  {
    if Balances.BalanceKey(w, asset) in v.balances {
      ReleasingReads(c, w, asset, amount, v.balances[Balances.BalanceKey(w, asset)]);
    }
    ReleaseLockedStep(cfg, c, v, w, asset, amount);
  }

  lemma DemotionIsStep(cfg: Balances.Config, c: Codec, v: View, w: Uuid, asset: string)
    requires Exact(c)
    ensures var r := Atomic(v, [], Demotion(c, w, asset));
            && Ledger(c, r.view) == Balances.Step(cfg, Ledger(c, v), Balances.Reorg(w, asset))
            && r.ok
  {
    if Balances.BalanceKey(w, asset) in v.balances {
      DemotingReads(c, w, asset, v.balances[Balances.BalanceKey(w, asset)]);
    }
    DemotionStep(cfg, c, v, w, asset);
  }

  // ---------------------------------------------------------------- the confirmation

  /** The balance a confirmation starts from: the stored one, or an empty one. */
  function Current(e: Balances.Event, seen: seq<Reply>): Balance {
    if GotBalance(seen) then Last(seen) else Balance(e.wallet, e.asset, "", "", "", 0)
  }

  function Credited(cfg: Balances.Config, c: Codec, e: Balances.Event, b: Balance): Balance {
    var to := if Balances.IsConfirmed(cfg, e) then (c.parse(b.confirmed) + e.amount, c.parse(b.pending))
              else (c.parse(b.confirmed), c.parse(b.pending) + e.amount);
    Balance(e.wallet, e.asset, c.format(to.0), c.format(to.1), b.locked, Max(b.lastBlock, e.height))
  }

  /** The audit row of a balance update, numbered by the last reply. */
  function AuditRow(w: Uuid, rowId: Uuid, eventId: Uuid, payload: seq<byte>, seen: seq<Reply>): Op {
    var n := if seen != [] && seen[|seen| - 1].Number? then seen[|seen| - 1].n else 0;
    OnAudit(AppendEvent(Event(rowId, eventId, Some(w), "wallet.balance.updated", Some(payload), n, false, 0, None)))
  }

  /** Numbers an audit event and stores it; an error is ignored. */
  function Emission(w: Uuid, rowId: Uuid, eventId: Uuid, payload: seq<byte>): Body {
    Call((seen: seq<Reply>) => OnAudit(NextSeq(w)),
         Call((seen: seq<Reply>) => AuditRow(w, rowId, eventId, payload, seen), Return(Always(true))))
  }

  /** Reads the balance, stores it credited, and goes on. */
  function Crediting(cfg: Balances.Config, c: Codec, e: Balances.Event, rest: Body): Body {
    Call((seen: seq<Reply>) => Get(BalanceId(Balances.BalanceKey(e.wallet, e.asset))),
         Call((seen: seq<Reply>) => OnBalance(UpsertBalance(Credited(cfg, c, e, Current(e, seen)))), rest))
  }

  /** The transaction of a confirmation event: the balance is credited and an audit event is emitted. */
  function Confirmation(cfg: Balances.Config, c: Codec, e: Balances.Event, rowId: Uuid, eventId: Uuid,
                        payload: seq<byte>): Body {
    Crediting(cfg, c, e, Emission(e.wallet, rowId, eventId, payload))
  }

  function BalanceOf(v: View, e: Balances.Event): Balance {
    var key := Balances.BalanceKey(e.wallet, e.asset);
    if key in v.balances then v.balances[key] else Balance(e.wallet, e.asset, "", "", "", 0)
  }

  /** The tables with the balance of the event credited. */
  ghost function WithCredit(cfg: Balances.Config, c: Codec, v: View, e: Balances.Event): View {
    v.(balances := v.balances[Balances.BalanceKey(e.wallet, e.asset) := Credited(cfg, c, e, BalanceOf(v, e))])
  }

  /** The tables with one more audit event of the wallet, unless its event id is taken. */
  ghost function WithAudit(v: View, w: Uuid, rowId: Uuid, eventId: Uuid, payload: seq<byte>): View {
    var n := SeqOf(v.auditSeq, w) + 1;
    var row := Event(rowId, eventId, Some(w), "wallet.balance.updated", Some(payload), n, false, 0, None);
    v.(auditSeq := v.auditSeq[w := n], events := if HasEvent(v.events, eventId) then v.events else v.events + [row])
  }

  lemma {:induction false} EmissionEffect(v: View, seen: seq<Reply>, w: Uuid, rowId: Uuid, eventId: Uuid,
                                          payload: seq<byte>)
    ensures var r := Eval(v, seen, Emission(w, rowId, eventId, payload));
            r.ok && r.view == WithAudit(v, w, rowId, eventId, payload)
  {
    var body := Emission(w, rowId, eventId, payload);
    var n := SeqOf(v.auditSeq, w) + 1;
    var v1, s1 := v.(auditSeq := v.auditSeq[w := n]), seen + [Number(n)];
    assert body.op(seen) == OnAudit(NextSeq(w));
    assert DoAudit(v, NextSeq(w)) == (v1, Number(n));
    assert s1[|s1| - 1] == Number(n);
    assert Eval(v, seen, body) == Eval(v1, s1, body.rest);
    var append := AuditRow(w, rowId, eventId, payload, s1);
    assert Eval(v1, s1, body.rest) == Eval(Do(v1, append).0, s1 + [Do(v1, append).1], body.rest.rest);
  }

  lemma {:induction false} CreditingEffect(cfg: Balances.Config, c: Codec, v: View, e: Balances.Event, rest: Body)
    ensures exists seen :: Eval(v, [], Crediting(cfg, c, e, rest)) == Eval(WithCredit(cfg, c, v, e), seen, rest)
  {
    var body, key := Crediting(cfg, c, e, rest), Balances.BalanceKey(e.wallet, e.asset);
    var s1 := [] + [Do(v, Get(BalanceId(key))).1];
    assert body.op([]) == Get(BalanceId(key));
    assert Eval(v, [], body) == Eval(v, s1, body.rest);
    assert Current(e, s1) == BalanceOf(v, e);
    var upsert := UpsertBalance(Credited(cfg, c, e, Current(e, s1)));
    assert body.rest.op(s1) == OnBalance(upsert);
    assert DoBalance(v, upsert) == (WithCredit(cfg, c, v, e), Done);
    assert Eval(v, s1, body.rest) == Eval(WithCredit(cfg, c, v, e), s1 + [Done], rest);
  }

  lemma ConfirmationEffect(cfg: Balances.Config, c: Codec, v: View, e: Balances.Event, rowId: Uuid, eventId: Uuid,
                           payload: seq<byte>)
    ensures var r := Atomic(v, [], Confirmation(cfg, c, e, rowId, eventId, payload));
            r.ok && r.view == WithAudit(WithCredit(cfg, c, v, e), e.wallet, rowId, eventId, payload)
  {
    var rest := Emission(e.wallet, rowId, eventId, payload);
    CreditingEffect(cfg, c, v, e, rest);
    var seen :| Eval(v, [], Crediting(cfg, c, e, rest)) == Eval(WithCredit(cfg, c, v, e), seen, rest);
    EmissionEffect(WithCredit(cfg, c, v, e), seen, e.wallet, rowId, eventId, payload);
  }

  lemma CreditIsStep(cfg: Balances.Config, c: Codec, v: View, v': View, e: Balances.Event)
    requires Exact(c) && IsDecimal(e.amount) && Balances.EventKey(e) !in v.balanceEvents
    requires v' == v.(balanceEvents := v.balanceEvents + {Balances.EventKey(e)})
    ensures Ledger(c, WithCredit(cfg, c, v', e)) ==
            Balances.Step(cfg, Ledger(c, v), Balances.Confirm(Balances.Keyed(Balances.EventKey(e), e)))
  {
    LedgerSet(c, v', Balances.BalanceKey(e.wallet, e.asset), Credited(cfg, c, e, BalanceOf(v', e)));
    DecimalSum(c.parse(BalanceOf(v', e).confirmed), e.amount);
    DecimalSum(c.parse(BalanceOf(v', e).pending), e.amount);
    assert Read(c, Credited(cfg, c, e, BalanceOf(v', e))) ==
           Balances.Credit(cfg, Balances.Held(Ledger(c, v), e.wallet, e.asset), e);
  }

  /**
   The whole of ApplyConfirmationEvent against the ledger: an event whose key was recorded before is refused and
   changes nothing; a new one is recorded, and its transaction credits the balance as the ledger does.
   */
  lemma ConfirmationIsStep(cfg: Balances.Config, c: Codec, v: View, e: Balances.Event, rowId: Uuid, eventId: Uuid,
                           payload: seq<byte>)
    requires Exact(c) && IsDecimal(e.amount)
    ensures var (v', reply) := DoBalance(v, RecordBalanceEvent(Balances.EventKey(e)));
            var step := Balances.Step(cfg, Ledger(c, v), Balances.Confirm(Balances.Keyed(Balances.EventKey(e), e)));
            if reply.Refused? then v' == v && step == Ledger(c, v)
            else Ledger(c, Atomic(v', [], Confirmation(cfg, c, e, rowId, eventId, payload)).view) == step
  {
    var v' := DoBalance(v, RecordBalanceEvent(Balances.EventKey(e))).0;
    if Balances.EventKey(e) !in v.balanceEvents {
      ConfirmationEffect(cfg, c, v', e, rowId, eventId, payload);
      CreditIsStep(cfg, c, v, v', e);
      AuditIsAside(c, WithCredit(cfg, c, v', e), e.wallet, rowId, eventId, payload);
    }
  }

  lemma AuditIsAside(c: Codec, v: View, w: Uuid, rowId: Uuid, eventId: Uuid, payload: seq<byte>)
    ensures Ledger(c, WithAudit(v, w, rowId, eventId, payload)) == Ledger(c, v)
  {
  }
}
