/**
 EVM nonce counters: the counter table, reservation with its retry loop, and the accounting of every
 number that was ever handed out.
 */
module Nonces {
  import opened Prelude

  datatype Nonce = Nonce(pending: int, broadcast: int, version: nat)

  type Table = map<string, Nonce>

  const ZERO: Nonce := Nonce(0, 0, 0)

  function Key(walletId: Uuid, chain: string): string {
    walletId + "|" + chain
  }

  /** The fixed length of the UUID text makes the key unambiguous, whatever the chain name holds. */
  lemma KeyInjective(w1: Uuid, c1: string, w2: Uuid, c2: string)
    ensures Key(w1, c1) == Key(w2, c2) <==> w1 == w2 && c1 == c2
  {
    if Key(w1, c1) == Key(w2, c2) {
      assert w1 == Key(w1, c1)[..36] && w2 == Key(w2, c2)[..36];
      assert c1 == Key(w1, c1)[37..] && c2 == Key(w2, c2)[37..];
    }
  }

  // ---------------------------------------------------------------- table operations as functions

  function Row(t: Table, key: string): Nonce {
    if key in t then t[key] else ZERO
  }

  function Reserved(n: Nonce): Nonce {
    n.(pending := n.pending + 1, version := n.version + 1)
  }

  function Advanced(n: Nonce, nonce: int): Nonce {
    if nonce + 1 > n.broadcast then n.(broadcast := nonce + 1) else n
  }

  /** Takes the counter back only when `to` was the last number handed out. */
  function RolledBack(n: Nonce, to: int): Nonce {
    if n.pending == to + 1 then n.(pending := to, version := n.version + 1) else n
  }

  function Increment(t: Table, key: string): Table {
    t[key := Reserved(Row(t, key))]
  }

  function Advance(t: Table, key: string, nonce: int): Table {
    t[key := Advanced(Row(t, key), nonce)]
  }

  function Rollback(t: Table, key: string, to: int): Table {
    if key in t then t[key := RolledBack(t[key], to)] else t
  }

  // ---------------------------------------------------------------- the service

  /** What one try at the per-wallet lock finds. */
  datatype Attempt = LockError | Busy | Acquired

  const RETRIES: nat := 50

  class Service {
    var nonces: Table

    constructor ()
      ensures nonces == map[]
    {
      nonces := map[];
    }

    method IncrementPendingNonce(walletId: Uuid, chain: string) returns (val: int)
      modifies this
      ensures val == Row(old(nonces), Key(walletId, chain)).pending
      ensures nonces == Increment(old(nonces), Key(walletId, chain))
    {
      var key := Key(walletId, chain);
      if key !in nonces {
        nonces := nonces[key := ZERO];
      }
      var n := nonces[key];
      val := n.pending;
      nonces := nonces[key := Nonce(val + 1, n.broadcast, n.version + 1)];
    }

    method AdvanceBroadcastNonce(walletId: Uuid, chain: string, nonce: int)
      modifies this
      ensures nonces == Advance(old(nonces), Key(walletId, chain), nonce)
    {
      var key := Key(walletId, chain);
      if key !in nonces {
        nonces := nonces[key := ZERO];
      }
      if nonce + 1 > nonces[key].broadcast {
        nonces := nonces[key := nonces[key].(broadcast := nonce + 1)];
      }
    }

    method RollbackPendingNonce(walletId: Uuid, chain: string, to: int) returns (rows: nat)
      modifies this
      ensures nonces == Rollback(old(nonces), Key(walletId, chain), to)
      ensures rows == if nonces == old(nonces) then 0 else 1
    {
      var key := Key(walletId, chain);
      if key !in nonces {
        return 0;
      }
      var n := nonces[key];
      if n.pending == to + 1 {
        nonces := nonces[key := Nonce(to, n.broadcast, n.version + 1)];
        assert nonces[key] != n;
        return 1;
      }
      return 0;
    }

    /**
     Tries the lock up to 50 times; `attempt(i)` is what try `i` meets. It hands out the counter's value
     exactly when some try gets the lock before any try errs, and otherwise changes nothing.
     */
    method ReserveNonce(walletId: Uuid, chain: string, attempt: nat -> Attempt) returns (r: Result<int>)
      modifies this
      ensures r.Ok? <==> exists i: nat :: i < RETRIES && attempt(i).Acquired?
                                          && forall j: nat :: j < i ==> attempt(j).Busy?
      ensures r.Ok? ==> r.value == Row(old(nonces), Key(walletId, chain)).pending
      ensures nonces == if r.Ok? then Increment(old(nonces), Key(walletId, chain)) else old(nonces)
    {
      for i := 0 to RETRIES
        invariant nonces == old(nonces)
        invariant forall j: nat :: j < i ==> attempt(j).Busy?
      {
        match attempt(i) {
          case LockError =>
            return Err("acquire nonce lock");
          case Busy =>
          case Acquired =>
            var val := IncrementPendingNonce(walletId, chain);
            return Ok(val);
        }
      }
      return Err("nonce lock contention");
    }
  }

  // ---------------------------------------------------------------- accounting

  datatype Op = Reserve | Commit(n: int) | Release(n: int)

  /** A counter row together with the fate of every number it handed out. */
  datatype Account = Account(row: Nonce, live: set<int>, committed: set<int>, burnt: set<int>)

  const OPENING: Account := Account(ZERO, {}, {}, {})

  /** Only a holder commits or gives back a number; a number given back too late is burnt. */
  function Apply(a: Account, op: Op): Option<Account> {
    match op
    case Reserve =>
      Some(a.(row := Reserved(a.row), live := a.live + {a.row.pending}))
    case Commit(n) =>
      if n !in a.live then None
      else Some(a.(row := Advanced(a.row, n), live := a.live - {n}, committed := a.committed + {n}))
    case Release(n) =>
      if n !in a.live then None
      else
        var row := RolledBack(a.row, n);
        Some(a.(row := row, live := a.live - {n},
                burnt := if row.pending == n then a.burnt else a.burnt + {n}))
  }

  function Run(a: Account, ops: seq<Op>): Option<Account>
    decreases |ops|
  {
    if ops == [] then Some(a)
    else
      match Run(a, ops[..|ops| - 1])
      case None => None
      case Some(b) => Apply(b, ops[|ops| - 1])
  }

  /** Every number below the counter has exactly one fate, and the broadcast mark never overtakes it. */
  ghost predicate Balanced(a: Account) {
    && (forall n :: n in a.live + a.committed + a.burnt <==> 0 <= n < a.row.pending)
    && a.live !! a.committed !! a.burnt
    && 0 <= a.row.broadcast <= a.row.pending
    && (forall n :: n in a.committed ==> n < a.row.broadcast)
    && (a.row.broadcast > 0 ==> a.row.broadcast - 1 in a.committed)
  }

  lemma ApplyBalanced(a: Account, op: Op)
    requires Balanced(a) && Apply(a, op).Some?
    ensures Balanced(Apply(a, op).value)
  {
    var b := Apply(a, op).value;
    forall n
      ensures n in b.live + b.committed + b.burnt <==> 0 <= n < b.row.pending
    {
      assert n in a.live + a.committed + a.burnt <==> 0 <= n < a.row.pending;
    }
  }

  /** Conservation over every run of reservations, commits and holder-only releases. */
  lemma {:induction false} AccountConserved(ops: seq<Op>)
    requires Run(OPENING, ops).Some?
    ensures Balanced(Run(OPENING, ops).value)
  {
    if ops != [] {
      AccountConserved(ops[..|ops| - 1]);
      ApplyBalanced(Run(OPENING, ops[..|ops| - 1]).value, ops[|ops| - 1]);
    }
  }

  /** The highest number handed out and not given back. */
  ghost predicate MostRecent(a: Account, n: int) {
    n in a.live && forall m :: m in a.live + a.committed ==> m <= n
  }

  /** Every release in the run gives back the most recent reservation of its moment. */
  ghost predicate ReleasesMostRecent(ops: seq<Op>) {
    forall i :: 0 <= i < |ops| && ops[i].Release? ==>
      match Run(OPENING, ops[..i])
      case None => true
      case Some(a) => MostRecent(a, ops[i].n)
  }

  /** Releasing only the most recent reservation leaves no gap: no number is ever burnt. */
  lemma {:induction false} GapFree(ops: seq<Op>)
    requires Run(OPENING, ops).Some? && ReleasesMostRecent(ops)
    ensures Run(OPENING, ops).value.burnt == {}
  {
    if ops != [] {
      var before, op := ops[..|ops| - 1], ops[|ops| - 1];
      var a := Run(OPENING, before).value;
      assert forall i :: 0 <= i < |before| ==> before[..i] == ops[..i];
      GapFree(before);
      AccountConserved(before);
      if op.Release? {
        assert MostRecent(a, op.n);
        assert a.row.pending - 1 in a.live + a.committed + a.burnt;
      }
    }
  }

  /** And a release burns its number exactly when a later number is still out. */
  lemma BurntIffNotLast(a: Account, n: int)
    requires Balanced(a) && n in a.live
    ensures n in Apply(a, Release(n)).value.burnt <==> n + 1 in a.live + a.committed + a.burnt
  {
    assert n in a.live + a.committed + a.burnt;
  }
}
