/**
 The tables of the in-memory store over its row objects: what every operation does to the rows it looks at, adds,
 writes in place or deletes, proved against the same operation on the tables as a reader sees them.
 */
module StoreTables {
  import opened Prelude
  import opened Rlp
  import opened StoreView
  import opened StoreRows
  import Balances
  import KeyMappings
  import Nonces

  // What one changed row of a table does to the rows of a view.

  lemma WalletSet(v: View, id: Uuid, w: WalletView)
    ensures Changes(v, v.(wallets := v.wallets[id := w]), WalletId(id), Some(WalletRow(w)))
  {
  }

  lemma AddressSet(v: View, id: Uuid, a: Address)
    ensures Changes(v, v.(addresses := v.addresses[id := a]), AddressId(id), Some(AddressRow(a)))
  {
  }

  lemma BalanceSet(v: View, key: string, b: Balance)
    ensures Changes(v, v.(balances := v.balances[key := b]), BalanceId(key), Some(BalanceRow(b)))
  {
  }

  lemma OutpointSet(v: View, op: string, u: OutpointView)
    ensures Changes(v, v.(outpoints := v.outpoints[op := u]), OutpointId(op), Some(OutpointRow(u)))
  {
  }

  lemma OutpointDropped(v: View, op: string)
    ensures Changes(v, v.(outpoints := v.outpoints - {op}), OutpointId(op), None)
  {
  }

  lemma NonceSet(v: View, key: string, n: Nonces.Nonce)
    ensures Changes(v, v.(nonces := v.nonces[key := n]), NonceId(key), Some(NonceRow(n)))
  {
  }

  lemma WithdrawalSet(v: View, id: Uuid, w: WithdrawalView)
    ensures Changes(v, WithWithdrawal(v, id, w), WithdrawalId(id), Some(WithdrawalRow(w)))
  {
  }

  lemma FundingSet(v: View, id: Uuid, f: Funding)
    ensures Changes(v, v.(funding := v.funding[id := f]), FundingId(id), Some(FundingRow(f)))
  {
  }

  lemma MappingSet(v: View, w: Uuid, i: nat, m: KeyMappings.Mapping)
    requires w in v.keys && i < |v.keys[w]|
    ensures Changes(v, WithKeys(v, w, v.keys[w][i := m]), MappingId(w, i), Some(MappingRow(AsRow(m))))
  {
  }

  lemma MappingAppended(v: View, w: Uuid, m: KeyMappings.Mapping)
    requires w in v.keys
    ensures Changes(v, WithKeys(v, w, v.keys[w] + [m]), MappingId(w, |v.keys[w]|), Some(MappingRow(AsRow(m))))
  {
  }

  /** An empty list has no rows. */
  lemma ListOpened(v: View, w: Uuid)
    requires w !in v.keys
    ensures SameRows(v, WithKeys(v, w, []))
  {
  }

  lemma EventSet(v: View, i: nat, e: EventView)
    requires i < |v.events|
    ensures Changes(v, v.(events := v.events[i := e]), EventId(i), Some(EventRow(e)))
  {
  }

  lemma EventAppended(v: View, e: EventView)
    ensures Changes(v, v.(events := v.events + [e]), EventId(|v.events|), Some(EventRow(e)))
  {
  }

  // ---------------------------------------------------------------- the rows of the store

  /** The rows of the store as tables: `view` is what a reader sees. */
  class ViewedRows {
    const rows: RowStore
    ghost var view: View

    /** The objects that belong to the rows. */
    ghost function Repr(): set<object>
      reads this, rows, rows.tables
    {
      {this} + rows.Repr()
    }

    /** The objects row pointers may lead to. */
    ghost function Reach(): set<object>
      reads this, rows
    {
      rows.targets
    }

    ghost predicate Valid()
      reads this, rows, rows.tables, rows.tables.Repr, rows.targets
    {
      rows.Valid() && this !in rows.Repr() && this !in rows.targets && Lists(rows.seen, view)
    }

    constructor ()
      ensures Valid() && fresh(Repr()) && view == EMPTY && Reach() == {}
    {
      rows := new RowStore();
      view := EMPTY;
    }

    constructor Of(rows: RowStore, ghost view: View)
      requires rows.Valid() && Lists(rows.seen, view)
      ensures Valid() && fresh(this) && this.rows == rows && this.view == view
    {
      this.rows, this.view := rows, view;
    }

    method Has(k: RowId) returns (yes: bool)
      requires Valid()
      ensures yes <==> At(view, k).Some?
    {
      yes := rows.Has(k);
    }

    method AllIds() returns (ids: set<RowId>)
      requires Valid()
      ensures forall k :: k in ids <==> At(view, k).Some?
    {
      ids := rows.AllIds();
    }

    method Get(k: RowId) returns (r: Stored)
      requires Valid() && At(view, k).Some?
      ensures Targets(r) <= Reach() && Followed(r) == At(view, k).value
    {
      r := rows.Get(k);
    }

    /** Puts a new row object under `k`. */
    method Add(k: RowId, r: Stored, ghost x: RowView, ghost v: View)
      requires Valid() && RowShows(r, Reach(), x) && Changes(view, v, k, Some(x))
      modifies Repr()
      ensures Valid() && view == v && Reach() == old(Reach()) && fresh(Repr() - old(Repr()))
    {
      ListsSet(rows.seen, view, v, k, x);
      view := v;
      rows.Add(k, r, x);
    }

    /** Writes the row under `k` in place. */
    method Write(k: RowId, r: Stored, ghost x: RowView, ghost v: View)
      requires Valid() && At(view, k).Some? && RowShows(r, Reach(), x) && Changes(view, v, k, Some(x))
      modifies Repr()
      ensures Valid() && view == v && Reach() == old(Reach()) && rows.tables.Repr == old(rows.tables.Repr)
    {
      assert k in rows.seen;
      ListsSet(rows.seen, view, v, k, x);
      view := v;
      rows.Write(k, r, x);
    }

    method Delete(k: RowId, ghost v: View)
      requires Valid() && Changes(view, v, k, None)
      modifies Repr()
      ensures Valid() && view == v && Reach() == old(Reach()) && rows.tables.Repr == old(rows.tables.Repr)
    {
      ListsDropped(rows.seen, view, v, k);
      view := v;
      rows.Delete(k);
    }

    /** A change that touches no row. */
    ghost method Note(v: View)
      requires Valid() && SameRows(view, v)
      modifies this
      ensures Valid() && view == v && Reach() == old(Reach()) && Repr() == old(Repr())
    {
      ListsSame(rows.seen, view, v);
      view := v;
    }

    /** Row pointers may lead to these objects from now on. */
    ghost method Adopt(more: set<object>)
      requires Valid() && more !! Repr()
      modifies rows
      ensures Valid() && view == old(view) && Reach() == old(Reach()) + more && Repr() == old(Repr())
    {
      rows.Adopt(more);
    }

    /** Rows of their own, with a new object for every row and the same pointers in it. */
    method Snapshot() returns (c: ViewedRows)
      requires Valid()
      ensures c.Valid() && fresh(c.Repr()) && c.view == view && c.Reach() == Reach()
    {
      var r := rows.Snapshot();
      c := new ViewedRows.Of(r, view);
    }

    // ---------------------------------------------------------------- pointers of the caller, and new ones

    /** What a caller hands in is no row of the store. */
    ghost predicate Foreign(r: Stored)
      reads this, rows, rows.tables
    {
      Targets(r) !! Repr()
    }

    /** A new cell that row pointers may lead to. */
    method NewCell(value: int) returns (c: Cell<int>)
      requires Valid()
      modifies rows
      ensures Valid() && view == old(view) && fresh(c) && c.value == value && Reach() == old(Reach()) + {c}
      ensures rows.tables.Repr == old(rows.tables.Repr)
    {
      c := new Cell(value);
      Adopt({c});
    }

    /** A copy of a caller's slice that row pointers may lead to. */
    method NewSlice<T>(a: array<T>) returns (copy: array<T>)
      requires Valid()
      modifies rows
      ensures Valid() && view == old(view) && fresh(copy) && copy[..] == old(a[..]) && Reach() == old(Reach()) + {copy}
      ensures rows.tables.Repr == old(rows.tables.Repr)
    {
      var c := CopySlice(a);
      copy := c;
      Adopt({copy});
    }

    // ---------------------------------------------------------------- wallets

    method GetWallet(id: Uuid) returns (w: StoredWallet)
      requires Valid() && id in view.wallets
      ensures RowShows(WalletRow(w), Reach(), WalletRow(view.wallets[id]))
    {
      var row := Get(WalletId(id));
      w := row.wallet;
    }

    method AddWallet(id: Uuid, w: StoredWallet, ghost x: WalletView)
      requires Valid() && RowShows(WalletRow(w), Reach(), WalletRow(x))
      modifies Repr()
      ensures Valid() && view == old(view).(wallets := old(view).wallets[id := x])
      ensures Reach() == old(Reach()) && fresh(Repr() - old(Repr()))
    {
      WalletSet(view, id, x);
      Add(WalletId(id), WalletRow(w), WalletRow(x), view.(wallets := view.wallets[id := x]));
    }

    method WriteWallet(id: Uuid, w: StoredWallet, ghost x: WalletView)
      requires Valid() && id in view.wallets && RowShows(WalletRow(w), Reach(), WalletRow(x))
      modifies Repr()
      ensures Valid() && view == old(view).(wallets := old(view).wallets[id := x])
      ensures Reach() == old(Reach()) && rows.tables.Repr == old(rows.tables.Repr)
    {
      WalletSet(view, id, x);
      Write(WalletId(id), WalletRow(w), WalletRow(x), view.(wallets := view.wallets[id := x]));
    }

    /** The row is copied; its pointers are the caller's. */
    method CreateWallet(id: Uuid, w: StoredWallet, ghost x: WalletView) returns (r: Reply)
      requires Valid() && Foreign(WalletRow(w)) && SeenWallet(w) == x
      modifies Repr()
      ensures Valid() && (view, r) == DoWallet(old(view), WalletOp.CreateWallet(id, x))
      ensures Reach() <= old(Reach()) + Targets(WalletRow(w)) && fresh(Repr() - old(Repr()))
    {
      var taken := Has(WalletId(id));
      if taken {
        return Refused;
      }
      Adopt(Targets(WalletRow(w)));
      AddWallet(id, w, x);
      return Done;
    }

    method UpdateWalletState(id: Uuid, state: string) returns (r: Reply)
      requires Valid()
      modifies Repr()
      ensures Valid() && (view, r) == DoWallet(old(view), WalletOp.UpdateWalletState(id, state))
      ensures Reach() == old(Reach()) && rows.tables.Repr == old(rows.tables.Repr)
    {
      var known := Has(WalletId(id));
      if !known {
        return Refused;
      }
      var w := GetWallet(id);
      WriteWallet(id, w.(state := state), view.wallets[id].(state := state));
      return Done;
    }

    // ---------------------------------------------------------------- addresses

    method GetAddress(id: Uuid) returns (a: Address)
      requires Valid() && id in view.addresses
      ensures a == view.addresses[id]
    {
      var row := Get(AddressId(id));
      a := row.address;
    }

    method AddAddress(id: Uuid, a: Address)
      requires Valid()
      modifies Repr()
      ensures Valid() && view == old(view).(addresses := old(view).addresses[id := a])
      ensures Reach() == old(Reach()) && fresh(Repr() - old(Repr()))
    {
      AddressSet(view, id, a);
      Add(AddressId(id), AddressRow(a), AddressRow(a), view.(addresses := view.addresses[id := a]));
    }

    method WriteAddress(id: Uuid, a: Address)
      requires Valid() && id in view.addresses
      modifies Repr()
      ensures Valid() && view == old(view).(addresses := old(view).addresses[id := a])
      ensures Reach() == old(Reach()) && rows.tables.Repr == old(rows.tables.Repr)
    {
      AddressSet(view, id, a);
      Write(AddressId(id), AddressRow(a), AddressRow(a), view.(addresses := view.addresses[id := a]));
    }

    method AddressIds() returns (ids: set<Uuid>)
      requires Valid()
      ensures ids == view.addresses.Keys
    {
      var all := AllIds();
      ids := set k | k in all && k.AddressId? :: k.id;
      AddressesIn(all, view);
    }

    /** The scan for an active address of a wallet. */
    method AnyActive(wallet: Uuid) returns (found: bool)
      requires Valid()
      ensures found <==> HasActive(view.addresses, wallet)
    {
      var todo := AddressIds();
      while todo != {}
        invariant todo <= view.addresses.Keys
        invariant forall id :: id in view.addresses && id !in todo ==>
                    !(view.addresses[id].wallet == wallet && view.addresses[id].state == ACTIVE)
        decreases todo
      {
        var id :| id in todo;
        var a := GetAddress(id);
        if a.wallet == wallet && a.state == ACTIVE {
          return true;
        }
        todo := todo - {id};
      }
      return false;
    }

    method InsertAddress(id: Uuid, a: Address) returns (r: Reply)
      requires Valid()
      modifies Repr()
      ensures Valid() && (view, r) == DoAddress(old(view), AddressOp.InsertAddress(id, a))
      ensures Reach() == old(Reach()) && fresh(Repr() - old(Repr()))
    {
      var taken := Has(AddressId(id));
      if taken {
        return Refused;
      }
      if a.state == ACTIVE {
        taken := AnyActive(a.wallet);
        if taken {
          return Refused;
        }
      }
      AddAddress(id, a);
      return Done;
    }

    method DeprecateAddress(id: Uuid) returns (r: Reply)
      requires Valid()
      modifies Repr()
      ensures Valid() && (view, r) == DoAddress(old(view), AddressOp.DeprecateAddress(id))
      ensures Reach() == old(Reach()) && rows.tables.Repr == old(rows.tables.Repr)
    {
      var known := Has(AddressId(id));
      if !known {
        return Refused;
      }
      var a := GetAddress(id);
      WriteAddress(id, a.(state := DEPRECATED));
      return Done;
    }

    method IncrementReceiveCount(id: Uuid) returns (r: Reply)
      requires Valid()
      modifies Repr()
      ensures Valid() && (view, r) == DoAddress(old(view), AddressOp.IncrementReceiveCount(id))
      ensures Reach() == old(Reach()) && rows.tables.Repr == old(rows.tables.Repr)
    {
      var known := Has(AddressId(id));
      if !known {
        return Refused;
      }
      var a := GetAddress(id);
      WriteAddress(id, a.(receives := a.receives + 1));
      return Done;
    }

    // ---------------------------------------------------------------- balances

    /** The stored row is replaced by a new one. */
    method UpsertBalance(b: Balance)
      requires Valid()
      modifies Repr()
      ensures Valid() && view == DoBalance(old(view), BalanceOp.UpsertBalance(b)).0
      ensures Reach() == old(Reach()) && fresh(Repr() - old(Repr()))
    {
      var key := Balances.BalanceKey(b.wallet, b.asset);
      BalanceSet(view, key, b);
      Add(BalanceId(key), BalanceRow(b), BalanceRow(b), view.(balances := view.balances[key := b]));
    }

    // ---------------------------------------------------------------- outpoints

    method GetOutpoint(op: string) returns (u: StoredOutpoint)
      requires Valid() && op in view.outpoints
      ensures RowShows(OutpointRow(u), Reach(), OutpointRow(view.outpoints[op]))
    {
      var row := Get(OutpointId(op));
      u := row.outpoint;
    }

    method AddOutpoint(op: string, u: StoredOutpoint, ghost x: OutpointView)
      requires Valid() && RowShows(OutpointRow(u), Reach(), OutpointRow(x))
      modifies Repr()
      ensures Valid() && view == old(view).(outpoints := old(view).outpoints[op := x])
      ensures Reach() == old(Reach()) && fresh(Repr() - old(Repr()))
    {
      OutpointSet(view, op, x);
      Add(OutpointId(op), OutpointRow(u), OutpointRow(x), view.(outpoints := view.outpoints[op := x]));
    }

    method WriteOutpoint(op: string, u: StoredOutpoint, ghost x: OutpointView)
      requires Valid() && op in view.outpoints && RowShows(OutpointRow(u), Reach(), OutpointRow(x))
      modifies Repr()
      ensures Valid() && view == old(view).(outpoints := old(view).outpoints[op := x])
      ensures Reach() == old(Reach()) && rows.tables.Repr == old(rows.tables.Repr)
    {
      OutpointSet(view, op, x);
      Write(OutpointId(op), OutpointRow(u), OutpointRow(x), view.(outpoints := view.outpoints[op := x]));
    }

    method InsertUtxo(op: string, u: StoredOutpoint, ghost x: OutpointView) returns (r: Reply)
      requires Valid() && Foreign(OutpointRow(u)) && SeenOutpoint(u) == x
      modifies Repr()
      ensures Valid() && (view, r) == DoOutpoint(old(view), InsertOutpoint(op, x))
      ensures Reach() <= old(Reach()) + Targets(OutpointRow(u)) && fresh(Repr() - old(Repr()))
    {
      var taken := Has(OutpointId(op));
      if taken {
        return Refused;
      }
      Adopt(Targets(OutpointRow(u)));
      AddOutpoint(op, u, x);
      return Done;
    }

    /** One turn of a loop that rewrites outpoints. */
    method ChangeOutpoint(op: string, c: ChangeOf<Cell?<int>>, ghost x: ChangeOf<Option<int>>)
      requires Valid() && op in view.outpoints && Pointers(c) <= Reach() && SeenChange(c) == x
      modifies Repr()
      ensures Valid() && SeenChange(c) == x
      ensures view == old(view).(outpoints := old(view).outpoints[op := Changed(old(view).outpoints[op], x)])
      ensures Reach() == old(Reach()) && rows.tables.Repr == old(rows.tables.Repr)
    {
      var u := GetOutpoint(op);
      ChangedShows(u, c, Reach(), view.outpoints[op]);
      WriteOutpoint(op, Changed(u, c), Changed(view.outpoints[op], x));
    }

    /** Outpoints are rewritten one by one up to the first one the table lacks. */
    method RewriteOutpoints(ops: seq<string>, c: ChangeOf<Cell?<int>>, ghost x: ChangeOf<Option<int>>)
      returns (r: Reply)
      requires Valid() && Pointers(c) <= Reach() && SeenChange(c) == x
      modifies Repr()
      ensures Valid() && (view, r) == WithOutpoints(old(view), Rewritten(old(view).outpoints, ops, x))
      ensures Reach() == old(Reach()) && rows.tables.Repr == old(rows.tables.Repr)
    {
      ghost var was := view;
      for i := 0 to |ops|
        invariant Valid() && view == was.(outpoints := view.outpoints)
        invariant Rewritten(view.outpoints, ops[i..], x) == Rewritten(was.outpoints, ops, x)
        invariant Reach() == old(Reach()) && rows.tables.Repr == old(rows.tables.Repr) && SeenChange(c) == x
      {
        RewrittenOne(view.outpoints, ops, i, x);
        var known := Has(OutpointId(ops[i]));
        if !known {
          return Refused;
        }
        ChangeOutpoint(ops[i], c, x);
      }
      return Done;
    }

    /** The check before locking: every outpoint is stored and free. */
    method AreFree(ops: seq<string>) returns (yes: bool)
      requires Valid()
      ensures yes <==> AllFree(view.outpoints, ops)
    {
      for i := 0 to |ops|
        invariant forall j :: 0 <= j < i ==> ops[j] in view.outpoints && view.outpoints[ops[j]].lock == FREE
      {
        var known := Has(OutpointId(ops[i]));
        if !known {
          return false;
        }
        var u := GetOutpoint(ops[i]);
        if u.lock != FREE {
          return false;
        }
      }
      return true;
    }

    method LockUtxos(ops: seq<string>, now: int) returns (r: Reply)
      requires Valid()
      modifies Repr()
      ensures Valid() && (view, r) == DoOutpoint(old(view), LockOutpoints(ops, now))
      ensures fresh(Reach() - old(Reach())) && rows.tables.Repr == old(rows.tables.Repr)
    {
      var free := AreFree(ops);
      if !free {
        return Refused;
      }
      var at := NewCell(now);
      r := RewriteOutpoints(ops, Lock(at), Lock(Some(now)));
    }

    method MarkUtxosSpent(ops: seq<string>, txHash: string, now: int) returns (r: Reply)
      requires Valid()
      modifies Repr()
      ensures Valid() && (view, r) == DoOutpoint(old(view), MarkSpent(ops, txHash, now))
      ensures fresh(Reach() - old(Reach())) && rows.tables.Repr == old(rows.tables.Repr)
    {
      var at := NewCell(now);
      r := RewriteOutpoints(ops, Spend(txHash, at), Spend(txHash, Some(now)));
    }

    method RestoreUtxos(ops: seq<string>) returns (r: Reply)
      requires Valid()
      modifies Repr()
      ensures Valid() && (view, r) == DoOutpoint(old(view), RestoreOutpoints(ops))
      ensures Reach() == old(Reach()) && rows.tables.Repr == old(rows.tables.Repr)
    {
      r := RewriteOutpoints(ops, Restore(null), Restore(None));
    }

    method PruneOne(op: string)
      requires Valid()
      modifies Repr()
      ensures Valid() && view == old(view).(outpoints := old(view).outpoints - {op})
      ensures Reach() == old(Reach()) && rows.tables.Repr == old(rows.tables.Repr)
    {
      OutpointDropped(view, op);
      Delete(OutpointId(op), view.(outpoints := view.outpoints - {op}));
    }

    method PruneUtxos(ops: seq<string>)
      requires Valid()
      modifies Repr()
      ensures Valid() && view == DoOutpoint(old(view), PruneOutpoints(ops)).0
      ensures Reach() == old(Reach()) && rows.tables.Repr == old(rows.tables.Repr)
    {
      ghost var was := view;
      assert was.outpoints - Named(ops[..0]) == was.outpoints;
      for i := 0 to |ops|
        invariant Valid() && Reach() == old(Reach()) && rows.tables.Repr == old(rows.tables.Repr)
        invariant view == was.(outpoints := was.outpoints - Named(ops[..i]))
      {
        PrunedOne(was.outpoints, ops, i);
        PruneOne(ops[i]);
      }
      assert ops[..|ops|] == ops;
    }

    // ---------------------------------------------------------------- nonces

    method GetNonce(key: string) returns (n: Nonces.Nonce)
      requires Valid()
      ensures n == Nonces.Row(view.nonces, key)
    {
      var known := Has(NonceId(key));
      if !known {
        return Nonces.ZERO;
      }
      var row := Get(NonceId(key));
      return row.nonce;
    }

    /** A new row, in place of any stored one. */
    method UpsertNonce(key: string, n: Nonces.Nonce)
      requires Valid()
      modifies Repr()
      ensures Valid() && view == old(view).(nonces := old(view).nonces[key := n])
      ensures Reach() == old(Reach()) && fresh(Repr() - old(Repr()))
    {
      NonceSet(view, key, n);
      Add(NonceId(key), NonceRow(n), NonceRow(n), view.(nonces := view.nonces[key := n]));
    }

    /** The row is written in place, or stored if there was none. */
    method WriteNonce(key: string, n: Nonces.Nonce)
      requires Valid()
      modifies Repr()
      ensures Valid() && view == old(view).(nonces := old(view).nonces[key := n])
      ensures Reach() == old(Reach()) && fresh(Repr() - old(Repr()))
    {
      var known := Has(NonceId(key));
      if known {
        NonceSet(view, key, n);
        Write(NonceId(key), NonceRow(n), NonceRow(n), view.(nonces := view.nonces[key := n]));
      } else {
        UpsertNonce(key, n);
      }
    }

    method IncrementPendingNonce(key: string) returns (r: Reply)
      requires Valid()
      modifies Repr()
      ensures Valid() && (view, r) == DoNonce(old(view), IncrementPending(key))
      ensures Reach() == old(Reach()) && fresh(Repr() - old(Repr()))
    {
      var n := GetNonce(key);
      WriteNonce(key, n.(pending := n.pending + 1, version := n.version + 1));
      return Number(n.pending);
    }

    method AdvanceBroadcastNonce(key: string, nonce: int)
      requires Valid()
      modifies Repr()
      ensures Valid() && view == DoNonce(old(view), AdvanceBroadcast(key, nonce)).0
      ensures Reach() == old(Reach()) && fresh(Repr() - old(Repr()))
    {
      var n := GetNonce(key);
      if nonce + 1 > n.broadcast {
        n := n.(broadcast := nonce + 1);
      }
      WriteNonce(key, n);
    }

    method RollbackPendingNonce(key: string, to: int) returns (r: Reply)
      requires Valid()
      modifies Repr()
      ensures Valid() && (view, r) == DoNonce(old(view), RollbackPending(key, to))
      ensures Reach() == old(Reach()) && fresh(Repr() - old(Repr()))
    {
      var known := Has(NonceId(key));
      if !known {
        return Number(0);
      }
      var n := GetNonce(key);
      if n.pending != to + 1 {
        assert view.nonces[key := view.nonces[key]] == view.nonces;
        return Number(0);
      }
      WriteNonce(key, n.(pending := to, version := n.version + 1));
      return Number(1);
    }

    // ---------------------------------------------------------------- withdrawals

    method GetWithdrawal(id: Uuid) returns (w: StoredWithdrawal)
      requires Valid() && id in view.withdrawals
      ensures RowShows(WithdrawalRow(w), Reach(), WithdrawalRow(view.withdrawals[id]))
    {
      var row := Get(WithdrawalId(id));
      w := row.withdrawal;
    }

    method AddWithdrawal(id: Uuid, w: StoredWithdrawal, ghost x: WithdrawalView)
      requires Valid() && RowShows(WithdrawalRow(w), Reach(), WithdrawalRow(x))
      modifies Repr()
      ensures Valid() && view == WithWithdrawal(old(view), id, x)
      ensures Reach() == old(Reach()) && fresh(Repr() - old(Repr()))
    {
      WithdrawalSet(view, id, x);
      Add(WithdrawalId(id), WithdrawalRow(w), WithdrawalRow(x), WithWithdrawal(view, id, x));
    }

    method WriteWithdrawal(id: Uuid, w: StoredWithdrawal, ghost x: WithdrawalView)
      requires Valid() && id in view.withdrawals && RowShows(WithdrawalRow(w), Reach(), WithdrawalRow(x))
      modifies Repr()
      ensures Valid() && view == WithWithdrawal(old(view), id, x)
      ensures Reach() == old(Reach()) && rows.tables.Repr == old(rows.tables.Repr)
    {
      WithdrawalSet(view, id, x);
      Write(WithdrawalId(id), WithdrawalRow(w), WithdrawalRow(x), WithWithdrawal(view, id, x));
    }

    method StoreWithdrawal(id: Uuid, w: StoredWithdrawal, ghost x: WithdrawalView)
      requires Valid() && Foreign(WithdrawalRow(w)) && SeenWithdrawal(w) == x
      modifies Repr()
      ensures Valid() && view == WithWithdrawal(old(view), id, x)
      ensures Reach() == old(Reach()) + Targets(WithdrawalRow(w)) && fresh(Repr() - old(Repr()))
    {
      Adopt(Targets(WithdrawalRow(w)));
      AddWithdrawal(id, w, x);
    }

    /** The caller's slices are copied; the nonce pointer is taken over as it is. */
    method CopyWithdrawal(id: Uuid, w: StoredWithdrawal, ghost x: WithdrawalView)
      requires Valid() && Foreign(WithdrawalRow(w)) && SeenWithdrawal(w) == x
      modifies Repr()
      ensures Valid() && view == WithWithdrawal(old(view), id, x)
      ensures fresh(Reach() - old(Reach()) - Ptr(w.nonce)) && fresh(Repr() - old(Repr()))
    {
      var outpoints := CopySlice(w.outpoints);
      var signed := CopySlice(w.signed);
      StoreWithdrawal(id, w.(outpoints := outpoints, signed := signed), x);
    }

    method PointNonce(id: Uuid, at: Cell?<int>, ghost x: int)
      requires Valid() && id in view.withdrawals && at != null && at in Reach() && at.value == x
      modifies Repr()
      ensures Valid() && view == WithWithdrawal(old(view), id, old(view).withdrawals[id].(nonce := Some(x)))
      ensures Reach() == old(Reach()) && rows.tables.Repr == old(rows.tables.Repr)
    {
      var w := GetWithdrawal(id);
      WriteWithdrawal(id, w.(nonce := at), view.withdrawals[id].(nonce := Some(x)));
    }

    method PointOutpoints(id: Uuid, at: array?<string>, ghost x: seq<string>)
      requires Valid() && id in view.withdrawals && at != null && at in Reach() && at[..] == x
      modifies Repr()
      ensures Valid() && view == WithWithdrawal(old(view), id, old(view).withdrawals[id].(outpoints := Some(x)))
      ensures Reach() == old(Reach()) && rows.tables.Repr == old(rows.tables.Repr)
    {
      var w := GetWithdrawal(id);
      WriteWithdrawal(id, w.(outpoints := at), view.withdrawals[id].(outpoints := Some(x)));
    }

    method PointSigned(id: Uuid, at: array?<byte>, ghost x: Bytes)
      requires Valid() && id in view.withdrawals && at != null && at in Reach() && at[..] == x
      modifies Repr()
      ensures Valid() && view == WithWithdrawal(old(view), id, old(view).withdrawals[id].(signed := Some(x)))
      ensures Reach() == old(Reach()) && rows.tables.Repr == old(rows.tables.Repr)
    {
      var w := GetWithdrawal(id);
      WriteWithdrawal(id, w.(signed := at), view.withdrawals[id].(signed := Some(x)));
    }

    /** The pointer is replaced; what it led to is not written. */
    method UpdateWithdrawalNonce(id: Uuid, nonce: int) returns (r: Reply)
      requires Valid()
      modifies Repr()
      ensures Valid() && (view, r) == DoWithdrawal(old(view), UpdateNonce(id, nonce))
      ensures fresh(Reach() - old(Reach())) && rows.tables.Repr == old(rows.tables.Repr)
    {
      var known := Has(WithdrawalId(id));
      if !known {
        return Refused;
      }
      var cell := NewCell(nonce);
      PointNonce(id, cell, nonce);
      return Done;
    }

    /** The slice is replaced by a copy of the caller's; its old elements are not written. */
    method UpdateWithdrawalOutpoints(id: Uuid, ops: array<string>) returns (r: Reply)
      requires Valid()
      modifies Repr()
      ensures Valid() && (view, r) == DoWithdrawal(old(view), UpdateOutpoints(id, old(ops[..])))
      ensures fresh(Reach() - old(Reach())) && rows.tables.Repr == old(rows.tables.Repr)
    {
      var known := Has(WithdrawalId(id));
      if !known {
        return Refused;
      }
      var copy := NewSlice(ops);
      PointOutpoints(id, copy, old(ops[..]));
      return Done;
    }

    method UpdateWithdrawalSignedTx(id: Uuid, bytes: array<byte>) returns (r: Reply)
      requires Valid()
      modifies Repr()
      ensures Valid() && (view, r) == DoWithdrawal(old(view), UpdateSigned(id, old(bytes[..])))
      ensures fresh(Reach() - old(Reach())) && rows.tables.Repr == old(rows.tables.Repr)
    {
      var known := Has(WithdrawalId(id));
      if !known {
        return Refused;
      }
      var copy := NewSlice(bytes);
      PointSigned(id, copy, old(bytes[..]));
      return Done;
    }

    // ---------------------------------------------------------------- funding requests

    method GetFunding(id: Uuid) returns (f: Funding)
      requires Valid() && id in view.funding
      ensures f == view.funding[id]
    {
      var row := Get(FundingId(id));
      f := row.funding;
    }

    method FundingIds() returns (ids: set<Uuid>)
      requires Valid()
      ensures ids == view.funding.Keys
    {
      var all := AllIds();
      ids := set k | k in all && k.FundingId? :: k.id;
      FundingIn(all, view);
    }

    /** The scan for an open request of a wallet and an asset. */
    method AnyOpen(wallet: Uuid, asset: string) returns (found: bool)
      requires Valid()
      ensures found <==> HasOpen(view.funding, wallet, asset)
    {
      var todo := FundingIds();
      while todo != {}
        invariant todo <= view.funding.Keys
        invariant forall id :: id in view.funding && id !in todo ==>
                    !OpenRequest(view.funding, id, wallet, asset)
        decreases todo
      {
        var id :| id in todo;
        var f := GetFunding(id);
        if f.wallet == wallet && f.asset == asset && f.state == REQUESTED {
          assert OpenRequest(view.funding, id, wallet, asset);
          return true;
        }
        todo := todo - {id};
      }
      return false;
    }

    method CreateFundingRequest(id: Uuid, f: Funding) returns (r: Reply)
      requires Valid()
      modifies Repr()
      ensures Valid() && (view, r) == DoFunding(old(view), CreateFunding(id, f))
      ensures Reach() == old(Reach()) && fresh(Repr() - old(Repr()))
    {
      var open := AnyOpen(f.wallet, f.asset);
      if open {
        return Refused;
      }
      FundingSet(view, id, f);
      Add(FundingId(id), FundingRow(f), FundingRow(f), view.(funding := view.funding[id := f]));
      return Done;
    }

    method UpdateFundingState(id: Uuid, state: string, batch: string) returns (r: Reply)
      requires Valid()
      modifies Repr()
      ensures Valid() && (view, r) == DoFunding(old(view), UpdateFunding(id, state, batch))
      ensures Reach() == old(Reach()) && rows.tables.Repr == old(rows.tables.Repr)
    {
      var known := Has(FundingId(id));
      if !known {
        return Refused;
      }
      var f := GetFunding(id);
      f := InFunding(f, state, batch);
      FundingSet(view, id, f);
      Write(FundingId(id), FundingRow(f), FundingRow(f), view.(funding := view.funding[id := f]));
      return Done;
    }

    // ---------------------------------------------------------------- key mappings

    method GetMapping(w: Uuid, i: nat) returns (m: StoredMapping)
      requires Valid() && w in view.keys && i < |view.keys[w]|
      ensures RowShows(MappingRow(m), Reach(), MappingRow(AsRow(view.keys[w][i])))
    {
      var row := Get(MappingId(w, i));
      m := row.mapping;
    }

    /** Writes row `i` of a wallet's list in place. */
    method WriteMapping(w: Uuid, i: nat, m: StoredMapping, ghost x: KeyMappings.Mapping)
      requires Valid() && w in view.keys && i < |view.keys[w]| && RowShows(MappingRow(m), Reach(), MappingRow(AsRow(x)))
      modifies Repr()
      ensures Valid() && view == WithKeys(old(view), w, old(view).keys[w][i := x])
      ensures Reach() == old(Reach()) && rows.tables.Repr == old(rows.tables.Repr)
    {
      MappingSet(view, w, i, x);
      Write(MappingId(w, i), MappingRow(m), MappingRow(AsRow(x)), WithKeys(view, w, view.keys[w][i := x]));
    }

    /** A new row at the end of a wallet's list. */
    method AppendMapping(w: Uuid, n: nat, m: StoredMapping, ghost x: KeyMappings.Mapping)
      requires Valid() && w in view.keys && n == |view.keys[w]|
               && RowShows(MappingRow(m), Reach(), MappingRow(AsRow(x)))
      modifies Repr()
      ensures Valid() && view == WithKeys(old(view), w, old(view).keys[w] + [x])
      ensures Reach() == old(Reach()) && fresh(Repr() - old(Repr()))
    {
      MappingAppended(view, w, x);
      Add(MappingId(w, n), MappingRow(m), MappingRow(AsRow(x)), WithKeys(view, w, view.keys[w] + [x]));
    }

    /** A current row starts cooling: its expiry pointer is replaced. */
    method DemoteRow(w: Uuid, i: nat, until: Cell<int>, ghost t: int)
      requires Valid() && w in view.keys && i < |view.keys[w]| && until in Reach() && until.value == t
      modifies Repr()
      ensures Valid() && until.value == t
      ensures view == WithKeys(old(view), w, old(view).keys[w][i := KeyMappings.Demote(old(view).keys[w][i], t)])
      ensures Reach() == old(Reach()) && rows.tables.Repr == old(rows.tables.Repr)
    {
      var m := GetMapping(w, i);
      ghost var x := view.keys[w][i];
      if m.phase.Current? {
        var at: Cell?<int> := until;
        WriteMapping(w, i, m.(phase := KeyMappings.Cooling, until := at), KeyMappings.Demote(x, t));
      } else {
        WithKeysSame(view, w, i);
      }
    }

    /** A cooling row whose time is over is retired. */
    method RetireRow(w: Uuid, i: nat, now: int)
      requires Valid() && w in view.keys && i < |view.keys[w]|
      modifies Repr()
      ensures Valid()
      ensures view == WithKeys(old(view), w, old(view).keys[w][i := KeyMappings.Retire(old(view).keys[w][i], now)])
      ensures Reach() == old(Reach()) && rows.tables.Repr == old(rows.tables.Repr)
    {
      var m := GetMapping(w, i);
      ghost var x := view.keys[w][i];
      if m.phase.Cooling? && m.until != null && now > m.until.value {
        WriteMapping(w, i, m.(phase := KeyMappings.Retired), KeyMappings.Retire(x, now));
      } else {
        WithKeysSame(view, w, i);
      }
    }

    /** The wallet's current mappings start cooling; all of them share one expiry time. */
    method DemoteAll(w: Uuid, n: nat, until: Cell<int>, ghost t: int)
      requires Valid() && w in view.keys && n == |view.keys[w]| && until in Reach() && until.value == t
      modifies Repr()
      ensures Valid() && view == WithKeys(old(view), w, KeyMappings.Demoted(old(view).keys[w], t))
      ensures Reach() == old(Reach()) && rows.tables.Repr == old(rows.tables.Repr)
    {
      ghost var was := view;
      PartsEnd(was, w, t);
      for i := 0 to n
        invariant Valid() && view == WithKeys(was, w, PartlyDemoted(was.keys[w], t, i)) && until.value == t
        invariant Reach() == old(Reach()) && rows.tables.Repr == old(rows.tables.Repr)
      {
        DemoteNext(was, w, t, i);
        DemoteRow(w, i, until, t);
      }
    }

    method RetireAll(w: Uuid, n: nat, now: int)
      requires Valid() && w in view.keys && n == |view.keys[w]|
      modifies Repr()
      ensures Valid() && view == WithKeys(old(view), w, KeyMappings.Expired(old(view).keys[w], now))
      ensures Reach() == old(Reach()) && rows.tables.Repr == old(rows.tables.Repr)
    {
      ghost var was := view;
      PartsEnd(was, w, now);
      for i := 0 to n
        invariant Valid() && view == WithKeys(was, w, PartlyRetired(was.keys[w], now, i))
        invariant Reach() == old(Reach()) && rows.tables.Repr == old(rows.tables.Repr)
      {
        RetireNext(was, w, now, i);
        RetireRow(w, i, now);
      }
    }

    /** The loop that looks for the first mapping of a key. */
    method FindKey(w: Uuid, n: nat, key: string) returns (i: nat)
      requires Valid() && w in view.keys && n == |view.keys[w]|
      ensures i == KeyMappings.Find(view.keys[w], key)
    {
      i := 0;
      while i < n
        invariant i <= n && forall j :: 0 <= j < i ==> view.keys[w][j].key != key
      {
        var m := GetMapping(w, i);
        if m.key == key {
          return;
        }
        i := i + 1;
      }
    }

    /** The loop that looks for a current mapping. */
    method AnyCurrent(w: Uuid, n: nat) returns (found: bool)
      requires Valid() && w in view.keys && n == |view.keys[w]|
      ensures found <==> KeyMappings.HasCurrent(view.keys[w])
    {
      for i := 0 to n
        invariant forall j :: 0 <= j < i ==> !view.keys[w][j].phase.Current?
      {
        var m := GetMapping(w, i);
        if m.phase.Current? {
          return true;
        }
      }
      return false;
    }

    /** The mapping of the key becomes current; a key that was never mapped is appended. */
    method Promote(w: Uuid, n: nat, key: string, now: int) returns (n': nat)
      requires Valid() && w in view.keys && n == |view.keys[w]|
      modifies Repr()
      ensures Valid() && view == WithKeys(old(view), w, KeyMappings.Promoted(old(view).keys[w], key, now))
      ensures n' == |view.keys[w]| && Reach() == old(Reach()) && fresh(Repr() - old(Repr()))
    {
      var i := FindKey(w, n, key);
      ghost var next := WithKeys(view, w, KeyMappings.Promoted(view.keys[w], key, now));
      if i < n {
        MakeCurrent(w, i, key, now);
        assert view == next;
        return n;
      }
      AppendCurrent(w, n, key, now);
      assert view == next;
      return n + 1;
    }

    method MakeCurrent(w: Uuid, i: nat, key: string, now: int)
      requires Valid() && w in view.keys && i < |view.keys[w]|
      modifies Repr()
      ensures Valid()
      ensures view
              == WithKeys(old(view), w,
                          old(view).keys[w][i := KeyMappings.Mapping(key, now, None, KeyMappings.Current)])
      ensures Reach() == old(Reach()) && rows.tables.Repr == old(rows.tables.Repr)
    {
      WriteMapping(w, i, Mapping(key, now, null, KeyMappings.Current),
                   KeyMappings.Mapping(key, now, None, KeyMappings.Current));
    }

    method AppendCurrent(w: Uuid, n: nat, key: string, now: int)
      requires Valid() && w in view.keys && n == |view.keys[w]|
      modifies Repr()
      ensures Valid()
      ensures view
              == WithKeys(old(view), w, old(view).keys[w] + [KeyMappings.Mapping(key, now, None, KeyMappings.Current)])
      ensures Reach() == old(Reach()) && fresh(Repr() - old(Repr()))
    {
      AppendMapping(w, n, Mapping(key, now, null, KeyMappings.Current),
                    KeyMappings.Mapping(key, now, None, KeyMappings.Current));
    }

    /** Copies of the active mappings of a list, in order of their start times. */
    method Resolve(w: Uuid, n: nat) returns (out: seq<KeyMappings.Mapping>)
      requires Valid() && w in view.keys && n == |view.keys[w]|
      ensures KeyMappings.IsResolution(view.keys[w], out)
    {
      ghost var ms := view.keys[w];
      out := [];
      for i := 0 to n
        invariant KeyMappings.IsResolution(ms[..i], out)
      {
        var row := GetMapping(w, i);
        var m := KeyMappings.Mapping(row.key, row.from, Deref(row.until), row.phase);
        assert ms[..i + 1] == ms[..i] + [m];
        out := KeyMappings.Merge(out, m, ms[..i]);
      }
      assert ms[..n] == ms;
    }

    // ---------------------------------------------------------------- audit events

    method GetEvent(i: nat) returns (e: StoredEvent)
      requires Valid() && i < |view.events|
      ensures RowShows(EventRow(e), Reach(), EventRow(view.events[i]))
    {
      var row := Get(EventId(i));
      e := row.event;
    }

    method WriteEvent(i: nat, e: StoredEvent, ghost x: EventView)
      requires Valid() && i < |view.events| && RowShows(EventRow(e), Reach(), EventRow(x))
      modifies Repr()
      ensures Valid() && view == old(view).(events := old(view).events[i := x])
      ensures Reach() == old(Reach()) && rows.tables.Repr == old(rows.tables.Repr)
    {
      EventSet(view, i, x);
      Write(EventId(i), EventRow(e), EventRow(x), view.(events := view.events[i := x]));
    }

    method AddEvent(n: nat, e: StoredEvent, ghost x: EventView)
      requires Valid() && n == |view.events| && RowShows(EventRow(e), Reach(), EventRow(x))
      modifies Repr()
      ensures Valid() && view == old(view).(events := old(view).events + [x])
      ensures Reach() == old(Reach()) && fresh(Repr() - old(Repr()))
    {
      EventAppended(view, x);
      Add(EventId(n), EventRow(e), EventRow(x), view.(events := view.events + [x]));
    }

    /** The row is marked delivered, with a new time of delivery. */
    method DeliverEvent(i: nat, now: int)
      requires Valid() && i < |view.events|
      modifies Repr()
      ensures Valid() && view == old(view).(events := old(view).events[i := Delivered(old(view).events[i], Some(now))])
      ensures fresh(Reach() - old(Reach())) && rows.tables.Repr == old(rows.tables.Repr)
    {
      var at := NewCell(now);
      var e := GetEvent(i);
      WriteEvent(i, Delivered(e, at), Delivered(view.events[i], Some(now)));
    }

    /** The loop that looks for a stored event with this event id. */
    method AnyEvent(n: nat, eventId: Uuid) returns (found: bool)
      requires Valid() && n == |view.events|
      ensures found <==> HasEvent(view.events, eventId)
    {
      for i := 0 to n
        invariant forall j :: 0 <= j < i ==> view.events[j].eventId != eventId
      {
        var e := GetEvent(i);
        if e.eventId == eventId {
          return true;
        }
      }
      return false;
    }

    /** The loop that looks for the first row with this id. */
    method FindEvent(n: nat, id: Uuid) returns (i: nat)
      requires Valid() && n == |view.events|
      ensures i == FirstWith(view.events, id)
    {
      i := 0;
      while i < n
        invariant i <= n && forall j :: 0 <= j < i ==> view.events[j].id != id
      {
        var e := GetEvent(i);
        if e.id == id {
          return;
        }
        i := i + 1;
      }
    }

    /** Stores a copy of the event; its pointers and its payload are the caller's. */
    method CopyEvent(n: nat, e: StoredEvent, ghost x: EventView)
      requires Valid() && n == |view.events| && Foreign(EventRow(e)) && SeenEvent(e) == x
      modifies Repr()
      ensures Valid() && view == old(view).(events := old(view).events + [x])
      ensures Reach() == old(Reach()) + Targets(EventRow(e)) && fresh(Repr() - old(Repr()))
    {
      Adopt(Targets(EventRow(e)));
      AddEvent(n, e, x);
    }

    method MarkAuditDelivered(n: nat, id: Uuid, now: int) returns (r: Reply)
      requires Valid() && n == |view.events|
      modifies Repr()
      ensures Valid() && (view, r) == DoAudit(old(view), MarkDelivered(id, now))
      ensures fresh(Reach() - old(Reach())) && rows.tables.Repr == old(rows.tables.Repr)
    {
      var i := FindEvent(n, id);
      if i == n {
        return Refused;
      }
      DeliverEvent(i, now);
      return Done;
    }

    // ---------------------------------------------------------------- operations on rows alone

    method PerformWallet(op: WalletOp) returns (r: Reply)
      requires Valid()
      modifies Repr()
      ensures Valid() && (view, r) == DoWallet(old(view), op)
      ensures fresh(Reach() - old(Reach())) && fresh(Repr() - old(Repr()))
    {
      match op {
        case CreateWallet(id, w) =>
          var days := NewPointer(w.rotationDays);
          var receives := NewPointer(w.rotationReceives);
          r := CreateWallet(
            id, Wallet(w.chain, w.kind, w.name, w.state, w.keyId, w.custodian, days, receives), w);
        case UpdateWalletState(id, state) => r := UpdateWalletState(id, state);
      }
    }

    method PerformAddress(op: AddressOp) returns (r: Reply)
      requires Valid()
      modifies Repr()
      ensures Valid() && (view, r) == DoAddress(old(view), op)
      ensures fresh(Reach() - old(Reach())) && fresh(Repr() - old(Repr()))
    {
      match op {
        case InsertAddress(id, a) => r := InsertAddress(id, a);
        case DeprecateAddress(id) => r := DeprecateAddress(id);
        case IncrementReceiveCount(id) => r := IncrementReceiveCount(id);
      }
    }

    method PerformOutpoint(op: OutpointOp) returns (r: Reply)
      requires Valid()
      modifies Repr()
      ensures Valid() && (view, r) == DoOutpoint(old(view), op)
      ensures fresh(Reach() - old(Reach())) && fresh(Repr() - old(Repr()))
    {
      match op {
        case InsertOutpoint(o, u) =>
          var lockedAt := NewPointer(u.lockedAt);
          var spentAt := NewPointer(u.spentAt);
          r := InsertUtxo(
            o, Outpoint(u.wallet, u.value, u.script, u.confirmations, u.lock, lockedAt, spentAt, u.txHash), u);
        case LockOutpoints(ops, now) => r := LockUtxos(ops, now);
        case MarkSpent(ops, txHash, now) => r := MarkUtxosSpent(ops, txHash, now);
        case RestoreOutpoints(ops) => r := RestoreUtxos(ops);
        case PruneOutpoints(ops) => PruneUtxos(ops); r := Done;
      }
    }

    method PerformNonce(op: NonceOp) returns (r: Reply)
      requires Valid()
      modifies Repr()
      ensures Valid() && (view, r) == DoNonce(old(view), op)
      ensures fresh(Reach() - old(Reach())) && fresh(Repr() - old(Repr()))
    {
      match op {
        case UpsertNonce(key, n) => UpsertNonce(key, n); r := Done;
        case IncrementPending(key) => r := IncrementPendingNonce(key);
        case AdvanceBroadcast(key, n) => AdvanceBroadcastNonce(key, n); r := Done;
        case RollbackPending(key, to) => r := RollbackPendingNonce(key, to);
      }
    }

    method PerformFunding(op: FundingOp) returns (r: Reply)
      requires Valid()
      modifies Repr()
      ensures Valid() && (view, r) == DoFunding(old(view), op)
      ensures fresh(Reach() - old(Reach())) && fresh(Repr() - old(Repr()))
    {
      match op {
        case CreateFunding(id, f) => r := CreateFundingRequest(id, f);
        case UpdateFunding(id, state, batch) => r := UpdateFundingState(id, state, batch);
      }
    }

    method PerformOnRows(op: Op) returns (r: Reply)
      requires Valid() && RowsOnly(op)
      modifies Repr()
      ensures Valid() && (view, r) == Do(old(view), op)
      ensures fresh(Reach() - old(Reach())) && fresh(Repr() - old(Repr()))
    {
      match op {
        case OnWallet(o) => r := PerformWallet(o);
        case OnAddress(o) => r := PerformAddress(o);
        case OnOutpoint(o) => r := PerformOutpoint(o);
        case OnNonce(o) => r := PerformNonce(o);
        case OnFunding(o) => r := PerformFunding(o);
        case Get(k) => r := Look(k);
      }
    }

    /** The row under an id with its pointers followed. */
    method Look(k: RowId) returns (r: Reply)
      requires Valid()
      ensures (view, r) == Do(view, Op.Get(k))
    {
      var known := Has(k);
      if !known {
        return Refused;
      }
      var row := Get(k);
      return Found(Followed(row));
    }
  }

  /** Operations that touch no table of values and no list. */
  predicate RowsOnly(op: Op) {
    op.OnWallet? || op.OnAddress? || op.OnOutpoint? || op.OnNonce? || op.OnFunding? || op.Get?
  }

  // ---------------------------------------------------------------- steps of the loops

  /** A pointer to a new cell, or none. */
  method NewPointer<T>(v: Option<T>) returns (p: Cell?<T>)
    ensures Deref(p) == v && fresh(Ptr(p))
  {
    match v {
      case None => p := null;
      case Some(x) => p := new Cell(x);
    }
  }

  /** A new slice, or none. */
  method NewArray<T>(v: Option<seq<T>>) returns (a: array?<T>)
    ensures Elements(a) == v && fresh(Ptr(a))
  {
    match v {
      case None => a := null;
      case Some(x) =>
        a := new T[|x|](i requires 0 <= i < |x| => x[i]);
        assert a[..] == x;
    }
  }

  method NewWithdrawal(x: WithdrawalView) returns (w: StoredWithdrawal)
    ensures SeenWithdrawal(w) == x && fresh(Targets(WithdrawalRow(w)))
  {
    var nonce := NewPointer(x.nonce);
    var outpoints := NewArray(x.outpoints);
    var signed := NewArray(x.signed);
    w := Withdrawal(x.wallet, x.to, x.asset, x.amount, x.state, x.decision, x.reason, x.txHash, nonce, outpoints,
                    signed);
  }

  method NewEvent(x: EventView) returns (e: StoredEvent)
    ensures SeenEvent(e) == x && fresh(Targets(EventRow(e)))
  {
    var wallet := NewPointer(x.wallet);
    var payload := NewArray(x.payload);
    var at := NewPointer(x.deliveredAt);
    e := Event(x.id, x.eventId, wallet, x.kind, payload, x.seqNo, x.delivered, x.attempts, at);
  }

  method CopySlice<T>(a: array?<T>) returns (copy: array?<T>)
    ensures Elements(copy) == old(Elements(a)) && (copy == null <==> a == null) && (copy != null ==> fresh(copy))
  {
    if a == null {
      return null;
    }
    copy := new T[a.Length](i requires 0 <= i < a.Length reads a => a[i]);
    assert copy[..] == a[..];
  }

  lemma AddressesIn(ids: set<RowId>, v: View)
    requires forall k :: k in ids <==> At(v, k).Some?
    ensures (set k | k in ids && k.AddressId? :: k.id) == v.addresses.Keys
  {
    forall id
      ensures id in v.addresses <==> AddressId(id) in ids
    {
      assert At(v, AddressId(id)).Some? <==> id in v.addresses;
    }
    assert forall k :: k in ids && k.AddressId? ==> AddressId(k.id) == k;
  }

  lemma FundingIn(ids: set<RowId>, v: View)
    requires forall k :: k in ids <==> At(v, k).Some?
    ensures (set k | k in ids && k.FundingId? :: k.id) == v.funding.Keys
  {
    forall id
      ensures id in v.funding <==> FundingId(id) in ids
    {
      assert At(v, FundingId(id)).Some? <==> id in v.funding;
    }
    assert forall k :: k in ids && k.FundingId? ==> FundingId(k.id) == k;
  }

  /** The pointers of a change, and the change with them followed. */
  ghost function Pointers(c: ChangeOf<Cell?<int>>): set<object> {
    match c
    case Lock(at) => Ptr(at)
    case Spend(_, at) => Ptr(at)
    case Restore(none) => Ptr(none)
  }

  ghost function SeenChange(c: ChangeOf<Cell?<int>>): ChangeOf<Option<int>>
    reads Pointers(c)
  {
    match c
    case Lock(at) => Lock(Deref(at))
    case Spend(txHash, at) => Spend(txHash, Deref(at))
    case Restore(none) => Restore(Deref(none))
  }

  lemma ChangedShows(u: StoredOutpoint, c: ChangeOf<Cell?<int>>, targets: set<object>, x: OutpointView)
    requires RowShows(OutpointRow(u), targets, OutpointRow(x)) && Pointers(c) <= targets
    ensures RowShows(OutpointRow(Changed(u, c)), targets, OutpointRow(Changed(x, SeenChange(c))))
  {
  }

  lemma RewrittenOne(t: map<string, OutpointView>, ops: seq<string>, i: nat, c: ChangeOf<Option<int>>)
    requires i < |ops|
    ensures ops[i] !in t ==> Rewritten(t, ops[i..], c) == (t, false)
    ensures ops[i] in t ==> Rewritten(t, ops[i..], c) == Rewritten(t[ops[i] := Changed(t[ops[i]], c)], ops[i + 1..], c)
  {
    assert ops[i..][0] == ops[i] && ops[i..][1..] == ops[i + 1..];
  }

  lemma PrunedOne(t: map<string, OutpointView>, ops: seq<string>, i: nat)
    requires i < |ops|
    ensures t - Named(ops[..i]) - {ops[i]} == t - Named(ops[..i + 1])
  {
    assert ops[..i + 1] == ops[..i] + [ops[i]];
  }

  lemma WithKeysSame(v: View, w: Uuid, i: nat)
    requires w in v.keys && i < |v.keys[w]|
    ensures WithKeys(v, w, v.keys[w][i := v.keys[w][i]]) == v
  {
    assert v.keys[w][i := v.keys[w][i]] == v.keys[w];
    assert v.keys[w := v.keys[w]] == v.keys;
  }

  lemma WithKeysTwice(v: View, w: Uuid, ms: seq<KeyMappings.Mapping>, ns: seq<KeyMappings.Mapping>)
    ensures WithKeys(WithKeys(v, w, ms), w, ns) == WithKeys(v, w, ns)
  {
    assert v.keys[w := ms][w := ns] == v.keys[w := ns];
  }

  /** The list with its first `n` entries demoted. */
  ghost function PartlyDemoted(ms: seq<KeyMappings.Mapping>, until: int, n: nat): seq<KeyMappings.Mapping> {
    seq(|ms|, i requires 0 <= i < |ms| => if i < n then KeyMappings.Demote(ms[i], until) else ms[i])
  }

  /** The list with its first `n` entries retired as far as their time is over. */
  ghost function PartlyRetired(ms: seq<KeyMappings.Mapping>, now: int, n: nat): seq<KeyMappings.Mapping> {
    seq(|ms|, i requires 0 <= i < |ms| => if i < n then KeyMappings.Retire(ms[i], now) else ms[i])
  }

  lemma PartsEnd(v: View, w: Uuid, t: int)
    requires w in v.keys
    ensures WithKeys(v, w, PartlyDemoted(v.keys[w], t, 0)) == v == WithKeys(v, w, PartlyRetired(v.keys[w], t, 0))
    ensures PartlyDemoted(v.keys[w], t, |v.keys[w]|) == KeyMappings.Demoted(v.keys[w], t)
    ensures PartlyRetired(v.keys[w], t, |v.keys[w]|) == KeyMappings.Expired(v.keys[w], t)
  {
    assert PartlyDemoted(v.keys[w], t, 0) == v.keys[w] == PartlyRetired(v.keys[w], t, 0);
    assert v.keys[w := v.keys[w]] == v.keys;
  }

  lemma DemoteNext(v: View, w: Uuid, until: int, n: nat)
    requires w in v.keys && n < |v.keys[w]|
    ensures var part := PartlyDemoted(v.keys[w], until, n);
            WithKeys(WithKeys(v, w, part), w, part[n := KeyMappings.Demote(part[n], until)])
            == WithKeys(v, w, PartlyDemoted(v.keys[w], until, n + 1))
  {
    var part := PartlyDemoted(v.keys[w], until, n);
    assert part[n := KeyMappings.Demote(part[n], until)] == PartlyDemoted(v.keys[w], until, n + 1);
    WithKeysTwice(v, w, part, PartlyDemoted(v.keys[w], until, n + 1));
  }

  lemma RetireNext(v: View, w: Uuid, now: int, n: nat)
    requires w in v.keys && n < |v.keys[w]|
    ensures var part := PartlyRetired(v.keys[w], now, n);
            WithKeys(WithKeys(v, w, part), w, part[n := KeyMappings.Retire(part[n], now)])
            == WithKeys(v, w, PartlyRetired(v.keys[w], now, n + 1))
  {
    var part := PartlyRetired(v.keys[w], now, n);
    assert part[n := KeyMappings.Retire(part[n], now)] == PartlyRetired(v.keys[w], now, n + 1);
    WithKeysTwice(v, w, part, PartlyRetired(v.keys[w], now, n + 1));
  }
}
