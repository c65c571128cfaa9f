/**
 The rows of the in-memory store as heap objects. A table holds pointers to rows and a row holds pointers of its
 own; operations write rows in place, or replace a row or a pointer, and never write through a row's pointers.
 A snapshot has a new object for every row and shares what the rows point to.
 */
module StoreRows {
  import opened Prelude
  import opened Rlp
  import opened StoreView

  /** What a pointer to a number, a time or a UUID leads to. */
  class Cell<T> {
    var value: T

    constructor (value: T)
      ensures this.value == value
    {
      this.value := value;
    }
  }

  type StoredWallet = WalletOf<Cell?<int>>
  type StoredOutpoint = OutpointOf<Cell?<int>>
  type StoredWithdrawal = WithdrawalOf<Cell?<int>, array?<string>, array?<byte>>
  type StoredMapping = MappingOf<Cell?<int>>
  type StoredEvent = EventOf<Cell?<int>, Cell?<Uuid>, array?<byte>>

  /** A row as it is stored. */
  type Stored = RowOf<Cell?<int>, Cell?<Uuid>, array?<string>, array?<byte>>

  // ---------------------------------------------------------------- following pointers

  function Deref<T>(p: Cell?<T>): Option<T>
    reads p
  {
    if p == null then None else Some(p.value)
  }

  function Elements<T>(a: array?<T>): Option<seq<T>>
    reads a
  {
    if a == null then None else Some(a[..])
  }

  function SeenWallet(w: StoredWallet): WalletView
    reads w.rotationDays, w.rotationReceives
  {
    Wallet(w.chain, w.kind, w.name, w.state, w.keyId, w.custodian, Deref(w.rotationDays), Deref(w.rotationReceives))
  }

  function SeenOutpoint(u: StoredOutpoint): OutpointView
    reads u.lockedAt, u.spentAt
  {
    Outpoint(u.wallet, u.value, u.script, u.confirmations, u.lock, Deref(u.lockedAt), Deref(u.spentAt), u.txHash)
  }

  function SeenWithdrawal(w: StoredWithdrawal): WithdrawalView
    reads w.nonce, w.outpoints, w.signed
  {
    Withdrawal(w.wallet, w.to, w.asset, w.amount, w.state, w.decision, w.reason, w.txHash,
               Deref(w.nonce), Elements(w.outpoints), Elements(w.signed))
  }

  function SeenMapping(m: StoredMapping): MappingOf<Option<int>>
    reads m.until
  {
    Mapping(m.key, m.from, Deref(m.until), m.phase)
  }

  function SeenEvent(e: StoredEvent): EventView
    reads e.wallet, e.payload, e.deliveredAt
  {
    Event(e.id, e.eventId, Deref(e.wallet), e.kind, Elements(e.payload), e.seqNo, e.delivered, e.attempts,
          Deref(e.deliveredAt))
  }

  ghost function Ptr(o: object?): set<object> {
    if o == null then {} else {o}
  }

  /** The objects a row points to. */
  ghost function Targets(r: Stored): set<object> {
    match r
    case WalletRow(w) => Ptr(w.rotationDays) + Ptr(w.rotationReceives)
    case AddressRow(_) => {}
    case BalanceRow(_) => {}
    case OutpointRow(u) => Ptr(u.lockedAt) + Ptr(u.spentAt)
    case NonceRow(_) => {}
    case WithdrawalRow(w) => Ptr(w.nonce) + Ptr(w.outpoints) + Ptr(w.signed)
    case MappingRow(m) => Ptr(m.until)
    case FundingRow(_) => {}
    case EventRow(e) => Ptr(e.wallet) + Ptr(e.payload) + Ptr(e.deliveredAt)
  }

  /** A row with its pointers followed. */
  function Followed(r: Stored): RowView
    reads Targets(r)
  {
    match r
    case WalletRow(w) => WalletRow(SeenWallet(w))
    case AddressRow(a) => AddressRow(a)
    case BalanceRow(b) => BalanceRow(b)
    case OutpointRow(u) => OutpointRow(SeenOutpoint(u))
    case NonceRow(n) => NonceRow(n)
    case WithdrawalRow(w) => WithdrawalRow(SeenWithdrawal(w))
    case MappingRow(m) => MappingRow(SeenMapping(m))
    case FundingRow(f) => FundingRow(f)
    case EventRow(e) => EventRow(SeenEvent(e))
  }

  // ---------------------------------------------------------------- tables of rows

  class Row {
    var v: Stored

    constructor (v: Stored)
      ensures this.v == v
    {
      this.v := v;
    }
  }

  type Values = map<RowId, Stored>

  /** The row objects, as one map from table and key: `held` is what they hold, `Repr` the objects themselves. */
  class Tables {
    var rows: map<RowId, Row>
    ghost var held: Values
    ghost var Repr: set<object>

    ghost predicate Valid()
      reads this, Repr
    {
      && this in Repr && rows.Keys == held.Keys
      && (forall k :: k in rows ==> rows[k] in Repr && rows[k].v == held[k])
      && (forall a, b :: a in rows && b in rows && a != b ==> rows[a] != rows[b])
    }

    constructor ()
      ensures Valid() && fresh(Repr) && held == map[]
    {
      rows, held, Repr := map[], map[], {this};
    }

    method Get(k: RowId) returns (r: Stored)
      requires Valid() && k in held
      ensures r == held[k]
    {
      r := rows[k].v;
    }

    /** Puts a new row object under `k`. */
    method Add(k: RowId, r: Stored)
      requires Valid()
      modifies Repr
      ensures Valid() && held == old(held)[k := r]
      ensures old(Repr) <= Repr && fresh(Repr - old(Repr))
    {
      var row := new Row(r);
      rows := rows[k := row];
      held := held[k := r];
      Repr := Repr + {row};
    }

    /** Writes the row under `k` in place. */
    method Write(k: RowId, r: Stored)
      requires Valid() && k in held
      modifies Repr
      ensures Valid() && held == old(held)[k := r] && Repr == old(Repr)
    {
      var row := rows[k];
      row.v := r;
      held := held[k := r];
    }

    method Delete(k: RowId)
      requires Valid()
      modifies Repr
      ensures Valid() && held == old(held) - {k} && Repr == old(Repr)
    {
      rows := rows - {k};
      held := held - {k};
    }

    /** Tables of their own, with a new object for every row. */
    method Copy() returns (c: Tables)
      requires Valid()
      ensures c.Valid() && fresh(c.Repr) && c.held == held
    {
      c := new Tables();
      var todo := rows.Keys;
      while todo != {}
        invariant todo <= rows.Keys && c.held.Keys == rows.Keys - todo
        invariant c.Valid() && fresh(c.Repr)
        invariant forall k :: k in c.held ==> c.held[k] == held[k]
        invariant unchanged(Repr)
        decreases todo
      {
        var k :| k in todo;
        c.Add(k, rows[k].v);
        todo := todo - {k};
      }
      assert c.held == held;
    }
  }

  // ---------------------------------------------------------------- what the rows show

  ghost predicate RowShows(r: Stored, targets: set<object>, x: RowView)
    reads targets
  {
    Targets(r) <= targets && Followed(r) == x
  }

  /** Rows with pointers into `targets` show `seen`. */
  ghost predicate Show(held: Values, targets: set<object>, seen: map<RowId, RowView>)
    reads targets
  {
    && held.Keys == seen.Keys
    && forall k {:trigger RowShows(held[k], targets, seen[k])} :: k in held ==> RowShows(held[k], targets, seen[k])
  }

  lemma ShowSet(held: Values, targets: set<object>, seen: map<RowId, RowView>, k: RowId, r: Stored)
    requires Show(held, targets, seen) && Targets(r) <= targets
    ensures Show(held[k := r], targets, seen[k := Followed(r)])
  {
  }

  lemma ShowDropped(held: Values, targets: set<object>, seen: map<RowId, RowView>, k: RowId)
    requires Show(held, targets, seen)
    ensures Show(held - {k}, targets, seen - {k})
  {
  }

  lemma ShowMore(held: Values, targets: set<object>, seen: map<RowId, RowView>, more: set<object>)
    requires Show(held, targets, seen)
    ensures Show(held, targets + more, seen)
  {
    forall k | k in held
      ensures RowShows(held[k], targets + more, seen[k])
    {
      assert RowShows(held[k], targets, seen[k]);
    }
  }

  /** Rows with pointers: `seen` is what they show, `targets` the objects their pointers may lead to. */
  class RowStore {
    const tables: Tables
    ghost var seen: map<RowId, RowView>
    ghost var targets: set<object>

    /** The objects that belong to the rows. */
    ghost function Repr(): set<object>
      reads this, tables
    {
      {this} + tables.Repr
    }

    ghost predicate Valid()
      reads this, tables, tables.Repr, targets
    {
      tables.Valid() && this !in tables.Repr && targets !! Repr() && Show(tables.held, targets, seen)
    }

    constructor ()
      ensures Valid() && fresh(Repr()) && seen == map[] && targets == {}
    {
      tables := new Tables();
      seen, targets := map[], {};
    }

    constructor Of(tables: Tables, ghost targets: set<object>, ghost seen: map<RowId, RowView>)
      requires tables.Valid() && targets !! tables.Repr && Show(tables.held, targets, seen)
      ensures Valid() && fresh(this) && this.tables == tables && this.seen == seen && this.targets == targets
    {
      this.tables, this.targets, this.seen := tables, targets, seen;
    }

    method Has(k: RowId) returns (yes: bool)
      requires Valid()
      ensures yes <==> k in seen
    {
      yes := k in tables.rows;
    }

    method AllIds() returns (ids: set<RowId>)
      requires Valid()
      ensures ids == seen.Keys
    {
      ids := tables.rows.Keys;
    }

    method Get(k: RowId) returns (r: Stored)
      requires Valid() && k in seen
      ensures Targets(r) <= targets && Followed(r) == seen[k]
    {
      r := tables.Get(k);
      assert RowShows(tables.held[k], targets, seen[k]);
    }

    /** Puts a new row object under `k`. */
    method Add(k: RowId, r: Stored, ghost x: RowView)
      requires Valid() && RowShows(r, targets, x)
      modifies Repr()
      ensures Valid() && seen == old(seen)[k := x] && targets == old(targets)
      ensures fresh(Repr() - old(Repr()))
    {
      ShowSet(tables.held, targets, seen, k, r);
      seen := seen[k := x];
      tables.Add(k, r);
    }

    /** Writes the row under `k` in place. */
    method Write(k: RowId, r: Stored, ghost x: RowView)
      requires Valid() && k in seen && RowShows(r, targets, x)
      modifies Repr()
      ensures Valid() && seen == old(seen)[k := x] && targets == old(targets)
      ensures tables.Repr == old(tables.Repr)
    {
      ShowSet(tables.held, targets, seen, k, r);
      seen := seen[k := x];
      tables.Write(k, r);
    }

    method Delete(k: RowId)
      requires Valid()
      modifies Repr()
      ensures Valid() && seen == old(seen) - {k} && targets == old(targets)
      ensures tables.Repr == old(tables.Repr)
    {
      ShowDropped(tables.held, targets, seen, k);
      seen := seen - {k};
      tables.Delete(k);
    }

    /** Row pointers may lead to these objects from now on. */
    ghost method Adopt(more: set<object>)
      requires Valid() && more !! Repr()
      modifies this
      ensures Valid() && seen == old(seen) && targets == old(targets) + more && Repr() == old(Repr())
    {
      ShowMore(tables.held, targets, seen, more);
      targets := targets + more;
    }

    /** Rows of their own, with a new object for every row and the same pointers in it. */
    method Snapshot() returns (c: RowStore)
      requires Valid()
      ensures c.Valid() && fresh(c.Repr()) && c.seen == seen && c.targets == targets
    {
      var t := tables.Copy();
      c := new RowStore.Of(t, targets, seen);
    }
  }

  // ---------------------------------------------------------------- the rows of a view

  /** The rows are those of the view. */
  ghost predicate Lists(seen: map<RowId, RowView>, v: View) {
    forall k {:trigger At(v, k)} :: At(v, k) == if k in seen then Some(seen[k]) else None
  }

  /** `v'` differs from `v` in the row under `k0` and in no other row. */
  ghost predicate Changes(v: View, v': View, k0: RowId, x: Option<RowView>) {
    forall k :: At(v', k) == if k == k0 then x else At(v, k)
  }

  lemma ListsSet(seen: map<RowId, RowView>, v: View, v': View, k: RowId, x: RowView)
    requires Lists(seen, v) && Changes(v, v', k, Some(x))
    ensures Lists(seen[k := x], v')
  {
  }

  lemma ListsDropped(seen: map<RowId, RowView>, v: View, v': View, k: RowId)
    requires Lists(seen, v) && Changes(v, v', k, None)
    ensures Lists(seen - {k}, v')
  {
  }

  ghost predicate SameRows(v: View, v': View) {
    forall k :: At(v', k) == At(v, k)
  }

  lemma ListsSame(seen: map<RowId, RowView>, v: View, v': View)
    requires Lists(seen, v) && SameRows(v, v')
    ensures Lists(seen, v')
  {
  }
}
