/**
 The in-memory store and its transactions: the tables with the values kept beside them, every operation that
 changes the store, and InTx, which copies every row before an outermost body runs and puts the copies back when
 the body fails.
 */
module TxStore {
  import opened Prelude
  import opened Rlp
  import opened StoreView
  import opened StoreRows
  import opened StoreTables
  import opened TxBodies
  import KeyMappings

  /** The tables that hold values, and the lengths of the lists. */
  datatype Values = Values(
    mappings: map<Uuid, nat>, events: nat, balanceEvents: set<string>, auditSeq: map<Uuid, int>, inflight: set<string>)

  ghost predicate ValuesShow(s: Values, v: View) {
    && s.mappings.Keys == v.keys.Keys && (forall w :: w in v.keys ==> s.mappings[w] == |v.keys[w]|)
    && s.events == |v.events| && s.balanceEvents == v.balanceEvents && s.auditSeq == v.auditSeq
    && s.inflight == v.inflight
  }

  /** A list replaced by another one. */
  lemma LengthSet(s: Values, v: View, w: Uuid, ms: seq<KeyMappings.Mapping>)
    requires ValuesShow(s, v)
    ensures ValuesShow(s.(mappings := s.mappings[w := |ms|]), WithKeys(v, w, ms))
    ensures w in v.keys && |ms| == |v.keys[w]| ==> ValuesShow(s, WithKeys(v, w, ms))
  {
  }

  /** Views that differ in value tables only have the same rows. */
  lemma ValuesAside(v: View, v': View)
    requires v' == v.(balanceEvents := v'.balanceEvents, auditSeq := v'.auditSeq, inflight := v'.inflight)
    ensures SameRows(v, v')
  {
  }

  ghost predicate SameValues(v: View, v': View) {
    && v'.keys == v.keys && v'.events == v.events && v'.balanceEvents == v.balanceEvents
    && v'.auditSeq == v.auditSeq && v'.inflight == v.inflight
  }

  lemma WalletsAside(v: View, op: WalletOp)
    ensures SameValues(v, DoWallet(v, op).0)
  {
  }

  lemma AddressesAside(v: View, op: AddressOp)
    ensures SameValues(v, DoAddress(v, op).0)
  {
  }

  lemma OutpointsAside(v: View, op: OutpointOp)
    ensures SameValues(v, DoOutpoint(v, op).0)
  {
    match op
    case InsertOutpoint(_, _) =>
    case LockOutpoints(ops, now) => assert DoOutpoint(v, op).0 == v.(outpoints := DoOutpoint(v, op).0.outpoints);
    case MarkSpent(ops, txHash, now) =>
    case RestoreOutpoints(ops) =>
    case PruneOutpoints(ops) =>
  }

  lemma NoncesAside(v: View, op: NonceOp)
    ensures SameValues(v, DoNonce(v, op).0)
  {
  }

  lemma FundingAside(v: View, op: FundingOp)
    ensures SameValues(v, DoFunding(v, op).0)
  {
  }

  /** Operations on rows alone leave the values as they are. */
  lemma RowsAside(v: View, v': View, op: Op)
    requires RowsOnly(op) && v' == Do(v, op).0
    ensures SameValues(v, v')
  {
    match op
    case OnWallet(o) => WalletsAside(v, o);
    case OnAddress(o) => AddressesAside(v, o);
    case OnOutpoint(o) => OutpointsAside(v, o);
    case OnNonce(o) => NoncesAside(v, o);
    case OnFunding(o) => FundingAside(v, o);
    case Get(k) =>
  }

  /** The copies a transaction falls back on. */
  datatype Snapshot = Snapshot(rows: ViewedRows, values: Values)

  class Store {
    var rows: ViewedRows
    var mappings: map<Uuid, nat>
    var events: nat
    var balanceEvents: set<string>
    var auditSeq: map<Uuid, int>
    var inflight: set<string>
    var depth: nat

    ghost function Held(): Values
      reads this
    {
      Values(mappings, events, balanceEvents, auditSeq, inflight)
    }

    /** A reader of the store sees exactly `rows.view`. */
    ghost predicate Valid()
      reads this, rows, rows.rows, rows.rows.tables, rows.rows.tables.Repr, rows.rows.targets
    {
      rows.Valid() && this !in rows.Repr() && this !in rows.Reach() && ValuesShow(Held(), rows.view)
    }

    constructor ()
      ensures Valid() && fresh(rows.Repr()) && rows.view == EMPTY && depth == 0
    {
      rows := new ViewedRows();
      mappings, events, balanceEvents, auditSeq, inflight, depth := map[], 0, {}, map[], {}, 0;
    }

    // ---------------------------------------------------------------- operations on values beside the rows

    method RecordBalanceEvent(key: string) returns (r: Reply)
      requires Valid()
      modifies `balanceEvents, rows
      ensures Valid() && (rows.view, r) == DoBalance(old(rows.view), BalanceOp.RecordBalanceEvent(key))
      ensures rows.Reach() == old(rows.Reach()) && rows.Repr() == old(rows.Repr())
    {
      if key in balanceEvents {
        return Refused;
      }
      ghost var next := rows.view.(balanceEvents := rows.view.balanceEvents + {key});
      ValuesAside(rows.view, next);
      balanceEvents := balanceEvents + {key};
      rows.Note(next);
      return Done;
    }

    method NextAuditSeq(w: Uuid) returns (r: Reply)
      requires Valid()
      modifies `auditSeq, rows
      ensures Valid() && (rows.view, r) == DoAudit(old(rows.view), NextSeq(w))
      ensures rows.Reach() == old(rows.Reach()) && rows.Repr() == old(rows.Repr())
    {
      var n := SeqOf(auditSeq, w) + 1;
      ghost var next := rows.view.(auditSeq := rows.view.auditSeq[w := n]);
      ValuesAside(rows.view, next);
      auditSeq := auditSeq[w := n];
      rows.Note(next);
      return Number(n);
    }

    method SetInflight(keys: set<string>)
      requires Valid()
      modifies `inflight, rows
      ensures Valid() && rows.view == old(rows.view).(inflight := keys)
      ensures rows.Reach() == old(rows.Reach()) && rows.Repr() == old(rows.Repr())
    {
      ghost var next := rows.view.(inflight := keys);
      ValuesAside(rows.view, next);
      inflight := keys;
      rows.Note(next);
    }

    // ---------------------------------------------------------------- withdrawals

    /** Refused for a known id and while an equal request is in flight. */
    method CreateWithdrawal(id: Uuid, w: StoredWithdrawal, ghost x: WithdrawalView) returns (r: Reply)
      requires Valid() && rows.Foreign(WithdrawalRow(w)) && this !in Targets(WithdrawalRow(w)) && SeenWithdrawal(w) == x
      modifies `inflight, rows.Repr()
      ensures Valid() && (rows.view, r) == DoWithdrawal(old(rows.view), WithdrawalOp.CreateWithdrawal(id, x))
      ensures fresh(rows.Reach() - old(rows.Reach()) - Ptr(w.nonce)) && fresh(rows.Repr() - old(rows.Repr()))
    {
      var taken := rows.Has(WithdrawalId(id));
      if taken || DedupKey(w) in inflight {
        return Refused;
      }
      ghost var next := WithWithdrawal(rows.view, id, x);
      rows.CopyWithdrawal(id, w, x);
      assert Valid() && rows.view == next;
      SetInflight(inflight + {DedupKey(w)});
      return Done;
    }

    /** A terminal state takes the request out of flight; empty texts leave the stored ones in place. */
    method UpdateWithdrawalState(id: Uuid, state: string, reason: string, txHash: string, decision: string)
      returns (r: Reply)
      requires Valid()
      modifies `inflight, rows.Repr()
      ensures Valid()
      ensures (rows.view, r) == DoWithdrawal(old(rows.view), UpdateState(id, state, reason, txHash, decision))
      ensures rows.Reach() == old(rows.Reach()) && rows.rows.tables.Repr == old(rows.rows.tables.Repr)
    {
      var known := rows.Has(WithdrawalId(id));
      if !known {
        return Refused;
      }
      var w := rows.GetWithdrawal(id);
      ghost var x := InState(rows.view.withdrawals[id], state, reason, txHash, decision);
      ghost var next := WithWithdrawal(rows.view, id, x);
      rows.WriteWithdrawal(id, InState(w, state, reason, txHash, decision), x);
      assert Valid() && rows.view == next;
      SetInflight(if Terminal(state) then inflight - {DedupKey(w)} else inflight);
      return Done;
    }

    // ---------------------------------------------------------------- key mappings

    method SetLength(w: Uuid, n: nat, ghost was: View, ghost ms: seq<KeyMappings.Mapping>)
      requires rows.Valid() && this !in rows.Repr() && this !in rows.Reach()
      requires ValuesShow(Held(), was) && rows.view == WithKeys(was, w, ms) && n == |ms|
      modifies `mappings
      ensures Valid()
    {
      LengthSet(Held(), was, w, ms);
      mappings := mappings[w := n];
    }

    /** A wallet without mappings gets an empty list. */
    method OpenList(w: Uuid) returns (n: nat)
      requires Valid()
      modifies `mappings, rows
      ensures Valid() && rows.view == WithKeys(old(rows.view), w, KeysOf(old(rows.view).keys, w))
      ensures w in rows.view.keys && n == |rows.view.keys[w]|
      ensures rows.Reach() == old(rows.Reach()) && rows.Repr() == old(rows.Repr())
    {
      ghost var was := rows.view;
      if w in mappings {
        assert was.keys[w := was.keys[w]] == was.keys;
        return mappings[w];
      }
      ListOpened(was, w);
      rows.Note(WithKeys(was, w, []));
      SetLength(w, 0, was, []);
      return 0;
    }

    /** Refused only when both the new mapping and a stored one are current. */
    method BindKeyMapping(w: Uuid, m: StoredMapping, ghost x: KeyMappings.Mapping) returns (r: Reply)
      requires Valid() && rows.Foreign(MappingRow(m)) && this !in Targets(MappingRow(m)) && SeenMapping(m) == AsRow(x)
      modifies `mappings, rows.Repr()
      ensures Valid() && (rows.view, r) == DoKey(old(rows.view), BindKey(w, x))
      ensures rows.Reach() <= old(rows.Reach()) + Targets(MappingRow(m)) && fresh(rows.Repr() - old(rows.Repr()))
    {
      var taken := false;
      if w in mappings {
        taken := rows.AnyCurrent(w, mappings[w]);
      }
      assert taken <==> KeyMappings.HasCurrent(KeysOf(rows.view.keys, w));
      if taken && m.phase.Current? {
        return Refused;
      }
      AppendKey(w, m, x);
      return Done;
    }

    method AppendKey(w: Uuid, m: StoredMapping, ghost x: KeyMappings.Mapping)
      requires Valid() && rows.Foreign(MappingRow(m)) && this !in Targets(MappingRow(m)) && SeenMapping(m) == AsRow(x)
      modifies `mappings, rows.Repr()
      ensures Valid() && rows.view == WithKeys(old(rows.view), w, KeysOf(old(rows.view).keys, w) + [x])
      ensures rows.Reach() <= old(rows.Reach()) + Targets(MappingRow(m)) && fresh(rows.Repr() - old(rows.Repr()))
    {
      ghost var ms := KeysOf(rows.view.keys, w);
      WithKeysTwice(rows.view, w, ms, ms + [x]);
      var n := OpenList(w);
      ghost var was := rows.view;
      rows.Adopt(Targets(MappingRow(m)));
      rows.AppendMapping(w, n, m, x);
      SetLength(w, n + 1, was, ms + [x]);
    }

    /** The first half of a rotation: whatever is current starts cooling. */
    method CoolKeys(w: Uuid, until: int) returns (n: nat)
      requires Valid()
      modifies `mappings, rows.Repr()
      ensures Valid()
      ensures rows.view == WithKeys(old(rows.view), w, KeyMappings.Demoted(KeysOf(old(rows.view).keys, w), until))
      ensures w in rows.view.keys && n == |rows.view.keys[w]|
      ensures fresh(rows.Reach() - old(rows.Reach())) && rows.rows.tables.Repr == old(rows.rows.tables.Repr)
    {
      ghost var ms := KeysOf(rows.view.keys, w);
      ghost var cooled := KeyMappings.Demoted(ms, until);
      WithKeysTwice(rows.view, w, ms, cooled);
      n := OpenList(w);
      ghost var was := rows.view;
      var at := rows.NewCell(until);
      rows.DemoteAll(w, n, at, until);
      LengthSet(Held(), was, w, cooled);
    }

    /** A rotation: the current key starts cooling and another one becomes current. */
    method RotateKeyMapping(w: Uuid, key: string, now: int, cooling: int)
      requires Valid()
      modifies `mappings, rows.Repr()
      ensures Valid() && rows.view == DoKey(old(rows.view), RotateKey(w, key, now, cooling)).0
      ensures fresh(rows.Reach() - old(rows.Reach())) && fresh(rows.Repr() - old(rows.Repr()))
    {
      RotatedInHalves(rows.view, w, key, now, cooling);
      var n := CoolKeys(w, now + cooling);
      PromoteKey(w, n, key, now);
    }

    /** The second half: the mapping of the key becomes current, or is appended. */
    method PromoteKey(w: Uuid, n: nat, key: string, now: int)
      requires Valid() && w in rows.view.keys && n == |rows.view.keys[w]|
      modifies `mappings, rows.Repr()
      ensures Valid()
              && rows.view == WithKeys(old(rows.view), w, KeyMappings.Promoted(old(rows.view).keys[w], key, now))
      ensures rows.Reach() == old(rows.Reach()) && fresh(rows.Repr() - old(rows.Repr()))
    {
      ghost var was := rows.view;
      var n' := rows.Promote(w, n, key, now);
      SetLength(w, n', was, KeyMappings.Promoted(was.keys[w], key, now));
    }

    method RetireKeys(w: Uuid, now: int)
      requires Valid() && w in rows.view.keys
      modifies rows.Repr()
      ensures Valid() && rows.view == WithKeys(old(rows.view), w, KeyMappings.Expired(old(rows.view).keys[w], now))
      ensures rows.Reach() == old(rows.Reach()) && rows.rows.tables.Repr == old(rows.rows.tables.Repr)
    {
      LengthSet(Held(), rows.view, w, KeyMappings.Expired(rows.view.keys[w], now));
      rows.RetireAll(w, mappings[w], now);
    }

    method ExpireCooling(now: int)
      requires Valid()
      modifies rows.Repr()
      ensures Valid() && rows.view == DoKey(old(rows.view), ExpireKeys(now)).0
      ensures rows.Reach() == old(rows.Reach()) && rows.rows.tables.Repr == old(rows.rows.tables.Repr)
    {
      ghost var was := rows.view;
      var todo := mappings.Keys;
      assert PartlyExpired(was.keys, todo, now) == was.keys;
      while todo != {}
        invariant todo <= was.keys.Keys
        invariant Valid() && rows.view == was.(keys := PartlyExpired(was.keys, todo, now))
        invariant rows.Reach() == old(rows.Reach()) && rows.rows.tables.Repr == old(rows.rows.tables.Repr)
        decreases todo
      {
        var w :| w in todo;
        PartlyExpiredNext(was, todo, now, w);
        RetireKeys(w, now);
        todo := todo - {w};
      }
      assert PartlyExpired(was.keys, {}, now) == ExpiredAll(was.keys, now);
    }

    /** Resolution: copies of the active mappings, in order of their start times; none is an error. */
    method ResolveActiveKey(w: Uuid) returns (out: Option<seq<KeyMappings.Mapping>>)
      requires Valid()
      ensures out.Some? ==> out.value != [] && KeyMappings.IsResolution(KeysOf(rows.view.keys, w), out.value)
      ensures out.None? <==> forall m :: m in KeysOf(rows.view.keys, w) ==> !KeyMappings.Active(m)
    {
      if w !in mappings {
        return None;
      }
      var found := rows.Resolve(w, mappings[w]);
      KeyMappings.ResolutionMembers(rows.view.keys[w], found);
      if found == [] {
        return None;
      }
      assert found[0] in found;
      return Some(found);
    }

    /** The key id handed to signing: that of an active mapping with the earliest start. */
    method ResolveActiveKeyID(w: Uuid) returns (r: Option<string>)
      requires Valid()
      ensures r.None? <==> forall m :: m in KeysOf(rows.view.keys, w) ==> !KeyMappings.Active(m)
      ensures r.Some? ==>
                exists m :: m in KeysOf(rows.view.keys, w) && KeyMappings.Active(m) && m.key == r.value
                            && forall k :: k in KeysOf(rows.view.keys, w) && KeyMappings.Active(k) ==> m.from <= k.from
    {
      var out := ResolveActiveKey(w);
      if out.None? {
        return None;
      }
      KeyMappings.ResolutionMembers(KeysOf(rows.view.keys, w), out.value);
      assert out.value[0] in out.value;
      forall k | k in KeysOf(rows.view.keys, w) && KeyMappings.Active(k)
        ensures out.value[0].from <= k.from
      {
        assert k in out.value;
      }
      return Some(out.value[0].key);
    }

    // ---------------------------------------------------------------- audit events

    /** Refused for a known event id; otherwise stored with the caller's pointers and payload. */
    method AppendAuditEvent(e: StoredEvent, ghost x: EventView) returns (r: Reply)
      requires Valid() && rows.Foreign(EventRow(e)) && this !in Targets(EventRow(e)) && SeenEvent(e) == x
      modifies `events, rows.Repr()
      ensures Valid() && (rows.view, r) == DoAudit(old(rows.view), AppendEvent(x))
      ensures rows.Reach() <= old(rows.Reach()) + Targets(EventRow(e)) && fresh(rows.Repr() - old(rows.Repr()))
    {
      var taken := rows.AnyEvent(events, e.eventId);
      if taken {
        return Refused;
      }
      rows.CopyEvent(events, e, x);
      events := events + 1;
      return Done;
    }

    // ---------------------------------------------------------------- one operation of a transaction body

    method PerformBalance(op: BalanceOp) returns (r: Reply)
      requires Valid()
      modifies `balanceEvents, rows.Repr()
      ensures Valid() && (rows.view, r) == DoBalance(old(rows.view), op)
      ensures fresh(rows.Reach() - old(rows.Reach())) && fresh(rows.Repr() - old(rows.Repr()))
    {
      match op {
        case UpsertBalance(b) => rows.UpsertBalance(b); r := Done;
        case RecordBalanceEvent(key) => r := RecordBalanceEvent(key);
      }
    }

    method PerformCreate(id: Uuid, w: WithdrawalView) returns (r: Reply)
      requires Valid()
      modifies `inflight, rows.Repr()
      ensures Valid() && (rows.view, r) == DoWithdrawal(old(rows.view), WithdrawalOp.CreateWithdrawal(id, w))
      ensures fresh(rows.Reach() - old(rows.Reach())) && fresh(rows.Repr() - old(rows.Repr()))
    {
      var row := NewWithdrawal(w);
      r := CreateWithdrawal(id, row, w);
    }

    method PerformWithdrawal(op: WithdrawalOp) returns (r: Reply)
      requires Valid()
      modifies `inflight, rows.Repr()
      ensures Valid() && (rows.view, r) == DoWithdrawal(old(rows.view), op)
      ensures fresh(rows.Reach() - old(rows.Reach())) && fresh(rows.Repr() - old(rows.Repr()))
    {
      match op {
        case CreateWithdrawal(id, w) => r := PerformCreate(id, w);
        case UpdateState(id, state, reason, txHash, decision) =>
          r := UpdateWithdrawalState(id, state, reason, txHash, decision);
        case UpdateNonce(id, n) => r := rows.UpdateWithdrawalNonce(id, n);
        case UpdateOutpoints(id, ops) =>
          var a := NewArray(Some(ops));
          r := rows.UpdateWithdrawalOutpoints(id, a);
        case UpdateSigned(id, bytes) =>
          var a := NewArray(Some(bytes));
          r := rows.UpdateWithdrawalSignedTx(id, a);
      }
    }

    method PerformKey(op: KeyOp) returns (r: Reply)
      requires Valid()
      modifies `mappings, rows.Repr()
      ensures Valid() && (rows.view, r) == DoKey(old(rows.view), op)
      ensures fresh(rows.Reach() - old(rows.Reach())) && fresh(rows.Repr() - old(rows.Repr()))
    {
      match op {
        case BindKey(w, m) =>
          var until := NewPointer(m.until);
          r := BindKeyMapping(w, Mapping(m.key, m.from, until, m.phase), m);
        case RotateKey(w, key, now, cooling) => RotateKeyMapping(w, key, now, cooling); r := Done;
        case ExpireKeys(now) => ExpireCooling(now); r := Done;
      }
    }

    method PerformAppend(e: EventView) returns (r: Reply)
      requires Valid()
      modifies `events, rows.Repr()
      ensures Valid() && (rows.view, r) == DoAudit(old(rows.view), AppendEvent(e))
      ensures fresh(rows.Reach() - old(rows.Reach())) && fresh(rows.Repr() - old(rows.Repr()))
    {
      var row := NewEvent(e);
      r := AppendAuditEvent(row, e);
    }

    method PerformAudit(op: AuditOp) returns (r: Reply)
      requires Valid()
      modifies `events, `auditSeq, rows.Repr()
      ensures Valid() && (rows.view, r) == DoAudit(old(rows.view), op)
      ensures fresh(rows.Reach() - old(rows.Reach())) && fresh(rows.Repr() - old(rows.Repr()))
    {
      match op {
        case AppendEvent(e) => r := PerformAppend(e);
        case MarkDelivered(id, now) => r := rows.MarkAuditDelivered(events, id, now);
        case NextSeq(w) => r := NextAuditSeq(w);
      }
    }

    /** Runs one operation of a transaction body. */
    method Perform(op: Op) returns (r: Reply)
      requires Valid()
      modifies this, rows.Repr()
      ensures Valid() && (rows.view, r) == Do(old(rows.view), op) && rows == old(rows) && depth == old(depth)
      ensures fresh(rows.Reach() - old(rows.Reach())) && fresh(rows.Repr() - old(rows.Repr()))
    {
      match op {
        case OnBalance(o) => r := PerformBalance(o);
        case OnWithdrawal(o) => r := PerformWithdrawal(o);
        case OnKey(o) => r := PerformKey(o);
        case OnAudit(o) => r := PerformAudit(o);
        case _ =>
          RowsAside(rows.view, Do(rows.view, op).0, op);
          r := rows.PerformOnRows(op);
      }
    }

    // ---------------------------------------------------------------- transactions

    /** Runs a transaction body; a nested transaction is a call of InTx at depth above zero. */
    method Run(b: Body, seen: seq<Reply>) returns (replies: seq<Reply>, ok: bool)
      requires Valid() && depth > 0
      modifies this, rows.Repr()
      ensures Valid() && Ran(rows.view, replies, ok) == Eval(old(rows.view), seen, b)
      ensures rows == old(rows) && depth == old(depth)
      ensures fresh(rows.Reach() - old(rows.Reach())) && fresh(rows.Repr() - old(rows.Repr()))
      decreases b, 0, 0
    {
      match b {
        case Return(f) => replies, ok := seen, f(seen);
        case Call(op, rest) =>
          var r := Perform(op(seen));
          replies, ok := Run(rest, seen + [r]);
        case Branch(test, yes, no) => replies, ok := Run(if test(seen) then yes else no, seen);
        case Nested(body, good, bad) =>
          replies, ok := InTx(body, seen);
          replies, ok := Run(if ok then good else bad, replies);
      }
    }

    /**
     The transaction: at depth zero it copies every row first and puts the copies back when the body
     fails; deeper down it just runs the body.
     */
    method InTx(b: Body, seen: seq<Reply>) returns (replies: seq<Reply>, ok: bool)
      requires Valid()
      modifies this, rows.Repr()
      ensures Valid()
      ensures old(depth) > 0 ==> Ran(rows.view, replies, ok) == Eval(old(rows.view), seen, b) && rows == old(rows)
      ensures old(depth) == 0 ==> Ran(rows.view, replies, ok) == Atomic(old(rows.view), seen, b)
      ensures depth == old(depth)
      ensures fresh(rows.Reach() - old(rows.Reach())) && fresh(rows.Repr() - old(rows.Repr()))
      decreases b, 1, 0
    {
      var outer := depth;
      depth := depth + 1;
      if outer > 0 {
        replies, ok := Run(b, seen);
      } else {
        replies, ok := RunOrRestore(b, seen);
      }
      depth := outer;
    }

    method RunOrRestore(b: Body, seen: seq<Reply>) returns (replies: seq<Reply>, ok: bool)
      requires Valid() && depth > 0
      modifies this, rows.Repr()
      ensures Valid() && Ran(rows.view, replies, ok) == Atomic(old(rows.view), seen, b) && depth == old(depth)
      ensures fresh(rows.Reach() - old(rows.Reach())) && fresh(rows.Repr() - old(rows.Repr()))
      decreases b, 0, 1
    {
      var snap := TakeSnapshot();
      replies, ok := Run(b, seen);
      if !ok {
        Restore(snap);
      }
    }

    /** A copy of every row and of the value tables; what the rows point to is shared. */
    method TakeSnapshot() returns (snap: Snapshot)
      requires Valid()
      ensures snap.rows.Valid() && fresh(snap.rows.Repr()) && snap.rows.Reach() == rows.Reach()
      ensures snap.rows.view == rows.view && ValuesShow(snap.values, rows.view)
    {
      var copy := rows.Snapshot();
      snap := Snapshot(copy, Values(mappings, events, balanceEvents, auditSeq, inflight));
    }

    /** The store shows again what it showed when the copies were taken. */
    method Restore(snap: Snapshot)
      requires snap.rows.Valid() && this !in snap.rows.Repr() && this !in snap.rows.Reach()
      requires ValuesShow(snap.values, snap.rows.view)
      modifies this
      ensures Valid() && rows == snap.rows && rows.view == old(snap.rows.view) && depth == old(depth)
    {
      rows, mappings, events := snap.rows, snap.values.mappings, snap.values.events;
      balanceEvents, auditSeq, inflight := snap.values.balanceEvents, snap.values.auditSeq, snap.values.inflight;
      assert Held() == snap.values;
    }
  }

  lemma RotatedInHalves(v: View, w: Uuid, key: string, now: int, cooling: int)
    ensures var cooled := WithKeys(v, w, KeyMappings.Demoted(KeysOf(v.keys, w), now + cooling));
            WithKeys(cooled, w, KeyMappings.Promoted(cooled.keys[w], key, now))
            == DoKey(v, RotateKey(w, key, now, cooling)).0
  {
    var cooled := KeyMappings.Demoted(KeysOf(v.keys, w), now + cooling);
    WithKeysTwice(v, w, cooled, KeyMappings.Promoted(cooled, key, now));
  }

  /** Every wallet outside `todo` has been through the expiry. */
  ghost function PartlyExpired(keys: map<Uuid, seq<KeyMappings.Mapping>>, todo: set<Uuid>, now: int)
    : map<Uuid, seq<KeyMappings.Mapping>>
  {
    map w | w in keys :: if w in todo then keys[w] else KeyMappings.Expired(keys[w], now)
  }

  lemma PartlyExpiredNext(v: View, todo: set<Uuid>, now: int, w: Uuid)
    requires w in todo && w in v.keys
    ensures WithKeys(v.(keys := PartlyExpired(v.keys, todo, now)), w, KeyMappings.Expired(v.keys[w], now))
         == v.(keys := PartlyExpired(v.keys, todo - {w}, now))
  {
    assert PartlyExpired(v.keys, todo, now)[w := KeyMappings.Expired(v.keys[w], now)]
        == PartlyExpired(v.keys, todo - {w}, now);
  }
}
