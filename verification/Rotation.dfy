/**
 Receive addresses under concurrency: any number of callers of CurrentOrRotate and ForceRotate interleave
 at the granularity of store and locker calls. Each wallet has a try-lock; the address table refuses a
 second active address of a wallet.
 */
module Rotation {
  import opened Prelude
  import Sequences
  import StoreView

  // ---------------------------------------------------------------- the process-local locker

  type Locks = map<string, string>

  class MemLocker {
    var locks: Locks

    constructor ()
      ensures locks == map[]
    {
      locks := map[];
    }

    /** Never waits; `newToken` is the new token. */
    method Acquire(name: string, newToken: string) returns (token: Option<string>)
      modifies this
      ensures token.Some? <==> name !in old(locks)
      ensures token.Some? ==> token.value == newToken && locks == old(locks)[name := newToken]
      ensures token.None? ==> locks == old(locks)
    {
      if name in locks {
        return None;
      }
      locks := locks[name := newToken];
      return Some(newToken);
    }

    /** Only the holder's token unlocks. */
    method Release(name: string, token: string)
      modifies this
      ensures locks == if name in old(locks) && old(locks)[name] == token then old(locks) - {name} else old(locks)
    {
      if name in locks && locks[name] == token {
        locks := locks - {name};
      }
    }
  }

  // ---------------------------------------------------------------- the address table

  /** Addresses are known by their position in the order of insertion. */
  datatype Address = Address(wallet: Uuid, active: bool)

  /** Position of the active address of a wallet, or the length of the table. */
  function Find(t: seq<Address>, w: Uuid): (i: nat)
    ensures i <= |t| && (i < |t| ==> t[i] == Address(w, true))
    ensures i == |t| ==> forall j :: 0 <= j < |t| ==> t[j] != Address(w, true)
  {
    Sequences.FirstIndex(t, (a: Address) => a == Address(w, true))
  }

  function GetActive(t: seq<Address>, w: Uuid): Option<nat> {
    var i := Find(t, w);
    if i < |t| then Some(i) else None
  }

  function Deprecate(t: seq<Address>, i: nat): seq<Address> {
    if i < |t| then t[i := t[i].(active := false)] else t
  }

  predicate OneActive(t: seq<Address>) {
    forall i, j :: 0 <= i < j < |t| && t[i].active && t[j].active ==> t[i].wallet != t[j].wallet
  }

  // ---------------------------------------------------------------- callers

  type CallerId = int

  const RETRIES: nat := 20

  datatype Outcome = Got(address: nat) | Failed

  datatype Pc =
    | Look                          // about to read the wallet and its active address
    | TryDerive(i: nat)             // deriveNewLocked, attempt i: about to take the lock
    | Recheck(i: nat)               // the lock was busy: about to look for the winner's address
    | HeldCheck                     // holds the lock: about to look again
    | TryRotate(prev: nat)           // rotate: about to take the lock
    | HeldDeprecate(prev: nat)       // holds the lock: about to deprecate the address read earlier
    | TryForce                      // ForceRotate without an active address: about to take the lock
    | HeldDerive                    // holds the lock: about to derive
    | HeldInsert                    // holds the lock: about to insert
    | Unlock(out: Outcome)
    | Done(out: Outcome)

  /**
   A call, with what its first look found: the size of the table, the address to be replaced, if any, and
   whether a new address is owed (forced, due, or none active).
   */
  datatype Caller = Caller(wallet: Uuid, force: bool, pc: Pc, born: nat, read: Option<nat>, owed: bool)

  datatype State = State(addresses: seq<Address>, lock: map<Uuid, CallerId>, callers: map<CallerId, Caller>)

  const INITIAL: State := State([], map[], map[])

  /**
   `usable`: the wallet exists and is not retired; `due`: its address has aged out or was used too often;
   `derived`: the derivation succeeded; `dropped`: the address a Solana wallet gives up before deriving.
   */
  datatype Step =
    | Begin(c: CallerId, wallet: Uuid, force: bool)
    | Advance(c: CallerId, usable: bool, due: bool, derived: bool, dropped: Option<nat>)

  /** What a step does to the wallet's lock. */
  datatype Grip = Keep | Take | Free

  /** Where a step takes its caller, and what it does to the lock and to the address table. */
  datatype Move = Move(pc: Pc, grip: Grip, addresses: seq<Address>, owed: Option<bool> := None)

  /** Takes the lock and goes on to `held`, or goes on to `otherwise` without it. */
  function Acquire(t: seq<Address>, busy: bool, held: Pc, otherwise: Pc): Move {
    if busy then Move(otherwise, Keep, t) else Move(held, Take, t)
  }

  function AfterLook(t: seq<Address>, k: Caller, usable: bool, due: bool): Pc {
    var a := GetActive(t, k.wallet);
    if !usable then Done(Failed)
    else if a.None? then if k.force then TryForce else TryDerive(0)
    else if k.force || due then TryRotate(a.value)
    else Done(Got(a.value))
  }

  function AfterInsert(t: seq<Address>, w: Uuid): Move {
    if GetActive(t, w).Some? then Move(Unlock(Failed), Keep, t)
    else Move(Unlock(Got(|t|)), Keep, t + [Address(w, true)])
  }

  predicate MayDrop(t: seq<Address>, w: Uuid, dropped: Option<nat>) {
    dropped.Some? ==> dropped.value < |t| && t[dropped.value].wallet == w
  }

  function Next(t: seq<Address>, busy: bool, k: Caller, st: Step): Option<Move>
    requires st.Advance?
  {
    var a := GetActive(t, k.wallet);
    match k.pc
    case Look => Some(Move(AfterLook(t, k, st.usable, st.due), Keep, t, Some(k.force || st.due || a.None?)))
    case TryDerive(i) => Some(if i >= RETRIES then Move(Done(Failed), Keep, t)
                              else Acquire(t, busy, HeldCheck, Recheck(i)))
    case Recheck(i) => Some(Move(if a.Some? then Done(Got(a.value)) else TryDerive(i + 1), Keep, t))
    case HeldCheck => Some(Move(if a.Some? then Unlock(Got(a.value)) else HeldDerive, Keep, t))
    case TryRotate(prev) => Some(Acquire(t, busy, HeldDeprecate(prev), Done(Failed)))
    case HeldDeprecate(prev) => Some(Move(HeldDerive, Keep, Deprecate(t, prev)))
    case TryForce => Some(Acquire(t, busy, HeldDerive, Done(Failed)))
    case HeldDerive =>
      if !MayDrop(t, k.wallet, st.dropped) then None
      else Some(Move(if st.derived then HeldInsert else Unlock(Failed), Keep,
                     if st.dropped.Some? then Deprecate(t, st.dropped.value) else t))
    case HeldInsert => Some(AfterInsert(t, k.wallet))
    case Unlock(out) => Some(Move(Done(out), Free, t))
    case Done(_) => None
  }

  function Gripped(lock: map<Uuid, CallerId>, w: Uuid, c: CallerId, g: Grip): map<Uuid, CallerId> {
    match g
    case Keep => lock
    case Take => lock[w := c]
    case Free => lock - {w}
  }

  function Sent(k: Caller, m: Move): Caller {
    k.(pc := m.pc, read := if m.pc.TryRotate? then Some(m.pc.prev) else k.read,
       born := if m.owed.Some? then |m.addresses| else k.born, owed := if m.owed.Some? then m.owed.value else k.owed)
  }

  function Moved(s: State, c: CallerId, k: Caller, m: Move): State {
    State(m.addresses, Gripped(s.lock, k.wallet, c, m.grip), s.callers[c := Sent(k, m)])
  }

  function Apply(s: State, st: Step): Option<State> {
    match st
    case Begin(c, w, force) =>
      if c in s.callers then None
      else Some(s.(callers := s.callers[c := Caller(w, force, Look, |s.addresses|, None, false)]))
    case Advance(c, _, _, _, _) =>
      if c !in s.callers then None
      else
        var k := s.callers[c];
        match Next(s.addresses, k.wallet in s.lock, k, st)
        case None => None
        case Some(m) => Some(Moved(s, c, k, m))
  }

  function Exec(run: seq<Step>): Option<State> {
    if run == [] then Some(INITIAL)
    else
      match Exec(run[..|run| - 1])
      case None => None
      case Some(s) => Apply(s, run[|run| - 1])
  }

  // ---------------------------------------------------------------- the table and the store

  /** The table lists the store's addresses; `ids` gives the id of each. */
  ghost predicate ListsStored(t: seq<Address>, ids: seq<Uuid>, stored: map<Uuid, StoreView.Address>) {
    && |ids| == |t| && (forall i, j :: 0 <= i < j < |ids| ==> ids[i] != ids[j])
    && (forall id :: id in stored <==> id in ids)
    && (forall i :: 0 <= i < |ids| ==>
          t[i] == Address(stored[ids[i]].wallet, stored[ids[i]].state == StoreView.ACTIVE))
  }

  lemma ActiveIsStored(t: seq<Address>, ids: seq<Uuid>, stored: map<Uuid, StoreView.Address>, w: Uuid)
    requires ListsStored(t, ids, stored)
    ensures GetActive(t, w).Some? <==> StoreView.HasActive(stored, w)
  {
    if GetActive(t, w).Some? {
      assert ids[Find(t, w)] in stored;
    }
    if StoreView.HasActive(stored, w) {
      var id :| id in stored && stored[id].wallet == w && stored[id].state == StoreView.ACTIVE;
      var i :| 0 <= i < |ids| && ids[i] == id;
      assert t[i] == Address(w, true);
    }
  }

  lemma ListsMore(t: seq<Address>, ids: seq<Uuid>, stored: map<Uuid, StoreView.Address>, id: Uuid, a: StoreView.Address)
    requires ListsStored(t, ids, stored) && id !in stored
    ensures ListsStored(t + [Address(a.wallet, a.state == StoreView.ACTIVE)], ids + [id], stored[id := a])
  {
    assert forall i :: 0 <= i < |ids| ==> ids[i] in stored;
  }

  /** A caller's insertion is the store's: accepted by both or refused by both, and the same table afterwards. */
  lemma InsertIsStored(t: seq<Address>, ids: seq<Uuid>, v: StoreView.View, id: Uuid, a: StoreView.Address)
    requires ListsStored(t, ids, v.addresses) && id !in v.addresses && a.state == StoreView.ACTIVE
    ensures var (v', r) := StoreView.DoAddress(v, StoreView.InsertAddress(id, a));
            var m := AfterInsert(t, a.wallet);
            && (r.Done? <==> m.pc == Unlock(Got(|t|))) && (r.Done? || m.pc == Unlock(Failed))
            && ListsStored(m.addresses, if r.Done? then ids + [id] else ids, v'.addresses)
  {
    ActiveIsStored(t, ids, v.addresses, a.wallet);
    ListsMore(t, ids, v.addresses, id, a);
  }

  /** A caller's deprecation is the store's. */
  lemma DeprecateIsStored(t: seq<Address>, ids: seq<Uuid>, v: StoreView.View, i: nat)
    requires ListsStored(t, ids, v.addresses) && i < |t|
    ensures var (v', r) := StoreView.DoAddress(v, StoreView.DeprecateAddress(ids[i]));
            r.Done? && ListsStored(Deprecate(t, i), ids, v'.addresses)
  {
    assert ids[i] in v.addresses;
  }

  // ---------------------------------------------------------------- at most one active address

  lemma TableOneActive(t: seq<Address>, w: Uuid, i: nat)
    requires OneActive(t)
    ensures OneActive(Deprecate(t, i))
    ensures GetActive(t, w).None? ==> OneActive(t + [Address(w, true)])
  {
  }

  lemma NextOneActive(t: seq<Address>, busy: bool, k: Caller, st: Step)
    requires OneActive(t) && st.Advance? && Next(t, busy, k, st).Some?
    ensures OneActive(Next(t, busy, k, st).value.addresses)
  {
    TableOneActive(t, k.wallet, if st.dropped.Some? then st.dropped.value else 0);
    TableOneActive(t, k.wallet, if k.pc.HeldDeprecate? then k.pc.prev else 0);
  }

  /** Whatever the callers do, in whatever order: no reachable state has two active addresses of a wallet. */
  lemma {:induction false} NeverTwoActive(run: seq<Step>)
    requires Exec(run).Some?
    ensures OneActive(Exec(run).value.addresses)
  {
    if run != [] {
      NeverTwoActive(run[..|run| - 1]);
      var s, st := Exec(run[..|run| - 1]).value, run[|run| - 1];
      if st.Advance? {
        var k := s.callers[st.c];
        NextOneActive(s.addresses, k.wallet in s.lock, k, st);
      }
    }
  }

  // ---------------------------------------------------------------- the lock

  predicate Holds(pc: Pc) {
    pc.HeldCheck? || pc.HeldDeprecate? || pc.HeldDerive? || pc.HeldInsert? || pc.Unlock?
  }

  predicate Locked(s: State, c: CallerId, k: Caller) {
    Holds(k.pc) <==> k.wallet in s.lock && s.lock[k.wallet] == c
  }

  ghost predicate LockOk(s: State) {
    && (forall c :: c in s.callers ==> Locked(s, c, s.callers[c]))
    && (forall w :: w in s.lock ==> s.lock[w] in s.callers && s.callers[s.lock[w]].wallet == w)
  }

  /** The lock is taken when it is free and the caller starts to hold, and freed when it stops. */
  predicate GripOk(busy: bool, was: Pc, m: Move) {
    match m.grip
    case Keep => Holds(was) <==> Holds(m.pc)
    case Take => !busy && !Holds(was) && Holds(m.pc)
    case Free => Holds(was) && !Holds(m.pc)
  }

  lemma NextGrips(t: seq<Address>, busy: bool, k: Caller, st: Step)
    requires st.Advance? && Next(t, busy, k, st).Some?
    ensures GripOk(busy, k.pc, Next(t, busy, k, st).value)
  {
  }

  lemma MoveKeepsLock(s: State, c: CallerId, m: Move)
    requires LockOk(s) && c in s.callers && GripOk(s.callers[c].wallet in s.lock, s.callers[c].pc, m)
    ensures LockOk(Moved(s, c, s.callers[c], m))
  {
    var s' := Moved(s, c, s.callers[c], m);
    assert Locked(s, c, s.callers[c]);
    forall d | d in s'.callers
      ensures Locked(s', d, s'.callers[d])
    {
      assert d in s.callers && Locked(s, d, s.callers[d]);
    }
  }

  lemma {:induction false} RunLock(run: seq<Step>)
    requires Exec(run).Some?
    ensures LockOk(Exec(run).value)
  {
    if run != [] {
      RunLock(run[..|run| - 1]);
      var s, st, s' := Exec(run[..|run| - 1]).value, run[|run| - 1], Exec(run).value;
      if st.Advance? {
        var k := s.callers[st.c];
        NextGrips(s.addresses, k.wallet in s.lock, k, st);
        MoveKeepsLock(s, st.c, Next(s.addresses, k.wallet in s.lock, k, st).value);
      } else {
        forall c | c in s'.callers
          ensures Locked(s', c, s'.callers[c])
        {
          if c in s.callers {
            assert Locked(s, c, s.callers[c]);
          }
        }
      }
    }
  }

  /** The per-wallet lock excludes: two callers between lock and unlock work on different wallets. */
  lemma {:induction false} OneHolder(run: seq<Step>, c: CallerId, d: CallerId)
    requires Exec(run).Some?
    requires var s := Exec(run).value;
             c in s.callers && d in s.callers && Holds(s.callers[c].pc) && Holds(s.callers[d].pc)
             && s.callers[c].wallet == s.callers[d].wallet
    ensures c == d
  {
    RunLock(run);
    var s := Exec(run).value;
    assert Locked(s, c, s.callers[c]) && Locked(s, d, s.callers[d]);
  }

  // ---------------------------------------------------------------- concurrent first derivation

  /** Only CurrentOrRotate is called and no rotation is due. */
  predicate Quiet(st: Step) {
    match st
    case Begin(_, _, force) => !force
    case Advance(_, _, due, _, _) => !due
  }

  predicate NoAddress(t: seq<Address>, w: Uuid) {
    forall i :: 0 <= i < |t| ==> t[i].wallet != w
  }

  /** Every wallet has at most one address, and it is active. */
  predicate AtMostOne(t: seq<Address>) {
    && (forall i :: 0 <= i < |t| ==> t[i].active)
    && (forall i, j :: 0 <= i < j < |t| ==> t[i].wallet != t[j].wallet)
  }

  predicate QuietCaller(t: seq<Address>, k: Caller) {
    && !k.force && !k.pc.TryRotate? && !k.pc.HeldDeprecate? && !k.pc.TryForce?
    && (k.pc.HeldDerive? || k.pc.HeldInsert? ==> NoAddress(t, k.wallet))
    && ((k.pc.Unlock? || k.pc.Done?) && k.pc.out.Got? ==>
          k.pc.out.address < |t| && t[k.pc.out.address].wallet == k.wallet)
  }

  ghost predicate QuietInv(s: State) {
    LockOk(s) && AtMostOne(s.addresses) && forall c :: c in s.callers ==> QuietCaller(s.addresses, s.callers[c])
  }

  lemma NoneActive(t: seq<Address>, w: Uuid)
    requires AtMostOne(t)
    ensures GetActive(t, w).None? <==> NoAddress(t, w)
  {
  }

  /** Only a caller that inserts under the lock changes the table, and by the wallet's first address. */
  predicate QuietMove(t: seq<Address>, k: Caller, m: Move) {
    && AtMostOne(m.addresses) && QuietCaller(m.addresses, Sent(k, m))
    && (|| m.addresses == t
        || (m.addresses == t + [Address(k.wallet, true)] && Holds(k.pc)))
  }

  lemma NextQuiet(t: seq<Address>, busy: bool, k: Caller, st: Step)
    requires AtMostOne(t) && QuietCaller(t, k) && st.Advance? && Quiet(st) && Next(t, busy, k, st).Some?
    ensures QuietMove(t, k, Next(t, busy, k, st).value)
  {
    NoneActive(t, k.wallet);
    if k.pc.HeldInsert? {
      InsertQuiet(t, k);
    } else {
      assert Next(t, busy, k, st).value.addresses == t;
    }
  }

  lemma InsertQuiet(t: seq<Address>, k: Caller)
    requires AtMostOne(t) && QuietCaller(t, k) && k.pc.HeldInsert?
    ensures QuietMove(t, k, AfterInsert(t, k.wallet))
  {
    NoneActive(t, k.wallet);
  }

  /** The table grew by an address of a wallet that this caller does not hold, or not at all. */
  lemma QuietOther(t: seq<Address>, k: Caller, w: Uuid)
    requires QuietCaller(t, k) && (k.wallet == w ==> !Holds(k.pc))
    ensures QuietCaller(t + [Address(w, true)], k)
  {
  }

  lemma UnlockedOther(s: State, c: CallerId, d: CallerId)
    requires LockOk(s) && c in s.callers && d in s.callers && c != d && Holds(s.callers[d].pc)
    ensures s.callers[c].wallet == s.callers[d].wallet ==> !Holds(s.callers[c].pc)
  {
    assert Locked(s, c, s.callers[c]) && Locked(s, d, s.callers[d]);
  }

  lemma MoveQuiet(s: State, c: CallerId, m: Move)
    requires QuietInv(s) && c in s.callers && GripOk(s.callers[c].wallet in s.lock, s.callers[c].pc, m)
    requires QuietMove(s.addresses, s.callers[c], m)
    ensures QuietInv(Moved(s, c, s.callers[c], m))
  {
    var k, s' := s.callers[c], Moved(s, c, s.callers[c], m);
    MoveKeepsLock(s, c, m);
    forall d | d in s'.callers
      ensures QuietCaller(s'.addresses, s'.callers[d])
    {
      if d != c && m.addresses != s.addresses {
        UnlockedOther(s, d, c);
        QuietOther(s.addresses, s.callers[d], k.wallet);
      }
    }
  }

  lemma {:induction false} QuietRun(run: seq<Step>)
    requires Exec(run).Some? && forall i :: 0 <= i < |run| ==> Quiet(run[i])
    ensures QuietInv(Exec(run).value)
  {
    if run != [] {
      QuietRun(run[..|run| - 1]);
      var s, st := Exec(run[..|run| - 1]).value, run[|run| - 1];
      if st.Advance? {
        var k := s.callers[st.c];
        NextGrips(s.addresses, k.wallet in s.lock, k, st);
        NextQuiet(s.addresses, k.wallet in s.lock, k, st);
        MoveQuiet(s, st.c, Next(s.addresses, k.wallet in s.lock, k, st).value);
      } else {
        RunLock(run);
      }
    }
  }

  predicate Returned(s: State, c: CallerId, w: Uuid, a: nat) {
    c in s.callers && s.callers[c].wallet == w && s.callers[c].pc == Done(Got(a))
  }

  /**
   Concurrent first derivation: a wallet gets at most one address however many callers race, and every
   caller that succeeds returns that one, which is active.
   */
  lemma {:induction false} FirstDerivation(run: seq<Step>, w: Uuid, c: CallerId, a: nat, d: CallerId, b: nat)
    requires Exec(run).Some? && forall i :: 0 <= i < |run| ==> Quiet(run[i])
    requires Returned(Exec(run).value, c, w, a) && Returned(Exec(run).value, d, w, b)
    ensures a == b && GetActive(Exec(run).value.addresses, w) == Some(a)
    ensures AtMostOne(Exec(run).value.addresses)
  {
    QuietRun(run);
    SameReturn(Exec(run).value, w, c, a, d, b);
  }

  lemma SameReturn(s: State, w: Uuid, c: CallerId, a: nat, d: CallerId, b: nat)
    requires QuietInv(s) && Returned(s, c, w, a) && Returned(s, d, w, b)
    ensures a == b && GetActive(s.addresses, w) == Some(a)
  {
    assert QuietCaller(s.addresses, s.callers[c]) && QuietCaller(s.addresses, s.callers[d]);
    NoneActive(s.addresses, w);
  }

  /** The winner of the race never runs into the table's check for a second active address. */
  lemma {:induction false} InsertNeverRefused(run: seq<Step>, c: CallerId)
    requires Exec(run).Some? && forall i :: 0 <= i < |run| ==> Quiet(run[i])
    requires c in Exec(run).value.callers && Exec(run).value.callers[c].pc.HeldInsert?
    ensures var s := Exec(run).value; AfterInsert(s.addresses, s.callers[c].wallet).pc == Unlock(Got(|s.addresses|))
  {
    QuietRun(run);
    var s := Exec(run).value;
    assert QuietCaller(s.addresses, s.callers[c]);
    NoneActive(s.addresses, s.callers[c].wallet);
  }

  // ---------------------------------------------------------------- what a rotation achieves

  /** Addresses are only added and deprecated, and keep their wallet. */
  predicate Later(t: seq<Address>, t': seq<Address>) {
    |t| <= |t'| && forall i :: 0 <= i < |t| ==> t'[i].wallet == t[i].wallet && (t'[i].active ==> t[i].active)
  }

  predicate Returns(pc: Pc) {
    (pc.Unlock? || pc.Done?) && pc.out.Got?
  }

  /** No address from before the first look is active any more. */
  predicate OldGone(t: seq<Address>, k: Caller) {
    forall i :: 0 <= i < |t| && i < k.born && t[i].wallet == k.wallet ==> !t[i].active
  }

  /**
   A call that owes a new address returns one inserted after its first look, and the address it set out
   to replace is deprecated. Any other call returns what was there at its first look.
   */
  predicate Honours(t: seq<Address>, k: Caller) {
    && k.born <= |t| && (k.read.Some? ==> k.read.value < |t|)
    && (k.pc.TryRotate? || k.pc.HeldDeprecate? ==> k.read == Some(k.pc.prev) && k.owed)
    && (k.pc.Look? ==> k.read.None? && !k.owed)
    && (k.pc.TryDerive? || k.pc.Recheck? || k.pc.HeldCheck? ==> k.owed && k.read.None? && OldGone(t, k))
    && (k.pc.TryForce? ==> k.owed && k.read.None?)
    && (k.pc.HeldDerive? || k.pc.HeldInsert? ==> k.owed)
    && (Returns(k.pc) ==> k.pc.out.address < |t| && t[k.pc.out.address].wallet == k.wallet
                          && (k.owed <==> k.born <= k.pc.out.address))
    && (k.read.Some? && (k.pc.HeldDerive? || k.pc.HeldInsert? || Returns(k.pc)) ==> !t[k.read.value].active)
  }

  lemma NextLater(t: seq<Address>, busy: bool, k: Caller, st: Step)
    requires st.Advance? && Next(t, busy, k, st).Some?
    ensures Later(t, Next(t, busy, k, st).value.addresses)
  {
  }

  lemma InsertHonours(t: seq<Address>, k: Caller)
    requires Honours(t, k) && k.pc.HeldInsert?
    ensures var m := AfterInsert(t, k.wallet); Honours(m.addresses, Sent(k, m))
  {
  }

  lemma LookHonours(t: seq<Address>, busy: bool, k: Caller, st: Step)
    requires Honours(t, k) && k.pc.Look? && st.Advance?
    ensures Next(t, busy, k, st).Some? && Honours(t, Sent(k, Next(t, busy, k, st).value))
  {
  }

  lemma NextHonours(t: seq<Address>, busy: bool, k: Caller, st: Step)
    requires Honours(t, k) && st.Advance? && Next(t, busy, k, st).Some?
    ensures var m := Next(t, busy, k, st).value; Honours(m.addresses, Sent(k, m))
  {
    NextLater(t, busy, k, st);
    if k.pc.HeldInsert? {
      InsertHonours(t, k);
    } else if k.pc.Look? {
      LookHonours(t, busy, k, st);
    }
  }

  lemma LaterHonours(t: seq<Address>, t': seq<Address>, k: Caller)
    requires Honours(t, k) && Later(t, t')
    ensures Honours(t', k)
  {
  }

  lemma {:induction false} RunHonours(run: seq<Step>)
    requires Exec(run).Some?
    ensures forall c :: c in Exec(run).value.callers ==> Honours(Exec(run).value.addresses, Exec(run).value.callers[c])
  {
    if run != [] {
      RunHonours(run[..|run| - 1]);
      var s, st, s' := Exec(run[..|run| - 1]).value, run[|run| - 1], Exec(run).value;
      if st.Advance? {
        var k := s.callers[st.c];
        NextHonours(s.addresses, k.wallet in s.lock, k, st);
        NextLater(s.addresses, k.wallet in s.lock, k, st);
        forall c | c in s'.callers
          ensures Honours(s'.addresses, s'.callers[c])
        {
          if c != st.c {
            LaterHonours(s.addresses, s'.addresses, s.callers[c]);
          }
        }
      }
    }
  }

  /**
   Over every interleaving: a call returns an address inserted after its first look exactly when one was
   owed (forced, due, or none active at that look); it belongs to the call's wallet, and the address the
   call set out to replace is deprecated for good.
   */
  lemma {:induction false} NewAddressIffOwed(run: seq<Step>, c: CallerId)
    requires Exec(run).Some? && c in Exec(run).value.callers && Returns(Exec(run).value.callers[c].pc)
    ensures var s := Exec(run).value;
            var k := s.callers[c];
            && k.pc.out.address < |s.addresses| && s.addresses[k.pc.out.address].wallet == k.wallet
            && (k.owed <==> k.born <= k.pc.out.address)
            && (k.read.Some? ==> k.read.value < |s.addresses| && !s.addresses[k.read.value].active)
  {
    RunHonours(run);
    assert Honours(Exec(run).value.addresses, Exec(run).value.callers[c]);
  }
}
