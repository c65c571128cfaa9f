/**
 The balance ledger: confirmation events with idempotency keys, reorg demotion, and the locked portion.
 Amounts are exact decimals and are modelled by reals.
 */
module Balances {
  import opened Prelude
  import opened Domain
  import Decimals
  import Text
  import Utxos

  datatype Config = Config(confirmationsBtc: int, confirmationsEvm: int)

  datatype Event = Event(wallet: Uuid, asset: string, amount: real, confirmations: int, height: int, eventId: string,
                         finalized: bool, chain: Chain)

  datatype Balance = Balance(confirmed: real, pending: real, locked: real, last: int)

  const ZERO: Balance := Balance(0.0, 0.0, 0.0, 0)

  datatype Ledger = Ledger(balances: map<string, Balance>, seen: set<string>)

  const EMPTY: Ledger := Ledger(map[], {})

  // ---------------------------------------------------------------- keys

  function BalanceKey(w: Uuid, asset: string): string {
    w + "|" + asset
  }

  lemma BalanceKeyInjective(w: Uuid, a: string, v: Uuid, b: string)
    ensures BalanceKey(w, a) == BalanceKey(v, b) <==> w == v && a == b
  {
    if BalanceKey(w, a) == BalanceKey(v, b) {
      Text.SameCut(w, a, v, b, '|');
    }
  }

  function EventKey(e: Event): string {
    e.wallet + "|" + e.asset + "|" + Decimals.Format(e.height) + "|" + e.eventId
  }

  /** For assets without the separator the key tells wallet, asset, height and event id. */
  lemma EventKeyInjective(d: Event, e: Event)
    requires '|' !in d.asset && '|' !in e.asset && EventKey(d) == EventKey(e)
    ensures d.wallet == e.wallet && d.asset == e.asset && d.height == e.height && d.eventId == e.eventId
  {
    var hd, he := Decimals.Format(d.height), Decimals.Format(e.height);
    var bd, be := hd + "|" + d.eventId, he + "|" + e.eventId;
    assert EventKey(d) == d.wallet + "|" + (d.asset + "|" + bd) && EventKey(e) == e.wallet + "|" + (e.asset + "|" + be);
    Text.SameCut(d.wallet, d.asset + "|" + bd, e.wallet, e.asset + "|" + be, '|');
    Text.SplitFirst(d.asset, bd, e.asset, be, '|');
    NoBar(d.height);
    NoBar(e.height);
    Text.SplitFirst(hd, d.eventId, he, e.eventId, '|');
    Decimals.FormatInjective(d.height, e.height);
  }

  lemma NoBar(n: int)
    ensures '|' !in Decimals.Format(n)
  {
    if '|' in Decimals.Format(n) {
      Decimals.FormatChars(n, '|');
    }
  }

  predicate SameEvent(d: Event, e: Event) {
    d.wallet == e.wallet && d.asset == e.asset && d.height == e.height && d.eventId == e.eventId
  }

  predicate EndsInNumber(s: string, x: string, n: int) {
    s == x + "|" + Decimals.Format(n)
  }

  predicate BeginsWithNumber(s: string, n: int, y: string) {
    s == Decimals.Format(n) + "|" + y
  }

  predicate HoldsNumber(s: string, x: string, n: int, y: string) {
    s == x + "|" + (Decimals.Format(n) + "|" + y)
  }

  /** The asset ends in a separator and a number, or has a number between separators. */
  ghost predicate LooseAsset(s: string) {
    (exists x, n :: EndsInNumber(s, x, n)) || (exists x, n, y :: HoldsNumber(s, x, n, y))
  }

  /** The event id begins with a number and a separator, or has a number between separators. */
  ghost predicate LooseId(s: string) {
    (exists n, y :: BeginsWithNumber(s, n, y)) || (exists x, n, y :: HoldsNumber(s, x, n, y))
  }

  /** The part of the key behind the wallet. */
  function Tail(asset: string, height: int, id: string): string {
    asset + "|" + (Decimals.Format(height) + "|" + id)
  }

  lemma KeyIsTail(d: Event, e: Event)
    ensures EventKey(d) == EventKey(e) <==>
            d.wallet == e.wallet && Tail(d.asset, d.height, d.eventId) == Tail(e.asset, e.height, e.eventId)
  {
    assert EventKey(d) == d.wallet + "|" + Tail(d.asset, d.height, d.eventId);
    assert EventKey(e) == e.wallet + "|" + Tail(e.asset, e.height, e.eventId);
    if EventKey(d) == EventKey(e) {
      Text.SameCut(d.wallet, Tail(d.asset, d.height, d.eventId), e.wallet, Tail(e.asset, e.height, e.eventId), '|');
    }
  }

  /** A text that continues a separator-free number either is that number or goes on after a separator. */
  lemma NumberFirst(r: string, after: string, h: int, id: string)
    requires r + "|" + after == Decimals.Format(h) + "|" + id
    ensures (r == Decimals.Format(h) && after == id)
         || exists b :: r == Decimals.Format(h) + "|" + b && b + "|" + after == id
  {
    NoBar(h);
    var f := Decimals.Format(h);
    if '|' !in r {
      Text.SplitFirst(r, after, f, id, '|');
    } else {
      var i := Bar(r);
      var a, b := r[..i], r[i + 1..];
      assert r == a + "|" + b;
      assert r + "|" + after == a + "|" + (b + "|" + after);
      Text.SplitFirst(a, b + "|" + after, f, id, '|');
    }
  }

  /** Position of the first separator. */
  function Bar(r: string): (i: nat)
    requires '|' in r
    ensures i < |r| && r[i] == '|' && '|' !in r[..i]
  {
    if r[0] == '|' then 0 else assert r == [r[0]] + r[1..]; 1 + Bar(r[1..])
  }

  lemma LongerFront(a: string, x: string, b: string, y: string)
    requires a + "|" + x == b + "|" + y && |a| < |b|
    ensures exists r :: b == a + "|" + r && r + "|" + y == x
  {
    var s := a + "|" + x;
    var r := b[|a| + 1..];
    assert s[..|b|] == b && s[..|a|] == a && s[|a|] == '|';
    assert b[..|a|] == a && b[|a|] == '|';
    assert b == a + "|" + r;
    assert x == s[|a| + 1..] && y == s[|b| + 1..];
    assert (r + "|" + y) == x;
  }

  /** Two different readings of one key: the longer asset, or the event id of the other, hides a number. */
  lemma TwoReadings(a: string, h: int, id: string, b: string, k: int, jd: string)
    requires Tail(a, h, id) == Tail(b, k, jd) && |a| < |b|
    ensures LooseAsset(b) && LooseId(id)
  {
    LongerFront(a, Decimals.Format(h) + "|" + id, b, Decimals.Format(k) + "|" + jd);
    var r :| b == a + "|" + r && r + "|" + (Decimals.Format(k) + "|" + jd) == Decimals.Format(h) + "|" + id;
    NumberFirst(r, Decimals.Format(k) + "|" + jd, h, id);
    if r == Decimals.Format(h) && Decimals.Format(k) + "|" + jd == id {
      assert EndsInNumber(b, a, h) && BeginsWithNumber(id, k, jd);
    } else {
      var c :| r == Decimals.Format(h) + "|" + c && c + "|" + (Decimals.Format(k) + "|" + jd) == id;
      assert HoldsNumber(b, a, h, c) && HoldsNumber(id, c, k, jd);
    }
  }

  lemma OneReading(a: string, h: int, id: string, k: int, jd: string)
    requires Tail(a, h, id) == Tail(a, k, jd)
    ensures h == k && id == jd
  {
    Text.SameCut(a, Decimals.Format(h) + "|" + id, a, Decimals.Format(k) + "|" + jd, '|');
    NoBar(h);
    NoBar(k);
    Text.SplitFirst(Decimals.Format(h), id, Decimals.Format(k), jd, '|');
    Decimals.FormatInjective(h, k);
  }

  lemma Regroup(a: string, b: string, c: string, d: string, e: string)
    ensures (a + "|" + b) + "|" + (c + "|" + d) == a + "|" + (b + "|" + (c + "|" + d))
    ensures (a + "|" + (b + "|" + c)) + "|" + (d + "|" + e) == a + "|" + (b + "|" + (c + "|" + (d + "|" + e)))
  {
  }

  lemma LooseAssetShares(e: Event) returns (d: Event)
    requires LooseAsset(e.asset)
    ensures EventKey(d) == EventKey(e) && !SameEvent(d, e)
  {
    var f := Decimals.Format(e.height);
    if x, n :| EndsInNumber(e.asset, x, n) {
      d := e.(asset := x, height := n, eventId := f + "|" + e.eventId);
      Regroup(x, Decimals.Format(n), f, e.eventId, "");
    } else {
      var x, n, y :| HoldsNumber(e.asset, x, n, y);
      d := e.(asset := x, height := n, eventId := y + "|" + (f + "|" + e.eventId));
      Regroup(x, Decimals.Format(n), y, f, e.eventId);
    }
    KeyIsTail(d, e);
    assert |d.asset| < |e.asset|;
  }

  lemma LooseIdShares(e: Event) returns (d: Event)
    requires LooseId(e.eventId)
    ensures EventKey(d) == EventKey(e) && !SameEvent(d, e)
  {
    var f := Decimals.Format(e.height);
    if n, y :| BeginsWithNumber(e.eventId, n, y) {
      d := e.(asset := e.asset + "|" + f, height := n, eventId := y);
      Regroup(e.asset, f, Decimals.Format(n), y, "");
    } else {
      var x, n, y :| HoldsNumber(e.eventId, x, n, y);
      d := e.(asset := e.asset + "|" + (f + "|" + x), height := n, eventId := y);
      Regroup(e.asset, f, x, Decimals.Format(n), y);
    }
    KeyIsTail(d, e);
    assert |d.asset| > |e.asset|;
  }

  /**
   An event's key is its own, shared with no other wallet, asset, height or event id, if and only if
   neither its asset nor its event id hides a number next to a separator.
   */
  lemma EventKeyUniqueIff(e: Event)
    ensures (forall d: Event :: EventKey(d) == EventKey(e) ==> SameEvent(d, e))
       <==> !LooseAsset(e.asset) && !LooseId(e.eventId)
  {
    if LooseAsset(e.asset) {
      var d := LooseAssetShares(e);
      assert EventKey(d) == EventKey(e) && !SameEvent(d, e);
    } else if LooseId(e.eventId) {
      var d := LooseIdShares(e);
      assert EventKey(d) == EventKey(e) && !SameEvent(d, e);
    } else {
      forall d: Event | EventKey(d) == EventKey(e)
        ensures SameEvent(d, e)
      {
        KeyIsTail(d, e);
        if |d.asset| == |e.asset| {
          Text.SameCut(d.asset, Decimals.Format(d.height) + "|" + d.eventId,
                       e.asset, Decimals.Format(e.height) + "|" + e.eventId, '|');
          OneReading(d.asset, d.height, d.eventId, e.height, e.eventId);
        } else if |d.asset| < |e.asset| {
          TwoReadings(d.asset, d.height, d.eventId, e.asset, e.height, e.eventId);
        } else {
          TwoReadings(e.asset, e.height, e.eventId, d.asset, d.height, d.eventId);
        }
      }
    }
  }

  // ---------------------------------------------------------------- operations as functions

  function Threshold(cfg: Config, chain: Chain): int {
    if chain.Bitcoin? then cfg.confirmationsBtc
    else if chain.Solana? then 1
    else cfg.confirmationsEvm
  }

  predicate IsConfirmed(cfg: Config, e: Event) {
    if e.chain.Solana? then e.finalized else e.confirmations >= Threshold(cfg, e.chain)
  }

  function Held(l: Ledger, w: Uuid, asset: string): Balance {
    if BalanceKey(w, asset) in l.balances then l.balances[BalanceKey(w, asset)] else ZERO
  }

  /** A confirmed event adds to the confirmed part, any other to the pending part. */
  function Credit(cfg: Config, b: Balance, e: Event): Balance {
    if IsConfirmed(cfg, e) then b.(confirmed := b.confirmed + e.amount, last := Max(b.last, e.height))
    else b.(pending := b.pending + e.amount, last := Max(b.last, e.height))
  }

  function Demote(b: Balance): Balance {
    b.(confirmed := 0.0, pending := b.pending + b.confirmed)
  }

  function Released(locked: real, amount: real): real {
    if locked - amount < 0.0 then 0.0 else locked - amount
  }

  /** An event with the key under which it is recorded. */
  datatype Keyed = Keyed(key: string, e: Event)

  datatype Op =
    | Confirm(k: Keyed)
    | Reorg(wallet: Uuid, asset: string)
    | AddLocked(wallet: Uuid, asset: string, amount: real)
    | ReleaseLocked(wallet: Uuid, asset: string, amount: real)

  function Step(cfg: Config, l: Ledger, op: Op): Ledger {
    match op
    case Confirm(Keyed(key, e)) =>
      if key in l.seen then l
      else Ledger(l.balances[BalanceKey(e.wallet, e.asset) := Credit(cfg, Held(l, e.wallet, e.asset), e)],
                  l.seen + {key})
    case Reorg(w, a) =>
      if BalanceKey(w, a) !in l.balances then l
      else l.(balances := l.balances[BalanceKey(w, a) := Demote(Held(l, w, a))])
    case AddLocked(w, a, x) =>
      if BalanceKey(w, a) !in l.balances then l
      else l.(balances := l.balances[BalanceKey(w, a) := Held(l, w, a).(locked := Held(l, w, a).locked + x)])
    case ReleaseLocked(w, a, x) =>
      if BalanceKey(w, a) !in l.balances then l
      else l.(balances := l.balances[BalanceKey(w, a) := Held(l, w, a).(locked := Released(Held(l, w, a).locked, x))])
  }

  function After(cfg: Config, run: seq<Op>): Ledger {
    if run == [] then EMPTY else Step(cfg, After(cfg, run[..|run| - 1]), run[|run| - 1])
  }

  // ---------------------------------------------------------------- the service

  class Service {
    const cfg: Config
    var balances: map<string, Balance>
    var seen: set<string>

    constructor (cfg: Config)
      ensures Abs() == EMPTY && this.cfg == cfg
    {
      this.cfg := cfg;
      balances, seen := map[], {};
    }

    function Abs(): Ledger
      reads this
    {
      Ledger(balances, seen)
    }

    /** `notify` tells the funding service about a confirmed decrease. */
    method ApplyConfirmationEvent(e: Event) returns (notify: bool)
      modifies this
      ensures Abs() == Step(cfg, old(Abs()), Confirm(Keyed(EventKey(e), e)))
      ensures EventKey(e) !in old(seen) ==>
                var was, now := Held(old(Abs()), e.wallet, e.asset), Held(Abs(), e.wallet, e.asset);
                && now.locked == was.locked && was.last <= now.last && e.height <= now.last
                && (now.last == was.last || now.last == e.height)
                && if || (e.chain.Solana? && e.finalized)
                      || (e.chain.Bitcoin? && e.confirmations >= cfg.confirmationsBtc)
                      || (e.chain.IsEvm() && e.confirmations >= cfg.confirmationsEvm)
                   then now.confirmed == was.confirmed + e.amount && now.pending == was.pending
                   else now.confirmed == was.confirmed && now.pending == was.pending + e.amount
      ensures EventKey(e) in old(seen) ==> Abs() == old(Abs())
      ensures notify <==> Held(Abs(), e.wallet, e.asset).confirmed < Held(old(Abs()), e.wallet, e.asset).confirmed
    {
      var id := EventKey(e);
      if id in seen {
        return false;
      }
      seen := seen + {id};
      var key := BalanceKey(e.wallet, e.asset);
      var cur := if key in balances then balances[key] else ZERO;
      var confirmed, pending := cur.confirmed, cur.pending;
      if IsConfirmed(cfg, e) {
        confirmed := confirmed + e.amount;
      } else {
        pending := pending + e.amount;
      }
      balances :=
        balances[key := Balance(confirmed, pending, cur.locked, if cur.last > e.height then cur.last else e.height)];
      notify := IsConfirmed(cfg, e) && e.amount < 0.0;
    }

    /**
     The confirmed part moves to pending; then the outpoints of the event are restored, if a restorer is wired.
     An error of the restore does not take the demotion back.
     */
    method ApplyReorgEvent(w: Uuid, asset: string, ops: seq<string>, restorer: Utxos.Store?) returns (ok: bool)
      modifies this, restorer
      ensures Abs() == Step(cfg, old(Abs()), Reorg(w, asset))
      ensures restorer != null ==> restorer.utxos == Utxos.Restore(old(restorer.utxos), ops)
      ensures ok <==> restorer == null || Utxos.Known(old(restorer.utxos), ops) == ops
    {
      var key := BalanceKey(w, asset);
      if key in balances {
        var cur := balances[key];
        balances := balances[key := Balance(0.0, cur.pending + cur.confirmed, cur.locked, cur.last)];
      }
      ok := true;
      if restorer != null {
        Utxos.RestoreNothing(restorer.utxos);
        if ops != [] {
          ok := restorer.RestoreUtxos(ops);
        }
      }
    }

    method AddLocked(w: Uuid, asset: string, amount: real) returns (ok: bool)
      modifies this
      ensures Abs() == Step(cfg, old(Abs()), Op.AddLocked(w, asset, amount))
      ensures ok <==> BalanceKey(w, asset) in old(balances)
      ensures ok ==> Held(Abs(), w, asset).locked == Held(old(Abs()), w, asset).locked + amount
    {
      var key := BalanceKey(w, asset);
      if key !in balances {
        return false;
      }
      var cur := balances[key];
      balances := balances[key := cur.(locked := cur.locked + amount)];
      return true;
    }

    method ReleaseLocked(w: Uuid, asset: string, amount: real) returns (ok: bool)
      modifies this
      ensures Abs() == Step(cfg, old(Abs()), Op.ReleaseLocked(w, asset, amount))
      ensures ok <==> BalanceKey(w, asset) in old(balances)
      ensures ok ==>
                var was, now := Held(old(Abs()), w, asset).locked, Held(Abs(), w, asset).locked;
                (amount <= was ==> now == was - amount) && (amount >= was ==> now == 0.0)
    {
      var key := BalanceKey(w, asset);
      if key !in balances {
        return false;
      }
      var locked := balances[key].locked - amount;
      if locked < 0.0 {
        locked := 0.0;
      }
      balances := balances[key := balances[key].(locked := locked)];
      return true;
    }
  }

  // ---------------------------------------------------------------- the history of a balance

  predicate HasKey(es: seq<Keyed>, key: string) {
    exists i :: 0 <= i < |es| && es[i].key == key
  }

  /** The confirmation events of a run, each key once: its first event. */
  function Distinct(run: seq<Op>): seq<Keyed> {
    if run == [] then []
    else
      var front, op := Distinct(run[..|run| - 1]), run[|run| - 1];
      if op.Confirm? && !HasKey(front, op.k.key) then front + [op.k] else front
  }

  predicate Mine(e: Event, w: Uuid, asset: string) {
    e.wallet == w && e.asset == asset
  }

  function Sum(es: seq<Keyed>, f: Event -> real): real {
    if es == [] then 0.0 else Sum(es[..|es| - 1], f) + f(es[|es| - 1].e)
  }

  /** The amount of an event of this wallet and asset, and zero for any other. */
  function Amount(w: Uuid, asset: string): Event -> real {
    (e: Event) => if Mine(e, w, asset) then e.amount else 0.0
  }

  /** The threshold-passing first events of this wallet and asset since its last reorg. */
  function SinceReorg(cfg: Config, run: seq<Op>, w: Uuid, asset: string): seq<Keyed> {
    if run == [] then []
    else
      var front, op := run[..|run| - 1], run[|run| - 1];
      var r := SinceReorg(cfg, front, w, asset);
      match op
      case Reorg(v, b) => if v == w && b == asset then [] else r
      case Confirm(k) =>
        if Mine(k.e, w, asset) && IsConfirmed(cfg, k.e) && !HasKey(Distinct(front), k.key) then r + [k] else r
      case AddLocked(_, _, _) => r
      case ReleaseLocked(_, _, _) => r
  }

  function MaxHeight(es: seq<Keyed>, w: Uuid, asset: string): int {
    if es == [] then 0
    else
      var m := MaxHeight(es[..|es| - 1], w, asset);
      if Mine(es[|es| - 1].e, w, asset) then Max(m, es[|es| - 1].e.height) else m
  }

  /** The largest height, and zero when there is none above. */
  lemma {:induction false} MaxHeightIsMax(es: seq<Keyed>, w: Uuid, asset: string)
    ensures MaxHeight(es, w, asset) >= 0
    ensures forall i :: 0 <= i < |es| && Mine(es[i].e, w, asset) ==> es[i].e.height <= MaxHeight(es, w, asset)
    ensures MaxHeight(es, w, asset) == 0
         || exists i :: 0 <= i < |es| && Mine(es[i].e, w, asset) && es[i].e.height == MaxHeight(es, w, asset)
  {
    if es != [] {
      MaxHeightIsMax(es[..|es| - 1], w, asset);
    }
  }

  lemma KeysSnoc(es: seq<Keyed>, k: Keyed, key: string)
    ensures HasKey(es + [k], key) <==> HasKey(es, key) || k.key == key
  {
    if HasKey(es, key) {
      var i :| 0 <= i < |es| && es[i].key == key;
      assert (es + [k])[i] == es[i];
    }
    assert (es + [k])[|es|] == k;
  }

  lemma {:induction false} SeenIsKeys(cfg: Config, run: seq<Op>, key: string)
    ensures key in After(cfg, run).seen <==> HasKey(Distinct(run), key)
  {
    if run != [] {
      var front, op := run[..|run| - 1], run[|run| - 1];
      SeenIsKeys(cfg, front, key);
      if op.Confirm? {
        SeenIsKeys(cfg, front, op.k.key);
        KeysSnoc(Distinct(front), op.k, key);
      }
    }
  }

  lemma SumSnoc(es: seq<Keyed>, k: Keyed, f: Event -> real)
    ensures Sum(es + [k], f) == Sum(es, f) + f(k.e)
  {
    assert (es + [k])[..|es|] == es;
  }

  /** What one operation does to one row. */
  predicate RowStep(cfg: Config, op: Op, new_: bool, w: Uuid, asset: string, was: Balance, now: Balance) {
    match op
    case Confirm(k) => now == if Mine(k.e, w, asset) && new_ then Credit(cfg, was, k.e) else was
    case Reorg(v, b) => now == if v == w && b == asset then Demote(was) else was
    case AddLocked(_, _, _) => now == was.(locked := now.locked)
    case ReleaseLocked(_, _, _) => now == was.(locked := now.locked)
  }

  lemma StepRow(cfg: Config, l: Ledger, op: Op, w: Uuid, asset: string)
    ensures RowStep(cfg, op, op.Confirm? && op.k.key !in l.seen, w, asset,
                    Held(l, w, asset), Held(Step(cfg, l, op), w, asset))
  {
    match op
    case Confirm(k) => BalanceKeyInjective(k.e.wallet, k.e.asset, w, asset);
    case Reorg(v, b) => BalanceKeyInjective(v, b, w, asset);
    case AddLocked(v, b, _) => BalanceKeyInjective(v, b, w, asset);
    case ReleaseLocked(v, b, _) => BalanceKeyInjective(v, b, w, asset);
  }

  /** The last operation of a run, seen from one row. */
  lemma {:induction false} LastRow(cfg: Config, run: seq<Op>, w: Uuid, asset: string)
    requires run != []
    ensures var front, op := run[..|run| - 1], run[|run| - 1];
            RowStep(cfg, op, op.Confirm? && !HasKey(Distinct(front), op.k.key), w, asset,
                    Held(After(cfg, front), w, asset), Held(After(cfg, run), w, asset))
  {
    var front, op := run[..|run| - 1], run[|run| - 1];
    StepRow(cfg, After(cfg, front), op, w, asset);
    if op.Confirm? {
      SeenIsKeys(cfg, front, op.k.key);
    }
  }

  function Total(b: Balance): real {
    b.confirmed + b.pending
  }

  lemma StepTotal(cfg: Config, op: Op, new_: bool, w: Uuid, asset: string, was: Balance, now: Balance)
    requires RowStep(cfg, op, new_, w, asset, was, now)
    ensures Total(now) == Total(was) + if op.Confirm? && new_ then Amount(w, asset)(op.k.e) else 0.0
  {
  }

  /** What the last operation adds to the total of one row. */
  function Share(run: seq<Op>, w: Uuid, asset: string): real
    requires run != []
  {
    var front, op := run[..|run| - 1], run[|run| - 1];
    if op.Confirm? && !HasKey(Distinct(front), op.k.key) then Amount(w, asset)(op.k.e) else 0.0
  }

  lemma {:induction false} LastTotal(cfg: Config, run: seq<Op>, w: Uuid, asset: string)
    requires run != []
    ensures Total(Held(After(cfg, run), w, asset))
            == Total(Held(After(cfg, run[..|run| - 1]), w, asset)) + Share(run, w, asset)
  {
    var front, op := run[..|run| - 1], run[|run| - 1];
    LastRow(cfg, run, w, asset);
    StepTotal(cfg, op, op.Confirm? && !HasKey(Distinct(front), op.k.key), w, asset,
              Held(After(cfg, front), w, asset), Held(After(cfg, run), w, asset));
  }

  lemma {:induction false} LastShare(run: seq<Op>, w: Uuid, asset: string)
    requires run != []
    ensures Sum(Distinct(run), Amount(w, asset))
            == Sum(Distinct(run[..|run| - 1]), Amount(w, asset)) + Share(run, w, asset)
  {
    var op := run[|run| - 1];
    if op.Confirm? {
      SumSnoc(Distinct(run[..|run| - 1]), op.k, Amount(w, asset));
    }
  }

  lemma {:induction false} TotalIsSum(cfg: Config, run: seq<Op>, w: Uuid, asset: string)
    ensures Total(Held(After(cfg, run), w, asset)) == Sum(Distinct(run), Amount(w, asset))
  {
    if run != [] {
      TotalIsSum(cfg, run[..|run| - 1], w, asset);
      LastTotal(cfg, run, w, asset);
      LastShare(run, w, asset);
    }
  }

  lemma {:induction false} ConfirmedIsRecent(cfg: Config, run: seq<Op>, w: Uuid, asset: string)
    ensures Held(After(cfg, run), w, asset).confirmed == Sum(SinceReorg(cfg, run, w, asset), Amount(w, asset))
  {
    if run != [] {
      var front, op := run[..|run| - 1], run[|run| - 1];
      ConfirmedIsRecent(cfg, front, w, asset);
      LastRow(cfg, run, w, asset);
      if op.Confirm? {
        SumSnoc(SinceReorg(cfg, front, w, asset), op.k, Amount(w, asset));
      }
    }
  }

  lemma {:induction false} LastIsMaximum(cfg: Config, run: seq<Op>, w: Uuid, asset: string)
    ensures Held(After(cfg, run), w, asset).last == MaxHeight(Distinct(run), w, asset)
  {
    if run != [] {
      var front, op := run[..|run| - 1], run[|run| - 1];
      LastIsMaximum(cfg, front, w, asset);
      LastRow(cfg, run, w, asset);
      if op.Confirm? {
        assert (Distinct(front) + [op.k])[..|Distinct(front)|] == Distinct(front);
      }
    }
  }

  /**
   Over every run of confirmations, reorgs and lock changes, for every wallet and asset: confirmed plus
   pending is the sum over the distinct event keys, confirmed is the threshold-passing part since the
   last reorg, and the last block is the maximum height.
   */
  lemma {:induction false} LedgerIsHistory(cfg: Config, run: seq<Op>, w: Uuid, asset: string)
    ensures var b := Held(After(cfg, run), w, asset);
            && b.confirmed + b.pending == Sum(Distinct(run), Amount(w, asset))
            && b.confirmed == Sum(SinceReorg(cfg, run, w, asset), Amount(w, asset))
            && b.last == MaxHeight(Distinct(run), w, asset)
  {
    TotalIsSum(cfg, run, w, asset);
    ConfirmedIsRecent(cfg, run, w, asset);
    LastIsMaximum(cfg, run, w, asset);
  }

  /**
   A deposit that is reported short of its threshold and then past it: its value moves from pending to confirmed
   if and only if it is zero. Otherwise it stays pending, and with a key of its own the second report counts
   it once more.
   */
  lemma MovedIffZero(cfg: Config, l: Ledger, early: Keyed, late: Keyed)
    requires early.e.wallet == late.e.wallet && early.e.asset == late.e.asset && early.e.amount == late.e.amount
    requires early.key !in l.seen && !IsConfirmed(cfg, early.e) && IsConfirmed(cfg, late.e)
    ensures var w, asset, x := late.e.wallet, late.e.asset, late.e.amount;
            var was, now := Held(l, w, asset), Held(Step(cfg, Step(cfg, l, Confirm(early)), Confirm(late)), w, asset);
            && now.pending == was.pending + x
            && (now.pending == was.pending && now.confirmed == was.confirmed + x <==> x == 0.0)
            && (late.key !in l.seen + {early.key} ==> Total(now) == Total(was) + 2.0 * x)
  {
    var w, asset := late.e.wallet, late.e.asset;
    var l1 := Step(cfg, l, Confirm(early));
    assert Held(l1, w, asset) == Credit(cfg, Held(l, w, asset), early.e);
    assert late.key !in l1.seen ==>
             Held(Step(cfg, l1, Confirm(late)), w, asset) == Credit(cfg, Held(l1, w, asset), late.e);
  }

  /** Confirmations and reorgs leave the locked portion of every balance alone, lock changes everything else. */
  lemma LockedIsSeparate(cfg: Config, l: Ledger, op: Op, w: Uuid, asset: string)
    ensures var was, now := Held(l, w, asset), Held(Step(cfg, l, op), w, asset);
            if op.Confirm? || op.Reorg? then now.locked == was.locked
            else now == was.(locked := now.locked) && Step(cfg, l, op).seen == l.seen
  {
    StepRow(cfg, l, op, w, asset);
  }

  // ---------------------------------------------------------------- the history of the locked portion

  predicate Opened(es: seq<Keyed>, w: Uuid, asset: string) {
    exists i :: 0 <= i < |es| && Mine(es[i].e, w, asset)
  }

  predicate LocksRow(op: Op, w: Uuid, asset: string) {
    (op.AddLocked? || op.ReleaseLocked?) && op.wallet == w && op.asset == asset
  }

  predicate AreLockOps(ops: seq<Op>) {
    forall i :: 0 <= i < |ops| ==> ops[i].AddLocked? || ops[i].ReleaseLocked?
  }

  /** The lock changes of one row; those before its first event find no balance and fail. */
  function LockChanges(run: seq<Op>, w: Uuid, asset: string): (r: seq<Op>)
    ensures AreLockOps(r)
  {
    if run == [] then []
    else
      var front, op := run[..|run| - 1], run[|run| - 1];
      if LocksRow(op, w, asset) && Opened(Distinct(front), w, asset) then LockChanges(front, w, asset) + [op]
      else LockChanges(front, w, asset)
  }

  /** What was added less what was released. */
  function Net(ops: seq<Op>): real
    requires AreLockOps(ops)
  {
    if ops == [] then 0.0
    else
      var op := ops[|ops| - 1];
      Net(ops[..|ops| - 1]) + if op.AddLocked? then op.amount else -op.amount
  }

  lemma OpenedSnoc(es: seq<Keyed>, k: Keyed, w: Uuid, asset: string)
    ensures Opened(es + [k], w, asset) <==> Opened(es, w, asset) || Mine(k.e, w, asset)
  {
    if Opened(es, w, asset) {
      var i :| 0 <= i < |es| && Mine(es[i].e, w, asset);
      assert (es + [k])[i] == es[i];
    }
    assert (es + [k])[|es|] == k;
  }

  lemma {:induction false} OpenedIffStored(cfg: Config, run: seq<Op>, w: Uuid, asset: string)
    ensures BalanceKey(w, asset) in After(cfg, run).balances <==> Opened(Distinct(run), w, asset)
  {
    if run != [] {
      var front, op := run[..|run| - 1], run[|run| - 1];
      OpenedIffStored(cfg, front, w, asset);
      if op.Confirm? {
        SeenIsKeys(cfg, front, op.k.key);
        OpenedSnoc(Distinct(front), op.k, w, asset);
        BalanceKeyInjective(op.k.e.wallet, op.k.e.asset, w, asset);
      }
    }
  }

  predicate ReleasedAt(ops: seq<Op>, i: nat) {
    i < |ops| && ops[i].ReleaseLocked?
  }

  /** `x` is the largest of the net of all changes and the nets of what came after each release. */
  ghost predicate IsClamped(x: real, ops: seq<Op>)
    requires AreLockOps(ops)
  {
    && Net(ops) <= x
    && (forall i :: ReleasedAt(ops, i) ==> Net(ops[i + 1..]) <= x)
    && (x == Net(ops) || exists i :: ReleasedAt(ops, i) && x == Net(ops[i + 1..]))
  }

  lemma NetSnoc(ops: seq<Op>, op: Op, i: nat)
    requires AreLockOps(ops) && (op.AddLocked? || op.ReleaseLocked?) && i <= |ops|
    ensures Net((ops + [op])[i..]) == Net(ops[i..]) + if op.AddLocked? then op.amount else -op.amount
  {
    var tail := (ops + [op])[i..];
    assert tail[..|tail| - 1] == ops[i..] && tail[|tail| - 1] == op;
  }

  /** Adding one more change shifts every net by it. */
  lemma ClampedShift(x: real, ops: seq<Op>, op: Op)
    requires AreLockOps(ops) && (op.AddLocked? || op.ReleaseLocked?) && IsClamped(x, ops)
    ensures var more, y := ops + [op], x + if op.AddLocked? then op.amount else -op.amount;
            && Net(more) <= y && (forall i: nat :: i < |ops| && ReleasedAt(more, i) ==> Net(more[i + 1..]) <= y)
            && (y == Net(more) || exists i: nat :: i < |ops| && ReleasedAt(more, i) && y == Net(more[i + 1..]))
  {
    var more := ops + [op];
    assert more[0..] == more && ops[0..] == ops;
    NetSnoc(ops, op, 0);
    forall i: nat | i < |ops|
      ensures ReleasedAt(more, i) == ReleasedAt(ops, i)
      ensures Net(more[i + 1..]) == Net(ops[i + 1..]) + if op.AddLocked? then op.amount else -op.amount
    {
      NetSnoc(ops, op, i + 1);
    }
  }

  lemma ClampedSnoc(x: real, ops: seq<Op>, op: Op)
    requires AreLockOps(ops) && (op.AddLocked? || op.ReleaseLocked?) && IsClamped(x, ops)
    ensures IsClamped(if op.AddLocked? then x + op.amount else Released(x, op.amount), ops + [op])
  {
    ClampedShift(x, ops, op);
    var more, n := ops + [op], |ops|;
    assert more[n + 1..] == [] && (ReleasedAt(more, n) <==> op.ReleaseLocked?);
    forall i: nat | i > n
      ensures !ReleasedAt(more, i)
    {
    }
  }

  /**
   Over every run, the locked portion of a balance is the net of its lock changes, except that each release
   starts again from zero where it would go below: it is the largest of the net of all changes and the nets of
   what came after each release.
   */
  lemma {:induction false} LockedIsHistory(cfg: Config, run: seq<Op>, w: Uuid, asset: string)
    ensures IsClamped(Held(After(cfg, run), w, asset).locked, LockChanges(run, w, asset))
  {
    if run != [] {
      var front, op := run[..|run| - 1], run[|run| - 1];
      LockedIsHistory(cfg, front, w, asset);
      OpenedIffStored(cfg, front, w, asset);
      if LocksRow(op, w, asset) {
        if Opened(Distinct(front), w, asset) {
          ClampedSnoc(Held(After(cfg, front), w, asset).locked, LockChanges(front, w, asset), op);
        }
      } else {
        OtherKeepsLocked(cfg, After(cfg, front), op, w, asset);
      }
    }
  }

  lemma OtherKeepsLocked(cfg: Config, l: Ledger, op: Op, w: Uuid, asset: string)
    requires !LocksRow(op, w, asset)
    ensures Held(Step(cfg, l, op), w, asset).locked == Held(l, w, asset).locked
  {
    if op.AddLocked? || op.ReleaseLocked? {
      BalanceKeyInjective(op.wallet, op.asset, w, asset);
    } else {
      LockedIsSeparate(cfg, l, op, w, asset);
    }
  }

  lemma {:induction false} SeenAfter(cfg: Config, run: seq<Op>, i: nat)
    requires i < |run| && run[i].Confirm?
    ensures run[i].k.key in After(cfg, run).seen
  {
    if i < |run| - 1 {
      SeenAfter(cfg, run[..|run| - 1], i);
    }
  }

  /** An event whose key came up before changes nothing, now or afterwards. */
  lemma {:induction false} ReplayChangesNothing(cfg: Config, run: seq<Op>, i: nat, k: Keyed, rest: seq<Op>)
    requires i < |run| && run[i].Confirm? && run[i].k.key == k.key
    ensures After(cfg, run + [Confirm(k)] + rest) == After(cfg, run + rest)
    decreases |rest|
  {
    if rest == [] {
      assert run + [Confirm(k)] + rest == run + [Confirm(k)] && run + rest == run;
      assert (run + [Confirm(k)])[..|run|] == run;
      SeenAfter(cfg, run, i);
    } else {
      var front := rest[..|rest| - 1];
      ReplayChangesNothing(cfg, run, i, k, front);
      AfterSnoc(cfg, run + [Confirm(k)], rest);
      AfterSnoc(cfg, run, rest);
    }
  }

  lemma {:induction false} AfterSnoc(cfg: Config, run: seq<Op>, rest: seq<Op>)
    requires rest != []
    ensures After(cfg, run + rest) == Step(cfg, After(cfg, run + rest[..|rest| - 1]), rest[|rest| - 1])
  {
    assert (run + rest)[..|run| + |rest| - 1] == run + rest[..|rest| - 1];
  }

  // ---------------------------------------------------------------- order does not matter

  function Confirms(es: seq<Keyed>): seq<Op> {
    seq(|es|, i requires 0 <= i < |es| => Confirm(es[i]))
  }

  predicate DistinctKeys(es: seq<Keyed>) {
    forall i, j :: 0 <= i < j < |es| ==> es[i].key != es[j].key
  }

  lemma {:induction false} AllDistinct(es: seq<Keyed>)
    requires DistinctKeys(es)
    ensures Distinct(Confirms(es)) == es
  {
    if es != [] {
      var front := es[..|es| - 1];
      AllDistinct(front);
      assert Confirms(es)[..|es| - 1] == Confirms(front);
      assert Confirms(es)[|es| - 1] == Confirm(es[|es| - 1]);
      assert !HasKey(front, es[|es| - 1].key);
      assert es == front + [es[|es| - 1]];
    }
  }

  /** The amount of a threshold-passing event of this wallet and asset, and zero for any other. */
  function ConfirmedAmount(cfg: Config, w: Uuid, asset: string): Event -> real {
    (e: Event) => if Mine(e, w, asset) && IsConfirmed(cfg, e) then e.amount else 0.0
  }

  lemma {:induction false} NothingDemoted(cfg: Config, es: seq<Keyed>, w: Uuid, asset: string)
    requires DistinctKeys(es)
    ensures Sum(SinceReorg(cfg, Confirms(es), w, asset), Amount(w, asset)) == Sum(es, ConfirmedAmount(cfg, w, asset))
  {
    if es != [] {
      var front, k := es[..|es| - 1], es[|es| - 1];
      NothingDemoted(cfg, front, w, asset);
      AllDistinct(front);
      assert Confirms(es)[..|es| - 1] == Confirms(front);
      assert Confirms(es)[|es| - 1] == Confirm(k);
      assert !HasKey(front, k.key);
      SumSnoc(SinceReorg(cfg, Confirms(front), w, asset), k, Amount(w, asset));
    }
  }

  /** Taking one element out of the middle takes its share out of the sum. */
  lemma {:induction false} SumWithout(es: seq<Keyed>, i: nat, f: Event -> real)
    requires i < |es|
    ensures Sum(es, f) == Sum(es[..i] + es[i + 1..], f) + f(es[i].e)
  {
    var rest := es[..i] + es[i + 1..];
    if i == |es| - 1 {
      assert rest == es[..|es| - 1];
    } else {
      var front := es[..|es| - 1];
      SumWithout(front, i, f);
      assert rest[..|rest| - 1] == front[..i] + front[i + 1..];
      assert rest[|rest| - 1] == es[|es| - 1];
    }
  }

  lemma WithoutOne(a: seq<Keyed>, b: seq<Keyed>, i: nat)
    requires a != [] && multiset(a) == multiset(b) && i < |b| && b[i] == a[|a| - 1]
    ensures multiset(a[..|a| - 1]) == multiset(b[..i] + b[i + 1..])
  {
    var front, rest, x := a[..|a| - 1], b[..i] + b[i + 1..], b[i];
    assert a == front + [x];
    assert b == b[..i] + ([x] + b[i + 1..]);
    assert multiset(a) == multiset(front) + multiset{x};
    assert multiset(b) == multiset(b[..i]) + (multiset{x} + multiset(b[i + 1..]));
    assert multiset(rest) == multiset(b[..i]) + multiset(b[i + 1..]);
    assert multiset(front) == multiset(a) - multiset{x} && multiset(rest) == multiset(b) - multiset{x};
  }

  lemma {:induction false} SumPermuted(a: seq<Keyed>, b: seq<Keyed>, f: Event -> real)
    requires multiset(a) == multiset(b)
    ensures Sum(a, f) == Sum(b, f)
    decreases |a|
  {
    if a == [] {
      assert |b| == |multiset(b)| == 0;
    } else {
      assert a[|a| - 1] in multiset(b);
      var i :| 0 <= i < |b| && b[i] == a[|a| - 1];
      WithoutOne(a, b, i);
      SumPermuted(a[..|a| - 1], b[..i] + b[i + 1..], f);
      SumWithout(b, i, f);
    }
  }

  lemma MaxPermuted(a: seq<Keyed>, b: seq<Keyed>, w: Uuid, asset: string)
    requires multiset(a) == multiset(b)
    ensures MaxHeight(a, w, asset) <= MaxHeight(b, w, asset)
  {
    MaxHeightIsMax(a, w, asset);
    MaxHeightIsMax(b, w, asset);
    if MaxHeight(a, w, asset) != 0 {
      var i :| 0 <= i < |a| && Mine(a[i].e, w, asset) && a[i].e.height == MaxHeight(a, w, asset);
      assert a[i] in multiset(b);
    }
  }

  /** Confirmation events with distinct keys give the same balances in whatever order they arrive. */
  lemma OrderDoesNotMatter(cfg: Config, a: seq<Keyed>, b: seq<Keyed>, w: Uuid, asset: string)
    requires multiset(a) == multiset(b) && DistinctKeys(a) && DistinctKeys(b)
    ensures var x, y := Held(After(cfg, Confirms(a)), w, asset), Held(After(cfg, Confirms(b)), w, asset);
            x.confirmed == y.confirmed && x.pending == y.pending && x.last == y.last
  {
    LedgerIsHistory(cfg, Confirms(a), w, asset);
    LedgerIsHistory(cfg, Confirms(b), w, asset);
    AllDistinct(a);
    AllDistinct(b);
    NothingDemoted(cfg, a, w, asset);
    NothingDemoted(cfg, b, w, asset);
    SumPermuted(a, b, Amount(w, asset));
    SumPermuted(a, b, ConfirmedAmount(cfg, w, asset));
    MaxPermuted(a, b, w, asset);
    MaxPermuted(b, a, w, asset);
  }
}
