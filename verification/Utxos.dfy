/**
 The BTC UTXO table: locking, spending and restoring rows, and largest-first coin selection.
 Values are scaled decimals, modelled as integers.
 */
module Utxos {
  import opened Prelude

  datatype LockState = Free | Locked | Spent

  datatype Utxo = Utxo(walletId: Uuid, value: int, lock: LockState, txHash: string)

  type Table = map<string, Utxo>

  // ---------------------------------------------------------------- table operations as functions

  predicate AllFree(t: Table, ops: seq<string>) {
    forall i :: 0 <= i < |ops| ==> ops[i] in t && t[ops[i]].lock.Free?
  }

  /** All-or-nothing: every row must exist and be free before any is locked. */
  function LockAll(t: Table, ops: seq<string>): Option<Table> {
    if AllFree(t, ops) then Some(map op | op in t :: if op in ops then t[op].(lock := Locked) else t[op])
    else None
  }

  function Spend(u: Utxo, txHash: string): Utxo {
    u.(lock := Spent, txHash := txHash)
  }

  function Unlock(u: Utxo): Utxo {
    u.(lock := Free, txHash := "")
  }

  /** The outpoints that come before the first one the table lacks. */
  function Known(t: Table, ops: seq<string>): (k: seq<string>)
    ensures k <= ops && forall i :: 0 <= i < |k| ==> k[i] in t
    ensures |k| < |ops| ==> ops[|k|] !in t
  {
    if ops == [] || ops[0] !in t then [] else [ops[0]] + Known(t, ops[1..])
  }

  lemma {:induction false} KnownAt(t: Table, ops: seq<string>, i: nat)
    requires i <= |ops| && forall j :: 0 <= j < i ==> ops[j] in t
    requires i == |ops| || ops[i] !in t
    ensures Known(t, ops) == ops[..i]
  {
  }

  /** The rows named in `ops`, replaced by `f` of themselves. */
  function Rewrite(t: Table, ops: seq<string>, f: Utxo -> Utxo): Table {
    map op | op in t :: if op in ops then f(t[op]) else t[op]
  }

  /** Rows up to the first unknown outpoint are rewritten; the rest are left alone. */
  function MarkSpent(t: Table, ops: seq<string>, txHash: string): Table {
    Rewrite(t, Known(t, ops), u => Spend(u, txHash))
  }

  function Restore(t: Table, ops: seq<string>): Table {
    Rewrite(t, Known(t, ops), Unlock)
  }

  lemma RestoreNothing(t: Table)
    ensures Restore(t, []) == t
  {
  }

  /** Rewriting one more row; a row named twice is rewritten once. */
  lemma RewriteNext(t: Table, ops: seq<string>, op: string, f: Utxo -> Utxo)
    requires op in t && f(f(t[op])) == f(t[op])
    ensures var r := Rewrite(t, ops, f); r[op := f(r[op])] == Rewrite(t, ops + [op], f)
  {
  }

  /** Outpoint and value of every free row of a wallet: what listing returns. */
  function Listing(t: Table, walletId: Uuid): map<string, int> {
    map op | op in t && t[op].walletId == walletId && t[op].lock.Free? :: t[op].value
  }

  // ---------------------------------------------------------------- sums and arrangements

  ghost predicate NoDup(s: seq<string>) {
    forall i, j :: 0 <= i < j < |s| ==> s[i] != s[j]
  }

  ghost predicate Descending(v: map<string, int>, s: seq<string>) {
    && (forall i :: 0 <= i < |s| ==> s[i] in v)
    && forall i, j :: 0 <= i < j < |s| ==> v[s[i]] >= v[s[j]]
  }

  function Elements(s: seq<string>): set<string> {
    set x | x in s
  }

  lemma ElementsSnoc(s: seq<string>, x: string)
    ensures Elements(s + [x]) == Elements(s) + {x}
  {
  }

  lemma ElementsCons(x: string, s: seq<string>)
    ensures Elements([x] + s) == Elements(s) + {x}
  {
  }

  /** A listing in largest-first order; ties may stand in any order. */
  ghost predicate Arrangement(v: map<string, int>, order: seq<string>) {
    NoDup(order) && Elements(order) == v.Keys && Descending(v, order)
  }

  /** Value of the first `k` outpoints of an order. */
  function Prefix(v: map<string, int>, order: seq<string>, k: nat): int
    requires k <= |order| && forall i :: 0 <= i < |order| ==> order[i] in v
  {
    if k == 0 then 0 else Prefix(v, order, k - 1) + v[order[k - 1]]
  }

  ghost function SetSum(v: map<string, int>, s: set<string>): int
    requires s <= v.Keys
  {
    if s == {} then 0 else
    var x :| x in s;
    v[x] + SetSum(v, s - {x})
  }

  lemma {:induction false} SetSumRemove(v: map<string, int>, s: set<string>, x: string)
    requires s <= v.Keys && x in s
    ensures SetSum(v, s) == v[x] + SetSum(v, s - {x})
    decreases s
  {
    var y :| y in s && SetSum(v, s) == v[y] + SetSum(v, s - {y});
    if x != y {
      SetSumRemove(v, s - {y}, x);
      SetSumRemove(v, s - {x}, y);
      assert s - {x} - {y} == s - {y} - {x};
    }
  }

  /** The total of the first `k` outpoints is the sum over the set they form. */
  lemma {:induction false} PrefixIsSetSum(v: map<string, int>, order: seq<string>, k: nat)
    requires NoDup(order) && k <= |order| && forall i :: 0 <= i < |order| ==> order[i] in v
    ensures Elements(order[..k]) <= v.Keys && SetSum(v, Elements(order[..k])) == Prefix(v, order, k)
  {
    if k > 0 {
      PrefixIsSetSum(v, order, k - 1);
      var x := order[k - 1];
      assert order[..k] == order[..k - 1] + [x];
      ElementsSnoc(order[..k - 1], x);
      assert x !in order[..k - 1];
      assert Elements(order[..k]) - {x} == Elements(order[..k - 1]);
      SetSumRemove(v, Elements(order[..k]), x);
    }
  }

  // ---------------------------------------------------------------- largest-first selection

  ghost predicate InListing(v: map<string, int>, order: seq<string>) {
    forall i :: 0 <= i < |order| ==> order[i] in v
  }

  lemma DescendingAt(v: map<string, int>, order: seq<string>, i: nat, j: nat)
    requires Descending(v, order) && i <= j < |order|
    ensures InListing(v, order) && v[order[i]] >= v[order[j]]
  {
  }

  /** One more outpoint, at position `n - 1`, joins a set of `k - 1`: the k-th of the order is worth no less. */
  lemma {:induction false} JoinBounded(v: map<string, int>, order: seq<string>, n: nat, s: set<string>)
    requires Descending(v, order) && InListing(v, order) && 0 < n <= |order|
    requires s <= v.Keys && order[n - 1] in s && |s| <= n
    requires SetSum(v, s - {order[n - 1]}) <= Prefix(v, order, |s| - 1)
    ensures SetSum(v, s) <= Prefix(v, order, |s|)
  {
    SetSumRemove(v, s, order[n - 1]);
    DescendingAt(v, order, |s| - 1, n - 1);
  }

  /** No set drawn from the first `n` outpoints is worth more than a prefix of its own size. */
  lemma {:induction false} PrefixIsRichest(v: map<string, int>, order: seq<string>, n: nat, s: set<string>)
    requires Descending(v, order) && InListing(v, order) && n <= |order| && s <= Elements(order[..n])
    ensures s <= v.Keys && |s| <= n && SetSum(v, s) <= Prefix(v, order, |s|)
  {
    if n == 0 {
      assert s == {};
    } else {
      var x := order[n - 1];
      assert order[..n] == order[..n - 1] + [x];
      ElementsSnoc(order[..n - 1], x);
      PrefixIsRichest(v, order, n - 1, s - {x});
      if x in s {
        assert |s| == |s - {x}| + 1;
        JoinBounded(v, order, n, s);
      } else {
        assert s - {x} == s;
      }
    }
  }

  /**
   What the selection promises: the selected outpoints are distinct members of the listing, worth
   exactly `total`, enough, as few as any set that is enough, and each of them needed.
   */
  ghost predicate Optimal(v: map<string, int>, amount: int, sel: seq<string>, total: int) {
    && NoDup(sel) && Elements(sel) <= v.Keys
    && amount <= total == SetSum(v, Elements(sel))
    && (forall s: set<string> :: s <= v.Keys && SetSum(v, s) >= amount ==> |sel| <= |s|)
    && (forall i :: 0 <= i < |sel| ==> sel[i] in v && total - v[sel[i]] < amount)
  }

  ghost predicate Affordable(v: map<string, int>, amount: int) {
    exists s: set<string> :: s <= v.Keys && SetSum(v, s) >= amount
  }

  /** The first `k` outpoints are what the loop takes: it went on only while short of the amount. */
  ghost predicate StopsAt(v: map<string, int>, order: seq<string>, amount: int, k: nat)
    requires forall i :: 0 <= i < |order| ==> order[i] in v
  {
    && k <= |order|
    && (forall j :: 0 <= j < k ==> Prefix(v, order, j) < amount)
    && (k < |order| ==> Prefix(v, order, k) >= amount)
  }

  /** A set that reaches the amount is at least as large as the selection, which then reaches it too. */
  lemma EnoughNeeds(v: map<string, int>, order: seq<string>, amount: int, k: nat, s: set<string>)
    requires Arrangement(v, order) && StopsAt(v, order, amount, k)
    requires s <= v.Keys && SetSum(v, s) >= amount
    ensures k <= |s| && Prefix(v, order, k) >= amount
  {
    assert order[..|order|] == order;
    PrefixIsRichest(v, order, |order|, s);
  }

  /** Without any one of the selected outpoints the rest would not reach the amount. */
  lemma EachNeeded(v: map<string, int>, order: seq<string>, amount: int, k: nat, i: nat)
    requires Arrangement(v, order) && StopsAt(v, order, amount, k) && i < k
    ensures Prefix(v, order, k) - v[order[i]] < amount
  {
    assert v[order[i]] >= v[order[k - 1]];
    assert Prefix(v, order, k - 1) < amount;
  }

  /** Largest-first selection succeeds exactly when the amount is affordable, and then it is optimal. */
  lemma SelectionOptimal(v: map<string, int>, order: seq<string>, amount: int, k: nat)
    requires Arrangement(v, order) && StopsAt(v, order, amount, k)
    ensures Prefix(v, order, k) >= amount <==> Affordable(v, amount)
    ensures Prefix(v, order, k) >= amount ==> Optimal(v, amount, order[..k], Prefix(v, order, k))
  {
    var sel, total := order[..k], Prefix(v, order, k);
    PrefixIsSetSum(v, order, k);
    assert total >= amount ==> Affordable(v, amount);
    forall s: set<string> | s <= v.Keys && SetSum(v, s) >= amount
      ensures k <= |s| && total >= amount
    {
      EnoughNeeds(v, order, amount, k, s);
    }
    forall i | 0 <= i < |sel|
      ensures sel[i] in v && total - v[sel[i]] < amount
    {
      EachNeeded(v, order, amount, k, i);
    }
  }

  // ---------------------------------------------------------------- the service

  function InsertDesc(v: map<string, int>, s: seq<string>, x: string): seq<string>
    requires x in v && forall i :: 0 <= i < |s| ==> s[i] in v
  {
    if s == [] || v[x] > v[s[0]] then [x] + s else [s[0]] + InsertDesc(v, s[1..], x)
  }

  lemma {:induction false} InsertDescElements(v: map<string, int>, s: seq<string>, x: string)
    requires x in v && InListing(v, s)
    ensures Elements(InsertDesc(v, s, x)) == Elements(s) + {x}
    ensures InListing(v, InsertDesc(v, s, x))
  {
    if s == [] || v[x] > v[s[0]] {
      ElementsCons(x, s);
    } else {
      InsertDescElements(v, s[1..], x);
      assert s == [s[0]] + s[1..];
      ElementsCons(s[0], s[1..]);
      ElementsCons(s[0], InsertDesc(v, s[1..], x));
    }
  }

  lemma ConsDescending(v: map<string, int>, a: string, t: seq<string>)
    requires a in v && Descending(v, t) && forall j :: 0 <= j < |t| ==> t[j] in v && v[a] >= v[t[j]]
    ensures Descending(v, [a] + t)
  {
  }

  lemma {:induction false} InsertDescSorted(v: map<string, int>, s: seq<string>, x: string)
    requires x in v && Descending(v, s)
    ensures Descending(v, InsertDesc(v, s, x))
  {
    if s == [] || v[x] > v[s[0]] {
      ConsDescending(v, x, s);
    } else {
      InsertDescSorted(v, s[1..], x);
      InsertDescElements(v, s[1..], x);
      var t := InsertDesc(v, s[1..], x);
      forall j | 0 <= j < |t|
        ensures t[j] in v && v[s[0]] >= v[t[j]]
      {
        assert t[j] in Elements(t);
      }
      ConsDescending(v, s[0], t);
    }
  }

  lemma {:induction false} InsertDescNoDup(v: map<string, int>, s: seq<string>, x: string)
    requires x in v && InListing(v, s) && NoDup(s) && x !in s
    ensures NoDup(InsertDesc(v, s, x))
  {
    if s != [] && v[x] <= v[s[0]] {
      InsertDescNoDup(v, s[1..], x);
      InsertDescElements(v, s[1..], x);
      var t := InsertDesc(v, s[1..], x);
      assert s[0] !in Elements(t);
      assert s[0] !in t;
    }
  }

  /** Sorts distinct outpoints by value, largest first. */
  method SortByValue(v: map<string, int>, s: seq<string>) returns (r: seq<string>)
    requires NoDup(s) && Elements(s) == v.Keys
    ensures Arrangement(v, r)
  {
    r := [];
    for i := 0 to |s|
      invariant Descending(v, r) && NoDup(r) && Elements(r) == Elements(s[..i])
    {
      assert s[i] !in r by {
        assert s[i] in Elements(r) <==> s[i] in s[..i];
      }
      assert s[i] in Elements(s);
      InsertDescSorted(v, r, s[i]);
      InsertDescElements(v, r, s[i]);
      InsertDescNoDup(v, r, s[i]);
      r := InsertDesc(v, r, s[i]);
      assert s[..i + 1] == s[..i] + [s[i]];
    }
    assert s[..|s|] == s;
  }

  /** The accumulating loop: takes outpoints in order until the total reaches the amount. */
  method TakeUntil(v: map<string, int>, order: seq<string>, amount: int)
    returns (selected: seq<string>, total: int)
    requires Arrangement(v, order)
    ensures total >= amount <==> Affordable(v, amount)
    ensures total >= amount ==> Optimal(v, amount, selected, total)
    ensures selected <= order && total == Prefix(v, order, |selected|) && StopsAt(v, order, amount, |selected|)
  {
    selected, total := [], 0;
    var i := 0;
    while i < |order|
      invariant 0 <= i <= |order|
      invariant selected == order[..i] && total == Prefix(v, order, i)
      invariant forall j :: 0 <= j < i ==> Prefix(v, order, j) < amount
    {
      if total >= amount {
        break;
      }
      selected := selected + [order[i]];
      total := total + v[order[i]];
      i := i + 1;
    }
    SelectionOptimal(v, order, amount, i);
  }

  class Store {
    var utxos: Table

    constructor ()
      ensures utxos == map[]
    {
      utxos := map[];
    }

    method ListFreeUtxos(walletId: Uuid) returns (out: seq<string>)
      ensures NoDup(out) && Elements(out) == Listing(utxos, walletId).Keys
    {
      out := [];
      var left := utxos.Keys;
      while left != {}
        invariant left <= utxos.Keys
        invariant NoDup(out) && Elements(out) == Listing(utxos, walletId).Keys - left
        decreases left
      {
        var op :| op in left;
        ghost var was := out;
        left := left - {op};
        if utxos[op].walletId == walletId && utxos[op].lock.Free? {
          out := out + [op];
        }
        ElementsSnoc(was, op);
      }
    }

    /** Checks every row, then locks every row. */
    method LockUtxos(ops: seq<string>) returns (ok: bool)
      modifies this
      ensures ok <==> AllFree(old(utxos), ops)
      ensures utxos == if ok then LockAll(old(utxos), ops).value else old(utxos)
    {
      for i := 0 to |ops|
        invariant AllFree(utxos, ops[..i]) && utxos == old(utxos)
      {
        if ops[i] !in utxos || !utxos[ops[i]].lock.Free? {
          return false;
        }
        assert ops[..i + 1] == ops[..i] + [ops[i]];
      }
      assert ops[..|ops|] == ops;
      for i := 0 to |ops|
        invariant utxos == map op | op in old(utxos) ::
                    if op in ops[..i] then old(utxos)[op].(lock := Locked) else old(utxos)[op]
      {
        assert ops[..i + 1] == ops[..i] + [ops[i]];
        utxos := utxos[ops[i] := utxos[ops[i]].(lock := Locked)];
      }
      return true;
    }

    method MarkUtxosSpent(ops: seq<string>, txHash: string) returns (ok: bool)
      modifies this
      ensures utxos == MarkSpent(old(utxos), ops, txHash)
      ensures ok <==> Known(old(utxos), ops) == ops
    {
      var i := 0;
      while i < |ops|
        invariant 0 <= i <= |ops| && forall j :: 0 <= j < i ==> ops[j] in old(utxos)
        invariant utxos == Rewrite(old(utxos), ops[..i], u => Spend(u, txHash))
      {
        if ops[i] !in utxos {
          KnownAt(old(utxos), ops, i);
          return false;
        }
        RewriteNext(old(utxos), ops[..i], ops[i], u => Spend(u, txHash));
        assert ops[..i + 1] == ops[..i] + [ops[i]];
        utxos := utxos[ops[i] := Spend(utxos[ops[i]], txHash)];
        i := i + 1;
      }
      KnownAt(old(utxos), ops, i);
      assert ops[..i] == ops;
      return true;
    }

    method RestoreUtxos(ops: seq<string>) returns (ok: bool)
      modifies this
      ensures utxos == Restore(old(utxos), ops)
      ensures ok <==> Known(old(utxos), ops) == ops
    {
      var i := 0;
      while i < |ops|
        invariant 0 <= i <= |ops| && forall j :: 0 <= j < i ==> ops[j] in old(utxos)
        invariant utxos == Rewrite(old(utxos), ops[..i], Unlock)
      {
        if ops[i] !in utxos {
          KnownAt(old(utxos), ops, i);
          return false;
        }
        RewriteNext(old(utxos), ops[..i], ops[i], Unlock);
        assert ops[..i + 1] == ops[..i] + [ops[i]];
        utxos := utxos[ops[i] := Unlock(utxos[ops[i]])];
        i := i + 1;
      }
      KnownAt(old(utxos), ops, i);
      assert ops[..i] == ops;
      return true;
    }

    /**
     Selects free outpoints largest first, then locks them. It succeeds exactly when some set of the
     wallet's free outpoints reaches the amount, with as few inputs as any such set, none of them
     superfluous; exactly the selected rows become locked.
     */
    method SelectForAmount(walletId: Uuid, amount: int)
      returns (r: Option<(seq<string>, int)>, ghost order: seq<string>)
      modifies this
      ensures r.Some? <==> Affordable(Listing(old(utxos), walletId), amount)
      ensures r.None? ==> utxos == old(utxos)
      ensures r.Some? ==> Optimal(Listing(old(utxos), walletId), amount, r.value.0, r.value.1)
      ensures r.Some? ==> LockAll(old(utxos), r.value.0) == Some(utxos)
      ensures var v := Listing(old(utxos), walletId);
              r.Some? ==> Arrangement(v, order) && r.value.0 <= order && StopsAt(v, order, amount, |r.value.0|)
                          && Prefix(v, order, |r.value.0|) >= amount
    {
      var listed := ListFreeUtxos(walletId);
      var value := Listing(utxos, walletId);
      var free := SortByValue(value, listed);
      order := free;
      var selected, total := TakeUntil(value, free, amount);
      if total < amount {
        return None, order;
      }
      assert AllFree(utxos, selected) by {
        assert forall i :: 0 <= i < |selected| ==> selected[i] in value;
      }
      var ok := LockUtxos(selected);
      return Some((selected, total)), order;
    }
  }
}
