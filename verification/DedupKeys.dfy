/** The in-flight key of a withdrawal request: exactly which requests it identifies. */
module DedupKeys {
  import opened Prelude
  import opened Domain
  import Text

  /** No field that precedes another in the key holds the separator. */
  predicate Clean(req: Request) {
    '|' !in req.to && '|' !in req.amount
  }

  lemma WalletSplit(a: Request, b: Request)
    requires DedupKey(a) == DedupKey(b)
    ensures a.walletId == b.walletId
    ensures a.to + "|" + (a.amount + "|" + a.asset) == b.to + "|" + (b.amount + "|" + b.asset)
  {
    var ra, rb := a.to + "|" + (a.amount + "|" + a.asset), b.to + "|" + (b.amount + "|" + b.asset);
    assert DedupKey(a) == a.walletId + ("|" + ra) && DedupKey(b) == b.walletId + ("|" + rb);
    assert a.walletId == DedupKey(a)[..36] && b.walletId == DedupKey(b)[..36];
    assert "|" + ra == DedupKey(a)[36..] && "|" + rb == DedupKey(b)[36..];
    assert ra == ("|" + ra)[1..] && rb == ("|" + rb)[1..];
  }

  /** Among clean requests the key identifies the wallet, the address, the amount and the asset. */
  lemma KeyInjective(a: Request, b: Request)
    requires Clean(a) && Clean(b)
    ensures DedupKey(a) == DedupKey(b) <==> a == b
  {
    if DedupKey(a) == DedupKey(b) {
      WalletSplit(a, b);
      Text.SplitFirst(a.to, a.amount + "|" + a.asset, b.to, b.amount + "|" + b.asset, '|');
      Text.SplitFirst(a.amount, a.asset, b.amount, b.asset, '|');
    }
  }

  function Bars(req: Request): nat {
    Text.Count(req.to, '|') + Text.Count(req.amount, '|') + Text.Count(req.asset, '|')
  }

  lemma KeyBars(req: Request)
    ensures Text.Count(req.to + "|" + (req.amount + "|" + req.asset), '|') == Bars(req) + 2
  {
    var bar := '|';
    Text.CountConcat(req.amount, "|", bar);
    Text.CountConcat(req.amount + "|", req.asset, bar);
    Text.CountConcat(req.to, "|", bar);
    Text.CountConcat(req.to + "|", req.amount + "|" + req.asset, bar);
  }

  /** A separator inside a field can be moved across the next separator without changing the key. */
  lemma MoveBar(w: Uuid, x: string, y: string, z: string, asset: string)
    ensures DedupKey(Request(w, x + "|" + y, asset, z)) == DedupKey(Request(w, x, asset, y + "|" + z))
    ensures DedupKey(Request(w, z, asset, x + "|" + y)) == DedupKey(Request(w, z, y + "|" + asset, x))
  {
    assert DedupKey(Request(w, x + "|" + y, asset, z)) == w + "|" + x + "|" + y + "|" + z + "|" + asset;
    assert DedupKey(Request(w, x, asset, y + "|" + z)) == w + "|" + x + "|" + y + "|" + z + "|" + asset;
    assert DedupKey(Request(w, z, asset, x + "|" + y)) == w + "|" + z + "|" + x + "|" + y + "|" + asset;
    assert DedupKey(Request(w, z, y + "|" + asset, x)) == w + "|" + z + "|" + x + "|" + y + "|" + asset;
  }

  lemma CutAtBar(s: string) returns (x: string, y: string)
    requires '|' in s
    ensures s == x + "|" + y
  {
    var i :| 0 <= i < |s| && s[i] == '|';
    x, y := s[..i], s[i + 1..];
  }

  /** The key of a request belongs to no other request exactly when none of its fields holds the separator. */
  lemma KeyUniqueIff(a: Request)
    ensures (forall b: Request :: DedupKey(b) == DedupKey(a) ==> b == a)
            <==> '|' !in a.to && '|' !in a.amount && '|' !in a.asset
  {
    if '|' !in a.to && '|' !in a.amount && '|' !in a.asset {
      forall b: Request | DedupKey(b) == DedupKey(a)
        ensures b == a
      {
        WalletSplit(a, b);
        KeyBars(a);
        KeyBars(b);
        Text.CountZero(a.to, '|');
        Text.CountZero(a.amount, '|');
        Text.CountZero(a.asset, '|');
        Text.CountZero(b.to, '|');
        Text.CountZero(b.amount, '|');
        KeyInjective(a, b);
      }
    } else {
      SomeoneShares(a);
    }
  }

  lemma SomeoneShares(a: Request)
    requires '|' in a.to || '|' in a.amount || '|' in a.asset
    ensures exists b: Request :: DedupKey(b) == DedupKey(a) && b != a
  {
    var b: Request;
    if '|' in a.to {
      var x, y := CutAtBar(a.to);
      MoveBar(a.walletId, x, y, a.amount, a.asset);
      b := Request(a.walletId, x, a.asset, y + "|" + a.amount);
      assert |b.to| < |a.to|;
    } else if '|' in a.amount {
      var x, y := CutAtBar(a.amount);
      MoveBar(a.walletId, x, y, a.to, a.asset);
      b := Request(a.walletId, a.to, y + "|" + a.asset, x);
      assert |b.amount| < |a.amount|;
    } else {
      var x, y := CutAtBar(a.asset);
      MoveBar(a.walletId, a.amount, x, a.to, y);
      b := Request(a.walletId, a.to, y, a.amount + "|" + x);
      assert |b.asset| < |a.asset|;
    }
    assert DedupKey(b) == DedupKey(a) && b != a;
  }
}
