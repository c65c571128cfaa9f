/**
 Address derivation behind a shared cache: the in-memory cache with expiry, the Bitcoin and EVM derivers
 that use it, and the derivation path text. Key derivation on the curve is a parameter.
 */
module Derivers {
  import opened Prelude
  import opened Domain
  import opened EvmAddress
  import Decimals
  import Text

  // ---------------------------------------------------------------- the cache

  datatype Entry = Entry(value: string, exp: int)

  type Data = map<string, Entry>

  /** An entry counts until its expiry time has passed. */
  function Lookup(d: Data, key: string, now: int): Option<string> {
    if key in d && now <= d[key].exp then Some(d[key].value) else None
  }

  /** A lookup drops the entry when it is missing or expired. */
  function Looked(d: Data, key: string, now: int): Data {
    if Lookup(d, key, now).Some? then d else d - {key}
  }

  class MemCache {
    var data: Data

    constructor ()
      ensures data == map[]
    {
      data := map[];
    }

    method Get(key: string, now: int) returns (v: Option<string>)
      modifies this
      ensures v == Lookup(old(data), key, now) && data == Looked(old(data), key, now)
      ensures v.Some? <==> key in old(data) && now <= old(data)[key].exp
      ensures v.Some? ==> v.value == old(data)[key].value && data == old(data)
      ensures v.None? ==> data == old(data) - {key}
    {
      if key !in data || now > data[key].exp {
        data := data - {key};
        return None;
      }
      return Some(data[key].value);
    }

    method Set(key: string, value: string, ttl: int, now: int)
      modifies this
      ensures data == old(data)[key := Entry(value, now + ttl)]
      ensures ttl >= 0 ==> Lookup(data, key, now) == Some(value)
    {
      data := data[key := Entry(value, now + ttl)];
    }

    method Del(keys: seq<string>)
      modifies this
      ensures data == old(data) - set k | k in keys
    {
      for i := 0 to |keys|
        invariant data == old(data) - set k | k in keys[..i]
      {
        assert keys[..i + 1] == keys[..i] + [keys[i]];
        data := data - {keys[i]};
      }
      assert keys[..|keys|] == keys;
    }
  }

  // ---------------------------------------------------------------- queries

  /** Public key derivation: the address of a child of an extended public key. */
  datatype Curve = Curve(btc: (string, int, int) -> Result<string>, evm: (string, int) -> Result<string>)

  datatype Derived = Derived(address: string, path: string, index: int, change: int)

  /** A DeriveAt call: which deriver, for which account key, chain, index and change chain. */
  datatype Query =
    | Btc(xpub: string, chain: Chain, index: int, change: int)
    | Evm(xpub: string, chain: Chain, index: int, change: int)

  /** Why a query is refused before the cache is consulted. */
  function Refusal(q: Query): Option<string> {
    match q
    case Btc(_, chain, index, change) =>
      if !chain.Bitcoin? then Some("non-BTC chain passed to BTCDeriver")
      else if change != 0 && change != 1 then Some("BTC change chain must be 0 or 1")
      else if index < 0 then Some("BTC index must be >= 0")
      else None
    case Evm(_, chain, index, change) =>
      if !chain.IsEvm() then Some("non-EVM chain passed to EVMDeriver")
      else if change != 0 then Some("EVM change chain must be 0")
      else if index < 0 then Some("EVM index must be >= 0")
      else None
  }

  function Path(q: Query): string {
    if q.Btc? then "m/84'/0'/0'/" + Decimals.Format(q.change) + "/" + Decimals.Format(q.index)
    else "m/44'/60'/0'/0/" + Decimals.Format(q.index)
  }

  function CacheKey(q: Query): string {
    if q.Btc? then "deriv:btc:" + q.xpub + ":" + Decimals.Format(q.change) + ":" + Decimals.Format(q.index)
    else "deriv:evm:" + q.xpub + ":" + Decimals.Format(q.index)
  }

  const HARDENED: int := 0x8000_0000

  /** The address derived without a cache; hardened indexes are refused. */
  function Derive(curve: Curve, q: Query): Result<string> {
    if !(0 <= q.index < HARDENED) then Err("derivation index out of non-hardened range")
    else if q.Btc? then curve.btc(q.xpub, q.change, q.index)
    else curve.evm(q.xpub, q.index)
  }

  function Answer(q: Query, address: string): Derived {
    Derived(address, Path(q), q.index, q.change)
  }

  /** What a query returns when there is no cache at all. */
  function Uncached(curve: Curve, q: Query): Result<Derived> {
    if Refusal(q).Some? then Err(Refusal(q).value)
    else
      match Derive(curve, q)
      case Err(e) => Err(e)
      case Ok(a) => Ok(Answer(q, a))
  }

  /** The same derivation is asked for, whichever chain name an EVM query carries. */
  predicate SameChild(p: Query, q: Query) {
    (p.Btc? <==> q.Btc?) && p.xpub == q.xpub && p.change == q.change && p.index == q.index
  }

  lemma NoColon(n: int)
    ensures ':' !in Decimals.Format(n) && '/' !in Decimals.Format(n)
  {
    if ':' in Decimals.Format(n) {
      Decimals.FormatChars(n, ':');
    }
    if '/' in Decimals.Format(n) {
      Decimals.FormatChars(n, '/');
    }
  }

  lemma NumberedInjective(a: string, m: int, b: string, n: int)
    requires a + ":" + Decimals.Format(m) == b + ":" + Decimals.Format(n)
    ensures a == b && m == n
  {
    NoColon(m);
    NoColon(n);
    Text.SplitLast(a, Decimals.Format(m), b, Decimals.Format(n), ':');
    Decimals.FormatInjective(m, n);
  }

  lemma SamePrefix(p: string, a: string, b: string)
    requires p + a == p + b
    ensures a == b
  {
    assert a == (p + a)[|p|..] && b == (p + b)[|p|..];
  }

  lemma BtcKeyInjective(x: string, c: int, i: int, y: string, d: int, j: int)
    requires "deriv:btc:" + x + ":" + Decimals.Format(c) + ":" + Decimals.Format(i)
          == "deriv:btc:" + y + ":" + Decimals.Format(d) + ":" + Decimals.Format(j)
    ensures x == y && c == d && i == j
  {
    NumberedInjective("deriv:btc:" + x + ":" + Decimals.Format(c), i, "deriv:btc:" + y + ":" + Decimals.Format(d), j);
    NumberedInjective("deriv:btc:" + x, c, "deriv:btc:" + y, d);
    SamePrefix("deriv:btc:", x, y);
  }

  lemma EvmKeyInjective(x: string, i: int, y: string, j: int)
    requires "deriv:evm:" + x + ":" + Decimals.Format(i) == "deriv:evm:" + y + ":" + Decimals.Format(j)
    ensures x == y && i == j
  {
    NumberedInjective("deriv:evm:" + x, i, "deriv:evm:" + y, j);
    SamePrefix("deriv:evm:", x, y);
  }

  lemma KindInKey(q: Query)
    ensures |CacheKey(q)| > 6 && (CacheKey(q)[6] == 'b' <==> q.Btc?)
  {
  }

  /** Accepted queries share a cache key exactly when they ask for the same child of the same key. */
  lemma CacheKeyInjective(p: Query, q: Query)
    requires Refusal(p).None? && Refusal(q).None?
    ensures CacheKey(p) == CacheKey(q) <==> SameChild(p, q)
  {
    if CacheKey(p) == CacheKey(q) {
      KindInKey(p);
      KindInKey(q);
      if p.Btc? {
        BtcKeyInjective(p.xpub, p.change, p.index, q.xpub, q.change, q.index);
      } else {
        EvmKeyInjective(p.xpub, p.index, q.xpub, q.index);
      }
    }
  }

  // ---------------------------------------------------------------- the cached derivation

  /** Whatever is stored under the key of an accepted query is that query's address. */
  ghost predicate Coherent(curve: Curve, d: Data) {
    forall q :: Refusal(q).None? && CacheKey(q) in d ==> Derive(curve, q) == Ok(d[CacheKey(q)].value)
  }

  lemma StoreCoherent(curve: Curve, d: Data, q: Query, address: string, exp: int)
    requires Coherent(curve, d) && Refusal(q).None? && Derive(curve, q) == Ok(address)
    ensures Coherent(curve, d[CacheKey(q) := Entry(address, exp)])
  {
    forall p | Refusal(p).None? && CacheKey(p) in d[CacheKey(q) := Entry(address, exp)]
      ensures Derive(curve, p) == Ok(d[CacheKey(q) := Entry(address, exp)][CacheKey(p)].value)
    {
      CacheKeyInjective(p, q);
    }
  }

  /** How the cache behaves during one query: the time, and whether reading or writing it fails. */
  datatype Weather = Weather(now: int, getFails: bool, setFails: bool, ttl: int)

  /** A query through the cache: the result and the cache afterwards. */
  function Cached(curve: Curve, d: Data, q: Query, e: Weather): (Result<Derived>, Data) {
    if Refusal(q).Some? then (Err(Refusal(q).value), d)
    else
      var key := CacheKey(q);
      var d' := if e.getFails then d else Looked(d, key, e.now);
      if !e.getFails && Lookup(d, key, e.now).Some? then (Ok(Answer(q, Lookup(d, key, e.now).value)), d')
      else
        match Derive(curve, q)
        case Err(x) => (Err(x), d')
        case Ok(a) => (Ok(Answer(q, a)), if e.setFails then d' else d'[key := Entry(a, e.now + e.ttl)])
  }

  lemma DropCoherent(curve: Curve, d: Data, gone: set<string>)
    requires Coherent(curve, d)
    ensures Coherent(curve, d - gone)
  {
  }

  lemma CachedOk(curve: Curve, d: Data, q: Query, e: Weather)
    requires Coherent(curve, d)
    ensures Cached(curve, d, q, e).0 == Uncached(curve, q) && Coherent(curve, Cached(curve, d, q, e).1)
  {
    if Refusal(q).None? {
      var key := CacheKey(q);
      DropCoherent(curve, d, {key});
      var d' := if e.getFails then d else Looked(d, key, e.now);
      assert Coherent(curve, d');
      if Derive(curve, q).Ok? {
        StoreCoherent(curve, d', q, Derive(curve, q).value, e.now + e.ttl);
      }
    }
  }

  datatype Action = Ask(q: Query, e: Weather) | Delete(keys: set<string>)

  function After(curve: Curve, run: seq<Action>): Data {
    if run == [] then map[]
    else
      var d, a := After(curve, run[..|run| - 1]), run[|run| - 1];
      match a
      case Ask(q, e) => Cached(curve, d, q, e).1
      case Delete(keys) => d - keys
  }

  lemma {:induction false} RunCoherent(curve: Curve, run: seq<Action>)
    ensures Coherent(curve, After(curve, run))
  {
    if run != [] {
      var d, a := After(curve, run[..|run| - 1]), run[|run| - 1];
      RunCoherent(curve, run[..|run| - 1]);
      match a
      case Ask(q, e) => CachedOk(curve, d, q, e);
      case Delete(keys) => DropCoherent(curve, d, keys);
    }
  }

  /**
   The cache is transparent: after any run of queries by any Bitcoin and EVM derivers that share it, with
   any expiry, deletion and cache failure on the way, a query returns what it returns without a cache.
   */
  lemma {:induction false} CacheIsTransparent(curve: Curve, run: seq<Action>, q: Query, e: Weather)
    ensures Cached(curve, After(curve, run), q, e).0 == Uncached(curve, q)
  {
    RunCoherent(curve, run);
    CachedOk(curve, After(curve, run), q, e);
  }

  /**
   What happens to the entry of a query that succeeds while the cache answers: one that has not expired stays as
   it is; a missing or expired one is not used, and is written anew, or is gone when the write fails.
   */
  lemma EntryRenewedIff(curve: Curve, d: Data, q: Query, e: Weather)
    requires Refusal(q).None? && Derive(curve, q).Ok? && !e.getFails
    ensures var key, d' := CacheKey(q), Cached(curve, d, q, e).1;
            if key in d && e.now <= d[key].exp then d' == d && Cached(curve, d, q, e).0 == Ok(Answer(q, d[key].value))
            else if e.setFails then d' == d - {key}
            else key in d' && d'[key] == Entry(Derive(curve, q).value, e.now + e.ttl) && d' - {key} == d - {key}
  {
    var key, d' := CacheKey(q), Cached(curve, d, q, e).1;
    if !(key in d && e.now <= d[key].exp) && !e.setFails {
      assert d' == (d - {key})[key := Entry(Derive(curve, q).value, e.now + e.ttl)];
      assert d' - {key} == d - {key};
    }
  }

  /** `r` answers with the address `derived` and its place, or fails as `derived` does. */
  predicate IsAnswer(r: Result<Derived>, derived: Result<string>, change: int, index: int, start: string) {
    && (r.Ok? <==> derived.Ok?)
    && (r.Ok? ==>
          && derived == Ok(r.value.address) && r.value.index == index && r.value.change == change
          && ParseBtcPath(r.value.path) == Some((change, index)) && start <= r.value.path)
  }

  lemma UncachedAnswers(curve: Curve, q: Query)
    ensures var r := Uncached(curve, q);
            if Refusal(q).Some? || q.index >= HARDENED then r.Err?
            else if q.Btc? then IsAnswer(r, curve.btc(q.xpub, q.change, q.index), q.change, q.index, BIP_84)
            else IsAnswer(r, curve.evm(q.xpub, q.index), 0, q.index, BIP_44)
  {
    if Refusal(q).None? && q.index < HARDENED {
      PathRoundTrip(q);
    }
  }

  /** A deriver that shares its cache with others. */
  class Deriver {
    const curve: Curve
    const xpub: string
    const bitcoin: bool
    const ttl: int
    const cache: MemCache

    constructor (curve: Curve, xpub: string, bitcoin: bool, ttl: int, cache: MemCache)
      ensures this.curve == curve && this.xpub == xpub && this.bitcoin == bitcoin && this.ttl == ttl
              && this.cache == cache
    {
      this.curve, this.xpub, this.bitcoin, this.ttl, this.cache := curve, xpub, bitcoin, ttl, cache;
    }

    function Query(chain: Chain, index: int, change: int): Query {
      if bitcoin then Btc(xpub, chain, index, change) else Evm(xpub, chain, index, change)
    }

    method DeriveAt(chain: Chain, index: int, change: int, now: int, getFails: bool, setFails: bool)
      returns (r: Result<Derived>)
      requires Coherent(curve, cache.data)
      modifies cache
      ensures Coherent(curve, cache.data)
      ensures r == Uncached(curve, Query(chain, index, change))
      ensures if bitcoin && chain.Bitcoin? && (change == 0 || change == 1) && 0 <= index < 0x8000_0000 then
                IsAnswer(r, curve.btc(xpub, change, index), change, index, BIP_84)
              else if !bitcoin && chain.IsEvm() && change == 0 && 0 <= index < 0x8000_0000 then
                IsAnswer(r, curve.evm(xpub, index), 0, index, BIP_44)
              else r.Err?
      ensures cache.data
              == Cached(curve, old(cache.data), Query(chain, index, change), Weather(now, getFails, setFails, ttl)).1
    {
      UncachedAnswers(curve, Query(chain, index, change));
      r := Ask(Query(chain, index, change), now, getFails, setFails);
    }

    method Ask(q: Query, now: int, getFails: bool, setFails: bool) returns (r: Result<Derived>)
      requires Coherent(curve, cache.data)
      modifies cache
      ensures Coherent(curve, cache.data) && r == Uncached(curve, q)
      ensures cache.data == Cached(curve, old(cache.data), q, Weather(now, getFails, setFails, ttl)).1
    {
      CachedOk(curve, cache.data, q, Weather(now, getFails, setFails, ttl));
      var no := Refusal(q);
      if no.Some? {
        return Err(no.value);
      }
      var key := CacheKey(q);
      if !getFails {
        var hit := cache.Get(key, now);
        if hit.Some? {
          return Ok(Answer(q, hit.value));
        }
      }
      var a := Derive(curve, q);
      if a.Err? {
        return Err(a.error);
      }
      if !setFails {
        cache.Set(key, a.value, ttl, now);
      }
      return Ok(Answer(q, a.value));
    }
  }

  // ---------------------------------------------------------------- derivation paths

  /** The pieces between the separators; there is always at least one. */
  function Split(s: string, c: char): (r: seq<string>)
    ensures r != []
  {
    if s == [] then [[]]
    else
      var rest := Split(s[1..], c);
      if s[0] == c then [[]] + rest else [[s[0]] + rest[0]] + rest[1..]
  }

  function ParseBtcPath(path: string): Option<(int, int)> {
    var parts := Split(TrimSpace(path), '/');
    if |parts| != 6 || parts[0] != "m" then None
    else
      var change, index := Decimals.Atoi(parts[4]), Decimals.Atoi(parts[5]);
      if change.None? || index.None? then None else Some((change.value, index.value))
  }

  lemma {:induction false} SplitOne(a: string, c: char)
    requires c !in a
    ensures Split(a, c) == [a]
  {
    if a != [] {
      SplitOne(a[1..], c);
      assert [a[0]] + a[1..] == a;
    }
  }

  lemma {:induction false} SplitCons(a: string, rest: string, c: char)
    requires c !in a
    ensures Split(a + [c] + rest, c) == [a] + Split(rest, c)
  {
    var s := a + [c] + rest;
    if a == [] {
      assert s[1..] == rest;
    } else {
      assert s[1..] == a[1..] + [c] + rest;
      SplitCons(a[1..], rest, c);
      assert [a[0]] + a[1..] == a;
    }
  }

  function Join(parts: seq<string>): string
    requires parts != []
  {
    if |parts| == 1 then parts[0] else parts[0] + "/" + Join(parts[1..])
  }

  lemma {:induction false} SplitJoin(parts: seq<string>)
    requires parts != [] && forall i :: 0 <= i < |parts| ==> '/' !in parts[i]
    ensures Split(Join(parts), '/') == parts
  {
    if |parts| == 1 {
      SplitOne(parts[0], '/');
      assert parts == [parts[0]];
    } else {
      SplitJoin(parts[1..]);
      SplitCons(parts[0], Join(parts[1..]), '/');
      assert parts == [parts[0]] + parts[1..];
    }
  }

  lemma {:induction false} JoinSplit(s: string)
    ensures Join(Split(s, '/')) == s && forall i :: 0 <= i < |Split(s, '/')| ==> '/' !in Split(s, '/')[i]
  {
    if s != [] {
      var rest := Split(s[1..], '/');
      JoinSplit(s[1..]);
      assert s == [s[0]] + s[1..];
      if s[0] == '/' {
        assert ([[]] + rest)[1..] == rest;
      } else {
        JoinCons(s[0], rest);
      }
    }
  }

  lemma JoinCons(c: char, parts: seq<string>)
    requires parts != []
    ensures Join([[c] + parts[0]] + parts[1..]) == [c] + Join(parts)
  {
    var longer := [[c] + parts[0]] + parts[1..];
    assert longer[1..] == parts[1..];
    if |parts| > 1 {
      assert [c] + parts[0] + "/" + Join(parts[1..]) == [c] + (parts[0] + "/" + Join(parts[1..]));
    }
  }

  lemma JoinSix(a: string, b: string, d: string, x: string, y: string)
    ensures Join(["m", a, b, d, x, y]) == "m/" + a + "/" + b + "/" + d + "/" + x + "/" + y
  {
    assert ["m", a, b, d, x, y][1..] == [a, b, d, x, y];
    assert [a, b, d, x, y][1..] == [b, d, x, y];
    assert [b, d, x, y][1..] == [d, x, y];
    assert [d, x, y][1..] == [x, y];
    assert [x, y][1..] == [y];
    assert Join([x, y]) == x + "/" + y;
    assert Join([d, x, y]) == d + "/" + (x + "/" + y);
    assert Join([b, d, x, y]) == b + "/" + (d + "/" + (x + "/" + y));
    assert Join([a, b, d, x, y]) == a + "/" + (b + "/" + (d + "/" + (x + "/" + y)));
  }

  lemma EndsInDigit(front: string, n: int)
    ensures var s := front + Decimals.Format(n); s != [] && !IsSpace(s[|s| - 1])
  {
    var t := Decimals.Format(n);
    Decimals.DigitsParse(if n < 0 then -n else n);
    assert t != [];
    Decimals.FormatChars(n, t[|t| - 1]);
    assert (front + t)[|front + t| - 1] == t[|t| - 1];
  }

  /** The text is m, three pieces of any kind, and two numbers, with a slash between any two of them. */
  ghost predicate HasForm(t: string, a: string, b: string, d: string, change: int, index: int) {
    && '/' !in a && '/' !in b && '/' !in d
    && exists x, y ::
         && '/' !in x && '/' !in y && t == "m/" + a + "/" + b + "/" + d + "/" + x + "/" + y
         && Decimals.Atoi(x) == Some(change) && Decimals.Atoi(y) == Some(index)
  }

  lemma FormParses(path: string, a: string, b: string, d: string, change: int, index: int)
    requires HasForm(TrimSpace(path), a, b, d, change, index)
    ensures ParseBtcPath(path) == Some((change, index)) && Split(TrimSpace(path), '/')[1..4] == [a, b, d]
  {
    var t := TrimSpace(path);
    var x, y :| && '/' !in x && '/' !in y && t == "m/" + a + "/" + b + "/" + d + "/" + x + "/" + y
                && Decimals.Atoi(x) == Some(change) && Decimals.Atoi(y) == Some(index);
    JoinSix(a, b, d, x, y);
    SplitJoin(["m", a, b, d, x, y]);
  }

  lemma ParsesForm(path: string, change: int, index: int)
    requires ParseBtcPath(path) == Some((change, index))
    ensures var parts := Split(TrimSpace(path), '/');
            HasForm(TrimSpace(path), parts[1], parts[2], parts[3], change, index)
  {
    var t := TrimSpace(path);
    var parts := Split(t, '/');
    JoinSplit(t);
    assert parts == ["m", parts[1], parts[2], parts[3], parts[4], parts[5]];
    JoinSix(parts[1], parts[2], parts[3], parts[4], parts[5]);
  }

  /**
   What the parser accepts: exactly the texts that are, between white space, m, three pieces and two numbers,
   whatever the three pieces are.
   */
  lemma ParsesIff(path: string, change: int, index: int)
    ensures ParseBtcPath(path) == Some((change, index))
            <==> exists a, b, d :: HasForm(TrimSpace(path), a, b, d, change, index)
  {
    if ParseBtcPath(path) == Some((change, index)) {
      ParsesForm(path, change, index);
    } else {
      forall a, b, d
        ensures !HasForm(TrimSpace(path), a, b, d, change, index)
      {
        if HasForm(TrimSpace(path), a, b, d, change, index) {
          FormParses(path, a, b, d, change, index);
        }
      }
    }
  }

  const BIP_84 := "m/84'/0'/0'/"

  const BIP_44 := "m/44'/60'/0'/0/"

  /** The path has the documented form: purpose 84', coin 0' and account 0'. */
  ghost predicate IsBip84(path: string, change: int, index: int) {
    HasForm(TrimSpace(path), "84'", "0'", "0'", change, index)
  }

  lemma SamePieces(a: string, b: string, d: string, rest: string)
    requires '/' !in a && '/' !in b && '/' !in d
    requires BIP_84 <= "m/" + a + "/" + b + "/" + d + "/" + rest
    ensures a == "84'" && b == "0'" && d == "0'"
  {
    var t := "m/" + a + "/" + b + "/" + d + "/" + rest;
    var tail := t[|BIP_84|..];
    assert "m/" + (a + "/" + (b + "/" + (d + "/" + rest))) == t
           == "m/" + ("84'" + "/" + ("0'" + "/" + ("0'" + "/" + tail)));
    SamePrefix("m/", a + "/" + (b + "/" + (d + "/" + rest)), "84'" + "/" + ("0'" + "/" + ("0'" + "/" + tail)));
    Text.SplitFirst(a, b + "/" + (d + "/" + rest), "84'", "0'" + "/" + ("0'" + "/" + tail), '/');
    Text.SplitFirst(b, d + "/" + rest, "0'", "0'" + "/" + tail, '/');
    Text.SplitFirst(d, rest, "0'", tail, '/');
  }

  lemma Bip84Text(rest: string)
    ensures "m/" + "84'" + "/" + "0'" + "/" + "0'" + "/" + rest == BIP_84 + rest
  {
    assert "m/" + "84'" + "/" + "0'" + "/" + "0'" + "/" == BIP_84;
  }

  /** A text of the accepted form has the documented pieces exactly when it starts with them. */
  lemma FormStarts(t: string, a: string, b: string, d: string, change: int, index: int)
    requires HasForm(t, a, b, d, change, index)
    ensures BIP_84 <= t <==> a == "84'" && b == "0'" && d == "0'"
  {
    var x, y :| t == "m/" + a + "/" + b + "/" + d + "/" + x + "/" + y;
    var rest := x + "/" + y;
    assert t == "m/" + a + "/" + b + "/" + d + "/" + rest;
    if BIP_84 <= t {
      SamePieces(a, b, d, rest);
    }
    if a == "84'" && b == "0'" && d == "0'" {
      Bip84Text(rest);
    }
  }

  /** Of the paths the parser accepts, those of the documented form are the ones that start with its fixed part. */
  lemma Bip84Iff(path: string, change: int, index: int)
    ensures IsBip84(path, change, index)
            <==> ParseBtcPath(path) == Some((change, index)) && BIP_84 <= TrimSpace(path)
  {
    var t := TrimSpace(path);
    if IsBip84(path, change, index) {
      FormParses(path, "84'", "0'", "0'", change, index);
      FormStarts(t, "84'", "0'", "0'", change, index);
    }
    if ParseBtcPath(path) == Some((change, index)) {
      ParsesForm(path, change, index);
      var parts := Split(t, '/');
      FormStarts(t, parts[1], parts[2], parts[3], change, index);
    }
  }

  /** The parser does not look at purpose, coin and account: any three pieces in their place are accepted. */
  lemma MiddleIsIgnored(a: string, b: string, d: string, change: int, index: int)
    requires '/' !in a && '/' !in b && '/' !in d && Decimals.Fits(change) && Decimals.Fits(index)
    ensures var x, y := Decimals.Format(change), Decimals.Format(index);
            ParseBtcPath("m/" + a + "/" + b + "/" + d + "/" + x + "/" + y) == Some((change, index))
  {
    var x, y := Decimals.Format(change), Decimals.Format(index);
    var t := "m/" + a + "/" + b + "/" + d + "/" + x + "/" + y;
    NoColon(change);
    NoColon(index);
    EndsInDigit("m/" + a + "/" + b + "/" + d + "/" + x + "/", index);
    TrimNothing(t);
    Decimals.FormatParse(change);
    Decimals.FormatParse(index);
    FormParses(t, a, b, d, change, index);
  }

  lemma PathText(q: Query)
    requires q.Btc?
    ensures "m/" + "84'" + "/" + "0'" + "/" + "0'" + "/" + Decimals.Format(q.change) + "/" + Decimals.Format(q.index)
            == Path(q)
  {
    var x, y := Decimals.Format(q.change), Decimals.Format(q.index);
    Bip84Text(x);
  }

  lemma EvmPathText(q: Query)
    requires q.Evm? && q.change == 0
    ensures "m/" + "44'" + "/" + "60'" + "/" + "0'" + "/" + Decimals.Format(q.change) + "/" + Decimals.Format(q.index)
            == Path(q)
  {
    assert Decimals.Format(0) == "0";
    assert "m/" + "44'" + "/" + "60'" + "/" + "0'" + "/" + "0" + "/" == BIP_44;
  }

  /** The path of an answer, of either kind, starts as documented and ends in the change chain and the index. */
  lemma PathRoundTrip(q: Query)
    requires Refusal(q).None? && q.index < HARDENED
    ensures ParseBtcPath(Path(q)) == Some((q.change, q.index)) && (if q.Btc? then BIP_84 else BIP_44) <= Path(q)
  {
    if q.Btc? {
      PathText(q);
      MiddleIsIgnored("84'", "0'", "0'", q.change, q.index);
    } else {
      EvmPathText(q);
      MiddleIsIgnored("44'", "60'", "0'", q.change, q.index);
    }
  }
}
