/**
 The mapping of one wallet to its signing keys: binding, rotation with a cooling-off period, expiry and
 resolution, as functions of the wallet's list of mappings.
 */
module KeyMappings {
  import opened Prelude
  import Sequences

  datatype Phase = Current | Cooling | Retired

  datatype Mapping = Mapping(key: string, from: int, until: Option<int>, phase: Phase)

  // ---------------------------------------------------------------- table operations as functions

  function Demote(m: Mapping, until: int): Mapping {
    if m.phase.Current? then m.(phase := Cooling, until := Some(until)) else m
  }

  function Retire(m: Mapping, now: int): Mapping {
    if m.phase.Cooling? && m.until.Some? && now > m.until.value then m.(phase := Retired) else m
  }

  function Demoted(ms: seq<Mapping>, until: int): seq<Mapping>
  {
    seq(|ms|, i requires 0 <= i < |ms| => Demote(ms[i], until))
  }

  function Expired(ms: seq<Mapping>, now: int): seq<Mapping>
  {
    seq(|ms|, i requires 0 <= i < |ms| => Retire(ms[i], now))
  }

  /** Position of the first mapping of `key`, or the length of the list. */
  function Find(ms: seq<Mapping>, key: string): (i: nat)
    ensures i <= |ms| && (i < |ms| ==> ms[i].key == key)
    ensures forall j :: 0 <= j < i ==> ms[j].key != key
  {
    Sequences.FirstIndex(ms, (m: Mapping) => m.key == key)
  }

  /** The mapping of `key` becomes current; a key that was never mapped is appended. */
  function Promoted(ms: seq<Mapping>, key: string, now: int): seq<Mapping> {
    var i := Find(ms, key);
    if i < |ms| then ms[i := Mapping(key, now, None, Current)] else ms + [Mapping(key, now, None, Current)]
  }

  function Rotated(ms: seq<Mapping>, key: string, now: int, cooling: int): seq<Mapping> {
    Promoted(Demoted(ms, now + cooling), key, now)
  }

  predicate HasCurrent(ms: seq<Mapping>) {
    exists i :: 0 <= i < |ms| && ms[i].phase.Current?
  }

  /** Binding is refused while a current mapping exists. */
  function Bound(ms: seq<Mapping>, key: string, now: int): seq<Mapping> {
    if HasCurrent(ms) then ms else ms + [Mapping(key, now, None, Current)]
  }

  predicate Active(m: Mapping) {
    !m.phase.Retired?
  }

  predicate Resolves(ms: seq<Mapping>, key: string) {
    exists i :: 0 <= i < |ms| && ms[i].key == key && Active(ms[i])
  }

  // ---------------------------------------------------------------- runs of the service

  datatype Event =
    | Bind(now: int, key: string)
    | Rotate(now: int, key: string, cooling: int)
    | Expire(now: int)

  function Step(ms: seq<Mapping>, e: Event): seq<Mapping> {
    match e
    case Bind(now, key) => Bound(ms, key, now)
    case Rotate(now, key, cooling) => Rotated(ms, key, now, cooling)
    case Expire(now) => Expired(ms, now)
  }

  function After(run: seq<Event>): seq<Mapping> {
    if run == [] then [] else Step(After(run[..|run| - 1]), run[|run| - 1])
  }

  /** The wall clock moves between any two operations. */
  predicate Clocked(run: seq<Event>) {
    forall i, j :: 0 <= i < j < |run| ==> run[i].now < run[j].now
  }

  /** At most one mapping per key and per start time; at most one is current, and it is the youngest. */
  predicate Orderly(ms: seq<Mapping>, now: int) {
    && (forall i, j :: 0 <= i < j < |ms| ==> ms[i].key != ms[j].key && ms[i].from != ms[j].from)
    && (forall i :: 0 <= i < |ms| ==> ms[i].from <= now)
    && (forall i, j :: 0 <= i < |ms| && 0 <= j < |ms| && ms[i].phase.Current? ==> ms[j].from <= ms[i].from)
    && (forall i :: 0 <= i < |ms| ==> (ms[i].phase.Current? <==> ms[i].until.None?))
    && (ms != [] ==> HasCurrent(ms))
  }

  lemma DemoteOrderly(ms: seq<Mapping>, until: int, t: int)
    requires Orderly(ms, t)
    ensures var d := Demoted(ms, until);
            && (forall i, j :: 0 <= i < j < |d| ==> d[i].key != d[j].key && d[i].from != d[j].from)
            && (forall i :: 0 <= i < |d| ==> d[i].from <= t && !d[i].phase.Current? && d[i].until.Some?)
  {
    var d := Demoted(ms, until);
    assert forall i :: 0 <= i < |d| ==> d[i].key == ms[i].key && d[i].from == ms[i].from;
  }

  lemma RotateOrderly(ms: seq<Mapping>, key: string, now: int, cooling: int, t: int)
    requires t < now && Orderly(ms, t)
    ensures Orderly(Rotated(ms, key, now, cooling), now)
  {
    DemoteOrderly(ms, now + cooling, t);
    var r := Rotated(ms, key, now, cooling);
    var i := Find(Demoted(ms, now + cooling), key);
    assert r[i].phase.Current?;
  }

  lemma BindOrderly(ms: seq<Mapping>, key: string, now: int, t: int)
    requires t < now && Orderly(ms, t)
    ensures Orderly(Bound(ms, key, now), now)
    ensures ms != [] ==> Bound(ms, key, now) == ms
  {
    if ms == [] {
      assert Bound(ms, key, now)[0].phase.Current?;
    }
  }

  lemma ExpireOrderly(ms: seq<Mapping>, now: int, t: int)
    requires t < now && Orderly(ms, t)
    ensures Orderly(Expired(ms, now), now)
  {
    var r := Expired(ms, now);
    assert forall i :: 0 <= i < |r| ==>
             r[i].key == ms[i].key && r[i].from == ms[i].from && r[i].until == ms[i].until
             && (r[i].phase.Current? <==> ms[i].phase.Current?);
    if ms != [] {
      var i :| 0 <= i < |ms| && ms[i].phase.Current?;
      assert r[i].phase.Current?;
    }
  }

  lemma {:induction false} RunOrderly(run: seq<Event>)
    requires Clocked(run)
    ensures run == [] ==> After(run) == []
    ensures run != [] ==> Orderly(After(run), run[|run| - 1].now)
  {
    if run != [] {
      var front, e := run[..|run| - 1], run[|run| - 1];
      RunOrderly(front);
      var ms := After(front);
      var t := if front == [] then e.now - 1 else front[|front| - 1].now;
      match e
      case Bind(now, key) => BindOrderly(ms, key, now, t);
      case Rotate(now, key, cooling) => RotateOrderly(ms, key, now, cooling, t);
      case Expire(now) => ExpireOrderly(ms, now, t);
    }
  }

  /**
   Over every run: never two current mappings, and right after a rotation exactly one, the one for the
   new key, younger than every other mapping.
   */
  lemma {:induction false} OneCurrent(run: seq<Event>)
    requires Clocked(run)
    ensures var ms := After(run);
            forall i, j :: 0 <= i < |ms| && 0 <= j < |ms| && ms[i].phase.Current? && ms[j].phase.Current? ==> i == j
    ensures run != [] && run[|run| - 1].Rotate? ==>
              exists i :: 0 <= i < |After(run)| && After(run)[i].phase.Current?
                && After(run)[i].key == run[|run| - 1].key
                          && forall j :: 0 <= j < |After(run)| && j != i ==> After(run)[j].from < After(run)[i].from
  {
    RunOrderly(run);
    var ms := After(run);
    forall i, j | 0 <= i < |ms| && 0 <= j < |ms| && ms[i].phase.Current? && ms[j].phase.Current?
      ensures i == j
    {
      assert ms[i].from <= ms[j].from <= ms[i].from;
    }
    if run != [] && run[|run| - 1].Rotate? {
      var e := run[|run| - 1];
      var i := Find(Demoted(After(run[..|run| - 1]), e.now + e.cooling), e.key);
      assert ms[i].phase.Current? && ms[i].key == e.key;
    }
  }

  // ---------------------------------------------------------------- how long a key keeps resolving

  /** What the history says about a key, read off the events alone. */
  datatype Standing = Unknown | InUse | CoolsUntil(t: int) | Gone

  function StandingOf(run: seq<Event>, key: string): Standing {
    if run == [] then Unknown
    else
      var front := run[..|run| - 1];
      Moved(StandingOf(front, key), key, run[|run| - 1], Opens(front))
  }

  /** No key has been mapped yet, so a binding goes through. */
  predicate Opens(run: seq<Event>) {
    forall i :: 0 <= i < |run| ==> run[i].Expire?
  }

  predicate AtIndex(m: Mapping, st: Standing) {
    match st
    case Unknown => false
    case InUse => m.phase.Current?
    case CoolsUntil(t) => m.phase.Cooling? && m.until == Some(t)
    case Gone => m.phase.Retired?
  }

  /** The table agrees with the standing. */
  predicate Stands(ms: seq<Mapping>, key: string, st: Standing) {
    if st.Unknown? then forall i :: 0 <= i < |ms| ==> ms[i].key != key
    else exists i :: 0 <= i < |ms| && ms[i].key == key && AtIndex(ms[i], st)
  }

  lemma RotateStands(ms: seq<Mapping>, key: string, st: Standing, k: string, now: int, cooling: int)
    requires Stands(ms, key, st)
    ensures Stands(Rotated(ms, k, now, cooling), key,
                   if k == key then InUse else if st.InUse? then CoolsUntil(now + cooling) else st)
  {
    var d := Demoted(ms, now + cooling);
    var r := Rotated(ms, k, now, cooling);
    var at := Find(d, k);
    assert r[at].key == k && r[at].phase.Current?;
    if k != key && !st.Unknown? {
      var i :| 0 <= i < |ms| && ms[i].key == key && AtIndex(ms[i], st);
      assert r[i] == Demote(ms[i], now + cooling);
    }
  }

  lemma ExpireStands(ms: seq<Mapping>, key: string, st: Standing, now: int)
    requires Stands(ms, key, st)
    ensures Stands(Expired(ms, now), key, if st.CoolsUntil? && now > st.t then Gone else st)
  {
    if !st.Unknown? {
      var i :| 0 <= i < |ms| && ms[i].key == key && AtIndex(ms[i], st);
      assert Expired(ms, now)[i] == Retire(ms[i], now);
    }
  }

  lemma StepLength(ms: seq<Mapping>, e: Event)
    requires ms != [] ==> HasCurrent(ms)
    ensures Step(ms, e) == [] <==> ms == [] && e.Expire?
  {
  }

  lemma {:induction false} EmptyIffOpens(run: seq<Event>)
    requires Clocked(run)
    ensures After(run) == [] <==> Opens(run)
  {
    if run != [] {
      var front := run[..|run| - 1];
      EmptyIffOpens(front);
      RunOrderly(front);
      StepLength(After(front), run[|run| - 1]);
      assert Opens(run) <==> Opens(front) && run[|run| - 1].Expire?;
    }
  }

  lemma BindStands(ms: seq<Mapping>, key: string, st: Standing, k: string, now: int)
    requires Stands(ms, key, st) && (ms != [] ==> HasCurrent(ms))
    ensures Stands(Bound(ms, k, now), key, if ms == [] && k == key then InUse else st)
  {
    if ms == [] {
      assert Bound(ms, k, now)[0] == Mapping(k, now, None, Current);
    }
  }

  function Moved(st: Standing, key: string, e: Event, first: bool): Standing {
    match e
    case Bind(_, k) => if first && k == key then InUse else st
    case Rotate(now, k, cooling) => if k == key then InUse else if st.InUse? then CoolsUntil(now + cooling) else st
    case Expire(now) => if st.CoolsUntil? && now > st.t then Gone else st
  }

  lemma StepStands(ms: seq<Mapping>, key: string, st: Standing, e: Event)
    requires Stands(ms, key, st) && (ms != [] ==> HasCurrent(ms))
    ensures Stands(Step(ms, e), key, Moved(st, key, e, ms == []))
  {
    match e
    case Bind(now, k) => BindStands(ms, key, st, k, now);
    case Rotate(now, k, cooling) => RotateStands(ms, key, st, k, now, cooling);
    case Expire(now) => ExpireStands(ms, key, st, now);
  }

  lemma {:induction false} StandingIsTable(run: seq<Event>, key: string)
    requires Clocked(run)
    ensures Stands(After(run), key, StandingOf(run, key))
  {
    if run != [] {
      var front := run[..|run| - 1];
      StandingIsTable(front, key);
      RunOrderly(front);
      EmptyIffOpens(front);
      StepStands(After(front), key, StandingOf(front, key), run[|run| - 1]);
    }
  }

  /** Event `i` makes `key` current, and no later event does. */
  predicate LastPromotion(run: seq<Event>, key: string, i: nat) {
    i < |run| && Promotes(run, key, i) && forall j :: i < j < |run| ==> !Promotes(run, key, j)
  }

  predicate Promotes(run: seq<Event>, key: string, i: nat)
    requires i < |run|
  {
    (run[i].Rotate? && run[i].key == key) || (run[i].Bind? && run[i].key == key && Opens(run[..i]))
  }

  /** Event `j` is the first rotation after `i`. */
  predicate NextRotation(run: seq<Event>, i: nat, j: nat) {
    i < j < |run| && run[j].Rotate? && forall x :: i < x < j ==> !run[x].Rotate?
  }

  /** No rotation follows event `i`. */
  ghost predicate InForce(run: seq<Event>, i: nat) {
    forall j: nat :: !NextRotation(run, i, j)
  }

  /** The first rotation after the promotion has been outlived by an expiry. */
  ghost predicate Outlived(run: seq<Event>, i: nat) {
    exists j: nat, x: nat :: NextRotation(run, i, j) && j < x < |run| && run[x].Expire?
      && run[x].now > run[j].now + run[j].cooling
  }

  lemma {:induction false} FrontPromotes(run: seq<Event>, key: string, i: nat)
    requires i < |run| - 1
    ensures Promotes(run, key, i) <==> Promotes(run[..|run| - 1], key, i)
  {
    assert run[..|run| - 1][..i] == run[..i];
  }

  /** The standing of a key in terms of the positions of the events that decided it. */
  ghost predicate Explains(run: seq<Event>, key: string, st: Standing) {
    match st
    case Unknown => forall i :: 0 <= i < |run| ==> !Promotes(run, key, i)
    case InUse => exists i: nat :: LastPromotion(run, key, i) && InForce(run, i)
    case CoolsUntil(t) =>
      exists i: nat, j: nat :: LastPromotion(run, key, i) && NextRotation(run, i, j) && t == run[j].now + run[j].cooling
                   && !Outlived(run, i)
    case Gone => exists i: nat :: LastPromotion(run, key, i) && Outlived(run, i)
  }

  lemma {:induction false} SamePromotion(run: seq<Event>, key: string, i: nat)
    requires run != [] && LastPromotion(run[..|run| - 1], key, i) && !Promotes(run, key, |run| - 1)
    ensures LastPromotion(run, key, i)
  {
    forall j | i <= j < |run| - 1
      ensures Promotes(run, key, j) <==> Promotes(run[..|run| - 1], key, j)
    {
      FrontPromotes(run, key, j);
    }
  }

  lemma {:induction false} SameRotation(run: seq<Event>, i: nat, j: nat)
    requires run != [] && j < |run| - 1
    ensures NextRotation(run, i, j) <==> NextRotation(run[..|run| - 1], i, j)
  {
    var front := run[..|run| - 1];
    assert forall x :: 0 <= x < |front| ==> front[x] == run[x];
  }

  /** An expiry can end a cooling-off; nothing else changes whether the promotion at `i` was outlived. */
  lemma {:induction false} OutlivedNext(run: seq<Event>, i: nat)
    requires run != []
    ensures var front, last := run[..|run| - 1], run[|run| - 1];
            Outlived(run, i) <==>
            || Outlived(front, i)
            || (&& last.Expire?
                && exists j: nat :: NextRotation(front, i, j) && last.now > front[j].now + front[j].cooling)
  {
    var front, last := run[..|run| - 1], run[|run| - 1];
    if Outlived(run, i) {
      var j: nat, x: nat :| NextRotation(run, i, j) && j < x < |run| && run[x].Expire?
                            && run[x].now > run[j].now + run[j].cooling;
      SameRotation(run, i, j);
      assert front[j] == run[j];
      assert x < |front| ==> front[x] == run[x];
    }
    if Outlived(front, i) {
      var j: nat, x: nat :| NextRotation(front, i, j) && j < x < |front| && front[x].Expire?
                            && front[x].now > front[j].now + front[j].cooling;
      SameRotation(run, i, j);
      assert run[x] == front[x] && run[j] == front[j];
    }
    if last.Expire? && exists j: nat :: NextRotation(front, i, j) && last.now > front[j].now + front[j].cooling {
      var j: nat :| NextRotation(front, i, j) && last.now > front[j].now + front[j].cooling;
      SameRotation(run, i, j);
      assert run[|run| - 1].Expire? && run[j] == front[j];
    }
  }

  lemma {:induction false} OneNextRotation(run: seq<Event>, i: nat, j: nat, k: nat)
    requires NextRotation(run, i, j) && NextRotation(run, i, k)
    ensures j == k
  {
  }

  lemma {:induction false} PromotedExplains(run: seq<Event>, key: string)
    requires run != [] && Promotes(run, key, |run| - 1)
    ensures Explains(run, key, InUse)
  {
    assert LastPromotion(run, key, |run| - 1);
  }

  /** The last event does not promote the key: the deciding promotion is the one of the shorter history. */
  lemma {:induction false} KeptExplains(run: seq<Event>, key: string, was: Standing)
    requires run != [] && !Promotes(run, key, |run| - 1) && Explains(run[..|run| - 1], key, was)
    ensures Explains(run, key,
                     var e := run[|run| - 1];
                     if e.Rotate? && was.InUse? then CoolsUntil(e.now + e.cooling)
                     else if e.Expire? && was.CoolsUntil? && e.now > was.t then Gone else was)
  {
    var front, e := run[..|run| - 1], run[|run| - 1];
    match was
    case Unknown =>
      forall i | 0 <= i < |run|
        ensures !Promotes(run, key, i)
      {
        if i < |front| {
          FrontPromotes(run, key, i);
        }
      }
    case InUse =>
      var i: nat :| LastPromotion(front, key, i) && InForce(front, i);
      SamePromotion(run, key, i);
      OutlivedNext(run, i);
      InUseNext(run, i);
    case CoolsUntil(t) =>
      var i: nat, j: nat :| LastPromotion(front, key, i) && NextRotation(front, i, j)
                            && t == front[j].now + front[j].cooling && !Outlived(front, i);
      SamePromotion(run, key, i);
      SameRotation(run, i, j);
      OutlivedNext(run, i);
      forall k: nat | NextRotation(front, i, k)
        ensures k == j
      {
        OneNextRotation(front, i, j, k);
      }
    case Gone =>
      var i: nat :| LastPromotion(front, key, i) && Outlived(front, i);
      SamePromotion(run, key, i);
      OutlivedNext(run, i);
  }

  lemma {:induction false} InUseNext(run: seq<Event>, i: nat)
    requires i < |run| - 1 && InForce(run[..|run| - 1], i)
    ensures forall j: nat :: NextRotation(run, i, j) ==> j == |run| - 1
    ensures run[|run| - 1].Rotate? ==> NextRotation(run, i, |run| - 1)
  {
    forall j: nat | NextRotation(run, i, j)
      ensures j == |run| - 1
    {
      if j < |run| - 1 {
        SameRotation(run, i, j);
      }
    }
    if run[|run| - 1].Rotate? {
      NoneBetween(run, i, |run| - 1);
    }
  }

  /** If no position holds the first rotation after `i`, there is none before `n`. */
  lemma {:induction false} NoneBetween(run: seq<Event>, i: nat, n: nat)
    requires i < n <= |run| - 1 && InForce(run[..|run| - 1], i)
    ensures forall x :: i < x < n ==> !run[x].Rotate?
  {
    if n > i + 1 {
      NoneBetween(run, i, n - 1);
      SameRotation(run, i, n - 1);
    }
  }

  lemma {:induction false} StandingExplained(run: seq<Event>, key: string)
    ensures Explains(run, key, StandingOf(run, key))
  {
    if run != [] {
      var front := run[..|run| - 1];
      StandingExplained(front, key);
      if Promotes(run, key, |run| - 1) {
        PromotedExplains(run, key);
      } else {
        KeptExplains(run, key, StandingOf(front, key));
      }
    }
  }

  /**
   How long a key keeps resolving, over every run: exactly while the first rotation after its last
   promotion has not been followed by an expiry later than the rotation time plus the cooling period.
   */
  lemma {:induction false} ResolvesIff(run: seq<Event>, key: string)
    requires Clocked(run)
    ensures Resolves(After(run), key) <==> exists i: nat :: LastPromotion(run, key, i) && !Outlived(run, i)
  {
    var ms, st := After(run), StandingOf(run, key);
    StandingIsTable(run, key);
    StandingExplained(run, key);
    RunOrderly(run);
    assert Resolves(ms, key) <==> st.InUse? || st.CoolsUntil? by {
      if !st.Unknown? {
        var i :| 0 <= i < |ms| && ms[i].key == key;
        assert forall j :: 0 <= j < |ms| && ms[j].key == key ==> j == i;
      }
    }
    forall i: nat, j: nat | LastPromotion(run, key, i) && LastPromotion(run, key, j)
      ensures i == j
    {
    }
  }

  // ---------------------------------------------------------------- resolution

  /** The mappings that are not retired. */
  function ActiveOf(ms: seq<Mapping>): seq<Mapping> {
    if ms == [] then []
    else ActiveOf(ms[..|ms| - 1]) + (if Active(ms[|ms| - 1]) then [ms[|ms| - 1]] else [])
  }

  /** The active mappings, each as often as it is stored, in ascending order of their start time. */
  ghost predicate IsResolution(ms: seq<Mapping>, out: seq<Mapping>) {
    && (forall i, j :: 0 <= i < j < |out| ==> out[i].from <= out[j].from)
    && multiset(out) == multiset(ActiveOf(ms))
  }

  lemma {:induction false} ActiveMembers(ms: seq<Mapping>, m: Mapping)
    ensures m in ActiveOf(ms) <==> m in ms && Active(m)
  {
    if ms != [] {
      ActiveMembers(ms[..|ms| - 1], m);
      assert ms == ms[..|ms| - 1] + [ms[|ms| - 1]];
    }
  }

  lemma ResolutionMembers(ms: seq<Mapping>, out: seq<Mapping>)
    requires IsResolution(ms, out)
    ensures forall m :: m in out <==> m in ms && Active(m)
  {
    forall m
      ensures m in out <==> m in ms && Active(m)
    {
      ActiveMembers(ms, m);
      assert m in out <==> m in multiset(out);
      assert m in ActiveOf(ms) <==> m in multiset(ActiveOf(ms));
    }
  }

  /** One step of the insertion sort by start time: retired mappings are passed over. */
  method Merge(acc: seq<Mapping>, m: Mapping, ghost ms: seq<Mapping>) returns (out: seq<Mapping>)
    requires IsResolution(ms, acc)
    ensures IsResolution(ms + [m], out)
  {
    ActiveSnoc(ms, m);
    if !Active(m) {
      return acc;
    }
    var i := |acc|;
    while i > 0 && acc[i - 1].from > m.from
      invariant 0 <= i <= |acc| && forall j :: i <= j < |acc| ==> acc[j].from > m.from
    {
      i := i - 1;
    }
    InsertedResolves(ms, acc, m, i);
    out := Sequences.Inserted(acc, m, i);
  }

  lemma ActiveSnoc(ms: seq<Mapping>, m: Mapping)
    ensures ActiveOf(ms + [m]) == ActiveOf(ms) + (if Active(m) then [m] else [])
  {
    assert (ms + [m])[..|ms|] == ms;
  }

  lemma InsertedResolves(ms: seq<Mapping>, acc: seq<Mapping>, m: Mapping, i: nat)
    requires IsResolution(ms, acc) && Active(m) && i <= |acc| && (i > 0 ==> acc[i - 1].from <= m.from)
    requires forall j :: i <= j < |acc| ==> acc[j].from > m.from
    ensures IsResolution(ms + [m], Sequences.Inserted(acc, m, i))
  {
    ActiveSnoc(ms, m);
    Sequences.InsertedInOrder(acc, m, i, (x: Mapping) => x.from);
    Sequences.InsertedOnce(acc, m, i);
    assert Sequences.Ascending(Sequences.Inserted(acc, m, i), (x: Mapping) => x.from);
  }

  /** The current mapping comes last in the resolution, behind every cooling one. */
  lemma {:induction false} CurrentIsLast(run: seq<Event>, out: seq<Mapping>)
    requires Clocked(run) && IsResolution(After(run), out) && out != []
    ensures out[|out| - 1].phase.Current?
  {
    RunOrderly(run);
    var ms := After(run);
    ResolutionMembers(ms, out);
    assert out[0] in ms;
    var i :| 0 <= i < |ms| && ms[i].phase.Current?;
    assert ms[i] in out;
    var k :| 0 <= k < |out| && out[k] == ms[i];
    var last := out[|out| - 1];
    assert last in ms;
    var l :| 0 <= l < |ms| && ms[l] == last;
    assert ms[l].from <= ms[i].from;
    assert out[k].from <= last.from;
    assert l == i;
  }

  predicate AnyCooling(ms: seq<Mapping>) {
    exists i :: 0 <= i < |ms| && ms[i].phase.Cooling?
  }

  lemma CoolingComesFirst(ms: seq<Mapping>, out: seq<Mapping>, now: int, i: nat)
    requires Orderly(ms, now) && IsResolution(ms, out) && i < |ms| && ms[i].phase.Cooling?
    ensures out != [] && out[0].phase.Cooling?
  {
    ResolutionMembers(ms, out);
    assert ms[i] in out && out[0] in ms && Active(out[0]);
    var k :| 0 <= k < |out| && out[k] == ms[i];
    var l :| 0 <= l < |ms| && ms[l] == out[0];
    assert out[0].from <= ms[i].from;
  }

  /**
   The single key id handed to signing is the first of the resolution. It is the current key exactly when
   no mapping is cooling: during the cooling-off period signing keeps using the oldest cooling key.
   */
  lemma {:induction false} FirstIsCurrentIff(run: seq<Event>, out: seq<Mapping>)
    requires Clocked(run) && IsResolution(After(run), out) && out != []
    ensures out[0].phase.Current? <==> !AnyCooling(After(run))
  {
    RunOrderly(run);
    var ms := After(run);
    ResolutionMembers(ms, out);
    assert out[0] in ms && Active(out[0]);
    var l :| 0 <= l < |ms| && ms[l] == out[0];
    assert ms[l].phase.Cooling? || ms[l].phase.Current?;
    if AnyCooling(ms) {
      var i :| 0 <= i < |ms| && ms[i].phase.Cooling?;
      CoolingComesFirst(ms, out, run[|run| - 1].now, i);
    }
  }
}
