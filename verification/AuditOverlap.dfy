/**
 Why emitters of one wallet have to take turns. With a sink that answers, repeated drains in batches empty any
 outbox; so an event that is numbered while an earlier one of its wallet is not stored yet can be delivered
 first, from every state.
 */
module AuditOverlap {
  import opened Prelude
  import opened AuditOutbox
  import Sequences

  // ---------------------------------------------------------------- runs

  lemma {:induction false} Then(s: State, run: seq<Step>, t: State, st: Step, t': State)
    requires Exec(s, run) == Some(t) && Apply(t, st) == Some(t')
    ensures Exec(s, run + [st]) == Some(t')
  {
    assert (run + [st])[..|run + [st]| - 1] == run;
  }

  lemma {:induction false} Joined(s: State, a: seq<Step>, t: State, b: seq<Step>, u: State)
    requires Exec(s, a) == Some(t) && Exec(t, b) == Some(u)
    ensures Exec(s, a + b) == Some(u)
    decreases |b|
  {
    if b == [] {
      assert a + b == a;
    } else {
      var front := b[..|b| - 1];
      Joined(s, a, t, front, Exec(t, front).value);
      assert (a + b)[..|a + b| - 1] == a + front;
    }
  }

  lemma OneStep(s: State, st: Step, t: State)
    requires Apply(s, st) == Some(t)
    ensures Exec(s, [st]) == Some(t)
  {
    assert Exec(s, []) == Some(s);
    Then(s, [], s, st, t);
    assert [] + [st] == [st];
  }

  predicate NumbersNothing(run: seq<Step>) {
    forall i :: 0 <= i < |run| ==> !run[i].Number?
  }

  /** Without a new number everybody takes turns. */
  lemma {:induction false} NothingNumbered(s: State, run: seq<Step>)
    requires NumbersNothing(run) && Exec(s, run).Some?
    ensures SerialFrom(s, run)
    decreases |run|
  {
    if run != [] {
      NothingNumbered(s, run[..|run| - 1]);
    }
  }

  // ---------------------------------------------------------------- the undelivered rows in order

  /** Every outbox with distinct ids has a listing. */
  lemma {:induction false} Listed(outbox: seq<Row>) returns (sorted: seq<Row>)
    requires DistinctIds(outbox)
    ensures IsListing(outbox, sorted)
  {
    if outbox == [] {
      sorted := [];
    } else {
      var front, r := outbox[..|outbox| - 1], outbox[|outbox| - 1];
      var rest := Listed(front);
      assert outbox == front + [r];
      if r.delivered {
        sorted := rest;
      } else {
        assert r !in front && r !in rest;
        sorted := Placed(rest, r);
      }
    }
  }

  /** A row put in its place in a sorted list. */
  lemma {:induction false} Placed(rows: seq<Row>, r: Row) returns (out: seq<Row>)
    requires Sequences.Ascending(rows, (x: Row) => x.seqNo) && r !in rows
    requires forall i, j :: 0 <= i < j < |rows| ==> rows[i] != rows[j]
    ensures Sequences.Ascending(out, (x: Row) => x.seqNo) && forall x :: x in out <==> x in rows || x == r
    ensures forall i, j :: 0 <= i < j < |out| ==> out[i] != out[j]
  {
    var k := Sequences.FirstIndex(rows, (x: Row) => x.seqNo > r.seqNo);
    assert k > 0 ==> rows[k - 1].seqNo <= r.seqNo;
    out := Sequences.Inserted(rows, r, k);
    Sequences.InsertedMembers(rows, r, k);
    Sequences.InsertedInOrder(rows, r, k, (x: Row) => x.seqNo);
    Sequences.InsertedDistinct(rows, r, k);
  }

  // ---------------------------------------------------------------- one drain

  /** The outbox with the same rows, some of them marked. */
  predicate Kept(outbox: seq<Row>, out: seq<Row>) {
    |out| == |outbox| &&
    forall i :: 0 <= i < |outbox| ==>
      && Same(out[i], outbox[i]) && out[i].eventId == outbox[i].eventId && (outbox[i].delivered ==> out[i].delivered)
  }

  /** How many rows are not delivered. */
  function Open(outbox: seq<Row>): nat {
    if outbox == [] then 0 else Open(outbox[..|outbox| - 1]) + (if outbox[|outbox| - 1].delivered then 0 else 1)
  }

  lemma {:induction false} OpenNone(outbox: seq<Row>)
    ensures Open(outbox) == 0 <==> forall i :: 0 <= i < |outbox| ==> outbox[i].delivered
  {
    if outbox != [] {
      OpenNone(outbox[..|outbox| - 1]);
    }
  }

  /** Marking a row that was not delivered leaves one fewer. */
  lemma {:induction false} OpenMarked(outbox: seq<Row>, i: nat)
    requires i < |outbox|
    ensures Open(outbox[i := Marked(outbox[i])]) == Open(outbox) - (if outbox[i].delivered then 0 else 1)
  {
    var out := outbox[i := Marked(outbox[i])];
    if i < |outbox| - 1 {
      OpenMarked(outbox[..|outbox| - 1], i);
      assert out[..|out| - 1] == outbox[..|outbox| - 1][i := Marked(outbox[i])];
    } else {
      assert out[..|out| - 1] == outbox[..|outbox| - 1];
    }
  }

  lemma MarkOne(outbox: seq<Row>, id: Uuid)
    ensures Kept(outbox, MarkDelivered(outbox, id)) && Open(MarkDelivered(outbox, id)) <= Open(outbox)
    ensures DistinctIds(outbox) ==> DistinctIds(MarkDelivered(outbox, id))
  {
    var i := Find(outbox, id);
    if i < |outbox| {
      OpenMarked(outbox, i);
    }
  }

  lemma KeptTwice(a: seq<Row>, b: seq<Row>, c: seq<Row>)
    requires Kept(a, b) && Kept(b, c)
    ensures Kept(a, c)
  {
  }

  /** Marking a whole batch, whose first row is stored and not delivered, leaves fewer. */
  lemma {:induction false} MarkAll(outbox: seq<Row>, rows: seq<Row>)
    requires DistinctIds(outbox)
    ensures Kept(outbox, MarkedAll(outbox, rows)) && DistinctIds(MarkedAll(outbox, rows))
    ensures Open(MarkedAll(outbox, rows)) <= Open(outbox)
    ensures rows != [] && rows[0] in outbox && !rows[0].delivered ==> Open(MarkedAll(outbox, rows)) < Open(outbox)
  {
    if rows != [] {
      var front := rows[..|rows| - 1];
      MarkAll(outbox, front);
      MarkOne(MarkedAll(outbox, front), rows[|rows| - 1].id);
      KeptTwice(outbox, MarkedAll(outbox, front), MarkedAll(outbox, rows));
      if front == [] && rows[0] in outbox && !rows[0].delivered {
        var i :| 0 <= i < |outbox| && outbox[i] == rows[0];
        assert Find(outbox, rows[0].id) == i;
        OpenMarked(outbox, i);
      }
    }
  }

  /** The sink takes the rest of a batch. */
  lemma {:induction false} SendAll(s: State, batch: seq<Row>, n: nat) returns (run: seq<Step>)
    requires s.drainer == Sending(batch, n) && n <= |batch|
    ensures Exec(s, run) == Some(s.(drainer := Sending(batch, |batch|), log := s.log + batch[n..]))
            && NumbersNothing(run)
    decreases |batch| - n
  {
    if n == |batch| {
      run := [];
      assert s.log + batch[n..] == s.log;
    } else {
      var s1 := s.(drainer := Sending(batch, n + 1), log := s.log + [batch[n]]);
      OneStep(s, Send, s1);
      run := SendAll(s1, batch, n + 1);
      assert s.log + [batch[n]] + batch[n + 1..] == s.log + batch[n..];
      Joined(s, [Send], s1, run, s.(drainer := Sending(batch, |batch|), log := s.log + batch[n..]));
      run := [Send] + run;
    }
  }

  /** The rows of a batch are marked one by one. */
  lemma {:induction false} MarkRun(s: State, batch: seq<Row>, n: nat) returns (run: seq<Step>)
    requires s.drainer == Marking(batch, 0) && n <= |batch|
    ensures Exec(s, run) == Some(s.(drainer := Marking(batch, n), outbox := MarkedAll(s.outbox, batch[..n])))
    ensures NumbersNothing(run)
  {
    if n == 0 {
      run := [];
    } else {
      run := MarkRun(s, batch, n - 1);
      var s1 := s.(drainer := Marking(batch, n - 1), outbox := MarkedAll(s.outbox, batch[..n - 1]));
      assert batch[..n][..n - 1] == batch[..n - 1];
      Then(s, run, s1, Mark, s.(drainer := Marking(batch, n), outbox := MarkedAll(s.outbox, batch[..n])));
      run := run + [Mark];
    }
  }

  /** What a drain that goes through does to the state. */
  function Drained(s: State, batch: seq<Row>): State {
    s.(outbox := MarkedAll(s.outbox, batch), log := s.log + batch)
  }

  /** A drain that goes through: listed, sent, marked. */
  lemma {:induction false} Drain(s: State, sorted: seq<Row>) returns (run: seq<Step>)
    requires s.drainer.Idle? && IsListing(s.outbox, sorted) && sorted != []
    ensures Exec(s, run) == Some(Drained(s, Batch(sorted))) && NumbersNothing(run)
  {
    var batch := Batch(sorted);
    var s1 := s.(drainer := Sending(batch, 0));
    OneStep(s, List(sorted), s1);
    var send := SendAll(s1, batch, 0);
    assert batch[0..] == batch;
    var s2 := s.(drainer := Sending(batch, |batch|), log := s.log + batch);
    Joined(s, [List(sorted)], s1, send, s2);
    var s3 := s2.(drainer := Marking(batch, 0));
    Then(s, [List(sorted)] + send, s2, SinkDone, s3);
    var mark := MarkAndFinish(s3, batch);
    run := [List(sorted)] + send + [SinkDone];
    Joined(s, run, s3, mark, Drained(s, batch));
    run := run + mark;
  }

  lemma {:induction false} MarkAndFinish(s: State, batch: seq<Row>) returns (run: seq<Step>)
    requires s.drainer == Marking(batch, 0)
    ensures Exec(s, run) == Some(s.(drainer := Idle, outbox := MarkedAll(s.outbox, batch))) && NumbersNothing(run)
  {
    run := MarkRun(s, batch, |batch|);
    assert batch[..|batch|] == batch;
    var s1 := s.(drainer := Marking(batch, |batch|), outbox := MarkedAll(s.outbox, batch));
    Then(s, run, s1, Finish, s1.(drainer := Idle));
    run := run + [Finish];
  }

  // ---------------------------------------------------------------- drains until nothing is left

  /** Marked rows were delivered. */
  predicate Traced(outbox: seq<Row>, log: seq<Row>) {
    forall i :: 0 <= i < |outbox| && outbox[i].delivered ==> InLog(log, outbox[i])
  }

  predicate Stored(outbox: seq<Row>, r: Row) {
    exists i :: 0 <= i < |outbox| && Same(outbox[i], r)
  }

  lemma MarkOneTraced(outbox: seq<Row>, r: Row, log: seq<Row>)
    requires DistinctIds(outbox) && Traced(outbox, log) && Stored(outbox, r) && InLog(log, r)
    ensures Traced(MarkDelivered(outbox, r.id), log)
  {
    var i := Find(outbox, r.id);
    var j :| 0 <= j < |outbox| && Same(outbox[j], r);
    assert i == j;
    SameInLog(log, r, outbox[i]);
    var out := MarkDelivered(outbox, r.id);
    forall k | 0 <= k < |out| && out[k].delivered
      ensures InLog(log, out[k])
    {
      SameInLog(log, outbox[k], out[k]);
    }
  }

  lemma {:induction false} MarkAllTraced(outbox: seq<Row>, rows: seq<Row>, log: seq<Row>)
    requires DistinctIds(outbox) && Traced(outbox, log)
    requires forall r :: r in rows ==> Stored(outbox, r) && InLog(log, r)
    ensures Traced(MarkedAll(outbox, rows), log)
  {
    if rows != [] {
      var front, r := rows[..|rows| - 1], rows[|rows| - 1];
      MarkAllTraced(outbox, front, log);
      MarkAll(outbox, front);
      var out := MarkedAll(outbox, front);
      assert r in rows;
      var i :| 0 <= i < |outbox| && Same(outbox[i], r);
      assert Same(out[i], r);
      MarkOneTraced(out, r, log);
    }
  }

  lemma StillLogged(log: seq<Row>, more: seq<Row>, r: Row)
    requires InLog(log, r) || r in more
    ensures InLog(log + more, r)
  {
    if InLog(log, r) {
      var l :| 0 <= l < |log| && Same(log[l], r);
      assert Same((log + more)[l], r);
    } else {
      var l :| 0 <= l < |more| && more[l] == r;
      assert Same((log + more)[|log| + l], r);
    }
  }

  /** What the sink saw since: rows of the outbox, and nothing else. */
  predicate SawRows(outbox: seq<Row>, log: seq<Row>, log': seq<Row>) {
    log <= log' && forall k :: |log| <= k < |log'| ==> Stored(outbox, log'[k])
  }

  lemma DrainedOnce(s: State, sorted: seq<Row>)
    requires DistinctIds(s.outbox) && Traced(s.outbox, s.log) && IsListing(s.outbox, sorted) && sorted != []
    ensures var t := Drained(s, Batch(sorted));
            && Kept(s.outbox, t.outbox) && DistinctIds(t.outbox) && Open(t.outbox) < Open(s.outbox)
            && Traced(t.outbox, t.log) && SawRows(s.outbox, s.log, t.log)
  {
    var batch := Batch(sorted);
    var log := s.log + batch;
    forall r | r in batch
      ensures Stored(s.outbox, r) && InLog(log, r)
    {
      assert r in sorted && r in s.outbox;
      var i :| 0 <= i < |s.outbox| && s.outbox[i] == r;
      assert Same(s.outbox[i], r);
      StillLogged(s.log, batch, r);
    }
    forall i | 0 <= i < |s.outbox| && s.outbox[i].delivered
      ensures InLog(log, s.outbox[i])
    {
      StillLogged(s.log, batch, s.outbox[i]);
    }
    assert batch[0] == sorted[0] && sorted[0] in sorted;
    MarkAll(s.outbox, batch);
    MarkAllTraced(s.outbox, batch, log);
    forall k | |s.log| <= k < |log|
      ensures Stored(s.outbox, log[k])
    {
      assert log[k] == batch[k - |s.log|] && log[k] in batch;
    }
  }

  lemma SawTwice(a: seq<Row>, b: seq<Row>, l0: seq<Row>, l1: seq<Row>, l2: seq<Row>)
    requires Kept(a, b) && SawRows(a, l0, l1) && SawRows(b, l1, l2)
    ensures SawRows(a, l0, l2)
  {
    forall k | |l0| <= k < |l2|
      ensures Stored(a, l2[k])
    {
      if k < |l1| {
        assert l2[k] == l1[k];
      } else {
        var i :| 0 <= i < |b| && Same(b[i], l2[k]);
        assert Same(a[i], l2[k]);
      }
    }
  }

  /** Everything stored has been delivered, marked, and nothing else has happened. */
  ghost predicate AllDelivered(s: State, t: State) {
    && t.drainer.Idle? && t.pending == s.pending && t.counters == s.counters
    && Kept(s.outbox, t.outbox) && SawRows(s.outbox, s.log, t.log)
    && forall i :: 0 <= i < |t.outbox| ==> t.outbox[i].delivered && InLog(t.log, t.outbox[i])
  }

  /** With a sink that answers, drains in batches of 100 deliver and mark every row of any outbox. */
  lemma {:induction false} DrainAll(s: State) returns (run: seq<Step>, t: State)
    requires s.drainer.Idle? && DistinctIds(s.outbox) && Traced(s.outbox, s.log)
    ensures Exec(s, run) == Some(t) && NumbersNothing(run) && AllDelivered(s, t)
    decreases Open(s.outbox)
  {
    var sorted := Listed(s.outbox);
    if sorted == [] {
      assert forall i :: 0 <= i < |s.outbox| && !s.outbox[i].delivered ==> s.outbox[i] in sorted;
      run, t := [], s;
    } else {
      var first := Drain(s, sorted);
      var s1 := Drained(s, Batch(sorted));
      DrainedOnce(s, sorted);
      var rest;
      rest, t := DrainAll(s1);
      Joined(s, first, s1, rest, t);
      KeptTwice(s.outbox, s1.outbox, t.outbox);
      SawTwice(s.outbox, s1.outbox, s.log, s1.log, t.log);
      run := first + rest;
    }
  }

  // ---------------------------------------------------------------- two emitters overlap

  lemma {:induction false} FirstsExtend(log: seq<Row>, more: seq<Row>, w: Uuid)
    ensures Firsts(log, w) <= Firsts(log + more, w)
    decreases |more|
  {
    if more == [] {
      assert log + more == log;
    } else {
      var front := more[..|more| - 1];
      FirstsExtend(log, front, w);
      assert (log + more)[..|log + more| - 1] == log + front;
    }
  }

  lemma {:induction false} FirstsFrom(log: seq<Row>, w: Uuid, n: int)
    requires n in Firsts(log, w)
    ensures exists k :: 0 <= k < |log| && log[k].wallet == Some(w) && log[k].seqNo == n
  {
    var front := log[..|log| - 1];
    if n in Firsts(front, w) {
      FirstsFrom(front, w, n);
      var k :| 0 <= k < |front| && front[k].wallet == Some(w) && front[k].seqNo == n;
      assert log[k] == front[k];
    } else {
      assert log[|log| - 1].seqNo == n;
    }
  }

  /** A larger number was delivered, then for the first time a smaller one: not in order. */
  lemma OutOfOrder(log: seq<Row>, more: seq<Row>, w: Uuid, small: int, large: int)
    requires small < large && large in Firsts(log, w) && small !in Firsts(log, w) && small in Firsts(log + more, w)
    ensures !Increasing(Firsts(log + more, w))
  {
    FirstsExtend(log, more, w);
    var f, g := Firsts(log, w), Firsts(log + more, w);
    var i :| 0 <= i < |f| && f[i] == large;
    var j :| 0 <= j < |g| && g[j] == small;
    assert forall q :: 0 <= q < |f| ==> g[q] == f[q];
    assert small !in f;
  }

  /** What a row stored by an emitter is. */
  function RowOf(id: Uuid, p: (Uuid, int)): Row {
    Row(id, id, Some(p.0), p.1, false, 0)
  }

  function Put(s: State, i: nat, id: Uuid): State
    requires i < |s.pending|
  {
    s.(outbox := s.outbox + [RowOf(id, s.pending[i])], pending := Remove(s.pending, i))
  }

  /** An emitter stores its row, and everything is delivered. */
  lemma {:induction false} StoreAndDeliver(s: State, i: nat, id: Uuid) returns (run: seq<Step>, t: State)
    requires s.drainer.Idle? && DistinctIds(s.outbox) && Traced(s.outbox, s.log) && i < |s.pending|
    requires !HasId(s.outbox, id) && !HasEvent(s.outbox, id)
    ensures Exec(s, run) == Some(t) && NumbersNothing(run) && AllDelivered(Put(s, i, id), t)
    ensures DistinctIds(t.outbox) && Traced(t.outbox, t.log) && InLog(t.log, RowOf(id, s.pending[i]))
  {
    var s1 := Put(s, i, id);
    OneStep(s, Append(i, id, id), s1);
    run, t := DrainAll(s1);
    Joined(s, [Append(i, id, id)], s1, run, t);
    SameInLog(t.log, t.outbox[|s.outbox|], RowOf(id, s.pending[i]));
    run := [Append(i, id, id)] + run;
  }

  /** Before its row is stored, a taken number has not been delivered. */
  lemma NotDeliveredYet(s: State, i: nat)
    requires Inv(s) && i < |s.pending|
    ensures s.pending[i].1 !in Firsts(s.log, s.pending[i].0)
  {
    var (w, n) := s.pending[i];
    if n in Firsts(s.log, w) {
      assert Firsts(s.log, w) <= Emitted(s.outbox, w);
      EmittedMember(s.outbox, w, n);
    }
  }

  lemma StillNotDelivered(s: State, t: State, w: Uuid, n: int)
    requires SawRows(s.outbox, s.log, t.log) && n !in Firsts(s.log, w)
    requires forall k :: 0 <= k < |s.outbox| && s.outbox[k].wallet == Some(w) ==> s.outbox[k].seqNo != n
    ensures n !in Firsts(t.log, w)
  {
    forall k | 0 <= k < |t.log| && t.log[k].wallet == Some(w)
      ensures t.log[k].seqNo != n
    {
      if k < |s.log| {
        assert s.log[k] == t.log[k];
        FirstsMember(s.log, w, s.log[k]);
      } else {
        var i :| 0 <= i < |s.outbox| && Same(s.outbox[i], t.log[k]);
      }
    }
    if n in Firsts(t.log, w) {
      FirstsFrom(t.log, w, n);
    }
  }

  /** The state after a number was taken for wallet `w`. */
  function Numbered(s: State, w: Uuid): State {
    s.(counters := s.counters[w := Counter(s.counters, w) + 1],
       pending := s.pending + [(w, Counter(s.counters, w) + 1)])
  }

  /** Some way to go on, with emitters taking turns from now on, delivers events of `w` out of order. */
  ghost predicate DisorderAhead(s: State, w: Uuid) {
    exists run :: SerialFrom(s, run) && Exec(s, run).Some? && !Increasing(Firsts(Exec(s, run).value.log, w))
  }

  /** The later number is stored and delivered while the earlier one waits; then the earlier one is. */
  lemma OverlapDisorders(s: State, i: nat, a: Uuid, b: Uuid)
    requires Inv(s) && s.drainer.Idle? && i < |s.pending| && a != b
    requires !HasId(s.outbox, a) && !HasEvent(s.outbox, a) && !HasId(s.outbox, b) && !HasEvent(s.outbox, b)
    ensures DisorderAhead(Numbered(s, s.pending[i].0), s.pending[i].0)
  {
    var (w, n) := s.pending[i];
    var s0 := Numbered(s, w);
    var last := |s.pending|;
    var first, s1 := StoreAndDeliver(s0, last, b);
    LaterIsDelivered(s, i, b, s1);
    var second, s2 := StoreAndDeliver(s1, i, a);
    Joined(s0, first, s1, second, s2);
    NothingNumbered(s0, first + second);
    LoggedIsFirst(s2.log, w, RowOf(a, (w, n)));
    assert s2.log == s1.log + s2.log[|s1.log|..];
    OutOfOrder(s1.log, s2.log[|s1.log|..], w, n, n + 1);
  }

  lemma LaterIsDelivered(s: State, i: nat, b: Uuid, t: State)
    requires Inv(s) && i < |s.pending|
    requires AllDelivered(Put(Numbered(s, s.pending[i].0), |s.pending|, b), t)
    requires InLog(t.log, RowOf(b, (s.pending[i].0, s.pending[i].1 + 1)))
    ensures var (w, n) := s.pending[i];
            n + 1 in Firsts(t.log, w) && n !in Firsts(t.log, w) && t.pending == s.pending
    ensures t.drainer.Idle? && |t.outbox| == |s.outbox| + 1
    ensures forall k :: 0 <= k < |s.outbox| ==>
              t.outbox[k].id == s.outbox[k].id && t.outbox[k].eventId == s.outbox[k].eventId
    ensures t.outbox[|s.outbox|].id == b && t.outbox[|s.outbox|].eventId == b
  {
    var (w, n) := s.pending[i];
    var s1 := Put(Numbered(s, w), |s.pending|, b);
    assert Remove(s.pending + [(w, n + 1)], |s.pending|) == s.pending;
    NotDeliveredYet(s, i);
    StillNotDelivered(s1, t, w, n);
    LoggedIsFirst(t.log, w, RowOf(b, (w, n + 1)));
  }

  /** Whoever waits for its turn leaves the order alone, however it goes on. */
  lemma TurnsKeepOrder(s: State, w: Uuid)
    requires Inv(s) && Serial(s, Number(w)) && Apply(s, Number(w)) == Some(Numbered(s, w))
    ensures !DisorderAhead(Numbered(s, w), w)
  {
    StepInv(s, Number(w), Numbered(s, w));
    forall run | SerialFrom(Numbered(s, w), run) && Exec(Numbered(s, w), run).Some?
      ensures Increasing(Firsts(Exec(Numbered(s, w), run).value.log, w))
    {
      InvFrom(Numbered(s, w), run);
      EmittedAscending(Exec(Numbered(s, w), run).value.outbox, w);
    }
  }

  lemma NumberStep(s: State, w: Uuid)
    ensures Apply(s, Number(w)) == Some(Numbered(s, w))
  {
  }

  /**
   From every state in which the invariant holds and no drain is under way: after an emitter takes a number of
   a wallet, its events can come out of order, with everybody taking turns from then on, exactly when another
   emitter of the wallet had a number whose row was not stored.
   */
  lemma DisorderIff(s: State, w: Uuid, a: Uuid, b: Uuid)
    requires Inv(s) && s.drainer.Idle? && a != b
    requires !HasId(s.outbox, a) && !HasEvent(s.outbox, a) && !HasId(s.outbox, b) && !HasEvent(s.outbox, b)
    ensures Apply(s, Number(w)) == Some(Numbered(s, w))
    ensures DisorderAhead(Numbered(s, w), w) <==> !Serial(s, Number(w))
  {
    NumberStep(s, w);
    if Serial(s, Number(w)) {
      TurnsKeepOrder(s, w);
    } else {
      var i :| 0 <= i < |s.pending| && s.pending[i].0 == w;
      OverlapDisorders(s, i, a, b);
    }
  }

  /** The same over every run in which emitters took turns so far. */
  lemma {:induction false} TurnsAreNeeded(run: seq<Step>, w: Uuid, a: Uuid, b: Uuid)
    requires Exec(INITIAL, run).Some? && SerialRun(run) && a != b
    requires var s := Exec(INITIAL, run).value;
             && s.drainer.Idle? && !HasId(s.outbox, a) && !HasEvent(s.outbox, a)
             && !HasId(s.outbox, b) && !HasEvent(s.outbox, b)
    ensures var s := Exec(INITIAL, run).value; DisorderAhead(Numbered(s, w), w) <==> !Serial(s, Number(w))
  {
    RunInv(run);
    DisorderIff(Exec(INITIAL, run).value, w, a, b);
  }
}
