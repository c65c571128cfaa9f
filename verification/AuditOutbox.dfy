/**
 The audit outbox: events get a per-wallet sequence number, wait in the outbox, and a drainer delivers
 them in batches sorted by sequence number and marks them. The sink may fail after part of a batch,
 marking may stop half way, and events are emitted while a batch is under way.
 */
module AuditOutbox {
  import opened Prelude
  import Sequences

  datatype Row = Row(id: Uuid, eventId: Uuid, wallet: Option<Uuid>, seqNo: int, delivered: bool, attempts: nat)

  const LIMIT: nat := 100

  /** What the drainer is doing: nothing, delivering entry `n` of a batch, or marking entry `n`. */
  datatype Drainer = Idle | Sending(batch: seq<Row>, n: nat) | Marking(batch: seq<Row>, n: nat)

  /** `pending` holds the numbers that were taken by emitters whose row is not in the outbox yet. */
  datatype State = State(outbox: seq<Row>, counters: map<Uuid, int>, pending: seq<(Uuid, int)>, drainer: Drainer,
                         log: seq<Row>)

  const INITIAL: State := State([], map[], [], Idle, [])

  datatype Step =
    | Number(wallet: Uuid)                                  // Emit takes the next number
    | Append(i: nat, id: Uuid, eventId: Uuid)               // Emit stores the row of a taken number
    | EmitGlobal(id: Uuid, eventId: Uuid, now: int)         // Emit without a wallet
    | List(sorted: seq<Row>)                                // Drain reads the undelivered rows
    | Send                                                  // the sink takes the next event
    | SinkFails
    | SinkDone
    | Mark
    | MarkFails
    | Finish

  // ---------------------------------------------------------------- the tables as functions

  function Counter(counters: map<Uuid, int>, w: Uuid): int {
    if w in counters then counters[w] else 0
  }

  predicate HasEvent(outbox: seq<Row>, eventId: Uuid) {
    exists i :: 0 <= i < |outbox| && outbox[i].eventId == eventId
  }

  predicate HasId(outbox: seq<Row>, id: Uuid) {
    exists i :: 0 <= i < |outbox| && outbox[i].id == id
  }

  /** A row whose event id is already stored is refused. */
  function Appended(outbox: seq<Row>, r: Row): seq<Row> {
    if HasEvent(outbox, r.eventId) then outbox else outbox + [r]
  }

  /** Position of the first row with this id, or the length of the outbox. */
  function Find(outbox: seq<Row>, id: Uuid): (i: nat)
    ensures i <= |outbox| && (i < |outbox| ==> outbox[i].id == id)
    ensures forall j :: 0 <= j < i ==> outbox[j].id != id
  {
    Sequences.FirstIndex(outbox, (r: Row) => r.id == id)
  }

  function Marked(r: Row): Row {
    r.(delivered := true, attempts := r.attempts + 1)
  }

  function MarkDelivered(outbox: seq<Row>, id: Uuid): seq<Row> {
    var i := Find(outbox, id);
    if i < |outbox| then outbox[i := Marked(outbox[i])] else outbox
  }

  /** The outbox after marking these rows one by one. */
  function MarkedAll(outbox: seq<Row>, rows: seq<Row>): seq<Row> {
    if rows == [] then outbox else MarkDelivered(MarkedAll(outbox, rows[..|rows| - 1]), rows[|rows| - 1].id)
  }

  /** All undelivered rows, each once, in ascending order of their numbers; ties in any order. */
  ghost predicate IsListing(outbox: seq<Row>, sorted: seq<Row>) {
    && (forall i, j :: 0 <= i < j < |sorted| ==> sorted[i].seqNo <= sorted[j].seqNo)
    && (forall i, j :: 0 <= i < j < |sorted| ==> sorted[i] != sorted[j])
    && (forall r :: r in sorted <==> r in outbox && !r.delivered)
  }

  function Batch(sorted: seq<Row>): seq<Row> {
    if |sorted| > LIMIT then sorted[..LIMIT] else sorted
  }

  // ---------------------------------------------------------------- steps

  function Remove<T>(q: seq<T>, i: nat): seq<T>
    requires i < |q|
  {
    q[..i] + q[i + 1..]
  }

  /** Row ids are new UUIDs, so a row id that is taken does not come up. */
  ghost function Apply(s: State, st: Step): Option<State> {
    match st
    case Number(w) =>
      var n := Counter(s.counters, w) + 1;
      Some(s.(counters := s.counters[w := n], pending := s.pending + [(w, n)]))
    case Append(i, id, eventId) =>
      if i >= |s.pending| || HasId(s.outbox, id) then None
      else
        var (w, n) := s.pending[i];
        Some(s.(outbox := Appended(s.outbox, Row(id, eventId, Some(w), n, false, 0)), pending := Remove(s.pending, i)))
    case EmitGlobal(id, eventId, now) =>
      if HasId(s.outbox, id) then None
      else Some(s.(outbox := Appended(s.outbox, Row(id, eventId, None, now, false, 0))))
    case List(sorted) =>
      if !s.drainer.Idle? || !IsListing(s.outbox, sorted) then None
      else Some(s.(drainer := if sorted == [] then Idle else Sending(Batch(sorted), 0)))
    case Send =>
      if !s.drainer.Sending? || s.drainer.n >= |s.drainer.batch| then None
      else Some(s.(drainer := Sending(s.drainer.batch, s.drainer.n + 1), log := s.log + [s.drainer.batch[s.drainer.n]]))
    case SinkFails => if s.drainer.Sending? then Some(s.(drainer := Idle)) else None
    case SinkDone =>
      if s.drainer.Sending? && s.drainer.n == |s.drainer.batch| then Some(s.(drainer := Marking(s.drainer.batch, 0)))
      else None
    case Mark =>
      if !s.drainer.Marking? || s.drainer.n >= |s.drainer.batch| then None
      else Some(s.(outbox := MarkDelivered(s.outbox, s.drainer.batch[s.drainer.n].id),
                   drainer := Marking(s.drainer.batch, s.drainer.n + 1)))
    case MarkFails => if s.drainer.Marking? then Some(s.(drainer := Idle)) else None
    case Finish =>
      if s.drainer.Marking? && s.drainer.n == |s.drainer.batch| then Some(s.(drainer := Idle)) else None
  }

  ghost function Exec(s: State, run: seq<Step>): Option<State> {
    if run == [] then Some(s)
    else
      match Exec(s, run[..|run| - 1])
      case None => None
      case Some(t) => Apply(t, run[|run| - 1])
  }

  /** Emitters of one wallet take turns: no number is taken while another one waits for its row. */
  predicate Serial(s: State, st: Step) {
    st.Number? ==> forall i :: 0 <= i < |s.pending| ==> s.pending[i].0 != st.wallet
  }

  ghost predicate SerialRun(run: seq<Step>) {
    run == [] ||
    (&& SerialRun(run[..|run| - 1]) && Exec(INITIAL, run[..|run| - 1]).Some?
     && Serial(Exec(INITIAL, run[..|run| - 1]).value, run[|run| - 1]))
  }

  // ---------------------------------------------------------------- what was emitted and first delivered

  /** The numbers of a wallet's rows, in the order in which the rows were stored. */
  function Emitted(outbox: seq<Row>, w: Uuid): seq<int> {
    if outbox == [] then []
    else
      var r := outbox[|outbox| - 1];
      Emitted(outbox[..|outbox| - 1], w) + (if r.wallet == Some(w) then [r.seqNo] else [])
  }

  /** The numbers of a wallet's events in the order in which the sink first saw them. */
  function Firsts(log: seq<Row>, w: Uuid): seq<int> {
    if log == [] then []
    else
      var r, f := log[|log| - 1], Firsts(log[..|log| - 1], w);
      if r.wallet == Some(w) && r.seqNo !in f then f + [r.seqNo] else f
  }

  predicate Increasing(q: seq<int>) {
    forall i, j :: 0 <= i < j < |q| ==> q[i] < q[j]
  }

  lemma {:induction false} EmittedMember(outbox: seq<Row>, w: Uuid, x: int)
    ensures x in Emitted(outbox, w)
            <==> exists i :: 0 <= i < |outbox| && outbox[i].wallet == Some(w) && outbox[i].seqNo == x
  {
    if outbox != [] {
      EmittedMember(outbox[..|outbox| - 1], w, x);
    }
  }

  lemma {:induction false} FirstsMember(log: seq<Row>, w: Uuid, r: Row)
    requires r in log && r.wallet == Some(w)
    ensures r.seqNo in Firsts(log, w)
  {
    if log[|log| - 1] != r {
      FirstsMember(log[..|log| - 1], w, r);
    }
  }

  /** Rows of one wallet are stored in ascending order of their numbers. */
  predicate Ordered(outbox: seq<Row>) {
    forall i, j :: 0 <= i < j < |outbox| && outbox[i].wallet.Some? && outbox[i].wallet == outbox[j].wallet ==>
      outbox[i].seqNo < outbox[j].seqNo
  }

  lemma {:induction false} EmittedAscending(outbox: seq<Row>, w: Uuid)
    requires Ordered(outbox)
    ensures Increasing(Emitted(outbox, w))
  {
    if outbox != [] {
      var front, r := outbox[..|outbox| - 1], outbox[|outbox| - 1];
      EmittedAscending(front, w);
      if r.wallet == Some(w) {
        forall k | 0 <= k < |Emitted(front, w)|
          ensures Emitted(front, w)[k] < r.seqNo
        {
          EmittedMember(front, w, Emitted(front, w)[k]);
        }
      }
    }
  }

  lemma NotInPrefix(all: seq<int>, f: seq<int>)
    requires Increasing(all) && f <= all
    ensures |f| < |all| ==> all[|f|] !in f
  {
    assert forall k :: 0 <= k < |f| ==> f[k] == all[k];
  }

  /** The next first delivery, when everything smaller has been delivered, extends the prefix by one. */
  lemma PrefixGrows(all: seq<int>, f: seq<int>, x: int)
    requires Increasing(all) && f <= all && x in all && x !in f
    requires forall y :: y in all && y < x ==> y in f
    ensures f + [x] <= all
  {
    var p :| 0 <= p < |all| && all[p] == x;
    assert p >= |f|;
    NotInPrefix(all, f);
    assert all[|f|] in all;
  }

  // ---------------------------------------------------------------- invariant

  /** The same event, whatever its delivery marks say. */
  predicate Same(a: Row, b: Row) {
    a.id == b.id && a.wallet == b.wallet && a.seqNo == b.seqNo
  }

  predicate InLog(log: seq<Row>, r: Row) {
    exists l :: 0 <= l < |log| && Same(log[l], r)
  }

  predicate DistinctIds(outbox: seq<Row>) {
    forall i, j :: 0 <= i < j < |outbox| ==> outbox[i].id != outbox[j].id
  }

  /** Taken numbers are above every stored number of their wallet, at most one per wallet. */
  predicate PendingOk(s: State) {
    && (forall i, j :: 0 <= i < j < |s.pending| ==> s.pending[i].0 != s.pending[j].0)
    && (forall i :: 0 <= i < |s.pending| ==> s.pending[i].1 == Counter(s.counters, s.pending[i].0))
    && (forall i, k :: 0 <= i < |s.pending| && 0 <= k < |s.outbox| && s.outbox[k].wallet == Some(s.pending[i].0) ==>
          s.outbox[k].seqNo < s.pending[i].1)
    && (forall k :: 0 <= k < |s.outbox| && s.outbox[k].wallet.Some? ==>
          s.outbox[k].seqNo <= Counter(s.counters, s.outbox[k].wallet.value))
  }

  predicate OutboxOk(outbox: seq<Row>, log: seq<Row>) {
    && Ordered(outbox) && DistinctIds(outbox)
    && (forall i :: 0 <= i < |outbox| && outbox[i].delivered ==> InLog(log, outbox[i]))
    && MarkedDownClosed(outbox)
  }

  predicate SameWallet(a: Row, b: Row) {
    a.wallet.Some? && a.wallet == b.wallet
  }

  /** A marked event has every earlier event of its wallet marked. */
  predicate MarkedDownClosed(outbox: seq<Row>) {
    forall i, j :: 0 <= i < j < |outbox| && SameWallet(outbox[i], outbox[j]) && outbox[j].delivered ==>
      outbox[i].delivered
  }

  predicate InBatch(batch: seq<Row>, k: nat, r: Row)
    requires k <= |batch|
  {
    exists j :: 0 <= j < k && Same(batch[j], r)
  }

  /** Entries are stored rows; earlier events of the same wallet are marked or come earlier in the batch. */
  predicate EntryOk(outbox: seq<Row>, batch: seq<Row>, k: nat)
    requires k < |batch|
  {
    && (exists i :: 0 <= i < |outbox| && Same(outbox[i], batch[k]))
    && forall i :: 0 <= i < |outbox| && batch[k].wallet.Some? && outbox[i].wallet == batch[k].wallet
                   && outbox[i].seqNo < batch[k].seqNo ==>
         outbox[i].delivered || InBatch(batch, k, outbox[i])
  }

  predicate DrainerOk(outbox: seq<Row>, log: seq<Row>, d: Drainer) {
    d.Idle? ||
    (&& (forall k :: 0 <= k < |d.batch| ==> EntryOk(outbox, d.batch, k))
     && (d.Sending? ==> d.n <= |d.batch| && forall j :: 0 <= j < d.n ==> InLog(log, d.batch[j]))
     && (d.Marking? ==>
           && d.n <= |d.batch|
           && (forall j :: 0 <= j < |d.batch| ==> InLog(log, d.batch[j]))
           && (forall i, j :: 0 <= i < |outbox| && 0 <= j < d.n && outbox[i].id == d.batch[j].id ==>
               outbox[i].delivered)))
  }

  ghost predicate InOrder(s: State) {
    forall w :: Firsts(s.log, w) <= Emitted(s.outbox, w)
  }

  ghost predicate Inv(s: State) {
    PendingOk(s) && OutboxOk(s.outbox, s.log) && DrainerOk(s.outbox, s.log, s.drainer) && InOrder(s)
  }

  lemma LogGrows(log: seq<Row>, e: Row, r: Row)
    ensures InLog(log + [e], r) <==> InLog(log, r) || Same(e, r)
  {
    if InLog(log, r) {
      var l :| 0 <= l < |log| && Same(log[l], r);
      assert (log + [e])[l] == log[l];
    }
    assert (log + [e])[|log|] == e;
  }

  // ---------------------------------------------------------------- emitting

  lemma AppendOutbox(outbox: seq<Row>, log: seq<Row>, r: Row)
    requires OutboxOk(outbox, log) && !HasId(outbox, r.id) && !r.delivered
    requires forall k :: 0 <= k < |outbox| && r.wallet.Some? && outbox[k].wallet == r.wallet ==>
               outbox[k].seqNo < r.seqNo
    ensures OutboxOk(outbox + [r], log)
  {
  }

  lemma AppendEntry(outbox: seq<Row>, batch: seq<Row>, k: nat, r: Row)
    requires k < |batch| && EntryOk(outbox, batch, k)
    requires forall i :: 0 <= i < |outbox| && r.wallet.Some? && outbox[i].wallet == r.wallet ==>
               outbox[i].seqNo < r.seqNo
    ensures EntryOk(outbox + [r], batch, k)
  {
    var i :| 0 <= i < |outbox| && Same(outbox[i], batch[k]);
    assert (outbox + [r])[i] == outbox[i];
  }

  lemma AppendInOrder(outbox: seq<Row>, log: seq<Row>, r: Row, w: Uuid)
    requires Firsts(log, w) <= Emitted(outbox, w)
    ensures Firsts(log, w) <= Emitted(outbox + [r], w)
  {
    assert (outbox + [r])[..|outbox|] == outbox;
  }

  /** A new row, numbered above every stored row of its wallet, disturbs nothing. */
  lemma AppendInv(s: State, r: Row)
    requires OutboxOk(s.outbox, s.log) && DrainerOk(s.outbox, s.log, s.drainer) && InOrder(s)
    requires !HasId(s.outbox, r.id) && !r.delivered
    requires forall k :: 0 <= k < |s.outbox| && r.wallet.Some? && s.outbox[k].wallet == r.wallet ==>
               s.outbox[k].seqNo < r.seqNo
    ensures OutboxOk(s.outbox + [r], s.log) && DrainerOk(s.outbox + [r], s.log, s.drainer)
    ensures InOrder(s.(outbox := s.outbox + [r]))
  {
    AppendOutbox(s.outbox, s.log, r);
    if !s.drainer.Idle? {
      forall k | 0 <= k < |s.drainer.batch|
        ensures EntryOk(s.outbox + [r], s.drainer.batch, k)
      {
        AppendEntry(s.outbox, s.drainer.batch, k, r);
      }
      NewIdNotInBatch(s.outbox, s.drainer.batch, r);
    }
    forall w
      ensures Firsts(s.log, w) <= Emitted(s.outbox + [r], w)
    {
      AppendInOrder(s.outbox, s.log, r, w);
    }
  }

  lemma NewIdNotInBatch(outbox: seq<Row>, batch: seq<Row>, r: Row)
    requires forall k :: 0 <= k < |batch| ==> EntryOk(outbox, batch, k)
    requires !HasId(outbox, r.id)
    ensures forall j :: 0 <= j < |batch| ==> batch[j].id != r.id
  {
    forall j | 0 <= j < |batch|
      ensures batch[j].id != r.id
    {
      assert EntryOk(outbox, batch, j);
    }
  }

  lemma PendingAppended(s: State, i: nat, r: Row)
    requires PendingOk(s) && i < |s.pending| && r.wallet == Some(s.pending[i].0) && r.seqNo == s.pending[i].1
    ensures PendingOk(s.(outbox := s.outbox + [r], pending := Remove(s.pending, i)))
    ensures PendingOk(s.(pending := Remove(s.pending, i)))
  {
    var rest := Remove(s.pending, i);
    assert forall k :: 0 <= k < |rest| ==> rest[k] == s.pending[if k < i then k else k + 1];
  }

  lemma PendingNumbered(s: State, w: Uuid)
    requires PendingOk(s) && Serial(s, Number(w))
    ensures var n := Counter(s.counters, w) + 1;
            PendingOk(s.(counters := s.counters[w := n], pending := s.pending + [(w, n)]))
  {
  }

  // ---------------------------------------------------------------- draining

  lemma ListedEntry(outbox: seq<Row>, sorted: seq<Row>, batch: seq<Row>, k: nat)
    requires Ordered(outbox) && IsListing(outbox, sorted) && batch <= sorted && k < |batch|
    ensures EntryOk(outbox, batch, k)
  {
    assert batch[k] == sorted[k];
    assert sorted[k] in outbox;
    forall i | 0 <= i < |outbox| && batch[k].wallet.Some? && outbox[i].wallet == batch[k].wallet
               && outbox[i].seqNo < batch[k].seqNo && !outbox[i].delivered
      ensures InBatch(batch, k, outbox[i])
    {
      assert outbox[i] in sorted;
      var j :| 0 <= j < |sorted| && sorted[j] == outbox[i];
      assert j < k;
      assert Same(batch[j], outbox[i]);
    }
  }

  lemma ListInv(s: State, sorted: seq<Row>)
    requires Inv(s) && s.drainer.Idle? && IsListing(s.outbox, sorted) && sorted != []
    ensures DrainerOk(s.outbox, s.log, Sending(Batch(sorted), 0))
  {
    forall k | 0 <= k < |Batch(sorted)|
      ensures EntryOk(s.outbox, Batch(sorted), k)
    {
      ListedEntry(s.outbox, sorted, Batch(sorted), k);
    }
  }

  /** When an entry is sent, every earlier event of its wallet has been delivered before. */
  lemma EarlierDelivered(s: State, x: int)
    requires Inv(s) && s.drainer.Sending? && s.drainer.n < |s.drainer.batch|
    requires var e := s.drainer.batch[s.drainer.n];
             e.wallet.Some? && x in Emitted(s.outbox, e.wallet.value) && x < e.seqNo
    ensures x in Firsts(s.log, s.drainer.batch[s.drainer.n].wallet.value)
  {
    var e := s.drainer.batch[s.drainer.n];
    var w := e.wallet.value;
    EmittedMember(s.outbox, w, x);
    var i :| 0 <= i < |s.outbox| && s.outbox[i].wallet == Some(w) && s.outbox[i].seqNo == x;
    assert EntryOk(s.outbox, s.drainer.batch, s.drainer.n);
    if s.outbox[i].delivered {
      LoggedIsFirst(s.log, w, s.outbox[i]);
    } else {
      var j :| 0 <= j < s.drainer.n && Same(s.drainer.batch[j], s.outbox[i]);
      LoggedIsFirst(s.log, w, s.drainer.batch[j]);
    }
  }

  lemma LoggedIsFirst(log: seq<Row>, w: Uuid, r: Row)
    requires InLog(log, r) && r.wallet == Some(w)
    ensures r.seqNo in Firsts(log, w)
  {
    var l :| 0 <= l < |log| && Same(log[l], r);
    FirstsMember(log, w, log[l]);
  }

  lemma SendInOrder(s: State, w: Uuid)
    requires Inv(s) && s.drainer.Sending? && s.drainer.n < |s.drainer.batch|
    ensures Firsts(s.log + [s.drainer.batch[s.drainer.n]], w) <= Emitted(s.outbox, w)
  {
    var e := s.drainer.batch[s.drainer.n];
    var all, f := Emitted(s.outbox, w), Firsts(s.log, w);
    assert (s.log + [e])[..|s.log|] == s.log;
    if e.wallet == Some(w) && e.seqNo !in f {
      EmittedAscending(s.outbox, w);
      assert EntryOk(s.outbox, s.drainer.batch, s.drainer.n);
      EmittedMember(s.outbox, w, e.seqNo);
      forall x | x in all && x < e.seqNo
        ensures x in f
      {
        EarlierDelivered(s, x);
      }
      PrefixGrows(all, f, e.seqNo);
    }
  }

  lemma SendInv(s: State)
    requires Inv(s) && s.drainer.Sending? && s.drainer.n < |s.drainer.batch|
    ensures var log := s.log + [s.drainer.batch[s.drainer.n]];
            Inv(s.(log := log, drainer := Sending(s.drainer.batch, s.drainer.n + 1)))
  {
    var e := s.drainer.batch[s.drainer.n];
    var log := s.log + [e];
    forall r
      ensures InLog(log, r) <==> InLog(s.log, r) || Same(e, r)
    {
      LogGrows(s.log, e, r);
    }
    forall w
      ensures Firsts(log, w) <= Emitted(s.outbox, w)
    {
      SendInOrder(s, w);
    }
  }

  /** Marking one row changes its marks and nothing else. */
  lemma {:induction false} MarkedEmitted(outbox: seq<Row>, i: nat, w: Uuid)
    requires i < |outbox|
    ensures Emitted(outbox[i := Marked(outbox[i])], w) == Emitted(outbox, w)
  {
    var out := outbox[i := Marked(outbox[i])];
    if i < |outbox| - 1 {
      MarkedEmitted(outbox[..|outbox| - 1], i, w);
      assert out[..|out| - 1] == outbox[..|outbox| - 1][i := Marked(outbox[i])];
    } else {
      assert out[..|out| - 1] == outbox[..|outbox| - 1];
    }
  }

  lemma MarkEntry(outbox: seq<Row>, batch: seq<Row>, i: nat, k: nat)
    requires i < |outbox| && k < |batch| && EntryOk(outbox, batch, k)
    ensures EntryOk(outbox[i := Marked(outbox[i])], batch, k)
  {
    var out := outbox[i := Marked(outbox[i])];
    assert forall j :: 0 <= j < |out| ==> Same(out[j], outbox[j]) && (outbox[j].delivered ==> out[j].delivered);
    var j :| 0 <= j < |outbox| && Same(outbox[j], batch[k]);
    assert Same(out[j], batch[k]);
    forall x | 0 <= x < |out| && batch[k].wallet.Some? && out[x].wallet == batch[k].wallet
               && out[x].seqNo < batch[k].seqNo && !out[x].delivered
      ensures InBatch(batch, k, out[x])
    {
      assert InBatch(batch, k, outbox[x]);
    }
  }

  /** The row to be marked is stored, and every earlier row of its wallet is marked already. */
  lemma EarlierMarked(s: State) returns (i: nat)
    requires Inv(s) && s.drainer.Marking? && s.drainer.n < |s.drainer.batch|
    ensures i == Find(s.outbox, s.drainer.batch[s.drainer.n].id) < |s.outbox|
    ensures Same(s.outbox[i], s.drainer.batch[s.drainer.n])
    ensures forall x :: 0 <= x < i && s.outbox[x].wallet.Some? && s.outbox[x].wallet == s.outbox[i].wallet ==>
              s.outbox[x].delivered
  {
    var e := s.drainer.batch[s.drainer.n];
    assert EntryOk(s.outbox, s.drainer.batch, s.drainer.n);
    var m :| 0 <= m < |s.outbox| && Same(s.outbox[m], e);
    i := Find(s.outbox, e.id);
    assert i == m;
    forall x | 0 <= x < i && s.outbox[x].wallet.Some? && s.outbox[x].wallet == s.outbox[i].wallet
      ensures s.outbox[x].delivered
    {
      assert s.outbox[x].seqNo < e.seqNo;
    }
  }

  lemma MarkOutbox(outbox: seq<Row>, log: seq<Row>, i: nat)
    requires OutboxOk(outbox, log) && i < |outbox| && InLog(log, outbox[i])
    requires forall x :: 0 <= x < i && outbox[x].wallet.Some? && outbox[x].wallet == outbox[i].wallet ==>
               outbox[x].delivered
    ensures OutboxOk(outbox[i := Marked(outbox[i])], log)
  {
    var out := outbox[i := Marked(outbox[i])];
    forall k | 0 <= k < |out| && out[k].delivered
      ensures InLog(log, out[k])
    {
      assert InLog(log, outbox[k]);
    }
  }

  lemma MarkInv(s: State)
    requires Inv(s) && s.drainer.Marking? && s.drainer.n < |s.drainer.batch|
    ensures Inv(s.(outbox := MarkDelivered(s.outbox, s.drainer.batch[s.drainer.n].id),
                   drainer := Marking(s.drainer.batch, s.drainer.n + 1)))
  {
    var d := s.drainer;
    var i := EarlierMarked(s);
    var out := s.outbox[i := Marked(s.outbox[i])];
    assert out == MarkDelivered(s.outbox, d.batch[d.n].id);
    SameInLog(s.log, d.batch[d.n], s.outbox[i]);
    PendingMarked(s, d.batch[d.n].id);
    MarkOutbox(s.outbox, s.log, i);
    forall k | 0 <= k < |d.batch|
      ensures EntryOk(out, d.batch, k)
    {
      MarkEntry(s.outbox, d.batch, i, k);
    }
    forall w
      ensures Firsts(s.log, w) <= Emitted(out, w)
    {
      MarkedEmitted(s.outbox, i, w);
    }
  }

  lemma SameInLog(log: seq<Row>, a: Row, b: Row)
    requires InLog(log, a) && Same(a, b)
    ensures InLog(log, b)
  {
    var l :| 0 <= l < |log| && Same(log[l], a);
    assert Same(log[l], b);
  }

  lemma PendingGlobal(s: State, r: Row)
    requires PendingOk(s) && r.wallet.None?
    ensures PendingOk(s.(outbox := s.outbox + [r]))
  {
  }

  lemma PendingMarked(s: State, id: Uuid)
    requires PendingOk(s)
    ensures PendingOk(s.(outbox := MarkDelivered(s.outbox, id)))
  {
    var out := MarkDelivered(s.outbox, id);
    assert forall k :: 0 <= k < |out| ==> Same(out[k], s.outbox[k]);
  }

  lemma EmitInv(s: State, st: Step, s': State)
    requires Inv(s) && Serial(s, st) && Apply(s, st) == Some(s') && (st.Append? || st.EmitGlobal?)
    ensures Inv(s')
  {
    if st.Append? {
      var r := Row(st.id, st.eventId, Some(s.pending[st.i].0), s.pending[st.i].1, false, 0);
      PendingAppended(s, st.i, r);
      AppendInv(s, r);
    } else {
      var r := Row(st.id, st.eventId, None, st.now, false, 0);
      PendingGlobal(s, r);
      AppendInv(s, r);
    }
  }

  lemma NumberInv(s: State, w: Uuid, s': State)
    requires Inv(s) && Serial(s, Number(w)) && Apply(s, Number(w)) == Some(s')
    ensures Inv(s')
  {
    PendingNumbered(s, w);
  }

  lemma DrainInv(s: State, st: Step, s': State)
    requires Inv(s) && Apply(s, st) == Some(s') && !st.Append? && !st.EmitGlobal? && !st.Number?
    ensures Inv(s')
  {
    if st.Send? {
      SendInv(s);
    } else if st.Mark? {
      MarkInv(s);
    } else if st.List? && st.sorted != [] {
      ListInv(s, st.sorted);
    }
  }

  lemma StepInv(s: State, st: Step, s': State)
    requires Inv(s) && Serial(s, st) && Apply(s, st) == Some(s')
    ensures Inv(s')
  {
    if st.Number? {
      NumberInv(s, st.wallet, s');
    } else if st.Append? || st.EmitGlobal? {
      EmitInv(s, st, s');
    } else {
      DrainInv(s, st, s');
    }
  }

  lemma {:induction false} RunInv(run: seq<Step>)
    requires Exec(INITIAL, run).Some? && SerialRun(run)
    ensures Inv(Exec(INITIAL, run).value)
  {
    if run != [] {
      RunInv(run[..|run| - 1]);
      StepInv(Exec(INITIAL, run[..|run| - 1]).value, run[|run| - 1], Exec(INITIAL, run).value);
    }
  }

  // ---------------------------------------------------------------- what the outbox promises

  /**
   Over every run in which the emitters of a wallet take turns: the sink first sees a wallet's events in
   ascending order, and what it has seen is a prefix of what was emitted.
   */
  lemma {:induction false} DeliveredInOrder(run: seq<Step>, w: Uuid)
    requires Exec(INITIAL, run).Some? && SerialRun(run)
    ensures var s := Exec(INITIAL, run).value;
            Firsts(s.log, w) <= Emitted(s.outbox, w) && Increasing(Firsts(s.log, w))
  {
    RunInv(run);
    EmittedAscending(Exec(INITIAL, run).value.outbox, w);
  }

  /** Event `j` was delivered, and every earlier event of its wallet is marked. */
  predicate Settled(s: State, j: nat)
    requires j < |s.outbox|
  {
    && InLog(s.log, s.outbox[j])
    && forall i ::
         0 <= i < |s.outbox| && SameWallet(s.outbox[i], s.outbox[j]) && s.outbox[i].seqNo < s.outbox[j].seqNo ==>
           s.outbox[i].delivered
  }

  lemma MarkedSettled(s: State, j: nat)
    requires OutboxOk(s.outbox, s.log) && j < |s.outbox| && s.outbox[j].delivered
    ensures Settled(s, j)
  {
    forall i | 0 <= i < |s.outbox| && SameWallet(s.outbox[i], s.outbox[j]) && s.outbox[i].seqNo < s.outbox[j].seqNo
      ensures s.outbox[i].delivered
    {
      assert i < j;
    }
  }

  /** Marked events were delivered, and a marked event has all earlier events of its wallet marked. */
  lemma {:induction false} MarkedWereDelivered(run: seq<Step>, j: nat)
    requires Exec(INITIAL, run).Some? && SerialRun(run)
    requires j < |Exec(INITIAL, run).value.outbox| && Exec(INITIAL, run).value.outbox[j].delivered
    ensures Settled(Exec(INITIAL, run).value, j)
  {
    RunInv(run);
    MarkedSettled(Exec(INITIAL, run).value, j);
  }

  /** The numbers 1, 2, ..., n. */
  function UpTo(n: nat): seq<int> {
    seq(n, i requires 0 <= i < n => i + 1)
  }

  /** Event ids are new as well, so no row is refused. */
  ghost predicate NewEvents(run: seq<Step>) {
    run == [] ||
    (&& NewEvents(run[..|run| - 1]) && Exec(INITIAL, run[..|run| - 1]).Some?
     && (run[|run| - 1].Append? ==> !HasEvent(Exec(INITIAL, run[..|run| - 1]).value.outbox, run[|run| - 1].eventId)))
  }

  predicate Waits(s: State, w: Uuid) {
    exists i :: 0 <= i < |s.pending| && s.pending[i].0 == w
  }

  ghost predicate NoGap(s: State, w: Uuid) {
    && Counter(s.counters, w) >= (if Waits(s, w) then 1 else 0)
    && Emitted(s.outbox, w) == UpTo(Counter(s.counters, w) - (if Waits(s, w) then 1 else 0))
  }

  lemma AppendNoGap(s: State, i: nat, r: Row, w: Uuid)
    requires PendingOk(s) && i < |s.pending| && r.wallet == Some(s.pending[i].0) && r.seqNo == s.pending[i].1
             && NoGap(s, w)
    ensures NoGap(s.(outbox := s.outbox + [r], pending := Remove(s.pending, i)), w)
  {
    WaitsAfter(s, i, w);
    assert (s.outbox + [r])[..|s.outbox|] == s.outbox;
    if w == s.pending[i].0 {
      assert Emitted(s.outbox + [r], w) == Emitted(s.outbox, w) + [r.seqNo];
      assert UpTo(r.seqNo - 1) + [r.seqNo] == UpTo(r.seqNo);
    } else {
      assert Emitted(s.outbox + [r], w) == Emitted(s.outbox, w);
    }
  }

  lemma WaitsAfter(s: State, i: nat, w: Uuid)
    requires PendingOk(s) && i < |s.pending|
    ensures Waits(s.(pending := Remove(s.pending, i)), w) <==> Waits(s, w) && w != s.pending[i].0
  {
    var rest := Remove(s.pending, i);
    assert forall k :: 0 <= k < |rest| ==> rest[k] == s.pending[if k < i then k else k + 1];
    if Waits(s, w) && w != s.pending[i].0 {
      var k :| 0 <= k < |s.pending| && s.pending[k].0 == w;
      assert rest[if k < i then k else k - 1] == s.pending[k];
    }
  }

  lemma NumberNoGap(s: State, w': Uuid, w: Uuid)
    requires Serial(s, Number(w')) && NoGap(s, w)
    ensures var n := Counter(s.counters, w') + 1;
            NoGap(s.(counters := s.counters[w' := n], pending := s.pending + [(w', n)]), w)
  {
    var n := Counter(s.counters, w') + 1;
    var s' := s.(counters := s.counters[w' := n], pending := s.pending + [(w', n)]);
    assert s'.pending[|s.pending|] == (w', n);
    if Waits(s, w) {
      var k :| 0 <= k < |s.pending| && s.pending[k].0 == w;
      assert s'.pending[k] == s.pending[k];
    }
  }

  lemma GlobalNoGap(s: State, r: Row, w: Uuid)
    requires NoGap(s, w) && r.wallet.None?
    ensures NoGap(s.(outbox := s.outbox + [r]), w)
  {
    assert (s.outbox + [r])[..|s.outbox|] == s.outbox;
  }

  lemma MarkNoGap(s: State, w: Uuid)
    requires Inv(s) && s.drainer.Marking? && s.drainer.n < |s.drainer.batch| && NoGap(s, w)
    ensures NoGap(s.(outbox := MarkDelivered(s.outbox, s.drainer.batch[s.drainer.n].id)), w)
  {
    var i := EarlierMarked(s);
    MarkedEmitted(s.outbox, i, w);
  }

  lemma StepNoGap(s: State, st: Step, s': State, w: Uuid)
    requires Inv(s) && Serial(s, st) && Apply(s, st) == Some(s') && NoGap(s, w)
    requires st.Append? ==> !HasEvent(s.outbox, st.eventId)
    ensures NoGap(s', w)
  {
    if st.Number? {
      NumberNoGap(s, st.wallet, w);
    } else if st.Append? {
      AppendNoGap(s, st.i, Row(st.id, st.eventId, Some(s.pending[st.i].0), s.pending[st.i].1, false, 0), w);
    } else if st.EmitGlobal? {
      GlobalNoGap(s, Row(st.id, st.eventId, None, st.now, false, 0), w);
    } else if st.Mark? {
      MarkNoGap(s, w);
    }
  }

  /** With new event ids too, a wallet's stored numbers are 1, 2, ..., without a gap. */
  lemma {:induction false} NumbersAreContiguous(run: seq<Step>, w: Uuid)
    requires Exec(INITIAL, run).Some? && SerialRun(run) && NewEvents(run)
    ensures NoGap(Exec(INITIAL, run).value, w)
  {
    if run != [] {
      NumbersAreContiguous(run[..|run| - 1], w);
      RunInv(run[..|run| - 1]);
      StepNoGap(Exec(INITIAL, run[..|run| - 1]).value, run[|run| - 1], Exec(INITIAL, run).value, w);
    }
  }

  /** The first deliveries of a wallet are exactly 1, 2, ..., k for some k. */
  lemma {:induction false} FirstsAreOneToK(run: seq<Step>, w: Uuid)
    requires Exec(INITIAL, run).Some? && SerialRun(run) && NewEvents(run)
    ensures Firsts(Exec(INITIAL, run).value.log, w) == UpTo(|Firsts(Exec(INITIAL, run).value.log, w)|)
  {
    DeliveredInOrder(run, w);
    NumbersAreContiguous(run, w);
  }

  /** Emitters of one wallet take turns all along a run from `s`. */
  ghost predicate SerialFrom(s: State, run: seq<Step>)
    decreases |run|
  {
    run == [] ||
    (&& SerialFrom(s, run[..|run| - 1]) && Exec(s, run[..|run| - 1]).Some?
     && Serial(Exec(s, run[..|run| - 1]).value, run[|run| - 1]))
  }

  lemma {:induction false} InvFrom(s: State, run: seq<Step>)
    requires Inv(s) && Exec(s, run).Some? && SerialFrom(s, run)
    ensures Inv(Exec(s, run).value)
    decreases |run|
  {
    if run != [] {
      InvFrom(s, run[..|run| - 1]);
      StepInv(Exec(s, run[..|run| - 1]).value, run[|run| - 1], Exec(s, run).value);
    }
  }
}
