/**
 The emitter service over the in-memory outbox, as it runs: Emit numbers and stores an event, Drain lists,
 delivers and marks. The ghost history ties every state of the object to a run of the outbox's steps.
 */
module AuditEmitter {
  import opened Prelude
  import opened AuditOutbox
  import Sequences

  /** What the sink and the marking loop do in one drain. */
  datatype Outcome = Outcome(accepted: nat, sinkFails: bool, marked: nat, markFails: bool)

  ghost predicate Reached(run: seq<Step>, s: State) {
    Exec(INITIAL, run) == Some(s) && SerialRun(run)
  }

  lemma {:induction false} Reach(run: seq<Step>, s: State, st: Step, s': State)
    requires Reached(run, s) && Serial(s, st) && Apply(s, st) == Some(s')
    ensures Reached(run + [st], s')
  {
    assert (run + [st])[..|run + [st]| - 1] == run;
  }

  lemma {:induction false} ReachSend(run: seq<Step>, s: State, batch: seq<Row>, n: nat)
    requires n < |batch| && Reached(run, s.(drainer := Sending(batch, n)))
    ensures Reached(run + [Send], s.(log := s.log + [batch[n]], drainer := Sending(batch, n + 1)))
  {
    Reach(run, s.(drainer := Sending(batch, n)), Send, s.(log := s.log + [batch[n]], drainer := Sending(batch, n + 1)));
  }

  lemma {:induction false} ReachMark(run: seq<Step>, s: State, batch: seq<Row>, n: nat)
    requires n < |batch| && Reached(run, s.(drainer := Marking(batch, n)))
    ensures Reached(run + [Mark], s.(outbox := MarkDelivered(s.outbox, batch[n].id), drainer := Marking(batch, n + 1)))
  {
    Reach(run, s.(drainer := Marking(batch, n)), Mark,
          s.(outbox := MarkDelivered(s.outbox, batch[n].id), drainer := Marking(batch, n + 1)));
  }

  lemma {:induction false} ReachEmit(run: seq<Step>, s: State, w: Uuid, id: Uuid, eventId: Uuid)
    requires Reached(run, s) && s.pending == [] && !HasId(s.outbox, id)
    ensures Reached(run + [Number(w)] + [Append(0, id, eventId)], Emission(s, w, id, eventId))
  {
    var n := Counter(s.counters, w) + 1;
    var s1 := s.(counters := s.counters[w := n], pending := [(w, n)]);
    assert [] + [(w, n)] == [(w, n)] && Remove([(w, n)], 0) == [];
    Reach(run, s, Number(w), s1);
    Reach(run + [Number(w)], s1, Append(0, id, eventId), Emission(s, w, id, eventId));
  }

  ghost function Emission(s: State, w: Uuid, id: Uuid, eventId: Uuid): State {
    var n := Counter(s.counters, w) + 1;
    s.(counters := s.counters[w := n], outbox := Appended(s.outbox, Row(id, eventId, Some(w), n, false, 0)))
  }

  class Emitter {
    var outbox: seq<Row>
    var counters: map<Uuid, int>
    ghost var log: seq<Row>
    ghost var history: seq<Step>

    constructor ()
      ensures Valid() && Abs() == INITIAL
    {
      outbox, counters, log, history := [], map[], [], [];
    }

    ghost function Abs(): State
      reads this
    {
      State(outbox, counters, [], Idle, log)
    }

    ghost predicate Valid()
      reads this
    {
      Reached(history, Abs())
    }

    method NextAuditSeq(w: Uuid) returns (n: int)
      modifies `counters
      ensures n == Counter(old(counters), w) + 1 && counters == old(counters)[w := n]
    {
      n := (if w in counters then counters[w] else 0) + 1;
      counters := counters[w := n];
    }

    /** Refuses an event id that is stored already. */
    method AppendAuditEvent(r: Row) returns (ok: bool)
      modifies `outbox
      ensures outbox == Appended(old(outbox), r)
      ensures ok <==> !HasEvent(old(outbox), r.eventId)
    {
      for i := 0 to |outbox|
        invariant outbox == old(outbox) && forall j :: 0 <= j < i ==> outbox[j].eventId != r.eventId
      {
        if outbox[i].eventId == r.eventId {
          return false;
        }
      }
      outbox := outbox + [r];
      return true;
    }

    method MarkAuditDelivered(id: Uuid) returns (ok: bool)
      modifies `outbox
      ensures outbox == MarkDelivered(old(outbox), id)
      ensures ok <==> HasId(old(outbox), id)
    {
      for i := 0 to |outbox|
        invariant outbox == old(outbox) && forall j :: 0 <= j < i ==> outbox[j].id != id
      {
        if outbox[i].id == id {
          assert Find(outbox, id) == i;
          outbox := outbox[i := outbox[i].(delivered := true, attempts := outbox[i].attempts + 1)];
          return true;
        }
      }
      return false;
    }

    /** The undelivered rows, sorted by number and cut at the limit. */
    method ListUndelivered() returns (batch: seq<Row>, ghost sorted: seq<Row>)
      requires DistinctIds(outbox)
      ensures IsListing(outbox, sorted) && batch == Batch(sorted)
      ensures |batch| <= LIMIT && forall i, j :: 0 <= i < j < |batch| ==>
                batch[i].seqNo <= batch[j].seqNo && batch[i] != batch[j]
      ensures forall r :: r in batch ==> r in outbox && !r.delivered
      ensures forall r, b :: r in outbox && !r.delivered && r !in batch && b in batch ==>
                |batch| == LIMIT && b.seqNo <= r.seqNo
    {
      var acc := [];
      for i := 0 to |outbox|
        invariant IsListing(outbox[..i], acc)
      {
        assert outbox[..i + 1] == outbox[..i] + [outbox[i]];
        if !outbox[i].delivered {
          assert outbox[i] !in outbox[..i];
          acc := Insert(acc, outbox[i], outbox[..i]);
        }
      }
      assert outbox[..|outbox|] == outbox;
      sorted := acc;
      batch := if |acc| > LIMIT then acc[..LIMIT] else acc;
      assert |acc| > LIMIT ==> acc == batch + acc[LIMIT..];
    }

    method NumberAndStore(w: Uuid, id: Uuid, eventId: Uuid) returns (ok: bool)
      modifies `outbox, `counters
      ensures ok == !HasEvent(old(outbox), eventId) && counters == old(counters)[w := Counter(old(counters), w) + 1]
      ensures outbox == Appended(old(outbox), Row(id, eventId, Some(w), Counter(old(counters), w) + 1, false, 0))
    {
      var n := NextAuditSeq(w);
      ok := AppendAuditEvent(Row(id, eventId, Some(w), n, false, 0));
    }

    method EmitFor(w: Uuid, id: Uuid, eventId: Uuid) returns (ok: bool)
      requires Valid() && !HasId(outbox, id)
      modifies `outbox, `counters, `history
      ensures Valid() && ok == !HasEvent(old(outbox), eventId)
      ensures outbox == Appended(old(outbox), Row(id, eventId, Some(w), Counter(old(counters), w) + 1, false, 0))
      ensures counters == old(counters)[w := Counter(old(counters), w) + 1]
    {
      ghost var after := Emission(Abs(), w, id, eventId);
      ReachEmit(history, Abs(), w, id, eventId);
      ok := NumberAndStore(w, id, eventId);
      assert Abs() == after;
      history := history + [Number(w)] + [Append(0, id, eventId)];
    }

    method EmitGlobally(id: Uuid, eventId: Uuid, now: int) returns (ok: bool)
      requires Valid() && !HasId(outbox, id)
      modifies `outbox, `history
      ensures Valid() && ok == !HasEvent(old(outbox), eventId)
      ensures outbox == Appended(old(outbox), Row(id, eventId, None, now, false, 0))
    {
      var r := Row(id, eventId, None, now, false, 0);
      Reach(history, Abs(), EmitGlobal(id, eventId, now), Abs().(outbox := Appended(outbox, r)));
      ok := AppendAuditEvent(r);
      history := history + [EmitGlobal(id, eventId, now)];
    }

    /** Emit numbers the event, if it has a wallet, and stores it under a new row id. */
    method Emit(wallet: Option<Uuid>, id: Uuid, eventId: Uuid, now: int) returns (ok: bool)
      requires Valid() && !HasId(outbox, id)
      modifies `outbox, `counters, `history
      ensures Valid() && ok == !HasEvent(old(outbox), eventId)
      ensures wallet.None? ==>
                outbox == Appended(old(outbox), Row(id, eventId, None, now, false, 0)) && counters == old(counters)
      ensures wallet.Some? ==>
                var n := Counter(old(counters), wallet.value) + 1;
                && outbox == Appended(old(outbox), Row(id, eventId, wallet, n, false, 0))
                && counters == old(counters)[wallet.value := n]
    {
      if wallet.Some? {
        ok := EmitFor(wallet.value, id, eventId);
      } else {
        ok := EmitGlobally(id, eventId, now);
      }
    }

    ghost method SendOne(batch: seq<Row>, n: nat)
      requires n < |batch| && Reached(history, Abs().(drainer := Sending(batch, n)))
      modifies `log, `history
      ensures Reached(history, Abs().(drainer := Sending(batch, n + 1))) && log == old(log) + [batch[n]]
    {
      ReachSend(history, Abs(), batch, n);
      history := history + [Send];
      log := log + [batch[n]];
    }

    /** The sink takes the batch event by event until it is done or fails. */
    method Deliver(batch: seq<Row>, accepted: nat)
      requires accepted <= |batch| && Reached(history, Abs().(drainer := Sending(batch, 0)))
      modifies `log, `history
      ensures Reached(history, Abs().(drainer := Sending(batch, accepted))) && log == old(log) + batch[..accepted]
    {
      for n := 0 to accepted
        invariant Reached(history, Abs().(drainer := Sending(batch, n)))
        invariant log == old(log) + batch[..n]
      {
        SendOne(batch, n);
        assert batch[..n + 1] == batch[..n] + [batch[n]];
      }
    }

    method MarkOne(batch: seq<Row>, n: nat)
      requires n < |batch| && Reached(history, Abs().(drainer := Marking(batch, n)))
      modifies `outbox, `history
      ensures Reached(history, Abs().(drainer := Marking(batch, n + 1)))
              && outbox == MarkDelivered(old(outbox), batch[n].id)
    {
      ReachMark(history, Abs(), batch, n);
      history := history + [Mark];
      var _ := MarkAuditDelivered(batch[n].id);
    }

    /** The loop that marks the delivered events, up to its end or to an error. */
    method MarkAll(batch: seq<Row>, marked: nat)
      requires marked <= |batch| && Reached(history, Abs().(drainer := Marking(batch, 0)))
      modifies `outbox, `history
      ensures Reached(history, Abs().(drainer := Marking(batch, marked)))
              && outbox == MarkedAll(old(outbox), batch[..marked])
    {
      for n := 0 to marked
        invariant Reached(history, Abs().(drainer := Marking(batch, n)))
        invariant outbox == MarkedAll(old(outbox), batch[..n])
      {
        assert batch[..n + 1][..n] == batch[..n];
        MarkOne(batch, n);
      }
    }

    /** The marking half of a drain. */
    method MarkBatch(batch: seq<Row>, o: Outcome)
      requires !o.sinkFails && Reached(history, Abs().(drainer := Sending(batch, |batch|)))
      modifies `outbox, `history
      ensures Valid() && outbox == MarkedAll(old(outbox), batch[..Ticked(o, |batch|)])
    {
      Reach(history, Abs().(drainer := Sending(batch, |batch|)), SinkDone, Abs().(drainer := Marking(batch, 0)));
      history := history + [SinkDone];
      MarkAll(batch, Ticked(o, |batch|));
      EndDrain(if o.markFails then MarkFails else Finish, Marking(batch, Ticked(o, |batch|)));
    }

    method EndDrain(st: Step, d: Drainer)
      requires Reached(history, Abs().(drainer := d)) && Apply(Abs().(drainer := d), st) == Some(Abs())
      requires !st.Number?
      modifies `history
      ensures Valid()
    {
      Reach(history, Abs().(drainer := d), st, Abs());
      history := history + [st];
    }

    method DeliverAndMark(batch: seq<Row>, o: Outcome) returns (ok: bool)
      requires Reached(history, Abs().(drainer := Sending(batch, 0)))
      modifies `outbox, `log, `history
      ensures Valid() && (ok <==> !o.sinkFails && !o.markFails)
      ensures log == old(log) + batch[..Sent(o, |batch|)]
      ensures outbox == MarkedAll(old(outbox), batch[..Ticked(o, |batch|)])
    {
      Deliver(batch, Sent(o, |batch|));
      if o.sinkFails {
        EndDrain(SinkFails, Sending(batch, Sent(o, |batch|)));
      } else {
        MarkBatch(batch, o);
      }
      return !o.sinkFails && !o.markFails;
    }

    /**
     One drain, whatever the sink and the store do: the sink gets the batch up to its failure, the rows it
     got in full are marked up to a failure of the marking, and the object stays a reachable state, so its
     deliveries stay in order.
     */
    method Drain(o: Outcome) returns (ok: bool, ghost sorted: seq<Row>)
      requires Valid()
      modifies `outbox, `log, `history
      ensures Valid() && IsListing(old(outbox), sorted)
      ensures log == old(log) + Batch(sorted)[..Sent(o, |Batch(sorted)|)]
      ensures outbox == MarkedAll(old(outbox), Batch(sorted)[..Ticked(o, |Batch(sorted)|)])
      ensures ok <==> sorted == [] || (!o.sinkFails && !o.markFails)
      ensures forall w :: Firsts(log, w) <= Emitted(outbox, w)
    {
      RunInv(history);
      var batch;
      batch, sorted := ListUndelivered();
      if |batch| == 0 {
        return true, sorted;
      }
      Reach(history, Abs(), List(sorted), Abs().(drainer := Sending(batch, 0)));
      history := history + [List(sorted)];
      ok := DeliverAndMark(batch, o);
      RunInv(history);
    }
  }

  /** How much of a batch the sink takes. */
  function Sent(o: Outcome, size: nat): (n: nat)
    ensures n <= size
  {
    if o.sinkFails && o.accepted < size then o.accepted else size
  }

  /** How many rows of the batch are marked: none unless the sink took it all. */
  function Ticked(o: Outcome, size: nat): (n: nat)
    ensures n <= size
  {
    if o.sinkFails then 0 else if o.markFails && o.marked < size then o.marked else size
  }

  /** One step of the insertion sort of the undelivered rows. */
  method Insert(acc: seq<Row>, r: Row, ghost rows: seq<Row>) returns (out: seq<Row>)
    requires IsListing(rows, acc) && !r.delivered && r !in rows
    ensures IsListing(rows + [r], out)
  {
    var i := |acc|;
    while i > 0 && acc[i - 1].seqNo > r.seqNo
      invariant 0 <= i <= |acc| && forall j :: i <= j < |acc| ==> acc[j].seqNo > r.seqNo
    {
      i := i - 1;
    }
    out := Sequences.Inserted(acc, r, i);
    Sequences.InsertedInOrder(acc, r, i, (x: Row) => x.seqNo);
    Sequences.InsertedDistinct(acc, r, i);
    Sequences.InsertedMembers(acc, r, i);
    assert Sequences.Ascending(out, (x: Row) => x.seqNo);
  }
}
