/**
 The audit outbox over the in-memory store: every step of the emitters and of the drainer is at most one operation
 on the store's event list and counters, and after every run these hold the outbox.
 */
module StoredOutbox {
  import opened Prelude
  import opened AuditOutbox
  import StoreView

  // ---------------------------------------------------------------- what the stored rows say

  predicate SeesEvent(e: StoreView.EventView, r: Row) {
    && r.id == e.id && r.eventId == e.eventId && r.wallet == e.wallet && r.seqNo == e.seqNo
    && r.delivered == e.delivered && r.attempts == e.attempts
  }

  ghost predicate SeesOutbox(events: seq<StoreView.EventView>, outbox: seq<Row>) {
    |events| == |outbox| && forall i :: 0 <= i < |events| ==> SeesEvent(events[i], outbox[i])
  }

  ghost predicate Sees(v: StoreView.View, s: State) {
    SeesOutbox(v.events, s.outbox) && v.auditSeq == s.counters
  }

  // ---------------------------------------------------------------- what a step asks of the store

  /** Kind and payload of the events of a run. */
  datatype Content = Content(kind: Uuid -> string, payload: Uuid -> Option<seq<byte>>)

  function NewEvent(c: Content, id: Uuid, eventId: Uuid, wallet: Option<Uuid>, seqNo: int): StoreView.EventView {
    StoreView.Event(id, eventId, wallet, c.kind(eventId), c.payload(eventId), seqNo, false, 0, None)
  }

  /** The store's operation of a step, if it has one; `now` is the time of the call. */
  function WriteOf(c: Content, s: State, st: Step, now: int): Option<StoreView.AuditOp> {
    match st
    case Number(w) => Some(StoreView.NextSeq(w))
    case Append(i, id, eventId) =>
      if i >= |s.pending| then None
      else Some(StoreView.AppendEvent(NewEvent(c, id, eventId, Some(s.pending[i].0), s.pending[i].1)))
    case EmitGlobal(id, eventId, n) => Some(StoreView.AppendEvent(NewEvent(c, id, eventId, None, n)))
    case Mark =>
      if s.drainer.Marking? && s.drainer.n < |s.drainer.batch|
      then Some(StoreView.MarkDelivered(s.drainer.batch[s.drainer.n].id, now)) else None
    case _ => None
  }

  ghost function Written(c: Content, v: StoreView.View, s: State, st: Step, now: int): StoreView.View {
    match WriteOf(c, s, st, now)
    case None => v
    case Some(op) => StoreView.DoAudit(v, op).0
  }

  ghost function StoreAfter(c: Content, run: seq<Step>, clock: nat -> int): StoreView.View
    requires Exec(INITIAL, run).Some?
  {
    if run == [] then StoreView.EMPTY
    else
      var front := run[..|run| - 1];
      Written(c, StoreAfter(c, front, clock), Exec(INITIAL, front).value, run[|run| - 1], clock(|front|))
  }

  // ---------------------------------------------------------------- steps and runs

  lemma KnownEvent(events: seq<StoreView.EventView>, outbox: seq<Row>, eventId: Uuid)
    requires SeesOutbox(events, outbox)
    ensures StoreView.HasEvent(events, eventId) <==> HasEvent(outbox, eventId)
  {
    if i :| 0 <= i < |events| && events[i].eventId == eventId {
      assert SeesEvent(events[i], outbox[i]);
    }
    if i :| 0 <= i < |outbox| && outbox[i].eventId == eventId {
      assert SeesEvent(events[i], outbox[i]);
    }
  }

  /** An event whose id is stored is refused by both. */
  lemma AppendIsStored(v: StoreView.View, outbox: seq<Row>, e: StoreView.EventView, r: Row)
    requires SeesOutbox(v.events, outbox) && SeesEvent(e, r)
    ensures var (v', reply) := StoreView.DoAudit(v, StoreView.AppendEvent(e));
            && SeesOutbox(v'.events, Appended(outbox, r)) && v' == v.(events := v'.events)
            && (reply.Refused? <==> HasEvent(outbox, r.eventId))
  {
    KnownEvent(v.events, outbox, r.eventId);
  }

  lemma SameFirst(events: seq<StoreView.EventView>, outbox: seq<Row>, id: Uuid)
    requires SeesOutbox(events, outbox)
    ensures StoreView.FirstWith(events, id) == Find(outbox, id)
  {
    forall k | 0 <= k < |events|
      ensures events[k].id == outbox[k].id
    {
      assert SeesEvent(events[k], outbox[k]);
    }
  }

  /** Marking counts an attempt and is refused exactly when no row has the id. */
  lemma MarkIsStored(v: StoreView.View, outbox: seq<Row>, id: Uuid, now: int)
    requires SeesOutbox(v.events, outbox)
    ensures var (v', reply) := StoreView.DoAudit(v, StoreView.MarkDelivered(id, now));
            && SeesOutbox(v'.events, MarkDelivered(outbox, id)) && v' == v.(events := v'.events)
            && (reply.Refused? <==> !HasId(outbox, id))
  {
    SameFirst(v.events, outbox, id);
    var i := Find(outbox, id);
    if i < |outbox| {
      assert SeesEvent(v.events[i], outbox[i]);
      assert HasId(outbox, id);
    }
  }

  lemma StepStored(c: Content, v: StoreView.View, s: State, st: Step, s': State, now: int)
    requires Sees(v, s) && Apply(s, st) == Some(s')
    ensures Sees(Written(c, v, s, st, now), s')
  {
    match st
    case Append(i, id, eventId) =>
      var (w, n) := s.pending[i];
      AppendIsStored(v, s.outbox, NewEvent(c, id, eventId, Some(w), n), Row(id, eventId, Some(w), n, false, 0));
    case EmitGlobal(id, eventId, n) =>
      AppendIsStored(v, s.outbox, NewEvent(c, id, eventId, None, n), Row(id, eventId, None, n, false, 0));
    case Mark => MarkIsStored(v, s.outbox, s.drainer.batch[s.drainer.n].id, now);
    case _ =>
  }

  /** After every run the store, written by its own operations alone, holds the outbox and the counters. */
  lemma {:induction false} StoreIsOutbox(c: Content, run: seq<Step>, clock: nat -> int)
    requires Exec(INITIAL, run).Some?
    ensures Sees(StoreAfter(c, run, clock), Exec(INITIAL, run).value)
  {
    if run != [] {
      var front := run[..|run| - 1];
      StoreIsOutbox(c, front, clock);
      StepStored(c, StoreAfter(c, front, clock), Exec(INITIAL, front).value, run[|run| - 1],
                 Exec(INITIAL, run).value, clock(|front|));
    }
  }
}
