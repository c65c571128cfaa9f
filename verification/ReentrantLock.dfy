/**
 The store's reentrant lock: a mutex `mu` for the tables, a mutex `depthMu` for the per-goroutine depth
 counters, and the release closures that `lock` hands out. Any number of goroutines interleave at the
 granularity of single mutex operations.
 */
module ReentrantLock {
  import opened Prelude

  type Gid = int

  /** The two closures `lock` returns: one only lowers the depth, the other also unlocks `mu`. */
  datatype Release = Nested | Outermost

  datatype Pc =
    | Running                // in the caller's code
    | TxWant                 // InTx: waits for depthMu to read the depth
    | TxLook                 // InTx: holds depthMu
    | WantDepth              // lock: waits for depthMu
    | Look                   // lock: holds depthMu and is about to test the depth
    | WantMu                 // lock: waits for mu
    | WantWrite              // lock: holds mu, waits for depthMu
    | Write                  // lock: holds mu and depthMu
    | WantDrop(i: nat)       // release closure i: waits for depthMu
    | Drop(i: nat)           // release closure i: holds depthMu
    | WantUnlock             // outermost release closure: about to unlock mu

  /** Whom a closure belongs to: a plain store call, or an InTx call that does or does not take the snapshot. */
  datatype Section = Plain | Tx(snapshot: bool)

  /**
   A goroutine: its program point, the closures it still has to call (oldest first), the depth its InTx
   call read, and for every closure the section it guards.
   */
  datatype Goroutine = Goroutine(pc: Pc, held: seq<Release>, seen: Option<int>, sections: seq<Section>)

  datatype State = State(mu: Option<Gid>, depthMu: Option<Gid>, depths: map<Gid, int>, gs: map<Gid, Goroutine>)

  const INITIAL: State := State(None, None, map[], map[])

  datatype Step =
    | Spawn(g: Gid)
    | CallLock(g: Gid)
    | CallTx(g: Gid)
    | CallRelease(g: Gid, i: nat)
    | Advance(g: Gid)

  function Depth(s: State, g: Gid): int {
    if g in s.depths then s.depths[g] else 0
  }

  function Set(s: State, g: Gid, w: Goroutine): State {
    s.(gs := s.gs[g := w])
  }

  function Remove<T>(q: seq<T>, i: nat): seq<T>
    requires i < |q|
  {
    q[..i] + q[i + 1..]
  }

  /** The depth counter one lower; an entry that reaches zero is deleted. */
  function Lowered(depths: map<Gid, int>, g: Gid): map<Gid, int> {
    var d := (if g in depths then depths[g] else 0) - 1;
    if d == 0 then depths - {g} else depths[g := d]
  }

  /** Lock succeeded: the closure is handed out; an InTx that read a positive depth takes no snapshot. */
  function Entered(w: Goroutine, r: Release): Goroutine {
    Goroutine(Running, w.held + [r], None, w.sections + [if w.seen.None? then Plain else Tx(!(w.seen.value > 0))])
  }

  /** The next micro-step of a goroutine inside `lock`, `InTx` or a release closure. */
  function Micro(s: State, g: Gid, w: Goroutine): Option<State> {
    match w.pc
    case Running => None
    case TxWant => if s.depthMu.None? then Some(Set(s.(depthMu := Some(g)), g, w.(pc := TxLook))) else None
    case TxLook => Some(Set(s.(depthMu := None), g, w.(pc := WantDepth, seen := Some(Depth(s, g)))))
    case WantDepth => if s.depthMu.None? then Some(Set(s.(depthMu := Some(g)), g, w.(pc := Look))) else None
    case Look =>
      if Depth(s, g) > 0 then
        Some(Set(s.(depthMu := None, depths := s.depths[g := Depth(s, g) + 1]), g, Entered(w, Nested)))
      else Some(Set(s.(depthMu := None), g, w.(pc := WantMu)))
    case WantMu => if s.mu.None? then Some(Set(s.(mu := Some(g)), g, w.(pc := WantWrite))) else None
    case WantWrite => if s.depthMu.None? then Some(Set(s.(depthMu := Some(g)), g, w.(pc := Write))) else None
    case Write => Some(Set(s.(depthMu := None, depths := s.depths[g := 1]), g, Entered(w, Outermost)))
    case WantDrop(i) => if s.depthMu.None? then Some(Set(s.(depthMu := Some(g)), g, w.(pc := Drop(i)))) else None
    case Drop(i) =>
      if i >= |w.held| || i >= |w.sections| then None
      else Some(Set(s.(depthMu := None, depths := Lowered(s.depths, g)), g,
                    w.(pc := if w.held[i].Nested? then Running else WantUnlock,
                       held := Remove(w.held, i), sections := Remove(w.sections, i))))
    case WantUnlock => Some(Set(s.(mu := None), g, w.(pc := Running)))
  }

  function Apply(s: State, st: Step): Option<State> {
    if st.Spawn? then
      if st.g in s.gs then None else Some(Set(s, st.g, Goroutine(Running, [], None, [])))
    else if st.g !in s.gs then None
    else
      var w := s.gs[st.g];
      match st
      case CallLock(g) => if w.pc.Running? then Some(Set(s, g, w.(pc := WantDepth))) else None
      case CallTx(g) => if w.pc.Running? then Some(Set(s, g, w.(pc := TxWant))) else None
      case CallRelease(g, i) => if w.pc.Running? && i < |w.held| then Some(Set(s, g, w.(pc := WantDrop(i)))) else None
      case Advance(g) => Micro(s, g, w)
  }

  // ---------------------------------------------------------------- invariant

  predicate HoldsDepthMu(pc: Pc) {
    pc.TxLook? || pc.Look? || pc.Write? || pc.Drop?
  }

  predicate InsideMu(w: Goroutine) {
    w.held != [] || w.pc.WantWrite? || w.pc.Write? || w.pc.WantUnlock?
  }

  /** The oldest closure is the outermost one, all others are nested. */
  predicate Stacked(held: seq<Release>) {
    forall i :: 0 <= i < |held| ==> (held[i].Outermost? <==> i == 0)
  }

  /** Releasing closure `i` is in order: it is nested, or the last one left. */
  predicate ReleaseOk(held: seq<Release>, i: nat) {
    i < |held| && (held[i].Nested? || |held| == 1)
  }

  /** An InTx takes the snapshot exactly when it is the outermost section. */
  predicate Snapshots(sections: seq<Section>) {
    forall i :: 0 <= i < |sections| && sections[i].Tx? ==> (sections[i].snapshot <==> i == 0)
  }

  predicate Local(s: State, g: Gid, w: Goroutine) {
    && Stacked(w.held)
    && |w.sections| == |w.held| && Snapshots(w.sections)
    && (s.mu == Some(g) <==> InsideMu(w))
    && (s.depthMu == Some(g) <==> HoldsDepthMu(w.pc))
    && Depth(s, g) == |w.held| && (g in s.depths ==> s.depths[g] > 0)
    && (w.pc.WantMu? || w.pc.WantWrite? || w.pc.Write? || w.pc.WantUnlock? ==> w.held == [])
    && (w.pc.WantDrop? || w.pc.Drop? ==> ReleaseOk(w.held, w.pc.i))
    && (w.seen.Some? ==> w.seen.value == |w.held|)
    && (w.pc.Running? || w.pc.TxWant? || w.pc.TxLook? || w.pc.WantDrop? || w.pc.Drop? || w.pc.WantUnlock? ==>
        w.seen.None?)
  }

  ghost predicate Inv(s: State) {
    && (forall g :: g in s.gs ==> Local(s, g, s.gs[g]))
    && (forall g :: g in s.depths ==> g in s.gs)
    && (s.mu.Some? ==> s.mu.value in s.gs)
    && (s.depthMu.Some? ==> s.depthMu.value in s.gs)
  }

  /** Closures are released in an order that keeps the outermost for last; LIFO release is a special case. */
  predicate Ordered(s: State, st: Step) {
    st.CallRelease? && st.g in s.gs ==> ReleaseOk(s.gs[st.g].held, st.i)
  }

  lemma RemoveStacked(held: seq<Release>, i: nat)
    requires Stacked(held) && i < |held|
    ensures Stacked(Remove(held, i)) <==> ReleaseOk(held, i)
  {
    var r := Remove(held, i);
    if held[i].Outermost? && |held| > 1 {
      assert r[0] == held[1];
    }
  }

  /** What a micro-step of `g` leaves alone. */
  lemma MicroFrame(s: State, g: Gid, s': State)
    requires Inv(s) && g in s.gs && Micro(s, g, s.gs[g]) == Some(s')
    ensures forall h :: h != g ==> Depth(s', h) == Depth(s, h) && (h in s'.depths <==> h in s.depths)
    ensures forall h :: h != g ==>
              (s'.mu == Some(h) <==> s.mu == Some(h)) && (s'.depthMu == Some(h) <==> s.depthMu == Some(h))
    ensures g in s'.gs && s'.gs == s.gs[g := s'.gs[g]]
    ensures s'.mu == s.mu || s'.mu.None? || s'.mu == Some(g)
    ensures s'.depthMu == s.depthMu || s'.depthMu.None? || s'.depthMu == Some(g)
  {
    assert Local(s, g, s.gs[g]);
  }

  /** Taking or giving back a mutex, with the closures and depths as they were. */
  lemma WaitLocal(s: State, g: Gid, s': State)
    requires Inv(s) && g in s.gs && Micro(s, g, s.gs[g]) == Some(s')
    requires !s.gs[g].pc.Look? && !s.gs[g].pc.Write? && !s.gs[g].pc.Drop?
    ensures Local(s', g, s'.gs[g])
  {
    assert Local(s, g, s.gs[g]);
    assert s'.gs[g].held == s.gs[g].held && s'.gs[g].sections == s.gs[g].sections && s'.depths == s.depths;
  }

  lemma EnterLocal(s: State, g: Gid, s': State)
    requires Inv(s) && g in s.gs && Micro(s, g, s.gs[g]) == Some(s')
    requires s.gs[g].pc.Look? || s.gs[g].pc.Write?
    ensures Local(s', g, s'.gs[g])
  {
    assert Local(s, g, s.gs[g]);
  }

  lemma DropLocal(s: State, g: Gid, s': State)
    requires Inv(s) && g in s.gs && s.gs[g].pc.Drop? && Micro(s, g, s.gs[g]) == Some(s')
    ensures Local(s', g, s'.gs[g])
  {
    var w := s.gs[g];
    assert Local(s, g, w);
    RemoveStacked(w.held, w.pc.i);
    assert w.held[w.pc.i].Nested? <==> w.pc.i > 0;
  }

  lemma MicroInv(s: State, g: Gid, s': State)
    requires Inv(s) && g in s.gs && Micro(s, g, s.gs[g]) == Some(s')
    ensures Inv(s')
  {
    MicroFrame(s, g, s');
    if s.gs[g].pc.Drop? {
      DropLocal(s, g, s');
    } else if s.gs[g].pc.Look? || s.gs[g].pc.Write? {
      EnterLocal(s, g, s');
    } else {
      WaitLocal(s, g, s');
    }
    forall h | h in s'.gs
      ensures Local(s', h, s'.gs[h])
    {
      if h != g {
        assert Local(s, h, s.gs[h]);
      }
    }
  }

  lemma StepInv(s: State, st: Step, s': State)
    requires Inv(s) && Ordered(s, st) && Apply(s, st) == Some(s')
    ensures Inv(s')
  {
    if st.Advance? {
      MicroInv(s, st.g, s');
    } else if st.Spawn? {
      CallKeeps(s, st.g, Goroutine(Running, [], None, []));
    } else {
      assert Local(s, st.g, s.gs[st.g]);
      CallKeeps(s, st.g, s'.gs[st.g]);
    }
  }

  /** A goroutine that starts, or starts a call, without touching a mutex or a depth. */
  lemma CallKeeps(s: State, g: Gid, w: Goroutine)
    requires Inv(s) && Local(s, g, w)
    ensures Inv(Set(s, g, w))
  {
    var s' := Set(s, g, w);
    forall h | h in s'.gs
      ensures Local(s', h, s'.gs[h])
    {
      assert Local(s, h, s'.gs[h]);
    }
  }

  // ---------------------------------------------------------------- runs

  function Exec(run: seq<Step>): Option<State> {
    if run == [] then Some(INITIAL)
    else
      match Exec(run[..|run| - 1])
      case None => None
      case Some(s) => Apply(s, run[|run| - 1])
  }

  ghost predicate OrderedRun(run: seq<Step>) {
    run == [] ||
    (&& OrderedRun(run[..|run| - 1]) && Exec(run[..|run| - 1]).Some?
     && Ordered(Exec(run[..|run| - 1]).value, run[|run| - 1]))
  }

  lemma {:induction false} RunInv(run: seq<Step>)
    requires Exec(run).Some? && OrderedRun(run)
    ensures Inv(Exec(run).value)
  {
    if run != [] {
      RunInv(run[..|run| - 1]);
      StepInv(Exec(run[..|run| - 1]).value, run[|run| - 1], Exec(run).value);
    }
  }

  /** Deferred releases come last-in first-out, which keeps the outermost closure for last. */
  lemma LifoIsOrdered(s: State, g: Gid)
    requires Inv(s) && g in s.gs && s.gs[g].held != []
    ensures Ordered(s, CallRelease(g, |s.gs[g].held| - 1))
  {
    assert Local(s, g, s.gs[g]);
  }

  // ---------------------------------------------------------------- what the lock promises

  /** At most one goroutine is inside a critical section, and it is the one that holds `mu`. */
  lemma {:induction false} MutualExclusion(run: seq<Step>, g: Gid, h: Gid)
    requires Exec(run).Some? && OrderedRun(run)
    requires var s := Exec(run).value;
             g in s.gs && h in s.gs && s.gs[g].held != [] && s.gs[h].held != []
    ensures g == h && Exec(run).value.mu == Some(g)
  {
    RunInv(run);
    var s := Exec(run).value;
    assert Local(s, g, s.gs[g]) && Local(s, h, s.gs[h]);
  }

  /** A goroutine on the nested path already holds `mu`, and a goroutine that waits for `mu` does not. */
  lemma {:induction false} NestedPathHoldsMu(run: seq<Step>, g: Gid)
    requires Exec(run).Some? && OrderedRun(run) && g in Exec(run).value.gs
    ensures var s := Exec(run).value;
            && (s.gs[g].pc.Look? ==> (Depth(s, g) > 0 <==> s.mu == Some(g)))
            && (s.gs[g].pc.WantMu? ==> s.mu != Some(g))
  {
    RunInv(run);
    assert Local(Exec(run).value, g, Exec(run).value.gs[g]);
  }

  /** `mu` is unlocked only by its holder, at depth zero, with no closure left to call. */
  lemma {:induction false} UnlockedByHolderAtDepthZero(run: seq<Step>, g: Gid)
    requires Exec(run).Some? && OrderedRun(run) && g in Exec(run).value.gs && Exec(run).value.gs[g].pc.WantUnlock?
    ensures var s := Exec(run).value;
            s.mu == Some(g) && g !in s.depths && s.gs[g].held == []
  {
    RunInv(run);
    assert Local(Exec(run).value, g, Exec(run).value.gs[g]);
  }

  /** Balanced release leaves nothing behind: no closures, no depth entry, no hold on either mutex. */
  lemma {:induction false} BalancedLeavesNothing(run: seq<Step>, g: Gid)
    requires Exec(run).Some? && OrderedRun(run) && g in Exec(run).value.gs
    ensures var s := Exec(run).value;
            s.gs[g].pc.Running? && s.gs[g].held == [] ==> g !in s.depths && s.mu != Some(g) && s.depthMu != Some(g)
  {
    RunInv(run);
    assert Local(Exec(run).value, g, Exec(run).value.gs[g]);
  }

  /** An InTx call takes the snapshot if and only if it entered by the outermost path, with `mu` held. */
  lemma {:induction false} SnapshotIffOutermost(run: seq<Step>, g: Gid, i: nat)
    requires Exec(run).Some? && OrderedRun(run)
    requires g in Exec(run).value.gs && i < |Exec(run).value.gs[g].sections| && Exec(run).value.gs[g].sections[i].Tx?
    ensures var s := Exec(run).value;
            && s.mu == Some(g) && i < |s.gs[g].held|
            && (s.gs[g].sections[i].snapshot <==> s.gs[g].held[i].Outermost?)
  {
    RunInv(run);
    assert Local(Exec(run).value, g, Exec(run).value.gs[g]);
  }

  /** At most one snapshot is open in the whole store. */
  lemma {:induction false} OneSnapshot(run: seq<Step>, g: Gid, i: nat, h: Gid, j: nat)
    requires Exec(run).Some? && OrderedRun(run)
    requires var s := Exec(run).value;
             && g in s.gs && h in s.gs && i < |s.gs[g].sections| && j < |s.gs[h].sections|
             && s.gs[g].sections[i] == Tx(true) && s.gs[h].sections[j] == Tx(true)
    ensures g == h && i == j
  {
    RunInv(run);
    var s := Exec(run).value;
    assert Local(s, g, s.gs[g]) && Local(s, h, s.gs[h]);
  }

  /**
   The order matters: when a closure has been dropped, the state is in order exactly if the closure was
   nested or the last one left.
   */
  lemma DropInOrderIff(s: State, g: Gid, i: nat, s': State)
    requires Inv(s) && g in s.gs && s.gs[g].pc.Running? && i < |s.gs[g].held| && s.depthMu.None?
    requires var s1 := Set(s.(depthMu := Some(g)), g, s.gs[g].(pc := Drop(i))); Micro(s1, g, s1.gs[g]) == Some(s')
    ensures Stacked(s'.gs[g].held) <==> ReleaseOk(s.gs[g].held, i)
    ensures !ReleaseOk(s.gs[g].held, i) ==> s'.gs[g].pc.WantUnlock? && Depth(s', g) > 0
  {
    assert Local(s, g, s.gs[g]);
    RemoveStacked(s.gs[g].held, i);
  }

  /** A goroutine that is between steps of the lock code and whose next micro-step is enabled. */
  predicate CanAdvance(s: State, g: Gid) {
    g in s.gs && Micro(s, g, s.gs[g]).Some?
  }

  /**
   No deadlock: while any goroutine is inside the lock code, some goroutine can take its next micro-step,
   or the holder of `mu` is running its own critical section.
   */
  lemma {:induction false} NoDeadlock(run: seq<Step>, g: Gid)
    requires Exec(run).Some? && OrderedRun(run)
    requires g in Exec(run).value.gs && !Exec(run).value.gs[g].pc.Running?
    ensures var s := Exec(run).value;
            || (exists h :: CanAdvance(s, h))
            || (s.mu.Some? && s.mu.value in s.gs && s.gs[s.mu.value].pc.Running? && s.gs[s.mu.value].held != [])
  {
    RunInv(run);
    var s := Exec(run).value;
    assert Local(s, g, s.gs[g]);
    if s.depthMu.Some? {
      var h := s.depthMu.value;
      assert Local(s, h, s.gs[h]);
      assert CanAdvance(s, h);
    } else if !s.gs[g].pc.WantMu? || s.mu.None? {
      assert CanAdvance(s, g);
    } else {
      var h := s.mu.value;
      assert Local(s, h, s.gs[h]);
      assert s.gs[h].pc.Running? || CanAdvance(s, h);
    }
  }
}
