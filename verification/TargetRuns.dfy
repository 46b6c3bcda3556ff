/** Any number of processes operate on one target. Each takes the kernel lock, makes its
    durable writes one by one and lets the lock go; it may die between any two writes,
    in which case the kernel frees the lock. The theorems hold in every reachable state
    of every such run. */
module TargetRuns {
  import opened Json
  import opened ReleaseTarget
  import opened TargetInvariant
  import opened TargetSoundness
  import opened TargetPlans

  type Process = nat

  /** `holder` owns the operation lock and has `pending` still to write. `born` records
      creation order and `moves` the pushes and pops so far; neither is on disk. */
  datatype System = System(
    store: Store, born: Births, holder: Option<Process>, pending: seq<Write>, moves: seq<StackStep>)

  datatype Event =
    | Begin(process: Process, operation: Operation, clock: Clock)
    | Commit(process: Process)
    | Finish(process: Process)
    | Crash(process: Process)

  ghost predicate Next(h: Host, a: System, e: Event, b: System) {
    match e
    case Begin(p, op, t) =>
      && a.holder.None?
      && b == a.(holder := Some(p), pending := PlanOf(h, a.store, op, t).writes)
    case Commit(p) =>
      && a.holder == Some(p) && a.pending != []
      && var w := a.pending[0];
      && b == System(Apply(a.store, w), NextBirths(a.store, a.born, w), a.holder, a.pending[1..],
                     a.moves + [Effect(a.store, w)])
    case Finish(p) =>
      && a.holder == Some(p) && a.pending == []
      && b == a.(holder := None)
    case Crash(p) =>
      && a.holder == Some(p)
      && b == a.(holder := None, pending := [])
  }

  /** A target no one has deployed to. */
  ghost predicate IsInitial(a: System) {
    && a.store.deployments == map[] && a.store.rollbacks == map[] && a.store.current.None?
    && a.born == map[] && a.holder.None? && a.pending == [] && a.moves == []
  }

  ghost predicate IsRun(h: Host, states: seq<System>, events: seq<Event>) {
    && |states| == |events| + 1
    && forall i :: 0 <= i < |events| ==> Next(h, states[i], events[i], states[i + 1])
  }

  /** Replays pushes and pops on an empty stack; nothing when a step is impossible. */
  ghost function Replay(moves: seq<StackStep>): Option<seq<Pointer>> {
    if moves == [] then Some([])
    else
      var before := Replay(moves[..|moves| - 1]);
      if before.Some? && CanStep(before.value, moves[|moves| - 1])
      then Some(StackAfter(before.value, moves[|moves| - 1]))
      else None
  }

  ghost predicate IsConsistent(h: Host, a: System) {
    && IsSound(h, a.store, a.born)
    && AreLawful(h, a.store, a.pending)
    && (a.holder.None? ==> a.pending == [])
    && Replay(a.moves) == Some(LiveChain(a.store, a.born))
  }

  lemma InitialConsistent(h: Host, a: System)
    requires IsInitial(a)
    ensures IsConsistent(h, a)
  {
  }

  lemma CommitConsistent(h: Host, a: System, p: Process, b: System)
    requires IsConsistent(h, a) && Next(h, a, Commit(p), b)
    ensures IsConsistent(h, b)
  {
    var w := a.pending[0];
    LawfulKeepsSound(h, a.store, a.born, w);
    ChainStep(a.store, a.born, w);
    assert b.moves[..|b.moves| - 1] == a.moves;
  }

  lemma NextConsistent(h: Host, a: System, e: Event, b: System)
    requires CollisionFree(h.digest) && IsConsistent(h, a) && Next(h, a, e, b)
    ensures IsConsistent(h, b)
  {
    match e
    case Begin(p, op, t) => PlanLawful(h, a.store, a.born, op, t);
    case Commit(p) => CommitConsistent(h, a, p, b);
    case Finish(p) =>
    case Crash(p) =>
  }

  /** Stack refinement and soundness over whole runs: in every state of every
      interleaved run, crashes included, the invariant holds and the live chain is
      exactly what the pushes and pops so far leave of an empty stack. */
  lemma {:induction false} RunConsistent(h: Host, states: seq<System>, events: seq<Event>)
    requires CollisionFree(h.digest) && IsRun(h, states, events) && IsInitial(states[0])
    ensures forall i :: 0 <= i < |states| ==> IsConsistent(h, states[i])
    decreases |events|
  {
    if events == [] {
      InitialConsistent(h, states[0]);
    } else {
      var n := |events| - 1;
      RunConsistent(h, states[..n + 1], events[..n]);
      assert states[..n + 1][n] == states[n];
      assert Next(h, states[n], events[n], states[n + 1]);
      NextConsistent(h, states[n], events[n], states[n + 1]);
      forall i | 0 <= i < |states|
        ensures IsConsistent(h, states[i])
      {
        if i <= n {
          assert states[..n + 1][i] == states[i];
        }
      }
    }
  }

  /** One event is one push, one pop, or leaves the chain alone; only a write of the
      current pointer moves it. */
  lemma EventMovesOnce(h: Host, a: System, e: Event, b: System)
    requires IsConsistent(h, a) && Next(h, a, e, b)
    ensures IsOrdered(b.store, b.born)
    ensures var step := if e.Commit? then Effect(a.store, a.pending[0]) else Stay;
      && CanStep(LiveChain(a.store, a.born), step)
      && LiveChain(b.store, b.born) == StackAfter(LiveChain(a.store, a.born), step)
      && (step != Stay <==> e.Commit? && a.pending[0].PutCurrent?)
  {
    if e.Commit? {
      ChainStep(a.store, a.born, a.pending[0]);
    }
  }

  /** In every sound state the pointer is absent, inactive, or serves an installed
      release that passes the check, with a record that agrees on all bound fields. */
  lemma PointerVerifiable(h: Host, s: Store, born: Births)
    requires IsSound(h, s, born)
    ensures IsLive(s.current) ==>
      var b := s.current.value.bound;
      && b.deploymentRef in s.deployments && s.deployments[b.deploymentRef].bound == b
      && IsServing(h, s, b)
  {
    if IsLive(s.current) {
      assert IsServing(h, s, s.deployments[s.current.value.bound.deploymentRef].bound);
    }
  }

  /** Every deployment met by following the links was created strictly before the one
      above it, so no deployment is met twice and the chain is no longer than the
      number of records. */
  lemma ChainHasNoCycle(h: Host, s: Store, born: Births)
    requires IsSound(h, s, born)
    ensures var chain := LiveChain(s, born);
      forall i, j :: 0 <= i < j < |chain| ==>
        chain[i].Live? && chain[j].Live? && chain[i].bound.deploymentRef != chain[j].bound.deploymentRef
  {
    OrderedIsLinked(s, born);
    ChainFalls(s.deployments, born, s.current);
  }
}
