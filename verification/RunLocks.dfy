/** The two run locks: an operating-system lock on one file, and in every process a registry
    of the paths its own lock objects hold. They differ in which is taken first. Any number of
    lock objects in any number of processes take single steps in any order, and each operating
    system call, closing included, may raise. An agent is one lock object with the thread that
    uses it: what two threads get from one shared object is not stated here. */
module RunLocks {
  import opened Json

  /** `RunOnce` locks the file and then registers; `KernelRun` registers first. */
  datatype Design = RunOnce | KernelRun

  type Agent = int
  type Pid = int

  /** Where one lock object is. */
  datatype Pc =
    | Out             // no call in progress, nothing held
    | Opened          // RunOnce: the file is open
    | Claimed         // KernelRun: registered, the file is not open
    | ClaimedOpen     // KernelRun: registered, the file is open
    | Locked          // RunOnce: file locked and registered, metadata not read
    | Installed       // the handle is in its field, owner metadata not written
    | Inside          // acquired
    | Leaving         // about to unlock
    | Failing         // KernelRun: unwinding a failed acquire, about to unlock
    | FailingClose    // KernelRun: unlocking raised while unwinding, about to close
    | Closing         // about to close the file
    | Unregistering   // about to leave the registry
    | Stale           // KernelRun: closing raised, the field still holds the closed file

  /** `abandoned` records the registrations that a raising call left behind; no code reads it. */
  datatype Locks = Locks(pc: map<Agent, Pc>, registry: set<Pid>, kernel: Option<Agent>, abandoned: set<Pid>)
  {
    function At(a: Agent): Pc {
      if a in pc then pc[a] else Out
    }

    function Go(a: Agent, to: Pc): Locks {
      this.(pc := pc[a := to])
    }
  }

  /** One step of one lock object; `ok` is whether its next operating-system call succeeds. A
      file whose closing raises is closed all the same, so the kernel takes its lock back. */
  function Step(d: Design, proc: Agent -> Pid, s: Locks, a: Agent, ok: bool): Locks {
    match s.At(a)
    case Out =>
      if d.RunOnce? then (if ok then s.Go(a, Opened) else s)
      else if proc(a) in s.registry then s
      else s.(registry := s.registry + {proc(a)}).Go(a, Claimed)
    case Opened =>
      if proc(a) in s.registry || s.kernel.Some? || !ok then s.Go(a, Out)
      else s.(registry := s.registry + {proc(a)}, kernel := Some(a)).Go(a, Locked)
    case Claimed => s.Go(a, if ok then ClaimedOpen else Unregistering)
    case ClaimedOpen =>
      if s.kernel.None? && ok then s.(kernel := Some(a)).Go(a, Installed) else s.Go(a, Unregistering)
    case Locked =>
      if ok then s.Go(a, Installed)
      else s.(kernel := None, abandoned := s.abandoned + {proc(a)}).Go(a, Out)
    case Installed => s.Go(a, if ok then Inside else if d.RunOnce? then Leaving else Failing)
    case Inside => s.Go(a, Leaving)
    case Leaving => (if ok then s.(kernel := None) else s).Go(a, Closing)
    case Failing => if ok then s.(kernel := None).Go(a, Closing) else s.Go(a, FailingClose)
    case FailingClose =>
      s.(kernel := None, abandoned := s.abandoned + {proc(a)}).Go(a, if ok then Out else Stale)
    case Closing =>
      var t := if s.kernel == Some(a) then s.(kernel := None) else s;
      if ok then t.Go(a, Unregistering)
      else t.(abandoned := t.abandoned + {proc(a)}).Go(a, if d.RunOnce? then Out else Stale)
    case Unregistering => s.(registry := s.registry - {proc(a)}).Go(a, Out)
    case Stale =>
      // a `release` takes the closed file for a held one; an `acquire` finds the key and is refused
      if ok then s.(registry := s.registry - {proc(a)}, abandoned := s.abandoned - {proc(a)}).Go(a, Out) else s
  }

  datatype Move = Move(agent: Agent, ok: bool)

  function Run(d: Design, proc: Agent -> Pid, s: Locks, moves: seq<Move>): Locks
    decreases |moves|
  {
    if moves == [] then s
    else
      var m := moves[|moves| - 1];
      Step(d, proc, Run(d, proc, s, moves[..|moves| - 1]), m.agent, m.ok)
  }

  function Start(): Locks {
    Locks(map[], {}, None, {})
  }

  // ---------------------------------------------------------------- the invariant

  predicate HoldsKernel(pc: Pc) {
    pc in {Locked, Installed, Inside, Leaving, Failing, FailingClose}
  }

  predicate HoldsKey(pc: Pc) {
    HoldsKernel(pc) || pc in {Claimed, ClaimedOpen, Closing, Unregistering}
  }

  predicate HoldsKeyOf(proc: Agent -> Pid, s: Locks, a: Agent, pid: Pid) {
    a in s.pc && HoldsKey(s.pc[a]) && proc(a) == pid
  }

  /** The object is done with its file but has it in its field, and the key is still listed. */
  predicate IsStaleOf(proc: Agent -> Pid, s: Locks, a: Agent, pid: Pid) {
    a in s.pc && s.pc[a] == Stale && proc(a) == pid
  }

  predicate OwnsKeyOf(proc: Agent -> Pid, s: Locks, a: Agent, pid: Pid) {
    HoldsKeyOf(proc, s, a, pid) || IsStaleOf(proc, s, a, pid)
  }

  ghost predicate KernelHolds(s: Locks) {
    && (s.kernel.Some? ==> HoldsKernel(s.At(s.kernel.value)) || s.At(s.kernel.value) == Closing)
    && (forall a {:trigger s.At(a)} :: HoldsKernel(s.At(a)) ==> s.kernel == Some(a))
  }

  /** Keys are owned by one object of a process, held keys are registered, and a stale object's
      key is an abandoned one. */
  ghost predicate KeysHold(proc: Agent -> Pid, s: Locks) {
    && (forall a, pid :: HoldsKeyOf(proc, s, a, pid) ==> pid in s.registry && pid !in s.abandoned)
    && (forall a, pid :: IsStaleOf(proc, s, a, pid) ==> pid in s.abandoned)
    && (forall a, b, pid :: OwnsKeyOf(proc, s, a, pid) && OwnsKeyOf(proc, s, b, pid) ==> a == b)
    && s.abandoned <= s.registry
  }

  ghost predicate RegistryHolds(proc: Agent -> Pid, s: Locks) {
    && KeysHold(proc, s)
    && (forall pid :: pid in s.registry ==> pid in s.abandoned || exists a :: HoldsKeyOf(proc, s, a, pid))
  }

  /** Each design keeps to its own steps. */
  ghost predicate DesignHolds(d: Design, s: Locks) {
    forall a {:trigger s.At(a)} ::
      if d.RunOnce? then s.At(a) !in {Claimed, ClaimedOpen, Failing, FailingClose, Stale}
      else s.At(a) !in {Opened, Locked}
  }

  lemma OthersStay(d: Design, proc: Agent -> Pid, s: Locks, a: Agent, ok: bool, b: Agent)
    requires b != a
    ensures Step(d, proc, s, a, ok).At(b) == s.At(b)
  {
  }

  /** Only an object that has or takes the file lock moves it, and then nobody else had it. */
  lemma OwnKernel(d: Design, proc: Agent -> Pid, s: Locks, a: Agent, ok: bool)
    requires KernelHolds(s)
    ensures var t := Step(d, proc, s, a, ok);
      && (HoldsKernel(t.At(a)) ==> t.kernel == Some(a))
      && (t.kernel == Some(a) ==> HoldsKernel(t.At(a)) || t.At(a) == Closing)
      && (s.kernel.Some? && s.kernel != Some(a) ==> t.kernel == s.kernel)
      && (s.kernel.None? ==> t.kernel in {None, Some(a)})
      && (s.kernel == Some(a) ==> t.kernel in {None, Some(a)})
  {
    assert HoldsKernel(s.At(a)) ==> s.kernel == Some(a);
  }

  lemma StepKeepsKernel(d: Design, proc: Agent -> Pid, s: Locks, a: Agent, ok: bool)
    requires KernelHolds(s)
    ensures KernelHolds(Step(d, proc, s, a, ok))
  {
    var t := Step(d, proc, s, a, ok);
    OwnKernel(d, proc, s, a, ok);
    hide Step;
    forall b | HoldsKernel(t.At(b))
      ensures t.kernel == Some(b)
    {
      if b != a {
        OthersStay(d, proc, s, a, ok, b);
      }
    }
    if t.kernel.Some? && t.kernel.value != a {
      OthersStay(d, proc, s, a, ok, t.kernel.value);
    }
  }

  lemma StepKeepsDesign(d: Design, proc: Agent -> Pid, s: Locks, a: Agent, ok: bool)
    requires DesignHolds(d, s)
    ensures DesignHolds(d, Step(d, proc, s, a, ok))
  {
    var t := Step(d, proc, s, a, ok);
    assert forall b :: b != a ==> t.At(b) == s.At(b);
  }

  lemma OthersKeepKeys(d: Design, proc: Agent -> Pid, s: Locks, a: Agent, ok: bool)
    ensures var t := Step(d, proc, s, a, ok);
      forall b, pid :: b != a ==>
        && (HoldsKeyOf(proc, t, b, pid) <==> HoldsKeyOf(proc, s, b, pid))
        && (IsStaleOf(proc, t, b, pid) <==> IsStaleOf(proc, s, b, pid))
  {
  }

  lemma OneOwner(proc: Agent -> Pid, s: Locks, a: Agent, b: Agent)
    requires KeysHold(proc, s) && proc(a) == proc(b)
    ensures OwnsKeyOf(proc, s, a, proc(a)) && OwnsKeyOf(proc, s, b, proc(a)) ==> a == b
  {
  }

  lemma StepKeepsKeys(d: Design, proc: Agent -> Pid, s: Locks, a: Agent, ok: bool)
    requires KeysHold(proc, s) && DesignHolds(d, s)
    ensures KeysHold(proc, Step(d, proc, s, a, ok))
  {
    var t := Step(d, proc, s, a, ok);
    OthersKeepKeys(d, proc, s, a, ok);
    assert HoldsKey(s.At(a)) <==> HoldsKeyOf(proc, s, a, proc(a));
    assert s.At(a) == Stale <==> IsStaleOf(proc, s, a, proc(a));
    forall b, pid | OwnsKeyOf(proc, t, b, pid)
      ensures HoldsKeyOf(proc, t, b, pid) ==> pid in t.registry && pid !in t.abandoned
      ensures IsStaleOf(proc, t, b, pid) ==> pid in t.abandoned
      ensures OwnsKeyOf(proc, t, a, pid) ==> a == b
    {
      if proc(b) == proc(a) {
        OneOwner(proc, s, a, b);
      }
    }
    forall b, c, pid | OwnsKeyOf(proc, t, b, pid) && OwnsKeyOf(proc, t, c, pid)
      ensures b == c
    {
      OneOwner(proc, s, b, c);
    }
  }

  lemma StepKeepsRegistry(d: Design, proc: Agent -> Pid, s: Locks, a: Agent, ok: bool)
    requires RegistryHolds(proc, s) && DesignHolds(d, s)
    ensures RegistryHolds(proc, Step(d, proc, s, a, ok))
  {
    var t := Step(d, proc, s, a, ok);
    StepKeepsKeys(d, proc, s, a, ok);
    OthersKeepKeys(d, proc, s, a, ok);
    forall pid | pid in t.registry && pid !in t.abandoned
      ensures exists b :: HoldsKeyOf(proc, t, b, pid)
    {
      if pid in s.registry {
        var b :| HoldsKeyOf(proc, s, b, pid);
        assert HoldsKeyOf(proc, t, b, pid);
      } else {
        assert HoldsKeyOf(proc, t, a, pid);
      }
    }
  }

  /** Over every interleaving of both designs, with any failures. */
  lemma {:induction false} RunKeeps(d: Design, proc: Agent -> Pid, moves: seq<Move>)
    ensures var s := Run(d, proc, Start(), moves); KernelHolds(s) && RegistryHolds(proc, s) && DesignHolds(d, s)
    decreases |moves|
  {
    if moves != [] {
      var n := |moves| - 1;
      RunKeeps(d, proc, moves[..n]);
      var s, m := Run(d, proc, Start(), moves[..n]), moves[n];
      StepKeepsKernel(d, proc, s, m.agent, m.ok);
      StepKeepsRegistry(d, proc, s, m.agent, m.ok);
      StepKeepsDesign(d, proc, s, m.agent, m.ok);
    }
  }

  // ---------------------------------------------------------------- what it means

  /** Mutual exclusion between distinct lock objects: at most one of any process is inside, and
      whoever is inside is the only registered one of its process. */
  lemma MutualExclusion(d: Design, proc: Agent -> Pid, moves: seq<Move>, a: Agent, b: Agent)
    requires Run(d, proc, Start(), moves).At(a) == Inside
    ensures var s := Run(d, proc, Start(), moves);
      && (s.At(b) == Inside ==> a == b)
      && proc(a) in s.registry
      && (HoldsKey(s.At(b)) && proc(a) == proc(b) ==> a == b)
  {
    RunKeeps(d, proc, moves);
    var s := Run(d, proc, Start(), moves);
    assert HoldsKernel(s.At(a)) && HoldsKeyOf(proc, s, a, proc(a));
    if HoldsKey(s.At(b)) && proc(a) == proc(b) {
      assert HoldsKeyOf(proc, s, b, proc(b));
      OneOwner(proc, s, a, b);
    }
  }

  /** An object whose call returned or raised has nothing in the registry: a key there
      belongs to another object, or was abandoned. So a failed acquire leaves the
      registry as the others made it. */
  lemma NoKeyWhenOut(d: Design, proc: Agent -> Pid, moves: seq<Move>, a: Agent)
    requires Run(d, proc, Start(), moves).At(a) == Out
    ensures var s := Run(d, proc, Start(), moves);
      proc(a) in s.registry <==> proc(a) in s.abandoned || exists b :: b != a && HoldsKeyOf(proc, s, b, proc(a))
  {
    RunKeeps(d, proc, moves);
    var s := Run(d, proc, Start(), moves);
    if proc(a) in s.registry && proc(a) !in s.abandoned {
      var b :| HoldsKeyOf(proc, s, b, proc(a));
      assert b != a;
    }
  }

  /** The steps that leave a key behind. `RunOnce`: reading the old owner metadata raises, or
      closing does. `KernelRun`: unlocking raised while a failed acquire unwinds, or closing raises. */
  predicate IsAbandoning(d: Design, s: Locks, m: Move) {
    if d.RunOnce? then !m.ok && s.At(m.agent) in {Locked, Closing}
    else s.At(m.agent) == FailingClose || (!m.ok && s.At(m.agent) == Closing)
  }

  /** The one step that gives such a key back: a `release` of the object that holds the closed file. */
  predicate IsRedeeming(s: Locks, m: Move) {
    m.ok && s.At(m.agent) == Stale
  }

  lemma AbandonsExactly(d: Design, proc: Agent -> Pid, s: Locks, m: Move)
    requires DesignHolds(d, s) && RegistryHolds(proc, s)
    ensures Step(d, proc, s, m.agent, m.ok).abandoned
         == s.abandoned + (if IsAbandoning(d, s, m) then {proc(m.agent)} else {})
                        - if IsRedeeming(s, m) then {proc(m.agent)} else {}
    ensures IsAbandoning(d, s, m) ==> proc(m.agent) !in s.abandoned
    ensures IsRedeeming(s, m) ==> d.KernelRun? && proc(m.agent) in s.abandoned
  {
    assert HoldsKey(s.At(m.agent)) <==> HoldsKeyOf(proc, s, m.agent, proc(m.agent));
    assert s.At(m.agent) == Stale <==> IsStaleOf(proc, s, m.agent, proc(m.agent));
  }

  /** The processes whose key a run left behind and did not give back, read off its steps. */
  function LeftBehind(d: Design, proc: Agent -> Pid, moves: seq<Move>): set<Pid>
    decreases |moves|
  {
    if moves == [] then {}
    else
      var before, last := moves[..|moves| - 1], moves[|moves| - 1];
      var s, left := Run(d, proc, Start(), before), LeftBehind(d, proc, before);
      if IsAbandoning(d, s, last) then left + {proc(last.agent)}
      else if IsRedeeming(s, last) then left - {proc(last.agent)}
      else left
  }

  lemma {:induction false} AbandonedAreLeft(d: Design, proc: Agent -> Pid, moves: seq<Move>)
    ensures Run(d, proc, Start(), moves).abandoned == LeftBehind(d, proc, moves)
    decreases |moves|
  {
    if moves != [] {
      var n := |moves| - 1;
      AbandonedAreLeft(d, proc, moves[..n]);
      RunKeeps(d, proc, moves[..n]);
      AbandonsExactly(d, proc, Run(d, proc, Start(), moves[..n]), moves[n]);
    }
  }

  /** A key in the registry at the end of a run has no holder exactly when an abandoning step
      of the run left it behind and no later step gave it back. */
  lemma KeysHaveHolders(d: Design, proc: Agent -> Pid, moves: seq<Move>, pid: Pid)
    requires pid in Run(d, proc, Start(), moves).registry
    ensures (exists a :: HoldsKeyOf(proc, Run(d, proc, Start(), moves), a, pid))
            <==> pid !in LeftBehind(d, proc, moves)
  {
    RunKeeps(d, proc, moves);
    AbandonedAreLeft(d, proc, moves);
  }

  /** Does a step of `rest` give the key of `pid` back? */
  predicate Redeems(d: Design, proc: Agent -> Pid, s: Locks, rest: seq<Move>, pid: Pid)
    decreases |rest|
  {
    rest != [] &&
      var before, last := rest[..|rest| - 1], rest[|rest| - 1];
      Redeems(d, proc, s, before, pid)
      || (IsRedeeming(Run(d, proc, s, before), last) && proc(last.agent) == pid)
  }

  lemma {:induction false} RunOnward(d: Design, proc: Agent -> Pid, s: Locks, first: seq<Move>, rest: seq<Move>)
    ensures Run(d, proc, s, first + rest) == Run(d, proc, Run(d, proc, s, first), rest)
    decreases |rest|
  {
    if rest == [] {
      assert first + rest == first;
    } else {
      var n := |rest| - 1;
      assert (first + rest)[..|first + rest| - 1] == first + rest[..n];
      RunOnward(d, proc, s, first, rest[..n]);
    }
  }

  /** What abandoning costs: until a stale object of the process is released, none of its
      objects gets the lock, whatever else happens. */
  lemma {:induction false} BarredUntilRedeemed(
      d: Design, proc: Agent -> Pid, first: seq<Move>, rest: seq<Move>, pid: Pid, a: Agent)
    requires pid in Run(d, proc, Start(), first).abandoned && proc(a) == pid
    requires !Redeems(d, proc, Run(d, proc, Start(), first), rest, pid)
    ensures var s := Run(d, proc, Start(), first + rest); pid in s.abandoned && s.At(a) != Inside
    decreases |rest|
  {
    RunKeeps(d, proc, first + rest);
    RunOnward(d, proc, Start(), first, rest);
    if rest != [] {
      var n := |rest| - 1;
      BarredUntilRedeemed(d, proc, first, rest[..n], pid, a);
      RunKeeps(d, proc, first + rest[..n]);
      RunOnward(d, proc, Start(), first, rest[..n]);
      AbandonsExactly(d, proc, Run(d, proc, Start(), first + rest[..n]), rest[n]);
    }
    InsideHoldsKey(proc, Run(d, proc, Start(), first + rest), a);
  }

  /** No object becomes stale while the key is abandoned. */
  lemma {:induction false} NoneRedeems(
      d: Design, proc: Agent -> Pid, first: seq<Move>, rest: seq<Move>, pid: Pid)
    requires pid in Run(d, proc, Start(), first).abandoned
    requires !exists b :: IsStaleOf(proc, Run(d, proc, Start(), first), b, pid)
    ensures !Redeems(d, proc, Run(d, proc, Start(), first), rest, pid)
    ensures !exists b :: IsStaleOf(proc, Run(d, proc, Start(), first + rest), b, pid)
    decreases |rest|
  {
    RunOnward(d, proc, Start(), first, rest);
    if rest != [] {
      var n := |rest| - 1;
      var m := rest[n];
      NoneRedeems(d, proc, first, rest[..n], pid);
      RunKeeps(d, proc, first + rest[..n]);
      RunOnward(d, proc, Start(), first, rest[..n]);
      var s := Run(d, proc, Start(), first + rest[..n]);
      if proc(m.agent) == pid {
        BarredUntilRedeemed(d, proc, first, rest[..n], pid, m.agent);
        assert HoldsKey(s.At(m.agent)) ==> HoldsKeyOf(proc, s, m.agent, pid);
        assert s.At(m.agent) == Stale ==> IsStaleOf(proc, s, m.agent, pid);
      }
      OthersKeepKeys(d, proc, s, m.agent, m.ok);
    }
  }

  /** With no stale object in the process the key is lost for good: none of its objects is ever
      inside again. `RunOnce` has no stale objects. */
  lemma AbandonedForever(d: Design, proc: Agent -> Pid, first: seq<Move>, rest: seq<Move>, pid: Pid, a: Agent)
    requires pid in Run(d, proc, Start(), first).abandoned && proc(a) == pid
    requires !exists b :: IsStaleOf(proc, Run(d, proc, Start(), first), b, pid)
    ensures var s := Run(d, proc, Start(), first + rest); pid in s.abandoned && s.At(a) != Inside
  {
    NoneRedeems(d, proc, first, rest, pid);
    BarredUntilRedeemed(d, proc, first, rest, pid, a);
  }

  lemma OnceIsNeverStale(proc: Agent -> Pid, moves: seq<Move>, pid: Pid)
    ensures !exists b :: IsStaleOf(proc, Run(RunOnce, proc, Start(), moves), b, pid)
  {
    RunKeeps(RunOnce, proc, moves);
    var s := Run(RunOnce, proc, Start(), moves);
    assert forall b :: IsStaleOf(proc, s, b, pid) ==> s.At(b) == Stale;
  }

  /** Releasing the stale object gives the key back and leaves it with nobody. */
  lemma StaleRedeems(d: Design, proc: Agent -> Pid, moves: seq<Move>, a: Agent, pid: Pid)
    requires IsStaleOf(proc, Run(d, proc, Start(), moves), a, pid)
    ensures var s := Run(d, proc, Start(), moves + [Move(a, true)]);
      pid !in s.registry && pid !in s.abandoned && forall b :: !OwnsKeyOf(proc, s, b, pid)
  {
    RunKeeps(d, proc, moves);
    RunKeeps(d, proc, moves + [Move(a, true)]);
    assert (moves + [Move(a, true)])[..|moves|] == moves;
    assert OwnsKeyOf(proc, Run(d, proc, Start(), moves), a, pid);
  }

  lemma InsideHoldsKey(proc: Agent -> Pid, s: Locks, a: Agent)
    ensures s.At(a) == Inside ==> HoldsKeyOf(proc, s, a, proc(a))
  {
  }

  /** Nothing else blocks: when nobody holds the file and the process has no key, an
      object whose calls succeed and whom nobody interrupts gets in. */
  lemma FreeLockIsTaken(d: Design, proc: Agent -> Pid, s: Locks, a: Agent)
    requires s.At(a) == Out && s.kernel.None? && proc(a) !in s.registry
    ensures var moves := seq(4, i => Move(a, true)); Run(d, proc, s, moves).At(a) == Inside
  {
    var m := Move(a, true);
    var moves := seq(4, i => m);
    assert moves[..3][..2][..1][..0] == [];
    var s1 := Step(d, proc, s, a, true);
    var s2 := Step(d, proc, s1, a, true);
    var s3 := Step(d, proc, s2, a, true);
    assert Run(d, proc, s, moves[..1]) == s1 by { assert moves[..1][..0] == []; }
    assert Run(d, proc, s, moves[..2]) == s2 by { assert moves[..2][..1] == moves[..1]; }
    assert Run(d, proc, s, moves[..3]) == s3 by { assert moves[..3][..2] == moves[..2]; }
    assert seq(4, i => Move(a, true)) == moves;
  }
}
