/** The two lock objects as written: a handle field, the registry of the process, and the
    file. Every path through a method is shown to be some moves of its own object. */
module RunLockObjects {
  import opened Json
  import opened RunLocks

  /** Whether the path of the lock is in the registry of this process. */
  class ProcessRegistry {
    const pid: Pid
    var listed: bool

    constructor (pid: Pid)
      ensures this.pid == pid && !listed
    {
      this.pid := pid;
      listed := false;
    }
  }

  /** The kernel's lock on the file: the object whose open handle has it. */
  class LockFile {
    var holder: Option<Agent>

    constructor ()
      ensures holder == None
    {
      holder := None;
    }
  }

  datatype AcquireReply = Acquired | Busy | Raising

  /** What the handle field holds: a file whose closing raised is closed, but still there. */
  datatype Handle = NoFile | OpenFile | ClosedFile

  /** Which operating-system calls of one acquire succeed. */
  datatype Luck = Luck(opens: bool, locks: bool, loads: bool, stores: bool, unlocks: bool, closes: bool)

  lemma RunOn(d: Design, proc: Agent -> Pid, s: Locks, moves: seq<Move>, m: Move)
    ensures Run(d, proc, s, moves + [m]) == Step(d, proc, Run(d, proc, s, moves), m.agent, m.ok)
  {
    assert (moves + [m])[..|moves|] == moves;
  }

  lemma RunNone(d: Design, proc: Agent -> Pid, s: Locks)
    ensures Run(d, proc, s, []) == s
  {
  }

  class LockObject {
    const design: Design
    const agent: Agent
    const registry: ProcessRegistry
    const file: LockFile
    var handle: Handle

    constructor (design: Design, agent: Agent, registry: ProcessRegistry, file: LockFile)
      ensures this.design == design && this.agent == agent && this.registry == registry && this.file == file
      ensures handle == NoFile
    {
      this.design, this.agent, this.registry, this.file := design, agent, registry, file;
      handle := NoFile;
    }

    /** Where the step machine has an object whose handle field is like this. */
    function Place(): Pc
      reads this
    {
      match handle case NoFile => Out case OpenFile => Inside case ClosedFile => Stale
    }

    /** The step machine sees this object, its process and the file as they are. */
    ghost predicate Agrees(proc: Agent -> Pid, s: Locks)
      reads this, registry, file
    {
      && proc(agent) == registry.pid
      && s.At(agent) == Place()
      && (registry.pid in s.registry <==> registry.listed)
      && s.kernel == file.holder
      && (handle == OpenFile ==> file.holder == Some(agent))
      && (handle != NoFile ==> registry.listed)
      && (design.RunOnce? ==> handle != ClosedFile)
    }

    /** `RunOnceLock.acquire`: open, check the registry, lock, register, read, write. */
    method AcquireRunOnce(luck: Luck, ghost proc: Agent -> Pid, ghost s: Locks)
      returns (reply: AcquireReply, ghost moves: seq<Move>)
      requires design.RunOnce? && Agrees(proc, s)
      modifies this, registry, file
      ensures Agrees(proc, Run(RunOnce, proc, s, moves)) && forall m :: m in moves ==> m.agent == agent
      ensures reply == Acquired <==> handle == OpenFile
      ensures old(handle) == NoFile ==>
        && (reply == Acquired <==>
              !old(registry.listed) && old(file.holder).None? && luck.opens && luck.locks && luck.loads && luck.stores)
        && (reply == Busy <==>
              (old(registry.listed) || old(file.holder).Some? || !luck.locks)
              && luck.opens && luck.closes && luck.loads)
      ensures reply != Acquired ==> file.holder == old(file.holder)
      ensures reply != Acquired ==>
        registry.listed == (old(registry.listed)
          || (old(file.holder).None? && luck.opens && luck.locks && (!luck.loads || (!luck.stores && !luck.closes))))
    {
      hide Run;
      moves := [];
      RunNone(RunOnce, proc, s);
      if handle != NoFile {
        return Acquired, moves;
      }
      RunOn(RunOnce, proc, s, moves, Move(agent, luck.opens));
      moves := moves + [Move(agent, luck.opens)];
      if !luck.opens {
        return Raising, moves;
      }
      RunOn(RunOnce, proc, s, moves, Move(agent, luck.locks));
      moves := moves + [Move(agent, luck.locks)];
      if registry.listed || file.holder.Some? || !luck.locks {
        // closing the file, then reading who is active
        return if luck.closes && luck.loads then Busy else Raising, moves;
      }
      file.holder := Some(agent);
      registry.listed := true;
      RunOn(RunOnce, proc, s, moves, Move(agent, luck.loads));
      moves := moves + [Move(agent, luck.loads)];
      if !luck.loads {
        file.holder := None;
        return Raising, moves;
      }
      handle := OpenFile;
      RunOn(RunOnce, proc, s, moves, Move(agent, luck.stores));
      moves := moves + [Move(agent, luck.stores)];
      if !luck.stores {
        var rest := ReleaseHandle(luck.unlocks, luck.closes, proc, Run(RunOnce, proc, s, moves));
        RunOnward(RunOnce, proc, s, moves, rest);
        moves := moves + rest;
        return Raising, moves;
      }
      return Acquired, moves;
    }

    /** Unlock, close, leave the registry: the second happens even when unlocking raises, the
        third only when closing does not. `RunOnce` empties its handle field first,
        `KernelRun` once the file is closed. */
    method ReleaseHandle(unlocks: bool, closes: bool, ghost proc: Agent -> Pid, ghost s: Locks)
      returns (ghost moves: seq<Move>)
      requires handle == OpenFile && proc(agent) == registry.pid && s.At(agent) == Leaving
      requires s.kernel == file.holder == Some(agent) && (registry.pid in s.registry) && registry.listed
      modifies this, registry, file
      ensures file.holder == None && registry.listed == !closes
      ensures handle == if closes || design.RunOnce? then NoFile else ClosedFile
      ensures Agrees(proc, Run(design, proc, s, moves)) && forall m :: m in moves ==> m.agent == agent
    {
      hide Run;
      if design.RunOnce? {
        handle := NoFile;
      }
      moves := [];
      RunNone(design, proc, s);
      RunOn(design, proc, s, moves, Move(agent, unlocks));
      moves := moves + [Move(agent, unlocks)];
      if unlocks {
        file.holder := None;
      }
      RunOn(design, proc, s, moves, Move(agent, closes));
      moves := moves + [Move(agent, closes)];
      file.holder := None;
      if !closes {
        if design.KernelRun? {
          handle := ClosedFile;
        }
        return;
      }
      handle := NoFile;
      RunOn(design, proc, s, moves, Move(agent, true));
      moves := moves + [Move(agent, true)];
      registry.listed := false;
    }

    /** `release` of either design. On a closed file it raises, after giving the key back. */
    method Release(unlocks: bool, closes: bool, ghost proc: Agent -> Pid, ghost s: Locks)
      returns (ghost moves: seq<Move>)
      requires Agrees(proc, s)
      modifies this, registry, file
      ensures Agrees(proc, Run(design, proc, s, moves)) && forall m :: m in moves ==> m.agent == agent
      ensures match old(handle)
        case NoFile =>
          handle == NoFile && file.holder == old(file.holder) && registry.listed == old(registry.listed)
        case OpenFile =>
          && file.holder == None && registry.listed == !closes
          && handle == if closes || design.RunOnce? then NoFile else ClosedFile
        case ClosedFile => handle == NoFile && file.holder == old(file.holder) && !registry.listed
    {
      hide Run;
      moves := [];
      RunNone(design, proc, s);
      if handle == NoFile {
        return;
      }
      RunOn(design, proc, s, moves, Move(agent, true));
      moves := moves + [Move(agent, true)];
      if handle == ClosedFile {
        handle := NoFile;
        registry.listed := false;
        return;
      }
      var rest := ReleaseHandle(unlocks, closes, proc, Run(design, proc, s, moves));
      RunOnward(design, proc, s, moves, rest);
      moves := moves + rest;
    }

    /** `KernelRunLock.acquire`: register, open, lock, write; unwinding when one raises. */
    method AcquireKernelRun(luck: Luck, ghost proc: Agent -> Pid, ghost s: Locks)
      returns (reply: AcquireReply, ghost moves: seq<Move>)
      requires design.KernelRun? && Agrees(proc, s)
      modifies this, registry, file
      ensures Agrees(proc, Run(KernelRun, proc, s, moves)) && forall m :: m in moves ==> m.agent == agent
      ensures reply == Acquired <==>
        !old(registry.listed) && old(file.holder).None? && luck.opens && luck.locks && luck.stores
      ensures reply == Busy <==>
        old(registry.listed) || (luck.opens && (old(file.holder).Some? || !luck.locks) && luck.closes)
      ensures reply != Acquired ==> file.holder == old(file.holder)
      ensures reply != Acquired ==>
        registry.listed == (old(registry.listed)
          || (old(file.holder).None? && luck.opens && luck.locks && !luck.stores && !(luck.unlocks && luck.closes)))
      ensures handle ==
        if reply == Acquired then OpenFile
        else if old(registry.listed) then old(handle)
        else if old(file.holder).None? && luck.opens && luck.locks && !luck.stores && !luck.closes then ClosedFile
        else NoFile
    {
      hide Run;
      moves := [];
      RunNone(KernelRun, proc, s);
      if registry.listed {
        return Busy, moves;
      }
      RunOn(KernelRun, proc, s, moves, Move(agent, true));
      moves := moves + [Move(agent, true)];
      registry.listed := true;
      RunOn(KernelRun, proc, s, moves, Move(agent, luck.opens));
      moves := moves + [Move(agent, luck.opens)];
      if !luck.opens {
        RunOn(KernelRun, proc, s, moves, Move(agent, true));
        moves := moves + [Move(agent, true)];
        registry.listed := false;
        return Raising, moves;
      }
      RunOn(KernelRun, proc, s, moves, Move(agent, luck.locks));
      moves := moves + [Move(agent, luck.locks)];
      if file.holder.Some? || !luck.locks {
        RunOn(KernelRun, proc, s, moves, Move(agent, true));
        moves := moves + [Move(agent, true)];
        registry.listed := false;
        return if luck.closes then Busy else Raising, moves;
      }
      file.holder := Some(agent);
      handle := OpenFile;
      RunOn(KernelRun, proc, s, moves, Move(agent, luck.stores));
      moves := moves + [Move(agent, luck.stores)];
      if luck.stores {
        return Acquired, moves;
      }
      var rest := UnwindKernelRun(luck.unlocks, luck.closes, proc, Run(KernelRun, proc, s, moves));
      RunOnward(KernelRun, proc, s, moves, rest);
      moves := moves + rest;
      return Raising, moves;
    }

    /** The handler of a failed `KernelRunLock.acquire`: the registry is left only when neither
        unlocking nor closing raises. */
    method UnwindKernelRun(unlocks: bool, closes: bool, ghost proc: Agent -> Pid, ghost s: Locks)
      returns (ghost moves: seq<Move>)
      requires design.KernelRun? && handle == OpenFile && proc(agent) == registry.pid && s.At(agent) == Failing
      requires s.kernel == file.holder == Some(agent) && (registry.pid in s.registry) && registry.listed
      modifies this, registry, file
      ensures file.holder == None && registry.listed == !(unlocks && closes)
      ensures handle == if closes then NoFile else ClosedFile
      ensures Agrees(proc, Run(KernelRun, proc, s, moves)) && forall m :: m in moves ==> m.agent == agent
    {
      hide Run;
      moves := [];
      RunNone(KernelRun, proc, s);
      RunOn(KernelRun, proc, s, moves, Move(agent, unlocks));
      moves := moves + [Move(agent, unlocks)];
      if unlocks {
        file.holder := None;
      }
      RunOn(KernelRun, proc, s, moves, Move(agent, closes));
      moves := moves + [Move(agent, closes)];
      file.holder := None;
      handle := if closes then NoFile else ClosedFile;
      if !(unlocks && closes) {
        return;
      }
      RunOn(KernelRun, proc, s, moves, Move(agent, true));
      moves := moves + [Move(agent, true)];
      registry.listed := false;
    }
  }

  /** `RunOnce` with old metadata that cannot be read: the file is free and nobody holds the key. */
  lemma UnreadableOwner(proc: Agent -> Pid, a: Agent)
    ensures var s := Run(RunOnce, proc, Start(), [Move(a, true), Move(a, true), Move(a, false)]);
      s.registry == {proc(a)} && s.kernel.None? && s.At(a) == Out
  {
    hide Run;
    var y, n := Move(a, true), Move(a, false);
    RunNone(RunOnce, proc, Start());
    RunOn(RunOnce, proc, Start(), [], y);
    RunOn(RunOnce, proc, Start(), [y], y);
    RunOn(RunOnce, proc, Start(), [y, y], n);
    assert [y, y] + [n] == [y, y, n] && [y] + [y] == [y, y] && [] + [y] == [y];
  }

  /** Up to the failed write of `KernelRun`, which finds the disk full. */
  lemma FailedWrite(proc: Agent -> Pid, a: Agent)
    ensures var s := Run(KernelRun, proc, Start(), [Move(a, true), Move(a, true), Move(a, true), Move(a, false)]);
      s.registry == {proc(a)} && s.kernel == Some(a) && s.At(a) == Failing && s.abandoned == {}
  {
    hide Run;
    var y, n := Move(a, true), Move(a, false);
    RunNone(KernelRun, proc, Start());
    RunOn(KernelRun, proc, Start(), [], y);
    RunOn(KernelRun, proc, Start(), [y], y);
    RunOn(KernelRun, proc, Start(), [y, y], y);
    RunOn(KernelRun, proc, Start(), [y, y, y], n);
    assert [y] + [y] == [y, y] && [] + [y] == [y];
    assert [y, y, y] + [n] == [y, y, y, n] && [y, y] + [y] == [y, y, y];
  }

  /** After it: unlocking raises and the key stays for good; or closing raises, for the same
      bytes, and the key stays until the object is released. */
  lemma AbandoningRuns(proc: Agent -> Pid, a: Agent)
    ensures var failed := [Move(a, true), Move(a, true), Move(a, true), Move(a, false)];
      var unlocked := Run(KernelRun, proc, Start(), failed + [Move(a, false)] + [Move(a, true)]);
      var stale := Run(KernelRun, proc, Start(), failed + [Move(a, true)] + [Move(a, false)]);
      var back := Run(KernelRun, proc, Start(), failed + [Move(a, true)] + [Move(a, false)] + [Move(a, true)]);
      && unlocked.registry == {proc(a)} && unlocked.kernel.None? && unlocked.At(a) == Out
      && stale.registry == {proc(a)} && stale.kernel.None? && stale.At(a) == Stale
      && back.registry == {} && back.kernel.None? && back.At(a) == Out
  {
    hide Run;
    var failed := [Move(a, true), Move(a, true), Move(a, true), Move(a, false)];
    FailedWrite(proc, a);
    RunOn(KernelRun, proc, Start(), failed, Move(a, false));
    RunOn(KernelRun, proc, Start(), failed + [Move(a, false)], Move(a, true));
    RunOn(KernelRun, proc, Start(), failed, Move(a, true));
    RunOn(KernelRun, proc, Start(), failed + [Move(a, true)], Move(a, false));
    RunOn(KernelRun, proc, Start(), failed + [Move(a, true)] + [Move(a, false)], Move(a, true));
  }
}
