/** Rollbacks over crashes and retries: convergence, undoing the whole chain, and the one
    way a deployment becomes impossible to undo. */
module TargetUndo {
  import opened Json
  import opened ReleaseFiles
  import opened ReleaseTarget
  import opened TargetInvariant
  import opened TargetSoundness
  import opened TargetPlans
  import opened TargetRuns
  import opened TargetHistory
  import opened TargetRecovery

  // ---------------------------------------------------------------- convergence

  /** How far the rollback of the top deployment has come, with the times it wrote. */
  datatype Undoing =
    | Untouched
    | Announced(prepared: string)
    | Popped(prepared: string)
    | Completed(prepared: string, finished: string, reconciled: Option<string>)

  /** The top deployment of `s` and what its rollback writes. */
  function Top(s: Store): string
    requires IsLive(s.current)
  {
    s.current.value.bound.deploymentRef
  }

  function TopBase(h: Host, s: Store): RollbackBase
    requires IsLive(s.current) && Top(s) in s.deployments
  {
    BaseFor(h, s, s.deployments[Top(s)], Top(s))
  }

  function UndoneAt(h: Host, s: Store, u: Undoing): Store
    requires IsLive(s.current) && Top(s) in s.deployments
  {
    var base := TopBase(h, s);
    var restored := Some(Restored(s.deployments[Top(s)], s.targetRef));
    match u
    case Untouched => s
    case Announced(at) => s.(rollbacks := s.rollbacks[base.receiptRef := Rollback(base, at, Pending)])
    case Popped(at) => s.(rollbacks := s.rollbacks[base.receiptRef := Rollback(base, at, Pending)], current := restored)
    case Completed(at, fin, rec) =>
      s.(rollbacks := s.rollbacks[base.receiptRef := Rollback(base, at, Complete(fin, rec))], current := restored)
  }

  function UndoNext(u: Undoing, t: Clock, first: bool): Undoing {
    match u
    case Untouched => Announced(t.prepared)
    case Announced(at) => Popped(at)
    case Popped(at) => Completed(at, t.finished, if first then None else Some(t.reconciled))
    case Completed(_, _, _) => u
  }

  function UndoLeft(u: Undoing): nat {
    match u
    case Untouched => 3
    case Announced(_) => 2
    case Popped(_) => 1
    case Completed(_, _, _) => 0
  }

  function UndoAfter(u: Undoing, t: Clock, first: bool, k: nat): Undoing
    decreases k
  {
    if k == 0 then u else UndoAfter(UndoNext(u, t, first), t, first, k - 1)
  }

  function UndoWrite(h: Host, s: Store, u: Undoing, t: Clock, first: bool): Write
    requires IsLive(s.current) && Top(s) in s.deployments && !u.Completed?
  {
    var base := TopBase(h, s);
    match u
    case Untouched => PutRollback(base.receiptRef, Rollback(base, t.prepared, Pending))
    case Announced(_) => PutCurrent(Restored(s.deployments[Top(s)], s.targetRef))
    case Popped(at) =>
      PutRollback(base.receiptRef, Rollback(base, at, Complete(t.finished, if first then None else Some(t.reconciled))))
  }

  function UndoWrites(h: Host, s: Store, u: Undoing, t: Clock, first: bool): seq<Write>
    requires IsLive(s.current) && Top(s) in s.deployments
    decreases UndoLeft(u)
  {
    if u.Completed? then []
    else [UndoWrite(h, s, u, t, first)] + UndoWrites(h, s, UndoNext(u, t, first), t, first)
  }

  lemma UndoApplies(h: Host, s: Store, u: Undoing, t: Clock, first: bool)
    requires IsLive(s.current) && Top(s) in s.deployments && !u.Completed?
    ensures Apply(UndoneAt(h, s, u), UndoWrite(h, s, u, t, first)) == UndoneAt(h, s, UndoNext(u, t, first))
  {
    hide BaseFor, Restored;
    if u.Popped? {
      var ref := TopBase(h, s).receiptRef;
      var a := Rollback(TopBase(h, s), u.prepared, Pending);
      var b := UndoWrite(h, s, u, t, first).rollback;
      assert s.rollbacks[ref := a][ref := b] == s.rollbacks[ref := b];
    }
  }

  lemma {:induction false} UndoStepsApply(h: Host, s: Store, u: Undoing, t: Clock, first: bool, k: nat)
    requires IsLive(s.current) && Top(s) in s.deployments && k <= UndoLeft(u)
    ensures |UndoWrites(h, s, u, t, first)| == UndoLeft(u)
    ensures ApplyAll(UndoneAt(h, s, u), UndoWrites(h, s, u, t, first)[..k]) == UndoneAt(h, s, UndoAfter(u, t, first, k))
    ensures k == UndoLeft(u) ==> UndoAfter(u, t, first, k).Completed?
    decreases UndoLeft(u)
  {
    hide UndoneAt, UndoWrite, Apply;
    if !u.Completed? {
      var next := UndoNext(u, t, first);
      var ws, rest := UndoWrites(h, s, u, t, first), UndoWrites(h, s, next, t, first);
      UndoStepsApply(h, s, next, t, first, if k == 0 then 0 else k - 1);
      if k > 0 {
        UndoApplies(h, s, u, t, first);
        assert ws[..k][0] == ws[0] && ws[..k][1..] == rest[..k - 1];
      }
    }
  }

  function TopRollbackPlan(h: Host, s: Store, at: Store, t: Clock): Plan
    requires IsLive(s.current) && Top(s) in s.deployments
  {
    var d := s.deployments[Top(s)];
    RollbackPlan(h, at, d.bound.stage, Top(s), d.rollbackRef, t)
  }

  /** What a rollback decides once its checks have passed. */
  lemma RollbackDecision(h: Host, s: Store, dep: string, t: Clock)
    requires dep in s.deployments && IsIdentified(h, dep, s.deployments[dep])
    requires s.deployments[dep].bound.targetRef == s.targetRef
    requires IsOwn(s) && IsPreviousUsable(h, s, s.deployments[dep])
    ensures var d := s.deployments[dep];
      var base, restored := BaseFor(h, s, d, dep), Restored(d, s.targetRef);
      var plan := RollbackPlan(h, s, d.bound.stage, dep, d.rollbackRef, t);
      var back := PointerDigest(h, s.current) == base.restoredDigest;
      && (base.receiptRef !in s.rollbacks && IsAt(s.current, dep) ==>
            plan == Plan([PutRollback(base.receiptRef, Rollback(base, t.prepared, Pending)), PutCurrent(restored),
                          PutRollback(base.receiptRef, Rollback(base, t.prepared, Complete(t.finished, None)))],
                         Success(RolledBack(dep, d.rollbackRef, base.restoredRef, base.receiptRef, false))))
      && (base.receiptRef in s.rollbacks && s.rollbacks[base.receiptRef].base == base ==>
            var r := s.rollbacks[base.receiptRef];
            var done := PutRollback(base.receiptRef, r.(status := Complete(t.finished, Some(t.reconciled))));
            var receipt := Success(RolledBack(dep, d.rollbackRef, base.restoredRef, base.receiptRef, true));
            && (r.status.Complete? && back ==> plan == Plan([], receipt))
            && (r.status.Pending? && back ==> plan == Plan([done], receipt))
            && (r.status.Pending? && !back && IsAt(s.current, dep) ==>
                  plan == Plan([PutCurrent(restored), done], receipt)))
  {
  }

  /** The checks of a rollback keep passing while it is under way. */
  lemma ChecksThroughout(h: Host, s: Store, born: Births, u: Undoing)
    requires IsSound(h, s, born) && IsLive(s.current)
    ensures Top(s) in s.deployments && IsIdentified(h, Top(s), s.deployments[Top(s)])
    ensures s.deployments[Top(s)].bound.targetRef == s.targetRef
    ensures IsOwn(UndoneAt(h, s, u)) && IsPreviousUsable(h, UndoneAt(h, s, u), s.deployments[Top(s)])
  {
    assert IsPlaced(s, born, Top(s));
    PreviousUsable(h, s, born, Top(s));
  }

  lemma UndoPlanned(h: Host, s: Store, born: Births, u: Undoing, t: Clock)
    requires CollisionFree(h.digest) && IsSound(h, s, born) && IsLive(s.current)
    requires TopBase(h, s).receiptRef !in s.rollbacks
    ensures TopRollbackPlan(h, s, UndoneAt(h, s, u), t).outcome.Success?
    ensures TopRollbackPlan(h, s, UndoneAt(h, s, u), t).writes == UndoWrites(h, s, u, t, u.Untouched?)
  {
    hide RollbackPlan, IsPreviousUsable, IsIdentified, IsOwn, ReceiptRefOf, RestoredRefOf;
    var s1 := UndoneAt(h, s, u);
    ChecksThroughout(h, s, born, u);
    RollbackDecision(h, s1, Top(s), t);
    RestoredDiffers(h, s, born);
    assert BaseFor(h, s1, s1.deployments[Top(s)], Top(s)) == TopBase(h, s);
    hide PointerDigest, BaseFor;
    if u.Untouched? {
      var u1, u2 := UndoNext(u, t, true), UndoNext(UndoNext(u, t, true), t, true);
      assert UndoWrites(h, s, u2, t, true) == [UndoWrite(h, s, u2, t, true)];
      assert UndoWrites(h, s, u1, t, true) == [UndoWrite(h, s, u1, t, true), UndoWrite(h, s, u2, t, true)];
    } else if u.Announced? {
      var u1 := UndoNext(u, t, false);
      assert UndoWrites(h, s, u1, t, false) == [UndoWrite(h, s, u1, t, false)];
    }
  }

  function AfterUndoAttempts(h: Host, s: Store, at: Store, attempts: seq<Attempt>): Store
    requires IsLive(s.current) && Top(s) in s.deployments
    decreases |attempts|
  {
    if attempts == [] then at
    else
      var ws := TopRollbackPlan(h, s, at, attempts[0].clock).writes;
      AfterUndoAttempts(h, s, ApplyAll(at, ws[..Min(attempts[0].writes, |ws|)]), attempts[1..])
  }

  lemma {:induction false} UndoProgresses(h: Host, s: Store, born: Births, u: Undoing, attempts: seq<Attempt>)
    returns (u': Undoing)
    requires CollisionFree(h.digest) && IsSound(h, s, born) && IsLive(s.current)
    requires TopBase(h, s).receiptRef !in s.rollbacks
    ensures AfterUndoAttempts(h, s, UndoneAt(h, s, u), attempts) == UndoneAt(h, s, u')
    decreases |attempts|
  {
    assert Top(s) in s.deployments;
    hide TopRollbackPlan, UndoneAt, UndoWrites, TopBase, IsSound;
    if attempts == [] {
      u' := u;
    } else {
      var t := attempts[0].clock;
      var k := Min(attempts[0].writes, UndoLeft(u));
      UndoPlanned(h, s, born, u, t);
      UndoStepsApply(h, s, u, t, u.Untouched?, k);
      u' := UndoProgresses(h, s, born, UndoAfter(u, t, u.Untouched?, k), attempts[1..]);
    }
  }

  function TimelessUndo(h: Host, s: Store, at: Store): Store
    requires IsLive(s.current) && Top(s) in s.deployments
  {
    var ref := TopBase(h, s).receiptRef;
    if ref in at.rollbacks && at.rollbacks[ref].status.Complete?
    then at.(rollbacks := at.rollbacks[ref := at.rollbacks[ref].(preparedAt := "", status := Complete("", None))])
    else at
  }

  lemma UndoneIsTimeless(h: Host, s: Store, u: Undoing, u': Undoing)
    requires IsLive(s.current) && Top(s) in s.deployments && u.Completed? && u'.Completed?
    ensures TimelessUndo(h, s, UndoneAt(h, s, u)) == TimelessUndo(h, s, UndoneAt(h, s, u'))
  {
    assert TimelessUndo(h, s, UndoneAt(h, s, u)).rollbacks == TimelessUndo(h, s, UndoneAt(h, s, u')).rollbacks;
  }

  /** Crash convergence of rollbacks: after any number of attempts at rolling back the
      top deployment, each dying at any write, one more call succeeds and ends where the
      uninterrupted call ends, up to timestamps. */
  lemma RollbackConverges(h: Host, s: Store, born: Births, attempts: seq<Attempt>, t: Clock, t0: Clock)
    requires CollisionFree(h.digest) && IsSound(h, s, born) && IsLive(s.current)
    requires TopBase(h, s).receiptRef !in s.rollbacks
    ensures var s1 := AfterUndoAttempts(h, s, s, attempts);
      var retry, whole := TopRollbackPlan(h, s, s1, t), TopRollbackPlan(h, s, s, t0);
      && retry.outcome.Success? && whole.outcome.Success?
      && TimelessUndo(h, s, ApplyAll(s1, retry.writes)) == TimelessUndo(h, s, ApplyAll(s, whole.writes))
      && ApplyAll(s1, retry.writes).current == Some(Restored(s.deployments[Top(s)], s.targetRef))
  {
    hide RollbackPlan, ReceiptRefOf, RestoredRefOf, PointerDigest;
    assert UndoneAt(h, s, Untouched) == s;
    var u := UndoProgresses(h, s, born, Untouched, attempts);
    UndoPlanned(h, s, born, Untouched, t0);
    UndoPlanned(h, s, born, u, t);
    UndoStepsApply(h, s, Untouched, t0, true, 3);
    UndoStepsApply(h, s, u, t, u.Untouched?, UndoLeft(u));
    var done, done0 := UndoAfter(u, t, u.Untouched?, UndoLeft(u)), UndoAfter(Untouched, t0, true, 3);
    UndoneIsTimeless(h, s, done, done0);
    assert UndoneAt(h, s, done).current == Some(Restored(s.deployments[Top(s)], s.targetRef));
    hide TopRollbackPlan, UndoneAt, UndoWrites, TopBase, IsSound, TimelessUndo;
    var rest, whole := UndoWrites(h, s, u, t, u.Untouched?), UndoWrites(h, s, Untouched, t0, true);
    assert rest[..UndoLeft(u)] == rest && whole[..3] == whole;
  }

  // ---------------------------------------------------------------- undoing everything

  /** Every deployment on the chain can be undone by itself: it has no receipt yet, or its own
      unfinished one. And no two of them share a receipt. */
  ghost predicate IsFullyUndoable(h: Host, s: Store, chain: seq<Pointer>) {
    && (forall i :: 0 <= i < |chain| ==> IsUndoableAt(h, s, chain[i]))
    && (forall i, j :: 0 <= i < j < |chain| ==> ReceiptAt(h, s, chain[i]) != ReceiptAt(h, s, chain[j]))
  }

  predicate IsUndoableAt(h: Host, s: Store, p: Pointer) {
    p.Live? && p.bound.deploymentRef in s.deployments && IsUndoable(h, s, p.bound.deploymentRef)
  }

  function ReceiptAt(h: Host, s: Store, p: Pointer): Option<string> {
    if p.Live? && p.bound.deploymentRef in s.deployments then Some(ReceiptRefFor(h, s, p.bound.deploymentRef)) else None
  }

  /** Rolls back whatever is on top, once per clock reading. */
  function UndoAll(h: Host, s: Store, clocks: seq<Clock>): Option<Store>
    decreases |clocks|
  {
    if clocks == [] then Some(s)
    else if !IsLive(s.current) || Top(s) !in s.deployments then None
    else
      var plan := TopRollbackPlan(h, s, s, clocks[0]);
      if plan.outcome.Failure? then None else UndoAll(h, ApplyAll(s, plan.writes), clocks[1..])
  }

  /** The one receipt of the top is complete, all else in the receipts is as it was. */
  predicate IsReceiptDone(h: Host, s: Store, s': Store)
    requires IsLive(s.current) && Top(s) in s.deployments
  {
    var ref := TopBase(h, s).receiptRef;
    && ref in s'.rollbacks && s'.rollbacks == s.rollbacks[ref := s'.rollbacks[ref]]
    && s'.rollbacks[ref].status.Complete? && s'.rollbacks[ref].base.deploymentRef == Top(s)
  }

  /** The writes of a rollback that took up an announced one. */
  lemma UndoResumed(h: Host, s: Store, born: Births, t: Clock)
    requires CollisionFree(h.digest) && IsSound(h, s, born) && IsLive(s.current)
    requires Top(s) in s.deployments && IsUndoable(h, s, Top(s)) && TopBase(h, s).receiptRef in s.rollbacks
    ensures var plan := TopRollbackPlan(h, s, s, t); var ref := TopBase(h, s).receiptRef;
      && plan.outcome.Success?
      && plan.writes == [PutCurrent(Restored(s.deployments[Top(s)], s.targetRef)),
                         PutRollback(ref, s.rollbacks[ref].(status := Complete(t.finished, Some(t.reconciled))))]
  {
    hide RollbackPlan, IsPreviousUsable, IsIdentified, IsOwn, ReceiptRefOf, RestoredRefOf;
    var ref := TopBase(h, s).receiptRef;
    assert UndoneAt(h, s, Untouched) == s;
    ChecksThroughout(h, s, born, Untouched);
    assert IsBased(h, s, ref, s.rollbacks[ref]);
    RestoredDiffers(h, s, born);
    RollbackDecision(h, s, Top(s), t);
  }

  lemma UndoTopFresh(h: Host, s: Store, born: Births, t: Clock)
    requires CollisionFree(h.digest) && IsSound(h, s, born) && IsLive(s.current)
    requires Top(s) in s.deployments && TopBase(h, s).receiptRef !in s.rollbacks
    ensures var plan := TopRollbackPlan(h, s, s, t);
      && plan.outcome.Success?
      && ApplyAll(s, plan.writes) == UndoneAt(h, s, UndoAfter(Untouched, t, true, 3))
      && UndoAfter(Untouched, t, true, 3).Completed?
      && (forall i :: 0 <= i < |plan.writes| ==> !plan.writes[i].PutDeployment?)
  {
    assert UndoneAt(h, s, Untouched) == s;
    hide RollbackPlan, TopRollbackPlan, TopBase, UndoneAt, UndoWrites, UndoAfter, IsSound, ApplyAll;
    UndoPlanned(h, s, born, Untouched, t);
    UndoStepsApply(h, s, Untouched, t, true, 3);
    UndoWritesNoRecord(h, s, Untouched, t, true);
    var ws := UndoWrites(h, s, Untouched, t, true);
    assert ws[..3] == ws;
  }

  lemma UndoTopWrites(h: Host, s: Store, born: Births, t: Clock)
    requires CollisionFree(h.digest) && IsSound(h, s, born) && IsLive(s.current)
    requires Top(s) in s.deployments && IsUndoable(h, s, Top(s))
    ensures var plan := TopRollbackPlan(h, s, s, t); var s' := ApplyAll(s, plan.writes);
      && plan.outcome.Success?
      && s' == s.(rollbacks := s'.rollbacks, current := Some(Restored(s.deployments[Top(s)], s.targetRef)))
      && IsReceiptDone(h, s, s')
      && (forall i :: 0 <= i < |plan.writes| ==> !plan.writes[i].PutDeployment?)
  {
    hide RollbackPlan, TopRollbackPlan, ReceiptRefOf, RestoredRefOf, PointerDigest, IsSound;
    if TopBase(h, s).receiptRef in s.rollbacks {
      UndoResumed(h, s, born, t);
      ThreeWrites(s, TopRollbackPlan(h, s, s, t).writes);
    } else {
      UndoTopFresh(h, s, born, t);
    }
  }

  lemma UndoTop(h: Host, s: Store, born: Births, t: Clock)
    requires CollisionFree(h.digest) && IsSound(h, s, born) && IsLive(s.current)
    requires Top(s) in s.deployments && IsUndoable(h, s, Top(s))
    ensures var plan := TopRollbackPlan(h, s, s, t); var s' := ApplyAll(s, plan.writes);
      && plan.outcome.Success?
      && IsSound(h, s', born)
      && s'.deployments == s.deployments && IsReceiptDone(h, s, s')
      && LiveChain(s', born) == LiveChain(s, born)[1..]
  {
    UndoTopWrites(h, s, born, t);
    var plan := TopRollbackPlan(h, s, s, t);
    var d := s.deployments[Top(s)];
    RollbackLawful(h, s, born, d.bound.stage, Top(s), d.rollbackRef, t);
    NoNewRecords(s, born, plan.writes);
    assert plan.writes[..|plan.writes|] == plan.writes;
    PrefixKeepsSound(h, s, born, plan.writes, |plan.writes|);
    OrderedIsLinked(s, born);
    assert LiveChain(s, born) == [s.current.value] + Chain(s.deployments, born, d.previous);
  }

  /** The times in rollback receipts matter to nothing. */
  lemma SoundIgnoresTimes(h: Host, s: Store, born: Births, s': Store)
    requires IsSound(h, s, born) && s' == s.(rollbacks := s'.rollbacks) && AreBased(h, s')
    ensures IsSound(h, s', born)
  {
    OrderIgnoresRollbacks(s, born, s'.rollbacks);
    forall dep | dep in s'.deployments
      ensures IsServing(h, s', s'.deployments[dep].bound)
    {
      assert IsServing(h, s, s.deployments[dep].bound);
    }
  }

  lemma CompletedIsSound(h: Host, s: Store, born: Births, u: Undoing, t: Clock)
    requires CollisionFree(h.digest) && IsSound(h, s, born) && IsLive(s.current) && u.Completed?
    requires TopBase(h, s).receiptRef !in s.rollbacks
    ensures IsSound(h, UndoneAt(h, s, u), born)
  {
    TopIsRecorded(h, s, born);
    assert IsUndoable(h, s, Top(s));
    hide IsSound, BaseFor, PointerDigest;
    UndoTop(h, s, born, t);
    UndoPlanned(h, s, born, Untouched, t);
    UndoStepsApply(h, s, Untouched, t, true, 3);
    assert UndoneAt(h, s, Untouched) == s;
    var ws := UndoWrites(h, s, Untouched, t, true);
    assert ws[..3] == ws;
    var first, last := UndoneAt(h, s, UndoAfter(Untouched, t, true, 3)), UndoneAt(h, s, u);
    SoundIsBased(h, first, born);
    forall ref | ref in last.rollbacks
      ensures IsBased(h, last, ref, last.rollbacks[ref])
    {
      assert IsBased(h, first, ref, first.rollbacks[ref]);
      BasedIgnoresTimes(h, first, last, ref);
    }
    SoundIgnoresTimes(h, first, born, last);
  }

  lemma SoundIsBased(h: Host, s: Store, born: Births)
    requires IsSound(h, s, born)
    ensures AreBased(h, s)
  {
  }

  lemma BasedIgnoresTimes(h: Host, s: Store, s': Store, ref: string)
    requires s' == s.(rollbacks := s'.rollbacks) && ref in s.rollbacks && ref in s'.rollbacks
    requires s'.rollbacks[ref].base == s.rollbacks[ref].base && IsBased(h, s, ref, s.rollbacks[ref])
    ensures IsBased(h, s', ref, s'.rollbacks[ref])
  {
  }

  /** A rollback of the top that was repeated after any number of deaths can be verified with
      the receipt it returned; the verification reports the inventory of the release below. */
  lemma UndoneIsVerifiable(h: Host, s: Store, born: Births, attempts: seq<Attempt>, t: Clock)
    requires CollisionFree(h.digest) && IsSound(h, s, born) && IsLive(s.current)
    requires TopBase(h, s).receiptRef !in s.rollbacks && !IsBlank(h, TopBase(h, s).receiptRef)
    ensures var s1 := AfterUndoAttempts(h, s, s, attempts);
      var retry := TopRollbackPlan(h, s, s1, t);
      retry.outcome.Success? && retry.outcome.receipt.RolledBack?
      && var r, d := retry.outcome.receipt, s.deployments[Top(s)];
      VerifyRollbackPlan(h, ApplyAll(s1, retry.writes), d.bound.stage, r.deploymentRef, r.rollbackRef, r.restoredRef,
                         r.receiptRef).outcome
        == Success(RollbackVerified(r.receiptRef, RollbackVerificationRefOf(h, r.receiptRef), RestoredInventory(d)))
  {
    assert Top(s) in s.deployments && UndoneAt(h, s, Untouched) == s;
    hide RollbackPlan, TopRollbackPlan, UndoneAt, TopBase, UndoWrites, IsSound, VerifyRollbackPlan;
    hide RollbackVerificationRefOf;
    var u := UndoProgresses(h, s, born, Untouched, attempts);
    UndoPlanned(h, s, born, u, t);
    UndoStepsApply(h, s, u, t, u.Untouched?, UndoLeft(u));
    var done := UndoAfter(u, t, u.Untouched?, UndoLeft(u));
    var rest := UndoWrites(h, s, u, t, u.Untouched?);
    assert rest[..UndoLeft(u)] == rest;
    RollbackReturns(h, s, born, u, t);
    CompletedIsVerifiable(h, s, born, done, t);
  }

  lemma CompletedIsVerifiable(h: Host, s: Store, born: Births, u: Undoing, t: Clock)
    requires CollisionFree(h.digest) && IsSound(h, s, born) && IsLive(s.current) && u.Completed?
    requires TopBase(h, s).receiptRef !in s.rollbacks && !IsBlank(h, TopBase(h, s).receiptRef)
    ensures TopBase(h, s).stage == s.deployments[Top(s)].bound.stage
    ensures var base := TopBase(h, s);
      VerifyRollbackPlan(h, UndoneAt(h, s, u), base.stage, Top(s), base.rollbackRef, base.restoredRef,
                         base.receiptRef).outcome
        == Success(RollbackVerified(base.receiptRef, RollbackVerificationRefOf(h, base.receiptRef),
                                    RestoredInventory(s.deployments[Top(s)])))
  {
    assert Top(s) in s.deployments;
    hide ReceiptRefOf, RestoredRefOf, PointerDigest, VerifyRollbackPlan, IsSound, RollbackVerificationRefOf;
    CompletedIsSound(h, s, born, u, t);
    var base := TopBase(h, s);
    RollbackIsVerifiable(h, UndoneAt(h, s, u), born, base.stage, Top(s), base.rollbackRef, base.restoredRef,
                         base.receiptRef);
  }

  /** The receipt that a rollback returns, whenever it gets to. */
  lemma RollbackReturns(h: Host, s: Store, born: Births, u: Undoing, t: Clock)
    requires CollisionFree(h.digest) && IsSound(h, s, born) && IsLive(s.current)
    requires TopBase(h, s).receiptRef !in s.rollbacks
    ensures var base := TopBase(h, s);
      TopRollbackPlan(h, s, UndoneAt(h, s, u), t).outcome
        == Success(RolledBack(Top(s), base.rollbackRef, base.restoredRef, base.receiptRef, !u.Untouched?))
  {
    hide RollbackPlan, IsPreviousUsable, IsIdentified, IsOwn, ReceiptRefOf, RestoredRefOf;
    ChecksThroughout(h, s, born, u);
    RollbackDecision(h, UndoneAt(h, s, u), Top(s), t);
    RestoredDiffers(h, s, born);
  }

  lemma {:induction false} UndoWritesNoRecord(h: Host, s: Store, u: Undoing, t: Clock, first: bool)
    requires IsLive(s.current) && Top(s) in s.deployments
    ensures forall i :: 0 <= i < |UndoWrites(h, s, u, t, first)| ==> !UndoWrites(h, s, u, t, first)[i].PutDeployment?
    decreases UndoLeft(u)
  {
    if !u.Completed? {
      UndoWritesNoRecord(h, s, UndoNext(u, t, first), t, first);
    }
  }

  lemma {:induction false} NoNewRecords(s: Store, born: Births, ws: seq<Write>)
    requires forall i :: 0 <= i < |ws| ==> !ws[i].PutDeployment?
    ensures BirthsAfter(s, born, ws) == born
    decreases |ws|
  {
    if ws != [] {
      NoNewRecords(Apply(s, ws[0]), born, ws[1..]);
    }
  }

  /** Undoing the top leaves the rest undoable exactly when it was and shares no receipt with the top. */
  lemma RestUndoable(h: Host, s: Store, s': Store, chain: seq<Pointer>)
    requires chain != [] && IsLive(s.current) && s.current.value == chain[0] && Top(s) in s.deployments
    requires IsUndoable(h, s, Top(s)) && s'.deployments == s.deployments && IsReceiptDone(h, s, s')
    requires forall i :: 0 < i < |chain| ==> chain[i].Live? && chain[i].bound.deploymentRef != Top(s)
    ensures IsFullyUndoable(h, s', chain[1..]) <==> IsFullyUndoable(h, s, chain)
  {
    hide ReceiptRefOf, RestoredRefOf;
    var rest := chain[1..];
    forall i | 0 <= i < |rest|
      ensures rest[i] == chain[i + 1] && ReceiptAt(h, s', rest[i]) == ReceiptAt(h, s, chain[i + 1])
      ensures IsUndoableAt(h, s', rest[i])
         <==> IsUndoableAt(h, s, chain[i + 1]) && ReceiptAt(h, s, chain[i + 1]) != ReceiptAt(h, s, chain[0])
    {
      assert ReceiptAt(h, s, chain[0]) == Some(TopBase(h, s).receiptRef);
    }
    hide IsUndoableAt, ReceiptAt;
    if IsFullyUndoable(h, s', rest) {
      TopUndoable(h, s, chain[0]);
      forall i, j | 0 <= i < j < |chain|
        ensures ReceiptAt(h, s, chain[i]) != ReceiptAt(h, s, chain[j])
      {
        assert IsUndoableAt(h, s', rest[j - 1]);
        if i > 0 {
          assert ReceiptAt(h, s', rest[i - 1]) != ReceiptAt(h, s', rest[j - 1]);
        }
      }
      forall i | 0 <= i < |chain|
        ensures IsUndoableAt(h, s, chain[i])
      {
        if i > 0 {
          assert IsUndoableAt(h, s', rest[i - 1]);
        }
      }
    }
  }

  lemma TopUndoable(h: Host, s: Store, p: Pointer)
    requires IsLive(s.current) && s.current.value == p && Top(s) in s.deployments && IsUndoable(h, s, Top(s))
    ensures IsUndoableAt(h, s, p)
  {
  }

  /** Repeated rollback goes through, in exactly as many calls as the chain is long, if and only
      if every deployment on it can be undone and no two share a receipt; it then leaves nothing. */
  lemma {:induction false} UndoAllEmpties(h: Host, s: Store, born: Births, clocks: seq<Clock>)
    requires CollisionFree(h.digest) && IsSound(h, s, born) && |clocks| == |LiveChain(s, born)|
    ensures UndoAll(h, s, clocks).Some? <==> IsFullyUndoable(h, s, LiveChain(s, born))
    ensures UndoAll(h, s, clocks).Some? ==> !IsLive(UndoAll(h, s, clocks).value.current)
    decreases |clocks|
  {
    OrderedIsLinked(s, born);
    var chain := LiveChain(s, born);
    if clocks != [] {
      assert chain[0] == s.current.value;
      ChainHasNoCycle(h, s, born);
      TopIsRecorded(h, s, born);
      TopRollback(h, s, born, clocks[0]);
      if IsUndoable(h, s, Top(s)) {
        var s' := ApplyAll(s, TopRollbackPlan(h, s, s, clocks[0]).writes);
        UndoTop(h, s, born, clocks[0]);
        hide LiveChain, IsSound, IsFullyUndoable, IsReceiptDone;
        RestUndoable(h, s, s', chain);
        UndoAllEmpties(h, s', born, clocks[1..]);
      } else {
        assert !IsUndoableAt(h, s, chain[0]);
      }
    }
  }

  lemma TopIsRecorded(h: Host, s: Store, born: Births)
    requires IsSound(h, s, born) && IsLive(s.current)
    ensures Top(s) in s.deployments
  {
  }

  // ---------------------------------------------------------------- how a deployment gets stuck

  /** The state after a deployment of `q` died before its record was activated, its
      rollback was then completed, both starting from `s`. */
  function CrashedAndUndone(h: Host, s: Store, q: DeployRequest, p: Progress, t: Clock): Store
    requires Refusal(h, q).None? && p.Moved?
  {
    var s1 := StateAt(h, s, q, p);
    ApplyAll(s1, TopRollbackPlan(h, s1, s1, t).writes)
  }

  lemma UndoOfCrashed(h: Host, s: Store, born: Births, q: DeployRequest, p: Progress, t: Clock)
    requires CollisionFree(h.digest) && IsDeployable(h, s, q) && DeployRef(q) !in s.deployments && p.Moved?
    requires IsSound(h, StateAt(h, s, q, p), born)
    requires TopBase(h, StateAt(h, s, q, p)).receiptRef !in s.rollbacks
    ensures var s1, s2 := StateAt(h, s, q, p), CrashedAndUndone(h, s, q, p, t);
      var back := s.(rollbacks := s2.rollbacks);
      && TopRollbackPlan(h, s1, s1, t).outcome.Success?
      && TopBase(h, s1).receiptRef in s2.rollbacks && s2.rollbacks[TopBase(h, s1).receiptRef].status.Complete?
      && (s2.current == if IsLive(s.current) then s.current else Some(Inactive(s.targetRef)))
      && s2.(current := s.current) == StateAt(h, back, q, Recorded(p.created, p.prepared))
  {
    hide BundleOf, BundleFor, InstalledRelease, DeploymentRefOf, RollbackRefOf, ReceiptRefOf, VerifyRelease;
    hide PointerDigest, RollbackPlan, RestoredRefOf, IsSound;
    var s1 := StateAt(h, s, q, p);
    assert UndoneAt(h, s1, Untouched) == s1;
    UndoPlanned(h, s1, born, Untouched, t);
    UndoStepsApply(h, s1, Untouched, t, true, 3);
    var ws := TopRollbackPlan(h, s1, s1, t).writes;
    assert ws[..3] == ws;
  }

  /** On top, activated, and its rollback recorded as complete. */
  predicate IsStuckOnTop(h: Host, s: Store, dep: string) {
    && IsAt(s.current, dep) && dep in s.deployments
    && s.deployments[dep].status.Activated?
    && ReceiptRefFor(h, s, dep) in s.rollbacks
    && s.rollbacks[ReceiptRefFor(h, s, dep)].status.Complete?
  }

  lemma Repushed(h: Host, s: Store, born: Births, q: DeployRequest, r: Progress, t: Clock)
    requires CollisionFree(h.digest) && IsOrdered(s, born) && IsOwn(s)
    requires IsDeployable(h, s, q) && DeployRef(q) !in s.deployments && r.Recorded?
    requires var ref := ReceiptRefOf(h, DeployRef(q), RollbackRefOf(h, q.stage, DeployRef(q)));
      ref in s.rollbacks && s.rollbacks[ref].status.Complete?
    ensures var s2 := StateAt(h, s, q, r); var replay := DeployPlan(h, s2, q, t);
      replay.outcome.Success? && IsStuckOnTop(h, ApplyAll(s2, replay.writes), DeployRef(q))
  {
    hide BundleOf, InstalledRelease, DeployPlan, RollbackRefOf, DeploymentRefOf, ReceiptRefOf, VerifyRelease;
    hide PointerDigest, StepWrite, Refusal;
    PlanAt(h, s, born, q, r, t);
    StepsApply(h, s, q, r, t, false, 2);
    var ws := StepWrites(h, s, q, r, t, false);
    assert ws[..2] == ws;
    var done := After(r, t, false, 2);
    assert ApplyAll(StateAt(h, s, q, r), ws) == StateAt(h, s, q, done);
  }

  /** After that, replaying the deployment succeeds exactly when the target already had a
      pointer before it; then the deployment is back on top with its rollback recorded
      as complete. On a target never deployed to, the replay is refused. */
  lemma ReplayAfterUndo(h: Host, s: Store, born0: Births, born: Births, q: DeployRequest, p: Progress, t: Clock,
                        t': Clock)
    requires CollisionFree(h.digest) && IsSound(h, s, born0)
    requires IsDeployable(h, s, q) && DeployRef(q) !in s.deployments && p.Moved?
    requires IsSound(h, StateAt(h, s, q, p), born)
    requires TopBase(h, StateAt(h, s, q, p)).receiptRef !in s.rollbacks
    ensures var s2 := CrashedAndUndone(h, s, q, p, t);
      var replay := DeployPlan(h, s2, q, t');
      && (replay.outcome.Success? <==> s.current.Some?)
      && (replay.outcome.Success? ==> IsStuckOnTop(h, ApplyAll(s2, replay.writes), DeployRef(q)))
  {
    hide BundleOf, BundleFor, InstalledRelease, RollbackRefOf, DeploymentRefOf, ReceiptRefOf, VerifyRelease;
    hide PointerDigest, RollbackPlan;
    var s2 := CrashedAndUndone(h, s, q, p, t);
    var back := s.(rollbacks := s2.rollbacks);
    var r := Recorded(p.created, p.prepared);
    UndoOfCrashed(h, s, born, q, p, t);
    SoundIsOwn(h, s, born0);
    OrderIgnoresRollbacks(s, born0, s2.rollbacks);
    hide CrashedAndUndone, IsSound, DeployPlan, IsStuckOnTop;
    assert IsDeployable(h, back, q);
    if s.current.Some? {
      assert s2 == StateAt(h, back, q, r);
      Repushed(h, back, born0, q, r, t');
    } else {
      EmptyIsNotInactive(h, back, q, r, t', s2);
    }
  }

  lemma OrderIgnoresRollbacks(s: Store, born: Births, rollbacks: map<string, Rollback>)
    requires IsOrdered(s, born)
    ensures IsOrdered(s.(rollbacks := rollbacks), born)
  {
    forall dep | dep in s.deployments
      ensures IsPlaced(s.(rollbacks := rollbacks), born, dep)
    {
      assert IsPlaced(s, born, dep);
    }
  }

  /** A prepared record made on an empty target cannot be reconciled with the explicit
      inactive pointer that its rollback wrote. */
  lemma EmptyIsNotInactive(h: Host, s: Store, q: DeployRequest, p: Progress, t: Clock, s2: Store)
    requires CollisionFree(h.digest) && IsDeployable(h, s, q) && p.Recorded?
    requires s.current.None? && s2 == StateAt(h, s, q, p).(current := Some(Inactive(s.targetRef)))
    ensures DeployPlan(h, s2, q, t).outcome.Failure?
  {
    hide BundleOf, InstalledRelease, RollbackRefOf, DeploymentRefOf, PointerJson;
    ServedThroughout(h, s, q, p, t);
    assert InstallWrites(h, s2, q, t) == [];
    if PointerDigest(h, s2.current) == PointerDigest(h, None) {
      PointerDigestInjective(h, s2.current, None);
    }
  }
}
