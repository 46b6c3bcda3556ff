/** What the operations on a target answer, said of `current` and the records alone: when each
    succeeds, and what then holds. */
module TargetAnswers {
  import opened Json
  import opened ReleaseFiles
  import opened ReleaseTarget
  import opened TargetInvariant
  import opened TargetSoundness
  import opened TargetPlans
  import opened TargetRuns
  import opened TargetHistory

  // ---------------------------------------------------------------- deploy

  /** The stored deployment was asked for in the same words. */
  predicate IsOwnRequest(q: DeployRequest, d: Deployment) {
    && d.bound.stage == q.stage && d.bound.manifestDigest == q.expectedDigest && d.idempotencyKey == q.idempotencyKey
  }

  /** Where `current` has to be for a deployment that is on record: an ACTIVE one on top; one that
      died before that on top, or not yet moved to. */
  predicate IsResumable(s: Store, dep: string)
    requires dep in s.deployments
  {
    var d := s.deployments[dep];
    || (IsLive(s.current) && s.current.value.bound.deploymentRef == dep)
    || (d.status.Prepared? && s.current == d.previous)
  }

  /** The release under the digest, already there or made of this bundle, has its inventory. */
  predicate IsBundleInstalled(h: Host, s: Store, q: DeployRequest, t: Clock)
    requires IsLoadable(h, q.manifest, q.expectedDigest, q.disk)
  {
    var ref, b := "releases/" + q.expectedDigest, BundleOf(h, q.manifest, q.expectedDigest, q.disk);
    var release := if ref in s.releases then s.releases[ref] else InstalledRelease(b, t.created);
    VerifyRelease(h, release, ref, q.expectedDigest) == Some(b.inventoryDigest)
  }

  lemma CurrentIsRecorded(h: Host, s: Store, born: Births)
    requires IsSound(h, s, born)
    ensures IsOwn(s)
    ensures IsLive(s.current) ==>
      var dep := s.current.value.bound.deploymentRef;
      dep in s.deployments && s.deployments[dep].bound == s.current.value.bound
      && IsServing(h, s, s.current.value.bound)
  {
    PointerVerifiable(h, s, born);
    if IsLive(s.current) {
      PreviousUsable(h, s, born, s.current.value.bound.deploymentRef);
    }
  }

  /** What is asked of a deployment before anything is looked at on the target. */
  predicate IsAcceptable(h: Host, q: DeployRequest) {
    && q.stage in {"preproduction", "production_canary", "production_full"}
    && IsHex(q.idempotencyKey, 64) && q.authorized && !q.overlaps
    && IsLoadable(h, q.manifest, q.expectedDigest, q.disk)
    && h.strip("fs-deploy:" + q.stage + ":" + Take(q.expectedDigest, 12) + ":" + Take(q.idempotencyKey, 12)) != ""
  }

  lemma AcceptableExactly(h: Host, q: DeployRequest)
    ensures IsAcceptable(h, q) <==> Refusal(h, q).None?
  {
    hide IsLoadable, IsHex;
  }

  /** What a successful deployment leaves: its pointer on top, its record ACTIVE for that very
      pointer, its release served with the reported inventory. */
  predicate IsDeployed(h: Host, s: Store, q: DeployRequest, receipt: Receipt, wasRecorded: bool) {
    var dep := DeployRef(q);
    && s.current.Some? && s.current.value.Live? && dep in s.deployments
    && var bound, d := s.current.value.bound, s.deployments[dep];
    && bound.deploymentRef == dep && bound.manifestDigest == q.expectedDigest && bound.stage == q.stage
    && bound.targetRef == s.targetRef && d.bound == bound && d.idempotencyKey == q.idempotencyKey
    && d.status.Activated? && d.status.pointerDigest == PointerDigest(h, s.current)
    && bound.releaseRef in s.releases
    && VerifyRelease(h, s.releases[bound.releaseRef], bound.releaseRef, bound.manifestDigest)
       == Some(bound.inventoryDigest)
    && receipt == Deployed(dep, d.rollbackRef, q.expectedDigest, bound.inventoryDigest, bound.releaseRef, wasRecorded)
  }

  lemma FreshAnswer(h: Host, s: Store, q: DeployRequest, t: Clock)
    requires Refusal(h, q).None? && IsOwn(s) && IsServing(h, s, BindingFor(h, s, q))
    ensures var plan := FreshPlan(h, s, q, t);
      plan.outcome.Success? && IsDeployed(h, ApplyAll(s, plan.writes), q, plan.outcome.receipt, false)
  {
    hide BundleFor, VerifyRelease, PointerJson, Refusal, DeploymentRefOf, RollbackRefOf;
    ThreeWrites(s, FreshPlan(h, s, q, t).writes);
  }

  /** A recorded deployment, on a target that still has its release. */
  lemma ReplayAnswer(h: Host, s: Store, born: Births, q: DeployRequest, t: Clock)
    requires CollisionFree(h.digest) && IsSound(h, s, born) && DeployRef(q) in s.deployments
    ensures var d := s.deployments[DeployRef(q)]; var plan := ReplayPlan(h, s, q, d, t);
      && (plan.outcome.Success? <==> IsOwnRequest(q, d) && d.bound.releaseRef == ReleaseRefOf(q.expectedDigest)
                                     && IsResumable(s, DeployRef(q)))
      && (plan.outcome.Success? ==> IsDeployed(h, ApplyAll(s, plan.writes), q, plan.outcome.receipt, true))
      && (plan.outcome.Success? && d.status.Activated? ==> plan.writes == [])
  {
    hide VerifyRelease, PointerJson, DeploymentRefOf, RollbackRefOf, CollisionFree;
    var dep := DeployRef(q);
    var d := s.deployments[dep];
    var plan := ReplayPlan(h, s, q, d, t);
    CurrentIsRecorded(h, s, born);
    TopKeepsDigest(h, s, born);
    assert IsPlaced(s, born, dep) && IsIdentified(h, dep, d) && IsServing(h, s, d.bound);
    if PointerDigest(h, s.current) == PointerDigest(h, d.previous) {
      PointerDigestInjective(h, s.current, d.previous);
    }
    hide PointerDigest, IsSound;
    if plan.outcome.Success? {
      ThreeWrites(s, plan.writes);
    }
  }

  lemma TopKeepsDigest(h: Host, s: Store, born: Births)
    requires IsSound(h, s, born)
    ensures IsLive(s.current) ==>
      var dep := s.current.value.bound.deploymentRef;
      dep in s.deployments
      && (s.deployments[dep].status.Activated? ==>
            s.deployments[dep].status.pointerDigest == PointerDigest(h, s.current))
  {
    OrderedIsLinked(s, born);
    CurrentIsRecorded(h, s, born);
    if IsLive(s.current) {
      assert LiveChain(s, born)[0] == s.current.value;
      assert IsDigestKept(h, s.deployments, LiveChain(s, born)[0]);
    }
  }

  /** What a deployment answers on any sound target. It succeeds if and only if it is acceptable,
      its bundle is installed or can be, and, where it is on record already, the record is its own
      and `current` shows it, or, for one that died before it was ACTIVE, still what was there
      before. Then it is on top and served, with its record ACTIVE for it; and repeating one that
      is ACTIVE writes nothing. */
  lemma DeployAnswer(h: Host, s: Store, born: Births, q: DeployRequest, t: Clock)
    requires CollisionFree(h.digest) && IsSound(h, s, born)
    ensures var plan, dep := DeployPlan(h, s, q, t), DeployRef(q);
      && (plan.outcome.Success? <==>
            && IsAcceptable(h, q) && IsBundleInstalled(h, s, q, t)
            && (dep in s.deployments ==>
                  && IsOwnRequest(q, s.deployments[dep])
                  && s.deployments[dep].bound.releaseRef == "releases/" + q.expectedDigest
                  && IsResumable(s, dep)))
      && (plan.outcome.Success? ==>
            && IsDeployed(h, ApplyAll(s, plan.writes), q, plan.outcome.receipt, dep in s.deployments)
            && (dep in s.deployments && s.deployments[dep].status.Activated? ==> plan.writes == []))
  {
    AcceptableExactly(h, q);
    var dep := DeployRef(q);
    if Refusal(h, q).None? && IsInstalled(h, s, q, t) {
      InstallLawful(h, s, born, q, t);
      var install := InstallWrites(h, s, q, t);
      var s1 := ApplyAll(s, install);
      CurrentIsRecorded(h, s, born);
      if dep in s.deployments {
        var d := s.deployments[dep];
        assert IsServing(h, s, d.bound);
        ReplayAnswer(h, s1, born, q, t);
        ReplayLawful(h, s1, q, t);
        hide VerifyRelease, BundleOf, ReplayPlan, IsSound, IsDeployed, IsResumable, DeploymentRefOf, Refusal;
        LawfulAppend(h, s, install, ReplayPlan(h, s1, q, d, t).writes);
      } else {
        FreshAnswer(h, s1, q, t);
        FreshLawful(h, s1, q, t);
        hide VerifyRelease, BundleOf, FreshPlan, IsSound, IsDeployed, DeploymentRefOf, Refusal;
        LawfulAppend(h, s, install, FreshPlan(h, s1, q, t).writes);
      }
    }
  }

  /** So repeating the deployment of what is ACTIVE succeeds exactly while it is on top: once
      another one replaced it, or it was rolled back, the repeat is refused. */
  lemma ActiveRepeat(h: Host, s: Store, born: Births, q: DeployRequest, t: Clock)
    requires CollisionFree(h.digest) && IsSound(h, s, born) && IsAcceptable(h, q) && IsBundleInstalled(h, s, q, t)
    requires DeployRef(q) in s.deployments && s.deployments[DeployRef(q)].status.Activated?
    requires IsOwnRequest(q, s.deployments[DeployRef(q)])
    requires s.deployments[DeployRef(q)].bound.releaseRef == "releases/" + q.expectedDigest
    ensures var plan := DeployPlan(h, s, q, t);
      && (plan.outcome.Success? <==> s.current.Some? && s.current.value.Live?
                                     && s.current.value.bound.deploymentRef == DeployRef(q))
      && (plan.outcome.Success? ==> plan.writes == [] && IsDeployed(h, s, q, plan.outcome.receipt, true))
  {
    hide IsDeployed, DeployPlan, IsAcceptable, IsBundleInstalled, IsSound, DeploymentRefOf;
    DeployAnswer(h, s, born, q, t);
  }

  // ---------------------------------------------------------------- verify and readback

  /** Verification succeeds exactly for the recorded fields of the deployment on top, writes its
      one receipt and reports the inventory that is served. */
  lemma VerifyAnswer(h: Host, s: Store, born: Births, stage: string, dep: string, rollbackRef: string, digest: string)
    requires IsSound(h, s, born)
    ensures var plan := VerifyPlan(h, s, stage, dep, rollbackRef, digest);
      && (plan.outcome.Success? <==>
            && dep in s.deployments && s.deployments[dep].bound.stage == stage
            && s.deployments[dep].rollbackRef == rollbackRef && s.deployments[dep].bound.manifestDigest == digest
            && s.current.Some? && s.current.value.Live? && s.current.value.bound.deploymentRef == dep)
      && (plan.outcome.Success? ==>
            var receipt := Verified(stage, dep, VerificationRefOf(h, dep, digest), digest,
                                    s.current.value.bound.inventoryDigest);
            plan.outcome.receipt == receipt && plan.writes == [PutVerification(receipt.verificationRef, receipt)])
      && (plan.outcome.Failure? ==> plan.writes == [])
  {
    hide VerifyRelease, VerificationRefOf, RollbackRefOf;
    CurrentIsRecorded(h, s, born);
    if dep in s.deployments {
      assert IsPlaced(s, born, dep) && IsIdentified(h, dep, s.deployments[dep]);
    }
  }

  /** Readback succeeds exactly for the digest that is live, and says whose it is. */
  lemma ReadbackAnswer(h: Host, s: Store, born: Births, digest: string)
    requires IsSound(h, s, born)
    ensures var plan := ReadbackPlan(h, s, digest);
      && (plan.outcome.Success? <==>
            s.current.Some? && s.current.value.Live? && s.current.value.bound.manifestDigest == digest)
      && (plan.outcome.Success? ==>
            var b := s.current.value.bound;
            var receipt := ReadBack(ReadbackRefOf(h, s.targetRef, digest, b.deploymentRef), b.deploymentRef, digest,
                                    b.inventoryDigest);
            plan.outcome.receipt == receipt && plan.writes == [PutReadback(receipt.readbackRef, receipt)])
      && (plan.outcome.Failure? ==> plan.writes == [])
  {
    hide VerifyRelease, ReadbackRefOf, RollbackRefOf;
    CurrentIsRecorded(h, s, born);
    if IsLive(s.current) {
      var dep := s.current.value.bound.deploymentRef;
      assert IsIdentified(h, dep, s.deployments[dep]);
    }
  }

  // ---------------------------------------------------------------- rollback

  function PutBack(s: Store, d: Deployment): Pointer {
    if d.previous.Some? && d.previous.value.Live? then d.previous.value else Inactive(s.targetRef)
  }

  predicate IsOnTop(s: Store, dep: string) {
    s.current.Some? && s.current.value.Live? && s.current.value.bound.deploymentRef == dep
  }

  /** Whether a rollback can go on, by how far an earlier one came. */
  predicate CanRollBack(h: Host, s: Store, dep: string)
    requires dep in s.deployments
  {
    var d := s.deployments[dep];
    var ref := ReceiptRefFor(h, s, dep);
    if ref !in s.rollbacks then IsOnTop(s, dep)
    else
      && s.rollbacks[ref].base.deploymentRef == dep
      && (s.current == Some(PutBack(s, d)) || (s.rollbacks[ref].status.Pending? && IsOnTop(s, dep)))
  }

  /** A rollback succeeds exactly when it names a recorded deployment by its own stage and rollback
      reference, and that deployment is on top with no receipt yet, or its own receipt is there and
      `current` is what the rollback puts back, or an unfinished one is and it is still on top. Then
      `current` is what lay below, the receipt is complete and its own, and nothing else changed. */
  lemma RollbackAnswer(h: Host, s: Store, born: Births, stage: string, dep: string, rollbackRef: string, t: Clock)
    requires CollisionFree(h.digest) && IsSound(h, s, born)
    ensures var plan := RollbackPlan(h, s, stage, dep, rollbackRef, t); var s' := ApplyAll(s, plan.writes);
      && (plan.outcome.Success? <==>
            && dep in s.deployments && s.deployments[dep].bound.stage == stage
            && s.deployments[dep].rollbackRef == rollbackRef && CanRollBack(h, s, dep))
      && (plan.outcome.Success? ==>
            var d, ref := s.deployments[dep], ReceiptRefFor(h, s, dep);
            && s'.current == Some(PutBack(s, d))
            && ref in s'.rollbacks && s'.rollbacks[ref].status.Complete? && s'.rollbacks[ref].base.deploymentRef == dep
            && s' == s.(current := s'.current, rollbacks := s.rollbacks[ref := s'.rollbacks[ref]])
            && plan.outcome.receipt == RolledBack(dep, rollbackRef, RestoredRefOf(h, d, dep), ref, ref in s.rollbacks))
      && (plan.outcome.Failure? ==> plan.writes == [])
  {
    hide UndoPlan, ReceiptRefOf, RestoredRefOf, CanRollBack, IsSound, BaseFor, Restored, PutBack, PointerDigest;
    RollbackChecks(h, s, born, stage, dep, rollbackRef, t);
    if dep in s.deployments {
      UndoAnswer(h, s, born, dep, t);
    }
  }

  /** The checks before anything is undone. */
  lemma RollbackChecks(h: Host, s: Store, born: Births, stage: string, dep: string, rollbackRef: string, t: Clock)
    requires IsSound(h, s, born)
    ensures var plan := RollbackPlan(h, s, stage, dep, rollbackRef, t);
      if && dep in s.deployments
         && s.deployments[dep].bound.stage == stage && s.deployments[dep].rollbackRef == rollbackRef then
        plan == UndoPlan(h, s, s.deployments[dep], dep, BaseFor(h, s, s.deployments[dep], dep), t)
      else plan.outcome.Failure? && plan.writes == []
  {
    hide VerifyRelease, UndoPlan, RollbackRefOf, IsPreviousUsable, BaseFor;
    if dep in s.deployments {
      assert IsPlaced(s, born, dep) && IsIdentified(h, dep, s.deployments[dep]);
      PreviousUsable(h, s, born, dep);
    }
  }

  /** The writes, by how far an earlier rollback came. */
  predicate UndoWritesAre(h: Host, s: Store, dep: string, t: Clock, ws: seq<Write>)
    requires dep in s.deployments
  {
    var d := s.deployments[dep];
    var base, back := BaseFor(h, s, d, dep), PutCurrent(PutBack(s, d));
    if base.receiptRef !in s.rollbacks then
      ws == [PutRollback(base.receiptRef, Rollback(base, t.prepared, Pending)), back,
             PutRollback(base.receiptRef, Rollback(base, t.prepared, Complete(t.finished, None)))]
    else
      var r := s.rollbacks[base.receiptRef];
      var done := PutRollback(base.receiptRef, r.(status := Complete(t.finished, Some(t.reconciled))));
      if r.status.Complete? then ws == []
      else if s.current == Some(PutBack(s, d)) then ws == [done] else ws == [back, done]
  }

  lemma UndoDecides(h: Host, s: Store, born: Births, dep: string, t: Clock)
    requires CollisionFree(h.digest) && IsSound(h, s, born) && dep in s.deployments
    ensures var d, ref := s.deployments[dep], ReceiptRefFor(h, s, dep);
      var plan := UndoPlan(h, s, d, dep, BaseFor(h, s, d, dep), t);
      && (plan.outcome.Success? <==> CanRollBack(h, s, dep))
      && (plan.outcome.Success? ==>
            && UndoWritesAre(h, s, dep, t, plan.writes)
            && plan.outcome.receipt
                 == RolledBack(dep, d.rollbackRef, RestoredRefOf(h, d, dep), ref, ref in s.rollbacks))
      && (plan.outcome.Failure? ==> plan.writes == [])
  {
    hide PointerJson, PointerDigest, CollisionFree, ReceiptRefOf, RestoredRefOf;
    var d := s.deployments[dep];
    var base, restored := BaseFor(h, s, d, dep), Some(Restored(d, s.targetRef));
    if base.receiptRef in s.rollbacks {
      assert IsBased(h, s, base.receiptRef, s.rollbacks[base.receiptRef]);
    }
    if PointerDigest(h, s.current) == PointerDigest(h, restored) {
      PointerDigestInjective(h, s.current, restored);
    }
    hide IsSound;
  }

  lemma UndoLeaves(h: Host, s: Store, born: Births, dep: string, t: Clock, ws: seq<Write>)
    requires IsSound(h, s, born) && dep in s.deployments && CanRollBack(h, s, dep) && UndoWritesAre(h, s, dep, t, ws)
    ensures var d, ref, s' := s.deployments[dep], ReceiptRefFor(h, s, dep), ApplyAll(s, ws);
      && s'.current == Some(PutBack(s, d))
      && ref in s'.rollbacks && s'.rollbacks[ref].status.Complete? && s'.rollbacks[ref].base.deploymentRef == dep
      && s' == s.(current := s'.current, rollbacks := s.rollbacks[ref := s'.rollbacks[ref]])
  {
    var ref := ReceiptRefFor(h, s, dep);
    if ref in s.rollbacks {
      assert s.rollbacks == s.rollbacks[ref := s.rollbacks[ref]];
    }
    hide IsSound, PointerDigest, ReceiptRefOf, RestoredRefOf;
    ThreeWrites(s, ws);
  }

  lemma UndoAnswer(h: Host, s: Store, born: Births, dep: string, t: Clock)
    requires CollisionFree(h.digest) && IsSound(h, s, born) && dep in s.deployments
    ensures var d, ref := s.deployments[dep], ReceiptRefFor(h, s, dep);
      var plan := UndoPlan(h, s, d, dep, BaseFor(h, s, d, dep), t); var s' := ApplyAll(s, plan.writes);
      && (plan.outcome.Success? <==> CanRollBack(h, s, dep))
      && (plan.outcome.Success? ==>
            && s'.current == Some(PutBack(s, d))
            && ref in s'.rollbacks && s'.rollbacks[ref].status.Complete? && s'.rollbacks[ref].base.deploymentRef == dep
            && s' == s.(current := s'.current, rollbacks := s.rollbacks[ref := s'.rollbacks[ref]])
            && plan.outcome.receipt
                 == RolledBack(dep, d.rollbackRef, RestoredRefOf(h, d, dep), ref, ref in s.rollbacks))
      && (plan.outcome.Failure? ==> plan.writes == [])
  {
    hide UndoPlan, ReceiptRefFor, RestoredRefOf, CanRollBack, IsSound, BaseFor, UndoWritesAre, PutBack;
    var d := s.deployments[dep];
    var plan := UndoPlan(h, s, d, dep, BaseFor(h, s, d, dep), t);
    UndoDecides(h, s, born, dep, t);
    if plan.outcome.Success? {
      UndoLeaves(h, s, born, dep, t, plan.writes);
    }
  }
}
