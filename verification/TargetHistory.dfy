/** What the invariant means for the operator: which deployments come back, which can
    still be undone, and what the read-only operations report. */
module TargetHistory {
  import opened Json
  import opened ReleaseFiles
  import opened ReleaseTarget
  import opened TargetInvariant
  import opened TargetSoundness
  import opened TargetPlans
  import opened TargetRuns

  ghost predicate IsOnChain(s: Store, born: Births, dep: string)
    requires IsOrdered(s, born)
  {
    exists i :: 0 <= i < |LiveChain(s, born)| && LiveChain(s, born)[i].Live?
        && LiveChain(s, born)[i].bound.deploymentRef == dep
  }

  // ---------------------------------------------------------------- popped stays popped

  /** Activated and no longer on the chain. */
  ghost predicate IsRetired(s: Store, born: Births, dep: string)
    requires IsOrdered(s, born)
  {
    dep in s.deployments && s.deployments[dep].status.Activated? && !IsOnChain(s, born, dep)
  }

  lemma WriteKeepsRetired(h: Host, s: Store, born: Births, w: Write, dep: string)
    requires IsSound(h, s, born) && IsLawful(h, s, w) && IsRetired(s, born, dep)
    ensures IsOrdered(Apply(s, w), NextBirths(s, born, w))
    ensures IsRetired(Apply(s, w), NextBirths(s, born, w), dep)
  {
    ChainStep(s, born, w);
    var chain, chain' := LiveChain(s, born), LiveChain(Apply(s, w), NextBirths(s, born, w));
    forall i | 0 <= i < |chain'| && chain'[i].Live?
      ensures chain'[i].bound.deploymentRef != dep
    {
      match Effect(s, w)
      case Push(p) => if i > 0 { assert chain'[i] == chain[i - 1]; }
      case Pop => assert chain'[i] == chain[i + 1];
      case Stay => assert chain'[i] == chain[i];
    }
  }

  /** A consistent system in which the deployment is activated and no longer on the chain. */
  ghost predicate HasRetired(h: Host, a: System, dep: string) {
    IsConsistent(h, a) && IsRetired(a.store, a.born, dep)
  }

  lemma EventKeepsRetired(h: Host, a: System, e: Event, b: System, dep: string)
    requires CollisionFree(h.digest) && HasRetired(h, a, dep) && Next(h, a, e, b)
    ensures HasRetired(h, b, dep)
  {
    NextConsistent(h, a, e, b);
    if e.Commit? {
      WriteKeepsRetired(h, a.store, a.born, a.pending[0], dep);
    }
  }

  /** Once an activated deployment has been popped, no later event of any process, replay
      or not, puts it back on the chain. */
  lemma {:induction false} RetiredForever(h: Host, states: seq<System>, events: seq<Event>, dep: string)
    requires CollisionFree(h.digest) && IsRun(h, states, events) && HasRetired(h, states[0], dep)
    ensures forall i :: 0 <= i < |states| ==> HasRetired(h, states[i], dep)
    decreases |events|
  {
    hide Next, HasRetired;
    if events != [] {
      EventKeepsRetired(h, states[0], events[0], states[1], dep);
      RetiredForever(h, states[1..], events[1..], dep);
      forall i | 0 <= i < |states|
        ensures HasRetired(h, states[i], dep)
      {
        if i > 0 {
          assert states[1..][i - 1] == states[i];
        }
      }
    }
  }

  // ---------------------------------------------------------------- which rollbacks succeed

  function ReceiptRefFor(h: Host, s: Store, dep: string): string
    requires dep in s.deployments
  {
    ReceiptRefOf(h, dep, s.deployments[dep].rollbackRef)
  }

  /** No receipt under this deployment's reference, or its own unfinished one. */
  predicate IsUndoable(h: Host, s: Store, dep: string)
    requires dep in s.deployments
  {
    var ref := ReceiptRefFor(h, s, dep);
    ref in s.rollbacks ==> s.rollbacks[ref].base.deploymentRef == dep && s.rollbacks[ref].status.Pending?
  }

  lemma PreviousUsable(h: Host, s: Store, born: Births, dep: string)
    requires IsSound(h, s, born) && dep in s.deployments
    ensures IsPreviousUsable(h, s, s.deployments[dep])
    ensures IsOwn(s)
  {
    var d := s.deployments[dep];
    assert IsPlaced(s, born, dep);
    if IsLive(d.previous) {
      var prior := d.previous.value.bound.deploymentRef;
      assert IsPlaced(s, born, prior);
      assert IsIdentified(h, prior, s.deployments[prior]);
      assert IsServing(h, s, s.deployments[prior].bound);
    }
    if IsLive(s.current) {
      assert IsPlaced(s, born, s.current.value.bound.deploymentRef);
    }
  }

  /** A deployment's pointer never equals what its rollback restores. */
  lemma RestoredDiffers(h: Host, s: Store, born: Births)
    requires CollisionFree(h.digest) && IsSound(h, s, born) && IsLive(s.current)
    ensures var d := s.deployments[s.current.value.bound.deploymentRef];
      PointerDigest(h, s.current) != PointerDigest(h, Some(Restored(d, s.targetRef)))
  {
    var dep := s.current.value.bound.deploymentRef;
    assert IsPlaced(s, born, dep);
    var restored := Some(Restored(s.deployments[dep], s.targetRef));
    if PointerDigest(h, s.current) == PointerDigest(h, restored) {
      PointerDigestInjective(h, s.current, restored);
    }
  }

  /** Rolling back the top deployment, asked for with its own stage and rollback
      reference, succeeds exactly when it is undoable; and then it pops the chain. */
  lemma TopRollback(h: Host, s: Store, born: Births, t: Clock)
    requires CollisionFree(h.digest) && IsSound(h, s, born) && IsLive(s.current)
    ensures var dep := s.current.value.bound.deploymentRef; var d := s.deployments[dep];
      var plan := RollbackPlan(h, s, d.bound.stage, dep, d.rollbackRef, t);
      && (plan.outcome.Success? <==> IsUndoable(h, s, dep))
      && (plan.outcome.Success? ==>
            ApplyAll(s, plan.writes).current == Some(Restored(d, s.targetRef))
            && ApplyAll(s, plan.writes).deployments == s.deployments)
  {
    hide VerifyRelease, PointerJson, PointerDigest, DeploymentRefOf, RollbackRefOf, IsPreviousUsable, CollisionFree;
    hide AreServed, AreDigestsKept;
    var dep := s.current.value.bound.deploymentRef;
    var d := s.deployments[dep];
    assert IsPlaced(s, born, dep);
    assert IsIdentified(h, dep, d);
    PreviousUsable(h, s, born, dep);
    RestoredDiffers(h, s, born);
    var base := BaseFor(h, s, d, dep);
    if base.receiptRef in s.rollbacks {
      assert IsBased(h, s, base.receiptRef, s.rollbacks[base.receiptRef]);
    }
    var plan := RollbackPlan(h, s, d.bound.stage, dep, d.rollbackRef, t);
    if plan.outcome.Success? {
      ThreeWrites(s, plan.writes);
    }
  }

  /** Unfolds the effect of the at most three writes of a rollback. */
  lemma ThreeWrites(s: Store, ws: seq<Write>)
    requires |ws| <= 3
    ensures ApplyAll(s, ws) ==
      if |ws| == 0 then s
      else if |ws| == 1 then Apply(s, ws[0])
      else if |ws| == 2 then Apply(Apply(s, ws[0]), ws[1])
      else Apply(Apply(Apply(s, ws[0]), ws[1]), ws[2])
  {
    if |ws| > 1 {
      var rest := ws[1..];
      assert ApplyAll(s, ws) == ApplyAll(Apply(s, ws[0]), rest);
      assert rest[0] == ws[1];
      assert ApplyAll(Apply(s, ws[0]), rest) == ApplyAll(Apply(Apply(s, ws[0]), rest[0]), rest[1..]);
      assert |ws| == 3 ==> rest[1..] == [ws[2]];
    }
  }

  // ---------------------------------------------------------------- stuck deployments

  /** On the chain although its rollback is already recorded as complete. */
  ghost predicate IsStuck(h: Host, s: Store, born: Births, dep: string)
    requires IsOrdered(s, born)
  {
    && dep in s.deployments && IsOnChain(s, born, dep)
    && var ref := ReceiptRefFor(h, s, dep);
    && ref in s.rollbacks && s.rollbacks[ref].status.Complete?
  }

  /** What is on the chain stays there, unless it is popped off the top. */
  lemma StaysOnChain(s: Store, born: Births, w: Write, dep: string)
    requires IsOrdered(s, born) && IsOrderly(s, w) && IsOnChain(s, born, dep)
    requires Effect(s, w) == Pop ==> !IsAt(s.current, dep)
    ensures IsOrdered(Apply(s, w), NextBirths(s, born, w))
    ensures IsOnChain(Apply(s, w), NextBirths(s, born, w), dep)
  {
    ChainStep(s, born, w);
    OrderedIsLinked(s, born);
    var chain, chain' := LiveChain(s, born), LiveChain(Apply(s, w), NextBirths(s, born, w));
    hide IsOrdered, IsOrderly, Apply, NextBirths, LiveChain, Effect;
    var i :| 0 <= i < |chain| && chain[i].Live? && chain[i].bound.deploymentRef == dep;
    match Effect(s, w) {
      case Push(p) => assert chain'[i + 1] == chain[i];
      case Pop =>
        TopOfChain(s, born);
        assert i > 0 && chain'[i - 1] == chain[i];
      case Stay => assert chain'[i] == chain[i];
    }
  }

  lemma TopOfChain(s: Store, born: Births)
    requires IsOrdered(s, born)
    ensures LiveChain(s, born) != [] ==> s.current == Some(LiveChain(s, born)[0])
  {
  }

  /** Only a pending rollback pops. */
  lemma StuckIsNotPopped(h: Host, s: Store, w: Write, dep: string)
    requires IsLawful(h, s, w) && dep in s.deployments && Effect(s, w) == Pop
    requires ReceiptRefFor(h, s, dep) in s.rollbacks && s.rollbacks[ReceiptRefFor(h, s, dep)].status.Complete?
    ensures !IsAt(s.current, dep)
  {
    assert IsAnnounced(h, s);
  }

  /** A completed receipt stays, under the same reference. */
  lemma CompleteStays(h: Host, s: Store, w: Write, dep: string)
    requires IsLawful(h, s, w) && dep in s.deployments
    requires ReceiptRefFor(h, s, dep) in s.rollbacks && s.rollbacks[ReceiptRefFor(h, s, dep)].status.Complete?
    ensures var s' := Apply(s, w);
      && dep in s'.deployments && ReceiptRefFor(h, s', dep) in s'.rollbacks
      && s'.rollbacks[ReceiptRefFor(h, s', dep)].status.Complete?
  {
    assert ReceiptRefFor(h, Apply(s, w), dep) == ReceiptRefFor(h, s, dep);
  }

  lemma WriteKeepsStuck(h: Host, s: Store, born: Births, w: Write, dep: string)
    requires IsSound(h, s, born) && IsLawful(h, s, w) && IsStuck(h, s, born, dep)
    ensures IsOrdered(Apply(s, w), NextBirths(s, born, w))
    ensures IsStuck(h, Apply(s, w), NextBirths(s, born, w), dep)
  {
    if Effect(s, w) == Pop {
      StuckIsNotPopped(h, s, w, dep);
    }
    CompleteStays(h, s, w, dep);
    hide Apply, NextBirths, Effect, IsOrderly, IsTruthful, ReceiptRefFor;
    StaysOnChain(s, born, w, dep);
  }

  /** A consistent system in which the deployment is on the chain and its rollback recorded as complete. */
  ghost predicate HasStuck(h: Host, a: System, dep: string) {
    IsConsistent(h, a) && IsStuck(h, a.store, a.born, dep)
  }

  lemma EventKeepsStuck(h: Host, a: System, e: Event, b: System, dep: string)
    requires CollisionFree(h.digest) && HasStuck(h, a, dep) && Next(h, a, e, b)
    ensures HasStuck(h, b, dep)
  {
    NextConsistent(h, a, e, b);
    if e.Commit? {
      WriteKeepsStuck(h, a.store, a.born, a.pending[0], dep);
    }
  }

  /** Whenever a stuck deployment is on top, its rollback is refused. */
  lemma StuckRefused(h: Host, s: Store, born: Births, dep: string, t: Clock)
    requires CollisionFree(h.digest) && IsSound(h, s, born) && IsStuck(h, s, born, dep) && IsAt(s.current, dep)
    ensures RollbackPlan(h, s, s.deployments[dep].bound.stage, dep, s.deployments[dep].rollbackRef, t).outcome.Failure?
  {
    TopRollback(h, s, born, t);
  }

  /** A stuck deployment stays on the chain in every later state of every run. */
  lemma {:induction false} StuckForever(h: Host, states: seq<System>, events: seq<Event>, dep: string)
    requires CollisionFree(h.digest) && IsRun(h, states, events) && HasStuck(h, states[0], dep)
    ensures forall i :: 0 <= i < |states| ==> HasStuck(h, states[i], dep)
    decreases |events|
  {
    hide Next, HasStuck;
    if events != [] {
      EventKeepsStuck(h, states[0], events[0], states[1], dep);
      StuckForever(h, states[1..], events[1..], dep);
      forall i | 0 <= i < |states|
        ensures HasStuck(h, states[i], dep)
      {
        if i > 0 {
          assert states[1..][i - 1] == states[i];
        }
      }
    }
  }

  // ---------------------------------------------------------------- verify and readback

  /** For the top deployment, verification under its own references and readback of its
      digest succeed in every sound state, and report its inventory. */
  lemma TopIsVerifiable(h: Host, s: Store, born: Births)
    requires IsSound(h, s, born) && IsLive(s.current)
    ensures var b := s.current.value.bound; var d := s.deployments[b.deploymentRef];
      var verify := VerifyPlan(h, s, b.stage, b.deploymentRef, d.rollbackRef, b.manifestDigest);
      var readback := ReadbackPlan(h, s, b.manifestDigest);
      && verify.outcome.Success? && verify.outcome.receipt.Verified?
      && verify.outcome.receipt.inventoryDigest == b.inventoryDigest
      && readback.outcome.Success? && readback.outcome.receipt.ReadBack?
      && readback.outcome.receipt.deploymentRef == b.deploymentRef
      && readback.outcome.receipt.inventoryDigest == b.inventoryDigest
  {
    var dep := s.current.value.bound.deploymentRef;
    assert IsPlaced(s, born, dep);
    assert IsIdentified(h, dep, s.deployments[dep]);
    PointerVerifiable(h, s, born);
    PreviousUsable(h, s, born, dep);
  }

  /** What `Restored` leaves under `current`, and what its release holds. */
  function RestoredInventory(d: Deployment): string {
    if IsLive(d.previous) then d.previous.value.bound.inventoryDigest else ""
  }

  /** Are these the fields of a completed rollback receipt? */
  predicate IsReceiptOf(s: Store, stage: string, dep: string, rollbackRef: string, restoredRef: string, ref: string) {
    && ref in s.rollbacks && s.rollbacks[ref].status.Complete?
    && s.rollbacks[ref].base.stage == stage && s.rollbacks[ref].base.deploymentRef == dep
    && s.rollbacks[ref].base.rollbackRef == rollbackRef && s.rollbacks[ref].base.restoredRef == restoredRef
  }

  /** Rollback verification succeeds exactly for the fields of a completed receipt while
      `current` is still what that rollback put back; it then reports the inventory of the
      release below the one rolled back, and writes nothing. */
  lemma RollbackIsVerifiable(h: Host, s: Store, born: Births,
      stage: string, dep: string, rollbackRef: string, restoredRef: string, ref: string)
    requires CollisionFree(h.digest) && IsSound(h, s, born) && !IsBlank(h, ref)
    ensures var plan := VerifyRollbackPlan(h, s, stage, dep, rollbackRef, restoredRef, ref);
      && plan.writes == []
      && (IsReceiptOf(s, stage, dep, rollbackRef, restoredRef, ref) ==> dep in s.deployments)
      && (plan.outcome.Success? <==>
            && IsReceiptOf(s, stage, dep, rollbackRef, restoredRef, ref)
            && s.current == Some(Restored(s.deployments[dep], s.targetRef)))
      && (plan.outcome.Success? ==>
            plan.outcome.receipt
              == RollbackVerified(ref, RollbackVerificationRefOf(h, ref), RestoredInventory(s.deployments[dep])))
  {
    hide VerifyRelease, PointerJson, PointerDigest, DeploymentRefOf, RollbackRefOf, IsPreviousUsable, CollisionFree;
    hide AreServed, AreDigestsKept, ReceiptRefOf, RestoredRefOf;
    if IsReceiptOf(s, stage, dep, rollbackRef, restoredRef, ref) {
      assert IsBased(h, s, ref, s.rollbacks[ref]);
      assert IsIdentified(h, dep, s.deployments[dep]);
      PreviousUsable(h, s, born, dep);
      PointerVerifiable(h, s, born);
      var restored := Some(Restored(s.deployments[dep], s.targetRef));
      if PointerDigest(h, s.current) == PointerDigest(h, restored) {
        PointerDigestInjective(h, s.current, restored);
      }
    }
  }
}
