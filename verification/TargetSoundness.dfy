/** The full invariant of a release target, its preservation by every lawful write, and
    the lawfulness of everything the adapter's operations write. */
module TargetSoundness {
  import opened Json
  import opened ReleaseTarget
  import opened TargetInvariant

  /** The fields of a record that its reference and the request fix. */
  ghost predicate IsIdentified(h: Host, dep: string, d: Deployment) {
    && dep != "" && !IsBlank(h, dep)
    && IsStage(d.bound.stage)
    && IsHex(d.bound.manifestDigest, 64)
    && d.rollbackRef == RollbackRefOf(h, d.bound.stage, dep)
  }

  ghost predicate AreIdentified(h: Host, ds: map<string, Deployment>) {
    forall dep {:trigger IsIdentified(h, dep, ds[dep])} :: dep in ds ==> IsIdentified(h, dep, ds[dep])
  }

  /** Every recorded deployment's release stays installed and verifiable. */
  ghost predicate AreServed(h: Host, s: Store) {
    forall dep {:trigger IsServing(h, s, s.deployments[dep].bound)} :: dep in s.deployments ==>
      IsServing(h, s, s.deployments[dep].bound)
  }

  /** A rollback record repeats what its deployment record determines. */
  ghost predicate IsBased(h: Host, s: Store, ref: string, r: Rollback) {
    && r.base.deploymentRef in s.deployments
    && r.base == BaseFor(h, s, s.deployments[r.base.deploymentRef], r.base.deploymentRef)
    && r.base.receiptRef == ref
  }

  ghost predicate AreBased(h: Host, s: Store) {
    forall ref {:trigger IsBased(h, s, ref, s.rollbacks[ref])} :: ref in s.rollbacks ==>
      IsBased(h, s, ref, s.rollbacks[ref])
  }

  /** An activated record remembers the digest of its pointer. */
  ghost predicate IsDigestKept(h: Host, ds: map<string, Deployment>, p: Pointer) {
    p.Live? && p.bound.deploymentRef in ds && ds[p.bound.deploymentRef].status.Activated? ==>
      ds[p.bound.deploymentRef].status.pointerDigest == PointerDigest(h, Some(p))
  }

  ghost predicate AreDigestsKept(h: Host, ds: map<string, Deployment>, chain: seq<Pointer>) {
    forall i {:trigger IsDigestKept(h, ds, chain[i])} :: 0 <= i < |chain| ==> IsDigestKept(h, ds, chain[i])
  }

  ghost predicate IsSound(h: Host, s: Store, born: Births) {
    && IsOrdered(s, born)
    && AreIdentified(h, s.deployments)
    && AreServed(h, s)
    && AreBased(h, s)
    && AreDigestsKept(h, s.deployments, LiveChain(s, born))
  }

  // ---------------------------------------------------------------- lawful writes

  ghost predicate IsRollbackWrite(h: Host, s: Store, ref: string, r: Rollback) {
    && IsBased(h, s, ref, r)
    && (if ref in s.rollbacks then s.rollbacks[ref].status.Pending? && r.status.Complete? else r.status.Pending?)
  }

  /** A rollback of the current deployment has been announced and is not complete. */
  ghost predicate IsAnnounced(h: Host, s: Store) {
    && IsLive(s.current)
    && var dep := s.current.value.bound.deploymentRef;
    && dep in s.deployments
    && var ref := ReceiptRefOf(h, dep, s.deployments[dep].rollbackRef);
    && ref in s.rollbacks
    && s.rollbacks[ref].base.deploymentRef == dep
    && s.rollbacks[ref].status.Pending?
  }

  /** What a write must say truthfully. */
  ghost predicate IsTruthful(h: Host, s: Store, w: Write) {
    match w
    case PutRelease(ref, _) => ref !in s.releases
    case PutDeployment(dep, d) =>
      if dep in s.deployments
      then d.status.Activated? && d.status.pointerDigest == PointerDigest(h, s.current)
      else IsIdentified(h, dep, d) && IsServing(h, s, d.bound)
    case PutRollback(ref, r) => IsRollbackWrite(h, s, ref, r)
    case PutCurrent(p) => IsPush(s, p) || IsAnnounced(h, s)
    case _ => true
  }

  ghost predicate IsLawful(h: Host, s: Store, w: Write) {
    IsOrderly(s, w) && IsTruthful(h, s, w)
  }

  ghost predicate AreLawful(h: Host, s: Store, ws: seq<Write>)
    decreases |ws|
  {
    ws != [] ==> IsLawful(h, s, ws[0]) && AreLawful(h, Apply(s, ws[0]), ws[1..])
  }

  // ---------------------------------------------------------------- preservation

  lemma ServingKept(h: Host, s: Store, w: Write, b: Binding)
    requires IsServing(h, s, b) && (w.PutRelease? ==> w.ref !in s.releases)
    ensures IsServing(h, Apply(s, w), b)
  {
    var s' := Apply(s, w);
    assert s'.releases[b.releaseRef] == s.releases[b.releaseRef];
  }

  lemma ServedKept(h: Host, s: Store, w: Write)
    requires AreServed(h, s) && IsLawful(h, s, w)
    ensures AreServed(h, Apply(s, w))
  {
    var s' := Apply(s, w);
    forall dep | dep in s'.deployments
      ensures IsServing(h, s', s'.deployments[dep].bound)
    {
      if dep in s.deployments {
        assert IsServing(h, s, s.deployments[dep].bound);
        assert s'.deployments[dep].bound == s.deployments[dep].bound;
      }
      ServingKept(h, s, w, s'.deployments[dep].bound);
    }
  }

  lemma IdentifiedKept(h: Host, s: Store, w: Write)
    requires AreIdentified(h, s.deployments) && IsLawful(h, s, w)
    ensures AreIdentified(h, Apply(s, w).deployments)
  {
    var ds' := Apply(s, w).deployments;
    forall dep | dep in ds'
      ensures IsIdentified(h, dep, ds'[dep])
    {
      if dep in s.deployments {
        assert IsIdentified(h, dep, s.deployments[dep]);
      }
    }
  }

  /** The parts of a record that a rollback depends on never change. */
  lemma FixedParts(h: Host, s: Store, w: Write, dep: string)
    requires IsOrderly(s, w) && dep in s.deployments
    ensures dep in Apply(s, w).deployments
    ensures BaseFor(h, Apply(s, w), Apply(s, w).deployments[dep], dep) == BaseFor(h, s, s.deployments[dep], dep)
  {
  }

  lemma BasedKept(h: Host, s: Store, w: Write)
    requires AreBased(h, s) && IsLawful(h, s, w)
    ensures AreBased(h, Apply(s, w))
  {
    var s' := Apply(s, w);
    forall ref | ref in s'.rollbacks
      ensures IsBased(h, s', ref, s'.rollbacks[ref])
    {
      assert IsBased(h, s, ref, s'.rollbacks[ref]);
      FixedParts(h, s, w, s'.rollbacks[ref].base.deploymentRef);
    }
  }

  lemma DigestsKeptByRecord(h: Host, s: Store, born: Births, dep: string, d: Deployment)
    requires IsOrdered(s, born) && AreDigestsKept(h, s.deployments, LiveChain(s, born))
    requires IsLawful(h, s, PutDeployment(dep, d))
    ensures AreDigestsKept(h, s.deployments[dep := d], LiveChain(s, born))
  {
    var chain := LiveChain(s, born);
    assert dep in s.deployments ==> IsPlaced(s, born, dep);
    OrderedIsLinked(s, born);
    ChainFalls(s.deployments, born, s.current);
    forall i | 0 <= i < |chain|
      ensures IsDigestKept(h, s.deployments[dep := d], chain[i])
    {
      assert IsDigestKept(h, s.deployments, chain[i]);
      assert s.current == Some(chain[0]);
      if i > 0 {
        assert born[chain[i].bound.deploymentRef] < born[chain[0].bound.deploymentRef];
      }
    }
  }

  lemma DigestsKept(h: Host, s: Store, born: Births, w: Write)
    requires IsOrdered(s, born) && AreDigestsKept(h, s.deployments, LiveChain(s, born)) && IsLawful(h, s, w)
    requires IsOrdered(Apply(s, w), NextBirths(s, born, w))
    ensures AreDigestsKept(h, Apply(s, w).deployments, LiveChain(Apply(s, w), NextBirths(s, born, w)))
  {
    ChainStep(s, born, w);
    var chain, chain' := LiveChain(s, born), LiveChain(Apply(s, w), NextBirths(s, born, w));
    match w
    case PutDeployment(dep, d) => DigestsKeptByRecord(h, s, born, dep, d);
    case PutCurrent(p) =>
      forall i | 0 <= i < |chain'|
        ensures IsDigestKept(h, s.deployments, chain'[i])
      {
        if IsPush(s, p) {
          if i > 0 {
            assert chain'[i] == chain[i - 1];
            assert IsDigestKept(h, s.deployments, chain[i - 1]);
          }
        } else {
          assert chain'[i] == chain[i + 1];
          assert IsDigestKept(h, s.deployments, chain[i + 1]);
        }
      }
    case _ =>
  }

  /** Every lawful write preserves the whole invariant. */
  lemma LawfulKeepsSound(h: Host, s: Store, born: Births, w: Write)
    requires IsSound(h, s, born) && IsLawful(h, s, w)
    ensures IsSound(h, Apply(s, w), NextBirths(s, born, w))
  {
    OrderKept(s, born, w);
    IdentifiedKept(h, s, w);
    ServedKept(h, s, w);
    BasedKept(h, s, w);
    DigestsKept(h, s, born, w);
  }
}
