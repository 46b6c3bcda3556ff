/** The adapter itself: an object over one target whose operations rewrite the durable
    state step by step under the target lock. Each operation is proved to make exactly
    the writes of its plan, in order, and to stop after the write the process dies at. */
module FilesystemAdapter {
  import opened Json
  import opened ReleaseFiles
  import opened ReleaseCheck
  import opened ReleaseTarget

  /** From `before`, with `lives` durable writes left, the plan was followed: completely
      and with its outcome, or as far as the process lived. */
  ghost predicate Follows(plan: Plan, before: Store, lives: nat, after: Store, left: nat, outcome: Option<Outcome>) {
    var n := |plan.writes|;
    && after == ApplyAll(before, plan.writes[..Min(lives, n)])
    && left == lives - Min(lives, n)
    && outcome == if lives < n then None else Some(plan.outcome)
  }

  lemma {:induction false} OneMore(s: Store, ws: seq<Write>, k: nat)
    requires k < |ws|
    ensures ApplyAll(s, ws[..k + 1]) == Apply(ApplyAll(s, ws[..k]), ws[k])
    decreases |ws|
  {
    if k > 0 {
      OneMore(Apply(s, ws[0]), ws[1..], k - 1);
      assert ws[..k + 1][1..] == ws[1..][..k] && ws[..k][1..] == ws[1..][..k - 1];
    } else {
      assert ws[..1][1..] == [] && ws[..1][0] == ws[0];
    }
  }

  /** The state after each prefix of a short list of writes. */
  lemma Prefixes(s: Store, ws: seq<Write>)
    requires |ws| <= 3
    ensures ApplyAll(s, ws[..0]) == s
    ensures |ws| >= 1 ==> ApplyAll(s, ws[..1]) == Apply(s, ws[0])
    ensures |ws| >= 2 ==> ApplyAll(s, ws[..2]) == Apply(Apply(s, ws[0]), ws[1])
    ensures |ws| >= 3 ==> ApplyAll(s, ws[..3]) == Apply(Apply(Apply(s, ws[0]), ws[1]), ws[2])
  {
    if |ws| >= 1 {
      OneMore(s, ws, 0);
    }
    if |ws| >= 2 {
      OneMore(s, ws, 1);
    }
    if |ws| >= 3 {
      OneMore(s, ws, 2);
    }
  }

  /** Following the installation and then the rest is following the whole. */
  lemma FollowsBoth(first: seq<Write>, rest: Plan, s: Store, lives: nat, after: Store, left: nat,
                    outcome: Option<Outcome>)
    requires |first| <= 1 && |first| <= lives
    requires Follows(rest, ApplyAll(s, first), lives - |first|, after, left, outcome)
    ensures Follows(Plan(first + rest.writes, rest.outcome), s, lives, after, left, outcome)
  {
    var all := first + rest.writes;
    if first != [] {
      var n := Min(lives, |all|);
      assert all[..n][0] == first[0] && all[..n][1..] == rest.writes[..n - 1];
      assert first[1..] == [];
      assert ApplyAll(s, first) == Apply(s, first[0]);
      assert ApplyAll(s, all[..n]) == ApplyAll(Apply(s, first[0]), rest.writes[..n - 1]);
    } else {
      assert all == rest.writes;
    }
  }

  lemma InstallShape(h: Host, s: Store, q: DeployRequest, t: Clock)
    requires Refusal(h, q).None?
    ensures var install := InstallWrites(h, s, q, t);
      |install| <= 1 && install[..|install|] == install && ApplyAll(s, install).deployments == s.deployments
  {
    Prefixes(s, InstallWrites(h, s, q, t));
  }

  class FilesystemReleaseAdapter {
    const host: Host
    const targetRef: string
    var releases: map<string, Release>
    var deployments: map<string, Deployment>
    var rollbacks: map<string, Rollback>
    var verifications: map<string, Receipt>
    var readbacks: map<string, Receipt>
    var current: Option<Pointer>
    /** Durable writes this process will still live to make. */
    var lives: nat

    ghost function State(): Store
      reads this
    {
      Store(targetRef, releases, deployments, rollbacks, verifications, readbacks, current)
    }

    function Snapshot(): (s: Store)
      reads this
      ensures s == State()
    {
      Store(targetRef, releases, deployments, rollbacks, verifications, readbacks, current)
    }

    constructor (host: Host, target: Store, lives: nat)
      ensures this.host == host && State() == target && this.lives == lives
    {
      this.host := host;
      targetRef := target.targetRef;
      releases, deployments, rollbacks := target.releases, target.deployments, target.rollbacks;
      verifications, readbacks, current := target.verifications, target.readbacks, target.current;
      this.lives := lives;
    }

    /** One atomic replacement, unless the process dies first. */
    method Put(w: Write) returns (alive: bool)
      modifies this
      ensures alive <==> old(lives) > 0
      ensures alive ==> State() == Apply(old(State()), w) && lives == old(lives) - 1
      ensures !alive ==> State() == old(State()) && lives == 0
    {
      if lives == 0 {
        return false;
      }
      lives := lives - 1;
      match w {
        case PutRelease(ref, release) => releases := releases[ref := release];
        case PutDeployment(ref, deployment) => deployments := deployments[ref := deployment];
        case PutCurrent(pointer) => current := Some(pointer);
        case PutRollback(ref, rollback) => rollbacks := rollbacks[ref := rollback];
        case PutVerification(ref, receipt) => verifications := verifications[ref := receipt];
        case PutReadback(ref, receipt) => readbacks := readbacks[ref := receipt];
      }
      return true;
    }

    // -------------------------------------------------------------- deploy

    /** Stages and installs the bundle's release unless it is there, and checks it either way.
        `None`: the process died. */
    method InstallRelease(q: DeployRequest, t: Clock) returns (installed: Option<bool>)
      requires Refusal(host, q).None?
      modifies this
      ensures var ws := InstallWrites(host, old(State()), q, t);
        && (installed.None? <==> old(lives) < |ws|)
        && (installed.None? ==> State() == old(State()) && lives == 0)
        && (installed.Some? ==>
              && installed.value == IsInstalled(host, old(State()), q, t)
              && State() == ApplyAll(old(State()), ws) && lives == old(lives) - |ws|)
    {
      var bundle := BundleFor(host, q);
      var ref := ReleaseRefOf(bundle.digest);
      if ref in releases {
        var observed := CheckRelease(host, releases[ref], ref, bundle.digest);
        return Some(observed == Some(bundle.inventoryDigest));
      }
      LoadedIsExact(host, q.manifest, q.expectedDigest, q.disk);
      var staged := StageRelease(host, bundle, t.created);
      var release := staged.value;
      Prefixes(State(), [PutRelease(ref, release)]);
      assert [PutRelease(ref, release)][..1] == [PutRelease(ref, release)];
      var alive := Put(PutRelease(ref, release));
      if !alive {
        return None;
      }
      var observed := CheckRelease(host, releases[ref], ref, bundle.digest);
      return Some(observed == Some(bundle.inventoryDigest));
    }

    /** Record, pointer, record. */
    method FirstDeployment(q: DeployRequest, t: Clock) returns (outcome: Option<Outcome>)
      requires Refusal(host, q).None?
      modifies this
      ensures Follows(FreshPlan(host, old(State()), q, t), old(State()), old(lives), State(), lives, outcome)
    {
      hide VerifyRelease, BundleOf, DeploymentRefOf, RollbackRefOf, PointerJson, Refusal;
      ghost var plan := FreshPlan(host, State(), q, t);
      Prefixes(State(), plan.writes);
      if !IsOwn(Snapshot()) {
        return Some(Failure(PointerForeign));
      }
      var record := PreparedRecord(host, Snapshot(), q, t);
      var alive := Put(PutDeployment(DeployRef(q), record));
      if !alive {
        return None;
      }
      var pointer := ActivePointer(record, t.activated);
      alive := Put(PutCurrent(pointer));
      if !alive {
        return None;
      }
      record := ActivatedRecord(host, record, pointer, None);
      alive := Put(PutDeployment(DeployRef(q), record));
      if !alive {
        return None;
      }
      return Some(Success(DeployReceipt(host, q, BundleFor(host, q).inventoryDigest, false)));
    }

    /** Reconciles an existing record with the pointer on disk. */
    method ReplayDeployment(q: DeployRequest, t: Clock) returns (outcome: Option<Outcome>)
      requires DeployRef(q) in deployments
      modifies this
      ensures Follows(ReplayPlan(host, old(State()), q, old(deployments[DeployRef(q)]), t),
                      old(State()), old(lives), State(), lives, outcome)
    {
      hide VerifyRelease, RollbackRefOf, DeploymentRefOf, PointerJson;
      var record := deployments[DeployRef(q)];
      ghost var plan := ReplayPlan(host, State(), q, record, t);
      Prefixes(State(), plan.writes);
      if !IsSameRequest(host, Snapshot(), q, record) {
        return Some(Failure(RecordDiffers));
      }
      if !IsOwn(Snapshot()) {
        return Some(Failure(PointerForeign));
      }
      if record.status.Prepared? && !Matches(current, record) {
        if PointerDigest(host, current) != PointerDigest(host, record.previous) {
          return Some(Failure(CannotReconcile));
        }
        var moved := Put(PutCurrent(ActivePointer(record, t.activated)));
        if !moved {
          return None;
        }
      }
      if !IsActivePointer(host, Snapshot(), current, q.expectedDigest)
         || current.value.bound.deploymentRef != DeployRef(q) {
        return Some(Failure(NoActiveRelease));
      }
      if record.status.Prepared? {
        var alive := Put(PutDeployment(DeployRef(q), ActivatedRecord(host, record, current.value, Some(t.reconciled))));
        if !alive {
          return None;
        }
      } else if record.status.pointerDigest != PointerDigest(host, current) {
        return Some(Failure(PointerDiffers));
      }
      return Some(Success(DeployReceipt(host, q, current.value.bound.inventoryDigest, true)));
    }

    method Deploy(q: DeployRequest, t: Clock) returns (outcome: Option<Outcome>)
      modifies this
      ensures Follows(DeployPlan(host, old(State()), q, t), old(State()), old(lives), State(), lives, outcome)
    {
      if !IsStage(q.stage) {
        return Some(Failure(InvalidStage));
      }
      if !IsHex(q.idempotencyKey, 64) {
        return Some(Failure(InvalidKey));
      }
      var bundle := LoadManifestBundle(host, q.manifest, q.expectedDigest, q.disk);
      if bundle.None? {
        return Some(Failure(BundleRejected));
      }
      if !q.authorized {
        return Some(Failure(Unauthorized));
      }
      if q.overlaps {
        return Some(Failure(PathsOverlap));
      }
      if IsBlank(host, DeployRef(q)) {
        return Some(Failure(MissingReference));
      }
      outcome := DeployLocked(q, t);
    }

    /** The part of a deployment that holds the target lock. */
    method DeployLocked(q: DeployRequest, t: Clock) returns (outcome: Option<Outcome>)
      requires Refusal(host, q).None?
      modifies this
      ensures Follows(DeployPlan(host, old(State()), q, t), old(State()), old(lives), State(), lives, outcome)
    {
      hide Refusal, FreshPlan, ReplayPlan, BundleFor, IsInstalled, InstallWrites, DeploymentRefOf, VerifyRelease;
      ghost var s, n := State(), lives;
      ghost var install := InstallWrites(host, s, q, t);
      InstallShape(host, s, q, t);
      var installed := InstallRelease(q, t);
      if installed.None? {
        assert DeployPlan(host, s, q, t).writes[..0] == [];
        return None;
      }
      if !installed.value {
        return Some(Failure(ReleaseDiffers));
      }
      ghost var s1, n1 := State(), lives;
      if DeployRef(q) in deployments {
        outcome := ReplayDeployment(q, t);
        FollowsBoth(install, ReplayPlan(host, s1, q, s.deployments[DeployRef(q)], t), s, n, State(), lives, outcome);
      } else {
        outcome := FirstDeployment(q, t);
        FollowsBoth(install, FreshPlan(host, s1, q, t), s, n, State(), lives, outcome);
      }
    }

    // -------------------------------------------------------------- verify, readback

    method Verify(stage: string, dep: string, rollbackRef: string, digest: string) returns (outcome: Option<Outcome>)
      modifies this
      ensures Follows(VerifyPlan(host, old(State()), stage, dep, rollbackRef, digest),
                      old(State()), old(lives), State(), lives, outcome)
    {
      Prefixes(State(), VerifyPlan(host, State(), stage, dep, rollbackRef, digest).writes);
      if !IsStage(stage) {
        return Some(Failure(InvalidStage));
      }
      if IsBlank(host, dep) {
        return Some(Failure(MissingReference));
      }
      if dep !in deployments {
        return Some(Failure(RecordMissing));
      }
      var record := deployments[dep];
      if record.bound.stage != stage || record.bound.targetRef != targetRef || record.rollbackRef != rollbackRef
         || record.bound.manifestDigest != digest {
        return Some(Failure(BindingDiffers));
      }
      if !IsOwn(Snapshot()) {
        return Some(Failure(PointerForeign));
      }
      if !IsActivePointer(host, Snapshot(), current, digest) || current.value.bound.deploymentRef != dep {
        return Some(Failure(NoActiveRelease));
      }
      var ref := VerificationRefOf(host, dep, digest);
      var receipt := Verified(stage, dep, ref, digest, current.value.bound.inventoryDigest);
      var alive := Put(PutVerification(ref, receipt));
      return if alive then Some(Success(receipt)) else None;
    }

    method Readback(digest: string) returns (outcome: Option<Outcome>)
      modifies this
      ensures Follows(ReadbackPlan(host, old(State()), digest), old(State()), old(lives), State(), lives, outcome)
    {
      Prefixes(State(), ReadbackPlan(host, State(), digest).writes);
      if !IsHex(digest, 64) {
        return Some(Failure(InvalidDigest));
      }
      if !IsOwn(Snapshot()) {
        return Some(Failure(PointerForeign));
      }
      if !IsActivePointer(host, Snapshot(), current, digest) {
        return Some(Failure(NoActiveRelease));
      }
      var bound := current.value.bound;
      var ref := ReadbackRefOf(host, targetRef, digest, bound.deploymentRef);
      var receipt := ReadBack(ref, bound.deploymentRef, digest, bound.inventoryDigest);
      var alive := Put(PutReadback(ref, receipt));
      return if alive then Some(Success(receipt)) else None;
    }

    // -------------------------------------------------------------- rollback

    /** Announce, pop, complete; or finish what an earlier call announced. */
    method Rollback(stage: string, dep: string, rollbackRef: string, t: Clock) returns (outcome: Option<Outcome>)
      modifies this
      ensures Follows(RollbackPlan(host, old(State()), stage, dep, rollbackRef, t),
                      old(State()), old(lives), State(), lives, outcome)
    {
      Prefixes(State(), RollbackPlan(host, State(), stage, dep, rollbackRef, t).writes);
      if !IsStage(stage) {
        return Some(Failure(InvalidStage));
      }
      if IsBlank(host, dep) {
        return Some(Failure(MissingReference));
      }
      if dep !in deployments {
        return Some(Failure(RecordMissing));
      }
      var record := deployments[dep];
      if record.bound.stage != stage || record.bound.targetRef != targetRef || record.rollbackRef != rollbackRef {
        return Some(Failure(BindingDiffers));
      }
      if !IsOwn(Snapshot()) {
        return Some(Failure(PointerForeign));
      }
      if !IsPreviousUsable(host, Snapshot(), record) {
        return Some(Failure(PreviousUnusable));
      }
      var base := BaseFor(host, Snapshot(), record, dep);
      outcome := Undo(record, dep, base, t);
    }

    method Undo(record: Deployment, dep: string, base: RollbackBase, t: Clock) returns (outcome: Option<Outcome>)
      requires base == BaseFor(host, State(), record, dep)
      modifies this
      ensures Follows(UndoPlan(host, old(State()), record, dep, base, t),
                      old(State()), old(lives), State(), lives, outcome)
    {
      hide VerifyRelease, RestoredRefOf, ReceiptRefOf, PointerJson;
      Prefixes(State(), UndoPlan(host, State(), record, dep, base, t).writes);
      var restored := Restored(record, targetRef);
      var ref := base.receiptRef;
      var alive := true;
      if ref in rollbacks {
        var receipt := rollbacks[ref];
        if receipt.base != base {
          return Some(Failure(RollbackDiffers));
        }
        if receipt.status.Pending? {
          if PointerDigest(host, current) != base.restoredDigest {
            if !IsAt(current, dep) {
              return Some(Failure(CannotReconcile));
            }
            alive := Put(PutCurrent(restored));
            if !alive {
              return None;
            }
          }
          alive := Put(PutRollback(ref, receipt.(status := Complete(t.finished, Some(t.reconciled)))));
          if !alive {
            return None;
          }
        }
        if PointerDigest(host, current) != base.restoredDigest {
          return Some(Failure(TargetStateDiffers));
        }
        return Some(Success(RollbackReceipt(record, dep, base, true)));
      }
      if !IsAt(current, dep) {
        return Some(Failure(NotActiveDeployment));
      }
      alive := Put(PutRollback(ref, ReleaseTarget.Rollback(base, t.prepared, Pending)));
      if !alive {
        return None;
      }
      alive := Put(PutCurrent(restored));
      if !alive {
        return None;
      }
      alive := Put(PutRollback(ref, ReleaseTarget.Rollback(base, t.prepared, Complete(t.finished, None))));
      if !alive {
        return None;
      }
      return Some(Success(RollbackReceipt(record, dep, base, false)));
    }

    method VerifyRollback(stage: string, dep: string, rollbackRef: string, restoredRef: string, receiptRef: string)
      returns (outcome: Outcome)
      ensures Plan([], outcome) == VerifyRollbackPlan(host, State(), stage, dep, rollbackRef, restoredRef, receiptRef)
    {
      if !IsStage(stage) {
        return Failure(InvalidStage);
      }
      if IsBlank(host, receiptRef) {
        return Failure(MissingReference);
      }
      if receiptRef !in rollbacks {
        return Failure(RecordMissing);
      }
      var base := rollbacks[receiptRef].base;
      if base.stage != stage || base.targetRef != targetRef || base.deploymentRef != dep
         || base.rollbackRef != rollbackRef || base.restoredRef != restoredRef || base.receiptRef != receiptRef
         || !rollbacks[receiptRef].status.Complete? {
        return Failure(BindingDiffers);
      }
      if !IsOwn(Snapshot()) {
        return Failure(PointerForeign);
      }
      if PointerDigest(host, current) != base.restoredDigest {
        return Failure(TargetStateDiffers);
      }
      var inventory := "";
      if IsLive(current) {
        var bound := current.value.bound;
        if bound.releaseRef !in releases {
          return Failure(ReleaseDiffers);
        }
        var digest := CheckRelease(host, releases[bound.releaseRef], bound.releaseRef, bound.manifestDigest);
        if digest.None? {
          return Failure(ReleaseDiffers);
        }
        inventory := digest.value;
      }
      return Success(RollbackVerified(receiptRef, RollbackVerificationRefOf(host, receiptRef), inventory));
    }
  }
}
