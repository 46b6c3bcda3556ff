/** Everything the adapter's operations write is lawful in every sound state. */
module TargetPlans {
  import opened Json
  import opened ReleaseFiles
  import opened ReleaseTarget
  import opened TargetInvariant
  import opened TargetSoundness

  /** Pointers with the same JSON document are the same pointer. */
  lemma PointerJsonInjective(p: Option<Pointer>, q: Option<Pointer>)
    requires PointerJson(p) == PointerJson(q)
    ensures p == q
  {
    if IsLive(p) && IsLive(q) {
      var a, b := PointerJson(p).fields, PointerJson(q).fields;
      assert forall k :: k in a ==> a[k] == b[k];
      assert a[TargetRef] == b[TargetRef] && a[EventId] == b[EventId] && a[Stage] == b[Stage];
      assert a[ManifestRDigest] == b[ManifestRDigest] && a[InventorySha256] == b[InventorySha256];
      assert a[ReleaseRef] == b[ReleaseRef] && a[DeploymentRef] == b[DeploymentRef] && a[ActivatedAt] == b[ActivatedAt];
    } else if p.Some? && q.Some? {
      assert PointerJson(p).fields[TargetRef] == PointerJson(q).fields[TargetRef];
      assert PointerJson(p).fields[Active] == PointerJson(q).fields[Active];
    }
  }

  lemma PointerDigestInjective(h: Host, p: Option<Pointer>, q: Option<Pointer>)
    requires CollisionFree(h.digest) && PointerDigest(h, p) == PointerDigest(h, q)
    ensures p == q
  {
    PointerJsonInjective(p, q);
  }

  lemma {:induction false} LawfulAppend(h: Host, s: Store, ws: seq<Write>, rest: seq<Write>)
    requires AreLawful(h, s, ws) && AreLawful(h, ApplyAll(s, ws), rest)
    ensures AreLawful(h, s, ws + rest)
    ensures ApplyAll(s, ws + rest) == ApplyAll(ApplyAll(s, ws), rest)
    decreases |ws|
  {
    if ws == [] {
      assert ws + rest == rest;
    } else {
      assert (ws + rest)[1..] == ws[1..] + rest;
      LawfulAppend(h, Apply(s, ws[0]), ws[1..], rest);
    }
  }

  function BirthsAfter(s: Store, born: Births, ws: seq<Write>): Births
    decreases |ws|
  {
    if ws == [] then born else BirthsAfter(Apply(s, ws[0]), NextBirths(s, born, ws[0]), ws[1..])
  }

  /** Any prefix of lawful writes leads from a sound state to a sound state. */
  lemma {:induction false} PrefixKeepsSound(h: Host, s: Store, born: Births, ws: seq<Write>, k: nat)
    requires IsSound(h, s, born) && AreLawful(h, s, ws) && k <= |ws|
    ensures IsSound(h, ApplyAll(s, ws[..k]), BirthsAfter(s, born, ws[..k]))
    ensures AreLawful(h, ApplyAll(s, ws[..k]), ws[k..])
    decreases k
  {
    if k > 0 {
      LawfulKeepsSound(h, s, born, ws[0]);
      PrefixKeepsSound(h, Apply(s, ws[0]), NextBirths(s, born, ws[0]), ws[1..], k - 1);
      assert ws[..k][1..] == ws[1..][..k - 1] && ws[..k][0] == ws[0];
      assert ws[1..][k - 1..] == ws[k..];
    }
  }

  lemma LawfulOne(h: Host, s: Store, w: Write)
    requires IsLawful(h, s, w)
    ensures AreLawful(h, s, [w]) && ApplyAll(s, [w]) == Apply(s, w)
  {
    assert [w][1..] == [];
  }

  lemma LawfulCons(h: Host, s: Store, w: Write, ws: seq<Write>)
    requires IsLawful(h, s, w) && AreLawful(h, Apply(s, w), ws)
    ensures AreLawful(h, s, [w] + ws) && ApplyAll(s, [w] + ws) == ApplyAll(Apply(s, w), ws)
  {
    assert ([w] + ws)[1..] == ws;
  }

  // ---------------------------------------------------------------- deploy

  lemma InstallLawful(h: Host, s: Store, born: Births, q: DeployRequest, t: Clock)
    requires Refusal(h, q).None? && IsSound(h, s, born)
    ensures AreLawful(h, s, InstallWrites(h, s, q, t))
    ensures var s' := ApplyAll(s, InstallWrites(h, s, q, t));
      && IsSound(h, s', born)
      && s'.deployments == s.deployments && s'.current == s.current && s'.targetRef == s.targetRef
      && s'.rollbacks == s.rollbacks
      && (IsInstalled(h, s, q, t) ==> IsServing(h, s', BindingFor(h, s, q)))
  {
    var ref := ReleaseRefOf(q.expectedDigest);
    if ref !in s.releases {
      var w := PutRelease(ref, InstalledRelease(BundleFor(h, q), t.created));
      assert IsLawful(h, s, w);
      LawfulOne(h, s, w);
      LawfulKeepsSound(h, s, born, w);
    }
  }

  lemma FreshIdentified(h: Host, s: Store, q: DeployRequest, t: Clock)
    requires Refusal(h, q).None?
    ensures IsIdentified(h, DeployRef(q), PreparedRecord(h, s, q, t))
  {
    var b := BundleFor(h, q);
    assert IsHex(q.expectedDigest, 64);
    assert |DeployRef(q)| > 0;
  }

  lemma FreshLawful(h: Host, s: Store, q: DeployRequest, t: Clock)
    requires Refusal(h, q).None? && DeployRef(q) !in s.deployments
    requires IsServing(h, s, BindingFor(h, s, q))
    ensures AreLawful(h, s, FreshPlan(h, s, q, t).writes)
  {
    if IsOwn(s) {
      var dep, prepared := DeployRef(q), PreparedRecord(h, s, q, t);
      var pointer := ActivePointer(prepared, t.activated);
      FreshIdentified(h, s, q, t);
      var first, move := PutDeployment(dep, prepared), PutCurrent(pointer);
      var last := PutDeployment(dep, ActivatedRecord(h, prepared, pointer, None));
      assert IsLawful(h, s, first);
      var s1 := Apply(s, first);
      assert IsPush(s1, pointer);
      var s2 := Apply(s1, move);
      assert IsLawful(h, s2, last);
      LawfulOne(h, s2, last);
      LawfulCons(h, s1, move, [last]);
      LawfulCons(h, s, first, [move] + [last]);
      assert FreshPlan(h, s, q, t).writes == [first] + ([move] + [last]);
    }
  }

  lemma ActivationLawful(h: Host, s: Store, dep: string, p: Pointer, at: Option<string>)
    requires dep in s.deployments && s.deployments[dep].status.Prepared?
    requires s.current == Some(p) && Matches(s.current, s.deployments[dep])
    ensures IsLawful(h, s, PutDeployment(dep, ActivatedRecord(h, s.deployments[dep], p, at)))
  {
  }

  lemma ReplayLawful(h: Host, s: Store, q: DeployRequest, t: Clock)
    requires CollisionFree(h.digest) && DeployRef(q) in s.deployments
    ensures AreLawful(h, s, ReplayPlan(h, s, q, s.deployments[DeployRef(q)], t).writes)
  {
    var dep := DeployRef(q);
    var d := s.deployments[dep];
    var plan := ReplayPlan(h, s, q, d, t);
    if plan.writes != [] {
      if Matches(s.current, d) {
        ActivationLawful(h, s, dep, s.current.value, Some(t.reconciled));
        LawfulOne(h, s, plan.writes[0]);
        assert plan.writes == [plan.writes[0]];
      } else {
        PointerDigestInjective(h, s.current, d.previous);
        var p := ActivePointer(d, t.activated);
        assert IsPush(s, p);
        LawfulOne(h, s, PutCurrent(p));
        if |plan.writes| > 1 {
          var s1 := Apply(s, PutCurrent(p));
          ActivationLawful(h, s1, dep, p, Some(t.reconciled));
          LawfulOne(h, s1, plan.writes[1]);
          LawfulCons(h, s, PutCurrent(p), [plan.writes[1]]);
          assert plan.writes == [PutCurrent(p)] + [plan.writes[1]];
        }
      }
    }
  }

  lemma DeployLawful(h: Host, s: Store, born: Births, q: DeployRequest, t: Clock)
    requires CollisionFree(h.digest) && IsSound(h, s, born)
    ensures AreLawful(h, s, DeployPlan(h, s, q, t).writes)
  {
    if Refusal(h, q).None? {
      InstallLawful(h, s, born, q, t);
      if IsInstalled(h, s, q, t) {
        var install := InstallWrites(h, s, q, t);
        var s' := ApplyAll(s, install);
        if DeployRef(q) in s.deployments {
          ReplayLawful(h, s', q, t);
          LawfulAppend(h, s, install, ReplayPlan(h, s', q, s.deployments[DeployRef(q)], t).writes);
        } else {
          FreshLawful(h, s', q, t);
          LawfulAppend(h, s, install, FreshPlan(h, s', q, t).writes);
        }
      }
    }
  }

  // ---------------------------------------------------------------- rollback

  lemma CompleteLawful(h: Host, s: Store, born: Births, dep: string, r: Rollback, status: RollbackStatus)
    requires dep in s.deployments && r.base == BaseFor(h, s, s.deployments[dep], dep)
    requires r.base.receiptRef in s.rollbacks && s.rollbacks[r.base.receiptRef].base == r.base
    requires s.rollbacks[r.base.receiptRef].status.Pending? && status.Complete?
    ensures IsLawful(h, s, PutRollback(r.base.receiptRef, r.(status := status)))
  {
  }

  lemma RollbackLawful(h: Host, s: Store, born: Births, stage: string, dep: string, rollbackRef: string, t: Clock)
    requires IsSound(h, s, born)
    ensures AreLawful(h, s, RollbackPlan(h, s, stage, dep, rollbackRef, t).writes)
  {
    var ws := RollbackPlan(h, s, stage, dep, rollbackRef, t).writes;
    if ws != [] {
      var d := s.deployments[dep];
      var base, restored := BaseFor(h, s, d, dep), Restored(d, s.targetRef);
      assert IsPlaced(s, born, dep);
      if base.receiptRef in s.rollbacks {
        var done := ws[|ws| - 1];
        if |ws| == 1 {
          CompleteLawful(h, s, born, dep, s.rollbacks[base.receiptRef], done.rollback.status);
          LawfulOne(h, s, done);
          assert ws == [done];
        } else {
          assert IsPop(s, restored);
          var s1 := Apply(s, PutCurrent(restored));
          CompleteLawful(h, s1, born, dep, s.rollbacks[base.receiptRef], done.rollback.status);
          LawfulOne(h, s1, done);
          LawfulCons(h, s, PutCurrent(restored), [done]);
          assert ws == [PutCurrent(restored)] + [done];
        }
      } else {
        FreshRollbackLawful(h, s, dep, base, restored, t);
      }
    }
  }

  lemma FreshRollbackLawful(h: Host, s: Store, dep: string, base: RollbackBase, restored: Pointer, t: Clock)
    requires dep in s.deployments && IsAt(s.current, dep)
    requires base == BaseFor(h, s, s.deployments[dep], dep) && restored == Restored(s.deployments[dep], s.targetRef)
    requires base.receiptRef !in s.rollbacks
    ensures AreLawful(h, s, [PutRollback(base.receiptRef, Rollback(base, t.prepared, Pending)), PutCurrent(restored),
                             PutRollback(base.receiptRef, Rollback(base, t.prepared, Complete(t.finished, None)))])
  {
    var begin := PutRollback(base.receiptRef, Rollback(base, t.prepared, Pending));
    var move := PutCurrent(restored);
    var done := PutRollback(base.receiptRef, Rollback(base, t.prepared, Complete(t.finished, None)));
    assert IsLawful(h, s, begin);
    var s1 := Apply(s, begin);
    assert IsPop(s1, restored);
    var s2 := Apply(s1, move);
    assert IsLawful(h, s2, done);
    LawfulOne(h, s2, done);
    LawfulCons(h, s1, move, [done]);
    LawfulCons(h, s, begin, [move] + [done]);
    assert [begin, move, done] == [begin] + ([move] + [done]);
  }

  /** Every operation, in every sound state, writes only what is lawful. */
  lemma PlanLawful(h: Host, s: Store, born: Births, op: Operation, t: Clock)
    requires CollisionFree(h.digest) && IsSound(h, s, born)
    ensures AreLawful(h, s, PlanOf(h, s, op, t).writes)
  {
    match op
    case Deploy(q) => DeployLawful(h, s, born, q, t);
    case RollBack(stage, dep, rollbackRef) => RollbackLawful(h, s, born, stage, dep, rollbackRef, t);
    case Verify(stage, dep, rollbackRef, digest) =>
      OneWriteLawful(h, s, VerifyPlan(h, s, stage, dep, rollbackRef, digest).writes);
    case Readback(digest) =>
      OneWriteLawful(h, s, ReadbackPlan(h, s, digest).writes);
    case VerifyRollback(_, _, _, _, _) =>
  }

  lemma OneWriteLawful(h: Host, s: Store, ws: seq<Write>)
    requires |ws| <= 1 && forall i :: 0 <= i < |ws| ==> ws[i].PutVerification? || ws[i].PutReadback?
    ensures AreLawful(h, s, ws)
  {
    if ws != [] {
      LawfulOne(h, s, ws[0]);
      assert ws == [ws[0]];
    }
  }
}
