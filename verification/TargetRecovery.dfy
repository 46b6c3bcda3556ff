/** Crash convergence: however often a deployment or a rollback dies between two durable
    writes, retrying it on an otherwise untouched target ends in the state of the
    uninterrupted run, up to timestamps. */
module TargetRecovery {
  import opened Json
  import opened ReleaseFiles
  import opened ReleaseCheck
  import opened ReleaseTarget
  import opened TargetInvariant
  import opened TargetSoundness

  // ---------------------------------------------------------------- deploy

  /** The call is accepted and its release is, or can be, installed. All of it can be
      checked before the call. */
  predicate IsDeployable(h: Host, s: Store, q: DeployRequest) {
    && Refusal(h, q).None?
    && var ref := ReleaseRefOf(q.expectedDigest);
    if ref in s.releases
    then VerifyRelease(h, s.releases[ref], ref, q.expectedDigest) == Some(BundleFor(h, q).inventoryDigest)
    else HasTextFields(q.manifest)
  }

  lemma DeployableIsInstalled(h: Host, s: Store, q: DeployRequest, t: Clock)
    requires CollisionFree(h.digest) && Refusal(h, q).None?
    ensures IsDeployable(h, s, q) <==> IsInstalled(h, s, q, t)
  {
    RoundTrip(h, q.manifest, q.expectedDigest, q.disk, t.created);
  }

  /** How far a deployment has come, with the times it wrote. */
  datatype Progress =
    | Start
    | Installed(created: string)
    | Recorded(created: string, prepared: string)
    | Moved(created: string, prepared: string, activated: string)
    | Done(created: string, prepared: string, activated: string, reconciled: Option<string>)

  function ReleasesWith(h: Host, s: Store, q: DeployRequest, created: string): map<string, Release>
    requires Refusal(h, q).None?
  {
    var ref := ReleaseRefOf(q.expectedDigest);
    if ref in s.releases then s.releases else s.releases[ref := InstalledRelease(BundleFor(h, q), created)]
  }

  function RecordAt(h: Host, s: Store, q: DeployRequest, prepared: string): Deployment
    requires Refusal(h, q).None?
  {
    Deployment(BindingFor(h, s, q), RollbackRefOf(h, q.stage, DeployRef(q)), q.idempotencyKey,
               h.digest(q.credential), s.current, prepared, Prepared)
  }

  function PointerAt(h: Host, s: Store, q: DeployRequest, activated: string): Pointer
    requires Refusal(h, q).None?
  {
    Live(BindingFor(h, s, q), activated)
  }

  /** The target as a deployment leaves it after getting this far from `s`. */
  function StateAt(h: Host, s: Store, q: DeployRequest, p: Progress): Store
    requires Refusal(h, q).None?
  {
    match p
    case Start => s
    case Installed(c) => s.(releases := ReleasesWith(h, s, q, c))
    case Recorded(c, at) =>
      s.(releases := ReleasesWith(h, s, q, c), deployments := s.deployments[DeployRef(q) := RecordAt(h, s, q, at)])
    case Moved(c, at, live) =>
      s.(releases := ReleasesWith(h, s, q, c), deployments := s.deployments[DeployRef(q) := RecordAt(h, s, q, at)],
         current := Some(PointerAt(h, s, q, live)))
    case Done(c, at, live, rec) =>
      s.(releases := ReleasesWith(h, s, q, c),
         deployments := s.deployments[DeployRef(q) := ActivatedRecord(h, RecordAt(h, s, q, at),
                                                                      PointerAt(h, s, q, live), rec)],
         current := Some(PointerAt(h, s, q, live)))
  }

  /** Where one more write takes a deployment that is called at time `t`. */
  function Following(p: Progress, t: Clock, first: bool): Progress {
    match p
    case Start => Installed(t.created)
    case Installed(c) => Recorded(c, t.prepared)
    case Recorded(c, at) => Moved(c, at, t.activated)
    case Moved(c, at, live) => Done(c, at, live, if first then None else Some(t.reconciled))
    case Done(_, _, _, _) => p
  }

  /** A start on a target that already has the release is an installed start. */
  predicate IsPlace(s: Store, q: DeployRequest, p: Progress) {
    p.Start? ==> ReleaseRefOf(q.expectedDigest) !in s.releases
  }

  function Remaining(p: Progress): nat {
    match p
    case Start => 4
    case Installed(_) => 3
    case Recorded(_, _) => 2
    case Moved(_, _, _) => 1
    case Done(_, _, _, _) => 0
  }

  predicate IsFirst(p: Progress) {
    p.Start? || p.Installed?
  }

  /** The write that takes a deployment one step further. */
  function StepWrite(h: Host, s: Store, q: DeployRequest, p: Progress, t: Clock, first: bool): Write
    requires Refusal(h, q).None? && !p.Done?
  {
    match p
    case Start => PutRelease(ReleaseRefOf(q.expectedDigest), InstalledRelease(BundleFor(h, q), t.created))
    case Installed(_) => PutDeployment(DeployRef(q), RecordAt(h, s, q, t.prepared))
    case Recorded(_, _) => PutCurrent(PointerAt(h, s, q, t.activated))
    case Moved(_, at, live) =>
      PutDeployment(DeployRef(q), ActivatedRecord(h, RecordAt(h, s, q, at), PointerAt(h, s, q, live),
                                                  if first then None else Some(t.reconciled)))
  }

  function StepWrites(h: Host, s: Store, q: DeployRequest, p: Progress, t: Clock, first: bool): seq<Write>
    requires Refusal(h, q).None?
    decreases Remaining(p)
  {
    if p.Done? then []
    else [StepWrite(h, s, q, p, t, first)] + StepWrites(h, s, q, Following(p, t, first), t, first)
  }

  lemma StepApplies(h: Host, s: Store, q: DeployRequest, p: Progress, t: Clock, first: bool)
    requires Refusal(h, q).None? && !p.Done? && IsPlace(s, q, p)
    ensures Apply(StateAt(h, s, q, p), StepWrite(h, s, q, p, t, first)) == StateAt(h, s, q, Following(p, t, first))
  {
    hide Refusal, BundleOf, InstalledRelease, DeploymentRefOf, RollbackRefOf, PointerDigest;
    if p.Moved? {
      var d, e := RecordAt(h, s, q, p.prepared), StepWrite(h, s, q, p, t, first).deployment;
      assert s.deployments[DeployRef(q) := d][DeployRef(q) := e] == s.deployments[DeployRef(q) := e];
    }
  }

  /** Where the first `k` writes of a call at time `t` take a deployment that is at `p`. */
  function After(p: Progress, t: Clock, first: bool, k: nat): Progress
    decreases k
  {
    if k == 0 then p else After(Following(p, t, first), t, first, k - 1)
  }

  lemma {:induction false} StepsApply(h: Host, s: Store, q: DeployRequest, p: Progress, t: Clock, first: bool, k: nat)
    requires Refusal(h, q).None? && IsPlace(s, q, p)
    requires k <= Remaining(p)
    ensures |StepWrites(h, s, q, p, t, first)| == Remaining(p)
    ensures ApplyAll(StateAt(h, s, q, p), StepWrites(h, s, q, p, t, first)[..k])
         == StateAt(h, s, q, After(p, t, first, k))
    ensures k == Remaining(p) ==> After(p, t, first, k).Done?
    ensures IsPlace(s, q, After(p, t, first, k))
    decreases Remaining(p)
  {
    hide Refusal, StateAt, StepWrite, Apply;
    if !p.Done? {
      var next := Following(p, t, first);
      var ws, rest := StepWrites(h, s, q, p, t, first), StepWrites(h, s, q, next, t, first);
      StepsApply(h, s, q, next, t, first, if k == 0 then 0 else k - 1);
      if k > 0 {
        StepApplies(h, s, q, p, t, first);
        assert ws[..k][0] == ws[0] && ws[..k][1..] == rest[..k - 1];
      }
    }
  }

  // ---------------------------------------------------------------- what each call plans

  lemma ServedThroughout(h: Host, s: Store, q: DeployRequest, p: Progress, t: Clock)
    requires CollisionFree(h.digest) && IsDeployable(h, s, q) && IsPlace(s, q, p)
    ensures IsInstalled(h, StateAt(h, s, q, p), q, t)
    ensures !p.Start? ==> IsServing(h, StateAt(h, s, q, p), BindingFor(h, s, q))
    ensures !p.Start? ==> InstallWrites(h, StateAt(h, s, q, p), q, t) == []
  {
    DeployableIsInstalled(h, s, q, t);
    if !p.Start? {
      RoundTrip(h, q.manifest, q.expectedDigest, q.disk, p.created);
    }
  }

  lemma FreshSteps(h: Host, s: Store, q: DeployRequest, c: string, t: Clock)
    requires Refusal(h, q).None? && IsOwn(s)
    ensures FreshPlan(h, StateAt(h, s, q, Installed(c)), q, t)
      == Plan(StepWrites(h, s, q, Installed(c), t, true),
              Success(DeployReceipt(h, q, BundleFor(h, q).inventoryDigest, false)))
  {
    hide IsLoadable, BundleOf, InstalledRelease, DeploymentRefOf, RollbackRefOf;
    var s1 := StateAt(h, s, q, Installed(c));
    var prepared := PreparedRecord(h, s1, q, t);
    var p1 := Recorded(c, t.prepared);
    var p2 := Moved(c, t.prepared, t.activated);
    assert prepared == RecordAt(h, s, q, t.prepared);
    assert ActivePointer(prepared, t.activated) == PointerAt(h, s, q, t.activated);
    assert StepWrites(h, s, q, p2, t, true) == [StepWrite(h, s, q, p2, t, true)];
    assert StepWrites(h, s, q, p1, t, true) == [StepWrite(h, s, q, p1, t, true), StepWrite(h, s, q, p2, t, true)];
    assert FreshPlan(h, s1, q, t).writes
        == [StepWrite(h, s, q, Installed(c), t, true), StepWrite(h, s, q, p1, t, true),
            StepWrite(h, s, q, p2, t, true)];
  }

  /** What a replay decides, given that the record is this request's and is served. */
  lemma ReplayDecision(h: Host, s: Store, q: DeployRequest, d: Deployment, t: Clock)
    requires IsSameRequest(h, s, q, d) && IsOwn(s) && IsServing(h, s, d.bound)
    requires d.status.Prepared? && (s.current == d.previous || Matches(s.current, d))
    ensures var moved := !Matches(s.current, d);
      var pointer := if moved then ActivePointer(d, t.activated) else s.current.value;
      ReplayPlan(h, s, q, d, t)
        == Plan((if moved then [PutCurrent(pointer)] else [])
                  + [PutDeployment(DeployRef(q), ActivatedRecord(h, d, pointer, Some(t.reconciled)))],
                Success(DeployReceipt(h, q, d.bound.inventoryDigest, true)))
  {
  }

  lemma ReplayOfActive(h: Host, s: Store, q: DeployRequest, d: Deployment, t: Clock)
    requires IsSameRequest(h, s, q, d) && IsOwn(s) && IsServing(h, s, d.bound)
    requires d.status.Activated? && Matches(s.current, d) && d.status.pointerDigest == PointerDigest(h, s.current)
    ensures ReplayPlan(h, s, q, d, t) == Plan([], Success(DeployReceipt(h, q, d.bound.inventoryDigest, true)))
  {
  }

  lemma SameRequestThroughout(h: Host, s: Store, q: DeployRequest, p: Progress)
    requires Refusal(h, q).None? && IsOwn(s) && !IsFirst(p)
    ensures var s1 := StateAt(h, s, q, p);
      && IsSameRequest(h, s1, q, s1.deployments[DeployRef(q)])
      && IsOwn(s1)
      && s1.deployments[DeployRef(q)].bound == BindingFor(h, s, q)
  {
  }

  lemma ReplayRecorded(h: Host, s: Store, born: Births, q: DeployRequest, p: Progress, t: Clock)
    requires CollisionFree(h.digest) && IsOrdered(s, born) && IsOwn(s)
    requires IsDeployable(h, s, q) && DeployRef(q) !in s.deployments && p.Recorded?
    ensures var s1 := StateAt(h, s, q, p);
      ReplayPlan(h, s1, q, s1.deployments[DeployRef(q)], t)
        == Plan(StepWrites(h, s, q, p, t, false), Success(DeployReceipt(h, q, BundleFor(h, q).inventoryDigest, true)))
  {
    hide ReplayPlan, IsServing, Refusal, IsSameRequest, IsOwn, BundleFor, BundleOf, VerifyRelease, PointerJson;
    hide InstalledRelease, DeploymentRefOf, RollbackRefOf, PointerDigest;
    ServedThroughout(h, s, q, p, t);
    SameRequestThroughout(h, s, q, p);
    var s1 := StateAt(h, s, q, p);
    var d := s1.deployments[DeployRef(q)];
    assert !Matches(s1.current, d);
    ReplayDecision(h, s1, q, d, t);
    var next := Following(p, t, false);
    assert ActivePointer(d, t.activated) == PointerAt(h, s, q, t.activated);
    assert StepWrites(h, s, q, next, t, false) == [StepWrite(h, s, q, next, t, false)];
  }

  lemma ReplayMoved(h: Host, s: Store, q: DeployRequest, p: Progress, t: Clock)
    requires CollisionFree(h.digest) && IsOwn(s)
    requires IsDeployable(h, s, q) && p.Moved?
    ensures var s1 := StateAt(h, s, q, p);
      ReplayPlan(h, s1, q, s1.deployments[DeployRef(q)], t)
        == Plan(StepWrites(h, s, q, p, t, false), Success(DeployReceipt(h, q, BundleFor(h, q).inventoryDigest, true)))
  {
    hide ReplayPlan, IsServing, Refusal, IsSameRequest, IsOwn, BundleFor, BundleOf, VerifyRelease, PointerJson;
    hide InstalledRelease, DeploymentRefOf, RollbackRefOf, PointerDigest;
    ServedThroughout(h, s, q, p, t);
    SameRequestThroughout(h, s, q, p);
    var s1 := StateAt(h, s, q, p);
    ReplayDecision(h, s1, q, s1.deployments[DeployRef(q)], t);
    assert StepWrites(h, s, q, p, t, false) == [StepWrite(h, s, q, p, t, false)];
  }

  lemma ReplayDone(h: Host, s: Store, q: DeployRequest, p: Progress, t: Clock)
    requires CollisionFree(h.digest) && IsOwn(s)
    requires IsDeployable(h, s, q) && p.Done?
    ensures var s1 := StateAt(h, s, q, p);
      ReplayPlan(h, s1, q, s1.deployments[DeployRef(q)], t)
        == Plan([], Success(DeployReceipt(h, q, BundleFor(h, q).inventoryDigest, true)))
  {
    hide ReplayPlan, IsServing, Refusal, IsSameRequest, IsOwn, BundleFor, BundleOf, VerifyRelease, PointerJson;
    hide InstalledRelease, DeploymentRefOf, RollbackRefOf, PointerDigest;
    ServedThroughout(h, s, q, p, t);
    SameRequestThroughout(h, s, q, p);
    var s1 := StateAt(h, s, q, p);
    ReplayOfActive(h, s1, q, s1.deployments[DeployRef(q)], t);
  }

  lemma PlanAtFirst(h: Host, s: Store, q: DeployRequest, p: Progress, t: Clock)
    requires CollisionFree(h.digest) && IsOwn(s) && IsDeployable(h, s, q) && DeployRef(q) !in s.deployments
    requires IsFirst(p) && IsPlace(s, q, p)
    ensures DeployPlan(h, StateAt(h, s, q, p), q, t)
        == Plan(StepWrites(h, s, q, p, t, true), Success(DeployReceipt(h, q, BundleFor(h, q).inventoryDigest, false)))
  {
    hide BundleOf, InstalledRelease, DeploymentRefOf, RollbackRefOf, VerifyRelease;
    ServedThroughout(h, s, q, p, t);
    var c := if p.Start? then t.created else p.created;
    FreshSteps(h, s, q, c, t);
    hide FreshPlan, IsServing, Refusal;
    if p.Start? {
      var w := StepWrite(h, s, q, p, t, true);
      assert InstallWrites(h, s, q, t) == [w];
      StepApplies(h, s, q, p, t, true);
      assert ApplyAll(s, [w]) == StateAt(h, s, q, Installed(c));
    }
  }

  lemma PlanAtReplay(h: Host, s: Store, born: Births, q: DeployRequest, p: Progress, t: Clock)
    requires CollisionFree(h.digest) && IsOrdered(s, born) && IsOwn(s)
    requires IsDeployable(h, s, q) && DeployRef(q) !in s.deployments && !IsFirst(p)
    ensures DeployPlan(h, StateAt(h, s, q, p), q, t)
        == Plan(StepWrites(h, s, q, p, t, false), Success(DeployReceipt(h, q, BundleFor(h, q).inventoryDigest, true)))
  {
    ServedThroughout(h, s, q, p, t);
    match p {
      case Recorded(_, _) => ReplayRecorded(h, s, born, q, p, t);
      case Moved(_, _, _) => ReplayMoved(h, s, q, p, t);
      case Done(_, _, _, _) => ReplayDone(h, s, q, p, t);
    }
    hide ReplayPlan, IsServing, Refusal, BundleOf, InstalledRelease, DeploymentRefOf, RollbackRefOf;
    assert InstallWrites(h, StateAt(h, s, q, p), q, t) == [];
  }

  // ---------------------------------------------------------------- any number of attempts

  /** One call at `clock` that dies after at most `writes` durable writes. */
  datatype Attempt = Attempt(clock: Clock, writes: nat)

  function AfterAttempts(h: Host, s: Store, q: DeployRequest, attempts: seq<Attempt>): Store
    decreases |attempts|
  {
    if attempts == [] then s
    else
      var ws := DeployPlan(h, s, q, attempts[0].clock).writes;
      AfterAttempts(h, ApplyAll(s, ws[..Min(attempts[0].writes, |ws|)]), q, attempts[1..])
  }

  lemma PlanAt(h: Host, s: Store, born: Births, q: DeployRequest, p: Progress, t: Clock)
    requires CollisionFree(h.digest) && IsOrdered(s, born) && IsOwn(s)
    requires IsDeployable(h, s, q) && DeployRef(q) !in s.deployments && IsPlace(s, q, p)
    ensures DeployPlan(h, StateAt(h, s, q, p), q, t)
        == Plan(StepWrites(h, s, q, p, t, IsFirst(p)),
                Success(DeployReceipt(h, q, BundleFor(h, q).inventoryDigest, !IsFirst(p))))
  {
    hide DeployPlan, StateAt, StepWrites, Refusal, BundleFor;
    if IsFirst(p) {
      PlanAtFirst(h, s, q, p, t);
    } else {
      PlanAtReplay(h, s, born, q, p, t);
    }
  }

  lemma {:induction false} AttemptsProgress(h: Host, s: Store, born: Births, q: DeployRequest, p: Progress,
                                            attempts: seq<Attempt>) returns (p': Progress)
    requires CollisionFree(h.digest) && IsOrdered(s, born) && IsOwn(s)
    requires IsDeployable(h, s, q) && DeployRef(q) !in s.deployments && IsPlace(s, q, p)
    ensures IsPlace(s, q, p')
    ensures AfterAttempts(h, StateAt(h, s, q, p), q, attempts) == StateAt(h, s, q, p')
    decreases |attempts|
  {
    hide DeployPlan, StateAt, StepWrites, Refusal, BundleFor;
    if attempts == [] {
      p' := p;
    } else {
      var t := attempts[0].clock;
      PlanAt(h, s, born, q, p, t);
      StepsApply(h, s, q, p, t, IsFirst(p), Min(attempts[0].writes, Remaining(p)));
      p' := AttemptsProgress(h, s, born, q, After(p, t, IsFirst(p), Min(attempts[0].writes, Remaining(p))),
                             attempts[1..]);
    }
  }

  /** A completed deployment stripped of its timestamps and of the digests over them. */
  function Timeless(s: Store, q: DeployRequest): Store {
    var ref, dep := ReleaseRefOf(q.expectedDigest), DeployRef(q);
    s.(releases := if ref in s.releases then s.releases[ref := Undated(s.releases[ref])] else s.releases,
       deployments := if dep in s.deployments then s.deployments[dep := TimelessRecord(s.deployments[dep])]
                      else s.deployments,
       current := if IsLive(s.current) then Some(Live(s.current.value.bound, "")) else s.current)
  }

  function Undated(release: Release): Release {
    if release.metadata.Obj?
    then release.(metadata := Obj(release.metadata.fields[Other("created_at") := Null]))
    else release
  }

  function TimelessRecord(d: Deployment): Deployment {
    d.(preparedAt := "", status := if d.status.Activated? then Activated("", "", None) else Prepared)
  }

  lemma UndatedInstall(b: Bundle, c: string, c': string)
    ensures Undated(InstalledRelease(b, c)) == Undated(InstalledRelease(b, c'))
  {
    assert Undated(InstalledRelease(b, c)).metadata.fields == Undated(InstalledRelease(b, c')).metadata.fields;
  }

  lemma DoneIsTimeless(h: Host, s: Store, q: DeployRequest, p: Progress, p': Progress)
    requires Refusal(h, q).None? && p.Done? && p'.Done?
    ensures Timeless(StateAt(h, s, q, p), q) == Timeless(StateAt(h, s, q, p'), q)
  {
    hide Refusal, BundleFor, DeploymentRefOf, RollbackRefOf, PointerDigest, InstalledRelease, Undated;
    var a, b := StateAt(h, s, q, p), StateAt(h, s, q, p');
    UndatedInstall(BundleFor(h, q), p.created, p'.created);
    var ref, dep := ReleaseRefOf(q.expectedDigest), DeployRef(q);
    assert TimelessRecord(a.deployments[dep]) == TimelessRecord(b.deployments[dep]);
    assert Timeless(a, q).deployments == Timeless(b, q).deployments;
    assert Timeless(a, q).releases == Timeless(b, q).releases;
  }

  function Origin(s: Store, q: DeployRequest): Progress {
    if ReleaseRefOf(q.expectedDigest) in s.releases then Installed("") else Start
  }

  lemma OriginIsStart(h: Host, s: Store, q: DeployRequest)
    requires Refusal(h, q).None?
    ensures StateAt(h, s, q, Origin(s, q)) == s && IsPlace(s, q, Origin(s, q)) && IsFirst(Origin(s, q))
  {
  }

  /** Crash convergence of deployments: after any number of attempts, each dying at any
      write, one more call succeeds and ends where the uninterrupted call ends, up to
      timestamps. */
  lemma DeployConverges(h: Host, s: Store, born: Births, q: DeployRequest, attempts: seq<Attempt>, t: Clock, t0: Clock)
    requires CollisionFree(h.digest) && IsOrdered(s, born) && IsOwn(s)
    requires IsDeployable(h, s, q) && DeployRef(q) !in s.deployments
    ensures var s1 := AfterAttempts(h, s, q, attempts);
      var retry, whole := DeployPlan(h, s1, q, t), DeployPlan(h, s, q, t0);
      && whole.outcome == Success(DeployReceipt(h, q, BundleFor(h, q).inventoryDigest, false))
      && retry.outcome in {Success(DeployReceipt(h, q, BundleFor(h, q).inventoryDigest, true)), whole.outcome}
      && Timeless(ApplyAll(s1, retry.writes), q) == Timeless(ApplyAll(s, whole.writes), q)
  {
    hide DeployPlan, StateAt, StepWrites, Refusal, BundleFor, BundleOf, Timeless, VerifyRelease, RollbackRefOf;
    hide DeploymentRefOf;
    var p := Origin(s, q);
    OriginIsStart(h, s, q);
    var p' := AttemptsProgress(h, s, born, q, p, attempts);
    PlanAt(h, s, born, q, p, t0);
    PlanAt(h, s, born, q, p', t);
    StepsApply(h, s, q, p, t0, IsFirst(p), Remaining(p));
    StepsApply(h, s, q, p', t, IsFirst(p'), Remaining(p'));
    var whole, rest := StepWrites(h, s, q, p, t0, IsFirst(p)), StepWrites(h, s, q, p', t, IsFirst(p'));
    assert whole[..Remaining(p)] == whole && rest[..Remaining(p')] == rest;
    DoneIsTimeless(h, s, q, After(p, t0, IsFirst(p), Remaining(p)), After(p', t, IsFirst(p'), Remaining(p')));
  }

  /** A first deployment on a sound target succeeds exactly when it is deployable. */
  lemma FreshOutcome(h: Host, s: Store, born: Births, q: DeployRequest, t: Clock)
    requires CollisionFree(h.digest) && IsSound(h, s, born) && DeployRef(q) !in s.deployments
    ensures DeployPlan(h, s, q, t).outcome.Success? <==> IsDeployable(h, s, q)
  {
    if IsDeployable(h, s, q) {
      SoundIsOwn(h, s, born);
      OriginIsStart(h, s, q);
      PlanAt(h, s, born, q, Origin(s, q), t);
    } else if Refusal(h, q).None? {
      DeployableIsInstalled(h, s, q, t);
    }
  }

  lemma SoundIsOwn(h: Host, s: Store, born: Births)
    requires IsSound(h, s, born)
    ensures IsOwn(s)
  {
    if IsLive(s.current) {
      assert IsPlaced(s, born, s.current.value.bound.deploymentRef);
    }
  }
}
