/** The durable state of one release target and, for each operation of the filesystem
    adapter, the durable writes it makes and the outcome it reports. */
module ReleaseTarget {
  import opened Json
  import opened ReleaseFiles

  /** The seven fields that bind a pointer to a deployment record. */
  datatype Binding = Binding(
    targetRef: string, eventId: string, stage: string, manifestDigest: string,
    inventoryDigest: string, releaseRef: string, deploymentRef: string)

  /** The content of `current.json`; a target never written to has none. */
  datatype Pointer =
    | Inactive(targetRef: string)
    | Live(bound: Binding, activatedAt: string)

  datatype DeploymentStatus =
    | Prepared
    | Activated(pointerDigest: string, activatedAt: string, reconciledAt: Option<string>)

  datatype Deployment = Deployment(
    bound: Binding, rollbackRef: string, idempotencyKey: string, credentialDigest: string,
    previous: Option<Pointer>, preparedAt: string, status: DeploymentStatus)

  datatype RollbackBase = RollbackBase(
    stage: string, targetRef: string, deploymentRef: string, rollbackRef: string,
    restoredRef: string, receiptRef: string, restoredDigest: string)

  datatype RollbackStatus =
    | Pending
    | Complete(rolledBackAt: string, reconciledAt: Option<string>)

  datatype Rollback = Rollback(base: RollbackBase, preparedAt: string, status: RollbackStatus)

  datatype Receipt =
    | Deployed(deploymentRef: string, rollbackRef: string, digest: string, inventoryDigest: string,
               releaseRef: string, idempotent: bool)
    | Verified(stage: string, deploymentRef: string, verificationRef: string, digest: string, inventoryDigest: string)
    | RolledBack(deploymentRef: string, rollbackRef: string, restoredRef: string, receiptRef: string, idempotent: bool)
    | RollbackVerified(receiptRef: string, verificationRef: string, inventoryDigest: string)
    | ReadBack(readbackRef: string, deploymentRef: string, digest: string, inventoryDigest: string)

  datatype AdapterError =
    | InvalidStage | InvalidKey | InvalidDigest | BundleRejected | Unauthorized | PathsOverlap
    | MissingReference | ReleaseDiffers | RecordMissing | RecordDiffers | CannotReconcile
    | NoActiveRelease | PointerDiffers | BindingDiffers | PreviousUnusable | RollbackDiffers
    | NotActiveDeployment | TargetStateDiffers | PointerForeign

  datatype Outcome = Success(receipt: Receipt) | Failure(error: AdapterError)

  /** One target. Records are filed under their reference: the file name is the full
      digest of the reference. */
  datatype Store = Store(
    targetRef: string,
    releases: map<string, Release>,
    deployments: map<string, Deployment>,
    rollbacks: map<string, Rollback>,
    verifications: map<string, Receipt>,
    readbacks: map<string, Receipt>,
    current: Option<Pointer>)

  /** One atomic file replacement. */
  datatype Write =
    | PutRelease(ref: string, release: Release)
    | PutDeployment(ref: string, deployment: Deployment)
    | PutCurrent(pointer: Pointer)
    | PutRollback(ref: string, rollback: Rollback)
    | PutVerification(ref: string, receipt: Receipt)
    | PutReadback(ref: string, receipt: Receipt)

  function Apply(s: Store, w: Write): Store {
    match w
    case PutRelease(ref, release) => s.(releases := s.releases[ref := release])
    case PutDeployment(ref, deployment) => s.(deployments := s.deployments[ref := deployment])
    case PutCurrent(pointer) => s.(current := Some(pointer))
    case PutRollback(ref, rollback) => s.(rollbacks := s.rollbacks[ref := rollback])
    case PutVerification(ref, receipt) => s.(verifications := s.verifications[ref := receipt])
    case PutReadback(ref, receipt) => s.(readbacks := s.readbacks[ref := receipt])
  }

  function ApplyAll(s: Store, ws: seq<Write>): Store
    decreases |ws|
  {
    if ws == [] then s else ApplyAll(Apply(s, ws[0]), ws[1..])
  }

  function Min(a: nat, b: nat): nat {
    if a <= b then a else b
  }

  /** What one call does: its writes in order, then the outcome it reports. */
  datatype Plan = Plan(writes: seq<Write>, outcome: Outcome)

  /** The readings of the clock during one call. */
  datatype Clock = Clock(created: string, prepared: string, activated: string, reconciled: string, finished: string)

  // ---------------------------------------------------------------- references

  predicate IsStage(stage: string) {
    stage == "preproduction" || stage == "production_canary" || stage == "production_full"
  }

  predicate IsBlank(h: Host, ref: string) {
    h.strip(ref) == ""
  }

  function DeploymentRefOf(stage: string, digest: string, key: string): string {
    "fs-deploy:" + stage + ":" + Take(digest, 12) + ":" + Take(key, 12)
  }

  function RollbackRefOf(h: Host, stage: string, deploymentRef: string): string {
    "fs-rollback:" + stage + ":" + Take(h.digest(Str(deploymentRef)), 20)
  }

  /** The receipt reference keeps 24 digits of a digest, so two rollbacks may share one. */
  function ReceiptRefOf(h: Host, deploymentRef: string, rollbackRef: string): string {
    "fs-rollback-receipt:"
      + Take(h.digest(Obj(map[DeploymentRef := Str(deploymentRef), RollbackRef := Str(rollbackRef)])), 24)
  }

  function VerificationRefOf(h: Host, deploymentRef: string, digest: string): string {
    "fs-verify:" + Take(h.digest(Obj(map[DeploymentRef := Str(deploymentRef), ManifestRDigest := Str(digest)])), 24)
  }

  function RollbackVerificationRefOf(h: Host, receiptRef: string): string {
    "fs-rollback-verify:" + Take(h.digest(Str(receiptRef)), 24)
  }

  function ReadbackRefOf(h: Host, targetRef: string, digest: string, deploymentRef: string): string {
    "fs-readback:" + Take(h.digest(Obj(map[TargetRef := Str(targetRef), ManifestRDigest := Str(digest),
                                           DeploymentRef := Str(deploymentRef)])), 24)
  }

  // ---------------------------------------------------------------- pointers

  predicate IsLive(p: Option<Pointer>) {
    p.Some? && p.value.Live?
  }

  /** A pointer written for another target is refused on every read. */
  predicate IsOwn(s: Store) {
    match s.current
    case None => true
    case Some(Inactive(t)) => t == s.targetRef
    case Some(Live(b, _)) => b.targetRef == s.targetRef
  }

  function PointerJson(p: Option<Pointer>): Json {
    match p
    case None => Null
    case Some(Inactive(t)) =>
      Obj(map[SchemaVersion := Num(1), Active := Bool(false), TargetRef := Str(t)])
    case Some(Live(b, at)) =>
      Obj(map[SchemaVersion := Num(1), Active := Bool(true), AdapterVersion := Str("1.0.0"),
              TargetRef := Str(b.targetRef), EventId := Str(b.eventId), Stage := Str(b.stage),
              ManifestRDigest := Str(b.manifestDigest), InventorySha256 := Str(b.inventoryDigest),
              ReleaseRef := Str(b.releaseRef), DeploymentRef := Str(b.deploymentRef), ActivatedAt := Str(at)])
  }

  function PointerDigest(h: Host, p: Option<Pointer>): string {
    h.digest(PointerJson(p))
  }

  function ActivePointer(d: Deployment, now: string): Pointer {
    Live(d.bound, if d.status.Activated? && d.status.activatedAt != "" then d.status.activatedAt else now)
  }

  predicate Matches(p: Option<Pointer>, d: Deployment) {
    IsLive(p) && p.value.bound == d.bound
  }

  /** The release in the binding is installed and has the inventory it is bound to. */
  predicate IsServing(h: Host, s: Store, b: Binding) {
    && b.releaseRef in s.releases
    && VerifyRelease(h, s.releases[b.releaseRef], b.releaseRef, b.manifestDigest) == Some(b.inventoryDigest)
  }

  // ---------------------------------------------------------------- deploy

  datatype DeployRequest = DeployRequest(
    stage: string, idempotencyKey: string, expectedDigest: string,
    manifest: Json, disk: map<string, Directory>,
    authorized: bool, credential: Json, overlaps: bool)

  function DeployRef(q: DeployRequest): string {
    DeploymentRefOf(q.stage, q.expectedDigest, q.idempotencyKey)
  }

  /** What is checked before the target lock is taken. */
  function Refusal(h: Host, q: DeployRequest): Option<AdapterError> {
    if !IsStage(q.stage) then Some(InvalidStage)
    else if !IsHex(q.idempotencyKey, 64) then Some(InvalidKey)
    else if !IsLoadable(h, q.manifest, q.expectedDigest, q.disk) then Some(BundleRejected)
    else if !q.authorized then Some(Unauthorized)
    else if q.overlaps then Some(PathsOverlap)
    else if IsBlank(h, DeployRef(q)) then Some(MissingReference)
    else None
  }

  function BundleFor(h: Host, q: DeployRequest): Bundle
    requires Refusal(h, q).None?
  {
    BundleOf(h, q.manifest, q.expectedDigest, q.disk)
  }

  /** The installation writes: one for a release not yet there, none otherwise. */
  function InstallWrites(h: Host, s: Store, q: DeployRequest, t: Clock): seq<Write>
    requires Refusal(h, q).None?
  {
    var ref := ReleaseRefOf(q.expectedDigest);
    if ref in s.releases then [] else [PutRelease(ref, InstalledRelease(BundleFor(h, q), t.created))]
  }

  /** The release, old or new, passes the check with the bundle's inventory. */
  predicate IsInstalled(h: Host, s: Store, q: DeployRequest, t: Clock)
    requires Refusal(h, q).None?
  {
    var ref := ReleaseRefOf(q.expectedDigest);
    var release := if ref in s.releases then s.releases[ref] else InstalledRelease(BundleFor(h, q), t.created);
    VerifyRelease(h, release, ref, q.expectedDigest) == Some(BundleFor(h, q).inventoryDigest)
  }

  function BindingFor(h: Host, s: Store, q: DeployRequest): Binding
    requires Refusal(h, q).None?
  {
    var b := BundleFor(h, q);
    Binding(s.targetRef, b.eventId, q.stage, q.expectedDigest, b.inventoryDigest,
            ReleaseRefOf(q.expectedDigest), DeployRef(q))
  }

  function PreparedRecord(h: Host, s: Store, q: DeployRequest, t: Clock): Deployment
    requires Refusal(h, q).None?
  {
    Deployment(BindingFor(h, s, q), RollbackRefOf(h, q.stage, DeployRef(q)), q.idempotencyKey,
               h.digest(q.credential), s.current, t.prepared, Prepared)
  }

  function ActivatedRecord(h: Host, d: Deployment, p: Pointer, reconciledAt: Option<string>): Deployment
    requires p.Live?
  {
    d.(status := Activated(PointerDigest(h, Some(p)), p.activatedAt, reconciledAt))
  }

  function DeployReceipt(h: Host, q: DeployRequest, inventoryDigest: string, idempotent: bool): Receipt {
    Deployed(DeployRef(q), RollbackRefOf(h, q.stage, DeployRef(q)), q.expectedDigest, inventoryDigest,
             ReleaseRefOf(q.expectedDigest), idempotent)
  }

  /** First deployment under this reference. */
  function FreshPlan(h: Host, s: Store, q: DeployRequest, t: Clock): Plan
    requires Refusal(h, q).None?
  {
    var prepared := PreparedRecord(h, s, q, t);
    var pointer := ActivePointer(prepared, t.activated);
    if !IsOwn(s) then Plan([], Failure(PointerForeign))
    else Plan([PutDeployment(DeployRef(q), prepared), PutCurrent(pointer),
          PutDeployment(DeployRef(q), ActivatedRecord(h, prepared, pointer, None))],
         Success(DeployReceipt(h, q, BundleFor(h, q).inventoryDigest, false)))
  }

  predicate IsSameRequest(h: Host, s: Store, q: DeployRequest, d: Deployment) {
    && d.bound.deploymentRef == DeployRef(q)
    && d.rollbackRef == RollbackRefOf(h, q.stage, DeployRef(q))
    && d.bound.stage == q.stage
    && d.bound.targetRef == s.targetRef
    && d.bound.manifestDigest == q.expectedDigest
    && d.idempotencyKey == q.idempotencyKey
    && d.bound.releaseRef == ReleaseRefOf(q.expectedDigest)
  }

  /** The active pointer is what the caller expects and its release is served. */
  predicate IsActivePointer(h: Host, s: Store, p: Option<Pointer>, digest: string) {
    && IsLive(p)
    && p.value.bound.manifestDigest == digest
    && IsServing(h, s, p.value.bound)
  }

  /** Deployment under a reference that already has a record. `s` holds the release. */
  function ReplayPlan(h: Host, s: Store, q: DeployRequest, d: Deployment, t: Clock): Plan {
    if !IsSameRequest(h, s, q, d) then Plan([], Failure(RecordDiffers))
    else if !IsOwn(s) then Plan([], Failure(PointerForeign))
    else
      var reconciled := d.status.Prepared? && !Matches(s.current, d);
      if reconciled && PointerDigest(h, s.current) != PointerDigest(h, d.previous) then
        Plan([], Failure(CannotReconcile))
      else
        var current := if reconciled then Some(ActivePointer(d, t.activated)) else s.current;
        var moved := if reconciled then [PutCurrent(ActivePointer(d, t.activated))] else [];
        if !IsActivePointer(h, s, current, q.expectedDigest)
           || current.value.bound.deploymentRef != DeployRef(q)
        then Plan(moved, Failure(NoActiveRelease))
        else
          var receipt := Success(DeployReceipt(h, q, current.value.bound.inventoryDigest, true));
          if d.status.Prepared? then
            Plan(moved + [PutDeployment(DeployRef(q), ActivatedRecord(h, d, current.value, Some(t.reconciled)))],
                 receipt)
          else if d.status.pointerDigest != PointerDigest(h, current) then
            Plan([], Failure(PointerDiffers))
          else
            Plan([], receipt)
  }

  function DeployPlan(h: Host, s: Store, q: DeployRequest, t: Clock): Plan {
    if Refusal(h, q).Some? then Plan([], Failure(Refusal(h, q).value))
    else
      var install := InstallWrites(h, s, q, t);
      if !IsInstalled(h, s, q, t) then Plan(install, Failure(ReleaseDiffers))
      else
        var s' := ApplyAll(s, install);
        var rest := if DeployRef(q) in s.deployments
                    then ReplayPlan(h, s', q, s.deployments[DeployRef(q)], t)
                    else FreshPlan(h, s', q, t);
        Plan(install + rest.writes, rest.outcome)
  }

  // ---------------------------------------------------------------- verify and readback

  function VerifyPlan(h: Host, s: Store, stage: string, dep: string, rollbackRef: string, digest: string): Plan {
    if !IsStage(stage) then Plan([], Failure(InvalidStage))
    else if IsBlank(h, dep) then Plan([], Failure(MissingReference))
    else if dep !in s.deployments then Plan([], Failure(RecordMissing))
    else
      var d := s.deployments[dep];
      if d.bound.stage != stage || d.bound.targetRef != s.targetRef || d.rollbackRef != rollbackRef
         || d.bound.manifestDigest != digest
      then Plan([], Failure(BindingDiffers))
      else if !IsOwn(s) then Plan([], Failure(PointerForeign))
      else if !IsActivePointer(h, s, s.current, digest) || s.current.value.bound.deploymentRef != dep
      then Plan([], Failure(NoActiveRelease))
      else
        var ref := VerificationRefOf(h, dep, digest);
        var receipt := Verified(stage, dep, ref, digest, s.current.value.bound.inventoryDigest);
        Plan([PutVerification(ref, receipt)], Success(receipt))
  }

  function ReadbackPlan(h: Host, s: Store, digest: string): Plan {
    if !IsHex(digest, 64) then Plan([], Failure(InvalidDigest))
    else if !IsOwn(s) then Plan([], Failure(PointerForeign))
    else if !IsActivePointer(h, s, s.current, digest) then Plan([], Failure(NoActiveRelease))
    else
      var b := s.current.value.bound;
      var ref := ReadbackRefOf(h, s.targetRef, digest, b.deploymentRef);
      var receipt := ReadBack(ref, b.deploymentRef, digest, b.inventoryDigest);
      Plan([PutReadback(ref, receipt)], Success(receipt))
  }

  // ---------------------------------------------------------------- rollback

  /** The pointer a rollback of this deployment puts back. */
  function Restored(d: Deployment, targetRef: string): Pointer {
    if IsLive(d.previous) then d.previous.value else Inactive(targetRef)
  }

  function RestoredRefOf(h: Host, d: Deployment, dep: string): string {
    if IsLive(d.previous) then d.previous.value.bound.deploymentRef
    else "fs-empty:" + Take(h.digest(Str(dep)), 24)
  }

  function BaseFor(h: Host, s: Store, d: Deployment, dep: string): RollbackBase {
    RollbackBase(d.bound.stage, s.targetRef, dep, d.rollbackRef, RestoredRefOf(h, d, dep),
                 ReceiptRefOf(h, dep, d.rollbackRef), PointerDigest(h, Some(Restored(d, s.targetRef))))
  }

  /** A live predecessor must be of this target, still installed, and named. */
  predicate IsPreviousUsable(h: Host, s: Store, d: Deployment) {
    IsLive(d.previous) ==>
      var b := d.previous.value.bound;
      && b.targetRef == s.targetRef
      && b.releaseRef in s.releases
      && VerifyRelease(h, s.releases[b.releaseRef], b.releaseRef, b.manifestDigest).Some?
      && b.deploymentRef != ""
  }

  predicate IsAt(p: Option<Pointer>, dep: string) {
    IsLive(p) && p.value.bound.deploymentRef == dep
  }

  function RollbackReceipt(d: Deployment, dep: string, base: RollbackBase, idempotent: bool): Receipt {
    RolledBack(dep, d.rollbackRef, base.restoredRef, base.receiptRef, idempotent)
  }

  /** The writes of a rollback whose checks have passed. */
  function UndoPlan(h: Host, s: Store, d: Deployment, dep: string, base: RollbackBase, t: Clock): (plan: Plan)
    ensures |plan.writes| <= 3
  {
    var restored := Restored(d, s.targetRef);
    var receipt := RollbackReceipt(d, dep, base, true);
    if base.receiptRef in s.rollbacks then
      var r := s.rollbacks[base.receiptRef];
      if r.base != base then Plan([], Failure(RollbackDiffers))
      else if r.status.Complete? then
        if PointerDigest(h, s.current) != base.restoredDigest then Plan([], Failure(TargetStateDiffers))
        else Plan([], Success(receipt))
      else
        var done := PutRollback(base.receiptRef, r.(status := Complete(t.finished, Some(t.reconciled))));
        if PointerDigest(h, s.current) == base.restoredDigest then Plan([done], Success(receipt))
        else if IsAt(s.current, dep) then Plan([PutCurrent(restored), done], Success(receipt))
        else Plan([], Failure(CannotReconcile))
    else if !IsAt(s.current, dep) then Plan([], Failure(NotActiveDeployment))
    else
      Plan([PutRollback(base.receiptRef, Rollback(base, t.prepared, Pending)),
            PutCurrent(restored),
            PutRollback(base.receiptRef, Rollback(base, t.prepared, Complete(t.finished, None)))],
           Success(RollbackReceipt(d, dep, base, false)))
  }

  function RollbackPlan(h: Host, s: Store, stage: string, dep: string, rollbackRef: string, t: Clock): Plan {
    if !IsStage(stage) then Plan([], Failure(InvalidStage))
    else if IsBlank(h, dep) then Plan([], Failure(MissingReference))
    else if dep !in s.deployments then Plan([], Failure(RecordMissing))
    else
      var d := s.deployments[dep];
      if d.bound.stage != stage || d.bound.targetRef != s.targetRef || d.rollbackRef != rollbackRef
      then Plan([], Failure(BindingDiffers))
      else if !IsOwn(s) then Plan([], Failure(PointerForeign))
      else if !IsPreviousUsable(h, s, d) then Plan([], Failure(PreviousUnusable))
      else
        UndoPlan(h, s, d, dep, BaseFor(h, s, d, dep), t)
  }

  function VerifyRollbackPlan(h: Host, s: Store, stage: string, dep: string, rollbackRef: string,
                              restoredRef: string, receiptRef: string): Plan {
    if !IsStage(stage) then Plan([], Failure(InvalidStage))
    else if IsBlank(h, receiptRef) then Plan([], Failure(MissingReference))
    else if receiptRef !in s.rollbacks then Plan([], Failure(RecordMissing))
    else
      var r := s.rollbacks[receiptRef];
      if r.base.stage != stage || r.base.targetRef != s.targetRef || r.base.deploymentRef != dep
         || r.base.rollbackRef != rollbackRef || r.base.restoredRef != restoredRef
         || r.base.receiptRef != receiptRef || !r.status.Complete?
      then Plan([], Failure(BindingDiffers))
      else if !IsOwn(s) then Plan([], Failure(PointerForeign))
      else if PointerDigest(h, s.current) != r.base.restoredDigest then Plan([], Failure(TargetStateDiffers))
      else if !IsLive(s.current) then
        Plan([], Success(RollbackVerified(receiptRef, RollbackVerificationRefOf(h, receiptRef), "")))
      else
        var b := s.current.value.bound;
        if b.releaseRef !in s.releases
           || VerifyRelease(h, s.releases[b.releaseRef], b.releaseRef, b.manifestDigest).None?
        then Plan([], Failure(ReleaseDiffers))
        else
          var digest := VerifyRelease(h, s.releases[b.releaseRef], b.releaseRef, b.manifestDigest).value;
          Plan([], Success(RollbackVerified(receiptRef, RollbackVerificationRefOf(h, receiptRef), digest)))
  }

  // ---------------------------------------------------------------- operations

  datatype Operation =
    | Deploy(request: DeployRequest)
    | Verify(stage: string, dep: string, rollbackRef: string, digest: string)
    | Readback(digest: string)
    | RollBack(stage: string, dep: string, rollbackRef: string)
    | VerifyRollback(stage: string, dep: string, rollbackRef: string, restoredRef: string, receiptRef: string)

  function PlanOf(h: Host, s: Store, op: Operation, t: Clock): Plan {
    match op
    case Deploy(q) => DeployPlan(h, s, q, t)
    case Verify(stage, dep, rollbackRef, digest) => VerifyPlan(h, s, stage, dep, rollbackRef, digest)
    case Readback(digest) => ReadbackPlan(h, s, digest)
    case RollBack(stage, dep, rollbackRef) => RollbackPlan(h, s, stage, dep, rollbackRef, t)
    case VerifyRollback(stage, dep, rollbackRef, restoredRef, receiptRef) =>
      VerifyRollbackPlan(h, s, stage, dep, rollbackRef, restoredRef, receiptRef)
  }
}
