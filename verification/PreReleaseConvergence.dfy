/** Retries of a request, composed with replays of the final build, come to one message. */
module PreReleaseConvergence {
  import opened Json
  import opened GateDisk
  import opened ReleaseGate
  import opened GateRuns
  import opened GateEvidence
  import opened GateReplay
  import GateImport
  import opened PreRelease
  import opened PreReleaseRuns

  ghost predicate IsTextHash(g: Settings) {
    forall x, y :: g.textHash(x) == g.textHash(y) ==> x == y
  }

  // ---------------------------------------------------------------- different requests, different messages

  lemma KeyNamesTask(h: Host, a: TaskKey, x: string, i: Intent, b: TaskKey, y: string, j: Intent)
    requires CollisionFree(h.digest) && IdempotencyKey(h, a, x, i) == IdempotencyKey(h, b, y, j)
    ensures a == b && x == y
  {
    var m := map[EventId := Str(a.eventId), RoundId := Num(a.round),
                 ManifestRDigest := Str(x), Other("intent") := IntentJson(i)];
    var n := map[EventId := Str(b.eventId), RoundId := Num(b.round),
                 ManifestRDigest := Str(y), Other("intent") := IntentJson(j)];
    assert IdempotencyKey(h, a, x, i)[7..] == h.digest(Obj(m));
    assert IdempotencyKey(h, b, y, j)[7..] == h.digest(Obj(n));
    assert Obj(m) == Obj(n);
    assert m[EventId] == n[EventId] && m[RoundId] == n[RoundId] && m[ManifestRDigest] == n[ManifestRDigest];
  }

  /** The hash is followed by the domain alone, so equal identifiers have equal hashes. */
  lemma MessageIdNamesKey(g: Settings, x: string, y: string)
    requires g.domain.Some? && IsTextHash(g) && MessageId(g, x) == MessageId(g, y)
    ensures x == y
  {
    var head, tail := "<pmg-prerelease-", "@" + g.domain.value + ">";
    assert MessageId(g, x) == head + g.textHash(x) + tail && MessageId(g, y) == head + g.textHash(y) + tail;
    var n := |MessageId(g, x)| - |tail|;
    assert MessageId(g, x)[|head|..n] == g.textHash(x);
    assert MessageId(g, y)[|head|..n] == g.textHash(y);
  }

  /** Over every run, two mails carry the same Message-ID only if they are for the same
      task, and then they are the same mail. */
  lemma MessageIdNamesMail(h: Host, g: Settings, events: seq<PreEvent>, m: Mail, n: Mail)
    requires CollisionFree(h.digest) && IsTextHash(g)
    requires m in FollowAll(h, g, Empty(), events).posted && n in FollowAll(h, g, Empty(), events).posted
    ensures m.messageId == n.messageId <==> m == n
  {
    hide PlanFor, CollisionFree, IsTextHash;
    var w := FollowAll(h, g, Empty(), events);
    RunKeepsWorld(h, g, Empty(), events);
    assert IsMailFaithful(w, m) && IsMailFaithful(w, n);
    var a, b := w.tasks[m.key], w.tasks[n.key];
    assert IsTask(h, g, a) && IsTask(h, g, b);
    if m.messageId == n.messageId {
      MessageIdNamesKey(g, a.request.value.idempotencyKey, b.request.value.idempotencyKey);
      KeyNamesTask(h, a.key, a.request.value.manifestRDigest, a.intent.value,
                   b.key, b.request.value.manifestRDigest, b.intent.value);
    }
  }

  // ---------------------------------------------------------------- where a request comes from

  /** A save that brings in a request takes it from the build's answer, for the intent's directory. */
  predicate IsSaveFrom(h: Host, g: Settings, t: Task, dir: string, a: Answers, action: Action) {
    action.Save? ==>
      && action.task.key == t.key
      && (t.request.None? && action.task.request.Some? ==>
            && a.built.Some? && action.task.intent.Some? && action.task.intent.value.outputDir == dir
            && action.task.request.value.manifestRDigest == h.strip(a.built.value.0)
            && action.task.request.value.manifestRRef == h.strip(a.built.value.1))
  }

  predicate AreSavesFrom(h: Host, g: Settings, t: Task, dir: string, a: Answers, actions: seq<Action>) {
    forall action :: action in actions ==> IsSaveFrom(h, g, t, dir, a, action)
  }

  lemma CreateSaves(h: Host, g: Settings, tasks: map<TaskKey, Task>, q: CreateArgs, a: Answers)
    requires q.key in tasks && tasks[q.key].key == q.key
    ensures AreSavesFrom(h, g, tasks[q.key], g.absolute(q.outputDir), a, CreatePlan(h, g, tasks, q, a).actions)
  {
    hide RequestOf;
    var t, dir := tasks[q.key], g.absolute(q.outputDir);
    if t.status != RequestSent && q.pass.Some? && q.pass.value {
      if t.intent.Some? {
        if t.intent.value == IntentOf(h, g, q, t.intent.value.completedAt) {
          PassSaves(h, g, t, t, dir, a);
        }
      } else {
        var frozen := t.(intent := Some(IntentOf(h, g, q, q.now)));
        PassSaves(h, g, t, frozen, dir, a);
      }
    }
  }

  lemma PassSaves(h: Host, g: Settings, t: Task, frozen: Task, dir: string, a: Answers)
    requires frozen.key == t.key && frozen.request == t.request
    requires frozen.intent.Some? && frozen.intent.value.outputDir == dir
    ensures AreSavesFrom(h, g, t, dir, a, PassPlan(h, g, frozen, a).actions)
  {
    if !(frozen.status == GateRunning && frozen.request.Some?) && a.imported.Some? {
      var status := h.strip(a.imported.value);
      if status == "TESTING" {
        if a.recorded.Some? {
          GateSaves(h, g, t, frozen.(status := UnderTest), dir, h.strip(a.recorded.value), a);
        }
      } else if status != "" {
        GateSaves(h, g, t, frozen, dir, status, a);
      }
    }
  }

  lemma GateSaves(h: Host, g: Settings, t: Task, frozen: Task, dir: string, status: string, a: Answers)
    requires frozen.key == t.key && frozen.request == t.request
    requires frozen.intent.Some? && frozen.intent.value.outputDir == dir
    ensures AreSavesFrom(h, g, t, dir, a, GatePlan(h, g, frozen, frozen.intent.value, status, a).actions)
  {
    BuildSaves(h, g, t, frozen, dir, a);
    hide BuildPlan;
  }

  lemma BuildSaves(h: Host, g: Settings, t: Task, frozen: Task, dir: string, a: Answers)
    requires frozen.key == t.key && frozen.request == t.request
    requires frozen.intent.Some? && frozen.intent.value.outputDir == dir
    ensures AreSavesFrom(h, g, t, dir, a, BuildPlan(h, g, frozen, frozen.intent.value, a).actions)
  {
    hide IdempotencyKey, MessageId, PayloadOf, Subject;
  }

  /** What is stored afterwards was stored before or saved on the way. */
  lemma {:induction false} StoredFrom(w: World, actions: seq<Action>, key: TaskKey)
    requires key in PerformAll(w, actions).tasks
    ensures || (key in w.tasks && PerformAll(w, actions).tasks[key] == w.tasks[key])
            || (PerformAll(w, actions).tasks[key].key == key && Save(PerformAll(w, actions).tasks[key]) in actions)
    decreases |actions|
  {
    if actions != [] {
      StoredFrom(Perform(w, actions[0]), actions[1..], key);
    }
  }

  // ---------------------------------------------------------------- truthful builds

  function FieldText(h: Host, base: Json, name: string): string {
    if base.Obj? then Text(h, base.Get(Other(name))) else ""
  }

  /** The import that every PASS call with this frozen intent asks the gate for. */
  function HandoffOf(h: Host, g: Settings, t: Task, i: Intent): GateImport.Handoff
    requires t.manifestS.Some?
  {
    var risk := FieldText(h, t.base, "risk_level");
    GateImport.Handoff(t.key.eventId, t.key.round, t.name, t.moduleName, i.testedDir,
                       g.sourceRef(t.base, t.manifestS.value), h.strip(FieldText(h, t.base, "rollback_ref")),
                       if risk != "" then risk else "standard", FieldText(h, t.base, "submission_policy_digest"))
  }

  /** What a call imports, and the disk that says where the tested files lie. */
  datatype Import = Import(handoff: GateImport.Handoff, document: Json, disk: Disk)

  /** The gate really built: some run of its event, without forged manifests, in which this
      import was accepted at one point and whose build into `dir` then succeeded with this digest. */
  ghost predicate IsBuild(h: Host, p: Policy, from: Import, dir: string, digest: string) {
    exists first: Case, run: seq<Command>, accepted: nat, now: string, fault: Fault ::
      IsBuildBy(h, p, from, dir, digest, first, run, accepted, now, fault)
  }

  predicate IsAccepted(h: Host, from: Import, c: Case) {
    && GateImport.IsImportable(h, from.handoff, from.document)
    && GateImport.IsReplayOf(h, from.handoff, from.document, c)
    && GateImport.AreSamePlaces(h, from.handoff, from.disk, from.handoff, c.disk,
                                GateImport.ImportedMaterials(h, from.handoff, from.document))
  }

  predicate IsBuildBy(h: Host, p: Policy, from: Import, dir: string, digest: string,
                      first: Case, run: seq<Command>, accepted: nat, now: string, fault: Fault) {
    && IsNewCase(h, first) && HasNoForgery(run)
    && accepted <= |run| && IsAccepted(h, from, After(h, p, first, run[..accepted]))
    && Build(h, After(h, p, first, run), dir, now, fault).0.Done?
    && digest == "sha256:" + Build(h, After(h, p, first, run), dir, now, fault).0.value.digest
  }

  /** The digest behind such a build is the one that document and tested files give. */
  lemma BuildStartsFrom(h: Host, p: Policy, from: Import, dir: string, digest: string,
                        first: Case, run: seq<Command>, accepted: nat, now: string, fault: Fault)
    requires IsBuildBy(h, p, from, dir, digest, first, run, accepted, now, fault)
    ensures GateImport.IsImportable(h, from.handoff, from.document)
    ensures first.event.manifestSDigest
         == SourceDigest(h, GateImport.ImportedArtifacts(h, from.handoff, from.disk,
              GateImport.ImportedMaterials(h, from.handoff, from.document)))
  {
    hide Build, IsNewCase, GateImport.IsImportable, GateImport.IsReplayOf, GateImport.AreSamePlaces, SourceDigest;
    hide GateImport.ImportedArtifacts;
    var c := After(h, p, first, run[..accepted]);
    RunFixesDigest(h, p, first, run[..accepted]);
    GateImport.AcceptedFixesDigest(h, from.handoff, from.document, c, from.disk);
  }

  lemma RunFixesDigest(h: Host, p: Policy, first: Case, run: seq<Command>)
    requires IsNewCase(h, first)
    ensures After(h, p, first, run).event.manifestSDigest == first.event.manifestSDigest
  {
    RunKeepsEvent(h, p, first, run);
  }

  lemma BuildsAgree(h: Host, p: Policy, from: Import, dir: string, x: string, y: string)
    requires CollisionFree(h.digest) && IsContentHash(h)
    requires IsBuild(h, p, from, dir, x) && IsBuild(h, p, from, dir, y)
    ensures x == y
  {
    hide IsBuildBy, CollisionFree, IsContentHash;
    var first, run, accepted: nat, now, fault :| IsBuildBy(h, p, from, dir, x, first, run, accepted, now, fault);
    var second, other, taken: nat, later, otherFault :|
      IsBuildBy(h, p, from, dir, y, second, other, taken, later, otherFault);
    BuildStartsFrom(h, p, from, dir, x, first, run, accepted, now, fault);
    BuildStartsFrom(h, p, from, dir, y, second, other, taken, later, otherFault);
    BuildPairAgrees(h, p, from, dir, x, first, run, accepted, now, fault, y, second, other, taken, later, otherFault);
  }

  lemma BuildPairAgrees(h: Host, p: Policy, from: Import, dir: string,
                        x: string, first: Case, run: seq<Command>, accepted: nat, now: string, fault: Fault,
                        y: string, second: Case, other: seq<Command>, taken: nat, later: string, otherFault: Fault)
    requires CollisionFree(h.digest) && IsContentHash(h)
    requires IsBuildBy(h, p, from, dir, x, first, run, accepted, now, fault)
    requires IsBuildBy(h, p, from, dir, y, second, other, taken, later, otherFault)
    requires first.event.manifestSDigest == second.event.manifestSDigest
    ensures x == y
  {
    hide CollisionFree, IsContentHash, Build, After, IsNewCase, IsAccepted;
    AllBuildsAgree(h, p, first, run, now, fault, second, other, later, otherFault, dir);
  }

  /** Whenever a call for the task got an answer from the build, the answer was true. */
  ghost predicate IsTruthful(h: Host, g: Settings, p: Policy, key: TaskKey, from: Import, ref: string, e: PreEvent) {
    e.Create? && e.args.key == key && e.answers.built.Some? ==>
      && IsBuild(h, p, from, g.absolute(e.args.outputDir), e.answers.built.value.0)
      && e.answers.built.value.1 == ref
  }

  ghost predicate AreTruthful(h: Host, g: Settings, p: Policy, key: TaskKey, from: Import, ref: string,
                              events: seq<PreEvent>) {
    forall i :: 0 <= i < |events| ==> IsTruthful(h, g, p, key, from, ref, events[i])
  }

  /** The stored request comes from a true build of this submission into the frozen directory. */
  ghost predicate IsRequestTrue(h: Host, p: Policy, from: Import, ref: string, t: Task) {
    t.request.Some? ==>
      && t.intent.Some?
      && t.request.value.manifestRRef == h.strip(ref)
      && exists digest :: IsBuild(h, p, from, t.intent.value.outputDir, digest)
                          && t.request.value.manifestRDigest == h.strip(digest)
  }

  lemma FollowKeepsTruth(h: Host, g: Settings, p: Policy, w: World, e: PreEvent, key: TaskKey, from: Import,
                         ref: string)
    requires IsWorld(h, g, w) && key in w.tasks && IsRequestTrue(h, p, from, ref, w.tasks[key])
    requires IsTruthful(h, g, p, key, from, ref, e)
    ensures key in Follow(h, g, w, e).tasks && IsRequestTrue(h, p, from, ref, Follow(h, g, w, e).tasks[key])
  {
    hide IsBuild, CreatePlan, RequestOf, AreActionsLawful;
    var actions := Lived(PlanFor(h, g, w, e).actions, e.lived);
    var next := Follow(h, g, w, e);
    EventLawful(h, g, w, e);
    LawfulActionsKeep(h, g, w, PlanFor(h, g, w, e).actions, e.lived);
    assert IsSuccessor(w.tasks[key], next.tasks[key]);
    if w.tasks[key].request.None? && next.tasks[key].request.Some? {
      StoredFrom(w, actions, key);
      assert Save(next.tasks[key]) in PlanFor(h, g, w, e).actions;
      NewRequestIsTrue(h, g, p, w, e, key, from, ref, next.tasks[key]);
    }
  }

  lemma NewRequestIsTrue(h: Host, g: Settings, p: Policy, w: World, e: PreEvent, key: TaskKey, from: Import,
                         ref: string, t: Task)
    requires key in w.tasks && (forall k :: k in w.tasks ==> w.tasks[k].key == k) && w.tasks[key].request.None?
    requires IsTruthful(h, g, p, key, from, ref, e)
    requires t.key == key && t.request.Some? && Save(t) in PlanFor(h, g, w, e).actions
    ensures IsRequestTrue(h, p, from, ref, t)
  {
    hide IsBuild, CreatePlan, RequestOf;
    match e {
      case Create(q, a, _) =>
        if q.key in w.tasks {
          CreateSaves(h, g, w.tasks, q, a);
          assert IsSaveFrom(h, g, w.tasks[q.key], g.absolute(q.outputDir), a, Save(t));
        } else {
          NoTaskNoActions(h, g, w, q, a);
        }
      case Resend(k, answer, _) =>
      case Arrive(_, _) =>
    }
  }

  lemma NoTaskNoActions(h: Host, g: Settings, w: World, q: CreateArgs, a: Answers)
    requires q.key !in w.tasks
    ensures CreatePlan(h, g, w.tasks, q, a).actions == []
  {
  }

  lemma {:induction false} RunKeepsTruth(h: Host, g: Settings, p: Policy, w: World, events: seq<PreEvent>,
                                         key: TaskKey, from: Import, ref: string)
    requires IsWorld(h, g, w) && key in w.tasks && IsRequestTrue(h, p, from, ref, w.tasks[key])
    requires AreTruthful(h, g, p, key, from, ref, events)
    ensures key in FollowAll(h, g, w, events).tasks
    ensures IsRequestTrue(h, p, from, ref, FollowAll(h, g, w, events).tasks[key])
    decreases |events|
  {
    hide IsRequestTrue, IsTruthful, IsWorld, PlanFor, Follow;
    if events != [] {
      var n := |events| - 1;
      RunKeepsTruth(h, g, p, w, events[..n], key, from, ref);
      RunKeepsWorld(h, g, w, events[..n]);
      FollowKeepsTruth(h, g, p, FollowAll(h, g, w, events[..n]), events[n], key, from, ref);
    }
  }

  /** What the calls of this task import. */
  function ImportOf(h: Host, g: Settings, t: Task, disk: Disk): Import
    requires t.manifestS.Some? && t.intent.Some?
  {
    Import(HandoffOf(h, g, t, t.intent.value), t.manifestS.value, disk)
  }

  /** Retries converge. Start where the intent of a task is frozen and nothing is mailed
      yet, and take any two continuations in which the gate, when it answers a build at
      all, answers truthfully for an event that took the import of this task, with the
      tested files at their places: with whatever failures, deaths, blocked and replayed
      builds on the way, if both come to a request it is the same request, with the same
      Manifest-R digest, idempotency key, Message-ID, subject, payload and signature. */
  lemma RetriesConverge(h: Host, g: Settings, p: Policy, w: World, key: TaskKey, disk: Disk, ref: string,
                        events: seq<PreEvent>, others: seq<PreEvent>)
    requires CollisionFree(h.digest) && IsContentHash(h)
    requires IsWorld(h, g, w) && key in w.tasks && w.tasks[key].intent.Some? && w.tasks[key].request.None?
    requires w.tasks[key].manifestS.Some?
    requires var from := ImportOf(h, g, w.tasks[key], disk);
      AreTruthful(h, g, p, key, from, ref, events) && AreTruthful(h, g, p, key, from, ref, others)
    ensures var a, b := FollowAll(h, g, w, events), FollowAll(h, g, w, others);
      && key in a.tasks && key in b.tasks
      && (a.tasks[key].request.Some? && b.tasks[key].request.Some? ==>
            a.tasks[key].request == b.tasks[key].request && MailOf(a.tasks[key]) == MailOf(b.tasks[key]))
  {
    hide IsBuild, CollisionFree, IsContentHash, PlanFor, AreTruthful, RequestOf, ImportOf;
    var from := ImportOf(h, g, w.tasks[key], disk);
    RunKeepsTruth(h, g, p, w, events, key, from, ref);
    RunKeepsTruth(h, g, p, w, others, key, from, ref);
    RunKeepsWorld(h, g, w, events);
    RunKeepsWorld(h, g, w, others);
    var a, b := FollowAll(h, g, w, events).tasks[key], FollowAll(h, g, w, others).tasks[key];
    assert IsSuccessor(w.tasks[key], a) && IsSuccessor(w.tasks[key], b);
    assert IsTask(h, g, a) && IsTask(h, g, b);
    if a.request.Some? && b.request.Some? {
      var i := a.intent.value;
      var x :| IsBuild(h, p, from, i.outputDir, x) && a.request.value.manifestRDigest == h.strip(x);
      var y :| IsBuild(h, p, from, i.outputDir, y) && b.request.value.manifestRDigest == h.strip(y);
      BuildsAgree(h, p, from, i.outputDir, x, y);
      RequestStable(h, g, a, b, i, h.strip(x), h.strip(ref));
    }
  }
}
