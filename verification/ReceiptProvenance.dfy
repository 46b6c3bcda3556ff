/** The whole verification, and what follows from its success. */
module ReceiptProvenance {
  import opened Json
  import opened GateReceipt
  import opened ReceiptVerdict

  datatype Claim = Claim(
    eventId: string, requestSha256: string, manifestRDigest: string, projectId: int, ref: string, timestampOk: bool)

  /** What GitLab answers; an absent answer is a failed fetch. */
  datatype Remote = Remote(pipeline: Option<Json>, job: Option<Json>, branch: Option<Json>,
                           archive: Option<seq<ZipEntry>>)

  datatype VerifiedReceipt = VerifiedReceipt(
    verdict: string, claim: Claim, pipelineId: int, jobId: int, commitSha: string,
    gateResultSha256: string, artifactManifestSha256: string)

  // ---------------------------------------------------------------- small readers

  predicate IsIdChar(c: char) {
    'a' <= c <= 'z' || 'A' <= c <= 'Z' || '0' <= c <= '9' || c in "._-"
  }

  predicate IsEventId(s: string) {
    s != "" && forall i :: 0 <= i < |s| ==> IsIdChar(s[i])
  }

  predicate IsDecimal(s: string) {
    s != "" && '1' <= s[0] <= '9' && forall i :: 0 <= i < |s| ==> '0' <= s[i] <= '9'
  }

  function DecimalValue(s: string): nat
    requires forall i :: 0 <= i < |s| ==> '0' <= s[i] <= '9'
    decreases |s|
  {
    if s == "" then 0
    else DecimalValue(s[..|s| - 1]) * 10 + (s[|s| - 1] as int - '0' as int)
  }

  function PositiveInt(v: Json): Option<int> {
    match v
    case Num(n) => if n >= 1 then Some(n) else None
    case Str(s) => if IsDecimal(s) && DecimalValue(s) >= 1 then Some(DecimalValue(s)) else None
    case _ => None
  }

  predicate IsDigest(s: string) {
    |s| == 71 && s[..7] == "sha256:" && IsHex(s[7..], 64)
  }

  function DigestText(h: Host, v: Json): Option<string> {
    var s := h.lower(h.strip(Text(h, v)));
    if IsDigest(s) then Some(s) else None
  }

  // ---------------------------------------------------------------- locator and handoff

  predicate IsLocator(v: Json, projectId: int) {
    && v.Obj? && v.fields.Keys == {SchemaName, Other("project_id"), Other("pipeline_id"), Other("job_id")}
    && v.Get(SchemaName) == Str("ProductMaterialGatePipelineLocator/v1")
    && PositiveInt(v.Get(Other("project_id"))) == Some(projectId)
    && PositiveInt(v.Get(Other("pipeline_id"))).Some? && PositiveInt(v.Get(Other("job_id"))).Some?
  }

  function ApprovalBinding(h: Host, c: Claim, request: string, manifestR: string, report: string,
                           messageId: string): string {
    "sha256:" + h.digest(Obj(map[EventId := Str(c.eventId), Other("manifest_sha256") := Str(manifestR),
                                 Other("pre_release_report_sha256") := Str(report),
                                 Other("request_sha256") := Str(request),
                                 Other("source_message_id") := Str(messageId)]))
  }

  predicate IsHandoffSource(h: Host, c: Claim, source: Json, request: string, manifestR: string) {
    && source.Obj?
    && source.fields.Keys == {Other("approval_binding_sha256"), EventId, Other("manifest_sha256"),
                              Other("pre_release_report_sha256"), Other("pre_release_status"),
                              Other("source_message_id")}
    && source.Get(Other("pre_release_status")) == Str("PASS")
    && source.Get(EventId) == Str(c.eventId) && source.Get(Other("manifest_sha256")) == Str(manifestR)
    && var report := DigestText(h, source.Get(Other("pre_release_report_sha256")));
       var message := source.Get(Other("source_message_id"));
    && report.Some? && message.Str? && h.strip(message.s) != "" && '\r' !in message.s && '\n' !in message.s
    && DigestText(h, source.Get(Other("approval_binding_sha256")))
         == Some(ApprovalBinding(h, c, request, manifestR, report.value, message.s))
  }

  predicate IsHandoff(h: Host, c: Claim, v: Json, request: string, manifestR: string) {
    && v.Obj?
    && v.fields.Keys == {SchemaName, Stage, EventId, Other("request"), Other("request_sha256"), Other("source"),
                         Other("created_at")}
    && v.Get(SchemaName) == Str("ProductMaterialWorkflow/v1") && v.Get(Stage) == Str("RELEASE_GATE_REQUESTED")
    && v.Get(EventId) == Str(c.eventId)
    && v.Get(Other("request")).Obj? && v.Get(Other("request")).Get(Other("request_id")) == Str(c.eventId)
    && "sha256:" + h.digest(v.Get(Other("request"))) == request && v.Get(Other("request_sha256")) == Str(request)
    && IsHandoffSource(h, c, v.Get(Other("source")), request, manifestR)
  }

  // ---------------------------------------------------------------- pipeline, job and branch

  function CommitOf(h: Host, pipeline: Json): string
    requires pipeline.Obj?
  {
    h.lower(Text(h, pipeline.Get(Other("sha"))))
  }

  predicate IsProtectedRun(h: Host, c: Claim, pipelineId: int, jobId: int, pipeline: Json, job: Json, branch: Json) {
    && pipeline.Obj? && job.Obj? && branch.Obj?
    && PositiveInt(pipeline.Get(Other("id"))) == Some(pipelineId)
    && Text(h, pipeline.Get(Other("ref"))) == c.ref && IsHex(CommitOf(h, pipeline), 40)
    && job.Get(Other("pipeline")).Obj? && PositiveInt(job.Get(Other("pipeline")).Get(Other("id"))) == Some(pipelineId)
    && PositiveInt(job.Get(Other("id"))) == Some(jobId)
    && job.Get(Other("name")) == Str("live_gate") && Text(h, job.Get(Other("ref"))) == c.ref
    && job.Get(Other("commit")).Obj?
    && h.lower(Text(h, job.Get(Other("commit")).Get(Other("id")))) == CommitOf(h, pipeline)
    && job.Get(Other("tag")) == Bool(false)
    && branch.Get(Other("protected")) == Bool(true) && branch.Get(Other("name")) == Str(c.ref)
  }

  predicate HasStatus(h: Host, v: Json, status: string)
    requires v.Obj?
  {
    h.lower(Text(h, v.Get(Other("status")))) == status
  }

  predicate IsAttestation(h: Host, c: Claim, a: Json, pipelineId: int, jobId: int, commit: string, request: string,
                          snapshot: Json) {
    && a.Obj?
    && IsOne(a.Get(Other("schema_version"))) && a.Get(Other("mode")) == Str("live")
    && Text(h, a.Get(Other("project_id"))) == h.repr(Num(c.projectId))
    && PositiveInt(a.Get(Other("pipeline_id"))) == Some(pipelineId)
    && PositiveInt(a.Get(Other("job_id"))) == Some(jobId)
    && h.lower(Text(h, a.Get(Other("reviewed_commit")))) == commit
    && a.Get(Other("request_id")) == Str(c.eventId) && a.Get(Other("request_sha256")) == Str(request)
    && a.Get(Other("network_service_in_tcb")) == Bool(true)
    && a.Get(Other("ci_snapshot_manifest_sha256")) == snapshot
  }

  // ---------------------------------------------------------------- the archive's three documents

  /** The paths and contents the verifier judges. */
  datatype Evidence = Evidence(
    manifestPath: string, resultPath: string, attestationPath: string, manifest: Json, result: Json, attestation: Json)

  predicate IsEvidence(h: Host, t: Tools, payloads: Payloads, e: Evidence) {
    && SingleSuffix(payloads, MANIFEST_NAME) == Some(e.manifestPath)
    && SingleSuffix(payloads, RESULT_NAME) == Some(e.resultPath)
    && SingleSuffix(payloads, ATTESTATION_NAME) == Some(e.attestationPath)
    && HasName(e.manifestPath, MANIFEST_NAME)
    && e.manifestPath in payloads && e.resultPath in payloads && e.attestationPath in payloads
    && t.parse(payloads[e.manifestPath]) == Some(e.manifest)
    && t.parse(payloads[e.resultPath]) == Some(e.result)
    && t.parse(payloads[e.attestationPath]) == Some(e.attestation)
    && IsManifest(h, payloads, RootOf(e.manifestPath), e.manifest)
  }

  lemma SuffixIsThere(payloads: Payloads, name: string)
    ensures SingleSuffix(payloads, name).Some? ==>
      SingleSuffix(payloads, name).value in payloads && HasName(SingleSuffix(payloads, name).value, name)
  {
  }

  method ReadEvidence(h: Host, t: Tools, payloads: Payloads) returns (evidence: Option<Evidence>)
    ensures evidence.Some? ==> IsEvidence(h, t, payloads, evidence.value)
    ensures evidence.None? ==> forall e :: !IsEvidence(h, t, payloads, e)
  {
    hide SingleSuffix, IsManifest, RootOf, HasName;
    SuffixIsThere(payloads, MANIFEST_NAME);
    SuffixIsThere(payloads, RESULT_NAME);
    SuffixIsThere(payloads, ATTESTATION_NAME);
    var m := SingleSuffix(payloads, MANIFEST_NAME);
    if m.None? || t.parse(payloads[m.value]).None? {
      return None;
    }
    var manifest := t.parse(payloads[m.value]).value;
    var bound := ValidateArtifactManifest(h, payloads, RootOf(m.value), manifest);
    if !bound {
      return None;
    }
    var r := SingleSuffix(payloads, RESULT_NAME);
    if r.None? {
      return None;
    }
    var a := SingleSuffix(payloads, ATTESTATION_NAME);
    if a.None? {
      return None;
    }
    var result, attestation := t.parse(payloads[r.value]), t.parse(payloads[a.value]);
    if result.None? || attestation.None? {
      return None;
    }
    return Some(Evidence(m.value, r.value, a.value, manifest, result.value, attestation.value));
  }

  /** Everything outside the archive: claim, locator, handoff and GitLab's three answers. */
  predicate IsFramed(h: Host, c: Claim, locator: Json, handoff: Json, remote: Remote) {
    && IsEventId(c.eventId)
    && DigestText(h, Str(c.requestSha256)).Some? && DigestText(h, Str(c.manifestRDigest)).Some?
    && IsLocator(locator, c.projectId)
    && IsHandoff(h, c, handoff, DigestText(h, Str(c.requestSha256)).value, DigestText(h, Str(c.manifestRDigest)).value)
    && remote.pipeline.Some? && remote.job.Some? && remote.branch.Some?
    && IsProtectedRun(h, c, PositiveInt(locator.Get(Other("pipeline_id"))).value,
                      PositiveInt(locator.Get(Other("job_id"))).value,
                      remote.pipeline.value, remote.job.value, remote.branch.value)
  }

  /** The three documents together with the run they are to come from. */
  predicate IsProven(h: Host, t: Tools, c: Claim, locator: Json, remote: Remote, e: Evidence)
    requires locator.Obj? && remote.pipeline.Some? && remote.job.Some?
  {
    && PositiveInt(locator.Get(Other("pipeline_id"))).Some? && PositiveInt(locator.Get(Other("job_id"))).Some?
    && DigestText(h, Str(c.requestSha256)).Some?
    && remote.pipeline.value.Obj? && remote.job.value.Obj? && e.manifest.Obj?
    && IsGateResult(h, t, e.result, c.eventId)
    && IsAttestation(h, c, e.attestation, PositiveInt(locator.Get(Other("pipeline_id"))).value,
                     PositiveInt(locator.Get(Other("job_id"))).value, CommitOf(h, remote.pipeline.value),
                     DigestText(h, Str(c.requestSha256)).value, e.manifest.Get(PAYLOAD_DIGEST))
    && var status := if VerdictOf(h, t, e.result) == "CLEAN" then "success" else "failed";
    && HasStatus(h, remote.pipeline.value, status) && HasStatus(h, remote.job.value, status)
  }

  /** The receipt names the claim in its normal form and the run that the locator points at, as
      GitLab reports it. */
  predicate NamesRun(h: Host, c: Claim, locator: Json, remote: Remote, r: VerifiedReceipt) {
    && DigestText(h, Str(c.requestSha256)) == Some(r.claim.requestSha256)
    && DigestText(h, Str(c.manifestRDigest)) == Some(r.claim.manifestRDigest)
    && r.claim.eventId == c.eventId && r.claim.projectId == c.projectId && r.claim.ref == c.ref
    && locator.Obj? && PositiveInt(locator.Get(Other("pipeline_id"))) == Some(r.pipelineId)
    && PositiveInt(locator.Get(Other("job_id"))) == Some(r.jobId)
    && remote.pipeline.Some? && remote.pipeline.value.Obj? && r.commitSha == CommitOf(h, remote.pipeline.value)
  }

  /** The receipt that this evidence earns. */
  predicate IsIssued(h: Host, t: Tools, c: Claim, locator: Json, handoff: Json, remote: Remote,
                     r: VerifiedReceipt, e: Evidence) {
    && c.timestampOk && IsFramed(h, c, locator, handoff, remote)
    && remote.archive.Some? && AreMembers(t, remote.archive.value)
    && IsEvidence(h, t, PayloadsOf(t, remote.archive.value), e)
    && IsProven(h, t, c, locator, remote, e)
    && NamesRun(h, c, locator, remote, r)
    && r.verdict == VerdictOf(h, t, e.result)
    && r.gateResultSha256 == "sha256:" + h.sha256(PayloadsOf(t, remote.archive.value)[e.resultPath])
    && r.artifactManifestSha256 == "sha256:" + h.sha256(PayloadsOf(t, remote.archive.value)[e.manifestPath])
  }

  method VerifyGitlabReceipt(h: Host, t: Tools, c: Claim, locator: Json, handoff: Json, remote: Remote)
    returns (receipt: Option<VerifiedReceipt>, evidence: Option<Evidence>)
    ensures receipt.Some? ==>
      evidence.Some? && IsIssued(h, t, c, locator, handoff, remote, receipt.value, evidence.value)
    ensures receipt.None? ==>
      || !c.timestampOk || !IsFramed(h, c, locator, handoff, remote) || remote.archive.None?
      || !(1 <= |remote.archive.value| <= MAX_FILES && AreMembers(t, remote.archive.value))
      || forall e :: !(IsEvidence(h, t, PayloadsOf(t, remote.archive.value), e)
                       && IsProven(h, t, c, locator, remote, e))
  {
    hide IsHandoff, IsProtectedRun, AreMembers, IsGateResult, IsAttestation, IsManifest, SingleSuffix, RootOf;
    hide HasName, PayloadsOf;
    hide DigestText, PositiveInt;
    evidence := None;
    if !IsFramed(h, c, locator, handoff, remote) || remote.archive.None? {
      return None, None;
    }
    var payloads := ArchivePayloads(t, remote.archive.value);
    if payloads.None? {
      return None, None;
    }
    MembersAreAll(t, remote.archive.value);
    evidence := ReadEvidence(h, t, payloads.value);
    if evidence.None? {
      return None, None;
    }
    var e := evidence.value;
    EvidenceIsOne(h, t, payloads.value, e);
    ManifestIsObject(h, payloads.value, RootOf(e.manifestPath), e.manifest);
    FramedShape(h, c, locator, handoff, remote);
    var verdict := ValidateGateResult(h, t, e.result, c.eventId);
    if verdict.None? || !IsProven(h, t, c, locator, remote, e) || !c.timestampOk {
      return None, None;
    }
    var claim := c.(requestSha256 := DigestText(h, Str(c.requestSha256)).value,
                    manifestRDigest := DigestText(h, Str(c.manifestRDigest)).value);
    receipt := Some(VerifiedReceipt(
      verdict.value, claim, PositiveInt(locator.Get(Other("pipeline_id"))).value,
      PositiveInt(locator.Get(Other("job_id"))).value,
      CommitOf(h, remote.pipeline.value), "sha256:" + h.sha256(payloads.value[e.resultPath]),
      "sha256:" + h.sha256(payloads.value[e.manifestPath])));
  }

  lemma ManifestIsObject(h: Host, payloads: Payloads, root: string, m: Json)
    requires IsManifest(h, payloads, root, m)
    ensures m.Obj?
  {
  }

  lemma FramedShape(h: Host, c: Claim, locator: Json, handoff: Json, remote: Remote)
    requires IsFramed(h, c, locator, handoff, remote)
    ensures locator.Obj? && remote.pipeline.Some? && remote.job.Some?
    ensures remote.pipeline.value.Obj? && remote.job.value.Obj?
    ensures PositiveInt(locator.Get(Other("pipeline_id"))).Some? && PositiveInt(locator.Get(Other("job_id"))).Some?
  {
  }

  /** The archive determines what is judged. */
  lemma EvidenceIsOne(h: Host, t: Tools, payloads: Payloads, e: Evidence)
    requires IsEvidence(h, t, payloads, e)
    ensures forall f :: IsEvidence(h, t, payloads, f) ==> f == e
  {
    hide IsManifest, SingleSuffix;
  }

  // ---------------------------------------------------------------- what acceptance proves

  predicate IsBoundBy(h: Host, payloads: Payloads, s: seq<Binding>, root: string, name: string) {
    exists i :: 0 <= i < |s| && s[i].path == name && IsBound(h, payloads, root, s[i])
  }

  /** Provenance: the gate result and the attestation that were judged are the very members
      that the manifest binds, in its own directory, by path, size and hash; and the digest
      the attestation names covers every other bound file. */
  lemma EvidenceIsBound(h: Host, t: Tools, payloads: Payloads, e: Evidence)
    requires IsEvidence(h, t, payloads, e)
    ensures var root := RootOf(e.manifestPath);
      && e.resultPath == root + RESULT_NAME && e.attestationPath == root + ATTESTATION_NAME
      && e.manifest.Obj? && e.manifest.Get(Other("files")).Arr?
      && (forall i :: 0 <= i < |e.manifest.Get(Other("files")).items| ==>
            IsFileEntry(h, e.manifest.Get(Other("files")).items[i]))
      && var s := Bindings(h, e.manifest.Get(Other("files")).items);
      && IsBoundBy(h, payloads, s, root, RESULT_NAME) && IsBoundBy(h, payloads, s, root, ATTESTATION_NAME)
      && e.manifest.Get(PAYLOAD_DIGEST) == Str(BindingsDigest(h, Covered(s)))
  {
    hide IsManifestHeader, SingleSuffix, IsFileEntry, BindingsDigest, Covered;
    var root := RootOf(e.manifestPath);
    HeaderShape(h, e.manifest);
    RootIsDirectory(e.manifestPath);
    var files := e.manifest.Get(Other("files")).items;
    NameIsBound(h, payloads, root, files, RESULT_NAME);
    NameIsBound(h, payloads, root, files, ATTESTATION_NAME);
    SuffixIsRootRelative(payloads, root, RESULT_NAME);
    SuffixIsRootRelative(payloads, root, ATTESTATION_NAME);
  }

  lemma NameIsBound(h: Host, payloads: Payloads, root: string, files: seq<Json>, name: string)
    requires AreBoundEntries(h, payloads, root, files)
    requires name in PathSet(Bindings(h, files))
    ensures IsBoundBy(h, payloads, Bindings(h, files), root, name) && root + name in payloads
  {
    hide IsFileEntry;
    var s := Bindings(h, files);
    var i :| 0 <= i < |s| && s[i].path == name;
    assert IsBoundEntry(h, payloads, root, files[i]);
  }

  /** Every covered binding is a binding of another file than the attestation, and every
      such binding is covered. */
  lemma {:induction false} CoveredExactly(s: seq<Binding>, b: Binding)
    ensures b in Covered(s) <==> b in s && b.path != ATTESTATION_NAME
    decreases |s|
  {
    if s != [] {
      CoveredExactly(s[..|s| - 1], b);
      assert s == s[..|s| - 1] + [s[|s| - 1]];
    }
  }

  /** Two manifests under one payload digest bind the same files, the attestation aside. */
  lemma SnapshotFixesFiles(h: Host, s: seq<Binding>, u: seq<Binding>)
    requires CollisionFree(h.digest) && BindingsDigest(h, Covered(s)) == BindingsDigest(h, Covered(u))
    ensures Covered(s) == Covered(u)
  {
    var a, b := Covered(s), Covered(u);
    var x := seq(|a|, i requires 0 <= i < |a| => BindingJson(a[i]));
    var y := seq(|b|, i requires 0 <= i < |b| => BindingJson(b[i]));
    assert Arr(x) == Arr(y);
    assert x == y;
    forall i | 0 <= i < |a|
      ensures a[i] == b[i]
    {
      assert x[i] == y[i];
      BindingJsonInjective(a[i], b[i]);
    }
  }

  lemma BindingJsonInjective(a: Binding, b: Binding)
    requires BindingJson(a) == BindingJson(b)
    ensures a == b
  {
    var f, g := BindingJson(a).fields, BindingJson(b).fields;
    assert f[Other("relative_path")] == g[Other("relative_path")] && f[Other("size_bytes")] == g[Other("size_bytes")]
        && f[Sha256] == g[Sha256];
  }

  lemma ProvenIsHonest(h: Host, t: Tools, c: Claim, locator: Json, remote: Remote, e: Evidence)
    requires locator.Obj? && remote.pipeline.Some? && remote.job.Some?
    requires IsProven(h, t, c, locator, remote, e)
    ensures e.result.Obj? && e.result.Get(Other("stages")).Arr?
    ensures var stages, verdict := e.result.Get(Other("stages")).items, VerdictOf(h, t, e.result);
      && (verdict == "CLEAN" ==>
            && (forall name :: name in REQUIRED_STAGES ==> HasStage(h, t, stages, name, "CLEAN"))
            && HasStatus(h, remote.pipeline.value, "success") && HasStatus(h, remote.job.value, "success"))
      && (verdict != "CLEAN" ==>
            && verdict == "BLOCKED" && IsBlockedSomewhere(h, t, stages)
            && HasStatus(h, remote.pipeline.value, "failed") && HasStatus(h, remote.job.value, "failed"))
  {
    hide AreStages, IsListed, HasStage, IsBlockedSomewhere;
  }

  /** What an issued receipt says is true of the archive and of the run: the file whose hash it
      names is the gate result next to the artifact manifest whose hash it names, and read from
      that file, CLEAN means every mandatory stage CLEAN and a successful run, BLOCKED a blocked
      stage and a failed run; there is no third verdict. */
  lemma VerdictIsHonest(h: Host, t: Tools, c: Claim, locator: Json, handoff: Json, remote: Remote,
                        r: VerifiedReceipt, e: Evidence)
    requires IsIssued(h, t, c, locator, handoff, remote, r, e)
    ensures remote.archive.Some? && remote.pipeline.Some? && remote.job.Some? && AreMembers(t, remote.archive.value)
    ensures var payloads, path := PayloadsOf(t, remote.archive.value), RootOf(e.manifestPath) + RESULT_NAME;
      && e.manifestPath in payloads && r.artifactManifestSha256 == "sha256:" + h.sha256(payloads[e.manifestPath])
      && path in payloads && r.gateResultSha256 == "sha256:" + h.sha256(payloads[path])
      && t.parse(payloads[path]).Some? && t.parse(payloads[path]).value.Obj?
      && t.parse(payloads[path]).value.Get(Other("stages")).Arr?
      && var stages := t.parse(payloads[path]).value.Get(Other("stages")).items;
      && (r.verdict == "CLEAN" ==>
            && (forall name :: name in REQUIRED_STAGES ==> HasStage(h, t, stages, name, "CLEAN"))
            && HasStatus(h, remote.pipeline.value, "success") && HasStatus(h, remote.job.value, "success"))
      && (r.verdict != "CLEAN" ==>
            && r.verdict == "BLOCKED" && IsBlockedSomewhere(h, t, stages)
            && HasStatus(h, remote.pipeline.value, "failed") && HasStatus(h, remote.job.value, "failed"))
  {
    MembersAreAll(t, remote.archive.value);
    hide AreStages, IsListed, HasStage, IsBlockedSomewhere, IsProven, AreMembers, IsManifest, RootOf, PayloadsOf;
    FramedShape(h, c, locator, handoff, remote);
    hide IsFramed;
    ProvenIsHonest(h, t, c, locator, remote, e);
    EvidenceIsBound(h, t, PayloadsOf(t, remote.archive.value), e);
  }

  /** A member that no manifest entry names, and whose name is none of the three, changes
      nothing: the archive may hold more than the manifest binds. */
  lemma UnlistedMemberIgnored(h: Host, t: Tools, payloads: Payloads, e: Evidence, path: string, data: Bytes)
    requires IsEvidence(h, t, payloads, e) && path !in payloads
    requires !HasName(path, MANIFEST_NAME) && !HasName(path, RESULT_NAME) && !HasName(path, ATTESTATION_NAME)
    ensures IsEvidence(h, t, payloads[path := data], e)
  {
    hide IsManifest, SingleSuffix, HasName;
    OtherNameIgnored(payloads, MANIFEST_NAME, path, data);
    OtherNameIgnored(payloads, RESULT_NAME, path, data);
    OtherNameIgnored(payloads, ATTESTATION_NAME, path, data);
    UnlistedKeepsManifest(h, payloads, RootOf(e.manifestPath), e.manifest, path, data);
  }

  lemma OtherNameIgnored(payloads: Payloads, name: string, path: string, data: Bytes)
    requires path !in payloads && !HasName(path, name)
    ensures SingleSuffix(payloads[path := data], name) == SingleSuffix(payloads, name)
  {
    hide HasName;
    assert Matches(payloads[path := data], name) == Matches(payloads, name);
    if |Matches(payloads, name)| == 1 {
      SingleIsOne(Matches(payloads, name));
    }
  }

  lemma UnlistedKeepsManifest(h: Host, payloads: Payloads, root: string, m: Json, path: string, data: Bytes)
    requires IsManifest(h, payloads, root, m) && path !in payloads
    ensures IsManifest(h, payloads[path := data], root, m)
  {
    hide IsManifestHeader, IsFileEntry, BindingsDigest, Covered, ArePathsDistinct;
    HeaderShape(h, m);
    var files := m.Get(Other("files")).items;
    forall i | 0 <= i < |files|
      ensures IsBoundEntry(h, payloads[path := data], root, files[i])
    {
      assert IsBoundEntry(h, payloads, root, files[i]);
    }
  }
}
