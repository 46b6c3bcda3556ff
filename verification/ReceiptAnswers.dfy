/** When a gate receipt is issued, spelled out field by field, and what the digests it rests
    on fix. */
module ReceiptAnswers {
  import opened Json
  import opened GateReceipt
  import opened ReceiptVerdict
  import opened ReceiptProvenance

  /** A claimed digest in its normal form. */
  function Normal(h: Host, s: string): string {
    h.lower(h.strip(s))
  }

  predicate IsSha256Text(s: string) {
    |s| == 71 && s[..7] == "sha256:" && IsHex(s[7..], 64)
  }

  /** The locator names this project, pipeline and job, and has no other field. */
  predicate Locates(locator: Json, projectId: int, pipelineId: int, jobId: int) {
    && locator.Obj?
    && locator == Obj(map[SchemaName := Str("ProductMaterialGatePipelineLocator/v1"),
                          Other("project_id") := locator.Get(Other("project_id")),
                          Other("pipeline_id") := locator.Get(Other("pipeline_id")),
                          Other("job_id") := locator.Get(Other("job_id"))])
    && PositiveInt(locator.Get(Other("project_id"))) == Some(projectId)
    && PositiveInt(locator.Get(Other("pipeline_id"))) == Some(pipelineId)
    && PositiveInt(locator.Get(Other("job_id"))) == Some(jobId)
  }

  /** What the approval binding is the digest of. */
  function Approval(eventId: string, manifestR: string, report: string, request: string, messageId: string): Json {
    Obj(map[EventId := Str(eventId), Other("manifest_sha256") := Str(manifestR),
            Other("pre_release_report_sha256") := Str(report), Other("request_sha256") := Str(request),
            Other("source_message_id") := Str(messageId)])
  }

  /** A handoff of this event and request, which the pre-release passed with this report and
      approved in this message. */
  predicate HandsOff(h: Host, handoff: Json, eventId: string, request: string, manifestR: string, report: string,
                     messageId: string) {
    && handoff.Obj? && handoff.Get(Other("request")).Obj?
    && handoff.Get(Other("source")).Obj?
    && var document := handoff.Get(Other("request"));
    && var source := handoff.Get(Other("source"));
    && handoff == Obj(map[SchemaName := Str("ProductMaterialWorkflow/v1"), Stage := Str("RELEASE_GATE_REQUESTED"),
                          EventId := Str(eventId), Other("request") := document,
                          Other("request_sha256") := Str(request), Other("source") := source,
                          Other("created_at") := handoff.Get(Other("created_at"))])
    && Other("created_at") in handoff.fields
    && document.Get(Other("request_id")) == Str(eventId) && request == "sha256:" + h.digest(document)
    && source == Obj(map[Other("approval_binding_sha256") := source.Get(Other("approval_binding_sha256")),
                         EventId := Str(eventId), Other("manifest_sha256") := Str(manifestR),
                         Other("pre_release_report_sha256") := source.Get(Other("pre_release_report_sha256")),
                         Other("pre_release_status") := Str("PASS"), Other("source_message_id") := Str(messageId)])
    && report == Normal(h, Text(h, source.Get(Other("pre_release_report_sha256")))) && IsSha256Text(report)
    && h.strip(messageId) != "" && '\r' !in messageId && '\n' !in messageId
    && var binding := "sha256:" + h.digest(Approval(eventId, manifestR, report, request, messageId));
    && Normal(h, Text(h, source.Get(Other("approval_binding_sha256")))) == binding && IsSha256Text(binding)
  }

  /** GitLab reports a live gate job of this pipeline, on this commit of this protected branch. */
  predicate Runs(h: Host, pipeline: Json, job: Json, branch: Json, pipelineId: int, jobId: int, ref: string,
                 commit: string) {
    && pipeline.Obj? && job.Obj? && branch.Obj?
    && job.Get(Other("pipeline")).Obj? && job.Get(Other("commit")).Obj?
    && PositiveInt(pipeline.Get(Other("id"))) == Some(pipelineId)
    && PositiveInt(job.Get(Other("pipeline")).Get(Other("id"))) == Some(pipelineId)
    && PositiveInt(job.Get(Other("id"))) == Some(jobId)
    && job.Get(Other("name")) == Str("live_gate")
    && Text(h, pipeline.Get(Other("ref"))) == ref && Text(h, job.Get(Other("ref"))) == ref
    && branch.Get(Other("name")) == Str(ref) && branch.Get(Other("protected")) == Bool(true)
    && job.Get(Other("tag")) == Bool(false)
    && |commit| == 40 && IsHex(commit, 40)
    && h.lower(Text(h, pipeline.Get(Other("sha")))) == commit
    && h.lower(Text(h, job.Get(Other("commit")).Get(Other("id")))) == commit
  }

  predicate IsPlainId(s: string) {
    s != "" && forall i :: 0 <= i < |s| ==>
      'a' <= s[i] <= 'z' || 'A' <= s[i] <= 'Z' || '0' <= s[i] <= '9' || s[i] == '.' || s[i] == '_' || s[i] == '-'
  }

  /** Claim, locator, handoff and the three answers are in order exactly when there are a
      pipeline, a job, a commit, a report and a message that all of them are about. */
  lemma FramedExactly(h: Host, c: Claim, locator: Json, handoff: Json, remote: Remote)
    ensures IsFramed(h, c, locator, handoff, remote) <==>
      && IsPlainId(c.eventId)
      && IsSha256Text(Normal(h, c.requestSha256)) && IsSha256Text(Normal(h, c.manifestRDigest))
      && remote.pipeline.Some? && remote.job.Some? && remote.branch.Some?
      && (exists pipelineId, jobId, commit ::
            && Locates(locator, c.projectId, pipelineId, jobId)
            && Runs(h, remote.pipeline.value, remote.job.value, remote.branch.value, pipelineId, jobId, c.ref, commit))
      && (exists report, messageId ::
            HandsOff(h, handoff, c.eventId, Normal(h, c.requestSha256), Normal(h, c.manifestRDigest), report,
                     messageId))
  {
    hide PositiveInt, IsHex, IsLocator, IsHandoff, IsProtectedRun, Locates, HandsOff, Runs;
    PlainId(c.eventId);
    ClaimedDigest(h, c.requestSha256);
    ClaimedDigest(h, c.manifestRDigest);
    LocatorExactly(locator, c.projectId);
    var request, manifestR := Normal(h, c.requestSha256), Normal(h, c.manifestRDigest);
    HandoffExactly(h, c, handoff, request, manifestR);
    if IsLocator(locator, c.projectId) && remote.pipeline.Some? && remote.job.Some? && remote.branch.Some? {
      LocatorIds(locator, c.projectId);
      RunExactly(h, c, remote.pipeline.value, remote.job.value, remote.branch.value,
                 PositiveInt(locator.Get(Other("pipeline_id"))).value, PositiveInt(locator.Get(Other("job_id"))).value);
    }
  }

  lemma PlainId(s: string)
    ensures ReceiptProvenance.IsEventId(s) <==> IsPlainId(s)
  {
    assert forall ch: char :: IsIdChar(ch) <==>
        ('a' <= ch <= 'z' || 'A' <= ch <= 'Z' || '0' <= ch <= '9' || ch == '.' || ch == '_' || ch == '-') by {
      assert "._-"[0] == '.' && "._-"[1] == '_' && "._-"[2] == '-';
    }
  }

  lemma ClaimedDigest(h: Host, s: string)
    ensures DigestText(h, Str(s)) == if IsSha256Text(Normal(h, s)) then Some(Normal(h, s)) else None
  {
  }

  lemma LocatorExactly(locator: Json, projectId: int)
    ensures IsLocator(locator, projectId) <==>
      exists pipelineId, jobId :: Locates(locator, projectId, pipelineId, jobId)
  {
    hide PositiveInt;
    if IsLocator(locator, projectId) {
      LocatorShape(locator, projectId);
      assert Locates(locator, projectId, PositiveInt(locator.Get(Other("pipeline_id"))).value,
                     PositiveInt(locator.Get(Other("job_id"))).value);
    }
    if pipelineId, jobId :| Locates(locator, projectId, pipelineId, jobId) {
      assert locator.fields.Keys == {SchemaName, Other("project_id"), Other("pipeline_id"), Other("job_id")};
    }
  }

  lemma LocatorShape(locator: Json, projectId: int)
    requires IsLocator(locator, projectId)
    ensures locator == Obj(map[SchemaName := Str("ProductMaterialGatePipelineLocator/v1"),
                               Other("project_id") := locator.Get(Other("project_id")),
                               Other("pipeline_id") := locator.Get(Other("pipeline_id")),
                               Other("job_id") := locator.Get(Other("job_id"))])
  {
    hide PositiveInt;
    var literal := map[SchemaName := Str("ProductMaterialGatePipelineLocator/v1"),
                       Other("project_id") := locator.Get(Other("project_id")),
                       Other("pipeline_id") := locator.Get(Other("pipeline_id")),
                       Other("job_id") := locator.Get(Other("job_id"))];
    assert locator.fields.Keys == literal.Keys;
    assert locator.fields == literal;
  }

  lemma LocatorIds(locator: Json, projectId: int)
    requires IsLocator(locator, projectId)
    ensures locator.Obj? && PositiveInt(locator.Get(Other("pipeline_id"))).Some?
    ensures PositiveInt(locator.Get(Other("job_id"))).Some?
    ensures forall pipelineId, jobId :: Locates(locator, projectId, pipelineId, jobId) ==>
        && PositiveInt(locator.Get(Other("pipeline_id"))).value == pipelineId
        && PositiveInt(locator.Get(Other("job_id"))).value == jobId
    ensures Locates(locator, projectId, PositiveInt(locator.Get(Other("pipeline_id"))).value,
                    PositiveInt(locator.Get(Other("job_id"))).value)
  {
    hide PositiveInt;
    LocatorShape(locator, projectId);
  }

  lemma RunExactly(h: Host, c: Claim, pipeline: Json, job: Json, branch: Json, pipelineId: int, jobId: int)
    ensures IsProtectedRun(h, c, pipelineId, jobId, pipeline, job, branch) <==>
      exists commit :: Runs(h, pipeline, job, branch, pipelineId, jobId, c.ref, commit)
  {
    hide PositiveInt;
    if IsProtectedRun(h, c, pipelineId, jobId, pipeline, job, branch) {
      assert Runs(h, pipeline, job, branch, pipelineId, jobId, c.ref, CommitOf(h, pipeline));
    }
  }

  lemma HandoffExactly(h: Host, c: Claim, handoff: Json, request: string, manifestR: string)
    ensures IsHandoff(h, c, handoff, request, manifestR) <==>
      exists report, messageId :: HandsOff(h, handoff, c.eventId, request, manifestR, report, messageId)
  {
    if IsHandoff(h, c, handoff, request, manifestR) {
      HandoffShape(h, c, handoff, request, manifestR);
    }
    if report, messageId :| HandsOff(h, handoff, c.eventId, request, manifestR, report, messageId) {
      HandoffMeant(h, c, handoff, request, manifestR, report, messageId);
    }
  }

  lemma SourceShape(h: Host, c: Claim, source: Json, request: string, manifestR: string)
    requires IsHandoffSource(h, c, source, request, manifestR)
    ensures source.Get(Other("source_message_id")).Str?
    ensures source == Obj(map[Other("approval_binding_sha256") := source.Get(Other("approval_binding_sha256")),
                              EventId := Str(c.eventId), Other("manifest_sha256") := Str(manifestR),
                              Other("pre_release_report_sha256") := source.Get(Other("pre_release_report_sha256")),
                              Other("pre_release_status") := Str("PASS"),
                              Other("source_message_id") := Str(source.Get(Other("source_message_id")).s)])
  {
    hide DigestText, ApprovalBinding;
    var literal := map[Other("approval_binding_sha256") := source.Get(Other("approval_binding_sha256")),
                       EventId := Str(c.eventId), Other("manifest_sha256") := Str(manifestR),
                       Other("pre_release_report_sha256") := source.Get(Other("pre_release_report_sha256")),
                       Other("pre_release_status") := Str("PASS"),
                       Other("source_message_id") := Str(source.Get(Other("source_message_id")).s)];
    assert source.fields.Keys == literal.Keys;
    assert source.fields == literal;
  }

  lemma HandoffShape(h: Host, c: Claim, handoff: Json, request: string, manifestR: string)
    requires IsHandoff(h, c, handoff, request, manifestR)
    ensures exists report, messageId :: HandsOff(h, handoff, c.eventId, request, manifestR, report, messageId)
  {
    hide IsHex;
    var document, source := handoff.Get(Other("request")), handoff.Get(Other("source"));
    SourceShape(h, c, source, request, manifestR);
    var literal := map[SchemaName := Str("ProductMaterialWorkflow/v1"), Stage := Str("RELEASE_GATE_REQUESTED"),
                       EventId := Str(c.eventId), Other("request") := document,
                       Other("request_sha256") := Str(request), Other("source") := source,
                       Other("created_at") := handoff.Get(Other("created_at"))];
    assert handoff.fields.Keys == literal.Keys;
    assert handoff.fields == literal;
    var report := DigestText(h, source.Get(Other("pre_release_report_sha256"))).value;
    var messageId := source.Get(Other("source_message_id")).s;
    assert HandsOff(h, handoff, c.eventId, request, manifestR, report, messageId);
  }

  lemma HandoffMeant(h: Host, c: Claim, handoff: Json, request: string, manifestR: string, report: string,
                     messageId: string)
    requires HandsOff(h, handoff, c.eventId, request, manifestR, report, messageId)
    ensures IsHandoff(h, c, handoff, request, manifestR)
  {
    hide IsHex;
    var source := handoff.Get(Other("source"));
    assert handoff.fields.Keys == {SchemaName, Stage, EventId, Other("request"), Other("request_sha256"),
                                   Other("source"), Other("created_at")};
    assert source.fields.Keys == {Other("approval_binding_sha256"), EventId, Other("manifest_sha256"),
                                  Other("pre_release_report_sha256"), Other("pre_release_status"),
                                  Other("source_message_id")};
    assert source.Get(Other("source_message_id")) == Str(messageId);
  }

  // ---------------------------------------------------------------- the three documents

  /** The attestation names this run, commit and request, and the files that the manifest covers. */
  predicate AttestsRun(h: Host, a: Json, projectId: int, pipelineId: int, jobId: int, commit: string, eventId: string,
                       request: string, snapshot: Json) {
    && a.Obj?
    && a.Get(Other("schema_version")) in {Num(1), Bool(true)} && a.Get(Other("mode")) == Str("live")
    && Text(h, a.Get(Other("project_id"))) == h.repr(Num(projectId))
    && PositiveInt(a.Get(Other("pipeline_id"))) == Some(pipelineId)
    && PositiveInt(a.Get(Other("job_id"))) == Some(jobId)
    && h.lower(Text(h, a.Get(Other("reviewed_commit")))) == commit
    && a.Get(Other("request_id")) == Str(eventId) && a.Get(Other("request_sha256")) == Str(request)
    && a.Get(Other("network_service_in_tcb")) == Bool(true)
    && a.Get(Other("ci_snapshot_manifest_sha256")) == snapshot
  }

  /** The gate result is of this event and supports its verdict, one of two, by its stages. */
  predicate SupportsVerdict(h: Host, t: Tools, result: Json, eventId: string, verdict: string) {
    && result.Obj? && result.Get(Other("stages")).Arr?
    && result.Get(Other("artifact_profile")) == Str("ci_safe_summary_v1")
    && result.Get(Other("request_id")) == Str(eventId)
    && verdict == t.upper(Text(h, result.Get(Other("verdict"))))
    && var stages := result.Get(Other("stages")).items;
    && (forall i :: 0 <= i < |stages| ==> stages[i].Obj? && Text(h, stages[i].Get(Other("name"))) != "")
    && (forall i, j :: 0 <= i < j < |stages| ==>
          Text(h, stages[i].Get(Other("name"))) != Text(h, stages[j].Get(Other("name"))))
    && (forall name :: name in REQUIRED_STAGES ==>
          exists i :: 0 <= i < |stages| && Text(h, stages[i].Get(Other("name"))) == name
              && (verdict == "CLEAN" ==> t.upper(Text(h, stages[i].Get(Other("status")))) == "CLEAN"))
    && (|| verdict == "CLEAN"
        || (verdict == "BLOCKED"
            && exists i :: 0 <= i < |stages| && t.upper(Text(h, stages[i].Get(Other("status")))) == "BLOCKED"))
  }

  function ClaimedVerdict(h: Host, t: Tools, result: Json): string {
    if result.Obj? then t.upper(Text(h, result.Get(Other("verdict")))) else ""
  }

  lemma VerdictExactly(h: Host, t: Tools, result: Json, eventId: string)
    ensures IsGateResult(h, t, result, eventId) <==>
      SupportsVerdict(h, t, result, eventId, ClaimedVerdict(h, t, result))
    ensures result.Obj? ==> VerdictOf(h, t, result) == ClaimedVerdict(h, t, result)
  {
    hide Text;
    if IsGateResult(h, t, result, eventId) {
      VerdictShape(h, t, result, eventId);
    }
    if SupportsVerdict(h, t, result, eventId, ClaimedVerdict(h, t, result)) {
      VerdictMeant(h, t, result, eventId, ClaimedVerdict(h, t, result));
    }
  }

  lemma VerdictShape(h: Host, t: Tools, result: Json, eventId: string)
    requires IsGateResult(h, t, result, eventId)
    ensures SupportsVerdict(h, t, result, eventId, VerdictOf(h, t, result))
  {
    hide Text;
    var stages, verdict := result.Get(Other("stages")).items, VerdictOf(h, t, result);
    forall name | name in REQUIRED_STAGES
      ensures exists i :: 0 <= i < |stages| && Text(h, stages[i].Get(Other("name"))) == name
                  && (verdict == "CLEAN" ==> t.upper(Text(h, stages[i].Get(Other("status")))) == "CLEAN")
    {
      assert IsListed(h, stages, name);
      if verdict == "CLEAN" {
        assert HasStage(h, t, stages, name, "CLEAN");
      }
    }
  }

  lemma VerdictMeant(h: Host, t: Tools, result: Json, eventId: string, verdict: string)
    requires SupportsVerdict(h, t, result, eventId, verdict)
    ensures result.Obj? && IsGateResult(h, t, result, eventId) && verdict == VerdictOf(h, t, result)
  {
    hide Text;
    var stages := result.Get(Other("stages")).items;
    assert AreStages(h, stages);
    forall name | name in REQUIRED_STAGES
      ensures IsListed(h, stages, name) && (verdict == "CLEAN" ==> HasStage(h, t, stages, name, "CLEAN"))
    {
      var i :| 0 <= i < |stages| && Text(h, stages[i].Get(Other("name"))) == name
               && (verdict == "CLEAN" ==> t.upper(Text(h, stages[i].Get(Other("status")))) == "CLEAN");
      assert StageName(h, stages[i]) == name;
    }
  }

  lemma AttestedExactly(h: Host, c: Claim, a: Json, pipelineId: int, jobId: int, commit: string, request: string,
                        snapshot: Json)
    ensures IsAttestation(h, c, a, pipelineId, jobId, commit, request, snapshot) <==>
      AttestsRun(h, a, c.projectId, pipelineId, jobId, commit, c.eventId, request, snapshot)
  {
    hide PositiveInt, Text;
  }

  /** Result, attestation and run agree exactly when the stages support the claimed verdict and
      the run ended as it says, and the attestation is about this run and these files. */
  lemma ProvenExactly(h: Host, t: Tools, c: Claim, locator: Json, handoff: Json, remote: Remote, e: Evidence)
    requires IsFramed(h, c, locator, handoff, remote) && e.manifest.Obj?
    ensures locator.Obj? && remote.pipeline.Some? && remote.job.Some?
    ensures remote.pipeline.value.Obj? && remote.job.value.Obj?
    ensures PositiveInt(locator.Get(Other("pipeline_id"))).Some? && PositiveInt(locator.Get(Other("job_id"))).Some?
    ensures IsProven(h, t, c, locator, remote, e) <==>
      && AttestsRun(h, e.attestation, c.projectId, PositiveInt(locator.Get(Other("pipeline_id"))).value,
                    PositiveInt(locator.Get(Other("job_id"))).value,
                    h.lower(Text(h, remote.pipeline.value.Get(Other("sha")))), c.eventId,
                    Normal(h, c.requestSha256), e.manifest.Get(PAYLOAD_DIGEST))
      && SupportsVerdict(h, t, e.result, c.eventId, ClaimedVerdict(h, t, e.result))
      && var status := if ClaimedVerdict(h, t, e.result) == "CLEAN" then "success" else "failed";
      && h.lower(Text(h, remote.pipeline.value.Get(Other("status")))) == status
      && h.lower(Text(h, remote.job.value.Get(Other("status")))) == status
  {
    FramedShape(h, c, locator, handoff, remote);
    ResultIsObject(h, t, e.result, c.eventId);
    assert DigestText(h, Str(c.requestSha256)).Some? by {
      hide IsLocator, IsHandoff, IsProtectedRun, DigestText;
    }
    hide PositiveInt, IsGateResult, SupportsVerdict, Text, IsFramed, DigestText, ClaimedVerdict, VerdictOf;
    hide IsAttestation, AttestsRun;
    ClaimedDigest(h, c.requestSha256);
    VerdictExactly(h, t, e.result, c.eventId);
    AttestedExactly(h, c, e.attestation, PositiveInt(locator.Get(Other("pipeline_id"))).value,
                    PositiveInt(locator.Get(Other("job_id"))).value, CommitOf(h, remote.pipeline.value),
                    Normal(h, c.requestSha256), e.manifest.Get(PAYLOAD_DIGEST));
  }

  lemma ResultIsObject(h: Host, t: Tools, result: Json, eventId: string)
    ensures IsGateResult(h, t, result, eventId) ==> result.Obj?
  {
  }

  // ---------------------------------------------------------------- the artifact manifest

  /** An entry of the manifest and the member of the archive it speaks of. */
  predicate Binds(h: Host, payloads: Payloads, root: string, v: Json) {
    && v.Obj?
    && v == Obj(map[Other("relative_path") := v.Get(Other("relative_path")),
                    Other("size_bytes") := v.Get(Other("size_bytes")), Sha256 := v.Get(Sha256)])
    && Other("relative_path") in v.fields
    && var path := Text(h, v.Get(Other("relative_path")));
    && path != "" && path[0] != '/' && '\\' !in path && ".." !in Parts(path)
    && root + path in payloads && payloads[root + path] != []
    && v.Get(Other("size_bytes")) == Num(|payloads[root + path]|)
    && v.Get(Sha256) == Str(h.sha256(payloads[root + path])) && IsHex(h.sha256(payloads[root + path]), 64)
  }

  lemma BoundExactly(h: Host, payloads: Payloads, root: string, v: Json)
    ensures IsBoundEntry(h, payloads, root, v) <==> Binds(h, payloads, root, v)
  {
    hide IsHex, Text, Parts;
    if IsFileEntry(h, v) {
      var literal := map[Other("relative_path") := v.Get(Other("relative_path")),
                         Other("size_bytes") := v.Get(Other("size_bytes")), Sha256 := v.Get(Sha256)];
      assert v.fields.Keys == literal.Keys && v.fields == literal;
    }
    if Binds(h, payloads, root, v) {
      assert v.fields.Keys == {Other("relative_path"), Other("size_bytes"), Sha256};
    }
  }

  predicate BindsAll(h: Host, payloads: Payloads, root: string, files: seq<Json>) {
    forall i :: 0 <= i < |files| ==> Binds(h, payloads, root, files[i])
  }

  function PathText(h: Host, v: Json): string {
    if v.Obj? then Text(h, v.Get(Other("relative_path"))) else ""
  }

  predicate ListsOnce(h: Host, files: seq<Json>) {
    forall i, j :: 0 <= i < j < |files| ==> PathText(h, files[i]) != PathText(h, files[j])
  }

  predicate Lists(h: Host, files: seq<Json>, name: string) {
    exists i :: 0 <= i < |files| && PathText(h, files[i]) == name
  }

  /** Four fields, of which the last is the digest of the others. */
  predicate HasHeader(h: Host, m: Json) {
    && m.Obj? && m.Get(PAYLOAD_DIGEST).Str? && IsHex(m.Get(PAYLOAD_DIGEST).s, 64)
    && m.Get(Other("files")).Arr? && m.Get(Other("files")).items != []
    && m.Get(Other("schema_version")) in {Num(1), Bool(true)}
    && m.fields.Keys == {Other("schema_version"), PAYLOAD_DIGEST, Other("files"), Other("manifest_sha256")}
    && var digest := h.digest(Obj(map[Other("schema_version") := Num(1), PAYLOAD_DIGEST := m.Get(PAYLOAD_DIGEST),
                                      Other("files") := m.Get(Other("files"))]));
    && m.Get(Other("manifest_sha256")) == Str(digest) && IsHex(digest, 64)
  }

  lemma HeaderExactly(h: Host, m: Json)
    ensures IsManifestHeader(h, m) <==> HasHeader(h, m)
  {
    hide IsHex;
  }

  lemma FilesExactly(h: Host, payloads: Payloads, root: string, files: seq<Json>)
    ensures AreBoundEntries(h, payloads, root, files) <==> BindsAll(h, payloads, root, files)
  {
    hide IsBoundEntry, Binds;
    forall i | 0 <= i < |files|
      ensures IsBoundEntry(h, payloads, root, files[i]) <==> Binds(h, payloads, root, files[i])
    {
      BoundExactly(h, payloads, root, files[i]);
    }
  }

  lemma BoundIsEntry(h: Host, payloads: Payloads, root: string, files: seq<Json>)
    requires AreBoundEntries(h, payloads, root, files)
    ensures forall i :: 0 <= i < |files| ==> IsFileEntry(h, files[i])
  {
    hide IsFileEntry, IsBound;
    forall i | 0 <= i < |files|
      ensures IsFileEntry(h, files[i])
    {
      assert IsBoundEntry(h, payloads, root, files[i]);
    }
  }

  lemma PathsExactly(h: Host, files: seq<Json>)
    requires forall i :: 0 <= i < |files| ==> IsFileEntry(h, files[i])
    ensures ArePathsDistinct(Bindings(h, files)) <==> ListsOnce(h, files)
    ensures forall name :: name in PathSet(Bindings(h, files)) <==> Lists(h, files, name)
  {
    hide Text, IsSafeRelative, IsHex;
    var s := Bindings(h, files);
    assert forall i :: 0 <= i < |files| ==> s[i].path == PathText(h, files[i]);
  }

  /** A manifest is accepted exactly when each of its files is a member of the archive with the
      listed size and hash, each listed once, the result and the attestation among them; and
      one digest covers all but the attestation, another the manifest itself. */
  lemma ManifestExactly(h: Host, payloads: Payloads, root: string, m: Json)
    ensures IsManifest(h, payloads, root, m) ==>
      HasHeader(h, m) && forall i :: 0 <= i < |m.Get(Other("files")).items| ==>
        IsFileEntry(h, m.Get(Other("files")).items[i])
    ensures HasHeader(h, m) && (forall i :: 0 <= i < |m.Get(Other("files")).items| ==>
              IsFileEntry(h, m.Get(Other("files")).items[i])) ==>
      var files := m.Get(Other("files")).items;
      IsManifest(h, payloads, root, m) <==>
        && BindsAll(h, payloads, root, files) && ListsOnce(h, files)
        && Lists(h, files, "gate-result.json") && Lists(h, files, "runtime-attestation.json")
        && m.Get(PAYLOAD_DIGEST) == Str(BindingsDigest(h, Covered(Bindings(h, files))))
  {
    hide IsManifestHeader, HasHeader, AreBoundEntries, BindsAll, ArePathsDistinct, ListsOnce, PathSet, Lists;
    hide IsFileEntry, BindingsDigest, Covered, Bindings;
    HeaderExactly(h, m);
    if HasHeader(h, m) {
      HeaderShape(h, m);
      var files := m.Get(Other("files")).items;
      FilesExactly(h, payloads, root, files);
      if AreBoundEntries(h, payloads, root, files) {
        BoundIsEntry(h, payloads, root, files);
      }
      if forall i :: 0 <= i < |files| ==> IsFileEntry(h, files[i]) {
        PathsExactly(h, files);
      }
    }
  }

  // ---------------------------------------------------------------- what the digests fix

  /** The approval binding a handoff claims. */
  function BindingText(h: Host, handoff: Json): string
    requires handoff.Obj? && handoff.Get(Other("source")).Obj?
  {
    Normal(h, Text(h, handoff.Get(Other("source")).Get(Other("approval_binding_sha256"))))
  }

  /** One approval binding approves one event, Manifest-R, report, request and message, and one
      request digest one request document. */
  lemma ApprovalFixes(h: Host, a: Json, e: string, r: string, m: string, p: string, i: string,
                      b: Json, f: string, s: string, n: string, q: string, j: string)
    requires CollisionFree(h.digest)
    requires HandsOff(h, a, e, r, m, p, i) && HandsOff(h, b, f, s, n, q, j)
    ensures r == s ==> a.Get(Other("request")) == b.Get(Other("request")) && e == f
    ensures BindingText(h, a) == BindingText(h, b) ==> (e, r, m, p, i) == (f, s, n, q, j)
  {
    hide IsHex, Text, CollisionFree, Approval;
    DigestsApart(h, a.Get(Other("request")), b.Get(Other("request")));
    DigestsApart(h, Approval(e, m, p, r, i), Approval(f, n, q, s, j));
    if Approval(e, m, p, r, i) == Approval(f, n, q, s, j) {
      ApprovalInjective(e, m, p, r, i, f, n, q, s, j);
    }
  }

  lemma DigestsApart(h: Host, x: Json, y: Json)
    requires CollisionFree(h.digest)
    ensures "sha256:" + h.digest(x) == "sha256:" + h.digest(y) ==> x == y
  {
    if "sha256:" + h.digest(x) == "sha256:" + h.digest(y) {
      assert ("sha256:" + h.digest(x))[7..] == h.digest(x) && ("sha256:" + h.digest(y))[7..] == h.digest(y);
    }
  }

  lemma ApprovalInjective(e: string, m: string, p: string, r: string, i: string,
                          f: string, n: string, q: string, s: string, j: string)
    requires Approval(e, m, p, r, i) == Approval(f, n, q, s, j)
    ensures (e, m, p, r, i) == (f, n, q, s, j)
  {
    var a, b := Approval(e, m, p, r, i).fields, Approval(f, n, q, s, j).fields;
    assert a[EventId] == b[EventId] && a[Other("manifest_sha256")] == b[Other("manifest_sha256")]
        && a[Other("pre_release_report_sha256")] == b[Other("pre_release_report_sha256")]
        && a[Other("request_sha256")] == b[Other("request_sha256")]
        && a[Other("source_message_id")] == b[Other("source_message_id")];
  }
}
