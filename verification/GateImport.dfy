/** The gate's import of a finished submission gate: its own reading of Manifest-S, the
    tested material on disk, and the event that starts in TESTING. */
module GateImport {
  import opened Json
  import opened ManifestS
  import opened ManifestBuilder
  import opened GateDisk
  import opened ReleaseGate
  import opened GateRuns
  import opened GateEvidence
  import opened GateProducer
  import opened GateReplay
  import opened GateController

  datatype Handoff = Handoff(
    eventId: string, round: int, task: string, moduleName: string, dir: string,
    sourceRef: string, rollbackRef: string, riskLevel: string, ruleSnapshot: string)

  // ---------------------------------------------------------------- the gate's checks of the document

  /** Python counts true as one. */
  predicate IsNumber(v: Json, n: int) {
    v == Num(n) || (v.Bool? && n == if v.b then 1 else 0)
  }

  predicate IsImportDigest(h: Host, v: Json) {
    IsDigest(h.lower(Text(h, v)))
  }

  predicate AreWords(h: Host, v: Json) {
    v.Arr? && forall i :: 0 <= i < |v.items| ==> v.items[i].Str? && h.strip(v.items[i].s) != ""
  }

  predicate IsImportItem(h: Host, v: Json) {
    && v.Obj? && v.fields.Keys == {LogicalName, FileName, Size, Sha1, Sha256, SourceRef}
    && IsPortableName(h, Text(h, v.Get(LogicalName))) && IsPortableName(h, Text(h, v.Get(FileName)))
    && v.Get(Size).Num? && v.Get(Size).n >= 0
    && IsHex(h.lower(Text(h, v.Get(Sha1))), 40) && IsHex(h.lower(Text(h, v.Get(Sha256))), 64)
  }

  function ImportedOf(h: Host, v: Json): Material
    requires IsImportItem(h, v)
  {
    Material(Text(h, v.Get(LogicalName)), Text(h, v.Get(FileName)), v.Get(Size).n,
             h.lower(Text(h, v.Get(Sha1))), h.lower(Text(h, v.Get(Sha256))), h.strip(Text(h, v.Get(SourceRef))))
  }

  predicate AreImportItems(h: Host, items: seq<Json>) {
    forall i :: 0 <= i < |items| ==> IsImportItem(h, items[i])
  }

  function Imported(h: Host, items: seq<Json>): (r: seq<Material>)
    requires AreImportItems(h, items)
    ensures |r| == |items|
  {
    seq(|items|, i requires 0 <= i < |items| => ImportedOf(h, items[i]))
  }

  predicate IsRequest(h: Host, q: Handoff) {
    && IsEventId(h.strip(q.eventId)) && q.round >= 1 && h.strip(q.task) != "" && h.strip(q.moduleName) != ""
    && IsRiskLevel(q.riskLevel) && h.strip(q.rollbackRef) != "" && h.strip(q.dir) != ""
  }

  /** What the gate asks of the document it imports. */
  predicate IsImportable(h: Host, q: Handoff, p: Json) {
    && p.Obj? && p.fields.Keys == Fields()
    && p.Get(SchemaName) == Str(SCHEMA)
    && IsImportDigest(h, p.Get(ManifestSDigest)) && FreezeDigest(h, p) == h.lower(Text(h, p.Get(ManifestSDigest)))
    && p.Get(EventId) == Str(h.strip(q.eventId)) && IsNumber(p.Get(RoundId), q.round)
    && p.Get(TaskName) == Str(h.strip(q.task)) && p.Get(ModuleName) == Str(h.strip(q.moduleName))
    && h.strip(Text(h, p.Get(PolicyProfile))) != "" && IsImportDigest(h, p.Get(PolicyDigest))
    && AreWords(h, p.Get(EffectiveChecks)) && p.Get(EffectiveChecks).items != []
    && AreWords(h, p.Get(EvidenceRefs))
    && p.Get(Artifacts).Arr? && p.Get(Artifacts).items != []
    && AreImportItems(h, p.Get(Artifacts).items) && HasUniqueNames(h, Imported(h, p.Get(Artifacts).items))
  }

  /** The request is for this document. */
  predicate IsFor(h: Host, q: Handoff, p: Json) {
    && p.Obj?
    && p.Get(EventId) == Str(h.strip(q.eventId)) && p.Get(RoundId) == Num(q.round)
    && p.Get(TaskName) == Str(h.strip(q.task)) && p.Get(ModuleName) == Str(h.strip(q.moduleName))
  }

  // ---------------------------------------------------------------- validator and importer

  lemma ValidItem(h: Host, v: Json)
    requires IsTextHost(h) && HasMaterial(h, v) && MaterialJson(MaterialOf(h, v)) == v
    ensures IsImportItem(h, v) && ImportedOf(h, v) == MaterialOf(h, v)
  {
    hide IsPortableName;
    var m := MaterialOf(h, v);
    assert v.Get(Sha1) == Str(m.sha1) && v.Get(Sha256) == Str(m.sha256) && v.Get(SourceRef) == Str(m.sourceRef);
    HexIsPlain(h, m.sha1, 40);
    HexIsPlain(h, m.sha256, 64);
  }

  lemma ValidItems(h: Host, items: seq<Json>)
    requires IsTextHost(h) && AllMaterials(h, items) && MaterialsJson(MaterialsOf(h, items)) == Arr(items)
    ensures AreImportItems(h, items) && Imported(h, items) == MaterialsOf(h, items)
  {
    hide HasMaterial, MaterialOf, IsImportItem, ImportedOf, MaterialJson;
    var s := MaterialsOf(h, items);
    forall i | 0 <= i < |items|
      ensures IsImportItem(h, items[i]) && ImportedOf(h, items[i]) == s[i]
    {
      assert MaterialsJson(s).items[i] == MaterialJson(s[i]) && items[i] == MaterialJson(s[i]);
      ValidItem(h, items[i]);
    }
  }

  lemma WordsOf(h: Host, v: Json)
    requires HasLines(h, v)
    ensures AreWords(h, v) && v.items != []
  {
  }

  /** Whatever the shared validator accepts, the gate's importer accepts for a request with
      the same event, round, task and module, and both read the same materials from it. */
  lemma ValidIsImportable(h: Host, q: Handoff, p: Json)
    requires IsTextHost(h) && IsValid(h, p) && IsFor(h, q, p)
    ensures IsImportable(h, q, p)
    ensures Imported(h, p.Get(Artifacts).items) == MaterialsOf(h, p.Get(Artifacts).items)
  {
    hide IsEventId, IsSingle, HasUniqueNames, AllMaterials, IsImportItem, HasLines, IsModule, TextsJson, Normalized;
    NormalizedFields(h, p);
    DigestIsPlain(h, h.lower(h.strip(p.Get(ManifestSDigest).s)));
    DigestIsPlain(h, h.lower(h.strip(p.Get(PolicyDigest).s)));
    DigestText(h, p.Get(ManifestSDigest));
    DigestText(h, p.Get(PolicyDigest));
    ValidItems(h, p.Get(Artifacts).items);
    WordsOf(h, p.Get(EffectiveChecks));
    WordsOf(h, p.Get(EvidenceRefs));
  }

  lemma DigestText(h: Host, v: Json)
    requires v.Str? && IsDigest(v.s)
    ensures Text(h, v) == v.s
  {
  }

  /** The importer asks for less: a document that differs from a valid one only in naming
      no evidence is imported, though the validator refuses it. */
  lemma ImporterTakesLess(h: Host, q: Handoff, s: Submission, policy: string, files: seq<Material>)
    requires IsTextHost(h) && HasHexDigest(h) && IsSubmission(h, s) && s.refs == [] && IsDigest(policy)
    requires files != [] && AreSound(h, files) && HasUniqueNames(h, files)
    requires IsFor(h, q, Manifest(h, s, policy, files))
    ensures IsImportable(h, q, Manifest(h, s, policy, files)) && !IsValid(h, Manifest(h, s, policy, files))
  {
    hide Manifest, IsEventId, HasUniqueNames, AreSound, AllMaterials, AreImportItems, IsSubmission, IsSound;
    var p := Manifest(h, s, policy, files);
    var claimed := "sha256:" + h.digest(Obj(ManifestBody(h, s, policy, files)));
    ManifestReadsAs(h, s, policy, files);
    BuiltIsValid(h, s, policy, files);
    DigestShape(h, Obj(ManifestBody(h, s, policy, files)));
    DigestIsPlain(h, claimed);
    DigestIsPlain(h, policy);
    DigestText(h, p.Get(ManifestSDigest));
    DigestText(h, p.Get(PolicyDigest));
    MaterialsRead(h, files);
    MaterialsShape(files);
    ValidItems(h, MaterialsJson(files).items);
    SubmissionWords(h, s);
  }

  lemma SubmissionWords(h: Host, s: Submission)
    requires IsSubmission(h, s)
    ensures AreWords(h, TextsJson(s.checks)) && TextsJson(s.checks).items != [] && AreWords(h, TextsJson(s.refs))
    ensures h.strip(Text(h, Str(s.policyProfile))) != ""
  {
    assert forall i :: 0 <= i < |s.checks| ==> IsLine(h, s.checks[i]);
    assert forall i :: 0 <= i < |s.refs| ==> IsLine(h, s.refs[i]);
  }

  // ---------------------------------------------------------------- the tested material

  predicate IsTestedFile(h: Host, d: Disk, root: string, m: Material) {
    && HasHashes(h, d, Join(root, m.fileName), m.sha1, m.sha256)
    && |ContentAt(d, Join(root, m.fileName))| == m.size
  }

  /** The root is a real directory, of exactly the bound files, with the bound content. */
  predicate IsTested(h: Host, d: Disk, root: string, s: seq<Material>) {
    && var entry := EntryAt(d.links, root);
    && IsRealDirectory(d, entry) && HoldsPlainFiles(d, entry)
    && Below(d.files.Keys, entry) == (set i | 0 <= i < |s| :: s[i].fileName)
    && forall i :: 0 <= i < |s| ==> IsTestedFile(h, d, root, s[i])
  }

  function RootOf(h: Host, q: Handoff): string {
    h.absolute(h.strip(q.dir))
  }

  method CheckTested(h: Host, d: Disk, root: string, s: seq<Material>) returns (ok: bool)
    ensures ok <==> IsTested(h, d, root, s)
  {
    hide HasHashes, Below, HoldsPlainFiles, IsRealDirectory, EntryAt;
    var entry := EntryAt(d.links, root);
    if !IsRealDirectory(d, entry) || !HoldsPlainFiles(d, entry) {
      return false;
    }
    var expected: set<string> := {};
    for k := 0 to |s|
      invariant expected == (set i | 0 <= i < k :: s[i].fileName)
    {
      expected := expected + {s[k].fileName};
    }
    if Below(d.files.Keys, entry) != expected {
      return false;
    }
    for k := 0 to |s|
      invariant forall i :: 0 <= i < k ==> IsTestedFile(h, d, root, s[i])
    {
      if !IsTestedFile(h, d, root, s[k]) {
        return false;
      }
    }
    return true;
  }

  /** Where a bound file is looked for, links followed. */
  function SourcePlace(d: Disk, root: string, m: Material): string {
    Place(d.links, Join(root, m.fileName))
  }

  function ImportedArtifact(h: Host, q: Handoff, d: Disk, m: Material): SourceArtifact {
    SourceArtifact(m.logicalName, SourcePlace(d, RootOf(h, q), m), m.size, m.sha1, m.sha256,
                   if m.sourceRef != "" then m.sourceRef else h.strip(q.sourceRef),
                   h.lower(Suffix(m.logicalName)), "imported")
  }

  function ImportedArtifacts(h: Host, q: Handoff, d: Disk, s: seq<Material>): (r: seq<SourceArtifact>)
    ensures |r| == |s|
  {
    seq(|s|, i requires 0 <= i < |s| => ImportedArtifact(h, q, d, s[i]))
  }

  function ClaimedDigest(h: Host, p: Json): string
    requires p.Obj?
  {
    h.lower(Text(h, p.Get(ManifestSDigest)))
  }

  function SnapshotOf(h: Host, q: Handoff, p: Json): string
    requires p.Obj?
  {
    if q.ruleSnapshot != "" then q.ruleSnapshot else h.lower(Text(h, p.Get(PolicyDigest)))
  }

  function ImportedOrigin(h: Host, q: Handoff, p: Json): Origin
    requires p.Obj?
  {
    Origin(h.strip(q.task), q.round, h.strip(q.sourceRef), SnapshotOf(h, q, p), None,
           Some(Upstream(h.strip(q.moduleName), h.strip(Text(h, p.Get(PolicyProfile))),
                         h.lower(Text(h, p.Get(PolicyDigest))), p.Get(EffectiveChecks), ClaimedDigest(h, p))))
  }

  /** The new event, past the submission gate. */
  function ImportedCase(h: Host, q: Handoff, p: Json, d: Disk): Case
    requires IsImportable(h, q, p)
  {
    var artifacts := ImportedArtifacts(h, q, d, Imported(h, p.Get(Artifacts).items));
    var digest := SourceDigest(h, artifacts);
    Case(Event(h.strip(q.eventId), ImportedOrigin(h, q, p), q.riskLevel, h.strip(q.rollbackRef), Testing, digest,
               None, None, None, None, [HistoryEntry(None, Testing)]),
         ReleaseGate.ManifestS(artifacts, digest, Some(UpstreamCopy(h.strip(q.eventId), p, ClaimedDigest(h, p)))),
         None, d)
  }

  // ---------------------------------------------------------------- importing again

  /** Python's `==` of two documents, for which true is one. */
  predicate IsEqual(a: Json, b: Json) {
    match a
    case Null => b.Null?
    case Bool(_) => b == a || (b.Num? && IsNumber(a, b.n))
    case Num(n) => IsNumber(b, n)
    case Str(_) => b == a
    case Arr(items) =>
      b.Arr? && |b.items| == |items| && forall i :: 0 <= i < |items| ==> IsEqual(items[i], b.items[i])
    case Obj(fields) =>
      b.Obj? && b.fields.Keys == fields.Keys && forall k :: k in fields ==> IsEqual(fields[k], b.fields[k])
  }

  /** The stored event says what the request says. */
  predicate IsBoundAs(h: Host, q: Handoff, p: Json, e: Event)
    requires p.Obj?
  {
    var o := ImportedOrigin(h, q, p);
    && e.eventId == h.strip(q.eventId) && e.riskLevel == q.riskLevel && e.rollbackRef == h.strip(q.rollbackRef)
    && e.origin.taskId == o.taskId && e.origin.round == o.round && e.origin.sourceRef == o.sourceRef
    && e.origin.ruleSnapshot == o.ruleSnapshot && e.origin.upstream.Some?
    && e.origin.upstream.value.moduleName == o.upstream.value.moduleName
    && e.origin.upstream.value.policyProfile == o.upstream.value.policyProfile
    && e.origin.upstream.value.policyDigest == o.upstream.value.policyDigest
    && e.origin.upstream.value.digest == o.upstream.value.digest
  }

  /** The stored manifest is of this document and these materials, and its own digest holds. */
  predicate IsStoredAs(h: Host, q: Handoff, p: Json, c: Case)
    requires IsImportable(h, q, p)
  {
    && c.manifestS.upstream.Some?
    && IsEqual(c.manifestS.upstream.value.document, p)
    && c.manifestS.upstream.value.eventId == h.strip(q.eventId)
    && c.manifestS.upstream.value.digest == ClaimedDigest(h, p)
    && c.manifestS.artifacts == ImportedArtifacts(h, q, c.disk, Imported(h, p.Get(Artifacts).items))
    && c.manifestS.digest == SourceDigest(h, c.manifestS.artifacts)
    && c.event.manifestSDigest == SourceDigest(h, c.manifestS.artifacts)
  }

  predicate IsReplayOf(h: Host, q: Handoff, p: Json, c: Case)
    requires IsImportable(h, q, p)
  {
    IsBoundAs(h, q, p, c.event) && IsStoredAs(h, q, p, c)
  }

  lemma {:induction false} IsEqualReflexive(a: Json)
    ensures IsEqual(a, a)
  {
    match a
    case Arr(items) =>
      forall i | 0 <= i < |items|
        ensures IsEqual(items[i], items[i])
      {
        IsEqualReflexive(items[i]);
      }
    case Obj(fields) =>
      forall k | k in fields
        ensures IsEqual(fields[k], fields[k])
      {
        IsEqualReflexive(fields[k]);
      }
    case _ =>
  }

  /** What was just imported is what the same request asks for. */
  lemma ImportedIsReplay(h: Host, q: Handoff, p: Json, d: Disk)
    requires IsImportable(h, q, p)
    ensures IsReplayOf(h, q, p, ImportedCase(h, q, p, d))
  {
    hide IsImportable, SourceDigest, ImportedArtifacts, Imported, ClaimedDigest, IsEqual;
    IsEqualReflexive(p);
  }

  /** What is looked at again: the final material once it is built and not judged, else the
      tested material. */
  predicate IsStillThere(h: Host, q: Handoff, p: Json, c: Case)
    requires IsImportable(h, q, p)
  {
    if c.event.status == ReleaseGating then
      var dir := h.strip(if c.event.finalOutputDir.Some? then c.event.finalOutputDir.value else "");
      dir != "" && ReplayBuild(h, c, dir).Done?
    else IsTested(h, c.disk, RootOf(h, q), Imported(h, p.Get(Artifacts).items))
  }

  /** The first import makes a new case in TESTING, so everything proved of runs from a new
      case holds of imported events too. Every other import leaves the event alone: it either
      returns what is there or is refused. */
  method ImportHandoff(h: Host, q: Handoff, p: Json, existing: Option<Case>, d: Disk) returns (reply: Reply<Case>)
    requires existing.Some? ==> existing.value.disk == d
    ensures reply.Done? ==> IsRequest(h, q) && IsImportable(h, q, p) && IsReplayOf(h, q, p, reply.value)
    ensures existing.None? && IsRequest(h, q) && IsImportable(h, q, p) ==>
      && (reply.Done? <==> IsTested(h, d, RootOf(h, q), Imported(h, p.Get(Artifacts).items)))
      && (reply.Done? ==> reply.value == ImportedCase(h, q, p, d) && IsNewCase(h, reply.value))
    ensures existing.Some? && IsRequest(h, q) && IsImportable(h, q, p) ==>
      && (reply.Done? <==> IsReplayOf(h, q, p, existing.value) && IsStillThere(h, q, p, existing.value))
      && (reply.Done? ==> reply.value == existing.value)
  {
    hide IsTested, IsPortableName, IsEventId, IsImportItem, ImportedOf, HasUniqueNames, FreezeDigest, AreWords;
    hide SourceDigest;
    hide IsBoundAs, IsStoredAs, IsFinalIntact;
    if !IsRequest(h, q) || !IsImportable(h, q, p) {
      return Refused(InvalidArgument);
    }
    if existing.Some? && existing.value.event.status == ReleaseGating {
      var c := existing.value;
      if !IsBoundAs(h, q, p, c.event) || !IsStoredAs(h, q, p, c) {
        return Refused(EventExists);
      }
      var dir := h.strip(if c.event.finalOutputDir.Some? then c.event.finalOutputDir.value else "");
      if dir == "" || c.manifestR.None? {
        return Refused(FinalConflict);
      }
      var intact := CheckFinal(h, c, c.manifestR.value, dir);
      return if intact then Done(c) else Refused(FinalConflict);
    }
    var materials := Imported(h, p.Get(Artifacts).items);
    var tested := CheckTested(h, d, RootOf(h, q), materials);
    if !tested {
      return Refused(SourceDrifted);
    }
    if existing.Some? {
      var c := existing.value;
      return if IsBoundAs(h, q, p, c.event) && IsStoredAs(h, q, p, c) then Done(c) else Refused(EventExists);
    }
    ImportedIsNew(h, q, p, d);
    ImportedIsReplay(h, q, p, d);
    return Done(ImportedCase(h, q, p, d));
  }

  lemma ImportedIsNew(h: Host, q: Handoff, p: Json, d: Disk)
    requires IsRequest(h, q) && IsImportable(h, q, p)
    ensures IsNewCase(h, ImportedCase(h, q, p, d))
  {
    hide IsEventId, SourceDigest, FoldedLogical, IsImportItem, ImportedOf, FreezeDigest, AreWords;
    var s := Imported(h, p.Get(Artifacts).items);
    UniqueFolded(h, s);
    var a := ImportedArtifacts(h, q, d, s);
    forall i, j | 0 <= i < j < |a|
      ensures h.casefold(a[i].name) != h.casefold(a[j].name)
    {
      assert h.casefold(s[i].logicalName) != h.casefold(s[j].logicalName);
    }
  }

  lemma LastNameIsNew(h: Host, init: seq<Material>, m: Material)
    requires |FoldedLogical(h, init + [m])| == |init| + 1
    ensures |FoldedLogical(h, init)| == |init| && h.casefold(m.logicalName) !in FoldedLogical(h, init)
  {
    hide FoldedFiles;
    FoldedAppend(h, init, m);
    FoldedSize(h, init, 0);
    assert init[..0] == [] && FoldedLogical(h, []) == {};
  }

  /** As many folded names as materials: all different. */
  lemma {:induction false} UniqueFolded(h: Host, s: seq<Material>)
    requires |FoldedLogical(h, s)| == |s|
    ensures forall i, j :: 0 <= i < j < |s| ==> h.casefold(s[i].logicalName) != h.casefold(s[j].logicalName)
    decreases |s|
  {
    if s != [] {
      var n := |s| - 1;
      var init := s[..n];
      assert s == init + [s[n]];
      LastNameIsNew(h, init, s[n]);
      UniqueFolded(h, init);
      forall i, j | 0 <= i < j < |s|
        ensures h.casefold(s[i].logicalName) != h.casefold(s[j].logicalName)
      {
        assert init[i] == s[i];
        if j < n {
          assert init[j] == s[j];
        } else {
          assert h.casefold(init[i].logicalName) in FoldedLogical(h, init);
        }
      }
    }
  }

  /** Links lead to real places on any disk; then the imported sources are where the event
      says, so a build can start from them. */
  lemma ImportedIsIntact(h: Host, q: Handoff, p: Json, d: Disk)
    requires IsImportable(h, q, p) && AreLinksFollowed(d.links)
    requires IsTested(h, d, RootOf(h, q), Imported(h, p.Get(Artifacts).items))
    ensures AreSourcesIntact(h, ImportedCase(h, q, p, d))
  {
    hide IsImportItem, ImportedOf, FreezeDigest, AreWords, HasUniqueNames, Place;
    var c := ImportedCase(h, q, p, d);
    var s := Imported(h, p.Get(Artifacts).items);
    forall i | 0 <= i < |s|
      ensures var a := c.manifestS.artifacts[i]; HasHashes(h, d, a.path, a.sha1, a.sha256)
    {
      assert IsTestedFile(h, d, RootOf(h, q), s[i]);
      PlaceIsFinal(d.links, Join(RootOf(h, q), s[i].fileName));
    }
  }

  // ---------------------------------------------------------------- what a repeated import meets

  /** A digest without collisions tells apart what `==` does not. */
  lemma SameFrozen(h: Host, p: Json, p': Json)
    requires CollisionFree(h.digest) && p.Obj? && p'.Obj? && FreezeDigest(h, p) == FreezeDigest(h, p')
    requires ManifestSDigest in p.fields && ManifestSDigest in p'.fields
    requires p.Get(ManifestSDigest) == p'.Get(ManifestSDigest)
    ensures p == p'
  {
    var a, b := h.digest(Obj(p.fields - {ManifestSDigest})), h.digest(Obj(p'.fields - {ManifestSDigest}));
    assert ("sha256:" + a)[7..] == a && ("sha256:" + b)[7..] == b;
    assert p.fields == (p.fields - {ManifestSDigest})[ManifestSDigest := p.fields[ManifestSDigest]];
    assert p'.fields == (p'.fields - {ManifestSDigest})[ManifestSDigest := p'.fields[ManifestSDigest]];
  }

  /** What the document does not fix: risk, rollback, source, rule snapshot, and where the
      files are, looked up at either time. */
  predicate IsSameRequest(h: Host, q: Handoff, d: Disk, q': Handoff, d': Disk, p: Json)
    requires IsImportable(h, q, p)
  {
    && q'.riskLevel == q.riskLevel && h.strip(q'.rollbackRef) == h.strip(q.rollbackRef)
    && h.strip(q'.sourceRef) == h.strip(q.sourceRef) && SnapshotOf(h, q', p) == SnapshotOf(h, q, p)
    && AreSamePlaces(h, q, d, q', d', Imported(h, p.Get(Artifacts).items))
  }

  predicate AreSamePlaces(h: Host, q: Handoff, d: Disk, q': Handoff, d': Disk, s: seq<Material>) {
    forall m :: m in s ==> SourcePlace(d', RootOf(h, q'), m) == SourcePlace(d, RootOf(h, q), m)
  }

  lemma SameArtifacts(h: Host, q: Handoff, d: Disk, q': Handoff, d': Disk, s: seq<Material>)
    requires h.strip(q.sourceRef) == h.strip(q'.sourceRef)
    ensures ImportedArtifacts(h, q', d', s) == ImportedArtifacts(h, q, d, s) <==> AreSamePlaces(h, q, d, q', d', s)
  {
    hide SourcePlace;
    var a, a' := ImportedArtifacts(h, q, d, s), ImportedArtifacts(h, q', d', s);
    if a' == a {
      forall m | m in s
        ensures SourcePlace(d', RootOf(h, q'), m) == SourcePlace(d, RootOf(h, q), m)
      {
        var i :| 0 <= i < |s| && s[i] == m;
        assert a'[i] == a[i];
      }
    } else {
      assert exists i :: 0 <= i < |s| && a'[i] != a[i];
    }
  }

  /** An event for which an import was accepted has the sources of that import: one document
      and one place for each tested file fix the digest that a build starts from. */
  lemma AcceptedFixesDigest(h: Host, q: Handoff, p: Json, c: Case, d: Disk)
    requires IsImportable(h, q, p) && IsReplayOf(h, q, p, c)
    requires AreSamePlaces(h, q, d, q, c.disk, Imported(h, p.Get(Artifacts).items))
    ensures c.event.manifestSDigest == SourceDigest(h, ImportedArtifacts(h, q, d, Imported(h, p.Get(Artifacts).items)))
  {
    hide IsImportItem, ImportedOf, IsBoundAs, SourceDigest, AreSamePlaces, IsEqual;
    SameArtifacts(h, q, d, q, c.disk, Imported(h, p.Get(Artifacts).items));
  }

  /** The document fixes event, round, task and module. */
  lemma DocumentFixes(h: Host, q: Handoff, q': Handoff, p: Json)
    requires IsImportable(h, q, p) && IsImportable(h, q', p)
    ensures h.strip(q.eventId) == h.strip(q'.eventId) && q.round == q'.round
    ensures h.strip(q.task) == h.strip(q'.task) && h.strip(q.moduleName) == h.strip(q'.moduleName)
  {
    hide IsImportItem, FreezeDigest, AreWords, HasUniqueNames;
  }

  lemma StoredDocumentIs(h: Host, q: Handoff, p: Json, q': Handoff, p': Json)
    requires CollisionFree(h.digest) && IsImportable(h, q, p) && IsImportable(h, q', p')
    requires p.Get(ManifestSDigest).Str? && IsEqual(p, p') && ClaimedDigest(h, p) == ClaimedDigest(h, p')
    ensures p == p'
  {
    hide IsImportItem, AreWords, HasUniqueNames, FreezeDigest;
    assert ManifestSDigest in p.fields && ManifestSDigest in p'.fields;
    assert IsEqual(p.fields[ManifestSDigest], p'.fields[ManifestSDigest]);
    SameFrozen(h, p, p');
  }

  /** What a run without forged manifests leaves of an imported case. */
  lemma ImportedStays(h: Host, rules: Policy, q: Handoff, p: Json, d: Disk, run: seq<Command>)
    requires IsRequest(h, q) && IsImportable(h, q, p) && HasNoForgery(run)
    ensures var first, c := ImportedCase(h, q, p, d), After(h, rules, ImportedCase(h, q, p, d), run);
      c.manifestS == first.manifestS && IsSameSubmission(first.event, c.event)
  {
    hide IsImportable, ImportedCase, After, IsSameSubmission;
    ImportedIsNew(h, q, p, d);
    RunKeepsDocuments(h, rules, ImportedCase(h, q, p, d), run);
    RunKeepsEvent(h, rules, ImportedCase(h, q, p, d), run);
  }

  function ImportedMaterials(h: Host, q: Handoff, p: Json): seq<Material>
    requires IsImportable(h, q, p)
  {
    Imported(h, p.Get(Artifacts).items)
  }

  lemma BoundMeans(h: Host, q: Handoff, p: Json, d: Disk, e: Event, q': Handoff, p': Json, d': Disk)
    requires IsImportable(h, q, p) && IsImportable(h, q', p') && IsSameSubmission(ImportedCase(h, q, p, d).event, e)
    ensures IsBoundAs(h, q', p', e) ==>
      && q'.riskLevel == q.riskLevel && h.strip(q'.rollbackRef) == h.strip(q.rollbackRef)
      && h.strip(q'.sourceRef) == h.strip(q.sourceRef) && SnapshotOf(h, q', p') == SnapshotOf(h, q, p)
      && ClaimedDigest(h, p') == ClaimedDigest(h, p)
    ensures p' == p && IsSameRequest(h, q, d, q', d', p) ==> IsBoundAs(h, q', p', e)
  {
    hide IsImportable, SourceDigest, ImportedArtifacts, Imported, ClaimedDigest, SnapshotOf, AreSamePlaces;
    if p' == p {
      DocumentFixes(h, q, q', p);
    }
  }

  lemma StoredMeans(h: Host, q: Handoff, p: Json, d: Disk, c: Case, q': Handoff, p': Json)
    requires IsImportable(h, q, p) && IsImportable(h, q', p')
    requires c.manifestS == ImportedCase(h, q, p, d).manifestS
    requires IsSameSubmission(ImportedCase(h, q, p, d).event, c.event)
    ensures IsStoredAs(h, q', p', c) <==>
      && IsEqual(p, p') && h.strip(q.eventId) == h.strip(q'.eventId) && ClaimedDigest(h, p) == ClaimedDigest(h, p')
      && ImportedArtifacts(h, q, d, ImportedMaterials(h, q, p))
           == ImportedArtifacts(h, q', c.disk, ImportedMaterials(h, q', p'))
  {
    hide IsImportable, IsEqual, SourceDigest, ImportedArtifacts, Imported, ClaimedDigest, ImportedOrigin;
  }

  /** After any run without forged manifests, a second import is taken for a repetition of the
      first exactly when it brings the same document and asks for the same; every other one
      with that event id is a conflict. */
  lemma ReplayIsSame(h: Host, rules: Policy, q: Handoff, p: Json, d: Disk, run: seq<Command>, q': Handoff, p': Json)
    requires CollisionFree(h.digest) && p.Obj? && p.Get(ManifestSDigest).Str?
    requires IsRequest(h, q) && IsImportable(h, q, p) && IsImportable(h, q', p') && HasNoForgery(run)
    ensures var c := After(h, rules, ImportedCase(h, q, p, d), run);
      IsReplayOf(h, q', p', c) <==> p' == p && IsSameRequest(h, q, d, q', c.disk, p)
  {
    assert p'.Obj?;
    hide After, IsEqual, ImportedCase, IsBoundAs, IsStoredAs, IsImportable, ImportedArtifacts, Imported;
    hide ClaimedDigest, SnapshotOf, AreSamePlaces;
    ImportedStays(h, rules, q, p, d, run);
    var c := After(h, rules, ImportedCase(h, q, p, d), run);
    BoundMeans(h, q, p, d, c.event, q', p', c.disk);
    StoredMeans(h, q, p, d, c, q', p');
    if IsEqual(p, p') && ClaimedDigest(h, p) == ClaimedDigest(h, p') {
      StoredDocumentIs(h, q, p, q', p');
    }
    if p' == p {
      IsEqualReflexive(p);
      DocumentFixes(h, q, q', p);
      if h.strip(q.sourceRef) == h.strip(q'.sourceRef) {
        SameArtifacts(h, q, d, q', c.disk, ImportedMaterials(h, q, p));
      }
    }
  }

  /** Between build and verdict the tested directory may be gone: the built release stands in
      for it, and repeating the import returns the event as it is, as long as no link on the
      way to the files was laid or removed. */
  lemma ReplayAfterBuild(h: Host, rules: Policy, q: Handoff, p: Json, d: Disk, run: seq<Command>, dir: string,
                         now: string)
    requires CollisionFree(h.digest) && p.Obj? && p.Get(ManifestSDigest).Str? && h.strip(dir) == dir
    requires IsRequest(h, q) && IsImportable(h, q, p) && HasNoForgery(run)
    requires IsBuiltFrom(h, After(h, rules, ImportedCase(h, q, p, d), run), dir, now)
    ensures var c := Built(h, After(h, rules, ImportedCase(h, q, p, d), run), dir, now);
      && c.event.status == ReleaseGating && IsStillThere(h, q, p, c)
      && (IsReplayOf(h, q, p, c) <==> AreSamePlaces(h, q, d, q, c.disk, ImportedMaterials(h, q, p)))
  {
    hide IsImportable, ImportedCase, IsReplayOf, ReplayBuild, AreFoldedDistinct, IsSubmissionFrozen, IsEventId;
    hide AreSamePlaces, SnapshotOf;
    var before := After(h, rules, ImportedCase(h, q, p, d), run);
    var longer := run + [MakeFinal(dir, now, NoFault)];
    assert longer[..|run|] == run;
    assert HasNoForgery(longer);
    ReplayIsSame(h, rules, q, p, d, longer, q, p);
    assert After(h, rules, ImportedCase(h, q, p, d), longer) == Built(h, before, dir, now);
    ImportedIsNew(h, q, p, d);
    ImportedStays(h, rules, q, p, d, run);
    FoldedAreNamed(h, before.manifestS.artifacts);
    RebuildIsSame(h, before, dir, now, now, NoFault);
    BuildMeaning(h, before, dir, now);
  }

  lemma FoldedAreNamed(h: Host, s: seq<SourceArtifact>)
    requires AreFoldedDistinct(h, s)
    ensures AreDistinct(s, SourceName)
  {
  }
}
