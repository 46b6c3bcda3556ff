/** One release event: its status, its frozen manifests, the files on disk, and what each
    gate operation does to them. */
module ReleaseGate {
  import opened Json
  import opened ReleaseFiles
  import opened GateDisk

  datatype Status =
    | SubmissionGating | SubmissionBlocked | Testing | TestApprovalRequired
    | ReleasePreparing | ReleaseGating | ReleaseBlocked | ReleaseReady

  datatype TestResult = Pass | Fail | Blocked

  datatype Approval = AutoApproved | PendingApproval | Approved(ref: string) | Rejected(ref: string)

  datatype HistoryEntry = HistoryEntry(from: Option<Status>, to: Status)

  datatype SourceArtifact = SourceArtifact(
    name: string, path: string, size: int, sha1: string, sha256: string,
    sourceRef: string, extension: string, changeType: string)

  datatype FinalArtifact = FinalArtifact(
    name: string, path: string, size: int, sha1: string, sha256: string,
    sourceSha1: string, sourceSha256: string, sourceRef: string)

  /** The document an imported event was made from, as its own manifest keeps it. */
  datatype UpstreamCopy = UpstreamCopy(eventId: string, document: Json, digest: string)

  datatype ManifestS = ManifestS(artifacts: seq<SourceArtifact>, digest: string, upstream: Option<UpstreamCopy>)

  datatype ManifestR = ManifestR(
    eventId: string, createdAt: string, sourceDigest: string, outputDir: string,
    artifacts: seq<FinalArtifact>, digest: string)

  datatype Upstream = Upstream(
    moduleName: string, policyProfile: string, policyDigest: string, checks: Json, digest: string)

  /** Where the event comes from; an imported one also names its submission gate. */
  datatype Origin = Origin(
    taskId: string, round: int, sourceRef: string, ruleSnapshot: string, newRoundOf: Option<string>,
    upstream: Option<Upstream>)

  datatype Event = Event(
    eventId: string, origin: Origin, riskLevel: string, rollbackRef: string, status: Status,
    manifestSDigest: string, manifestRDigest: Option<string>, finalOutputDir: Option<string>,
    test: Option<TestResult>, approval: Option<Approval>, history: seq<HistoryEntry>)

  /** `allowedExtensions` are the configured ones in lower case. */
  datatype Policy = Policy(
    allowedExtensions: set<string>, requireSourceRef: bool, allowUnchanged: bool, autoApproved: set<string>)

  /** The event with everything it is stored with. */
  datatype Case = Case(event: Event, manifestS: ManifestS, manifestR: Option<ManifestR>, disk: Disk)

  datatype GateError =
    | UnknownEvent | EventExists | WrongStatus | InvalidArgument | InvalidArtifact
    | ManifestDrifted | SourceDrifted | OutputExists | UnsafeName
    | FinalConflict | BuildFailed

  datatype Reply<+T> = Done(value: T) | Refused(error: GateError)

  // ---------------------------------------------------------------- documents

  function SourceJson(a: SourceArtifact): Json {
    Obj(map[LogicalName := Str(a.name), FilePath := Str(a.path), Size := Num(a.size), Sha1 := Str(a.sha1),
            Sha256 := Str(a.sha256), SourceRef := Str(a.sourceRef), Other("extension") := Str(a.extension),
            Other("change_type") := Str(a.changeType)])
  }

  function FinalJson(a: FinalArtifact): Json {
    Obj(map[LogicalName := Str(a.name), FilePath := Str(a.path), Size := Num(a.size), Sha1 := Str(a.sha1),
            Sha256 := Str(a.sha256), SourceSha1 := Str(a.sourceSha1), SourceSha256 := Str(a.sourceSha256),
            SourceRef := Str(a.sourceRef)])
  }

  function SourceDigest(h: Host, s: seq<SourceArtifact>): string {
    h.digest(Obj(map[Artifacts := Arr(seq(|s|, i requires 0 <= i < |s| => SourceJson(s[i])))]))
  }

  function FinalItems(s: seq<FinalArtifact>): Json {
    Arr(seq(|s|, i requires 0 <= i < |s| => FinalJson(s[i])))
  }

  function FinalDigest(h: Host, sourceDigest: string, s: seq<FinalArtifact>): string {
    ManifestDigest(h, Str(sourceDigest), FinalItems(s))
  }

  /** The Manifest-R document as it is written. */
  function ManifestRJson(m: ManifestR): Json {
    Obj(map[SchemaName := Str("ProductReleaseGateManifestR/v1"), EventId := Str(m.eventId),
            Other("phase") := Str("Manifest-R"), Other("created_at") := Str(m.createdAt),
            SourceManifestSDigest := Str(m.sourceDigest), OutputDir := Str(m.outputDir),
            Artifacts := FinalItems(m.artifacts), Digest := Str(m.digest)])
  }

  /** The digest of the submission agrees with the document and with the event. */
  predicate IsSubmissionFrozen(h: Host, c: Case) {
    && SourceDigest(h, c.manifestS.artifacts) == c.manifestS.digest
    && c.manifestS.digest == c.event.manifestSDigest
  }

  // ---------------------------------------------------------------- transitions

  function Transition(e: Event, to: Status): Event {
    e.(status := to, history := e.history + [HistoryEntry(Some(e.status), to)])
  }

  // ---------------------------------------------------------------- submission gate

  /** What the signature and cloud-scan services answer for each name. */
  datatype Oracle = Oracle(signature: string -> bool, cloud: string -> bool)

  predicate IsCleared(o: Oracle, name: string) {
    o.signature(name) && o.cloud(name)
  }

  /** T-01 to T-03, T-05 and T-06 */
  predicate PassesOne(h: Host, p: Policy, d: Disk, a: SourceArtifact, o: Oracle) {
    && HasHashes(h, d, a.path, a.sha1, a.sha256)
    && h.lower(a.extension) in p.allowedExtensions
    && (p.requireSourceRef ==> h.strip(a.sourceRef) != "")
    && IsCleared(o, a.name)
  }

  predicate IsUnchanged(a: SourceArtifact) {
    a.changeType == "unchanged"
  }

  /** T-00, T-04, T-07 and T-08 besides */
  predicate PassesSubmission(h: Host, p: Policy, c: Case, o: Oracle) {
    var s := c.manifestS.artifacts;
    && IsSubmissionFrozen(h, c)
    && s != []
    && (forall i :: 0 <= i < |s| ==> PassesOne(h, p, c.disk, s[i], o))
    && |set i | 0 <= i < |s| :: s[i].name| == |s|
    && (p.allowUnchanged || forall i :: 0 <= i < |s| ==> !IsUnchanged(s[i]))
  }

  function SubmissionGate(h: Host, p: Policy, c: Case, o: Oracle): Reply<Case> {
    if c.event.status !in {SubmissionGating, SubmissionBlocked} then Refused(WrongStatus)
    else
      var to := if PassesSubmission(h, p, c, o) then Testing else SubmissionBlocked;
      Done(c.(event := Transition(c.event, to)))
  }

  // ---------------------------------------------------------------- test and approval

  function RecordTest(p: Policy, c: Case, result: Option<TestResult>): Reply<Case> {
    if c.event.status != Testing then Refused(WrongStatus)
    else if result.None? then Refused(InvalidArgument)
    else
      var e := c.event.(test := result);
      Done(c.(event :=
        if result != Some(Pass) then Transition(e.(approval := None), SubmissionBlocked)
        else if e.riskLevel in p.autoApproved then Transition(e.(approval := Some(AutoApproved)), ReleasePreparing)
        else Transition(e.(approval := Some(PendingApproval)), TestApprovalRequired)))
  }

  /** `approve`: the decision, or nothing when it is neither of the two words. */
  function RecordApproval(h: Host, c: Case, approve: Option<bool>, ref: string): Reply<Case> {
    if c.event.status != TestApprovalRequired then Refused(WrongStatus)
    else if approve.None? || h.strip(ref) == "" then Refused(InvalidArgument)
    else if approve.value then
      Done(c.(event := Transition(c.event.(approval := Some(Approved(h.strip(ref)))), ReleasePreparing)))
    else
      Done(c.(event := Transition(c.event.(approval := Some(Rejected(h.strip(ref)))), SubmissionBlocked)))
  }

  // ---------------------------------------------------------------- final build

  /** Where the build raises, if it does; what was published is removed again. */
  datatype Fault = NoFault | BeforeManifestSaved | AfterManifestSaved

  predicate AreSourcesIntact(h: Host, c: Case) {
    forall i :: 0 <= i < |c.manifestS.artifacts| ==>
      var a := c.manifestS.artifacts[i]; HasHashes(h, c.disk, a.path, a.sha1, a.sha256)
  }

  predicate AreNamesSafe(h: Host, s: seq<SourceArtifact>) {
    forall i :: 0 <= i < |s| ==> IsPortableName(h, s[i].name)
  }

  /** The copy of one artifact under the output directory, as the manifest lists it. */
  function FinalOf(d: Disk, a: SourceArtifact, dir: string): FinalArtifact
    requires IsFile(d, a.path)
  {
    FinalArtifact(a.name, Join(dir, a.name), |ContentAt(d, a.path)|, a.sha1, a.sha256, a.sha1, a.sha256, a.sourceRef)
  }

  predicate AreFiles(d: Disk, s: seq<SourceArtifact>) {
    forall i :: 0 <= i < |s| ==> IsFile(d, s[i].path)
  }

  function FinalsOf(d: Disk, s: seq<SourceArtifact>, dir: string): (r: seq<FinalArtifact>)
    requires AreFiles(d, s)
    ensures |r| == |s|
  {
    seq(|s|, i requires 0 <= i < |s| => FinalOf(d, s[i], dir))
  }

  /** The disk after copying the artifacts, in order, into a new directory. */
  function Published(d: Disk, s: seq<SourceArtifact>, entry: string): Disk
    requires AreFiles(d, s)
    decreases |s|
  {
    if s == [] then d.(directories := d.directories + {entry})
    else
      var before := Published(d, s[..|s| - 1], entry);
      var a := s[|s| - 1];
      before.(files := before.files[Join(entry, a.name) := ContentAt(d, a.path)])
  }

  function BuiltManifest(h: Host, c: Case, dir: string, now: string): ManifestR
    requires AreFiles(c.disk, c.manifestS.artifacts)
  {
    var finals := FinalsOf(c.disk, c.manifestS.artifacts, dir);
    ManifestR(c.event.eventId, now, c.event.manifestSDigest, dir, finals,
              FinalDigest(h, c.event.manifestSDigest, finals))
  }

  /** Building from an approved submission. */
  function FirstBuild(h: Host, c: Case, dir: string, now: string, fault: Fault): (Reply<ManifestR>, Case) {
    if !IsSubmissionFrozen(h, c) then (Refused(ManifestDrifted), c)
    else if !AreSourcesIntact(h, c) then (Refused(SourceDrifted), c)
    else if Exists(c.disk, EntryAt(c.disk.links, dir)) then (Refused(OutputExists), c)
    else if !AreNamesSafe(h, c.manifestS.artifacts) then (Refused(UnsafeName), c)
    else
      var m := BuiltManifest(h, c, dir, now);
      match fault
      case BeforeManifestSaved => (Refused(BuildFailed), c)
      case AfterManifestSaved => (Refused(BuildFailed), c.(manifestR := Some(m)))
      case NoFault =>
        (Done(m),
         c.(event := Transition(c.event.(manifestRDigest := Some(m.digest), finalOutputDir := Some(dir)),
                                ReleaseGating),
            manifestR := Some(m), disk := Published(c.disk, c.manifestS.artifacts, EntryAt(c.disk.links, dir))))
  }

  predicate IsFileIntact(h: Host, d: Disk, a: FinalArtifact, dir: string) {
    && IsPortableName(h, a.name)
    && a.path == Join(dir, a.name)
    && HasHashes(h, d, a.path, a.sha1, a.sha256)
    && |ContentAt(d, a.path)| == a.size
  }

  /** The final material is exactly what the stored manifest says, in the asked-for place. */
  predicate IsFinalIntact(h: Host, c: Case, m: ManifestR, dir: string) {
    && m.outputDir == dir
    && FinalDigest(h, m.sourceDigest, m.artifacts) == m.digest
    && c.event.manifestRDigest == Some(m.digest)
    && m.sourceDigest == c.event.manifestSDigest
    && var entry := EntryAt(c.disk.links, dir);
    && IsRealDirectory(c.disk, entry) && HoldsPlainFiles(c.disk, entry)
    && (set name | name in Below(c.disk.files.Keys, entry) :: h.casefold(name))
         == (set i | 0 <= i < |m.artifacts| :: h.casefold(m.artifacts[i].name))
    && forall i :: 0 <= i < |m.artifacts| ==> IsFileIntact(h, c.disk, m.artifacts[i], dir)
  }

  /** Asking again for a build that is already there. */
  function ReplayBuild(h: Host, c: Case, dir: string): Reply<ManifestR> {
    if c.manifestR.None? then Refused(FinalConflict)
    else if IsFinalIntact(h, c, c.manifestR.value, dir) then Done(c.manifestR.value)
    else Refused(FinalConflict)
  }

  function Build(h: Host, c: Case, dir: string, now: string, fault: Fault): (Reply<ManifestR>, Case) {
    if dir == "" then (Refused(InvalidArgument), c)
    else if c.event.status == ReleaseGating then (ReplayBuild(h, c, dir), c)
    else if c.event.status == ReleasePreparing then FirstBuild(h, c, dir, now, fault)
    else (Refused(WrongStatus), c)
  }

  // ---------------------------------------------------------------- release gate

  function SourceName(a: SourceArtifact): string {
    a.name
  }

  function FinalName(a: FinalArtifact): string {
    a.name
  }

  /** `{name(item): item for item in s}`: a later item replaces an earlier one. */
  function IndexBy<T>(s: seq<T>, name: T -> string): map<string, T>
    decreases |s|
  {
    if s == [] then map[] else IndexBy(s[..|s| - 1], name)[name(s[|s| - 1]) := s[|s| - 1]]
  }

  function SourceIndex(c: Case): map<string, SourceArtifact> {
    IndexBy(c.manifestS.artifacts, SourceName)
  }

  function FinalIndex(m: ManifestR): map<string, FinalArtifact> {
    IndexBy(m.artifacts, FinalName)
  }

  /** R-01 */
  predicate ManifestsBound(h: Host, c: Case, m: ManifestR) {
    && IsSubmissionFrozen(h, c)
    && m.sourceDigest == c.event.manifestSDigest
    && FinalDigest(h, m.sourceDigest, m.artifacts) == m.digest
    && c.event.manifestRDigest == Some(m.digest)
  }

  /** R-02 */
  predicate SourcesMapped(source: map<string, SourceArtifact>, final: map<string, FinalArtifact>) {
    forall name :: name in final ==>
      name in source && final[name].sourceSha1 == source[name].sha1 && final[name].sourceSha256 == source[name].sha256
  }

  /** R-05 for one file */
  predicate IsContentKept(h: Host, d: Disk, source: map<string, SourceArtifact>, final: map<string, FinalArtifact>,
                          name: string)
    requires name in final
  {
    && HasHashes(h, d, final[name].path, final[name].sha1, final[name].sha256)
    && name in source && source[name].sha1 == final[name].sha1 && source[name].sha256 == final[name].sha256
  }

  /** R-05 */
  predicate ContentKept(h: Host, d: Disk, source: map<string, SourceArtifact>, final: map<string, FinalArtifact>) {
    forall name :: name in final ==> IsContentKept(h, d, source, final, name)
  }

  /** R-06 and R-07 */
  predicate ServicesAgree(final: map<string, FinalArtifact>, o: Oracle) {
    forall name :: name in final ==> IsCleared(o, name)
  }

  /** R-08 */
  predicate TestAndApprovalBound(e: Event) {
    e.test == Some(Pass) && e.approval.Some? && (e.approval.value.AutoApproved? || e.approval.value.Approved?)
  }

  /** R-02 to R-05 of the base gate: the final material still is the submission. */
  predicate NoDrift(h: Host, c: Case, m: ManifestR) {
    var source, final := SourceIndex(c), FinalIndex(m);
    && SourcesMapped(source, final)
    && source.Keys == final.Keys
    && ContentKept(h, c.disk, source, final)
  }

  /** Every listed path leads to the listed name in the output directory. */
  predicate ArePathsBound(d: Disk, m: ManifestR) {
    forall name :: name in FinalIndex(m) ==>
      Place(d.links, FinalIndex(m)[name].path) == Join(Place(d.links, m.outputDir), name)
  }

  /** The event and the manifest name one output directory. */
  predicate IsOutputBound(c: Case, m: ManifestR) {
    Place(c.disk.links, if c.event.finalOutputDir.Some? then c.event.finalOutputDir.value else "")
      == Place(c.disk.links, m.outputDir)
  }

  /** R-01 to R-05 of the hardened gate: distinct names, one output directory, and no
      file or directory there beyond the listed ones. */
  predicate NoHardenedDrift(h: Host, c: Case, m: ManifestR) {
    var source, final := SourceIndex(c), FinalIndex(m);
    && ManifestsBound(h, c, m)
    && |source| == |c.manifestS.artifacts| && |final| == |m.artifacts|
    && IsOutputBound(c, m)
    && ArePathsBound(c.disk, m)
    && NoDrift(h, c, m)
    && FilesSeen(c.disk, Place(c.disk.links, m.outputDir)) == final.Keys
    && DirectoriesSeen(c.disk, Place(c.disk.links, m.outputDir)) == {}
  }

  predicate IsRollbackReady(h: Host, e: Event) {
    h.strip(e.rollbackRef) != ""
  }

  /** The base gate and, when `hardened`, the one that also inspects the directory. */
  function GateVerdict(h: Host, c: Case, m: ManifestR, o: Oracle, hardened: bool): Status {
    var kept := if hardened then NoHardenedDrift(h, c, m) else NoDrift(h, c, m);
    if !kept then SubmissionBlocked
    else if ManifestsBound(h, c, m) && ServicesAgree(FinalIndex(m), o)
            && TestAndApprovalBound(c.event) && IsRollbackReady(h, c.event) then ReleaseReady
    else ReleaseBlocked
  }

  function RunGate(h: Host, c: Case, o: Oracle, hardened: bool): Reply<Case> {
    if c.event.status !in {ReleaseGating, ReleaseBlocked} || c.manifestR.None? then Refused(WrongStatus)
    else Done(c.(event := Transition(c.event, GateVerdict(h, c, c.manifestR.value, o, hardened))))
  }
}
