/** What the gate's operations answer over whole runs, said of the submission, the files and the
    services: when a submission goes to test, when a build goes through, what a verdict means. */
module GateAnswers {
  import opened Json
  import opened GateDisk
  import opened ReleaseGate
  import opened GateRuns
  import opened GateEvidence
  import opened GateProducer
  import opened GateReplay

  /** The file at the path has exactly the frozen content hashes. */
  predicate IsFrozenAt(h: Host, d: Disk, path: string, a: SourceArtifact) {
    && Place(d.links, path) in d.files
    && h.sha1(d.files[Place(d.links, path)]) == a.sha1
    && h.sha256(d.files[Place(d.links, path)]) == a.sha256
  }

  // ---------------------------------------------------------------- the submission gate

  /** One artifact that may go to test. */
  predicate IsClean(h: Host, p: Policy, d: Disk, a: SourceArtifact, o: Oracle) {
    && IsFrozenAt(h, d, a.path, a)
    && h.lower(a.extension) in p.allowedExtensions
    && (p.requireSourceRef ==> h.strip(a.sourceRef) != "")
    && o.signature(a.name) && o.cloud(a.name)
  }

  lemma AllNamed(h: Host, s: seq<SourceArtifact>)
    requires AreFoldedDistinct(h, s)
    ensures |set i | 0 <= i < |s| :: s[i].name| == |s|
  {
    FoldedIsDistinct(h, s);
    IndexKeys(s, SourceName);
    IndexDistinct(s, SourceName);
    var index := IndexBy(s, SourceName);
    assert (set i | 0 <= i < |s| :: s[i].name) == index.Keys by {
      assert forall i :: 0 <= i < |s| ==> s[i].name == SourceName(s[i]);
    }
    assert |index.Keys| == |index|;
  }

  lemma PassesExactly(h: Host, p: Policy, c: Case, o: Oracle, s: seq<SourceArtifact>)
    requires CollisionFree(h.digest) && s != [] && AreFoldedDistinct(h, s)
    requires c.event.manifestSDigest == SourceDigest(h, s)
    ensures PassesSubmission(h, p, c, o) <==>
      && c.manifestS.artifacts == s && c.manifestS.digest == SourceDigest(h, s)
      && (forall i :: 0 <= i < |s| ==> IsClean(h, p, c.disk, s[i], o))
      && (p.allowUnchanged || forall i :: 0 <= i < |s| ==> s[i].changeType != "unchanged")
  {
    hide SourceDigest, Place, CollisionFree;
    AllNamed(h, s);
    if SourceDigest(h, c.manifestS.artifacts) == SourceDigest(h, s) {
      SourceDigestInjective(h, c.manifestS.artifacts, s);
    }
    var stored := c.manifestS.artifacts;
    assert forall i :: 0 <= i < |stored| ==>
        (PassesOne(h, p, c.disk, stored[i], o) <==> IsClean(h, p, c.disk, stored[i], o));
    assert forall i :: 0 <= i < |stored| ==> (IsUnchanged(stored[i]) <==> stored[i].changeType == "unchanged");
  }

  /** After any run, with files and stored manifests changed at will in between, the submission
      gate sends an event to test if and only if the stored submission is the original one, every
      file has its frozen hashes, extension and source reference are as the policy asks, both
      services clear every name, and nothing is unchanged unless that is allowed. Otherwise the
      event is blocked. In any other status the call changes nothing. */
  lemma SubmissionAnswer(h: Host, p: Policy, first: Case, run: seq<Command>, o: Oracle)
    requires CollisionFree(h.digest) && IsNewCase(h, first)
    ensures var c, s := After(h, p, first, run), first.manifestS.artifacts;
      var next := Step(h, p, c, RunSubmission(o));
      if c.event.status !in {SubmissionGating, SubmissionBlocked} then next == c
      else
        && next.event.status in {Testing, SubmissionBlocked}
        && next.manifestS == c.manifestS && next.manifestR == c.manifestR && next.disk == c.disk
        && (next.event.status == Testing <==>
              && c.manifestS.artifacts == s && c.manifestS.digest == first.manifestS.digest
              && (forall i :: 0 <= i < |s| ==> IsClean(h, p, c.disk, s[i], o))
              && (p.allowUnchanged || forall i :: 0 <= i < |s| ==> s[i].changeType != "unchanged"))
  {
    hide After, IsHistory, IsMove, SourceDigest, PassesSubmission, IsClean, CollisionFree;
    RunKeepsEvent(h, p, first, run);
    PassesExactly(h, p, After(h, p, first, run), o, first.manifestS.artifacts);
  }

  // ---------------------------------------------------------------- test and approval

  /** A test result is taken in TESTING only: a pass goes on, past the approval exactly for the risk
      levels that need none; anything else blocks the submission, and no approval is left. */
  lemma TestAnswer(h: Host, p: Policy, c: Case, result: Option<TestResult>)
    ensures var e := Step(h, p, c, Command.Record(result)).event;
      if c.event.status != Testing || result.None? then e == c.event
      else
        && e.test == result && IsSameSubmission(c.event, e)
        && (e.status == ReleasePreparing <==> result.value == Pass && c.event.riskLevel in p.autoApproved)
        && (e.status == TestApprovalRequired <==> result.value == Pass && c.event.riskLevel !in p.autoApproved)
        && (e.status == SubmissionBlocked <==> result.value != Pass)
        && e.approval == (if result.value != Pass then None
                          else if c.event.riskLevel in p.autoApproved then Some(AutoApproved)
                          else Some(PendingApproval))
  {
  }

  /** An approval is taken where it is required only, with a reference: a grant goes on to the
      build, a refusal blocks the submission. */
  lemma ApprovalAnswer(h: Host, p: Policy, c: Case, approve: Option<bool>, ref: string)
    ensures var e := Step(h, p, c, Decide(approve, ref)).event;
      if c.event.status != TestApprovalRequired || approve.None? || h.strip(ref) == "" then e == c.event
      else
        && e.test == c.event.test && IsSameSubmission(c.event, e)
        && e.status == (if approve.value then ReleasePreparing else SubmissionBlocked)
        && e.approval == Some(if approve.value then Approved(h.strip(ref)) else Rejected(h.strip(ref)))
  {
  }

  // ---------------------------------------------------------------- the final build

  /** All submitted files, read where the event says, still have their frozen hashes. */
  predicate AreAllFrozen(h: Host, d: Disk, s: seq<SourceArtifact>) {
    forall i :: 0 <= i < |s| ==> IsFrozenAt(h, d, s[i].path, s[i])
  }

  /** On any run without forged manifests, a build from an approved submission goes through if and
      only if a directory is named, nothing is there yet, every submitted file is unchanged and
      every name is portable; the manifest then lists the submission. */
  lemma BuildAnswer(h: Host, p: Policy, first: Case, run: seq<Command>, dir: string, now: string)
    requires IsNewCase(h, first) && HasNoForgery(run)
    requires After(h, p, first, run).event.status == ReleasePreparing
    ensures var c, s := After(h, p, first, run), first.manifestS.artifacts;
      var built := Build(h, c, dir, now, NoFault);
      && (built.0.Done? <==>
            && dir != "" && !Exists(c.disk, EntryAt(c.disk.links, dir)) && AreAllFrozen(h, c.disk, s)
            && forall i :: 0 <= i < |s| ==> IsPortableName(h, s[i].name))
      && (built.0.Done? ==>
            && built.1.event.status == ReleaseGating && built.1.event.finalOutputDir == Some(dir)
            && built.1.event.manifestRDigest == Some(built.0.value.digest) && built.1.manifestR == Some(built.0.value)
            && built.0.value.outputDir == dir && AreCopies(s, built.0.value.artifacts, dir))
      && (built.0.Refused? ==> built.1 == c)
  {
    hide After, IsHistory, IsMove, SourceDigest, FinalDigest, Place, Exists, Published, FinalsOf, IsPortableName;
    RunKeepsDocuments(h, p, first, run);
    var c := After(h, p, first, run);
    assert AreSourcesIntact(h, c) <==> AreAllFrozen(h, c.disk, c.manifestS.artifacts);
    if AreSourcesIntact(h, c) {
      FrozenAreFiles(h, c.disk, c.manifestS.artifacts);
      FinalsAreCopies(c.disk, c.manifestS.artifacts, dir);
    }
  }

  lemma FrozenAreFiles(h: Host, d: Disk, s: seq<SourceArtifact>)
    requires AreAllFrozen(h, d, s)
    ensures AreFiles(d, s)
  {
    forall i | 0 <= i < |s|
      ensures IsFile(d, s[i].path)
    {
      assert IsFrozenAt(h, d, s[i].path, s[i]);
    }
  }

  /** In every other status a call builds nothing new, and only after a build, before a verdict,
      is there an answer at all: the manifest of that build, and no change. */
  lemma RebuildAnswer(h: Host, c: Case, dir: string, now: string, fault: Fault)
    requires c.event.status != ReleasePreparing
    ensures var built := Build(h, c, dir, now, fault);
      && built.1 == c
      && (built.0.Done? ==> c.event.status == ReleaseGating && dir != "" && c.manifestR == Some(built.0.value)
                            && built.0.value.outputDir == dir)
  {
    hide FinalDigest, HasHashes, Below;
  }

  /** On any run without forged manifests, asking again for a build succeeds exactly while its
      directory is a real one, holds the submitted names and nothing else, and every file there
      has the size listed and the hashes submitted. */
  lemma RebuildExactly(h: Host, p: Policy, first: Case, run: seq<Command>, dir: string, now: string, fault: Fault)
    requires IsNewCase(h, first) && HasNoForgery(run)
    requires After(h, p, first, run).event.status == ReleaseGating && dir != ""
    ensures var c, s := After(h, p, first, run), first.manifestS.artifacts;
      var entry := EntryAt(c.disk.links, dir);
      && c.manifestR.Some? && |c.manifestR.value.artifacts| == |s|
      && (Build(h, c, dir, now, fault).0.Done? <==>
            && c.event.finalOutputDir == Some(dir)
            && entry in c.disk.directories && entry !in c.disk.links
            && Below(c.disk.directories, entry) == {} && Below(c.disk.links.Keys, entry) == {}
            && (set name | name in Below(c.disk.files.Keys, entry) :: h.casefold(name))
                 == (set i | 0 <= i < |s| :: h.casefold(s[i].name))
            && forall i :: 0 <= i < |s| ==>
                 && IsPortableName(h, s[i].name) && IsFrozenAt(h, c.disk, Join(dir, s[i].name), s[i])
                 && |c.disk.files[Place(c.disk.links, Join(dir, s[i].name))]| == c.manifestR.value.artifacts[i].size)
  {
    hide After, IsHistory, IsMove, SourceDigest, FinalDigest, Place, EntryAt, Below, IsPortableName, Published;
    RunKeepsDocuments(h, p, first, run);
    RunKeepsOwnManifest(h, p, first, run);
    var c, s := After(h, p, first, run), first.manifestS.artifacts;
    var m := c.manifestR.value;
    assert forall i :: 0 <= i < |s| ==> IsCopyOf(s[i], m.artifacts[i], m.outputDir);
    assert (set i | 0 <= i < |m.artifacts| :: h.casefold(m.artifacts[i].name))
        == (set i | 0 <= i < |s| :: h.casefold(s[i].name));
    if m.outputDir == dir {
      IntactExactly(h, c, s, m, dir);
    }
  }

  lemma IntactExactly(h: Host, c: Case, s: seq<SourceArtifact>, m: ManifestR, dir: string)
    requires AreCopies(s, m.artifacts, dir)
    ensures (forall i :: 0 <= i < |m.artifacts| ==> IsFileIntact(h, c.disk, m.artifacts[i], dir)) <==>
      forall i :: 0 <= i < |s| ==>
        && IsPortableName(h, s[i].name) && IsFrozenAt(h, c.disk, Join(dir, s[i].name), s[i])
        && |c.disk.files[Place(c.disk.links, Join(dir, s[i].name))]| == m.artifacts[i].size
  {
    hide IsPortableName, Place;
    forall i | 0 <= i < |s|
      ensures IsFileIntact(h, c.disk, m.artifacts[i], dir) <==>
        && IsPortableName(h, s[i].name) && IsFrozenAt(h, c.disk, Join(dir, s[i].name), s[i])
        && |c.disk.files[Place(c.disk.links, Join(dir, s[i].name))]| == m.artifacts[i].size
    {
      assert IsCopyOf(s[i], m.artifacts[i], dir);
    }
  }

  // ---------------------------------------------------------------- the release gate

  /** Every submitted artifact is in the output directory, as it was submitted. */
  predicate AreReleasedAsSubmitted(h: Host, d: Disk, s: seq<SourceArtifact>, dir: string) {
    forall i :: 0 <= i < |s| ==> IsFrozenAt(h, d, Join(dir, s[i].name), s[i])
  }

  predicate IsFileEntry(d: Disk, entry: string) {
    entry in d.files || (entry in d.links && d.links[entry] in d.files)
  }

  predicate IsDirectoryEntry(d: Disk, entry: string) {
    entry in d.directories || (entry in d.links && d.links[entry] in d.directories)
  }

  /** The directory holds the submitted names and nothing more, and no name leads elsewhere. */
  ghost predicate IsExactly(d: Disk, s: seq<SourceArtifact>, dir: string) {
    var place := Place(d.links, dir);
    && place in d.directories
    && (forall i :: 0 <= i < |s| ==> Place(d.links, Join(dir, s[i].name)) == Join(place, s[i].name))
    && (forall name :: IsFileEntry(d, Join(place, name)) <==> exists i :: 0 <= i < |s| && s[i].name == name)
    && (forall name :: !IsDirectoryEntry(d, Join(place, name)))
  }

  /** One copy against its source, by index. */
  lemma CopyIndexed(h: Host, s: seq<SourceArtifact>, m: ManifestR, i: nat)
    requires AreCopies(s, m.artifacts, m.outputDir) && AreDistinct(s, SourceName) && i < |s|
    ensures s[i].name in FinalIndex(m) && s[i].name in IndexBy(s, SourceName)
    ensures FinalIndex(m)[s[i].name] == m.artifacts[i] && IndexBy(s, SourceName)[s[i].name] == s[i]
    ensures IsCopyOf(s[i], m.artifacts[i], m.outputDir)
  {
    hide IndexBy, AreDistinct;
    CopiesIndexed(s, m.artifacts, m.outputDir);
    assert IsCopyOf(s[i], m.artifacts[i], m.outputDir) && FinalName(m.artifacts[i]) == s[i].name == SourceName(s[i]);
    IndexedAt(m.artifacts, FinalName, i);
    IndexedAt(s, SourceName, i);
  }

  /** For a manifest that lists the submission, the content rules are about the files alone. */
  lemma DriftExactly(h: Host, c: Case, m: ManifestR)
    requires AreCopies(c.manifestS.artifacts, m.artifacts, m.outputDir)
    requires AreDistinct(c.manifestS.artifacts, SourceName)
    ensures NoDrift(h, c, m) <==> AreReleasedAsSubmitted(h, c.disk, c.manifestS.artifacts, m.outputDir)
  {
    hide IndexBy, Place, AreDistinct, IsFrozenAt, HasHashes;
    var s, final := c.manifestS.artifacts, FinalIndex(m);
    CopiesIndexed(s, m.artifacts, m.outputDir);
    forall i | 0 <= i < |s|
      ensures s[i].name in final && s[i].name in SourceIndex(c)
      ensures IsContentKept(h, c.disk, SourceIndex(c), final, s[i].name)
         <==> IsFrozenAt(h, c.disk, Join(m.outputDir, s[i].name), s[i])
    {
      CopyIndexed(h, s, m, i);
      FrozenIsHashed(h, c.disk, Join(m.outputDir, s[i].name), s[i]);
    }
    forall name | name in final
      ensures exists i :: 0 <= i < |s| && s[i].name == name
      ensures name in SourceIndex(c) && IsCopyOf(SourceIndex(c)[name], final[name], m.outputDir)
    {
      var i := CopyOfName(s, m.artifacts, m.outputDir, name);
    }
  }

  lemma FrozenIsHashed(h: Host, d: Disk, path: string, a: SourceArtifact)
    ensures IsFrozenAt(h, d, path, a) <==> HasHashes(h, d, path, a.sha1, a.sha256)
  {
  }

  lemma SeenExactly(d: Disk, s: seq<SourceArtifact>, place: string, names: set<string>)
    requires s != [] && names == set i | 0 <= i < |s| :: s[i].name
    ensures FilesSeen(d, place) == names && DirectoriesSeen(d, place) == {} <==>
      && place in d.directories
      && (forall name :: IsFileEntry(d, Join(place, name)) <==> exists i :: 0 <= i < |s| && s[i].name == name)
      && (forall name :: !IsDirectoryEntry(d, Join(place, name)))
  {
    hide Below;
    if place in d.directories {
      var linked := set e | e in d.links && d.links[e] in d.files;
      var linkedDirectories := set e | e in d.links && d.links[e] in d.directories;
      forall name
        ensures name in FilesSeen(d, place) <==> IsFileEntry(d, Join(place, name))
        ensures name in DirectoriesSeen(d, place) <==> IsDirectoryEntry(d, Join(place, name))
        ensures name in names <==> exists i :: 0 <= i < |s| && s[i].name == name
      {
        BelowIsUnder(d.files.Keys, place, name);
        BelowIsUnder(linked, place, name);
        BelowIsUnder(d.directories, place, name);
        BelowIsUnder(linkedDirectories, place, name);
      }
      hide FilesSeen, DirectoriesSeen, IsFileEntry, IsDirectoryEntry;
      NoneMeansEmpty(DirectoriesSeen(d, place));
    } else {
      assert s[0].name in names;
    }
  }

  lemma NoneMeansEmpty(a: set<string>)
    ensures a == {} <==> forall x :: x !in a
  {
  }

  /** For a manifest that lists the submission, the hardened rules are about the directory alone. */
  lemma HardenedExactly(h: Host, c: Case, m: ManifestR)
    requires AreCopies(c.manifestS.artifacts, m.artifacts, m.outputDir) && c.manifestS.artifacts != []
    requires AreDistinct(c.manifestS.artifacts, SourceName) && ManifestsBound(h, c, m)
    requires c.event.finalOutputDir == Some(m.outputDir)
    ensures NoHardenedDrift(h, c, m) <==>
      AreReleasedAsSubmitted(h, c.disk, c.manifestS.artifacts, m.outputDir)
      && IsExactly(c.disk, c.manifestS.artifacts, m.outputDir)
  {
    hide IndexBy, Place, AreDistinct, NoDrift, ManifestsBound, FilesSeen, DirectoriesSeen, AreReleasedAsSubmitted;
    hide IsFileEntry, IsDirectoryEntry, AreCopies, ArePathsBound, FinalIndex, SourceIndex;
    var s, place := c.manifestS.artifacts, Place(c.disk.links, m.outputDir);
    DriftExactly(h, c, m);
    IndexShape(c, m);
    PathsExactly(h, c, m);
    SeenExactly(c.disk, s, place, FinalIndex(m).Keys);
  }

  lemma IndexShape(c: Case, m: ManifestR)
    requires AreCopies(c.manifestS.artifacts, m.artifacts, m.outputDir)
    requires AreDistinct(c.manifestS.artifacts, SourceName)
    ensures |SourceIndex(c)| == |c.manifestS.artifacts| && |FinalIndex(m)| == |m.artifacts|
    ensures FinalIndex(m).Keys == set i | 0 <= i < |c.manifestS.artifacts| :: c.manifestS.artifacts[i].name
  {
    hide IndexBy, AreDistinct;
    var s := c.manifestS.artifacts;
    CopiesIndexed(s, m.artifacts, m.outputDir);
    IndexDistinct(s, SourceName);
    IndexDistinct(m.artifacts, FinalName);
    IndexKeys(s, SourceName);
    assert FinalIndex(m).Keys == (set i | 0 <= i < |s| :: s[i].name) by {
      assert forall i :: 0 <= i < |s| ==> s[i].name == SourceName(s[i]);
    }
  }

  lemma PathsExactly(h: Host, c: Case, m: ManifestR)
    requires AreCopies(c.manifestS.artifacts, m.artifacts, m.outputDir)
    requires AreDistinct(c.manifestS.artifacts, SourceName)
    ensures ArePathsBound(c.disk, m) <==>
      var s := c.manifestS.artifacts;
      forall i :: 0 <= i < |s| ==>
        Place(c.disk.links, Join(m.outputDir, s[i].name)) == Join(Place(c.disk.links, m.outputDir), s[i].name)
  {
    hide IndexBy, Place, AreDistinct;
    var s, final := c.manifestS.artifacts, FinalIndex(m);
    forall i | 0 <= i < |s|
      ensures s[i].name in final && final[s[i].name].path == Join(m.outputDir, s[i].name)
    {
      CopyIndexed(h, s, m, i);
    }
    forall name | name in final
      ensures exists i :: 0 <= i < |s| && s[i].name == name
    {
      var i := CopyOfName(s, m.artifacts, m.outputDir, name);
    }
  }

  /** On any run without forged manifests, with the files changed at will, the verdict is:
      SUBMISSION_BLOCKED if and only if a submitted artifact is no longer in the output directory
      as it was submitted, or, for the hardened gate, the directory shows anything else or a name
      that leads elsewhere; otherwise RELEASE_READY if and only if both services clear every
      submitted name and a rollback is named; RELEASE_BLOCKED in all other cases. */
  lemma VerdictAnswer(h: Host, p: Policy, first: Case, run: seq<Command>, o: Oracle, hardened: bool)
    requires IsNewCase(h, first) && HasNoForgery(run)
    requires After(h, p, first, run).event.status in {ReleaseGating, ReleaseBlocked}
    ensures var c, s := After(h, p, first, run), first.manifestS.artifacts;
      && c.event.finalOutputDir.Some?
      && var dir := c.event.finalOutputDir.value;
      var kept := AreReleasedAsSubmitted(h, c.disk, s, dir) && (hardened ==> IsExactly(c.disk, s, dir));
      var cleared := forall i :: 0 <= i < |s| ==> o.signature(s[i].name) && o.cloud(s[i].name);
      Step(h, p, c, RunRelease(o, hardened)).event.status
        == if !kept then SubmissionBlocked
           else if cleared && h.strip(first.event.rollbackRef) != "" then ReleaseReady
           else ReleaseBlocked
  {
    hide After, IsHistory, IsMove, SourceDigest, FinalDigest, Place, IndexBy, NoDrift, NoHardenedDrift, IsExactly;
    hide AreReleasedAsSubmitted, AreDistinct;
    RunKeepsEvent(h, p, first, run);
    RunKeepsDocuments(h, p, first, run);
    RunKeepsOwnManifest(h, p, first, run);
    var c, s := After(h, p, first, run), first.manifestS.artifacts;
    var m := c.manifestR.value;
    FoldedIsDistinct(h, s);
    DriftExactly(h, c, m);
    HardenedExactly(h, c, m);
    ClearedExactly(h, s, m, o);
  }

  lemma ClearedExactly(h: Host, s: seq<SourceArtifact>, m: ManifestR, o: Oracle)
    requires AreCopies(s, m.artifacts, m.outputDir) && AreDistinct(s, SourceName)
    ensures ServicesAgree(FinalIndex(m), o) <==>
      forall i :: 0 <= i < |s| ==> o.signature(s[i].name) && o.cloud(s[i].name)
  {
    hide IndexBy, AreDistinct;
    forall i | 0 <= i < |s|
      ensures s[i].name in FinalIndex(m)
    {
      CopyIndexed(h, s, m, i);
    }
    forall name | name in FinalIndex(m)
      ensures exists i :: 0 <= i < |s| && s[i].name == name
    {
      var i := CopyOfName(s, m.artifacts, m.outputDir, name);
    }
    if forall i :: 0 <= i < |s| ==> o.signature(s[i].name) && o.cloud(s[i].name) {
      forall name | name in FinalIndex(m)
        ensures IsCleared(o, name)
      {
        var i :| 0 <= i < |s| && s[i].name == name;
      }
    } else {
      var i :| 0 <= i < |s| && !(o.signature(s[i].name) && o.cloud(s[i].name));
      assert s[i].name in FinalIndex(m) && !IsCleared(o, s[i].name);
    }
  }

  // ---------------------------------------------------------------- the whole way

  lemma AfterOne(h: Host, p: Policy, c: Case, run: seq<Command>, command: Command)
    ensures After(h, p, c, run + [command]) == Step(h, p, After(h, p, c, run), command)
  {
    assert (run + [command])[..|run|] == run;
  }

  /** The calls up to an approved submission. */
  function ApprovalRun(p: Policy, first: Case, o: Oracle, ref: string): seq<Command> {
    [RunSubmission(o)] + [Command.Record(Some(Pass))]
      + if first.event.riskLevel in p.autoApproved then [] else [Decide(Some(true), ref)]
  }

  /** Every artifact may go to test as it is. */
  predicate IsAllClean(h: Host, p: Policy, c: Case, o: Oracle) {
    var s := c.manifestS.artifacts;
    && (forall i :: 0 <= i < |s| ==> IsClean(h, p, c.disk, s[i], o))
    && (p.allowUnchanged || forall i :: 0 <= i < |s| ==> s[i].changeType != "unchanged")
  }

  lemma ApprovalReached(h: Host, p: Policy, first: Case, o: Oracle, ref: string)
    requires CollisionFree(h.digest) && IsNewCase(h, first) && first.event.status == SubmissionGating
    requires IsAllClean(h, p, first, o)
    requires h.strip(ref) != ""
    ensures var c := After(h, p, first, ApprovalRun(p, first, o, ref));
      c.event.status == ReleasePreparing && c.disk == first.disk && HasNoForgery(ApprovalRun(p, first, o, ref))
  {
    var run1 := [RunSubmission(o)];
    var run2 := run1 + [Command.Record(Some(Pass))];
    assert After(h, p, first, []) == first;
    assert [] + [RunSubmission(o)] == run1;
    SubmissionAnswer(h, p, first, [], o);
    hide After, SubmissionGate, RecordTest, IsClean;
    AfterOne(h, p, first, [], RunSubmission(o));
    AfterOne(h, p, first, run1, Command.Record(Some(Pass)));
    TestAnswer(h, p, After(h, p, first, run1), Some(Pass));
    RunKeepsEvent(h, p, first, run1);
    if first.event.riskLevel in p.autoApproved {
      assert run2 + [] == run2;
      DiskKept(h, p, After(h, p, first, run1), Command.Record(Some(Pass)));
    } else {
      AfterOne(h, p, first, run2, Decide(Some(true), ref));
      ApprovalAnswer(h, p, After(h, p, first, run2), Some(true), ref);
      DiskKept(h, p, After(h, p, first, run1), Command.Record(Some(Pass)));
      DiskKept(h, p, After(h, p, first, run2), Decide(Some(true), ref));
    }
  }

  lemma DiskKept(h: Host, p: Policy, c: Case, command: Command)
    requires command.Record? || command.Decide?
    ensures Step(h, p, c, command).disk == c.disk
  {
  }

  /** Nothing else stands in the way: a submission whose files are as frozen and clean, approved
      where its risk needs it, built into a directory that is not there yet and with a rollback
      named, is released by either gate. */
  lemma CleanRelease(h: Host, p: Policy, first: Case, o: Oracle, ref: string, dir: string, now: string, hardened: bool)
    requires CollisionFree(h.digest) && IsNewCase(h, first) && first.event.status == SubmissionGating
    requires IsAllClean(h, p, first, o)
    requires AreNamesSafe(h, first.manifestS.artifacts)
    requires h.strip(ref) != "" && h.strip(first.event.rollbackRef) != ""
    requires dir != "" && !Exists(first.disk, EntryAt(first.disk.links, dir))
    ensures var run := ApprovalRun(p, first, o, ref) + [MakeFinal(dir, now, NoFault)] + [RunRelease(o, hardened)];
      After(h, p, first, run).event.status == ReleaseReady
  {
    hide IsAllClean, After, Exists, EntryAt, AreNamesSafe, Build, RunGate, IsNewCase, IsBuiltFrom, CollisionFree;
    var run := ApprovalRun(p, first, o, ref);
    ApprovalReached(h, p, first, o, ref);
    BuiltIsReleased(h, p, first, run, o, dir, now, hardened);
    AfterOne(h, p, first, run, MakeFinal(dir, now, NoFault));
    AfterOne(h, p, first, run + [MakeFinal(dir, now, NoFault)], RunRelease(o, hardened));
  }

  lemma BuiltIsReleased(h: Host, p: Policy, first: Case, run: seq<Command>, o: Oracle, dir: string, now: string,
                        hardened: bool)
    requires IsNewCase(h, first) && HasNoForgery(run) && IsAllClean(h, p, first, o)
    requires AreNamesSafe(h, first.manifestS.artifacts) && h.strip(first.event.rollbackRef) != ""
    requires dir != "" && !Exists(first.disk, EntryAt(first.disk.links, dir))
    requires After(h, p, first, run).event.status == ReleasePreparing && After(h, p, first, run).disk == first.disk
    ensures var c := After(h, p, first, run);
      var verdict := RunGate(h, Build(h, c, dir, now, NoFault).1, o, hardened);
      verdict.Done? && verdict.value.event.status == ReleaseReady
  {
    var c, s := After(h, p, first, run), first.manifestS.artifacts;
    CleanIsFrozen(h, p, first, o);
    hide IsAllClean, After, Exists, EntryAt, IsPortableName, IsFrozenAt, RunGate, IsHistory, ServicesAgree, FirstBuild;
    BuildAnswer(h, p, first, run, dir, now);
    BuildMeaning(h, c, dir, now);
    hide Build;
    ProducerSatisfiesChecker(h, p, first, run, dir, now, o, hardened);
    FoldedIsDistinct(h, s);
    ClearedExactly(h, s, BuiltManifest(h, c, dir, now), o);
  }

  lemma CleanIsFrozen(h: Host, p: Policy, c: Case, o: Oracle)
    requires IsAllClean(h, p, c, o)
    ensures AreAllFrozen(h, c.disk, c.manifestS.artifacts)
    ensures var s := c.manifestS.artifacts; forall i :: 0 <= i < |s| ==> o.signature(s[i].name) && o.cloud(s[i].name)
  {
    hide IsFrozenAt;
    var s := c.manifestS.artifacts;
    forall i | 0 <= i < |s|
      ensures IsFrozenAt(h, c.disk, s[i].path, s[i]) && o.signature(s[i].name) && o.cloud(s[i].name)
    {
      assert IsClean(h, p, c.disk, s[i], o);
    }
  }
}
