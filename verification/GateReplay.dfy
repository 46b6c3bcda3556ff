/** Building again: every build of one submission into one directory is the same build,
    and it is the one the deployment side accepts. */
module GateReplay {
  import opened Json
  import opened GateDisk
  import opened ReleaseGate
  import opened GateRuns
  import opened GateEvidence
  import opened GateProducer

  ghost predicate IsContentHash(h: Host) {
    forall x, y :: h.sha256(x) == h.sha256(y) ==> x == y
  }

  // ---------------------------------------------------------------- replay of a finished build

  lemma FoldedNamesAgree(h: Host, s: seq<SourceArtifact>, t: seq<FinalArtifact>, dir: string, names: set<string>)
    requires AreCopies(s, t, dir) && names == (set i | 0 <= i < |s| :: s[i].name)
    ensures (set name | name in names :: h.casefold(name)) == (set i | 0 <= i < |t| :: h.casefold(t[i].name))
  {
    assert forall i :: 0 <= i < |s| ==> IsCopyOf(s[i], t[i], dir);
    forall i | 0 <= i < |t|
      ensures h.casefold(t[i].name) in (set name | name in names :: h.casefold(name))
    {
      assert IsCopyOf(s[i], t[i], dir) && s[i].name in names;
    }
  }

  /** One built file is intact. */
  lemma BuiltFileIntact(h: Host, c: Case, dir: string, now: string, i: nat)
    requires IsBuiltFrom(h, c, dir, now) && AreDistinct(c.manifestS.artifacts, SourceName)
    requires i < |c.manifestS.artifacts|
    ensures var a, d := BuiltManifest(h, c, dir, now).artifacts[i], Built(h, c, dir, now).disk;
      IsCopyOf(c.manifestS.artifacts[i], a, dir) && IsFileIntact(h, d, a, dir)
  {
    hide IsPortableName, Published, Exists, SourceDigest, FinalDigest, Place, EntryAt, IsFile;
    BuildMeaning(h, c, dir, now);
    CopyReads(h, c, dir, now, i);
  }

  /** Asking again right after a build succeeds, returns the very manifest that was
      built, and changes nothing. */
  lemma RebuildIsSame(h: Host, c: Case, dir: string, now: string, later: string, fault: Fault)
    requires IsBuiltFrom(h, c, dir, now) && AreDistinct(c.manifestS.artifacts, SourceName)
    ensures Build(h, Built(h, c, dir, now), dir, later, fault)
         == (Done(BuiltManifest(h, c, dir, now)), Built(h, c, dir, now))
  {
    hide IsPortableName, Published, Exists, SourceDigest, FinalDigest, FinalsOf, Below, Place, EntryAt, IsFile, IndexBy;
    hide FilesSeen, DirectoriesSeen, IsFileIntact;
    BuildMeaning(h, c, dir, now);
    var s := c.manifestS.artifacts;
    var m, b := BuiltManifest(h, c, dir, now), Built(h, c, dir, now);
    hide FirstBuild;
    BuildFillsDirectory(h, c, dir, now);
    BuildKeepsContent(h, c, dir, now);
    NamesAreKeys(h, b, m);
    FinalsAreCopies(c.disk, s, dir);
    FoldedNamesAgree(h, s, m.artifacts, dir, FinalIndex(m).Keys);
    forall i | 0 <= i < |m.artifacts|
      ensures IsFileIntact(h, b.disk, m.artifacts[i], dir)
    {
      BuiltFileIntact(h, c, dir, now, i);
    }
    assert IsFinalIntact(h, b, m, dir);
  }

  /** A build that raised leaves the event and the disk as they were, so calling again
      does what the first call would have done. */
  lemma FailedBuildRetries(h: Host, c: Case, dir: string, now: string, fault: Fault, later: string)
    requires c.event.status == ReleasePreparing && Build(h, c, dir, now, fault).0.Refused?
    ensures var after := Build(h, c, dir, now, fault).1;
      && after.event == c.event && after.disk == c.disk && after.manifestS == c.manifestS
      && Build(h, after, dir, later, NoFault).0 == Build(h, c, dir, later, NoFault).0
      && (Build(h, c, dir, later, NoFault).0.Done? ==>
            Build(h, after, dir, later, NoFault) == Build(h, c, dir, later, NoFault))
  {
    hide Published, Exists, SourceDigest, FinalDigest;
  }

  // ---------------------------------------------------------------- all builds agree

  ghost predicate SizeFits(h: Host, sha256: string, size: int) {
    exists content: Bytes :: h.sha256(content) == sha256 && |content| == size
  }

  /** The manifest lists the copies of this submission, with the sizes their content has. */
  ghost predicate IsManifestFor(h: Host, s: seq<SourceArtifact>, digest: string, m: ManifestR) {
    && AreCopies(s, m.artifacts, m.outputDir)
    && (forall i :: 0 <= i < |m.artifacts| ==> SizeFits(h, m.artifacts[i].sha256, m.artifacts[i].size))
    && m.sourceDigest == digest
    && m.digest == FinalDigest(h, m.sourceDigest, m.artifacts)
  }

  ghost predicate StoresOwnManifest(h: Host, c: Case) {
    c.manifestR.Some? ==> IsManifestFor(h, c.manifestS.artifacts, c.manifestS.digest, c.manifestR.value)
  }

  lemma BuiltIsManifestFor(h: Host, c: Case, dir: string, now: string)
    requires IsSubmissionFrozen(h, c) && AreSourcesIntact(h, c)
    ensures IsManifestFor(h, c.manifestS.artifacts, c.manifestS.digest, BuiltManifest(h, c, dir, now))
  {
    hide SourceDigest, FinalDigest;
    var s, m := c.manifestS.artifacts, BuiltManifest(h, c, dir, now);
    FinalsAreCopies(c.disk, s, dir);
    forall i | 0 <= i < |m.artifacts|
      ensures SizeFits(h, m.artifacts[i].sha256, m.artifacts[i].size)
    {
      assert HasHashes(h, c.disk, s[i].path, s[i].sha1, s[i].sha256);
      assert h.sha256(ContentAt(c.disk, s[i].path)) == m.artifacts[i].sha256;
    }
  }

  lemma StepKeepsOwnManifest(h: Host, p: Policy, c: Case, command: Command)
    requires !IsForgery(command) && IsSubmissionFrozen(h, c) && StoresOwnManifest(h, c)
    ensures StoresOwnManifest(h, Step(h, p, c, command))
    ensures command.MakeFinal? && Build(h, c, command.dir, command.now, command.fault).0.Done? ==>
      var m := Build(h, c, command.dir, command.now, command.fault).0.value;
      IsManifestFor(h, c.manifestS.artifacts, c.manifestS.digest, m) && m.outputDir == command.dir
  {
    hide PassesSubmission, GateVerdict, Published, Exists, IsManifestFor, EntryAt, AreSourcesIntact, AreNamesSafe;
    hide SourceDigest, FinalDigest, FinalsOf, ServicesAgree, IsFileIntact, IsRealDirectory, HoldsPlainFiles, Below;
    if command.MakeFinal? && IsSubmissionFrozen(h, c) && AreSourcesIntact(h, c) {
      BuiltIsManifestFor(h, c, command.dir, command.now);
    }
  }

  lemma {:induction false} RunKeepsOwnManifest(h: Host, p: Policy, first: Case, commands: seq<Command>)
    requires IsNewCase(h, first) && HasNoForgery(commands)
    ensures StoresOwnManifest(h, After(h, p, first, commands))
    decreases |commands|
  {
    if commands != [] {
      var n := |commands| - 1;
      assert HasNoForgery(commands[..n]) && !IsForgery(commands[n]);
      RunKeepsOwnManifest(h, p, first, commands[..n]);
      RunKeepsDocuments(h, p, first, commands[..n]);
      StepKeepsOwnManifest(h, p, After(h, p, first, commands[..n]), commands[n]);
    }
  }

  /** Two manifests of the same submission in the same place are the same but for the
      event and the time. */
  lemma ManifestsAgree(h: Host, s: seq<SourceArtifact>, digest: string, m: ManifestR, n: ManifestR)
    requires IsContentHash(h) && IsManifestFor(h, s, digest, m) && IsManifestFor(h, s, digest, n)
      && m.outputDir == n.outputDir
    ensures m.artifacts == n.artifacts && m.digest == n.digest
  {
    hide FinalDigest;
    forall i | 0 <= i < |m.artifacts|
      ensures m.artifacts[i] == n.artifacts[i]
    {
      var a, b := m.artifacts[i], n.artifacts[i];
      assert IsCopyOf(s[i], a, m.outputDir) && IsCopyOf(s[i], b, n.outputDir);
      assert SizeFits(h, a.sha256, a.size) && SizeFits(h, b.sha256, b.size);
      var x: Bytes :| h.sha256(x) == a.sha256 && |x| == a.size;
      var y: Bytes :| h.sha256(y) == b.sha256 && |y| == b.size;
      assert x == y;
    }
  }

  /** One submission, one directory, one digest. Take any two runs without forged
      manifests of events made from submissions with the same digest, however often they
      were blocked, failed, re-approved or replayed, on whatever disks: every successful
      build into the directory returns the same artifacts under the same digest. */
  lemma AllBuildsAgree(h: Host, p: Policy, first: Case, run: seq<Command>, now: string, fault: Fault,
                       second: Case, otherRun: seq<Command>, later: string, otherFault: Fault, dir: string)
    requires CollisionFree(h.digest) && IsContentHash(h)
    requires IsNewCase(h, first) && IsNewCase(h, second) && HasNoForgery(run) && HasNoForgery(otherRun)
    requires first.event.manifestSDigest == second.event.manifestSDigest
    requires Build(h, After(h, p, first, run), dir, now, fault).0.Done?
    requires Build(h, After(h, p, second, otherRun), dir, later, otherFault).0.Done?
    ensures var m := Build(h, After(h, p, first, run), dir, now, fault).0.value;
      var n := Build(h, After(h, p, second, otherRun), dir, later, otherFault).0.value;
      m.artifacts == n.artifacts && m.digest == n.digest
  {
    hide Build, IsManifestFor, After, AreFoldedDistinct, IsHistory, SourceDigest;
    RunKeepsOwnManifest(h, p, first, run);
    RunKeepsOwnManifest(h, p, second, otherRun);
    RunKeepsDocuments(h, p, first, run);
    RunKeepsDocuments(h, p, second, otherRun);
    StepKeepsOwnManifest(h, p, After(h, p, first, run), MakeFinal(dir, now, fault));
    StepKeepsOwnManifest(h, p, After(h, p, second, otherRun), MakeFinal(dir, later, otherFault));
    SourceDigestInjective(h, first.manifestS.artifacts, second.manifestS.artifacts);
    ManifestsAgree(h, first.manifestS.artifacts, first.manifestS.digest,
      Build(h, After(h, p, first, run), dir, now, fault).0.value,
      Build(h, After(h, p, second, otherRun), dir, later, otherFault).0.value);
  }
}
