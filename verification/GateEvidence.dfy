/** What a verdict of the release gate proves, and why what the build produces satisfies
    the gate that judges it. */
module GateEvidence {
  import opened Json
  import opened GateDisk
  import opened ReleaseGate
  import opened GateRuns

  predicate AreDistinct<T>(s: seq<T>, name: T -> string) {
    forall i, j :: 0 <= i < j < |s| ==> name(s[i]) != name(s[j])
  }

  lemma {:induction false} IndexKeys<T>(s: seq<T>, name: T -> string)
    ensures IndexBy(s, name).Keys == (set i | 0 <= i < |s| :: name(s[i]))
    ensures forall k :: k in IndexBy(s, name) ==> IndexBy(s, name)[k] in s && name(IndexBy(s, name)[k]) == k
    decreases |s|
  {
    if s != [] {
      var init := s[..|s| - 1];
      IndexKeys(init, name);
      assert (set i | 0 <= i < |s| :: name(s[i]))
          == (set i | 0 <= i < |init| :: name(init[i])) + {name(s[|s| - 1])} by {
        assert forall i :: 0 <= i < |init| ==> init[i] == s[i];
      }
    }
  }

  lemma {:induction false} IndexDistinct<T>(s: seq<T>, name: T -> string)
    requires AreDistinct(s, name)
    ensures |IndexBy(s, name)| == |s|
    ensures forall i :: 0 <= i < |s| ==> name(s[i]) in IndexBy(s, name) && IndexBy(s, name)[name(s[i])] == s[i]
    decreases |s|
  {
    if s != [] {
      var init, last := s[..|s| - 1], s[|s| - 1];
      IndexDistinct(init, name);
      IndexKeys(init, name);
      assert name(last) !in IndexBy(init, name);
      forall i | 0 <= i < |s| - 1
        ensures name(s[i]) in IndexBy(s, name) && IndexBy(s, name)[name(s[i])] == s[i]
      {
        assert init[i] == s[i];
      }
    }
  }

  // ---------------------------------------------------------------- new submissions

  /** Frozen, with names that differ even after case folding, and nothing built yet. */
  predicate IsNewCase(h: Host, c: Case) {
    && IsNewEvent(c.event)
    && IsEventId(c.event.eventId)
    && c.manifestR.None?
    && c.manifestS.artifacts != []
    && IsSubmissionFrozen(h, c)
    && AreFoldedDistinct(h, c.manifestS.artifacts)
  }

  predicate AreFoldedDistinct(h: Host, s: seq<SourceArtifact>) {
    forall i, j :: 0 <= i < j < |s| ==> h.casefold(s[i].name) != h.casefold(s[j].name)
  }

  lemma SourceDigestInjective(h: Host, s: seq<SourceArtifact>, t: seq<SourceArtifact>)
    requires CollisionFree(h.digest) && SourceDigest(h, s) == SourceDigest(h, t)
    ensures s == t
  {
    var x := seq(|s|, i requires 0 <= i < |s| => SourceJson(s[i]));
    var y := seq(|t|, i requires 0 <= i < |t| => SourceJson(t[i]));
    var f := Obj(map[Artifacts := Arr(x)]);
    var g := Obj(map[Artifacts := Arr(y)]);
    assert f == g;
    assert f.fields[Artifacts] == g.fields[Artifacts];
    assert x == y;
    forall i | 0 <= i < |s|
      ensures s[i] == t[i]
    {
      assert x[i] == y[i];
      SourceJsonInjective(s[i], t[i]);
    }
  }

  lemma SourceJsonInjective(a: SourceArtifact, b: SourceArtifact)
    requires SourceJson(a) == SourceJson(b)
    ensures a == b
  {
    var f, g := SourceJson(a).fields, SourceJson(b).fields;
    assert f[LogicalName] == g[LogicalName] && f[FilePath] == g[FilePath] && f[Size] == g[Size];
    assert f[Sha1] == g[Sha1] && f[Sha256] == g[Sha256] && f[SourceRef] == g[SourceRef];
    assert f[Other("extension")] == g[Other("extension")] && f[Other("change_type")] == g[Other("change_type")];
  }

  // ---------------------------------------------------------------- a verdict and its evidence

  /** The file for one submitted artifact: listed, of exactly the submitted content, and
      accepted by the signature and cloud services. */
  predicate IsReleased(h: Host, c: Case, m: ManifestR, o: Oracle, a: SourceArtifact) {
    && a.name in FinalIndex(m)
    && HasHashes(h, c.disk, FinalIndex(m)[a.name].path, a.sha1, a.sha256)
    && o.signature(a.name) && o.cloud(a.name)
  }

  /** Nothing but the submitted artifacts, each a plain file at its place in the output directory. */
  predicate IsDirectoryExact(h: Host, c: Case, m: ManifestR, s: seq<SourceArtifact>) {
    var dir := Place(c.disk.links, m.outputDir);
    && Below(c.disk.files.Keys, dir) == (set i | 0 <= i < |s| :: s[i].name)
    && Below(c.disk.directories, dir) == {}
    && forall i :: 0 <= i < |s| ==>
         s[i].name in FinalIndex(m) && Place(c.disk.links, FinalIndex(m)[s[i].name].path) == Join(dir, s[i].name)
  }

  lemma NamesAreKeys(h: Host, c: Case, m: ManifestR)
    requires NoDrift(h, c, m)
    ensures FinalIndex(m).Keys == (set i | 0 <= i < |c.manifestS.artifacts| :: c.manifestS.artifacts[i].name)
  {
    hide IndexBy, HasHashes;
    var s := c.manifestS.artifacts;
    IndexKeys(s, SourceName);
    assert (set i | 0 <= i < |s| :: s[i].name) == (set i | 0 <= i < |s| :: SourceName(s[i]));
  }

  /** The content rules, read artifact by artifact. */
  lemma DriftRulesMeaning(h: Host, c: Case, m: ManifestR, o: Oracle)
    requires AreDistinct(c.manifestS.artifacts, SourceName)
    requires NoDrift(h, c, m) && ServicesAgree(FinalIndex(m), o)
    ensures var s := c.manifestS.artifacts;
      && (forall i :: 0 <= i < |s| ==> IsReleased(h, c, m, o, s[i]))
      && FinalIndex(m).Keys == (set i | 0 <= i < |s| :: s[i].name)
  {
    hide IndexBy;
    var s := c.manifestS.artifacts;
    NamesAreKeys(h, c, m);
    IndexDistinct(s, SourceName);
    forall i | 0 <= i < |s|
      ensures IsReleased(h, c, m, o, s[i])
    {
      var name := SourceName(s[i]);
      assert name in SourceIndex(c) && SourceIndex(c)[name] == s[i];
      assert name in FinalIndex(m);
    }
  }

  /** What RELEASE_READY means. After any run, with material and stored manifests changed
      at will in between, the verdict is only reached when the stored submission is the
      one the event was made with, every submitted artifact is there with the submitted
      hashes and nothing else is listed, the services agree, the test passed, the approval
      is the one the risk level needs, and a rollback is named. The hardened gate adds
      that the directory holds nothing else. */
  lemma ReadyIsEarned(h: Host, p: Policy, first: Case, commands: seq<Command>, o: Oracle, hardened: bool)
    requires CollisionFree(h.digest) && IsNewCase(h, first)
    requires After(h, p, first, commands).event.status != ReleaseReady
    requires Step(h, p, After(h, p, first, commands), RunRelease(o, hardened)).event.status == ReleaseReady
    ensures var c, s := After(h, p, first, commands), first.manifestS.artifacts;
      && c.manifestS.artifacts == s
      && c.manifestR.Some?
      && (forall i :: 0 <= i < |s| ==> IsReleased(h, c, c.manifestR.value, o, s[i]))
      && FinalIndex(c.manifestR.value).Keys == (set i | 0 <= i < |s| :: s[i].name)
      && (hardened ==> IsDirectoryExact(h, c, c.manifestR.value, s))
      && IsApproved(p, c.event) && h.strip(first.event.rollbackRef) != ""
  {
    hide After, IsHistory, IsMove, IndexBy, IsReleased, CollisionFree;
    var c, s := After(h, p, first, commands), first.manifestS.artifacts;
    RunKeepsEvent(h, p, first, commands);
    var m := c.manifestR.value;
    ReadyVerdict(h, c, m, o, hardened);
    SourceDigestInjective(h, c.manifestS.artifacts, s);
    DriftRulesMeaning(h, c, m, o);
    if hardened {
      HardenedMeaning(h, c, m);
    }
  }

  lemma ReadyVerdict(h: Host, c: Case, m: ManifestR, o: Oracle, hardened: bool)
    requires GateVerdict(h, c, m, o, hardened) == ReleaseReady
    ensures ManifestsBound(h, c, m) && NoDrift(h, c, m) && ServicesAgree(FinalIndex(m), o)
    ensures TestAndApprovalBound(c.event) && IsRollbackReady(h, c.event)
    ensures hardened ==> NoHardenedDrift(h, c, m)
  {
    hide NoDrift, IndexBy;
  }

  /** A listed name is a plain file of the output directory. */
  lemma ListedIsPlain(h: Host, c: Case, m: ManifestR, name: string)
    requires NoDrift(h, c, m) && ArePathsBound(c.disk, m) && name in FinalIndex(m)
    ensures var dir := Place(c.disk.links, m.outputDir);
      && Place(c.disk.links, FinalIndex(m)[name].path) == Join(dir, name)
      && name in Below(c.disk.files.Keys, dir)
  {
    hide IndexBy, Below, Place, SourcesMapped;
    assert IsContentKept(h, c.disk, SourceIndex(c), FinalIndex(m), name);
    BelowIsUnder(c.disk.files.Keys, Place(c.disk.links, m.outputDir), name);
  }

  lemma HardenedMeaning(h: Host, c: Case, m: ManifestR)
    requires NoHardenedDrift(h, c, m) && c.manifestS.artifacts != []
    ensures IsDirectoryExact(h, c, m, c.manifestS.artifacts)
  {
    hide IndexBy, Below, Place, IsOutputBound, ManifestsBound, NoDrift, ArePathsBound;
    var s, dir := c.manifestS.artifacts, Place(c.disk.links, m.outputDir);
    NamesAreKeys(h, c, m);
    forall i | 0 <= i < |s|
      ensures s[i].name in FinalIndex(m) && Place(c.disk.links, FinalIndex(m)[s[i].name].path) == Join(dir, s[i].name)
      ensures s[i].name in Below(c.disk.files.Keys, dir)
    {
      assert s[i].name in FinalIndex(m).Keys;
      ListedIsPlain(h, c, m, s[i].name);
    }
    assert s[0].name in FilesSeen(c.disk, dir);
  }

  // ---------------------------------------------------------------- untouched documents

  predicate IsForgery(command: Command) {
    command.Forge?
  }

  predicate HasNoForgery(commands: seq<Command>) {
    forall i :: 0 <= i < |commands| ==> !IsForgery(commands[i])
  }

  /** The stored manifests are the ones the event vouches for. */
  predicate AreManifestsVouched(h: Host, c: Case) {
    IsBuilt(c.event.status) ==>
      && c.manifestR.Some?
      && ManifestsBound(h, c, c.manifestR.value)
      && c.event.finalOutputDir == Some(c.manifestR.value.outputDir)
  }

  lemma StepKeepsDocuments(h: Host, p: Policy, c: Case, command: Command)
    requires !IsForgery(command) && IsSubmissionFrozen(h, c) && AreManifestsVouched(h, c)
    ensures Step(h, p, c, command).manifestS == c.manifestS
    ensures AreManifestsVouched(h, Step(h, p, c, command))
  {
    hide PassesSubmission, NoDrift, NoHardenedDrift, ServicesAgree, IsFinalIntact, Published, FinalsOf, Exists;
    hide SourceDigest, FinalDigest, EntryAt, AreSourcesIntact, AreNamesSafe, GateVerdict;
  }

  /** While nobody replaces the stored manifests, the submission stays frozen and rule
      R-01 holds in every built state. */
  lemma {:induction false} RunKeepsDocuments(h: Host, p: Policy, first: Case, commands: seq<Command>)
    requires IsNewCase(h, first) && HasNoForgery(commands)
    ensures After(h, p, first, commands).manifestS == first.manifestS
    ensures IsSubmissionFrozen(h, After(h, p, first, commands))
    ensures AreManifestsVouched(h, After(h, p, first, commands))
    decreases |commands|
  {
    hide IsMove, IsHistory;
    if commands != [] {
      var n := |commands| - 1;
      assert HasNoForgery(commands[..n]) && !IsForgery(commands[n]);
      RunKeepsDocuments(h, p, first, commands[..n]);
      RunKeepsEvent(h, p, first, commands[..n]);
      RunKeepsEvent(h, p, first, commands);
      StepKeepsDocuments(h, p, After(h, p, first, commands[..n]), commands[n]);
    }
  }
}
