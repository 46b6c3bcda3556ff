/** The final build against the gate that judges it. */
module GateProducer {
  import opened Json
  import opened GateDisk
  import opened ReleaseGate
  import opened GateRuns
  import opened GateEvidence

  // ---------------------------------------------------------------- what the build leaves on disk

  predicate IsCopied(d: Disk, after: Disk, a: SourceArtifact, entry: string)
    requires IsFile(d, a.path)
  {
    Join(entry, a.name) in after.files && after.files[Join(entry, a.name)] == ContentAt(d, a.path)
  }

  /** The copies have the content the sources had before. */
  lemma {:induction false} PublishedFiles(d: Disk, s: seq<SourceArtifact>, entry: string)
    requires AreFiles(d, s) && AreDistinct(s, SourceName)
    ensures var after := Published(d, s, entry);
      && after.directories == d.directories + {entry} && after.links == d.links
      && forall i :: 0 <= i < |s| ==> IsCopied(d, after, s[i], entry)
    decreases |s|
  {
    hide IsFile, ContentAt;
    if s != [] {
      var init, last := s[..|s| - 1], s[|s| - 1];
      PublishedFiles(d, init, entry);
      var before := Published(d, init, entry);
      forall i | 0 <= i < |init|
        ensures IsCopied(d, Published(d, s, entry), s[i], entry)
      {
        assert init[i] == s[i] && IsCopied(d, before, init[i], entry);
        assert SourceName(s[i]) != SourceName(last);
        if Join(entry, s[i].name) == Join(entry, last.name) {
          JoinInjective(entry, s[i].name, last.name);
        }
      }
    }
  }

  /** The files are the old ones and one per artifact. */
  lemma {:induction false} PublishedKeys(d: Disk, s: seq<SourceArtifact>, entry: string)
    requires AreFiles(d, s)
    ensures Published(d, s, entry).files.Keys == d.files.Keys + (set i | 0 <= i < |s| :: Join(entry, s[i].name))
    ensures Published(d, s, entry).directories == d.directories + {entry} && Published(d, s, entry).links == d.links
    decreases |s|
  {
    hide IsFile, ContentAt;
    if s != [] {
      var init := s[..|s| - 1];
      PublishedKeys(d, init, entry);
      assert (set i | 0 <= i < |s| :: Join(entry, s[i].name))
          == (set i | 0 <= i < |init| :: Join(entry, init[i].name)) + {Join(entry, s[|s| - 1].name)} by {
        assert forall i :: 0 <= i < |init| ==> init[i] == s[i];
      }
    }
  }

  /** The new directory holds the artifacts by name, and nothing else. */
  lemma PublishedListing(d: Disk, s: seq<SourceArtifact>, entry: string)
    requires AreFiles(d, s) && Below(d.files.Keys, entry) == {}
    ensures Below(Published(d, s, entry).files.Keys, entry) == (set i | 0 <= i < |s| :: s[i].name)
  {
    hide IsFile, ContentAt, Below;
    var files := Published(d, s, entry).files;
    PublishedKeys(d, s, entry);
    forall name
      ensures name in Below(files.Keys, entry) <==> exists i :: 0 <= i < |s| && s[i].name == name
    {
      BelowIsUnder(files.Keys, entry, name);
      BelowIsUnder(d.files.Keys, entry, name);
      if name in Below(files.Keys, entry) {
        var i :| 0 <= i < |s| && Join(entry, name) == Join(entry, s[i].name);
        JoinInjective(entry, name, s[i].name);
      }
    }
  }

  /** The directory was not there before: nothing is below it, and nothing else is seen there. */
  lemma NothingBelow(d: Disk, entry: string)
    requires !Exists(d, entry)
    ensures entry !in d.links && Below(d.files.Keys, entry) == {}
    ensures Below(d.directories + {entry}, entry) == {} && Below(d.links.Keys, entry) == {}
  {
    assert !IsUnder(entry, entry);
    assert Below(d.directories + {entry}, entry) == Below(d.directories, entry);
  }

  lemma FewerBelow(a: set<string>, b: set<string>, dir: string)
    requires a <= b && Below(b, dir) == {}
    ensures Below(a, dir) == {}
  {
    forall place | place in a && IsUnder(dir, place)
      ensures false
    {
      UnderIsBelow(b, dir, place);
    }
  }

  /** What is seen of a fresh directory is what was put there. */
  lemma SeesPublished(d: Disk, s: seq<SourceArtifact>, entry: string)
    requires AreFiles(d, s) && !Exists(d, entry)
    ensures FilesSeen(Published(d, s, entry), entry) == (set i | 0 <= i < |s| :: s[i].name)
    ensures DirectoriesSeen(Published(d, s, entry), entry) == {}
    ensures IsRealDirectory(Published(d, s, entry), entry) && HoldsPlainFiles(Published(d, s, entry), entry)
  {
    hide IsFile, ContentAt, Below;
    NothingBelow(d, entry);
    PublishedKeys(d, s, entry);
    PublishedListing(d, s, entry);
    var after := Published(d, s, entry);
    hide Exists;
    FewerBelow((set e | e in after.links && after.links[e] in after.files), after.links.Keys, entry);
    FewerBelow((set e | e in after.links && after.links[e] in after.directories), after.links.Keys, entry);
  }

  /** The listed path of a copy leads to the copy, whatever links lead to the directory. */
  lemma CopyIsSeen(h: Host, links: map<string, string>, dir: string, name: string)
    requires IsPortableName(h, name)
    requires EntryAt(links, dir) !in links && Below(links.Keys, EntryAt(links, dir)) == {}
    ensures Place(links, dir) == EntryAt(links, dir)
    ensures Place(links, Join(dir, name)) == Join(EntryAt(links, dir), name)
  {
    hide IsPortableName;
    PortableHasNoSlash(h, name);
    PlaceOfEntry(links, dir);
    EntryOfJoin(links, dir, name);
    PlaceOfEntry(links, Join(dir, name));
    BelowIsUnder(links.Keys, EntryAt(links, dir), name);
  }

  // ---------------------------------------------------------------- the build satisfies the gate

  /** A first build that succeeded. */
  predicate IsBuiltFrom(h: Host, c: Case, dir: string, now: string) {
    c.event.status == ReleasePreparing && Build(h, c, dir, now, NoFault).0.Done?
  }

  function Built(h: Host, c: Case, dir: string, now: string): Case {
    Build(h, c, dir, now, NoFault).1
  }

  lemma BuildMeaning(h: Host, c: Case, dir: string, now: string)
    requires IsBuiltFrom(h, c, dir, now)
    ensures dir != "" && IsSubmissionFrozen(h, c) && AreSourcesIntact(h, c)
    ensures !Exists(c.disk, EntryAt(c.disk.links, dir))
    ensures AreNamesSafe(h, c.manifestS.artifacts) && AreFiles(c.disk, c.manifestS.artifacts)
    ensures var b := Built(h, c, dir, now);
      && b.manifestS == c.manifestS
      && b.manifestR == Some(BuiltManifest(h, c, dir, now))
      && b.disk == Published(c.disk, c.manifestS.artifacts, EntryAt(c.disk.links, dir))
      && b.event == Transition(c.event.(manifestRDigest := Some(BuiltManifest(h, c, dir, now).digest),
                                         finalOutputDir := Some(dir)), ReleaseGating)
  {
  }

  predicate IsCopyOf(a: SourceArtifact, f: FinalArtifact, dir: string) {
    && f.name == a.name && f.path == Join(dir, a.name)
    && f.sha1 == a.sha1 && f.sha256 == a.sha256
    && f.sourceSha1 == a.sha1 && f.sourceSha256 == a.sha256 && f.sourceRef == a.sourceRef
  }

  predicate AreCopies(s: seq<SourceArtifact>, t: seq<FinalArtifact>, dir: string) {
    |t| == |s| && forall i :: 0 <= i < |s| ==> IsCopyOf(s[i], t[i], dir)
  }

  /** Copies are indexed under the same names as their sources. */
  lemma CopiesIndexed(s: seq<SourceArtifact>, t: seq<FinalArtifact>, dir: string)
    requires AreCopies(s, t, dir) && AreDistinct(s, SourceName)
    ensures AreDistinct(t, FinalName)
    ensures IndexBy(t, FinalName).Keys == IndexBy(s, SourceName).Keys
  {
    hide IndexBy;
    forall i, j | 0 <= i < j < |t|
      ensures FinalName(t[i]) != FinalName(t[j])
    {
      assert IsCopyOf(s[i], t[i], dir) && IsCopyOf(s[j], t[j], dir);
      assert SourceName(s[i]) != SourceName(s[j]);
    }
    IndexKeys(s, SourceName);
    IndexKeys(t, FinalName);
    assert forall i :: 0 <= i < |s| ==> IsCopyOf(s[i], t[i], dir) && FinalName(t[i]) == SourceName(s[i]);
    assert (set i | 0 <= i < |t| :: FinalName(t[i])) == (set i | 0 <= i < |s| :: SourceName(s[i]));
  }

  lemma IndexedAt<T>(s: seq<T>, name: T -> string, i: nat)
    requires i < |s| && AreDistinct(s, name)
    ensures name(s[i]) in IndexBy(s, name) && IndexBy(s, name)[name(s[i])] == s[i]
  {
    IndexDistinct(s, name);
  }

  lemma KeyPosition<T>(s: seq<T>, name: T -> string, key: string) returns (i: nat)
    requires key in IndexBy(s, name)
    ensures i < |s| && name(s[i]) == key
  {
    IndexKeys(s, name);
    var k :| 0 <= k < |s| && name(s[k]) == key;
    i := k;
  }

  /** Each listed copy stands next to its source. */
  lemma CopyOfName(s: seq<SourceArtifact>, t: seq<FinalArtifact>, dir: string, name: string) returns (i: nat)
    requires AreCopies(s, t, dir) && AreDistinct(s, SourceName) && name in IndexBy(t, FinalName)
    ensures i < |s| && s[i].name == name && IsCopyOf(s[i], t[i], dir)
    ensures IndexBy(t, FinalName)[name] == t[i]
    ensures name in IndexBy(s, SourceName) && IndexBy(s, SourceName)[name] == s[i]
  {
    hide IndexBy, AreDistinct;
    CopiesIndexed(s, t, dir);
    i := KeyPosition(t, FinalName, name);
    assert IsCopyOf(s[i], t[i], dir) && SourceName(s[i]) == name && FinalName(t[i]) == name;
    IndexedAt(s, SourceName, i);
    IndexedAt(t, FinalName, i);
  }

  lemma FinalsAreCopies(d: Disk, s: seq<SourceArtifact>, dir: string)
    requires AreFiles(d, s)
    ensures AreCopies(s, FinalsOf(d, s, dir), dir)
  {
  }

  /** One copy, read through its listed path after the build. */
  lemma CopyReads(h: Host, c: Case, dir: string, now: string, i: nat)
    requires IsBuiltFrom(h, c, dir, now) && AreDistinct(c.manifestS.artifacts, SourceName)
    requires i < |c.manifestS.artifacts|
    ensures var a, d := c.manifestS.artifacts[i], Built(h, c, dir, now).disk; var path := Join(dir, a.name);
      && IsPortableName(h, a.name) && IsFile(c.disk, a.path)
      && Place(d.links, dir) == EntryAt(c.disk.links, dir)
      && Place(d.links, path) == Join(EntryAt(c.disk.links, dir), a.name)
      && IsFile(d, path) && ContentAt(d, path) == ContentAt(c.disk, a.path)
      && HasHashes(h, d, path, a.sha1, a.sha256)
  {
    BuildMeaning(h, c, dir, now);
    var s, entry, d := c.manifestS.artifacts, EntryAt(c.disk.links, dir), Built(h, c, dir, now).disk;
    hide Build, FirstBuild, Place, Exists, Below, IsPortableName, Published;
    var a := s[i];
    assert HasHashes(h, c.disk, a.path, a.sha1, a.sha256);
    PublishedFiles(c.disk, s, entry);
    assert IsCopied(c.disk, d, a, entry);
    NothingBelow(c.disk, entry);
    CopyIsSeen(h, c.disk.links, dir, a.name);
  }

  /** The content rules hold of the material just built. */
  lemma BuildKeepsContent(h: Host, c: Case, dir: string, now: string)
    requires IsBuiltFrom(h, c, dir, now) && AreDistinct(c.manifestS.artifacts, SourceName)
    ensures NoDrift(h, Built(h, c, dir, now), BuiltManifest(h, c, dir, now))
  {
    hide IndexBy, SourceDigest, FinalDigest, FinalsOf, Published, HasHashes, IsFile, Place;
    BuildMeaning(h, c, dir, now);
    var s := c.manifestS.artifacts;
    var m, b := BuiltManifest(h, c, dir, now), Built(h, c, dir, now);
    hide Build, FirstBuild;
    FinalsAreCopies(c.disk, s, dir);
    CopiesIndexed(s, m.artifacts, dir);
    var final := FinalIndex(m);
    forall name | name in final
      ensures HasHashes(h, b.disk, final[name].path, final[name].sha1, final[name].sha256)
      ensures name in SourceIndex(c) && IsCopyOf(SourceIndex(c)[name], final[name], dir)
    {
      var i := CopyOfName(s, m.artifacts, dir, name);
      CopyReads(h, c, dir, now, i);
    }
  }

  // ---------------------------------------------------------------- the hardened gate

  /** Every listed path leads into the output directory. */
  lemma BuildBindsPaths(h: Host, c: Case, dir: string, now: string)
    requires IsBuiltFrom(h, c, dir, now) && AreDistinct(c.manifestS.artifacts, SourceName)
    ensures ArePathsBound(Built(h, c, dir, now).disk, BuiltManifest(h, c, dir, now))
  {
    hide IndexBy, SourceDigest, FinalDigest, FinalsOf, Published, HasHashes, IsFile, Place;
    BuildMeaning(h, c, dir, now);
    var s := c.manifestS.artifacts;
    var m, d := BuiltManifest(h, c, dir, now), Built(h, c, dir, now).disk;
    hide Build, FirstBuild;
    FinalsAreCopies(c.disk, s, dir);
    forall name | name in FinalIndex(m)
      ensures Place(d.links, FinalIndex(m)[name].path) == Join(Place(d.links, m.outputDir), name)
    {
      var i := CopyOfName(s, m.artifacts, dir, name);
      CopyReads(h, c, dir, now, i);
    }
  }

  /** The listing of the output directory is the list of the artifacts. */
  lemma BuildFillsDirectory(h: Host, c: Case, dir: string, now: string)
    requires IsBuiltFrom(h, c, dir, now) && AreDistinct(c.manifestS.artifacts, SourceName)
    ensures var d, m := Built(h, c, dir, now).disk, BuiltManifest(h, c, dir, now);
      && Place(d.links, dir) == EntryAt(d.links, dir)
      && IsRealDirectory(d, EntryAt(d.links, dir)) && HoldsPlainFiles(d, EntryAt(d.links, dir))
      && Below(d.files.Keys, Place(d.links, dir)) == FinalIndex(m).Keys
      && FilesSeen(d, Place(d.links, dir)) == FinalIndex(m).Keys && DirectoriesSeen(d, Place(d.links, dir)) == {}
  {
    hide IndexBy, SourceDigest, FinalDigest, FinalsOf, Published, Below, Place, IsFile, FilesSeen, DirectoriesSeen;
    BuildMeaning(h, c, dir, now);
    var s, entry := c.manifestS.artifacts, EntryAt(c.disk.links, dir);
    hide Build, FirstBuild, EntryAt;
    NothingBelow(c.disk, entry);
    PlaceOfEntry(c.disk.links, dir);
    PublishedFiles(c.disk, s, entry);
    PublishedListing(c.disk, s, entry);
    SeesPublished(c.disk, s, entry);
    FinalsAreCopies(c.disk, s, dir);
    CopiesIndexed(s, BuiltManifest(h, c, dir, now).artifacts, dir);
    IndexKeys(s, SourceName);
    assert (set i | 0 <= i < |s| :: s[i].name) == (set i | 0 <= i < |s| :: SourceName(s[i]));
  }

  /** A fresh build keeps rules R-01 to R-05 of the hardened gate, whatever links lead to its
      directory: that gate resolves them, and finds what was published through them. */
  lemma BuildSatisfiesHardened(h: Host, c: Case, dir: string, now: string)
    requires IsBuiltFrom(h, c, dir, now) && AreDistinct(c.manifestS.artifacts, SourceName)
    ensures NoHardenedDrift(h, Built(h, c, dir, now), BuiltManifest(h, c, dir, now))
  {
    hide IndexBy, SourceDigest, FinalDigest, FinalsOf, Published, NoDrift, IsPortableName, Place, EntryAt, Below;
    hide FilesSeen, DirectoriesSeen, ArePathsBound, IsFile, Exists;
    var s := c.manifestS.artifacts;
    BuildMeaning(h, c, dir, now);
    var m, b := BuiltManifest(h, c, dir, now), Built(h, c, dir, now);
    hide Build, FirstBuild;
    BuildKeepsContent(h, c, dir, now);
    BuildFillsDirectory(h, c, dir, now);
    BuildBindsPaths(h, c, dir, now);
    FinalsAreCopies(c.disk, s, dir);
    CopiesIndexed(s, m.artifacts, dir);
    IndexDistinct(s, SourceName);
    IndexDistinct(m.artifacts, FinalName);
    assert ManifestsBound(h, b, m);
  }

  /** The producer satisfies the checker. On any run without forged manifests, what a
      successful build leaves is judged, if nobody touches the files, without drift by
      both gates, whatever links lead to its directory: the verdict is RELEASE_READY
      exactly when the signature and cloud services agree and a rollback is named, else
      RELEASE_BLOCKED, and never SUBMISSION_BLOCKED. */
  lemma ProducerSatisfiesChecker(h: Host, p: Policy, first: Case, commands: seq<Command>,
                                 dir: string, now: string, o: Oracle, hardened: bool)
    requires IsNewCase(h, first) && HasNoForgery(commands)
    requires IsBuiltFrom(h, After(h, p, first, commands), dir, now)
    ensures var c := After(h, p, first, commands);
      var m := BuiltManifest(h, c, dir, now);
      var verdict := RunGate(h, Built(h, c, dir, now), o, hardened);
      && verdict.Done?
      && verdict.value.event.status ==
           if ServicesAgree(FinalIndex(m), o) && h.strip(first.event.rollbackRef) != "" then ReleaseReady
           else ReleaseBlocked
  {
    hide After, IsHistory, IsMove, IndexBy, NoDrift, SourceDigest, FinalDigest, FinalsOf, Published, Below, Place;
    hide ServicesAgree, NoHardenedDrift, IsFinalIntact, AreSourcesIntact, AreNamesSafe, Exists, EntryAt, AreFiles;
    var c := After(h, p, first, commands);
    RunKeepsEvent(h, p, first, commands);
    RunKeepsDocuments(h, p, first, commands);
    FoldedIsDistinct(h, first.manifestS.artifacts);
    BuildMeaning(h, c, dir, now);
    hide Build, FirstBuild;
    BuildKeepsContent(h, c, dir, now);
    if hardened {
      BuildSatisfiesHardened(h, c, dir, now);
    }
  }

  lemma FoldedIsDistinct(h: Host, s: seq<SourceArtifact>)
    requires AreFoldedDistinct(h, s)
    ensures AreDistinct(s, SourceName)
  {
    forall i, j | 0 <= i < j < |s|
      ensures SourceName(s[i]) != SourceName(s[j])
    {
      assert h.casefold(s[i].name) != h.casefold(s[j].name);
    }
  }
}
