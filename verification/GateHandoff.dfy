/** From the release gate to the deployment target: the manifest the build writes is a
    bundle the filesystem adapter loads, installs and verifies. */
module GateHandoff {
  import opened Json
  import opened ReleaseFiles
  import opened ReleaseCheck
  import opened GateDisk
  import opened ReleaseGate
  import opened GateRuns
  import opened GateEvidence
  import opened GateProducer
  import opened GateReplay

  /** Content hashes come out as lower-case hexadecimal text, which lower-casing leaves alone. */
  ghost predicate WritesHex(h: Host) {
    && (forall b :: IsHex(h.sha1(b), 40) && IsHex(h.sha256(b), 64))
    && (forall s: string, n: nat :: IsHex(s, n) ==> h.lower(s) == s)
  }

  /** The files of one directory of the disk, by name. */
  function DirectoryAt(d: Disk, place: string): Directory {
    map name | name in Below(d.files.Keys, place) && Join(place, name) in d.files :: d.files[Join(place, name)]
  }

  /** The adapter works on the same disk: it resolves a path to the place it leads to. */
  ghost predicate ResolvesOn(h: Host, d: Disk) {
    forall path :: h.resolve(path) == Place(d.links, path)
  }

  lemma PortableIsNamed(h: Host, name: string)
    requires IsPortableName(h, name)
    ensures name != ""
  {
  }

  /** A final artifact that is there, as the adapter looks for it. */
  predicate IsInPlace(h: Host, a: FinalArtifact, place: string, files: Directory) {
    && IsPortableName(h, a.name)
    && h.resolve(a.path) == Join(place, a.name) && a.path != ""
    && a.name in files && |files[a.name]| == a.size
    && h.sha1(files[a.name]) == a.sha1 && h.sha256(files[a.name]) == a.sha256
  }

  /** One entry of the manifest, read back by the adapter. */
  lemma EntryIsSource(h: Host, a: FinalArtifact, place: string, files: Directory)
    requires WritesHex(h) && IsInPlace(h, a, place, files)
    ensures IsSourceItem(h, FinalJson(a), place, files)
    ensures ArtifactOf(h, FinalJson(a)) == Artifact(a.name, a.size, a.sha1, a.sha256)
  {
    hide IsPortableName;
    var item := FinalJson(a);
    PortableIsNamed(h, a.name);
    assert item.Get(LogicalName) == Str(a.name) && item.Get(FilePath) == Str(a.path) && item.Get(Size) == Num(a.size);
    assert item.Get(Sha1) == Str(a.sha1) && item.Get(Sha256) == Str(a.sha256);
    assert IsHex(a.sha1, 40) && IsHex(a.sha256, 64);
    assert Join(place, a.name) == place + "/" + a.name;
  }

  function FinalEntries(t: seq<FinalArtifact>): (r: seq<Json>)
    ensures |r| == |t| && FinalItems(t) == Arr(r)
  {
    seq(|t|, i requires 0 <= i < |t| => FinalJson(t[i]))
  }

  /** All entries together, with distinct names. */
  lemma EntriesAreSources(h: Host, s: seq<SourceArtifact>, t: seq<FinalArtifact>, dir: string, place: string,
                          files: Directory)
    requires WritesHex(h) && AreCopies(s, t, dir) && AreFoldedDistinct(h, s)
    requires forall i :: 0 <= i < |t| ==> IsInPlace(h, t[i], place, files)
    ensures AreSourceItems(h, FinalEntries(t), place, files)
    ensures NameSet(ArtifactsOf(h, FinalEntries(t))) == (set i | 0 <= i < |s| :: s[i].name)
  {
    hide IsSourceItem, ArtifactOf, IsInPlace;
    var items := FinalEntries(t);
    forall i | 0 <= i < |items|
      ensures IsSourceItem(h, items[i], place, files)
      ensures IsArtifactItem(h, items[i]) && ArtifactOf(h, items[i]).name == s[i].name
    {
      assert IsCopyOf(s[i], t[i], dir);
      EntryIsSource(h, t[i], place, files);
      SourceIsArtifact(h, items[i], place, files);
    }
    var listed := ArtifactsOf(h, items);
    assert forall i :: 0 <= i < |s| ==> listed[i].name == s[i].name;
    assert NameSet(listed) == (set i | 0 <= i < |s| :: s[i].name);
    forall i, j | 0 <= i < j < |Names(listed)|
      ensures h.casefold(Names(listed)[i]) != h.casefold(Names(listed)[j])
    {
      assert h.casefold(s[i].name) != h.casefold(s[j].name);
    }
  }

  lemma SourceIsArtifact(h: Host, item: Json, dir: string, files: Directory)
    requires IsSourceItem(h, item, dir, files)
    ensures IsArtifactItem(h, item)
  {
  }

  /** Every listed file is in its place in the directory just built. */
  lemma BuiltInPlace(h: Host, c: Case, dir: string, now: string, i: nat)
    requires IsBuiltFrom(h, c, dir, now) && AreDistinct(c.manifestS.artifacts, SourceName)
    requires ResolvesOn(h, Built(h, c, dir, now).disk) && i < |c.manifestS.artifacts|
    ensures var d := Built(h, c, dir, now).disk; var place := Place(d.links, dir);
      IsInPlace(h, BuiltManifest(h, c, dir, now).artifacts[i], place, DirectoryAt(d, place))
  {
    hide IsPortableName, Published, SourceDigest, FinalDigest, Below, Exists, Place, EntryAt;
    BuildMeaning(h, c, dir, now);
    CopyReads(h, c, dir, now, i);
    FinalsAreCopies(c.disk, c.manifestS.artifacts, dir);
    var a, d := BuiltManifest(h, c, dir, now).artifacts[i], Built(h, c, dir, now).disk;
    BuiltFileIntact(h, c, dir, now, i);
    hide Build, FirstBuild;
    assert h.resolve(a.path) == Place(d.links, a.path);
    BelowIsUnder(d.files.Keys, Place(d.links, dir), a.name);
  }

  lemma DirectoryKeys(d: Disk, place: string)
    ensures DirectoryAt(d, place).Keys == Below(d.files.Keys, place)
  {
    hide Below;
    forall name | name in Below(d.files.Keys, place)
      ensures Join(place, name) in d.files
    {
      BelowIsUnder(d.files.Keys, place, name);
    }
  }

  /** The header of the document, field by field. */
  lemma ManifestHeader(h: Host, m: ManifestR, disk: map<string, Directory>)
    requires IsHex(m.digest, 64) && IsEventId(m.eventId) && m.artifacts != []
    requires m.digest == FinalDigest(h, m.sourceDigest, m.artifacts)
    requires m.outputDir != "" && h.strip(m.outputDir) == m.outputDir && h.resolve(m.outputDir) in disk
    ensures IsBundleHeader(h, ManifestRJson(m), m.digest, disk)
    ensures ManifestRJson(m).Get(Artifacts) == Arr(FinalEntries(m.artifacts))
    ensures OutputDirText(h, ManifestRJson(m)) == m.outputDir
    ensures HasTextFields(ManifestRJson(m))
  {
    var j := ManifestRJson(m);
    assert j.Get(EventId) == Str(m.eventId) && j.Get(SourceManifestSDigest) == Str(m.sourceDigest);
    assert j.Get(OutputDir) == Str(m.outputDir) && j.Get(Digest) == Str(m.digest);
    assert j.Get(Artifacts) == FinalItems(m.artifacts);
  }

  /** What the gate built, the deployment target accepts: on any run without forged
      manifests, the document of a successful build loads under its own digest from the
      directory the build published, whatever links lead there, and what installing it
      leaves verifies. */
  lemma BuiltReleaseDeploys(h: Host, p: Policy, first: Case, commands: seq<Command>, dir: string, now: string,
                            disk: map<string, Directory>, createdAt: string)
    requires WritesHex(h) && IsNewCase(h, first) && HasNoForgery(commands)
    requires IsBuiltFrom(h, After(h, p, first, commands), dir, now)
    requires IsHex(BuiltManifest(h, After(h, p, first, commands), dir, now).digest, 64)
    requires h.strip(dir) == dir && ResolvesOn(h, Built(h, After(h, p, first, commands), dir, now).disk)
    requires var d := Built(h, After(h, p, first, commands), dir, now).disk; var place := Place(d.links, dir);
      place in disk && disk[place] == DirectoryAt(d, place)
    ensures var m := BuiltManifest(h, After(h, p, first, commands), dir, now);
      && IsLoadable(h, ManifestRJson(m), m.digest, disk)
      && VerifyRelease(h, InstalledRelease(BundleOf(h, ManifestRJson(m), m.digest, disk), createdAt),
                       ReleaseRefOf(m.digest), m.digest)
           == Some(BundleOf(h, ManifestRJson(m), m.digest, disk).inventoryDigest)
  {
    hide After, IsHistory, IsMove, IndexBy, SourceDigest, Published, Below, FilesSeen, DirectoriesSeen, IsPortableName;
    hide Exists, AreNamesSafe, IsInPlace, IsEventId, FinalDigest, ManifestRJson, Place, EntryAt;
    var c, s := After(h, p, first, commands), first.manifestS.artifacts;
    RunKeepsEvent(h, p, first, commands);
    RunKeepsDocuments(h, p, first, commands);
    FoldedIsDistinct(h, s);
    BuildMeaning(h, c, dir, now);
    var m, d := BuiltManifest(h, c, dir, now), Built(h, c, dir, now).disk;
    var place := Place(d.links, dir);
    FinalsAreCopies(c.disk, s, dir);
    assert h.resolve(m.outputDir) == place;
    ManifestHeader(h, m, disk);
    forall i | 0 <= i < |m.artifacts|
      ensures IsInPlace(h, m.artifacts[i], place, disk[place])
    {
      BuiltInPlace(h, c, dir, now, i);
    }
    EntriesAreSources(h, s, m.artifacts, dir, place, disk[place]);
    DirectoryKeys(d, place);
    BuildFillsDirectory(h, c, dir, now);
    BuildKeepsContent(h, c, dir, now);
    NamesAreKeys(h, Built(h, c, dir, now), m);
    TextFieldsVerify(h, ManifestRJson(m), m.digest, disk, createdAt);
  }

  /** There are hosts that write all their hashes so and resolve paths on a given disk. */
  lemma HexHostExists(h: Host, d: Disk)
    ensures exists sha1: Bytes -> string, sha256: Bytes -> string, lower: string -> string, digest: Json -> string,
                   resolve: string -> string ::
      && WritesHex(h.(sha1 := sha1, sha256 := sha256, lower := lower, digest := digest, resolve := resolve))
      && ResolvesOn(h.(sha1 := sha1, sha256 := sha256, lower := lower, digest := digest, resolve := resolve), d)
      && forall j :: IsHex(digest(j), 64)
  {
    var forty, sixtyFour := seq(40, i => '0'), seq(64, i => '0');
    var sha1, sha256, lower := (b: Bytes) => forty, (b: Bytes) => sixtyFour, (s: string) => s;
    var digest, resolve := (j: Json) => sixtyFour, (path: string) => Place(d.links, path);
    var host := h.(sha1 := sha1, sha256 := sha256, lower := lower, digest := digest, resolve := resolve);
    assert WritesHex(host) && ResolvesOn(host, d);
    assert forall j :: IsHex(digest(j), 64);
  }
}
