/** Loading a Manifest-R bundle, laying it out as an installed release, and the
    independent check of an installed release. */
module ReleaseFiles {
  import opened Json

  type Directory = map<string, Bytes>

  datatype Artifact = Artifact(name: string, size: int, sha1: string, sha256: string)

  datatype Bundle = Bundle(
    payload: Json, digest: string, eventId: string, outputDir: string,
    files: Directory, inventory: seq<Artifact>, inventoryDigest: string)

  /** An installed release directory: three JSON documents and the copied files. */
  datatype Release = Release(manifest: Json, inventory: Json, metadata: Json, files: Directory)

  // ---------------------------------------------------------------- digests

  function ManifestDigest(h: Host, source: Json, artifacts: Json): string {
    h.digest(Obj(map[SourceManifestSDigest := source, Artifacts := artifacts]))
  }

  function ItemJson(a: Artifact): Json {
    Obj(map[LogicalName := Str(a.name), Size := Num(a.size), Sha1 := Str(a.sha1), Sha256 := Str(a.sha256)])
  }

  function ItemsJson(inventory: seq<Artifact>): Json {
    Arr(seq(|inventory|, i requires 0 <= i < |inventory| => ItemJson(inventory[i])))
  }

  function InventoryDigest(h: Host, manifestDigest: string, items: Json): string {
    h.digest(Obj(map[ManifestRDigest := Str(manifestDigest), Artifacts := items]))
  }

  // ---------------------------------------------------------------- manifest items

  function ItemName(h: Host, item: Json): string
    requires item.Obj?
  {
    Text(h, item.Get(LogicalName))
  }

  function ItemSha1(h: Host, item: Json): string
    requires item.Obj?
  {
    h.lower(Text(h, item.Get(Sha1)))
  }

  function ItemSha256(h: Host, item: Json): string
    requires item.Obj?
  {
    h.lower(Text(h, item.Get(Sha256)))
  }

  /** The item is well formed: portable name, integer size, hash-shaped hashes. */
  predicate IsArtifactItem(h: Host, item: Json) {
    && item.Obj?
    && IsPortableName(h, ItemName(h, item))
    && item.Get(Size).Num?
    && IsHex(ItemSha1(h, item), 40)
    && IsHex(ItemSha256(h, item), 64)
  }

  function ArtifactOf(h: Host, item: Json): Artifact
    requires IsArtifactItem(h, item)
  {
    Artifact(ItemName(h, item), item.Get(Size).n, ItemSha1(h, item), ItemSha256(h, item))
  }

  /** The bytes have the size and the two hashes the artifact claims. */
  predicate ContentMatches(h: Host, a: Artifact, content: Bytes) {
    |content| == a.size && h.sha1(content) == a.sha1 && h.sha256(content) == a.sha256
  }

  function ArtifactsOf(h: Host, items: seq<Json>): (r: seq<Artifact>)
    requires forall i :: 0 <= i < |items| ==> IsArtifactItem(h, items[i])
  {
    seq(|items|, i requires 0 <= i < |items| => ArtifactOf(h, items[i]))
  }

  predicate NamesDistinct(h: Host, names: seq<string>) {
    forall i, j :: 0 <= i < j < |names| ==> h.casefold(names[i]) != h.casefold(names[j])
  }

  function Names(artifacts: seq<Artifact>): seq<string> {
    seq(|artifacts|, i requires 0 <= i < |artifacts| => artifacts[i].name)
  }

  function NameSet(artifacts: seq<Artifact>): set<string> {
    set i | 0 <= i < |artifacts| :: artifacts[i].name
  }

  // ---------------------------------------------------------------- loading

  /** The item is well formed, its path is bound to the output directory, and the
      file there has exactly the claimed content. */
  predicate IsSourceItem(h: Host, item: Json, dir: string, files: Directory) {
    && IsArtifactItem(h, item)
    && var a := ArtifactOf(h, item);
    && a.name in files
    && h.resolve(Text(h, item.Get(FilePath))) == dir + "/" + a.name
    && ContentMatches(h, a, files[a.name])
  }

  /** The items themselves are acceptable against one directory. */
  predicate AreSourceItems(h: Host, items: seq<Json>, dir: string, files: Directory) {
    && (forall i :: 0 <= i < |items| ==> IsSourceItem(h, items[i], dir, files))
    && NamesDistinct(h, Names(ArtifactsOf(h, items)))
  }

  function OutputDirText(h: Host, manifest: Json): string
    requires manifest.Obj?
  {
    h.strip(Text(h, manifest.Get(OutputDir)))
  }

  /** Everything about the manifest document itself, before any file is looked at. */
  predicate IsBundleHeader(h: Host, manifest: Json, expected: string, disk: map<string, Directory>) {
    && IsHex(expected, 64)
    && manifest.Obj?
    && manifest.Get(Artifacts).Arr? && manifest.Get(Artifacts).items != []
    && ManifestDigest(h, Str(Text(h, manifest.Get(SourceManifestSDigest))), manifest.Get(Artifacts)) == expected
    && Text(h, manifest.Get(Digest)) == expected
    && IsEventId(Text(h, manifest.Get(EventId)))
    && OutputDirText(h, manifest) != ""
    && h.resolve(OutputDirText(h, manifest)) in disk
  }

  /** The bundle is acceptable: header, every item, distinct names, and no file on
      disk beyond the listed ones. */
  predicate IsLoadable(h: Host, manifest: Json, expected: string, disk: map<string, Directory>) {
    && IsBundleHeader(h, manifest, expected, disk)
    && var items := manifest.Get(Artifacts).items;
    && var dir := h.resolve(OutputDirText(h, manifest));
    && AreSourceItems(h, items, dir, disk[dir])
    && disk[dir].Keys == NameSet(ArtifactsOf(h, items))
  }

  function BundleOf(h: Host, manifest: Json, expected: string, disk: map<string, Directory>): Bundle
    requires IsLoadable(h, manifest, expected, disk)
  {
    var dir := h.resolve(OutputDirText(h, manifest));
    var inventory := ArtifactsOf(h, manifest.Get(Artifacts).items);
    Bundle(manifest, expected, Text(h, manifest.Get(EventId)), dir, disk[dir], inventory,
           InventoryDigest(h, expected, ItemsJson(inventory)))
  }

  function FoldedNames(h: Host, artifacts: seq<Artifact>): set<string> {
    set i | 0 <= i < |artifacts| :: h.casefold(artifacts[i].name)
  }

  lemma AppendName(h: Host, s: seq<Artifact>, a: Artifact)
    ensures FoldedNames(h, s + [a]) == FoldedNames(h, s) + {h.casefold(a.name)}
    ensures NameSet(s + [a]) == NameSet(s) + {a.name}
  {
    var t := s + [a];
    assert t[|s|] == a && forall i :: 0 <= i < |s| ==> t[i] == s[i];
  }

  /** One more artifact keeps the names distinct exactly when its folded name is new. */
  lemma AppendDistinct(h: Host, s: seq<Artifact>, a: Artifact)
    ensures NamesDistinct(h, Names(s + [a])) <==>
            NamesDistinct(h, Names(s)) && h.casefold(a.name) !in FoldedNames(h, s)
  {
    var names := Names(s);
    assert Names(s + [a]) == names + [a.name];
    if h.casefold(a.name) in FoldedNames(h, s) {
      var i :| 0 <= i < |s| && h.casefold(s[i].name) == h.casefold(a.name);
      assert (names + [a.name])[i] == s[i].name && (names + [a.name])[|s|] == a.name;
    } else if NamesDistinct(h, names) {
      forall i, j | 0 <= i < j <= |names|
        ensures h.casefold((names + [a.name])[i]) != h.casefold((names + [a.name])[j])
      {
        if j == |names| {
          assert names[i] == s[i].name;
        }
      }
    } else {
      var i, j :| 0 <= i < j < |names| && h.casefold(names[i]) == h.casefold(names[j]);
      assert (names + [a.name])[i] == names[i] && (names + [a.name])[j] == names[j];
    }
  }

  lemma DistinctPrefix(h: Host, s: seq<Artifact>, k: nat)
    requires k <= |s| && NamesDistinct(h, Names(s))
    ensures NamesDistinct(h, Names(s[..k]))
  {
    assert Names(s[..k]) == Names(s)[..k];
  }

  lemma SourceItemsPrefix(h: Host, items: seq<Json>, k: nat, dir: string, files: Directory)
    requires k <= |items| && AreSourceItems(h, items, dir, files)
    ensures AreSourceItems(h, items[..k], dir, files)
  {
    assert ArtifactsOf(h, items[..k]) == ArtifactsOf(h, items)[..k];
    DistinctPrefix(h, ArtifactsOf(h, items), k);
  }

  lemma SourceItemsAppend(h: Host, items: seq<Json>, item: Json, dir: string, files: Directory)
    requires AreSourceItems(h, items, dir, files) && IsSourceItem(h, item, dir, files)
    ensures AreSourceItems(h, items + [item], dir, files) <==>
            h.casefold(ArtifactOf(h, item).name) !in FoldedNames(h, ArtifactsOf(h, items))
    ensures ArtifactsOf(h, items + [item]) == ArtifactsOf(h, items) + [ArtifactOf(h, item)]
  {
    AppendDistinct(h, ArtifactsOf(h, items), ArtifactOf(h, item));
    assert ArtifactsOf(h, items + [item]) == ArtifactsOf(h, items) + [ArtifactOf(h, item)];
  }

  /** The loop over the items, filling the inventory and the two name sets. */
  method ReadSourceItems(h: Host, items: seq<Json>, dir: string, files: Directory)
    returns (inventory: Option<seq<Artifact>>, sources: set<string>)
    ensures inventory.Some? <==> AreSourceItems(h, items, dir, files)
    ensures inventory.Some? ==> inventory.value == ArtifactsOf(h, items) && sources == NameSet(inventory.value)
  {
    var read: seq<Artifact> := [];
    var seen: set<string> := {};
    sources := {};
    for k := 0 to |items|
      invariant AreSourceItems(h, items[..k], dir, files)
      invariant read == ArtifactsOf(h, items[..k])
      invariant seen == FoldedNames(h, read) && sources == NameSet(read)
    {
      ghost var complete := AreSourceItems(h, items, dir, files);
      assert items[..k] + [items[k]] == items[..k + 1];
      if complete {
        SourceItemsPrefix(h, items, k + 1, dir, files);
      }
      if !IsSourceItem(h, items[k], dir, files) {
        return None, {};
      }
      var a := ArtifactOf(h, items[k]);
      SourceItemsAppend(h, items[..k], items[k], dir, files);
      if h.casefold(a.name) in seen {
        return None, {};
      }
      AppendName(h, read, a);
      seen := seen + {h.casefold(a.name)};
      sources := sources + {a.name};
      read := read + [a];
    }
    assert items[..|items|] == items;
    return Some(read), sources;
  }

  /** The load accepts exactly the acceptable bundles. */
  method LoadManifestBundle(h: Host, manifest: Json, expected: string, disk: map<string, Directory>)
    returns (bundle: Option<Bundle>)
    ensures bundle.Some? <==> IsLoadable(h, manifest, expected, disk)
    ensures bundle.Some? ==> bundle.value == BundleOf(h, manifest, expected, disk)
  {
    if !IsBundleHeader(h, manifest, expected, disk) {
      return None;
    }
    var items := manifest.Get(Artifacts).items;
    var dir := h.resolve(OutputDirText(h, manifest));
    var inventory, sources := ReadSourceItems(h, items, dir, disk[dir]);
    if inventory.None? || disk[dir].Keys != sources {
      return None;
    }
    return Some(Bundle(manifest, expected, Text(h, manifest.Get(EventId)), dir, disk[dir], inventory.value,
                       InventoryDigest(h, expected, ItemsJson(inventory.value))));
  }

  /** A loaded bundle lists exactly its files, with their content. */
  lemma LoadedIsExact(h: Host, manifest: Json, expected: string, disk: map<string, Directory>)
    requires IsLoadable(h, manifest, expected, disk)
    ensures var b := BundleOf(h, manifest, expected, disk);
      && b.files.Keys == NameSet(b.inventory)
      && forall i :: 0 <= i < |b.inventory| ==> ContentMatches(h, b.inventory[i], b.files[b.inventory[i].name])
  {
    hide IsPortableName, ContentMatches;
    var items, b := manifest.Get(Artifacts).items, BundleOf(h, manifest, expected, disk);
    forall i | 0 <= i < |b.inventory|
      ensures b.inventory[i].name in b.files && ContentMatches(h, b.inventory[i], b.files[b.inventory[i].name])
    {
      assert IsSourceItem(h, items[i], b.outputDir, b.files);
    }
  }

  // ---------------------------------------------------------------- installing

  function ReleaseRefOf(digest: string): string {
    "releases/" + digest
  }

  function InventoryDocument(b: Bundle): Json {
    Obj(map[SchemaVersion := Num(1), ManifestRDigest := Str(b.digest),
            InventorySha256 := Str(b.inventoryDigest), Artifacts := ItemsJson(b.inventory)])
  }

  function MetadataDocument(b: Bundle, createdAt: string): Json {
    Obj(map[SchemaVersion := Num(1), AdapterVersion := Str("1.0.0"), EventId := Str(b.eventId),
            ReleaseRef := Str(ReleaseRefOf(b.digest)), ManifestRDigest := Str(b.digest),
            InventorySha256 := Str(b.inventoryDigest), Other("created_at") := Str(createdAt)])
  }

  /** The release directory that installing a bundle leaves behind. */
  function InstalledRelease(b: Bundle, createdAt: string): Release {
    Release(b.payload, InventoryDocument(b), MetadataDocument(b, createdAt), b.files)
  }

  /** The staging copy: listed files only, each checked after the copy. */
  method StageRelease(h: Host, b: Bundle, createdAt: string) returns (staged: Option<Release>)
    requires NameSet(b.inventory) <= b.files.Keys
    ensures staged.Some? <==> forall i :: 0 <= i < |b.inventory| ==>
              ContentMatches(h, b.inventory[i], b.files[b.inventory[i].name])
    ensures staged.Some? && b.files.Keys == NameSet(b.inventory) ==> staged.value == InstalledRelease(b, createdAt)
  {
    var files: Directory := map[];
    for k := 0 to |b.inventory|
      invariant files.Keys == NameSet(b.inventory[..k])
      invariant forall name :: name in files ==> name in b.files && files[name] == b.files[name]
      invariant forall i :: 0 <= i < k ==> ContentMatches(h, b.inventory[i], b.files[b.inventory[i].name])
    {
      var a := b.inventory[k];
      assert b.inventory[..k + 1] == b.inventory[..k] + [a];
      AppendName(h, b.inventory[..k], a);
      assert a.name in NameSet(b.inventory);
      files := files[a.name := b.files[a.name]];
      if !ContentMatches(h, a, files[a.name]) {
        return None;
      }
    }
    assert b.inventory[..|b.inventory|] == b.inventory;
    return Some(Release(b.payload, InventoryDocument(b), MetadataDocument(b, createdAt), files));
  }

  // ---------------------------------------------------------------- verifying

  predicate AreManifestItems(h: Host, items: seq<Json>) {
    && (forall i :: 0 <= i < |items| ==> IsArtifactItem(h, items[i]))
    && NamesDistinct(h, Names(ArtifactsOf(h, items)))
  }

  /** An inventory entry read back as an artifact. */
  predicate IsInventoryEntry(h: Host, item: Json) {
    && item.Obj?
    && IsPortableName(h, ItemName(h, item))
    && item.Get(Size).Num? && item.Get(Sha1).Str? && item.Get(Sha256).Str?
  }

  function EntryOf(h: Host, item: Json): Artifact
    requires IsInventoryEntry(h, item)
  {
    Artifact(ItemName(h, item), item.Get(Size).n, item.Get(Sha1).s, item.Get(Sha256).s)
  }

  function EntriesOf(h: Host, items: seq<Json>): seq<Artifact>
    requires forall i :: 0 <= i < |items| ==> IsInventoryEntry(h, items[i])
  {
    seq(|items|, i requires 0 <= i < |items| => EntryOf(h, items[i]))
  }

  /** The entry repeats one listed artifact exactly and its file has that content. */
  predicate IsInstalledItem(h: Host, item: Json, listed: set<Artifact>, files: Directory) {
    && IsInventoryEntry(h, item)
    && EntryOf(h, item) in listed
    && EntryOf(h, item).name in files
    && ContentMatches(h, EntryOf(h, item), files[EntryOf(h, item).name])
  }

  predicate AreInstalledItems(h: Host, items: seq<Json>, listed: set<Artifact>, files: Directory) {
    && (forall i :: 0 <= i < |items| ==> IsInstalledItem(h, items[i], listed, files))
    && NamesDistinct(h, Names(EntriesOf(h, items)))
  }

  function Listed(artifacts: seq<Artifact>): set<Artifact> {
    set i | 0 <= i < |artifacts| :: artifacts[i]
  }

  /** The three documents agree with each other and with the expected digest. */
  predicate AreDocumentsBound(h: Host, rel: Release, releaseRef: string, expected: string) {
    && rel.manifest.Obj? && rel.inventory.Obj? && rel.metadata.Obj?
    && rel.manifest.Get(Artifacts).Arr? && rel.manifest.Get(Artifacts).items != []
    && ManifestDigest(h, rel.manifest.Get(SourceManifestSDigest), rel.manifest.Get(Artifacts)) == expected
    && rel.manifest.Get(Digest) == Str(expected)
    && rel.inventory.Get(Artifacts).Arr? && rel.inventory.Get(Artifacts).items != []
    && var digest := Str(InventoryDigest(h, expected, rel.inventory.Get(Artifacts)));
    && rel.inventory.Get(InventorySha256) == digest
    && rel.metadata.Get(ReleaseRef) == Str(releaseRef)
    && rel.metadata.Get(ManifestRDigest) == Str(expected)
    && rel.metadata.Get(InventorySha256) == digest
  }

  /** What the check of an installed release accepts. */
  predicate IsVerified(h: Host, rel: Release, releaseRef: string, expected: string) {
    && AreDocumentsBound(h, rel, releaseRef, expected)
    && AreManifestItems(h, rel.manifest.Get(Artifacts).items)
    && var listed := ArtifactsOf(h, rel.manifest.Get(Artifacts).items);
    && AreInstalledItems(h, rel.inventory.Get(Artifacts).items, Listed(listed), rel.files)
    && var entries := EntriesOf(h, rel.inventory.Get(Artifacts).items);
    && rel.files.Keys == NameSet(entries)
    && NameSet(entries) == NameSet(listed)
  }

  function VerifiedDigest(h: Host, rel: Release, expected: string): string
    requires rel.inventory.Obj?
  {
    InventoryDigest(h, expected, rel.inventory.Get(Artifacts))
  }

  /** The check as a function: the inventory digest, or nothing. */
  function VerifyRelease(h: Host, rel: Release, releaseRef: string, expected: string): Option<string> {
    if IsVerified(h, rel, releaseRef, expected) then Some(VerifiedDigest(h, rel, expected)) else None
  }
}
