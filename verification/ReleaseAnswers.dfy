/** When a Manifest-R bundle loads, field by field and file by file. */
module ReleaseAnswers {
  import opened Json
  import opened ReleaseFiles

  /** A listed file: a portable name that its path ends in, and the bytes there have the size
      and the two hashes of the item. */
  predicate IsThere(h: Host, item: Json, dir: string, files: Directory) {
    && item.Obj?
    && var name := Text(h, item.Get(LogicalName));
    && IsPortableName(h, name) && name in files
    && h.resolve(Text(h, item.Get(FilePath))) == dir + "/" + name
    && var content := files[name];
    && item.Get(Size) == Num(|content|)
    && h.lower(Text(h, item.Get(Sha1))) == h.sha1(content) && IsHex(h.sha1(content), 40)
    && h.lower(Text(h, item.Get(Sha256))) == h.sha256(content) && IsHex(h.sha256(content), 64)
  }

  predicate AreThere(h: Host, items: seq<Json>, dir: string, files: Directory) {
    forall i :: 0 <= i < |items| ==> IsThere(h, items[i], dir, files)
  }

  function NameText(h: Host, item: Json): string {
    if item.Obj? then Text(h, item.Get(LogicalName)) else ""
  }

  predicate AreFoldedApart(h: Host, items: seq<Json>) {
    forall i, j :: 0 <= i < j < |items| ==> h.casefold(NameText(h, items[i])) != h.casefold(NameText(h, items[j]))
  }

  predicate IsNamed(h: Host, items: seq<Json>, name: string) {
    exists i :: 0 <= i < |items| && NameText(h, items[i]) == name
  }

  /** No two items have the same name but for case, and every file there is listed. */
  predicate ListsExactly(h: Host, items: seq<Json>, files: Directory) {
    AreFoldedApart(h, items) && forall name :: name in files ==> IsNamed(h, items, name)
  }

  lemma ThereExactly(h: Host, item: Json, dir: string, files: Directory)
    ensures IsSourceItem(h, item, dir, files) <==> IsThere(h, item, dir, files)
  {
    hide IsPortableName, IsHex, Text;
  }

  lemma SourcesAreItems(h: Host, items: seq<Json>, dir: string, files: Directory)
    requires forall i :: 0 <= i < |items| ==> IsSourceItem(h, items[i], dir, files)
    ensures forall i :: 0 <= i < |items| ==> IsArtifactItem(h, items[i])
    ensures forall i :: 0 <= i < |items| ==> NameText(h, items[i]) in files
  {
    hide IsPortableName, IsHex, Text, ContentMatches;
    forall i | 0 <= i < |items|
      ensures IsArtifactItem(h, items[i]) && NameText(h, items[i]) in files
    {
      assert IsSourceItem(h, items[i], dir, files);
    }
  }

  lemma ItemsExactly(h: Host, items: seq<Json>, dir: string, files: Directory)
    ensures AreSourceItems(h, items, dir, files) && files.Keys == NameSet(ArtifactsOf(h, items)) <==>
      AreThere(h, items, dir, files) && ListsExactly(h, items, files)
  {
    hide IsSourceItem, IsThere, ListsExactly, IsArtifactItem, NamesDistinct, NameSet, ArtifactsOf, NameText;
    forall i | 0 <= i < |items|
      ensures IsSourceItem(h, items[i], dir, files) <==> IsThere(h, items[i], dir, files)
    {
      ThereExactly(h, items[i], dir, files);
    }
    if forall i :: 0 <= i < |items| ==> IsSourceItem(h, items[i], dir, files) {
      SourcesAreItems(h, items, dir, files);
      NamesExactly(h, items, files);
    }
  }

  lemma NamesExactly(h: Host, items: seq<Json>, files: Directory)
    requires forall i :: 0 <= i < |items| ==> IsArtifactItem(h, items[i])
    requires forall i :: 0 <= i < |items| ==> NameText(h, items[i]) in files
    ensures NamesDistinct(h, Names(ArtifactsOf(h, items))) && files.Keys == NameSet(ArtifactsOf(h, items)) <==>
      ListsExactly(h, items, files)
  {
    var inventory := ArtifactsOf(h, items);
    assert forall i :: 0 <= i < |items| ==> inventory[i].name == NameText(h, items[i]);
    hide IsArtifactItem, ArtifactsOf, NameText, AreFoldedApart, IsNamed, NamesDistinct, NameSet, Names;
    DistinctExactly(h, items, inventory);
    ListingExactly(h, items, inventory, files);
  }

  lemma DistinctExactly(h: Host, items: seq<Json>, inventory: seq<Artifact>)
    requires |inventory| == |items|
    requires forall i :: 0 <= i < |items| ==> inventory[i].name == NameText(h, items[i])
    ensures NamesDistinct(h, Names(inventory)) <==> AreFoldedApart(h, items)
  {
    hide NameText;
    var names := Names(inventory);
    assert forall i :: 0 <= i < |items| ==> names[i] == NameText(h, items[i]);
  }

  lemma ListingExactly(h: Host, items: seq<Json>, inventory: seq<Artifact>, files: Directory)
    requires |inventory| == |items|
    requires forall i :: 0 <= i < |items| ==> inventory[i].name == NameText(h, items[i])
    requires forall i :: 0 <= i < |items| ==> NameText(h, items[i]) in files
    ensures files.Keys == NameSet(inventory) <==> forall name :: name in files ==> IsNamed(h, items, name)
  {
    hide NameText;
    forall name
      ensures name in NameSet(inventory) <==> IsNamed(h, items, name)
    {
    }
    if forall name :: name in files ==> IsNamed(h, items, name) {
      assert files.Keys == NameSet(inventory);
    }
  }

  /** A bundle loads exactly when its manifest is the one asked for, names an event and a
      directory, and that directory holds the listed files and no others. */
  lemma LoadableExactly(h: Host, manifest: Json, expected: string, disk: map<string, Directory>)
    ensures IsLoadable(h, manifest, expected, disk) <==>
      && IsHex(expected, 64)
      && manifest.Obj? && manifest.Get(Artifacts).Arr? && manifest.Get(Artifacts).items != []
      && h.digest(Obj(map[SourceManifestSDigest := Str(Text(h, manifest.Get(SourceManifestSDigest))),
                          Artifacts := manifest.Get(Artifacts)])) == expected
      && Text(h, manifest.Get(Digest)) == expected && IsEventId(Text(h, manifest.Get(EventId)))
      && var given := h.strip(Text(h, manifest.Get(OutputDir)));
      && given != "" && h.resolve(given) in disk
      && AreThere(h, manifest.Get(Artifacts).items, h.resolve(given), disk[h.resolve(given)])
      && ListsExactly(h, manifest.Get(Artifacts).items, disk[h.resolve(given)])
  {
    hide IsHex, Text, IsEventId, AreThere, ListsExactly, AreSourceItems;
    if IsBundleHeader(h, manifest, expected, disk) {
      var dir := h.resolve(OutputDirText(h, manifest));
      ItemsExactly(h, manifest.Get(Artifacts).items, dir, disk[dir]);
    }
  }
}
