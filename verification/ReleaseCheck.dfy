/** The check of an installed release as the adapter runs it, and what it means:
    the round trip from a loaded bundle, and what acceptance implies. */
module ReleaseCheck {
  import opened Json
  import opened ReleaseFiles

  // ---------------------------------------------------------------- the two loops

  lemma ManifestItemsPrefix(h: Host, items: seq<Json>, k: nat)
    requires k <= |items| && AreManifestItems(h, items)
    ensures AreManifestItems(h, items[..k])
  {
    assert ArtifactsOf(h, items[..k]) == ArtifactsOf(h, items)[..k];
    DistinctPrefix(h, ArtifactsOf(h, items), k);
  }

  lemma ManifestItemsAppend(h: Host, items: seq<Json>, item: Json)
    requires AreManifestItems(h, items) && IsArtifactItem(h, item)
    ensures AreManifestItems(h, items + [item]) <==>
            h.casefold(ArtifactOf(h, item).name) !in FoldedNames(h, ArtifactsOf(h, items))
    ensures ArtifactsOf(h, items + [item]) == ArtifactsOf(h, items) + [ArtifactOf(h, item)]
  {
    AppendDistinct(h, ArtifactsOf(h, items), ArtifactOf(h, item));
    assert ArtifactsOf(h, items + [item]) == ArtifactsOf(h, items) + [ArtifactOf(h, item)];
  }

  lemma ListedAppend(s: seq<Artifact>, a: Artifact)
    ensures Listed(s + [a]) == Listed(s) + {a}
  {
    assert (s + [a])[|s|] == a && forall i :: 0 <= i < |s| ==> (s + [a])[i] == s[i];
  }

  /** The index by name describes exactly the listed artifacts. */
  ghost predicate Indexes(index: map<string, Artifact>, listed: seq<Artifact>) {
    && index.Keys == NameSet(listed)
    && (forall name :: name in index ==> index[name].name == name)
    && index.Values == Listed(listed)
  }

  lemma IndexAppend(h: Host, index: map<string, Artifact>, s: seq<Artifact>, a: Artifact)
    requires Indexes(index, s) && h.casefold(a.name) !in FoldedNames(h, s)
    ensures Indexes(index[a.name := a], s + [a])
  {
    AppendName(h, s, a);
    ListedAppend(s, a);
    assert a.name !in NameSet(s);
    var grown := index[a.name := a];
    assert a in grown.Values by {
      assert grown[a.name] == a;
    }
    forall x | x in index.Values
      ensures x in grown.Values
    {
      var name :| name in index && index[name] == x;
      assert grown[name] == x;
    }
  }

  method ReadManifestItems(h: Host, items: seq<Json>) returns (index: Option<map<string, Artifact>>)
    ensures index.Some? <==> AreManifestItems(h, items)
    ensures index.Some? ==> Indexes(index.value, ArtifactsOf(h, items))
  {
    var found: map<string, Artifact> := map[];
    var seen: set<string> := {};
    for k := 0 to |items|
      invariant AreManifestItems(h, items[..k])
      invariant Indexes(found, ArtifactsOf(h, items[..k]))
      invariant seen == FoldedNames(h, ArtifactsOf(h, items[..k]))
    {
      assert items[..k] + [items[k]] == items[..k + 1];
      ghost var complete := AreManifestItems(h, items);
      if complete {
        ManifestItemsPrefix(h, items, k + 1);
      }
      if !IsArtifactItem(h, items[k]) {
        return None;
      }
      var a := ArtifactOf(h, items[k]);
      ManifestItemsAppend(h, items[..k], items[k]);
      if h.casefold(a.name) in seen {
        return None;
      }
      IndexAppend(h, found, ArtifactsOf(h, items[..k]), a);
      AppendName(h, ArtifactsOf(h, items[..k]), a);
      found := found[a.name := a];
      seen := seen + {h.casefold(a.name)};
    }
    assert items[..|items|] == items;
    return Some(found);
  }

  lemma InstalledItemsPrefix(h: Host, items: seq<Json>, k: nat, listed: set<Artifact>, files: Directory)
    requires k <= |items| && AreInstalledItems(h, items, listed, files)
    ensures AreInstalledItems(h, items[..k], listed, files)
  {
    assert EntriesOf(h, items[..k]) == EntriesOf(h, items)[..k];
    DistinctPrefix(h, EntriesOf(h, items), k);
  }

  lemma InstalledItemsAppend(h: Host, items: seq<Json>, item: Json, listed: set<Artifact>, files: Directory)
    requires AreInstalledItems(h, items, listed, files) && IsInstalledItem(h, item, listed, files)
    ensures AreInstalledItems(h, items + [item], listed, files) <==>
            h.casefold(EntryOf(h, item).name) !in FoldedNames(h, EntriesOf(h, items))
    ensures EntriesOf(h, items + [item]) == EntriesOf(h, items) + [EntryOf(h, item)]
  {
    AppendDistinct(h, EntriesOf(h, items), EntryOf(h, item));
    assert EntriesOf(h, items + [item]) == EntriesOf(h, items) + [EntryOf(h, item)];
  }

  /** Looking the name up in the index and comparing is membership in the listed set. */
  lemma IndexLookup(index: map<string, Artifact>, listed: seq<Artifact>, a: Artifact)
    requires Indexes(index, listed)
    ensures a in Listed(listed) <==> a.name in index && index[a.name] == a
  {
    if a in Listed(listed) {
      assert a in index.Values;
      var name :| name in index && index[name] == a;
    }
  }

  method ReadInventoryItems(h: Host, items: seq<Json>, index: map<string, Artifact>, files: Directory,
                            ghost listed: seq<Artifact>)
    returns (names: Option<set<string>>)
    requires Indexes(index, listed)
    ensures names.Some? <==> AreInstalledItems(h, items, Listed(listed), files)
    ensures names.Some? ==> names.value == NameSet(EntriesOf(h, items))
  {
    hide IsPortableName, ContentMatches, Indexes, Listed, ItemName;
    var found: set<string> := {};
    var seen: set<string> := {};
    for k := 0 to |items|
      invariant AreInstalledItems(h, items[..k], Listed(listed), files)
      invariant found == NameSet(EntriesOf(h, items[..k]))
      invariant seen == FoldedNames(h, EntriesOf(h, items[..k]))
    {
      assert items[..k] + [items[k]] == items[..k + 1];
      ghost var complete := AreInstalledItems(h, items, Listed(listed), files);
      if complete {
        InstalledItemsPrefix(h, items, k + 1, Listed(listed), files);
      }
      if !IsInventoryEntry(h, items[k]) {
        return None;
      }
      var a := EntryOf(h, items[k]);
      IndexLookup(index, listed, a);
      if a.name !in index || index[a.name] != a || a.name !in files || !ContentMatches(h, a, files[a.name]) {
        return None;
      }
      InstalledItemsAppend(h, items[..k], items[k], Listed(listed), files);
      if h.casefold(a.name) in seen {
        return None;
      }
      AppendName(h, EntriesOf(h, items[..k]), a);
      found := found + {a.name};
      seen := seen + {h.casefold(a.name)};
    }
    assert items[..|items|] == items;
    return Some(found);
  }

  /** The check, loop by loop, accepts exactly the verified releases and returns the
      digest of the inventory it found. */
  method CheckRelease(h: Host, rel: Release, releaseRef: string, expected: string) returns (digest: Option<string>)
    ensures digest == VerifyRelease(h, rel, releaseRef, expected)
  {
    if !AreDocumentsBound(h, rel, releaseRef, expected) {
      return None;
    }
    var items := rel.manifest.Get(Artifacts).items;
    var index := ReadManifestItems(h, items);
    if index.None? {
      return None;
    }
    var names := ReadInventoryItems(h, rel.inventory.Get(Artifacts).items, index.value, rel.files,
                                    ArtifactsOf(h, items));
    if names.None? || rel.files.Keys != names.value || names.value != index.value.Keys {
      return None;
    }
    return Some(InventoryDigest(h, expected, rel.inventory.Get(Artifacts)));
  }

  // ---------------------------------------------------------------- round trip

  /** The two manifest fields that loading reads as text and the check reads as they
      are. The caller can test this before deploying. */
  predicate HasTextFields(manifest: Json) {
    && manifest.Obj?
    && manifest.Get(SourceManifestSDigest).Str?
    && manifest.Get(Digest).Str?
  }

  /** An item written to the inventory document reads back as itself. */
  lemma EntryRoundTrip(h: Host, a: Artifact)
    requires IsPortableName(h, a.name)
    ensures IsInventoryEntry(h, ItemJson(a)) && EntryOf(h, ItemJson(a)) == a
  {
  }

  lemma EntriesRoundTrip(h: Host, inventory: seq<Artifact>)
    requires forall i :: 0 <= i < |inventory| ==> IsPortableName(h, inventory[i].name)
    ensures forall i :: 0 <= i < |inventory| ==> IsInventoryEntry(h, ItemsJson(inventory).items[i])
    ensures EntriesOf(h, ItemsJson(inventory).items) == inventory
  {
    forall i | 0 <= i < |inventory|
      ensures IsInventoryEntry(h, ItemsJson(inventory).items[i])
      ensures EntryOf(h, ItemsJson(inventory).items[i]) == inventory[i]
    {
      EntryRoundTrip(h, inventory[i]);
    }
  }

  lemma InstalledItemsRoundTrip(h: Host, items: seq<Json>, dir: string, files: Directory)
    requires AreSourceItems(h, items, dir, files)
    ensures AreInstalledItems(h, ItemsJson(ArtifactsOf(h, items)).items, Listed(ArtifactsOf(h, items)), files)
    ensures EntriesOf(h, ItemsJson(ArtifactsOf(h, items)).items) == ArtifactsOf(h, items)
  {
    var inventory := ArtifactsOf(h, items);
    EntriesRoundTrip(h, inventory);
    var written := ItemsJson(inventory).items;
    forall i | 0 <= i < |written|
      ensures IsInstalledItem(h, written[i], Listed(inventory), files)
    {
      assert EntriesOf(h, written)[i] == inventory[i];
      assert IsSourceItem(h, items[i], dir, files);
    }
  }

  /** A loaded bundle whose two manifest fields are strings installs as a release that the
      check accepts, with the bundle's own inventory digest. This half asks nothing of the
      hash. */
  lemma TextFieldsVerify(h: Host, manifest: Json, expected: string, disk: map<string, Directory>, createdAt: string)
    requires IsLoadable(h, manifest, expected, disk) && HasTextFields(manifest)
    ensures var b := BundleOf(h, manifest, expected, disk);
      VerifyRelease(h, InstalledRelease(b, createdAt), ReleaseRefOf(expected), expected) == Some(b.inventoryDigest)
  {
    var b := BundleOf(h, manifest, expected, disk);
    InstalledItemsRoundTrip(h, manifest.Get(Artifacts).items, b.outputDir, b.files);
    assert AreDocumentsBound(h, InstalledRelease(b, createdAt), ReleaseRefOf(expected), expected);
  }

  /** Installing a loaded bundle gives a release that the check accepts, with exactly
      the bundle's inventory digest, if and only if the two manifest fields are strings. */
  lemma RoundTrip(h: Host, manifest: Json, expected: string, disk: map<string, Directory>, createdAt: string)
    requires CollisionFree(h.digest)
    requires IsLoadable(h, manifest, expected, disk)
    ensures var b := BundleOf(h, manifest, expected, disk);
      VerifyRelease(h, InstalledRelease(b, createdAt), ReleaseRefOf(expected), expected)
        == if HasTextFields(manifest) then Some(b.inventoryDigest) else None
  {
    if HasTextFields(manifest) {
      TextFieldsVerify(h, manifest, expected, disk, createdAt);
    } else {
      TextFieldsNeeded(h, manifest.Get(SourceManifestSDigest), manifest.Get(Artifacts));
    }
  }

  /** Under a collision-free digest the source field digests alike as text and as it
      is only when it is text. */
  lemma TextFieldsNeeded(h: Host, source: Json, artifacts: Json)
    requires CollisionFree(h.digest)
    ensures ManifestDigest(h, source, artifacts) == ManifestDigest(h, Str(Text(h, source)), artifacts) ==> source.Str?
  {
    var a := map[SourceManifestSDigest := source, Artifacts := artifacts];
    var b := map[SourceManifestSDigest := Str(Text(h, source)), Artifacts := artifacts];
    if h.digest(Obj(a)) == h.digest(Obj(b)) {
      assert Obj(a) == Obj(b);
      assert a[SourceManifestSDigest] == b[SourceManifestSDigest];
    }
  }

  /** A bundle whose manifest omits the source digest loads and installs, and the
      check refuses what was installed. */
  lemma MissingSourceDigestRefused(h: Host, manifest: Json, expected: string, disk: map<string, Directory>,
                                   createdAt: string)
    requires CollisionFree(h.digest)
    requires IsLoadable(h, manifest, expected, disk)
    requires SourceManifestSDigest !in manifest.fields
    ensures VerifyRelease(h, InstalledRelease(BundleOf(h, manifest, expected, disk), createdAt),
                          ReleaseRefOf(expected), expected) == None
  {
    RoundTrip(h, manifest, expected, disk, createdAt);
  }

  /** Acceptance means: the names in the manifest, in the inventory and on disk are the
      same set, and every file has the size and hashes the manifest gives it. */
  lemma AcceptedReleaseIsExact(h: Host, rel: Release, releaseRef: string, expected: string)
    requires VerifyRelease(h, rel, releaseRef, expected).Some?
    ensures var listed := ArtifactsOf(h, rel.manifest.Get(Artifacts).items);
      && rel.files.Keys == NameSet(listed)
      && NameSet(EntriesOf(h, rel.inventory.Get(Artifacts).items)) == NameSet(listed)
      && (forall i :: 0 <= i < |listed| ==>
            listed[i].name in rel.files && ContentMatches(h, listed[i], rel.files[listed[i].name]))
  {
    var listed := ArtifactsOf(h, rel.manifest.Get(Artifacts).items);
    forall i | 0 <= i < |listed|
      ensures listed[i].name in rel.files && ContentMatches(h, listed[i], rel.files[listed[i].name])
    {
      ListedFilePresent(h, rel.inventory.Get(Artifacts).items, listed, rel.files, i);
    }
  }

  lemma ListedFilePresent(h: Host, items: seq<Json>, listed: seq<Artifact>, files: Directory, i: nat)
    requires AreInstalledItems(h, items, Listed(listed), files)
    requires NamesDistinct(h, Names(listed)) && NameSet(listed) <= NameSet(EntriesOf(h, items))
    requires i < |listed|
    ensures listed[i].name in files && ContentMatches(h, listed[i], files[listed[i].name])
  {
    var entries := EntriesOf(h, items);
    assert listed[i].name in NameSet(listed);
    var j :| 0 <= j < |entries| && entries[j].name == listed[i].name;
    assert IsInstalledItem(h, items[j], Listed(listed), files);
    var k :| 0 <= k < |listed| && listed[k] == entries[j];
    SameNameSameArtifact(h, listed, i, k);
  }

  lemma SameNameSameArtifact(h: Host, s: seq<Artifact>, i: nat, k: nat)
    requires i < |s| && k < |s| && NamesDistinct(h, Names(s)) && s[i].name == s[k].name
    ensures i == k
  {
    assert Names(s)[i] == s[i].name && Names(s)[k] == s[k].name;
  }
}
