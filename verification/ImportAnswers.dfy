/** What an import takes and what it makes of it: the document, the tested directory and the
    new event, field by field. */
module ImportAnswers {
  import opened Json
  import opened ManifestS
  import opened GateDisk
  import opened ReleaseGate
  import opened GateImport

  /** A bound file as the document lists it. */
  predicate IsListed(h: Host, v: Json) {
    && v.Obj? && v.fields.Keys == {LogicalName, FileName, Size, Sha1, Sha256, SourceRef}
    && IsPortableName(h, NameIn(h, v)) && IsPortableName(h, FileIn(h, v))
    && v.Get(Size).Num? && v.Get(Size).n >= 0
    && IsHex(h.lower(Text(h, v.Get(Sha1))), 40) && IsHex(h.lower(Text(h, v.Get(Sha256))), 64)
  }

  function NameIn(h: Host, v: Json): string {
    if v.Obj? then Text(h, v.Get(LogicalName)) else ""
  }

  function FileIn(h: Host, v: Json): string {
    if v.Obj? then Text(h, v.Get(FileName)) else ""
  }

  /** Names that stay different when case is ignored. */
  predicate AreApart(h: Host, items: seq<Json>) {
    forall i, j :: 0 <= i < j < |items| ==>
      && h.casefold(NameIn(h, items[i])) != h.casefold(NameIn(h, items[j]))
      && h.casefold(FileIn(h, items[i])) != h.casefold(FileIn(h, items[j]))
  }

  function ValueSet(s: seq<string>): set<string> {
    set i | 0 <= i < |s| :: s[i]
  }

  predicate AreDifferent(s: seq<string>) {
    forall i, j :: 0 <= i < j < |s| ==> s[i] != s[j]
  }

  /** Counting the values is comparing them one by one. */
  lemma {:induction false} CountExactly(s: seq<string>)
    ensures |ValueSet(s)| <= |s|
    ensures |ValueSet(s)| == |s| <==> AreDifferent(s)
    decreases |s|
  {
    if s == [] {
      assert ValueSet(s) == {};
    } else {
      var n := |s| - 1;
      var init, last := s[..n], s[n];
      CountExactly(init);
      assert ValueSet(s) == ValueSet(init) + {last} by {
        assert forall i :: 0 <= i < n ==> init[i] == s[i];
      }
      DifferentAppend(s);
    }
  }

  lemma DifferentAppend(s: seq<string>)
    requires s != []
    ensures AreDifferent(s) <==> AreDifferent(s[..|s| - 1]) && s[|s| - 1] !in ValueSet(s[..|s| - 1])
  {
    var n := |s| - 1;
    var init := s[..n];
    assert forall i :: 0 <= i < n ==> init[i] == s[i];
    if AreDifferent(s) {
      assert AreDifferent(init);
    } else {
      var i, j :| 0 <= i < j < |s| && s[i] == s[j];
      if j < n {
        assert init[i] == init[j];
      } else {
        assert init[i] == s[n];
      }
    }
  }

  /** Names are unique after case folding exactly when they are so pair by pair. */
  lemma UniqueExactly(h: Host, s: seq<Material>)
    ensures HasUniqueNames(h, s) <==> forall i, j :: 0 <= i < j < |s| ==>
        && h.casefold(s[i].logicalName) != h.casefold(s[j].logicalName)
        && h.casefold(s[i].fileName) != h.casefold(s[j].fileName)
  {
    var logical := seq(|s|, i requires 0 <= i < |s| => h.casefold(s[i].logicalName));
    var files := seq(|s|, i requires 0 <= i < |s| => h.casefold(s[i].fileName));
    assert forall i :: 0 <= i < |s| ==>
        logical[i] == h.casefold(s[i].logicalName) && files[i] == h.casefold(s[i].fileName);
    assert FoldedLogical(h, s) == ValueSet(logical);
    assert FoldedFiles(h, s) == ValueSet(files);
    CountExactly(logical);
    CountExactly(files);
    hide FoldedLogical, FoldedFiles, ValueSet;
    if HasUniqueNames(h, s) {
      forall i, j | 0 <= i < j < |s|
        ensures h.casefold(s[i].logicalName) != h.casefold(s[j].logicalName)
        ensures h.casefold(s[i].fileName) != h.casefold(s[j].fileName)
      {
        assert logical[i] != logical[j] && files[i] != files[j];
      }
    }
  }

  lemma ItemsExactly(h: Host, items: seq<Json>)
    ensures AreImportItems(h, items) && HasUniqueNames(h, Imported(h, items)) <==>
      (forall i :: 0 <= i < |items| ==> IsListed(h, items[i])) && AreApart(h, items)
  {
    hide IsPortableName, IsHex, Text, FoldedLogical, FoldedFiles;
    forall i | 0 <= i < |items|
      ensures IsImportItem(h, items[i]) <==> IsListed(h, items[i])
    {
    }
    if AreImportItems(h, items) {
      var s := Imported(h, items);
      assert forall i :: 0 <= i < |items| ==>
          s[i].logicalName == NameIn(h, items[i]) && s[i].fileName == FileIn(h, items[i]);
      UniqueExactly(h, s);
    }
  }

  predicate IsDigestText(s: string) {
    |s| == 71 && s[..7] == "sha256:" && IsHex(s[7..], 64)
  }

  predicate AreTexts(h: Host, v: Json) {
    v.Arr? && forall i :: 0 <= i < |v.items| ==> v.items[i].Str? && h.strip(v.items[i].s) != ""
  }

  /** A document is importable for a request exactly when it is a Manifest-S of that event,
      round, task and module under its own digest, with a policy, checks, and files whose names
      are portable and stay apart; it need not name evidence. */
  lemma ImportableExactly(h: Host, q: Handoff, p: Json)
    ensures IsImportable(h, q, p) <==>
      && p.Obj?
      && p.fields.Keys == {SchemaName, EventId, RoundId, TaskName, ModuleName, PolicyProfile, PolicyDigest,
                           EffectiveChecks, Artifacts, EvidenceRefs, ManifestSDigest}
      && p.Get(SchemaName) == Str("ProductMaterialManifestS/v1")
      && p.Get(EventId) == Str(h.strip(q.eventId))
      && (p.Get(RoundId) == Num(q.round) || (p.Get(RoundId) == Bool(true) && q.round == 1)
          || (p.Get(RoundId) == Bool(false) && q.round == 0))
      && p.Get(TaskName) == Str(h.strip(q.task)) && p.Get(ModuleName) == Str(h.strip(q.moduleName))
      && IsDigestText(h.lower(Text(h, p.Get(ManifestSDigest))))
      && h.lower(Text(h, p.Get(ManifestSDigest))) == "sha256:" + h.digest(Obj(p.fields - {ManifestSDigest}))
      && h.strip(Text(h, p.Get(PolicyProfile))) != "" && IsDigestText(h.lower(Text(h, p.Get(PolicyDigest))))
      && AreTexts(h, p.Get(EffectiveChecks)) && p.Get(EffectiveChecks).items != []
      && AreTexts(h, p.Get(EvidenceRefs))
      && p.Get(Artifacts).Arr? && p.Get(Artifacts).items != []
      && (forall i :: 0 <= i < |p.Get(Artifacts).items| ==> IsListed(h, p.Get(Artifacts).items[i]))
      && AreApart(h, p.Get(Artifacts).items)
  {
    hide IsHex, Text, IsListed, AreApart, IsImportItem, AreImportItems, HasUniqueNames;
    if p.Obj? && p.Get(Artifacts).Arr? {
      ItemsExactly(h, p.Get(Artifacts).items);
    }
  }

  /** The tested directory is real, holds exactly the listed files and nothing that is no plain
      file, and each of them has the listed size and hashes. */
  lemma TestedExactly(h: Host, d: Disk, root: string, s: seq<Material>)
    ensures IsTested(h, d, root, s) <==>
      var entry := EntryAt(d.links, root);
      && entry in d.directories && entry !in d.links
      && (forall name :: Join(entry, name) !in d.directories && Join(entry, name) !in d.links)
      && (forall name :: Join(entry, name) in d.files <==> exists i :: 0 <= i < |s| && s[i].fileName == name)
      && forall i :: 0 <= i < |s| ==>
           && Place(d.links, Join(root, s[i].fileName)) in d.files
           && var content := d.files[Place(d.links, Join(root, s[i].fileName))];
           && |content| == s[i].size && h.sha1(content) == s[i].sha1 && h.sha256(content) == s[i].sha256
  {
    hide Place, Below, Join, EntryAt;
    var entry := EntryAt(d.links, root);
    var names := set i | 0 <= i < |s| :: s[i].fileName;
    forall name
      ensures name in Below(d.files.Keys, entry) <==> Join(entry, name) in d.files
      ensures name in Below(d.directories, entry) <==> Join(entry, name) in d.directories
      ensures name in Below(d.links.Keys, entry) <==> Join(entry, name) in d.links
    {
      BelowIsUnder(d.files.Keys, entry, name);
      BelowIsUnder(d.directories, entry, name);
      BelowIsUnder(d.links.Keys, entry, name);
    }
    assert Below(d.directories, entry) == {} <==> forall name :: Join(entry, name) !in d.directories by {
      EmptyExactly(Below(d.directories, entry));
    }
    assert Below(d.links.Keys, entry) == {} <==> forall name :: Join(entry, name) !in d.links by {
      EmptyExactly(Below(d.links.Keys, entry));
    }
  }

  lemma EmptyExactly(s: set<string>)
    ensures s == {} <==> forall x :: x !in s
  {
  }

  /** What the first import stores: the request's risk and rollback, the document's files where
      they were tested, a fresh history, and nothing of a test, an approval or a release. */
  lemma ImportedMeans(h: Host, q: Handoff, p: Json, d: Disk)
    requires IsImportable(h, q, p)
    ensures var c := ImportedCase(h, q, p, d);
      var items, root := p.Get(Artifacts).items, h.absolute(h.strip(q.dir));
      && c.event.eventId == h.strip(q.eventId) && c.event.status == Testing
      && c.event.riskLevel == q.riskLevel && c.event.rollbackRef == h.strip(q.rollbackRef)
      && c.event.test.None? && c.event.approval.None? && c.event.finalOutputDir.None? && c.manifestR.None?
      && c.event.manifestSDigest == c.manifestS.digest && c.disk == d
      && |c.manifestS.artifacts| == |items|
      && forall i :: 0 <= i < |items| ==>
           var v, a := items[i], c.manifestS.artifacts[i];
           && v.Obj? && a.name == Text(h, v.Get(LogicalName)) && Num(a.size) == v.Get(Size)
           && a.path == Place(d.links, Join(root, Text(h, v.Get(FileName))))
           && a.sha1 == h.lower(Text(h, v.Get(Sha1))) && a.sha256 == h.lower(Text(h, v.Get(Sha256)))
           && a.sourceRef == (if h.strip(Text(h, v.Get(SourceRef))) != "" then h.strip(Text(h, v.Get(SourceRef)))
                              else h.strip(q.sourceRef))
  {
    hide IsPortableName, IsHex, Text, Place, SourceDigest, HasUniqueNames, FreezeDigest;
  }
}
