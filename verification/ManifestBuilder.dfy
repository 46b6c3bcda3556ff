/** Building Manifest-S, and the agreement of builder, validator and gate import. */
module ManifestBuilder {
  import opened Json
  import opened TextOrder
  import opened ManifestS

  // ---------------------------------------------------------------- bindings and their order

  predicate IsNamed(h: Host, v: Json) {
    h.strip(Text(h, v)) != ""
  }

  /** A file binding the builder takes. */
  predicate IsBindingItem(h: Host, v: Json) {
    && v.Obj?
    && IsNamed(h, v.Get(LogicalName)) && IsNamed(h, v.Get(FileName)) && IsNamed(h, v.Get(Sha1))
    && IsNamed(h, v.Get(Sha256))
    && v.Get(Size).Num? && v.Get(Size).n >= 0
  }

  function BindingMaterial(h: Host, v: Json): Material
    requires IsBindingItem(h, v)
  {
    Material(h.strip(Text(h, v.Get(LogicalName))), h.strip(Text(h, v.Get(FileName))), v.Get(Size).n,
             h.lower(h.strip(Text(h, v.Get(Sha1)))), h.lower(h.strip(Text(h, v.Get(Sha256)))),
             h.strip(Text(h, v.Get(SourceRef))))
  }

  /** The sort key: logical name, then SHA-256, then file name. */
  predicate Precedes(a: Material, b: Material) {
    || Less(a.logicalName, b.logicalName)
    || (a.logicalName == b.logicalName
        && (Less(a.sha256, b.sha256) || (a.sha256 == b.sha256 && Less(a.fileName, b.fileName))))
  }

  predicate IsTie(a: Material, b: Material) {
    a.logicalName == b.logicalName && a.sha256 == b.sha256 && a.fileName == b.fileName
  }

  lemma PrecedesTotal(a: Material, b: Material)
    ensures IsTie(a, b) || Precedes(a, b) || Precedes(b, a)
    ensures !(Precedes(a, b) && Precedes(b, a)) && !(IsTie(a, b) && Precedes(a, b))
  {
    LessTotal(a.logicalName, b.logicalName);
    LessTotal(a.sha256, b.sha256);
    LessTotal(a.fileName, b.fileName);
  }

  lemma PrecedesTransitive(a: Material, b: Material, c: Material)
    requires Precedes(a, b) && Precedes(b, c)
    ensures Precedes(a, c)
  {
    if Less(a.logicalName, b.logicalName) && Less(b.logicalName, c.logicalName) {
      LessTransitive(a.logicalName, b.logicalName, c.logicalName);
    }
    if Less(a.sha256, b.sha256) && Less(b.sha256, c.sha256) {
      LessTransitive(a.sha256, b.sha256, c.sha256);
    }
    if Less(a.fileName, b.fileName) && Less(b.fileName, c.fileName) {
      LessTransitive(a.fileName, b.fileName, c.fileName);
    }
  }

  /** `sorted`: equal keys stay in the order they came in. */
  function Insert(s: seq<Material>, m: Material): seq<Material> {
    if s == [] then [m] else if Precedes(m, s[0]) then [m] + s else [s[0]] + Insert(s[1..], m)
  }

  function Sorted(s: seq<Material>): seq<Material>
    decreases |s|
  {
    if s == [] then [] else Insert(Sorted(s[..|s| - 1]), s[|s| - 1])
  }

  lemma {:induction false} InsertElements(s: seq<Material>, m: Material)
    ensures multiset(Insert(s, m)) == multiset(s) + multiset{m}
  {
    if s != [] {
      assert s == [s[0]] + s[1..];
      if !Precedes(m, s[0]) {
        InsertElements(s[1..], m);
      }
    }
  }

  lemma {:induction false} SortedElements(s: seq<Material>)
    ensures multiset(Sorted(s)) == multiset(s)
    decreases |s|
  {
    if s != [] {
      hide Precedes, Insert;
      var init, last := s[..|s| - 1], s[|s| - 1];
      SortedElements(init);
      InsertElements(Sorted(init), last);
      assert s == init + [last];
      assert multiset(s) == multiset(init) + multiset{last};
    }
  }

  predicate IsWeaklySorted(s: seq<Material>) {
    forall i, j :: 0 <= i < j < |s| ==> !Precedes(s[j], s[i])
  }

  lemma {:induction false} InsertSorted(s: seq<Material>, m: Material)
    requires IsWeaklySorted(s)
    ensures IsWeaklySorted(Insert(s, m))
  {
    if s != [] {
      PrecedesTotal(m, s[0]);
      if Precedes(m, s[0]) {
        forall j | 0 <= j < |s|
          ensures !Precedes(s[j], m)
        {
          if j > 0 && Precedes(s[j], m) {
            PrecedesTransitive(s[j], m, s[0]);
          }
        }
      } else {
        InsertSorted(s[1..], m);
        InsertElements(s[1..], m);
        var rest := Insert(s[1..], m);
        forall j | 0 <= j < |rest|
          ensures !Precedes(rest[j], s[0])
        {
          assert rest[j] in multiset(rest);
          assert rest[j] in s[1..] || rest[j] == m;
        }
      }
    }
  }

  lemma {:induction false} SortedIsSorted(s: seq<Material>)
    ensures IsWeaklySorted(Sorted(s))
    decreases |s|
  {
    if s != [] {
      SortedIsSorted(s[..|s| - 1]);
      InsertSorted(Sorted(s[..|s| - 1]), s[|s| - 1]);
    }
  }

  /** The elements with the key of `m`, as they come. */
  function Ties(s: seq<Material>, m: Material): seq<Material> {
    if s == [] then [] else (if IsTie(s[0], m) then [s[0]] else []) + Ties(s[1..], m)
  }

  lemma {:induction false} TiesAppend(s: seq<Material>, x: Material, m: Material)
    ensures Ties(s + [x], m) == Ties(s, m) + if IsTie(x, m) then [x] else []
  {
    if s == [] {
      assert s + [x] == [x] && [x][1..] == [];
    } else {
      assert (s + [x])[1..] == s[1..] + [x];
      TiesAppend(s[1..], x, m);
    }
  }

  lemma {:induction false} NoTies(s: seq<Material>, m: Material)
    requires forall i :: 0 <= i < |s| ==> !IsTie(s[i], m)
    ensures Ties(s, m) == []
  {
    if s != [] {
      NoTies(s[1..], m);
    }
  }

  lemma {:induction false} InsertTies(s: seq<Material>, x: Material, m: Material)
    requires IsWeaklySorted(s)
    ensures Ties(Insert(s, x), m) == Ties(s, m) + if IsTie(x, m) then [x] else []
  {
    if s != [] {
      if Precedes(x, s[0]) {
        assert ([x] + s)[1..] == s;
        if IsTie(x, m) {
          forall i | 0 <= i < |s|
            ensures !IsTie(s[i], m)
          {
            assert IsTie(s[i], m) ==> Precedes(s[i], s[0]);
            PrecedesTotal(s[0], s[0]);
          }
          NoTies(s, m);
        }
      } else {
        var rest := Insert(s[1..], x);
        assert ([s[0]] + rest)[1..] == rest;
        InsertTies(s[1..], x, m);
      }
    } else {
      assert [x][1..] == [];
    }
  }

  /** The sorting is stable. */
  lemma {:induction false} SortedTies(s: seq<Material>, m: Material)
    ensures Ties(Sorted(s), m) == Ties(s, m)
    decreases |s|
  {
    if s != [] {
      var init, x := s[..|s| - 1], s[|s| - 1];
      assert s == init + [x];
      SortedTies(init, m);
      SortedIsSorted(init);
      InsertTies(Sorted(init), x, m);
      TiesAppend(init, x, m);
    }
  }

  /** Elements with the same key are equal. */
  predicate DoTiesAgree(s: seq<Material>) {
    forall x, y :: x in s && y in s && IsTie(x, y) ==> x == y
  }

  lemma TailSorted(a: seq<Material>)
    requires IsWeaklySorted(a) && DoTiesAgree(a) && a != []
    ensures IsWeaklySorted(a[1..]) && DoTiesAgree(a[1..])
  {
  }

  lemma HeadsEqual(a: seq<Material>, b: seq<Material>)
    requires IsWeaklySorted(a) && IsWeaklySorted(b) && DoTiesAgree(a)
    requires multiset(a) == multiset(b) && a != [] && b != []
    ensures a[0] == b[0]
  {
    hide Precedes, IsTie;
    assert a[0] in multiset(b) && b[0] in multiset(a);
    var i :| 0 <= i < |b| && b[i] == a[0];
    var j :| 0 <= j < |a| && a[j] == b[0];
    PrecedesTotal(a[0], b[0]);
    PrecedesTotal(a[0], a[0]);
    assert !Precedes(b[i], b[0]) && !Precedes(a[j], a[0]);
    assert a[0] in a && b[0] in a;
  }

  lemma TailElements(a: seq<Material>)
    requires a != []
    ensures multiset(a[1..]) == multiset(a) - multiset{a[0]}
  {
    assert a == [a[0]] + a[1..];
  }

  /** Two sorted lists of the same elements are the same list, where equal keys mean equal elements. */
  lemma {:induction false} SortedListsEqual(a: seq<Material>, b: seq<Material>)
    requires IsWeaklySorted(a) && IsWeaklySorted(b) && DoTiesAgree(a) && DoTiesAgree(b)
    requires multiset(a) == multiset(b)
    ensures a == b
    decreases |a|
  {
    hide IsWeaklySorted, DoTiesAgree;
    assert |multiset(a)| == |a| && |multiset(b)| == |b|;
    if a != [] {
      HeadsEqual(a, b);
      TailElements(a);
      TailElements(b);
      TailSorted(a);
      TailSorted(b);
      SortedListsEqual(a[1..], b[1..]);
    }
  }

  lemma SameElementsAgree(s: seq<Material>, t: seq<Material>)
    requires multiset(s) == multiset(t) && DoTiesAgree(s)
    ensures DoTiesAgree(t)
  {
    forall x | x in t
      ensures x in s
    {
      assert x in multiset(t) && x in multiset(s);
    }
  }

  lemma AgreeingSortAlike(s: seq<Material>, t: seq<Material>)
    requires multiset(s) == multiset(t) && DoTiesAgree(s)
    ensures Sorted(s) == Sorted(t)
  {
    SortedIsSorted(s);
    SortedIsSorted(t);
    SortedElements(s);
    SortedElements(t);
    SameElementsAgree(s, Sorted(s));
    SameElementsAgree(s, Sorted(t));
    SortedListsEqual(Sorted(s), Sorted(t));
  }

  /** Bringing one element to the front puts it before all with its key. */
  lemma FrontedSorts(s: seq<Material>, i: nat)
    requires i < |s|
    ensures multiset([s[i]] + s[..i] + s[i + 1..]) == multiset(s)
    ensures Ties(Sorted([s[i]] + s[..i] + s[i + 1..]), s[i]) != []
    ensures Ties(Sorted([s[i]] + s[..i] + s[i + 1..]), s[i])[0] == s[i]
  {
    var t := [s[i]] + s[..i] + s[i + 1..];
    assert s == s[..i] + [s[i]] + s[i + 1..];
    SortedTies(t, s[i]);
    assert t[0] == s[i];
  }

  lemma TiesOfTied(s: seq<Material>, x: Material, y: Material)
    requires IsTie(x, y)
    ensures Ties(s, x) == Ties(s, y)
  {
    if s != [] {
      TiesOfTied(s[1..], x, y);
    }
  }

  /** Which of two different elements with one key comes first is up to the order they come in. */
  lemma TiesKeepOrder(s: seq<Material>, i: nat, j: nat) returns (t: seq<Material>)
    requires i < |s| && j < |s| && s[i] != s[j] && IsTie(s[i], s[j])
    ensures multiset(t) == multiset(s) && Sorted(t) != Sorted(s)
  {
    var a, b := [s[i]] + s[..i] + s[i + 1..], [s[j]] + s[..j] + s[j + 1..];
    FrontedSorts(s, i);
    FrontedSorts(s, j);
    TiesOfTied(Sorted(b), s[i], s[j]);
    t := if Sorted(a) == Sorted(s) then b else a;
  }

  /** Every order of the same bindings sorts alike exactly when bindings with the same key are equal. */
  lemma SortIgnoresOrder(s: seq<Material>)
    ensures (forall t :: multiset(t) == multiset(s) ==> Sorted(t) == Sorted(s)) <==> DoTiesAgree(s)
  {
    if DoTiesAgree(s) {
      forall t | multiset(t) == multiset(s)
        ensures Sorted(t) == Sorted(s)
      {
        AgreeingSortAlike(s, t);
      }
    } else {
      var x, y :| x in s && y in s && IsTie(x, y) && x != y;
      var i :| 0 <= i < |s| && s[i] == x;
      var j :| 0 <= j < |s| && s[j] == y;
      var t := TiesKeepOrder(s, i, j);
    }
  }

  // ---------------------------------------------------------------- the document

  function ManifestBody(h: Host, s: Submission, policy: string, files: seq<Material>): map<Key, Json> {
    map[SchemaName := Str(SCHEMA), EventId := Str(s.eventId), RoundId := Num(s.round),
        TaskName := Str(s.task), ModuleName := Str(s.moduleName), PolicyProfile := Str(s.policyProfile),
        PolicyDigest := Str(policy), EffectiveChecks := TextsJson(s.checks), Artifacts := MaterialsJson(files),
        EvidenceRefs := TextsJson(s.refs)]
  }

  function Manifest(h: Host, s: Submission, policy: string, files: seq<Material>): Json {
    var body := ManifestBody(h, s, policy, files);
    Obj(body[ManifestSDigest := Str("sha256:" + h.digest(Obj(body)))])
  }

  /** The loop that normalises the bindings. */
  method ReadBindings(h: Host, items: seq<Json>) returns (files: Option<seq<Material>>)
    ensures files.Some? <==> forall i :: 0 <= i < |items| ==> IsBindingItem(h, items[i])
    ensures files.Some? ==> |files.value| == |items|
    ensures files.Some? ==> forall i :: 0 <= i < |items| ==> files.value[i] == BindingMaterial(h, items[i])
  {
    hide IsNamed;
    var read: seq<Material> := [];
    for k := 0 to |items|
      invariant forall i :: 0 <= i < k ==> IsBindingItem(h, items[i])
      invariant |read| == k && forall i :: 0 <= i < k ==> read[i] == BindingMaterial(h, items[i])
    {
      if !IsBindingItem(h, items[k]) {
        return None;
      }
      read := read + [BindingMaterial(h, items[k])];
    }
    return Some(read);
  }

  method BuildManifestS(h: Host, s: Submission, policy: Json, items: seq<Json>) returns (manifest: Option<Json>)
    ensures manifest.Some? <==>
      HasDigest(h, policy) && items != [] && forall i :: 0 <= i < |items| ==> IsBindingItem(h, items[i])
    ensures manifest.Some? ==> exists files: seq<Material> ::
      && |files| == |items| && (forall i :: 0 <= i < |items| ==> files[i] == BindingMaterial(h, items[i]))
      && manifest.value == Manifest(h, s, h.lower(h.strip(policy.s)), Sorted(files))
  {
    hide IsSingle, IsDigest, Sorted, Manifest, BindingMaterial, IsBindingItem;
    if !HasDigest(h, policy) {
      return None;
    }
    var files := ReadBindings(h, items);
    if files.None? || files.value == [] {
      return None;
    }
    return Some(Manifest(h, s, h.lower(h.strip(policy.s)), Sorted(files.value)));
  }

  // ---------------------------------------------------------------- builder and validator

  predicate IsPlainChar(c: char) {
    '0' <= c <= '9' || 'a' <= c <= 'z' || c == ':'
  }

  predicate IsPlain(s: string) {
    forall i :: 0 <= i < |s| ==> IsPlainChar(s[i])
  }

  /** Neither trimming nor lower-casing touches a text of digits, small letters and
      colons, nor trimming the schema name. */
  ghost predicate IsTextHost(h: Host) {
    && h.strip(SCHEMA) == SCHEMA
    && forall s :: IsPlain(s) ==> h.strip(s) == s && h.lower(s) == s
  }

  predicate IsLine(h: Host, s: string) {
    s != "" && h.strip(s) == s && IsSingle(s)
  }

  predicate AreLines(h: Host, s: seq<string>) {
    forall i :: 0 <= i < |s| ==> IsLine(h, s[i])
  }

  /** What the validation of a submission guarantees. */
  predicate IsSubmission(h: Host, s: Submission) {
    && IsLine(h, s.eventId) && IsEventId(s.eventId) && s.round > 0
    && IsLine(h, s.task) && IsLine(h, s.moduleName) && IsModule(s.moduleName) && IsLine(h, s.policyProfile)
    && s.checks != [] && AreLines(h, s.checks)
    && AreLines(h, s.refs) && IsIncreasing(s.refs)
  }

  /** A normalised binding the validator accepts. */
  predicate IsSound(h: Host, m: Material) {
    && IsPortableName(h, m.logicalName) && IsPortableName(h, m.fileName) && m.size >= 0
    && IsHex(m.sha1, 40) && IsHex(m.sha256, 64) && IsLine(h, m.sourceRef)
  }

  predicate AreSound(h: Host, s: seq<Material>) {
    forall i :: 0 <= i < |s| ==> IsSound(h, s[i])
  }

  /** Writing a material and reading it back gives it again exactly when it is sound. */
  lemma MaterialReads(h: Host, m: Material)
    requires IsTextHost(h)
    ensures HasMaterial(h, MaterialJson(m)) && MaterialOf(h, MaterialJson(m)) == m <==> IsSound(h, m)
  {
    hide IsPortableName;
    var v := MaterialJson(m);
    assert v.Get(LogicalName) == Str(m.logicalName) && v.Get(FileName) == Str(m.fileName) && v.Get(Size) == Num(m.size);
    assert v.Get(Sha1) == Str(m.sha1) && v.Get(Sha256) == Str(m.sha256) && v.Get(SourceRef) == Str(m.sourceRef);
    HexIsPlain(h, m.sha1, 40);
    HexIsPlain(h, m.sha256, 64);
    PortableNotEmpty(h, m.logicalName);
    PortableNotEmpty(h, m.fileName);
  }

  lemma PortableNotEmpty(h: Host, s: string)
    ensures IsPortableName(h, s) ==> s != ""
  {
  }

  lemma HexIsPlain(h: Host, s: string, n: nat)
    requires IsTextHost(h)
    ensures IsHex(s, n) ==> h.strip(s) == s && h.lower(s) == s
  {
    if IsHex(s, n) {
      assert forall i :: 0 <= i < |s| ==> IsHexChar(s[i]);
      assert IsPlain(s);
    }
  }

  lemma DigestIsPlain(h: Host, s: string)
    requires IsTextHost(h) && IsDigest(s)
    ensures h.strip(s) == s && h.lower(s) == s && IsSingle(s)
  {
    forall i | 0 <= i < |s|
      ensures IsPlainChar(s[i])
    {
      if i < 7 {
        assert s[i] == s[..7][i] == "sha256:"[i];
      } else {
        assert s[i] == s[7..][i - 7] && IsHexChar(s[7..][i - 7]);
      }
    }
    assert IsPlain(s);
  }

  lemma MaterialsRead(h: Host, files: seq<Material>)
    requires IsTextHost(h)
    ensures AllMaterials(h, MaterialsJson(files).items) && MaterialsOf(h, MaterialsJson(files).items) == files
       <==> AreSound(h, files)
  {
    hide HasMaterial, MaterialOf, IsSound, MaterialJson;
    var items := MaterialsJson(files).items;
    forall i | 0 <= i < |files|
      ensures HasMaterial(h, items[i]) && MaterialOf(h, items[i]) == files[i] <==> IsSound(h, files[i])
    {
      MaterialReads(h, files[i]);
    }
    if AllMaterials(h, items) && MaterialsOf(h, items) == files {
      assert forall i :: 0 <= i < |files| ==> MaterialsOf(h, items)[i] == MaterialOf(h, items[i]);
    }
  }

  lemma LinesRead(h: Host, s: seq<string>)
    requires AreLines(h, s)
    ensures LinesOf(h, TextsJson(s).items) == s
    ensures s != [] <==> HasLines(h, TextsJson(s))
  {
    assert forall i :: 0 <= i < |s| ==> IsLine(h, s[i]);
  }

  ghost predicate HasHexDigest(h: Host) {
    forall j :: IsHex(h.digest(j), 64)
  }

  predicate ReadsAs(h: Host, p: Json, s: Submission, policy: string, files: seq<Material>, claimed: string) {
    && p.Obj? && p.fields.Keys == Fields()
    && p.Get(SchemaName) == Str(SCHEMA) && p.Get(EventId) == Str(s.eventId) && p.Get(RoundId) == Num(s.round)
    && p.Get(TaskName) == Str(s.task) && p.Get(ModuleName) == Str(s.moduleName)
    && p.Get(PolicyProfile) == Str(s.policyProfile) && p.Get(PolicyDigest) == Str(policy)
    && p.Get(EffectiveChecks) == TextsJson(s.checks) && p.Get(EvidenceRefs) == TextsJson(s.refs)
    && p.Get(Artifacts) == MaterialsJson(files) && p.Get(ManifestSDigest) == Str(claimed)
    && FreezeDigest(h, p) == claimed
  }

  lemma ManifestReadsAs(h: Host, s: Submission, policy: string, files: seq<Material>)
    ensures ReadsAs(h, Manifest(h, s, policy, files), s, policy, files,
                    "sha256:" + h.digest(Obj(ManifestBody(h, s, policy, files))))
  {
    var body := ManifestBody(h, s, policy, files);
    var p := Manifest(h, s, policy, files);
    assert p.fields - {ManifestSDigest} == body;
    assert p.fields.Keys == body.Keys + {ManifestSDigest};
  }

  /** Builder and validator agree: what is built from a submission validates, as it is,
      exactly when the submission names evidence and the bindings are sound and uniquely
      named. */
  lemma BuiltIsValid(h: Host, s: Submission, policy: string, files: seq<Material>)
    requires IsTextHost(h) && HasHexDigest(h) && IsSubmission(h, s) && IsDigest(policy) && files != []
    ensures IsValid(h, Manifest(h, s, policy, files))
       <==> s.refs != [] && AreSound(h, files) && HasUniqueNames(h, files)
  {
    hide Manifest, MaterialsJson, TextsJson, IsSound, HasMaterial, IsEventId, FoldedFiles, FoldedLogical;
    ManifestReadsAs(h, s, policy, files);
    var p := Manifest(h, s, policy, files);
    var claimed := "sha256:" + h.digest(Obj(ManifestBody(h, s, policy, files)));
    DigestShape(h, Obj(ManifestBody(h, s, policy, files)));
    DigestIsPlain(h, claimed);
    DigestIsPlain(h, policy);
    HeaderIsReadable(h, p, s, policy, files, claimed);
    MaterialsRead(h, files);
    LinesRead(h, s.checks);
    LinesRead(h, s.refs);
    IncreasingIsSorted(s.refs);
    MaterialsShape(files);
    if IsReadable(h, p) {
      NormalizedIs(h, p, s, policy, files, claimed);
      if Normalized(h, p) == p {
        MaterialsJsonInjective(MaterialsOf(h, p.Get(Artifacts).items), files);
      }
    }
  }

  lemma DigestShape(h: Host, v: Json)
    requires HasHexDigest(h)
    ensures IsDigest("sha256:" + h.digest(v))
  {
    var s := "sha256:" + h.digest(v);
    assert s[..7] == "sha256:" && s[7..] == h.digest(v);
    assert IsHex(h.digest(v), 64);
  }

  lemma MaterialsShape(files: seq<Material>)
    ensures MaterialsJson(files).Arr? && |MaterialsJson(files).items| == |files|
  {
  }

  /** Everything but artifacts and evidence is in order. */
  lemma HeaderIsReadable(h: Host, p: Json, s: Submission, policy: string, files: seq<Material>, claimed: string)
    requires ReadsAs(h, p, s, policy, files, claimed) && IsSubmission(h, s)
    requires IsTextHost(h) && IsDigest(policy) && IsDigest(claimed)
    ensures IsReadable(h, p) <==> HasLines(h, p.Get(EvidenceRefs)) && AreMaterialItems(h, p.Get(Artifacts))
  {
    hide TextsJson, MaterialsJson, AreMaterialItems, IsEventId, IsSingle, IsHex;
    DigestIsPlain(h, policy);
    DigestIsPlain(h, claimed);
    LinesRead(h, s.checks);
    SchemaIsLine(h);
    ModuleIsPlain(h, s.moduleName);
  }

  /** Once the document reads, it is canonical when its materials and references are. */
  lemma NormalizedIs(h: Host, p: Json, s: Submission, policy: string, files: seq<Material>, claimed: string)
    requires ReadsAs(h, p, s, policy, files, claimed) && IsSubmission(h, s) && IsReadable(h, p)
    requires IsTextHost(h) && IsDigest(policy) && IsDigest(claimed)
    ensures Normalized(h, p) == p <==>
      && TextsJson(SortedTexts(LinesOf(h, p.Get(EvidenceRefs).items))) == p.Get(EvidenceRefs)
      && MaterialsJson(MaterialsOf(h, p.Get(Artifacts).items)) == p.Get(Artifacts)
  {
    hide TextsJson, MaterialsJson, AreMaterialItems, IsEventId, IsSingle, IsHex, SortedTexts, Normalized, LinesOf;
    hide MaterialsOf;
    DigestIsPlain(h, policy);
    DigestIsPlain(h, claimed);
    LinesRead(h, s.checks);
    ModuleIsPlain(h, s.moduleName);
    var n := Normalized(h, p);
    NormalizedFields(h, p);
    if n.Get(EvidenceRefs) == p.Get(EvidenceRefs) && n.Get(Artifacts) == p.Get(Artifacts) {
      SameFields(n, p);
    }
  }

  lemma NormalizedFields(h: Host, p: Json)
    requires IsReadable(h, p)
    ensures var n := Normalized(h, p);
      && n.Obj? && n.fields.Keys == Fields()
      && n.Get(SchemaName) == Str(SCHEMA) && n.Get(EventId) == Str(h.strip(p.Get(EventId).s))
      && n.Get(RoundId) == p.Get(RoundId)
      && n.Get(TaskName) == Str(h.strip(p.Get(TaskName).s))
      && n.Get(ModuleName) == Str(h.lower(h.strip(p.Get(ModuleName).s)))
      && n.Get(PolicyProfile) == Str(h.strip(p.Get(PolicyProfile).s))
      && n.Get(PolicyDigest) == Str(h.lower(h.strip(p.Get(PolicyDigest).s)))
      && n.Get(EffectiveChecks) == TextsJson(LinesOf(h, p.Get(EffectiveChecks).items))
      && n.Get(Artifacts) == MaterialsJson(MaterialsOf(h, p.Get(Artifacts).items))
      && n.Get(EvidenceRefs) == TextsJson(SortedTexts(LinesOf(h, p.Get(EvidenceRefs).items)))
      && n.Get(ManifestSDigest) == Str(h.lower(h.strip(p.Get(ManifestSDigest).s)))
  {
    hide TextsJson, MaterialsJson, IsEventId, IsSingle, IsHex, SortedTexts, LinesOf, MaterialsOf, FreezeDigest;
    hide Document;
    DocumentFields(
      Str(SCHEMA), Str(h.strip(p.Get(EventId).s)), p.Get(RoundId), Str(h.strip(p.Get(TaskName).s)),
      Str(h.lower(h.strip(p.Get(ModuleName).s))), Str(h.strip(p.Get(PolicyProfile).s)),
      Str(h.lower(h.strip(p.Get(PolicyDigest).s))), TextsJson(LinesOf(h, p.Get(EffectiveChecks).items)),
      MaterialsJson(MaterialsOf(h, p.Get(Artifacts).items)),
      TextsJson(SortedTexts(LinesOf(h, p.Get(EvidenceRefs).items))), Str(h.lower(h.strip(p.Get(ManifestSDigest).s))));
  }

  lemma DocumentFields(schema: Json, event: Json, round: Json, task: Json, moduleName: Json, profile: Json,
                       policy: Json, checks: Json, artifacts: Json, refs: Json, claimed: Json)
    ensures var n := Document(schema, event, round, task, moduleName, profile, policy, checks, artifacts, refs,
                              claimed);
      && n.Obj? && n.fields.Keys == Fields()
      && n.Get(SchemaName) == schema && n.Get(EventId) == event && n.Get(RoundId) == round
      && n.Get(TaskName) == task && n.Get(ModuleName) == moduleName && n.Get(PolicyProfile) == profile
      && n.Get(PolicyDigest) == policy && n.Get(EffectiveChecks) == checks && n.Get(Artifacts) == artifacts
      && n.Get(EvidenceRefs) == refs && n.Get(ManifestSDigest) == claimed
  {
    hide IdentityPart, ContentPart;
    IdentityFields(schema, event, round, task, moduleName);
    ContentFields(profile, policy, checks, artifacts, refs, claimed);
  }

  lemma IdentityFields(schema: Json, event: Json, round: Json, task: Json, moduleName: Json)
    ensures var a := IdentityPart(schema, event, round, task, moduleName);
      && a.Keys == {SchemaName, EventId, RoundId, TaskName, ModuleName}
      && a[SchemaName] == schema && a[EventId] == event && a[RoundId] == round
      && a[TaskName] == task && a[ModuleName] == moduleName
  {
  }

  lemma ContentFields(profile: Json, policy: Json, checks: Json, artifacts: Json, refs: Json, claimed: Json)
    ensures var b := ContentPart(profile, policy, checks, artifacts, refs, claimed);
      && b.Keys == {PolicyProfile, PolicyDigest, EffectiveChecks, Artifacts, EvidenceRefs, ManifestSDigest}
      && b[PolicyProfile] == profile && b[PolicyDigest] == policy && b[EffectiveChecks] == checks
      && b[Artifacts] == artifacts && b[EvidenceRefs] == refs && b[ManifestSDigest] == claimed
  {
  }

  /** Documents with the eleven fields are the same when the fields are. */
  lemma SameFields(a: Json, b: Json)
    requires a.Obj? && b.Obj? && a.fields.Keys == Fields() && b.fields.Keys == Fields()
    requires a.Get(SchemaName) == b.Get(SchemaName) && a.Get(EventId) == b.Get(EventId)
      && a.Get(RoundId) == b.Get(RoundId)
    requires a.Get(TaskName) == b.Get(TaskName) && a.Get(ModuleName) == b.Get(ModuleName)
    requires a.Get(PolicyProfile) == b.Get(PolicyProfile) && a.Get(PolicyDigest) == b.Get(PolicyDigest)
      && a.Get(EffectiveChecks) == b.Get(EffectiveChecks)
    requires a.Get(Artifacts) == b.Get(Artifacts) && a.Get(EvidenceRefs) == b.Get(EvidenceRefs)
      && a.Get(ManifestSDigest) == b.Get(ManifestSDigest)
    ensures a == b
  {
    forall k | k in Fields()
      ensures a.fields[k] == b.fields[k]
    {
      assert a.Get(k) == b.Get(k);
    }
    assert a.fields == b.fields;
  }

  lemma MaterialsJsonInjective(a: seq<Material>, b: seq<Material>)
    requires MaterialsJson(a) == MaterialsJson(b)
    ensures a == b
  {
    var x, y := MaterialsJson(a).items, MaterialsJson(b).items;
    forall i | 0 <= i < |a|
      ensures a[i] == b[i]
    {
      assert x[i] == y[i];
      MaterialJsonInjective(a[i], b[i]);
    }
  }

  lemma MaterialJsonInjective(a: Material, b: Material)
    requires MaterialJson(a) == MaterialJson(b)
    ensures a == b
  {
    var f, g := MaterialJson(a).fields, MaterialJson(b).fields;
    assert f[LogicalName] == g[LogicalName] && f[FileName] == g[FileName] && f[Size] == g[Size];
    assert f[Sha1] == g[Sha1] && f[Sha256] == g[Sha256] && f[SourceRef] == g[SourceRef];
  }

  lemma SchemaIsLine(h: Host)
    ensures IsSingle(SCHEMA) && SCHEMA != ""
  {
  }

  lemma ModuleIsPlain(h: Host, s: string)
    requires IsTextHost(h) && IsModule(s)
    ensures h.strip(s) == s && h.lower(s) == s
  {
    assert IsPlain(s);
  }

  // ---------------------------------------------------------------- for bindings in any order

  lemma SortedMembers(s: seq<Material>, m: Material)
    ensures m in Sorted(s) <==> m in s
  {
    SortedElements(s);
    assert m in multiset(Sorted(s)) <==> m in multiset(s);
  }

  lemma SortedKeeps(h: Host, s: seq<Material>)
    ensures |Sorted(s)| == |s|
    ensures AreSound(h, Sorted(s)) <==> AreSound(h, s)
    ensures HasUniqueNames(h, Sorted(s)) <==> HasUniqueNames(h, s)
  {
    hide IsSound, Sorted;
    var t := Sorted(s);
    SortedElements(s);
    assert |multiset(t)| == |t| && |multiset(s)| == |s|;
    forall m | m in s || m in t
      ensures m in s && m in t
    {
      SortedMembers(s, m);
    }
    FoldedSame(h, s, t);
    FoldedSame(h, t, s);
    assert FoldedLogical(h, s) == FoldedLogical(h, t) && FoldedFiles(h, s) == FoldedFiles(h, t);
    assert AreSound(h, s) <==> forall m :: m in s ==> IsSound(h, m);
    assert AreSound(h, t) <==> forall m :: m in t ==> IsSound(h, m);
  }

  lemma FoldedSame(h: Host, s: seq<Material>, t: seq<Material>)
    requires forall m :: m in s ==> m in t
    ensures FoldedLogical(h, s) <= FoldedLogical(h, t) && FoldedFiles(h, s) <= FoldedFiles(h, t)
  {
    forall i | 0 <= i < |s|
      ensures h.casefold(s[i].logicalName) in FoldedLogical(h, t) && h.casefold(s[i].fileName) in FoldedFiles(h, t)
    {
      assert s[i] in t;
    }
  }

  /** Unique names leave no ties between different bindings. */
  lemma {:induction false} UniqueHasNoTies(h: Host, s: seq<Material>)
    requires |FoldedLogical(h, s)| == |s|
    ensures DoTiesAgree(s)
    decreases |s|
  {
    hide FoldedLogical, FoldedFiles, DoTiesAgree;
    if s == [] {
      NothingTied(s);
    } else {
      var n := |s| - 1;
      var init := s[..n];
      assert s == init + [s[n]];
      FoldedAppend(h, init, s[n]);
      FoldedSize(h, init, 0);
      NoneFolded(h);
      assert init[..0] == [];
      UniqueHasNoTies(h, init);
      forall x | x in init
        ensures !IsTie(x, s[n])
      {
        var i :| 0 <= i < n && init[i] == x;
        FoldedAt(h, init, i);
      }
      OneMoreAgrees(init, s[n]);
    }
  }

  lemma NothingTied(s: seq<Material>)
    requires s == []
    ensures DoTiesAgree(s)
  {
  }

  lemma NoneFolded(h: Host)
    ensures FoldedLogical(h, []) == {}
  {
  }

  lemma FoldedAt(h: Host, s: seq<Material>, i: nat)
    requires i < |s|
    ensures h.casefold(s[i].logicalName) in FoldedLogical(h, s)
  {
  }

  lemma OneMoreAgrees(s: seq<Material>, m: Material)
    requires DoTiesAgree(s) && forall x :: x in s ==> !IsTie(x, m)
    ensures DoTiesAgree(s + [m])
  {
    forall x, y | x in s + [m] && y in s + [m] && IsTie(x, y)
      ensures x == y
    {
      assert x in s && y == m ==> !IsTie(x, m);
      assert y in s && x == m ==> !IsTie(y, m);
    }
  }

  /** Every order of the same bindings builds the same document exactly when bindings with the
      same logical name, SHA-256 and file name are equal. */
  lemma OrderDoesNotMatter(h: Host, s: Submission, policy: string, files: seq<Material>)
    ensures (forall others :: multiset(others) == multiset(files) ==>
               Manifest(h, s, policy, Sorted(others)) == Manifest(h, s, policy, Sorted(files)))
            <==> DoTiesAgree(files)
  {
    hide Manifest, DoTiesAgree;
    SortIgnoresOrder(files);
    forall others | multiset(others) == multiset(files)
      ensures Manifest(h, s, policy, Sorted(others)) == Manifest(h, s, policy, Sorted(files))
              <==> Sorted(others) == Sorted(files)
    {
      if Manifest(h, s, policy, Sorted(others)) == Manifest(h, s, policy, Sorted(files)) {
        ManifestInjective(h, s, policy, Sorted(others), Sorted(files));
      }
    }
  }

  lemma ManifestInjective(h: Host, s: Submission, policy: string, a: seq<Material>, b: seq<Material>)
    requires Manifest(h, s, policy, a) == Manifest(h, s, policy, b)
    ensures a == b
  {
    hide Manifest, MaterialsJson, TextsJson, FreezeDigest;
    ManifestReadsAs(h, s, policy, a);
    ManifestReadsAs(h, s, policy, b);
    MaterialsJsonInjective(a, b);
  }

  /** Agreement of builder and validator, over the bindings as they come in: the built
      document validates and comes back unchanged exactly when there is evidence and the
      bindings are sound and uniquely named; then any other order of the same bindings
      builds the same document. */
  lemma BuilderMeetsValidator(h: Host, s: Submission, policy: string, files: seq<Material>, others: seq<Material>)
    requires IsTextHost(h) && HasHexDigest(h) && IsSubmission(h, s) && IsDigest(policy) && files != []
    requires multiset(files) == multiset(others)
    ensures IsValid(h, Manifest(h, s, policy, Sorted(files)))
       <==> s.refs != [] && AreSound(h, files) && HasUniqueNames(h, files)
    ensures IsValid(h, Manifest(h, s, policy, Sorted(files))) ==>
      Manifest(h, s, policy, Sorted(others)) == Manifest(h, s, policy, Sorted(files))
  {
    hide Manifest, Sorted, IsValid, AreSound, IsSubmission, FoldedLogical, FoldedFiles;
    SortedKeeps(h, files);
    BuiltIsValid(h, s, policy, Sorted(files));
    if IsValid(h, Manifest(h, s, policy, Sorted(files))) {
      UniqueHasNoTies(h, files);
      AgreeingSortAlike(files, others);
    }
  }
}
