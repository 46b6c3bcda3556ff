/** Manifest-S: the builder, the validator, and the gate's own checks on import. */
module ManifestS {
  import opened Json
  import opened TextOrder

  datatype Material = Material(
    logicalName: string, fileName: string, size: int, sha1: string, sha256: string, sourceRef: string)

  /** A submission as its own validation leaves it. */
  datatype Submission = Submission(
    eventId: string, round: int, task: string, moduleName: string, policyProfile: string,
    checks: seq<string>, refs: seq<string>)

  const SCHEMA: string := "ProductMaterialManifestS/v1"

  function Fields(): set<Key> {
    {SchemaName, EventId, RoundId, TaskName, ModuleName, PolicyProfile, PolicyDigest, EffectiveChecks, Artifacts,
     EvidenceRefs, ManifestSDigest}
  }

  // ---------------------------------------------------------------- reading single values

  /** One line of at most 4096 characters. */
  predicate IsSingle(s: string) {
    |s| <= 4096 && forall i :: 0 <= i < |s| ==> s[i] >= ' ' && s[i] != '\U{7F}'
  }

  predicate HasLine(h: Host, v: Json) {
    v.Str? && h.strip(v.s) != "" && IsSingle(h.strip(v.s))
  }

  predicate IsDigest(s: string) {
    |s| == 71 && s[..7] == "sha256:" && IsHex(s[7..], 64)
  }

  predicate HasDigest(h: Host, v: Json) {
    HasLine(h, v) && IsDigest(h.lower(h.strip(v.s)))
  }

  predicate IsModule(s: string) {
    s in {"kernel", "client", "server"}
  }

  predicate HasLines(h: Host, v: Json) {
    v.Arr? && v.items != [] && forall i :: 0 <= i < |v.items| ==> HasLine(h, v.items[i])
  }

  function LinesOf(h: Host, items: seq<Json>): (r: seq<string>)
    requires forall i :: 0 <= i < |items| ==> items[i].Str?
    ensures |r| == |items|
  {
    seq(|items|, i requires 0 <= i < |items| => h.strip(items[i].s))
  }

  function TextsJson(s: seq<string>): (r: Json)
    ensures r.Arr? && |r.items| == |s|
  {
    Arr(seq(|s|, i requires 0 <= i < |s| => Str(s[i])))
  }

  /** `sorted(dict.fromkeys(...))` */
  function InsertText(s: seq<string>, x: string): seq<string> {
    if s == [] then [x]
    else if x == s[0] then s
    else if Less(x, s[0]) then [x] + s
    else [s[0]] + InsertText(s[1..], x)
  }

  function SortedTexts(s: seq<string>): seq<string>
    decreases |s|
  {
    if s == [] then [] else InsertText(SortedTexts(s[..|s| - 1]), s[|s| - 1])
  }

  predicate IsIncreasing(s: seq<string>) {
    forall i, j :: 0 <= i < j < |s| ==> Less(s[i], s[j])
  }

  lemma {:induction false} InsertLast(s: seq<string>, x: string)
    requires forall i :: 0 <= i < |s| ==> Less(s[i], x)
    ensures InsertText(s, x) == s + [x]
  {
    if s != [] {
      LessTotal(s[0], x);
      InsertLast(s[1..], x);
    }
  }

  lemma {:induction false} IncreasingIsSorted(s: seq<string>)
    requires IsIncreasing(s)
    ensures SortedTexts(s) == s
    decreases |s|
  {
    if s != [] {
      var n := |s| - 1;
      IncreasingIsSorted(s[..n]);
      InsertLast(s[..n], s[n]);
    }
  }

  lemma {:induction false} InsertIncreasing(s: seq<string>, x: string)
    requires IsIncreasing(s)
    ensures IsIncreasing(InsertText(s, x))
    ensures forall t :: t in InsertText(s, x) <==> t in s || t == x
  {
    if s != [] && x != s[0] {
      LessTotal(x, s[0]);
      if Less(x, s[0]) {
        forall j | 0 <= j < |s|
          ensures Less(x, s[j])
        {
          if j > 0 {
            LessTransitive(x, s[0], s[j]);
          }
        }
      } else {
        InsertIncreasing(s[1..], x);
        var rest := InsertText(s[1..], x);
        forall j | 0 <= j < |rest|
          ensures Less(s[0], rest[j])
        {
          assert rest[j] in s[1..] || rest[j] == x;
        }
      }
    }
  }

  lemma {:induction false} SortedIsIncreasing(s: seq<string>)
    ensures IsIncreasing(SortedTexts(s))
    decreases |s|
  {
    if s != [] {
      SortedIsIncreasing(s[..|s| - 1]);
      InsertIncreasing(SortedTexts(s[..|s| - 1]), s[|s| - 1]);
    }
  }

  // ---------------------------------------------------------------- materials

  function MaterialJson(m: Material): Json {
    Obj(map[LogicalName := Str(m.logicalName), FileName := Str(m.fileName), Size := Num(m.size),
            Sha1 := Str(m.sha1), Sha256 := Str(m.sha256), SourceRef := Str(m.sourceRef)])
  }

  function MaterialsJson(s: seq<Material>): Json {
    Arr(seq(|s|, i requires 0 <= i < |s| => MaterialJson(s[i])))
  }

  function HexText(h: Host, v: Json): string {
    h.lower(h.strip(Text(h, v)))
  }

  /** An artifact of the document that the validator accepts, before it asks for the
      canonical form. */
  predicate HasMaterial(h: Host, v: Json) {
    && v.Obj? && v.fields.Keys == {LogicalName, FileName, Size, Sha1, Sha256, SourceRef}
    && IsPortableName(h, Text(h, v.Get(LogicalName))) && IsPortableName(h, Text(h, v.Get(FileName)))
    && v.Get(Size).Num? && v.Get(Size).n >= 0
    && IsHex(HexText(h, v.Get(Sha1)), 40) && IsHex(HexText(h, v.Get(Sha256)), 64)
    && HasLine(h, v.Get(SourceRef))
  }

  function MaterialOf(h: Host, v: Json): Material
    requires HasMaterial(h, v)
  {
    Material(Text(h, v.Get(LogicalName)), Text(h, v.Get(FileName)), v.Get(Size).n,
             HexText(h, v.Get(Sha1)), HexText(h, v.Get(Sha256)), h.strip(v.Get(SourceRef).s))
  }

  predicate AllMaterials(h: Host, items: seq<Json>) {
    forall i :: 0 <= i < |items| ==> HasMaterial(h, items[i])
  }

  function MaterialsOf(h: Host, items: seq<Json>): (r: seq<Material>)
    requires AllMaterials(h, items)
    ensures |r| == |items|
  {
    seq(|items|, i requires 0 <= i < |items| => MaterialOf(h, items[i]))
  }

  function FoldedLogical(h: Host, s: seq<Material>): set<string> {
    set i | 0 <= i < |s| :: h.casefold(s[i].logicalName)
  }

  function FoldedFiles(h: Host, s: seq<Material>): set<string> {
    set i | 0 <= i < |s| :: h.casefold(s[i].fileName)
  }

  /** No two logical names, and no two file names, are the same after case folding. */
  predicate HasUniqueNames(h: Host, s: seq<Material>) {
    |FoldedLogical(h, s)| == |s| && |FoldedFiles(h, s)| == |s|
  }

  lemma FoldedAppend(h: Host, s: seq<Material>, m: Material)
    ensures FoldedLogical(h, s + [m]) == FoldedLogical(h, s) + {h.casefold(m.logicalName)}
    ensures FoldedFiles(h, s + [m]) == FoldedFiles(h, s) + {h.casefold(m.fileName)}
  {
    var all := s + [m];
    assert all[|s|] == m && forall i :: 0 <= i < |s| ==> all[i] == s[i];
  }

  lemma {:induction false} FoldedSize(h: Host, s: seq<Material>, k: nat)
    requires k <= |s|
    ensures |FoldedLogical(h, s)| <= |FoldedLogical(h, s[..k])| + (|s| - k)
    ensures |FoldedFiles(h, s)| <= |FoldedFiles(h, s[..k])| + (|s| - k)
    decreases |s|
  {
    if k < |s| {
      var n := |s| - 1;
      FoldedSize(h, s[..n], k);
      assert s[..n][..k] == s[..k] && s == s[..n] + [s[n]];
      FoldedAppend(h, s[..n], s[n]);
    } else {
      assert s[..k] == s;
    }
  }

  // ---------------------------------------------------------------- the validator

  predicate AreMaterialItems(h: Host, v: Json) {
    && v.Arr? && v.items != []
    && AllMaterials(h, v.items)
    && HasUniqueNames(h, MaterialsOf(h, v.items))
  }

  /** Everything the validator asks of the fields around the artifacts. */
  predicate IsFrameReadable(h: Host, p: Json) {
    && p.Obj? && p.fields.Keys == Fields()
    && HasLine(h, p.Get(SchemaName)) && h.strip(p.Get(SchemaName).s) == SCHEMA
    && HasLine(h, p.Get(EventId)) && IsEventId(h.strip(p.Get(EventId).s))
    && p.Get(RoundId).Num? && p.Get(RoundId).n > 0
    && HasLine(h, p.Get(TaskName))
    && HasLine(h, p.Get(ModuleName)) && IsModule(h.lower(h.strip(p.Get(ModuleName).s)))
    && HasLine(h, p.Get(PolicyProfile)) && HasDigest(h, p.Get(PolicyDigest))
    && HasLines(h, p.Get(EffectiveChecks)) && HasLines(h, p.Get(EvidenceRefs))
    && HasDigest(h, p.Get(ManifestSDigest)) && h.lower(h.strip(p.Get(ManifestSDigest).s)) == FreezeDigest(h, p)
  }

  /** Everything the validator asks before it compares with the canonical form. */
  predicate IsReadable(h: Host, p: Json) {
    IsFrameReadable(h, p) && AreMaterialItems(h, p.Get(Artifacts))
  }

  function FreezeDigest(h: Host, p: Json): string
    requires p.Obj?
  {
    "sha256:" + h.digest(Obj(p.fields - {ManifestSDigest}))
  }

  function IdentityPart(schema: Json, event: Json, round: Json, task: Json, moduleName: Json): map<Key, Json> {
    map[SchemaName := schema, EventId := event, RoundId := round, TaskName := task, ModuleName := moduleName]
  }

  function ContentPart(profile: Json, policy: Json, checks: Json, artifacts: Json, refs: Json,
                       claimed: Json): map<Key, Json> {
    map[PolicyProfile := profile, PolicyDigest := policy, EffectiveChecks := checks, Artifacts := artifacts,
        EvidenceRefs := refs, ManifestSDigest := claimed]
  }

  /** A document of the eleven fields. */
  function Document(schema: Json, event: Json, round: Json, task: Json, moduleName: Json, profile: Json, policy: Json,
                    checks: Json, artifacts: Json, refs: Json, claimed: Json): Json {
    Obj(IdentityPart(schema, event, round, task, moduleName)
        + ContentPart(profile, policy, checks, artifacts, refs, claimed))
  }

  /** The document in canonical form, around artifacts that were read already. */
  function Framed(h: Host, p: Json, materials: seq<Material>): Json
    requires IsFrameReadable(h, p)
  {
    Document(Str(SCHEMA), Str(h.strip(p.Get(EventId).s)), p.Get(RoundId), Str(h.strip(p.Get(TaskName).s)),
             Str(h.lower(h.strip(p.Get(ModuleName).s))), Str(h.strip(p.Get(PolicyProfile).s)),
             Str(h.lower(h.strip(p.Get(PolicyDigest).s))), TextsJson(LinesOf(h, p.Get(EffectiveChecks).items)),
             MaterialsJson(materials),
             TextsJson(SortedTexts(LinesOf(h, p.Get(EvidenceRefs).items))),
             Str(h.lower(h.strip(p.Get(ManifestSDigest).s))))
  }

  /** The document in canonical form. */
  function Normalized(h: Host, p: Json): Json
    requires IsReadable(h, p)
  {
    Framed(h, p, MaterialsOf(h, p.Get(Artifacts).items))
  }

  predicate IsValid(h: Host, p: Json) {
    IsReadable(h, p) && Normalized(h, p) == p
  }

  lemma MaterialsAppend(h: Host, items: seq<Json>, v: Json)
    requires AllMaterials(h, items) && HasMaterial(h, v)
    ensures AllMaterials(h, items + [v])
    ensures MaterialsOf(h, items + [v]) == MaterialsOf(h, items) + [MaterialOf(h, v)]
  {
    hide HasMaterial, MaterialOf;
  }

  /** A prefix whose names repeat spoils the whole list. */
  lemma PrefixSpoils(h: Host, items: seq<Json>, k: nat)
    requires k <= |items| && AllMaterials(h, items[..k])
    requires !HasUniqueNames(h, MaterialsOf(h, items[..k]))
    ensures !AreMaterialItems(h, Arr(items))
  {
    hide HasMaterial, MaterialOf;
    if AllMaterials(h, items) {
      assert MaterialsOf(h, items)[..k] == MaterialsOf(h, items[..k]);
      FoldedSize(h, MaterialsOf(h, items), k);
      FoldedSize(h, MaterialsOf(h, items[..k]), 0);
      assert FoldedLogical(h, []) == {} && FoldedFiles(h, []) == {};
      assert MaterialsOf(h, items[..k])[..0] == [];
    }
  }

  /** The artifact loop: normalised entries, and the two name sets that reject repeats. */
  method ReadMaterials(h: Host, items: seq<Json>) returns (materials: Option<seq<Material>>)
    requires items != []
    ensures materials.Some? <==> AreMaterialItems(h, Arr(items))
    ensures materials.Some? ==> materials.value == MaterialsOf(h, items)
  {
    hide HasMaterial, MaterialOf, MaterialsOf, FoldedLogical, FoldedFiles, AllMaterials;
    var read: seq<Material> := [];
    var logical: set<string>, files: set<string> := {}, {};
    NoMaterials(h);
    for k := 0 to |items|
      invariant AllMaterials(h, items[..k]) && read == MaterialsOf(h, items[..k])
      invariant logical == FoldedLogical(h, read) && files == FoldedFiles(h, read)
      invariant |logical| == k && |files| == k && |read| == k
    {
      assert items[..k + 1] == items[..k] + [items[k]];
      if !HasMaterial(h, items[k]) {
        BadItemSpoils(h, items, k);
        return None;
      }
      var m := MaterialOf(h, items[k]);
      MaterialsAppend(h, items[..k], items[k]);
      FoldedAppend(h, read, m);
      if h.casefold(m.logicalName) in logical || h.casefold(m.fileName) in files {
        PrefixSpoils(h, items, k + 1);
        return None;
      }
      logical := logical + {h.casefold(m.logicalName)};
      files := files + {h.casefold(m.fileName)};
      read := read + [m];
    }
    assert items[..|items|] == items;
    AllAreItems(h, items);
    return Some(read);
  }

  lemma BadItemSpoils(h: Host, items: seq<Json>, k: nat)
    requires k < |items| && !HasMaterial(h, items[k])
    ensures !AreMaterialItems(h, Arr(items))
  {
  }

  lemma NoMaterials(h: Host)
    ensures AllMaterials(h, []) && MaterialsOf(h, []) == [] && FoldedLogical(h, []) == {} && FoldedFiles(h, []) == {}
  {
  }

  lemma AllAreItems(h: Host, items: seq<Json>)
    requires items != [] && AllMaterials(h, items)
    ensures AreMaterialItems(h, Arr(items)) <==> HasUniqueNames(h, MaterialsOf(h, items))
  {
  }

  /** `str(value)` */
  function Shown(h: Host, v: Json): string {
    if v.Str? then v.s else h.repr(v)
  }

  const BOUND_FIELDS: seq<Key> := [EventId, RoundId, TaskName, ModuleName, PolicyDigest, ManifestSDigest]

  predicate DoesBind(h: Host, p: Json, expected: map<Key, Json>, k: Key)
    requires p.Obj?
  {
    k in expected ==> Shown(h, p.Get(k)) == Shown(h, expected[k])
  }

  /** The document says, as text, what the caller expects of it, in the fields that may be bound. */
  predicate IsAsExpected(h: Host, p: Json, expected: Option<map<Key, Json>>)
    requires p.Obj?
  {
    expected.Some? ==> forall i :: 0 <= i < |BOUND_FIELDS| ==> DoesBind(h, p, expected.value, BOUND_FIELDS[i])
  }

  /** Accepts exactly the documents that are valid as they stand and as expected, and returns them. */
  method ValidateManifestS(h: Host, p: Json, expected: Option<map<Key, Json>>) returns (manifest: Option<Json>)
    ensures manifest.Some? <==> IsValid(h, p) && IsAsExpected(h, p, expected)
    ensures manifest.Some? ==> manifest.value == p
  {
    hide IsFrameReadable, HasUniqueNames, HasMaterial, MaterialOf, Framed, AllMaterials, DoesBind;
    if !IsFrameReadable(h, p) {
      return None;
    }
    FrameIsObject(h, p);
    if !p.Get(Artifacts).Arr? || p.Get(Artifacts).items == [] {
      return None;
    }
    var materials := ReadMaterials(h, p.Get(Artifacts).items);
    if materials.None? {
      return None;
    }
    var normalized := Framed(h, p, materials.value);
    if normalized != p {
      return None;
    }
    if expected.Some? {
      for i := 0 to |BOUND_FIELDS|
        invariant forall j :: 0 <= j < i ==> DoesBind(h, p, expected.value, BOUND_FIELDS[j])
      {
        if !DoesBind(h, normalized, expected.value, BOUND_FIELDS[i]) {
          return None;
        }
      }
    }
    return Some(normalized);
  }

  lemma FrameIsObject(h: Host, p: Json)
    requires IsFrameReadable(h, p)
    ensures p.Obj?
  {
  }
}
