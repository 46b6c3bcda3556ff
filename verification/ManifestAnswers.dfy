/** The documents the Manifest-S validator accepts are those a builder can write. */
module ManifestAnswers {
  import opened Json
  import opened ManifestBuilder
  import opened ManifestS

  /** Written from a submission with evidence, under a policy digest, over sound and uniquely
      named files in any order. */
  ghost predicate IsWritten(h: Host, p: Json, s: Submission, policy: string, files: seq<Material>) {
    && IsSubmission(h, s) && s.refs != [] && IsDigest(policy)
    && files != [] && AreSound(h, files) && HasUniqueNames(h, files)
    && p == Manifest(h, s, policy, files)
  }

  /** The submission that a document speaks of. */
  function SubmissionOf(p: Json): Submission
    requires p.Obj? && p.Get(EventId).Str? && p.Get(RoundId).Num? && p.Get(TaskName).Str? && p.Get(ModuleName).Str?
    requires p.Get(PolicyProfile).Str? && p.Get(EffectiveChecks).Arr? && p.Get(EvidenceRefs).Arr?
  {
    Submission(p.Get(EventId).s, p.Get(RoundId).n, p.Get(TaskName).s, p.Get(ModuleName).s, p.Get(PolicyProfile).s,
               TextsOf(p.Get(EffectiveChecks).items), TextsOf(p.Get(EvidenceRefs).items))
  }

  function TextsOf(items: seq<Json>): (r: seq<string>)
    ensures |r| == |items|
  {
    seq(|items|, i requires 0 <= i < |items| => if items[i].Str? then items[i].s else "")
  }

  /** The validator accepts a document exactly when it could have been built. */
  lemma ValidIsWritten(h: Host, p: Json)
    requires IsTextHost(h) && HasHexDigest(h) && forall x :: h.strip(h.strip(x)) == h.strip(x)
    ensures IsValid(h, p) <==> exists s, policy, files :: IsWritten(h, p, s, policy, files)
  {
    hide IsValid, Manifest, IsSubmission, AreSound, HasUniqueNames;
    if IsValid(h, p) {
      ValidShape(h, p);
      var policy := p.Get(PolicyDigest).s;
      ValidSubmission(h, p);
      ValidMaterials(h, p);
      WrittenAgain(h, p);
      assert IsWritten(h, p, SubmissionOf(p), policy, MaterialsOf(h, p.Get(Artifacts).items));
    }
    forall s, policy, files | IsWritten(h, p, s, policy, files)
      ensures IsValid(h, p)
    {
      BuiltIsValid(h, s, policy, files);
    }
  }

  /** What a valid document has in its fields, trimmed and in lower case already. */
  lemma ValidShape(h: Host, p: Json)
    requires IsValid(h, p)
    ensures p.Obj? && p.Get(EventId).Str? && p.Get(RoundId).Num? && p.Get(TaskName).Str? && p.Get(ModuleName).Str?
    ensures p.Get(PolicyProfile).Str? && p.Get(EffectiveChecks).Arr? && p.Get(EvidenceRefs).Arr?
    ensures p.Get(PolicyDigest).Str? && IsDigest(p.Get(PolicyDigest).s)
    ensures p.Get(Artifacts).Arr? && AllMaterials(h, p.Get(Artifacts).items)
  {
    hide IsSingle, IsHex, IsEventId, HasMaterial, Document, SortedTexts, LinesOf, MaterialsJson, MaterialsOf;
    hide TextsJson, FreezeDigest, HasUniqueNames;
    NormalizedFields(h, p);
  }

  lemma ValidSubmission(h: Host, p: Json)
    requires IsValid(h, p) && IsTextHost(h) && forall x :: h.strip(h.strip(x)) == h.strip(x)
    requires p.Obj? && p.Get(EventId).Str? && p.Get(RoundId).Num? && p.Get(TaskName).Str? && p.Get(ModuleName).Str?
    requires p.Get(PolicyProfile).Str? && p.Get(EffectiveChecks).Arr? && p.Get(EvidenceRefs).Arr?
    ensures IsSubmission(h, SubmissionOf(p)) && SubmissionOf(p).refs != []
    ensures p.Get(EffectiveChecks) == TextsJson(SubmissionOf(p).checks)
    ensures p.Get(EvidenceRefs) == TextsJson(SubmissionOf(p).refs)
  {
    hide IsSingle, IsHex, IsEventId, HasMaterial, Document, SortedTexts, MaterialsJson, MaterialsOf, IsModule;
    hide FreezeDigest, HasUniqueNames, LinesOf, TextsJson, AreMaterialItems, AreLines, IsDigest;
    NormalizedFields(h, p);
    ModuleIsPlain(h, p.Get(ModuleName).s);
    ChecksKept(h, p.Get(EffectiveChecks).items);
    RefsKept(h, p.Get(EvidenceRefs).items);
  }

  /** Lines that reading leaves alone. */
  lemma ChecksKept(h: Host, items: seq<Json>)
    requires HasLines(h, Arr(items)) && TextsJson(LinesOf(h, items)) == Arr(items)
    ensures TextsOf(items) != [] && AreLines(h, TextsOf(items)) && TextsJson(TextsOf(items)) == Arr(items)
  {
    hide IsSingle;
    var read := LinesOf(h, items);
    forall i | 0 <= i < |items|
      ensures items[i] == Str(read[i]) && IsLine(h, TextsOf(items)[i])
    {
      assert TextsJson(read).items[i] == items[i] && HasLine(h, items[i]);
    }
    assert TextsOf(items) == read;
  }

  lemma RefsKept(h: Host, items: seq<Json>)
    requires HasLines(h, Arr(items)) && TextsJson(SortedTexts(LinesOf(h, items))) == Arr(items)
    requires forall x :: h.strip(h.strip(x)) == h.strip(x)
    ensures TextsOf(items) != [] && AreLines(h, TextsOf(items)) && IsIncreasing(TextsOf(items))
    ensures TextsJson(TextsOf(items)) == Arr(items)
  {
    hide IsSingle, SortedTexts, IsIncreasing;
    var read := LinesOf(h, items);
    var sorted := SortedTexts(read);
    SortedIsIncreasing(read);
    SortedHolds(read);
    forall i | 0 <= i < |items|
      ensures items[i] == Str(sorted[i]) && IsLine(h, TextsOf(items)[i])
    {
      assert TextsJson(sorted).items[i] == items[i] && sorted[i] in read;
      var j :| 0 <= j < |read| && read[j] == sorted[i];
      assert HasLine(h, items[j]) && read[j] == h.strip(items[j].s);
    }
    assert TextsOf(items) == sorted;
  }

  /** Sorting adds no text. */
  lemma {:induction false} SortedHolds(s: seq<string>)
    ensures forall x :: x in SortedTexts(s) ==> x in s
    decreases |s|
  {
    if s != [] {
      var n := |s| - 1;
      SortedHolds(s[..n]);
      SortedIsIncreasing(s[..n]);
      InsertIncreasing(SortedTexts(s[..n]), s[n]);
    }
  }

  lemma ValidMaterials(h: Host, p: Json)
    requires IsValid(h, p) && IsTextHost(h)
    requires p.Obj? && p.Get(Artifacts).Arr? && AllMaterials(h, p.Get(Artifacts).items)
    ensures var files := MaterialsOf(h, p.Get(Artifacts).items);
      files != [] && AreSound(h, files) && HasUniqueNames(h, files) && p.Get(Artifacts) == MaterialsJson(files)
  {
    hide IsFrameReadable, HasMaterial, MaterialOf, Document, AreSound, HasUniqueNames;
    NormalizedFields(h, p);
    MaterialsRead(h, MaterialsOf(h, p.Get(Artifacts).items));
  }

  /** Written out again, a valid document is what it was. */
  lemma WrittenAgain(h: Host, p: Json)
    requires IsValid(h, p)
    requires p.Obj? && p.Get(EventId).Str? && p.Get(RoundId).Num? && p.Get(TaskName).Str? && p.Get(ModuleName).Str?
    requires p.Get(PolicyProfile).Str? && p.Get(EffectiveChecks).Arr? && p.Get(EvidenceRefs).Arr?
    requires p.Get(PolicyDigest).Str? && p.Get(Artifacts).Arr? && AllMaterials(h, p.Get(Artifacts).items)
    requires p.Get(EffectiveChecks) == TextsJson(SubmissionOf(p).checks)
    requires p.Get(EvidenceRefs) == TextsJson(SubmissionOf(p).refs)
    requires p.Get(Artifacts) == MaterialsJson(MaterialsOf(h, p.Get(Artifacts).items))
    ensures p == Manifest(h, SubmissionOf(p), p.Get(PolicyDigest).s, MaterialsOf(h, p.Get(Artifacts).items))
  {
    hide IsSingle, IsHex, IsEventId, HasMaterial, Document, SortedTexts, MaterialsJson, MaterialsOf, IsModule;
    hide HasUniqueNames, LinesOf, TextsJson, AreMaterialItems, IsDigest, TextsOf, HasLines;
    NormalizedFields(h, p);
    var body := ManifestBody(h, SubmissionOf(p), p.Get(PolicyDigest).s, MaterialsOf(h, p.Get(Artifacts).items));
    BodyOf(p, body);
    assert p.Get(ManifestSDigest) == Str("sha256:" + h.digest(Obj(body)));
    assert p.fields == body[ManifestSDigest := p.Get(ManifestSDigest)];
  }

  lemma BodyOf(p: Json, body: map<Key, Json>)
    requires p.Obj? && p.fields.Keys == Fields() && body.Keys == Fields() - {ManifestSDigest}
    requires forall k :: k in body ==> body[k] == p.Get(k)
    ensures p.fields - {ManifestSDigest} == body
  {
  }
}
