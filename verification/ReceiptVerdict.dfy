/** From the bound archive to a verdict, and what an accepted receipt proves. */
module ReceiptVerdict {
  import opened Json
  import opened GateReceipt

  // ---------------------------------------------------------------- the manifest loop

  method ReadFiles(h: Host, payloads: Payloads, root: string, files: seq<Json>)
    returns (bindings: Option<seq<Binding>>, covered: seq<Binding>, seen: set<string>)
    ensures bindings.Some? <==> AreBoundEntries(h, payloads, root, files) && ArePathsDistinct(Bindings(h, files))
    ensures bindings.Some? ==>
      bindings.value == Bindings(h, files) && covered == Covered(bindings.value) && seen == PathSet(bindings.value)
  {
    hide IsFileEntry, BindingOf, ArePathsDistinct, Covered, IsBound;
    var read: seq<Binding> := [];
    covered, seen := [], {};
    EmptyPaths();
    for k := 0 to |files|
      invariant AreBoundEntries(h, payloads, root, files[..k])
      invariant read == Bindings(h, files[..k]) && ArePathsDistinct(read)
      invariant covered == Covered(read) && seen == PathSet(read)
    {
      assert files[..k + 1] == files[..k] + [files[k]];
      ghost var whole := AreBoundEntries(h, payloads, root, files) && ArePathsDistinct(Bindings(h, files));
      if whole {
        PathsPrefix(h, files, k + 1);
      }
      if !IsBoundEntry(h, payloads, root, files[k]) {
        return None, [], {};
      }
      var b := BindingOf(h, files[k]);
      BindingsAppend(h, files[..k], files[k]);
      PathsAppend(read, b);
      if b.path in seen {
        return None, [], {};
      }
      read := read + [b];
      seen := seen + {b.path};
      if b.path != ATTESTATION_NAME {
        covered := covered + [b];
      }
    }
    assert files[..|files|] == files;
    return Some(read), covered, seen;
  }

  lemma EmptyPaths()
    ensures ArePathsDistinct([]) && Covered([]) == [] && PathSet([]) == {}
  {
  }

  lemma PathsPrefix(h: Host, files: seq<Json>, k: nat)
    requires forall i :: 0 <= i < |files| ==> IsFileEntry(h, files[i])
    requires ArePathsDistinct(Bindings(h, files)) && k <= |files|
    ensures ArePathsDistinct(Bindings(h, files[..k]))
  {
    assert Bindings(h, files[..k]) == Bindings(h, files)[..k];
  }

  method ValidateArtifactManifest(h: Host, payloads: Payloads, root: string, manifest: Json) returns (ok: bool)
    ensures ok <==> IsManifest(h, payloads, root, manifest)
  {
    hide IsManifestHeader, AreBoundEntries, ArePathsDistinct, BindingsDigest, Bindings, PathSet, Covered;
    if !IsManifestHeader(h, manifest) {
      return false;
    }
    HeaderShape(h, manifest);
    var bindings, covered, seen := ReadFiles(h, payloads, root, manifest.Get(Other("files")).items);
    if bindings.None? || BindingsDigest(h, covered) != manifest.Get(PAYLOAD_DIGEST).s {
      return false;
    }
    return RESULT_NAME in seen && ATTESTATION_NAME in seen;
  }

  lemma HeaderShape(h: Host, manifest: Json)
    requires IsManifestHeader(h, manifest)
    ensures manifest.Obj? && manifest.Get(Other("files")).Arr? && manifest.Get(PAYLOAD_DIGEST).Str?
  {
  }

  // ---------------------------------------------------------------- the gate result

  predicate IsStage(h: Host, v: Json) {
    v.Obj? && Text(h, v.Get(Other("name"))) != ""
  }

  function StageName(h: Host, v: Json): string
    requires v.Obj?
  {
    Text(h, v.Get(Other("name")))
  }

  function StageStatus(h: Host, t: Tools, v: Json): string
    requires v.Obj?
  {
    t.upper(Text(h, v.Get(Other("status"))))
  }

  /** Stage objects under different names. */
  predicate AreStages(h: Host, stages: seq<Json>) {
    && (forall i :: 0 <= i < |stages| ==> IsStage(h, stages[i]))
    && forall i, j :: 0 <= i < j < |stages| ==> StageName(h, stages[i]) != StageName(h, stages[j])
  }

  predicate HasStage(h: Host, t: Tools, stages: seq<Json>, name: string, status: string) {
    exists i :: 0 <= i < |stages| && stages[i].Obj? && StageName(h, stages[i]) == name
        && StageStatus(h, t, stages[i]) == status
  }

  predicate IsListed(h: Host, stages: seq<Json>, name: string) {
    exists i :: 0 <= i < |stages| && stages[i].Obj? && StageName(h, stages[i]) == name
  }

  predicate IsBlockedSomewhere(h: Host, t: Tools, stages: seq<Json>) {
    exists i :: 0 <= i < |stages| && stages[i].Obj? && StageStatus(h, t, stages[i]) == "BLOCKED"
  }

  function VerdictOf(h: Host, t: Tools, v: Json): string
    requires v.Obj?
  {
    t.upper(Text(h, v.Get(Other("verdict"))))
  }

  predicate IsGateResult(h: Host, t: Tools, v: Json, eventId: string) {
    && v.Obj?
    && v.Get(Other("artifact_profile")) == Str("ci_safe_summary_v1") && v.Get(Other("request_id")) == Str(eventId)
    && VerdictOf(h, t, v) in {"CLEAN", "BLOCKED"}
    && v.Get(Other("stages")).Arr?
    && var stages := v.Get(Other("stages")).items;
    && AreStages(h, stages)
    && (forall name :: name in REQUIRED_STAGES ==> IsListed(h, stages, name))
    && (VerdictOf(h, t, v) == "CLEAN" ==>
          forall name :: name in REQUIRED_STAGES ==> HasStage(h, t, stages, name, "CLEAN"))
    && (VerdictOf(h, t, v) == "BLOCKED" ==> IsBlockedSomewhere(h, t, stages))
  }

  /** The map the loop fills names each stage with its status. */
  predicate IsIndexOf(h: Host, t: Tools, index: map<string, string>, stages: seq<Json>) {
    && (forall i :: 0 <= i < |stages| ==> IsStage(h, stages[i]))
    && (forall i :: 0 <= i < |stages| ==>
          StageName(h, stages[i]) in index && index[StageName(h, stages[i])] == StageStatus(h, t, stages[i]))
    && (forall name :: name in index ==> IsListed(h, stages, name))
  }

  method ReadStages(h: Host, t: Tools, stages: seq<Json>) returns (index: Option<map<string, string>>)
    ensures index.Some? <==> AreStages(h, stages)
    ensures index.Some? ==> IsIndexOf(h, t, index.value, stages)
  {
    var byName: map<string, string> := map[];
    for k := 0 to |stages|
      invariant AreStages(h, stages[..k])
      invariant IsIndexOf(h, t, byName, stages[..k])
    {
      if !IsStage(h, stages[k]) {
        return None;
      }
      var name := StageName(h, stages[k]);
      if name in byName {
        assert IsListed(h, stages[..k], name);
        var i :| 0 <= i < k && stages[..k][i].Obj? && StageName(h, stages[..k][i]) == name;
        assert StageName(h, stages[i]) == StageName(h, stages[k]);
        return None;
      }
      ghost var before := byName;
      byName := byName[name := StageStatus(h, t, stages[k])];
      IndexAppend(h, t, before, stages, k);
    }
    assert stages[..|stages|] == stages;
    return Some(byName);
  }

  lemma IndexAppend(h: Host, t: Tools, index: map<string, string>, stages: seq<Json>, k: nat)
    requires k < |stages| && AreStages(h, stages[..k]) && IsIndexOf(h, t, index, stages[..k])
    requires IsStage(h, stages[k]) && StageName(h, stages[k]) !in index
    ensures AreStages(h, stages[..k + 1])
    ensures IsIndexOf(h, t, index[StageName(h, stages[k]) := StageStatus(h, t, stages[k])], stages[..k + 1])
  {
    hide StageStatus;
    var done, more := stages[..k], stages[..k + 1];
    var next := index[StageName(h, stages[k]) := StageStatus(h, t, stages[k])];
    assert forall i :: 0 <= i < k ==> more[i] == done[i];
    assert more[k] == stages[k];
    forall name | name in next
      ensures IsListed(h, more, name)
    {
      if name in index {
        assert IsListed(h, done, name);
        var i :| 0 <= i < |done| && done[i].Obj? && StageName(h, done[i]) == name;
        assert more[i] == done[i];
      } else {
        assert StageName(h, more[k]) == name;
      }
    }
  }

  /** Reading the index is reading the stages. */
  lemma IndexMeaning(h: Host, t: Tools, index: map<string, string>, stages: seq<Json>, name: string, status: string)
    requires IsIndexOf(h, t, index, stages)
    ensures name in index <==> IsListed(h, stages, name)
    ensures name in index && index[name] == status <==> HasStage(h, t, stages, name, status)
  {
    hide StageStatus;
    if name in index {
      assert IsListed(h, stages, name);
      var i :| 0 <= i < |stages| && stages[i].Obj? && StageName(h, stages[i]) == name;
      assert StageStatus(h, t, stages[i]) == index[name];
    }
  }

  lemma BlockedMeaning(h: Host, t: Tools, index: map<string, string>, stages: seq<Json>)
    requires IsIndexOf(h, t, index, stages)
    ensures (exists name :: name in index && index[name] == "BLOCKED") <==> IsBlockedSomewhere(h, t, stages)
  {
    if name :| name in index && index[name] == "BLOCKED" {
      IndexMeaning(h, t, index, stages, name, "BLOCKED");
    }
    if IsBlockedSomewhere(h, t, stages) {
      var i :| 0 <= i < |stages| && stages[i].Obj? && StageStatus(h, t, stages[i]) == "BLOCKED";
      assert index[StageName(h, stages[i])] == "BLOCKED";
    }
  }

  method ValidateGateResult(h: Host, t: Tools, v: Json, eventId: string) returns (verdict: Option<string>)
    ensures verdict.Some? <==> IsGateResult(h, t, v, eventId)
    ensures verdict.Some? ==> verdict.value == VerdictOf(h, t, v)
  {
    hide IsIndexOf, IsListed, HasStage, IsBlockedSomewhere, VerdictOf, AreStages;
    if !v.Obj? || v.Get(Other("artifact_profile")) != Str("ci_safe_summary_v1")
       || v.Get(Other("request_id")) != Str(eventId) || VerdictOf(h, t, v) !in {"CLEAN", "BLOCKED"}
       || !v.Get(Other("stages")).Arr? {
      return None;
    }
    var stages := v.Get(Other("stages")).items;
    var read := ReadStages(h, t, stages);
    if read.None? {
      return None;
    }
    var index := read.value;
    forall name | name in REQUIRED_STAGES
      ensures name in index <==> IsListed(h, stages, name)
      ensures name in index && index[name] == "CLEAN" <==> HasStage(h, t, stages, name, "CLEAN")
    {
      IndexMeaning(h, t, index, stages, name, "CLEAN");
    }
    BlockedMeaning(h, t, index, stages);
    if exists name :: name in REQUIRED_STAGES && name !in index {
      return None;
    }
    if VerdictOf(h, t, v) == "CLEAN" && exists name :: name in REQUIRED_STAGES && index[name] != "CLEAN" {
      return None;
    }
    if VerdictOf(h, t, v) == "BLOCKED" && !exists name :: name in index && index[name] == "BLOCKED" {
      return None;
    }
    return Some(VerdictOf(h, t, v));
  }
}
