/** The verifier of a GitLab gate receipt: from a locator, a handoff, three API answers and
    an artifact archive to one verdict. */
module GateReceipt {
  import opened Json

  /** `parse`: JSON text of a file. `upper`: upper-case form. `normalize`: the portable form
      of an archive path, absent when the path is unsafe. */
  datatype Tools = Tools(
    parse: Bytes -> Option<Json>, upper: string -> string, normalize: string -> Option<string>)

  datatype ZipEntry = ZipEntry(name: string, isDir: bool, size: int, data: Bytes)

  type Payloads = map<string, Bytes>

  const MAX_JSON: int := 1024 * 1024
  const MAX_ARTIFACT: int := 32 * 1024 * 1024
  const MAX_FILES: int := 512

  const MANIFEST_NAME: string := "artifact-manifest.json"
  const RESULT_NAME: string := "gate-result.json"
  const ATTESTATION_NAME: string := "runtime-attestation.json"

  const REQUIRED_STAGES: seq<string> :=
    ["source_retrieval", "provenance_validation", "nonempty_validation", "pre_release_binding", "audit_record"]

  // ---------------------------------------------------------------- the archive

  function TotalSize(entries: seq<ZipEntry>): int
    decreases |entries|
  {
    if entries == [] then 0
    else TotalSize(entries[..|entries| - 1]) + (if entries[|entries| - 1].isDir then 0 else entries[|entries| - 1].size)
  }

  predicate IsMember(t: Tools, e: ZipEntry) {
    t.normalize(e.name).Some? && (!e.isDir ==> 1 <= e.size <= MAX_JSON && |e.data| == e.size)
  }

  predicate AreAllMembers(t: Tools, entries: seq<ZipEntry>) {
    forall i :: 0 <= i < |entries| ==> IsMember(t, entries[i])
  }

  predicate IsSameFile(t: Tools, a: ZipEntry, b: ZipEntry) {
    !a.isDir && !b.isDir && t.normalize(a.name) == t.normalize(b.name)
  }

  /** Safe, non-empty members of bounded size under different names. */
  predicate AreMembers(t: Tools, entries: seq<ZipEntry>) {
    && AreAllMembers(t, entries)
    && (forall i, j :: 0 <= i < j < |entries| ==> !IsSameFile(t, entries[i], entries[j]))
    && TotalSize(entries) <= MAX_ARTIFACT
  }

  function PayloadsOf(t: Tools, entries: seq<ZipEntry>): Payloads
    requires AreAllMembers(t, entries)
    decreases |entries|
  {
    if entries == [] then map[]
    else
      var before, e := PayloadsOf(t, entries[..|entries| - 1]), entries[|entries| - 1];
      assert IsMember(t, e);
      if e.isDir then before else before[t.normalize(e.name).value := e.data]
  }

  lemma {:induction false} SizesGrow(t: Tools, entries: seq<ZipEntry>, k: nat)
    requires k <= |entries| && AreAllMembers(t, entries)
    ensures TotalSize(entries[..k]) <= TotalSize(entries)
    decreases |entries|
  {
    if k < |entries| {
      var n := |entries| - 1;
      SizesGrow(t, entries[..n], k);
      assert entries[..n][..k] == entries[..k];
      assert IsMember(t, entries[n]);
    } else {
      assert entries[..k] == entries;
    }
  }

  /** A path is among the payloads exactly when some file member has it. */
  lemma {:induction false} PayloadKeys(t: Tools, entries: seq<ZipEntry>, path: string)
    requires AreAllMembers(t, entries)
    ensures path in PayloadsOf(t, entries) <==>
            exists i :: 0 <= i < |entries| && !entries[i].isDir && t.normalize(entries[i].name) == Some(path)
    decreases |entries|
  {
    if entries != [] {
      var n := |entries| - 1;
      PayloadKeys(t, entries[..n], path);
      assert entries[n] == entries[|entries| - 1];
      if path in PayloadsOf(t, entries[..n]) {
        var i :| 0 <= i < n && !entries[..n][i].isDir && t.normalize(entries[..n][i].name) == Some(path);
        assert entries[i] == entries[..n][i];
      }
      forall i | 0 <= i < |entries| && !entries[i].isDir && t.normalize(entries[i].name) == Some(path)
        ensures path in PayloadsOf(t, entries)
      {
        if i < n {
          assert entries[..n][i] == entries[i];
        }
      }
    }
  }

  /** One more member. */
  lemma MembersAppend(t: Tools, done: seq<ZipEntry>, e: ZipEntry)
    requires AreMembers(t, done)
    ensures TotalSize(done) <= MAX_ARTIFACT
    ensures TotalSize(done + [e]) == TotalSize(done) + if e.isDir then 0 else e.size
    ensures AreMembers(t, done + [e]) <==>
      && IsMember(t, e) && TotalSize(done + [e]) <= MAX_ARTIFACT
      && (e.isDir || t.normalize(e.name).value !in PayloadsOf(t, done))
  {
    var all := done + [e];
    assert all[..|done|] == done && all[|done|] == e;
    if IsMember(t, e) {
      PayloadKeys(t, done, t.normalize(e.name).value);
      forall i | 0 <= i < |done|
        ensures all[i] == done[i]
      {
      }
    }
    if AreMembers(t, all) {
      assert IsMember(t, all[|done|]);
      forall i | 0 <= i < |done|
        ensures !IsSameFile(t, done[i], e)
      {
        assert !IsSameFile(t, all[i], all[|done|]);
      }
    }
  }

  lemma MembersPrefix(t: Tools, entries: seq<ZipEntry>, k: nat)
    requires AreMembers(t, entries) && k <= |entries|
    ensures AreMembers(t, entries[..k])
  {
    SizesGrow(t, entries, k);
    forall i, j | 0 <= i < j < k
      ensures !IsSameFile(t, entries[..k][i], entries[..k][j])
    {
      assert !IsSameFile(t, entries[i], entries[j]);
    }
  }

  lemma PayloadsAppend(t: Tools, done: seq<ZipEntry>, e: ZipEntry)
    requires AreAllMembers(t, done) && AreAllMembers(t, done + [e]) && IsMember(t, e)
    ensures PayloadsOf(t, done + [e])
         == if e.isDir then PayloadsOf(t, done) else PayloadsOf(t, done)[t.normalize(e.name).value := e.data]
  {
    assert (done + [e])[..|done|] == done;
  }

  lemma EmptyMembers(t: Tools)
    ensures AreMembers(t, []) && AreAllMembers(t, []) && TotalSize([]) == 0 && PayloadsOf(t, []) == map[]
  {
  }

  lemma MembersAreAll(t: Tools, entries: seq<ZipEntry>)
    requires AreMembers(t, entries)
    ensures AreAllMembers(t, entries)
  {
  }

  /** One turn of the loop over the archive: the payloads and the running total with this
      member too, or nothing when it is refused. */
  method ReadMember(t: Tools, ghost done: seq<ZipEntry>, read: Payloads, total: int, e: ZipEntry)
    returns (next: Option<(Payloads, int)>)
    requires AreMembers(t, done) && AreAllMembers(t, done)
    requires total == TotalSize(done) && read == PayloadsOf(t, done)
    ensures next.Some? <==> AreMembers(t, done + [e])
    ensures next.Some? ==> AreAllMembers(t, done + [e])
    ensures next.Some? ==> next.value == (PayloadsOf(t, done + [e]), TotalSize(done + [e]))
  {
    hide AreMembers, IsSameFile, AreAllMembers, PayloadsOf, TotalSize;
    MembersAppend(t, done, e);
    if t.normalize(e.name).None? {
      return None;
    }
    if e.isDir {
      MembersAreAll(t, done + [e]);
      PayloadsAppend(t, done, e);
      return Some((read, total));
    }
    if e.size < 1 || e.size > MAX_JSON || total + e.size > MAX_ARTIFACT {
      return None;
    }
    if t.normalize(e.name).value in read || |e.data| != e.size {
      return None;
    }
    MembersAreAll(t, done + [e]);
    PayloadsAppend(t, done, e);
    return Some((read[t.normalize(e.name).value := e.data], total + e.size));
  }

  method ArchivePayloads(t: Tools, entries: seq<ZipEntry>) returns (payloads: Option<Payloads>)
    ensures payloads.Some? <==> 1 <= |entries| <= MAX_FILES && AreMembers(t, entries)
    ensures payloads.Some? ==> AreAllMembers(t, entries) && payloads.value == PayloadsOf(t, entries)
  {
    hide AreMembers, AreAllMembers, PayloadsOf, TotalSize;
    if entries == [] || |entries| > MAX_FILES {
      return None;
    }
    EmptyMembers(t);
    var read: Payloads := map[];
    var total := 0;
    for k := 0 to |entries|
      invariant AreMembers(t, entries[..k]) && AreAllMembers(t, entries[..k])
      invariant total == TotalSize(entries[..k]) && read == PayloadsOf(t, entries[..k])
    {
      assert entries[..k + 1] == entries[..k] + [entries[k]];
      var next := ReadMember(t, entries[..k], read, total, entries[k]);
      if next.None? {
        if AreMembers(t, entries) {
          MembersPrefix(t, entries, k + 1);
        }
        return None;
      }
      read, total := next.value.0, next.value.1;
    }
    assert entries[..|entries|] == entries;
    return Some(read);
  }

  // ---------------------------------------------------------------- suffixes

  predicate EndsWith(path: string, suffix: string) {
    |path| >= |suffix| && path[|path| - |suffix|..] == suffix
  }

  predicate HasName(path: string, name: string) {
    path == name || EndsWith(path, "/" + name)
  }

  function Matches(payloads: Payloads, name: string): set<string> {
    set path | path in payloads && HasName(path, name)
  }

  /** The one member with the name, wherever in the archive it is. */
  function SingleSuffix(payloads: Payloads, name: string): Option<string> {
    if |Matches(payloads, name)| == 1 then
      SingleIsOne(Matches(payloads, name));
      var path :| path in Matches(payloads, name); Some(path)
    else None
  }

  lemma SingleIsOne(s: set<string>)
    requires |s| == 1
    ensures exists x :: x in s
    ensures forall x, y :: x in s && y in s ==> x == y
  {
    var x :| x in s;
    assert |s - {x}| == 0;
    assert s == {x};
  }

  /** The directory of the manifest: everything before its name. */
  function RootOf(manifestPath: string): string
    requires HasName(manifestPath, MANIFEST_NAME)
  {
    manifestPath[..|manifestPath| - |MANIFEST_NAME|]
  }

  lemma RootIsDirectory(manifestPath: string)
    requires HasName(manifestPath, MANIFEST_NAME)
    ensures RootOf(manifestPath) == "" || RootOf(manifestPath)[|RootOf(manifestPath)| - 1] == '/'
    ensures RootOf(manifestPath) + MANIFEST_NAME == manifestPath
  {
    if manifestPath != MANIFEST_NAME {
      var n := |manifestPath| - |MANIFEST_NAME|;
      assert manifestPath[n - 1..] == "/" + MANIFEST_NAME;
      assert manifestPath[n - 1] == ("/" + MANIFEST_NAME)[0];
      assert manifestPath[n..] == ("/" + MANIFEST_NAME)[1..] == MANIFEST_NAME;
    }
  }

  /** A member that the manifest names relative to its root is the one the suffix search
      finds: the two ways of looking it up cannot disagree. */
  lemma SuffixIsRootRelative(payloads: Payloads, root: string, name: string)
    requires root == "" || root[|root| - 1] == '/'
    requires root + name in payloads && SingleSuffix(payloads, name).Some?
    ensures SingleSuffix(payloads, name) == Some(root + name)
  {
    var path := root + name;
    if root == "" {
      assert path == name;
    } else {
      assert path[|path| - |"/" + name|..] == [root[|root| - 1]] + name;
    }
    assert path in Matches(payloads, name);
    SingleIsOne(Matches(payloads, name));
  }

  // ---------------------------------------------------------------- the artifact manifest

  datatype Binding = Binding(path: string, size: int, sha256: string)

  /** The parts of a relative path that `PurePosixPath` keeps: not empty and not a dot. */
  function Parts(path: string): seq<string> {
    Kept(Split(path))
  }

  function Split(path: string): (r: seq<string>)
    ensures r != []
  {
    if path == "" then [""]
    else
      var rest := Split(path[1..]);
      if path[0] == '/' then [""] + rest else [[path[0]] + rest[0]] + rest[1..]
  }

  function Kept(parts: seq<string>): seq<string> {
    if parts == [] then [] else (if parts[0] == "" || parts[0] == "." then [] else [parts[0]]) + Kept(parts[1..])
  }

  predicate IsSafeRelative(path: string) {
    path != "" && path[0] != '/' && '\\' !in path && ".." !in Parts(path)
  }

  predicate IsFileEntry(h: Host, v: Json) {
    && v.Obj? && v.fields.Keys == {Other("relative_path"), Other("size_bytes"), Sha256}
    && IsSafeRelative(Text(h, v.Get(Other("relative_path"))))
    && v.Get(Other("size_bytes")).Num? && v.Get(Other("size_bytes")).n >= 1
    && v.Get(Sha256).Str? && IsHex(v.Get(Sha256).s, 64)
  }

  function BindingOf(h: Host, v: Json): Binding
    requires IsFileEntry(h, v)
  {
    Binding(Text(h, v.Get(Other("relative_path"))), v.Get(Other("size_bytes")).n, v.Get(Sha256).s)
  }

  predicate IsBound(h: Host, payloads: Payloads, root: string, b: Binding) {
    && root + b.path in payloads
    && |payloads[root + b.path]| == b.size && h.sha256(payloads[root + b.path]) == b.sha256
  }

  predicate IsBoundEntry(h: Host, payloads: Payloads, root: string, v: Json) {
    IsFileEntry(h, v) && IsBound(h, payloads, root, BindingOf(h, v))
  }

  predicate AreBoundEntries(h: Host, payloads: Payloads, root: string, files: seq<Json>) {
    forall i :: 0 <= i < |files| ==> IsBoundEntry(h, payloads, root, files[i])
  }

  function Bindings(h: Host, files: seq<Json>): (r: seq<Binding>)
    requires forall i :: 0 <= i < |files| ==> IsFileEntry(h, files[i])
    ensures |r| == |files|
  {
    seq(|files|, i requires 0 <= i < |files| => BindingOf(h, files[i]))
  }

  predicate ArePathsDistinct(s: seq<Binding>) {
    forall i, j :: 0 <= i < j < |s| ==> s[i].path != s[j].path
  }

  function PathSet(s: seq<Binding>): set<string> {
    set i | 0 <= i < |s| :: s[i].path
  }

  /** What the attestation covers: all bindings but its own. */
  function Covered(s: seq<Binding>): seq<Binding>
    decreases |s|
  {
    if s == [] then []
    else Covered(s[..|s| - 1]) + if s[|s| - 1].path == ATTESTATION_NAME then [] else [s[|s| - 1]]
  }

  function BindingJson(b: Binding): Json {
    Obj(map[Other("relative_path") := Str(b.path), Other("size_bytes") := Num(b.size), Sha256 := Str(b.sha256)])
  }

  function BindingsDigest(h: Host, s: seq<Binding>): string {
    h.digest(Arr(seq(|s|, i requires 0 <= i < |s| => BindingJson(s[i]))))
  }

  predicate IsOne(v: Json) {
    v == Num(1) || v == Bool(true)
  }

  const PAYLOAD_DIGEST: Key := Other("payload_manifest_sha256")

  predicate IsManifestHeader(h: Host, m: Json) {
    && m.Obj? && m.fields.Keys == {Other("schema_version"), PAYLOAD_DIGEST, Other("files"), Other("manifest_sha256")}
    && IsOne(m.Get(Other("schema_version")))
    && m.Get(Other("files")).Arr? && m.Get(Other("files")).items != []
    && m.Get(PAYLOAD_DIGEST).Str? && IsHex(m.Get(PAYLOAD_DIGEST).s, 64)
    && m.Get(Other("manifest_sha256")).Str? && IsHex(m.Get(Other("manifest_sha256")).s, 64)
    && h.digest(Obj(map[Other("schema_version") := Num(1), PAYLOAD_DIGEST := m.Get(PAYLOAD_DIGEST),
                        Other("files") := m.Get(Other("files"))])) == m.Get(Other("manifest_sha256")).s
  }

  predicate IsManifest(h: Host, payloads: Payloads, root: string, m: Json) {
    && IsManifestHeader(h, m)
    && var files := m.Get(Other("files")).items;
    && AreBoundEntries(h, payloads, root, files)
    && var s := Bindings(h, files);
    && ArePathsDistinct(s)
    && BindingsDigest(h, Covered(s)) == m.Get(PAYLOAD_DIGEST).s
    && RESULT_NAME in PathSet(s) && ATTESTATION_NAME in PathSet(s)
  }

  lemma BindingsAppend(h: Host, files: seq<Json>, v: Json)
    requires forall i :: 0 <= i < |files| ==> IsFileEntry(h, files[i])
    requires IsFileEntry(h, v)
    ensures forall i :: 0 <= i < |files + [v]| ==> IsFileEntry(h, (files + [v])[i])
    ensures Bindings(h, files + [v]) == Bindings(h, files) + [BindingOf(h, v)]
  {
  }

  lemma PathsAppend(s: seq<Binding>, b: Binding)
    ensures PathSet(s + [b]) == PathSet(s) + {b.path}
    ensures ArePathsDistinct(s + [b]) <==> ArePathsDistinct(s) && b.path !in PathSet(s)
    ensures Covered(s + [b]) == Covered(s) + if b.path == ATTESTATION_NAME then [] else [b]
  {
    var all := s + [b];
    assert all[..|s|] == s && all[|s|] == b && forall i :: 0 <= i < |s| ==> all[i] == s[i];
    if ArePathsDistinct(all) {
      forall i, j | 0 <= i < j < |s|
        ensures s[i].path != s[j].path
      {
        assert all[i].path != all[j].path;
      }
      forall i | 0 <= i < |s|
        ensures s[i].path != b.path
      {
        assert all[i].path != all[|s|].path;
      }
    }
  }
}
