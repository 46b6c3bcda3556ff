/** The controller as it runs: it loads an event, walks over its artifacts collecting rule
    results, changes the event and saves it. Each method is shown to do what the case
    functions of `ReleaseGate` say, and to touch no other event. */
module GateController {
  import opened Json
  import opened GateDisk
  import opened ReleaseGate
  import opened GateRuns
  import opened GateEvidence
  import opened GateProducer

  // ---------------------------------------------------------------- the storage directory

  /** Everything stored: one event, one Manifest-S and perhaps one Manifest-R per id. */
  datatype Archive = Archive(
    events: map<string, Event>, submissions: map<string, ManifestS>, releases: map<string, ManifestR>, disk: Disk)
  {
    predicate Has(id: string) {
      id in events && id in submissions
    }

    function CaseOf(id: string): Case
      requires Has(id)
    {
      Case(events[id], submissions[id], if id in releases then Some(releases[id]) else None, disk)
    }

    /** The case stored in place of what was there. */
    function Save(id: string, c: Case): Archive {
      Archive(events[id := c.event], submissions[id := c.manifestS],
              if c.manifestR.Some? then releases[id := c.manifestR.value] else releases - {id}, c.disk)
    }
  }

  /** Saving what is stored changes nothing. */
  lemma SaveSame(a: Archive, id: string)
    requires a.Has(id)
    ensures a.Save(id, a.CaseOf(id)) == a
  {
    assert a.events[id := a.events[id]] == a.events && a.submissions[id := a.submissions[id]] == a.submissions;
    if id in a.releases {
      assert a.releases[id := a.releases[id]] == a.releases;
    } else {
      assert a.releases - {id} == a.releases;
    }
  }

  /** Saving one event leaves the documents of every other as they were. */
  lemma SaveFrame(a: Archive, id: string, c: Case, other: string)
    requires other != id && a.Has(other)
    ensures a.Save(id, c).Has(other)
    ensures a.Save(id, c).CaseOf(other) == a.CaseOf(other).(disk := c.disk)
  {
  }

  function StatusReply(r: Reply<Case>): Reply<Status> {
    if r.Done? then Done(r.value.event.status) else Refused(r.error)
  }

  // ---------------------------------------------------------------- rule results

  datatype Entry = Entry(rule: int, passed: bool)

  /** Some rule among `rules` has a result other than PASS. */
  predicate Fails(entries: seq<Entry>, rules: set<int>) {
    exists i :: 0 <= i < |entries| && entries[i].rule in rules && !entries[i].passed
  }

  /** One more result. */
  function Add(entries: seq<Entry>, rule: int, passed: bool): (r: seq<Entry>)
    ensures forall rules: set<int> {:trigger Fails(r, rules)} ::
      Fails(r, rules) <==> Fails(entries, rules) || (rule in rules && !passed)
  {
    var r := entries + [Entry(rule, passed)];
    assert r[|entries|] == Entry(rule, passed) && forall i :: 0 <= i < |entries| ==> r[i] == entries[i];
    r
  }

  const T_RULES: set<int> := {0, 1, 2, 3, 4, 5, 6, 7, 8}
  const R_RULES: set<int> := {1, 2, 3, 4, 5, 6, 7, 8, 9}
  const DRIFT_RULES: set<int> := {2, 3, 4, 5}
  const HARDENED_DRIFT_RULES: set<int> := {1, 2, 3, 4, 5}

  // ---------------------------------------------------------------- submissions

  datatype RawArtifact = RawArtifact(name: string, path: string, sourceRef: string)

  /** `Path(name).suffix`: from the last dot, unless it starts or ends the name. */
  function Suffix(name: string): string {
    var i := LastDot(name, |name|);
    if 0 < i < |name| - 1 then name[i..] else ""
  }

  function LastDot(name: string, n: nat): (i: int)
    requires n <= |name|
    ensures -1 <= i < n
    ensures i >= 0 ==> name[i] == '.'
    ensures forall k :: i < k < n ==> name[k] != '.'
  {
    if n == 0 then -1 else if name[n - 1] == '.' then n - 1 else LastDot(name, n - 1)
  }

  function LastPart(path: string): string {
    if path == "" || path[|path| - 1] == '/' then "" else LastPart(path[..|path| - 1]) + [path[|path| - 1]]
  }

  function ChangeType(baseline: map<string, string>, name: string, sha1: string): string {
    if name !in baseline then "new" else if baseline[name] == sha1 then "unchanged" else "updated"
  }

  predicate IsAcceptable(h: Host, d: Disk, raw: RawArtifact) {
    IsPortableName(h, raw.name) && IsFile(d, Place(d.links, h.absolute(raw.path)))
  }

  /** The artifact as it is frozen. */
  function Prepared(h: Host, d: Disk, raw: RawArtifact, sourceRef: string,
                    baseline: map<string, string>): SourceArtifact
    requires IsAcceptable(h, d, raw)
  {
    var path := Place(d.links, h.absolute(raw.path));
    var content := ContentAt(d, path);
    SourceArtifact(raw.name, path, |content|, h.sha1(content), h.sha256(content),
                   h.strip(if raw.sourceRef != "" then raw.sourceRef else sourceRef),
                   h.lower(Suffix(LastPart(path))), ChangeType(baseline, raw.name, h.sha1(content)))
  }

  predicate AreAcceptable(h: Host, d: Disk, raws: seq<RawArtifact>) {
    && (forall i :: 0 <= i < |raws| ==> IsAcceptable(h, d, raws[i]))
    && forall i, j :: 0 <= i < j < |raws| ==> h.casefold(raws[i].name) != h.casefold(raws[j].name)
  }

  function AllPrepared(h: Host, d: Disk, raws: seq<RawArtifact>, sourceRef: string, baseline: map<string, string>):
    (r: seq<SourceArtifact>)
    requires forall i :: 0 <= i < |raws| ==> IsAcceptable(h, d, raws[i])
    ensures |r| == |raws|
  {
    seq(|raws|, i requires 0 <= i < |raws| => Prepared(h, d, raws[i], sourceRef, baseline))
  }

  function FoldedRaws(h: Host, raws: seq<RawArtifact>): set<string> {
    set i | 0 <= i < |raws| :: h.casefold(raws[i].name)
  }

  lemma AcceptableAppend(h: Host, d: Disk, raws: seq<RawArtifact>, raw: RawArtifact)
    requires AreAcceptable(h, d, raws)
    ensures AreAcceptable(h, d, raws + [raw]) <==>
              IsAcceptable(h, d, raw) && h.casefold(raw.name) !in FoldedRaws(h, raws)
    ensures FoldedRaws(h, raws + [raw]) == FoldedRaws(h, raws) + {h.casefold(raw.name)}
  {
    var all := raws + [raw];
    assert all[|raws|] == raw && forall i :: 0 <= i < |raws| ==> all[i] == raws[i];
    if h.casefold(raw.name) in FoldedRaws(h, raws) {
      var i :| 0 <= i < |raws| && h.casefold(raws[i].name) == h.casefold(raw.name);
      assert all[i] == raws[i];
    }
  }

  lemma AcceptablePrefix(h: Host, d: Disk, raws: seq<RawArtifact>, k: nat)
    requires k <= |raws| && AreAcceptable(h, d, raws)
    ensures AreAcceptable(h, d, raws[..k])
  {
  }

  /** What was prepared is intact, portable and distinct. */
  lemma PreparedIsSound(h: Host, d: Disk, raws: seq<RawArtifact>, sourceRef: string, baseline: map<string, string>)
    requires AreAcceptable(h, d, raws)
    ensures var s := AllPrepared(h, d, raws, sourceRef, baseline);
      && AreFoldedDistinct(h, s) && AreNamesSafe(h, s)
      && forall i :: 0 <= i < |s| ==> HasHashes(h, d, s[i].path, s[i].sha1, s[i].sha256)
  {
  }

  /** The loop over the submitted artifacts: accepts exactly portable, distinct names of
      files that are there, and freezes each with the hashes it has now. */
  method PrepareArtifacts(h: Host, d: Disk, raws: seq<RawArtifact>, sourceRef: string, baseline: map<string, string>)
    returns (prepared: Option<seq<SourceArtifact>>)
    ensures prepared.Some? <==> AreAcceptable(h, d, raws)
    ensures prepared.Some? ==> prepared.value == AllPrepared(h, d, raws, sourceRef, baseline)
  {
    hide IsPortableName, Prepared;
    var seen: set<string> := {};
    var read: seq<SourceArtifact> := [];
    for k := 0 to |raws|
      invariant AreAcceptable(h, d, raws[..k])
      invariant read == AllPrepared(h, d, raws[..k], sourceRef, baseline)
      invariant seen == FoldedRaws(h, raws[..k])
    {
      ghost var whole := AreAcceptable(h, d, raws);
      assert raws[..k] + [raws[k]] == raws[..k + 1];
      if whole {
        AcceptablePrefix(h, d, raws, k + 1);
      }
      AcceptableAppend(h, d, raws[..k], raws[k]);
      if !IsPortableName(h, raws[k].name) || h.casefold(raws[k].name) in seen {
        return None;
      }
      seen := seen + {h.casefold(raws[k].name)};
      if !IsFile(d, Place(d.links, h.absolute(raws[k].path))) {
        return None;
      }
      read := read + [Prepared(h, d, raws[k], sourceRef, baseline)];
    }
    assert raws[..|raws|] == raws;
    return Some(read);
  }

  /** What the caller says about a new submission, besides its artifacts. */
  datatype NewSubmission = NewSubmission(
    eventId: string, taskId: string, round: int, sourceRef: string, rollbackRef: string, riskLevel: string,
    ruleSnapshot: string, newRoundOf: string)

  function CreatedOrigin(h: Host, n: NewSubmission, now: string): Origin {
    Origin(h.strip(n.taskId), n.round, h.strip(n.sourceRef),
           h.strip(if n.ruleSnapshot != "" then n.ruleSnapshot else "local-" + now),
           if h.strip(n.newRoundOf) != "" then Some(h.strip(n.newRoundOf)) else None, None)
  }

  function CreatedEvent(h: Host, n: NewSubmission, now: string, digest: string): Event {
    Event(h.strip(n.eventId), CreatedOrigin(h, n, now), n.riskLevel, h.strip(n.rollbackRef), SubmissionGating, digest,
          None, None, None, None, [HistoryEntry(None, SubmissionGating)])
  }

  predicate IsRiskLevel(s: string) {
    s in {"standard", "high", "emergency"}
  }

  // ---------------------------------------------------------------- collecting rule results

  /** The results of the submission rules: all PASS exactly when the submission passes. */
  method SubmissionEntries(h: Host, p: Policy, c: Case, o: Oracle) returns (entries: seq<Entry>)
    ensures !Fails(entries, T_RULES) <==> PassesSubmission(h, p, c, o)
  {
    hide HasHashes, Fails, Add;
    var s := c.manifestS.artifacts;
    NoneFails(T_RULES);
    entries := Add([], 0, IsSubmissionFrozen(h, c));
    for k := 0 to |s|
      invariant !Fails(entries, T_RULES) <==>
                IsSubmissionFrozen(h, c) && forall i :: 0 <= i < k ==> PassesOne(h, p, c.disk, s[i], o)
    {
      var a := s[k];
      entries := Add(entries, 1, HasHashes(h, c.disk, a.path, a.sha1, a.sha256));
      entries := Add(entries, 2, h.lower(a.extension) in p.allowedExtensions);
      entries := Add(entries, 3, p.requireSourceRef ==> h.strip(a.sourceRef) != "");
      entries := Add(entries, 5, o.signature(a.name));
      entries := Add(entries, 6, o.cloud(a.name));
    }
    entries := Add(entries, 4, SourceDigest(h, s) == c.manifestS.digest);
    entries := Add(entries, 7, |set i | 0 <= i < |s| :: s[i].name| == |s| && s != []);
    entries := Add(entries, 8, p.allowUnchanged || forall i :: 0 <= i < |s| ==> !IsUnchanged(s[i]));
  }

  lemma NoneFails(rules: set<int>)
    ensures !Fails([], rules)
  {
  }

  /** R-05 to R-07 for every listed file, in any order, after the results so far. */
  method ContentEntries(h: Host, d: Disk, source: map<string, SourceArtifact>, final: map<string, FinalArtifact>,
                        o: Oracle, sofar: seq<Entry>)
    returns (entries: seq<Entry>)
    ensures forall rules: set<int> :: Fails(entries, rules) <==>
      || Fails(sofar, rules)
      || (5 in rules && !ContentKept(h, d, source, final))
      || (6 in rules && !forall name :: name in final ==> o.signature(name))
      || (7 in rules && !forall name :: name in final ==> o.cloud(name))
  {
    hide HasHashes, Fails;
    entries := sofar;
    var rest := final.Keys;
    while rest != {}
      invariant rest <= final.Keys
      invariant forall rules: set<int> :: Fails(entries, rules) <==>
        || Fails(sofar, rules)
        || (5 in rules && !forall name :: name in final && name !in rest ==> IsContentKept(h, d, source, final, name))
        || (6 in rules && !forall name :: name in final && name !in rest ==> o.signature(name))
        || (7 in rules && !forall name :: name in final && name !in rest ==> o.cloud(name))
      decreases |rest|
    {
      var name :| name in rest;
      entries := Add(entries, 5, IsContentKept(h, d, source, final, name));
      entries := Add(entries, 6, o.signature(name));
      entries := Add(entries, 7, o.cloud(name));
      rest := rest - {name};
    }
  }

  /** The results of the base gate. */
  method ReleaseEntries(h: Host, c: Case, m: ManifestR, o: Oracle) returns (entries: seq<Entry>)
    ensures Fails(entries, DRIFT_RULES) <==> !NoDrift(h, c, m)
    ensures !Fails(entries, R_RULES) <==>
      && NoDrift(h, c, m) && ManifestsBound(h, c, m) && ServicesAgree(FinalIndex(m), o)
      && TestAndApprovalBound(c.event) && IsRollbackReady(h, c.event)
  {
    hide HasHashes, Fails, ContentKept, IndexBy;
    var source, final := SourceIndex(c), FinalIndex(m);
    NoneFails(DRIFT_RULES);
    NoneFails(R_RULES);
    entries := Add([], 1, ManifestsBound(h, c, m));
    entries := Add(entries, 2, SourcesMapped(source, final));
    entries := Add(entries, 3, source.Keys <= final.Keys);
    entries := Add(entries, 4, final.Keys <= source.Keys);
    entries := ContentEntries(h, c.disk, source, final, o, entries);
    entries := Add(entries, 8, TestAndApprovalBound(c.event));
    entries := Add(entries, 9, IsRollbackReady(h, c.event));
  }

  /** No omissions and no extras is equality of the three file lists. */
  lemma NothingMissingOrExtra(source: set<string>, final: set<string>, files: set<string>, directories: set<string>)
    ensures (source - final) + (final - files) == {} && (final - source) + (files - final) + directories == {}
      <==> source == final && files == final && directories == {}
  {
    if (source - final) + (final - files) == {} && (final - source) + (files - final) + directories == {} {
      assert source - final == {} && final - files == {};
      assert final - source == {} && files - final == {};
      assert source == final && files == final;
    }
  }

  /** The hardened rules, one conjunct a rule. */
  lemma HardenedRules(h: Host, c: Case, m: ManifestR)
    ensures var source, final, dir := SourceIndex(c), FinalIndex(m), Place(c.disk.links, m.outputDir);
      NoHardenedDrift(h, c, m) <==>
        && |source| == |c.manifestS.artifacts| && |final| == |m.artifacts| && ManifestsBound(h, c, m)
        && IsOutputBound(c, m)
        && SourcesMapped(source, final) && ArePathsBound(c.disk, m)
        && source.Keys == final.Keys && FilesSeen(c.disk, dir) == final.Keys
        && DirectoriesSeen(c.disk, dir) == {}
        && ContentKept(h, c.disk, source, final)
  {
    hide IndexBy, ContentKept, SourcesMapped, ManifestsBound, ArePathsBound, FilesSeen, DirectoriesSeen, IsOutputBound;
  }

  /** The results of the hardened gate: R-01 asks for unique names, R-02 binds the output
      directory, R-03 and R-04 also compare the listing of that directory. */
  method HardenedEntries(h: Host, c: Case, m: ManifestR, o: Oracle) returns (entries: seq<Entry>)
    ensures Fails(entries, HARDENED_DRIFT_RULES) <==> !NoHardenedDrift(h, c, m)
    ensures !Fails(entries, R_RULES) <==>
      && NoHardenedDrift(h, c, m) && ServicesAgree(FinalIndex(m), o)
      && TestAndApprovalBound(c.event) && IsRollbackReady(h, c.event)
  {
    hide HasHashes, Fails, ContentKept, IndexBy, NoHardenedDrift, SourcesMapped, ManifestsBound, ArePathsBound;
    hide FilesSeen, DirectoriesSeen, TestAndApprovalBound, IsRollbackReady, IsOutputBound, Place;
    HardenedRules(h, c, m);
    var source, final := SourceIndex(c), FinalIndex(m);
    var dir := Place(c.disk.links, m.outputDir);
    NoneFails(HARDENED_DRIFT_RULES);
    NoneFails(R_RULES);
    var unique := |source| == |c.manifestS.artifacts| && |final| == |m.artifacts|;
    entries := Add([], 1, unique && ManifestsBound(h, c, m));
    entries := Add(entries, 2, IsOutputBound(c, m) && SourcesMapped(source, final) && ArePathsBound(c.disk, m));
    var actualFiles, actualDirectories := FilesSeen(c.disk, dir), DirectoriesSeen(c.disk, dir);
    var omissions := (source.Keys - final.Keys) + (final.Keys - actualFiles);
    entries := Add(entries, 3, omissions == {});
    var extras := (final.Keys - source.Keys) + (actualFiles - final.Keys) + actualDirectories;
    entries := Add(entries, 4, extras == {});
    NothingMissingOrExtra(source.Keys, final.Keys, actualFiles, actualDirectories);
    entries := ContentEntries(h, c.disk, source, final, o, entries);
    entries := Add(entries, 8, TestAndApprovalBound(c.event));
    entries := Add(entries, 9, IsRollbackReady(h, c.event));
  }

  // ---------------------------------------------------------------- copying and checking material

  /** The loop that refuses drifted sources before anything is copied. */
  method CheckSources(h: Host, c: Case) returns (intact: bool)
    ensures intact <==> AreSourcesIntact(h, c)
  {
    hide HasHashes;
    var s := c.manifestS.artifacts;
    for k := 0 to |s|
      invariant forall i :: 0 <= i < k ==> HasHashes(h, c.disk, s[i].path, s[i].sha1, s[i].sha256)
    {
      if !HasHashes(h, c.disk, s[k].path, s[k].sha1, s[k].sha256) {
        return false;
      }
    }
    return true;
  }

  lemma IntactIsThere(h: Host, c: Case)
    requires AreSourcesIntact(h, c)
    ensures AreFiles(c.disk, c.manifestS.artifacts)
  {
    forall i | 0 <= i < |c.manifestS.artifacts|
      ensures IsFile(c.disk, c.manifestS.artifacts[i].path)
    {
      var a := c.manifestS.artifacts[i];
      assert HasHashes(h, c.disk, a.path, a.sha1, a.sha256);
    }
  }

  lemma NoCopyYet(d: Disk, entry: string, dir: string)
    ensures Published(d, [], entry).files == d.files && FinalsOf(d, [], dir) == []
  {
  }

  lemma OneMoreCopy(d: Disk, s: seq<SourceArtifact>, k: nat, entry: string, dir: string)
    requires AreFiles(d, s) && k < |s|
    ensures Published(d, s[..k + 1], entry).files
         == Published(d, s[..k], entry).files[Join(entry, s[k].name) := ContentAt(d, s[k].path)]
    ensures FinalsOf(d, s[..k + 1], dir) == FinalsOf(d, s[..k], dir) + [FinalOf(d, s[k], dir)]
  {
    hide IsFile, ContentAt, FinalOf;
    assert s[..k + 1][..k] == s[..k] && s[..k + 1][k] == s[k];
  }

  /** Copies into the staging directory, listing each copy as it will be published. */
  method CopyArtifacts(h: Host, d: Disk, s: seq<SourceArtifact>, dir: string)
    returns (staged: Option<map<string, Bytes>>, finals: seq<FinalArtifact>)
    requires AreFiles(d, s)
    ensures staged.Some? <==> AreNamesSafe(h, s)
    ensures staged.Some? ==>
      finals == FinalsOf(d, s, dir) && d.files + staged.value == Published(d, s, EntryAt(d.links, dir)).files
  {
    hide IsPortableName, IsFile, ContentAt, EntryAt, Published, FinalsOf, FinalOf;
    NoCopyYet(d, EntryAt(d.links, dir), dir);
    var copies: map<string, Bytes> := map[];
    finals := [];
    for k := 0 to |s|
      invariant forall i :: 0 <= i < k ==> IsPortableName(h, s[i].name)
      invariant finals == FinalsOf(d, s[..k], dir)
      invariant d.files + copies == Published(d, s[..k], EntryAt(d.links, dir)).files
    {
      if !IsPortableName(h, s[k].name) {
        return None, [];
      }
      OneMoreCopy(d, s, k, EntryAt(d.links, dir), dir);
      copies := copies[Join(EntryAt(d.links, dir), s[k].name) := ContentAt(d, s[k].path)];
      finals := finals + [FinalOf(d, s[k], dir)];
    }
    assert s[..|s|] == s;
    return Some(copies), finals;
  }

  /** `shutil.rmtree` */
  function Removed(d: Disk, entry: string): Disk {
    Disk(map path | path in d.files && !IsUnder(entry, path) :: d.files[path],
         set path | path in d.directories && path != entry && !IsUnder(entry, path),
         map path | path in d.links && !IsUnder(entry, path) :: d.links[path])
  }

  /** Removing a directory that was just published brings the old disk back. */
  lemma {:induction false} CleanupRestores(d: Disk, s: seq<SourceArtifact>, entry: string)
    requires AreFiles(d, s) && !Exists(d, entry)
    ensures Removed(Published(d, s, entry), entry) == d
    decreases |s|
  {
    hide Exists, IsFile, ContentAt;
    if s == [] {
      NothingUnder(d, entry);
    } else {
      var init, last := s[..|s| - 1], s[|s| - 1];
      CleanupRestores(d, init, entry);
      JoinIsUnder(entry, last.name);
      assert IsUnder(entry, Join(entry, last.name));
      assert Removed(Published(d, s, entry), entry).files == Removed(Published(d, init, entry), entry).files;
    }
  }

  lemma NoneUnder(places: set<string>, entry: string)
    requires Below(places, entry) == {}
    ensures forall place :: place in places ==> !IsUnder(entry, place)
  {
    forall place | place in places && IsUnder(entry, place)
      ensures false
    {
      UnderIsBelow(places, entry, place);
    }
  }

  lemma NothingUnder(d: Disk, entry: string)
    requires !Exists(d, entry)
    ensures Removed(d.(directories := d.directories + {entry}), entry) == d
  {
    NoneUnder(d.files.Keys, entry);
    NoneUnder(d.directories, entry);
    NoneUnder(d.links.Keys, entry);
    assert Removed(d.(directories := d.directories + {entry}), entry).files == d.files;
    assert Removed(d.(directories := d.directories + {entry}), entry).links == d.links;
  }

  /** The loop that re-checks published material file by file. */
  method CheckFinal(h: Host, c: Case, m: ManifestR, dir: string) returns (intact: bool)
    ensures intact <==> IsFinalIntact(h, c, m, dir)
  {
    hide IsPortableName, HasHashes, Below, HoldsPlainFiles, IsRealDirectory, EntryAt, FinalDigest;
    var entry := EntryAt(c.disk.links, dir);
    if m.outputDir != dir || FinalDigest(h, m.sourceDigest, m.artifacts) != m.digest
       || c.event.manifestRDigest != Some(m.digest) || m.sourceDigest != c.event.manifestSDigest
       || !IsRealDirectory(c.disk, entry) || !HoldsPlainFiles(c.disk, entry) {
      return false;
    }
    var expected: set<string> := {};
    for k := 0 to |m.artifacts|
      invariant expected == (set i | 0 <= i < k :: h.casefold(m.artifacts[i].name))
      invariant forall i :: 0 <= i < k ==> IsPortableName(h, m.artifacts[i].name)
    {
      if !IsPortableName(h, m.artifacts[k].name) {
        return false;
      }
      expected := expected + {h.casefold(m.artifacts[k].name)};
    }
    var actual := set name | name in Below(c.disk.files.Keys, entry) :: h.casefold(name);
    if actual != expected {
      return false;
    }
    for k := 0 to |m.artifacts|
      invariant forall i :: 0 <= i < k ==> IsFileIntact(h, c.disk, m.artifacts[i], dir)
    {
      if !IsFileIntact(h, c.disk, m.artifacts[k], dir) {
        return false;
      }
    }
    return true;
  }

  // ---------------------------------------------------------------- the controller

  class ReleaseGateController {
    const host: Host
    const policy: Policy
    var events: map<string, Event>
    var submissions: map<string, ManifestS>
    var releases: map<string, ManifestR>
    var disk: Disk

    function Stored(): Archive
      reads this
    {
      Archive(events, submissions, releases, disk)
    }

    constructor (host: Host, policy: Policy, stored: Archive)
      ensures this.host == host && this.policy == policy && Stored() == stored
    {
      this.host, this.policy := host, policy;
      events, submissions, releases, disk := stored.events, stored.submissions, stored.releases, stored.disk;
    }

    method SaveEvent(id: string, e: Event)
      requires Stored().Has(id)
      modifies this
      ensures Stored() == old(Stored()).Save(id, old(Stored()).CaseOf(id).(event := e))
    {
      SaveSame(Stored(), id);
      events := events[id := e];
    }

    /** A new submission: freezes the artifacts, or changes nothing. */
    method CreateSubmission(n: NewSubmission, raws: seq<RawArtifact>, baseline: map<string, string>, now: string)
      returns (reply: Reply<Status>)
      modifies this
      ensures reply.Done? <==>
        && IsEventId(host.strip(n.eventId)) && host.strip(n.eventId) !in old(events)
        && host.strip(n.taskId) != "" && IsRiskLevel(n.riskLevel) && n.round >= 1
        && raws != [] && AreAcceptable(host, old(disk), raws)
      ensures reply.Refused? ==> Stored() == old(Stored())
      ensures reply.Done? ==>
        var id := host.strip(n.eventId);
        var s := AllPrepared(host, old(disk), raws, n.sourceRef, baseline);
        var digest := SourceDigest(host, s);
        && Stored() == old(Stored()).(events := old(events)[id := CreatedEvent(host, n, now, digest)],
                                      submissions := old(submissions)[id := ManifestS(s, digest, None)])
        && (id !in releases ==> IsNewCase(host, Stored().CaseOf(id)))
    {
      hide IsPortableName, Prepared;
      var id := host.strip(n.eventId);
      if !IsEventId(id) {
        return Refused(InvalidArgument);
      }
      if id in events {
        return Refused(EventExists);
      }
      if host.strip(n.taskId) == "" || !IsRiskLevel(n.riskLevel) || n.round < 1 || raws == [] {
        return Refused(InvalidArgument);
      }
      var prepared := PrepareArtifacts(host, disk, raws, n.sourceRef, baseline);
      if prepared.None? {
        return Refused(InvalidArtifact);
      }
      PreparedIsSound(host, disk, raws, n.sourceRef, baseline);
      var digest := SourceDigest(host, prepared.value);
      submissions := submissions[id := ManifestS(prepared.value, digest, None)];
      events := events[id := CreatedEvent(host, n, now, digest)];
      return Done(SubmissionGating);
    }

    method RunSubmissionGate(id: string, o: Oracle) returns (reply: Reply<Status>)
      modifies this
      ensures !old(Stored()).Has(id) ==> reply == Refused(UnknownEvent) && Stored() == old(Stored())
      ensures old(Stored()).Has(id) ==>
        var r := SubmissionGate(host, policy, old(Stored()).CaseOf(id), o);
        reply == StatusReply(r) && Stored() == old(Stored()).Save(id, Settle(old(Stored()).CaseOf(id), r))
    {
      hide PassesSubmission;
      if !Stored().Has(id) {
        return Refused(UnknownEvent);
      }
      var c := Stored().CaseOf(id);
      SaveSame(Stored(), id);
      if c.event.status !in {SubmissionGating, SubmissionBlocked} {
        return Refused(WrongStatus);
      }
      var entries := SubmissionEntries(host, policy, c, o);
      var to := if !Fails(entries, T_RULES) then Testing else SubmissionBlocked;
      SaveEvent(id, Transition(c.event, to));
      return Done(to);
    }

    method RecordTestResult(id: string, result: Option<TestResult>) returns (reply: Reply<Status>)
      modifies this
      ensures !old(Stored()).Has(id) ==> reply == Refused(UnknownEvent) && Stored() == old(Stored())
      ensures old(Stored()).Has(id) ==>
        var r := RecordTest(policy, old(Stored()).CaseOf(id), result);
        reply == StatusReply(r) && Stored() == old(Stored()).Save(id, Settle(old(Stored()).CaseOf(id), r))
    {
      if !Stored().Has(id) {
        return Refused(UnknownEvent);
      }
      SaveSame(Stored(), id);
      var e := events[id];
      if e.status != Testing {
        return Refused(WrongStatus);
      }
      if result.None? {
        return Refused(InvalidArgument);
      }
      e := e.(test := result);
      if result != Some(Pass) {
        e := Transition(e.(approval := None), SubmissionBlocked);
      } else if e.riskLevel in policy.autoApproved {
        e := Transition(e.(approval := Some(AutoApproved)), ReleasePreparing);
      } else {
        e := Transition(e.(approval := Some(PendingApproval)), TestApprovalRequired);
      }
      SaveEvent(id, e);
      return Done(e.status);
    }

    method RecordTestApproval(id: string, approve: Option<bool>, ref: string) returns (reply: Reply<Status>)
      modifies this
      ensures !old(Stored()).Has(id) ==> reply == Refused(UnknownEvent) && Stored() == old(Stored())
      ensures old(Stored()).Has(id) ==>
        var r := RecordApproval(host, old(Stored()).CaseOf(id), approve, ref);
        reply == StatusReply(r) && Stored() == old(Stored()).Save(id, Settle(old(Stored()).CaseOf(id), r))
    {
      if !Stored().Has(id) {
        return Refused(UnknownEvent);
      }
      SaveSame(Stored(), id);
      var e := events[id];
      if e.status != TestApprovalRequired {
        return Refused(WrongStatus);
      }
      if approve.None? || host.strip(ref) == "" {
        return Refused(InvalidArgument);
      }
      e := e.(approval := Some(if approve.value then Approved(host.strip(ref)) else Rejected(host.strip(ref))));
      e := Transition(e, if approve.value then ReleasePreparing else SubmissionBlocked);
      SaveEvent(id, e);
      return Done(e.status);
    }

    /** Publishes the final material, or, where it is already there, checks it. */
    method BuildFinalRelease(id: string, dir: string, now: string, fault: Fault) returns (reply: Reply<ManifestR>)
      modifies this
      ensures !old(Stored()).Has(id) ==> reply == Refused(UnknownEvent) && Stored() == old(Stored())
      ensures old(Stored()).Has(id) ==>
        var b := Build(host, old(Stored()).CaseOf(id), dir, now, fault);
        reply == b.0 && Stored() == old(Stored()).Save(id, b.1)
    {
      hide AreNamesSafe, AreSourcesIntact, FinalsOf, Published, Exists, IsFinalIntact, SourceDigest, FinalDigest;
      hide EntryAt;
      if !Stored().Has(id) {
        return Refused(UnknownEvent);
      }
      var c := Stored().CaseOf(id);
      SaveSame(Stored(), id);
      if dir == "" {
        return Refused(InvalidArgument);
      }
      if c.event.status == ReleaseGating {
        if c.manifestR.None? {
          return Refused(FinalConflict);
        }
        var intact := CheckFinal(host, c, c.manifestR.value, dir);
        return if intact then Done(c.manifestR.value) else Refused(FinalConflict);
      }
      if c.event.status != ReleasePreparing {
        return Refused(WrongStatus);
      }
      reply := PublishFinal(id, dir, now, fault);
    }

    /** Stage, publish, save the manifest, save the event; whatever was published is
        removed again when a later step raises. */
    method PublishFinal(id: string, dir: string, now: string, fault: Fault) returns (reply: Reply<ManifestR>)
      requires Stored().Has(id)
      modifies this
      ensures var b := FirstBuild(host, old(Stored()).CaseOf(id), dir, now, fault);
        reply == b.0 && Stored() == old(Stored()).Save(id, b.1)
    {
      hide FinalsOf, Published, Exists, SourceDigest, FinalDigest, IsPortableName, HasHashes, EntryAt, IsFile;
      var c := Stored().CaseOf(id);
      var entry := EntryAt(disk.links, dir);
      SaveSame(Stored(), id);
      if !IsSubmissionFrozen(host, c) {
        return Refused(ManifestDrifted);
      }
      var intact := CheckSources(host, c);
      if !intact {
        return Refused(SourceDrifted);
      }
      if Exists(disk, entry) {
        return Refused(OutputExists);
      }
      IntactIsThere(host, c);
      var staged, finals := CopyArtifacts(host, disk, c.manifestS.artifacts, dir);
      if staged.None? {
        return Refused(UnsafeName);
      }
      if fault == BeforeManifestSaved {
        return Refused(BuildFailed);
      }
      PublishedKeys(disk, c.manifestS.artifacts, entry);
      CleanupRestores(disk, c.manifestS.artifacts, entry);
      disk := Disk(disk.files + staged.value, disk.directories + {entry}, disk.links);
      assert disk == Published(c.disk, c.manifestS.artifacts, entry);
      var m := ManifestR(c.event.eventId, now, c.event.manifestSDigest, dir, finals,
                         FinalDigest(host, c.event.manifestSDigest, finals));
      releases := releases[id := m];
      if fault == AfterManifestSaved {
        disk := Removed(disk, entry);
        return Refused(BuildFailed);
      }
      var e := c.event.(manifestRDigest := Some(m.digest), finalOutputDir := Some(dir));
      events := events[id := Transition(e, ReleaseGating)];
      return Done(m);
    }

    /** The release gate, base or hardened. */
    method RunReleaseGate(id: string, o: Oracle, hardened: bool) returns (reply: Reply<Status>)
      modifies this
      ensures !old(Stored()).Has(id) ==> reply == Refused(UnknownEvent) && Stored() == old(Stored())
      ensures old(Stored()).Has(id) ==>
        var r := RunGate(host, old(Stored()).CaseOf(id), o, hardened);
        reply == StatusReply(r) && Stored() == old(Stored()).Save(id, Settle(old(Stored()).CaseOf(id), r))
    {
      hide NoDrift, ManifestsBound, ServicesAgree, TestAndApprovalBound, IsRollbackReady;
      if !Stored().Has(id) {
        return Refused(UnknownEvent);
      }
      var c := Stored().CaseOf(id);
      SaveSame(Stored(), id);
      if c.event.status !in {ReleaseGating, ReleaseBlocked} || c.manifestR.None? {
        return Refused(WrongStatus);
      }
      var entries: seq<Entry>;
      var drift: set<int>;
      if hardened {
        entries := HardenedEntries(host, c, c.manifestR.value, o);
        drift := HARDENED_DRIFT_RULES;
        HardenedRules(host, c, c.manifestR.value);
      } else {
        entries := ReleaseEntries(host, c, c.manifestR.value, o);
        drift := DRIFT_RULES;
      }
      var to := if !Fails(entries, R_RULES) then ReleaseReady
                else if Fails(entries, drift) then SubmissionBlocked else ReleaseBlocked;
      SaveEvent(id, Transition(c.event, to));
      return Done(to);
    }
  }
}
