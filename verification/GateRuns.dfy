/** What every run of the gate keeps, whatever the disk, the stored manifests and the
    outside services do in between. */
module GateRuns {
  import opened Json
  import opened GateDisk
  import opened ReleaseGate

  /** One call, or an interference from outside: `Drift` changes the material,
      `Forge` replaces the stored manifests. */
  datatype Command =
    | RunSubmission(oracle: Oracle)
    | Record(result: Option<TestResult>)
    | Decide(approve: Option<bool>, ref: string)
    | MakeFinal(dir: string, now: string, fault: Fault)
    | RunRelease(oracle: Oracle, hardened: bool)
    | Drift(disk: Disk)
    | Forge(manifestS: ManifestS, manifestR: Option<ManifestR>)

  function Settle(c: Case, r: Reply<Case>): Case {
    if r.Done? then r.value else c
  }

  /** The case afterwards; a refused call changes nothing. */
  function Step(h: Host, p: Policy, c: Case, command: Command): Case {
    match command
    case RunSubmission(o) => Settle(c, SubmissionGate(h, p, c, o))
    case Record(result) => Settle(c, RecordTest(p, c, result))
    case Decide(approve, ref) => Settle(c, RecordApproval(h, c, approve, ref))
    case MakeFinal(dir, now, fault) => Build(h, c, dir, now, fault).1
    case RunRelease(o, hardened) => Settle(c, RunGate(h, c, o, hardened))
    case Drift(disk) => c.(disk := disk)
    case Forge(s, r) => c.(manifestS := s, manifestR := r)
  }

  function After(h: Host, p: Policy, c: Case, commands: seq<Command>): Case
    decreases |commands|
  {
    if commands == [] then c
    else Step(h, p, After(h, p, c, commands[..|commands| - 1]), commands[|commands| - 1])
  }

  // ---------------------------------------------------------------- the invariant

  /** The moves of the state diagram. */
  predicate IsMove(from: Status, to: Status) {
    match from
    case SubmissionGating => to in {Testing, SubmissionBlocked}
    case SubmissionBlocked => to in {Testing, SubmissionBlocked}
    case Testing => to in {SubmissionBlocked, ReleasePreparing, TestApprovalRequired}
    case TestApprovalRequired => to in {SubmissionBlocked, ReleasePreparing}
    case ReleasePreparing => to == ReleaseGating
    case ReleaseGating => to in {ReleaseReady, ReleaseBlocked, SubmissionBlocked}
    case ReleaseBlocked => to in {ReleaseReady, ReleaseBlocked, SubmissionBlocked}
    case ReleaseReady => false
  }

  predicate IsLink(s: seq<HistoryEntry>, i: nat)
    requires 0 < i < |s|
  {
    s[i].from == Some(s[i - 1].to) && IsMove(s[i - 1].to, s[i].to)
  }

  /** A connected path of the diagram, entered from nothing and ending at `status`. */
  predicate IsHistory(s: seq<HistoryEntry>, status: Status) {
    && s != []
    && s[0].from == None && s[0].to in {SubmissionGating, Testing}
    && s[|s| - 1].to == status
    && forall i :: 0 < i < |s| ==> IsLink(s, i)
  }

  predicate IsReleasePhase(status: Status) {
    status in {ReleasePreparing, ReleaseGating, ReleaseBlocked, ReleaseReady}
  }

  predicate IsBuilt(status: Status) {
    status in {ReleaseGating, ReleaseBlocked, ReleaseReady}
  }

  /** The test passed, and the approval is the one this risk level needs. */
  predicate IsApproved(p: Policy, e: Event) {
    && e.test == Some(Pass)
    && (e.approval == Some(AutoApproved)
        || (e.approval.Some? && e.approval.value.Approved? && e.approval.value.ref != ""))
    && (e.approval == Some(AutoApproved) <==> e.riskLevel in p.autoApproved)
  }

  predicate EventHolds(p: Policy, e: Event) {
    && IsHistory(e.history, e.status)
    && (e.status == TestApprovalRequired ==>
          e.test == Some(Pass) && e.approval == Some(PendingApproval) && e.riskLevel !in p.autoApproved)
    && (IsReleasePhase(e.status) ==> IsApproved(p, e))
    && (IsBuilt(e.status) ==> e.manifestRDigest.Some? && e.finalOutputDir.Some?)
  }

  /** What is fixed when the event is made. */
  predicate IsSameSubmission(a: Event, b: Event) {
    && a.eventId == b.eventId && a.origin == b.origin && a.riskLevel == b.riskLevel
    && a.rollbackRef == b.rollbackRef && a.manifestSDigest == b.manifestSDigest
  }

  /** A freshly made event: created, or imported after an outside submission gate. */
  predicate IsNewEvent(e: Event) {
    && e.status in {SubmissionGating, Testing}
    && e.history == [HistoryEntry(None, e.status)]
    && e.test.None? && e.approval.None? && e.manifestRDigest.None?
  }

  lemma MoveKeepsHistory(e: Event, to: Status)
    requires IsHistory(e.history, e.status) && IsMove(e.status, to)
    ensures IsHistory(Transition(e, to).history, to)
  {
    var s := Transition(e, to).history;
    forall i | 0 < i < |s|
      ensures IsLink(s, i)
    {
      if i < |e.history| {
        assert IsLink(e.history, i);
      }
    }
  }

  lemma StepKeepsEvent(h: Host, p: Policy, c: Case, command: Command)
    requires EventHolds(p, c.event)
    ensures EventHolds(p, Step(h, p, c, command).event)
    ensures IsSameSubmission(c.event, Step(h, p, c, command).event)
  {
    hide PassesSubmission, NoDrift, NoHardenedDrift, ServicesAgree, ManifestsBound, IsFinalIntact;
    hide Published, FinalsOf, Exists, AreSourcesIntact, AreNamesSafe, IsSubmissionFrozen, IndexBy;
    var next := Step(h, p, c, command).event;
    if next.history != c.event.history {
      assert IsMove(c.event.status, next.status);
      MoveKeepsHistory(c.event, next.status);
    }
  }

  /** Over every run the event keeps its invariant: in the release phase the test has
      passed and the approval is in place, so rule R-08 cannot fail there, however often
      the event fell back to SUBMISSION_BLOCKED and whatever was forged or changed. */
  lemma {:induction false} RunKeepsEvent(h: Host, p: Policy, c: Case, commands: seq<Command>)
    requires IsNewEvent(c.event)
    ensures EventHolds(p, After(h, p, c, commands).event)
    ensures IsSameSubmission(c.event, After(h, p, c, commands).event)
    ensures IsReleasePhase(After(h, p, c, commands).event.status) ==>
              TestAndApprovalBound(After(h, p, c, commands).event)
    decreases |commands|
  {
    if commands != [] {
      var n := |commands| - 1;
      RunKeepsEvent(h, p, c, commands[..n]);
      StepKeepsEvent(h, p, After(h, p, c, commands[..n]), commands[n]);
    }
  }

  /** RELEASE_READY is absorbing: the event, with its evidence, never changes again. */
  lemma {:induction false} ReadyIsFinal(h: Host, p: Policy, c: Case, commands: seq<Command>)
    requires c.event.status == ReleaseReady
    ensures After(h, p, c, commands).event == c.event
    decreases |commands|
  {
    if commands != [] {
      ReadyIsFinal(h, p, c, commands[..|commands| - 1]);
    }
  }

  // ---------------------------------------------------------------- the way to a release

  /** The last pass of a history through the diagram: tested at `t`, approved, built at
      `b`, and never sent back since. */
  predicate IsPass(s: seq<HistoryEntry>, t: nat, b: nat) {
    && t < b < |s| && b - t in {2, 3}
    && s[t].to == Testing && s[b - 1].to == ReleasePreparing && s[b].to == ReleaseGating
    && (b == t + 3 ==> s[t + 1].to == TestApprovalRequired)
    && forall m {:trigger s[m]} :: b <= m < |s| ==> IsBuilt(s[m].to)
  }

  lemma {:induction false} LastBuild(s: seq<HistoryEntry>, status: Status) returns (b: nat)
    requires IsHistory(s, status) && IsBuilt(status)
    ensures 0 < b < |s| && s[b].to == ReleaseGating && s[b - 1].to == ReleasePreparing
    ensures forall m {:trigger s[m]} :: b <= m < |s| ==> IsBuilt(s[m].to)
    decreases |s|
  {
    var last := |s| - 1;
    assert last > 0 && IsLink(s, last);
    if s[last].to == ReleaseGating {
      b := last;
    } else {
      forall i | 0 < i < last
        ensures IsLink(s[..last], i)
      {
        assert IsLink(s, i);
      }
      b := LastBuild(s[..last], s[last - 1].to);
      assert forall m :: b <= m < last ==> s[..last][m] == s[m];
    }
  }

  /** No shortcut to release: whatever happened before, the history of a built or
      released event ends with a test, an approval and a build, in that order, with
      no return to SUBMISSION_BLOCKED after the test. */
  lemma ReleaseHistory(s: seq<HistoryEntry>, status: Status) returns (t: nat, b: nat)
    requires IsHistory(s, status) && IsBuilt(status)
    ensures IsPass(s, t, b)
  {
    b := LastBuild(s, status);
    assert b >= 2 && IsLink(s, b - 1);
    if s[b - 2].to == Testing {
      t := b - 2;
    } else {
      assert b >= 3 && IsLink(s, b - 2);
      t := b - 3;
    }
  }
}
