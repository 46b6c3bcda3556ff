/** Runner activation seen from outside: the calls made to GitLab, to the Windows service
    manager and to the protected files, in order, each with its answer. */
module RunnerTraces {
  import opened Json

  datatype RunnerPolicy = RunnerPolicy(
    name: string, tags: seq<string>, accessLevel: string, installService: bool)

  /** A runner as the API reports it. `malformed` records make the attestation raise
      something other than its own error. Tags are case-folded. */
  datatype RunnerRecord = RunnerRecord(
    isObject: bool, malformed: bool, id: int, description: string, paused: Option<bool>, locked: bool,
    runUntagged: bool, accessLevel: string, tags: seq<string>, projects: set<int>, online: bool)

  datatype ServiceRecord = ServiceRecord(exist: bool, imageMatches: bool, daclSafe: bool, accountMatches: bool,
                                         state: string)

  datatype Act =
    | QueryService | InstallService | HardenService | ConfigureService | StartService | StopService | UninstallService
    | DisableService | GetProject | CreateRunner | DeleteRunner | SetPaused(paused: bool) | GetRunner
    | Register | VerifyConfig | VerifyRunner | WriteReceipt | RemoveReceipt | WriteJournal(stage: string)
    | RemoveJournal | RemoveConfig | LoadJournal | CheckConfigFile

  datatype Fault = ToolFault | OtherFault

  /** The part that the call in question returns is read, the rest is not. */
  datatype Answer = Answer(
    fault: Option<Fault>, service: ServiceRecord, runner: RunnerRecord, id: int, projectId: int, token: string,
    yes: bool)

  datatype Event = Event(act: Act, answer: Answer)

  type Trace = seq<Event>

  // ---------------------------------------------------------------- attestation

  /** Every field of the record is as the policy and the journal say. */
  predicate Attests(p: RunnerPolicy, r: RunnerRecord, runnerId: int, projectId: int, paused: bool) {
    && r.isObject && !r.malformed
    && r.id == runnerId && r.description == p.name && r.paused == Some(paused)
    && r.locked && !r.runUntagged && r.accessLevel == p.accessLevel
    && multiset(r.tags) == multiset(p.tags) && projectId in r.projects
  }

  predicate AttestsImage(s: ServiceRecord) {
    s.exist && s.imageMatches
  }

  predicate AttestsService(s: ServiceRecord, requireRunning: bool) {
    AttestsImage(s) && s.daclSafe && s.accountMatches && (requireRunning ==> s.state == "running")
  }

  // ---------------------------------------------------------------- what a trace shows

  predicate Succeeded(e: Event, act: Act) {
    e.act == act && e.answer.fault.None?
  }

  /** A command that decides whether the runner takes jobs. Runners are created paused. */
  function PauseCommand(act: Act): Option<bool> {
    match act
    case SetPaused(b) => Some(b)
    case CreateRunner => Some(true)
    case _ => None
  }

  predicate IsQuiet(t: Trace) {
    forall i :: 0 <= i < |t| ==> PauseCommand(t[i].act).None?
  }

  predicate HasNoUnpause(t: Trace) {
    forall i :: 0 <= i < |t| ==> t[i].act != SetPaused(false)
  }

  predicate IsLastPauseAt(t: Trace, p: nat) {
    p < |t| && PauseCommand(t[p].act) == Some(true) && forall i :: p < i < |t| ==> PauseCommand(t[i].act).None?
  }

  /** The latest pause command, if any, was to pause. */
  ghost predicate EndsPaused(t: Trace) {
    IsQuiet(t) || exists p: nat :: IsLastPauseAt(t, p)
  }

  predicate IsPausedAttest(p: RunnerPolicy, runnerId: int, projectId: int, e: Event) {
    Succeeded(e, GetRunner) && Attests(p, e.answer.runner, runnerId, projectId, true)
  }

  /** GitLab was seen to report the runner paused after the latest pause command. */
  predicate IsConfirmedBy(p: RunnerPolicy, runnerId: int, projectId: int, t: Trace, i: nat, g: nat) {
    i < g < |t| && IsLastPauseAt(t, i) && IsPausedAttest(p, runnerId, projectId, t[g])
  }

  ghost predicate IsConfirmed(p: RunnerPolicy, runnerId: int, projectId: int, t: Trace) {
    exists i: nat, g: nat :: IsConfirmedBy(p, runnerId, projectId, t, i, g)
  }

  /** The three calls right before the runner is let go: the service attested running, the
      paused runner attested online, the identity receipt written. */
  predicate IsGuarded(p: RunnerPolicy, runnerId: int, projectId: int, t: Trace, u: nat) {
    && 3 <= u < |t|
    && Succeeded(t[u - 3], QueryService) && AttestsService(t[u - 3].answer.service, true)
    && IsPausedAttest(p, runnerId, projectId, t[u - 2]) && t[u - 2].answer.runner.online
    && Succeeded(t[u - 1], WriteReceipt)
  }

  /** `paused=false` is sent at most once, and only right after those three. */
  predicate UnpausesOnce(p: RunnerPolicy, runnerId: int, projectId: int, t: Trace) {
    && (forall u :: 0 <= u < |t| && t[u].act == SetPaused(false) ==> IsGuarded(p, runnerId, projectId, t, u))
    && (forall u, v :: 0 <= u < v < |t| && t[u].act == SetPaused(false) ==> t[v].act != SetPaused(false))
  }

  /** The run ended with the unpausing, the active runner attested online, and the journal. */
  predicate EndsActive(p: RunnerPolicy, runnerId: int, projectId: int, t: Trace) {
    var n := |t|;
    && n >= 6
    && Succeeded(t[n - 3], SetPaused(false)) && IsGuarded(p, runnerId, projectId, t, n - 3)
    && Succeeded(t[n - 2], GetRunner) && Attests(p, t[n - 2].answer.runner, runnerId, projectId, false)
    && t[n - 2].answer.runner.online
    && Succeeded(t[n - 1], WriteJournal("ready"))
  }

  datatype Outcome = Returned(stage: string, paused: Option<bool>, ready: bool) | Raised

  /** What every call promises of the calls it made, whatever the answers were. A call that
      returns without the runner ready has sent a pause command, and the latest one paused;
      only a call that raises may have sent none. */
  ghost predicate IsFailClosed(p: RunnerPolicy, runnerId: int, projectId: int, t: Trace, out: Outcome) {
    && UnpausesOnce(p, runnerId, projectId, t)
    && (if out.Returned? && out.ready then EndsActive(p, runnerId, projectId, t) else EndsPaused(t))
    && (out.Returned? ==> !IsQuiet(t))
    && (out.Returned? && out.paused == Some(true) ==> IsConfirmed(p, runnerId, projectId, t))
    && (out.Returned? && out.paused == Some(false) ==> out.ready)
  }

  // ---------------------------------------------------------------- composing traces

  lemma QuietAppend(a: Trace, b: Trace)
    requires IsQuiet(a) && IsQuiet(b)
    ensures IsQuiet(a + b)
  {
  }

  lemma NotQuietLonger(a: Trace, b: Trace)
    requires !IsQuiet(a) || !IsQuiet(b)
    ensures !IsQuiet(a + b)
  {
    if i :| 0 <= i < |a| && PauseCommand(a[i].act).Some? {
      assert (a + b)[i] == a[i];
    } else {
      var j :| 0 <= j < |b| && PauseCommand(b[j].act).Some?;
      assert (a + b)[|a| + j] == b[j];
    }
  }

  lemma QuietHasNoUnpause(t: Trace)
    requires IsQuiet(t)
    ensures HasNoUnpause(t)
  {
    forall i | 0 <= i < |t|
      ensures t[i].act != SetPaused(false)
    {
      assert PauseCommand(t[i].act).None?;
    }
  }

  lemma NoUnpauseAppend(a: Trace, b: Trace)
    requires HasNoUnpause(a) && HasNoUnpause(b)
    ensures HasNoUnpause(a + b)
  {
  }

  /** What ends a trace paused ends any longer one paused. */
  lemma EndsPausedAfter(a: Trace, b: Trace)
    requires EndsPaused(b) && (IsQuiet(b) ==> EndsPaused(a))
    ensures EndsPaused(a + b)
  {
    if IsQuiet(b) {
      EndsPausedThen(a, b);
    } else {
      var p: nat :| IsLastPauseAt(b, p);
      assert (a + b)[|a| + p] == b[p];
      assert IsLastPauseAt(a + b, |a| + p);
    }
  }

  lemma EndsPausedThen(a: Trace, b: Trace)
    requires EndsPaused(a) && IsQuiet(b)
    ensures EndsPaused(a + b)
  {
    if IsQuiet(a) {
      QuietAppend(a, b);
    } else {
      var p: nat :| IsLastPauseAt(a, p);
      assert IsLastPauseAt(a + b, p);
    }
  }

  lemma ConfirmedAfter(p: RunnerPolicy, runnerId: int, projectId: int, a: Trace, b: Trace)
    requires IsConfirmed(p, runnerId, projectId, b)
    ensures IsConfirmed(p, runnerId, projectId, a + b)
  {
    var i: nat, g: nat :| IsConfirmedBy(p, runnerId, projectId, b, i, g);
    assert (a + b)[|a| + i] == b[i] && (a + b)[|a| + g] == b[g];
    assert IsLastPauseAt(a + b, |a| + i);
    assert IsConfirmedBy(p, runnerId, projectId, a + b, |a| + i, |a| + g);
  }

  lemma ConfirmedThen(p: RunnerPolicy, runnerId: int, projectId: int, a: Trace, b: Trace)
    requires IsConfirmed(p, runnerId, projectId, a) && IsQuiet(b)
    ensures IsConfirmed(p, runnerId, projectId, a + b)
  {
    var i: nat, g: nat :| IsConfirmedBy(p, runnerId, projectId, a, i, g);
    assert IsLastPauseAt(a + b, i);
    assert IsConfirmedBy(p, runnerId, projectId, a + b, i, g);
  }

  lemma UnpausesAfter(p: RunnerPolicy, runnerId: int, projectId: int, a: Trace, b: Trace)
    requires HasNoUnpause(a) && UnpausesOnce(p, runnerId, projectId, b)
    ensures UnpausesOnce(p, runnerId, projectId, a + b)
  {
    var t := a + b;
    forall u | 0 <= u < |t| && t[u].act == SetPaused(false)
      ensures u >= |a| && b[u - |a|].act == SetPaused(false) && IsGuarded(p, runnerId, projectId, t, u)
    {
      assert u >= |a|;
      var v := u - |a|;
      assert IsGuarded(p, runnerId, projectId, b, v);
      assert t[u - 3] == b[v - 3] && t[u - 2] == b[v - 2] && t[u - 1] == b[v - 1];
    }
  }

  lemma UnpausesThen(p: RunnerPolicy, runnerId: int, projectId: int, a: Trace, b: Trace)
    requires UnpausesOnce(p, runnerId, projectId, a) && HasNoUnpause(b)
    ensures UnpausesOnce(p, runnerId, projectId, a + b)
  {
    var t := a + b;
    forall u | 0 <= u < |t| && t[u].act == SetPaused(false)
      ensures u < |a| && IsGuarded(p, runnerId, projectId, t, u)
    {
      assert u < |a|;
      assert IsGuarded(p, runnerId, projectId, a, u);
    }
  }

  lemma ActiveAfter(p: RunnerPolicy, runnerId: int, projectId: int, a: Trace, b: Trace)
    requires EndsActive(p, runnerId, projectId, b)
    ensures EndsActive(p, runnerId, projectId, a + b)
  {
    var t := a + b;
    var n, m := |t|, |b|;
    assert t[n - 1] == b[m - 1] && t[n - 2] == b[m - 2] && t[n - 3] == b[m - 3];
    assert t[n - 4] == b[m - 4] && t[n - 5] == b[m - 5] && t[n - 6] == b[m - 6];
  }

  /** Calls that never let the runner go, before calls that are fail-closed. */
  lemma FailClosedAfter(p: RunnerPolicy, runnerId: int, projectId: int, a: Trace, b: Trace, out: Outcome)
    requires HasNoUnpause(a) && EndsPaused(a) && IsFailClosed(p, runnerId, projectId, b, out)
    ensures IsFailClosed(p, runnerId, projectId, a + b, out)
  {
    UnpausesAfter(p, runnerId, projectId, a, b);
    if out.Returned? {
      NotQuietLonger(a, b);
    }
    if out.Returned? && out.ready {
      ActiveAfter(p, runnerId, projectId, a, b);
    } else {
      EndsPausedAfter(a, b);
    }
    if out.Returned? && out.paused == Some(true) {
      ConfirmedAfter(p, runnerId, projectId, a, b);
    }
  }
}
