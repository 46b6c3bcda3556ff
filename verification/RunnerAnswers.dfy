/** What the answers GitLab and the service manager gave have to do with what came of an
    activation: the answer behind every failure, and success when no answer was bad. */
module RunnerAnswers {
  import opened Json
  import opened RunnerTraces

  /** Polling rounds beyond the first. */
  type Patience = nat

  /** The operation a trace belongs to. Activation is the tail of the other two. */
  datatype Way = Activating | Resuming | Provisioning

  // ---------------------------------------------------------------- single calls

  predicate Refused(e: Event, act: Act) {
    e.act == act && e.answer.fault.Some?
  }

  predicate ActsLast(t: Trace, act: Act) {
    t != [] && t[|t| - 1].act == act
  }

  predicate HasNoted(t: Trace, stage: string) {
    exists i :: 0 <= i < |t| && t[i].act == WriteJournal(stage)
  }

  /** The runner was let go and not paused since. */
  ghost predicate IsLetGo(t: Trace) {
    exists u: nat :: u < |t| && t[u].act == SetPaused(false) && IsQuiet(t[u + 1..])
  }

  predicate IsSeenRunning(e: Event) {
    Succeeded(e, QueryService) && AttestsService(e.answer.service, true)
  }

  predicate IsSeenOnline(p: RunnerPolicy, runnerId: int, projectId: int, e: Event) {
    IsPausedAttest(p, runnerId, projectId, e) && e.answer.runner.online
  }

  /** A just installed service: the right program, and not running. */
  predicate IsSeenInstalled(e: Event) {
    Succeeded(e, QueryService) && AttestsImage(e.answer.service) && e.answer.service.state == "stopped"
  }

  predicate IsSeenHardened(e: Event) {
    Succeeded(e, QueryService) && AttestsImage(e.answer.service) && e.answer.service.daclSafe
  }

  predicate IsSeenSafe(e: Event) {
    Succeeded(e, QueryService) && AttestsService(e.answer.service, false)
  }

  predicate IsSeenAbsent(e: Event) {
    Succeeded(e, QueryService) && !e.answer.service.exist
  }

  // ---------------------------------------------------------------- polling

  /** `n` rounds, each a look at the service and, when it runs safely, one at the runner,
      none of which found the paused runner online. */
  predicate IsFruitless(p: RunnerPolicy, runnerId: int, projectId: int, n: nat, poll: Trace) {
    if n == 0 then
      poll == []
    else
      && poll != [] && poll[0].act == QueryService
      && (if IsSeenRunning(poll[0]) then
            && |poll| > 1 && poll[1].act == GetRunner && !IsSeenOnline(p, runnerId, projectId, poll[1])
            && IsFruitless(p, runnerId, projectId, n - 1, poll[2..])
          else
            IsFruitless(p, runnerId, projectId, n - 1, poll[1..]))
  }

  lemma {:induction false} FruitlessMore(p: RunnerPolicy, runnerId: int, projectId: int, n: nat, poll: Trace,
                                         round: Trace)
    requires IsFruitless(p, runnerId, projectId, n, poll) && IsFruitless(p, runnerId, projectId, 1, round)
    ensures IsFruitless(p, runnerId, projectId, n + 1, poll + round)
  {
    hide IsSeenRunning, IsSeenOnline;
    if n == 0 {
      assert poll + round == round;
    } else if IsSeenRunning(poll[0]) {
      FruitlessMore(p, runnerId, projectId, n - 1, poll[2..], round);
      assert (poll + round)[2..] == poll[2..] + round;
    } else {
      FruitlessMore(p, runnerId, projectId, n - 1, poll[1..], round);
      assert (poll + round)[1..] == poll[1..] + round;
    }
  }

  // ---------------------------------------------------------------- the answer behind a failure

  /** No step of an installation came right before, and no installed service was noted yet. */
  predicate IsFirstLook(before: Trace) {
    && !ActsLast(before, InstallService) && !ActsLast(before, HardenService) && !ActsLast(before, ConfigureService)
    && !HasNoted(before, "service_installed")
  }

  predicate LookRefused(before: Trace, e: Event) {
    IsFirstLook(before) && Refused(e, QueryService)
  }

  predicate FoundUnsafe(before: Trace, e: Event) {
    IsFirstLook(before) && Succeeded(e, QueryService) && e.answer.service.exist && !IsSeenSafe(e)
  }

  predicate NotInstalled(before: Trace, e: Event) {
    before != [] && IsSeenAbsent(before[|before| - 1]) && Refused(e, InstallService)
  }

  predicate NotAsInstalled(before: Trace, e: Event) {
    ActsLast(before, InstallService) && e.act == QueryService && !IsSeenInstalled(e)
  }

  predicate NotHardened(before: Trace, e: Event) {
    Refused(e, HardenService) || (ActsLast(before, HardenService) && e.act == QueryService && !IsSeenHardened(e))
  }

  predicate NotConfigured(before: Trace, e: Event) {
    Refused(e, ConfigureService) || (ActsLast(before, ConfigureService) && e.act == QueryService && !IsSeenSafe(e))
  }

  predicate NotStarted(before: Trace, e: Event) {
    before != [] && Refused(before[|before| - 1], StartService) && e.act == QueryService && !IsSeenRunning(e)
  }

  predicate BlamesService(before: Trace, e: Event, stage: string) {
    match stage
    case "service_inspection_failed" => LookRefused(before, e)
    case "partial_service_rejected" => FoundUnsafe(before, e)
    case "service_install_failed" => NotInstalled(before, e)
    case "service_attestation_failed" => NotAsInstalled(before, e)
    case "service_dacl_hardening_failed" => NotHardened(before, e)
    case "service_account_configuration_failed" => NotConfigured(before, e)
    case "service_start_failed" => NotStarted(before, e)
    case _ => false
  }

  /** The runner was seen online in the last round of polling. */
  predicate EndsOnline(p: RunnerPolicy, runnerId: int, projectId: int, t: Trace) {
    |t| >= 2 && IsSeenRunning(t[|t| - 2]) && IsSeenOnline(p, runnerId, projectId, t[|t| - 1])
  }

  /** Polling began once the service was noted as started, and went through all its rounds. */
  predicate TimesOut(p: RunnerPolicy, runnerId: int, projectId: int, patience: Patience, t: Trace) {
    exists k :: 0 <= k < |t| && t[k].act == WriteJournal("service_started")
                && IsFruitless(p, runnerId, projectId, patience + 1, t[k + 1..])
  }

  predicate NeverOnline(p: RunnerPolicy, runnerId: int, projectId: int, patience: Patience, before: Trace, e: Event) {
    HasNoUnpause(before) && TimesOut(p, runnerId, projectId, patience, before) && e.act == SetPaused(true)
  }

  /** One of the two looks right before the runner is let go. */
  predicate NotReady(p: RunnerPolicy, runnerId: int, projectId: int, before: Trace, e: Event) {
    && HasNoUnpause(before)
    && (|| (EndsOnline(p, runnerId, projectId, before) && HasNoted(before, "service_started")
            && e.act == QueryService && !IsSeenRunning(e))
        || (before != [] && IsSeenRunning(before[|before| - 1])
            && EndsOnline(p, runnerId, projectId, before[..|before| - 1])
            && e.act == GetRunner && !IsSeenOnline(p, runnerId, projectId, e)))
  }

  predicate NotActive(p: RunnerPolicy, runnerId: int, projectId: int, before: Trace, e: Event) {
    || Refused(e, SetPaused(false)) || Refused(e, WriteJournal("ready"))
    || (ActsLast(before, SetPaused(false)) && e.act == GetRunner
        && !(e.answer.fault.None? && e.answer.runner.online
             && Attests(p, e.answer.runner, runnerId, projectId, false)))
  }

  predicate BlamesActivation(p: RunnerPolicy, runnerId: int, projectId: int, patience: Patience, before: Trace,
                             e: Event, stage: string) {
    match stage
    case "online_attestation_timeout" => NeverOnline(p, runnerId, projectId, patience, before, e)
    case "activation_attestation_failed" => NotReady(p, runnerId, projectId, before, e)
    case "identity_receipt_failed" => Refused(e, WriteReceipt)
    case "activation_failed" => NotActive(p, runnerId, projectId, before, e)
    case _ => false
  }

  /** The pause was refused, or the look that followed it did not show the runner paused. */
  predicate Unconfirmed(p: RunnerPolicy, runnerId: int, projectId: int, before: Trace, e: Event) {
    || Refused(e, SetPaused(true))
    || (ActsLast(before, SetPaused(true)) && e.act == GetRunner && !IsPausedAttest(p, runnerId, projectId, e))
  }

  predicate BlamesResume(p: RunnerPolicy, runnerId: int, projectId: int, before: Trace, e: Event, stage: string) {
    match stage
    case "resume_pause_unconfirmed" => HasNoUnpause(before) && Unconfirmed(p, runnerId, projectId, before, e)
    case "resume_identity_receipt_reset_failed" =>
      e.act == RemoveReceipt && !(e.answer.fault.None? && e.answer.yes)
    case "resume_config_validation_failed" => Refused(e, VerifyConfig)
    case "resume_verify_failed" => Refused(e, VerifyRunner)
    case "resume_api_attestation_failed" =>
      && HasNoUnpause(before) && ActsLast(before, VerifyRunner)
      && e.act == GetRunner && !IsPausedAttest(p, runnerId, projectId, e)
    case _ => false
  }

  /** The answer `e`, after the calls `before`, is what failure at `stage` reports. */
  predicate Blames(way: Way, p: RunnerPolicy, runnerId: int, projectId: int, patience: Patience, before: Trace,
                   e: Event, stage: string) {
    || BlamesService(before, e, stage)
    || BlamesActivation(p, runnerId, projectId, patience, before, e, stage)
    || (way.Resuming? && BlamesResume(p, runnerId, projectId, before, e, stage))
  }

  predicate FailsAt(way: Way, p: RunnerPolicy, runnerId: int, projectId: int, patience: Patience, t: Trace, i: nat,
                    stage: string) {
    i < |t| && Blames(way, p, runnerId, projectId, patience, t[..i], t[i], stage)
  }

  ghost predicate Fails(way: Way, p: RunnerPolicy, runnerId: int, projectId: int, patience: Patience, t: Trace,
                        stage: string) {
    exists i: nat :: FailsAt(way, p, runnerId, projectId, patience, t, i, stage)
  }

  /** While polling, only errors of the tool's own kind are swallowed. */
  predicate Escapes(e: Event) {
    || (e.act in {QueryService, GetRunner} && e.answer.fault == Some(OtherFault))
    || (e.act == GetRunner && e.answer.fault.None? && e.answer.runner.isObject && e.answer.runner.malformed)
  }

  predicate StopsResume(projectId: int, e: Event) {
    || (e.act == GetProject && !(e.answer.fault.None? && e.answer.projectId == projectId))
    || (e.act == CheckConfigFile && !(e.answer.fault.None? && e.answer.yes))
  }

  predicate StopsProvision(p: RunnerPolicy, runnerId: int, projectId: int, before: Trace, e: Event) {
    || (before == [] && e.act == QueryService && !IsSeenAbsent(e))
    || (e.act == GetProject && !(e.answer.fault.None? && e.answer.projectId > 0))
    || (e.act == CreateRunner && !(e.answer.fault.None? && e.answer.id > 0 && e.answer.token != ""))
    || Refused(e, WriteJournal("api_created_paused")) || Refused(e, Register) || Refused(e, CheckConfigFile)
    || Refused(e, VerifyConfig) || Refused(e, VerifyRunner) || Refused(e, WriteJournal("registered_paused"))
    || (HasNoUnpause(before) && ActsLast(before, VerifyRunner) && e.act == GetRunner
        && !IsPausedAttest(p, runnerId, projectId, e))
  }

  predicate Aborts(way: Way, p: RunnerPolicy, runnerId: int, projectId: int, before: Trace, e: Event) {
    || Escapes(e)
    || (way.Resuming? && StopsResume(projectId, e))
    || (way.Provisioning? && StopsProvision(p, runnerId, projectId, before, e))
  }

  predicate RaisesAt(way: Way, p: RunnerPolicy, runnerId: int, projectId: int, t: Trace, i: nat) {
    i < |t| && Aborts(way, p, runnerId, projectId, t[..i], t[i])
  }

  ghost predicate Raises(way: Way, p: RunnerPolicy, runnerId: int, projectId: int, t: Trace) {
    exists i: nat :: RaisesAt(way, p, runnerId, projectId, t, i)
  }

  predicate DoubtsAt(p: RunnerPolicy, runnerId: int, projectId: int, t: Trace, i: nat) {
    i < |t| && Unconfirmed(p, runnerId, projectId, t[..i], t[i])
  }

  ghost predicate Doubts(p: RunnerPolicy, runnerId: int, projectId: int, t: Trace) {
    exists i: nat :: DoubtsAt(p, runnerId, projectId, t, i)
  }

  // ---------------------------------------------------------------- what precedes success

  /** Installed, hardened and configured, in this order, with a satisfying look after each. */
  predicate IsInstallation(t: Trace) {
    && |t| == 7 && IsSeenAbsent(t[0])
    && Succeeded(t[1], InstallService) && IsSeenInstalled(t[2])
    && Succeeded(t[3], HardenService) && IsSeenHardened(t[4])
    && Succeeded(t[5], ConfigureService) && IsSeenSafe(t[6])
  }

  /** A safe service was found or installed. */
  predicate IsPreparation(t: Trace) {
    (|t| == 1 && IsSeenSafe(t[0])) || IsInstallation(t)
  }

  /** From `k` to `j` the service was prepared, then noted, and started unless it ran. */
  predicate PreparesAt(t: Trace, k: nat, j: nat) {
    && k < j && j + 1 < |t| && IsPreparation(t[k..j])
    && t[j].act == WriteJournal("service_installed")
    && (t[j - 1].answer.service.state != "running" ==> t[j + 1].act == StartService)
  }

  ghost predicate Prepares(t: Trace) {
    exists k: nat, j: nat :: PreparesAt(t, k, j)
  }

  // ---------------------------------------------------------------- the outcome explained

  /** What came out is what the answers call for. */
  ghost predicate IsExplained(way: Way, p: RunnerPolicy, runnerId: int, projectId: int, patience: Patience, t: Trace,
                              out: Outcome) {
    match out
    case Raised => Raises(way, p, runnerId, projectId, t)
    case Returned(stage, paused, ready) =>
      if ready then
        stage == "ready" && paused == Some(false) && Prepares(t) && (p.installService || way.Activating?)
      else if stage == "registered_paused" then
        !p.installService && paused == Some(true) && !way.Activating?
      else
        && paused != Some(false) && (paused.None? ==> Doubts(p, runnerId, projectId, t))
        && Fails(way, p, runnerId, projectId, patience, t, stage)
  }

  // ---------------------------------------------------------------- composing traces

  /** Nothing happened yet that a look at the service would have to know. */
  predicate IsCalm(t: Trace) {
    HasNoUnpause(t) && IsFirstLook(t)
  }

  lemma LookAfter(a: Trace, before: Trace)
    requires IsFirstLook(a) && IsFirstLook(before)
    ensures IsFirstLook(a + before)
  {
    var t := a + before;
    assert t != [] ==> t[|t| - 1] == if before != [] then before[|before| - 1] else a[|a| - 1];
    forall k | 0 <= k < |t|
      ensures t[k].act != WriteJournal("service_installed")
    {
      assert t[k] == if k < |a| then a[k] else before[k - |a|];
    }
  }

  lemma NotedAfter(a: Trace, before: Trace, stage: string)
    requires HasNoted(before, stage)
    ensures HasNoted(a + before, stage)
  {
    var k :| 0 <= k < |before| && before[k].act == WriteJournal(stage);
    assert (a + before)[|a| + k] == before[k];
  }

  lemma ServiceBlamedAfter(a: Trace, before: Trace, e: Event, stage: string)
    requires BlamesService(before, e, stage)
    requires stage in ["service_inspection_failed", "partial_service_rejected"] ==> IsFirstLook(a)
    ensures BlamesService(a + before, e, stage)
  {
    hide IsFirstLook;
    if IsFirstLook(a) && IsFirstLook(before) {
      LookAfter(a, before);
    }
  }

  lemma TimeoutAfter(p: RunnerPolicy, runnerId: int, projectId: int, patience: Patience, a: Trace, before: Trace)
    requires TimesOut(p, runnerId, projectId, patience, before)
    ensures TimesOut(p, runnerId, projectId, patience, a + before)
  {
    hide IsFruitless;
    var k :| 0 <= k < |before| && before[k].act == WriteJournal("service_started")
             && IsFruitless(p, runnerId, projectId, patience + 1, before[k + 1..]);
    assert (a + before)[|a| + k] == before[k];
    assert (a + before)[|a| + k + 1..] == before[k + 1..];
  }

  lemma ActivationBlamedAfter(p: RunnerPolicy, runnerId: int, projectId: int, patience: Patience, a: Trace,
                              before: Trace, e: Event, stage: string)
    requires HasNoUnpause(a) && BlamesActivation(p, runnerId, projectId, patience, before, e, stage)
    ensures BlamesActivation(p, runnerId, projectId, patience, a + before, e, stage)
  {
    hide HasNoUnpause, TimesOut, HasNoted, IsSeenRunning, IsSeenOnline, Attests;
    var t := a + before;
    if HasNoUnpause(before) {
      NoUnpauseAppend(a, before);
    }
    if TimesOut(p, runnerId, projectId, patience, before) {
      TimeoutAfter(p, runnerId, projectId, patience, a, before);
    }
    if HasNoted(before, "service_started") {
      NotedAfter(a, before, "service_started");
    }
    if before != [] {
      assert t[|t| - 1] == before[|before| - 1];
      assert t[..|t| - 1] == a + before[..|before| - 1];
    }
  }

  lemma AbortedAfter(way: Way, p: RunnerPolicy, runnerId: int, projectId: int, a: Trace, before: Trace, e: Event)
    requires Aborts(Activating, p, runnerId, projectId, before, e)
    ensures Aborts(way, p, runnerId, projectId, a + before, e)
  {
  }

  /** The answer `e` is to blame in the whole trace. */
  lemma FailedBy(way: Way, p: RunnerPolicy, runnerId: int, projectId: int, patience: Patience, a: Trace, e: Event,
                 b: Trace, stage: string)
    requires Blames(way, p, runnerId, projectId, patience, a, e, stage)
    ensures Fails(way, p, runnerId, projectId, patience, a + [e] + b, stage)
  {
    hide Blames;
    var t := a + [e] + b;
    assert t[..|a|] == a && t[|a|] == e;
    assert FailsAt(way, p, runnerId, projectId, patience, t, |a|, stage);
  }

  lemma FailedAfter(way: Way, p: RunnerPolicy, runnerId: int, projectId: int, patience: Patience, a: Trace, b: Trace,
                    stage: string)
    requires IsCalm(a) && Fails(Activating, p, runnerId, projectId, patience, b, stage)
    ensures Fails(way, p, runnerId, projectId, patience, a + b, stage)
  {
    hide BlamesService, BlamesActivation, BlamesResume, IsFirstLook, HasNoUnpause;
    var i: nat :| FailsAt(Activating, p, runnerId, projectId, patience, b, i, stage);
    assert (a + b)[..|a| + i] == a + b[..i] && (a + b)[|a| + i] == b[i];
    if BlamesService(b[..i], b[i], stage) {
      ServiceBlamedAfter(a, b[..i], b[i], stage);
    } else {
      ActivationBlamedAfter(p, runnerId, projectId, patience, a, b[..i], b[i], stage);
    }
    assert FailsAt(way, p, runnerId, projectId, patience, a + b, |a| + i, stage);
  }

  lemma RaisedBy(way: Way, p: RunnerPolicy, runnerId: int, projectId: int, a: Trace, e: Event, b: Trace)
    requires Aborts(way, p, runnerId, projectId, a, e)
    ensures Raises(way, p, runnerId, projectId, a + [e] + b)
  {
    hide Aborts;
    var t := a + [e] + b;
    assert t[..|a|] == a && t[|a|] == e;
    assert RaisesAt(way, p, runnerId, projectId, t, |a|);
  }

  lemma RaisedAfter(way: Way, p: RunnerPolicy, runnerId: int, projectId: int, a: Trace, b: Trace)
    requires Raises(Activating, p, runnerId, projectId, b)
    ensures Raises(way, p, runnerId, projectId, a + b)
  {
    hide Aborts;
    var i: nat :| RaisesAt(Activating, p, runnerId, projectId, b, i);
    AbortedAfter(way, p, runnerId, projectId, a, b[..i], b[i]);
    assert (a + b)[..|a| + i] == a + b[..i] && (a + b)[|a| + i] == b[i];
    assert RaisesAt(way, p, runnerId, projectId, a + b, |a| + i);
  }

  lemma DoubtedThen(p: RunnerPolicy, runnerId: int, projectId: int, a: Trace, b: Trace)
    requires Doubts(p, runnerId, projectId, a)
    ensures Doubts(p, runnerId, projectId, a + b)
  {
    hide Unconfirmed;
    var i: nat :| DoubtsAt(p, runnerId, projectId, a, i);
    assert (a + b)[..i] == a[..i] && (a + b)[i] == a[i];
    assert DoubtsAt(p, runnerId, projectId, a + b, i);
  }

  lemma DoubtedAfter(p: RunnerPolicy, runnerId: int, projectId: int, a: Trace, b: Trace)
    requires Doubts(p, runnerId, projectId, b)
    ensures Doubts(p, runnerId, projectId, a + b)
  {
    hide Attests;
    var i: nat :| DoubtsAt(p, runnerId, projectId, b, i);
    assert (a + b)[..|a| + i] == a + b[..i] && (a + b)[|a| + i] == b[i];
    assert DoubtsAt(p, runnerId, projectId, a + b, |a| + i);
  }

  lemma PreparedAfter(a: Trace, b: Trace)
    requires Prepares(b)
    ensures Prepares(a + b)
  {
    hide IsPreparation;
    var k: nat, j: nat :| PreparesAt(b, k, j);
    assert (a + b)[|a| + k..|a| + j] == b[k..j];
    assert PreparesAt(a + b, |a| + k, |a| + j);
  }

  /** An activation explains itself as the tail of a longer operation. */
  lemma ExplainedAfter(way: Way, p: RunnerPolicy, runnerId: int, projectId: int, patience: Patience, a: Trace,
                       b: Trace, out: Outcome)
    requires IsCalm(a) && p.installService && IsExplained(Activating, p, runnerId, projectId, patience, b, out)
    ensures IsExplained(way, p, runnerId, projectId, patience, a + b, out)
  {
    hide IsCalm, Fails, Raises, Doubts, Prepares;
    if out.Raised? {
      RaisedAfter(way, p, runnerId, projectId, a, b);
    } else if out.ready {
      PreparedAfter(a, b);
    } else {
      FailedAfter(way, p, runnerId, projectId, patience, a, b, out.stage);
      if out.paused.None? {
        DoubtedAfter(p, runnerId, projectId, a, b);
      }
    }
  }

  // ---------------------------------------------------------------- explaining an activation

  predicate FailsServiceAt(t: Trace, i: nat, stage: string) {
    i < |t| && BlamesService(t[..i], t[i], stage)
  }

  ghost predicate FailsService(t: Trace, stage: string) {
    exists i: nat :: FailsServiceAt(t, i, stage)
  }

  /** The last of the calls `more` is to blame. */
  predicate IsBlamedOnLast(p: RunnerPolicy, runnerId: int, projectId: int, patience: Patience, before: Trace,
                           more: Trace, stage: string) {
    more != []
    && BlamesActivation(p, runnerId, projectId, patience, before + more[..|more| - 1], more[|more| - 1], stage)
  }

  /** The report leaves the pause open only if it was not confirmed. */
  ghost predicate IsDoubted(p: RunnerPolicy, runnerId: int, projectId: int, t: Trace, out: Outcome) {
    out.Returned? && out.paused != Some(false) && (out.paused.None? ==> Doubts(p, runnerId, projectId, t))
  }

  lemma DoubtedByLast(p: RunnerPolicy, runnerId: int, projectId: int, t: Trace)
    requires t != [] && Unconfirmed(p, runnerId, projectId, t[..|t| - 1], t[|t| - 1])
    ensures Doubts(p, runnerId, projectId, t)
  {
    assert DoubtsAt(p, runnerId, projectId, t, |t| - 1);
  }

  lemma DoubtAfter(p: RunnerPolicy, runnerId: int, projectId: int, a: Trace, b: Trace, out: Outcome)
    requires IsDoubted(p, runnerId, projectId, b, out)
    ensures IsDoubted(p, runnerId, projectId, a + b, out)
  {
    hide Doubts;
    if out.paused.None? {
      DoubtedAfter(p, runnerId, projectId, a, b);
    }
  }

  lemma ServiceFailedBy(a: Trace, e: Event, b: Trace, stage: string)
    requires BlamesService(a, e, stage)
    ensures FailsService(a + [e] + b, stage)
  {
    hide BlamesService;
    var t := a + [e] + b;
    assert t[..|a|] == a && t[|a|] == e;
    assert FailsServiceAt(t, |a|, stage);
  }

  lemma ServiceExplained(p: RunnerPolicy, runnerId: int, projectId: int, patience: Patience, t: Trace, out: Outcome)
    requires IsDoubted(p, runnerId, projectId, t, out) && !out.ready && FailsService(t, out.stage)
    ensures IsExplained(Activating, p, runnerId, projectId, patience, t, out)
  {
    hide Doubts, BlamesActivation;
    var i: nat :| FailsServiceAt(t, i, out.stage);
    assert FailsAt(Activating, p, runnerId, projectId, patience, t, i, out.stage);
  }

  lemma StartExplained(p: RunnerPolicy, runnerId: int, projectId: int, patience: Patience, first: Trace,
                       second: Trace, rest: Trace, out: Outcome)
    requires |second| == 3 && BlamesService(second[..2], second[2], "service_start_failed")
    requires IsDoubted(p, runnerId, projectId, rest, out) && !out.ready && out.stage == "service_start_failed"
    ensures IsExplained(Activating, p, runnerId, projectId, patience, first + second + rest, out)
  {
    hide Doubts, FailsService;
    ServiceBlamedAfter(first, second[..2], second[2], out.stage);
    ServiceFailedBy(first + second[..2], second[2], rest, out.stage);
    assert first + second[..2] + [second[2]] + rest == first + second + rest;
    DoubtAfter(p, runnerId, projectId, first + second, rest, out);
    ServiceExplained(p, runnerId, projectId, patience, first + second + rest, out);
  }

  lemma EscapeExplained(p: RunnerPolicy, runnerId: int, projectId: int, patience: Patience, t: Trace)
    requires t != [] && Escapes(t[|t| - 1])
    ensures IsExplained(Activating, p, runnerId, projectId, patience, t, Raised)
  {
    assert RaisesAt(Activating, p, runnerId, projectId, t, |t| - 1);
  }

  /** Any later blame, explained. */
  lemma BlameExplained(p: RunnerPolicy, runnerId: int, projectId: int, patience: Patience, a: Trace, e: Event,
                       b: Trace, out: Outcome)
    requires out.Returned? && BlamesActivation(p, runnerId, projectId, patience, a, e, out.stage)
    requires IsDoubted(p, runnerId, projectId, a + [e] + b, out) && !out.ready
    ensures IsExplained(Activating, p, runnerId, projectId, patience, a + [e] + b, out)
  {
    hide Doubts, Fails, TimesOut, HasNoted, BlamesService;
    FailedBy(Activating, p, runnerId, projectId, patience, a, e, b, out.stage);
  }

  lemma TimeoutExplained(p: RunnerPolicy, runnerId: int, projectId: int, patience: Patience, first: Trace,
                         second: Trace, poll: Trace, rest: Trace, out: Outcome)
    requires ActsLast(second, WriteJournal("service_started")) && IsQuiet(first + second + poll)
    requires IsFruitless(p, runnerId, projectId, patience + 1, poll)
    requires rest != [] && rest[0].act == SetPaused(true) && IsDoubted(p, runnerId, projectId, rest, out)
    requires !out.ready && out.stage == "online_attestation_timeout"
    ensures IsExplained(Activating, p, runnerId, projectId, patience, first + second + poll + rest, out)
  {
    hide IsQuiet, HasNoUnpause, Doubts, IsFruitless;
    var before := first + second + poll;
    QuietHasNoUnpause(before);
    var k := |first| + |second| - 1;
    assert before[k] == second[|second| - 1] && before[k + 1..] == poll;
    assert TimesOut(p, runnerId, projectId, patience, before);
    DoubtAfter(p, runnerId, projectId, before, rest, out);
    assert before + [rest[0]] + rest[1..] == before + rest;
    BlameExplained(p, runnerId, projectId, patience, before, rest[0], rest[1..], out);
  }

  lemma StartedOnline(p: RunnerPolicy, runnerId: int, projectId: int, first: Trace, second: Trace, third: Trace)
    requires ActsLast(second, WriteJournal("service_started")) && EndsOnline(p, runnerId, projectId, third)
    ensures EndsOnline(p, runnerId, projectId, first + second + third)
    ensures HasNoted(first + second + third, "service_started")
  {
    hide IsSeenRunning, IsSeenOnline;
    var t := first + second + third;
    assert t[|t| - 1] == third[|third| - 1] && t[|t| - 2] == third[|third| - 2];
    assert t[|first| + |second| - 1] == second[|second| - 1];
  }

  lemma ReadyExplained(p: RunnerPolicy, runnerId: int, projectId: int, patience: Patience, before: Trace,
                       rest: Trace)
    requires Prepares(before)
    ensures IsExplained(Activating, p, runnerId, projectId, patience, before + rest,
                        Returned("ready", Some(false), true))
  {
    hide IsPreparation;
    var k: nat, j: nat :| PreparesAt(before, k, j);
    assert (before + rest)[k..j] == before[k..j];
    assert PreparesAt(before + rest, k, j);
  }

  /** A prepared service, noted and started unless it ran. */
  lemma PreparedFirst(first: Trace, second: Trace, rest: Trace, service: ServiceRecord)
    requires IsPreparation(first) && first[|first| - 1].answer.service == service
    requires |second| >= 2 && second[0].act == WriteJournal("service_installed")
    requires service.state != "running" ==> second[1].act == StartService
    ensures Prepares(first + second + rest)
  {
    hide IsInstallation, IsSeenSafe;
    assert |first| > 0 by {
      if IsInstallation(first) {
        InstallationIsLong(first);
      }
    }
    var t := first + second + rest;
    assert t[0..|first|] == first && t[|first|] == second[0] && t[|first| + 1] == second[1];
    assert t[|first| - 1] == first[|first| - 1];
    assert PreparesAt(t, 0, |first|);
  }

  lemma InstallationIsLong(t: Trace)
    requires IsInstallation(t)
    ensures |t| == 7
  {
  }

  lemma TakenBackExplained(p: RunnerPolicy, runnerId: int, projectId: int, patience: Patience, before: Trace,
                           more: Trace, rest: Trace, out: Outcome)
    requires out.Returned? && IsBlamedOnLast(p, runnerId, projectId, patience, before, more, out.stage)
    requires IsDoubted(p, runnerId, projectId, rest, out) && !out.ready
    ensures IsExplained(Activating, p, runnerId, projectId, patience, before + (more + rest), out)
  {
    hide Doubts, BlamesActivation, IsExplained;
    var n := |more| - 1;
    DoubtAfter(p, runnerId, projectId, before + more, rest, out);
    assert before + more[..n] + [more[n]] + rest == before + more + rest == before + (more + rest);
    BlameExplained(p, runnerId, projectId, patience, before + more[..n], more[n], rest, out);
  }

  // ---------------------------------------------------------------- explaining a registration

  /** Each answer of `a`, and of `b`, is one that no first look minds. */
  lemma CalmAfter(a: Trace, b: Trace)
    requires IsCalm(a) && IsFirstLook(b) && IsQuiet(b)
    ensures IsCalm(a + b)
  {
    hide IsFirstLook, HasNoUnpause, IsQuiet;
    LookAfter(a, b);
    QuietHasNoUnpause(b);
    NoUnpauseAppend(a, b);
  }

  predicate StopsResumeAt(projectId: int, t: Trace, i: nat) {
    i < |t| && StopsResume(projectId, t[i])
  }

  ghost predicate StopsResuming(projectId: int, t: Trace) {
    exists i: nat :: StopsResumeAt(projectId, t, i)
  }

  lemma StoppedBy(projectId: int, a: Trace, e: Event, b: Trace)
    requires StopsResume(projectId, e)
    ensures StopsResuming(projectId, a + [e] + b)
  {
    assert (a + [e] + b)[|a|] == e;
    assert StopsResumeAt(projectId, a + [e] + b, |a|);
  }

  lemma StopExplained(p: RunnerPolicy, runnerId: int, projectId: int, patience: Patience, a: Trace, b: Trace)
    requires StopsResuming(projectId, b)
    ensures IsExplained(Resuming, p, runnerId, projectId, patience, a + b, Raised)
  {
    var i: nat :| StopsResumeAt(projectId, b, i);
    assert (a + b)[|a| + i] == b[i];
    assert RaisesAt(Resuming, p, runnerId, projectId, a + b, |a| + i);
  }

  /** The last of the calls `t` is why resuming stopped. */
  predicate IsResumeBlamedOnLast(p: RunnerPolicy, runnerId: int, projectId: int, t: Trace, stage: string) {
    t != [] && BlamesResume(p, runnerId, projectId, t[..|t| - 1], t[|t| - 1], stage)
  }

  lemma ResumeBlamedAfter(p: RunnerPolicy, runnerId: int, projectId: int, a: Trace, b: Trace, stage: string)
    requires HasNoUnpause(a) && IsResumeBlamedOnLast(p, runnerId, projectId, b, stage)
    ensures IsResumeBlamedOnLast(p, runnerId, projectId, a + b, stage)
  {
    hide HasNoUnpause, IsPausedAttest;
    var before := b[..|b| - 1];
    assert (a + b)[..|a + b| - 1] == a + before;
    if HasNoUnpause(before) {
      NoUnpauseAppend(a, before);
    }
    if before != [] {
      assert (a + before)[|a + before| - 1] == before[|before| - 1];
    }
  }

  lemma ResumeExplained(p: RunnerPolicy, runnerId: int, projectId: int, patience: Patience, a: Trace, b: Trace,
                        out: Outcome)
    requires out.Returned? && IsResumeBlamedOnLast(p, runnerId, projectId, a, out.stage) && !out.ready
    requires out.stage != "registered_paused" && IsDoubted(p, runnerId, projectId, a + b, out)
    ensures IsExplained(Resuming, p, runnerId, projectId, patience, a + b, out)
  {
    hide Doubts, BlamesResume, BlamesService, BlamesActivation;
    var n := |a| - 1;
    FailedBy(Resuming, p, runnerId, projectId, patience, a[..n], a[n], b, out.stage);
    assert a[..n] + [a[n]] + b == a + b;
  }

  /** The last of the calls `more` is why provisioning stopped. */
  predicate IsStoppedOnLast(p: RunnerPolicy, runnerId: int, projectId: int, before: Trace, more: Trace) {
    more != [] && StopsProvision(p, runnerId, projectId, before + more[..|more| - 1], more[|more| - 1])
  }

  lemma ProvisionExplained(p: RunnerPolicy, runnerId: int, projectId: int, patience: Patience, before: Trace,
                           more: Trace, rest: Trace)
    requires IsStoppedOnLast(p, runnerId, projectId, before, more)
    ensures IsExplained(Provisioning, p, runnerId, projectId, patience, before + more + rest, Raised)
  {
    hide StopsProvision;
    var n := |more| - 1;
    RaisedBy(Provisioning, p, runnerId, projectId, before + more[..n], more[n], rest);
    assert before + more[..n] + [more[n]] + rest == before + more + rest;
  }

  // ---------------------------------------------------------------- answers without fault

  /** The service as the step that looks at it wants it. */
  predicate IsAsAsked(before: Trace, s: ServiceRecord) {
    if ActsLast(before, InstallService) then
      AttestsImage(s) && s.state == "stopped"
    else if ActsLast(before, HardenService) then
      AttestsImage(s) && s.daclSafe
    else if ActsLast(before, ConfigureService) || HasNoted(before, "service_started") then
      AttestsService(s, HasNoted(before, "service_started"))
    else
      s.exist ==> AttestsService(s, false)
  }

  /** Nothing failed, and the answer is one the calls made so far let the caller expect: the
      runner is online and paused or not as it was last told. */
  ghost predicate IsFine(p: RunnerPolicy, runnerId: int, projectId: int, before: Trace, e: Event) {
    && e.answer.fault.None?
    && (e.act == QueryService ==> IsAsAsked(before, e.answer.service))
    && (e.act == GetRunner ==> e.answer.runner.online
                               && Attests(p, e.answer.runner, runnerId, projectId, !IsLetGo(before)))
    && (e.act == GetProject ==> e.answer.projectId == projectId && projectId > 0)
    && (e.act == CreateRunner ==> e.answer.id == runnerId && runnerId > 0 && e.answer.token != "")
    && (e.act in {RemoveReceipt, CheckConfigFile} ==> e.answer.yes)
  }

  ghost predicate AllFine(p: RunnerPolicy, runnerId: int, projectId: int, t: Trace) {
    forall i {:trigger t[i]} :: 0 <= i < |t| ==> IsFine(p, runnerId, projectId, t[..i], t[i])
  }

  lemma NeverLetGo(t: Trace)
    requires HasNoUnpause(t)
    ensures !IsLetGo(t)
  {
  }

  lemma JustLetGo(t: Trace)
    requires ActsLast(t, SetPaused(false))
    ensures IsLetGo(t)
  {
    var u: nat := |t| - 1;
    assert t[u].act == SetPaused(false) && t[u + 1..] == [] && IsQuiet(t[u + 1..]);
  }

  /** Polling does not time out when no answer is bad. */
  lemma FineFindsOnline(p: RunnerPolicy, runnerId: int, projectId: int, patience: Patience, t: Trace)
    requires AllFine(p, runnerId, projectId, t) && HasNoUnpause(t)
    ensures !TimesOut(p, runnerId, projectId, patience, t)
  {
    hide Attests;
    forall k | 0 <= k < |t| && t[k].act == WriteJournal("service_started")
      ensures !IsFruitless(p, runnerId, projectId, patience + 1, t[k + 1..])
    {
      var poll := t[k + 1..];
      if |poll| > 1 && poll[0].act == QueryService && poll[1].act == GetRunner {
        assert poll[0] == t[k + 1] && poll[1] == t[k + 2];
        assert t[..k + 1][k] == t[k];
        assert HasNoted(t[..k + 1], "service_started");
        NeverLetGo(t[..k + 2]);
        assert IsFine(p, runnerId, projectId, t[..k + 2], t[k + 2]);
      } else if |poll| == 1 && poll[0].act == QueryService {
        assert poll[0] == t[k + 1] && t[..k + 1][k] == t[k];
        assert HasNoted(t[..k + 1], "service_started");
      } else if |poll| > 1 && poll[0].act == QueryService {
        assert poll[0] == t[k + 1] && t[..k + 1][k] == t[k];
        assert HasNoted(t[..k + 1], "service_started");
      }
    }
  }

  lemma FinePrefix(p: RunnerPolicy, runnerId: int, projectId: int, t: Trace, i: nat)
    requires AllFine(p, runnerId, projectId, t) && i <= |t|
    ensures AllFine(p, runnerId, projectId, t[..i])
  {
    forall k | 0 <= k < i
      ensures IsFine(p, runnerId, projectId, t[..i][..k], t[..i][k])
    {
      assert t[..i][..k] == t[..k] && t[..i][k] == t[k];
    }
  }

  lemma FineLooks(p: RunnerPolicy, runnerId: int, projectId: int, before: Trace, e: Event)
    requires IsFine(p, runnerId, projectId, before, e)
    ensures !LookRefused(before, e) && !FoundUnsafe(before, e)
  {
    hide Attests, HasNoted, IsLetGo;
  }

  lemma FineSteps(p: RunnerPolicy, runnerId: int, projectId: int, before: Trace, e: Event)
    requires IsFine(p, runnerId, projectId, before, e)
    requires before != [] ==> before[|before| - 1].answer.fault.None?
    ensures !NotInstalled(before, e) && !NotAsInstalled(before, e) && !NotHardened(before, e)
    ensures !NotConfigured(before, e) && !NotStarted(before, e)
  {
    hide Attests, HasNoted, IsLetGo, AttestsImage;
  }

  lemma FineService(p: RunnerPolicy, runnerId: int, projectId: int, t: Trace, i: nat, stage: string)
    requires AllFine(p, runnerId, projectId, t) && i < |t|
    ensures !BlamesService(t[..i], t[i], stage)
  {
    hide LookRefused, FoundUnsafe, NotInstalled, NotAsInstalled, NotHardened, NotConfigured, NotStarted;
    assert IsFine(p, runnerId, projectId, t[..i], t[i]);
    if i > 0 {
      assert t[..i][|t[..i]| - 1] == t[i - 1] && IsFine(p, runnerId, projectId, t[..i - 1], t[i - 1]);
    }
    FineLooks(p, runnerId, projectId, t[..i], t[i]);
    FineSteps(p, runnerId, projectId, t[..i], t[i]);
  }

  lemma FineGuard(p: RunnerPolicy, runnerId: int, projectId: int, before: Trace, e: Event)
    requires IsFine(p, runnerId, projectId, before, e)
    ensures !NotReady(p, runnerId, projectId, before, e)
  {
    hide Attests, AttestsImage, HasNoted, IsLetGo;
    if HasNoUnpause(before) {
      NeverLetGo(before);
    }
  }

  lemma FineLetGo(p: RunnerPolicy, runnerId: int, projectId: int, before: Trace, e: Event)
    requires IsFine(p, runnerId, projectId, before, e)
    ensures !NotActive(p, runnerId, projectId, before, e) && !Refused(e, WriteReceipt)
  {
    hide Attests, HasNoted, IsLetGo;
    if ActsLast(before, SetPaused(false)) {
      JustLetGo(before);
    }
  }

  lemma FineActivation(p: RunnerPolicy, runnerId: int, projectId: int, patience: Patience, t: Trace, i: nat,
                       stage: string)
    requires AllFine(p, runnerId, projectId, t) && i < |t|
    ensures !BlamesActivation(p, runnerId, projectId, patience, t[..i], t[i], stage)
  {
    hide NotReady, NotActive, TimesOut, Refused;
    assert IsFine(p, runnerId, projectId, t[..i], t[i]);
    hide IsFine;
    FineGuard(p, runnerId, projectId, t[..i], t[i]);
    FineLetGo(p, runnerId, projectId, t[..i], t[i]);
    if HasNoUnpause(t[..i]) {
      FinePrefix(p, runnerId, projectId, t, i);
      FineFindsOnline(p, runnerId, projectId, patience, t[..i]);
    }
  }

  lemma FineResume(p: RunnerPolicy, runnerId: int, projectId: int, t: Trace, i: nat, stage: string)
    requires AllFine(p, runnerId, projectId, t) && i < |t|
    ensures !BlamesResume(p, runnerId, projectId, t[..i], t[i], stage)
  {
    hide Attests, IsLetGo;
    assert IsFine(p, runnerId, projectId, t[..i], t[i]);
    if HasNoUnpause(t[..i]) {
      NeverLetGo(t[..i]);
    }
  }

  lemma FineEscapesNothing(way: Way, p: RunnerPolicy, runnerId: int, projectId: int, t: Trace, i: nat)
    requires AllFine(p, runnerId, projectId, t) && i < |t|
    requires way.Provisioning? && t[0].act == QueryService ==> !t[0].answer.service.exist
    ensures !Aborts(way, p, runnerId, projectId, t[..i], t[i])
  {
    hide IsLetGo;
    assert IsFine(p, runnerId, projectId, t[..i], t[i]);
    if HasNoUnpause(t[..i]) {
      NeverLetGo(t[..i]);
    }
  }

  /** When no answer is bad the runner ends up active, or, where the policy wants no service,
      registered and paused. Provisioning also wants that no service has its name yet. */
  lemma FineSucceeds(way: Way, p: RunnerPolicy, runnerId: int, projectId: int, patience: Patience, t: Trace,
                     out: Outcome)
    requires IsExplained(way, p, runnerId, projectId, patience, t, out)
    requires AllFine(p, runnerId, projectId, t)
    requires way.Provisioning? && t != [] && t[0].act == QueryService ==> !t[0].answer.service.exist
    ensures out == if p.installService || way.Activating? then
                     Returned("ready", Some(false), true)
                   else
                     Returned("registered_paused", Some(true), false)
  {
    hide IsFine, BlamesService, BlamesActivation, BlamesResume, Aborts;
    if out.Raised? {
      var i: nat :| RaisesAt(way, p, runnerId, projectId, t, i);
      FineEscapesNothing(way, p, runnerId, projectId, t, i);
    } else if !out.ready && out.stage != "registered_paused" {
      var i: nat :| FailsAt(way, p, runnerId, projectId, patience, t, i, out.stage);
      FineService(p, runnerId, projectId, t, i, out.stage);
      FineActivation(p, runnerId, projectId, patience, t, i, out.stage);
      FineResume(p, runnerId, projectId, t, i, out.stage);
    }
  }
}
