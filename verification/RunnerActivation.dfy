/** Provisioning, resuming and activating a Windows project runner, call by call. */
module RunnerActivation {
  import opened Json
  import opened RunnerAnswers
  import opened RunnerTraces

  /** What `service` should be after the look `e`. */
  predicate IsLook(e: Event, image: bool, stopped: bool, service: Option<ServiceRecord>) {
    && e.act == QueryService
    && service == if e.answer.fault.None? && (stopped ==> e.answer.service.state == "stopped")
                     && (if image then AttestsImage(e.answer.service) else AttestsService(e.answer.service, false)) then
                    Some(e.answer.service)
                  else
                    None
  }

  datatype Checks = Passed | Stopped(stage: string) | Aborted

  class RunnerTools {
    const policy: RunnerPolicy
    const runnerId: int
    const projectId: int
    /** The outside world: what the call at each position answers. */
    const world: nat -> Answer
    var trace: Trace

    constructor (policy: RunnerPolicy, runnerId: int, projectId: int, world: nat -> Answer)
      ensures this.policy == policy && this.runnerId == runnerId && this.projectId == projectId && trace == []
    {
      this.policy, this.runnerId, this.projectId, this.world := policy, runnerId, projectId, world;
      trace := [];
    }

    method Call(act: Act) returns (answer: Answer)
      modifies this
      ensures trace == old(trace) + [Event(act, answer)]
    {
      answer := world(|trace|);
      trace := trace + [Event(act, answer)];
    }

    /** A call whose failure is swallowed and that decides nothing about the pause. */
    method Try(act: Act) returns (ok: bool, ghost more: Trace)
      requires PauseCommand(act).None?
      modifies this
      ensures trace == old(trace) + more && IsQuiet(more)
      ensures |more| == 1 && more[0].act == act && ok == more[0].answer.fault.None?
    {
      var answer := Call(act);
      more := [Event(act, answer)];
      ok := answer.fault.None?;
    }

    /** `cleanup_runner_file` */
    method CleanUp(act: Act) returns (gone: bool, ghost more: Trace)
      requires PauseCommand(act).None?
      modifies this
      ensures trace == old(trace) + more && IsQuiet(more)
      ensures |more| == 1 && more[0].act == act && gone == (more[0].answer.fault.None? && more[0].answer.yes)
    {
      var answer := Call(act);
      more := [Event(act, answer)];
      gone := answer.fault.None? && answer.yes;
    }

    /** Reads the service and attests it; `Some` is the record of a service that passed. */
    method InspectService(image: bool, running: bool) returns (service: Option<ServiceRecord>, ghost more: Trace)
      modifies this
      ensures trace == old(trace) + more && IsQuiet(more) && |more| == 1 && more[0].act == QueryService
      ensures service == if more[0].answer.fault.None?
                            && (if image then AttestsImage(more[0].answer.service)
                                else AttestsService(more[0].answer.service, running)) then
                           Some(more[0].answer.service)
                         else
                           None
    {
      var answer := Call(QueryService);
      more := [Event(QueryService, answer)];
      if answer.fault.None?
         && (if image then AttestsImage(answer.service) else AttestsService(answer.service, running)) {
        return Some(answer.service), more;
      }
      return None, more;
    }

    // -------------------------------------------------------------- pausing

    method ConfirmRunnerPaused() returns (confirmed: bool, ghost more: Trace)
      modifies this
      ensures trace == old(trace) + more
      ensures HasNoUnpause(more) && !IsQuiet(more) && EndsPaused(more)
      ensures more != [] && more[0].act == SetPaused(true) && IsFirstLook(more)
      ensures confirmed ==> IsConfirmed(policy, runnerId, projectId, more)
      ensures !confirmed ==> HasNoUnpause(more[..|more| - 1])
                             && Unconfirmed(policy, runnerId, projectId, more[..|more| - 1], more[|more| - 1])
    {
      var put := Call(SetPaused(true));
      more := [Event(SetPaused(true), put)];
      assert PauseCommand(more[0].act) == Some(true) && IsLastPauseAt(more, 0);
      if put.fault.Some? {
        return false, more;
      }
      var got := Call(GetRunner);
      more := more + [Event(GetRunner, got)];
      assert PauseCommand(more[0].act) == Some(true) && IsLastPauseAt(more, 0);
      if got.fault.Some? || !Attests(policy, got.runner, runnerId, projectId, true) {
        return false, more;
      }
      assert IsConfirmedBy(policy, runnerId, projectId, more, 0, 1);
      return true, more;
    }

    method PausedFailure(stage: string) returns (out: Outcome, ghost more: Trace)
      modifies this
      ensures trace == old(trace) + more && HasNoUnpause(more) && !IsQuiet(more)
      ensures out.Returned? && out.stage == stage && !out.ready && IsFailClosed(policy, runnerId, projectId, more, out)
      ensures more != [] && more[0].act == SetPaused(true) && IsDoubted(policy, runnerId, projectId, more, out)
    {
      hide IsQuiet, HasNoUnpause, EndsPaused, IsConfirmed, UnpausesOnce, Unconfirmed, IsFirstLook;
      var confirmed, first := ConfirmRunnerPaused();
      if !confirmed {
        DoubtedByLast(policy, runnerId, projectId, first);
      }
      var gone, second := CleanUp(RemoveReceipt);
      var noted, third := Try(WriteJournal(stage));
      QuietAppend(second, third);
      PausedThenQuiet(policy, runnerId, projectId, first, second + third);
      more := first + (second + third);
      out := Returned(stage, if confirmed then Some(true) else None, false);
      if !confirmed {
        DoubtedThen(policy, runnerId, projectId, first, second + third);
      }
      NoUnpauseOnce(policy, runnerId, projectId, more);
    }

    // -------------------------------------------------------------- the service

    method CleanUpPartialService() returns (removed: bool, ghost more: Trace)
      modifies this
      ensures trace == old(trace) + more && IsQuiet(more)
    {
      hide IsQuiet;
      var answer := Call(QueryService);
      more := [Event(QueryService, answer)];
      OneQuiet(more[0]);
      if answer.fault.Some? {
        return false, more;
      }
      if !answer.service.exist {
        return true, more;
      }
      var stopped, a := Try(StopService);
      QuietAppend(more, a);
      var uninstalled, b := Try(UninstallService);
      QuietAppend(more + a, b);
      more := more + a + b;
      answer := Call(QueryService);
      OneQuiet(Event(QueryService, answer));
      QuietAppend(more, [Event(QueryService, answer)]);
      more := more + [Event(QueryService, answer)];
      if answer.fault.Some? {
        return false, more;
      }
      if !answer.service.exist {
        return true, more;
      }
      var disabled, d := Try(DisableService);
      QuietAppend(more, d);
      return false, more + d;
    }

    /** One installation step: an action, then a fresh look at the service. */
    method InstallStep(act: Act, image: bool, stopped: bool)
      returns (acted: bool, service: Option<ServiceRecord>, ghost more: Trace)
      requires PauseCommand(act).None?
      modifies this
      ensures trace == old(trace) + more && IsQuiet(more)
      ensures more != [] && more[0].act == act && acted == more[0].answer.fault.None?
      ensures if acted then |more| == 2 && IsLook(more[1], image, stopped, service) else |more| == 1 && service.None?
    {
      hide IsQuiet;
      ghost var first;
      acted, first := Try(act);
      if !acted {
        return false, None, first;
      }
      ghost var second;
      service, second := InspectService(image, false);
      QuietAppend(first, second);
      more := first + second;
      if service.Some? && stopped && service.value.state != "stopped" {
        service := None;
      }
    }

    /** Rejects a partial service: cleans it up and reports with the runner paused. */
    method RejectService(stage: string) returns (out: Outcome, ghost more: Trace)
      modifies this
      ensures trace == old(trace) + more && HasNoUnpause(more)
      ensures out.Returned? && out.stage == stage && !out.ready && IsFailClosed(policy, runnerId, projectId, more, out)
      ensures IsDoubted(policy, runnerId, projectId, more, out)
    {
      hide IsQuiet, HasNoUnpause, IsFailClosed;
      var removed, first := CleanUpPartialService();
      ghost var second;
      out, second := PausedFailure(stage);
      QuietThenFailClosed(policy, runnerId, projectId, first, second, out);
      DoubtAfter(policy, runnerId, projectId, first, second, out);
      more := first + second;
    }

    /** Finds the dedicated service, or installs, hardens and configures it. */
    method PrepareService() returns (service: Option<ServiceRecord>, out: Outcome, ghost more: Trace)
      modifies this
      ensures trace == old(trace) + more && HasNoUnpause(more)
      ensures service.Some? ==>
        IsQuiet(more) && IsPreparation(more) && more[|more| - 1].answer.service == service.value
      ensures service.None? ==>
        && out.Returned? && !out.ready && IsFailClosed(policy, runnerId, projectId, more, out)
        && FailsService(more, out.stage) && IsDoubted(policy, runnerId, projectId, more, out)
    {
      hide IsQuiet, HasNoUnpause, IsFailClosed, FailsService;
      out := Raised;
      var answer := Call(QueryService);
      more := [Event(QueryService, answer)];
      OneQuiet(more[0]);
      var stage := "";
      if answer.fault.Some? {
        ghost var rest;
        out, rest := PausedFailure("service_inspection_failed");
        ServiceFailedBy([], more[0], rest, out.stage);
        assert [] + [more[0]] + rest == more + rest;
        QuietThenFailClosed(policy, runnerId, projectId, more, rest, out);
        DoubtAfter(policy, runnerId, projectId, more, rest, out);
        return None, out, more + rest;
      }
      if answer.service.exist {
        if AttestsService(answer.service, false) {
          QuietHasNoUnpause(more);
          return Some(answer.service), out, more;
        }
        stage := "partial_service_rejected";
        assert BlamesService([], more[0], stage);
      } else {
        ghost var rest;
        service, stage, rest := Install(more[0]);
        QuietAppend(more, rest);
        assert service.None? ==> (more + rest)[..|rest|] == more + rest[..|rest| - 1];
        more := more + rest;
        if service.Some? {
          QuietHasNoUnpause(more);
          return;
        }
      }
      ghost var rest;
      out, rest := RejectService(stage);
      ServiceFailedBy(more[..|more| - 1], more[|more| - 1], rest, stage);
      assert more[..|more| - 1] + [more[|more| - 1]] == more;
      QuietThenFailClosed(policy, runnerId, projectId, more, rest, out);
      DoubtAfter(policy, runnerId, projectId, more, rest, out);
      return None, out, more + rest;
    }

    /** The three steps of an installation; `look` is the look that found no service. */
    method Install(ghost look: Event) returns (service: Option<ServiceRecord>, stage: string, ghost more: Trace)
      requires IsSeenAbsent(look)
      modifies this
      ensures trace == old(trace) + more && IsQuiet(more) && more != []
      ensures service.Some? ==> IsInstallation([look] + more) && more[|more| - 1].answer.service == service.value
      ensures service.None? ==> BlamesService([look] + more[..|more| - 1], more[|more| - 1], stage)
    {
      hide IsQuiet;
      var acted, found, step := InstallStep(InstallService, true, true);
      more := step;
      if found.None? {
        return None, if acted then "service_attestation_failed" else "service_install_failed", more;
      }
      acted, found, step := InstallStep(HardenService, true, false);
      QuietAppend(more, step);
      more := more + step;
      if found.None? || !found.value.daclSafe {
        return None, "service_dacl_hardening_failed", more;
      }
      acted, found, step := InstallStep(ConfigureService, false, false);
      QuietAppend(more, step);
      more := more + step;
      return found, "service_account_configuration_failed", more;
    }

    /** Starts the service; a start that raised is forgiven when the service runs. */
    method EnsureRunning(service: ServiceRecord) returns (running: bool, ghost more: Trace)
      modifies this
      ensures trace == old(trace) + more && IsQuiet(more)
      ensures |more| >= 2 && more[0].act == WriteJournal("service_installed")
      ensures service.state != "running" ==> more[1].act == StartService
      ensures if running then ActsLast(more, WriteJournal("service_started"))
              else |more| == 3 && BlamesService(more[..2], more[2], "service_start_failed")
    {
      hide IsQuiet;
      var noted, first := Try(WriteJournal("service_installed"));
      more := first;
      running := true;
      if service.state != "running" {
        var ok, second := Try(StartService);
        QuietAppend(more, second);
        more := more + second;
        if !ok {
          var found, third := InspectService(false, true);
          QuietAppend(more, third);
          more := more + third;
          running := found.Some?;
        }
      }
      if running {
        var again, last := Try(WriteJournal("service_started"));
        QuietAppend(more, last);
        more := more + last;
      }
    }

    /** `None`: something other than a tool error was raised and is not caught. */
    method WaitForOnline(patience: Patience) returns (online: Option<bool>, ghost more: Trace)
      modifies this
      ensures trace == old(trace) + more && IsQuiet(more)
      ensures online.None? ==> more != [] && Escapes(more[|more| - 1])
      ensures online == Some(true) ==> EndsOnline(policy, runnerId, projectId, more)
      ensures online == Some(false) ==> IsFruitless(policy, runnerId, projectId, patience + 1, more)
    {
      hide IsQuiet, Attests;
      more := [];
      EmptyQuiet();
      var left := patience;
      while true
        invariant 0 <= left <= patience && IsFruitless(policy, runnerId, projectId, patience - left, more)
        invariant trace == old(trace) + more && IsQuiet(more)
        decreases left
      {
        ghost var rounds := more;
        var answer := Call(QueryService);
        OneQuiet(Event(QueryService, answer));
        QuietAppend(more, [Event(QueryService, answer)]);
        more := more + [Event(QueryService, answer)];
        if answer.fault == Some(OtherFault) {
          return None, more;
        }
        if answer.fault.None? && AttestsService(answer.service, true) {
          answer := Call(GetRunner);
          OneQuiet(Event(GetRunner, answer));
          QuietAppend(more, [Event(GetRunner, answer)]);
          more := more + [Event(GetRunner, answer)];
          if answer.fault == Some(OtherFault)
             || (answer.fault.None? && answer.runner.isObject && answer.runner.malformed) {
            return None, more;
          }
          if answer.fault.None? && Attests(policy, answer.runner, runnerId, projectId, true) && answer.runner.online {
            return Some(true), more;
          }
        }
        ghost var round := more[|rounds|..];
        assert more == rounds + round && (|round| == 1 ==> round[1..] == []) && (|round| == 2 ==> round[2..] == []);
        FruitlessMore(policy, runnerId, projectId, patience - left, rounds, round);
        if left == 0 {
          return Some(false), more;
        }
        left := left - 1;
      }
    }

    // -------------------------------------------------------------- activation

    /** Service attested running, paused runner attested online, receipt written. */
    method Guard(ghost patience: Patience, ghost before: Trace) returns (failed: Option<string>, ghost more: Trace)
      requires IsQuiet(before) && EndsOnline(policy, runnerId, projectId, before)
      requires HasNoted(before, "service_started")
      modifies this
      ensures trace == old(trace) + more && IsQuiet(more)
      ensures failed.None? ==> |more| == 3 && IsGuardTrace(policy, runnerId, projectId, more)
      ensures failed.Some? ==> IsBlamedOnLast(policy, runnerId, projectId, patience, before, more, failed.value)
    {
      hide IsQuiet, Attests, AttestsService, HasNoted;
      QuietHasNoUnpause(before);
      ghost var first;
      var service;
      service, first := InspectService(false, true);
      more := first;
      assert before + more[..0] == before && (before + more)[..|before|] == before;
      if service.None? {
        return Some("activation_attestation_failed"), more;
      }
      var got := Call(GetRunner);
      OneQuiet(Event(GetRunner, got));
      QuietAppend(more, [Event(GetRunner, got)]);
      more := more + [Event(GetRunner, got)];
      if got.fault.Some? || !Attests(policy, got.runner, runnerId, projectId, true) || !got.runner.online {
        return Some("activation_attestation_failed"), more;
      }
      var receipt := Call(WriteReceipt);
      OneQuiet(Event(WriteReceipt, receipt));
      QuietAppend(more, [Event(WriteReceipt, receipt)]);
      more := more + [Event(WriteReceipt, receipt)];
      if receipt.fault.Some? {
        return Some("identity_receipt_failed"), more;
      }
      return None, more;
    }

    /** Behind the guard the runner is let go, looked at, and noted as ready. */
    method LetGo(ghost patience: Patience, ghost before: Trace) returns (failed: Option<string>, ghost more: Trace)
      requires IsQuiet(before) && EndsOnline(policy, runnerId, projectId, before)
      requires HasNoted(before, "service_started")
      modifies this
      ensures trace == old(trace) + more && UnpausesOnce(policy, runnerId, projectId, more)
      ensures failed.None? ==> EndsActive(policy, runnerId, projectId, more)
      ensures failed.Some? ==> IsBlamedOnLast(policy, runnerId, projectId, patience, before, more, failed.value)
    {
      hide IsQuiet, Attests, UnpausesOnce, IsGuarded, IsGuardTrace, HasNoted, EndsOnline, TimesOut;
      failed, more := Guard(patience, before);
      ghost var guard := more;
      if failed.Some? {
        QuietHasNoUnpause(more);
        NoUnpauseOnce(policy, runnerId, projectId, more);
        return;
      }
      var put := Call(SetPaused(false));
      ghost var rest: Trace := [];
      ghost var go := Event(SetPaused(false), put);
      more := guard + [go] + rest;
      LetGoUnpausesOnce(policy, runnerId, projectId, guard, go, rest);
      if put.fault.Some? {
        return Some("activation_failed"), more;
      }
      var active := Call(GetRunner);
      rest := [Event(GetRunner, active)];
      more := guard + [go] + rest;
      LetGoUnpausesOnce(policy, runnerId, projectId, guard, go, rest);
      if active.fault.Some? || !Attests(policy, active.runner, runnerId, projectId, false) || !active.runner.online {
        return Some("activation_failed"), more;
      }
      var noted := Call(WriteJournal("ready"));
      rest := [Event(GetRunner, active), Event(WriteJournal("ready"), noted)];
      more := guard + [go] + rest;
      LetGoUnpausesOnce(policy, runnerId, projectId, guard, go, rest);
      if noted.fault.Some? {
        return Some("activation_failed"), more;
      }
      return None, more;
    }

    /** Takes back what `LetGo` may have done. */
    method TakeBack(stage: string) returns (out: Outcome, ghost more: Trace)
      modifies this
      ensures trace == old(trace) + more && HasNoUnpause(more) && !IsQuiet(more) && EndsPaused(more)
      ensures out.Returned? && out.stage == stage && !out.ready && out.paused != Some(false)
      ensures out.paused == Some(true) ==> IsConfirmed(policy, runnerId, projectId, more)
      ensures IsDoubted(policy, runnerId, projectId, more, out)
    {
      hide IsQuiet, HasNoUnpause, EndsPaused, IsConfirmed, Unconfirmed, IsFirstLook;
      var gone, first := CleanUp(RemoveReceipt);
      var confirmed, second := ConfirmRunnerPaused();
      var stopped, third := Try(StopService);
      var noted, fourth := Try(WriteJournal(stage));
      QuietAppend(third, fourth);
      PausedThenQuiet(policy, runnerId, projectId, second, third + fourth);
      QuietThenPaused(policy, runnerId, projectId, first, second + (third + fourth));
      more := first + (second + (third + fourth));
      out := Returned(stage, if confirmed then Some(true) else None, false);
      if !confirmed {
        DoubtedByLast(policy, runnerId, projectId, second);
        DoubtedThen(policy, runnerId, projectId, second, third + fourth);
        DoubtedAfter(policy, runnerId, projectId, first, second + (third + fourth));
      }
    }

    /** Lets the runner go, or takes back what that may have done. */
    method Finish(ghost patience: Patience, ghost before: Trace) returns (out: Outcome, ghost more: Trace)
      requires IsQuiet(before) && EndsOnline(policy, runnerId, projectId, before)
      requires HasNoted(before, "service_started") && Prepares(before)
      modifies this
      ensures trace == old(trace) + more && IsFailClosed(policy, runnerId, projectId, before + more, out)
      ensures IsExplained(Activating, policy, runnerId, projectId, patience, before + more, out)
    {
      hide *;
      var failed, first := LetGo(patience, before);
      if failed.None? {
        out := Returned("ready", Some(false), true);
        ActiveIsFailClosed(policy, runnerId, projectId, first, out);
        QuietThenFailClosed(policy, runnerId, projectId, before, first, out);
        ReadyExplained(policy, runnerId, projectId, patience, before, first);
        return out, first;
      }
      ghost var second;
      out, second := TakeBack(failed.value);
      TakenBackIsFailClosed(policy, runnerId, projectId, first, second, out);
      QuietThenFailClosed(policy, runnerId, projectId, before, first + second, out);
      TakenBackExplained(policy, runnerId, projectId, patience, before, first, second, out);
      more := first + second;
    }

    method Activate(patience: Patience) returns (out: Outcome, ghost more: Trace)
      modifies this
      ensures trace == old(trace) + more && IsFailClosed(policy, runnerId, projectId, more, out)
      ensures IsExplained(Activating, policy, runnerId, projectId, patience, more, out)
    {
      hide *;
      var service, early, first := PrepareService();
      if service.None? {
        ServiceExplained(policy, runnerId, projectId, patience, first, early);
        return early, first;
      }
      var running, second := EnsureRunning(service.value);
      QuietAppend(first, second);
      more := first + second;
      if !running {
        ghost var rest;
        out, rest := PausedFailure("service_start_failed");
        QuietThenFailClosed(policy, runnerId, projectId, more, rest, out);
        StartExplained(policy, runnerId, projectId, patience, first, second, rest, out);
        return out, more + rest;
      }
      var online, third := WaitForOnline(patience);
      QuietAppend(more, third);
      more := more + third;
      if online.None? {
        QuietIsFailClosed(policy, runnerId, projectId, more);
        EscapeExplained(policy, runnerId, projectId, patience, more);
        return Raised, more;
      }
      if !online.value {
        ghost var rest;
        out, rest := PausedFailure("online_attestation_timeout");
        QuietThenFailClosed(policy, runnerId, projectId, more, rest, out);
        TimeoutExplained(policy, runnerId, projectId, patience, first, second, third, rest, out);
        return out, more + rest;
      }
      StartedOnline(policy, runnerId, projectId, first, second, third);
      PreparedFirst(first, second, third, service.value);
      ghost var last;
      out, last := Finish(patience, more);
      more := more + last;
    }

    // -------------------------------------------------------------- registration

    /** `rollback_created_runner`: deletes the runner and the local files, as far as it can. */
    method Rollback() returns (ghost more: Trace)
      modifies this
      ensures trace == old(trace) + more && IsQuiet(more) && IsFirstLook(more)
    {
      hide IsQuiet;
      var deleted, a := Try(DeleteRunner);
      var config, b := CleanUp(RemoveConfig);
      var journal, c := CleanUp(RemoveJournal);
      var receipt, d := CleanUp(RemoveReceipt);
      QuietAppend(a, b);
      QuietAppend(a + b, c);
      QuietAppend(a + b + c, d);
      more := a + b + c + d;
    }

    /** Reads the runner and attests it paused. */
    method AttestPaused() returns (ok: bool, ghost more: Trace)
      modifies this
      ensures trace == old(trace) + more && IsQuiet(more) && |more| == 1 && more[0].act == GetRunner
      ensures ok == IsPausedAttest(policy, runnerId, projectId, more[0])
    {
      var got := Call(GetRunner);
      more := [Event(GetRunner, got)];
      ok := got.fault.None? && Attests(policy, got.runner, runnerId, projectId, true);
    }

    /** Register, check and verify a runner that was just created paused; `first` are the
        calls up to its creation. */
    method RegisterCreated(patience: Patience, ghost first: Trace) returns (out: Outcome, ghost more: Trace)
      requires HasNoUnpause(first) && !IsQuiet(first) && EndsPaused(first) && IsCalm(first)
      modifies this
      ensures trace == old(trace) + more && IsFailClosed(policy, runnerId, projectId, first + more, out)
      ensures IsExplained(Provisioning, policy, runnerId, projectId, patience, first + more, out)
    {
      hide IsQuiet, HasNoUnpause, IsFailClosed, EndsPaused, IsConfirmed, UnpausesOnce, IsPausedAttest, IsFirstLook;
      hide IsCalm, IsExplained, IsStoppedOnLast, ActsLast;
      var ok, steps := RunSteps(first);
      more := steps;
      ghost var seen: Trace := [];
      if ok {
        ok, seen := AttestPaused();
        RegisteredUnattested(policy, runnerId, projectId, first, steps, seen, ok);
        QuietAppend(more, seen);
        more := more + seen;
      }
      ghost var noted: Trace := [];
      if ok {
        ok, noted := Try(WriteJournal("registered_paused"));
        RegisteredUnnoted(policy, runnerId, projectId, first, more, noted, ok);
        QuietAppend(more, noted);
        more := more + noted;
      }
      PausedThenQuiet(policy, runnerId, projectId, first, more);
      if !ok {
        ghost var undone := Rollback();
        PausedThenQuiet(policy, runnerId, projectId, first + more, undone);
        PausedIsFailClosed(policy, runnerId, projectId, first + more + undone, Raised);
        ProvisionExplained(policy, runnerId, projectId, patience, first, more, undone);
        assert first + more + undone == first + (more + undone);
        return Raised, more + undone;
      }
      if !policy.installService {
        SeenPaused(policy, runnerId, projectId, first, steps, seen, noted);
        assert first + more == first + steps + seen + noted;
        out := Returned("registered_paused", Some(true), false);
        PausedIsFailClosed(policy, runnerId, projectId, first + more, out);
        RegisteredExplained(Provisioning, policy, runnerId, projectId, patience, first + more);
        return;
      }
      ghost var rest;
      out, rest := Activate(patience);
      FailClosedAfter(policy, runnerId, projectId, first + more, rest, out);
      RegisteredCalm(first, steps, seen, noted);
      ExplainedAfter(Provisioning, policy, runnerId, projectId, patience, first + more, rest, out);
      assert first + more + rest == first + (more + rest);
      more := more + rest;
    }

    /** Journal, registration, file check, configuration, verification: up to the first that
        fails. */
    method RunSteps(ghost first: Trace) returns (ok: bool, ghost more: Trace)
      modifies this
      ensures trace == old(trace) + more && IsQuiet(more) && IsFirstLook(more)
      ensures if ok then ActsLast(more, VerifyRunner)
              else IsStoppedOnLast(policy, runnerId, projectId, first, more)
    {
      hide IsQuiet, IsFirstLook, IsPausedAttest;
      ok, more := Try(WriteJournal("api_created_paused"));
      OneLook(more);
      var acts := [Register, CheckConfigFile, VerifyConfig, VerifyRunner];
      var k := 0;
      while ok && k < |acts|
        invariant 0 <= k <= |acts| && more != []
        invariant trace == old(trace) + more && IsQuiet(more) && IsFirstLook(more)
        invariant ok && k > 0 ==> ActsLast(more, acts[k - 1])
        invariant !ok ==> IsStoppedOnLast(policy, runnerId, projectId, first, more)
      {
        ghost var step;
        ok, step := Try(acts[k]);
        OneLook(step);
        LookAfter(more, step);
        QuietAppend(more, step);
        more := more + step;
        k := k + 1;
      }
    }

    /** The checks of an interrupted registration, in order; none touches the pause. */
    method CheckAgain() returns (checks: Checks, ghost more: Trace)
      modifies this
      ensures trace == old(trace) + more && IsQuiet(more) && IsFirstLook(more)
      ensures checks.Passed? ==> more != [] && IsPausedAttest(policy, runnerId, projectId, more[|more| - 1])
      ensures checks.Aborted? ==> StopsResuming(projectId, more)
      ensures checks.Stopped? ==> checks.stage != "registered_paused"
                                  && IsResumeBlamedOnLast(policy, runnerId, projectId, more, checks.stage)
    {
      hide IsQuiet, IsPausedAttest, IsFirstLook, BlamesResume, StopsResuming;
      var ok;
      ok, more := CleanUp(RemoveReceipt);
      OneLook(more);
      if !ok {
        ResetBlamed(policy, runnerId, projectId, more);
        return Stopped("resume_identity_receipt_reset_failed"), more;
      }
      var project := Call(GetProject);
      ghost var step := [Event(GetProject, project)];
      OneQuiet(step[0]);
      OneLook(step);
      LookAfter(more, step);
      QuietAppend(more, step);
      if project.fault.Some? || project.projectId != projectId {
        StoppedBy(projectId, more, step[0], []);
        assert more + [step[0]] + [] == more + step;
        return Aborted, more + step;
      }
      more := more + step;
      ok, step := CleanUp(CheckConfigFile);
      OneLook(step);
      LookAfter(more, step);
      QuietAppend(more, step);
      if !ok {
        ghost var undone := Rollback();
        StoppedBy(projectId, more, step[0], undone);
        assert more + [step[0]] + undone == more + step + undone;
        QuietAppend(more + step, undone);
        LookAfter(more + step, undone);
        return Aborted, more + step + undone;
      }
      more := more + step;
      checks, step := VerifyAgain();
      LookAfter(more, step);
      QuietAppend(more, step);
      QuietHasNoUnpause(more);
      if checks.Stopped? {
        ResumeBlamedAfter(policy, runnerId, projectId, more, step, checks.stage);
      }
      more := more + step;
    }

    /** The last three: configuration, registration, and the paused runner itself. */
    method VerifyAgain() returns (checks: Checks, ghost more: Trace)
      modifies this
      ensures trace == old(trace) + more && IsQuiet(more) && IsFirstLook(more)
      ensures checks.Passed? ==> more != [] && IsPausedAttest(policy, runnerId, projectId, more[|more| - 1])
      ensures !checks.Aborted?
      ensures checks.Stopped? ==> checks.stage != "registered_paused"
                                  && IsResumeBlamedOnLast(policy, runnerId, projectId, more, checks.stage)
    {
      hide IsQuiet, IsPausedAttest, IsFirstLook;
      var ok;
      ok, more := Try(VerifyConfig);
      OneLook(more);
      if !ok {
        return Stopped("resume_config_validation_failed"), more;
      }
      ghost var step: Trace;
      ok, step := Try(VerifyRunner);
      OneLook(step);
      LookAfter(more, step);
      QuietAppend(more, step);
      more := more + step;
      if !ok {
        return Stopped("resume_verify_failed"), more;
      }
      ghost var before := more;
      ok, step := AttestPaused();
      OneLook(step);
      LookAfter(more, step);
      QuietHasNoUnpause(more);
      QuietAppend(more, step);
      more := more + step;
      assert more[..|more| - 1] == before;
      return if ok then Passed else Stopped("resume_api_attestation_failed"), more;
    }

    /** Takes up an interrupted registration; the journal names runner and project. */
    method Resume(patience: Patience) returns (out: Outcome, ghost more: Trace)
      modifies this
      ensures trace == old(trace) + more && IsFailClosed(policy, runnerId, projectId, more, out)
      ensures IsExplained(Resuming, policy, runnerId, projectId, patience, more, out)
    {
      hide *;
      ghost var first;
      var confirmed;
      confirmed, first := ConfirmRunnerPaused();
      if !confirmed {
        out := Returned("resume_pause_unconfirmed", None, false);
        PausedIsFailClosed(policy, runnerId, projectId, first, out);
        UnconfirmedExplained(policy, runnerId, projectId, patience, first, out);
        return out, first;
      }
      ghost var quiet;
      var checks;
      checks, quiet := CheckAgain();
      PausedThenQuiet(policy, runnerId, projectId, first, quiet);
      if checks.Aborted? {
        PausedIsFailClosed(policy, runnerId, projectId, first + quiet, Raised);
        StopExplained(policy, runnerId, projectId, patience, first, quiet);
        return Raised, first + quiet;
      }
      ghost var rest;
      if checks.Stopped? {
        out, rest := PausedFailure(checks.stage);
        DoubtAfter(policy, runnerId, projectId, first + quiet, rest, out);
        ResumeBlamedAfter(policy, runnerId, projectId, first, quiet, checks.stage);
        ResumeExplained(policy, runnerId, projectId, patience, first + quiet, rest, out);
      } else if policy.installService {
        out, rest := Activate(patience);
        CalmPause(first);
        CalmAfter(first, quiet);
        ExplainedAfter(Resuming, policy, runnerId, projectId, patience, first + quiet, rest, out);
      } else {
        SeenLast(policy, runnerId, projectId, first, quiet);
        out := Returned("registered_paused", Some(true), false);
        PausedIsFailClosed(policy, runnerId, projectId, first + quiet, out);
        RegisteredExplained(Resuming, policy, runnerId, projectId, patience, first + quiet);
        return out, first + quiet;
      }
      FailClosedAfter(policy, runnerId, projectId, first + quiet, rest, out);
      more := first + quiet + rest;
    }
  }

  // ---------------------------------------------------------------- provisioning

  /** A fresh runner: created paused under the policy, then registered and activated. The
      ids are those GitLab gave. */
  method Provision(policy: RunnerPolicy, world: nat -> Answer, patience: Patience)
    returns (out: Outcome, trace: Trace, runnerId: int, projectId: int)
    ensures IsFailClosed(policy, runnerId, projectId, trace, out)
    ensures IsExplained(Provisioning, policy, runnerId, projectId, patience, trace, out)
  {
    hide IsQuiet, HasNoUnpause, IsFailClosed, EndsPaused, IsExplained, IsFirstLook;
    runnerId, projectId := 0, 0;
    var outside := new RunnerTools(policy, 0, 0, world);
    EmptyQuiet();
    EmptyLook();
    if policy.installService {
      var answer := outside.Call(QueryService);
      ghost var look := Event(QueryService, answer);
      OneQuiet(look);
      OneLook([look]);
      assert outside.trace == [look];
      if answer.fault.Some? || answer.service.exist {
        QuietIsFailClosed(policy, runnerId, projectId, outside.trace);
        LastExplained(policy, runnerId, projectId, patience, [], look, []);
        return Raised, outside.trace, runnerId, projectId;
      }
    }
    ghost var before := outside.trace;
    var project := outside.Call(GetProject);
    ghost var found := Event(GetProject, project);
    OneQuiet(found);
    OneLook([found]);
    QuietAppend(before, [found]);
    LookAfter(before, [found]);
    if project.fault.Some? || project.projectId <= 0 {
      QuietIsFailClosed(policy, runnerId, projectId, outside.trace);
      LastExplained(policy, runnerId, projectId, patience, before, found, []);
      return Raised, outside.trace, runnerId, projectId;
    }
    projectId := project.projectId;
    before := outside.trace;
    var created := outside.Call(CreateRunner);
    ghost var made := Event(CreateRunner, created);
    CreatedPaused(policy, 0, projectId, before, made);
    OneLook([made]);
    LookAfter(before, [made]);
    if created.fault.Some? {
      PausedIsFailClosed(policy, runnerId, projectId, outside.trace, Raised);
      LastExplained(policy, runnerId, projectId, patience, before, made, []);
      return Raised, outside.trace, runnerId, projectId;
    }
    runnerId := created.id;
    var first := outside.trace;
    var n := |first|;
    var tools := new RunnerTools(policy, runnerId, projectId, (k: nat) => world(n + k));
    if runnerId <= 0 || created.token == "" {
      if runnerId > 0 {
        ghost var undone := tools.Rollback();
        assert tools.trace == undone;
        PausedThenQuiet(policy, runnerId, projectId, first, tools.trace);
      } else {
        assert first + tools.trace == first;
      }
      PausedIsFailClosed(policy, runnerId, projectId, first + tools.trace, Raised);
      LastExplained(policy, runnerId, projectId, patience, before, made, tools.trace);
      return Raised, first + tools.trace, runnerId, projectId;
    }
    ghost var more;
    out, more := tools.RegisterCreated(patience, first);
    assert tools.trace == more;
    trace := first + tools.trace;
  }

  // ---------------------------------------------------------------- lemmas for the methods above

  predicate IsGuardTrace(p: RunnerPolicy, runnerId: int, projectId: int, t: Trace) {
    && |t| == 3
    && Succeeded(t[0], QueryService) && AttestsService(t[0].answer.service, true)
    && IsPausedAttest(p, runnerId, projectId, t[1]) && t[1].answer.runner.online
    && Succeeded(t[2], WriteReceipt)
  }

  lemma LetGoUnpausesOnce(p: RunnerPolicy, runnerId: int, projectId: int, guard: Trace, go: Event, rest: Trace)
    requires IsGuardTrace(p, runnerId, projectId, guard) && go.act == SetPaused(false) && HasNoUnpause(rest)
    ensures UnpausesOnce(p, runnerId, projectId, guard + [go] + rest)
    ensures IsGuarded(p, runnerId, projectId, guard + [go] + rest, 3)
  {
    hide Attests, AttestsService;
    var t := guard + [go] + rest;
    assert t[0] == guard[0] && t[1] == guard[1] && t[2] == guard[2] && t[3] == go;
    assert forall k {:trigger t[k]} :: 4 <= k < |t| ==> t[k] == rest[k - 4];
  }

  lemma EmptyLook()
    ensures IsFirstLook([])
  {
  }

  lemma OneLook(t: Trace)
    requires |t| == 1
    requires t[0].act !in {InstallService, HardenService, ConfigureService, WriteJournal("service_installed")}
    ensures IsFirstLook(t)
  {
  }

  lemma CalmPause(t: Trace)
    requires HasNoUnpause(t) && IsFirstLook(t)
    ensures IsCalm(t)
  {
  }

  lemma ResetBlamed(p: RunnerPolicy, runnerId: int, projectId: int, t: Trace)
    requires |t| == 1 && t[0].act == RemoveReceipt && !(t[0].answer.fault.None? && t[0].answer.yes)
    ensures IsResumeBlamedOnLast(p, runnerId, projectId, t, "resume_identity_receipt_reset_failed")
  {
  }

  lemma UnconfirmedExplained(p: RunnerPolicy, runnerId: int, projectId: int, patience: Patience, t: Trace,
                             out: Outcome)
    requires t != [] && HasNoUnpause(t[..|t| - 1])
    requires Unconfirmed(p, runnerId, projectId, t[..|t| - 1], t[|t| - 1])
    requires out == Returned("resume_pause_unconfirmed", None, false)
    ensures IsExplained(Resuming, p, runnerId, projectId, patience, t, out)
  {
    hide Unconfirmed, HasNoUnpause, Doubts, IsExplained;
    DoubtedByLast(p, runnerId, projectId, t);
    assert t + [] == t;
    ResumeExplained(p, runnerId, projectId, patience, t, [], out);
  }

  lemma RegisteredExplained(way: Way, p: RunnerPolicy, runnerId: int, projectId: int, patience: Patience, t: Trace)
    requires !p.installService && !way.Activating?
    ensures IsExplained(way, p, runnerId, projectId, patience, t, Returned("registered_paused", Some(true), false))
  {
  }

  lemma RegisteredUnattested(p: RunnerPolicy, runnerId: int, projectId: int, first: Trace, steps: Trace,
                             seen: Trace, ok: bool)
    requires HasNoUnpause(first) && IsQuiet(steps) && ActsLast(steps, VerifyRunner)
    requires |seen| == 1 && seen[0].act == GetRunner && ok == IsPausedAttest(p, runnerId, projectId, seen[0])
    ensures !ok ==> IsStoppedOnLast(p, runnerId, projectId, first, steps + seen)
  {
    hide HasNoUnpause, IsQuiet, IsPausedAttest;
    QuietHasNoUnpause(steps);
    NoUnpauseAppend(first, steps);
    var more := steps + seen;
    assert more[..|more| - 1] == steps && more[|more| - 1] == seen[0];
    assert (first + steps)[|first + steps| - 1] == steps[|steps| - 1];
  }

  lemma RegisteredUnnoted(p: RunnerPolicy, runnerId: int, projectId: int, first: Trace, more: Trace, noted: Trace,
                          ok: bool)
    requires |noted| == 1 && noted[0].act == WriteJournal("registered_paused")
    requires ok == noted[0].answer.fault.None?
    ensures !ok ==> IsStoppedOnLast(p, runnerId, projectId, first, more + noted)
  {
    hide IsPausedAttest;
    assert (more + noted)[|more + noted| - 1] == noted[0];
  }

  lemma RegisteredCalm(first: Trace, steps: Trace, seen: Trace, noted: Trace)
    requires IsCalm(first) && IsFirstLook(steps) && IsQuiet(steps + seen + noted)
    requires |seen| == 1 && seen[0].act == GetRunner
    requires |noted| == 1 && noted[0].act == WriteJournal("registered_paused")
    ensures IsCalm(first + (steps + seen + noted))
  {
    hide IsCalm, IsFirstLook, IsQuiet;
    OneLook(seen);
    OneLook(noted);
    LookAfter(steps, seen);
    LookAfter(steps + seen, noted);
    CalmAfter(first, steps + seen + noted);
  }

  /** One answer before registration is enough to stop provisioning. */
  lemma LastExplained(p: RunnerPolicy, runnerId: int, projectId: int, patience: Patience, before: Trace, e: Event,
                      rest: Trace)
    requires StopsProvision(p, runnerId, projectId, before, e)
    ensures IsExplained(Provisioning, p, runnerId, projectId, patience, before + [e] + rest, Raised)
    ensures rest == [] ==> before + [e] + rest == before + [e]
  {
    hide StopsProvision;
    assert before + [e][..0] == before;
    ProvisionExplained(p, runnerId, projectId, patience, before, [e], rest);
  }

  lemma EmptyQuiet()
    ensures IsQuiet([])
  {
  }

  lemma OneQuiet(e: Event)
    requires PauseCommand(e.act).None?
    ensures IsQuiet([e])
  {
  }

  lemma NoUnpauseOnce(p: RunnerPolicy, runnerId: int, projectId: int, t: Trace)
    requires HasNoUnpause(t)
    ensures UnpausesOnce(p, runnerId, projectId, t)
  {
  }

  lemma PausedThenQuiet(p: RunnerPolicy, runnerId: int, projectId: int, a: Trace, b: Trace)
    requires HasNoUnpause(a) && !IsQuiet(a) && EndsPaused(a) && IsQuiet(b)
    ensures HasNoUnpause(a + b) && !IsQuiet(a + b) && EndsPaused(a + b)
    ensures IsConfirmed(p, runnerId, projectId, a) ==> IsConfirmed(p, runnerId, projectId, a + b)
  {
    QuietHasNoUnpause(b);
    NoUnpauseAppend(a, b);
    EndsPausedThen(a, b);
    NotQuietLonger(a, b);
    if IsConfirmed(p, runnerId, projectId, a) {
      ConfirmedThen(p, runnerId, projectId, a, b);
    }
  }

  lemma QuietThenPaused(p: RunnerPolicy, runnerId: int, projectId: int, a: Trace, b: Trace)
    requires IsQuiet(a) && HasNoUnpause(b) && !IsQuiet(b) && EndsPaused(b)
    ensures HasNoUnpause(a + b) && !IsQuiet(a + b) && EndsPaused(a + b)
    ensures IsConfirmed(p, runnerId, projectId, b) ==> IsConfirmed(p, runnerId, projectId, a + b)
  {
    QuietHasNoUnpause(a);
    NoUnpauseAppend(a, b);
    EndsPausedAfter(a, b);
    NotQuietLonger(a, b);
    if IsConfirmed(p, runnerId, projectId, b) {
      ConfirmedAfter(p, runnerId, projectId, a, b);
    }
  }

  /** A creation is a command to pause. */
  lemma CreatedPaused(p: RunnerPolicy, runnerId: int, projectId: int, before: Trace, e: Event)
    requires IsQuiet(before) && e.act == CreateRunner
    ensures HasNoUnpause(before + [e]) && !IsQuiet(before + [e]) && EndsPaused(before + [e])
  {
    QuietHasNoUnpause(before);
    var t := before + [e];
    assert t[|before|] == e && PauseCommand(e.act) == Some(true);
    assert IsLastPauseAt(t, |before|);
  }

  lemma PausedIsFailClosed(p: RunnerPolicy, runnerId: int, projectId: int, t: Trace, out: Outcome)
    requires HasNoUnpause(t) && EndsPaused(t)
    requires out.Returned? ==> !IsQuiet(t) && !out.ready && out.paused != Some(false)
    requires out.Returned? && out.paused == Some(true) ==> IsConfirmed(p, runnerId, projectId, t)
    ensures IsFailClosed(p, runnerId, projectId, t, out)
  {
    NoUnpauseOnce(p, runnerId, projectId, t);
  }

  /** An attestation after the latest pause command confirms it. */
  lemma SeenPaused(p: RunnerPolicy, runnerId: int, projectId: int, first: Trace, before: Trace, seen: Trace,
                   after: Trace)
    requires !IsQuiet(first) && EndsPaused(first) && IsQuiet(before) && IsQuiet(after)
    requires |seen| == 1 && IsQuiet(seen) && IsPausedAttest(p, runnerId, projectId, seen[0])
    ensures IsConfirmed(p, runnerId, projectId, first + before + seen + after)
  {
    var t := first + before + seen + after;
    var q: nat :| IsLastPauseAt(first, q);
    QuietAppend(before, seen);
    QuietAppend(before + seen, after);
    assert t == first + (before + seen + after);
    assert t[q] == first[q];
    assert forall i {:trigger t[i]} :: |first| <= i < |t| ==> t[i] == (before + seen + after)[i - |first|];
    assert IsLastPauseAt(t, q);
    assert t[|first| + |before|] == seen[0];
    assert IsConfirmedBy(p, runnerId, projectId, t, q, |first| + |before|);
  }

  lemma SeenLast(p: RunnerPolicy, runnerId: int, projectId: int, first: Trace, quiet: Trace)
    requires !IsQuiet(first) && EndsPaused(first) && IsQuiet(quiet)
    requires quiet != [] && IsPausedAttest(p, runnerId, projectId, quiet[|quiet| - 1])
    ensures IsConfirmed(p, runnerId, projectId, first + quiet)
  {
    var n := |quiet| - 1;
    var before, seen := quiet[..n], quiet[n..];
    SeenPaused(p, runnerId, projectId, first, before, seen, []);
    assert quiet == before + seen;
    assert first + before + seen + [] == first + quiet;
  }

  lemma QuietIsFailClosed(p: RunnerPolicy, runnerId: int, projectId: int, t: Trace)
    requires IsQuiet(t)
    ensures IsFailClosed(p, runnerId, projectId, t, Raised)
  {
    QuietHasNoUnpause(t);
    NoUnpauseOnce(p, runnerId, projectId, t);
  }

  lemma ActiveIsFailClosed(p: RunnerPolicy, runnerId: int, projectId: int, t: Trace, out: Outcome)
    requires UnpausesOnce(p, runnerId, projectId, t) && EndsActive(p, runnerId, projectId, t)
    requires out.Returned? && out.ready && out.paused == Some(false)
    ensures IsFailClosed(p, runnerId, projectId, t, out)
  {
    assert PauseCommand(t[|t| - 3].act).Some?;
  }

  /** After an activation that failed half way the runner is paused again. */
  lemma TakenBackIsFailClosed(p: RunnerPolicy, runnerId: int, projectId: int, a: Trace, b: Trace, out: Outcome)
    requires UnpausesOnce(p, runnerId, projectId, a)
    requires HasNoUnpause(b) && !IsQuiet(b) && EndsPaused(b)
    requires out.Returned? && !out.ready && out.paused != Some(false)
    requires out.paused == Some(true) ==> IsConfirmed(p, runnerId, projectId, b)
    ensures IsFailClosed(p, runnerId, projectId, a + b, out)
  {
    UnpausesThen(p, runnerId, projectId, a, b);
    EndsPausedAfter(a, b);
    NotQuietLonger(a, b);
    if out.paused == Some(true) {
      ConfirmedAfter(p, runnerId, projectId, a, b);
    }
  }

  lemma QuietThenFailClosed(p: RunnerPolicy, runnerId: int, projectId: int, a: Trace, b: Trace, out: Outcome)
    requires IsQuiet(a) && IsFailClosed(p, runnerId, projectId, b, out)
    ensures IsFailClosed(p, runnerId, projectId, a + b, out)
    ensures HasNoUnpause(b) ==> HasNoUnpause(a + b)
  {
    QuietHasNoUnpause(a);
    FailClosedAfter(p, runnerId, projectId, a, b, out);
    if HasNoUnpause(b) {
      NoUnpauseAppend(a, b);
    }
  }
}
