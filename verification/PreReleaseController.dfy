/** The controller as it runs: it changes the task it loaded and saves it again and again,
    calling gate and mail in between. Each method is shown to make exactly the saves and mail
    attempts of its plan, as far as its process lives. */
module PreReleaseController {
  import opened Json
  import opened PreRelease
  import opened PreReleaseRuns

  /** The call made the first `lives` actions of the plan, and told its result if it got
      through them all. */
  ghost predicate Follows(plan: CallPlan, before: World, lives: nat, after: World, left: nat, told: Option<Result>) {
    && after == PerformAll(before, Lived(plan.actions, lives))
    && (if lives >= |plan.actions| then told == Some(plan.result) && left == lives - |plan.actions|
        else told.None? && left == 0)
  }

  lemma FollowsNothing(r: Result, w: World, lives: nat)
    ensures Follows(CallPlan([], r), w, lives, w, lives, Some(r))
  {
  }

  lemma DiesAtOnce(a: Action, rest: CallPlan, w: World)
    ensures Follows(Before([a], rest), w, 0, w, 0, None)
  {
    assert Lived(Before([a], rest).actions, 0) == [];
  }

  lemma FollowsFirst(a: Action, rest: CallPlan, w: World, lives: nat, after: World, left: nat, told: Option<Result>)
    requires lives > 0 && Follows(rest, Perform(w, a), lives - 1, after, left, told)
    ensures Follows(Before([a], rest), w, lives, after, left, told)
  {
    var all := Before([a], rest).actions;
    assert all[0] == a && all[1..] == rest.actions;
    assert Lived(all, lives)[0] == a && Lived(all, lives)[1..] == Lived(rest.actions, lives - 1);
  }

  lemma OneAction(a: Action, r: Result)
    ensures CallPlan([a], r) == Before([a], CallPlan([], r))
  {
  }

  // ---------------------------------------------------------------- one pass over the stored tasks

  predicate IsPending(t: Task) {
    t.status == GateRunning && t.request.Some?
  }

  /** The stored task after one retry. */
  function Retried(h: Host, t: Task, answer: Option<string>): Task {
    if IsPending(t) && answer.Some? && h.strip(answer.value) == t.request.value.messageId then SentTask(t) else t
  }

  /** A retry that lived to its end changed its own task only, as `Retried` says. */
  lemma SendChanges(h: Host, w: World, t: Task, answer: Option<string>)
    requires t.key in w.tasks && w.tasks[t.key] == t && IsPending(t)
    ensures var plan := SendPlan(h, t, answer);
      plan.result != Raised(BadgeMismatch) ==>
        && PerformAll(w, plan.actions).tasks == w.tasks[t.key := Retried(h, t, answer)]
        && plan.result == (if Retried(h, t, answer) != t then Returned(RequestSent)
                           else if answer.None? then Raised(RetryPending) else Raised(ReceiptInvalid))
  {
    var plan := SendPlan(h, t, answer);
    if plan.result != Raised(BadgeMismatch) {
      var mailed := Perform(w, plan.actions[0]);
      assert w.tasks[t.key := t] == w.tasks;
      assert PerformAll(w, plan.actions) == PerformAll(mailed, plan.actions[1..]);
      if plan.actions[1..] != [] {
        assert plan.actions[1..][1..] == [];
        assert PerformAll(mailed, plan.actions[1..]) == PerformAll(Perform(mailed, plan.actions[1]), []);
      }
    }
  }

  lemma NotPendingStays(h: Host, t: Task, answer: Option<string>)
    requires !IsPending(t)
    ensures Retried(h, t, answer) == t
  {
  }

  /** File order: every key once, under its own name. */
  predicate AreKeys(tasks: map<TaskKey, Task>, keys: seq<TaskKey>) {
    && (forall i :: 0 <= i < |keys| ==> keys[i] in tasks && tasks[keys[i]].key == keys[i])
    && forall i, j :: 0 <= i < j < |keys| ==> keys[i] != keys[j]
  }

  function AfterRetries(h: Host, tasks: map<TaskKey, Task>, keys: seq<TaskKey>, answers: TaskKey -> Option<string>):
    (r: map<TaskKey, Task>)
    requires forall i :: 0 <= i < |keys| ==> keys[i] in tasks
    ensures r.Keys == tasks.Keys
    decreases |keys|
  {
    if keys == [] then tasks
    else
      var key := keys[|keys| - 1];
      var before := AfterRetries(h, tasks, keys[..|keys| - 1], answers);
      before[key := Retried(h, before[key], answers(key))]
  }

  function PendingCount(tasks: map<TaskKey, Task>, keys: seq<TaskKey>): nat
    requires forall i :: 0 <= i < |keys| ==> keys[i] in tasks
    decreases |keys|
  {
    if keys == [] then 0
    else PendingCount(tasks, keys[..|keys| - 1]) + if IsPending(tasks[keys[|keys| - 1]]) then 1 else 0
  }

  function SentCount(h: Host, tasks: map<TaskKey, Task>, keys: seq<TaskKey>, answers: TaskKey -> Option<string>): nat
    requires forall i :: 0 <= i < |keys| ==> keys[i] in tasks
    decreases |keys|
  {
    if keys == [] then 0
    else
      var key := keys[|keys| - 1];
      SentCount(h, tasks, keys[..|keys| - 1], answers)
        + if Retried(h, tasks[key], answers(key)) != tasks[key] then 1 else 0
  }

  lemma RetriesKeys(h: Host, tasks: map<TaskKey, Task>, keys: seq<TaskKey>, answers: TaskKey -> Option<string>)
    requires forall i :: 0 <= i < |keys| ==> keys[i] in tasks
    ensures AfterRetries(h, tasks, keys, answers).Keys == tasks.Keys
  {
  }

  lemma {:induction false} RetriesMiss(h: Host, tasks: map<TaskKey, Task>, keys: seq<TaskKey>,
                                       answers: TaskKey -> Option<string>, key: TaskKey)
    requires forall i :: 0 <= i < |keys| ==> keys[i] in tasks
    requires key in tasks && key !in keys
    ensures AfterRetries(h, tasks, keys, answers)[key] == tasks[key]
    decreases |keys|
  {
    if keys != [] {
      RetriesMiss(h, tasks, keys[..|keys| - 1], answers, key);
    }
  }

  /** One retry each: every task ends retried exactly once. */
  lemma {:induction false} EachRetriedOnce(h: Host, tasks: map<TaskKey, Task>, keys: seq<TaskKey>,
                                           answers: TaskKey -> Option<string>, key: TaskKey)
    requires AreKeys(tasks, keys) && key in tasks
    ensures AfterRetries(h, tasks, keys, answers)[key]
         == if key in keys then Retried(h, tasks[key], answers(key)) else tasks[key]
    decreases |keys|
  {
    if keys != [] {
      var n := |keys| - 1;
      if key == keys[n] {
        RetriesMiss(h, tasks, keys[..n], answers, key);
      } else {
        EachRetriedOnce(h, tasks, keys[..n], answers, key);
        assert key in keys <==> key in keys[..n];
      }
    }
  }

  lemma {:induction false} FollowInTurn(h: Host, g: Settings, w: World, first: seq<PreEvent>, rest: seq<PreEvent>)
    ensures FollowAll(h, g, w, first + rest) == FollowAll(h, g, FollowAll(h, g, w, first), rest)
    decreases |rest|
  {
    if rest == [] {
      assert first + rest == first;
    } else {
      var n := |rest| - 1;
      assert first + rest == (first + rest[..n]) + [rest[n]];
      FollowInTurn(h, g, w, first, rest[..n]);
      OneMoreEvent(h, g, w, first + rest[..n], rest[n]);
    }
  }

  lemma OneMoreEvent(h: Host, g: Settings, w: World, events: seq<PreEvent>, e: PreEvent)
    ensures FollowAll(h, g, w, events + [e]) == Follow(h, g, FollowAll(h, g, w, events), e)
  {
    assert (events + [e])[..|events|] == events;
  }

  class PreReleaseController {
    const host: Host
    const settings: Settings
    var tasks: map<TaskKey, Task>
    /** The mail gateway's log of attempts. */
    var posted: seq<Mail>
    /** Saves and mail attempts this process will still live to make. */
    var lives: nat

    ghost function State(): World
      reads this
    {
      World(tasks, posted)
    }

    constructor (host: Host, settings: Settings, world: World, lives: nat)
      ensures this.host == host && this.settings == settings && State() == world && this.lives == lives
    {
      this.host, this.settings, this.lives := host, settings, lives;
      tasks, posted := world.tasks, world.posted;
    }

    method SaveTask(t: Task) returns (alive: bool)
      modifies this
      ensures alive <==> old(lives) > 0
      ensures alive ==> State() == Perform(old(State()), Save(t)) && lives == old(lives) - 1
      ensures !alive ==> State() == old(State()) && lives == 0
    {
      if lives == 0 {
        return false;
      }
      lives := lives - 1;
      tasks := tasks[t.key := t];
      return true;
    }

    method SendEmail(m: Mail) returns (alive: bool)
      modifies this
      ensures alive <==> old(lives) > 0
      ensures alive ==> State() == Perform(old(State()), Post(m)) && lives == old(lives) - 1
      ensures !alive ==> State() == old(State()) && lives == 0
    {
      if lives == 0 {
        return false;
      }
      lives := lives - 1;
      posted := posted + [m];
      return true;
    }

    /** Saves a last state and returns. */
    method Conclude(t: Task, r: Result) returns (told: Option<Result>)
      modifies this
      ensures Follows(CallPlan([Save(t)], r), old(State()), old(lives), State(), lives, told)
    {
      hide Follows;
      OneAction(Save(t), r);
      DiesAtOnce(Save(t), CallPlan([], r), State());
      label start:
      var alive := SaveTask(t);
      if !alive {
        return None;
      }
      FollowsNothing(r, State(), lives);
      FollowsFirst(Save(t), CallPlan([], r), old@start(State()), old@start(lives), State(), lives, Some(r));
      return Some(r);
    }

    method SendPrereleaseRequest(t: Task, answer: Option<string>) returns (told: Option<Result>)
      requires t.request.Some?
      modifies this
      ensures Follows(SendPlan(host, t, answer), old(State()), old(lives), State(), lives, told)
    {
      hide Follows;
      var plan := SendPlan(host, t, answer);
      var r := t.request.value;
      if !IsBadged(t) || r.payload.badge != t.transportBadge {
        FollowsNothing(Raised(BadgeMismatch), State(), lives);
        return Some(Raised(BadgeMismatch));
      }
      var mail := MailOf(t);
      ghost var rest := CallPlan(plan.actions[1..], plan.result);
      assert plan == Before([Post(mail)], rest);
      DiesAtOnce(Post(mail), rest, State());
      label start:
      var alive := SendEmail(mail);
      if !alive {
        return None;
      }
      label mailed:
      if answer.None? {
        told := Some(Raised(RetryPending));
        FollowsNothing(Raised(RetryPending), State(), lives);
      } else if host.strip(answer.value) != r.messageId {
        told := Some(Raised(ReceiptInvalid));
        FollowsNothing(Raised(ReceiptInvalid), State(), lives);
      } else {
        var sent := t.(status := RequestSent);
        sent := sent.(receipt := Some(SentReceipt(host.strip(answer.value), r.idempotencyKey)));
        assert sent == SentTask(t);
        assert rest == CallPlan([Save(sent)], Returned(RequestSent));
        told := Conclude(sent, Returned(RequestSent));
      }
      FollowsFirst(Post(mail), rest, old@start(State()), old@start(lives), State(), lives, told);
    }

    /** The final build, and the save that freezes the request. */
    method BuildAndSend(t: Task, i: Intent, a: Answers) returns (told: Option<Result>)
      modifies this
      ensures Follows(BuildPlan(host, settings, t, i, a), old(State()), old(lives), State(), lives, told)
    {
      hide Follows, SendPlan, RequestOf;
      var passed := t.(status := TestPassed);
      ghost var plan := BuildPlan(host, settings, t, i, a);
      ghost var rest := CallPlan(plan.actions[1..], plan.result);
      assert plan == Before([Save(passed)], rest);
      DiesAtOnce(Save(passed), rest, State());
      label start:
      var alive := SaveTask(passed);
      if !alive {
        return None;
      }
      label saved:
      if a.built.None? {
        told := Some(Raised(GateCallFailed));
        FollowsNothing(Raised(GateCallFailed), State(), lives);
      } else {
        var digest, ref := host.strip(a.built.value.0), host.strip(a.built.value.1);
        if digest == "" {
          told := Some(Raised(MissingManifestRDigest));
          FollowsNothing(Raised(MissingManifestRDigest), State(), lives);
        } else if settings.domain.None? {
          told := Some(Raised(ConfigError));
          FollowsNothing(Raised(ConfigError), State(), lives);
        } else if !IsBadged(t) {
          told := Some(Raised(BadgeMismatch));
          FollowsNothing(Raised(BadgeMismatch), State(), lives);
        } else {
          var frozen := passed.(status := GateRunning, request := Some(RequestOf(host, settings, t, i, digest, ref)));
          ghost var send := SendPlan(host, frozen, a.mailed);
          assert rest == Before([Save(frozen)], send);
          DiesAtOnce(Save(frozen), send, State());
          alive := SaveTask(frozen);
          if alive {
            told := SendPrereleaseRequest(frozen, a.mailed);
            FollowsFirst(Save(frozen), send, old@saved(State()), old@saved(lives), State(), lives, told);
          } else {
            told := None;
          }
        }
      }
      FollowsFirst(Save(passed), rest, old@start(State()), old@start(lives), State(), lives, told);
    }

    /** What the gate's authoritative status leads to. */
    method Proceed(t: Task, i: Intent, status: string, a: Answers) returns (told: Option<Result>)
      modifies this
      ensures Follows(GatePlan(host, settings, t, i, status, a), old(State()), old(lives), State(), lives, told)
    {
      hide Follows, BuildPlan;
      if status == "TEST_APPROVAL_REQUIRED" {
        told := Conclude(t.(status := ApprovalNeeded), Returned(ApprovalNeeded));
      } else if status != "RELEASE_PREPARING" && status != "RELEASE_GATING" {
        var reason := "UNSUPPORTED_AUTHORITATIVE_STATUS:" + (if status == "" then "missing" else status);
        told := Conclude(t.(status := RequestBlocked(reason)), Raised(AuthoritativeBlocked));
      } else {
        told := BuildAndSend(t, i, a);
      }
    }

    method ImportAndProceed(t: Task, i: Intent, a: Answers) returns (told: Option<Result>)
      modifies this
      ensures Follows(ImportPlan(host, settings, t, i, a), old(State()), old(lives), State(), lives, told)
    {
      hide Follows, GatePlan;
      if a.imported.None? {
        told := Conclude(t.(status := RequestBlocked("SUBMISSION_IMPORT_FAILED")), Raised(ImportFailed));
        return;
      }
      var status := host.strip(a.imported.value);
      if status == "" {
        told := Conclude(t.(status := RequestBlocked("SUBMISSION_IMPORT_STATUS_MISSING")), Raised(ImportStatusMissing));
        return;
      }
      if status != "TESTING" {
        told := Proceed(t, i, status, a);
        return;
      }
      var testing := t.(status := UnderTest);
      ghost var rest := if a.recorded.None? then Fail(GateCallFailed)
                        else GatePlan(host, settings, testing, i, host.strip(a.recorded.value), a);
      DiesAtOnce(Save(testing), rest, State());
      label start:
      var alive := SaveTask(testing);
      if !alive {
        return None;
      }
      if a.recorded.None? {
        told := Some(Raised(GateCallFailed));
        FollowsNothing(Raised(GateCallFailed), State(), lives);
      } else {
        told := Proceed(testing, i, host.strip(a.recorded.value), a);
      }
      FollowsFirst(Save(testing), rest, old@start(State()), old@start(lives), State(), lives, told);
    }

    method RecordFailure(q: CreateArgs, t: Task) returns (told: Option<Result>)
      modifies this
      ensures Follows(FailPlan(host, q, t), old(State()), old(lives), State(), lives, told)
    {
      hide Follows;
      if host.strip(q.failureReason) == "" {
        FollowsNothing(Raised(InvalidInput), State(), lives);
        return Some(Raised(InvalidInput));
      }
      if t.intent.Some? {
        FollowsNothing(Raised(IntentConflict), State(), lives);
        return Some(Raised(IntentConflict));
      }
      var testing := t.(status := UnderTest);
      var failed := testing.(status := TestFailed);
      ghost var rest := CallPlan([Save(failed)], Returned(TestFailed));
      assert Before([Save(testing)], rest).actions == [Save(testing), Save(failed)];
      DiesAtOnce(Save(testing), rest, State());
      label start:
      var alive := SaveTask(testing);
      if !alive {
        return None;
      }
      told := Conclude(failed, Returned(TestFailed));
      FollowsFirst(Save(testing), rest, old@start(State()), old@start(lives), State(), lives, told);
    }

    method PassRequest(t: Task, a: Answers) returns (told: Option<Result>)
      requires t.intent.Some?
      modifies this
      ensures Follows(PassPlan(host, settings, t, a), old(State()), old(lives), State(), lives, told)
    {
      if t.status == GateRunning && t.request.Some? {
        told := SendPrereleaseRequest(t, a.mailed);
      } else {
        told := ImportAndProceed(t, t.intent.value, a);
      }
    }

    method CreateRequest(q: CreateArgs, a: Answers) returns (told: Option<Result>)
      modifies this
      ensures Follows(CreatePlan(host, settings, old(tasks), q, a), old(State()), old(lives), State(), lives, told)
    {
      hide Follows, PassPlan, FailPlan;
      if q.key !in tasks {
        told := Some(Raised(NotFound));
        FollowsNothing(told.value, State(), lives);
        return;
      }
      var t := tasks[q.key];
      if t.status == RequestSent {
        told := Some(Returned(RequestSent));
        FollowsNothing(told.value, State(), lives);
        return;
      }
      if q.pass == Some(false) {
        told := RecordFailure(q, t);
        return;
      }
      if q.pass.None? || host.strip(q.outputDir) == "" || host.strip(q.testedDir) == "" {
        told := Some(Raised(InvalidInput));
        FollowsNothing(told.value, State(), lives);
        return;
      }
      if t.manifestS.None? {
        told := Some(Raised(MissingManifestS));
        FollowsNothing(told.value, State(), lives);
        return;
      }
      if t.intent.Some? {
        if t.intent.value != IntentOf(host, settings, q, t.intent.value.completedAt) {
          told := Some(Raised(IntentConflict));
          FollowsNothing(told.value, State(), lives);
        } else if host.strip(t.intent.value.completedAt) == "" {
          told := Some(Raised(StateInvalid));
          FollowsNothing(told.value, State(), lives);
        } else {
          told := PassRequest(t, a);
        }
        return;
      }
      var frozen := t.(intent := Some(IntentOf(host, settings, q, q.now)));
      ghost var rest := PassPlan(host, settings, frozen, a);
      DiesAtOnce(Save(frozen), rest, State());
      label start:
      var alive := SaveTask(frozen);
      if !alive {
        return None;
      }
      told := PassRequest(frozen, a);
      FollowsFirst(Save(frozen), rest, old@start(State()), old@start(lives), State(), lives, told);
    }

    /** One round of the first loop of `run_once`. */
    method RetryOne(key: TaskKey, answer: Option<string>) returns (told: Option<Result>)
      requires key in tasks && tasks[key].key == key && IsPending(tasks[key])
      modifies this
      ensures State() == Follow(host, settings, old(State()), Resend(key, answer, old(lives)))
      ensures told.Some? && told.value != Raised(BadgeMismatch) ==>
        && tasks == old(tasks)[key := Retried(host, old(tasks)[key], answer)]
        && (told.value.Returned? <==> Retried(host, old(tasks)[key], answer) != old(tasks)[key])
    {
      hide SendPlan, Retried;
      ghost var t := tasks[key];
      ghost var before := State();
      told := SendPrereleaseRequest(tasks[key], answer);
      SendChanges(host, before, t, answer);
      assert PlanFor(host, settings, before, Resend(key, answer, old(lives))) == SendPlan(host, t, answer);
      if told.Some? {
        assert Lived(SendPlan(host, t, answer).actions, old(lives)) == SendPlan(host, t, answer).actions;
      }
    }

    /** The first loop of `run_once`: one retry for every pending request, in file order.
        `events` is the run it amounts to. `None`: the process died, or a stored task was
        not one that may be mailed. */
    method RetryAll(keys: seq<TaskKey>, answers: TaskKey -> Option<string>)
      returns (sent: Option<nat>, pending: nat, ghost events: seq<PreEvent>)
      requires AreKeys(tasks, keys)
      modifies this
      ensures State() == FollowAll(host, settings, old(State()), events)
      ensures forall e :: e in events ==> e.Resend?
      ensures sent.Some? ==>
        && tasks == AfterRetries(host, old(tasks), keys, answers)
        && sent.value + pending == |events| == PendingCount(old(tasks), keys)
        && sent.value == SentCount(host, old(tasks), keys, answers)
    {
      hide Retried, Follow, IsPending;
      events, pending := [], 0;
      var done := 0;
      for i := 0 to |keys|
        invariant State() == FollowAll(host, settings, old(State()), events)
        invariant forall e :: e in events ==> e.Resend?
        invariant tasks == AfterRetries(host, old(tasks), keys[..i], answers)
        invariant done + pending == |events| == PendingCount(old(tasks), keys[..i])
        invariant done == SentCount(host, old(tasks), keys[..i], answers)
      {
        var key := keys[i];
        assert keys[..i + 1][..i] == keys[..i] && keys[..i + 1][i] == key;
        RetriesMiss(host, old(tasks), keys[..i], answers, key);
        if IsPending(tasks[key]) {
          OneMoreEvent(host, settings, old(State()), events, Resend(key, answers(key), lives));
          events := events + [Resend(key, answers(key), lives)];
          var told := RetryOne(key, answers(key));
          if told.None? || told.value == Raised(BadgeMismatch) {
            return None, pending, events;
          }
          if told.value.Returned? {
            done := done + 1;
          } else {
            pending := pending + 1;
          }
        } else {
          NotPendingStays(host, tasks[key], answers(key));
        }
      }
      assert keys[..|keys|] == keys;
      return Some(done), pending, events;
    }

    /** The second loop: new submissions are stored, known ones left alone. */
    method StoreAll(arrivals: seq<Task>) returns (stored: Option<nat>, ghost events: seq<PreEvent>)
      requires forall i :: 0 <= i < |arrivals| ==> IsNewTask(arrivals[i])
      modifies this
      ensures State() == FollowAll(host, settings, old(State()), events)
      ensures forall e :: e in events ==> e.Arrive?
      ensures forall k :: k in old(tasks) ==> k in tasks && tasks[k] == old(tasks)[k]
      ensures stored.Some? ==> |events| == |arrivals| && forall i :: 0 <= i < |arrivals| ==> arrivals[i].key in tasks
    {
      hide Follow;
      events := [];
      var processed := 0;
      for i := 0 to |arrivals|
        invariant State() == FollowAll(host, settings, old(State()), events)
        invariant |events| == i && forall e :: e in events ==> e.Arrive?
        invariant forall k :: k in old(tasks) ==> k in tasks && tasks[k] == old(tasks)[k]
        invariant forall j :: 0 <= j < i ==> arrivals[j].key in tasks
      {
        OneMoreEvent(host, settings, old(State()), events, Arrive(arrivals[i], lives));
        events := events + [Arrive(arrivals[i], lives)];
        var told := StoreSubmission(arrivals[i]);
        if told.None? {
          return None, events;
        }
        if told.value {
          processed := processed + 1;
        }
      }
      return Some(processed), events;
    }

    method StoreSubmission(t: Task) returns (processed: Option<bool>)
      requires IsNewTask(t)
      modifies this
      ensures State() == Follow(host, settings, old(State()), Arrive(t, old(lives)))
      ensures forall k :: k in old(tasks) ==> k in tasks && tasks[k] == old(tasks)[k]
      ensures processed.Some? ==> t.key in tasks && (processed.value <==> t.key !in old(tasks))
    {
      if t.key in tasks {
        return Some(false);
      }
      ghost var before := State();
      assert Lived([Save(t)], 1) == [Save(t)] && [Save(t)][1..] == [];
      assert PerformAll(before, [Save(t)]) == Perform(before, Save(t));
      var alive := SaveTask(t);
      return if alive then Some(true) else None;
    }

    /** `run_once`, between taking and giving back the run lock: retries, then new mail. */
    method RunOnce(keys: seq<TaskKey>, answers: TaskKey -> Option<string>, arrivals: seq<Task>)
      returns (sent: Option<nat>, pending: nat, ghost events: seq<PreEvent>)
      requires AreKeys(tasks, keys)
      requires forall i :: 0 <= i < |arrivals| ==> IsNewTask(arrivals[i])
      modifies this
      ensures State() == FollowAll(host, settings, old(State()), events)
      ensures sent.Some? ==>
        && sent.value + pending == PendingCount(old(tasks), keys)
        && sent.value == SentCount(host, old(tasks), keys, answers)
        && forall k :: k in old(tasks) ==> k in tasks && tasks[k] == AfterRetries(host, old(tasks), keys, answers)[k]
    {
      hide Follow, Retried, IsPending;
      ghost var first: seq<PreEvent>;
      sent, pending, first := RetryAll(keys, answers);
      events := first;
      if sent.None? {
        return;
      }
      RetriesKeys(host, old(tasks), keys, answers);
      var stored, rest := StoreAll(arrivals);
      FollowInTurn(host, settings, old(State()), first, rest);
      events := first + rest;
      if stored.None? {
        sent := None;
      }
    }
  }
}
