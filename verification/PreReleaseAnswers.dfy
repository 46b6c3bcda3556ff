/** What a call of the pre-release side answers, said of the gate's and the mail service's words
    alone: which status leads where, when a request is stored, when a mail is attempted. */
module PreReleaseAnswers {
  import opened Json
  import opened PreRelease

  /** The mails attempted, in order. */
  function Posts(actions: seq<Action>): seq<Mail> {
    if actions == [] then []
    else (if actions[0].Post? then [actions[0].mail] else []) + Posts(actions[1..])
  }

  /** What is stored for the task afterwards. */
  function Stored(t: Task, actions: seq<Action>): Task
    decreases |actions|
  {
    if actions == [] then t else Stored(if actions[0].Save? then actions[0].task else t, actions[1..])
  }

  /** No save brings in a request. */
  predicate AddNoRequest(t: Task, actions: seq<Action>) {
    forall action :: action in actions && action.Save? ==> action.task.request == t.request
  }

  // ---------------------------------------------------------------- calls that get to the gate

  /** The inputs agree with what an earlier call froze. */
  predicate IsSameIntent(h: Host, g: Settings, q: CreateArgs, i: Intent) {
    && i.summary == h.strip(q.summary) && i.reportRef == h.strip(q.reportRef)
    && i.outputDir == g.absolute(q.outputDir) && i.testedDir == g.absolute(q.testedDir)
  }

  /** A PASS call with usable inputs for a task that has no request stored. */
  predicate ReachesGate(h: Host, g: Settings, tasks: map<TaskKey, Task>, q: CreateArgs) {
    && q.key in tasks && q.pass == Some(true) && h.strip(q.outputDir) != "" && h.strip(q.testedDir) != ""
    && var t := tasks[q.key];
    && t.status != RequestSent && t.manifestS.Some? && t.request.None?
    && (t.intent.Some? ==> IsSameIntent(h, g, q, t.intent.value) && h.strip(t.intent.value.completedAt) != "")
  }

  /** The task with its intent frozen, now or before. */
  function Frozen(h: Host, g: Settings, t: Task, q: CreateArgs): Task {
    if t.intent.Some? then t
    else t.(intent := Some(Intent(h.strip(q.summary), h.strip(q.reportRef), g.absolute(q.outputDir),
                                  g.absolute(q.testedDir), q.now)))
  }

  /** The last status the gate told: that of the recorded result, if the import said TESTING. */
  function LastStatus(h: Host, a: Answers): Option<string> {
    if a.imported.None? then None
    else if h.strip(a.imported.value) != "TESTING" then Some(h.strip(a.imported.value))
    else if a.recorded.Some? then Some(h.strip(a.recorded.value)) else None
  }

  lemma SaveOnTop(t: Task, first: Task, rest: seq<Action>)
    ensures Posts([Save(first)] + rest) == Posts(rest) && Stored(t, [Save(first)] + rest) == Stored(first, rest)
  {
    assert ([Save(first)] + rest)[1..] == rest;
  }

  lemma PostOnTop(t: Task, m: Mail, rest: seq<Action>)
    ensures Posts([Post(m)] + rest) == [m] + Posts(rest) && Stored(t, [Post(m)] + rest) == Stored(t, rest)
  {
    assert ([Post(m)] + rest)[1..] == rest;
  }

  /** The import and the recording of the result, before anything is decided. */
  lemma ImportThenDecide(h: Host, g: Settings, t: Task, i: Intent, a: Answers)
    requires LastStatus(h, a).Some? && h.strip(a.imported.value) != ""
    ensures var status := LastStatus(h, a).value;
      var at := if h.strip(a.imported.value) == "TESTING" then t.(status := UnderTest) else t;
      var plan, rest := ImportPlan(h, g, t, i, a), GatePlan(h, g, at, i, status, a);
      && plan.result == rest.result && Posts(plan.actions) == Posts(rest.actions)
      && Stored(t, plan.actions) == Stored(at, rest.actions)
      && (AddNoRequest(t, rest.actions) ==> AddNoRequest(t, plan.actions))
      && (forall action :: action in rest.actions ==> action in plan.actions)
  {
    hide GatePlan;
    if h.strip(a.imported.value) == "TESTING" {
      var at := t.(status := UnderTest);
      SaveOnTop(t, at, GatePlan(h, g, at, i, LastStatus(h, a).value, a).actions);
    }
  }

  lemma FreezeThenImport(h: Host, g: Settings, tasks: map<TaskKey, Task>, q: CreateArgs, a: Answers)
    requires ReachesGate(h, g, tasks, q)
    ensures var t := tasks[q.key]; var frozen := Frozen(h, g, t, q);
      var plan, rest := CreatePlan(h, g, tasks, q, a), ImportPlan(h, g, frozen, frozen.intent.value, a);
      && plan.result == rest.result && Posts(plan.actions) == Posts(rest.actions)
      && Stored(t, plan.actions) == Stored(frozen, rest.actions)
      && (AddNoRequest(t, rest.actions) ==> AddNoRequest(t, plan.actions))
      && (forall action :: action in rest.actions ==> action in plan.actions)
  {
    hide ImportPlan;
    var t := tasks[q.key];
    var frozen := Frozen(h, g, t, q);
    if t.intent.None? {
      SaveOnTop(t, frozen, ImportPlan(h, g, frozen, frozen.intent.value, a).actions);
    }
  }

  lemma GateDecides(h: Host, g: Settings, tasks: map<TaskKey, Task>, q: CreateArgs, a: Answers) returns (at: Task)
    requires ReachesGate(h, g, tasks, q) && LastStatus(h, a).Some? && h.strip(a.imported.value) != ""
    ensures var frozen := Frozen(h, g, tasks[q.key], q);
      at == frozen.(status := at.status) && frozen.intent.Some?
      && var plan := CreatePlan(h, g, tasks, q, a);
      var rest := GatePlan(h, g, at, frozen.intent.value, LastStatus(h, a).value, a);
      && plan.result == rest.result && Posts(plan.actions) == Posts(rest.actions)
      && Stored(tasks[q.key], plan.actions) == Stored(at, rest.actions)
      && (AddNoRequest(tasks[q.key], rest.actions) ==> AddNoRequest(tasks[q.key], plan.actions))
      && (forall action :: action in rest.actions ==> action in plan.actions)
  {
    hide CreatePlan, ImportPlan, GatePlan, Posts, Stored;
    var frozen := Frozen(h, g, tasks[q.key], q);
    FreezeThenImport(h, g, tasks, q, a);
    ImportThenDecide(h, g, frozen, frozen.intent.value, a);
    at := if h.strip(a.imported.value) == "TESTING" then frozen.(status := UnderTest) else frozen;
  }

  // ---------------------------------------------------------------- the answers

  /** A test that still needs its approval stops the call: exactly that is stored and returned,
      nothing is built into a request, and nothing is mailed. */
  lemma ApprovalStops(h: Host, g: Settings, tasks: map<TaskKey, Task>, q: CreateArgs, a: Answers)
    requires ReachesGate(h, g, tasks, q) && LastStatus(h, a) == Some("TEST_APPROVAL_REQUIRED")
    ensures var plan := CreatePlan(h, g, tasks, q, a);
      && plan.result == Returned(ApprovalNeeded) && Posts(plan.actions) == []
      && Stored(tasks[q.key], plan.actions) == Frozen(h, g, tasks[q.key], q).(status := ApprovalNeeded)
      && AddNoRequest(tasks[q.key], plan.actions)
  {
    hide CreatePlan;
    var at := GateDecides(h, g, tasks, q, a);
  }

  /** The words of the gate that are no status to go on with. */
  predicate IsOther(status: string) {
    status !in {"TEST_APPROVAL_REQUIRED", "RELEASE_PREPARING", "RELEASE_GATING"}
  }

  /** Any other status blocks the task under the very text the gate gave, and the call raises. */
  lemma OtherStatusBlocks(h: Host, g: Settings, tasks: map<TaskKey, Task>, q: CreateArgs, a: Answers)
    requires ReachesGate(h, g, tasks, q) && LastStatus(h, a).Some? && h.strip(a.imported.value) != ""
    requires IsOther(LastStatus(h, a).value)
    ensures var plan, status := CreatePlan(h, g, tasks, q, a), LastStatus(h, a).value;
      var reason := "UNSUPPORTED_AUTHORITATIVE_STATUS:" + if status == "" then "missing" else status;
      && plan.result == Raised(AuthoritativeBlocked) && Posts(plan.actions) == []
      && Stored(tasks[q.key], plan.actions) == Frozen(h, g, tasks[q.key], q).(status := RequestBlocked(reason))
      && AddNoRequest(tasks[q.key], plan.actions)
  {
    hide CreatePlan;
    var at := GateDecides(h, g, tasks, q, a);
  }

  /** A gate that fails, or names no status, stops the call before anything is built or mailed. */
  lemma SilentGateStops(h: Host, g: Settings, tasks: map<TaskKey, Task>, q: CreateArgs, a: Answers)
    requires ReachesGate(h, g, tasks, q)
    requires a.imported.None? || h.strip(a.imported.value) == ""
             || (h.strip(a.imported.value) == "TESTING" && a.recorded.None?)
    ensures var plan, frozen := CreatePlan(h, g, tasks, q, a), Frozen(h, g, tasks[q.key], q);
      var stored := Stored(tasks[q.key], plan.actions);
      && Posts(plan.actions) == [] && AddNoRequest(tasks[q.key], plan.actions)
      && if a.imported.None? then
           && plan.result == Raised(ImportFailed)
           && stored == frozen.(status := RequestBlocked("SUBMISSION_IMPORT_FAILED"))
         else if h.strip(a.imported.value) == "" then
           && plan.result == Raised(ImportStatusMissing)
           && stored == frozen.(status := RequestBlocked("SUBMISSION_IMPORT_STATUS_MISSING"))
         else plan.result == Raised(GateCallFailed) && stored == frozen.(status := UnderTest)
  {
    hide CreatePlan, GatePlan;
    FreezeThenImport(h, g, tasks, q, a);
  }

  /** The build answered, and a request can be made of it. */
  predicate IsBuildUsable(h: Host, g: Settings, t: Task, a: Answers) {
    && a.built.Some? && h.strip(a.built.value.0) != "" && g.domain.Some?
    && t.originBadge == t.transportBadge && t.transportBadge in {VERIFIED_BADGE, PLAIN_BADGE}
  }

  /** A status that is ready has TEST_PASSED stored and the build asked. Its answer decides: an
      unusable one ends the call there, with no request and no mail; a usable one stores the one
      request of this intent and digest and attempts exactly its mail, and the task is SENT if and
      only if the service confirms that Message-ID. */
  lemma ReadyStatusBuilds(h: Host, g: Settings, tasks: map<TaskKey, Task>, q: CreateArgs, a: Answers)
    requires ReachesGate(h, g, tasks, q) && LastStatus(h, a).Some?
    requires LastStatus(h, a).value in {"RELEASE_PREPARING", "RELEASE_GATING"} && h.strip(a.imported.value) != ""
    ensures var plan, frozen := CreatePlan(h, g, tasks, q, a), Frozen(h, g, tasks[q.key], q);
      var stored := Stored(tasks[q.key], plan.actions);
      && Save(frozen.(status := TestPassed)) in plan.actions
      && if !IsBuildUsable(h, g, frozen, a) then
           && plan.result.Raised? && Posts(plan.actions) == [] && AddNoRequest(tasks[q.key], plan.actions)
           && stored == frozen.(status := TestPassed)
         else
           var digest, ref := h.strip(a.built.value.0), h.strip(a.built.value.1);
           && stored.request == Some(RequestOf(h, g, frozen, frozen.intent.value, digest, ref))
           && Save(frozen.(status := GateRunning, request := stored.request)) in plan.actions
           && Posts(plan.actions) == [MailOf(stored)]
           && var confirmed := a.mailed.Some? && h.strip(a.mailed.value) == stored.request.value.messageId;
           && stored.status == (if confirmed then RequestSent else GateRunning)
           && (plan.result == Returned(RequestSent) <==> confirmed)
           && (!confirmed ==> plan.result.Raised?)
  {
    hide CreatePlan, BuildPlan, IdempotencyKey, MessageId, Subject, Posts;
    var at := GateDecides(h, g, tasks, q, a);
    var frozen := Frozen(h, g, tasks[q.key], q);
    BuildDecides(h, g, at, frozen.intent.value, a);
    if IsBuildUsable(h, g, frozen, a) {
      SameRequest(h, g, at, frozen, frozen.intent.value, h.strip(a.built.value.0), h.strip(a.built.value.1));
    }
    hide RequestOf, Frozen, Stored;
  }

  lemma SameRequest(h: Host, g: Settings, t: Task, u: Task, i: Intent, digest: string, ref: string)
    requires t == u.(status := t.status) && g.domain.Some?
    ensures RequestOf(h, g, t, i, digest, ref) == RequestOf(h, g, u, i, digest, ref)
  {
  }

  lemma BuildDecides(h: Host, g: Settings, t: Task, i: Intent, a: Answers)
    requires t.request.None?
    ensures var plan, passed := BuildPlan(h, g, t, i, a), t.(status := TestPassed);
      var stored := Stored(t, plan.actions);
      && Save(passed) in plan.actions
      && if !IsBuildUsable(h, g, t, a) then
           && plan.result.Raised? && Posts(plan.actions) == [] && AddNoRequest(t, plan.actions)
           && stored == passed
         else
           var r := RequestOf(h, g, t, i, h.strip(a.built.value.0), h.strip(a.built.value.1));
           var running := t.(status := GateRunning, request := Some(r));
           && Save(running) in plan.actions && Posts(plan.actions) == [MailOf(running)]
           && var confirmed := a.mailed.Some? && h.strip(a.mailed.value) == r.messageId;
           && stored == running.(status := if confirmed then RequestSent else GateRunning, receipt := stored.receipt)
           && (plan.result == Returned(RequestSent) <==> confirmed)
           && (!confirmed ==> plan.result.Raised?)
  {
    hide IdempotencyKey, MessageId, Subject;
    var passed := t.(status := TestPassed);
    if IsBuildUsable(h, g, t, a) {
      var r := RequestOf(h, g, t, i, h.strip(a.built.value.0), h.strip(a.built.value.1));
      var running := t.(status := GateRunning, request := Some(r));
      SendAnswer(h, running, a.mailed);
      var rest := SendPlan(h, running, a.mailed).actions;
      hide SendPlan, RequestOf;
      SaveOnTop(passed, running, rest);
      SaveOnTop(t, passed, [Save(running)] + rest);
    } else {
      SaveOnTop(t, passed, []);
      assert [Save(passed)] + [] == [Save(passed)];
    }
  }

  /** One attempt for a stored request: its mail goes out at most once, exactly where the badges
      agree, and the task is SENT, with the receipt of that very message, if and only if the mail
      service confirms its Message-ID. */
  lemma SendAnswer(h: Host, t: Task, answer: Option<string>)
    requires t.request.Some?
    ensures var plan, r := SendPlan(h, t, answer), t.request.value;
      var badged := t.originBadge == t.transportBadge && t.transportBadge in {VERIFIED_BADGE, PLAIN_BADGE}
                    && r.payload.badge == t.transportBadge;
      var confirmed := badged && answer.Some? && h.strip(answer.value) == r.messageId;
      && Posts(plan.actions) == (if badged then [MailOf(t)] else [])
      && Stored(t, plan.actions)
           == (if confirmed then t.(status := RequestSent,
                                    receipt := Some(SentReceipt(r.messageId, r.idempotencyKey))) else t)
      && plan.result == (if !badged then Raised(BadgeMismatch) else if confirmed then Returned(RequestSent)
                         else if answer.None? then Raised(RetryPending) else Raised(ReceiptInvalid))
  {
    PostOnTop(t, MailOf(t), []);
    PostOnTop(t, MailOf(t), [Save(SentTask(t))]);
    SaveOnTop(t, SentTask(t), []);
    assert [Post(MailOf(t))] + [] == [Post(MailOf(t))] && [Save(SentTask(t))] + [] == [Save(SentTask(t))];
    assert [Post(MailOf(t))] + [Save(SentTask(t))] == [Post(MailOf(t)), Save(SentTask(t))];
  }

  // ---------------------------------------------------------------- calls that do not get there

  /** Calls that end before the gate is asked store nothing and mail nothing, except that a
      request that is stored and not sent is attempted again. */
  lemma EarlyAnswer(h: Host, g: Settings, tasks: map<TaskKey, Task>, q: CreateArgs, a: Answers)
    requires q.pass != Some(false) || q.key !in tasks || tasks[q.key].status == RequestSent
    requires !ReachesGate(h, g, tasks, q)
    ensures var plan := CreatePlan(h, g, tasks, q, a);
      if q.key !in tasks then plan == CallPlan([], Raised(NotFound))
      else
        var t := tasks[q.key];
        if t.status == RequestSent then plan == CallPlan([], Returned(RequestSent))
        else if q.pass == None || h.strip(q.outputDir) == "" || h.strip(q.testedDir) == "" then
          plan == CallPlan([], Raised(InvalidInput))
        else if t.manifestS.None? then plan == CallPlan([], Raised(MissingManifestS))
        else if t.intent.Some? && !IsSameIntent(h, g, q, t.intent.value) then
          plan == CallPlan([], Raised(IntentConflict))
        else if t.intent.Some? && h.strip(t.intent.value.completedAt) == "" then
          plan == CallPlan([], Raised(StateInvalid))
        else
          t.request.Some? && (t.intent.Some? && t.status == GateRunning ==> plan == SendPlan(h, t, a.mailed))
  {
    if q.key in tasks && tasks[q.key].intent.Some? {
      var t := tasks[q.key];
      SameIntentExactly(h, g, q, t.intent.value);
      if t.status == GateRunning && t.request.Some? {
        ResendIsSend(h, g, t, a);
      }
    }
    hide PassPlan, FailPlan, SendPlan, IntentOf, IsSameIntent;
    match q.pass
    case None =>
    case Some(pass) =>
  }

  lemma SameIntentExactly(h: Host, g: Settings, q: CreateArgs, i: Intent)
    ensures i == IntentOf(h, g, q, i.completedAt) <==> IsSameIntent(h, g, q, i)
  {
  }

  lemma ResendIsSend(h: Host, g: Settings, t: Task, a: Answers)
    requires t.intent.Some? && t.status == GateRunning && t.request.Some?
    ensures PassPlan(h, g, t, a) == SendPlan(h, t, a.mailed)
  {
  }

  /** A FAIL call needs a reason, is refused once a PASS intent is frozen, and otherwise ends
      TEST_FAILED; nothing is asked of the gate and nothing is mailed. */
  lemma FailAnswer(h: Host, g: Settings, tasks: map<TaskKey, Task>, q: CreateArgs, a: Answers)
    requires q.key in tasks && tasks[q.key].status != RequestSent && q.pass == Some(false)
    ensures var plan, t := CreatePlan(h, g, tasks, q, a), tasks[q.key];
      if h.strip(q.failureReason) == "" then plan == CallPlan([], Raised(InvalidInput))
      else if t.intent.Some? then plan == CallPlan([], Raised(IntentConflict))
      else plan.result == Returned(TestFailed) && Posts(plan.actions) == [] && AddNoRequest(t, plan.actions)
           && Stored(t, plan.actions) == t.(status := TestFailed)
  {
    var t := tasks[q.key];
    SaveOnTop(t, t.(status := UnderTest), [Save(t.(status := TestFailed))]);
    assert [Save(t.(status := UnderTest))] + [Save(t.(status := TestFailed))]
        == [Save(t.(status := UnderTest)), Save(t.(status := TestFailed))];
  }
}
