/** The pre-release side of a request: the stored task, and, for each call, the saves and
    mail attempts it makes in order. A call may die between any two of them. */
module PreRelease {
  import opened Json

  datatype TaskStatus =
    | TestReady | UnderTest | TestFailed | ApprovalNeeded | TestPassed
    | RequestBlocked(reason: string) | GateRunning | RequestSent

  /** The inputs of a PASS request, frozen by the first call that carries them. */
  datatype Intent = Intent(
    summary: string, reportRef: string, outputDir: string, testedDir: string, completedAt: string)

  datatype Payload = Payload(
    eventId: string, round: int, base: Json, manifestRDigest: string, manifestRRef: string,
    summary: string, reportRef: string, completedAt: string, badge: string)

  /** Everything about the outgoing request, stored by one save. */
  datatype Request = Request(
    manifestRDigest: string, manifestRRef: string, idempotencyKey: string, messageId: string,
    payload: Payload, signature: string, subject: string)

  datatype SentReceipt = SentReceipt(messageId: string, idempotencyKey: string)

  datatype TaskKey = TaskKey(eventId: string, round: int)

  /** `manifestS` is the document of the submission gate, if it is an object; `base` stands
      for the other fields of the synchronised submission. No call changes them. */
  datatype Task = Task(
    key: TaskKey, name: string, moduleName: string, base: Json, manifestS: Option<Json>,
    originBadge: string, transportBadge: string, status: TaskStatus,
    intent: Option<Intent>, request: Option<Request>, receipt: Option<SentReceipt>)

  datatype Mail = Mail(key: TaskKey, messageId: string, subject: string, payload: Payload, signature: string,
                       base: Json)

  /** `absolute`: absolute form of a path. `textHash`: SHA-256 of a text. `sign`: HMAC of
      the payload under the shared secret. `domain` is absent when the configured mail
      address has none. `sourceRef`: the source reference that the stored fields and the
      document name. */
  datatype Settings = Settings(
    absolute: string -> string, textHash: string -> string, sign: Payload -> string, domain: Option<string>,
    sourceRef: (Json, Json) -> string)

  // ---------------------------------------------------------------- what a request consists of

  function IntentJson(i: Intent): Json {
    Obj(map[Other("test_result") := Str("PASS"), Other("summary") := Str(i.summary),
            Other("report_ref") := Str(i.reportRef), OutputDir := Str(i.outputDir),
            Other("tested_material_dir") := Str(i.testedDir)])
  }

  /** The time is not part of the key. */
  function IdempotencyKey(h: Host, key: TaskKey, manifestRDigest: string, i: Intent): string {
    "sha256:" + h.digest(Obj(map[EventId := Str(key.eventId), RoundId := Num(key.round),
                                 ManifestRDigest := Str(manifestRDigest), Other("intent") := IntentJson(i)]))
  }

  function MessageId(g: Settings, idempotencyKey: string): string
    requires g.domain.Some?
  {
    "<pmg-prerelease-" + g.textHash(idempotencyKey) + "@" + g.domain.value + ">"
  }

  function PayloadOf(t: Task, i: Intent, manifestRDigest: string, manifestRRef: string): Payload {
    Payload(t.key.eventId, t.key.round, t.base, manifestRDigest, manifestRRef,
            i.summary, i.reportRef, i.completedAt, t.transportBadge)
  }

  function Subject(t: Task, i: Intent): string {
    "【发布门禁检查】" + t.name + "-" + t.moduleName + "-" + Take(i.completedAt, 10)
  }

  /** The one request this task and this frozen intent can lead to, given the digest. */
  function RequestOf(h: Host, g: Settings, t: Task, i: Intent, manifestRDigest: string, manifestRRef: string): Request
    requires g.domain.Some?
  {
    var key := IdempotencyKey(h, t.key, manifestRDigest, i);
    var payload := PayloadOf(t, i, manifestRDigest, manifestRRef);
    Request(manifestRDigest, manifestRRef, key, MessageId(g, key), payload, g.sign(payload), Subject(t, i))
  }

  function MailOf(t: Task): Mail
    requires t.request.Some?
  {
    var r := t.request.value;
    Mail(t.key, r.messageId, r.subject, r.payload, r.signature, t.base)
  }

  const VERIFIED_BADGE := "合规插件发起（已验证）"
  const PLAIN_BADGE := "普通邮件发起（未验证）"

  predicate IsBadged(t: Task) {
    t.originBadge == t.transportBadge && t.transportBadge in {VERIFIED_BADGE, PLAIN_BADGE}
  }

  // ---------------------------------------------------------------- calls

  datatype Action = Save(task: Task) | Post(mail: Mail)

  datatype PreError =
    | NotFound | InvalidInput | MissingManifestS | IntentConflict | StateInvalid
    | ImportFailed | ImportStatusMissing | AuthoritativeBlocked | GateCallFailed | MissingManifestRDigest
    | ConfigError | BadgeMismatch | RetryPending | ReceiptInvalid

  datatype Result = Returned(status: TaskStatus) | Raised(error: PreError)

  datatype CallPlan = CallPlan(actions: seq<Action>, result: Result)

  /** What a service said, or nothing when the call raised. It need not be true. */
  datatype Answers = Answers(
    imported: Option<string>, recorded: Option<string>, built: Option<(string, string)>, mailed: Option<string>)

  /** `pass`: the test result, or nothing when it is neither word. */
  datatype CreateArgs = CreateArgs(
    key: TaskKey, pass: Option<bool>, summary: string, reportRef: string,
    outputDir: string, testedDir: string, failureReason: string, now: string)

  function IntentOf(h: Host, g: Settings, q: CreateArgs, completedAt: string): Intent {
    Intent(h.strip(q.summary), h.strip(q.reportRef), g.absolute(q.outputDir), g.absolute(q.testedDir), completedAt)
  }

  function Before(first: seq<Action>, rest: CallPlan): CallPlan {
    CallPlan(first + rest.actions, rest.result)
  }

  function Fail(e: PreError): CallPlan {
    CallPlan([], Raised(e))
  }

  /** One mail attempt for a persisted request, then the record of its receipt. */
  function SendPlan(h: Host, t: Task, answer: Option<string>): CallPlan
    requires t.request.Some?
  {
    var r := t.request.value;
    if !IsBadged(t) || r.payload.badge != t.transportBadge then Fail(BadgeMismatch)
    else if answer.None? then CallPlan([Post(MailOf(t))], Raised(RetryPending))
    else if h.strip(answer.value) != r.messageId then CallPlan([Post(MailOf(t))], Raised(ReceiptInvalid))
    else CallPlan([Post(MailOf(t)), Save(SentTask(t))], Returned(RequestSent))
  }

  function SentTask(t: Task): Task
    requires t.request.Some?
  {
    t.(status := RequestSent, receipt := Some(SentReceipt(t.request.value.messageId, t.request.value.idempotencyKey)))
  }

  /** The gate told its status is ready for the final build. */
  function BuildPlan(h: Host, g: Settings, t: Task, i: Intent, a: Answers): CallPlan {
    var passed := t.(status := TestPassed);
    Before([Save(passed)],
      if a.built.None? then Fail(GateCallFailed)
      else
        var digest, ref := h.strip(a.built.value.0), h.strip(a.built.value.1);
        if digest == "" then Fail(MissingManifestRDigest)
        else if g.domain.None? then Fail(ConfigError)
        else if !IsBadged(t) then Fail(BadgeMismatch)
        else
          var frozen := passed.(status := GateRunning, request := Some(RequestOf(h, g, t, i, digest, ref)));
          Before([Save(frozen)], SendPlan(h, frozen, a.mailed)))
  }

  function GatePlan(h: Host, g: Settings, t: Task, i: Intent, status: string, a: Answers): CallPlan {
    if status == "TEST_APPROVAL_REQUIRED" then
      CallPlan([Save(t.(status := ApprovalNeeded))], Returned(ApprovalNeeded))
    else if status != "RELEASE_PREPARING" && status != "RELEASE_GATING" then
      var shown := if status == "" then "missing" else status;
      CallPlan([Save(t.(status := RequestBlocked("UNSUPPORTED_AUTHORITATIVE_STATUS:" + shown)))],
               Raised(AuthoritativeBlocked))
    else BuildPlan(h, g, t, i, a)
  }

  function ImportPlan(h: Host, g: Settings, t: Task, i: Intent, a: Answers): CallPlan {
    if a.imported.None? then
      CallPlan([Save(t.(status := RequestBlocked("SUBMISSION_IMPORT_FAILED")))], Raised(ImportFailed))
    else
      var status := h.strip(a.imported.value);
      if status == "" then
        CallPlan([Save(t.(status := RequestBlocked("SUBMISSION_IMPORT_STATUS_MISSING")))], Raised(ImportStatusMissing))
      else if status == "TESTING" then
        var testing := t.(status := UnderTest);
        Before([Save(testing)],
          if a.recorded.None? then Fail(GateCallFailed)
          else GatePlan(h, g, testing, i, h.strip(a.recorded.value), a))
      else GatePlan(h, g, t, i, status, a)
  }

  /** A PASS request whose intent is in the task. */
  function PassPlan(h: Host, g: Settings, t: Task, a: Answers): CallPlan
    requires t.intent.Some?
  {
    if t.status == GateRunning && t.request.Some? then SendPlan(h, t, a.mailed)
    else ImportPlan(h, g, t, t.intent.value, a)
  }

  function FailPlan(h: Host, q: CreateArgs, t: Task): CallPlan {
    if h.strip(q.failureReason) == "" then Fail(InvalidInput)
    else if t.intent.Some? then Fail(IntentConflict)
    else
      CallPlan([Save(t.(status := UnderTest)), Save(t.(status := TestFailed))], Returned(TestFailed))
  }

  function CreatePlan(h: Host, g: Settings, tasks: map<TaskKey, Task>, q: CreateArgs, a: Answers): CallPlan {
    if q.key !in tasks then Fail(NotFound)
    else
      var t := tasks[q.key];
      if t.status == RequestSent then CallPlan([], Returned(RequestSent))
      else if q.pass.None? then Fail(InvalidInput)
      else if !q.pass.value then FailPlan(h, q, t)
      else if h.strip(q.outputDir) == "" || h.strip(q.testedDir) == "" then Fail(InvalidInput)
      else if t.manifestS.None? then Fail(MissingManifestS)
      else if t.intent.Some? then
        if t.intent.value != IntentOf(h, g, q, t.intent.value.completedAt) then Fail(IntentConflict)
        else if h.strip(t.intent.value.completedAt) == "" then Fail(StateInvalid)
        else PassPlan(h, g, t, a)
      else
        var frozen := t.(intent := Some(IntentOf(h, g, q, q.now)));
        Before([Save(frozen)], PassPlan(h, g, frozen, a))
  }

  /** What `run_once` does with one stored task. */
  function ResendPlan(h: Host, tasks: map<TaskKey, Task>, key: TaskKey, answer: Option<string>): CallPlan {
    if key !in tasks then Fail(NotFound)
    else if tasks[key].status != GateRunning || tasks[key].request.None? then CallPlan([], Returned(tasks[key].status))
    else SendPlan(h, tasks[key], answer)
  }

  /** A newly synchronised submission, which never replaces a task that is there. */
  predicate IsNewTask(t: Task) {
    t.status == TestReady && t.intent.None? && t.request.None? && t.receipt.None?
  }

  function StorePlan(tasks: map<TaskKey, Task>, t: Task): CallPlan {
    if t.key in tasks then CallPlan([], Returned(tasks[t.key].status)) else CallPlan([Save(t)], Returned(TestReady))
  }
}
