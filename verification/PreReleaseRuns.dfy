/** Every run of the pre-release side: calls one after the other, each possibly dying
    between two of its saves and mail attempts, with mail and gate answering as they like. */
module PreReleaseRuns {
  import opened Json
  import opened PreRelease

  /** The stored tasks, and the mail attempts made so far, oldest first. */
  datatype World = World(tasks: map<TaskKey, Task>, posted: seq<Mail>)

  datatype PreEvent =
    | Create(args: CreateArgs, answers: Answers, lived: nat)
    | Resend(key: TaskKey, answer: Option<string>, lived: nat)
    | Arrive(task: Task, lived: nat)

  function Perform(w: World, a: Action): World {
    match a
    case Save(t) => w.(tasks := w.tasks[t.key := t])
    case Post(m) => w.(posted := w.posted + [m])
  }

  function PerformAll(w: World, actions: seq<Action>): World
    decreases |actions|
  {
    if actions == [] then w else PerformAll(Perform(w, actions[0]), actions[1..])
  }

  function PlanFor(h: Host, g: Settings, w: World, e: PreEvent): CallPlan {
    match e
    case Create(q, a, _) => CreatePlan(h, g, w.tasks, q, a)
    case Resend(key, answer, _) => ResendPlan(h, w.tasks, key, answer)
    case Arrive(t, _) => if IsNewTask(t) then StorePlan(w.tasks, t) else Fail(InvalidInput)
  }

  /** The first `n` actions, or all of them. */
  function Lived(actions: seq<Action>, n: nat): seq<Action> {
    if n < |actions| then actions[..n] else actions
  }

  function Follow(h: Host, g: Settings, w: World, e: PreEvent): World {
    PerformAll(w, Lived(PlanFor(h, g, w, e).actions, e.lived))
  }

  function FollowAll(h: Host, g: Settings, w: World, events: seq<PreEvent>): World
    decreases |events|
  {
    if events == [] then w else Follow(h, g, FollowAll(h, g, w, events[..|events| - 1]), events[|events| - 1])
  }

  // ---------------------------------------------------------------- the invariant

  /** A stored request is the one its intent and digest determine, is there exactly in the
      last two states, and a receipt names its message. */
  predicate IsTask(h: Host, g: Settings, t: Task) {
    && (t.request.Some? <==> t.status in {GateRunning, RequestSent})
    && (t.request.Some? ==>
          && t.intent.Some? && g.domain.Some? && IsBadged(t)
          && t.request.value == RequestOf(h, g, t, t.intent.value, t.request.value.manifestRDigest,
                                          t.request.value.manifestRRef))
    && (t.receipt.Some? <==> t.status == RequestSent)
    && (t.receipt.Some? ==>
          t.receipt == Some(SentReceipt(t.request.value.messageId, t.request.value.idempotencyKey)))
  }

  /** What one save may change: the submission itself never, the intent and the request
      only from nothing, a sent task never. */
  predicate IsSuccessor(a: Task, b: Task) {
    && a.(status := b.status, intent := b.intent, request := b.request, receipt := b.receipt) == b
    && (a.intent.Some? ==> b.intent == a.intent)
    && (a.request.Some? ==> b.request == a.request)
    && (a.status == RequestSent ==> b == a)
  }

  predicate IsSaveLawful(h: Host, g: Settings, tasks: map<TaskKey, Task>, t: Task) {
    IsTask(h, g, t) && if t.key in tasks then IsSuccessor(tasks[t.key], t) else IsNewTask(t)
  }

  predicate IsActionLawful(h: Host, g: Settings, w: World, a: Action) {
    match a
    case Save(t) => IsSaveLawful(h, g, w.tasks, t) && (t.status == RequestSent ==> IsPosted(w, t))
    case Post(m) => m.key in w.tasks && w.tasks[m.key].request.Some? && m == MailOf(w.tasks[m.key])
  }

  predicate IsPosted(w: World, t: Task) {
    t.request.Some? && MailOf(t) in w.posted
  }

  predicate AreActionsLawful(h: Host, g: Settings, w: World, actions: seq<Action>)
    decreases |actions|
  {
    actions == [] ||
      (IsActionLawful(h, g, w, actions[0]) && AreActionsLawful(h, g, Perform(w, actions[0]), actions[1..]))
  }

  predicate IsMailFaithful(w: World, m: Mail) {
    m.key in w.tasks && w.tasks[m.key].request.Some? && m == MailOf(w.tasks[m.key])
  }

  /** Every task keeps its form, every mail ever attempted is the one its task stores,
      and a sent task has been mailed. */
  ghost predicate IsWorld(h: Host, g: Settings, w: World) {
    && (forall k {:trigger w.tasks[k]} :: k in w.tasks ==> w.tasks[k].key == k && IsTask(h, g, w.tasks[k]))
    && (forall m {:trigger m in w.posted} :: m in w.posted ==> IsMailFaithful(w, m))
    && (forall k {:trigger w.tasks[k]} :: k in w.tasks && w.tasks[k].status == RequestSent ==> IsPosted(w, w.tasks[k]))
  }

  predicate IsLater(a: World, b: World) {
    && a.posted <= b.posted
    && forall k :: k in a.tasks ==> k in b.tasks && IsSuccessor(a.tasks[k], b.tasks[k])
  }

  lemma PerformKeeps(h: Host, g: Settings, w: World, a: Action)
    requires IsWorld(h, g, w) && IsActionLawful(h, g, w, a)
    ensures IsWorld(h, g, Perform(w, a)) && IsLater(w, Perform(w, a))
  {
    hide RequestOf, IsTask;
    var next := Perform(w, a);
    match a {
      case Post(m) =>
        assert forall n :: n in next.posted ==> n in w.posted || n == m;
      case Save(t) =>
        forall m | m in next.posted
          ensures IsMailFaithful(next, m)
        {
          assert IsMailFaithful(w, m);
        }
        forall k | k in next.tasks
          ensures next.tasks[k].key == k && IsTask(h, g, next.tasks[k])
          ensures next.tasks[k].status == RequestSent ==> IsPosted(next, next.tasks[k])
        {
          if k != t.key {
            assert next.tasks[k] == w.tasks[k];
          }
        }
    }
  }

  lemma LaterTransitive(a: World, b: World, c: World)
    requires IsLater(a, b) && IsLater(b, c)
    ensures IsLater(a, c)
  {
    forall k | k in a.tasks
      ensures k in c.tasks && IsSuccessor(a.tasks[k], c.tasks[k])
    {
      assert IsSuccessor(a.tasks[k], b.tasks[k]);
      assert IsSuccessor(b.tasks[k], c.tasks[k]);
    }
  }

  lemma LaterReflexive(a: World)
    ensures IsLater(a, a)
  {
  }

  lemma {:induction false} LawfulActionsKeep(h: Host, g: Settings, w: World, actions: seq<Action>, n: nat)
    requires IsWorld(h, g, w) && AreActionsLawful(h, g, w, actions)
    ensures IsWorld(h, g, PerformAll(w, Lived(actions, n))) && IsLater(w, PerformAll(w, Lived(actions, n)))
    decreases n
  {
    hide IsWorld, IsLater, IsActionLawful;
    LaterReflexive(w);
    if actions != [] && n > 0 {
      var next := Perform(w, actions[0]);
      PerformKeeps(h, g, w, actions[0]);
      LawfulActionsKeep(h, g, next, actions[1..], n - 1);
      assert Lived(actions, n)[1..] == Lived(actions[1..], n - 1);
      LaterTransitive(w, next, PerformAll(w, Lived(actions, n)));
    }
  }

  // ---------------------------------------------------------------- every plan is lawful

  predicate Holds(w: World, t: Task) {
    t.key in w.tasks && w.tasks[t.key] == t
  }

  lemma SaveThen(h: Host, g: Settings, w: World, t: Task, rest: CallPlan)
    requires IsWorld(h, g, w) && IsActionLawful(h, g, w, Save(t))
    requires AreActionsLawful(h, g, Perform(w, Save(t)), rest.actions)
    ensures AreActionsLawful(h, g, w, Before([Save(t)], rest).actions)
  {
    assert ([Save(t)] + rest.actions)[1..] == rest.actions;
  }

  lemma SaveLast(h: Host, g: Settings, w: World, t: Task)
    requires IsActionLawful(h, g, w, Save(t))
    ensures AreActionsLawful(h, g, w, [Save(t)])
  {
  }

  /** A change of status before there is a request. */
  lemma StatusSaveLawful(h: Host, g: Settings, w: World, t: Task, status: TaskStatus)
    requires IsWorld(h, g, w) && Holds(w, t) && t.request.None?
    requires status !in {GateRunning, RequestSent}
    ensures IsActionLawful(h, g, w, Save(t.(status := status)))
    ensures Holds(Perform(w, Save(t.(status := status))), t.(status := status))
  {
    hide RequestOf;
  }

  /** The request depends on the submission, not on how far its task has come. */
  lemma RequestStable(h: Host, g: Settings, a: Task, b: Task, i: Intent, digest: string, ref: string)
    requires g.domain.Some?
    requires a.(status := b.status, intent := b.intent, request := b.request, receipt := b.receipt) == b
    ensures RequestOf(h, g, a, i, digest, ref) == RequestOf(h, g, b, i, digest, ref)
  {
  }

  lemma SendLawful(h: Host, g: Settings, w: World, t: Task, answer: Option<string>)
    requires IsWorld(h, g, w) && Holds(w, t) && t.status == GateRunning && t.request.Some?
    ensures AreActionsLawful(h, g, w, SendPlan(h, t, answer).actions)
  {
    hide RequestOf;
    var plan := SendPlan(h, t, answer).actions;
    if plan != [] {
      assert IsActionLawful(h, g, w, plan[0]);
      var next := Perform(w, plan[0]);
      if |plan| == 2 {
        RequestStable(h, g, t, SentTask(t), t.intent.value, t.request.value.manifestRDigest,
                      t.request.value.manifestRRef);
        assert MailOf(SentTask(t)) == MailOf(t) && MailOf(t) in next.posted;
        assert IsActionLawful(h, g, next, plan[1]);
        SaveLast(h, g, next, SentTask(t));
        assert plan[1..] == [Save(SentTask(t))];
      } else {
        assert plan[1..] == [];
      }
    }
  }

  lemma BuildLawful(h: Host, g: Settings, w: World, t: Task, i: Intent, a: Answers)
    requires IsWorld(h, g, w) && Holds(w, t) && t.request.None? && t.intent == Some(i)
    ensures AreActionsLawful(h, g, w, BuildPlan(h, g, t, i, a).actions)
  {
    hide RequestOf, AreActionsLawful, IsWorld, SendPlan;
    var passed := t.(status := TestPassed);
    StatusSaveLawful(h, g, w, t, TestPassed);
    PerformKeeps(h, g, w, Save(passed));
    var next := Perform(w, Save(passed));
    if a.built.Some? && h.strip(a.built.value.0) != "" && g.domain.Some? && IsBadged(t) {
      var frozen := passed.(status := GateRunning,
                            request := Some(RequestOf(h, g, t, i, h.strip(a.built.value.0), h.strip(a.built.value.1))));
      RequestStable(h, g, t, passed, i, h.strip(a.built.value.0), h.strip(a.built.value.1));
      FreezeLawful(h, g, next, passed, i, h.strip(a.built.value.0), h.strip(a.built.value.1));
      PerformKeeps(h, g, next, Save(frozen));
      SendLawful(h, g, Perform(next, Save(frozen)), frozen, a.mailed);
      SaveThen(h, g, next, frozen, SendPlan(h, frozen, a.mailed));
      SaveThen(h, g, w, passed, Before([Save(frozen)], SendPlan(h, frozen, a.mailed)));
    } else {
      EmptyLawful(h, g, next);
      SaveThen(h, g, w, passed, CallPlan([], BuildPlan(h, g, t, i, a).result));
    }
  }

  lemma EmptyLawful(h: Host, g: Settings, w: World)
    ensures AreActionsLawful(h, g, w, [])
  {
  }

  /** The save that freezes the request. */
  lemma FreezeLawful(h: Host, g: Settings, w: World, t: Task, i: Intent, digest: string, ref: string)
    requires IsWorld(h, g, w) && Holds(w, t) && t.request.None? && t.intent == Some(i)
    requires g.domain.Some? && IsBadged(t)
    ensures var frozen := t.(status := GateRunning, request := Some(RequestOf(h, g, t, i, digest, ref)));
      IsActionLawful(h, g, w, Save(frozen)) && Holds(Perform(w, Save(frozen)), frozen)
  {
  }

  lemma GateLawful(h: Host, g: Settings, w: World, t: Task, i: Intent, status: string, a: Answers)
    requires IsWorld(h, g, w) && Holds(w, t) && t.request.None? && t.intent == Some(i)
    ensures AreActionsLawful(h, g, w, GatePlan(h, g, t, i, status, a).actions)
  {
    hide AreActionsLawful, IsWorld, BuildPlan, IsActionLawful;
    if status == "TEST_APPROVAL_REQUIRED" {
      StatusSaveLawful(h, g, w, t, ApprovalNeeded);
      SaveLast(h, g, w, t.(status := ApprovalNeeded));
    } else if status != "RELEASE_PREPARING" && status != "RELEASE_GATING" {
      var next := RequestBlocked("UNSUPPORTED_AUTHORITATIVE_STATUS:" + (if status == "" then "missing" else status));
      StatusSaveLawful(h, g, w, t, next);
      SaveLast(h, g, w, t.(status := next));
    } else {
      BuildLawful(h, g, w, t, i, a);
    }
  }

  lemma ImportLawful(h: Host, g: Settings, w: World, t: Task, i: Intent, a: Answers)
    requires IsWorld(h, g, w) && Holds(w, t) && t.request.None? && t.intent == Some(i)
    ensures AreActionsLawful(h, g, w, ImportPlan(h, g, t, i, a).actions)
  {
    hide AreActionsLawful, IsWorld, GatePlan, IsActionLawful;
    if a.imported.None? {
      StatusSaveLawful(h, g, w, t, RequestBlocked("SUBMISSION_IMPORT_FAILED"));
      SaveLast(h, g, w, t.(status := RequestBlocked("SUBMISSION_IMPORT_FAILED")));
    } else if h.strip(a.imported.value) == "" {
      StatusSaveLawful(h, g, w, t, RequestBlocked("SUBMISSION_IMPORT_STATUS_MISSING"));
      SaveLast(h, g, w, t.(status := RequestBlocked("SUBMISSION_IMPORT_STATUS_MISSING")));
    } else if h.strip(a.imported.value) == "TESTING" {
      var testing := t.(status := UnderTest);
      StatusSaveLawful(h, g, w, t, UnderTest);
      PerformKeeps(h, g, w, Save(testing));
      var next := Perform(w, Save(testing));
      if a.recorded.None? {
        EmptyLawful(h, g, next);
        SaveThen(h, g, w, testing, Fail(GateCallFailed));
      } else {
        GateLawful(h, g, next, testing, i, h.strip(a.recorded.value), a);
        SaveThen(h, g, w, testing, GatePlan(h, g, testing, i, h.strip(a.recorded.value), a));
      }
    } else {
      GateLawful(h, g, w, t, i, h.strip(a.imported.value), a);
    }
  }

  lemma PassLawful(h: Host, g: Settings, w: World, t: Task, a: Answers)
    requires IsWorld(h, g, w) && Holds(w, t) && t.intent.Some? && t.status != RequestSent
    ensures AreActionsLawful(h, g, w, PassPlan(h, g, t, a).actions)
  {
    hide AreActionsLawful, RequestOf, SendPlan, ImportPlan;
    assert IsTask(h, g, t);
    if t.status == GateRunning && t.request.Some? {
      SendLawful(h, g, w, t, a.mailed);
    } else {
      ImportLawful(h, g, w, t, t.intent.value, a);
    }
  }

  lemma CreateLawful(h: Host, g: Settings, w: World, q: CreateArgs, a: Answers)
    requires IsWorld(h, g, w)
    ensures AreActionsLawful(h, g, w, CreatePlan(h, g, w.tasks, q, a).actions)
  {
    hide AreActionsLawful, RequestOf, PassPlan, IsActionLawful;
    EmptyLawful(h, g, w);
    if q.key in w.tasks && w.tasks[q.key].status != RequestSent {
      var t := w.tasks[q.key];
      assert Holds(w, t) && IsTask(h, g, t);
      if t.intent.Some? {
        PassLawful(h, g, w, t, a);
      } else {
        FailLawful(h, g, w, t, q);
        var frozen := t.(intent := Some(IntentOf(h, g, q, q.now)));
        FreezeIntentLawful(h, g, w, t, IntentOf(h, g, q, q.now));
        PerformKeeps(h, g, w, Save(frozen));
        PassLawful(h, g, Perform(w, Save(frozen)), frozen, a);
        SaveThen(h, g, w, frozen, PassPlan(h, g, frozen, a));
      }
    }
  }

  lemma FreezeIntentLawful(h: Host, g: Settings, w: World, t: Task, i: Intent)
    requires IsWorld(h, g, w) && Holds(w, t) && t.intent.None?
    ensures var frozen := t.(intent := Some(i));
      IsActionLawful(h, g, w, Save(frozen)) && Holds(Perform(w, Save(frozen)), frozen)
  {
    hide RequestOf;
    assert IsTask(h, g, t);
  }

  lemma FailLawful(h: Host, g: Settings, w: World, t: Task, q: CreateArgs)
    requires IsWorld(h, g, w) && Holds(w, t) && t.intent.None?
    ensures AreActionsLawful(h, g, w, FailPlan(h, q, t).actions)
  {
    hide AreActionsLawful, RequestOf, IsActionLawful;
    EmptyLawful(h, g, w);
    assert IsTask(h, g, t);
    var testing := t.(status := UnderTest);
    StatusSaveLawful(h, g, w, t, UnderTest);
    PerformKeeps(h, g, w, Save(testing));
    var next := Perform(w, Save(testing));
    StatusSaveLawful(h, g, next, testing, TestFailed);
    SaveLast(h, g, next, testing.(status := TestFailed));
    SaveThen(h, g, w, testing, CallPlan([Save(testing.(status := TestFailed))], Returned(TestFailed)));
    assert [Save(testing)] + [Save(testing.(status := TestFailed))]
        == [Save(testing), Save(testing.(status := TestFailed))];
  }

  lemma EventLawful(h: Host, g: Settings, w: World, e: PreEvent)
    requires IsWorld(h, g, w)
    ensures AreActionsLawful(h, g, w, PlanFor(h, g, w, e).actions)
  {
    hide AreActionsLawful, RequestOf, CreatePlan, SendPlan;
    EmptyLawful(h, g, w);
    match e {
      case Create(q, a, _) => CreateLawful(h, g, w, q, a);
      case Resend(key, answer, _) =>
        if key in w.tasks && w.tasks[key].status == GateRunning && w.tasks[key].request.Some? {
          SendLawful(h, g, w, w.tasks[key], answer);
        }
      case Arrive(t, _) =>
        if IsNewTask(t) && t.key !in w.tasks {
          SaveLast(h, g, w, t);
        }
    }
  }

  // ---------------------------------------------------------------- runs

  /** Over every run, with any answers and any deaths: the invariant holds, and nothing
      that was frozen, mailed or finished ever changes. */
  lemma {:induction false} RunKeepsWorld(h: Host, g: Settings, w: World, events: seq<PreEvent>)
    requires IsWorld(h, g, w)
    ensures IsWorld(h, g, FollowAll(h, g, w, events)) && IsLater(w, FollowAll(h, g, w, events))
    decreases |events|
  {
    hide IsWorld, IsLater, PlanFor, AreActionsLawful;
    if events == [] {
      LaterReflexive(w);
    } else {
      var n := |events| - 1;
      var before := FollowAll(h, g, w, events[..n]);
      RunKeepsWorld(h, g, w, events[..n]);
      EventLawful(h, g, before, events[n]);
      LawfulActionsKeep(h, g, before, PlanFor(h, g, before, events[n]).actions, events[n].lived);
      LaterTransitive(w, before, FollowAll(h, g, w, events));
    }
  }

  function Empty(): World {
    World(map[], [])
  }

  /** One message per request. From the empty state, over every run: any two mails ever
      attempted for a task are the same in Message-ID, subject, payload and signature,
      and a task that counts as sent has been mailed and holds the receipt of that mail. */
  lemma OneMessage(h: Host, g: Settings, events: seq<PreEvent>, i: nat, j: nat)
    requires i < |FollowAll(h, g, Empty(), events).posted| && j < |FollowAll(h, g, Empty(), events).posted|
    ensures var w := FollowAll(h, g, Empty(), events);
      && (w.posted[i].key == w.posted[j].key ==> w.posted[i] == w.posted[j])
      && w.posted[i].key in w.tasks && w.tasks[w.posted[i].key].status in {GateRunning, RequestSent}
      && forall k :: k in w.tasks && w.tasks[k].status == RequestSent ==>
           && w.tasks[k].request.Some? && MailOf(w.tasks[k]) in w.posted
           && w.tasks[k].receipt == Some(SentReceipt(MailOf(w.tasks[k]).messageId,
                                                     w.tasks[k].request.value.idempotencyKey))
  {
    hide RequestOf, PlanFor;
    RunKeepsWorld(h, g, Empty(), events);
    var w := FollowAll(h, g, Empty(), events);
    assert w.posted[i] in w.posted && w.posted[j] in w.posted;
    assert IsMailFaithful(w, w.posted[i]) && IsMailFaithful(w, w.posted[j]);
    forall k | k in w.tasks && w.tasks[k].status == RequestSent
      ensures w.tasks[k].request.Some? && MailOf(w.tasks[k]) in w.posted
      ensures w.tasks[k].receipt == Some(SentReceipt(MailOf(w.tasks[k]).messageId,
                                                     w.tasks[k].request.value.idempotencyKey))
    {
      assert IsTask(h, g, w.tasks[k]) && IsPosted(w, w.tasks[k]);
    }
  }

  /** Once set, the intent and the request stay as they are over every later run, and a
      sent task stays exactly as it is. */
  lemma FrozenForever(h: Host, g: Settings, first: seq<PreEvent>, rest: seq<PreEvent>, key: TaskKey)
    requires key in FollowAll(h, g, Empty(), first).tasks
    ensures var a, w := FollowAll(h, g, Empty(), first), FollowAll(h, g, FollowAll(h, g, Empty(), first), rest);
      && key in w.tasks
      && (a.tasks[key].intent.Some? ==> w.tasks[key].intent == a.tasks[key].intent)
      && (a.tasks[key].request.Some? ==> w.tasks[key].request == a.tasks[key].request)
      && (a.tasks[key].status == RequestSent ==> w.tasks[key] == a.tasks[key])
  {
    hide RequestOf, PlanFor;
    RunKeepsWorld(h, g, Empty(), first);
    RunKeepsWorld(h, g, FollowAll(h, g, Empty(), first), rest);
  }
}
