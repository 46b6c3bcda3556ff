/** A call that died is finished by calling again: the task ends as if nothing had happened. */
module PreReleaseRecovery {
  import opened Json
  import opened PreRelease
  import opened PreReleaseRuns
  import opened PreReleaseConvergence

  predicate IsReady(status: string) {
    status == "RELEASE_PREPARING" || status == "RELEASE_GATING"
  }

  /** The gate imports the submission and, if it still is in test, takes the result. */
  predicate LetsBuild(h: Host, a: Answers) {
    && a.imported.Some?
    && var status := h.strip(a.imported.value);
    || IsReady(status)
    || (status == "TESTING" && a.recorded.Some? && IsReady(h.strip(a.recorded.value)))
  }

  predicate AnswersBuild(h: Host, a: Answers) {
    a.built.Some? && h.strip(a.built.value.0) != ""
  }

  /** The call repeats the frozen inputs, and the task is one that can be mailed. */
  predicate IsRepeat(h: Host, g: Settings, t: Task, q: CreateArgs) {
    && q.key == t.key && q.pass == Some(true) && h.strip(q.outputDir) != "" && h.strip(q.testedDir) != ""
    && t.manifestS.Some? && IsBadged(t) && g.domain.Some?
    && t.intent.Some? && t.intent.value == IntentOf(h, g, q, t.intent.value.completedAt)
    && h.strip(t.intent.value.completedAt) != ""
  }

  /** The request the task holds or, with these answers, comes to. */
  function RequestFor(h: Host, g: Settings, t: Task, a: Answers): Request
    requires g.domain.Some? && t.intent.Some? && a.built.Some?
  {
    if t.request.Some? then t.request.value
    else RequestOf(h, g, t, t.intent.value, h.strip(a.built.value.0), h.strip(a.built.value.1))
  }

  function Settled(h: Host, g: Settings, t: Task, a: Answers): Task
    requires g.domain.Some? && t.intent.Some? && a.built.Some?
  {
    var r := RequestFor(h, g, t, a);
    t.(status := RequestSent, request := Some(r), receipt := Some(SentReceipt(r.messageId, r.idempotencyKey)))
  }

  predicate IsDelivered(h: Host, answer: Option<string>, messageId: string) {
    answer.Some? && h.strip(answer.value) == messageId
  }

  lemma SendSettles(h: Host, w: World, t: Task, answer: Option<string>)
    requires t.request.Some? && IsBadged(t) && t.request.value.payload.badge == t.transportBadge
    requires IsDelivered(h, answer, t.request.value.messageId)
    ensures SendPlan(h, t, answer).result == Returned(RequestSent)
    ensures PerformAll(w, SendPlan(h, t, answer).actions)
         == World(w.tasks[t.key := SentTask(t)], w.posted + [MailOf(t)])
  {
    var actions := SendPlan(h, t, answer).actions;
    assert actions == [Post(MailOf(t)), Save(SentTask(t))];
    assert actions[1..] == [Save(SentTask(t))] && actions[1..][1..] == [];
    var mailed := Perform(w, actions[0]);
    assert PerformAll(w, actions) == PerformAll(mailed, [Save(SentTask(t))]);
    assert PerformAll(mailed, [Save(SentTask(t))]) == PerformAll(Perform(mailed, Save(SentTask(t))), []);
  }

  lemma PerformBefore(w: World, a: Action, rest: CallPlan)
    ensures PerformAll(w, Before([a], rest).actions) == PerformAll(Perform(w, a), rest.actions)
  {
    assert ([a] + rest.actions)[1..] == rest.actions;
  }

  lemma BuildSettles(h: Host, g: Settings, w: World, t: Task, i: Intent, a: Answers)
    requires g.domain.Some? && IsBadged(t) && t.intent == Some(i) && t.request.None? && AnswersBuild(h, a)
    requires IsDelivered(h, a.mailed, RequestFor(h, g, t, a).messageId)
    ensures BuildPlan(h, g, t, i, a).result == Returned(RequestSent)
    ensures PerformAll(w, BuildPlan(h, g, t, i, a).actions).tasks == w.tasks[t.key := Settled(h, g, t, a)]
  {
    hide SendPlan;
    var passed := t.(status := TestPassed);
    var frozen := passed.(status := GateRunning, request := Some(RequestFor(h, g, t, a)));
    var rest := SendPlan(h, frozen, a.mailed);
    PerformBefore(w, Save(passed), Before([Save(frozen)], rest));
    PerformBefore(Perform(w, Save(passed)), Save(frozen), rest);
    SendSettles(h, Perform(Perform(w, Save(passed)), Save(frozen)), frozen, a.mailed);
    assert SentTask(frozen) == Settled(h, g, t, a);
    assert w.tasks[t.key := passed][t.key := frozen][t.key := SentTask(frozen)] == w.tasks[t.key := SentTask(frozen)];
  }

  /** A repeat that the services answer comes to the sent task, from whatever state the
      earlier calls left, and touches no other task. */
  lemma RepeatSettles(h: Host, g: Settings, w: World, q: CreateArgs, a: Answers)
    requires IsWorld(h, g, w) && q.key in w.tasks && IsRepeat(h, g, w.tasks[q.key], q)
    requires LetsBuild(h, a) && AnswersBuild(h, a)
    requires IsDelivered(h, a.mailed, RequestFor(h, g, w.tasks[q.key], a).messageId)
    ensures CreatePlan(h, g, w.tasks, q, a).result == Returned(RequestSent)
    ensures PerformAll(w, CreatePlan(h, g, w.tasks, q, a).actions).tasks
         == w.tasks[q.key := Settled(h, g, w.tasks[q.key], a)]
  {
    hide RequestOf, BuildPlan, SendPlan, AreActionsLawful;
    var t := w.tasks[q.key];
    assert IsTask(h, g, t);
    if t.status == RequestSent {
      assert Settled(h, g, t, a) == t;
      assert w.tasks[q.key := t] == w.tasks;
    } else if t.status == GateRunning {
      StoredBadge(h, g, t);
      SendSettles(h, w, t, a.mailed);
    } else if IsReady(h.strip(a.imported.value)) {
      BuildSettles(h, g, w, t, t.intent.value, a);
    } else {
      var testing := t.(status := UnderTest);
      RequestStable(h, g, t, testing, t.intent.value, h.strip(a.built.value.0), h.strip(a.built.value.1));
      PerformBefore(w, Save(testing), BuildPlan(h, g, testing, t.intent.value, a));
      BuildSettles(h, g, Perform(w, Save(testing)), testing, t.intent.value, a);
      assert w.tasks[t.key := testing][t.key := Settled(h, g, t, a)] == w.tasks[t.key := Settled(h, g, t, a)];
    }
  }

  lemma StoredBadge(h: Host, g: Settings, t: Task)
    requires IsTask(h, g, t) && t.request.Some?
    ensures t.request.value.payload.badge == t.transportBadge
  {
  }

  /** Crash convergence. Let a repeat die after any number of saves and mail attempts, with
      any answers of gate and mail, and call again: if the build answered the same both
      times, as `RetriesConverge` shows a truthful gate does, the stored tasks end
      exactly as they would have without the first call. */
  lemma CrashConverges(h: Host, g: Settings, w: World, q: CreateArgs, a: Answers, died: nat, again: CreateArgs,
                       b: Answers)
    requires IsWorld(h, g, w) && q.key in w.tasks && again.key == q.key
    requires IsRepeat(h, g, w.tasks[q.key], q) && IsRepeat(h, g, w.tasks[q.key], again)
    requires a.built.Some? ==> a.built == b.built
    requires LetsBuild(h, b) && AnswersBuild(h, b)
    requires IsDelivered(h, b.mailed, RequestFor(h, g, w.tasks[q.key], b).messageId)
    ensures var crashed := Follow(h, g, w, Create(q, a, died));
      && CreatePlan(h, g, crashed.tasks, again, b).result == Returned(RequestSent)
      && PerformAll(crashed, CreatePlan(h, g, crashed.tasks, again, b).actions).tasks
           == PerformAll(w, CreatePlan(h, g, w.tasks, again, b).actions).tasks
      && PerformAll(w, CreatePlan(h, g, w.tasks, again, b).actions).tasks
           == w.tasks[q.key := Settled(h, g, w.tasks[q.key], b)]
  {
    hide RequestOf, CreatePlan, AreActionsLawful;
    var crashed := Follow(h, g, w, Create(q, a, died));
    CrashKeepsRequest(h, g, w, q, a, died, b);
    RepeatSettles(h, g, w, again, b);
    RepeatSettles(h, g, crashed, again, b);
    OthersStay(h, g, w, q, a, died);
    var s := Settled(h, g, w.tasks[q.key], b);
    assert crashed.tasks[q.key := s] == w.tasks[q.key := s];
  }

  lemma CrashKeepsRequest(h: Host, g: Settings, w: World, q: CreateArgs, a: Answers, died: nat, b: Answers)
    requires IsWorld(h, g, w) && q.key in w.tasks
    requires w.tasks[q.key].intent.Some? && g.domain.Some? && b.built.Some?
    requires a.built.Some? ==> a.built == b.built
    ensures var crashed := Follow(h, g, w, Create(q, a, died));
      && IsWorld(h, g, crashed) && q.key in crashed.tasks
      && IsSuccessor(w.tasks[q.key], crashed.tasks[q.key])
      && RequestFor(h, g, crashed.tasks[q.key], b) == RequestFor(h, g, w.tasks[q.key], b)
      && Settled(h, g, crashed.tasks[q.key], b) == Settled(h, g, w.tasks[q.key], b)
  {
    hide RequestOf, CreatePlan, AreActionsLawful;
    var e := Create(q, a, died);
    var crashed := Follow(h, g, w, e);
    EventLawful(h, g, w, e);
    LawfulActionsKeep(h, g, w, PlanFor(h, g, w, e).actions, died);
    var t, c := w.tasks[q.key], crashed.tasks[q.key];
    assert IsSuccessor(t, c) && IsTask(h, g, c);
    RequestStable(h, g, t, c, t.intent.value, h.strip(b.built.value.0), h.strip(b.built.value.1));
    if t.request.None? && c.request.Some? {
      StoredFrom(w, Lived(PlanFor(h, g, w, e).actions, died), q.key);
      CreateSaves(h, g, w.tasks, q, a);
      assert IsSaveFrom(h, g, t, g.absolute(q.outputDir), a, Save(c));
    }
  }

  /** A call for one task leaves the others alone. */
  lemma OthersStay(h: Host, g: Settings, w: World, q: CreateArgs, a: Answers, died: nat)
    requires q.key in w.tasks && w.tasks[q.key].key == q.key
    ensures Follow(h, g, w, Create(q, a, died)).tasks.Keys == w.tasks.Keys
    ensures forall k :: k in w.tasks && k != q.key ==> Follow(h, g, w, Create(q, a, died)).tasks[k] == w.tasks[k]
  {
    hide CreatePlan;
    CreateSaves(h, g, w.tasks, q, a);
    OnlyOneTask(h, g, w, w.tasks[q.key], g.absolute(q.outputDir), a,
                Lived(PlanFor(h, g, w, Create(q, a, died)).actions, died));
  }

  lemma {:induction false} OnlyOneTask(h: Host, g: Settings, w: World, t: Task, dir: string, a: Answers,
                                       actions: seq<Action>)
    requires t.key in w.tasks && AreSavesFrom(h, g, t, dir, a, actions)
    ensures PerformAll(w, actions).tasks.Keys == w.tasks.Keys
    ensures forall k :: k in w.tasks && k != t.key ==> PerformAll(w, actions).tasks[k] == w.tasks[k]
    decreases |actions|
  {
    if actions != [] {
      assert IsSaveFrom(h, g, t, dir, a, actions[0]);
      OnlyOneTask(h, g, Perform(w, actions[0]), t, dir, a, actions[1..]);
    }
  }
}
