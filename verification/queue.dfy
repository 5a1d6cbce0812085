/** The pending-job registry (`Queue` in src/processor-queue/queue.js) as
    an event machine.

    Every call to `push` gets a ticket: the promise that call returns.
    The registry `jobs` maps a job id to the ticket registered under it
    (the resolve/reject pair of that promise). Waiting, timers and the
    transport become events: a ticket is admitted once the depth guard
    holds, its publish later succeeds or fails, its timer fires at some
    point, and worker notifications arrive at any time. A promise settles
    at most once and ignores later calls, which is modelled by `Settle`. */
module JobQueue {
  import opened JsValue

  const JobCompleted: string := "JOB_COMPLETED"
  const JobFailed: string := "JOB_FAILED"

  /** `maxJobQueued`: the registry size up to which a push is admitted. */
  const MaxJobQueued: nat := 600

  /** `DEFAULT_MAX_JOB_TIME` in milliseconds: `PARALLEL_RUNNER_TIMEOUT`
      parsed as a decimal integer when set and non-empty (`None` is NaN),
      otherwise five minutes. */
  function DefaultMaxJobTime(env: Option<string>): Option<int> {
    if env.Some? && env.value != "" then ParseInt(env.value) else Some(5 * 60 * 1000)
  }

  /** `maxJobTime || DEFAULT_MAX_JOB_TIME`. */
  function MaxJobTime(configured: Option<int>, env: Option<string>): Option<int> {
    if configured.Some? && configured.value != 0 then configured else DefaultMaxJobTime(env)
  }

  /** The job timeout: five minutes by default, the configured value when
      one is given, the variable's digits when only the variable is set,
      and NaN when the variable holds no number. */
  lemma MaxJobTimeDefaults(configured: int, n: nat, env: Option<string>, v: string)
    ensures MaxJobTime(None, None) == Some(300000)
    ensures MaxJobTime(Some(0), Some("")) == Some(300000)
    ensures configured != 0 ==> MaxJobTime(Some(configured), env) == Some(configured)
    ensures MaxJobTime(None, Some(NatToString(n))) == Some(n)
    ensures v != "" && (forall i :: 0 <= i < |v| ==> !IsDigit(v[i])) ==> MaxJobTime(None, Some(v)) == None
    ensures MaxJobTime(None, Some("abc")) == None
  {
    ParseIntOfNatToString(n);
    ParseIntWithoutDigits(v);
    ParseIntWithoutDigits("abc");
  }

  /** Where a ticket's `push` call is: waiting for the depth guard,
      registered with its publish under way, or registered with its
      publish settled (accepted or rejected by the transport). */
  datatype Stage = Queued | Publishing | PublishSettled

  /** The state of the promise a `push` call returned. */
  datatype Status = Pending | Resolved(value: Value) | Rejected(reason: Value)

  datatype Ticket = Ticket(id: Value, stage: Stage, timerFired: bool, status: Status)

  datatype QueueState = QueueState(
    jobs: map<Value, nat>,
    tickets: seq<Ticket>,
    jobCount: nat,
    completeJobCount: nat)

  datatype Event =
    | Push(id: Value)                   // `push(id, msg)` is called
    | Admit(ticket: nat)                // the depth guard lets that call through
    | PublishOk(ticket: nat)            // the transport accepted the message
    | PublishFail(ticket: nat, err: Value)  // the transport rejected it
    | Timeout(ticket: nat)              // the ticket's timer fires
    | Message(msg: Value)               // `_onMessage(pubSubMessage)`

  const Init: QueueState := QueueState(map[], [], 0, 0)

  /** The reason a timed-out ticket is rejected with. */
  function TimeoutReason(id: Value): Value {
    Str("Job timed out " + ToString(id))
  }

  /** A worker notification `{ type, payload }`. */
  function Notification(kind: string, payload: Value): Value {
    Record2("type", Str(kind), "payload", payload)
  }

  /** Calls `resolve` or `reject` on ticket `t`: only a pending promise
      changes; a settled one ignores the call. */
  function Settle(tickets: seq<Ticket>, t: nat, status: Status): (r: seq<Ticket>)
    requires !status.Pending?
    ensures |r| == |tickets|
    ensures forall u :: 0 <= u < |r| ==>
              r[u].id == tickets[u].id && r[u].stage == tickets[u].stage && r[u].timerFired == tickets[u].timerFired
    ensures forall u :: 0 <= u < |r| && u != t ==> r[u] == tickets[u]
    ensures t < |r| ==> !r[t].status.Pending?
    ensures t < |r| ==> r[t].status == if tickets[t].status.Pending? then status else tickets[t].status
  {
    if t < |tickets| && tickets[t].status.Pending? then tickets[t := tickets[t].(status := status)]
    else tickets
  }

  /** `_onMessage`: a completion resolves the registered ticket with the
      whole payload, counts it and drops the entry; a failure rejects it
      with `payload.error` and drops the entry; an id that is not
      registered and any other type change nothing. Destructuring
      `undefined`/`null`, or reading `payload.id` of a notification
      without a payload, throws before anything changes. */
  function OnMessage(s: QueueState, msg: Value): (r: Completion<QueueState>)
    ensures r.Throw? <==> Nullish(msg) ||
                          (Field(msg, "type") in {Str(JobCompleted), Str(JobFailed)} && Nullish(Field(msg, "payload")))
    ensures r.Normal? ==> r.value.jobCount == s.jobCount && |r.value.tickets| == |s.tickets|
    ensures r.Normal? && r.value != s ==>
              && !Nullish(msg) && !Nullish(Field(msg, "payload"))
              && Field(Field(msg, "payload"), "id") in s.jobs
              && r.value.jobs == s.jobs - {Field(Field(msg, "payload"), "id")}
  {
    if Nullish(msg) then Throw(TypeError("Cannot destructure property 'type' of 'pubSubMessage' as it is " + ToString(msg) + "."))
    else
      var kind := Field(msg, "type");
      var payload := Field(msg, "payload");
      if kind != Str(JobCompleted) && kind != Str(JobFailed) then Normal(s)
      else if Nullish(payload) then Throw(Get(payload, "id").error)
      else
        var id := Field(payload, "id");
        if id !in s.jobs then Normal(s)
        else if kind == Str(JobCompleted) then
          Normal(Answer(s, id, Resolved(payload)).(completeJobCount := s.completeJobCount + 1))
        else
          Normal(Answer(s, id, Rejected(Field(payload, "error"))))
  }

  /** Settles the ticket registered under `id` and removes the id. */
  function Answer(s: QueueState, id: Value, status: Status): QueueState
    requires id in s.jobs && !status.Pending?
  {
    s.(tickets := Settle(s.tickets, s.jobs[id], status), jobs := s.jobs - {id})
  }

  /** Whether an event can happen in state `s`. */
  predicate Enabled(s: QueueState, e: Event) {
    match e
    case Push(_) => true
    case Admit(t) => t < |s.tickets| && s.tickets[t].stage == Queued && |s.jobs| <= MaxJobQueued
    case PublishOk(t) => t < |s.tickets| && s.tickets[t].stage == Publishing
    case PublishFail(t, _) => t < |s.tickets| && s.tickets[t].stage == Publishing
    case Timeout(t) => t < |s.tickets| && s.tickets[t].stage != Queued && !s.tickets[t].timerFired
    case Message(_) => true
  }

  /** One event of the queue. A disabled event leaves the state alone, and
      so does a notification whose handling throws. */
  function Step(s: QueueState, e: Event): (r: QueueState)
    ensures r.jobCount == s.jobCount + (if e.Push? then 1 else 0)
    ensures |r.tickets| == |s.tickets| + (if e.Push? then 1 else 0)
    ensures e.Push? || e.PublishOk? || e.PublishFail? || e.Timeout? ==> r.jobs == s.jobs
    ensures e.Message? ==> r.jobs.Keys <= s.jobs.Keys
  {
    if !Enabled(s, e) then s
    else
      match e
      case Push(id) =>
        s.(tickets := s.tickets + [Ticket(id, Queued, false, Pending)], jobCount := s.jobCount + 1)
      case Admit(t) =>
        s.(jobs := s.jobs[s.tickets[t].id := t], tickets := s.tickets[t := s.tickets[t].(stage := Publishing)])
      case PublishOk(t) =>
        s.(tickets := s.tickets[t := s.tickets[t].(stage := PublishSettled)])
      case PublishFail(t, err) =>
        s.(tickets := Settle(s.tickets[t := s.tickets[t].(stage := PublishSettled)], t, Rejected(err)))
      case Timeout(t) =>
        var id := s.tickets[t].id;
        var fired := s.tickets[t := s.tickets[t].(timerFired := true)];
        s.(tickets := if id in s.jobs then Settle(fired, t, Rejected(TimeoutReason(id))) else fired)
      case Message(msg) =>
        match OnMessage(s, msg)
        case Normal(next) => next
        case Throw(_) => s
  }

  function Run(s: QueueState, trace: seq<Event>): QueueState
    decreases |trace|
  {
    if |trace| == 0 then s else Run(Step(s, trace[0]), trace[1..])
  }

  function CountPushes(trace: seq<Event>): nat {
    if |trace| == 0 then 0 else (if trace[0].Push? then 1 else 0) + CountPushes(trace[1..])
  }

  // ---------------------------------------------------------------------
  // Invariants

  /** The shape every reachable state has: one ticket per `push` call,
      registry entries that point back at a registered ticket of the same
      id, timers that fire only for registered tickets, and at most
      `MaxJobQueued + 1` entries, because the depth guard admits a push
      while the registry holds `MaxJobQueued` of them. */
  predicate WellFormed(s: QueueState) {
    && s.jobCount == |s.tickets|
    && |s.jobs| <= MaxJobQueued + 1
    && (forall id :: id in s.jobs ==>
          && s.jobs[id] < |s.tickets|
          && s.tickets[s.jobs[id]].id == id
          && s.tickets[s.jobs[id]].stage != Queued)
    && (forall t :: 0 <= t < |s.tickets| && s.tickets[t].timerFired ==> s.tickets[t].stage != Queued)
    && (forall t :: 0 <= t < |s.tickets| && s.tickets[t].stage == Queued ==> s.tickets[t].status.Pending?)
  }

  lemma InitWellFormed()
    ensures WellFormed(Init)
  {
  }

  lemma MapUpdateSize<K, V>(m: map<K, V>, k: K, v: V)
    ensures |m[k := v]| <= |m| + 1
  {
    if k in m {
      assert m[k := v].Keys == m.Keys;
    } else {
      assert m[k := v].Keys == m.Keys + {k};
    }
  }

  lemma StepPreservesWellFormed(s: QueueState, e: Event)
    requires WellFormed(s)
    ensures WellFormed(Step(s, e))
  {
    if Enabled(s, e) {
      match e
      case Push(id) => PushPreservesWellFormed(s, id);
      case Admit(t) => AdmitPreservesWellFormed(s, t);
      case PublishOk(t) =>
      case PublishFail(t, err) => PublishFailPreservesWellFormed(s, t, err);
      case Timeout(t) => TimeoutPreservesWellFormed(s, t);
      case Message(msg) => MessagePreservesWellFormed(s, msg);
    }
  }

  lemma PushPreservesWellFormed(s: QueueState, id: Value)
    requires WellFormed(s)
    ensures WellFormed(Step(s, Push(id)))
  {
    var next := Step(s, Push(id));
    assert forall u :: 0 <= u < |s.tickets| ==> next.tickets[u] == s.tickets[u];
  }

  lemma AdmitPreservesWellFormed(s: QueueState, t: nat)
    requires WellFormed(s) && Enabled(s, Admit(t))
    ensures WellFormed(Step(s, Admit(t)))
  {
    MapUpdateSize(s.jobs, s.tickets[t].id, t);
  }

  lemma PublishFailPreservesWellFormed(s: QueueState, t: nat, err: Value)
    requires WellFormed(s) && Enabled(s, PublishFail(t, err))
    ensures WellFormed(Step(s, PublishFail(t, err)))
  {
  }

  lemma TimeoutPreservesWellFormed(s: QueueState, t: nat)
    requires WellFormed(s) && Enabled(s, Timeout(t))
    ensures WellFormed(Step(s, Timeout(t)))
  {
  }

  lemma AnswerPreservesWellFormed(s: QueueState, id: Value, status: Status, count: nat)
    requires WellFormed(s) && id in s.jobs && !status.Pending?
    ensures WellFormed(Answer(s, id, status).(completeJobCount := count))
  {
    var n := Answer(s, id, status);
    assert n.jobs.Keys == s.jobs.Keys - {id};
    assert |n.jobs| <= |s.jobs|;
  }

  lemma MessagePreservesWellFormed(s: QueueState, msg: Value)
    requires WellFormed(s)
    ensures WellFormed(Step(s, Message(msg)))
  {
    if !Nullish(msg) {
      var kind := Field(msg, "type");
      var payload := Field(msg, "payload");
      if (kind == Str(JobCompleted) || kind == Str(JobFailed)) && !Nullish(payload) {
        var id := Field(payload, "id");
        if id in s.jobs {
          if kind == Str(JobCompleted) {
            AnswerPreservesWellFormed(s, id, Resolved(payload), s.completeJobCount + 1);
          } else {
            AnswerPreservesWellFormed(s, id, Rejected(Field(payload, "error")), s.completeJobCount);
          }
        }
      }
    }
  }

  /** Every state reached from a well-formed one by any sequence of
      events is well formed; in particular the registry never holds more
      than 601 entries. */
  lemma {:induction false} RunPreservesWellFormed(s: QueueState, trace: seq<Event>)
    requires WellFormed(s)
    ensures WellFormed(Run(s, trace))
    ensures |Run(s, trace).jobs| <= MaxJobQueued + 1
    decreases |trace|
  {
    if |trace| > 0 {
      StepPreservesWellFormed(s, trace[0]);
      RunPreservesWellFormed(Step(s, trace[0]), trace[1..]);
    }
  }

  // ---------------------------------------------------------------------
  // Counters

  /** `jobCount` goes up by exactly one for every `push` call, as soon as
      the call is made and whatever happens to it afterwards. */
  lemma {:induction false} RunCountsPushes(s: QueueState, trace: seq<Event>)
    ensures Run(s, trace).jobCount == s.jobCount + CountPushes(trace)
    ensures |Run(s, trace).tickets| == |s.tickets| + CountPushes(trace)
    decreases |trace|
  {
    if |trace| > 0 {
      RunCountsPushes(Step(s, trace[0]), trace[1..]);
    }
  }

  // ---------------------------------------------------------------------
  // The depth guard

  /** The depth guard is inclusive: a queued push is let through exactly
      when the registry holds at most `MaxJobQueued` entries. */
  lemma AdmitGuard(s: QueueState, t: nat)
    requires t < |s.tickets| && s.tickets[t].stage == Queued
    ensures Enabled(s, Admit(t)) <==> |s.jobs| <= 600
    ensures |s.jobs| <= 600 ==> Step(s, Admit(t)).jobs == s.jobs[s.tickets[t].id := t]
    ensures |s.jobs| > 600 ==> Step(s, Admit(t)) == s
  {
  }

  /** So with 600 entries registered, one more push with a new id gets in
      and the registry reaches 601 entries; no push gets in after that
      until an entry leaves. */
  lemma RegistryReaches601(s: QueueState, t: nat)
    requires WellFormed(s)
    requires |s.jobs| == 600
    requires t < |s.tickets| && s.tickets[t].stage == Queued && s.tickets[t].id !in s.jobs
    ensures |Step(s, Admit(t)).jobs| == 601
    ensures forall u :: 0 <= u < |s.tickets| ==> !Enabled(Step(s, Admit(t)), Admit(u))
  {
    var m := s.jobs[s.tickets[t].id := t];
    assert m.Keys == s.jobs.Keys + {s.tickets[t].id};
  }

  // ---------------------------------------------------------------------
  // Notifications

  /** A completion for a registered id resolves the ticket registered
      under it with the whole payload (if that promise is still pending),
      adds one to `completeJobCount` and removes the id; `jobCount` and
      every other ticket are left alone. */
  lemma CompletionForRegisteredId(s: QueueState, payload: Value)
    requires payload.Obj? && "id" in payload.fields && payload.fields["id"] in s.jobs
    ensures var id := payload.fields["id"];
            var t := s.jobs[id];
            var next := Step(s, Message(Notification(JobCompleted, payload)));
            && next.jobs == s.jobs - {id}
            && next.completeJobCount == s.completeJobCount + 1
            && next.jobCount == s.jobCount
            && |next.tickets| == |s.tickets|
            && (t < |s.tickets| && s.tickets[t].status.Pending? ==> next.tickets[t].status == Resolved(payload))
            && (forall u :: 0 <= u < |s.tickets| && u != t ==> next.tickets[u] == s.tickets[u])
  {
  }

  /** A failure for a registered id rejects the ticket registered under it
      with `payload.error` and removes the id, without counting it as
      completed. */
  lemma FailureForRegisteredId(s: QueueState, payload: Value)
    requires payload.Obj? && "id" in payload.fields && payload.fields["id"] in s.jobs
    ensures var id := payload.fields["id"];
            var t := s.jobs[id];
            var next := Step(s, Message(Notification(JobFailed, payload)));
            && next.jobs == s.jobs - {id}
            && next.completeJobCount == s.completeJobCount
            && next.jobCount == s.jobCount
            && |next.tickets| == |s.tickets|
            && (t < |s.tickets| && s.tickets[t].status.Pending? ==>
                  next.tickets[t].status == Rejected(Field(payload, "error")))
            && (forall u :: 0 <= u < |s.tickets| && u != t ==> next.tickets[u] == s.tickets[u])
  {
  }

  /** A completion or failure for an id that is not registered (never
      pushed, already answered) changes nothing and does not throw. */
  lemma NotificationForUnknownIdIsNoOp(s: QueueState, kind: string, payload: Value)
    requires kind == JobCompleted || kind == JobFailed
    requires !Nullish(payload) && Field(payload, "id") !in s.jobs
    ensures OnMessage(s, Notification(kind, payload)) == Normal(s)
  {
  }

  /** A notification of any other type changes nothing and does not
      throw. */
  lemma UnrecognisedTypeIsNoOp(s: QueueState, msg: Value)
    requires !Nullish(msg)
    requires Field(msg, "type") != Str(JobCompleted) && Field(msg, "type") != Str(JobFailed)
    ensures OnMessage(s, msg) == Normal(s)
  {
  }

  /** What does throw: a notification that is `undefined` or `null`, and
      a completion or failure without a payload. The registry is left as
      it was. */
  lemma MalformedNotificationThrows(s: QueueState, msg: Value)
    requires Nullish(msg) || (Field(msg, "type") in {Str(JobCompleted), Str(JobFailed)} && Nullish(Field(msg, "payload")))
    ensures OnMessage(s, msg).Throw?
    ensures Step(s, Message(msg)) == s
  {
  }

  // ---------------------------------------------------------------------
  // Timeouts and publish failures

  /** A timer that fires while its id is registered rejects its own ticket
      with "Job timed out <id>"; one that fires after the id left does
      nothing to the ticket. Either way the registry keeps its entries:
      the timeout does not remove the id. */
  lemma TimeoutKeepsEntry(s: QueueState, t: nat)
    requires Enabled(s, Timeout(t))
    ensures var next := Step(s, Timeout(t));
            && next.jobs == s.jobs
            && next.completeJobCount == s.completeJobCount
            && next.tickets[t].timerFired
            && (s.tickets[t].id in s.jobs && s.tickets[t].status.Pending? ==>
                  next.tickets[t].status == Rejected(TimeoutReason(s.tickets[t].id)))
            && (s.tickets[t].id !in s.jobs ==> next.tickets[t].status == s.tickets[t].status)
  {
  }

  /** Because of that, a completion arriving after the timeout still
      finds the id: it removes the entry and counts a completion, while
      the caller keeps the timeout rejection it already received. */
  lemma CompletionAfterTimeout(s: QueueState, t: nat, payload: Value)
    requires WellFormed(s)
    requires t < |s.tickets| && s.tickets[t].status.Pending? && !s.tickets[t].timerFired
    requires s.tickets[t].id in s.jobs && s.jobs[s.tickets[t].id] == t
    requires payload.Obj? && "id" in payload.fields && payload.fields["id"] == s.tickets[t].id
    ensures var timedOut := Step(s, Timeout(t));
            var next := Step(timedOut, Message(Notification(JobCompleted, payload)));
            && timedOut.jobs == s.jobs
            && next.jobs == s.jobs - {s.tickets[t].id}
            && next.completeJobCount == s.completeJobCount + 1
            && next.tickets[t].status == Rejected(TimeoutReason(s.tickets[t].id))
  {
    var timedOut := Step(s, Timeout(t));
    TimeoutKeepsEntry(s, t);
    CompletionForRegisteredId(timedOut, payload);
  }

  /** A failed publish rejects the ticket with the transport's error but
      leaves its id registered. */
  lemma PublishFailureKeepsEntry(s: QueueState, t: nat, err: Value)
    requires Enabled(s, PublishFail(t, err))
    ensures var next := Step(s, PublishFail(t, err));
            && next.jobs == s.jobs
            && (s.tickets[t].status.Pending? ==> next.tickets[t].status == Rejected(err))
            && next.tickets[t].stage == PublishSettled
  {
  }

  // ---------------------------------------------------------------------
  // Settlement

  /** A settled ticket keeps its outcome through any later event. */
  lemma StepKeepsSettled(s: QueueState, e: Event, t: nat)
    requires t < |s.tickets| && !s.tickets[t].status.Pending?
    ensures t < |Step(s, e).tickets| && Step(s, e).tickets[t].status == s.tickets[t].status
  {
  }

  /** Each push settles at most once: once its promise is resolved or
      rejected, no sequence of later events changes the outcome. */
  lemma {:induction false} SettledIsFinal(s: QueueState, trace: seq<Event>, t: nat)
    requires t < |s.tickets| && !s.tickets[t].status.Pending?
    ensures t < |Run(s, trace).tickets|
    ensures Run(s, trace).tickets[t].status == s.tickets[t].status
    decreases |trace|
  {
    if |trace| > 0 {
      StepKeepsSettled(s, trace[0], t);
      SettledIsFinal(Step(s, trace[0]), trace[1..], t);
    }
  }

  /** The first event to settle a ticket decides its outcome, and only
      four kinds of event do: its own publish failure (with the
      transport's error), its own timer while its id is registered (with
      the timeout reason), or a completion or failure for its id while
      the registry maps that id to this very ticket, which also removes
      the id. A notification settles the ticket registered under the id,
      not every ticket pushed with that id. */
  lemma WhatSettlesATicket(s: QueueState, e: Event, t: nat)
    requires WellFormed(s)
    requires t < |s.tickets| && s.tickets[t].status.Pending?
    requires !Step(s, e).tickets[t].status.Pending?
    ensures
      || (e.PublishFail? && e.ticket == t && Step(s, e).tickets[t].status == Rejected(e.err))
      || (e.Timeout? && e.ticket == t && s.tickets[t].id in s.jobs
          && Step(s, e).tickets[t].status == Rejected(TimeoutReason(s.tickets[t].id)))
      || (e.Message? && s.tickets[t].id in s.jobs && s.jobs[s.tickets[t].id] == t
          && s.tickets[t].id !in Step(s, e).jobs)
  {
    if e.Message? && Enabled(s, e) {
      match OnMessage(s, e.msg)
      case Throw(_) =>
      case Normal(next) =>
        assert !Nullish(e.msg);
        var payload := Field(e.msg, "payload");
        assert !Nullish(payload);
        var id := Field(payload, "id");
        assert id in s.jobs && s.jobs[id] == t;
    }
  }

  // ---------------------------------------------------------------------
  // Exactly-once settlement when callers keep ids unique

  /** A push whose id is not the id of any unsettled push: the callers'
      side of the contract that ids are unique among outstanding jobs. */
  predicate Fresh(s: QueueState, e: Event) {
    e.Push? ==> forall t :: 0 <= t < |s.tickets| && s.tickets[t].status.Pending? ==> s.tickets[t].id != e.id
  }

  predicate FreshTrace(s: QueueState, trace: seq<Event>)
    decreases |trace|
  {
    |trace| == 0 || (Fresh(s, trace[0]) && FreshTrace(Step(s, trace[0]), trace[1..]))
  }

  /** No two unsettled tickets share an id. */
  predicate PendingUnique(s: QueueState) {
    forall t, u :: 0 <= t < |s.tickets| && 0 <= u < |s.tickets| && t != u
                   && s.tickets[t].status.Pending? && s.tickets[u].status.Pending?
                   ==> s.tickets[t].id != s.tickets[u].id
  }

  /** Every registered, unsettled ticket is the one its id maps to. */
  predicate Tracked(s: QueueState) {
    forall t :: 0 <= t < |s.tickets| && s.tickets[t].stage != Queued && s.tickets[t].status.Pending?
                ==> s.tickets[t].id in s.jobs && s.jobs[s.tickets[t].id] == t
  }

  /** A ticket whose timer has fired is settled. */
  predicate TimerSettles(s: QueueState) {
    forall t :: 0 <= t < |s.tickets| && s.tickets[t].timerFired ==> !s.tickets[t].status.Pending?
  }

  predicate Good(s: QueueState) {
    WellFormed(s) && PendingUnique(s) && Tracked(s) && TimerSettles(s)
  }

  lemma InitGood()
    ensures Good(Init)
  {
  }

  lemma StepPreservesGood(s: QueueState, e: Event)
    requires Good(s) && Fresh(s, e)
    ensures Good(Step(s, e))
  {
    StepPreservesWellFormed(s, e);
    if Enabled(s, e) {
      match e
      case Push(id) => PushPreservesGood(s, id);
      case Admit(t) => AdmitPreservesGood(s, t);
      case PublishOk(t) =>
      case PublishFail(t, err) =>
      case Timeout(t) => TimeoutPreservesGood(s, t);
      case Message(msg) => MessagePreservesGood(s, msg);
    }
  }

  lemma PushPreservesGood(s: QueueState, id: Value)
    requires Good(s) && Fresh(s, Push(id))
    ensures Good(Step(s, Push(id)))
  {
    PushPreservesWellFormed(s, id);
    var next := Step(s, Push(id));
    assert forall u :: 0 <= u < |s.tickets| ==> next.tickets[u] == s.tickets[u];
  }

  lemma AdmitPreservesGood(s: QueueState, t: nat)
    requires Good(s) && Enabled(s, Admit(t))
    ensures Good(Step(s, Admit(t)))
  {
    AdmitPreservesWellFormed(s, t);
    var next := Step(s, Admit(t));
    forall u | 0 <= u < |next.tickets| && next.tickets[u].stage != Queued && next.tickets[u].status.Pending?
      ensures next.tickets[u].id in next.jobs && next.jobs[next.tickets[u].id] == u
    {
      if u != t {
        assert next.tickets[u] == s.tickets[u];
        assert s.tickets[t].status.Pending?;
        assert s.tickets[u].id != s.tickets[t].id;
      }
    }
  }

  lemma TimeoutPreservesGood(s: QueueState, t: nat)
    requires Good(s) && Enabled(s, Timeout(t))
    ensures Good(Step(s, Timeout(t)))
  {
    TimeoutPreservesWellFormed(s, t);
    assert s.tickets[t].status.Pending? ==> s.tickets[t].id in s.jobs;
  }

  lemma AnswerPreservesGood(s: QueueState, id: Value, status: Status, count: nat)
    requires Good(s) && id in s.jobs && !status.Pending?
    ensures Good(Answer(s, id, status).(completeJobCount := count))
  {
    AnswerPreservesWellFormed(s, id, status, count);
    var next := Answer(s, id, status).(completeJobCount := count);
    var t0 := s.jobs[id];
    forall t | 0 <= t < |next.tickets| && next.tickets[t].stage != Queued && next.tickets[t].status.Pending?
      ensures next.tickets[t].id in next.jobs && next.jobs[next.tickets[t].id] == t
    {
      assert t != t0;
      assert next.tickets[t] == s.tickets[t];
    }
  }

  lemma MessagePreservesGood(s: QueueState, msg: Value)
    requires Good(s)
    ensures Good(Step(s, Message(msg)))
  {
    if !Nullish(msg) {
      var kind := Field(msg, "type");
      var payload := Field(msg, "payload");
      if (kind == Str(JobCompleted) || kind == Str(JobFailed)) && !Nullish(payload) {
        var id := Field(payload, "id");
        if id in s.jobs {
          if kind == Str(JobCompleted) {
            AnswerPreservesGood(s, id, Resolved(payload), s.completeJobCount + 1);
          } else {
            AnswerPreservesGood(s, id, Rejected(Field(payload, "error")), s.completeJobCount);
          }
        }
      }
    }
  }

  /** Along any sequence of events in which callers keep ids unique among
      outstanding pushes, the invariants hold; so every push whose timer
      has fired has settled, and by `SettledIsFinal` it settled once:
      each push ends resolved, rejected by a failure or a failed publish,
      or rejected by the timeout, and only one of them. */
  lemma {:induction false} RunPreservesGood(s: QueueState, trace: seq<Event>)
    requires Good(s) && FreshTrace(s, trace)
    ensures Good(Run(s, trace))
    ensures forall t :: 0 <= t < |Run(s, trace).tickets| && Run(s, trace).tickets[t].timerFired
                        ==> !Run(s, trace).tickets[t].status.Pending?
    decreases |trace|
  {
    if |trace| > 0 {
      StepPreservesGood(s, trace[0]);
      RunPreservesGood(Step(s, trace[0]), trace[1..]);
    }
  }

  /** Without unique ids that fails: a second push of the same id takes
      over the registry entry, the completion resolves the second push
      only, and the first push's timer then finds no entry. Its publish
      has already settled, so nothing is left that could answer it. */
  lemma DuplicateIdStrandsFirstPush(id: Value, payload: Value)
    requires payload == Obj(map["id" := id])
    ensures var s := Run(Init, DuplicateIdTrace(id, payload));
            && |s.tickets| == 2
            && Stranded(s, 0)
            && s.tickets[1].status == Resolved(payload)
  {
    var tr := DuplicateIdTrace(id, payload);
    var d := Ticket(id, PublishSettled, false, Pending);
    var s1 := QueueState(map[], [Ticket(id, Queued, false, Pending)], 1, 0);
    var s2 := QueueState(map[id := 0], [Ticket(id, Publishing, false, Pending)], 1, 0);
    var s3 := QueueState(map[id := 0], [d], 1, 0);
    var s4 := QueueState(map[id := 0], [d, Ticket(id, Queued, false, Pending)], 2, 0);
    var s5 := QueueState(map[id := 1], [d, Ticket(id, Publishing, false, Pending)], 2, 0);
    var s6 := QueueState(map[id := 1], [d, d], 2, 0);
    var s7 := QueueState(map[], [d, Ticket(id, PublishSettled, false, Resolved(payload))], 2, 1);
    var s8 := QueueState(map[], [Ticket(id, PublishSettled, true, Pending), Ticket(id, PublishSettled, false, Resolved(payload))], 2, 1);
    PushThenAdmit(id);
    SecondPushTakesOverEntry(id);
    CompletionGoesToSecondPush(id, payload);
    assert Run(Init, tr) == Run(s1, tr[1..]);
    assert Run(s1, tr[1..]) == Run(s2, tr[2..]);
    assert Run(s2, tr[2..]) == Run(s3, tr[3..]);
    assert Run(s3, tr[3..]) == Run(s4, tr[4..]);
    assert Run(s4, tr[4..]) == Run(s5, tr[5..]);
    assert Run(s5, tr[5..]) == Run(s6, tr[6..]);
    assert Run(s6, tr[6..]) == Run(s7, tr[7..]);
    assert Run(s7, tr[7..]) == Run(s8, tr[8..]) == s8;
  }

  /** Two pushes of `id`, each registered and published, the completion
      for `id`, and the first push's timer. */
  function DuplicateIdTrace(id: Value, payload: Value): seq<Event> {
    [Push(id), Admit(0), PublishOk(0), Push(id), Admit(1), PublishOk(1),
     Message(Notification(JobCompleted, payload)), Timeout(0)]
  }

  /** Ticket `t` is pending, but every way of settling it is used up: its
      publish has settled, its timer has fired, and no registry entry
      points at it. */
  predicate Stranded(s: QueueState, t: nat) {
    && t < |s.tickets|
    && s.tickets[t].stage == PublishSettled
    && s.tickets[t].timerFired
    && s.tickets[t].status.Pending?
    && forall id :: id in s.jobs ==> s.jobs[id] != t
  }

  /** A stranded ticket stays stranded whatever happens next. */
  lemma StepKeepsStranded(s: QueueState, e: Event, t: nat)
    requires Stranded(s, t)
    ensures Stranded(Step(s, e), t)
  {
    if Enabled(s, e) && e.Message? {
      match OnMessage(s, e.msg)
      case Throw(_) =>
      case Normal(next) =>
        if next != s {
          var id := Field(Field(e.msg, "payload"), "id");
          assert s.jobs[id] != t;
        }
    }
  }

  /** So the first caller of the duplicate-id run is never answered, after
      any further events. */
  lemma {:induction false} StrandedIsForever(s: QueueState, trace: seq<Event>, t: nat)
    requires Stranded(s, t)
    ensures Stranded(Run(s, trace), t)
    ensures Run(s, trace).tickets[t].status.Pending?
    decreases |trace|
  {
    if |trace| > 0 {
      StepKeepsStranded(s, trace[0], t);
      StrandedIsForever(Step(s, trace[0]), trace[1..], t);
    }
  }

  /** The first push of the duplicate-id run stays pending after every
      continuation. */
  lemma FirstPushNeverAnswered(id: Value, payload: Value, later: seq<Event>)
    requires payload == Obj(map["id" := id])
    ensures var s := Run(Run(Init, DuplicateIdTrace(id, payload)), later);
            |s.tickets| > 0 && s.tickets[0].status.Pending?
  {
    DuplicateIdStrandsFirstPush(id, payload);
    StrandedIsForever(Run(Init, DuplicateIdTrace(id, payload)), later, 0);
  }

  /** A first push of `id` is queued, registered, then published. */
  lemma PushThenAdmit(id: Value)
    ensures Step(Init, Push(id)) == QueueState(map[], [Ticket(id, Queued, false, Pending)], 1, 0)
    ensures Step(QueueState(map[], [Ticket(id, Queued, false, Pending)], 1, 0), Admit(0))
            == QueueState(map[id := 0], [Ticket(id, Publishing, false, Pending)], 1, 0)
    ensures Step(QueueState(map[id := 0], [Ticket(id, Publishing, false, Pending)], 1, 0), PublishOk(0))
            == QueueState(map[id := 0], [Ticket(id, PublishSettled, false, Pending)], 1, 0)
  {
  }

  /** A second push of the same id overwrites the first one's entry. */
  lemma SecondPushTakesOverEntry(id: Value)
    ensures var d := Ticket(id, PublishSettled, false, Pending);
            var p := Ticket(id, Publishing, false, Pending);
            && Step(QueueState(map[id := 0], [d], 1, 0), Push(id))
               == QueueState(map[id := 0], [d, Ticket(id, Queued, false, Pending)], 2, 0)
            && Step(QueueState(map[id := 0], [d, Ticket(id, Queued, false, Pending)], 2, 0), Admit(1))
               == QueueState(map[id := 1], [d, p], 2, 0)
            && Step(QueueState(map[id := 1], [d, p], 2, 0), PublishOk(1))
               == QueueState(map[id := 1], [d, d], 2, 0)
  {
    assert map[id := 0][id := 1] == map[id := 1];
  }

  /** The completion for `id` resolves the second push; the first push's
      timer then finds no entry and leaves it pending. */
  lemma CompletionGoesToSecondPush(id: Value, payload: Value)
    requires payload == Obj(map["id" := id])
    ensures var d := Ticket(id, PublishSettled, false, Pending);
            var s6 := QueueState(map[id := 1], [d, d], 2, 0);
            var s7 := QueueState(map[], [d, Ticket(id, PublishSettled, false, Resolved(payload))], 2, 1);
            && Step(s6, Message(Notification(JobCompleted, payload))) == s7
            && Step(s7, Timeout(0)) == QueueState(map[], [Ticket(id, PublishSettled, true, Pending), Ticket(id, PublishSettled, false, Resolved(payload))], 2, 1)
  {
    var d := Ticket(id, PublishSettled, false, Pending);
    var s6 := QueueState(map[id := 1], [d, d], 2, 0);
    var msg := Notification(JobCompleted, payload);
    assert Field(msg, "type") == Str(JobCompleted);
    assert Field(msg, "payload") == payload;
    assert Field(payload, "id") == id;
    assert OnMessage(s6, msg) == Normal(Answer(s6, id, Resolved(payload)).(completeJobCount := 1));
    assert map[id := 1] - {id} == map[];
  }

  // ---------------------------------------------------------------------
  // Registry entries outlive their tickets

  /** Only a completion or failure notification removes an id from the
      registry: publish failures and timeouts never do. */
  lemma OnlyNotificationsRemoveEntries(s: QueueState, e: Event, id: Value)
    requires WellFormed(s)
    requires id in s.jobs && id !in Step(s, e).jobs
    ensures e.Message?
    ensures !Nullish(e.msg) && Field(e.msg, "type") in {Str(JobCompleted), Str(JobFailed)}
    ensures !Nullish(Field(e.msg, "payload")) && Field(Field(e.msg, "payload"), "id") == id
  {
  }

  predicate NoNotifications(trace: seq<Event>) {
    forall i :: 0 <= i < |trace| ==> !trace[i].Message?
  }

  /** Hence, with no notification arriving, the registry only grows: an
      entry whose job failed to publish, or timed out and was abandoned by
      its worker, stays forever and keeps counting against the depth
      guard. */
  lemma {:induction false} EntriesStayWithoutNotifications(s: QueueState, trace: seq<Event>)
    requires WellFormed(s)
    requires NoNotifications(trace)
    ensures s.jobs.Keys <= Run(s, trace).jobs.Keys
    decreases |trace|
  {
    if |trace| > 0 {
      StepPreservesWellFormed(s, trace[0]);
      forall id | id in s.jobs
        ensures id in Step(s, trace[0]).jobs
      {
        if id !in Step(s, trace[0]).jobs {
          OnlyNotificationsRemoveEntries(s, trace[0], id);
        }
      }
      EntriesStayWithoutNotifications(Step(s, trace[0]), trace[1..]);
    }
  }

  /** The smallest case: one push whose publish fails and whose timer then
      fires. The caller has its rejection, yet the id is still registered. */
  lemma FailedPublishLeavesStaleEntry(id: Value, err: Value)
    ensures var s := Run(Init, [Push(id), Admit(0), PublishFail(0, err), Timeout(0)]);
            && |s.tickets| == 1
            && s.tickets[0].status == Rejected(err)
            && s.jobs == map[id := 0]
  {
    var tr := [Push(id), Admit(0), PublishFail(0, err), Timeout(0)];
    var s1 := QueueState(map[], [Ticket(id, Queued, false, Pending)], 1, 0);
    var s2 := QueueState(map[id := 0], [Ticket(id, Publishing, false, Pending)], 1, 0);
    var s3 := QueueState(map[id := 0], [Ticket(id, PublishSettled, false, Rejected(err))], 1, 0);
    var s4 := QueueState(map[id := 0], [Ticket(id, PublishSettled, true, Rejected(err))], 1, 0);
    PushThenAdmit(id);
    assert Step(s2, PublishFail(0, err)) == s3;
    assert Step(s3, Timeout(0)) == s4;
    assert Run(Init, tr) == Run(s1, tr[1..]);
    assert Run(s1, tr[1..]) == Run(s2, tr[2..]);
    assert Run(s2, tr[2..]) == Run(s3, tr[3..]);
    assert Run(s3, tr[3..]) == Run(s4, tr[4..]) == s4;
  }

  /** A queue that also drops the entry when its own ticket is rejected by
      a failed publish or by the timer: once a caller has been answered,
      the registry no longer holds its id, so a later notification for
      that id is ignored and the entry stops counting against the depth
      guard. */
  function StepEvicting(s: QueueState, e: Event): QueueState {
    var next := Step(s, e);
    if Enabled(s, e) && (e.PublishFail? || e.Timeout?) then
      var id := s.tickets[e.ticket].id;
      if id in next.jobs && next.jobs[id] == e.ticket then next.(jobs := next.jobs - {id}) else next
    else next
  }

  function RunEvicting(s: QueueState, trace: seq<Event>): QueueState
    decreases |trace|
  {
    if |trace| == 0 then s else RunEvicting(StepEvicting(s, trace[0]), trace[1..])
  }

  /** Every registry entry belongs to an unsettled ticket. */
  predicate OnlyPendingRegistered(s: QueueState) {
    forall id :: id in s.jobs ==> s.jobs[id] < |s.tickets| && s.tickets[s.jobs[id]].status.Pending?
  }

  lemma EvictionPreservesInvariants(s: QueueState, e: Event)
    requires WellFormed(s) && OnlyPendingRegistered(s)
    requires Enabled(s, e) && (e.PublishFail? || e.Timeout?)
    ensures WellFormed(StepEvicting(s, e)) && OnlyPendingRegistered(StepEvicting(s, e))
  {
    StepPreservesWellFormed(s, e);
    var t := e.ticket;
    var next := Step(s, e);
    assert next.jobs == s.jobs;
    assert forall u :: 0 <= u < |s.tickets| && u != t ==> next.tickets[u] == s.tickets[u];
    var id := s.tickets[t].id;
    if id in next.jobs && next.jobs[id] == t {
      var r := next.(jobs := next.jobs - {id});
      assert r.jobs.Keys == next.jobs.Keys - {id};
      assert |r.jobs| <= |next.jobs|;
      forall k | k in r.jobs
        ensures r.jobs[k] < |r.tickets| && r.tickets[r.jobs[k]].status.Pending?
      {
        assert s.jobs[k] != t;
      }
    } else {
      forall k | k in next.jobs
        ensures next.jobs[k] < |next.tickets| && next.tickets[next.jobs[k]].status.Pending?
      {
        assert s.jobs[k] != t;
      }
    }
  }

  lemma StepEvictingPreservesInvariants(s: QueueState, e: Event)
    requires WellFormed(s) && OnlyPendingRegistered(s)
    ensures WellFormed(StepEvicting(s, e)) && OnlyPendingRegistered(StepEvicting(s, e))
  {
    if !Enabled(s, e) {
      assert StepEvicting(s, e) == s;
    } else if e.PublishFail? || e.Timeout? {
      EvictionPreservesInvariants(s, e);
    } else {
      assert StepEvicting(s, e) == Step(s, e);
      StepPreservesWellFormed(s, e);
      match e
      case Push(id) => PushKeepsOnlyPending(s, id);
      case Admit(t) => AdmitKeepsOnlyPending(s, t);
      case PublishOk(t) => PublishOkKeepsOnlyPending(s, t);
      case Message(msg) => MessageKeepsOnlyPending(s, msg);
    }
  }

  lemma PushKeepsOnlyPending(s: QueueState, id: Value)
    requires WellFormed(s) && OnlyPendingRegistered(s)
    ensures OnlyPendingRegistered(Step(s, Push(id)))
  {
    var next := Step(s, Push(id));
    assert forall u :: 0 <= u < |s.tickets| ==> next.tickets[u] == s.tickets[u];
  }

  lemma PublishOkKeepsOnlyPending(s: QueueState, t: nat)
    requires WellFormed(s) && OnlyPendingRegistered(s) && Enabled(s, PublishOk(t))
    ensures OnlyPendingRegistered(Step(s, PublishOk(t)))
  {
    var next := Step(s, PublishOk(t));
    assert forall u :: 0 <= u < |s.tickets| ==> next.tickets[u].status == s.tickets[u].status;
  }

  lemma AdmitKeepsOnlyPending(s: QueueState, t: nat)
    requires WellFormed(s) && OnlyPendingRegistered(s) && Enabled(s, Admit(t))
    ensures OnlyPendingRegistered(Step(s, Admit(t)))
  {
    var next := Step(s, Admit(t));
    forall k | k in next.jobs
      ensures next.jobs[k] < |next.tickets| && next.tickets[next.jobs[k]].status.Pending?
    {
      if k != s.tickets[t].id {
        assert s.jobs[k] != t;
      }
    }
  }

  lemma AnswerKeepsOnlyPending(s: QueueState, id: Value, status: Status, count: nat)
    requires WellFormed(s) && OnlyPendingRegistered(s) && id in s.jobs && !status.Pending?
    ensures OnlyPendingRegistered(Answer(s, id, status).(completeJobCount := count))
  {
    var next := Answer(s, id, status).(completeJobCount := count);
    forall k | k in next.jobs
      ensures next.jobs[k] < |next.tickets| && next.tickets[next.jobs[k]].status.Pending?
    {
      assert s.jobs[k] != s.jobs[id];
    }
  }

  lemma MessageKeepsOnlyPending(s: QueueState, msg: Value)
    requires WellFormed(s) && OnlyPendingRegistered(s)
    ensures OnlyPendingRegistered(Step(s, Message(msg)))
  {
    if !Nullish(msg) {
      var kind := Field(msg, "type");
      var payload := Field(msg, "payload");
      if (kind == Str(JobCompleted) || kind == Str(JobFailed)) && !Nullish(payload) {
        var id := Field(payload, "id");
        if id in s.jobs {
          if kind == Str(JobCompleted) {
            AnswerKeepsOnlyPending(s, id, Resolved(payload), s.completeJobCount + 1);
          } else {
            AnswerKeepsOnlyPending(s, id, Rejected(Field(payload, "error")), s.completeJobCount);
          }
        }
      }
    }
  }

  /** No entry without a pending ticket means, once nothing is pending, an
      empty registry. */
  lemma SettledRegistryIsEmpty(s: QueueState)
    requires OnlyPendingRegistered(s)
    requires forall t :: 0 <= t < |s.tickets| ==> !s.tickets[t].status.Pending?
    ensures s.jobs == map[]
  {
    assert forall id :: id !in s.jobs;
  }

  /** With eviction, the registry holds only unsettled pushes along any
      sequence of events, so once every push has been answered the
      registry is empty and the depth guard is open again. */
  lemma {:induction false} EvictingRegistryHoldsOnlyPending(s: QueueState, trace: seq<Event>)
    requires WellFormed(s) && OnlyPendingRegistered(s)
    ensures WellFormed(RunEvicting(s, trace)) && OnlyPendingRegistered(RunEvicting(s, trace))
    ensures var r := RunEvicting(s, trace);
            (forall t :: 0 <= t < |r.tickets| ==> !r.tickets[t].status.Pending?) ==> r.jobs == map[]
    decreases |trace|
  {
    if |trace| > 0 {
      StepEvictingPreservesInvariants(s, trace[0]);
      EvictingRegistryHoldsOnlyPending(StepEvicting(s, trace[0]), trace[1..]);
    } else if forall t :: 0 <= t < |s.tickets| ==> !s.tickets[t].status.Pending? {
      SettledRegistryIsEmpty(s);
    }
  }

  /** The first two evicting steps of a push: it is queued, then
      registered. */
  lemma EvictingPushAndAdmit(id: Value)
    ensures StepEvicting(Init, Push(id)) == QueueState(map[], [Ticket(id, Queued, false, Pending)], 1, 0)
    ensures StepEvicting(QueueState(map[], [Ticket(id, Queued, false, Pending)], 1, 0), Admit(0))
            == QueueState(map[id := 0], [Ticket(id, Publishing, false, Pending)], 1, 0)
  {
  }

  /** Its publish fails, which now also evicts the id; its timer then
      finds nothing to do. */
  lemma EvictingPublishFailAndTimeout(id: Value, err: Value)
    ensures StepEvicting(QueueState(map[id := 0], [Ticket(id, Publishing, false, Pending)], 1, 0), PublishFail(0, err))
            == QueueState(map[], [Ticket(id, PublishSettled, false, Rejected(err))], 1, 0)
    ensures StepEvicting(QueueState(map[], [Ticket(id, PublishSettled, false, Rejected(err))], 1, 0), Timeout(0))
            == QueueState(map[], [Ticket(id, PublishSettled, true, Rejected(err))], 1, 0)
  {
    var s2 := QueueState(map[id := 0], [Ticket(id, Publishing, false, Pending)], 1, 0);
    assert Step(s2, PublishFail(0, err)) == QueueState(map[id := 0], [Ticket(id, PublishSettled, false, Rejected(err))], 1, 0);
  }

  /** The failed publish of `FailedPublishLeavesStaleEntry`, with
      eviction: the caller is rejected the same way and the id is gone. */
  lemma EvictingFailedPublishFreesEntry(id: Value, err: Value)
    ensures var s := RunEvicting(Init, [Push(id), Admit(0), PublishFail(0, err), Timeout(0)]);
            && |s.tickets| == 1
            && s.tickets[0].status == Rejected(err)
            && s.jobs == map[]
  {
    var tr := [Push(id), Admit(0), PublishFail(0, err), Timeout(0)];
    EvictingPushAndAdmit(id);
    EvictingPublishFailAndTimeout(id, err);
    var s1 := QueueState(map[], [Ticket(id, Queued, false, Pending)], 1, 0);
    var s2 := QueueState(map[id := 0], [Ticket(id, Publishing, false, Pending)], 1, 0);
    var s3 := QueueState(map[], [Ticket(id, PublishSettled, false, Rejected(err))], 1, 0);
    var s4 := QueueState(map[], [Ticket(id, PublishSettled, true, Rejected(err))], 1, 0);
    assert RunEvicting(Init, tr) == RunEvicting(s1, tr[1..]);
    assert RunEvicting(s1, tr[1..]) == RunEvicting(s2, tr[2..]);
    assert RunEvicting(s2, tr[2..]) == RunEvicting(s3, tr[3..]);
    assert RunEvicting(s3, tr[3..]) == RunEvicting(s4, tr[4..]) == s4;
  }
}
