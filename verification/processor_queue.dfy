/** Memory admission (`ProcessorQueue` in src/processor-queue/index.js).

    `process(payload)` builds a `Job`, waits until the byte counter `_mem`
    is at most `maxMessageMem`, charges the counter with the job's size,
    builds the message, pushes it on the queue and, on the success path
    or in the catch block, subtracts the size again. Several calls run at
    once, so the model is an event machine over all calls in flight; each
    await of a call is an event, and the queue's answer to a push is an
    event supplied from outside. */
module ProcessorQueue {
  import opened JsValue
  import opened Jobs

  /** `DEFAULT_MAX_MESSAGE_MEM`: 1024 * 1024 * 20 * 10 bytes. */
  const DefaultMaxMessageMem: int := 1024 * 1024 * 20 * 10

  /** `maxMessageMem || DEFAULT_MAX_MESSAGE_MEM`. */
  function MaxMessageMem(configured: Option<int>): int {
    OrDefault(configured, DefaultMaxMessageMem)
  }

  /** The default ceiling is 200 MiB, a tenth of the 2000 megabytes the
      source's comment gives; it applies also when the option is 0. */
  lemma DefaultCeilingIs200MiB(n: int)
    ensures MaxMessageMem(None) == MaxMessageMem(Some(0)) == 209715200 == 200 * 1024 * 1024
    ensures MaxMessageMem(None) * 10 == 2000 * 1024 * 1024
    ensures n != 0 ==> MaxMessageMem(Some(n)) == n
  {
  }

  /** Where one `process` call is. */
  datatype Phase =
    | Constructing(payload: Value)        // awaiting `new Job(payload)`
    | AwaitingMemory(job: Job)            // polling `_mem <= maxMessageMem`
    | Reading(job: Job)                   // charged; awaiting `job.msg()`
    | Pushing(job: Job, msg: JobMessage)  // charged; awaiting `queue.push`
    | Done(outcome: Completion<Value>)    // returned, or rejected

  /** A call and its local variable `size`. */
  datatype Call = Call(phase: Phase, size: int)

  datatype PQState = PQState(mem: int, maxMessageMem: int, calls: seq<Call>)

  datatype Event =
    | Process(payload: Value)                         // `process(payload)` is called
    | Construct(call: nat, fs: FileSystem)            // the job is built (or not)
    | AdmitMemory(call: nat)                          // the memory guard lets the call through
    | Read(call: nat, fs: FileSystem, topic: Value)   // `job.msg()` settles
    | PushSettled(call: nat, outcome: Completion<Value>)  // the queue settles the push

  function Init(maxMessageMem: int): PQState {
    PQState(0, maxMessageMem, [])
  }

  predicate Enabled(s: PQState, e: Event) {
    match e
    case Process(_) => true
    case Construct(c, _) => c < |s.calls| && s.calls[c].phase.Constructing?
    case AdmitMemory(c) => c < |s.calls| && s.calls[c].phase.AwaitingMemory? && s.mem <= s.maxMessageMem
    case Read(c, _, _) => c < |s.calls| && s.calls[c].phase.Reading?
    case PushSettled(c, _) => c < |s.calls| && s.calls[c].phase.Pushing?
  }

  /** Ends call `c` with `outcome`, running `this._mem -= size`. */
  function Finish(s: PQState, c: nat, outcome: Completion<Value>): PQState
    requires c < |s.calls|
  {
    s.(mem := s.mem - s.calls[c].size, calls := s.calls[c := Call(Done(outcome), s.calls[c].size)])
  }

  /** One event of the memory admission. A disabled event leaves the
      state alone. */
  function Step(s: PQState, e: Event): (r: PQState)
    ensures r.maxMessageMem == s.maxMessageMem
    ensures |r.calls| == |s.calls| + (if e.Process? then 1 else 0)
    ensures forall c :: 0 <= c < |s.calls| && s.calls[c].phase.Done? ==> r.calls[c] == s.calls[c]
    ensures r.mem == s.mem ||
            (&& !e.Process? && e.call < |s.calls|
             && ((e.AdmitMemory? && s.mem <= s.maxMessageMem && r.mem == s.mem + s.calls[e.call].size)
                 || (r.mem == s.mem - s.calls[e.call].size && r.calls[e.call].phase.Done?)))
  {
    if !Enabled(s, e) then s
    else
      match e
      case Process(payload) =>
        s.(calls := s.calls + [Call(Constructing(payload), 0)])
      case Construct(c, fs) =>
        (match NewJob(s.calls[c].phase.payload, fs)
         case Throw(err) => Finish(s, c, Throw(err))
         case Normal(job) => s.(calls := s.calls[c := Call(AwaitingMemory(job), job.fileSize)]))
      case AdmitMemory(c) =>
        var call := s.calls[c];
        s.(mem := s.mem + call.size, calls := s.calls[c := call.(phase := Reading(call.phase.job))])
      case Read(c, fs, topic) =>
        var job := s.calls[c].phase.job;
        (match Msg(job, fs, topic)
         case Throw(err) => Finish(s, c, Throw(err))
         case Normal(msg) => s.(calls := s.calls[c := s.calls[c].(phase := Pushing(job, msg))]))
      case PushSettled(c, outcome) =>
        Finish(s, c, outcome)
  }

  function Run(s: PQState, trace: seq<Event>): PQState
    decreases |trace|
  {
    if |trace| == 0 then s else Run(Step(s, trace[0]), trace[1..])
  }

  // ---------------------------------------------------------------------
  // Single steps

  /** The guard reads only the current counter: a call waiting for memory
      may go on exactly when `_mem <= maxMessageMem`, whatever its own
      size, and going on charges exactly the job's size. */
  lemma MemoryGuard(s: PQState, c: nat)
    requires c < |s.calls| && s.calls[c].phase.AwaitingMemory?
    requires s.calls[c].size == s.calls[c].phase.job.fileSize
    ensures Enabled(s, AdmitMemory(c)) <==> s.mem <= s.maxMessageMem
    ensures s.mem <= s.maxMessageMem ==>
              Step(s, AdmitMemory(c)).mem == s.mem + s.calls[c].phase.job.fileSize
  {
  }

  /** So a job larger than the whole ceiling is still let through when
      nothing else is charged, and the counter then exceeds the ceiling. */
  lemma SolitaryOversizedJobIsAdmitted(s: PQState, c: nat)
    requires 0 <= s.maxMessageMem && s.mem == 0
    requires c < |s.calls| && s.calls[c].phase.AwaitingMemory?
    requires s.calls[c].size == s.calls[c].phase.job.fileSize > s.maxMessageMem
    ensures Enabled(s, AdmitMemory(c))
    ensures Step(s, AdmitMemory(c)).mem > s.maxMessageMem
  {
  }

  /** A job that cannot be built leaves `size` at 0: the catch block
      subtracts nothing and the call rejects with the construction error. */
  lemma ConstructionFailureLeavesCounter(s: PQState, c: nat, fs: FileSystem)
    requires c < |s.calls| && s.calls[c].phase.Constructing? && s.calls[c].size == 0
    requires NewJob(s.calls[c].phase.payload, fs).Throw?
    ensures Step(s, Construct(c, fs)).mem == s.mem
    ensures Step(s, Construct(c, fs)).calls[c].phase == Done(Throw(NewJob(s.calls[c].phase.payload, fs).error))
  {
  }

  /** When `msg()` fails after the charge, the size is subtracted once and
      the call rejects with that same error. */
  lemma MessageFailureReleases(s: PQState, c: nat, fs: FileSystem, topic: Value)
    requires c < |s.calls| && s.calls[c].phase.Reading?
    requires Msg(s.calls[c].phase.job, fs, topic).Throw?
    ensures Step(s, Read(c, fs, topic)).mem == s.mem - s.calls[c].size
    ensures Step(s, Read(c, fs, topic)).calls[c].phase == Done(Throw(Msg(s.calls[c].phase.job, fs, topic).error))
  {
  }

  /** When the push settles, the size is subtracted once and the call
      ends with the queue's result or error, unchanged. */
  lemma PushSettlementReleases(s: PQState, c: nat, outcome: Completion<Value>)
    requires c < |s.calls| && s.calls[c].phase.Pushing?
    ensures Step(s, PushSettled(c, outcome)).mem == s.mem - s.calls[c].size
    ensures Step(s, PushSettled(c, outcome)).calls[c].phase == Done(outcome)
  {
  }

  // ---------------------------------------------------------------------
  // Balance

  /** The bytes a call holds: its size between the charge and the release. */
  function Charge(call: Call): int {
    if call.phase.Reading? || call.phase.Pushing? then call.size else 0
  }

  function Charged(calls: seq<Call>): int {
    if |calls| == 0 then 0 else Charged(calls[..|calls| - 1]) + Charge(calls[|calls| - 1])
  }

  lemma {:induction false} ChargedAppend(calls: seq<Call>, call: Call)
    ensures Charged(calls + [call]) == Charged(calls) + Charge(call)
  {
    assert (calls + [call])[..|calls|] == calls;
  }

  lemma {:induction false} ChargedUpdate(calls: seq<Call>, i: nat, call: Call)
    requires i < |calls|
    ensures Charged(calls[i := call]) == Charged(calls) - Charge(calls[i]) + Charge(call)
    decreases |calls|
  {
    var n := |calls|;
    var updated := calls[i := call];
    if i == n - 1 {
      assert updated[..n - 1] == calls[..n - 1];
    } else {
      assert updated[..n - 1] == calls[..n - 1][i := call];
      ChargedUpdate(calls[..n - 1], i, call);
    }
  }

  /** What every reachable state satisfies: the counter is `base` plus the
      sizes of the calls between charge and release, a call's `size` is 0
      until its job is built and the job's size afterwards. */
  predicate Balanced(s: PQState, base: int) {
    && s.mem == base + Charged(s.calls)
    && forall c :: 0 <= c < |s.calls| ==> SizeAgrees(s.calls[c])
  }

  predicate SizeAgrees(call: Call) {
    match call.phase
    case Constructing(_) => call.size == 0
    case AwaitingMemory(job) => call.size == job.fileSize
    case Reading(job) => call.size == job.fileSize
    case Pushing(job, _) => call.size == job.fileSize
    case Done(_) => true
  }

  lemma StepKeepsBalance(s: PQState, e: Event, base: int)
    requires Balanced(s, base)
    ensures Balanced(Step(s, e), base)
  {
    var next := Step(s, e);
    if Enabled(s, e) {
      match e
      case Process(payload) =>
        ChargedAppend(s.calls, Call(Constructing(payload), 0));
      case Construct(c, fs) =>
        ChargedUpdate(s.calls, c, next.calls[c]);
      case AdmitMemory(c) =>
        ChargedUpdate(s.calls, c, next.calls[c]);
      case Read(c, fs, topic) =>
        ChargedUpdate(s.calls, c, next.calls[c]);
      case PushSettled(c, outcome) =>
        ChargedUpdate(s.calls, c, next.calls[c]);
    }
  }

  /** Charges and releases pair up across any interleaving of calls: the
      counter always equals its starting value plus the sizes of the calls
      that are charged and not yet released. */
  lemma {:induction false} RunKeepsBalance(s: PQState, trace: seq<Event>, base: int)
    requires Balanced(s, base)
    ensures Balanced(Run(s, trace), base)
    decreases |trace|
  {
    if |trace| > 0 {
      StepKeepsBalance(s, trace[0], base);
      RunKeepsBalance(Step(s, trace[0]), trace[1..], base);
    }
  }

  /** No call is between its charge and its release. */
  predicate NoneCharged(calls: seq<Call>) {
    forall c :: 0 <= c < |calls| ==> !calls[c].phase.Reading? && !calls[c].phase.Pushing?
  }

  lemma {:induction false} NothingChargedSumsToZero(calls: seq<Call>)
    requires NoneCharged(calls)
    ensures Charged(calls) == 0
    decreases |calls|
  {
    if |calls| > 0 {
      NothingChargedSumsToZero(calls[..|calls| - 1]);
    }
  }

  /** Per call, the net change is zero: starting from any state in which
      no call holds a charge, once the calls started since (and those
      already under way) have all settled, `_mem` is back where it was,
      whatever the interleaving and whatever the outcomes. */
  lemma SettledCallsRestoreCounter(s: PQState, trace: seq<Event>)
    requires forall c :: 0 <= c < |s.calls| ==> SizeAgrees(s.calls[c])
    requires NoneCharged(s.calls)
    requires NoneCharged(Run(s, trace).calls)
    ensures Run(s, trace).mem == s.mem
  {
    NothingChargedSumsToZero(s.calls);
    RunKeepsBalance(s, trace, s.mem);
    NothingChargedSumsToZero(Run(s, trace).calls);
  }

  /** Hence every `process` call that has settled has given back exactly
      what it took: once no call is between charge and release, the
      counter is back at 0, for any interleaving and any outcome. */
  lemma SettledCallsReleaseEverything(maxMessageMem: int, trace: seq<Event>)
    requires NoneCharged(Run(Init(maxMessageMem), trace).calls)
    ensures Run(Init(maxMessageMem), trace).mem == 0
  {
    RunKeepsBalance(Init(maxMessageMem), trace, 0);
    NothingChargedSumsToZero(Run(Init(maxMessageMem), trace).calls);
  }
}
