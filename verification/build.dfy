/** The build host's side of the conversation with the Gatsby child
    process (`messageHandler` in src/build.js): what it sends back for each
    message Gatsby sends it. The file system is the set of paths that
    exist; the processors are the functions their `process` method
    computes. */
module Build {
  import opened JsValue

  const LogAction: string := "LOG_ACTION"
  const JobCreated: string := "JOB_CREATED"
  const JobCompleted: string := "JOB_COMPLETED"
  const JobFailed: string := "JOB_FAILED"
  const JobNotWhitelisted: string := "JOB_NOT_WHITELISTED"

  /** What a processor's `process(payload)` settles with. */
  type Processor = Value -> Completion<Value>

  /** The properties every plain object inherits from `Object.prototype`:
      reading one of them from the processors object yields a truthy
      value even though no processor was registered under that name. */
  const InheritedNames: set<string> := {
    "constructor", "hasOwnProperty", "isPrototypeOf", "propertyIsEnumerable",
    "toLocaleString", "toString", "valueOf", "__proto__",
    "__defineGetter__", "__defineSetter__", "__lookupGetter__", "__lookupSetter__"
  }

  /** What an inherited property does when used as a processor: it has no
      `process` method. */
  const NotAProcessor: Processor := (payload: Value) => Throw(TypeError("processor.process is not a function"))

  /** `processors[key]`: an own property first, then an inherited one. */
  function Lookup(processors: map<string, Processor>, key: string): (r: Option<Processor>)
    ensures r.Some? <==> key in processors || key in InheritedNames
    ensures key in processors ==> r == Some(processors[key])
  {
    if key in processors then Some(processors[key])
    else if key in InheritedNames then Some(NotAProcessor)
    else None
  }

  /** A message sent to the Gatsby process with `gatsbyProcess.send`. */
  datatype Reply = Reply(kind: string, payload: Value)

  /** One run of the handler: the replies it sends, in order, the payloads
      it hands to a processor, and what the returned promise rejects with,
      if anything. */
  datatype HandlerRun = HandlerRun(sent: seq<Reply>, processed: seq<Value>, thrown: Option<Value>)

  /** `fs.existsSync(p)`: false for anything but a path that exists. */
  predicate ExistsSync(existing: set<string>, p: Value) {
    p.Str? && p.s in existing
  }

  /** `path.join(dir, part)`, which rejects a part that is not a string;
      normalisation of the joined path is not modelled. */
  function PathJoin(dir: string, part: Value): (r: Completion<string>)
    ensures r.Throw? <==> !part.Str?
    ensures r.Throw? ==> r.error.Error? && r.error.name == "TypeError"
  {
    if part.Str? then Normal(dir + "/" + part.s)
    else Throw(TypeError("The \"path\" argument must be of type string. Received " + ToString(part)))
  }

  /** The operations whose output file already exists under `dir`
      (`operations.filter(op => fs.existsSync(path.join(dir, op.outputPath)))`).
      The first operation that is `undefined` or `null`, or whose
      `outputPath` is not a string, makes the filter throw. */
  function FilterExisting(dir: string, ops: seq<Value>, existing: set<string>): (r: Completion<seq<Value>>)
    ensures r.Throw? ==> r.error.Error? && r.error.name == "TypeError"
    ensures r.Normal? ==> |r.value| <= |ops|
    decreases |ops|
  {
    if |ops| == 0 then Normal([])
    else
      match Get(ops[0], "outputPath")
      case Throw(e) => Throw(e)
      case Normal(outputPath) =>
        match PathJoin(dir, outputPath)
        case Throw(e) => Throw(e)
        case Normal(p) =>
          match FilterExisting(dir, ops[1..], existing)
          case Throw(e) => Throw(e)
          case Normal(rest) => Normal(if p in existing then [ops[0]] + rest else rest)
  }

  /** Operations the filter accepts: a list of objects whose `outputPath`
      is a string. */
  predicate WellFormedOperations(ops: Value) {
    && ops.Arr?
    && forall i :: 0 <= i < |ops.items| ==>
         !Nullish(ops.items[i]) && Field(ops.items[i], "outputPath").Str?
  }

  /** Well-formed operations never make the filter throw, whatever the
      directory and whatever exists. */
  lemma {:induction false} FilterAcceptsWellFormed(dir: string, ops: seq<Value>, existing: set<string>)
    requires forall i :: 0 <= i < |ops| ==> !Nullish(ops[i]) && Field(ops[i], "outputPath").Str?
    ensures FilterExisting(dir, ops, existing).Normal?
    decreases |ops|
  {
    if |ops| > 0 {
      FilterAcceptsWellFormed(dir, ops[1..], existing);
    }
  }

  /** The elements a typed-array method visits in a Buffer. */
  function BufferItems(bytes: seq<byte>): (r: seq<Value>)
    ensures |r| == |bytes| && forall i :: 0 <= i < |bytes| ==> r[i] == Num(bytes[i])
  {
    seq(|bytes|, i requires 0 <= i < |bytes| => Num(bytes[i]))
  }

  /** The output-directory check (lines 47-54): when `outputDir` exists,
      the payload's operations are filtered by whether their output files
      exist. Its result is not used; only its exceptions matter. */
  function CheckExistingOutputs(payload: Value, existing: set<string>): (r: Completion<seq<Value>>)
    requires !Nullish(payload)
    ensures r.Throw? ==> ExistsSync(existing, Field(payload, "outputDir"))
    ensures r.Throw? ==> r.error.Error? && r.error.name == "TypeError"
  {
    var outputDir := Field(payload, "outputDir");
    if !ExistsSync(existing, outputDir) then Normal([])
    else
      match Get(Field(payload, "args"), "operations")
      case Throw(e) => Throw(e)
      case Normal(ops) =>
        if Nullish(ops) then Throw(Get(ops, "filter").error)
        else if ops.Arr? then FilterExisting(outputDir.s, ops.items, existing)
        // a Buffer is a Uint8Array: its `filter` visits the bytes as numbers
        else if ops.Buffer? then FilterExisting(outputDir.s, BufferItems(ops.bytes), existing)
        else Throw(TypeError("msg.payload.args.operations.filter is not a function"))
  }

  /** The catch block: a `JOB_FAILED` reply carrying `error.toString()`;
      an `undefined` or `null` error makes the catch block itself throw. */
  function FailureReply(id: Value, error: Value): HandlerRun {
    if Nullish(error) then HandlerRun([], [], Some(Get(error, "toString").error))
    else HandlerRun([Reply(JobFailed, Record2("id", id, "error", Str(ToString(error))))], [], None)
  }

  /** The `JOB_CREATED` case. `toProcess` is never set to true, so the
      processor is never called and a whitelisted job is answered with its
      own operations as the result, unless the `try` block throws (the
      output check fails, or `args` is `undefined` or `null`), in which
      case it is answered `JOB_FAILED`. */
  function JobCreatedHandler(payload: Value, processors: map<string, Processor>, existing: set<string>): (r: HandlerRun)
    ensures r.processed == [] && |r.sent| <= 1
    ensures Nullish(payload) ==> r.sent == [] && r.thrown == Some(Get(payload, "name").error)
    ensures !Nullish(payload) ==> |r.sent| == 1 && r.thrown.None?
    ensures !Nullish(payload) ==>
              (r.sent[0].kind == JobNotWhitelisted <==> Lookup(processors, ToString(Field(payload, "name"))).None?)
    ensures !Nullish(payload) && r.sent[0].kind == JobNotWhitelisted ==>
              r.sent[0].payload == Obj(map["id" := Field(payload, "id")])
  {
    match Get(payload, "name")
    case Throw(e) => HandlerRun([], [], Some(e))
    case Normal(name) =>
      var id := Field(payload, "id");
      match Lookup(processors, ToString(name))
      case None => HandlerRun([Reply(JobNotWhitelisted, Obj(map["id" := id]))], [], None)
      case Some(processor) =>
        match CheckExistingOutputs(payload, existing)
        case Throw(e) => FailureReply(id, e)
        case Normal(_) =>
          var toProcess := false;
          if toProcess then
            match processor(payload)
            case Throw(e) => FailureReply(id, e).(processed := [payload])
            case Normal(result) => HandlerRun([Reply(JobCompleted, Record2("id", id, "result", result))], [payload], None)
          else
            match Get(Field(payload, "args"), "operations")
            case Throw(e) => FailureReply(id, e)
            case Normal(ops) => HandlerRun([Reply(JobCompleted, Record2("id", id, "result", ops))], [], None)
  }

  /** The handler `messageHandler(gatsbyProcess, processors)` returns,
      applied to one message. `LOG_ACTION` and every other type are
      ignored (the latter with a warning in the log). */
  function MessageHandler(msg: Value, processors: map<string, Processor>, existing: set<string>): (r: HandlerRun)
    ensures r.processed == [] && |r.sent| <= 1
    ensures r.thrown.Some? <==> Nullish(msg) || (IsJobCreated(msg) && Nullish(Field(msg, "payload")))
    ensures r.sent != [] <==> IsJobCreated(msg) && !Nullish(Field(msg, "payload"))
    ensures !Nullish(msg) && !IsJobCreated(msg) ==> r == HandlerRun([], [], None)
  {
    match Get(msg, "type")
    case Throw(e) => HandlerRun([], [], Some(e))
    case Normal(kind) =>
      if kind == Str(JobCreated) then JobCreatedHandler(Field(msg, "payload"), processors, existing)
      else HandlerRun([], [], None)
  }

  // ---------------------------------------------------------------------
  // Properties

  /** The payload of a `JOB_CREATED` message. */
  function PayloadOf(msg: Value): Value
    requires !Nullish(msg)
  {
    Field(msg, "payload")
  }

  predicate IsJobCreated(msg: Value) {
    !Nullish(msg) && Field(msg, "type") == Str(JobCreated)
  }

  /** Every `JOB_CREATED` message with a payload gets exactly one reply,
      of one of the three kinds, and the handler does not throw. */
  lemma OneReplyPerCreatedJob(msg: Value, processors: map<string, Processor>, existing: set<string>)
    requires IsJobCreated(msg) && !Nullish(PayloadOf(msg))
    ensures var run := MessageHandler(msg, processors, existing);
            && |run.sent| == 1 && run.thrown.None?
            && run.sent[0].kind in {JobNotWhitelisted, JobCompleted, JobFailed}
  {
  }

  /** A job whose name is neither a registered processor nor an inherited
      property is answered `JOB_NOT_WHITELISTED` with its id, and nothing
      else happens. */
  lemma UnknownProcessorIsNotWhitelisted(msg: Value, processors: map<string, Processor>, existing: set<string>)
    requires IsJobCreated(msg) && !Nullish(PayloadOf(msg))
    requires var key := ToString(Field(PayloadOf(msg), "name")); key !in processors && key !in InheritedNames
    ensures MessageHandler(msg, processors, existing) ==
              HandlerRun([Reply(JobNotWhitelisted, Obj(map["id" := Field(PayloadOf(msg), "id")]))], [], None)
  {
  }

  /** A whitelisted job whose arguments carry operations is answered
      `JOB_COMPLETED` with exactly those operations as the result, as long
      as the output-directory check does not throw: the directory does not
      exist, or the operations are well-formed. */
  lemma WhitelistedJobGetsItsOperations(msg: Value, processors: map<string, Processor>, existing: set<string>)
    requires IsJobCreated(msg) && !Nullish(PayloadOf(msg))
    requires var key := ToString(Field(PayloadOf(msg), "name")); key in processors || key in InheritedNames
    requires !Nullish(Field(PayloadOf(msg), "args"))
    requires var payload := PayloadOf(msg);
             !ExistsSync(existing, Field(payload, "outputDir"))
             || WellFormedOperations(Field(Field(payload, "args"), "operations"))
    ensures var payload := PayloadOf(msg);
            MessageHandler(msg, processors, existing) ==
              HandlerRun([Reply(JobCompleted, Record2("id", Field(payload, "id"), "result", Field(Field(payload, "args"), "operations")))], [], None)
  {
    var payload := PayloadOf(msg);
    var outputDir := Field(payload, "outputDir");
    if ExistsSync(existing, outputDir) {
      FilterAcceptsWellFormed(outputDir.s, Field(Field(payload, "args"), "operations").items, existing);
    }
  }

  /** A whitelisted job without arguments fails with the TypeError's text
      when its output directory does not exist. */
  lemma MissingArgumentsFailTheJob(msg: Value, processors: map<string, Processor>, existing: set<string>)
    requires IsJobCreated(msg) && !Nullish(PayloadOf(msg))
    requires var key := ToString(Field(PayloadOf(msg), "name")); key in processors || key in InheritedNames
    requires Field(PayloadOf(msg), "args") == Undefined
    requires !ExistsSync(existing, Field(PayloadOf(msg), "outputDir"))
    ensures MessageHandler(msg, processors, existing).sent ==
              [Reply(JobFailed, Record2("id", Field(PayloadOf(msg), "id"), "error",
                       Str(ToString(PropertyReadError("undefined", "operations")))))]
  {
    assert CheckExistingOutputs(PayloadOf(msg), existing) == Normal([]);
  }

  /** Whatever goes wrong inside the `try` block of a whitelisted job (the
      output-directory check throws, or `args` is `undefined` or `null`)
      is answered `JOB_FAILED` with the id and the error's string form;
      and a `JOB_FAILED` reply comes from nothing else. */
  lemma FailuresInsideTryFailTheJob(msg: Value, processors: map<string, Processor>, existing: set<string>)
    requires IsJobCreated(msg) && !Nullish(PayloadOf(msg))
    requires var key := ToString(Field(PayloadOf(msg), "name")); key in processors || key in InheritedNames
    ensures var payload := PayloadOf(msg);
            var check := CheckExistingOutputs(payload, existing);
            check.Throw? ==>
              MessageHandler(msg, processors, existing) ==
                HandlerRun([Reply(JobFailed, Record2("id", Field(payload, "id"), "error", Str(ToString(check.error))))], [], None)
    ensures var payload := PayloadOf(msg);
            var read := Get(Field(payload, "args"), "operations");
            CheckExistingOutputs(payload, existing).Normal? && read.Throw? ==>
              MessageHandler(msg, processors, existing) ==
                HandlerRun([Reply(JobFailed, Record2("id", Field(payload, "id"), "error", Str(ToString(read.error))))], [], None)
    ensures var payload := PayloadOf(msg);
            MessageHandler(msg, processors, existing).sent[0].kind == JobFailed <==>
              CheckExistingOutputs(payload, existing).Throw? || Nullish(Field(payload, "args"))
  {
  }

  /** No processor is ever called, and what processors compute never
      affects a reply: only which names are registered does. */
  lemma ProcessorsAreNeverCalled(msg: Value, p1: map<string, Processor>, p2: map<string, Processor>, existing: set<string>)
    requires p1.Keys == p2.Keys
    ensures MessageHandler(msg, p1, existing).processed == []
    ensures MessageHandler(msg, p1, existing) == MessageHandler(msg, p2, existing)
  {
  }

  /** With well-formed operations the output-directory check has no
      effect: the reply is the same whatever exists on disk. */
  lemma OutputCheckIrrelevantForWellFormedJobs(msg: Value, processors: map<string, Processor>,
                                               ex1: set<string>, ex2: set<string>)
    requires IsJobCreated(msg) && !Nullish(PayloadOf(msg))
    requires !Nullish(Field(PayloadOf(msg), "args"))
    requires WellFormedOperations(Field(Field(PayloadOf(msg), "args"), "operations"))
    ensures MessageHandler(msg, processors, ex1) == MessageHandler(msg, processors, ex2)
  {
    var key := ToString(Field(PayloadOf(msg), "name"));
    if key in processors || key in InheritedNames {
      WhitelistedJobGetsItsOperations(msg, processors, ex1);
      WhitelistedJobGetsItsOperations(msg, processors, ex2);
    }
  }

  /** But the check is not inert: a whitelisted job without operations is
      answered `JOB_COMPLETED` (with an undefined result) when its output
      directory is missing, and `JOB_FAILED` when it exists, because
      `undefined.filter` throws. */
  lemma OutputCheckCanChangeReply(processor: Processor)
    ensures var payload := Obj(map["id" := Str("1"), "name" := Str("IMAGE_PROCESSING"),
                                   "outputDir" := Str("public"), "args" := Obj(map[])]);
            var msg := Record2("type", Str(JobCreated), "payload", payload);
            var processors := map["IMAGE_PROCESSING" := processor];
            && MessageHandler(msg, processors, {}).sent ==
                 [Reply(JobCompleted, Record2("id", Str("1"), "result", Undefined))]
            && MessageHandler(msg, processors, {"public"}).sent ==
                 [Reply(JobFailed, Record2("id", Str("1"), "error",
                          Str(ToString(PropertyReadError("undefined", "filter")))))]
  {
    var payload := Obj(map["id" := Str("1"), "name" := Str("IMAGE_PROCESSING"),
                           "outputDir" := Str("public"), "args" := Obj(map[])]);
    var msg := Record2("type", Str(JobCreated), "payload", payload);
    var processors := map["IMAGE_PROCESSING" := processor];
    assert Field(msg, "type") == Str(JobCreated) && Field(msg, "payload") == payload;
    assert Field(payload, "name") == Str("IMAGE_PROCESSING") && Field(payload, "id") == Str("1");
    assert Field(payload, "outputDir") == Str("public");
    assert Field(payload, "args") == Obj(map[]);
    assert Lookup(processors, "IMAGE_PROCESSING") == Some(processor);
    assert Get(Obj(map[]), "operations") == Normal(Undefined);
    assert CheckExistingOutputs(payload, {}) == Normal([]);
    assert CheckExistingOutputs(payload, {"public"}) == Throw(PropertyReadError("undefined", "filter"));
  }

  /** A job named after an inherited property of a plain object (here
      `constructor`) passes the whitelist check although no processor of
      that name was registered. */
  lemma InheritedNameIsWhitelisted(processors: map<string, Processor>)
    requires "constructor" !in processors
    ensures var payload := Obj(map["id" := Str("1"), "name" := Str("constructor"), "args" := Obj(map[])]);
            var msg := Record2("type", Str(JobCreated), "payload", payload);
            MessageHandler(msg, processors, {}).sent ==
              [Reply(JobCompleted, Record2("id", Str("1"), "result", Undefined))]
  {
  }

  /** Messages of any other type, `LOG_ACTION` included, are answered with
      nothing; a message that is `undefined` or `null` makes the handler
      throw before anything is sent. */
  lemma OtherMessagesAreIgnored(msg: Value, processors: map<string, Processor>, existing: set<string>)
    ensures !Nullish(msg) && Field(msg, "type") != Str(JobCreated) ==>
              MessageHandler(msg, processors, existing) == HandlerRun([], [], None)
    ensures Nullish(msg) ==>
              && MessageHandler(msg, processors, existing).sent == []
              && MessageHandler(msg, processors, existing).thrown.Some?
  {
  }
}
