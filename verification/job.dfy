/** One unit of work (`Job` in src/processor-queue/queue.js): the job's
    id, its arguments and its file, which is either an in-memory buffer
    or a path on disk. Its size is taken once, when the job is built, and
    the outbound message is produced later from the file's contents. */
module Jobs {
  import opened JsValue

  /** What the runner can observe of the disk at one moment: the size
      `fs.stat` reports for each path, and the bytes `fs.readFile`
      returns. The two are separate because the disk may change between
      the stat and the read. */
  datatype FileSystem = FileSystem(sizes: map<string, nat>, contents: map<string, seq<byte>>)

  /** A disk whose stat sizes are the lengths of its contents. */
  predicate Consistent(fs: FileSystem) {
    && fs.sizes.Keys == fs.contents.Keys
    && forall p :: p in fs.sizes ==> fs.sizes[p] == |fs.contents[p]|
  }

  datatype Job = Job(id: Value, args: Value, file: Value, fileSize: nat)

  /** The record `msg()` serialises: the job id, the file's bytes as
      base64 text, the job's arguments as `action`, and the result topic. */
  datatype JobMessage = JobMessage(id: Value, file: Base64Text, action: Value, topic: Value)

  function PathTypeError(): Value {
    TypeError("The \"path\" argument must be of type string or an instance of Buffer or URL")
  }

  /** `fs.stat(path)`, of which only the size is used. */
  function Stat(fs: FileSystem, path: Value): Completion<nat> {
    if !path.Str? then Throw(PathTypeError())
    else if path.s in fs.sizes then Normal(fs.sizes[path.s])
    else Throw(Error("Error", "ENOENT: no such file or directory, stat '" + path.s + "'"))
  }

  /** `fs.readFile(path)`. */
  function ReadFile(fs: FileSystem, path: Value): Completion<seq<byte>> {
    if !path.Str? then Throw(PathTypeError())
    else if path.s in fs.contents then Normal(fs.contents[path.s])
    else Throw(Error("Error", "ENOENT: no such file or directory, open '" + path.s + "'"))
  }

  /** `_calculateSize`: a buffer's byte length, otherwise the size the
      file system reports for the path, without reading the file. */
  function CalculateSize(file: Value, fs: FileSystem): (r: Completion<nat>)
    ensures file.Buffer? ==> r == Normal(|file.bytes|)
    ensures !file.Buffer? ==> (r.Normal? <==> file.Str? && file.s in fs.sizes)
    ensures !file.Buffer? && r.Normal? ==> r.value == fs.sizes[file.s]
  {
    if file.Buffer? then Normal(|file.bytes|) else Stat(fs, file)
  }

  /** `new Job({ id, args, file })`: destructures the payload (which
      throws for `undefined` and `null`) and settles once the size is
      known; a stat failure rejects with the file system's error. */
  function NewJob(payload: Value, fs: FileSystem): (r: Completion<Job>)
    ensures r.Normal? <==> !Nullish(payload) && CalculateSize(Field(payload, "file"), fs).Normal?
    ensures r.Normal? ==>
      && r.value.id == Field(payload, "id")
      && r.value.args == Field(payload, "args")
      && r.value.file == Field(payload, "file")
      && r.value.fileSize == CalculateSize(r.value.file, fs).value
    ensures r.Throw? && !Nullish(payload) ==> r.error == CalculateSize(Field(payload, "file"), fs).error
  {
    if Nullish(payload) then Throw(Get(payload, "id").error)
    else
      var file := Field(payload, "file");
      match CalculateSize(file, fs)
      case Throw(e) => Throw(e)
      case Normal(size) => Normal(Job(Field(payload, "id"), Field(payload, "args"), file, size))
  }

  /** `_readData`: the buffer itself, or the file read from disk now. */
  function ReadData(file: Value, fs: FileSystem): Completion<seq<byte>> {
    if file.Buffer? then Normal(file.bytes) else ReadFile(fs, file)
  }

  /** `msg()`: the record sent to the workers. It fails only when the file
      has to be read and cannot be. */
  function Msg(job: Job, fs: FileSystem, topic: Value): (r: Completion<JobMessage>)
    ensures r.Throw? <==> !job.file.Buffer? && !(job.file.Str? && job.file.s in fs.contents)
    ensures r.Normal? ==> r.value.id == job.id && r.value.action == job.args && r.value.topic == topic
    ensures job.file.Buffer? ==> r.Normal? && r.value.file == Base64Of(job.file.bytes)
    ensures job.file.Str? && job.file.s in fs.contents ==> r.Normal? && r.value.file == Base64Of(fs.contents[job.file.s])
  {
    match ReadData(job.file, fs)
    case Throw(e) => Throw(e)
    case Normal(data) => Normal(JobMessage(job.id, Base64Of(data), job.args, topic))
  }

  /** On a disk that does not change between the stat and the read, the
      size charged for a job is exactly the number of bytes its message
      carries, and building the message cannot fail. */
  lemma MessageCarriesJobSize(payload: Value, fs: FileSystem, topic: Value)
    requires Consistent(fs)
    requires NewJob(payload, fs).Normal?
    ensures Msg(NewJob(payload, fs).value, fs, topic).Normal?
    ensures |Msg(NewJob(payload, fs).value, fs, topic).value.file.bytes| == NewJob(payload, fs).value.fileSize
  {
  }

  /** A file deleted after the job was built makes `msg()` reject, even
      though the size was already taken: the stat and the read are
      separate observations of the disk. */
  lemma DeletedFileFailsMessage(payload: Value, before: FileSystem, after: FileSystem, topic: Value)
    requires NewJob(payload, before).Normal?
    requires var file := NewJob(payload, before).value.file; file.Str? && file.s !in after.contents
    ensures Msg(NewJob(payload, before).value, after, topic).Throw?
  {
  }
}
