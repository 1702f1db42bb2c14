/**
 The Koji compose protocol: what `PostCompose` enqueues, what the three worker
 jobs compute, and every interleaving of queue operations, worker steps,
 cancellations and heartbeat expiry for one compose.
 */
module Koji {
  import opened Wrappers
  import opened JobQueue

  // ----- results as they travel through the queue (internal/worker/json.go) -----

  datatype InitResult = InitResult(buildID: nat, token: string, kojiError: string)

  /** `output` is the success flag of `OSBuildOutput`; `None` is a nil pointer. */
  datatype BuildResult = BuildResult(output: Option<bool>, imageHash: string, imageSize: nat, kojiError: string)

  datatype FinalizeResult = FinalizeResult(kojiError: string)

  /** Raw JSON of a finished job. `Null` is what `WatchHeartbeats` stores. */
  datatype Raw = Null | InitJson(init: InitResult) | BuildJson(build: BuildResult) | FinalizeJson(finalize: FinalizeResult)

  /** Decoding into a zero struct; `null` leaves it untouched. */
  function AsInit(raw: Raw): InitResult {
    if raw.InitJson? then raw.init else InitResult(0, "", "")
  }

  function AsBuild(raw: Raw): BuildResult {
    if raw.BuildJson? then raw.build else BuildResult(None, "", 0, "")
  }

  function AsFinalize(raw: Raw): FinalizeResult {
    if raw.FinalizeJson? then raw.finalize else FinalizeResult("")
  }

  // ----- the worker jobs -----

  /** A foreign call: a value, or a non-empty error text. */
  datatype Call<T> = Ok(value: T) | Err(text: string)

  datatype InitCall = InitCall(token: string, buildID: nat)

  function RunInit(call: Call<InitCall>): InitResult {
    match call
    case Ok(v) => InitResult(v.buildID, v.token, "")
    case Err(text) => InitResult(0, "", text)
  }

  /**
   `KojiInitJobImpl.Run` up to its `Update`. An error text comes from a failed call alone,
   a token and a build id from a successful one.
   */
  method InitJob(call: Call<InitCall>) returns (result: InitResult)
    ensures result == RunInit(call)
    ensures result.kojiError == if call.Err? then call.text else ""
    ensures call.Ok? ==> result.token == call.value.token && result.buildID == call.value.buildID
    ensures call.Err? ==> result.token == "" && result.buildID == 0
  {
    result := InitResult(0, "", "");
    match call
    case Ok(v) =>
      result := result.(token := v.token, buildID := v.buildID);
    case Err(text) =>
      result := result.(kojiError := text);
  }

  /** What osbuild and the upload did in one build job that gets to its `Update`. */
  datatype BuildCall =
    | OsbuildFailed
    | Uploaded(hash: string, size: nat)
    | UploadFailed(hash: string, size: nat, text: string)

  function RunBuild(init: InitResult, call: BuildCall): BuildResult {
    if init.kojiError != "" then BuildResult(None, "", 0, "")
    else
      match call
      case OsbuildFailed => BuildResult(Some(false), "", 0, "")
      case Uploaded(hash, size) => BuildResult(Some(true), hash, size, "")
      case UploadFailed(hash, size, text) => BuildResult(Some(true), hash, size, text)
  }

  /**
   `OSBuildKojiJobImpl.Run` from its dynamic argument to its `Update`. With a working init the
   result says what osbuild did and repeats the hash and the size that Koji answered, together
   with the text of a failed upload; otherwise it is empty.
   */
  method BuildJob(init: InitResult, call: BuildCall) returns (result: BuildResult)
    ensures result == RunBuild(init, call)
    ensures Good(result) <==> init.kojiError == "" && (call.Uploaded? || (call.UploadFailed? && call.text == ""))
    ensures result.output.None? <==> init.kojiError != ""
    ensures result.output.Some? ==> (result.output.value <==> !call.OsbuildFailed?)
    ensures result.output == Some(true) ==> result.imageHash == call.hash && result.imageSize == call.size
    ensures result.output != Some(true) ==> result.imageHash == "" && result.imageSize == 0
    ensures result.kojiError == if result.output == Some(true) && call.UploadFailed? then call.text else ""
  {
    result := BuildResult(None, "", 0, "");
    if init.kojiError == "" {
      result := result.(output := Some(!call.OsbuildFailed?));
      if result.output.value {
        result := result.(imageHash := call.hash, imageSize := call.size);
        if call.UploadFailed? {
          result := result.(kojiError := call.text);
        }
      }
    }
  }

  /** `hasFailedDependency`; `Panics` is the nil dereference of `OSBuildOutput`. */
  datatype Verdict = Panics | Failed | Clean

  function HasFailedDependency(init: InitResult, builds: seq<BuildResult>): Verdict {
    if init.kojiError != "" then Failed else CheckBuilds(builds)
  }

  function CheckBuilds(builds: seq<BuildResult>): Verdict {
    if builds == [] then Clean
    else if builds[0].output.None? then Panics
    else if !builds[0].output.value || builds[0].kojiError != "" then Failed
    else CheckBuilds(builds[1..])
  }

  /** A build that finalize accepts. */
  predicate Good(b: BuildResult) {
    b.output.Some? && b.output.value && b.kojiError == ""
  }

  /** Build `i` is the first that is not good, and it has no output. */
  predicate FirstMissing(builds: seq<BuildResult>, i: int) {
    0 <= i < |builds| && builds[i].output.None? && forall j :: 0 <= j < i ==> Good(builds[j])
  }

  /** The loop of `hasFailedDependency`, said of the whole list. */
  lemma {:induction false} CheckBuildsMeaning(builds: seq<BuildResult>)
    ensures CheckBuilds(builds) == Clean <==> forall i :: 0 <= i < |builds| ==> Good(builds[i])
    ensures CheckBuilds(builds) == Panics <==>
            exists i :: FirstMissing(builds, i)
    ensures CheckBuilds(builds) == Failed ==>
            exists i :: 0 <= i < |builds| && !LooksClean(builds[i])
  {
    if builds != [] {
      var rest := builds[1..];
      CheckBuildsMeaning(rest);
      assert builds[0].output.None? ==> FirstMissing(builds, 0);
      if Good(builds[0]) {
        assert forall i :: 0 < i < |builds| ==> builds[i] == rest[i - 1];
        if i :| FirstMissing(rest, i) {
          assert FirstMissing(builds, i + 1);
        }
        if i :| FirstMissing(builds, i) {
          assert FirstMissing(rest, i - 1) by {
            forall j | 0 <= j < i - 1 ensures Good(rest[j]) {
              assert rest[j] == builds[j + 1];
            }
          }
        }
        if CheckBuilds(rest) == Failed {
          var i :| 0 <= i < |rest| && !LooksClean(rest[i]);
          assert builds[i + 1] == rest[i];
        }
      }
    }
  }

  /** One entry of the image list handed to the Koji import. */
  datatype Image = Image(buildRootID: nat, filename: string, hash: string, size: nat)

  function Images(filenames: seq<string>, builds: seq<BuildResult>): (r: seq<Image>)
    requires |filenames| == |builds|
    ensures |r| == |builds|
    ensures forall i :: 0 <= i < |r| ==> r[i] == Image(i, filenames[i], builds[i].imageHash, builds[i].imageSize)
  {
    seq(|builds|, i requires 0 <= i < |builds| => Image(i, filenames[i], builds[i].imageHash, builds[i].imageSize))
  }

  /** `extractDynamicArgs`, the build half. */
  function DynBuilds(dyn: seq<Raw>): (r: seq<BuildResult>)
    requires |dyn| > 0
    ensures |r| == |dyn| - 1
    ensures forall i :: 0 <= i < |r| ==> r[i] == AsBuild(dyn[i + 1])
  {
    seq(|dyn| - 1, i requires 0 <= i < |dyn| - 1 => AsBuild(dyn[i + 1]))
  }

  method ExtractDynamicArgs(dyn: seq<Raw>) returns (init: InitResult, builds: seq<BuildResult>)
    requires |dyn| > 0
    ensures init == AsInit(dyn[0]) && builds == DynBuilds(dyn)
  {
    init := AsInit(dyn[0]);
    builds := [];
    for i := 1 to |dyn|
      invariant |builds| == i - 1
      invariant forall k :: 0 <= k < |builds| ==> builds[k] == AsBuild(dyn[k + 1])
    {
      builds := builds + [AsBuild(dyn[i])];
    }
  }

  /** The call finalize makes to Koji. */
  datatype KojiCall = CallFail(token: string) | CallImport(images: seq<Image>, directory: string, token: string)

  function FinalizeCall(directory: string, filenames: seq<string>, dyn: seq<Raw>): KojiCall
    requires |dyn| == |filenames| + 1
  {
    if HasFailedDependency(AsInit(dyn[0]), DynBuilds(dyn)) == Failed then CallFail(AsInit(dyn[0]).token)
    else CallImport(Images(filenames, DynBuilds(dyn)), directory, AsInit(dyn[0]).token)
  }

  /** `KojiFinalizeJobImpl.Run` up to the call it makes, or a panic. */
  method RunFinalize(directory: string, filenames: seq<string>, dyn: seq<Raw>) returns (call: Option<KojiCall>)
    requires |dyn| == |filenames| + 1
    ensures call.None? <==> HasFailedDependency(AsInit(dyn[0]), DynBuilds(dyn)) == Panics
    ensures call.Some? ==> call.value == FinalizeCall(directory, filenames, dyn)
    ensures call.Some? ==> call.value.token == AsInit(dyn[0]).token
    ensures call.Some? && call.value.CallImport? <==> HasFailedDependency(AsInit(dyn[0]), DynBuilds(dyn)) == Clean
    ensures call.Some? && call.value.CallImport? ==>
      && call.value.directory == directory && |call.value.images| == |filenames|
      && forall i :: 0 <= i < |filenames| ==>
           call.value.images[i] == Image(i, filenames[i], AsBuild(dyn[i + 1]).imageHash, AsBuild(dyn[i + 1]).imageSize)
  {
    var init, builds := ExtractDynamicArgs(dyn);
    var verdict := HasFailedDependency(init, builds);
    if verdict == Panics {
      return None;
    }
    if verdict == Failed {
      return Some(CallFail(init.token));
    }
    var images := [];
    for i := 0 to |builds|
      invariant |images| == i
      invariant forall k :: 0 <= k < i ==> images[k] == Image(k, filenames[k], builds[k].imageHash, builds[k].imageSize)
    {
      images := images + [Image(i, filenames[i], builds[i].imageHash, builds[i].imageSize)];
    }
    assert images == Images(filenames, builds);
    return Some(CallImport(images, directory, init.token));
  }

  // ----- the HTTP side -----

  datatype Status = Pending | Building | Failure | Success

  /** `worker.Server.JobStatus`: the result is decoded only for a finished, uncanceled job. */
  function Reported(job: Job<Raw>): Raw {
    if job.finished && !job.canceled && job.result.Some? then job.result.value else Null
  }

  /** The build loop of `composeStatusFromJobStatus`: a nil output is not a failure. */
  predicate LooksClean(b: BuildResult) {
    (b.output.Some? ==> b.output.value) && b.kojiError == ""
  }

  function ComposeStatusOf(finalize: Job<Raw>, init: InitResult, builds: seq<BuildResult>): Status {
    if finalize.canceled then Failure
    else if !finalize.finished then Pending
    else if init.kojiError != "" then Failure
    else if exists i :: 0 <= i < |builds| && !LooksClean(builds[i]) then Failure
    else if AsFinalize(Reported(finalize)).kojiError != "" then Failure
    else Success
  }

  function ImageStatusOf(job: Job<Raw>, init: InitResult): Status {
    if job.canceled then Failure
    else if init.kojiError != "" then Failure
    else if !job.started then Pending
    else if !job.finished then Building
    else if Good(AsBuild(Reported(job))) then Success
    else Failure
  }

  // ----- one compose as a transition system -----

  /** The arguments of a job, as far as the protocol looks at them. */
  datatype Args =
    | InitArgs
    | BuildArgs(directory: string, filename: string)
    | FinalizeArgs(directory: string, filenames: seq<string>)

  /** What `PostCompose` fixes: the upload directory and one file name per image. */
  datatype Compose = Compose(directory: string, filenames: seq<string>) {
    function N(): nat { |filenames| }
    /** Jobs in the order they are enqueued: init, the builds, finalize. */
    function Finalize(): Id { N() + 1 }
    predicate IsBuild(id: Id) { 1 <= id <= N() }

    function Deps(id: Id): seq<Id> {
      if id == 0 then []
      else if id <= N() then [0]
      else seq(N() + 1, k => k)
    }

    /** The arguments `PostCompose` gives to each job. */
    function ArgsOf(id: Id): Args {
      if id == 0 then InitArgs
      else if id <= N() then BuildArgs(directory, filenames[id - 1])
      else FinalizeArgs(directory, filenames)
    }
  }

  /** What Koji sees: a build begun for a token, uploads, and what finalize asks for. */
  datatype Event =
    | Begun(buildID: nat, token: string)
    | Upload(build: nat, directory: string, filename: string, hash: string, size: nat)
    | Import(images: seq<Image>, directory: string, token: string, error: string)
    | FailBuild(token: string, error: string)
    | Panic

  /**
   `args` are the stored arguments of the jobs, `dyn` the dependency results a worker
   received with a job, `local` the result a worker has computed and will report, `log`
   what Koji has seen. Jobs are numbered in the order they are enqueued; `next` is the
   first free number.
   */
  datatype State = State(next: nat, jobs: Jobs<Raw>, args: map<Id, Args>, dyn: map<Id, seq<Raw>>, local: map<Id, Raw>, log: seq<Event>)

  const EMPTY: State := State(0, map[], map[], map[], map[], [])

  datatype Step =
    | Enqueue
    | Dequeue(id: Id)
    | WorkInit(initCall: Call<InitCall>)
    | WorkBuild(i: nat, buildCall: BuildCall)
    | WorkFinalize(error: string)
    | Update(id: Id)
    | CancelJob(id: Id)
    | Expire(id: Id)

  /** Results of the dependencies, as `RequestJob` collects them. */
  function Results(jobs: Jobs<Raw>, deps: seq<Id>): (r: seq<Raw>)
    ensures |r| == |deps|
    ensures forall k :: 0 <= k < |r| ==> r[k] == if deps[k] in jobs then Reported(jobs[deps[k]]) else Null
  {
    seq(|deps|, k requires 0 <= k < |deps| => if deps[k] in jobs then Reported(jobs[deps[k]]) else Null)
  }

  function WithResult(s: State, id: Id, result: Raw): State {
    match Finish(s.jobs, id, result)
    case Changed(jobs) => s.(jobs := jobs)
    case Refused(_) => s
  }

  /**
   What Koji sees of a build job with these arguments: the file of a successful upload, with
   the hash and the size that Koji answers. It does not depend on what the job reports.
   */
  function BuildEvents(i: nat, args: Args, init: InitResult, call: BuildCall): seq<Event>
    requires args.BuildArgs?
  {
    if init.kojiError == "" && call.Uploaded? then [Upload(i, args.directory, args.filename, call.hash, call.size)] else []
  }

  /** What Koji sees of a call that answers with `error`, empty when it succeeds. */
  function Seen(call: KojiCall, error: string): Event {
    match call
    case CallFail(token) => FailBuild(token, error)
    case CallImport(images, directory, token) => Import(images, directory, token, error)
  }

  /**
   A step that is not enabled changes nothing, so any list of steps is a run. Workers know
   a compose only through the arguments and the dependency results of their own job.
   */
  function Apply(c: Compose, s: State, step: Step): State {
    match step
    case Enqueue =>
      if s.next > c.Finalize() then s
      else s.(next := s.next + 1, jobs := s.jobs[s.next := NewJob("", c.Deps(s.next))],
              args := s.args[s.next := c.ArgsOf(s.next)])
    case Dequeue(id) =>
      if !Ready(s.jobs, id) then s
      else s.(jobs := Start(s.jobs, id), dyn := s.dyn[id := Results(s.jobs, c.Deps(id))])
    case WorkInit(call) =>
      if 0 !in s.dyn || 0 in s.local || call == Err("") then s
      else s.(local := s.local[0 := InitJson(RunInit(call))],
              log := if call.Ok? then s.log + [Begun(call.value.buildID, call.value.token)] else s.log)
    case WorkBuild(i, call) =>
      if i + 1 !in s.args || !s.args[i + 1].BuildArgs? || i + 1 !in s.dyn || i + 1 in s.local || s.dyn[i + 1] == [] ||
         (call.UploadFailed? && call.text == "") then s
      else
        var init := AsInit(s.dyn[i + 1][0]);
        s.(local := s.local[i + 1 := BuildJson(RunBuild(init, call))], log := s.log + BuildEvents(i, s.args[i + 1], init, call))
    case WorkFinalize(error) =>
      var f := c.Finalize();
      if f !in s.args || !s.args[f].FinalizeArgs? || f !in s.dyn || f in s.local || |s.dyn[f]| != |s.args[f].filenames| + 1 then s
      else
        var dyn := s.dyn[f];
        if HasFailedDependency(AsInit(dyn[0]), DynBuilds(dyn)) == Panics then s.(log := s.log + [Panic])
        else
          s.(local := s.local[f := FinalizeJson(FinalizeResult(error))],
             log := s.log + [Seen(FinalizeCall(s.args[f].directory, s.args[f].filenames, dyn), error)])
    case Update(id) =>
      if id in s.local then WithResult(s, id, s.local[id]) else s
    case CancelJob(id) =>
      (match Cancel(s.jobs, id)
       case Changed(jobs) => s.(jobs := jobs)
       case Refused(_) => s)
    case Expire(id) =>
      WithResult(s, id, Null)
  }

  function Exec(c: Compose, steps: seq<Step>): State {
    if steps == [] then EMPTY else Apply(c, Exec(c, steps[..|steps| - 1]), steps[|steps| - 1])
  }

  // ----- observations of a state -----

  /** A worker holds the job. */
  predicate Running(s: State, id: Id) {
    id in s.jobs && s.jobs[id].started && !s.jobs[id].finished && !s.jobs[id].canceled
  }

  /** A job that finished with a null result; `KojiRuns.ExpiredExactly` says which steps do that. */
  predicate Expired(s: State, id: Id) {
    Done(s.jobs, id) && Reported(s.jobs[id]) == Null
  }

  function InitOf(s: State): InitResult {
    if 0 in s.jobs then AsInit(Reported(s.jobs[0])) else AsInit(Null)
  }

  function BuildOf(s: State, i: nat): BuildResult {
    if i + 1 in s.jobs then AsBuild(Reported(s.jobs[i + 1])) else AsBuild(Null)
  }

  function BuildsOf(c: Compose, s: State): (r: seq<BuildResult>)
    ensures |r| == c.N() && forall i :: 0 <= i < |r| ==> r[i] == BuildOf(s, i)
  {
    seq(c.N(), i requires 0 <= i < c.N() => BuildOf(s, i))
  }

  /** `GetComposeId`. A compose is known to clients once finalize is enqueued. */
  function ComposeStatus(c: Compose, s: State): Status
    requires c.Finalize() in s.jobs
  {
    ComposeStatusOf(s.jobs[c.Finalize()], InitOf(s), BuildsOf(c, s))
  }

  function ImageStatus(s: State, i: nat): Status
    requires i + 1 in s.jobs
  {
    ImageStatusOf(s.jobs[i + 1], InitOf(s))
  }

  predicate Imported(s: State) {
    exists k :: 0 <= k < |s.log| && s.log[k].Import? && s.log[k].error == ""
  }

  /** What Koji holds under a file name: the last upload wins. */
  function Stored(log: seq<Event>, filename: string): Option<(string, nat)> {
    if log == [] then None
    else
      var e := log[|log| - 1];
      if e.Upload? && e.filename == filename then Some((e.hash, e.size))
      else Stored(log[..|log| - 1], filename)
  }
}
