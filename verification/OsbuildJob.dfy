/**
 The worker's osbuild job (cmd/osbuild-worker/jobimpl-osbuild.go), the state weldr
 derives from its result, and the check-then-delete of composes.
 */
module OsbuildJob {
  import opened Wrappers
  import opened JobQueue
  import opened Store
  import StoreOps = Store
  import opened StoreV0

  datatype TargetKind = VMWare | AWS | AWSS3 | Azure | GCP | AzureImage | OtherTarget(name: string)

  datatype JobArgs = JobArgs(targets: seq<TargetKind>, imageName: string, exports: nat)

  /** `hasBuild` is false when the decoded result has no build pipeline (a nil pointer). */
  datatype OsbuildRun = RunError | Output(success: bool, hasBuild: bool)

  /** What the environment does: which fallible calls of one run succeed. */
  datatype Env = Env(tempDir: bool, argsOk: bool, osbuild: OsbuildRun, fileOpen: bool, accepted: bool, uploadError: Option<string>)

  /** `output` is the success flag of `OSBuildOutput`, `None` a nil pointer. */
  datatype JobResult = JobResult(success: bool, output: Option<bool>, targetResults: seq<TargetKind>,
                                 targetErrors: seq<string>, uploadStatus: string)

  // ----- conditions a reader can check -----

  /** osbuild is started at all. */
  predicate Starts(args: JobArgs, env: Env) {
    env.tempDir && env.argsOk && |args.targets| <= 1 && args.exports <= 1
  }

  /** osbuild ran and reported success. */
  predicate Built(args: JobArgs, env: Env) {
    Starts(args, env) && env.osbuild.Output? && env.osbuild.success
  }

  /** The run gets past the log output and the artifact, which is uploaded only when it has a name. */
  predicate ArtifactDone(args: JobArgs, env: Env) {
    env.osbuild.Output? && env.osbuild.hasBuild && (args.imageName == "" || (env.fileOpen && env.accepted))
  }

  predicate TargetDone(args: JobArgs, env: Env) {
    args.targets == [] || (!args.targets[0].OtherTarget? && env.uploadError.None?)
  }

  /** Target kinds that record where the image went. */
  predicate HasResult(k: TargetKind) {
    k == AWS || k == AWSS3 || k == GCP || k == AzureImage
  }

  function Reported(args: JobArgs, env: Env): JobResult {
    if !Starts(args, env) then JobResult(false, Some(false), [], [], "failure")
    else if env.osbuild.RunError? then JobResult(false, None, [], [], "failure")
    else if !env.osbuild.success || !ArtifactDone(args, env) then JobResult(false, Some(env.osbuild.success), [], [], "failure")
    else if !TargetDone(args, env) then
      JobResult(false, Some(true), [], [if args.targets[0].OtherTarget? then "invalid target type: " + args.targets[0].name else env.uploadError.value], "failure")
    else
      JobResult(true, Some(true), if args.targets != [] && HasResult(args.targets[0]) then args.targets else [], [], "success")
  }

  /**
   `OSBuildJobImpl.Run`. The result is reported by a deferred call, so every way out of
   the function, including the panic on a missing build pipeline, reports it as it stands.
   */
  method Run(args: JobArgs, env: Env) returns (result: JobResult)
    ensures result == Reported(args, env)
  {
    result := JobResult(false, Some(false), [], [], "failure");
    if !env.tempDir {
      return;
    }
    if !env.argsOk {
      return;
    }
    if |args.targets| > 1 {
      return;
    }
    if args.exports > 1 {
      return;
    }
    if env.osbuild.RunError? {
      result := result.(output := None);
      return;
    }
    result := result.(output := Some(env.osbuild.success));
    if !env.osbuild.hasBuild {
      return;
    }
    if !env.osbuild.success {
      return;
    }
    if args.imageName != "" {
      if !env.fileOpen {
        return;
      }
      if !env.accepted {
        return;
      }
    }
    if |args.targets| == 0 {
      result := result.(success := true, uploadStatus := "success");
    } else {
      var kind := args.targets[0];
      if kind.OtherTarget? {
        result := result.(targetErrors := result.targetErrors + ["invalid target type: " + kind.name]);
        return;
      }
      if env.uploadError.Some? {
        result := result.(targetErrors := result.targetErrors + [env.uploadError.value]);
        return;
      }
      if HasResult(kind) {
        result := result.(targetResults := result.targetResults + [kind]);
        assert [] + [kind] == args.targets;
      }
      result := result.(success := true, uploadStatus := "success");
    }
  }

  /** `worker.Server.JobStatus` recomputes a missing success flag from the osbuild output. */
  function Shown(r: JobResult): bool {
    r.success || (r.output.Some? && r.output.value && r.targetErrors == [])
  }

  /** The worker's own flag: everything it had to do was done. */
  lemma ReportedSuccess(args: JobArgs, env: Env)
    ensures Reported(args, env).success <==> Built(args, env) && ArtifactDone(args, env) && TargetDone(args, env)
    ensures Reported(args, env).uploadStatus == "success" <==> Reported(args, env).success
    ensures Reported(args, env).targetErrors != [] <==> Built(args, env) && ArtifactDone(args, env) && !TargetDone(args, env)
  {
  }

  /** The other fields of the report. */
  lemma ReportedMeans(args: JobArgs, env: Env)
    ensures var result := Reported(args, env);
            && (result.output == Some(true) <==> Built(args, env))
            && (result.output == None <==> Starts(args, env) && env.osbuild.RunError?)
            && (result.uploadStatus == "success" || result.uploadStatus == "failure")
            && (result.targetResults != [] <==>
                  result.success && args.targets != [] && !args.targets[0].VMWare? && !args.targets[0].Azure? && !args.targets[0].OtherTarget?)
            && (result.targetResults != [] ==> result.targetResults == [args.targets[0]])
            && |result.targetErrors| <= 1
            && (result.targetErrors != [] && !args.targets[0].OtherTarget? ==> Some(result.targetErrors[0]) == env.uploadError)
            && (result.targetErrors != [] && args.targets[0].OtherTarget? ==>
                  result.targetErrors[0] == "invalid target type: " + args.targets[0].name)
  {
  }

  /**
   What weldr shows as finished: a successful build without target error. That includes,
   and exceeds the worker's own flag by, exactly the builds whose artifact was not done.
   */
  lemma ShownExactly(args: JobArgs, env: Env)
    ensures Shown(Reported(args, env)) <==> Built(args, env) && (ArtifactDone(args, env) ==> TargetDone(args, env))
    ensures Shown(Reported(args, env)) && !Reported(args, env).success <==> Built(args, env) && !ArtifactDone(args, env)
  {
    ReportedSuccess(args, env);
  }

  /** A concrete run: the artifact upload is refused, and the compose is shown as finished. */
  lemma RefusedArtifactShownFinished()
    ensures var args := JobArgs([], "disk.qcow2", 1);
            var env := Env(true, true, Output(true, true), true, false, None);
            Shown(Reported(args, env)) && !Reported(args, env).success && !env.accepted
  {
    var args := JobArgs([], "disk.qcow2", 1);
    var env := Env(true, true, Output(true, true), true, false, None);
    ShownExactly(args, env);
    assert args.imageName != "" && !ArtifactDone(args, env);
  }

  // ----- the state weldr shows -----

  datatype ComposeState = ComposeWaiting | ComposeRunning | ComposeFinished | ComposeFailed

  /** A finished job's raw result; `None` is the `null` stored by the heartbeat watcher. */
  type Raw = Option<JobResult>

  function JobState(job: Job<Raw>): ComposeState {
    if job.canceled then ComposeFailed
    else if !job.started then ComposeWaiting
    else if !job.finished then ComposeRunning
    else if job.result.Some? && job.result.value.Some? && Shown(job.result.value.value) then ComposeFinished
    else ComposeFailed
  }

  /** `getComposeStatus`: composes without a job use the stored status. */
  function StateOf(c: Compose, job: Job<Raw>): ComposeState {
    if c.image.jobID == NIL_ID then
      match c.image.queueStatus
      case Waiting => ComposeWaiting
      case Running => ComposeRunning
      case Finished => ComposeFinished
      case Failed => ComposeFailed
    else JobState(job)
  }

  /** Which state weldr shows for a job, by its progress and result. */
  lemma JobStateMeans(job: Job<Raw>)
    ensures job.canceled ==> JobState(job) == ComposeFailed
    ensures !job.canceled ==>
              && (JobState(job) == ComposeWaiting <==> !job.started)
              && (JobState(job) == ComposeRunning <==> job.started && !job.finished)
              && (JobState(job) == ComposeFinished <==>
                    job.started && job.finished && job.result.Some? && job.result.value.Some? && Shown(job.result.value.value))
  {
  }

  /** A compose without a job shows its stored status, any other one the state of its job. */
  lemma StateMeans(c: Compose, job: Job<Raw>)
    ensures c.image.jobID != NIL_ID ==> StateOf(c, job) == JobState(job)
    ensures c.image.jobID == NIL_ID ==>
              && (StateOf(c, job) == ComposeWaiting <==> c.image.queueStatus == Waiting)
              && (StateOf(c, job) == ComposeRunning <==> c.image.queueStatus == QueueStatus.Running)
              && (StateOf(c, job) == ComposeFinished <==> c.image.queueStatus == Finished)
              && (StateOf(c, job) == ComposeFailed <==> c.image.queueStatus == QueueStatus.Failed)
  {
  }

  /** Loading keeps a compose's state exactly when it has a job or a final stored status. */
  lemma LoadKeepsState(c: Compose)
    ensures (forall job: Job<Raw> :: StateOf(NormalCompose(c), job) == StateOf(c, job)) <==>
            c.image.jobID != NIL_ID || c.image.queueStatus == Finished || c.image.queueStatus == Failed
  {
    var job: Job<Raw> := NewJob("", []);
    assert StateOf(c, job) == StateOf(c, job);
    if c.image.jobID == NIL_ID && !(c.image.queueStatus == Finished || c.image.queueStatus == Failed) {
      assert StateOf(NormalCompose(c), job) != StateOf(c, job);
    }
  }

  /** Composes as `PushCompose` with a real job and `PushTestCompose` make them. */
  predicate Made(c: Compose) {
    c.image.jobID != NIL_ID || c.image.queueStatus == Finished || c.image.queueStatus == Failed
  }

  predicate GivesJobs(op: Op) {
    op.PushCompose? ==> op.image.jobID != NIL_ID
  }

  lemma StepKeepsMade(v: SemVer, s: State, op: Op)
    requires GivesJobs(op) && forall id :: id in s.composes ==> Made(s.composes[id])
    ensures forall id :: id in StoreOps.Run(v, s, op).0.composes ==> Made(StoreOps.Run(v, s, op).0.composes[id])
  {
  }

  lemma {:induction false} AllMade(v: SemVer, ops: seq<Op>)
    requires forall k :: 0 <= k < |ops| ==> GivesJobs(ops[k])
    ensures forall id :: id in StoreHistory.Exec(v, EMPTY, ops).composes ==> Made(StoreHistory.Exec(v, EMPTY, ops).composes[id])
  {
    if ops != [] {
      AllMade(v, ops[..|ops| - 1]);
      StepKeepsMade(v, StoreHistory.Exec(v, EMPTY, ops[..|ops| - 1]), ops[|ops| - 1]);
    }
  }

  /** In every store reached by operations that give real job ids, a restart changes no compose's state. */
  lemma RestartKeepsStates(v: SemVer, ops: seq<Op>, id: Id, job: Job<Raw>)
    requires (forall k :: 0 <= k < |ops| ==> GivesJobs(ops[k])) && id in StoreHistory.Exec(v, EMPTY, ops).composes
    ensures var s := StoreHistory.Exec(v, EMPTY, ops);
            && id in Normalise(s).composes
            && StateOf(Normalise(s).composes[id], job) == StateOf(s.composes[id], job)
  {
    AllMade(v, ops);
    LoadKeepsState(StoreHistory.Exec(v, EMPTY, ops).composes[id]);
  }

  // ----- check, then delete, under concurrency -----

  /**
   `argsOf` are the arguments each job was enqueued with. `jobOf` remembers the job of
   every compose ever made, `checked` the composes a delete request has found in a final
   state, `deleted` those removed from the store.
   */
  datatype World = World(jobs: Jobs<Raw>, argsOf: map<Id, JobArgs>, jobOf: map<Id, Id>,
                         stored: set<Id>, checked: set<Id>, deleted: set<Id>)

  const NEW_WORLD := World(map[], map[], map[], {}, {}, {})

  datatype Step =
    | Push(compose: Id, job: Id, args: JobArgs)
    | Dequeue(job: Id)
    | Update(job: Id, env: Env)
    | Expire(job: Id)
    | CancelJob(job: Id)
    | Check(compose: Id)
    | Delete(compose: Id)

  function After(w: World, o: Outcome<Raw>): World {
    if o.Changed? then w.(jobs := o.jobs) else w
  }

  predicate Final(state: ComposeState) {
    state == ComposeFinished || state == ComposeFailed
  }

  /** Fresh ids are drawn for composes and jobs; a step that is not enabled changes nothing. */
  function Apply(w: World, step: Step): World {
    match step
    case Push(c, j, args) =>
      if c in w.jobOf || j in w.jobs then w
      else w.(jobs := w.jobs[j := NewJob("osbuild", [])], argsOf := w.argsOf[j := args],
              jobOf := w.jobOf[c := j], stored := w.stored + {c})
    case Dequeue(j) => if Ready(w.jobs, j) then w.(jobs := Start(w.jobs, j)) else w
    case Update(j, env) =>
      if j in w.argsOf then After(w, Finish(w.jobs, j, Some(Reported(w.argsOf[j], env)))) else w
    case Expire(j) => After(w, Finish(w.jobs, j, None))
    case CancelJob(j) => After(w, Cancel(w.jobs, j))
    case Check(c) =>
      if c in w.stored && c in w.jobOf && w.jobOf[c] in w.jobs && Final(JobState(w.jobs[w.jobOf[c]]))
      then w.(checked := w.checked + {c}) else w
    case Delete(c) =>
      if c in w.checked && c in w.stored then w.(stored := w.stored - {c}, deleted := w.deleted + {c}) else w
  }

  function Exec(steps: seq<Step>): World {
    if steps == [] then NEW_WORLD else Apply(Exec(steps[..|steps| - 1]), steps[|steps| - 1])
  }

  predicate Over(job: Job<Raw>) {
    job.finished || job.canceled
  }

  /** A stored result is one a run of the job with its own arguments reported, or the watcher's null. */
  ghost predicate ResultOk(job: Job<Raw>, args: JobArgs) {
    && (job.finished ==> job.started && !job.canceled && job.result.Some?)
    && (job.finished && job.result.value.Some? ==> exists env :: job.result.value.value == Reported(args, env))
  }

  ghost predicate Inv(w: World) {
    && (forall c :: c in w.jobOf ==> w.jobOf[c] in w.jobs)
    && w.stored <= w.jobOf.Keys && w.checked <= w.jobOf.Keys && w.deleted <= w.checked
    && (forall c :: c in w.checked && c in w.jobOf ==> w.jobOf[c] in w.jobs && Over(w.jobs[w.jobOf[c]]))
    && (forall j :: j in w.jobs ==> j in w.argsOf && ResultOk(w.jobs[j], w.argsOf[j]))
  }

  lemma StepKeepsResult(w: World, step: Step, j: Id)
    requires j in w.jobs && j in w.argsOf && ResultOk(w.jobs[j], w.argsOf[j])
    ensures var w' := Apply(w, step);
            && j in w'.jobs && j in w'.argsOf && ResultOk(w'.jobs[j], w'.argsOf[j])
            && (Over(w.jobs[j]) ==> Over(w'.jobs[j]))
  {
  }

  lemma StepKeepsInv(w: World, step: Step)
    requires Inv(w)
    ensures Inv(Apply(w, step))
  {
    var w' := Apply(w, step);
    forall j | j in w'.jobs ensures j in w'.argsOf && ResultOk(w'.jobs[j], w'.argsOf[j]) {
      if j in w.jobs {
        StepKeepsResult(w, step, j);
      }
    }
    forall c | c in w'.checked && c in w'.jobOf ensures w'.jobOf[c] in w'.jobs && Over(w'.jobs[w'.jobOf[c]]) {
      StepKeepsChecked(w, step, c);
    }
    forall c | c in w'.jobOf ensures w'.jobOf[c] in w'.jobs {
      if c in w.jobOf {
        StepKeepsResult(w, step, w.jobOf[c]);
      }
    }
  }

  /** A compose found in a final state has a job that is over, and stays so. */
  lemma StepKeepsChecked(w: World, step: Step, c: Id)
    requires Inv(w) && c in Apply(w, step).checked
    ensures var w' := Apply(w, step); c in w'.jobOf && w'.jobOf[c] in w'.jobs && Over(w'.jobs[w'.jobOf[c]])
  {
    assert c in w.jobOf;
    StepKeepsResult(w, step, w.jobOf[c]);
  }

  lemma {:induction false} RunInv(steps: seq<Step>)
    ensures Inv(Exec(steps))
  {
    if steps != [] {
      RunInv(steps[..|steps| - 1]);
      StepKeepsInv(Exec(steps[..|steps| - 1]), steps[|steps| - 1]);
    }
  }

  /** A stored compose whose state is final can be checked and deleted; no other can be deleted anew. */
  lemma CheckThenDelete(w: World, c: Id)
    requires c in w.stored && c in w.jobOf && w.jobOf[c] in w.jobs
    ensures var w' := Apply(Apply(w, Check(c)), Delete(c));
            && (JobState(w.jobs[w.jobOf[c]]) == ComposeFinished || JobState(w.jobs[w.jobOf[c]]) == ComposeFailed ==>
                  c in w'.deleted && w'.stored == w.stored - {c})
            && (JobState(w.jobs[w.jobOf[c]]) == ComposeWaiting || JobState(w.jobs[w.jobOf[c]]) == ComposeRunning ==>
                  c in w.checked || w' == w)
  {
  }

  /** In every interleaving a deleted compose's job has finished or was canceled. */
  lemma OnlyOverIsDeleted(steps: seq<Step>, c: Id)
    requires c in Exec(steps).deleted
    ensures c in Exec(steps).jobOf && Exec(steps).jobOf[c] in Exec(steps).jobs
    ensures Over(Exec(steps).jobs[Exec(steps).jobOf[c]])
  {
    RunInv(steps);
  }

  /** It had already finished or been canceled when it was removed. */
  lemma OverWhenDeleted(steps: seq<Step>, c: Id)
    requires c !in Exec(steps).deleted && c in Apply(Exec(steps), Delete(c)).deleted
    ensures c in Exec(steps).jobOf && Exec(steps).jobOf[c] in Exec(steps).jobs
    ensures Over(Exec(steps).jobs[Exec(steps).jobOf[c]])
  {
    RunInv(steps);
  }

  /** Step `k` of the run is the report that the stored result of job `j` comes from. */
  predicate ReportedAt(steps: seq<Step>, j: Id, k: int) {
    var w := Exec(steps);
    && 0 <= k < |steps| && steps[k].Update? && steps[k].job == j
    && j in w.jobs && j in w.argsOf && w.jobs[j].result == Some(Some(Reported(w.argsOf[j], steps[k].env)))
  }

  lemma StepReports(w: World, step: Step, j: Id)
    requires j in w.jobs && j in w.argsOf && !w.jobs[j].finished
    requires Apply(w, step).jobs[j].finished && Apply(w, step).jobs[j].result.Some? && Apply(w, step).jobs[j].result.value.Some?
    ensures step.Update? && step.job == j && Apply(w, step).argsOf[j] == w.argsOf[j]
    ensures Apply(w, step).jobs[j].result == Some(Some(Reported(w.argsOf[j], step.env)))
  {
  }

  lemma StepKeepsFinished(w: World, step: Step, j: Id)
    requires j in w.jobs && j in w.argsOf && w.jobs[j].finished
    requires w.jobs[j].started && !w.jobs[j].canceled
    ensures j in Apply(w, step).jobs && Apply(w, step).jobs[j] == w.jobs[j]
    ensures j in Apply(w, step).argsOf && Apply(w, step).argsOf[j] == w.argsOf[j]
  {
  }

  lemma StepAddsUnfinished(w: World, step: Step, j: Id)
    requires j !in w.jobs && j in Apply(w, step).jobs
    ensures !Apply(w, step).jobs[j].finished
  {
  }

  /** Every stored result that is not null was reported by a step of the run. */
  lemma {:induction false} ResultOrigin(steps: seq<Step>, j: Id) returns (k: int)
    requires var w := Exec(steps); j in w.jobs && w.jobs[j].finished && w.jobs[j].result.Some? && w.jobs[j].result.value.Some?
    ensures ReportedAt(steps, j, k)
  {
    var init, last := steps[..|steps| - 1], steps[|steps| - 1];
    var w := Exec(init);
    RunInv(init);
    if j !in w.jobs {
      StepAddsUnfinished(w, last, j);
      assert false;
    } else {
      assert j in w.argsOf && ResultOk(w.jobs[j], w.argsOf[j]);
      if w.jobs[j].finished {
        StepKeepsFinished(w, last, j);
        k := ResultOrigin(init, j);
      } else {
        StepReports(w, last, j);
        k := |steps| - 1;
      }
    }
  }

  /**
   A compose shown as finished comes from an `Update` of its own job in the run. What the
   environment did before that report: the osbuild build succeeded, no target failed, and
   the artifact was accepted, when it has a name, exactly if the worker reported success itself.
   */
  lemma FinishedMeans(steps: seq<Step>, j: Id)
    requires j in Exec(steps).jobs && JobState(Exec(steps).jobs[j]) == ComposeFinished
    ensures j in Exec(steps).argsOf && exists k ::
              ReportedAt(steps, j, k) &&
              var args, env := Exec(steps).argsOf[j], steps[k].env;
              && Built(args, env) && Reported(args, env).targetErrors == []
              && (ArtifactDone(args, env) <==> Reported(args, env).success)
  {
    var k := ResultOrigin(steps, j);
    ShownExactly(Exec(steps).argsOf[j], steps[k].env);
    ReportedSuccess(Exec(steps).argsOf[j], steps[k].env);
  }
}
