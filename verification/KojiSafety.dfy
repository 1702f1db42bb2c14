/** Safety of the Koji compose protocol over every run. */
module KojiSafety {
  import opened Wrappers
  import opened JobQueue
  import opened Koji

  // ----- the inductive invariant -----

  ghost predicate Inv(c: Compose, s: State) {
    && s.next <= c.Finalize() + 1
    && (forall id: Id :: id in s.jobs <==> id < s.next)
    && (forall id :: id in s.dyn || id in s.local ==> id in s.jobs)
    && (forall id {:trigger HasArgs(c, s, id)} :: id in s.jobs ==> HasArgs(c, s, id))
    && (forall id {:trigger JobInv(c, s, id)} :: id in s.jobs ==> JobInv(c, s, id))
    && (forall k {:trigger EventInv(c, s, k)} :: 0 <= k < |s.log| ==> EventInv(c, s, k))
  }

  /** The job carries the arguments it was posted with. */
  ghost predicate HasArgs(c: Compose, s: State, id: Id) {
    id in s.args && s.args[id] == c.ArgsOf(id)
  }

  ghost predicate JobInv(c: Compose, s: State, id: Id)
    requires id in s.jobs
  {
    var job := s.jobs[id];
    && job.deps == c.Deps(id)
    && (job.started <==> id in s.dyn)
    && (job.started ==> DepsFinished(s.jobs, c.Deps(id)) && s.dyn[id] == Results(s.jobs, c.Deps(id)))
    && (job.finished ==> job.started && !job.canceled && job.result.Some?)
    && (job.finished ==> job.result == Some(Null) || (id in s.local && job.result == Some(s.local[id])))
    && (id in s.local ==> job.started && LocalInv(c, s, id))
  }

  /** What a worker's computed result says about the inputs and about Koji. */
  ghost predicate LocalInv(c: Compose, s: State, id: Id)
    requires id in s.local && id in s.dyn
  {
    var dyn, r := s.dyn[id], s.local[id];
    && (id == 0 ==> r.InitJson? && (r.init.kojiError == "" ==> Begun(r.init.buildID, r.init.token) in s.log))
    && (c.IsBuild(id) ==>
          && r.BuildJson? && |dyn| == 1
          && (r.build.output.None? <==> AsInit(dyn[0]).kojiError != "")
          && (Good(r.build) ==> Upload(id - 1, c.directory, c.filenames[id - 1], r.build.imageHash, r.build.imageSize) in s.log))
    && (id == c.Finalize() ==>
          && r.FinalizeJson? && |dyn| == c.N() + 1
          && HasFailedDependency(AsInit(dyn[0]), DynBuilds(dyn)) != Panics
          && (HasFailedDependency(AsInit(dyn[0]), DynBuilds(dyn)) == Clean ==>
                Import(Images(c.filenames, DynBuilds(dyn)), c.directory, AsInit(dyn[0]).token, r.finalize.kojiError) in s.log))
  }

  ghost predicate EventInv(c: Compose, s: State, k: int)
    requires 0 <= k < |s.log|
  {
    match s.log[k]
    case Upload(i, directory, filename, hash, size) =>
      && i < c.N() && directory == c.directory && filename == c.filenames[i]
      && i + 1 in s.local && s.local[i + 1] == BuildJson(BuildResult(Some(true), hash, size, ""))
    case Begun(_, _) => true
    case Import(images, directory, token, error) =>
      && c.Finalize() in s.dyn && |s.dyn[c.Finalize()]| == c.N() + 1
      && c.Finalize() in s.local && s.local[c.Finalize()] == FinalizeJson(FinalizeResult(error))
      && HasFailedDependency(AsInit(s.dyn[c.Finalize()][0]), DynBuilds(s.dyn[c.Finalize()])) == Clean
      && images == Images(c.filenames, DynBuilds(s.dyn[c.Finalize()]))
      && directory == c.directory && token == AsInit(s.dyn[c.Finalize()][0]).token
      && (s.dyn[c.Finalize()][0].InitJson? ==> Begun(AsInit(s.dyn[c.Finalize()][0]).buildID, token) in s.log[..k])
      && (forall i :: 0 <= i < c.N() ==> Uploads(c, i, images[i]) in s.log[..k])
      && (forall j :: 0 <= j < k ==> !s.log[j].Import? && !s.log[j].FailBuild?)
    case FailBuild(token, error) =>
      && c.Finalize() in s.dyn && |s.dyn[c.Finalize()]| == c.N() + 1
      && c.Finalize() in s.local && s.local[c.Finalize()] == FinalizeJson(FinalizeResult(error))
      && HasFailedDependency(AsInit(s.dyn[c.Finalize()][0]), DynBuilds(s.dyn[c.Finalize()])) == Failed
      && token == AsInit(s.dyn[c.Finalize()][0]).token
      && (forall j :: 0 <= j < k ==> !s.log[j].Import? && !s.log[j].FailBuild?)
    case Panic =>
      && c.Finalize() in s.dyn && |s.dyn[c.Finalize()]| == c.N() + 1
      && HasFailedDependency(AsInit(s.dyn[c.Finalize()][0]), DynBuilds(s.dyn[c.Finalize()])) == Panics
  }

  /** The upload that produced image `i` of an import. */
  function Uploads(c: Compose, i: nat, image: Image): Event
    requires i < c.N()
  {
    Upload(i, c.directory, c.filenames[i], image.hash, image.size)
  }

  // ----- every step keeps it -----

  /** Results handed to a started job never change. */
  lemma SameResults(c: Compose, jobs: Jobs<Raw>, jobs': Jobs<Raw>, id: Id)
    requires forall d :: Done(jobs, d) ==> d in jobs' && jobs'[d] == jobs[d]
    ensures DepsFinished(jobs, c.Deps(id)) ==>
              DepsFinished(jobs', c.Deps(id)) && Results(jobs', c.Deps(id)) == Results(jobs, c.Deps(id))
  {
    var deps := c.Deps(id);
    if DepsFinished(jobs, deps) {
      forall d | d in deps ensures Done(jobs', d) && jobs'[d] == jobs[d] {
        assert Done(jobs, d);
      }
      var r, r' := Results(jobs, deps), Results(jobs', deps);
      forall k | 0 <= k < |deps| ensures r[k] == r'[k] {
        assert deps[k] in deps;
      }
    }
  }

  /** A job that does not change keeps its facts while others advance. */
  lemma FrameJob(c: Compose, s: State, next: nat, jobs': Jobs<Raw>, args': map<Id, Args>, x: Id)
    requires x in s.jobs && JobInv(c, s, x) && x in jobs' && jobs'[x] == s.jobs[x]
    requires forall d :: Done(s.jobs, d) ==> d in jobs' && jobs'[d] == s.jobs[d]
    ensures JobInv(c, s.(next := next, jobs := jobs', args := args'), x)
  {
    SameResults(c, s.jobs, jobs', x);
    if x in s.local {
      assert LocalInv(c, s.(next := next, jobs := jobs', args := args'), x);
    }
  }

  lemma FrameEvents(c: Compose, s: State, next: nat, jobs': Jobs<Raw>, args': map<Id, Args>)
    requires forall k :: 0 <= k < |s.log| ==> EventInv(c, s, k)
    ensures forall k :: 0 <= k < |s.log| ==> EventInv(c, s.(next := next, jobs := jobs', args := args'), k)
  {
    forall k | 0 <= k < |s.log| ensures EventInv(c, s.(next := next, jobs := jobs', args := args'), k) {
      assert EventInv(c, s, k);
    }
  }

  lemma EnqueueKeepsInv(c: Compose, s: State)
    requires Inv(c, s)
    ensures Inv(c, Apply(c, s, Enqueue))
  {
    var s' := Apply(c, s, Enqueue);
    if s' != s {
      assert s' == s.(next := s.next + 1, jobs := s'.jobs, args := s'.args);
      forall id | id in s'.jobs ensures JobInv(c, s', id) && HasArgs(c, s', id) {
        if id < s.next {
          assert HasArgs(c, s, id);
          FrameJob(c, s, s.next + 1, s'.jobs, s'.args, id);
        }
      }
      FrameEvents(c, s, s.next + 1, s'.jobs, s'.args);
    }
  }

  /** The job a queue operation changes: started as before, possibly canceled or finished. */
  lemma ChangedJob(c: Compose, s: State, jobs': Jobs<Raw>, id: Id)
    requires id in s.jobs && JobInv(c, s, id) && id in jobs'
    requires Advances(s.jobs[id], jobs'[id]) && jobs'[id].started == s.jobs[id].started
    requires forall d :: Done(s.jobs, d) ==> d in jobs' && jobs'[d] == s.jobs[d]
    requires jobs'[id].finished ==> jobs'[id].started && !jobs'[id].canceled
    requires jobs'[id].finished ==> jobs'[id].result == Some(Null) || (id in s.local && jobs'[id].result == Some(s.local[id]))
    ensures JobInv(c, s.(jobs := jobs'), id)
  {
    SameResults(c, s.jobs, jobs', id);
    if id in s.local {
      assert LocalInv(c, s.(jobs := jobs'), id);
    }
  }

  lemma QueueStepKeepsInv(c: Compose, s: State, jobs': Jobs<Raw>, id: Id)
    requires Inv(c, s) && id in s.jobs
    requires id in jobs' && jobs' == s.jobs[id := jobs'[id]] && Advances(s.jobs[id], jobs'[id])
    requires jobs'[id].started == s.jobs[id].started
    requires jobs'[id].finished ==> jobs'[id].started && !jobs'[id].canceled
    requires jobs'[id].finished ==> jobs'[id].result == Some(Null) || (id in s.local && jobs'[id].result == Some(s.local[id]))
    ensures Inv(c, s.(jobs := jobs'))
  {
    assert s.(jobs := jobs') == s.(next := s.next, jobs := jobs', args := s.args);
    forall x | x in jobs' ensures JobInv(c, s.(jobs := jobs'), x) && HasArgs(c, s.(jobs := jobs'), x) {
      assert HasArgs(c, s, x);
      if x == id {
        ChangedJob(c, s, jobs', id);
      } else {
        FrameJob(c, s, s.next, jobs', s.args, x);
      }
    }
    FrameEvents(c, s, s.next, jobs', s.args);
  }

  /** Handing out a ready job keeps the facts of every job, the new one included. */
  lemma DequeueKeepsJob(c: Compose, s: State, id: Id, x: Id)
    requires Ready(s.jobs, id) && JobInv(c, s, id) && x in s.jobs && JobInv(c, s, x)
    ensures JobInv(c, Apply(c, s, Dequeue(id)), x)
  {
    var s' := Apply(c, s, Dequeue(id));
    SameResults(c, s.jobs, s'.jobs, x);
    if x in s.local {
      assert LocalInv(c, s', x);
    }
  }

  lemma DequeueKeepsEvent(c: Compose, s: State, id: Id, k: int)
    requires Ready(s.jobs, id) && id !in s.dyn && 0 <= k < |s.log| && EventInv(c, s, k)
    ensures EventInv(c, Apply(c, s, Dequeue(id)), k)
  {
  }

  lemma DequeueKeepsInv(c: Compose, s: State, id: Id)
    requires Inv(c, s)
    ensures Inv(c, Apply(c, s, Dequeue(id)))
  {
    if Ready(s.jobs, id) {
      var s' := Apply(c, s, Dequeue(id));
      assert JobInv(c, s, id);
      forall x | x in s'.jobs ensures JobInv(c, s', x) && HasArgs(c, s', x) {
        assert HasArgs(c, s, x);
        DequeueKeepsJob(c, s, id, x);
      }
      forall k | 0 <= k < |s.log| ensures EventInv(c, s', k) {
        DequeueKeepsEvent(c, s, id, k);
      }
    }
  }

  function Work(s: State, id: Id, result: Raw, events: seq<Event>): State {
    s.(local := s.local[id := result], log := s.log + events)
  }

  lemma WorkKeepsJob(c: Compose, s: State, id: Id, result: Raw, events: seq<Event>, x: Id)
    requires x in s.jobs && JobInv(c, s, x)
    requires id in s.dyn && id !in s.local
    requires LocalInv(c, Work(s, id, result, events), id)
    ensures JobInv(c, Work(s, id, result, events), x)
  {
    if x in s.local {
      assert LocalInv(c, Work(s, id, result, events), x);
    }
  }

  lemma WorkKeepsEvent(c: Compose, s: State, id: Id, result: Raw, events: seq<Event>, k: int)
    requires 0 <= k < |s.log| && EventInv(c, s, k) && id !in s.local
    ensures EventInv(c, Work(s, id, result, events), k)
  {
    assert (s.log + events)[..k] == s.log[..k];
  }

  /** A worker records a result and possibly one event about a job it was running. */
  lemma WorkKeepsInv(c: Compose, s: State, id: Id, result: Raw, events: seq<Event>)
    requires Inv(c, s) && id in s.dyn && id !in s.local
    requires |events| <= 1
    requires LocalInv(c, Work(s, id, result, events), id)
    requires events != [] ==> EventInv(c, Work(s, id, result, events), |s.log|)
    ensures Inv(c, Work(s, id, result, events))
  {
    var s' := Work(s, id, result, events);
    forall x | x in s'.jobs ensures JobInv(c, s', x) && HasArgs(c, s', x) {
      assert HasArgs(c, s, x);
      WorkKeepsJob(c, s, id, result, events, x);
    }
    forall k | 0 <= k < |s'.log| ensures EventInv(c, s', k) {
      if k < |s.log| {
        WorkKeepsEvent(c, s, id, result, events, k);
      } else {
        assert k == |s.log| && events != [];
      }
    }
  }

  /** What one build job computes agrees with its input, its arguments and with what Koji sees of it. */
  lemma BuildRecord(c: Compose, s: State, i: nat, call: BuildCall)
    requires i < c.N() && i + 1 in s.dyn && |s.dyn[i + 1]| == 1 && !(call.UploadFailed? && call.text == "")
    ensures var r := RunBuild(AsInit(s.dyn[i + 1][0]), call);
            var events := BuildEvents(i, c.ArgsOf(i + 1), AsInit(s.dyn[i + 1][0]), call);
            var s' := Work(s, i + 1, BuildJson(r), events);
            LocalInv(c, s', i + 1) && (events != [] ==> EventInv(c, s', |s.log|))
  {
    if call.Uploaded? {
      var u := Upload(i, c.directory, c.filenames[i], call.hash, call.size);
      assert (s.log + [u])[|s.log|] == u;
    }
  }

  lemma WorkBuildState(c: Compose, s: State, i: nat, call: BuildCall)
    requires Apply(c, s, WorkBuild(i, call)) != s
    ensures i + 1 in s.args && s.args[i + 1].BuildArgs? && i + 1 in s.dyn && i + 1 !in s.local && s.dyn[i + 1] != []
    ensures !(call.UploadFailed? && call.text == "")
    ensures var r := RunBuild(AsInit(s.dyn[i + 1][0]), call);
            Apply(c, s, WorkBuild(i, call)) == Work(s, i + 1, BuildJson(r), BuildEvents(i, s.args[i + 1], AsInit(s.dyn[i + 1][0]), call))
  {
  }

  lemma WorkBuildKeepsInv(c: Compose, s: State, i: nat, call: BuildCall)
    requires Inv(c, s)
    ensures Inv(c, Apply(c, s, WorkBuild(i, call)))
  {
    if Apply(c, s, WorkBuild(i, call)) != s {
      WorkBuildState(c, s, i, call);
      OneDependency(c, s, i);
      BuildKeepsInv(c, s, i, call);
    }
  }

  lemma BuildKeepsInv(c: Compose, s: State, i: nat, call: BuildCall)
    requires Inv(c, s) && i < c.N() && i + 1 in s.dyn && i + 1 !in s.local && |s.dyn[i + 1]| == 1
    requires !(call.UploadFailed? && call.text == "")
    ensures var r := RunBuild(AsInit(s.dyn[i + 1][0]), call);
            Inv(c, Work(s, i + 1, BuildJson(r), BuildEvents(i, c.ArgsOf(i + 1), AsInit(s.dyn[i + 1][0]), call)))
  {
    BuildRecord(c, s, i, call);
    var r := RunBuild(AsInit(s.dyn[i + 1][0]), call);
    var events := BuildEvents(i, c.ArgsOf(i + 1), AsInit(s.dyn[i + 1][0]), call);
    RecordKeepsInv(c, s, i + 1, BuildJson(r), events, Work(s, i + 1, BuildJson(r), events));
  }

  lemma RecordKeepsInv(c: Compose, s: State, id: Id, result: Raw, events: seq<Event>, s': State)
    requires Inv(c, s) && id in s.dyn && id !in s.local && |events| <= 1 && s' == Work(s, id, result, events)
    requires LocalInv(c, s', id) && (events != [] ==> EventInv(c, s', |s.log|))
    ensures Inv(c, s')
  {
    WorkKeepsInv(c, s, id, result, events);
  }

  /** A job with a build's arguments is the build it was posted as, and depends on init. */
  lemma OneDependency(c: Compose, s: State, i: nat)
    requires Inv(c, s) && i + 1 in s.dyn && i + 1 in s.args && s.args[i + 1].BuildArgs?
    ensures i < c.N() && |s.dyn[i + 1]| == 1 && s.args[i + 1] == c.ArgsOf(i + 1)
  {
    assert JobInv(c, s, i + 1) && HasArgs(c, s, i + 1);
  }

  /** When finalize finds all dependencies clean, every build has uploaded its image. */
  lemma CleanMeansUploaded(c: Compose, s: State, i: nat)
    requires Inv(c, s) && c.Finalize() in s.dyn && i < c.N()
    requires |s.dyn[c.Finalize()]| == c.N() + 1
    requires HasFailedDependency(AsInit(s.dyn[c.Finalize()][0]), DynBuilds(s.dyn[c.Finalize()])) == Clean
    ensures Uploads(c, i, Images(c.filenames, DynBuilds(s.dyn[c.Finalize()]))[i]) in s.log
  {
    var f := c.Finalize();
    var builds := DynBuilds(s.dyn[f]);
    assert JobInv(c, s, f);
    CheckBuildsMeaning(builds);
    assert Good(builds[i]);
    var b := c.Deps(f)[i + 1];
    assert b == i + 1 && Done(s.jobs, b);
    assert JobInv(c, s, b);
    assert builds[i] == AsBuild(s.dyn[f][i + 1]) == AsBuild(Reported(s.jobs[b]));
    assert b in s.local && s.jobs[b].result == Some(s.local[b]);
  }

  /** A token that init reported was handed out by Koji. */
  lemma CleanMeansBegun(c: Compose, s: State)
    requires Inv(c, s) && c.Finalize() in s.dyn && |s.dyn[c.Finalize()]| == c.N() + 1
    requires AsInit(s.dyn[c.Finalize()][0]).kojiError == ""
    ensures s.dyn[c.Finalize()][0].InitJson? ==>
              Begun(AsInit(s.dyn[c.Finalize()][0]).buildID, AsInit(s.dyn[c.Finalize()][0]).token) in s.log
  {
    var f := c.Finalize();
    assert JobInv(c, s, f);
    assert c.Deps(f)[0] == 0 && Done(s.jobs, 0);
    assert JobInv(c, s, 0);
    assert s.dyn[f][0] == Reported(s.jobs[0]);
  }

  /** What Koji sees of the init job: a build begun when it succeeds. */
  function InitEvents(call: Call<InitCall>): seq<Event> {
    if call.Ok? then [Begun(call.value.buildID, call.value.token)] else []
  }

  lemma InitRecord(c: Compose, s: State, call: Call<InitCall>)
    requires 0 in s.dyn && call != Err("")
    ensures var s' := Work(s, 0, InitJson(RunInit(call)), InitEvents(call));
            LocalInv(c, s', 0) && (InitEvents(call) != [] ==> EventInv(c, s', |s.log|))
  {
    var s' := Work(s, 0, InitJson(RunInit(call)), InitEvents(call));
    assert call.Ok? ==> s'.log[|s.log|] == Begun(call.value.buildID, call.value.token);
  }

  lemma WorkInitState(c: Compose, s: State, call: Call<InitCall>)
    requires Apply(c, s, WorkInit(call)) != s
    ensures 0 in s.dyn && 0 !in s.local && call != Err("")
    ensures Apply(c, s, WorkInit(call)) == Work(s, 0, InitJson(RunInit(call)), InitEvents(call))
  {
  }

  lemma WorkInitKeepsInv(c: Compose, s: State, call: Call<InitCall>)
    requires Inv(c, s)
    ensures Inv(c, Apply(c, s, WorkInit(call)))
  {
    if Apply(c, s, WorkInit(call)) != s {
      WorkInitState(c, s, call);
      InitRecord(c, s, call);
      WorkKeepsInv(c, s, 0, InitJson(RunInit(call)), InitEvents(call));
    }
  }

  lemma WorkFinalizeKeepsInv(c: Compose, s: State, error: string)
    requires Inv(c, s)
    ensures Inv(c, Apply(c, s, WorkFinalize(error)))
  {
    var f := c.Finalize();
    if Apply(c, s, WorkFinalize(error)) != s {
      assert JobInv(c, s, f) && HasArgs(c, s, f);
      if HasFailedDependency(AsInit(s.dyn[f][0]), DynBuilds(s.dyn[f])) == Panics {
        PanicKeepsInv(c, s);
      } else {
        VerdictKeepsInv(c, s, error);
      }
    }
  }

  lemma PanicKeepsJob(c: Compose, s: State, x: Id)
    requires x in s.jobs && JobInv(c, s, x)
    ensures JobInv(c, s.(log := s.log + [Panic]), x)
  {
    if x in s.local {
      assert LocalInv(c, s.(log := s.log + [Panic]), x);
    }
  }

  lemma PanicKeepsEvent(c: Compose, s: State, k: int)
    requires 0 <= k < |s.log| && EventInv(c, s, k)
    ensures EventInv(c, s.(log := s.log + [Panic]), k)
  {
    assert (s.log + [Panic])[..k] == s.log[..k];
  }

  lemma PanicKeepsInv(c: Compose, s: State)
    requires Inv(c, s) && c.Finalize() in s.dyn && |s.dyn[c.Finalize()]| == c.N() + 1
    requires HasFailedDependency(AsInit(s.dyn[c.Finalize()][0]), DynBuilds(s.dyn[c.Finalize()])) == Panics
    ensures Inv(c, s.(log := s.log + [Panic]))
  {
    var s' := s.(log := s.log + [Panic]);
    forall x | x in s'.jobs ensures JobInv(c, s', x) && HasArgs(c, s', x) {
      assert HasArgs(c, s, x);
      PanicKeepsJob(c, s, x);
    }
    forall k | 0 <= k < |s'.log| ensures EventInv(c, s', k) {
      if k < |s.log| {
        PanicKeepsEvent(c, s, k);
      } else {
        assert s'.log[k] == Panic;
      }
    }
  }

  /** Before finalize has acted, Koji has seen neither an import nor a failure. */
  lemma NotActedYet(c: Compose, s: State, j: int)
    requires Inv(c, s) && c.Finalize() !in s.local && 0 <= j < |s.log|
    ensures !s.log[j].Import? && !s.log[j].FailBuild?
  {
    assert EventInv(c, s, j);
  }

  /** Everything an import claims is in the log when finalize finds its dependencies clean. */
  lemma CleanEvidence(c: Compose, s: State)
    requires Inv(c, s) && c.Finalize() in s.dyn && |s.dyn[c.Finalize()]| == c.N() + 1
    requires HasFailedDependency(AsInit(s.dyn[c.Finalize()][0]), DynBuilds(s.dyn[c.Finalize()])) == Clean
    ensures var dyn := s.dyn[c.Finalize()];
            && (dyn[0].InitJson? ==> Begun(AsInit(dyn[0]).buildID, AsInit(dyn[0]).token) in s.log)
            && forall i :: 0 <= i < c.N() ==> Uploads(c, i, Images(c.filenames, DynBuilds(dyn))[i]) in s.log
  {
    CleanMeansBegun(c, s);
    forall i | 0 <= i < c.N() ensures Uploads(c, i, Images(c.filenames, DynBuilds(s.dyn[c.Finalize()]))[i]) in s.log {
      CleanMeansUploaded(c, s, i);
    }
  }

  lemma VerdictEvent(c: Compose, s: State, error: string, s': State)
    requires Inv(c, s) && c.Finalize() in s.dyn && c.Finalize() !in s.local && |s.dyn[c.Finalize()]| == c.N() + 1
    requires HasFailedDependency(AsInit(s.dyn[c.Finalize()][0]), DynBuilds(s.dyn[c.Finalize()])) != Panics
    requires s' == Work(s, c.Finalize(), FinalizeJson(FinalizeResult(error)), [Seen(FinalizeCall(c.directory, c.filenames, s.dyn[c.Finalize()]), error)])
    ensures EventInv(c, s', |s.log|)
  {
    var dyn := s.dyn[c.Finalize()];
    forall j | 0 <= j < |s.log| ensures !s.log[j].Import? && !s.log[j].FailBuild? {
      NotActedYet(c, s, j);
    }
    if HasFailedDependency(AsInit(dyn[0]), DynBuilds(dyn)) == Clean {
      CleanEvidence(c, s);
    }
    VerdictIsFirst(c, s, error, s');
  }

  /** The event is in order when finalize has not acted before and what it claims is in the log. */
  lemma VerdictIsFirst(c: Compose, s: State, error: string, s': State)
    requires c.Finalize() in s.dyn && |s.dyn[c.Finalize()]| == c.N() + 1
    requires HasFailedDependency(AsInit(s.dyn[c.Finalize()][0]), DynBuilds(s.dyn[c.Finalize()])) != Panics
    requires s' == Work(s, c.Finalize(), FinalizeJson(FinalizeResult(error)), [Seen(FinalizeCall(c.directory, c.filenames, s.dyn[c.Finalize()]), error)])
    requires forall j :: 0 <= j < |s.log| ==> !s.log[j].Import? && !s.log[j].FailBuild?
    requires HasFailedDependency(AsInit(s.dyn[c.Finalize()][0]), DynBuilds(s.dyn[c.Finalize()])) == Clean ==>
               var dyn := s.dyn[c.Finalize()];
               && (dyn[0].InitJson? ==> Begun(AsInit(dyn[0]).buildID, AsInit(dyn[0]).token) in s.log)
               && forall i :: 0 <= i < c.N() ==> Uploads(c, i, Images(c.filenames, DynBuilds(dyn))[i]) in s.log
    ensures EventInv(c, s', |s.log|)
  {
    assert s'.log[..|s.log|] == s.log;
  }

  lemma VerdictLocal(c: Compose, s: State, error: string, s': State)
    requires c.Finalize() in s.dyn && |s.dyn[c.Finalize()]| == c.N() + 1
    requires HasFailedDependency(AsInit(s.dyn[c.Finalize()][0]), DynBuilds(s.dyn[c.Finalize()])) != Panics
    requires s' == Work(s, c.Finalize(), FinalizeJson(FinalizeResult(error)), [Seen(FinalizeCall(c.directory, c.filenames, s.dyn[c.Finalize()]), error)])
    ensures LocalInv(c, s', c.Finalize())
  {
    assert s'.log[|s.log|] in s'.log;
  }

  lemma VerdictKeepsInv(c: Compose, s: State, error: string)
    requires Inv(c, s) && c.Finalize() in s.dyn && c.Finalize() !in s.local && |s.dyn[c.Finalize()]| == c.N() + 1
    requires HasFailedDependency(AsInit(s.dyn[c.Finalize()][0]), DynBuilds(s.dyn[c.Finalize()])) != Panics
    ensures Inv(c, Work(s, c.Finalize(), FinalizeJson(FinalizeResult(error)), [Seen(FinalizeCall(c.directory, c.filenames, s.dyn[c.Finalize()]), error)]))
  {
    var result, event := FinalizeJson(FinalizeResult(error)), Seen(FinalizeCall(c.directory, c.filenames, s.dyn[c.Finalize()]), error);
    var s' := Work(s, c.Finalize(), result, [event]);
    VerdictLocal(c, s, error, s');
    VerdictEvent(c, s, error, s');
    WorkKeepsInv(c, s, c.Finalize(), result, [event]);
  }

  lemma StepKeepsInv(c: Compose, s: State, step: Step)
    requires Inv(c, s)
    ensures Inv(c, Apply(c, s, step))
  {
    match step
    case Enqueue =>
      EnqueueKeepsInv(c, s);
    case Dequeue(id) =>
      DequeueKeepsInv(c, s, id);
    case WorkInit(call) =>
      WorkInitKeepsInv(c, s, call);
    case WorkBuild(i, call) =>
      WorkBuildKeepsInv(c, s, i, call);
    case WorkFinalize(error) =>
      WorkFinalizeKeepsInv(c, s, error);
    case Update(id) =>
      if Apply(c, s, step) != s {
        assert JobInv(c, s, id);
        QueueStepKeepsInv(c, s, Apply(c, s, step).jobs, id);
      }
    case CancelJob(id) =>
      if Apply(c, s, step) != s {
        assert JobInv(c, s, id);
        QueueStepKeepsInv(c, s, Apply(c, s, step).jobs, id);
      }
    case Expire(id) =>
      if Apply(c, s, step) != s {
        assert JobInv(c, s, id);
        QueueStepKeepsInv(c, s, Apply(c, s, step).jobs, id);
      }
  }

  lemma {:induction false} RunInv(c: Compose, steps: seq<Step>)
    ensures Inv(c, Exec(c, steps))
  {
    if steps == [] {
      assert Exec(c, steps) == EMPTY;
    } else {
      RunInv(c, steps[..|steps| - 1]);
      StepKeepsInv(c, Exec(c, steps[..|steps| - 1]), steps[|steps| - 1]);
    }
  }

  // ----- what the invariant means for every run -----

  /** Finalize sees exactly the results the HTTP side sees. */
  lemma FinalizeInputs(c: Compose, s: State)
    requires Inv(c, s) && c.Finalize() in s.jobs && s.jobs[c.Finalize()].started
    ensures c.Finalize() in s.dyn && |s.dyn[c.Finalize()]| == c.N() + 1
    ensures AsInit(s.dyn[c.Finalize()][0]) == InitOf(s)
    ensures DynBuilds(s.dyn[c.Finalize()]) == BuildsOf(c, s)
    ensures forall id :: 0 <= id <= c.N() ==> Done(s.jobs, id)
  {
    var f := c.Finalize();
    assert JobInv(c, s, f);
    var deps := c.Deps(f);
    forall id | 0 <= id <= c.N() ensures Done(s.jobs, id) {
      assert deps[id] == id;
    }
    assert deps[0] == 0;
    forall i | 0 <= i < c.N() ensures DynBuilds(s.dyn[f])[i] == BuildOf(s, i) {
      assert deps[i + 1] == i + 1;
    }
  }

  /** Image `i` of the import at `k` was uploaded before by build `i`, whose own arguments name the same file. */
  predicate ProducedBy(s: State, k: int, i: nat)
    requires 0 <= k < |s.log| && s.log[k].Import? && i < |s.log[k].images|
  {
    var image := s.log[k].images[i];
    && i + 1 in s.args && s.args[i + 1] == BuildArgs(s.log[k].directory, image.filename)
    && Upload(i, s.log[k].directory, image.filename, image.hash, image.size) in s.log[..k]
  }

  /**
   Whenever finalize imports, it does so for the directory and the file names in its own
   arguments, and every image it lists was uploaded before by the build job of the same
   position, to the directory and under the name in that job's arguments, which are the same.
   */
  lemma ImportProvenance(c: Compose, steps: seq<Step>, k: int)
    requires 0 <= k < |Exec(c, steps).log| && Exec(c, steps).log[k].Import?
    ensures var s := Exec(c, steps);
            && |s.log[k].images| == c.N()
            && c.Finalize() in s.args && s.args[c.Finalize()] == FinalizeArgs(s.log[k].directory, c.filenames)
            && forall i :: 0 <= i < c.N() ==> s.log[k].images[i].filename == c.filenames[i] && ProducedBy(s, k, i)
  {
    RunInv(c, steps);
    var s := Exec(c, steps);
    EventsHold(c, s, k);
    ArgsHold(c, s, c.Finalize());
    forall i | 0 <= i < c.N() ensures s.log[k].images[i].filename == c.filenames[i] && ProducedBy(s, k, i) {
      BuildIsOlder(c, s, i);
      ArgsHold(c, s, i + 1);
      assert Uploads(c, i, s.log[k].images[i]) in s.log[..k];
    }
  }

  lemma ArgsHold(c: Compose, s: State, id: Id)
    requires Inv(c, s) && id in s.jobs
    ensures id in s.args && s.args[id] == c.ArgsOf(id)
  {
    assert HasArgs(c, s, id);
  }

  lemma BuildIsOlder(c: Compose, s: State, i: nat)
    requires Inv(c, s) && c.Finalize() in s.jobs && i < c.N()
    ensures i + 1 in s.jobs
  {
  }

  /**
   Whenever finalize fails the Koji build, it is the one whose token init reported, init or
   some build had failed, and the answer of Koji is what finalize reports.
   */
  lemma FailsAfterFailure(c: Compose, steps: seq<Step>, k: int)
    requires 0 <= k < |Exec(c, steps).log| && Exec(c, steps).log[k].FailBuild?
    ensures var s := Exec(c, steps);
            && s.log[k].token == InitOf(s).token
            && (InitOf(s).kojiError != "" || exists i :: 0 <= i < c.N() && !LooksClean(BuildOf(s, i)))
            && c.Finalize() in s.local && s.local[c.Finalize()] == FinalizeJson(FinalizeResult(s.log[k].error))
  {
    RunInv(c, steps);
    var s := Exec(c, steps);
    EventsHold(c, s, k);
    assert JobInv(c, s, c.Finalize());
    FinalizeInputs(c, s);
    CheckBuildsMeaning(BuildsOf(c, s));
    if InitOf(s).kojiError == "" {
      var i :| 0 <= i < c.N() && !LooksClean(BuildsOf(c, s)[i]);
      assert !LooksClean(BuildOf(s, i));
    }
  }

  /** Koji is asked to import or to fail the build at most once per compose. */
  lemma FinalizeActsOnce(c: Compose, steps: seq<Step>, j: int, k: int)
    requires 0 <= j < k < |Exec(c, steps).log|
    ensures var log := Exec(c, steps).log;
            !((log[j].Import? || log[j].FailBuild?) && (log[k].Import? || log[k].FailBuild?))
  {
    RunInv(c, steps);
    assert EventInv(c, Exec(c, steps), k);
  }

  /** Build `i` was ended by the watcher, and all builds before it are good. */
  predicate FirstExpired(c: Compose, s: State, i: int) {
    0 <= i < c.N() && Expired(s, i + 1) && forall j :: 0 <= j < i ==> Good(BuildOf(s, j))
  }

  /**
   `hasFailedDependency` dereferences a missing `OSBuildOutput` exactly when init
   looks fine and the first build that is not good was ended by the watcher.
   */
  lemma FinalizePanicsExactly(c: Compose, steps: seq<Step>)
    requires var s := Exec(c, steps); c.Finalize() in s.jobs && s.jobs[c.Finalize()].started
    ensures var s := Exec(c, steps);
            && c.Finalize() in s.dyn && |s.dyn[c.Finalize()]| == c.N() + 1
            && (HasFailedDependency(AsInit(s.dyn[c.Finalize()][0]), DynBuilds(s.dyn[c.Finalize()])) == Panics <==>
                  InitOf(s).kojiError == "" && exists i :: FirstExpired(c, s, i))
  {
    RunInv(c, steps);
    FinalizeInputs(c, Exec(c, steps));
    PanicsByExpiry(c, Exec(c, steps));
  }

  lemma PanicsByExpiry(c: Compose, s: State)
    requires Inv(c, s) && forall id :: 0 <= id <= c.N() ==> Done(s.jobs, id)
    ensures HasFailedDependency(InitOf(s), BuildsOf(c, s)) == Panics <==>
            InitOf(s).kojiError == "" && exists i :: FirstExpired(c, s, i)
  {
    if InitOf(s).kojiError == "" {
      CheckBuildsMeaning(BuildsOf(c, s));
      forall i ensures FirstMissing(BuildsOf(c, s), i) <==> FirstExpired(c, s, i) {
        FirstMissingIsExpired(c, s, i);
      }
    }
  }

  lemma FirstMissingIsExpired(c: Compose, s: State, i: int)
    requires Inv(c, s) && InitOf(s).kojiError == "" && forall id :: 0 <= id <= c.N() ==> Done(s.jobs, id)
    ensures FirstMissing(BuildsOf(c, s), i) <==> FirstExpired(c, s, i)
  {
    if 0 <= i < c.N() {
      assert Done(s.jobs, i + 1);
      BuildOutputMissing(c, s, i);
      assert BuildsOf(c, s)[i] == BuildOf(s, i);
      assert forall j :: 0 <= j < i ==> BuildsOf(c, s)[j] == BuildOf(s, j);
    }
  }

  /** With a working init, only the heartbeat watcher leaves a build without output. */
  lemma BuildOutputMissing(c: Compose, s: State, i: nat)
    requires Inv(c, s) && i < c.N() && Done(s.jobs, i + 1) && InitOf(s).kojiError == ""
    ensures BuildOf(s, i).output.None? <==> Expired(s, i + 1)
  {
    assert JobInv(c, s, i + 1);
    assert c.Deps(i + 1) == [0];
    assert s.dyn[i + 1][0] == Reported(s.jobs[0]);
  }

  /** The HTTP side finds nothing wrong with the dependencies. */
  predicate DepsLookClean(c: Compose, s: State) {
    InitOf(s).kojiError == "" && forall i :: 0 <= i < c.N() ==> LooksClean(BuildOf(s, i))
  }

  /**
   A compose whose finalize job reported is shown as a success exactly when the
   import was called and returned no error. A finalize job ended by the watcher is
   shown as a success whenever the dependencies look clean, imported or not.
   */
  lemma SuccessExactly(c: Compose, steps: seq<Step>)
    requires Done(Exec(c, steps).jobs, c.Finalize())
    ensures var s := Exec(c, steps);
            && (!Expired(s, c.Finalize()) ==> (ComposeStatus(c, s) == Success <==> Imported(s)))
            && (Expired(s, c.Finalize()) ==> (ComposeStatus(c, s) == Success <==> DepsLookClean(c, s)))
  {
    RunInv(c, steps);
    if Expired(Exec(c, steps), c.Finalize()) {
      ExpiredSuccess(c, Exec(c, steps));
    } else {
      ReportedSuccess(c, Exec(c, steps));
    }
  }

  lemma ExpiredSuccess(c: Compose, s: State)
    requires Inv(c, s) && Expired(s, c.Finalize())
    ensures ComposeStatus(c, s) == Success <==> DepsLookClean(c, s)
  {
    assert JobInv(c, s, c.Finalize());
    assert forall i :: 0 <= i < c.N() ==> BuildsOf(c, s)[i] == BuildOf(s, i);
  }

  /** Where nothing is dereferenced, the two sides agree on the dependencies. */
  lemma VerdictsAgree(init: InitResult, builds: seq<BuildResult>)
    requires HasFailedDependency(init, builds) != Panics
    ensures HasFailedDependency(init, builds) == Clean <==>
            init.kojiError == "" && forall i :: 0 <= i < |builds| ==> LooksClean(builds[i])
  {
    CheckBuildsMeaning(builds);
  }

  lemma ReportedSuccess(c: Compose, s: State)
    requires Inv(c, s) && Done(s.jobs, c.Finalize()) && !Expired(s, c.Finalize())
    ensures ComposeStatus(c, s) == Success <==> Imported(s)
  {
    var f := c.Finalize();
    FinalizeRecord(c, s);
    FinalizeInputs(c, s);
    VerdictsAgree(InitOf(s), BuildsOf(c, s));
    var error := AsFinalize(Reported(s.jobs[f])).kojiError;
    StatusByVerdict(c, s);
    if HasFailedDependency(InitOf(s), BuildsOf(c, s)) == Clean && error == "" {
      var event := Import(Images(c.filenames, BuildsOf(c, s)), c.directory, InitOf(s).token, error);
      var k :| 0 <= k < |s.log| && s.log[k] == event;
    }
    if Imported(s) {
      ImportedMeans(c, s);
    }
  }

  /** What a finalize job that reported has done. */
  lemma FinalizeRecord(c: Compose, s: State)
    requires Inv(c, s) && Done(s.jobs, c.Finalize()) && !Expired(s, c.Finalize())
    ensures var f := c.Finalize();
            && s.jobs[f].started && !s.jobs[f].canceled && f in s.dyn && f in s.local && LocalInv(c, s, f)
            && Reported(s.jobs[f]) == s.local[f]
  {
    assert JobInv(c, s, c.Finalize());
  }

  lemma StatusByVerdict(c: Compose, s: State)
    requires Done(s.jobs, c.Finalize()) && !s.jobs[c.Finalize()].canceled
    ensures ComposeStatus(c, s) == Success <==>
            && InitOf(s).kojiError == "" && (forall i :: 0 <= i < c.N() ==> LooksClean(BuildsOf(c, s)[i]))
            && AsFinalize(Reported(s.jobs[c.Finalize()])).kojiError == ""
  {
  }

  lemma ImportedMeans(c: Compose, s: State)
    requires Inv(c, s) && Imported(s)
    ensures var f := c.Finalize();
            && f in s.dyn && |s.dyn[f]| == c.N() + 1 && f in s.local && s.local[f] == FinalizeJson(FinalizeResult(""))
            && HasFailedDependency(AsInit(s.dyn[f][0]), DynBuilds(s.dyn[f])) == Clean
  {
    var k :| 0 <= k < |s.log| && s.log[k].Import? && s.log[k].error == "";
    assert EventInv(c, s, k);
  }

  /** A successful compose has a successful image i exactly when build i was not ended by the watcher. */
  lemma SuccessfulImages(c: Compose, steps: seq<Step>, i: nat)
    requires c.Finalize() in Exec(c, steps).jobs && i < c.N()
    requires ComposeStatus(c, Exec(c, steps)) == Success
    ensures i + 1 in Exec(c, steps).jobs
    ensures ImageStatus(Exec(c, steps), i) == Success <==> !Expired(Exec(c, steps), i + 1)
  {
    RunInv(c, steps);
    SuccessfulImage(c, Exec(c, steps), i);
  }

  lemma SuccessLooksClean(c: Compose, s: State)
    requires c.Finalize() in s.jobs && ComposeStatus(c, s) == Success
    ensures Done(s.jobs, c.Finalize()) && DepsLookClean(c, s)
  {
    forall i | 0 <= i < c.N() ensures LooksClean(BuildOf(s, i)) {
      assert LooksClean(BuildsOf(c, s)[i]);
    }
  }

  lemma SuccessfulImage(c: Compose, s: State, i: nat)
    requires Inv(c, s) && c.Finalize() in s.jobs && i < c.N() && ComposeStatus(c, s) == Success
    ensures i + 1 in s.jobs
    ensures ImageStatus(s, i) == Success <==> !Expired(s, i + 1)
  {
    SuccessLooksClean(c, s);
    assert JobInv(c, s, c.Finalize());
    FinalizeInputs(c, s);
    assert Done(s.jobs, i + 1) && JobInv(c, s, i + 1);
    BuildOutputMissing(c, s, i);
    ImageOfCleanBuild(s, i);
  }

  lemma ImageOfCleanBuild(s: State, i: nat)
    requires Done(s.jobs, i + 1) && s.jobs[i + 1].started && !s.jobs[i + 1].canceled
    requires InitOf(s).kojiError == "" && LooksClean(BuildOf(s, i))
    ensures ImageStatus(s, i) == Success <==> BuildOf(s, i).output.Some?
  {
  }

  // ----- which status is shown when -----

  /** Over every run: pending while finalize is open, a failure once it is over without a success. */
  lemma ComposeStatusMeans(c: Compose, steps: seq<Step>)
    requires c.Finalize() in Exec(c, steps).jobs
    ensures var s := Exec(c, steps);
            var job := s.jobs[c.Finalize()];
            && (ComposeStatus(c, s) == Pending <==> !job.finished && !job.canceled)
            && (ComposeStatus(c, s) == Failure <==> job.canceled || (job.finished && ComposeStatus(c, s) != Success))
            && (ComposeStatus(c, s) == Success ==> job.finished && !job.canceled)
  {
  }

  /** An image of a job that is not canceled, with init's error and the job's own progress and result. */
  lemma ImageStatusMeans(s: State, i: nat)
    requires i + 1 in s.jobs
    ensures var job := s.jobs[i + 1];
            && (job.canceled || InitOf(s).kojiError != "" ==> ImageStatus(s, i) == Failure)
            && (!job.canceled && InitOf(s).kojiError == "" ==>
                  && (ImageStatus(s, i) == Pending <==> !job.started)
                  && (ImageStatus(s, i) == Building <==> job.started && !job.finished)
                  && (ImageStatus(s, i) == Success <==> job.started && job.finished && Good(AsBuild(Reported(job))))
                  && (ImageStatus(s, i) == Failure <==> job.started && job.finished && !Good(AsBuild(Reported(job)))))
  {
  }

  // ----- statuses only move forward -----

  lemma StepAdvances(c: Compose, s: State, step: Step, id: Id)
    requires id in s.jobs && id < s.next
    requires s.jobs[id].finished ==> s.jobs[id].started && !s.jobs[id].canceled
    ensures id in Apply(c, s, step).jobs && Advances(s.jobs[id], Apply(c, s, step).jobs[id])
  {
  }

  predicate Terminal(status: Status) {
    status == Success || status == Failure
  }

  /** Final statuses of `s` are the statuses of `s'`. */
  ghost predicate StatusesKept(c: Compose, s: State, s': State) {
    ComposeKept(c, s, s') && forall i: nat :: ImageKept(s, s', i)
  }

  predicate ComposeKept(c: Compose, s: State, s': State) {
    c.Finalize() in s.jobs && Terminal(ComposeStatus(c, s)) ==>
      c.Finalize() in s'.jobs && ComposeStatus(c, s') == ComposeStatus(c, s)
  }

  predicate ImageKept(s: State, s': State, i: nat) {
    i + 1 in s.jobs && Terminal(ImageStatus(s, i)) ==> i + 1 in s'.jobs && ImageStatus(s', i) == ImageStatus(s, i)
  }

  lemma FinishedStays(c: Compose, s: State, step: Step, id: Id)
    requires Inv(c, s) && Done(s.jobs, id)
    ensures id in Apply(c, s, step).jobs && Apply(c, s, step).jobs[id] == s.jobs[id]
  {
    assert JobInv(c, s, id);
    StepAdvances(c, s, step, id);
  }

  lemma StepKeepsCompose(c: Compose, s: State, step: Step)
    requires Inv(c, s)
    ensures ComposeKept(c, s, Apply(c, s, step))
  {
    var s' := Apply(c, s, step);
    var f := c.Finalize();
    if f in s.jobs && Terminal(ComposeStatus(c, s)) {
      assert JobInv(c, s, f);
      StepAdvances(c, s, step, f);
      if s.jobs[f].finished {
        FinalizeInputs(c, s);
        forall id | 0 <= id <= c.N() ensures id in s'.jobs && s'.jobs[id] == s.jobs[id] {
          FinishedStays(c, s, step, id);
        }
        assert InitOf(s') == InitOf(s);
        assert BuildsOf(c, s') == BuildsOf(c, s);
      }
    }
  }

  /** An image's build job finishes only after init has. */
  lemma InitFirst(c: Compose, s: State, i: nat)
    requires Inv(c, s) && i + 1 in s.jobs
    ensures 0 in s.jobs && i + 1 < s.next && EndsStarted(s, i + 1) && EndsStarted(s, 0)
    ensures s.jobs[i + 1].finished ==> s.jobs[0].finished
  {
    assert JobInv(c, s, i + 1) && JobInv(c, s, 0);
    if s.jobs[i + 1].finished {
      assert c.Deps(i + 1)[0] == 0;
      assert Done(s.jobs, 0);
    }
  }

  predicate EndsStarted(s: State, id: Id) {
    id in s.jobs && (s.jobs[id].finished ==> s.jobs[id].started && !s.jobs[id].canceled)
  }

  lemma StepKeepsImage(c: Compose, s: State, step: Step, i: nat)
    requires Inv(c, s)
    ensures ImageKept(s, Apply(c, s, step), i)
  {
    if i + 1 in s.jobs {
      InitFirst(c, s, i);
      ImageKeptByStep(c, s, step, i);
    }
  }

  lemma ImageKeptByStep(c: Compose, s: State, step: Step, i: nat)
    requires i + 1 < s.next && EndsStarted(s, i + 1) && EndsStarted(s, 0)
    requires s.jobs[i + 1].finished ==> s.jobs[0].finished
    ensures ImageKept(s, Apply(c, s, step), i)
  {
    StepAdvances(c, s, step, i + 1);
    StepAdvances(c, s, step, 0);
    ImageKeptByAdvance(s, Apply(c, s, step), i);
  }

  lemma ImageKeptByAdvance(s: State, s': State, i: nat)
    requires i + 1 in s.jobs && 0 in s.jobs && i + 1 in s'.jobs && 0 in s'.jobs
    requires Advances(s.jobs[i + 1], s'.jobs[i + 1]) && Advances(s.jobs[0], s'.jobs[0])
    requires s.jobs[i + 1].finished ==> s.jobs[0].finished
    ensures ImageKept(s, s', i)
  {
  }

  /** Once a compose or an image is shown as a success or a failure, it stays so. */
  lemma {:induction false} StatusesOnlyMoveForward(c: Compose, steps: seq<Step>, more: seq<Step>)
    ensures StatusesKept(c, Exec(c, steps), Exec(c, steps + more))
  {
    if more == [] {
      assert steps + more == steps;
    } else {
      var init, last := more[..|more| - 1], more[|more| - 1];
      StatusesOnlyMoveForward(c, steps, init);
      assert steps + more == (steps + init) + [last];
      ExecAppend(c, steps + init, last);
      RunInv(c, steps + init);
      var s, mid, s' := Exec(c, steps), Exec(c, steps + init), Exec(c, steps + more);
      StepKeepsCompose(c, mid, last);
      forall i: nat ensures ImageKept(s, s', i) {
        assert ImageKept(s, mid, i);
        StepKeepsImage(c, mid, last, i);
      }
    }
  }

  lemma {:induction false} DoneStays(c: Compose, steps: seq<Step>, more: seq<Step>, id: Id)
    requires Done(Exec(c, steps).jobs, id)
    ensures id in Exec(c, steps + more).jobs && Exec(c, steps + more).jobs[id] == Exec(c, steps).jobs[id]
  {
    if more == [] {
      assert steps + more == steps;
    } else {
      var init, last := more[..|more| - 1], more[|more| - 1];
      DoneStays(c, steps, init, id);
      assert steps + more == (steps + init) + [last];
      ExecAppend(c, steps + init, last);
      RunInv(c, steps + init);
      assert JobInv(c, Exec(c, steps + init), id);
      StepAdvances(c, Exec(c, steps + init), last, id);
    }
  }

  /**
   `GetComposeId` reads the finalize job first and its dependencies later. Whatever
   happens in between, it shows the status of the moment of the first read.
   */
  lemma ReadsNeedNotBeAtomic(c: Compose, steps: seq<Step>, more: seq<Step>)
    requires c.Finalize() in Exec(c, steps).jobs
    ensures ComposeStatusOf(Exec(c, steps).jobs[c.Finalize()], InitOf(Exec(c, steps + more)), BuildsOf(c, Exec(c, steps + more)))
            == ComposeStatus(c, Exec(c, steps))
  {
    var s, s' := Exec(c, steps), Exec(c, steps + more);
    if s.jobs[c.Finalize()].finished {
      RunInv(c, steps);
      assert JobInv(c, s, c.Finalize());
      FinalizeInputs(c, s);
      forall id | 0 <= id <= c.N() ensures id in s'.jobs && s'.jobs[id] == s.jobs[id] {
        assert Done(s.jobs, id);
        DoneStays(c, steps, more, id);
      }
      assert InitOf(s') == InitOf(s) && BuildsOf(c, s') == BuildsOf(c, s);
    }
  }

  // ----- what Koji holds under the imported names -----

  /** What is stored under a name was put there by the last upload of it. */
  lemma {:induction false} StoredUpload(log: seq<Event>, filename: string) returns (j: nat)
    requires Stored(log, filename).Some?
    ensures j < |log| && log[j].Upload? && log[j].filename == filename
    ensures Stored(log, filename) == Some((log[j].hash, log[j].size))
    ensures forall i :: j < i < |log| ==> !(log[i].Upload? && log[i].filename == filename)
  {
    var e := log[|log| - 1];
    if e.Upload? && e.filename == filename {
      j := |log| - 1;
    } else {
      j := StoredUpload(log[..|log| - 1], filename);
    }
  }

  /** Once uploaded, a name is never empty again. */
  lemma {:induction false} StoredSome(log: seq<Event>, filename: string, j: nat)
    requires j < |log| && log[j].Upload? && log[j].filename == filename
    ensures Stored(log, filename).Some?
  {
    if j < |log| - 1 {
      StoredSome(log[..|log| - 1], filename, j);
    }
  }

  /**
   At the moment of an import, Koji holds under every imported name exactly the
   reported file if and only if images that share a name are the same file.
   */
  lemma ImportedFilesAreStored(c: Compose, steps: seq<Step>, k: int)
    requires 0 <= k < |Exec(c, steps).log| && Exec(c, steps).log[k].Import?
    ensures var s := Exec(c, steps);
            var images := s.log[k].images;
            && |images| == c.N()
            && ((forall i :: 0 <= i < c.N() ==> StoredAs(c, s.log[..k], images, i)) <==> SameNameSameFile(c, images))
  {
    RunInv(c, steps);
    var s := Exec(c, steps);
    var images := s.log[k].images;
    ImagesListed(c, s, k);
    if SameNameSameFile(c, images) {
      forall i | 0 <= i < c.N() ensures StoredAs(c, s.log[..k], images, i) {
        ImportedFileIsStored(c, s, k, i);
      }
    }
    if forall i :: 0 <= i < c.N() ==> StoredAs(c, s.log[..k], images, i) {
      StoredMeansSame(c, s.log[..k], images);
    }
  }

  lemma ImagesListed(c: Compose, s: State, k: int)
    requires Inv(c, s) && 0 <= k < |s.log| && s.log[k].Import?
    ensures |s.log[k].images| == c.N()
  {
    assert EventInv(c, s, k);
  }

  lemma StoredMeansSame(c: Compose, log: seq<Event>, images: seq<Image>)
    requires |images| == c.N() && forall i :: 0 <= i < c.N() ==> StoredAs(c, log, images, i)
    ensures SameNameSameFile(c, images)
  {
    forall i, j | 0 <= i < c.N() && 0 <= j < c.N() && c.filenames[i] == c.filenames[j]
      ensures images[i].hash == images[j].hash && images[i].size == images[j].size
    {
      assert StoredAs(c, log, images, i) && StoredAs(c, log, images, j);
    }
  }

  /** Images that share a file name are the same file. */
  predicate SameNameSameFile(c: Compose, images: seq<Image>)
    requires |images| == c.N()
  {
    forall i, j :: 0 <= i < c.N() && 0 <= j < c.N() && c.filenames[i] == c.filenames[j] ==>
      images[i].hash == images[j].hash && images[i].size == images[j].size
  }

  predicate StoredAs(c: Compose, log: seq<Event>, images: seq<Image>, i: nat)
    requires |images| == c.N() && i < c.N()
  {
    Stored(log, c.filenames[i]) == Some((images[i].hash, images[i].size))
  }

  lemma ImportedFileIsStored(c: Compose, s: State, k: int, i: nat)
    requires Inv(c, s) && 0 <= k < |s.log| && s.log[k].Import? && i < c.N()
    requires |s.log[k].images| == c.N() && SameNameSameFile(c, s.log[k].images)
    ensures StoredAs(c, s.log[..k], s.log[k].images, i)
  {
    var log := s.log[..k];
    var n := UploadIsReported(c, s, k, i);
    assert log[n] == s.log[n];
    StoredSome(log, c.filenames[i], n);
    var j := StoredUpload(log, c.filenames[i]);
    assert log[j] == s.log[j];
    UploadRecorded(c, s, j);
    var m := UploadIsReported(c, s, k, s.log[j].build);
  }

  /** An imported image is what its build job reported, and it was uploaded before. */
  lemma UploadIsReported(c: Compose, s: State, k: int, j: nat) returns (n: nat)
    requires Inv(c, s) && 0 <= k < |s.log| && s.log[k].Import? && j < c.N() && |s.log[k].images| == c.N()
    ensures n < k && s.log[n] == Uploads(c, j, s.log[k].images[j])
    ensures j + 1 in s.local &&
            s.local[j + 1] == BuildJson(BuildResult(Some(true), s.log[k].images[j].hash, s.log[k].images[j].size, ""))
  {
    n := ImportFrom(c, s, k, j);
    UploadRecorded(c, s, n);
  }

  lemma ImportFrom(c: Compose, s: State, k: int, j: nat) returns (n: nat)
    requires Inv(c, s) && 0 <= k < |s.log| && s.log[k].Import? && j < c.N() && |s.log[k].images| == c.N()
    ensures n < k && s.log[n] == Uploads(c, j, s.log[k].images[j])
  {
    EventsHold(c, s, k);
    n := ImportListsUploads(c, s, k, j);
  }

  lemma UploadRecorded(c: Compose, s: State, n: nat)
    requires Inv(c, s) && n < |s.log| && s.log[n].Upload?
    ensures var u := s.log[n];
            && u.build < c.N() && u.filename == c.filenames[u.build]
            && u.build + 1 in s.local && s.local[u.build + 1] == BuildJson(BuildResult(Some(true), u.hash, u.size, ""))
  {
    EventsHold(c, s, n);
    UploadReported(c, s, n);
  }

  lemma EventsHold(c: Compose, s: State, k: int)
    requires Inv(c, s) && 0 <= k < |s.log|
    ensures EventInv(c, s, k)
  {
  }

  lemma UploadReported(c: Compose, s: State, n: int)
    requires 0 <= n < |s.log| && s.log[n].Upload? && EventInv(c, s, n)
    ensures var u := s.log[n];
            && u.build < c.N() && u.filename == c.filenames[u.build]
            && u.build + 1 in s.local && s.local[u.build + 1] == BuildJson(BuildResult(Some(true), u.hash, u.size, ""))
  {
  }

  lemma ImportListsUploads(c: Compose, s: State, k: int, j: nat) returns (n: nat)
    requires 0 <= k < |s.log| && s.log[k].Import? && EventInv(c, s, k) && j < c.N() && |s.log[k].images| == c.N()
    ensures n < k && s.log[n] == Uploads(c, j, s.log[k].images[j])
  {
    var u := Uploads(c, j, s.log[k].images[j]);
    assert u in s.log[..k];
    n :| 0 <= n < k && s.log[..k][n] == u;
  }

  lemma ExecAppend(c: Compose, steps: seq<Step>, step: Step)
    ensures Exec(c, steps + [step]) == Apply(c, Exec(c, steps), step)
  {
    assert (steps + [step])[..|steps|] == steps;
  }
}
